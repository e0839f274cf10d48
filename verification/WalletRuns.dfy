/** Runs of the wallet: what has been submitted, confirmed and fired over any sequence of calls. */
module WalletRuns {
  import opened Common
  import opened Masks
  import opened WalletSpec
  import opened WalletInvariant

  datatype Call =
    | SubmitCall(now: nat, transLt: nat, key: nat, request: Request, balance: nat)
    | ConfirmCall(now: nat, key: nat, id: nat)
    | SendCall(key: nat, transfer: Transfer)

  /** `used` are the ids generated so far, whether or not the call went through. */
  datatype History = History(state: State, log: seq<Event>, used: set<nat>)

  function Step(h: History, call: Call): History
    requires Fits(h.state)
  {
    match call
    case SubmitCall(now, transLt, key, r, balance) =>
      var res := Submit(h.state, now, transLt, key, r, balance);
      History(res.state, h.log + SubmitEvents(res.outcome, IndexOf(h.state, key), TransferOf(r, balance)),
              h.used + {GenerateId(now, transLt)})
    case ConfirmCall(now, key, id) =>
      var res := Confirm(h.state, now, key, id);
      History(res.state, h.log + ConfirmEvents(res.outcome, IndexOf(h.state, key)), h.used)
    case SendCall(key, t) =>
      h.(state := SendTransaction(h.state, key, t).state)
  }

  /** The custodians who have confirmed a transfer, the submitter included. */
  ghost function Confirmers(log: seq<Event>, id: nat): set<nat> { set i: nat | i < 32 && Confirmed(id, i) in log }

  ghost predicate CompletedIn(log: seq<Event>, id: nat) { exists t :: Completed(id, t) in log }

  /** The confirmations a transfer needs. */
  function Need(required: nat): nat { if required == 0 then 1 else required }

  /** No transfer completes twice, and no custodian confirms a transfer twice. */
  ghost predicate NothingTwice(log: seq<Event>) {
    forall i, j | 0 <= i < j < |log| && log[i].id == log[j].id ::
      && !(log[i].Completed? && log[j].Completed?)
      && !(log[i].Submitted? && log[j].Submitted?)
      && (log[i].Confirmed? ==> log[i] != log[j])
  }

  /** A stored transfer carries exactly the confirmations of its mask, and it has not completed. */
  ghost predicate StoreLogged(txs: Pending, log: seq<Event>, used: set<nat>) {
    forall id | id in txs ::
      && id in used && Submitted(id, txs[id].transfer) in log
      && Confirmers(log, id) == Members(txs[id].confirmationsMask) && !CompletedIn(log, id)
  }

  /** A transfer has completed if and only if its distinct confirmers have reached the number needed, which they
      never exceed. */
  ghost predicate CountsLogged(required: nat, log: seq<Event>) {
    forall id ::
      && |Confirmers(log, id)| <= Need(required)
      && (CompletedIn(log, id) <==> |Confirmers(log, id)| == Need(required))
  }

  /** Only generated ids occur, and what completes is what was submitted. */
  ghost predicate EventsLogged(log: seq<Event>, used: set<nat>) {
    forall e | e in log :: e.id in used && (e.Completed? ==> Submitted(e.id, e.transfer) in log)
  }

  ghost predicate LogInv(required: nat, txs: Pending, log: seq<Event>, used: set<nat>) {
    && StoreLogged(txs, log, used) && CountsLogged(required, log)
    && EventsLogged(log, used) && NothingTwice(log)
  }

  lemma ConfirmersAfter(log: seq<Event>, e: Event, id: nat)
    ensures Confirmers(log + [e], id)
         == Confirmers(log, id) + if e.Confirmed? && e.id == id && e.index < 32 then {e.index} else {}
    ensures CompletedIn(log + [e], id) <==> CompletedIn(log, id) || (e.Completed? && e.id == id)
  {
    if e.Completed? && e.id == id {
      assert Completed(id, e.transfer) in log + [e];
    }
    if CompletedIn(log, id) {
      var t :| Completed(id, t) in log;
      assert Completed(id, t) in log + [e];
    }
  }

  lemma NothingTwiceAfter(log: seq<Event>, e: Event)
    requires NothingTwice(log)
    requires e.Completed? ==> !CompletedIn(log, e.id)
    requires e.Submitted? ==> forall x | x in log :: x.id != e.id
    requires e.Confirmed? ==> e !in log
    ensures NothingTwice(log + [e])
  {
    forall i | 0 <= i < |log| && log[i].id == e.id
      ensures !(log[i].Completed? && e.Completed?) && !(log[i].Submitted? && e.Submitted?)
      ensures log[i].Confirmed? ==> log[i] != e
    {
      assert log[i] in log;
      if log[i].Completed? {
        assert Completed(e.id, log[i].transfer) in log;
      }
    }
  }

  lemma UnusedHasNone(required: nat, txs: Pending, log: seq<Event>, used: set<nat>, id: nat)
    requires LogInv(required, txs, log, used) && id !in used
    ensures Confirmers(log, id) == {} && !CompletedIn(log, id) && id !in txs
  {
  }

  lemma LogAfterCleanup(required: nat, txs: Pending, txs': Pending, log: seq<Event>, used: set<nat>)
    requires LogInv(required, txs, log, used)
    requires forall id | id in txs' :: id in txs && txs'[id] == txs[id]
    ensures LogInv(required, txs', log, used)
  {
  }

  /** The events of one call, seen by one id. */
  ghost predicate Unchanged(log: seq<Event>, log': seq<Event>, id: nat) {
    Confirmers(log', id) == Confirmers(log, id) && (CompletedIn(log', id) <==> CompletedIn(log, id))
  }

  lemma StoreAfter(txs: Pending, log: seq<Event>, events: seq<Event>, used: set<nat>)
    requires StoreLogged(txs, log, used)
    requires forall id | id in txs :: Unchanged(log, log + events, id)
    ensures StoreLogged(txs, log + events, used)
  {
    hide Confirmers, CompletedIn, Members;
  }

  lemma CountsAfter(required: nat, log: seq<Event>, log': seq<Event>, id: nat)
    requires CountsLogged(required, log)
    requires forall x | x != id :: Unchanged(log, log', x)
    requires |Confirmers(log', id)| <= Need(required)
    requires CompletedIn(log', id) <==> |Confirmers(log', id)| == Need(required)
    ensures CountsLogged(required, log')
  {
    hide Confirmers, CompletedIn, Need;
    forall x
      ensures |Confirmers(log', x)| <= Need(required)
           && (CompletedIn(log', x) <==> |Confirmers(log', x)| == Need(required))
    {
      if x != id {
        assert Unchanged(log, log', x);
      }
    }
  }

  lemma OneEvent(log: seq<Event>, e: Event)
    ensures forall x | x != e.id :: Unchanged(log, log + [e], x)
    ensures e.Submitted? ==> Unchanged(log, log + [e], e.id)
  {
    forall x ensures x != e.id || e.Submitted? ==> Unchanged(log, log + [e], x) {
      ConfirmersAfter(log, e, x);
    }
  }

  lemma NewConfirmer(log: seq<Event>, id: nat, index: nat)
    requires index < 32 && index !in Confirmers(log, id)
    ensures var log' := log + [Confirmed(id, index)];
      && Confirmers(log', id) == Confirmers(log, id) + {index}
      && |Confirmers(log', id)| == |Confirmers(log, id)| + 1
      && (CompletedIn(log', id) <==> CompletedIn(log, id))
      && Confirmed(id, index) !in log
  {
    ConfirmersAfter(log, Confirmed(id, index), id);
  }

  lemma UnchangedTwice(log: seq<Event>, log': seq<Event>, log'': seq<Event>, id: nat)
    requires forall x | x != id :: Unchanged(log, log', x)
    requires forall x | x != id :: Unchanged(log', log'', x)
    ensures forall x | x != id :: Unchanged(log, log'', x)
  {
    hide Confirmers, CompletedIn;
    forall x | x != id ensures Unchanged(log, log'', x) {
      assert Unchanged(log, log', x) && Unchanged(log', log'', x);
    }
  }

  lemma SubmitLogged(required: nat, txs: Pending, log: seq<Event>, used: set<nat>, id: nat, t: Transaction)
    requires LogInv(required, txs, log, used) && id !in used && t.confirmationsMask == 0
    ensures LogInv(required, txs[id := t], log + [Submitted(id, t.transfer)], used + {id})
  {
    var e := Submitted(id, t.transfer);
    UnusedHasNone(required, txs, log, used, id);
    NothingTwiceAfter(log, e);
    NoMembers();
    OneEvent(log, e);
    hide NothingTwice, Members, Confirmers, CompletedIn;
    StoreAfter(txs, log, [e], used);
    CountsAfter(required, log, log + [e], id);
  }

  lemma ConfirmLogged(required: nat, txs: Pending, log: seq<Event>, used: set<nat>, id: nat, index: nat, t: Transaction)
    requires LogInv(required, txs, log, used) && id in txs && index < 32
    requires index !in Members(txs[id].confirmationsMask)
    requires Members(t.confirmationsMask) == Members(txs[id].confirmationsMask) + {index}
    requires t.transfer == txs[id].transfer && |Members(t.confirmationsMask)| < Need(required)
    ensures LogInv(required, txs[id := t], log + [Confirmed(id, index)], used)
  {
    hide NothingTwice, Members, Confirmers, CompletedIn, Need, CountsLogged;
    var e := Confirmed(id, index);
    ConfirmCounts(required, log, id, index);
    NewConfirmer(log, id, index);
    OneEvent(log, e);
    assert StoreLogged(txs - {id}, log, used);
    StoreAfter(txs - {id}, log, [e], used);
  }

  lemma ConfirmCounts(required: nat, log: seq<Event>, id: nat, index: nat)
    requires CountsLogged(required, log) && NothingTwice(log) && index < 32
    requires index !in Confirmers(log, id) && |Confirmers(log, id)| + 1 < Need(required)
    ensures var log' := log + [Confirmed(id, index)]; CountsLogged(required, log') && NothingTwice(log')
  {
    hide NothingTwice, Confirmers, CompletedIn, Need;
    NewConfirmer(log, id, index);
    NothingTwiceAfter(log, Confirmed(id, index));
    OneEvent(log, Confirmed(id, index));
    CountsAfter(required, log, log + [Confirmed(id, index)], id);
  }

  lemma FireCounts(required: nat, log: seq<Event>, id: nat, index: nat, transfer: Transfer)
    requires CountsLogged(required, log) && NothingTwice(log) && index < 32
    requires index !in Confirmers(log, id) && |Confirmers(log, id)| + 1 == Need(required)
    ensures var log' := log + [Confirmed(id, index)] + [Completed(id, transfer)];
      CountsLogged(required, log') && NothingTwice(log')
    ensures forall x | x != id :: Unchanged(log, log + [Confirmed(id, index)] + [Completed(id, transfer)], x)
  {
    hide NothingTwice, Confirmers, CompletedIn, Need, Unchanged;
    var log1 := log + [Confirmed(id, index)];
    NewConfirmer(log, id, index);
    NothingTwiceAfter(log, Confirmed(id, index));
    OneEvent(log, Confirmed(id, index));
    NothingTwiceAfter(log1, Completed(id, transfer));
    OneEvent(log1, Completed(id, transfer));
    ConfirmersAfter(log1, Completed(id, transfer), id);
    UnchangedTwice(log, log1, log1 + [Completed(id, transfer)], id);
    CountsAfter(required, log, log1 + [Completed(id, transfer)], id);
  }

  lemma FireLogged(required: nat, txs: Pending, log: seq<Event>, used: set<nat>, id: nat, index: nat)
    requires LogInv(required, txs, log, used) && id in txs && index < 32
    requires index !in Members(txs[id].confirmationsMask)
    requires |Members(txs[id].confirmationsMask)| + 1 == Need(required)
    ensures LogInv(required, txs - {id}, log + ([Confirmed(id, index)] + [Completed(id, txs[id].transfer)]), used)
  {
    hide NothingTwice, Members, Confirmers, CompletedIn, Need, CountsLogged;
    var e, f := Confirmed(id, index), Completed(id, txs[id].transfer);
    FireCounts(required, log, id, index, txs[id].transfer);
    ConcatAssociates(log, [e], [f]);
    assert StoreLogged(txs - {id}, log, used);
    StoreAfter(txs - {id}, log, [e] + [f], used);
  }

  /** Wallet and log together. */
  ghost predicate HistoryInv(h: History) {
    WalletInv(h.state) && LogInv(h.state.defaultRequired, h.state.transactions, h.log, h.used)
  }

  /** Confirming a stored transaction that the custodian has not confirmed, seen in the log. */
  lemma StoredConfirmLogged(c: State, log: seq<Event>, used: set<nat>, id: nat, index: nat)
    requires LogInv(c.defaultRequired, c.transactions, log, used) && id in c.transactions && index < 32
    requires var t := c.transactions[id];
      && t.signsRequired == c.defaultRequired && !CheckBit(t.confirmationsMask, index)
      && t.signsReceived == |Members(t.confirmationsMask)| && t.signsReceived < Need(c.defaultRequired)
    ensures var res := ConfirmTransaction(c, id, c.transactions[id], index);
      LogInv(c.defaultRequired, res.state.transactions, log + ConfirmEvents(res.outcome, index), used)
  {
    hide LogInv, SetConfirmed;
    var t := c.transactions[id];
    assert index !in Members(t.confirmationsMask);
    SetOneFlag(t.confirmationsMask, index);
    hide CheckBit, Members;
    if t.signsReceived + 1 >= t.signsRequired {
      FireLogged(c.defaultRequired, c.transactions, log, used, id, index);
    } else {
      ConfirmLogged(c.defaultRequired, c.transactions, log, used, id, index,
                    t.(confirmationsMask := SetConfirmed(t.confirmationsMask, index),
                       signsReceived := t.signsReceived + 1));
    }
  }

  lemma ConfirmCallKeeps(h: History, now: nat, key: nat, id: nat)
    requires HistoryInv(h)
    ensures Fits(h.state) && HistoryInv(Step(h, ConfirmCall(now, key, id)))
  {
    hide LogInv, WalletInv, Confirm, Cleanup, CheckBit, Members, ConfirmTransaction, ConfirmEvents;
    var s, c := h.state, Cleanup(h.state, now);
    IndicesFit(s);
    ConfirmKeeps(s, now, key, id);
    CleanupKeeps(s, now);
    LogAfterCleanup(s.defaultRequired, s.transactions, c.transactions, h.log, h.used);
    ConfirmOutcome(s, now, key, id);
    StoredOk(c);
    assert h.log + [] == h.log;
    var res := Confirm(s, now, key, id);
    if res.outcome.Waiting? || res.outcome.Fired? {
      StoredConfirmLogged(c, h.log, h.used, id, s.custodians[key]);
    }
  }

  lemma StoredOk(c: State)
    requires WalletInv(c)
    ensures forall id | id in c.transactions :: var t := c.transactions[id];
      && t.signsRequired == c.defaultRequired && t.signsReceived == |Members(t.confirmationsMask)|
      && t.signsReceived < Need(c.defaultRequired)
  {
    hide Members;
    assert forall id | id in c.transactions ::
      TxOk(c.custodians, c.custodianCount, c.defaultRequired, id, c.transactions[id]);
  }

  lemma MoreUsed(required: nat, txs: Pending, log: seq<Event>, used: set<nat>, id: nat)
    requires LogInv(required, txs, log, used)
    ensures LogInv(required, txs, log, used + {id})
  {
    hide NothingTwice, Members, Confirmers, CompletedIn, CountsLogged;
  }

  lemma FirstConfirm(c: State, stored: State, id: nat, t: Transaction, index: nat)
    requires index < 32 && t.signsReceived == 0 && t.confirmationsMask == 0
    requires stored.defaultRequired == c.defaultRequired && stored.transactions == c.transactions[id := t]
    requires id !in c.transactions && t.index == index && t.id == id
    ensures var res, direct := ConfirmTransaction(stored, id, t, index),
                               ConfirmTransaction(c.(requestsMask := stored.requestsMask), id, t, index);
      && res.outcome == direct.outcome && res.state.transactions == direct.state.transactions
      && (res.outcome.Waiting? || res.outcome.Fired?)
      && SubmitEvents(res.outcome, index, t.transfer) == [Submitted(id, t.transfer)] + ConfirmEvents(res.outcome, index)
  {
    hide SetConfirmed;
    assert c.transactions[id := t] - {id} == c.transactions - {id};
  }

  lemma NewTransactionLogged(c: State, log: seq<Event>, used: set<nat>, id: nat, key: nat, transfer: Transfer)
    requires LogInv(c.defaultRequired, c.transactions, log, used) && id !in used && id !in c.transactions
    requires key in c.custodians && c.custodians[key] < 32 && c.defaultRequired != 1
    ensures
      var index := c.custodians[key];
      var counted := c.(requestsMask := IncMaskValue(c.requestsMask, index));
      var res := ConfirmTransaction(counted, id, NewTransaction(c, id, key, transfer), index);
      LogInv(c.defaultRequired, res.state.transactions, log + SubmitEvents(res.outcome, index, transfer), used + {id})
  {
    var index, t := c.custodians[key], NewTransaction(c, id, key, transfer);
    var stored := c.(requestsMask := IncMaskValue(c.requestsMask, index), transactions := c.transactions[id := t]);
    SubmitLogged(c.defaultRequired, c.transactions, log, used, id, t);
    NoMembers();
    assert !CheckBit(0, index) by { assert index !in Members(0); }
    hide LogInv, Members, CheckBit;
    StoredConfirmLogged(stored, log + [Submitted(id, transfer)], used + {id}, id, index);
    FirstConfirm(c, stored, id, t, index);
    hide ConfirmTransaction, SubmitEvents, ConfirmEvents;
    var o := ConfirmTransaction(stored, id, t, index).outcome;
    ConcatAssociates(log, [Submitted(id, transfer)], ConfirmEvents(o, index));
  }

  lemma SubmitCallKeeps(h: History, now: nat, transLt: nat, key: nat, r: Request, balance: nat)
    requires HistoryInv(h) && GenerateId(now, transLt) !in h.used
    ensures Fits(h.state) && HistoryInv(Step(h, SubmitCall(now, transLt, key, r, balance)))
  {
    hide WalletInv, Cleanup, GenerateId, Submit, SubmitEvents, ConfirmTransaction, LogInv, TransferOf;
    var s, c, id := h.state, Cleanup(h.state, now), GenerateId(now, transLt);
    IndicesFit(s);
    UnusedHasNone(s.defaultRequired, s.transactions, h.log, h.used, id);
    SubmitKeeps(s, now, transLt, key, r, balance);
    CleanupKeeps(s, now);
    LogAfterCleanup(s.defaultRequired, s.transactions, c.transactions, h.log, h.used);
    MoreUsed(s.defaultRequired, s.transactions, h.log, h.used, id);
    MoreUsed(s.defaultRequired, c.transactions, h.log, h.used, id);
    assert h.log + [] == h.log;
    SubmitOutcome(s, now, transLt, key, r, balance);
    var res := Submit(s, now, transLt, key, r, balance);
    if res.outcome.Waiting? || res.outcome.Fired? {
      NewTransactionLogged(c, h.log, h.used, id, key, TransferOf(r, balance));
    }
  }

  // ---- runs ----

  function IdsOf(calls: seq<Call>): set<nat> {
    set i | 0 <= i < |calls| && calls[i].SubmitCall? :: GenerateId(calls[i].now, calls[i].transLt)
  }

  /** Within one second no two submitting transactions share the low half of their logical time. */
  ghost predicate DistinctTimes(calls: seq<Call>) {
    forall i, j | 0 <= i < j < |calls| && calls[i].SubmitCall? && calls[j].SubmitCall?
                  && calls[i].now == calls[j].now ::
      calls[i].transLt % TWO_32 != calls[j].transLt % TWO_32
  }

  lemma IdsAreDistinct(calls: seq<Call>, call: Call)
    requires DistinctTimes(calls + [call]) && call.SubmitCall?
    ensures GenerateId(call.now, call.transLt) !in IdsOf(calls)
  {
    forall i | 0 <= i < |calls| && calls[i].SubmitCall?
      ensures GenerateId(calls[i].now, calls[i].transLt) != GenerateId(call.now, call.transLt)
    {
      assert (calls + [call])[i] == calls[i] && (calls + [call])[|calls|] == call;
      assert calls[i].now != call.now || calls[i].transLt % TWO_32 != call.transLt % TWO_32;
    }
  }

  ghost predicate IsRun(start: State, calls: seq<Call>, h: History)
    decreases |calls|
  {
    if calls == [] then h == History(start, [], {}) else
      exists before ::
        IsRun(start, calls[..|calls| - 1], before) && Fits(before.state) && h == Step(before, calls[|calls| - 1])
  }

  /** Main result: after any calls to a freshly constructed wallet, the counters, the masks and the store agree,
      every transfer has fired at most once, and it has fired if and only if its distinct confirmers have reached
      max(1, signsRequired). */
  lemma {:induction false} RunKeeps(owners: seq<nat>, reqConfirms: nat, calls: seq<Call>, h: History)
    requires 0 < |owners| <= MAX_CUSTODIAN_COUNT && DistinctTimes(calls)
    requires IsRun(Initialized(owners, reqConfirms), calls, h)
    ensures HistoryInv(h) && h.used == IdsOf(calls)
    decreases |calls|
  {
    hide HistoryInv, Initialized, Step, IdsOf, DistinctTimes;
    if calls == [] {
      StartKept(owners, reqConfirms);
    } else {
      var front, last := calls[..|calls| - 1], calls[|calls| - 1];
      var before :|
        IsRun(Initialized(owners, reqConfirms), front, before) && Fits(before.state) && h == Step(before, last);
      assert calls == front + [last];
      DistinctFront(front, last);
      RunKeeps(owners, reqConfirms, front, before);
      StepKeeps(front, before, last);
    }
  }

  lemma DistinctFront(calls: seq<Call>, call: Call)
    requires DistinctTimes(calls + [call])
    ensures DistinctTimes(calls)
  {
    assert forall i | 0 <= i < |calls| :: (calls + [call])[i] == calls[i];
  }

  lemma StepKeeps(calls: seq<Call>, h: History, call: Call)
    requires HistoryInv(h) && h.used == IdsOf(calls) && DistinctTimes(calls + [call])
    ensures Fits(h.state) && HistoryInv(Step(h, call)) && Step(h, call).used == IdsOf(calls + [call])
  {
    IndicesFit(h.state);
    IdsAppend(calls, call);
    hide HistoryInv, IdsOf, DistinctTimes, Submit, Confirm;
    match call
    case SubmitCall(now, transLt, key, r, balance) =>
      IdsAreDistinct(calls, call);
      SubmitCallKeeps(h, now, transLt, key, r, balance);
    case ConfirmCall(now, key, id) =>
      ConfirmCallKeeps(h, now, key, id);
    case SendCall(_, _) =>
  }

  lemma StartKept(owners: seq<nat>, reqConfirms: nat)
    requires 0 < |owners| <= MAX_CUSTODIAN_COUNT
    ensures HistoryInv(History(Initialized(owners, reqConfirms), [], {})) && IdsOf([]) == {}
  {
    InitializedOk(owners, reqConfirms);
    StartLogged(Initialized(owners, reqConfirms));
  }

  lemma IdsAppend(calls: seq<Call>, call: Call)
    ensures IdsOf(calls + [call])
         == IdsOf(calls) + if call.SubmitCall? then {GenerateId(call.now, call.transLt)} else {}
  {
    var all := calls + [call];
    forall id | id in IdsOf(calls) ensures id in IdsOf(all) {
      var i :| 0 <= i < |calls| && calls[i].SubmitCall? && id == GenerateId(calls[i].now, calls[i].transLt);
      assert all[i] == calls[i];
    }
    assert all[|calls|] == call;
  }

  lemma StartLogged(start: State)
    requires WalletInv(start) && start.transactions == map[]
    ensures HistoryInv(History(start, [], {}))
  {
    forall id ensures Confirmers([], id) == {} && !CompletedIn([], id) {}
  }

  /** The main result read on single transfers. */
  lemma FiresExactlyAtQuorum(h: History, id: nat)
    requires HistoryInv(h)
    ensures (exists t :: Completed(id, t) in h.log) <==> |Confirmers(h.log, id)| == Need(h.state.defaultRequired)
    ensures |Confirmers(h.log, id)| <= Need(h.state.defaultRequired)
    ensures forall i, j | 0 <= i < j < |h.log| && h.log[i].Completed? && h.log[j].Completed? ::
      h.log[i].id != h.log[j].id
    ensures forall t | Completed(id, t) in h.log :: Submitted(id, t) in h.log && id !in h.state.transactions
    ensures id in h.state.transactions ==>
      var t := h.state.transactions[id];
      && Members(t.confirmationsMask) == Confirmers(h.log, id)
      && t.signsReceived == |Members(t.confirmationsMask)| && t.signsReceived < t.signsRequired
  {
    hide Members, Confirmers;
    if CompletedIn(h.log, id) {
      var t :| Completed(id, t) in h.log;
    }
    assert forall t | Completed(id, t) in h.log :: CompletedIn(h.log, id);
  }

  // ---- who may send directly ----

  /** What no call changes. */
  function Settings(s: State): State { s.(requestsMask := 0, transactions := map[]) }

  lemma StepKeepsSettings(h: History, call: Call)
    requires Fits(h.state)
    ensures Settings(Step(h, call).state) == Settings(h.state)
  {
    hide Clean, GetMaskValue, IncMaskValue, DecMaskValue, SetConfirmed, CheckBit, IndexOf, SubmitEvents, ConfirmEvents;
    if call.SubmitCall? || call.ConfirmCall? {
      CleanFrame(h.state, Marker(call.now), MAX_CLEANUP_TXNS);
    }
  }

  lemma {:induction false} RunKeepsSettings(start: State, calls: seq<Call>, h: History)
    requires IsRun(start, calls, h)
    ensures Settings(h.state) == Settings(start)
    decreases |calls|
  {
    hide Step, Settings;
    if calls == [] {
    } else {
      var front, last := calls[..|calls| - 1], calls[|calls| - 1];
      var before :| IsRun(start, front, before) && Fits(before.state) && h == Step(before, last);
      RunKeepsSettings(start, front, before);
      StepKeepsSettings(before, last);
    }
  }

  /** There is one custodian exactly when all owners are the same key. */
  lemma SoleOwner(owners: seq<nat>, reqConfirms: nat)
    requires 0 < |owners| <= MAX_CUSTODIAN_COUNT
    ensures Initialized(owners, reqConfirms).ownerKey == owners[0]
    ensures Initialized(owners, reqConfirms).custodianCount == 1 <==> forall k | k in owners :: k == owners[0]
  {
    InitializedOk(owners, reqConfirms);
    var s := Initialized(owners, reqConfirms);
    hide Initialized, Enroll;
    assert owners[0] in s.custodians;
    if s.custodianCount >= 2 {
      assert HasIndex(s.custodians, 0) && HasIndex(s.custodians, 1);
      var k :| k in s.custodians && s.custodians[k] == 0;
      var l :| l in s.custodians && s.custodians[l] == 1;
      assert k in owners && l in owners && k != l;
    } else {
      forall k | k in owners ensures k == owners[0] {
        assert s.custodians[k] == s.custodians[owners[0]] == 0;
      }
    }
  }

  /** After any calls to a wallet, a key may send directly exactly when it is the only owner, and sending changes
      nothing. */
  lemma OnlySoleOwnerSends(owners: seq<nat>, reqConfirms: nat, calls: seq<Call>, h: History, key: nat, t: Transfer)
    requires 0 < |owners| <= MAX_CUSTODIAN_COUNT && IsRun(Initialized(owners, reqConfirms), calls, h)
    ensures SendTransaction(h.state, key, t).state == h.state
    ensures SendTransaction(h.state, key, t).outcome == Sent(t) <==> forall k :: k in owners <==> k == key
  {
    RunKeepsSettings(Initialized(owners, reqConfirms), calls, h);
    SoleOwner(owners, reqConfirms);
    var start := Initialized(owners, reqConfirms);
    assert Settings(h.state).ownerKey == Settings(start).ownerKey
        && Settings(h.state).custodianCount == Settings(start).custodianCount;
    assert owners[0] in owners;
  }
}
