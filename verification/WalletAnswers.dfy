/** What the wallet answers and what it pays, read from its calls alone. */
module WalletAnswers {
  import opened Common
  import opened OrderedKeys
  import opened Masks
  import opened WalletSpec
  import opened WalletInvariant
  import opened WalletRuns

  // ---- every payment has been asked for ----

  /** Call `i` submitted the transfer under this id. */
  predicate AskedAt(calls: seq<Call>, i: nat, id: nat, t: Transfer) {
    && i < |calls| && calls[i].SubmitCall?
    && GenerateId(calls[i].now, calls[i].transLt) == id && AskedFor(calls[i].request, calls[i].balance, t)
  }

  ghost predicate AskedIn(calls: seq<Call>, id: nat, t: Transfer) { exists i: nat :: AskedAt(calls, i, id, t) }

  ghost predicate AllAsked(calls: seq<Call>, log: seq<Event>) {
    forall e | e in log && e.Submitted? :: AskedIn(calls, e.id, e.transfer)
  }

  lemma AllAskedMore(calls: seq<Call>, call: Call, log: seq<Event>)
    requires AllAsked(calls, log)
    ensures AllAsked(calls + [call], log)
  {
    hide GenerateId, AskedFor;
    forall e | e in log && e.Submitted? ensures AskedIn(calls + [call], e.id, e.transfer) {
      var i: nat :| AskedAt(calls, i, e.id, e.transfer);
      assert AskedAt(calls + [call], i, e.id, e.transfer);
    }
  }

  lemma TransferIsAsked(r: Request, balance: nat)
    ensures AskedFor(r, balance, TransferOf(r, balance))
  {
  }

  /** What one call adds to the log has been asked for by this call. */
  lemma StepIsAsked(calls: seq<Call>, h: History, call: Call)
    requires Fits(h.state) && AllAsked(calls, h.log)
    ensures AllAsked(calls + [call], Step(h, call).log)
  {
    hide GenerateId, Submit, Confirm, SendTransaction, AskedFor, TransferOf, WalletSpec.ConfirmTransaction;
    AllAskedMore(calls, call, h.log);
    if call.SubmitCall? {
      var s, r := h.state, call.request;
      SubmitOutcome(s, call.now, call.transLt, call.key, r, call.balance);
      TransferIsAsked(r, call.balance);
      var id := GenerateId(call.now, call.transLt);
      assert AskedAt(calls + [call], |calls|, id, TransferOf(r, call.balance));
      SubmittedId(s, call.now, call.transLt, call.key, r, call.balance);
    }
    hide AskedIn;
  }

  lemma SubmittedId(s: State, now: nat, transLt: nat, key: nat, r: Request, balance: nat)
    requires Fits(s)
    ensures var o := Submit(s, now, transLt, key, r, balance).outcome;
      && (o.Waiting? || o.Fired? ==> o.id == GenerateId(now, transLt))
      && (o.Sent? || o.Fired? ==> o.transfer == TransferOf(r, balance))
  {
    hide Cleanup, GetMaskValue, IncMaskValue, DecMaskValue, SetConfirmed, GenerateId, TransferOf;
  }

  lemma {:induction false} RunIsAsked(start: State, calls: seq<Call>, h: History)
    requires IsRun(start, calls, h)
    ensures AllAsked(calls, h.log)
    decreases |calls|
  {
    hide Step, AllAsked;
    if calls == [] {
      assert AllAsked([], []) by {
        NothingAsked();
      }
    } else {
      var front, last := calls[..|calls| - 1], calls[|calls| - 1];
      var before :| IsRun(start, front, before) && Fits(before.state) && h == Step(before, last);
      RunIsAsked(start, front, before);
      StepIsAsked(front, before, last);
      assert calls == front + [last];
    }
  }

  lemma NothingAsked()
    ensures AllAsked([], [])
  {
  }

  function OutcomeOf(s: State, call: Call): Outcome
    requires Fits(s)
  {
    match call
    case SubmitCall(now, transLt, key, r, balance) => Submit(s, now, transLt, key, r, balance).outcome
    case ConfirmCall(now, key, id) => Confirm(s, now, key, id).outcome
    case SendCall(key, t) => SendTransaction(s, key, t).outcome
  }

  lemma ConfirmedId(s: State, now: nat, key: nat, id: nat)
    requires Fits(s)
    ensures var o := Confirm(s, now, key, id).outcome;
      && !o.Sent?
      && (o.Fired? ==> o.id == id && id in s.transactions && o.transfer == s.transactions[id].transfer)
  {
    CleanDeletesOne(s, Marker(now), MAX_CLEANUP_TXNS, id);
    hide Clean, DecMaskValue, SetConfirmed, CheckBit;
  }

  /** Main result on payments: whatever the wallet pays at any point of a run was asked for. A submission pays, at once
      or later, what it asked for itself and nothing else; a confirmation pays what an earlier submission with its id
      asked for; a direct send pays what it was given. So without `allBalance` no other value than the one requested
      leaves. */
  lemma EveryPaymentWasAskedFor(owners: seq<nat>, reqConfirms: nat, calls: seq<Call>, h: History, call: Call)
    requires 0 < |owners| <= MAX_CUSTODIAN_COUNT && DistinctTimes(calls)
    requires IsRun(Initialized(owners, reqConfirms), calls, h)
    ensures Fits(h.state)
    ensures forall e | e in h.log && !e.Confirmed? :: AskedIn(calls, e.id, e.transfer)
    ensures var o := OutcomeOf(h.state, call);
      match call
      case SubmitCall(now, transLt, _, r, balance) => o.Sent? || o.Fired? ==> AskedFor(r, balance, o.transfer)
      case ConfirmCall(_, _, id) => !o.Sent? && (o.Fired? ==> o.id == id && AskedIn(calls, id, o.transfer))
      case SendCall(_, t) => !o.Fired? && (o.Sent? ==> o.transfer == t)
  {
    RunKeeps(owners, reqConfirms, calls, h);
    IndicesFit(h.state);
    RunIsAsked(Initialized(owners, reqConfirms), calls, h);
    hide WalletInv, AskedIn, Submit, Confirm, Initialized, TransferOf, AskedFor, Confirmers, CompletedIn, Members;
    match call
    case SubmitCall(now, transLt, key, r, balance) =>
      SubmittedId(h.state, now, transLt, key, r, balance);
      TransferIsAsked(r, balance);
    case ConfirmCall(now, key, id) =>
      ConfirmedId(h.state, now, key, id);
    case SendCall(_, _) =>
  }

  /** Two payments out of the store are never for one call. */
  lemma NoCallPaysTwice(
    owners: seq<nat>, reqConfirms: nat, calls: seq<Call>, h: History, p: nat, q: nat, i: nat, j: nat)
    requires 0 < |owners| <= MAX_CUSTODIAN_COUNT && DistinctTimes(calls)
    requires IsRun(Initialized(owners, reqConfirms), calls, h)
    requires p < q < |h.log| && h.log[p].Completed? && h.log[q].Completed?
    requires AskedAt(calls, i, h.log[p].id, h.log[p].transfer) && AskedAt(calls, j, h.log[q].id, h.log[q].transfer)
    ensures i != j
  {
    RunKeeps(owners, reqConfirms, calls, h);
    hide WalletInv, Initialized, AskedFor, Confirmers, CompletedIn, Members;
  }

  // ---- expiry ----

  /** A transfer submitted at `created` has expired 3600 seconds later, within that very second only when the low half
      of its logical time is 0. */
  lemma ExpiresAfterAnHour(created: nat, transLt: nat, now: nat)
    ensures GenerateId(created, transLt) <= Marker(now)
      <==> created + 3600 < now || (created + 3600 == now && transLt % 0x1_0000_0000 == 0)
  {
  }

  // ---- the answers ----

  /** The stored transfers that a cleanup leaves. */
  ghost function Left(s: State, now: nat): Pending { s.transactions - Oldest(s.transactions.Keys, Marker(now), 40) }

  /** Those of one custodian. */
  ghost function LeftOf(s: State, now: nat, index: nat): set<nat> { PendingOf(Left(s, now), index) }

  lemma CounterAfterCleanup(s: State, now: nat, index: nat)
    requires WalletInv(s) && index < 32
    ensures GetMaskValue(Cleanup(s, now).requestsMask, index) == |LeftOf(s, now, index)|
  {
    CleanupKeeps(s, now);
    CleanupDeletesOldest(s, now);
    hide Clean, Cleanup, PendingOf, GetMaskValue, Oldest;
  }

  /** The answer to a submission, case by case. */
  lemma SubmitAnswers(s: State, now: nat, transLt: nat, key: nat, r: Request, balance: nat)
    requires WalletInv(s)
    ensures Fits(s)
    ensures var o := Submit(s, now, transLt, key, r, balance).outcome;
      var large := r.payload.bits >= 8192 || r.payload.cells >= 8;
      if key !in s.custodians then o == Thrown(100)
      else if r.value < 1_000_000 then o == Thrown(107)
      else if large then o == Thrown(121)
      else if |LeftOf(s, now, s.custodians[key])| >= 5 then o == Thrown(113)
      else if s.defaultRequired == 1 then o.Sent?
      else if s.defaultRequired == 0 then o.Fired? && o.id == GenerateId(now, transLt)
      else o == Waiting(GenerateId(now, transLt))
  {
    IndicesFit(s);
    CleanupKeeps(s, now);
    if key in s.custodians {
      CounterAfterCleanup(s, now, s.custodians[key]);
    }
    hide WalletInv, Cleanup, GetMaskValue, IncMaskValue, DecMaskValue, SetConfirmed, GenerateId, TransferOf, LeftOf;
  }

  /** The answer to a confirmation, case by case. */
  lemma ConfirmAnswers(s: State, now: nat, key: nat, id: nat)
    requires WalletInv(s)
    ensures Fits(s)
    ensures var o := Confirm(s, now, key, id).outcome;
      if key !in s.custodians then o == Thrown(100)
      else if id !in Left(s, now) then o == Thrown(102)
      else
        var t := s.transactions[id];
        if s.custodians[key] in Members(t.confirmationsMask) then o == Thrown(103)
        else if |Members(t.confirmationsMask)| + 1 >= s.defaultRequired then o == Fired(id, t.transfer)
        else o == Waiting(id)
  {
    IndicesFit(s);
    CleanupDeletesOldest(s, now);
    StoredOk(s);
    hide WalletInv, Clean, Cleanup, DecMaskValue, SetConfirmed, CheckBit, Oldest;
  }

  /** What is stored after a call with the given answer: one turned away before the cleanup changes nothing, one turned
      away after it leaves the cleanup done, and an accepted one touches its own transfer only. */
  ghost predicate Leaves(s: State, now: nat, res: Result, early: set<nat>) {
    match res.outcome
    case Thrown(code) => if code in early then res.state == s else res.state.transactions == Left(s, now)
    case Sent(_) => res.state.transactions == Left(s, now)
    case Waiting(id) => id in res.state.transactions && res.state.transactions - {id} == Left(s, now) - {id}
    case Fired(id, _) => res.state.transactions == Left(s, now) - {id}
  }

  lemma LastStepLeaves(s: State, now: nat, c: State, id: nat, t: Transaction, index: nat, early: set<nat>)
    requires c.transactions == Left(s, now) && index < 32
    ensures Leaves(s, now, WalletSpec.ConfirmTransaction(c, id, t, index), early)
  {
    hide Left, SetConfirmed, DecMaskValue;
  }

  lemma SubmitStores(s: State, now: nat, transLt: nat, key: nat, r: Request, balance: nat)
    requires Fits(s)
    ensures var res := Submit(s, now, transLt, key, r, balance);
      match res.outcome
      case Thrown(code) => res.state == if code in {100, 107, 121} then s else Cleanup(s, now)
      case Sent(_) => res.state == Cleanup(s, now)
      case _ => true
  {
    hide Cleanup, GetMaskValue, IncMaskValue, GenerateId, TransferOf;
  }

  lemma CleanupLeaves(s: State, now: nat)
    ensures Cleanup(s, now).transactions == Left(s, now)
  {
    hide Clean, Oldest;
    CleanupDeletesOldest(s, now);
  }

  lemma CleanedLeaves(s: State, now: nat, res: Result, early: set<nat>)
    requires match res.outcome
      case Thrown(code) => res.state == if code in early then s else Cleanup(s, now)
      case Sent(_) => res.state == Cleanup(s, now)
      case _ => false
    ensures Leaves(s, now, res, early)
  {
    hide Cleanup, Left;
    CleanupLeaves(s, now);
  }

  lemma SubmitLeaves(s: State, now: nat, transLt: nat, key: nat, r: Request, balance: nat)
    requires WalletInv(s)
    ensures Fits(s) && Leaves(s, now, Submit(s, now, transLt, key, r, balance), {100, 107, 121})
  {
    hide WalletInv, Cleanup, GetMaskValue, IncMaskValue, GenerateId, TransferOf, Left, WalletSpec.ConfirmTransaction,
      Submit, Leaves, SubmitEvents;
    IndicesFit(s);
    CleanupLeaves(s, now);
    var c := Cleanup(s, now);
    SubmitStores(s, now, transLt, key, r, balance);
    SubmitOutcome(s, now, transLt, key, r, balance);
    var res := Submit(s, now, transLt, key, r, balance);
    if res.outcome.Waiting? || res.outcome.Fired? {
      var index, id := s.custodians[key], GenerateId(now, transLt);
      var t := Transaction(id, 0, c.defaultRequired, 0, key, index, TransferOf(r, balance));
      LastStepLeaves(s, now, c.(requestsMask := IncMaskValue(c.requestsMask, index)), id, t, index, {100, 107, 121});
    } else {
      CleanedLeaves(s, now, res, {100, 107, 121});
    }
  }

  lemma ConfirmStores(s: State, now: nat, key: nat, id: nat)
    requires Fits(s)
    ensures var res := Confirm(s, now, key, id);
      match res.outcome
      case Thrown(code) => res.state == if code in {100} then s else Cleanup(s, now)
      case Sent(_) => false
      case _ => true
  {
    hide Cleanup, CheckBit;
  }

  lemma ConfirmLeaves(s: State, now: nat, key: nat, id: nat)
    requires WalletInv(s)
    ensures Fits(s) && Leaves(s, now, Confirm(s, now, key, id), {100})
  {
    hide WalletInv, Cleanup, CheckBit, Left, WalletSpec.ConfirmTransaction, Confirm, Leaves, ConfirmEvents;
    IndicesFit(s);
    CleanupLeaves(s, now);
    var c := Cleanup(s, now);
    ConfirmStores(s, now, key, id);
    ConfirmOutcome(s, now, key, id);
    var res := Confirm(s, now, key, id);
    if res.outcome.Waiting? || res.outcome.Fired? {
      LastStepLeaves(s, now, c, id, c.transactions[id], s.custodians[key], {100});
    } else {
      CleanedLeaves(s, now, res, {100});
    }
  }

  /** The answer to a direct send in any state of a run: 108 when the owners are not all one key, and 100 when they are
      and the key is another one. */
  lemma SendAnswers(owners: seq<nat>, reqConfirms: nat, calls: seq<Call>, h: History, key: nat, t: Transfer)
    requires 0 < |owners| <= MAX_CUSTODIAN_COUNT && IsRun(Initialized(owners, reqConfirms), calls, h)
    ensures SendTransaction(h.state, key, t).outcome ==
      if exists k :: k in owners && k != owners[0] then Thrown(108)
      else if key != owners[0] then Thrown(100)
      else Sent(t)
  {
    RunKeepsSettings(Initialized(owners, reqConfirms), calls, h);
    SoleOwner(owners, reqConfirms);
    var start := Initialized(owners, reqConfirms);
    assert Settings(h.state).ownerKey == Settings(start).ownerKey
        && Settings(h.state).custodianCount == Settings(start).custodianCount;
  }
}
