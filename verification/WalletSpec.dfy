/** SafeMultisigWallet as functions on its storage: what each call does, and what each step keeps. */
module WalletSpec {
  import opened Common
  import opened OrderedKeys
  import opened Masks

  const MAX_QUEUED_REQUESTS: nat := 5
  const EXPIRATION_TIME: nat := 3600
  const MAX_CUSTODIAN_COUNT: nat := 32
  const MIN_VALUE: nat := 1_000_000
  const MAX_CLEANUP_TXNS: nat := 40

  datatype Payload = Payload(bits: nat, cells: nat, body: nat)

  datatype Transfer = Transfer(dest: nat, value: nat, bounce: bool, flags: nat, payload: Payload)

  datatype Transaction = Transaction(
    id: nat, confirmationsMask: bv32, signsRequired: nat, signsReceived: nat, creator: nat, index: nat,
    transfer: Transfer)

  datatype State = State(
    ownerKey: nat, requestsMask: int, transactions: map<nat, Transaction>, custodians: map<nat, nat>,
    custodianCount: nat, defaultRequired: nat)

  /** The exception codes of the contract, and what an accepted call did. */
  datatype Outcome =
    | Thrown(code: nat)
    | Sent(transfer: Transfer)
    | Waiting(id: nat)
    | Fired(id: nat, transfer: Transfer)

  datatype Result = Result(state: State, outcome: Outcome)

  // ---- construction ----

  datatype Enrolled = Enrolled(custodians: map<nat, nat>, count: nat)

  function Enroll(owners: seq<nat>, e: Enrolled): Enrolled
    decreases |owners|
  {
    if owners == [] || e.count >= MAX_CUSTODIAN_COUNT then e
    else if owners[0] in e.custodians then Enroll(owners[1..], e)
    else Enroll(owners[1..], Enrolled(e.custodians[owners[0] := e.count], e.count + 1))
  }

  ghost predicate HasIndex(custodians: map<nat, nat>, i: nat) { exists k :: k in custodians && custodians[k] == i }

  /** The keys are in bijection with the indices below the count. */
  ghost predicate Indexed(custodians: map<nat, nat>, count: nat) {
    && (forall k | k in custodians :: custodians[k] < count)
    && (forall k, l | k in custodians && l in custodians && custodians[k] == custodians[l] :: k == l)
    && (forall i: nat | i < count :: HasIndex(custodians, i))
  }

  lemma IndexOneMore(custodians: map<nat, nat>, count: nat, key: nat)
    requires Indexed(custodians, count) && key !in custodians
    ensures Indexed(custodians[key := count], count + 1)
  {
    var more := custodians[key := count];
    forall i: nat | i < count + 1 ensures HasIndex(more, i) {
      if i < count {
        assert HasIndex(custodians, i);
        var k :| k in custodians && custodians[k] == i;
        assert k in more && more[k] == i;
      } else {
        assert key in more && more[key] == i;
      }
    }
  }

  /** Enrolling keeps the bijection, and with room for every owner it enrolls them all and nobody else. */
  lemma {:induction false} EnrollIndexes(owners: seq<nat>, e: Enrolled)
    requires Indexed(e.custodians, e.count) && e.count + |owners| <= MAX_CUSTODIAN_COUNT
    ensures var r := Enroll(owners, e);
      && Indexed(r.custodians, r.count) && e.count <= r.count <= e.count + |owners|
      && (forall k :: k in r.custodians <==> k in e.custodians || k in owners)
      && (owners != [] && e.count == 0 && e.custodians == map[] ==> r.count >= 1)
    decreases |owners|
  {
    hide Indexed;
    if owners == [] {
    } else {
      assert owners == [owners[0]] + owners[1..];
      var next := if owners[0] in e.custodians then e
                  else Enrolled(e.custodians[owners[0] := e.count], e.count + 1);
      if owners[0] !in e.custodians {
        IndexOneMore(e.custodians, e.count, owners[0]);
      }
      EnrollIndexes(owners[1..], next);
    }
  }

  const BLANK: State := State(0, 0, map[], map[], 0, 0)

  function Initialized(owners: seq<nat>, reqConfirms: nat): State
    requires owners != []
  {
    var e := Enroll(owners, Enrolled(map[], 0));
    State(owners[0], 0, map[], e.custodians, e.count, if e.count <= reqConfirms then e.count else reqConfirms)
  }

  // ---- cleanup ----

  /** The time prefix of an id that counts as expired. */
  function Marker(now: nat): int { (now - EXPIRATION_TIME) * TWO_32 }

  function Removed(s: State, id: nat): State
    requires id in s.transactions
  {
    s.(requestsMask := DecMaskValue(s.requestsMask, s.transactions[id].index), transactions := s.transactions - {id})
  }

  predicate NeedsCleanup(s: State, marker: int) {
    s.transactions.Keys != {} && Least(s.transactions.Keys) <= marker
  }

  /** Removes the least transaction, as long as it is expired and the budget lasts. */
  function Clean(s: State, marker: int, budget: nat): State
    decreases budget
  {
    if budget == 0 || !NeedsCleanup(s, marker) then s
    else Clean(Removed(s, Least(s.transactions.Keys)), marker, budget - 1)
  }

  function Cleanup(s: State, now: nat): State { Clean(s, Marker(now), MAX_CLEANUP_TXNS) }

  lemma {:induction false} CleanDeletesOne(s: State, marker: int, budget: nat, id: nat)
    ensures var c := Clean(s, marker, budget);
      && (id in c.transactions <==>
            id in s.transactions && !(id <= marker && Rank(s.transactions.Keys, id) < budget))
      && (id in c.transactions ==> c.transactions[id] == s.transactions[id])
    decreases budget
  {
    if budget > 0 && NeedsCleanup(s, marker) {
      var least := Least(s.transactions.Keys);
      CleanDeletesOne(Removed(s, least), marker, budget - 1, id);
      assert Removed(s, least).transactions.Keys == s.transactions.Keys - {least};
      if id in s.transactions && id != least {
        RankWithoutLeast(s.transactions.Keys, id);
      } else {
        assert Below(s.transactions.Keys, least) == {};
      }
    }
  }

  lemma {:induction false} CleanFrame(s: State, marker: int, budget: nat)
    ensures var c := Clean(s, marker, budget);
      c == s.(requestsMask := c.requestsMask, transactions := c.transactions)
    decreases budget
  {
    if budget > 0 && NeedsCleanup(s, marker) {
      CleanFrame(Removed(s, Least(s.transactions.Keys)), marker, budget - 1);
    }
  }

  /** A cleanup deletes exactly the expired ids among the 40 smallest, which are the smaller of 40 and the number
      expired, and nothing else. */
  lemma CleanupDeletesOldest(s: State, now: nat)
    ensures var c, keys, marker := Cleanup(s, now), s.transactions.Keys, Marker(now);
      && c.transactions == s.transactions - Oldest(keys, marker, MAX_CLEANUP_TXNS)
      && |Oldest(keys, marker, MAX_CLEANUP_TXNS)|
           == (if |UpTo(keys, marker)| < MAX_CLEANUP_TXNS then |UpTo(keys, marker)| else MAX_CLEANUP_TXNS)
      && c == s.(requestsMask := c.requestsMask, transactions := c.transactions)
  {
    hide Clean, Rank;
    CleanFrame(s, Marker(now), MAX_CLEANUP_TXNS);
    OldestCount(s.transactions.Keys, Marker(now), MAX_CLEANUP_TXNS);
    forall id
      ensures id in Cleanup(s, now).transactions <==>
        id in s.transactions && id !in Oldest(s.transactions.Keys, Marker(now), MAX_CLEANUP_TXNS)
      ensures id in Cleanup(s, now).transactions ==> Cleanup(s, now).transactions[id] == s.transactions[id]
    {
      CleanDeletesOne(s, Marker(now), MAX_CLEANUP_TXNS, id);
    }
  }

  // ---- calls ----

  function GenerateId(now: nat, transLt: nat): nat { now * TWO_32 + transLt % TWO_32 }

  /** The last step of submitting and of confirming. */
  function ConfirmTransaction(s: State, id: nat, txn: Transaction, index: nat): Result
    requires index < 32
  {
    if txn.signsReceived + 1 >= txn.signsRequired then
      Result(s.(requestsMask := DecMaskValue(s.requestsMask, txn.index), transactions := s.transactions - {id}),
             Fired(id, txn.transfer))
    else
      var txn' := txn.(confirmationsMask := SetConfirmed(txn.confirmationsMask, index),
                       signsReceived := txn.signsReceived + 1);
      Result(s.(transactions := s.transactions[id := txn']), Waiting(id))
  }

  datatype Request = Request(dest: nat, value: nat, bounce: bool, allBalance: bool, payload: Payload)

  /** FLAG_IGNORE_ERRORS is 2, FLAG_PAY_FWD_FEE_FROM_BALANCE is 1 and FLAG_SEND_ALL_REMAINING is 128. */
  function TransferOf(r: Request, balance: nat): Transfer {
    if r.allBalance then Transfer(r.dest, balance, r.bounce, 2 + 128, r.payload)
    else Transfer(r.dest, r.value, r.bounce, 2 + 1, r.payload)
  }

  /** The transfer is what the request asks for: its own value, with flags 3; or, when it asks for all, the balance of
      the wallet at the time of the call, with flags 130. */
  predicate AskedFor(r: Request, balance: nat, t: Transfer) {
    && t.dest == r.dest && t.bounce == r.bounce && t.payload == r.payload
    && (if r.allBalance then t.value == balance && t.flags == 130 else t.value == r.value && t.flags == 3)
  }

  function Submit(s: State, now: nat, transLt: nat, key: nat, r: Request, balance: nat): Result
    requires forall k | k in s.custodians :: s.custodians[k] < 32
  {
    if key !in s.custodians then Result(s, Thrown(100))
    else if r.value < MIN_VALUE then Result(s, Thrown(107))
    else if r.payload.bits >= 8192 || r.payload.cells >= 8 then Result(s, Thrown(121))
    else
      var index := s.custodians[key];
      var c := Cleanup(s, now);
      if GetMaskValue(c.requestsMask, index) >= MAX_QUEUED_REQUESTS then Result(c, Thrown(113))
      else if c.defaultRequired == 1 then Result(c, Sent(TransferOf(r, balance)))
      else
        var id := GenerateId(now, transLt);
        var txn := Transaction(id, 0, c.defaultRequired, 0, key, index, TransferOf(r, balance));
        ConfirmTransaction(c.(requestsMask := IncMaskValue(c.requestsMask, index)), id, txn, index)
  }

  function Confirm(s: State, now: nat, key: nat, id: nat): Result
    requires forall k | k in s.custodians :: s.custodians[k] < 32
  {
    if key !in s.custodians then Result(s, Thrown(100))
    else
      var index := s.custodians[key];
      var c := Cleanup(s, now);
      if id !in c.transactions then Result(c, Thrown(102))
      else if CheckBit(c.transactions[id].confirmationsMask, index) then Result(c, Thrown(103))
      else ConfirmTransaction(c, id, c.transactions[id], index)
  }

  function SendTransaction(s: State, key: nat, t: Transfer): Result {
    if s.custodianCount != 1 then Result(s, Thrown(108))
    else if key != s.ownerKey then Result(s, Thrown(100))
    else Result(s, Sent(t))
  }

  // ---- events ----

  datatype Event =
    | Submitted(id: nat, transfer: Transfer)
    | Confirmed(id: nat, index: nat)
    | Completed(id: nat, transfer: Transfer)

  function SubmitEvents(o: Outcome, index: nat, t: Transfer): seq<Event> {
    match o
    case Waiting(id) => [Submitted(id, t)] + [Confirmed(id, index)]
    case Fired(id, fired) => [Submitted(id, t)] + ([Confirmed(id, index)] + [Completed(id, fired)])
    case _ => []
  }

  function ConfirmEvents(o: Outcome, index: nat): seq<Event> {
    match o
    case Waiting(id) => [Confirmed(id, index)]
    case Fired(id, fired) => [Confirmed(id, index)] + [Completed(id, fired)]
    case _ => []
  }

  function IndexOf(s: State, key: nat): nat { if key in s.custodians then s.custodians[key] else 0 }

  predicate Fits(s: State) { forall k | k in s.custodians :: s.custodians[k] < 32 }

  lemma ConfirmOutcome(s: State, now: nat, key: nat, id: nat)
    requires Fits(s)
    ensures
      var res, c := Confirm(s, now, key, id), Cleanup(s, now);
      if res.outcome.Waiting? || res.outcome.Fired? then
        && key in s.custodians && id in c.transactions
        && !CheckBit(c.transactions[id].confirmationsMask, s.custodians[key])
        && res == ConfirmTransaction(c, id, c.transactions[id], s.custodians[key])
        && res.state.defaultRequired == c.defaultRequired
      else (res.state == s || res.state == c) && ConfirmEvents(res.outcome, IndexOf(s, key)) == []
  {
    hide Cleanup, DecMaskValue, SetConfirmed, CheckBit;
  }

  /** A submission that reaches the last step waits or fires; any other one stores nothing and logs nothing. */
  lemma SubmitOutcome(s: State, now: nat, transLt: nat, key: nat, r: Request, balance: nat)
    requires Fits(s)
    ensures
      var res, c := Submit(s, now, transLt, key, r, balance), Cleanup(s, now);
      if res.outcome.Waiting? || res.outcome.Fired? then
        && key in s.custodians && c.defaultRequired != 1 && res.state.defaultRequired == c.defaultRequired
        && GetMaskValue(c.requestsMask, s.custodians[key]) < MAX_QUEUED_REQUESTS
        && var index, id := s.custodians[key], GenerateId(now, transLt);
           var t := Transaction(id, 0, c.defaultRequired, 0, key, index, TransferOf(r, balance));
           res == ConfirmTransaction(c.(requestsMask := IncMaskValue(c.requestsMask, index)), id, t, index)
      else
        && (res.state == s || res.state == c)
        && SubmitEvents(res.outcome, IndexOf(s, key), TransferOf(r, balance)) == []
  {
    hide Cleanup, GenerateId, GetMaskValue, IncMaskValue, DecMaskValue, SetConfirmed;
  }
}
