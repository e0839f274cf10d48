/** When a wallet can fire a transfer that is older than its lifetime. */
module WalletExpiry {
  import opened Common
  import opened OrderedKeys
  import opened Masks
  import opened WalletSpec
  import opened WalletInvariant
  import opened WalletRuns

  predicate Timed(call: Call) { !call.SendCall? }

  function TimeOf(call: Call): nat { if call.SubmitCall? then call.now else if call.ConfirmCall? then call.now else 0 }

  /** The clock does not go back, and does not go beyond `now`. */
  ghost predicate ClockRuns(calls: seq<Call>, now: nat) {
    && (forall i | 0 <= i < |calls| && Timed(calls[i]) :: EXPIRATION_TIME <= TimeOf(calls[i]) <= now)
    && (forall i, j | 0 <= i < j < |calls| && Timed(calls[i]) && Timed(calls[j]) ::
          TimeOf(calls[i]) <= TimeOf(calls[j]))
  }

  /** Some run of the wallet lets a custodian fire a transfer that has expired. */
  ghost predicate CanFireExpired(owners: seq<nat>, reqConfirms: nat)
    requires owners != []
  {
    exists calls, h, now, key, id ::
      && IsRun(Initialized(owners, reqConfirms), calls, h) && DistinctTimes(calls) && ClockRuns(calls, now)
      && FiresExpired(h.state, now, key, id)
  }

  /** At least nine custodians, and at least two confirmations to give. */
  predicate Outgrown(owners: seq<nat>, reqConfirms: nat)
    requires owners != []
  {
    Initialized(owners, reqConfirms).custodianCount >= 9 && Initialized(owners, reqConfirms).defaultRequired >= 2
  }

  ghost predicate FiresExpired(s: State, now: nat, key: nat, id: nat) {
    Fits(s) && id <= Marker(now) && Confirm(s, now, key, id).outcome.Fired?
  }

  // ---- a run that fills the store ----

  /** All submissions happen at this time. */
  const START: nat := EXPIRATION_TIME

  const BASE: nat := START * TWO_32

  function Id(j: nat): nat { BASE + j }

  function Ids(lo: nat, hi: nat): (r: set<nat>)
    requires lo <= hi
    ensures forall id :: id in r <==> Id(lo) <= id < Id(hi)
    ensures |r| == hi - lo
    decreases hi
  {
    if lo == hi then {} else Ids(lo, hi - 1) + {Id(hi - 1)}
  }

  lemma GeneratedId(j: nat)
    requires j < TWO_32
    ensures GenerateId(START, j) == Id(j)
  {
  }

  const REQUEST: Request := Request(0, MIN_VALUE, true, false, Payload(0, 0, 0))

  /** `n` transfers are stored, five of each custodian, each with the confirmation of its submitter. */
  ghost predicate Filled(s: State, n: nat) {
    && s.transactions.Keys == Ids(0, n)
    && forall j: nat | j < n :: s.transactions[Id(j)].index == j / 5 && s.transactions[Id(j)].signsReceived == 1
  }

  lemma NoneExpired(s: State, now: nat)
    requires forall id | id in s.transactions :: id > Marker(now)
    ensures Cleanup(s, now) == s
  {
  }

  lemma Unexpired(s: State, n: nat)
    requires s.transactions.Keys == Ids(0, n)
    ensures Cleanup(s, START) == s
  {
    NoneExpired(s, START);
  }

  lemma IndexWhenFilled(s: State, n: nat, id: nat)
    requires Filled(s, n)
    ensures id in s.transactions <==> id in Ids(0, n)
    ensures id in s.transactions ==> (s.transactions[id].index == n / 5 <==> id in Ids(5 * (n / 5), n))
  {
    hide Ids;
    if id in s.transactions {
      var j := id - BASE;
      assert s.transactions[Id(j)].index == j / 5;
    }
  }

  lemma PendingWhenFilled(s: State, n: nat)
    requires Filled(s, n) && n < TWO_32
    ensures |PendingOf(s.transactions, n / 5)| == n % 5
  {
    hide Ids, Filled;
    forall id ensures id in PendingOf(s.transactions, n / 5) <==> id in Ids(5 * (n / 5), n) {
      IndexWhenFilled(s, n, id);
    }
    assert PendingOf(s.transactions, n / 5) == Ids(5 * (n / 5), n);
  }

  lemma Counted(s: State, i: nat)
    requires WalletInv(s) && i < 32
    ensures GetMaskValue(s.requestsMask, i) == |PendingOf(s.transactions, i)|
  {
  }

  lemma FilledOneMore(s: State, s': State, n: nat)
    requires Filled(s, n) && Id(n) in s'.transactions
    requires s'.transactions == s.transactions[Id(n) := s'.transactions[Id(n)]]
    requires s'.transactions[Id(n)].index == n / 5 && s'.transactions[Id(n)].signsReceived == 1
    ensures Filled(s', n + 1)
  {
    hide Ids;
    assert s'.transactions.Keys == s.transactions.Keys + {Id(n)};
  }

  lemma SubmitStored(s: State, n: nat, key: nat)
    requires Fits(s) && Cleanup(s, START) == s && GenerateId(START, n) == Id(n) && s.defaultRequired >= 2
    requires key in s.custodians && GetMaskValue(s.requestsMask, s.custodians[key]) < MAX_QUEUED_REQUESTS
    ensures var r := Submit(s, START, n, key, REQUEST, 0);
      && r.outcome.Waiting? && Id(n) in r.state.transactions
      && r.state.transactions == s.transactions[Id(n) := r.state.transactions[Id(n)]]
      && r.state.transactions[Id(n)].index == s.custodians[key] && r.state.transactions[Id(n)].signsReceived == 1
  {
    hide Cleanup, GetMaskValue, IncMaskValue, SetConfirmed, GenerateId, Id;
  }

  lemma SubmitOneMore(s: State, n: nat, key: nat)
    requires WalletInv(s) && Filled(s, n) && n < 45 && s.defaultRequired >= 2
    requires key in s.custodians && s.custodians[key] == n / 5
    ensures Fits(s)
    ensures var r := Submit(s, START, n, key, REQUEST, 0);
      r.outcome.Waiting? && Filled(r.state, n + 1)
  {
    IndicesFit(s);
    Unexpired(s, n);
    PendingWhenFilled(s, n);
    GeneratedId(n);
    hide Cleanup, GetMaskValue, GenerateId, WalletInv, Filled, Submit;
    Counted(s, n / 5);
    SubmitStored(s, n, key);
    var r := Submit(s, START, n, key, REQUEST, 0);
    FilledOneMore(s, r.state, n);
  }

  lemma RunOneMore(start: State, calls: seq<Call>, h: History, call: Call)
    requires IsRun(start, calls, h) && Fits(h.state)
    ensures IsRun(start, calls + [call], Step(h, call))
  {
    assert (calls + [call])[..|calls|] == calls;
  }

  /** All calls are made at the start time. */
  ghost predicate AtStart(calls: seq<Call>) {
    forall i | 0 <= i < |calls| :: Timed(calls[i]) && TimeOf(calls[i]) == START
  }

  /** A run of the wallet made at the start. */
  ghost predicate StartRun(owners: seq<nat>, reqConfirms: nat, calls: seq<Call>, h: History) {
    && 0 < |owners| <= MAX_CUSTODIAN_COUNT
    && IsRun(Initialized(owners, reqConfirms), calls, h) && DistinctTimes(calls) && AtStart(calls)
    && Settings(h.state) == Settings(Initialized(owners, reqConfirms))
  }

  lemma StartRunOneMore(owners: seq<nat>, reqConfirms: nat, calls: seq<Call>, h: History, call: Call)
    requires StartRun(owners, reqConfirms, calls, h) && Fits(h.state)
    requires Timed(call) && TimeOf(call) == START && DistinctTimes(calls + [call])
    ensures StartRun(owners, reqConfirms, calls + [call], Step(h, call))
  {
    hide DistinctTimes, Initialized, Step;
    RunOneMore(Initialized(owners, reqConfirms), calls, h, call);
    StepKeepsSettings(h, call);
  }

  lemma StartRunIsSafe(owners: seq<nat>, reqConfirms: nat, calls: seq<Call>, h: History)
    requires StartRun(owners, reqConfirms, calls, h)
    ensures WalletInv(h.state) && Fits(h.state)
  {
    RunKeeps(owners, reqConfirms, calls, h);
    IndicesFit(h.state);
  }

  /** The j-th call submits with logical time j. */
  ghost predicate Submits(calls: seq<Call>) {
    forall i | 0 <= i < |calls| :: calls[i].SubmitCall? && calls[i].transLt == i
  }

  lemma {:induction false} Fill(owners: seq<nat>, reqConfirms: nat, n: nat) returns (calls: seq<Call>, h: History)
    requires 0 < |owners| <= MAX_CUSTODIAN_COUNT && n <= 45
    requires Outgrown(owners, reqConfirms)
    ensures StartRun(owners, reqConfirms, calls, h) && Filled(h.state, n) && Submits(calls) && |calls| == n
    decreases n
  {
    hide Step, Submit, DistinctTimes, WalletInv, Fits, GenerateId;
    if n == 0 {
      calls, h := [], History(Initialized(owners, reqConfirms), [], {});
      NoCalls();
    } else {
      calls, h := Fill(owners, reqConfirms, n - 1);
      StartRunIsSafe(owners, reqConfirms, calls, h);
      var key := KeyOf(h.state, (n - 1) / 5);
      var call := SubmitCall(START, n - 1, key, REQUEST, 0);
      SubmitOneMore(h.state, n - 1, key);
      DistinctSubmits(calls + [call]);
      StartRunOneMore(owners, reqConfirms, calls, h, call);
      SubmitStep(h, n - 1, key);
      calls, h := calls + [call], Step(h, call);
    }
  }

  lemma NoCalls()
    ensures DistinctTimes([])
  {
  }

  lemma SubmitStep(h: History, n: nat, key: nat)
    requires Fits(h.state)
    ensures Step(h, SubmitCall(START, n, key, REQUEST, 0)).state == Submit(h.state, START, n, key, REQUEST, 0).state
  {
    hide Submit;
  }

  lemma DistinctSubmits(calls: seq<Call>)
    requires Submits(calls) && |calls| < TWO_32
    ensures DistinctTimes(calls)
  {
  }

  lemma KeyOf(s: State, i: nat) returns (key: nat)
    requires WalletInv(s) && i < s.custodianCount
    ensures key in s.custodians && s.custodians[key] == i
  {
    assert HasIndex(s.custodians, i);
    key :| key in s.custodians && s.custodians[key] == i;
  }

  // ---- the newest of them collects all confirmations but one ----

  function Range(n: nat): (r: set<nat>)
    ensures (forall i: nat :: i in r <==> i < n) && |r| == n
  {
    if n == 0 then {} else Range(n - 1) + {n - 1}
  }

  /** A stored transfer always misses the confirmation of some custodian. */
  lemma FreeCustodian(s: State, id: nat) returns (key: nat)
    requires WalletInv(s) && id in s.transactions
    ensures key in s.custodians && s.custodians[key] < 32
    ensures !CheckBit(s.transactions[id].confirmationsMask, s.custodians[key])
  {
    var members := Members(s.transactions[id].confirmationsMask);
    if Range(s.custodianCount) <= members {
      SubsetSize(Range(s.custodianCount), members);
      assert false;
    }
    var i :| i in Range(s.custodianCount) && i !in members;
    key := KeyOf(s, i);
  }

  ghost predicate Live(keys: set<nat>) { forall k | k in keys :: k > Marker(START) }

  lemma ConfirmOne(s: State, key: nat, id: nat)
    requires Fits(s) && Live(s.transactions.Keys) && id in s.transactions
    requires key in s.custodians && !CheckBit(s.transactions[id].confirmationsMask, s.custodians[key])
    requires s.transactions[id].signsReceived + 1 < s.transactions[id].signsRequired
    ensures var r := Confirm(s, START, key, id);
      && r.state.transactions.Keys == s.transactions.Keys
      && r.state.transactions[id].signsReceived == s.transactions[id].signsReceived + 1
  {
    NoneExpired(s, START);
    hide Cleanup, SetConfirmed, CheckBit, Marker;
  }

  lemma RequiredIsDefault(s: State, id: nat)
    requires WalletInv(s) && id in s.transactions
    ensures s.transactions[id].signsRequired == s.defaultRequired
    ensures s.transactions[id].signsReceived < s.defaultRequired
  {
  }

  lemma ConfirmStep(h: History, key: nat, id: nat)
    requires Fits(h.state)
    ensures Step(h, ConfirmCall(START, key, id)).state == Confirm(h.state, START, key, id).state
    ensures Step(h, ConfirmCall(START, key, id)).state.defaultRequired == h.state.defaultRequired
  {
    StepKeepsSettings(h, ConfirmCall(START, key, id));
    hide Confirm;
    assert Settings(Step(h, ConfirmCall(START, key, id)).state).defaultRequired == Settings(h.state).defaultRequired;
  }

  lemma {:induction false} Collect(owners: seq<nat>, reqConfirms: nat, calls: seq<Call>, h: History, id: nat)
    returns (calls': seq<Call>, h': History)
    requires StartRun(owners, reqConfirms, calls, h)
    requires Live(h.state.transactions.Keys) && id in h.state.transactions
    ensures StartRun(owners, reqConfirms, calls', h')
    ensures h'.state.transactions.Keys == h.state.transactions.Keys
    ensures h'.state.transactions[id].signsReceived + 1 == h'.state.defaultRequired
    decreases h.state.defaultRequired - h.state.transactions[id].signsReceived
  {
    StartRunIsSafe(owners, reqConfirms, calls, h);
    RequiredIsDefault(h.state, id);
    hide WalletInv, Fits, Confirm, StartRun, Step, Live, CheckBit, DistinctTimes;
    if h.state.transactions[id].signsReceived + 1 == h.state.defaultRequired {
      calls', h' := calls, h;
    } else {
      var key := FreeCustodian(h.state, id);
      var call := ConfirmCall(START, key, id);
      ConfirmOne(h.state, key, id);
      ConfirmStep(h, key, id);
      ConfirmIsNoSubmit(owners, reqConfirms, calls, h, call);
      StartRunOneMore(owners, reqConfirms, calls, h, call);
      calls', h' := Collect(owners, reqConfirms, calls + [call], Step(h, call), id);
    }
  }

  lemma ConfirmIsNoSubmit(owners: seq<nat>, reqConfirms: nat, calls: seq<Call>, h: History, call: Call)
    requires StartRun(owners, reqConfirms, calls, h) && call.ConfirmCall?
    ensures DistinctTimes(calls + [call])
  {
  }

  // ---- and fires after its lifetime ----

  lemma NewestRank(keys: set<nat>, n: nat)
    requires keys == Ids(0, n + 1)
    ensures Rank(keys, Id(n)) == n
  {
    assert Below(keys, Id(n)) == Ids(0, n);
  }

  lemma ExpiredFires(owners: seq<nat>, reqConfirms: nat)
    requires 0 < |owners| <= MAX_CUSTODIAN_COUNT
    requires Outgrown(owners, reqConfirms)
    ensures CanFireExpired(owners, reqConfirms)
  {
    var calls, h := Fill(owners, reqConfirms, 45);
    FilledIsLive(h.state);
    hide WalletInv, Fits, Confirm, DistinctTimes, Filled, Ids, Initialized, Live, Marker, Rank, CheckBit, AtStart,
      IsRun;
    calls, h := Collect(owners, reqConfirms, calls, h, Id(44));
    StartRunIsSafe(owners, reqConfirms, calls, h);
    var now := START + EXPIRATION_TIME + 1;
    var key := FiresNow(h.state, 44, now);
    StartRunClock(calls, now);
  }

  lemma FilledIsLive(s: State)
    requires Filled(s, 45)
    ensures s.transactions.Keys == Ids(0, 45) && Live(s.transactions.Keys) && Id(44) in s.transactions
  {
  }

  lemma StartRunClock(calls: seq<Call>, now: nat)
    requires AtStart(calls) && START <= now
    ensures ClockRuns(calls, now)
  {
  }

  lemma FiresNow(s: State, n: nat, now: nat) returns (key: nat)
    requires WalletInv(s) && Fits(s) && s.transactions.Keys == Ids(0, n + 1) && Id(n) in s.transactions
    requires MAX_CLEANUP_TXNS <= n < TWO_32 && now == START + EXPIRATION_TIME + 1
    requires s.transactions[Id(n)].signsReceived + 1 == s.defaultRequired
    ensures FiresExpired(s, now, key, Id(n))
  {
    key := FreeCustodian(s, Id(n));
    NewestRank(s.transactions.Keys, n);
    AcceptedIff(s, now, key, Id(n));
    RequiredIsDefault(s, Id(n));
    hide Rank, CheckBit, Ids, Confirm, WalletInv;
    FiresAtLast(s, now, key, Id(n));
    assert Id(n) <= Marker(now);
  }

  lemma FiresAtLast(s: State, now: nat, key: nat, id: nat)
    requires Fits(s) && id in s.transactions && key in s.custodians
    requires s.transactions[id].signsReceived + 1 == s.transactions[id].signsRequired
    requires !Confirm(s, now, key, id).outcome.Thrown?
    ensures Confirm(s, now, key, id).outcome.Fired?
  {
    CleanDeletesOne(s, Marker(now), MAX_CLEANUP_TXNS, id);
    hide Clean, CheckBit, DecMaskValue, SetConfirmed;
  }

  // ---- otherwise it never happens ----

  lemma NeverFiresExpired(owners: seq<nat>, reqConfirms: nat, calls: seq<Call>, h: History, now: nat, key: nat, id: nat)
    requires 0 < |owners| <= MAX_CUSTODIAN_COUNT && DistinctTimes(calls)
    requires IsRun(Initialized(owners, reqConfirms), calls, h)
    requires !Outgrown(owners, reqConfirms)
    ensures !FiresExpired(h.state, now, key, id)
  {
    RunKeeps(owners, reqConfirms, calls, h);
    RunKeepsSettings(Initialized(owners, reqConfirms), calls, h);
    var s, start := h.state, Initialized(owners, reqConfirms);
    assert Settings(s).custodianCount == Settings(start).custodianCount
        && Settings(s).defaultRequired == Settings(start).defaultRequired;
    if s.custodianCount <= 8 {
      FewCustodiansNeverFireExpired(s, now, key, id);
    } else {
      NothingIsStored(s);
      AcceptedIff(s, now, key, id);
    }
  }

  lemma NothingIsStored(s: State)
    requires WalletInv(s) && s.defaultRequired <= 1
    ensures s.transactions == map[]
  {
    forall id ensures id !in s.transactions {
      if id in s.transactions {
        StoredNeedsTwo(s, id);
      }
    }
  }

  lemma StoredNeedsTwo(s: State, id: nat)
    requires WalletInv(s) && id in s.transactions
    ensures s.defaultRequired >= 2
  {
    assert s.transactions[id].index in Members(s.transactions[id].confirmationsMask);
  }

  /** Main result on expiry: the wallet can fire an expired transfer in some run if and only if it has at least nine
      custodians and asks for at least two confirmations. */
  lemma CanFireExpiredIff(owners: seq<nat>, reqConfirms: nat)
    requires 0 < |owners| <= MAX_CUSTODIAN_COUNT
    ensures CanFireExpired(owners, reqConfirms) <==> Outgrown(owners, reqConfirms)
  {
    var start := Initialized(owners, reqConfirms);
    if Outgrown(owners, reqConfirms) {
      ExpiredFires(owners, reqConfirms);
    } else {
      hide Initialized, FiresExpired;
      forall calls, h, now, key, id | IsRun(start, calls, h) && DistinctTimes(calls)
        ensures !FiresExpired(h.state, now, key, id)
      {
        NeverFiresExpired(owners, reqConfirms, calls, h, now, key, id);
      }
    }
  }
}
