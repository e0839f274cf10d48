/** What holds in every reachable state of the wallet. */
module WalletInvariant {
  import opened Bytes
  import opened OrderedKeys
  import opened Masks
  import opened WalletSpec

  type Pending = map<nat, Transaction>

  /** The stored transactions submitted by one custodian. */
  ghost function PendingOf(txs: Pending, i: nat): set<nat> { set id | id in txs && txs[id].index == i }

  /** Byte `i` of the mask counts the stored transactions with index `i`. */
  ghost predicate CountersOk(mask: int, txs: Pending) {
    && 0 <= mask < Pow256(32)
    && (forall id | id in txs :: txs[id].index < 32)
    && (forall i: nat | i < 32 :: GetMaskValue(mask, i) == |PendingOf(txs, i)|)
  }

  ghost predicate Bounded(txs: Pending) {
    forall i: nat | i < 32 :: |PendingOf(txs, i)| <= MAX_QUEUED_REQUESTS
  }

  ghost predicate TxOk(custodians: map<nat, nat>, count: nat, required: nat, id: nat, t: Transaction) {
    && t.id == id && t.signsRequired == required
    && |Members(t.confirmationsMask)| == t.signsReceived < t.signsRequired
    && (forall i | i in Members(t.confirmationsMask) :: i < count)
    && t.index in Members(t.confirmationsMask)
    && t.creator in custodians && custodians[t.creator] == t.index
  }

  ghost predicate CustodiansOk(s: State) {
    && Indexed(s.custodians, s.custodianCount)
    && 1 <= s.custodianCount <= MAX_CUSTODIAN_COUNT && s.defaultRequired <= s.custodianCount
  }

  ghost predicate WalletInv(s: State) {
    && CustodiansOk(s)
    && CountersOk(s.requestsMask, s.transactions) && Bounded(s.transactions)
    && (forall id | id in s.transactions ::
          TxOk(s.custodians, s.custodianCount, s.defaultRequired, id, s.transactions[id]))
  }

  // ---- the counters ----

  lemma PendingWithout(txs: Pending, id: nat, i: nat)
    requires id in txs
    ensures |PendingOf(txs - {id}, i)| == |PendingOf(txs, i)| - if txs[id].index == i then 1 else 0
  {
    if txs[id].index == i {
      assert PendingOf(txs, i) == PendingOf(txs - {id}, i) + {id};
    } else {
      assert PendingOf(txs, i) == PendingOf(txs - {id}, i);
    }
  }

  lemma PendingWith(txs: Pending, id: nat, t: Transaction, i: nat)
    requires id !in txs
    ensures |PendingOf(txs[id := t], i)| == |PendingOf(txs, i)| + if t.index == i then 1 else 0
  {
    assert txs[id := t] - {id} == txs;
    PendingWithout(txs[id := t], id, i);
  }

  lemma CountersRemove(mask: int, txs: Pending, id: nat)
    requires CountersOk(mask, txs) && id in txs
    ensures CountersOk(DecMaskValue(mask, txs[id].index), txs - {id})
  {
    var index := txs[id].index;
    assert id in PendingOf(txs, index);
    hide GetMaskValue, PendingOf;
    assert GetMaskValue(mask, index) > 0;
    forall i: nat | i < 32
      ensures Pow256(index) <= mask
      ensures GetMaskValue(DecMaskValue(mask, index), i) == |PendingOf(txs - {id}, i)|
    {
      DecActsOnOneByte(mask, index, i);
      PendingWithout(txs, id, i);
    }
    DecActsOnOneByte(mask, index, index);
  }

  lemma CountersAdd(mask: int, txs: Pending, id: nat, t: Transaction)
    requires CountersOk(mask, txs) && id !in txs && t.index < 32 && |PendingOf(txs, t.index)| < 255
    ensures CountersOk(IncMaskValue(mask, t.index), txs[id := t])
  {
    hide GetMaskValue, PendingOf, Pow256;
    assert GetMaskValue(mask, t.index) < 255;
    forall i: nat | i < 32
      ensures GetMaskValue(IncMaskValue(mask, t.index), i) == |PendingOf(txs[id := t], i)|
    {
      IncActsOnOneByte(mask, t.index, i, 32);
      PendingWith(txs, id, t, i);
    }
    IncActsOnOneByte(mask, t.index, t.index, 32);
  }

  lemma PendingReplace(txs: Pending, id: nat, t: Transaction, i: nat)
    requires id in txs && t.index == txs[id].index
    ensures PendingOf(txs[id := t], i) == PendingOf(txs, i)
  {
  }

  // ---- one transaction more, less, or changed ----

  lemma RemovedKeeps(s: State, id: nat)
    requires WalletInv(s) && id in s.transactions
    ensures WalletInv(Removed(s, id))
  {
    CountersRemove(s.requestsMask, s.transactions, id);
    hide CountersOk, TxOk, PendingOf, Indexed;
    forall i: nat | i < 32 ensures |PendingOf(Removed(s, id).transactions, i)| <= MAX_QUEUED_REQUESTS {
      PendingWithout(s.transactions, id, i);
    }
  }

  lemma StoredKeeps(s: State, id: nat, t: Transaction)
    requires WalletInv(s) && id !in s.transactions && t.index < 32
    requires TxOk(s.custodians, s.custodianCount, s.defaultRequired, id, t)
    requires |PendingOf(s.transactions, t.index)| < MAX_QUEUED_REQUESTS
    ensures WalletInv(s.(requestsMask := IncMaskValue(s.requestsMask, t.index),
                         transactions := s.transactions[id := t]))
  {
    CountersAdd(s.requestsMask, s.transactions, id, t);
    hide CountersOk, TxOk, PendingOf, Indexed;
    var txs := s.transactions[id := t];
    forall i: nat | i < 32 ensures |PendingOf(txs, i)| <= MAX_QUEUED_REQUESTS {
      PendingWith(s.transactions, id, t, i);
    }
  }

  lemma ChangedKeeps(s: State, id: nat, t: Transaction)
    requires WalletInv(s) && id in s.transactions && t.index == s.transactions[id].index
    requires TxOk(s.custodians, s.custodianCount, s.defaultRequired, id, t)
    ensures WalletInv(s.(transactions := s.transactions[id := t]))
  {
    hide TxOk, PendingOf, Indexed;
    var txs := s.transactions[id := t];
    forall i: nat ensures PendingOf(txs, i) == PendingOf(s.transactions, i) {
      PendingReplace(s.transactions, id, t, i);
    }
  }

  lemma {:induction false} CleanKeeps(s: State, marker: int, budget: nat)
    requires WalletInv(s)
    ensures WalletInv(Clean(s, marker, budget))
    decreases budget
  {
    hide WalletInv;
    if budget > 0 && NeedsCleanup(s, marker) {
      RemovedKeeps(s, Least(s.transactions.Keys));
      CleanKeeps(Removed(s, Least(s.transactions.Keys)), marker, budget - 1);
    }
  }

  // ---- the calls ----

  lemma IndicesFit(s: State)
    requires WalletInv(s)
    ensures forall k | k in s.custodians :: s.custodians[k] < 32
  {
  }

  lemma OneMoreMember(custodians: map<nat, nat>, count: nat, required: nat, id: nat, t: Transaction, index: nat)
    requires TxOk(custodians, count, required, id, t) && index < count && index < 32
    requires !CheckBit(t.confirmationsMask, index) && t.signsReceived + 1 < t.signsRequired
    ensures TxOk(custodians, count, required, id,
                 t.(confirmationsMask := SetConfirmed(t.confirmationsMask, index),
                     signsReceived := t.signsReceived + 1))
  {
    SetOneFlag(t.confirmationsMask, index);
    assert index !in Members(t.confirmationsMask);
    hide SetConfirmed, CheckBit, Members;
  }

  lemma FirstMember(custodians: map<nat, nat>, count: nat, id: nat, t: Transaction)
    requires t.id == id && t.confirmationsMask == 0 && t.signsReceived == 0 && t.signsRequired >= 2
    requires t.creator in custodians && custodians[t.creator] == t.index && t.index < count && t.index < 32
    ensures TxOk(custodians, count, t.signsRequired, id,
                 t.(confirmationsMask := SetConfirmed(0, t.index), signsReceived := 1))
  {
    NoMembers();
    SetOneFlag(0, t.index);
    hide SetConfirmed, Members;
  }

  lemma CleanupKeeps(s: State, now: nat)
    requires WalletInv(s)
    ensures var c := Cleanup(s, now);
      && WalletInv(c) && c == s.(requestsMask := c.requestsMask, transactions := c.transactions)
      && (forall id | id in c.transactions :: id in s.transactions && c.transactions[id] == s.transactions[id])
  {
    CleanKeeps(s, Marker(now), MAX_CLEANUP_TXNS);
    CleanFrame(s, Marker(now), MAX_CLEANUP_TXNS);
    hide WalletInv, Clean;
    forall id | id in Cleanup(s, now).transactions
      ensures id in s.transactions && Cleanup(s, now).transactions[id] == s.transactions[id]
    {
      CleanDeletesOne(s, Marker(now), MAX_CLEANUP_TXNS, id);
    }
  }

  lemma ConfirmStoredKeeps(c: State, id: nat, index: nat)
    requires WalletInv(c) && id in c.transactions && index < c.custodianCount && index < 32
    requires !CheckBit(c.transactions[id].confirmationsMask, index)
    ensures WalletInv(ConfirmTransaction(c, id, c.transactions[id], index).state)
  {
    var t := c.transactions[id];
    if t.signsReceived + 1 >= t.signsRequired {
      RemovedKeeps(c, id);
    } else {
      OneMoreMember(c.custodians, c.custodianCount, c.defaultRequired, id, t, index);
      ChangedKeeps(c, id, t.(confirmationsMask := SetConfirmed(t.confirmationsMask, index),
                             signsReceived := t.signsReceived + 1));
    }
  }

  /** The transaction that submitting stores, before its first confirmation. */
  function NewTransaction(c: State, id: nat, key: nat, transfer: Transfer): Transaction
    requires key in c.custodians
  {
    Transaction(id, 0, c.defaultRequired, 0, key, c.custodians[key], transfer)
  }

  lemma EnqueueKeeps(c: State, id: nat, key: nat, transfer: Transfer)
    requires WalletInv(c) && id !in c.transactions && key in c.custodians && c.custodians[key] < 32
    requires GetMaskValue(c.requestsMask, c.custodians[key]) < MAX_QUEUED_REQUESTS && c.defaultRequired != 1
    ensures
      var index := c.custodians[key];
      var counted := c.(requestsMask := IncMaskValue(c.requestsMask, index));
      WalletInv(ConfirmTransaction(counted, id, NewTransaction(c, id, key, transfer), index).state)
  {
    var t := NewTransaction(c, id, key, transfer);
    if c.defaultRequired >= 2 {
      FirstMember(c.custodians, c.custodianCount, id, t);
      StoredKeeps(c, id, t.(confirmationsMask := SetConfirmed(0, t.index), signsReceived := 1));
    } else {
      assert c.transactions - {id} == c.transactions;
    }
  }

  lemma ConfirmKeeps(s: State, now: nat, key: nat, id: nat)
    requires WalletInv(s)
    ensures Fits(s) && WalletInv(Confirm(s, now, key, id).state)
  {
    IndicesFit(s);
    CleanupKeeps(s, now);
    assert key in s.custodians ==> s.custodians[key] < s.custodianCount;
    hide WalletInv, Confirm, Cleanup, ConfirmTransaction, CheckBit;
    ConfirmOutcome(s, now, key, id);
    var o := Confirm(s, now, key, id).outcome;
    if o.Waiting? || o.Fired? {
      ConfirmStoredKeeps(Cleanup(s, now), id, s.custodians[key]);
    }
  }

  lemma SubmitKeeps(s: State, now: nat, transLt: nat, key: nat, r: Request, balance: nat)
    requires WalletInv(s) && GenerateId(now, transLt) !in s.transactions
    ensures Fits(s) && WalletInv(Submit(s, now, transLt, key, r, balance).state)
  {
    hide Cleanup, ConfirmTransaction, GetMaskValue, IncMaskValue, GenerateId, TransferOf, Submit;
    IndicesFit(s);
    CleanupKeeps(s, now);
    hide WalletInv;
    SubmitOutcome(s, now, transLt, key, r, balance);
    var o := Submit(s, now, transLt, key, r, balance).outcome;
    if o.Waiting? || o.Fired? {
      EnqueueKeeps(Cleanup(s, now), GenerateId(now, transLt), key, TransferOf(r, balance));
    }
  }

  lemma InitializedOk(owners: seq<nat>, reqConfirms: nat)
    requires 0 < |owners| <= MAX_CUSTODIAN_COUNT
    ensures var s := Initialized(owners, reqConfirms);
      && WalletInv(s) && (forall k :: k in s.custodians <==> k in owners)
      && s.defaultRequired == (if s.custodianCount <= reqConfirms then s.custodianCount else reqConfirms)
  {
    EnrollIndexes(owners, Enrolled(map[], 0));
    var s := Initialized(owners, reqConfirms);
    forall i: nat | i < 32 ensures GetMaskValue(0, i) == |PendingOf(s.transactions, i)| {
      ZeroMask(i);
      assert PendingOf(s.transactions, i) == {};
    }
  }

  // ---- expiry ----

  lemma {:induction false} PendingTotal(txs: Pending, n: nat)
    requires forall id | id in txs :: txs[id].index < n
    requires forall i: nat | i < n :: |PendingOf(txs, i)| <= MAX_QUEUED_REQUESTS
    ensures |txs.Keys| <= MAX_QUEUED_REQUESTS * n
    decreases n
  {
    if n == 0 {
      assert txs.Keys == {};
    } else {
      var rest := map id | id in txs && txs[id].index != n - 1 :: txs[id];
      assert txs.Keys == rest.Keys + PendingOf(txs, n - 1);
      forall i: nat | i < n - 1 ensures PendingOf(rest, i) == PendingOf(txs, i) {}
      PendingTotal(rest, n - 1);
    }
  }

  lemma RankBelowSize(s: set<nat>, x: nat)
    requires x in s
    ensures Rank(s, x) < |s|
  {
    assert Below(s, x) + {x} <= s;
    SubsetSize(Below(s, x) + {x}, s);
  }

  /** When exactly a custodian who has not confirmed yet can confirm a stored transfer: it is not expired, or at
      least 40 older ones are stored. */
  lemma AcceptedIff(s: State, now: nat, key: nat, id: nat)
    requires WalletInv(s)
    ensures Fits(s)
    ensures Confirm(s, now, key, id).outcome.Thrown? <==>
      || key !in s.custodians || id !in s.transactions
      || (id <= Marker(now) && Rank(s.transactions.Keys, id) < MAX_CLEANUP_TXNS)
      || CheckBit(s.transactions[id].confirmationsMask, s.custodians[key])
  {
    IndicesFit(s);
    CleanDeletesOne(s, Marker(now), MAX_CLEANUP_TXNS, id);
  }

  /** With at most 8 custodians a cleanup empties the store of everything expired, so no expired transfer is
      ever confirmed, let alone fired. */
  lemma FewCustodiansNeverFireExpired(s: State, now: nat, key: nat, id: nat)
    requires WalletInv(s) && s.custodianCount <= 8
    ensures Fits(s)
    ensures !Confirm(s, now, key, id).outcome.Thrown? ==> id > Marker(now)
    ensures forall created: nat, transLt: nat | id == GenerateId(created, transLt) && created + EXPIRATION_TIME < now ::
      Confirm(s, now, key, id).outcome.Thrown?
  {
    AcceptedIff(s, now, key, id);
    if id in s.transactions {
      forall x | x in s.transactions ensures s.transactions[x].index < s.custodianCount {}
      PendingTotal(s.transactions, s.custodianCount);
      RankBelowSize(s.transactions.Keys, id);
    }
  }
}
