/** The wallet in the form of the contract: storage fields that its functions update. */
module Wallets {
  import opened OrderedKeys
  import opened Masks
  import opened WalletSpec

  class MultisigWallet {
    var ownerKey: nat
    var requestsMask: int
    var transactions: map<nat, Transaction>
    var custodians: map<nat, nat>
    var custodianCount: nat
    var defaultRequired: nat

    ghost function View(): State
      reads this
    {
      State(ownerKey, requestsMask, transactions, custodians, custodianCount, defaultRequired)
    }

    /** The storage of a contract before its constructor has run. */
    constructor ()
      ensures View() == BLANK
    {
      ownerKey, requestsMask, transactions, custodians := 0, 0, map[], map[];
      custodianCount, defaultRequired := 0, 0;
    }

    method Initialize(owners: seq<nat>, reqConfirms: nat)
      requires View() == BLANK && owners != []
      modifies this
      ensures View() == Initialized(owners, reqConfirms)
    {
      var ownerCount := 0;
      ownerKey := owners[0];
      var i := 0;
      while i < |owners| && ownerCount < MAX_CUSTODIAN_COUNT
        invariant i <= |owners|
        invariant ownerKey == owners[0] && requestsMask == 0 && transactions == map[]
        invariant Enroll(owners, Enrolled(map[], 0)) == Enroll(owners[i..], Enrolled(custodians, ownerCount))
      {
        var key := owners[i];
        assert owners[i..][0] == key && owners[i..][1..] == owners[i + 1..];
        if key !in custodians {
          custodians := custodians[key := ownerCount];
          ownerCount := ownerCount + 1;
        }
        i := i + 1;
      }
      defaultRequired := if ownerCount <= reqConfirms then ownerCount else reqConfirms;
      custodianCount := ownerCount;
    }

    /** The constructor of the contract, run once on blank storage. The code is 0 when it is accepted. */
    method Construct(senderKey: nat, contractKey: nat, owners: seq<nat>, reqConfirms: nat) returns (code: nat)
      requires View() == BLANK
      modifies this
      ensures code == if senderKey != contractKey then 100
                      else if !(0 < |owners| <= MAX_CUSTODIAN_COUNT) then 117 else 0
      ensures View() == if code == 0 then Initialized(owners, reqConfirms) else BLANK
    {
      if senderKey != contractKey {
        return 100;
      }
      if |owners| == 0 || |owners| > MAX_CUSTODIAN_COUNT {
        return 117;
      }
      Initialize(owners, reqConfirms);
      code := 0;
    }

    /** The cleanup loop: it walks the keys with `next`, each time from the key it has just deleted. */
    method RemoveExpiredTransactions(now: nat)
      modifies this`requestsMask, this`transactions
      ensures View() == Cleanup(old(View()), now)
    {
      var marker := Marker(now);
      var success := transactions.Keys != {};
      var trId := if success then Least(transactions.Keys) else 0;
      var needCleanup := success && trId <= marker;
      if !needCleanup {
        return;
      }
      var i := 0;
      while needCleanup && i < MAX_CLEANUP_TXNS
        invariant i <= MAX_CLEANUP_TXNS
        invariant needCleanup == NeedsCleanup(View(), marker)
        invariant needCleanup ==> trId == Least(transactions.Keys)
        invariant Cleanup(old(View()), now) == Clean(View(), marker, MAX_CLEANUP_TXNS - i)
        decreases MAX_CLEANUP_TXNS - i
      {
        i := i + 1;
        requestsMask := DecMaskValue(requestsMask, transactions[trId].index);
        transactions := transactions - {trId};
        var later := Above(transactions.Keys, trId);
        assert later == transactions.Keys;
        success := later != {};
        if success {
          trId := Least(later);
        }
        needCleanup := success && trId <= marker;
      }
    }

    method DoConfirm(id: nat, txn: Transaction, index: nat) returns (o: Outcome)
      requires index < 32
      modifies this`requestsMask, this`transactions
      ensures Result(View(), o) == WalletSpec.ConfirmTransaction(old(View()), id, txn, index)
      ensures o.Fired? || o.Waiting?
      ensures o.Fired? ==> o.transfer == txn.transfer
      ensures o.Waiting? ==> o.id in transactions && transactions[o.id].transfer == txn.transfer
    {
      if txn.signsReceived + 1 >= txn.signsRequired {
        requestsMask := DecMaskValue(requestsMask, txn.index);
        transactions := transactions - {id};
        return Fired(id, txn.transfer);
      }
      var changed := txn.(confirmationsMask := SetConfirmed(txn.confirmationsMask, index));
      changed := changed.(signsReceived := changed.signsReceived + 1);
      transactions := transactions[id := changed];
      return Waiting(id);
    }

    method SubmitTransaction(now: nat, transLt: nat, senderKey: nat, r: Request, balance: nat) returns (o: Outcome)
      requires Fits(View())
      modifies this`requestsMask, this`transactions
      ensures Result(View(), o) == Submit(old(View()), now, transLt, senderKey, r, balance)
      ensures o.Sent? || o.Fired? ==> AskedFor(r, balance, o.transfer)
      ensures o.Waiting? ==> o.id in transactions && AskedFor(r, balance, transactions[o.id].transfer)
    {
      hide Cleanup, WalletSpec.ConfirmTransaction;
      if senderKey !in custodians {
        return Thrown(100);
      }
      var index := custodians[senderKey];
      if r.value < MIN_VALUE {
        return Thrown(107);
      }
      if r.payload.bits >= 8192 || r.payload.cells >= 8 {
        return Thrown(121);
      }
      RemoveExpiredTransactions(now);
      if GetMaskValue(requestsMask, index) >= MAX_QUEUED_REQUESTS {
        return Thrown(113);
      }
      var transfer := TransferOf(r, balance);
      var requiredSigns := defaultRequired;
      if requiredSigns == 1 {
        return Sent(transfer);
      }
      requestsMask := IncMaskValue(requestsMask, index);
      var trId := GenerateId(now, transLt);
      o := DoConfirm(trId, Transaction(trId, 0, requiredSigns, 0, senderKey, index, transfer), index);
    }

    method ConfirmTransaction(now: nat, senderKey: nat, id: nat) returns (o: Outcome)
      requires Fits(View())
      modifies this`requestsMask, this`transactions
      ensures Result(View(), o) == Confirm(old(View()), now, senderKey, id)
    {
      hide Cleanup, WalletSpec.ConfirmTransaction;
      if senderKey !in custodians {
        return Thrown(100);
      }
      var index := custodians[senderKey];
      RemoveExpiredTransactions(now);
      if id !in transactions {
        return Thrown(102);
      }
      var txn := transactions[id];
      if CheckBit(txn.confirmationsMask, index) {
        return Thrown(103);
      }
      o := DoConfirm(id, txn, index);
    }

    method SendTransaction(senderKey: nat, t: Transfer) returns (o: Outcome)
      ensures Result(View(), o) == WalletSpec.SendTransaction(View(), senderKey, t)
    {
      if custodianCount != 1 {
        return Thrown(108);
      }
      if senderKey != ownerKey {
        return Thrown(100);
      }
      return Sent(t);
    }

    /** The pending transactions that are not expired, in the order of their ids. */
    method GetTransactions(now: nat) returns (list: seq<Transaction>, ghost ids: seq<nat>)
      ensures forall id | id in transactions && id > Marker(now) :: transactions[id] in list
      ensures forall t | t in list :: exists id :: id in transactions && id > Marker(now) && transactions[id] == t
      ensures |ids| == |list|
      ensures forall i | 0 <= i < |ids| ::
        ids[i] in transactions && list[i] == transactions[ids[i]] && ids[i] > Marker(now)
      ensures forall i, j | 0 <= i < j < |ids| :: ids[i] < ids[j]
      ensures forall id | id in transactions && id > Marker(now) :: id in ids
    {
      var bound := Marker(now);
      list, ids := [], [];
      var success := transactions.Keys != {};
      var id: nat := if success then Least(transactions.Keys) else 0;
      while success
        invariant success ==> id in transactions
        invariant |ids| == |list|
        invariant forall i | 0 <= i < |ids| ::
          ids[i] in transactions && list[i] == transactions[ids[i]] && ids[i] > bound
        invariant forall i, j | 0 <= i < j < |ids| :: ids[i] < ids[j]
        invariant success ==> forall i | 0 <= i < |ids| :: ids[i] < id
        invariant forall k | k in transactions && k > bound && (success ==> k < id) :: k in ids
        decreases |Above(transactions.Keys, id)|, success
      {
        if id > bound {
          list, ids := list + [transactions[id]], ids + [id];
        }
        var later := Above(transactions.Keys, id);
        success := later != {};
        if success {
          var next := Least(later);
          FewerAbove(transactions.Keys, id, next);
          assert forall k | k in transactions && k < next :: k <= id by {
            assert forall k | k in transactions && id < k :: k in later;
          }
          id := next;
        } else {
          assert forall k | k in transactions && id < k :: k in later;
        }
      }
    }
  }
}
