/** What the transactions of a block, or of a whole chain, amount to. */
module Trace {
  import opened Common
  import opened Messages
  import opened Executor
  import opened BlockSpec

  /** The internal messages created by the transactions, in creation order. */
  ghost function Emitted(trace: seq<Txn>): seq<Message> {
    if trace == [] then [] else Emitted(trace[..|trace| - 1]) + trace[|trace| - 1].outs
  }

  ghost function RanBy(m: InMsg): seq<Message> { if m.Internal? then [m.msg] else [] }

  /** The internal messages executed, in execution order. */
  ghost function Ran(trace: seq<Txn>): seq<Message> {
    if trace == [] then [] else Ran(trace[..|trace| - 1]) + RanBy(trace[|trace| - 1].inMsg)
  }

  ghost function GasOf(trace: seq<Txn>): nat {
    if trace == [] then 0 else GasOf(trace[..|trace| - 1]) + trace[|trace| - 1].gasUsed
  }

  ghost function FeesOf(trace: seq<Txn>): nat {
    if trace == [] then 0 else FeesOf(trace[..|trace| - 1]) + trace[|trace| - 1].fees
  }

  ghost function CopyleftOf(trace: seq<Txn>): nat {
    if trace == [] then 0 else CopyleftOf(trace[..|trace| - 1]) + trace[|trace| - 1].copyleft
  }

  lemma TraceAppend(trace: seq<Txn>, t: Txn)
    ensures Emitted(trace + [t]) == Emitted(trace) + t.outs
    ensures Ran(trace + [t]) == Ran(trace) + RanBy(t.inMsg)
    ensures GasOf(trace + [t]) == GasOf(trace) + t.gasUsed
    ensures FeesOf(trace + [t]) == FeesOf(trace) + t.fees
    ensures CopyleftOf(trace + [t]) == CopyleftOf(trace) + t.copyleft
  {
    assert (trace + [t])[..|trace|] == trace;
  }

  lemma {:induction false} TraceConcat(a: seq<Txn>, b: seq<Txn>)
    ensures Emitted(a + b) == Emitted(a) + Emitted(b)
    ensures Ran(a + b) == Ran(a) + Ran(b)
    decreases |b|
  {
    if b == [] {
      assert a + b == a;
    } else {
      var front, last := b[..|b| - 1], b[|b| - 1];
      TraceConcat(a, front);
      assert (a + b)[..|a + b| - 1] == a + front;
      ConcatAssociates(Emitted(a), Emitted(front), last.outs);
      ConcatAssociates(Ran(a), Ran(front), RanBy(last.inMsg));
    }
  }

  // ---- accounts leaving the dictionary ----

  /** The account of transaction `i` is still in the dictionary after the first `j` transactions. */
  ghost predicate Stays(trace: seq<Txn>, i: nat, j: nat)
    requires i < j <= |trace|
  {
    forall k | i <= k < j && trace[k].account == trace[i].account :: !trace[k].gone
  }

  /** No account leaves the dictionary between two transactions in which it sends messages. */
  ghost predicate SendersStay(trace: seq<Txn>) {
    forall i, j | 0 <= i < j < |trace| && trace[i].account == trace[j].account
                  && trace[i].outs != [] && trace[j].outs != [] ::
      Stays(trace, i, j)
  }

  // ---- what every step of a build keeps ----

  /** Every transaction and every new message lies in the logical-time interval of the block, and every
      internal message is older than the transaction that consumes it. */
  ghost predicate InInterval(startLt: nat, endLt: nat, trace: seq<Txn>) {
    && (forall t | t in trace ::
          startLt <= t.lt <= endLt && (t.inMsg.Internal? ==> t.inMsg.msg.createdLt < t.lt))
    && (forall m | m in Emitted(trace) :: startLt < m.createdLt <= endLt)
  }

  /** The transaction times of an account strictly increase while it stays in the dictionary. */
  ghost predicate AccountTimesIncrease(trace: seq<Txn>) {
    forall i, j | 0 <= i < j < |trace| && trace[i].account == trace[j].account && Stays(trace, i, j) ::
      trace[i].lt < trace[j].lt
  }

  ghost predicate AccountsFollow(trace: seq<Txn>, accounts: Accounts) {
    forall i | 0 <= i < |trace| :: Stays(trace, i, |trace|) ==>
      trace[i].account in accounts && trace[i].lt <= accounts[trace[i].account].lastTransLt
  }

  /** Messages come from the account of their transaction, which is past them while it stays. */
  ghost predicate OutsFollow(trace: seq<Txn>, accounts: Accounts) {
    forall i | 0 <= i < |trace| :: OutsPast(trace, accounts, i)
  }

  ghost predicate OutsPast(trace: seq<Txn>, accounts: Accounts, i: nat)
    requires i < |trace|
  {
    var id := trace[i].account;
    && (forall m | m in trace[i].outs :: m.src == id)
    && (Stays(trace, i, |trace|) ==>
          id in accounts && forall m | m in trace[i].outs :: m.createdLt < accounts[id].account.lastTrTime)
  }

  /** Every transaction started with the gas of the earlier ones at or below the limit. */
  ghost predicate StartedWithinLimit(gasLimit: nat, trace: seq<Txn>) {
    forall i | 0 <= i < |trace| :: GasOf(trace[..i]) <= gasLimit
  }

  lemma AddedInInterval(env: BlockEnv, s: BlockState, id: AccountId, m: InMsg, t: TxResult)
    requires LawfulStep(env, s, id, m, t)
    requires InInterval(env.startLt, s.endLt, s.trace)
    ensures var s' := Added(s, id, m, t); InInterval(env.startLt, s'.endLt, s'.trace)
  {
    hide Emitted, Ran, GasOf, FeesOf, CopyleftOf;
    TraceAppend(s.trace, Record(id, m, t));
  }

  lemma AddedAccountTimes(env: BlockEnv, s: BlockState, id: AccountId, m: InMsg, t: TxResult)
    requires LawfulStep(env, s, id, m, t)
    requires AccountTimesIncrease(s.trace) && AccountsFollow(s.trace, s.accounts)
    ensures AccountTimesIncrease(Added(s, id, m, t).trace)
  {
    hide LawfulGas, LawfulValue, SourceOrdered, Stays;
    var trace', n := Added(s, id, m, t).trace, |s.trace|;
    forall i, j | 0 <= i < j <= n && trace'[i].account == trace'[j].account && Stays(trace', i, j)
      ensures trace'[i].lt < trace'[j].lt
    {
      StaysInPrefix(s.trace, Record(id, m, t), i, j);
    }
  }

  lemma AddedAccountsFollow(env: BlockEnv, s: BlockState, id: AccountId, m: InMsg, t: TxResult)
    requires LawfulStep(env, s, id, m, t)
    requires AccountsFollow(s.trace, s.accounts)
    ensures var s' := Added(s, id, m, t); AccountsFollow(s'.trace, s'.accounts)
  {
    hide LawfulGas, LawfulValue, SourceOrdered;
    var s', n := Added(s, id, m, t), |s.trace|;
    forall i | 0 <= i <= n && Stays(s'.trace, i, n + 1)
      ensures s'.trace[i].account in s'.accounts && s'.trace[i].lt <= s'.accounts[s'.trace[i].account].lastTransLt
    {
      assert s'.trace[n] == Record(id, m, t);
      if i < n {
        assert s'.trace[i] == s.trace[i] && Stays(s'.trace, i, n);
        StaysInPrefix(s.trace, Record(id, m, t), i, n);
      }
    }
  }

  lemma StaysInPrefix(trace: seq<Txn>, t: Txn, i: nat, j: nat)
    requires i < j <= |trace|
    ensures Stays(trace + [t], i, j) == Stays(trace, i, j)
  {
    assert forall k | i <= k < j :: (trace + [t])[k] == trace[k];
  }

  /** Each source creates its messages in increasing order, as long as senders stay. */
  ghost predicate SourcesInOrder(trace: seq<Txn>, accounts: Accounts) {
    OutsFollow(trace, accounts) && (SendersStay(trace) ==> SourceOrdered(Emitted(trace)))
  }

  lemma AddedSourcesInOrder(env: BlockEnv, s: BlockState, id: AccountId, m: InMsg, t: TxResult)
    requires LawfulStep(env, s, id, m, t)
    requires SourcesInOrder(s.trace, s.accounts)
    ensures var s' := Added(s, id, m, t); SourcesInOrder(s'.trace, s'.accounts)
  {
    hide SourceOrdered, OutsFollow, LawfulStep, Emitted, Stays;
    var s' := Added(s, id, m, t);
    AddedOutsFollow(env, s, id, m, t);
    if SendersStay(s'.trace) {
      SendersStayInPrefix(s.trace, Record(id, m, t));
      AddedSources(env, s, id, m, t);
    }
  }

  lemma SendersStayInPrefix(trace: seq<Txn>, t: Txn)
    requires SendersStay(trace + [t])
    ensures SendersStay(trace)
  {
    hide Stays;
    var trace' := trace + [t];
    forall i, j | 0 <= i < j < |trace| && trace[i].account == trace[j].account
                  && trace[i].outs != [] && trace[j].outs != []
      ensures Stays(trace, i, j)
    {
      assert trace'[i] == trace[i] && trace'[j] == trace[j];
      StaysInPrefix(trace, t, i, j);
    }
  }

  lemma AddedOutsFollow(env: BlockEnv, s: BlockState, id: AccountId, m: InMsg, t: TxResult)
    requires LawfulStep(env, s, id, m, t)
    requires OutsFollow(s.trace, s.accounts)
    ensures var s' := Added(s, id, m, t); OutsFollow(s'.trace, s'.accounts)
  {
    hide LawfulGas, LawfulValue, SourceOrdered;
    var s', n := Added(s, id, m, t), |s.trace|;
    assert s'.trace[n] == Record(id, m, t);
    forall i | 0 <= i <= n ensures OutsPast(s'.trace, s'.accounts, i) {
      if i < n {
        assert s'.trace[i] == s.trace[i] && OutsPast(s.trace, s.accounts, i);
        StaysInPrefix(s.trace, Record(id, m, t), i, n);
        if Stays(s'.trace, i, n + 1) {
          assert Stays(s'.trace, i, n);
        }
      }
    }
  }

  /** Every message comes out of some transaction. */
  lemma {:induction false} EmittedBySome(trace: seq<Txn>, x: Message) returns (i: nat)
    requires x in Emitted(trace)
    ensures i < |trace| && x in trace[i].outs
  {
    if x in trace[|trace| - 1].outs {
      i := |trace| - 1;
    } else {
      i := EmittedBySome(trace[..|trace| - 1], x);
    }
  }

  lemma SenderIsPast(env: BlockEnv, s: BlockState, id: AccountId, m: InMsg, t: TxResult, x: Message)
    requires LawfulStep(env, s, id, m, t) && OutsFollow(s.trace, s.accounts)
    requires SendersStay(Added(s, id, m, t).trace)
    requires x in Emitted(s.trace) && x.src == id && t.outs != []
    ensures x.createdLt < t.lt
  {
    var s', n := Added(s, id, m, t), |s.trace|;
    var i := EmittedBySome(s.trace, x);
    assert OutsPast(s.trace, s.accounts, i);
    assert s'.trace[i] == s.trace[i] && s'.trace[n] == Record(id, m, t);
    assert Stays(s'.trace, i, n);
    StaysInPrefix(s.trace, Record(id, m, t), i, n);
  }

  lemma AddedSources(env: BlockEnv, s: BlockState, id: AccountId, m: InMsg, t: TxResult)
    requires LawfulStep(env, s, id, m, t)
    requires SourceOrdered(Emitted(s.trace)) && OutsFollow(s.trace, s.accounts)
    requires SendersStay(Added(s, id, m, t).trace)
    ensures SourceOrdered(Emitted(Added(s, id, m, t).trace))
  {
    hide Emitted, Ran, GasOf, FeesOf, CopyleftOf, OutsFollow, SendersStay;
    TraceAppend(s.trace, Record(id, m, t));
    forall x, y | x in Emitted(s.trace) && y in t.outs ensures Earlier(x, y) {
      if x.src == y.src {
        SenderIsPast(env, s, id, m, t, x);
      }
    }
  }

  lemma AddedGas(env: BlockEnv, s: BlockState, id: AccountId, m: InMsg, t: TxResult)
    requires StartedWithinLimit(env.gasLimit, s.trace) && s.gasUsed == GasOf(s.trace) <= env.gasLimit
    ensures var s' := Added(s, id, m, t);
      StartedWithinLimit(env.gasLimit, s'.trace) && s'.gasUsed == GasOf(s'.trace)
  {
    hide Emitted, Ran, GasOf, FeesOf, CopyleftOf;
    var s' := Added(s, id, m, t);
    TraceAppend(s.trace, Record(id, m, t));
    forall i | 0 <= i < |s'.trace| ensures GasOf(s'.trace[..i]) <= env.gasLimit {
      if i < |s.trace| {
        assert s'.trace[..i] == s.trace[..i];
      } else {
        assert s'.trace[..i] == s.trace;
      }
    }
  }
}
