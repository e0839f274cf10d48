/** Sums of value over the account dictionary and over message queues. */
module ValueFlow {
  import opened Common
  import opened Messages
  import opened Executor
  import opened BlockSpec
  import opened Trace

  /** The balance of the whole dictionary, which the dictionary keeps at its root. */
  ghost function TotalBalance(accounts: Accounts): nat {
    if accounts == map[] then 0 else
      var id :| id in accounts;
      TotalBalance(accounts - {id}) + accounts[id].account.balance
  }

  lemma {:induction false} TotalBalanceSplit(accounts: Accounts, id: AccountId)
    requires id in accounts
    ensures TotalBalance(accounts) == TotalBalance(accounts - {id}) + accounts[id].account.balance
    decreases |accounts|
  {
    var picked :| picked in accounts && TotalBalance(accounts)
                                     == TotalBalance(accounts - {picked}) + accounts[picked].account.balance;
    if picked != id {
      TotalBalanceSplit(accounts - {picked}, id);
      TotalBalanceSplit(accounts - {id}, picked);
      assert accounts - {picked} - {id} == accounts - {id} - {picked};
    }
  }

  /** What one transaction does to the dictionary changes its balance by the account's own change. */
  lemma BalanceAfter(accounts: Accounts, id: AccountId, after: Option<Account>, lt: nat)
    ensures
      var before := if id in accounts then accounts[id].account.balance else 0;
      var accounts' := if after.Some? then accounts[id := ShardAccount(after.value, lt)] else accounts - {id};
      TotalBalance(accounts') + before == TotalBalance(accounts) + BalanceOf(after)
  {
    if id in accounts {
      TotalBalanceSplit(accounts, id);
    } else {
      assert accounts - {id} == accounts;
    }
    if after.Some? {
      var accounts' := accounts[id := ShardAccount(after.value, lt)];
      TotalBalanceSplit(accounts', id);
      assert accounts' - {id} == accounts - {id};
    }
  }

  ghost function ValueOf(ms: seq<Message>): nat {
    if ms == [] then 0 else ValueOf(ms[..|ms| - 1]) + ms[|ms| - 1].value
  }

  ghost function FwdFeesOf(ms: seq<Message>): nat {
    if ms == [] then 0 else FwdFeesOf(ms[..|ms| - 1]) + ms[|ms| - 1].fwdFee
  }

  lemma {:induction false} SumsConcat(a: seq<Message>, b: seq<Message>)
    ensures CarriedBy(a + b) == CarriedBy(a) + CarriedBy(b)
    ensures ValueOf(a + b) == ValueOf(a) + ValueOf(b)
  {
    if b == [] {
      assert a + b == a;
    } else {
      SumsConcat(a, b[..|b| - 1]);
      assert (a + b)[..|a + b| - 1] == a + b[..|b| - 1];
    }
  }

  lemma {:induction false} CarriedIsValueAndFee(ms: seq<Message>)
    ensures CarriedBy(ms) == ValueOf(ms) + FwdFeesOf(ms)
  {
    if ms == [] {
    } else {
      CarriedIsValueAndFee(ms[..|ms| - 1]);
    }
  }

  lemma {:induction false} SplitCarried(shard: Shard, ms: seq<Message>)
    ensures CarriedBy(ms) == CarriedBy(Split(shard, true, ms)) + CarriedBy(Split(shard, false, ms))
  {
    if ms == [] {
    } else {
      var front, last := ms[..|ms| - 1], ms[|ms| - 1];
      SplitCarried(shard, front);
      SumsConcat(Split(shard, true, front), [last]);
      SumsConcat(Split(shard, false, front), [last]);
      SumsConcat([], [last]);
      assert [] + [last] == [last];
    }
  }

  /** A sum over a set of messages, such as the queue or the inbound description keeps at its root. */
  ghost function Sum(weight: Message -> nat, q: set<Message>): nat {
    if q == {} then 0 else
      var m :| m in q;
      Sum(weight, q - {m}) + weight(m)
  }

  lemma {:induction false} SumSplit(weight: Message -> nat, q: set<Message>, m: Message)
    requires m in q
    ensures Sum(weight, q) == Sum(weight, q - {m}) + weight(m)
    decreases |q|
  {
    var picked :| picked in q && Sum(weight, q) == Sum(weight, q - {picked}) + weight(picked);
    if picked != m {
      SumSplit(weight, q - {picked}, m);
      SumSplit(weight, q - {m}, picked);
      assert q - {picked} - {m} == q - {m} - {picked};
    }
  }

  /** Value and fees held in a queue. */
  ghost function Held(q: set<Message>): nat { Sum(Carried, q) }

  function FwdFee(m: Message): nat { m.fwdFee }

  /** Forwarding fees of the described inbound messages, collected on import. */
  ghost function FeesImported(q: set<Message>): nat { Sum(FwdFee, q) }

  /** The fees the block reports as collected: those of its transactions and those of its imported messages. */
  ghost function FeesCollected(s: BlockState): nat { FeesOf(s.trace) + FeesImported(s.inMsgDescr) }

  ghost function Total(weight: Message -> nat, ms: seq<Message>): nat {
    if ms == [] then 0 else Total(weight, ms[..|ms| - 1]) + weight(ms[|ms| - 1])
  }

  lemma {:induction false} Totals(ms: seq<Message>)
    ensures CarriedBy(ms) == Total(Carried, ms) && FwdFeesOf(ms) == Total(FwdFee, ms)
  {
    if ms == [] {
    } else {
      Totals(ms[..|ms| - 1]);
    }
  }

  /** A message that occurs more than once weighs nothing. */
  ghost predicate RepeatsAreWeightless(weight: Message -> nat, ms: seq<Message>) {
    forall m | m in ms :: multiset(ms)[m] == 1 || weight(m) == 0
  }

  lemma RepeatsAppend(weight: Message -> nat, ms: seq<Message>, last: Message)
    ensures RepeatsAreWeightless(weight, ms + [last])
      <==> RepeatsAreWeightless(weight, ms) && (last in ms ==> weight(last) == 0)
  {
    var all := ms + [last];
    assert forall m :: multiset(all)[m] == multiset(ms)[m] + if m == last then 1 else 0;
    if RepeatsAreWeightless(weight, all) {
      forall m | m in ms ensures multiset(ms)[m] == 1 || weight(m) == 0 {
        assert m in all;
      }
      assert last in all;
    }
  }

  /** A set keeps one of equal messages: its sum is at most that of the sequence, and the same exactly when nothing
      that weighs occurs twice. */
  lemma {:induction false} SumOfSet(weight: Message -> nat, ms: seq<Message>)
    ensures Sum(weight, SetOf(ms)) <= Total(weight, ms)
    ensures Sum(weight, SetOf(ms)) == Total(weight, ms) <==> RepeatsAreWeightless(weight, ms)
  {
    if ms == [] {
      assert SetOf(ms) == {};
    } else {
      var front, last := ms[..|ms| - 1], ms[|ms| - 1];
      SumOfSet(weight, front);
      assert ms == front + [last];
      RepeatsAppend(weight, front, last);
      hide RepeatsAreWeightless;
      if last in front {
        assert SetOf(ms) == SetOf(front);
      } else {
        assert SetOf(ms) - {last} == SetOf(front);
        SumSplit(weight, SetOf(ms), last);
      }
    }
  }

  // ---- what every transaction keeps ----

  ghost predicate NoProvider(env: BlockEnv) { forall id :: env.provider(id) == Absent }

  /** Nothing is lost between the dictionary, the messages on their way, the fees and the rewards. */
  ghost predicate ValueKept(before: nat, accounts: Accounts, copyleft: nat, trace: seq<Txn>) {
    && copyleft == CopyleftOf(trace)
    && before + ValueOf(Ran(trace)) == TotalBalance(accounts) + CarriedBy(Emitted(trace)) + FeesOf(trace) + copyleft
  }

  lemma SingleValue(m: InMsg)
    ensures ValueOf(RanBy(m)) == MsgValue(m)
  {
    if m.Internal? {
      assert [m.msg][..0] == [];
    }
  }

  lemma AddedSums(env: BlockEnv, s: BlockState, id: AccountId, m: InMsg, t: TxResult)
    ensures var trace' := Added(s, id, m, t).trace;
      && CarriedBy(Emitted(trace')) == CarriedBy(Emitted(s.trace)) + CarriedBy(t.outs)
      && ValueOf(Ran(trace')) == ValueOf(Ran(s.trace)) + MsgValue(m)
      && FeesOf(trace') == FeesOf(s.trace) + t.fees
      && CopyleftOf(trace') == CopyleftOf(s.trace) + t.copyleft
  {
    TraceAppend(s.trace, Record(id, m, t));
    SumsConcat(Emitted(s.trace), t.outs);
    SumsConcat(Ran(s.trace), RanBy(m));
    SingleValue(m);
  }

  lemma FoundBalance(env: BlockEnv, s: BlockState, id: AccountId)
    requires NoProvider(env)
    ensures var found := Find(env, s.accounts, id);
      found.Lookup? && BalanceOf(found.account) == if id in s.accounts then s.accounts[id].account.balance else 0
  {
    assert env.provider(id) == Absent;
  }

  lemma AddedValue(env: BlockEnv, before: nat, s: BlockState, id: AccountId, m: InMsg, t: TxResult)
    requires LawfulStep(env, s, id, m, t) && NoProvider(env)
    requires ValueKept(before, s.accounts, s.copyleftRewards, s.trace)
    ensures var s' := Added(s, id, m, t); ValueKept(before, s'.accounts, s'.copyleftRewards, s'.trace)
  {
    hide TotalBalance, CarriedBy, ValueOf, Emitted, Ran, FeesOf, CopyleftOf, LawfulTimes, LawfulGas, NoProvider;
    AddedSums(env, s, id, m, t);
    FoundBalance(env, s, id);
    BalanceAfter(s.accounts, id, t.account, t.lt);
  }
}
