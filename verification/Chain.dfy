/** Runs of a chain: block after block over the state that the previous block left. */
module Chains {
  import opened Messages
  import opened Executor
  import opened BlockSpec
  import opened Trace
  import opened ValueFlow
  import opened BlockShape

  datatype BlockRecord = BlockRecord(
    startLt: nat, endLt: nat, trace: seq<Txn>, feesCollected: nat, copyleft: nat)

  /** The applied state of a chain: the last shard state, the end time of its block, and the blocks so far. */
  datatype Chain = Chain(accounts: Accounts, queue: set<Message>, endLt: nat, blocks: seq<BlockRecord>)

  /** What one attempt to build depends on besides the chain. `forced`: the block is applied even when empty, as
      the masterchain does when shards have changed. */
  datatype BlockInput = BlockInput(
    shard: Shard, gasLimit: nat, seqMode: bool, executor: ExecutorFn, provider: AccountId -> ProviderReply,
    sorted: seq<Message>, exts: seq<ExtMessage>, forced: bool)

  function EnvOf(c: Chain, inp: BlockInput): BlockEnv {
    BlockEnv(inp.shard, c.endLt + 1, inp.gasLimit, inp.seqMode, inp.executor, inp.provider)
  }

  ghost predicate Valid(c: Chain, inp: BlockInput) {
    Lawful(inp.executor) && IsSortOf(inp.sorted, c.queue)
  }

  function BuildOn(c: Chain, inp: BlockInput): Build
    requires Valid(c, inp)
  {
    BuildBlock(EnvOf(c, inp), Start(EnvOf(c, inp), c.accounts, c.queue), inp.sorted, inp.exts)
  }

  /** A failed build leaves the applied state as it was, and so does a block that is dropped as empty. */
  ghost function Step(c: Chain, inp: BlockInput): Chain
    requires Valid(c, inp)
  {
    var b := BuildOn(c, inp);
    if b.BuildFailed? || (b.isEmpty && !inp.forced) then c else
      var s, endLt := b.state, Max(b.state.endLt, c.endLt + 2);
      var record := BlockRecord(c.endLt + 1, endLt, s.trace, FeesCollected(s), s.copyleftRewards);
      Chain(s.accounts, s.outQueue, endLt, c.blocks + [record])
  }

  /** In the block that is built, no account leaves the dictionary between two transactions in which it sends
      messages. */
  ghost predicate Disciplined(c: Chain, inp: BlockInput)
    requires Valid(c, inp)
  {
    var b := BuildOn(c, inp);
    b.Built? ==> SendersStay(b.state.trace)
  }

  ghost predicate ValidRun(c: Chain, inputs: seq<BlockInput>)
    decreases |inputs|
  {
    inputs == [] || (Valid(c, inputs[0]) && ValidRun(Step(c, inputs[0]), inputs[1..]))
  }

  ghost function Run(c: Chain, inputs: seq<BlockInput>): Chain
    requires ValidRun(c, inputs)
    decreases |inputs|
  {
    if inputs == [] then c else Run(Step(c, inputs[0]), inputs[1..])
  }

  lemma {:induction false} RunAppend(c: Chain, inputs: seq<BlockInput>, inp: BlockInput)
    requires ValidRun(c, inputs) && Valid(Run(c, inputs), inp)
    ensures ValidRun(c, inputs + [inp]) && Run(c, inputs + [inp]) == Step(Run(c, inputs), inp)
    decreases |inputs|
  {
    hide Step, Valid;
    if inputs == [] {
      assert [inp][1..] == [];
      assert inputs + [inp] == [inp];
    } else {
      RunAppend(Step(c, inputs[0]), inputs[1..], inp);
      assert (inputs + [inp])[1..] == inputs[1..] + [inp];
    }
  }

  ghost predicate DisciplinedRun(c: Chain, inputs: seq<BlockInput>)
    requires ValidRun(c, inputs)
    decreases |inputs|
  {
    inputs == [] || (Disciplined(c, inputs[0]) && DisciplinedRun(Step(c, inputs[0]), inputs[1..]))
  }

  /** All transactions of the chain, in execution order. */
  ghost function History(blocks: seq<BlockRecord>): seq<Txn> {
    if blocks == [] then [] else History(blocks[..|blocks| - 1]) + blocks[|blocks| - 1].trace
  }

  lemma HistoryAppend(blocks: seq<BlockRecord>, b: BlockRecord)
    ensures History(blocks + [b]) == History(blocks) + b.trace
    ensures Emitted(History(blocks + [b])) == Emitted(History(blocks)) + Emitted(b.trace)
    ensures Ran(History(blocks + [b])) == Ran(History(blocks)) + Ran(b.trace)
  {
    assert (blocks + [b])[..|blocks|] == blocks;
    TraceConcat(History(blocks), b.trace);
  }

  /** What a successful build of the chain guarantees. */
  lemma BuiltBlock(c: Chain, inp: BlockInput) returns (k: nat, cut: nat)
    requires Valid(c, inp) && BuildOn(c, inp).Built?
    ensures var s := BuildOn(c, inp).state;
      && BlockForm(EnvOf(c, inp), inp.sorted, k, cut, s)
      && InInterval(c.endLt + 1, s.endLt, s.trace) && c.endLt + 1 < s.endLt
      && AccountTimesIncrease(s.trace)
      && (SendersStay(s.trace) ==> SourceOrdered(Emitted(s.trace)))
      && StartedWithinLimit(inp.gasLimit, s.trace) && s.gasUsed == GasOf(s.trace)
      && (inp.seqMode ==> |s.trace| <= 1)
  {
    var x, j;
    k, x, cut, j := BuildHasForm(EnvOf(c, inp), c.accounts, c.queue, inp.sorted, inp.exts);
  }

  // ---- logical time ----

  /** Block intervals follow each other, contain all that happens in their blocks, and the transaction times of
      an account increase over the whole chain while it stays in the dictionary. */
  ghost predicate TimesFlow(c: Chain) {
    BlocksFollow(c.blocks, c.endLt) && TransactionsFollow(History(c.blocks), c.endLt)
  }

  ghost predicate BlocksFollow(blocks: seq<BlockRecord>, endLt: nat) {
    && (forall b | b in blocks :: b.startLt < b.endLt <= endLt && InInterval(b.startLt, b.endLt, b.trace))
    && (forall i, j | 0 <= i < j < |blocks| :: blocks[i].endLt < blocks[j].startLt)
  }

  ghost predicate TransactionsFollow(trace: seq<Txn>, endLt: nat) {
    (forall t | t in trace :: t.lt <= endLt) && AccountTimesIncrease(trace)
  }

  lemma AccountTimesJoin(lt: nat, a: seq<Txn>, b: seq<Txn>)
    requires AccountTimesIncrease(a) && AccountTimesIncrease(b)
    requires (forall t | t in a :: t.lt <= lt) && (forall t | t in b :: lt < t.lt)
    ensures AccountTimesIncrease(a + b)
  {
    var n := |a|;
    forall i, j | 0 <= i < j < |a + b| && (a + b)[i].account == (a + b)[j].account && Stays(a + b, i, j)
      ensures (a + b)[i].lt < (a + b)[j].lt
    {
      if j < n {
        assert forall k | i <= k < j :: (a + b)[k] == a[k];
        assert Stays(a, i, j);
      } else if n <= i {
        forall k | i - n <= k < j - n && b[k].account == b[i - n].account ensures !b[k].gone {
          assert (a + b)[k + n] == b[k];
        }
        assert Stays(b, i - n, j - n);
      } else {
        assert (a + b)[i] in a && (a + b)[j] in b;
      }
    }
  }

  lemma IntervalTimes(first: nat, last: nat, trace: seq<Txn>)
    requires InInterval(first, last, trace)
    ensures forall t | t in trace :: first <= t.lt <= last
  {
  }

  lemma BlocksFollowMore(blocks: seq<BlockRecord>, endLt: nat, r: BlockRecord)
    requires BlocksFollow(blocks, endLt)
    requires endLt < r.startLt < r.endLt && InInterval(r.startLt, r.endLt, r.trace)
    ensures BlocksFollow(blocks + [r], r.endLt)
  {
    hide InInterval;
  }

  lemma TransactionsFollowMore(history: seq<Txn>, endLt: nat, r: BlockRecord)
    requires TransactionsFollow(history, endLt)
    requires endLt < r.startLt < r.endLt && InInterval(r.startLt, r.endLt, r.trace) && AccountTimesIncrease(r.trace)
    ensures TransactionsFollow(history + r.trace, r.endLt)
  {
    IntervalTimes(r.startLt, r.endLt, r.trace);
    hide InInterval, AccountTimesIncrease;
    AccountTimesJoin(endLt, history, r.trace);
  }

  /** A chain with one block more. */
  lemma RecordTimes(c: Chain, c': Chain, r: BlockRecord)
    requires TimesFlow(c) && c'.blocks == c.blocks + [r] && c'.endLt == r.endLt
    requires c.endLt < r.startLt < r.endLt && InInterval(r.startLt, r.endLt, r.trace) && AccountTimesIncrease(r.trace)
    ensures TimesFlow(c')
  {
    hide InInterval, AccountTimesIncrease, BlocksFollow, TransactionsFollow;
    HistoryAppend(c.blocks, r);
    BlocksFollowMore(c.blocks, c.endLt, r);
    TransactionsFollowMore(History(c.blocks), c.endLt, r);
  }

  lemma StepTimes(c: Chain, inp: BlockInput)
    requires Valid(c, inp) && TimesFlow(c)
    ensures TimesFlow(Step(c, inp))
  {
    hide BuildBlock, BlockForm, InInterval, AccountTimesIncrease, StartedWithinLimit, SourceOrdered, SendersStay,
      TimesFlow, Emitted;
    var c' := Step(c, inp);
    if c' != c {
      var _, _ := BuiltBlock(c, inp);
      RecordTimes(c, c', c'.blocks[|c.blocks|]);
    }
  }

  /** Main result on logical time; it needs no assumption on accounts. */
  lemma {:induction false} RunTimes(c: Chain, inputs: seq<BlockInput>)
    requires ValidRun(c, inputs) && TimesFlow(c)
    ensures TimesFlow(Run(c, inputs))
    decreases |inputs|
  {
    if inputs == [] {
    } else {
      StepTimes(c, inputs[0]);
      RunTimes(Step(c, inputs[0]), inputs[1..]);
    }
  }

  // ---- gas ----

  /** A block uses at most its limit and one transaction more. */
  lemma BlockGasBound(c: Chain, inp: BlockInput, most: nat)
    requires Valid(c, inp) && BuildOn(c, inp).Built?
    requires forall t | t in BuildOn(c, inp).state.trace :: t.gasUsed <= most
    ensures GasOf(BuildOn(c, inp).state.trace) <= inp.gasLimit + most
    ensures inp.seqMode ==> |BuildOn(c, inp).state.trace| <= 1
  {
    hide BuildBlock;
    var _, _ := BuiltBlock(c, inp);
    var trace := BuildOn(c, inp).state.trace;
    if trace != [] {
      assert GasOf(trace[..|trace| - 1]) <= inp.gasLimit;
    }
  }

  /** A block reported empty may be dropped: neither the accounts nor the queue differ from the input. */
  lemma EmptyBlockLosesNothing(c: Chain, inp: BlockInput)
    requires Valid(c, inp)
    ensures var b := BuildOn(c, inp);
      && (b.Built? && b.isEmpty ==>
            b.state.accounts == c.accounts && b.state.outQueue == c.queue && b.state.trace == [] && b.rest == [])
      && (b.Built? ==> (b.isEmpty <==> c.queue == {} && inp.exts == []))
  {
    EmptyBuildChangesNothing(EnvOf(c, inp), Start(EnvOf(c, inp), c.accounts, c.queue), inp.sorted, inp.exts);
    hide Worklist;
    if inp.sorted != [] {
      assert inp.sorted[0] in SetOf(inp.sorted);
    }
  }
}
