/** Delivery and conservation of value hold over all runs exactly in the sequential mode. In the other mode a
    block can use an absent account twice: both transactions happen at one time, and so do the messages sent back. */
module Recreation {
  import opened Common
  import opened Messages
  import opened Executor
  import opened BlockSpec
  import opened Trace
  import opened ValueFlow
  import opened BlockShape
  import opened Chains
  import opened Delivery
  import opened ChainValues

  // ---- an executor that sends every transfer back ----

  /** An internal message that carries value bounces without gas, one unit of its value paying for the way back; a
      bounced one is credited; an external one is not accepted. */
  function Bounce(workchain: int, a: Option<Account>, id: AccountId, m: InMsg, lastLt: nat): ExecResult {
    match m
    case External(_) => NoAccept
    case Internal(x) =>
      var lt := EarliestLt(a, m, lastLt);
      if x.bounced || x.value == 0 then
        Success(TxResult(lt, lt, Some(Account(BalanceOf(a) + x.value, lt, 0)), [], 0, 0, 0))
      else
        var left := if a.Some? then Some(a.value.(lastTrTime := lt + 2)) else None;
        Success(TxResult(lt, lt + 1, left, [SentBack(workchain, id, x, lt + 1)], 0, 0, 0))
  }

  function SentBack(workchain: int, id: AccountId, x: Message, lt: nat): Message
    requires x.value > 0
  {
    Message(id, Address(workchain, x.src), lt, x.value - 1, 1, true, x.body)
  }

  lemma BounceIsLawful(workchain: int, a: Option<Account>, id: AccountId, m: InMsg, lastLt: nat)
    ensures LawfulAt(a, id, m, lastLt, Bounce(workchain, a, id, m, lastLt))
  {
    var r := Bounce(workchain, a, id, m, lastLt);
    if r.Success? && r.tx.outs != [] {
      assert r.tx.outs == [r.tx.outs[0]] && r.tx.outs[..0] == [];
      assert CarriedBy(r.tx.outs) == CarriedBy([]) + Carried(r.tx.outs[0]);
    }
  }

  function NoAccount(id: AccountId): ProviderReply { Absent }

  // ---- a block that never fails and never fills ----

  ghost predicate Bounces(workchain: int, ex: ExecutorFn) {
    forall a, id, x, lastLt :: ex(a, id, Internal(x), lastLt) == Bounce(workchain, a, id, Internal(x), lastLt)
  }

  ghost predicate Steady(env: BlockEnv) {
    Bounces(env.shard.workchain, env.executor) && env.provider == NoAccount && !env.seqMode
  }

  lemma SteadyNext(env: BlockEnv, s: BlockState)
    requires Steady(env) && s.newMessages != []
    ensures var n := Next(env, s, false); n.Finished? && n.state.gasUsed == s.gasUsed && s.trace <= n.state.trace
  {
  }

  lemma {:induction false} SteadyWorklist(env: BlockEnv, s: BlockState)
    requires Lawful(env.executor) && Steady(env) && !LimitReached(env, s)
    ensures var w := Worklist(env, s, false); w.Finished? && w.state.gasUsed == s.gasUsed && s.trace <= w.state.trace
    decreases Gas(env, s, false), Weight(s.newMessages)
  {
    if s.newMessages == [] {
    } else {
      hide Next, Steady;
      SteadyNext(env, s);
      WorklistStep(env, s, false);
      hide Smaller;
      var n := Next(env, s, false);
      SteadyStaysOpen(env, s, n);
      SteadyMeasure(env, s, n);
      SteadyWorklist(env, n.state);
    }
  }

  lemma SteadyStaysOpen(env: BlockEnv, s: BlockState, n: Outcome)
    requires Steady(env) && n.Finished? && n.state.gasUsed == s.gasUsed && !LimitReached(env, s)
    requires s.newMessages != [] && n == Next(env, s, false)
    ensures !n.full && !LimitReached(env, n.state)
  {
  }

  lemma SteadyMeasure(env: BlockEnv, s: BlockState, n: Outcome)
    requires n.Finished? && Smaller(env, n.state, n.full, s, false) && !n.full
    ensures Gas(env, n.state, false) < Gas(env, s, false)
      || (Gas(env, n.state, false) == Gas(env, s, false) && Weight(n.state.newMessages) < Weight(s.newMessages))
  {
  }

  // ---- two transfers to an absent account ----

  /** The queue holds two transfers of the same value to one account that is not in the dictionary. */
  ghost predicate TwoTransfers(c: Chain, inp: BlockInput, x: Message, y: Message) {
    && x.dst.account !in c.accounts && c.queue == {x, y} && inp.sorted == [x, y] && inp.exts == [] && !inp.seqMode
    && Lawful(inp.executor) && Bounces(inp.shard.workchain, inp.executor) && inp.provider == NoAccount
    && x.createdLt < y.createdLt <= c.endLt && y == x.(createdLt := y.createdLt) && x.value > 0 && !x.bounced
  }

  function Back(c: Chain, inp: BlockInput, x: Message): Message
    requires x.value > 0
  {
    SentBack(inp.shard.workchain, x.dst.account, x, c.endLt + 2)
  }

  function BounceOf(c: Chain, inp: BlockInput, x: Message, m: Message): Txn
    requires x.value > 0
  {
    Txn(x.dst.account, Internal(m), c.endLt + 1, [Back(c, inp, x)], 0, 0, 0, true)
  }

  /** Both happen at the first time of the block. */
  lemma OneTransfer(c: Chain, inp: BlockInput, x: Message, y: Message, s: BlockState, m: Message)
    requires TwoTransfers(c, inp, x, y) && m in {x, y} && x.dst.account !in s.accounts
    ensures var p := PrepareIn(EnvOf(c, inp), s, m.dst.account, Internal(m));
      && p.Prepared?
      && var s' := Added(s, m.dst.account, Internal(m), p.tx);
         && x.dst.account !in s'.accounts && s'.gasUsed == s.gasUsed
         && s'.trace == s.trace + [BounceOf(c, inp, x, m)]
  {
  }

  lemma ImportBoth(c: Chain, inp: BlockInput, x: Message, y: Message)
    requires TwoTransfers(c, inp, x, y)
    ensures var s0 := Start(EnvOf(c, inp), c.accounts, c.queue);
      var r := Import(EnvOf(c, inp), s0, inp.sorted);
      && r.Finished? && !r.full && r.state.gasUsed == 0
      && r.state.trace == [BounceOf(c, inp, x, x), BounceOf(c, inp, x, y)]
  {
    var env := EnvOf(c, inp);
    var s0 := Start(env, c.accounts, c.queue);
    OneTransfer(c, inp, x, y, s0, x);
    hide PrepareIn, BounceOf;
    var a1 := Added(s0, x.dst.account, Internal(x), PrepareIn(env, s0, x.dst.account, Internal(x)).tx);
    var s1 := a1.(outQueue := a1.outQueue - {x});
    OneTransfer(c, inp, x, y, s1, y);
    hide Added;
    assert [x, y][1..] == [y] && [y][1..] == [];
    assert Import(env, s0, [x, y]) == Import(env, s1, [y]);
    var a2 := Added(s1, y.dst.account, Internal(y), PrepareIn(env, s1, y.dst.account, Internal(y)).tx);
    var s2 := a2.(outQueue := a2.outQueue - {y});
    assert Import(env, s1, [y]) == Import(env, s2, []);
  }

  /** The block is built and ends within its limits, and both transfers have come back as one and the same message. */
  lemma BothBounce(c: Chain, inp: BlockInput, x: Message, y: Message)
    requires TwoTransfers(c, inp, x, y)
    ensures Valid(c, inp) && BuildOn(c, inp).Built? && !BuildOn(c, inp).isEmpty
    ensures var s := BuildOn(c, inp).state;
      && !LimitReached(EnvOf(c, inp), s)
      && [Back(c, inp, x), Back(c, inp, x)] <= Emitted(s.trace)
  {
    assert SetOf(inp.sorted) == {x, y};
    ImportBoth(c, inp, x, y);
    hide Import, Worklist, Emitted, Bounces, Lawful, BounceOf;
    var env := EnvOf(c, inp);
    var imported := Import(env, Start(env, c.accounts, c.queue), inp.sorted);
    SteadyWorklist(env, imported.state);
    var s := BuildOn(c, inp).state;
    EmittedFirst(c, inp, x, y, s.trace);
  }

  lemma EmittedFirst(c: Chain, inp: BlockInput, x: Message, y: Message, trace: seq<Txn>)
    requires x.value > 0 && [BounceOf(c, inp, x, x), BounceOf(c, inp, x, y)] <= trace
    ensures [Back(c, inp, x), Back(c, inp, x)] <= Emitted(trace)
  {
    var t1, t2 := BounceOf(c, inp, x, x), BounceOf(c, inp, x, y);
    assert trace == [t1] + ([t2] + trace[2..]);
    TraceConcat([t1], [t2] + trace[2..]);
    TraceConcat([t2], trace[2..]);
    assert [t1][..0] == [] && [t2][..0] == [];
    assert Emitted([t1]) == Emitted([]) + t1.outs && Emitted([t2]) == Emitted([]) + t2.outs;
  }

  /** The closed form of a block that ends within its limits. */
  lemma WholeBlock(c: Chain, inp: BlockInput) returns (k: nat)
    requires Valid(c, inp) && BuildOn(c, inp).Built? && !LimitReached(EnvOf(c, inp), BuildOn(c, inp).state)
    ensures var s := BuildOn(c, inp).state;
      && k == |inp.sorted| && BlockForm(EnvOf(c, inp), inp.sorted, k, |Emitted(s.trace)|, s)
      && Ran(s.trace) == RunOf(inp.shard, inp.sorted, Emitted(s.trace), k, |Emitted(s.trace)|)
      && c.endLt < s.endLt
  {
    hide BuildBlock, InInterval, SendersStay, StartedWithinLimit, AccountTimesIncrease, SourceOrdered, Emitted, Ran,
      Split, SetOf;
    var cut;
    k, cut := BuiltBlock(c, inp);
  }

  lemma MovesOn(c: Chain, inp: BlockInput)
    requires Valid(c, inp) && BuildOn(c, inp).Built? && !BuildOn(c, inp).isEmpty
    ensures Step(c, inp) != c
  {
    hide BuildBlock;
  }

  /** Delivery fails. */
  lemma TransfersAreNotDelivered(origin: set<Message>, c: Chain, inp: BlockInput, x: Message, y: Message)
    requires TwoTransfers(c, inp, x, y) && Delivered(origin, c)
    ensures Valid(c, inp) && !Delivered(origin, Step(c, inp))
  {
    BothBounce(c, inp, x, y);
    hide TwoTransfers, Delivered, BuildOn, BlockForm, Emitted, LimitReached, Step, Valid, RunOf, Ran;
    var k := WholeBlock(c, inp);
    MovesOn(c, inp);
    var emitted := Emitted(BuildOn(c, inp).state.trace);
    AppliedDeliversIff(origin, c, inp, k, |emitted|);
    assert emitted[0] == emitted[1] == Back(c, inp, x);
    assert !InOrder(emitted[0], emitted[1], InShard(inp.shard, emitted[0]) && 0 < |emitted|);
  }

  lemma DoubledSomewhere(shard: Shard, sorted: seq<Message>, emitted: seq<Message>, k: nat, m: Message)
    requires k <= |sorted| && [m, m] <= emitted
    ensures multiset(RunOf(shard, sorted, emitted, k, |emitted|))[m] >= 2
      || multiset(LeftOver(shard, sorted, emitted, k, |emitted|))[m] >= 2
  {
    assert emitted[..|emitted|] == emitted && emitted == [m, m] + emitted[2..];
    SplitMultiset(shard, emitted);
    assert multiset(emitted)[m] >= 2;
    assert m !in Split(shard, !InShard(shard, m), emitted);
  }

  lemma WeightyRepeat(weight: Message -> nat, ms: seq<Message>, m: Message)
    requires multiset(ms)[m] >= 2 && weight(m) > 0
    ensures !RepeatsAreWeightless(weight, ms)
  {
    assert m in ms;
  }

  /** And value is lost. */
  lemma TransfersLoseValue(c: Chain, inp: BlockInput, x: Message, y: Message)
    requires TwoTransfers(c, inp, x, y)
    ensures Valid(c, inp) && Wealth(Step(c, inp)) < Wealth(c)
  {
    BothBounce(c, inp, x, y);
    assert NoProvider(EnvOf(c, inp));
    hide TwoTransfers, BuildOn, BlockForm, Emitted, LimitReached, Wealth, ValueBefore, ValueAfter, NoProvider, Step,
      Valid, RunOf, LeftOver, Ran, RepeatsAreWeightless;
    var k := WholeBlock(c, inp);
    var s, m := BuildOn(c, inp).state, Back(c, inp, x);
    var emitted := Emitted(s.trace);
    BlockConservesValueIff(c, inp, k, |emitted|);
    DoubledSomewhere(inp.shard, inp.sorted, emitted, k, m);
    if multiset(Ran(s.trace))[m] >= 2 {
      WeightyRepeat(FwdFee, Ran(s.trace), m);
    } else {
      WeightyRepeat(Carried, LeftOver(inp.shard, inp.sorted, emitted, k, |emitted|), m);
    }
    MovesOn(c, inp);
    StepWealth(c, inp);
  }

  // ---- a node gets there in one block from its start ----

  function Transfer(id: AccountId, workchain: int, lt: nat): Message {
    Message(id, Address(workchain, 1), lt, 1, 0, false, 0)
  }

  /** An external message makes an account send two transfers and use more gas than a block has; internal messages
      bounce. */
  function Trade(
    workchain: int, gas: nat, a: Option<Account>, id: AccountId, m: InMsg, lastLt: nat): ExecResult
    requires gas > 0
  {
    if m.Internal? then Bounce(workchain, a, id, m, lastLt)
    else if a.None? || a.value.balance < 2 then NoAccept
    else
      var lt := EarliestLt(a, m, lastLt);
      Success(TxResult(lt, lt + 2, Some(Account(a.value.balance - 2, lt + 3, a.value.data)),
                       [Transfer(id, workchain, lt + 1), Transfer(id, workchain, lt + 2)], gas, 0, 0))
  }

  function Trading(workchain: int, gas: nat): ExecutorFn
    requires gas > 0
  {
    (a: Option<Account>, id: AccountId, m: InMsg, lastLt: nat) => Trade(workchain, gas, a, id, m, lastLt)
  }

  lemma TradeIsLawful(workchain: int, gas: nat, a: Option<Account>, id: AccountId, m: InMsg, lastLt: nat)
    requires gas > 0
    ensures LawfulAt(a, id, m, lastLt, Trade(workchain, gas, a, id, m, lastLt))
  {
    if m.Internal? {
      BounceIsLawful(workchain, a, id, m, lastLt);
    } else if a.Some? && a.value.balance >= 2 {
      var lt := EarliestLt(a, m, lastLt);
      var x, y := Transfer(id, workchain, lt + 1), Transfer(id, workchain, lt + 2);
      assert [x, y][..1] == [x] && [x][..0] == [];
      assert CarriedBy([x, y]) == CarriedBy([x]) + Carried(y) && CarriedBy([x]) == CarriedBy([]) + Carried(x);
    }
  }

  lemma TradingIsLawful(workchain: int, gas: nat)
    requires gas > 0
    ensures Lawful(Trading(workchain, gas)) && Bounces(workchain, Trading(workchain, gas))
  {
    forall a, id, m, lastLt ensures LawfulAt(a, id, m, lastLt, Trading(workchain, gas)(a, id, m, lastLt)) {
      TradeIsLawful(workchain, gas, a, id, m, lastLt);
    }
  }

  /** What a node starts from: no blocks, an empty queue, and some accounts. */
  ghost predicate Genesis(c: Chain) { c.blocks == [] && c.queue == {} && c.endLt == 0 }

  function Rich(): ShardAccount { ShardAccount(Account(2, 0, 0), 0) }

  function Origin(): Chain { Chain(map[0 := Rich()], {}, 0, []) }

  function Order(shard: Shard): ExtMessage { ExtMessage(Some(shard.workchain), 0, 0) }

  function First(shard: Shard, gasLimit: nat): BlockInput {
    BlockInput(shard, gasLimit, false, Trading(shard.workchain, gasLimit + 1), NoAccount, [], [Order(shard)], false)
  }

  function OrderResult(shard: Shard, gasLimit: nat): TxResult {
    TxResult(1, 3, Some(Account(0, 4, 0)), [Transfer(0, shard.workchain, 2), Transfer(0, shard.workchain, 3)],
             gasLimit + 1, 0, 0)
  }

  /** The state in which the external message leaves the block: full, with both transfers new. */
  function Spent(shard: Shard, gasLimit: nat): BlockState {
    var env := EnvOf(Origin(), First(shard, gasLimit));
    Added(Start(env, Origin().accounts, {}), 0, External(Order(shard)), OrderResult(shard, gasLimit))
  }

  lemma OrderRuns(shard: Shard, gasLimit: nat)
    ensures var env := EnvOf(Origin(), First(shard, gasLimit));
      && AfterExternal(env, Start(env, Origin().accounts, {}), Order(shard)) == Spent(shard, gasLimit)
      && LimitReached(env, Spent(shard, gasLimit))
  {
    var env := EnvOf(Origin(), First(shard, gasLimit));
    var s := Start(env, Origin().accounts, {});
    assert Find(env, s.accounts, 0) == Lookup(Some(Rich().account), 0);
    assert Prepare(env, Some(Rich().account), 0, External(Order(shard)), 1) == Prepared(OrderResult(shard, gasLimit));
  }

  /** A full block queues all that is new. */
  lemma {:induction false} FullQueuesAll(env: BlockEnv, s: BlockState)
    requires Lawful(env.executor)
    ensures Worklist(env, s, true)
         == Outcome.Finished(s.(newMessages := [], outQueue := s.outQueue + SetOf(s.newMessages)), true)
    decreases |s.newMessages|
  {
    hide Lawful;
    if s.newMessages == [] {
      assert s.outQueue + SetOf([]) == s.outQueue;
      assert s.(newMessages := [], outQueue := s.outQueue) == s;
    } else {
      var m := s.newMessages[0];
      var s' := s.(newMessages := s.newMessages[1..], outQueue := s.outQueue + {m});
      assert Next(env, s, true) == Outcome.Finished(s', true);
      WorklistStep(env, s, true);
      FullQueuesAll(env, s');
      assert s.newMessages == [m] + s'.newMessages;
      assert s'.outQueue + SetOf(s'.newMessages) == s.outQueue + SetOf(s.newMessages);
    }
  }

  function Queued(shard: Shard): set<Message> { {Transfer(0, shard.workchain, 2), Transfer(0, shard.workchain, 3)} }

  lemma FirstBuilds(shard: Shard, gasLimit: nat)
    ensures var c, inp := Origin(), First(shard, gasLimit);
      && Valid(c, inp)
      && BuildOn(c, inp) == Built(Spent(shard, gasLimit).(newMessages := [], outQueue := Queued(shard)), false, [])
  {
    var c, inp := Origin(), First(shard, gasLimit);
    TradingIsLawful(shard.workchain, gasLimit + 1);
    assert SetOf([]) == {};
    OrderRuns(shard, gasLimit);
    hide Lawful, AfterExternal, LimitReached, Trading, Worklist;
    var env := EnvOf(c, inp);
    var s := Start(env, c.accounts, {});
    assert Import(env, s, []) == Outcome.Finished(s, false);
    assert Externals(env, s, [Order(shard)]) == ExternalOutcome(Spent(shard, gasLimit), true, [Order(shard)][1..]);
    FullQueuesAll(env, Spent(shard, gasLimit));
    SpentMessages(shard, gasLimit);
  }

  lemma SpentMessages(shard: Shard, gasLimit: nat)
    ensures Spent(shard, gasLimit).outQueue + SetOf(Spent(shard, gasLimit).newMessages) == Queued(shard)
  {
    assert Spent(shard, gasLimit).newMessages == [Transfer(0, shard.workchain, 2), Transfer(0, shard.workchain, 3)];
  }

  function Second(shard: Shard, gasLimit: nat): BlockInput {
    First(shard, gasLimit).(exts := [], sorted := [Transfer(0, shard.workchain, 2), Transfer(0, shard.workchain, 3)])
  }

  /** After the first block the two transfers wait, for an account that is not there. */
  lemma FirstLeadsToTransfers(shard: Shard, gasLimit: nat)
    ensures Valid(Origin(), First(shard, gasLimit)) && Disciplined(Origin(), First(shard, gasLimit))
    ensures TwoTransfers(Step(Origin(), First(shard, gasLimit)), Second(shard, gasLimit),
                         Transfer(0, shard.workchain, 2), Transfer(0, shard.workchain, 3))
  {
    FirstBuilds(shard, gasLimit);
    TradingIsLawful(shard.workchain, gasLimit + 1);
    hide BuildBlock, Lawful, Bounces, Trading;
    assert |Spent(shard, gasLimit).trace| == 1;
  }

  lemma TwoStepRun(c: Chain, a: BlockInput, b: BlockInput)
    requires Valid(c, a) && Valid(Step(c, a), b)
    ensures ValidRun(c, [a, b]) && Run(c, [a, b]) == Step(Step(c, a), b)
  {
    hide Valid, Step;
    assert [a][1..] == [] && [a, b] == [a] + [b];
    assert ValidRun(c, [a]) && Run(c, [a]) == Step(c, a);
    RunAppend(c, [a], b);
  }

  /** Two blocks after the start of a node delivery has failed and value is lost. */
  lemma TwoBlocksFail(shard: Shard, gasLimit: nat)
    ensures var c, inputs := Origin(), [First(shard, gasLimit), Second(shard, gasLimit)];
      && Genesis(c) && ValidRun(c, inputs)
      && !Delivered({}, Run(c, inputs)) && Wealth(Run(c, inputs)) < Wealth(c)
  {
    var c, a, b := Origin(), First(shard, gasLimit), Second(shard, gasLimit);
    var x, y := Transfer(0, shard.workchain, 2), Transfer(0, shard.workchain, 3);
    GenesisDelivers(c);
    FirstLeadsToTransfers(shard, gasLimit);
    assert NoProvider(EnvOf(c, a));
    hide Delivered, Wealth, TwoTransfers, Step, Valid, Disciplined, First, Second, Origin, Run, ValidRun, NoProvider;
    StepDelivers({}, c, a);
    TransfersAreNotDelivered({}, Step(c, a), b, x, y);
    StepWealthIff(c, a);
    TransfersLoseValue(Step(c, a), b, x, y);
    TwoStepRun(c, a, b);
  }

  // ---- the exact condition ----

  ghost predicate Under(shard: Shard, gasLimit: nat, seqMode: bool, inputs: seq<BlockInput>) {
    forall inp | inp in inputs :: inp.shard == shard && inp.gasLimit == gasLimit && inp.seqMode == seqMode
  }

  /** Every run that a node makes under these settings from its start delivers. */
  ghost predicate AlwaysDelivers(shard: Shard, gasLimit: nat, seqMode: bool) {
    forall c, inputs | Genesis(c) && Under(shard, gasLimit, seqMode, inputs) && ValidRun(c, inputs) ::
      Delivered({}, Run(c, inputs))
  }

  /** Every such run without an external account provider conserves value. */
  ghost predicate AlwaysConserves(shard: Shard, gasLimit: nat, seqMode: bool) {
    forall c, inputs | Genesis(c) && Under(shard, gasLimit, seqMode, inputs) && ValidRun(c, inputs)
                       && NoProviders(inputs) ::
      Wealth(Run(c, inputs)) == Wealth(c)
  }

  lemma WitnessSettings(shard: Shard, gasLimit: nat)
    ensures var inputs := [First(shard, gasLimit), Second(shard, gasLimit)];
      Under(shard, gasLimit, false, inputs) && NoProviders(inputs)
  {
  }

  /** The exact condition for delivery over all runs of a node is the mode. */
  lemma AlwaysDeliversIff(shard: Shard, gasLimit: nat, seqMode: bool)
    ensures AlwaysDelivers(shard, gasLimit, seqMode) <==> seqMode
  {
    hide Delivered, Step, Valid, First, Second, Origin;
    if seqMode {
      forall c, inputs | Genesis(c) && Under(shard, gasLimit, seqMode, inputs) && ValidRun(c, inputs)
        ensures Delivered({}, Run(c, inputs))
      {
        GenesisIsDelivered(c);
        SequentialRunIsDisciplined(c, inputs);
        RunDelivers({}, c, inputs);
      }
    } else {
      TwoBlocksFail(shard, gasLimit);
      WitnessSettings(shard, gasLimit);
      hide Run, ValidRun, Under, Genesis;
      assert !Delivered({}, Run(Origin(), [First(shard, gasLimit), Second(shard, gasLimit)]));
    }
  }

  lemma GenesisIsDelivered(c: Chain)
    requires Genesis(c)
    ensures Delivered({}, c) && UpTo(c.endLt, c.queue)
  {
    GenesisDelivers(c);
  }

  /** And so is the exact condition for the conservation of value. */
  lemma AlwaysConservesIff(shard: Shard, gasLimit: nat, seqMode: bool)
    ensures AlwaysConserves(shard, gasLimit, seqMode) <==> seqMode
  {
    hide Delivered, Wealth, Step, Valid, NoProviders, First, Second, Origin;
    if seqMode {
      forall c, inputs | Genesis(c) && Under(shard, gasLimit, seqMode, inputs) && ValidRun(c, inputs)
                         && NoProviders(inputs)
        ensures Wealth(Run(c, inputs)) == Wealth(c)
      {
        GenesisIsDelivered(c);
        SequentialRunIsDisciplined(c, inputs);
        RunConservesValue(c, inputs);
      }
    } else {
      TwoBlocksFail(shard, gasLimit);
      WitnessSettings(shard, gasLimit);
      hide Run, ValidRun, Under, Genesis;
      assert Wealth(Run(Origin(), [First(shard, gasLimit), Second(shard, gasLimit)])) != Wealth(Origin());
    }
  }
}
