/** Value over runs of a chain: never created, and lost exactly where a message that carries value occurs twice. */
module ChainValues {
  import opened Messages
  import opened Executor
  import opened BlockSpec
  import opened Trace
  import opened ValueFlow
  import opened BlockShape
  import opened Chains
  import opened Delivery

  lemma CarriedOnce(shard: Shard, sorted: seq<Message>, emitted: seq<Message>, k: nat, cut: nat)
    requires k <= |sorted| && cut <= |emitted|
    ensures CarriedBy(sorted) + CarriedBy(emitted)
         == CarriedBy(RunOf(shard, sorted, emitted, k, cut)) + CarriedBy(LeftOver(shard, sorted, emitted, k, cut))
  {
    hide CarriedBy, Split;
    SplitCarried(shard, emitted[..cut]);
    SumsConcat(sorted[..k], sorted[k..]);
    SumsConcat(emitted[..cut], emitted[cut..]);
    SumsConcat(sorted[..k], Split(shard, true, emitted[..cut]));
    SumsConcat(Split(shard, false, emitted[..cut]), emitted[cut..]);
    SumsConcat(sorted[k..], Split(shard, false, emitted[..cut]) + emitted[cut..]);
    assert sorted == sorted[..k] + sorted[k..] && emitted == emitted[..cut] + emitted[cut..];
  }

  /** The balance and what the queue holds before a block, and the same with what the block takes out after it. */
  ghost function ValueBefore(c: Chain): nat { TotalBalance(c.accounts) + Held(c.queue) }

  ghost function ValueAfter(s: BlockState): nat {
    TotalBalance(s.accounts) + Held(s.outQueue) + FeesCollected(s) + s.copyleftRewards
  }

  /** Nothing that carries value is twice in the messages left over, and nothing with a fee twice in those run. */
  ghost predicate NothingDoubled(c: Chain, inp: BlockInput, s: BlockState, k: nat, cut: nat)
    requires k <= |inp.sorted| && cut <= |Emitted(s.trace)|
  {
    && RepeatsAreWeightless(Carried, LeftOver(inp.shard, inp.sorted, Emitted(s.trace), k, cut))
    && RepeatsAreWeightless(FwdFee, Ran(s.trace))
  }

  lemma SortedSums(sorted: seq<Message>, queue: set<Message>)
    requires IsSortOf(sorted, queue)
    ensures Held(queue) == CarriedBy(sorted)
  {
    SumOfSet(Carried, sorted);
    Totals(sorted);
    forall m | m in sorted ensures multiset(sorted)[m] == 1 {
      SetOfDistinct(sorted);
      assert multiset(SetOf(sorted))[m] == 1;
    }
  }

  /** Whatever the accounts do, a block without an external account provider creates no value, and it conserves value
      exactly when nothing that counts is doubled. */
  lemma BlockConservesValueIff(c: Chain, inp: BlockInput, k: nat, cut: nat)
    requires Valid(c, inp) && NoProvider(EnvOf(c, inp)) && BuildOn(c, inp).Built?
    requires BlockForm(EnvOf(c, inp), inp.sorted, k, cut, BuildOn(c, inp).state)
    ensures var s := BuildOn(c, inp).state;
      && ValueAfter(s) <= ValueBefore(c)
      && (ValueAfter(s) == ValueBefore(c) <==> NothingDoubled(c, inp, s, k, cut))
  {
    hide BuildBlock, NoProvider, TotalBalance, CarriedBy, ValueOf, FwdFeesOf, FeesOf, CopyleftOf, RepeatsAreWeightless,
      InInterval, SourcesInOrder, AccountTimesIncrease, AccountsFollow, StartedWithinLimit, Split, Emitted, Ran, GasOf,
      Sum, Total, SetOf;
    var env, s := EnvOf(c, inp), BuildOn(c, inp).state;
    var _, _, _, _ := BuildHasForm(env, c.accounts, c.queue, inp.sorted, inp.exts);
    var sorted, emitted := inp.sorted, Emitted(s.trace);
    var left, ran := LeftOver(inp.shard, sorted, emitted, k, cut), Ran(s.trace);
    LeftOverSet(inp.shard, sorted, emitted, k, cut);
    SortedSums(sorted, c.queue);
    CarriedOnce(inp.shard, sorted, emitted, k, cut);
    hide LeftOver;
    CarriedIsValueAndFee(ran);
    SumOfSet(Carried, left);
    SumOfSet(FwdFee, ran);
    Totals(left);
    Totals(ran);
  }

  // ---- blocks that create no message twice ----

  lemma OnceEach(ms: seq<Message>)
    requires NoRepeat(ms)
    ensures forall m :: multiset(ms)[m] <= 1
  {
    SetOfDistinct(ms);
    forall m ensures multiset(ms)[m] <= 1 {
      assert multiset(SetOf(ms))[m] <= 1;
    }
  }

  lemma PartsHaveNoRepeat(sorted: seq<Message>, emitted: seq<Message>, ran: seq<Message>, left: seq<Message>)
    requires multiset(sorted) + multiset(emitted) == multiset(ran) + multiset(left)
    requires NoRepeat(sorted) && NoRepeat(emitted) && forall m | m in sorted :: m !in emitted
    ensures RepeatsAreWeightless(Carried, left) && RepeatsAreWeightless(FwdFee, ran)
  {
    OnceEach(emitted);
    OnceEach(sorted);
    forall m ensures multiset(ran)[m] <= 1 && multiset(left)[m] <= 1 {
      assert (m in sorted || multiset(sorted)[m] == 0) && (m in emitted || multiset(emitted)[m] == 0);
      assert (multiset(sorted) + multiset(emitted))[m] <= 1;
      assert (multiset(ran) + multiset(left))[m] <= 1;
    }
  }

  lemma OldAndNewDiffer(c: Chain, inp: BlockInput, s: BlockState)
    requires IsSortOf(inp.sorted, c.queue) && UpTo(c.endLt, c.queue) && InInterval(c.endLt + 1, s.endLt, s.trace)
    ensures NoRepeat(inp.sorted) && forall m | m in inp.sorted :: m !in Emitted(s.trace)
  {
    hide Emitted;
    assert forall m | m in inp.sorted :: m in SetOf(inp.sorted);
  }

  lemma NothingDoubledWithoutRepeat(c: Chain, inp: BlockInput, s: BlockState, k: nat, cut: nat)
    requires IsSortOf(inp.sorted, c.queue) && UpTo(c.endLt, c.queue)
    requires BlockForm(EnvOf(c, inp), inp.sorted, k, cut, s) && InInterval(c.endLt + 1, s.endLt, s.trace)
    requires NoRepeat(Emitted(s.trace))
    ensures NothingDoubled(c, inp, s, k, cut)
  {
    OldAndNewDiffer(c, inp, s);
    hide IsSortOf, UpTo, InInterval, LeftOver, Emitted, Split, RepeatsAreWeightless, Ran, SetOf, NoRepeat;
    var emitted := Emitted(s.trace);
    NothingLost(inp.shard, inp.sorted, emitted, k, cut);
    PartsHaveNoRepeat(inp.sorted, emitted, Ran(s.trace), LeftOver(inp.shard, inp.sorted, emitted, k, cut));
  }

  lemma BlockConservesValue(c: Chain, inp: BlockInput)
    requires Valid(c, inp) && Disciplined(c, inp) && NoProvider(EnvOf(c, inp)) && BuildOn(c, inp).Built?
    requires UpTo(c.endLt, c.queue)
    ensures ValueAfter(BuildOn(c, inp).state) == ValueBefore(c)
  {
    hide BuildBlock, BlockForm, InInterval, SendersStay, StartedWithinLimit, AccountTimesIncrease, Emitted,
      NothingDoubled, NoProvider, UpTo, ValueAfter, ValueBefore;
    var k, cut := BuiltBlock(c, inp);
    BlockConservesValueIff(c, inp, k, cut);
    var s := BuildOn(c, inp).state;
    assert NoRepeat(Emitted(s.trace)) by {
      SourceOrderedHasNoRepeat(Emitted(s.trace));
    }
    NothingDoubledWithoutRepeat(c, inp, s, k, cut);
  }

  lemma SourceOrderedHasNoRepeat(ms: seq<Message>)
    requires SourceOrdered(ms)
    ensures NoRepeat(ms)
  {
    forall i, j | 0 <= i < j < |ms| ensures ms[i] != ms[j] {
      assert Earlier(ms[i], ms[j]);
    }
  }

  // ---- runs ----

  /** Everything taken out of the chain as fees and rewards so far. */
  ghost function TakenOut(blocks: seq<BlockRecord>): nat {
    if blocks == [] then 0 else
      TakenOut(blocks[..|blocks| - 1]) + blocks[|blocks| - 1].feesCollected + blocks[|blocks| - 1].copyleft
  }

  ghost function Wealth(c: Chain): nat { TotalBalance(c.accounts) + Held(c.queue) + TakenOut(c.blocks) }

  lemma StepWealth(c: Chain, inp: BlockInput)
    requires Valid(c, inp) && Step(c, inp) != c
    ensures BuildOn(c, inp).Built?
    ensures Wealth(Step(c, inp)) == Wealth(c) - ValueBefore(c) + ValueAfter(BuildOn(c, inp).state)
  {
    hide BuildBlock, TotalBalance, Held, FeesCollected;
    assert Step(c, inp).blocks[..|c.blocks|] == c.blocks;
  }

  ghost predicate NoProviders(inputs: seq<BlockInput>) {
    forall inp | inp in inputs :: forall id :: inp.provider(id) == Absent
  }

  /** The attempt applies nothing, or its block doubles nothing that counts. */
  ghost predicate StepKeepsValue(c: Chain, inp: BlockInput)
    requires Valid(c, inp)
  {
    Step(c, inp) == c || exists k, cut :: BlockKeepsValue(c, inp, k, cut)
  }

  ghost predicate BlockKeepsValue(c: Chain, inp: BlockInput, k: nat, cut: nat)
    requires Valid(c, inp)
  {
    var b := BuildOn(c, inp);
    && b.Built? && BlockForm(EnvOf(c, inp), inp.sorted, k, cut, b.state)
    && NothingDoubled(c, inp, b.state, k, cut)
  }

  lemma StepWealthIff(c: Chain, inp: BlockInput)
    requires Valid(c, inp) && NoProvider(EnvOf(c, inp))
    ensures Wealth(Step(c, inp)) <= Wealth(c)
    ensures Wealth(Step(c, inp)) == Wealth(c) <==> StepKeepsValue(c, inp)
  {
    hide BuildBlock, Wealth, BlockForm, NothingDoubled, ValueBefore, ValueAfter, InInterval, SendersStay, NoProvider,
      StartedWithinLimit, AccountTimesIncrease, SourceOrdered, Emitted;
    if Step(c, inp) != c {
      StepWealth(c, inp);
      var k, cut := BuiltBlock(c, inp);
      BlockConservesValueIff(c, inp, k, cut);
      assert Wealth(Step(c, inp)) == Wealth(c) ==> BlockKeepsValue(c, inp, k, cut);
      forall k, cut | BlockKeepsValue(c, inp, k, cut) ensures Wealth(Step(c, inp)) == Wealth(c) {
        BlockConservesValueIff(c, inp, k, cut);
      }
    }
  }

  ghost predicate RunKeepsValue(c: Chain, inputs: seq<BlockInput>)
    requires ValidRun(c, inputs)
    decreases |inputs|
  {
    inputs == [] || (StepKeepsValue(c, inputs[0]) && RunKeepsValue(Step(c, inputs[0]), inputs[1..]))
  }

  /** Main result on value: without an external account provider a run creates no value, whatever the accounts do, and
      it conserves value if and only if no block doubles a message that counts. */
  lemma {:induction false} RunConservesValueIff(c: Chain, inputs: seq<BlockInput>)
    requires ValidRun(c, inputs) && NoProviders(inputs)
    ensures Wealth(Run(c, inputs)) <= Wealth(c)
    ensures Wealth(Run(c, inputs)) == Wealth(c) <==> RunKeepsValue(c, inputs)
    decreases |inputs|
  {
    if inputs == [] {
    } else {
      hide Wealth, StepKeepsValue;
      assert NoProvider(EnvOf(c, inputs[0]));
      StepWealthIff(c, inputs[0]);
      RunConservesValueIff(Step(c, inputs[0]), inputs[1..]);
    }
  }

  /** It is enough that senders stay. */
  lemma {:induction false} RunConservesValue(c: Chain, inputs: seq<BlockInput>)
    requires ValidRun(c, inputs) && DisciplinedRun(c, inputs) && NoProviders(inputs) && UpTo(c.endLt, c.queue)
    ensures Wealth(Run(c, inputs)) == Wealth(c)
    decreases |inputs|
  {
    if inputs == [] {
    } else {
      hide BuildBlock, Wealth, ValueBefore, ValueAfter, UpTo;
      assert NoProvider(EnvOf(c, inputs[0]));
      StepKeepsUpTo(c, inputs[0]);
      if Step(c, inputs[0]) != c {
        StepWealth(c, inputs[0]);
        BlockConservesValue(c, inputs[0]);
      }
      RunConservesValue(Step(c, inputs[0]), inputs[1..]);
    }
  }
}
