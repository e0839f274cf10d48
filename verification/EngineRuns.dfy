/** What the two chains of an engine do during a pass, and what they keep. */
module EngineRuns {
  import opened Messages
  import opened Executor
  import opened BlockSpec
  import opened BlockTimes
  import opened Chains
  import ChainValues
  import opened Delivery

  /** What the engine meets in the world: at each moment an executor, a provider of accounts, and a system clock. */
  datatype World = World(executor: nat -> ExecutorFn, provider: nat -> AccountId -> ProviderReply, clock: nat -> nat)

  ghost predicate LawfulWorld(w: World) { forall i :: Executor.Lawful(w.executor(i)) }

  /** No account ever comes from outside. */
  ghost predicate Providerless(w: World) { forall i, id :: w.provider(i)(id) == Absent }

  /** The mode of the pass, whether accounts may come from outside, and whether no inbound message waits. */
  datatype Setting = Setting(mode: Mode, providerless: bool, noInbound: bool)

  /** An attempt made in the setting. */
  ghost predicate MadeIn(k: Setting, inp: BlockInput) {
    && inp.seqMode == k.mode.Seq?
    && (k.providerless ==> forall id :: inp.provider(id) == Absent)
    && (k.noInbound ==> inp.exts == [])
  }

  /** The run that a chain makes. */
  datatype Trip = Trip(start: Chain, inputs: seq<BlockInput>, now: Chain)

  ghost predicate Travels(k: Setting, t: Trip) {
    && ValidRun(t.start, t.inputs) && Run(t.start, t.inputs) == t.now
    && forall inp | inp in t.inputs :: MadeIn(k, inp)
  }

  function Onward(t: Trip, inp: BlockInput, now: Chain): Trip { Trip(t.start, t.inputs + [inp], now) }

  lemma TravelStart(k: Setting, c: Chain)
    ensures Travels(k, Trip(c, [], c))
  {
  }

  lemma TravelOn(k: Setting, t: Trip, inp: BlockInput)
    requires Travels(k, t) && Valid(t.now, inp) && MadeIn(k, inp)
    ensures Travels(k, Onward(t, inp, Step(t.now, inp)))
  {
    hide Valid, Step, MadeIn;
    RunAppend(t.start, t.inputs, inp);
  }

  // ---- a chain with nothing to do ----

  lemma QuietStep(c: Chain, inp: BlockInput)
    requires Valid(c, inp) && c.queue == {} && inp.exts == []
    ensures Disciplined(c, inp) && Step(c, inp).queue == {}
  {
    EmptyBlockLosesNothing(c, inp);
    hide BuildBlock;
  }

  /** A chain with an empty queue, and no inbound messages, makes empty blocks only. */
  lemma {:induction false} QuietRunIsDisciplined(c: Chain, inputs: seq<BlockInput>)
    requires ValidRun(c, inputs) && c.queue == {} && forall inp | inp in inputs :: inp.exts == []
    ensures DisciplinedRun(c, inputs)
    decreases |inputs|
  {
    hide Step, Disciplined;
    if inputs == [] {
    } else {
      QuietStep(c, inputs[0]);
      QuietRunIsDisciplined(Step(c, inputs[0]), inputs[1..]);
    }
  }

  // ---- what a trip keeps ----

  /** Whatever the first chain has delivered of, the second one has delivered of too. */
  ghost predicate KeepsDelivering(c: Chain, c': Chain) { forall origin | Delivered(origin, c) :: Delivered(origin, c') }

  /** The setting alone makes sure that senders stay: one message a block, or none at all. */
  predicate Tame(k: Setting, c: Chain) { k.mode.Seq? || (k.noInbound && c.queue == {}) }

  /** From the first chain to the second times go on, and without accounts from outside no value is created; in a tame
      setting messages go on being delivered, and no value is lost. */
  ghost predicate Safe(k: Setting, c: Chain, c': Chain) {
    && (TimesFlow(c) ==> TimesFlow(c'))
    && (Tame(k, c) ==> KeepsDelivering(c, c'))
    && (k.providerless ==> ChainValues.Wealth(c') <= ChainValues.Wealth(c))
    && (k.providerless && Tame(k, c) && UpTo(c.endLt, c.queue) ==> ChainValues.Wealth(c') == ChainValues.Wealth(c))
  }

  lemma StayingIsSafe(k: Setting, c: Chain)
    ensures Safe(k, c, c)
  {
  }

  lemma DisciplinedKeepsDelivering(t: Trip)
    requires ValidRun(t.start, t.inputs) && Run(t.start, t.inputs) == t.now && DisciplinedRun(t.start, t.inputs)
    ensures KeepsDelivering(t.start, t.now)
  {
    hide Delivered, Run, ValidRun, DisciplinedRun;
    forall origin | Delivered(origin, t.start) ensures Delivered(origin, t.now) {
      RunDelivers(origin, t.start, t.inputs);
    }
  }

  lemma TameIsDisciplined(k: Setting, t: Trip)
    requires Travels(k, t) && Tame(k, t.start)
    ensures DisciplinedRun(t.start, t.inputs)
  {
    hide Run, ValidRun, DisciplinedRun;
    if k.mode.Seq? {
      SequentialRunIsDisciplined(t.start, t.inputs);
    } else {
      QuietRunIsDisciplined(t.start, t.inputs);
    }
  }

  lemma TravelIsSafe(k: Setting, t: Trip)
    requires Travels(k, t)
    ensures Safe(k, t.start, t.now)
    ensures DisciplinedRun(t.start, t.inputs) ==> KeepsDelivering(t.start, t.now)
  {
    hide TimesFlow, KeepsDelivering, Run, ValidRun, DisciplinedRun, ChainValues.Wealth, Tame, UpTo;
    if TimesFlow(t.start) {
      RunTimes(t.start, t.inputs);
    }
    if Tame(k, t.start) {
      TameIsDisciplined(k, t);
    }
    if DisciplinedRun(t.start, t.inputs) {
      DisciplinedKeepsDelivering(t);
    }
    if k.providerless {
      assert ChainValues.NoProviders(t.inputs);
      ChainValues.RunConservesValueIff(t.start, t.inputs);
      if DisciplinedRun(t.start, t.inputs) && UpTo(t.start.endLt, t.start.queue) {
        ChainValues.RunConservesValue(t.start, t.inputs);
      }
    }
  }
}
