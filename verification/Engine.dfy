/** The engine: it turns queued messages into blocks of the workchain and the masterchain. */
module Engines {
  import opened Messages
  import opened InMessagesQueues
  import opened Executor
  import opened BlockSpec
  import opened BlockTimes
  import Chains
  import ChainValues
  import Delivery
  import opened EngineRuns
  import opened EngineSpec
  import EngineTheorems
  import opened Shardchains
  import opened Masterchains

  const INBOUND_CAPACITY: nat := 10000

  /** `OutOfFuel` ends a pass that this model does not follow further. */
  datatype PassResult = PassOk | PassError | OutOfFuel

  datatype ProcessResult = QueueFull | Processed(pass: PassResult)

  /** What a pass has done so far: the turns, and the runs of the two chains. */
  ghost predicate Follows(p: Pass, turns: seq<Turn>, now: Pass, k: Setting, work: Trip, master: Trip) {
    && LawfulPass(p, turns) && RunPass(p, turns) == now && k.mode == p.net.clock.mode
    && Travels(k, work) && Travels(k, master)
  }

  lemma NothingDone(p: Pass, k: Setting, work: Chains.Chain, master: Chains.Chain)
    requires k.mode == p.net.clock.mode
    ensures Follows(p, [], p, k, Trip(work, [], work), Trip(master, [], master))
  {
    TravelStart(k, work);
    TravelStart(k, master);
  }

  lemma FollowsWork(
    p: Pass, turns: seq<Turn>, now: Pass, k: Setting, work: Trip, master: Trip, t: Turn, inp: Chains.BlockInput)
    requires Follows(p, turns, now, k, work, master)
    requires now.phase.WorkTurn? && Chains.Valid(work.now, inp) && MadeIn(k, inp)
    ensures Follows(p, turns + [t], PassStep(now, t), k, Onward(work, inp, Chains.Step(work.now, inp)), master)
  {
    hide Chains.Valid, Chains.Step, PassStep, Travels;
    RunPassAppend(p, turns, t);
    TravelOn(k, work, inp);
  }

  lemma FollowsMaster(
    p: Pass, turns: seq<Turn>, now: Pass, k: Setting, work: Trip, master: Trip, t: Turn, inp: Chains.BlockInput)
    requires Follows(p, turns, now, k, work, master)
    requires EngineSpec.Lawful(now, t) && Chains.Valid(master.now, inp) && MadeIn(k, inp)
    ensures Follows(p, turns + [t], PassStep(now, t), k, work, Onward(master, inp, Chains.Step(master.now, inp)))
  {
    hide Chains.Valid, Chains.Step, PassStep, Travels, EngineSpec.Lawful;
    RunPassAppend(p, turns, t);
    TravelOn(k, master, inp);
  }

  /** An attempt in a setting is one in any setting that says less. */
  lemma InSetting(k: Setting, now: Setting)
    requires now.mode == k.mode && now.providerless == k.providerless && (k.noInbound ==> now.noInbound)
    ensures forall inp | MadeIn(now, inp) :: MadeIn(k, inp)
  {
  }

  /** What a pass keeps: the register agrees with the masterchain, and both chains go on safely; each also goes on
      delivering its messages whenever senders stay. */
  lemma PassIsSafe(p: Pass, turns: seq<Turn>, now: Pass, k: Setting, work: Trip, master: Trip, n: Net, t: nat)
    requires p == StartPass(n, t) && EngineTheorems.Consistent(n)
    requires Follows(p, turns, now, k, work, master)
    ensures EngineTheorems.Consistent(now.net)
    ensures now.phase.Finished? ==> EngineTheorems.Matching(now.net)
    ensures Safe(k, work.start, work.now) && Safe(k, master.start, master.now)
    ensures Chains.DisciplinedRun(work.start, work.inputs) ==> KeepsDelivering(work.start, work.now)
    ensures Chains.DisciplinedRun(master.start, master.inputs) ==> KeepsDelivering(master.start, master.now)
  {
    hide EngineTheorems.Consistent, Safe, KeepsDelivering, RunPass, LawfulPass, EngineTheorems.Matching,
      Chains.DisciplinedRun;
    EngineTheorems.PassKeeps(n, t, turns);
    if now.phase.Finished? {
      EngineTheorems.GoodPassMatches(n, t, turns);
    }
    TravelIsSafe(k, work);
    TravelIsSafe(k, master);
  }

  class TonNodeEngine {
    const time: BlockTime
    const messageQueue: InMessagesQueue
    const masterchain: Masterchain
    const workchain: Shardchain
    const world: World
    var moment: nat

    ghost function View(): Net
      reads this, time, masterchain, masterchain.shardchain, workchain
    {
      Net(masterchain.hashes, masterchain.config, workchain.Blocks(), masterchain.shardchain.Blocks(),
          masterchain.shards, masterchain.shardsHasBeenChanged, time.View())
    }

    /** The parts are distinct and share one queue; only the workchain is registered. */
    ghost predicate Valid()
      reads this, masterchain, masterchain.shardchain, workchain
    {
      && workchain != masterchain.shardchain
      && workchain.messageQueue == messageQueue && masterchain.shardchain.messageQueue == messageQueue
      && workchain.Valid() && masterchain.shardchain.Valid()
      && masterchain.shards.Keys <= {workchain.shard}
      && LawfulWorld(world)
    }

    /** Nothing is left to do for a chain: its queue is empty, and no inbound message waits for its workchain. */
    ghost predicate Idle(chain: Shardchain)
      reads chain, messageQueue
    {
      chain.outQueue == {} && For(chain.shard.workchain, messageQueue.storage) == []
    }

    ghost function In(): Setting
      reads this, time, messageQueue
    {
      Setting(time.mode, Providerless(world), messageQueue.storage == [])
    }

    /** An engine over the first states of its two chains, as a node without saved blocks starts. */
    constructor WithParams(
      hashes: Hashes, config: nat, workShard: Shard, workGasLimit: nat, workAccounts: Accounts, workQueue: set<Message>,
      workSeqNo: nat, masterShard: Shard, masterGasLimit: nat, world: World)
      requires LawfulWorld(world)
      ensures Valid() && View() == EngineTheorems.FreshNet(hashes, config, workShard, workSeqNo, masterShard, 0)
      ensures workchain.View() == Chains.Chain(workAccounts, workQueue, 0, [])
      ensures masterchain.shardchain.View() == Chains.Chain(map[], {}, 0, [])
      ensures workchain.blockGasLimit == workGasLimit && masterchain.shardchain.blockGasLimit == masterGasLimit
      ensures messageQueue.storage == [] && messageQueue.capacity == INBOUND_CAPACITY && this.world == world
      ensures fresh(time) && fresh(messageQueue) && fresh(workchain)
      ensures fresh(masterchain) && fresh(masterchain.shardchain)
    {
      var queue := new InMessagesQueue(INBOUND_CAPACITY);
      var master := new Shardchain(masterShard, masterGasLimit, queue, map[], {}, 0);
      masterchain := new Masterchain(master, hashes, config);
      workchain := new Shardchain(workShard, workGasLimit, queue, workAccounts, workQueue, workSeqNo);
      time := new BlockTime();
      messageQueue, this.world, moment := queue, world, 0;
    }

    method GetNextTime() returns (next: nat, ghost now: nat)
      modifies this`moment
      ensures next == NextTime(time.View(), now)
    {
      now := world.clock(moment);
      next := time.GetNext(world.clock(moment));
      moment := moment + 1;
    }

    /** One round of the inner loop. */
    method WorkTurn(mcSeqNo: nat, genTime: nat, ghost again: bool)
      returns (g: Generated, nextTime: nat, ghost t: Turn, ghost inp: Chains.BlockInput)
      requires Valid()
      modifies this`moment, time, workchain, masterchain, messageQueue`storage
      ensures Valid()
      ensures Chains.Valid(old(workchain.View()), inp) && workchain.View() == Chains.Step(old(workchain.View()), inp)
      ensures MadeIn(old(In()), inp) && time.mode == old(time.mode)
      ensures |messageQueue.storage| <= |old(messageQueue.storage)|
      ensures masterchain.shardchain.View() == old(masterchain.shardchain.View())
      ensures PassStep(Pass(old(View()), Phase.WorkTurn, mcSeqNo, genTime, again), t)
        == Pass(View(), if g.NewBlock? then Phase.WorkTurn else if g.NoBlock? then Phase.MasterTurn else Aborted,
                mcSeqNo, nextTime, again || g.NewBlock?)
      ensures !g.NewBlock? ==> nextTime == genTime
      ensures g.NoBlock? ==> Idle(workchain)
    {
      hide Chains.Valid, Chains.Step, SameBlocks;
      var i := moment;
      moment := moment + 1;
      ghost var a;
      g, inp, a := workchain.GenerateBlock(mcSeqNo, genTime, time.mode.Seq?, world.executor(i), world.provider(i));
      nextTime, t := genTime, Turn(a, 0, map[]);
      if g.NewBlock? {
        time.SetLast(genTime);
        masterchain.RegisterNewShardBlock(g.block);
        ghost var now;
        nextTime, now := GetNextTime();
        t := Turn(a, now, map[]);
      }
    }

    /** The masterchain's turn in a round of the outer loop. */
    method MasterTurn(mcSeqNo: nat, genTime: nat, ghost again: bool)
      returns (g: Generated, ghost t: Turn, ghost inp: Chains.BlockInput)
      requires Valid()
      modifies this`moment, time, masterchain, masterchain.shardchain, messageQueue`storage
      ensures Valid()
      ensures Chains.Valid(old(masterchain.shardchain.View()), inp)
      ensures MadeIn(old(In()), inp) && time.mode == old(time.mode)
      ensures |messageQueue.storage| <= |old(messageQueue.storage)|
      ensures masterchain.shardchain.View() == Chains.Step(old(masterchain.shardchain.View()), inp)
      ensures workchain.View() == old(workchain.View())
      ensures g.NoBlock? && old(Idle(workchain)) ==> Idle(workchain) && Idle(masterchain.shardchain)
      ensures var p := Pass(old(View()), Phase.MasterTurn, mcSeqNo, genTime, again);
        && EngineSpec.Lawful(p, t)
        && PassStep(p, t) == (
          if g.GenerateError? then p.(phase := Aborted, net := View())
          else NextRound(Pass(View(), Phase.MasterTurn, mcSeqNo, genTime, again || g.NewBlock?)))
    {
      hide Chains.Valid, Chains.Step, SameBlocks, Lists;
      var i := moment;
      moment := moment + 1;
      ghost var a, listing;
      g, inp, a, listing :=
        masterchain.GenerateBlock(mcSeqNo, genTime, time.mode.Seq?, world.executor(i), world.provider(i));
      t := Turn(a, 0, listing);
      if g.NewBlock? {
        time.SetLast(genTime);
      }
    }

    /** One pass. Its turns are a run of the machine of module EngineSpec, and each chain makes a run of its own; the
        fuel bounds the number of turns. */
    method ExecuteQueuedMessages(fuel: nat)
      returns (r: PassResult, ghost now: nat, ghost turns: seq<Turn>, ghost work: Trip, ghost master: Trip,
        ghost p: Pass)
      requires Valid()
      modifies this`moment, time, workchain, masterchain, masterchain.shardchain, messageQueue`storage
      ensures Valid()
      ensures p.net == View() && (r.PassOk? ==> p.phase.Finished?) && (r.PassError? ==> p.phase.Aborted?)
      ensures r.PassOk? ==> Idle(workchain) && Idle(masterchain.shardchain)
      ensures Follows(StartPass(old(View()), now), turns, p, old(In()), work, master)
      ensures work.start == old(workchain.View()) && work.now == workchain.View()
      ensures master.start == old(masterchain.shardchain.View()) && master.now == masterchain.shardchain.View()
    {
      hide Chains.Valid, Chains.Step, PassStep, Follows, SameBlocks, EngineSpec.Lawful, MadeIn;
      ghost var net, k := View(), In();
      work := Trip(workchain.View(), [], workchain.View());
      master := Trip(masterchain.shardchain.View(), [], masterchain.shardchain.View());
      var continueProcessing, left := true, fuel;
      var genTime;
      genTime, now := GetNextTime();
      turns, p := [], StartPass(net, now);
      ghost var p0 := p;
      NothingDone(p0, k, work.start, master.start);
      while continueProcessing
        invariant Valid() && time.mode == k.mode && (k.noInbound ==> messageQueue.storage == [])
        invariant p.net == View() && Follows(p0, turns, p, k, work, master)
        invariant work.start == old(workchain.View()) && work.now == workchain.View()
        invariant master.start == old(masterchain.shardchain.View()) && master.now == masterchain.shardchain.View()
        invariant if continueProcessing
                  then p == Pass(View(), Phase.WorkTurn, EngineSpec.NextSeqNo(View().master), genTime, false)
                  else p.phase.Finished? && Idle(workchain) && Idle(masterchain.shardchain)
        decreases left, continueProcessing
      {
        continueProcessing := false;
        var mcSeqNo := masterchain.shardchain.NextSeqNo();
        var working := true;
        ghost var top := left;
        while working
          invariant Valid() && time.mode == k.mode && (k.noInbound ==> messageQueue.storage == [])
          invariant p == Pass(View(), if working then Phase.WorkTurn else Phase.MasterTurn, mcSeqNo, genTime,
                              continueProcessing)
          invariant Follows(p0, turns, p, k, work, master)
          invariant work.start == old(workchain.View()) && work.now == workchain.View()
          invariant master.start == old(masterchain.shardchain.View()) && master.now == masterchain.shardchain.View()
          invariant if working then left <= top else left < top && Idle(workchain)
          decreases left
        {
          if left == 0 {
            return OutOfFuel, now, turns, work, master, p;
          }
          left := left - 1;
          InSetting(k, In());
          var g;
          ghost var t, inp;
          g, genTime, t, inp := WorkTurn(mcSeqNo, genTime, continueProcessing);
          FollowsWork(p0, turns, p, k, work, master, t, inp);
          p, turns, work := PassStep(p, t), turns + [t], Onward(work, inp, workchain.View());
          if g.GenerateError? {
            return PassError, now, turns, work, master, p;
          }
          working := g.NewBlock?;
          continueProcessing := continueProcessing || g.NewBlock?;
        }
        InSetting(k, In());
        var g;
        ghost var t, inp;
        g, t, inp := MasterTurn(mcSeqNo, genTime, continueProcessing);
        FollowsMaster(p0, turns, p, k, work, master, t, inp);
        p, turns, master := PassStep(p, t), turns + [t], Onward(master, inp, masterchain.shardchain.View());
        if g.GenerateError? {
          return PassError, now, turns, work, master, p;
        }
        continueProcessing := continueProcessing || g.NewBlock?;
      }
      r := PassOk;
    }

    /** A stopped or full queue takes nothing. */
    method EnqueueMessage(msg: ExtMessage) returns (ok: bool)
      modifies messageQueue`storage
      ensures ok == (!messageQueue.stopped && |old(messageQueue.storage)| < messageQueue.capacity)
      ensures messageQueue.storage == if ok then old(messageQueue.storage) + [msg] else old(messageQueue.storage)
    {
      var r := messageQueue.Queue(msg);
      ok := r.Accepted?;
    }

    /** Queues a message and runs a pass. When the pass ends well the newest masterchain block shows the newest
        workchain block; however it ends, register and masterchain agree and both chains go on safely: in
        sequential mode they also deliver and conserve value. */
    method ProcessMessage(msg: ExtMessage, fuel: nat) returns (r: ProcessResult)
      requires Valid() && EngineTheorems.Consistent(View())
      modifies this`moment, time, workchain, masterchain, masterchain.shardchain, messageQueue`storage
      ensures Valid() && EngineTheorems.Consistent(View())
      ensures r.QueueFull? <==> messageQueue.stopped || |old(messageQueue.storage)| >= messageQueue.capacity
      ensures r.QueueFull? ==> View() == old(View()) && messageQueue.storage == old(messageQueue.storage)
      ensures r == Processed(PassOk) ==>
        EngineTheorems.Matching(View()) && Idle(workchain) && Idle(masterchain.shardchain)
      ensures Safe(old(In()).(noInbound := false), old(workchain.View()), workchain.View())
      ensures Safe(old(In()).(noInbound := false), old(masterchain.shardchain.View()), masterchain.shardchain.View())
    {
      hide EngineTheorems.Consistent, EngineTheorems.Matching, Safe, KeepsDelivering, Follows, SameBlocks,
        Chains.DisciplinedRun;
      var ok := EnqueueMessage(msg);
      StayingIsSafe(In().(noInbound := false), workchain.View());
      StayingIsSafe(In().(noInbound := false), masterchain.shardchain.View());
      if !ok {
        return QueueFull;
      }
      ghost var net, k := View(), In();
      var pass;
      ghost var now, turns, work, master, p;
      pass, now, turns, work, master, p := ExecuteQueuedMessages(fuel);
      PassIsSafe(StartPass(net, now), turns, p, k, work, master, net, now);
      r := Processed(pass);
    }

    method SetTimeMode(mode: Mode)
      modifies time
      ensures View() == EngineTheorems.Apply(old(View()), EngineTheorems.SetMode(mode))
    {
      time.SetMode(mode);
    }

    method IncreaseTimeDelta(d: nat)
      modifies time
      ensures View() == EngineTheorems.Apply(old(View()), EngineTheorems.IncreaseDelta(d))
    {
      time.IncreaseDelta(d);
    }

    method ResetTimeDelta()
      modifies time
      ensures View() == EngineTheorems.Apply(old(View()), EngineTheorems.ResetDelta)
    {
      time.ResetDelta();
    }
  }

  /** Makes an engine and runs its first pass, as a node does before it takes messages; the engine is of use only when
      the pass ends well. */
  method StartNode(
    hashes: Hashes, config: nat, workShard: Shard, workGasLimit: nat, workAccounts: Accounts, workQueue: set<Message>,
    workSeqNo: nat, masterShard: Shard, masterGasLimit: nat, world: World, fuel: nat)
    returns (r: PassResult, node: TonNodeEngine)
    requires LawfulWorld(world)
    ensures node.Valid() && EngineTheorems.Consistent(node.View())
    ensures r.PassOk? ==> EngineTheorems.Matching(node.View())
    ensures r.PassOk? ==> node.Idle(node.workchain) && node.Idle(node.masterchain.shardchain)
    ensures Chains.TimesFlow(node.workchain.View()) && Chains.TimesFlow(node.masterchain.shardchain.View())
    ensures Delivery.Delivered({}, node.masterchain.shardchain.View())
    ensures workQueue == {} ==> Delivery.Delivered({}, node.workchain.View())
    ensures var start := Chains.Chain(workAccounts, workQueue, 0, []);
      Providerless(world) ==> ChainValues.Wealth(node.workchain.View()) <= ChainValues.Wealth(start)
  {
    hide EngineTheorems.Consistent, EngineTheorems.Matching, Chains.TimesFlow, Delivery.Delivered, ChainValues.Wealth,
      Safe, KeepsDelivering, Follows, SameBlocks, Chains.DisciplinedRun;
    node := new TonNodeEngine.WithParams(hashes, config, workShard, workGasLimit, workAccounts, workQueue, workSeqNo,
                                         masterShard, masterGasLimit, world);
    EngineTheorems.FreshIsConsistent(hashes, config, workShard, workSeqNo, masterShard, 0);
    ghost var net, k := node.View(), node.In();
    ghost var now, turns, work, master, p;
    r, now, turns, work, master, p := node.ExecuteQueuedMessages(fuel);
    PassIsSafe(StartPass(net, now), turns, p, k, work, master, net, now);
    SafeFromStart(k, work.start, work.now);
    SafeFromStart(k, master.start, master.now);
  }

  /** What a first pass, with no inbound messages, makes of a chain without blocks. */
  lemma SafeFromStart(k: Setting, c: Chains.Chain, c': Chains.Chain)
    requires Safe(k, c, c') && c.blocks == [] && k.noInbound
    ensures Chains.TimesFlow(c') && (c.queue == {} ==> Delivery.Delivered({}, c'))
    ensures k.providerless ==> ChainValues.Wealth(c') <= ChainValues.Wealth(c)
  {
    assert Chains.TimesFlow(c);
    Delivery.GenesisDelivers(c);
    hide Chains.TimesFlow, Delivery.Delivered, ChainValues.Wealth;
  }
}
