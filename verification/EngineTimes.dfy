/** Generation times in the sequential mode: one pass of the engine, and the pass that follows it. */
module EngineTimes {
  import opened Common
  import opened BlockTimes
  import opened EngineSpec
  import opened EngineTheorems

  /** Sequential mode with the interval that the node uses. */
  predicate Sequential(c: Clock) { c.mode.Seq? && c.interval == 1 }

  /** The first generation time of a pass over this state. */
  function First(n: Net): nat { n.clock.lastTime + 1 + n.clock.delta }

  /** The second state continues the first: same settings, more blocks. */
  ghost predicate Continues(n: Net, n': Net) {
    && n'.clock == n.clock.(lastTime := n'.clock.lastTime)
    && n'.work == n.work.(blocks := n'.work.blocks) && n'.master == n.master.(blocks := n'.master.blocks)
    && n.work.blocks <= n'.work.blocks && n.master.blocks <= n'.master.blocks
  }

  /** The workchain blocks of the pass have consecutive times. */
  ghost predicate WorkTimes(n: Net, n': Net) {
    forall i | |n.work.blocks| <= i < |n'.work.blocks| ::
      n'.work.blocks[i].block.genUtime == First(n) + (i - |n.work.blocks|)
  }

  /** A masterchain block of the pass takes the time after that of the workchain block it lists, when that one is of
      this pass too, and otherwise the first time of the pass. */
  ghost predicate MasterTimes(n: Net, n': Net) {
    forall j | |n.master.blocks| <= j < |n'.master.blocks| :: MasterTime(n, n'.master.blocks[j].block)
  }

  predicate MasterTime(n: Net, b: Block) {
    var wc := n.work.shard.workchain;
    b.genUtime == if ListedUpTo(b, wc, NextSeqNo(n.work)) then b.shards[wc].genUtime + 1 else First(n)
  }

  ghost predicate NothingApplied(n: Net, n': Net) { n' == n }

  /** The newest block is a masterchain block of the pass, with the time of the clock. */
  ghost predicate MasterIsNewest(n: Net, n': Net) {
    && |n.master.blocks| < |n'.master.blocks|
    && n'.master.blocks[|n'.master.blocks| - 1].block.genUtime == n'.clock.lastTime + n'.clock.delta
  }

  ghost predicate ClockOk(n: Net, p: Pass) {
    if p.again then p.net.changed && p.genTime == First(p.net)
    else NothingApplied(n, p.net) || (MasterIsNewest(n, p.net) && p.genTime == p.net.clock.lastTime + p.net.clock.delta)
  }

  ghost predicate TimesOk(n: Net, p: Pass) {
    && Continues(n, p.net) && WorkTimes(n, p.net) && MasterTimes(n, p.net)
    && p.genTime == First(n) + |p.net.work.blocks| - |n.work.blocks|
    && (!p.phase.Aborted? ==> ClockOk(n, p))
  }

  lemma WorkStepTimes(n: Net, p: Pass, t: Turn)
    requires Sequential(n.clock) && TimesOk(n, p) && p.phase.WorkTurn?
    ensures TimesOk(n, WorkStep(p, t))
  {
    hide MasterTime;
  }

  lemma MasterBlockTime(n: Net, p: Pass, listing: map<int, ShardDescr>, b: Block)
    requires TimesOk(n, p) && Numbered(p.net.work) && RegisterOk(p.net) && Lists(listing, p.net.shards)
    requires b.genUtime == p.genTime && b.shards == listing
    ensures MasterTime(n, b)
  {
    ListingIsNewest(p.net, listing);
    var wc := n.work.shard.workchain;
    if wc in listing {
      ListsAll(listing, p.net.shards, p.net.work.shard);
      assert listing[wc] == DescrOf(p.net.hashes, p.net.work.blocks[|p.net.work.blocks| - 1].block);
    }
  }

  lemma MasterStepTimes(n: Net, p: Pass, t: Turn)
    requires Sequential(n.clock) && TimesOk(n, p) && p.phase.MasterTurn?
    requires Numbered(p.net.work) && RegisterOk(p.net) && Lawful(p, t)
    ensures TimesOk(n, MasterStep(p, t))
  {
    if t.attempt.Builds? && !(t.attempt.isEmpty && !p.net.changed) {
      var b := ListingBlock(p.net, t.attempt, p.genTime, t.listing);
      MasterBlockTime(n, p, t.listing, b);
    }
    hide MasterTime, Lists, Numbered, RegisterOk;
  }

  lemma {:induction false} RunTimes(n: Net, now: nat, turns: seq<Turn>)
    requires Sequential(n.clock) && Consistent(n) && LawfulPass(StartPass(n, now), turns)
    ensures TimesOk(n, RunPass(StartPass(n, now), turns))
  {
    if turns == [] {
      assert n.work == n.work.(blocks := n.work.blocks) && n.master == n.master.(blocks := n.master.blocks);
    } else {
      var front, t := turns[..|turns| - 1], turns[|turns| - 1];
      var p := RunPass(StartPass(n, now), front);
      PassKeeps(n, now, front);
      hide TimesOk, Sequential, WorkStep, MasterStep, LawfulPass, Numbered, RegisterOk, FirstRegistered, NothingAhead,
        FlagOk, Lawful;
      RunTimes(n, now, front);
      if p.phase.WorkTurn? {
        WorkStepTimes(n, p, t);
      } else if p.phase.MasterTurn? {
        MasterStepTimes(n, p, t);
      }
    }
  }

  /** Main result on time: in sequential mode a pass that ends well numbers its workchain blocks with consecutive times
      from the first one on, gives each masterchain block the time after the workchain block it newly lists, and the
      pass that follows continues at one more than the newest block. */
  lemma PassTimes(n: Net, now: nat, turns: seq<Turn>)
    requires Sequential(n.clock) && Consistent(n) && LawfulPass(StartPass(n, now), turns)
    requires RunPass(StartPass(n, now), turns).phase.Finished?
    ensures var n' := RunPass(StartPass(n, now), turns).net;
      && WorkTimes(n, n') && MasterTimes(n, n')
      && (n' == n || (MasterIsNewest(n, n')
                      && forall later :: NextTime(n'.clock, later)
                                      == n'.master.blocks[|n'.master.blocks| - 1].block.genUtime + 1))
  {
    hide WorkTimes, MasterTimes, RunPass, LawfulPass, Consistent;
    RunTimes(n, now, turns);
    var p := RunPass(StartPass(n, now), turns);
    FinishedIsQuiet(n, now, turns);
  }

  lemma FinishedIsQuiet(n: Net, now: nat, turns: seq<Turn>)
    ensures var p := RunPass(StartPass(n, now), turns); p.phase.Finished? ==> !p.again
  {
    if turns == [] {
    } else {
      FinishedIsQuiet(n, now, turns[..|turns| - 1]);
    }
  }
}
