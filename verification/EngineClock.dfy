/** When the time of the engine goes back: a pass that starts after the delta was changed, against the newest block. */
module EngineClock {
  import opened BlockTimes
  import opened EngineSpec
  import opened EngineTheorems
  import opened EngineTimes

  function Height(n: Net): nat { |n.work.blocks| + |n.master.blocks| }

  function LastTime(l: Ledger): nat { if l.blocks == [] then 0 else l.blocks[|l.blocks| - 1].block.genUtime }

  /** The time of the block that the pass has applied last: a workchain block of the current round, or else the
      masterchain block that ended a round. */
  function NewestTime(p: Pass): nat { if p.again then LastTime(p.net.work) else LastTime(p.net.master) }

  /** The last time of the clock is that of the newest block, without the delta it was given with. */
  ghost predicate Marked(n: Net, p: Pass) {
    && p.genTime >= p.net.clock.delta
    && p.net.clock == n.clock.(lastTime := p.net.clock.lastTime)
    && Height(p.net) >= Height(n) && (Height(p.net) == Height(n) ==> p.net == n && !p.again)
    && (p.again ==> p.net.changed)
    && (Height(p.net) > Height(n) ==> NewestTime(p) == p.net.clock.lastTime + p.net.clock.delta)
  }

  lemma StepMarks(n: Net, p: Pass, t: Turn)
    requires Marked(n, p)
    ensures Marked(n, PassStep(p, t))
  {
  }

  lemma {:induction false} PassMarks(n: Net, now: nat, turns: seq<Turn>)
    ensures Marked(n, RunPass(StartPass(n, now), turns))
  {
    hide PassStep;
    if turns == [] {
      assert n.clock == n.clock.(lastTime := n.clock.lastTime);
    } else {
      PassMarks(n, now, turns[..|turns| - 1]);
      StepMarks(n, RunPass(StartPass(n, now), turns[..|turns| - 1]), turns[|turns| - 1]);
    }
  }

  /** Operations that add no block leave the last time as it is. */
  lemma {:induction false} QuietOps(n: Net, ops: seq<Op>)
    ensures var n' := ApplyAll(n, ops);
      && Height(n') >= Height(n) && n'.clock.interval == n.clock.interval
      && (Height(n') == Height(n) ==> n'.clock.lastTime == n.clock.lastTime)
  {
    if ops == [] {
    } else {
      var front, last := ops[..|ops| - 1], ops[|ops| - 1];
      QuietOps(n, front);
      if last.DoPass? {
        PassMarks(ApplyAll(n, front), last.now, last.turns);
      }
    }
  }

  /** However a pass ended and in whatever mode, and whatever was done since without adding a block: the first time of a
      sequential pass is at or after that of the newest block exactly when the delta has not dropped by more than one
      since that block. */
  lemma FirstTimeIff(n: Net, now: nat, turns: seq<Turn>, ops: seq<Op>)
    requires var p := RunPass(StartPass(n, now), turns);
      && Height(p.net) > Height(n)
      && Height(ApplyAll(p.net, ops)) == Height(p.net) && Sequential(ApplyAll(p.net, ops).clock)
    ensures var p := RunPass(StartPass(n, now), turns);
      First(ApplyAll(p.net, ops)) >= NewestTime(p) <==> ApplyAll(p.net, ops).clock.delta + 1 >= p.net.clock.delta
  {
    PassMarks(n, now, turns);
    QuietOps(RunPass(StartPass(n, now), turns).net, ops);
    hide RunPass, ApplyAll;
  }

  /** Resetting the delta makes the time go back exactly when the delta was 2 or more. */
  lemma ResetGoesBackIff(n: Net, now: nat, turns: seq<Turn>)
    requires var p := RunPass(StartPass(n, now), turns);
      && Height(p.net) > Height(n)
      && Sequential(p.net.clock)
    ensures var p := RunPass(StartPass(n, now), turns);
      First(Apply(p.net, ResetDelta)) < NewestTime(p) <==> p.net.clock.delta >= 2
  {
    var p := RunPass(StartPass(n, now), turns);
    assert [ResetDelta][..0] == [];
    assert ApplyAll(p.net, [ResetDelta]) == Apply(ApplyAll(p.net, []), ResetDelta);
    FirstTimeIff(n, now, turns, [ResetDelta]);
  }
}
