/** What one round of a pass does, when a pass ends, and its generation times when they are read off the system clock.
    */
module EngineRounds {
  import opened Common
  import opened BlockTimes
  import opened EngineSpec

  predicate Empty(a: Attempt) { a.Builds? && a.isEmpty }

  predicate Nonempty(a: Attempt) { a.Builds? && !a.isEmpty }

  // ---- a round ----

  ghost predicate SomeBlocks(turns: seq<Turn>) { forall t | t in turns :: Nonempty(t.attempt) }

  lemma {:induction false} WorkBlocks(p: Pass, turns: seq<Turn>)
    requires p.phase.WorkTurn? && !p.again && SomeBlocks(turns)
    ensures var q := RunPass(p, turns);
      && q.phase.WorkTurn? && q.again == (turns != []) && q.net.changed == (p.net.changed || turns != [])
      && q.mcSeqNo == p.mcSeqNo && q.net.master == p.net.master
      && |q.net.work.blocks| == |p.net.work.blocks| + |turns|
  {
    if turns == [] {
    } else {
      assert turns[|turns| - 1] in turns;
      WorkBlocks(p, turns[..|turns| - 1]);
    }
  }

  /** A round in closed form: workchain blocks as long as there is something to do, and then a masterchain block when
      there is something to do or to register. The pass ends with the first round that makes no block at all. */
  lemma RoundHasForm(p: Pass, works: seq<Turn>, none: Turn, last: Turn)
    requires p.phase.WorkTurn? && !p.again
    requires SomeBlocks(works) && Empty(none.attempt) && last.attempt.Builds?
    ensures var q, makes := RunPass(p, works + [none] + [last]), works != [] || p.net.changed || Nonempty(last.attempt);
      && |q.net.work.blocks| == |p.net.work.blocks| + |works|
      && |q.net.master.blocks| == |p.net.master.blocks| + (if makes then 1 else 0)
      && q.phase == (if makes then Phase.WorkTurn else Phase.Finished)
      && !q.again && !q.net.changed && (makes ==> q.mcSeqNo == NextSeqNo(q.net.master))
  {
    WorkBlocks(p, works);
    RunPassAppend(p, works, none);
    RunPassAppend(p, works + [none], last);
    hide RunPass;
  }

  // ---- the end of a pass ----

  /** Turn `i` belongs to the pass, and its build fails. */
  ghost predicate FailsAt(p: Pass, turns: seq<Turn>, i: nat) {
    && i < |turns| && turns[i].attempt.BuildFails?
    && var q := RunPass(p, turns[..i]); q.phase.WorkTurn? || q.phase.MasterTurn?
  }

  lemma FailsBefore(p: Pass, front: seq<Turn>, t: Turn, i: nat)
    requires i < |front|
    ensures (front + [t])[..i] == front[..i] && FailsAt(p, front + [t], i) == FailsAt(p, front, i)
  {
    assert (front + [t])[..i] == front[..i];
  }

  /** A pass is aborted by the first build that fails and by nothing else, and what it has applied before stays. */
  lemma {:induction false} AbortsIff(p: Pass, turns: seq<Turn>)
    requires !p.phase.Aborted?
    ensures RunPass(p, turns).phase.Aborted? <==> exists i: nat :: FailsAt(p, turns, i)
    ensures forall i: nat | FailsAt(p, turns, i) :: RunPass(p, turns).net == RunPass(p, turns[..i]).net
  {
    if turns == [] {
    } else {
      var front, n: nat := turns[..|turns| - 1], |turns| - 1;
      var t := turns[n];
      AbortsIff(p, front);
      RunPassAppend(p, front, t);
      assert turns == front + [t] && turns[..n] == front;
      forall i: nat | i < n ensures FailsAt(p, turns, i) == FailsAt(p, front, i) && front[..i] == turns[..i] {
        FailsBefore(p, front, t, i);
      }
      assert FailsAt(p, turns, n) <==> RunPass(p, turns).phase.Aborted? && !RunPass(p, front).phase.Aborted?;
      hide RunPass, FailsAt;
    }
  }

  // ---- times off the system clock ----

  /** The reading of the system clock that the pass has made last: at its start, or after its newest workchain block. */
  function LastReading(n: Net, now: nat, turns: seq<Turn>): nat {
    if turns == [] then now else
      var front, last := turns[..|turns| - 1], turns[|turns| - 1];
      if RunPass(StartPass(n, now), front).phase.WorkTurn? && Nonempty(last.attempt) then last.now
      else LastReading(n, now, front)
  }

  /** A block that the chain has gained carries the given time. */
  ghost predicate GainedAt(l: Ledger, l': Ledger, time: nat) {
    l' == l || (|l'.blocks| == |l.blocks| + 1 && l'.blocks[|l.blocks|].block.genUtime == time && l.blocks <= l'.blocks)
  }

  /** What turn `i` adds to the two chains carries the last reading before it, shifted by the delta. */
  ghost predicate TurnReads(n: Net, now: nat, turns: seq<Turn>, i: nat)
    requires i < |turns|
  {
    var time := LastReading(n, now, turns[..i]) + n.clock.delta;
    var p, p' := RunPass(StartPass(n, now), turns[..i]), RunPass(StartPass(n, now), turns[..i + 1]);
    GainedAt(p.net.work, p'.net.work, time) && GainedAt(p.net.master, p'.net.master, time)
  }

  lemma {:induction false} GenTimeIsReading(n: Net, now: nat, turns: seq<Turn>)
    requires n.clock.mode.System?
    ensures var p := RunPass(StartPass(n, now), turns);
      && p.net.clock.mode.System? && p.net.clock.delta == n.clock.delta
      && p.genTime == LastReading(n, now, turns) + n.clock.delta
  {
    if turns == [] {
    } else {
      GenTimeIsReading(n, now, turns[..|turns| - 1]);
    }
  }

  lemma EachTurnReads(n: Net, now: nat, turns: seq<Turn>, i: nat)
    requires n.clock.mode.System? && i < |turns|
    ensures TurnReads(n, now, turns, i)
  {
    hide RunPass, LastReading;
    GenTimeIsReading(n, now, turns[..i]);
    RunPassAppend(StartPass(n, now), turns[..i], turns[i]);
    assert turns[..i + 1] == turns[..i] + [turns[i]];
  }

  /** The system clock does not go back: a time read after a workchain block is not before the one read last. */
  ghost predicate ClockRuns(p: Pass, turns: seq<Turn>) {
    turns != [] ==>
      var q, t := RunPass(p, turns[..|turns| - 1]), turns[|turns| - 1];
      && ClockRuns(p, turns[..|turns| - 1])
      && (q.phase.WorkTurn? && Nonempty(t.attempt) ==> q.genTime <= t.now + p.net.clock.delta)
  }

  /** The blocks of one chain since the state `l`: their times are in order and between the two given ones. */
  ghost predicate TimesBetween(l: Ledger, l': Ledger, first: nat, last: nat) {
    && l.blocks <= l'.blocks
    && (forall i | |l.blocks| <= i < |l'.blocks| :: first <= l'.blocks[i].block.genUtime <= last)
    && (forall i, j | |l.blocks| <= i < j < |l'.blocks| :: l'.blocks[i].block.genUtime <= l'.blocks[j].block.genUtime)
  }

  /** The times of both chains since the state `n`, up to the time read last. */
  ghost predicate InOrder(n: Net, first: nat, p: Pass) {
    && first <= p.genTime
    && TimesBetween(n.work, p.net.work, first, p.genTime) && TimesBetween(n.master, p.net.master, first, p.genTime)
  }

  lemma BetweenMore(l: Ledger, l': Ledger, first: nat, last: nat, later: nat, a: Applied)
    requires TimesBetween(l, l', first, last) && first <= last <= later && a.block.genUtime == last
    ensures TimesBetween(l, l', first, later) && TimesBetween(l, l'.(blocks := l'.blocks + [a]), first, later)
  {
  }

  lemma StepInOrder(n: Net, first: nat, p: Pass, t: Turn)
    requires InOrder(n, first, p) && p.net.clock.mode.System?
    requires p.phase.WorkTurn? && Nonempty(t.attempt) ==> p.genTime <= t.now + p.net.clock.delta
    ensures InOrder(n, first, PassStep(p, t))
  {
    if t.attempt.Builds? {
      var b := MadeBlock(p.net.work, t.attempt, p.genTime);
      var later := if p.phase.WorkTurn? && Nonempty(t.attempt) then t.now + p.net.clock.delta else p.genTime;
      BetweenMore(n.work, p.net.work, first, p.genTime, later, Applied(b, p.mcSeqNo));
      var m := ListingBlock(p.net, t.attempt, p.genTime, t.listing);
      BetweenMore(n.master, p.net.master, first, p.genTime, later, Applied(m, p.mcSeqNo));
    }
    hide TimesBetween;
  }

  /** Main result on time in system mode: every block of the pass carries the last reading of the clock before it,
      shifted by the delta; and when the clock does not go back, the times of each chain are in order, from the first
      reading to the last. */
  lemma {:induction false} SystemTimes(n: Net, now: nat, turns: seq<Turn>)
    requires n.clock.mode.System?
    ensures forall i | 0 <= i < |turns| :: TurnReads(n, now, turns, i)
    ensures ClockRuns(StartPass(n, now), turns) ==>
      InOrder(n, now + n.clock.delta, RunPass(StartPass(n, now), turns))
  {
    forall i | 0 <= i < |turns| ensures TurnReads(n, now, turns, i) {
      EachTurnReads(n, now, turns, i);
    }
    if turns == [] {
    } else if ClockRuns(StartPass(n, now), turns) {
      var front := turns[..|turns| - 1];
      GenTimeIsReading(n, now, front);
      SystemTimes(n, now, front);
      hide TurnReads, InOrder, PassStep;
      StepInOrder(n, now + n.clock.delta, RunPass(StartPass(n, now), front), turns[|turns| - 1]);
    }
  }
}
