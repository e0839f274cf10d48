/** The engine pass as a machine: workchain blocks and masterchain blocks in turn, with the register of shards. */
module EngineSpec {
  import opened Common
  import opened Messages
  import opened BlockSpec
  import opened BlockTimes

  /** The split and merge marks of a block header. */
  datatype Marks = Marks(beforeSplit: bool, wantSplit: bool, wantMerge: bool, flags: nat, minRefMcSeqNo: nat)

  /** The builder leaves them as a new header has them. */
  const NO_MARKS: Marks := Marks(false, false, false, 0, 0)

  datatype ShardDescr = ShardDescr(
    seqNo: nat, regMcSeqNo: nat, startLt: nat, endLt: nat, rootHash: nat, fileHash: nat, marks: Marks,
    nextValidatorShard: Shard, genUtime: nat)

  /** Only a masterchain block carries a configuration and a listing of shards. */
  datatype Block = Block(
    shard: Shard, seqNo: nat, startLt: nat, endLt: nat, genUtime: nat, marks: Marks, transactions: seq<Txn>,
    keyBlock: bool, config: Option<nat>, shards: map<int, ShardDescr>)

  datatype Hashes = Hashes(root: Block -> nat, file: Block -> nat)

  function DescrOf(h: Hashes, b: Block): ShardDescr {
    ShardDescr(b.seqNo, 1, b.startLt, b.endLt, h.root(b), h.file(b), b.marks, b.shard, b.genUtime)
  }

  /** The entry shows the block: its number, its times, its hashes, its marks and its shard. */
  predicate Shows(h: Hashes, d: ShardDescr, b: Block) {
    && d.seqNo == b.seqNo && d.regMcSeqNo == 1
    && d.startLt == b.startLt && d.endLt == b.endLt && d.genUtime == b.genUtime
    && d.rootHash == h.root(b) && d.fileHash == h.file(b)
    && d.marks == b.marks && d.nextValidatorShard == b.shard
  }

  /** A block as it was put: under the masterchain number that it was given. */
  datatype Applied = Applied(block: Block, mcSeqNo: nat)

  /** The blocks of a chain, after a first state with number `base`. */
  datatype Ledger = Ledger(shard: Shard, base: nat, blocks: seq<Applied>)

  function NextSeqNo(l: Ledger): nat { l.base + |l.blocks| + 1 }

  datatype Net = Net(
    hashes: Hashes, config: nat, work: Ledger, master: Ledger, shards: map<Shard, ShardDescr>, changed: bool,
    clock: Clock)

  /** What one build attempt gives. */
  datatype Attempt = BuildFails | Builds(startLt: nat, endLt: nat, transactions: seq<Txn>, isEmpty: bool)

  function MadeBlock(l: Ledger, a: Attempt, time: nat): Block
    requires a.Builds?
  {
    Block(l.shard, NextSeqNo(l), a.startLt, a.endLt, time, NO_MARKS, a.transactions, false, None, map[])
  }

  /** The masterchain's block also carries the configuration and the listing. */
  function ListingBlock(n: Net, a: Attempt, time: nat, listing: map<int, ShardDescr>): Block
    requires a.Builds?
  {
    MadeBlock(n.master, a, time).(keyBlock := true, config := Some(n.config), shards := listing)
  }

  function Extended(l: Ledger, b: Block, mcSeqNo: nat): Ledger { l.(blocks := l.blocks + [Applied(b, mcSeqNo)]) }

  /** A workchain block is applied, becomes the last time, and is registered. */
  function WorkApplied(n: Net, b: Block, mcSeqNo: nat): Net {
    n.(work := Extended(n.work, b, mcSeqNo), clock := WithLast(n.clock, b.genUtime),
       shards := n.shards[b.shard := DescrOf(n.hashes, b)], changed := true)
  }

  /** The register as the masterchain block carries it: for each workchain the entry of one of its shards. */
  ghost predicate Lists(byWorkchain: map<int, ShardDescr>, shards: map<Shard, ShardDescr>) {
    && (forall s | s in shards :: s.workchain in byWorkchain)
    && (forall w | w in byWorkchain :: IsEntry(shards, w, byWorkchain[w]))
  }

  ghost predicate IsEntry(shards: map<Shard, ShardDescr>, w: int, d: ShardDescr) {
    exists s :: s in shards && s.workchain == w && shards[s] == d
  }

  /** With one shard for each workchain the listing says all of the register. */
  lemma ListsAll(byWorkchain: map<int, ShardDescr>, shards: map<Shard, ShardDescr>, s: Shard)
    requires Lists(byWorkchain, shards) && s in shards
    requires forall t | t in shards && t.workchain == s.workchain :: t == s
    ensures s.workchain in byWorkchain && byWorkchain[s.workchain] == shards[s]
  {
    assert IsEntry(shards, s.workchain, byWorkchain[s.workchain]);
  }

  function MasterApplied(n: Net, b: Block, mcSeqNo: nat): Net {
    n.(master := Extended(n.master, b, mcSeqNo), clock := WithLast(n.clock, b.genUtime), changed := false)
  }

  // ---- one pass ----

  datatype Phase = WorkTurn | MasterTurn | Finished | Aborted

  /** `again`: a block was produced since the outer loop was entered last. */
  datatype Pass = Pass(net: Net, phase: Phase, mcSeqNo: nat, genTime: nat, again: bool)

  /** `now`: the system clock when the pass reads the time. */
  function StartPass(n: Net, now: nat): Pass {
    Pass(n, WorkTurn, NextSeqNo(n.master), NextTime(n.clock, now), false)
  }

  datatype Turn = Turn(attempt: Attempt, now: nat, listing: map<int, ShardDescr>)

  function WorkStep(p: Pass, t: Turn): Pass {
    match t.attempt
    case BuildFails => p.(phase := Aborted)
    case Builds(_, _, _, isEmpty) =>
      if isEmpty then p.(phase := MasterTurn) else
        var net := WorkApplied(p.net, MadeBlock(p.net.work, t.attempt, p.genTime), p.mcSeqNo);
        p.(net := net, again := true, genTime := NextTime(net.clock, t.now))
  }

  /** After the masterchain's turn the outer loop is entered again if there was any block. */
  function NextRound(p: Pass): Pass {
    if p.again then p.(phase := WorkTurn, mcSeqNo := NextSeqNo(p.net.master), again := false)
    else p.(phase := Phase.Finished)
  }

  function MasterStep(p: Pass, t: Turn): Pass {
    match t.attempt
    case BuildFails => p.(phase := Aborted)
    case Builds(_, _, _, isEmpty) =>
      if isEmpty && !p.net.changed then NextRound(p) else
        var b := ListingBlock(p.net, t.attempt, p.genTime, t.listing);
        NextRound(p.(net := MasterApplied(p.net, b, p.mcSeqNo), again := true))
  }

  function PassStep(p: Pass, t: Turn): Pass {
    match p.phase
    case WorkTurn => WorkStep(p, t)
    case MasterTurn => MasterStep(p, t)
    case _ => p
  }

  predicate MakesMasterBlock(p: Pass, t: Turn) {
    p.phase.MasterTurn? && t.attempt.Builds? && (t.attempt.isEmpty ==> p.net.changed)
  }

  /** What a masterchain block lists is the register. */
  ghost predicate Lawful(p: Pass, t: Turn) { MakesMasterBlock(p, t) ==> Lists(t.listing, p.net.shards) }

  function RunPass(p: Pass, turns: seq<Turn>): Pass {
    if turns == [] then p else PassStep(RunPass(p, turns[..|turns| - 1]), turns[|turns| - 1])
  }

  ghost predicate LawfulPass(p: Pass, turns: seq<Turn>) {
    turns == [] || (LawfulPass(p, turns[..|turns| - 1]) && Lawful(RunPass(p, turns[..|turns| - 1]), turns[|turns| - 1]))
  }

  lemma RunPassAppend(p: Pass, turns: seq<Turn>, t: Turn)
    ensures RunPass(p, turns + [t]) == PassStep(RunPass(p, turns), t)
    ensures LawfulPass(p, turns + [t]) <==> LawfulPass(p, turns) && Lawful(RunPass(p, turns), t)
  {
    assert (turns + [t])[..|turns|] == turns;
  }
}
