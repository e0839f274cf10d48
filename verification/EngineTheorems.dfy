/** What holds after any run of the engine: register, flag and masterchain blocks agree, and times follow. */
module EngineTheorems {
  import opened Common
  import opened Messages
  import opened BlockTimes
  import opened EngineSpec

  ghost predicate Numbered(l: Ledger) {
    forall i | 0 <= i < |l.blocks| :: l.blocks[i].block.seqNo == l.base + i + 1 && l.blocks[i].block.shard == l.shard
  }

  /** The register shows the newest workchain block and nothing else. */
  ghost predicate RegisterOk(n: Net) {
    if n.work.blocks == [] then n.shards == map[] else
      && n.shards.Keys == {n.work.shard}
      && Shows(n.hashes, n.shards[n.work.shard], n.work.blocks[|n.work.blocks| - 1].block)
  }

  /** The entry is of the workchain, and it shows the workchain block that has its number. */
  ghost predicate ShowsSome(n: Net, w: int, d: ShardDescr) {
    && w == n.work.shard.workchain && n.work.base < d.seqNo <= n.work.base + |n.work.blocks|
    && Shows(n.hashes, d, n.work.blocks[d.seqNo - n.work.base - 1].block)
  }

  /** Every masterchain block lists some workchain block, or none. */
  ghost predicate EachLists(n: Net) {
    forall j, w | 0 <= j < |n.master.blocks| && w in n.master.blocks[j].block.shards ::
      ShowsSome(n, w, n.master.blocks[j].block.shards[w])
  }

  /** Only masterchain blocks are key blocks, and they carry the configuration. */
  ghost predicate Headed(n: Net) {
    && (forall a | a in n.master.blocks :: a.block.keyBlock && a.block.config == Some(n.config))
    && (forall a | a in n.work.blocks :: !a.block.keyBlock && a.block.config == None && a.block.shards == map[])
  }

  /** The masterchain block registers the workchain at least up to the given number. */
  predicate ListedUpTo(b: Block, workchain: int, seqNo: nat) {
    workchain in b.shards && seqNo <= b.shards[workchain].seqNo
  }

  /** Each workchain block was put with the number of the masterchain block that first registers the chain after it:
      exactly the masterchain blocks from that number on register it. */
  ghost predicate FirstRegistered(n: Net) {
    forall i, j | 0 <= i < |n.work.blocks| && 0 <= j < |n.master.blocks| ::
      var listed := ListedUpTo(n.master.blocks[j].block, n.work.shard.workchain, n.work.blocks[i].block.seqNo);
      listed <==> n.work.blocks[i].mcSeqNo <= n.master.blocks[j].block.seqNo
  }

  ghost predicate NothingAhead(n: Net) {
    && (forall a | a in n.work.blocks :: n.master.base < a.mcSeqNo <= NextSeqNo(n.master))
    && (!n.changed ==> forall a | a in n.work.blocks :: a.mcSeqNo < NextSeqNo(n.master))
    && (forall a | a in n.master.blocks :: !ListedUpTo(a.block, n.work.shard.workchain, NextSeqNo(n.work)))
  }

  /** The newest masterchain block lists exactly the register. */
  ghost predicate UpToDate(n: Net) {
    if n.master.blocks == [] then n.shards == map[]
    else Lists(n.master.blocks[|n.master.blocks| - 1].block.shards, n.shards)
  }

  ghost predicate FlagOk(n: Net) {
    && (n.changed ==> n.work.blocks != [] && n.work.blocks[|n.work.blocks| - 1].mcSeqNo == NextSeqNo(n.master))
    && (!n.changed ==> UpToDate(n))
  }

  ghost predicate Registered(n: Net) {
    Numbered(n.work) && Numbered(n.master) && RegisterOk(n) && FirstRegistered(n) && NothingAhead(n) && FlagOk(n)
  }

  ghost predicate Consistent(n: Net) { Registered(n) && EachLists(n) && Headed(n) }

  /** The flag is set exactly when the newest masterchain block is out of date. */
  lemma FlagIsExact(n: Net)
    requires Consistent(n)
    ensures n.changed <==> !UpToDate(n)
  {
    if n.changed {
      var i, j := |n.work.blocks| - 1, |n.master.blocks| - 1;
      assert n.work.shard in n.shards && n.shards[n.work.shard].seqNo == n.work.blocks[i].block.seqNo;
      if n.master.blocks != [] {
        if UpToDate(n) {
          ListsAll(n.master.blocks[j].block.shards, n.shards, n.work.shard);
        }
        assert !ListedUpTo(n.master.blocks[j].block, n.work.shard.workchain, n.work.blocks[i].block.seqNo);
      }
    }
  }

  /** The newest masterchain block lists the newest workchain block and shows it. */
  ghost predicate Matching(n: Net) {
    n.work.blocks != [] ==>
      var newest := n.work.blocks[|n.work.blocks| - 1].block;
      && n.master.blocks != []
      && var listed := n.master.blocks[|n.master.blocks| - 1].block.shards;
         listed.Keys == {n.work.shard.workchain} && Shows(n.hashes, listed[n.work.shard.workchain], newest)
  }

  lemma UpToDateMatches(n: Net)
    requires RegisterOk(n) && UpToDate(n)
    ensures Matching(n)
  {
    if n.work.blocks != [] {
      assert n.work.shard in n.shards;
      assert n.master.blocks != [];
      var listed := n.master.blocks[|n.master.blocks| - 1].block.shards;
      ListsAll(listed, n.shards, n.work.shard);
      forall w | w in listed ensures w == n.work.shard.workchain {
        assert IsEntry(n.shards, w, listed[w]);
      }
    }
  }

  // ---- what each step keeps ----

  lemma WorkBlockRegisters(n: Net, a: Attempt, time: nat)
    requires Registered(n) && a.Builds?
    ensures Registered(WorkApplied(n, MadeBlock(n.work, a, time), NextSeqNo(n.master)))
  {
    var b := MadeBlock(n.work, a, time);
    var n' := WorkApplied(n, b, NextSeqNo(n.master));
    var last := |n.work.blocks|;
    assert n'.work.blocks[last] == Applied(b, NextSeqNo(n.master));
    assert n'.shards == map[n.work.shard := DescrOf(n.hashes, b)];
    forall j | 0 <= j < |n.master.blocks|
      ensures !ListedUpTo(n.master.blocks[j].block, n.work.shard.workchain, NextSeqNo(n.work))
    {
      assert n.master.blocks[j] in n.master.blocks;
    }
    assert forall a | a in n'.work.blocks :: a in n.work.blocks || a == n'.work.blocks[last];
  }

  lemma WorkBlockShows(n: Net, a: Attempt, time: nat)
    requires EachLists(n) && Headed(n) && a.Builds?
    ensures var n' := WorkApplied(n, MadeBlock(n.work, a, time), NextSeqNo(n.master)); EachLists(n') && Headed(n')
  {
    var b := MadeBlock(n.work, a, time);
    var n' := WorkApplied(n, b, NextSeqNo(n.master));
    hide Shows;
    forall j, w | 0 <= j < |n.master.blocks| && w in n.master.blocks[j].block.shards
      ensures ShowsSome(n', w, n.master.blocks[j].block.shards[w])
    {
      assert ShowsSome(n, w, n.master.blocks[j].block.shards[w]);
    }
  }

  lemma WorkBlockKeeps(n: Net, a: Attempt, time: nat)
    requires Consistent(n) && a.Builds?
    ensures Consistent(WorkApplied(n, MadeBlock(n.work, a, time), NextSeqNo(n.master)))
  {
    hide Registered, EachLists, Headed, WorkApplied;
    WorkBlockRegisters(n, a, time);
    WorkBlockShows(n, a, time);
  }

  lemma ListingIsNewest(n: Net, shards: map<int, ShardDescr>)
    requires Numbered(n.work) && RegisterOk(n) && Lists(shards, n.shards)
    ensures var wc := n.work.shard.workchain;
      && (wc in shards <==> n.work.blocks != [])
      && (wc in shards ==> shards[wc].seqNo == n.work.base + |n.work.blocks|)
  {
    if n.work.blocks == [] {
      assert forall w | w in shards :: IsEntry(n.shards, w, shards[w]);
    } else {
      assert n.work.shard in n.shards;
      ListsAll(shards, n.shards, n.work.shard);
    }
  }

  lemma MasterBlockRegisters(n: Net, a: Attempt, time: nat, listing: map<int, ShardDescr>)
    requires Registered(n) && a.Builds? && Lists(listing, n.shards)
    ensures Registered(MasterApplied(n, ListingBlock(n, a, time, listing), NextSeqNo(n.master)))
  {
    var b := ListingBlock(n, a, time, listing);
    var n' := MasterApplied(n, b, NextSeqNo(n.master));
    var last := |n.master.blocks|;
    assert n'.master.blocks[last] == Applied(b, NextSeqNo(n.master));
    ListingIsNewest(n, listing);
    hide Lists;
    forall i | 0 <= i < |n.work.blocks|
      ensures n.work.blocks[i].mcSeqNo <= NextSeqNo(n.master)
    {
      assert n.work.blocks[i] in n.work.blocks;
    }
    assert forall a | a in n'.master.blocks :: a in n.master.blocks || a == n'.master.blocks[last];
  }

  lemma ListedIsShown(n: Net, listing: map<int, ShardDescr>, w: int)
    requires Numbered(n.work) && RegisterOk(n) && Lists(listing, n.shards) && w in listing
    ensures ShowsSome(n, w, listing[w])
  {
    assert IsEntry(n.shards, w, listing[w]);
  }

  lemma MasterBlockShows(n: Net, a: Attempt, time: nat, listing: map<int, ShardDescr>)
    requires EachLists(n) && Headed(n) && a.Builds?
    requires forall w | w in listing :: ShowsSome(n, w, listing[w])
    ensures var n' := MasterApplied(n, ListingBlock(n, a, time, listing), NextSeqNo(n.master));
      EachLists(n') && Headed(n')
  {
    var n' := MasterApplied(n, ListingBlock(n, a, time, listing), NextSeqNo(n.master));
    forall j, w | 0 <= j < |n'.master.blocks| && w in n'.master.blocks[j].block.shards
      ensures ShowsSome(n', w, n'.master.blocks[j].block.shards[w])
    {
      hide Shows;
      assert j < |n.master.blocks| ==> ShowsSome(n, w, n.master.blocks[j].block.shards[w]);
    }
  }

  lemma MasterBlockKeeps(n: Net, a: Attempt, time: nat, listing: map<int, ShardDescr>)
    requires Consistent(n) && a.Builds? && Lists(listing, n.shards)
    ensures Consistent(MasterApplied(n, ListingBlock(n, a, time, listing), NextSeqNo(n.master)))
  {
    MasterBlockRegisters(n, a, time, listing);
    forall w | w in listing ensures ShowsSome(n, w, listing[w]) {
      hide Lists, ShowsSome;
      ListedIsShown(n, listing, w);
    }
    hide Registered, EachLists, Headed, MasterApplied, Lists, ShowsSome;
    MasterBlockShows(n, a, time, listing);
  }

  ghost predicate PassOk(p: Pass) {
    && Consistent(p.net)
    && (p.phase.WorkTurn? || p.phase.MasterTurn? ==> p.mcSeqNo == NextSeqNo(p.net.master))
    && (p.phase.Finished? ==> !p.net.changed)
  }

  lemma StepKeeps(p: Pass, t: Turn)
    requires PassOk(p) && Lawful(p, t)
    ensures PassOk(PassStep(p, t))
  {
    hide Consistent, Lists;
    if t.attempt.Builds? && p.phase.WorkTurn? && !t.attempt.isEmpty {
      WorkBlockKeeps(p.net, t.attempt, p.genTime);
    } else if t.attempt.Builds? && p.phase.MasterTurn? && !(t.attempt.isEmpty && !p.net.changed) {
      MasterBlockKeeps(p.net, t.attempt, p.genTime, t.listing);
    }
  }

  lemma {:induction false} PassKeeps(n: Net, now: nat, turns: seq<Turn>)
    requires Consistent(n) && LawfulPass(StartPass(n, now), turns)
    ensures PassOk(RunPass(StartPass(n, now), turns))
  {
    hide Consistent, PassStep, Lawful;
    if turns == [] {
    } else {
      PassKeeps(n, now, turns[..|turns| - 1]);
      StepKeeps(RunPass(StartPass(n, now), turns[..|turns| - 1]), turns[|turns| - 1]);
    }
  }

  // ---- runs of the engine ----

  datatype Op = DoPass(now: nat, turns: seq<Turn>) | SetMode(mode: Mode) | IncreaseDelta(d: nat) | ResetDelta

  function Apply(n: Net, op: Op): Net {
    match op
    case DoPass(now, turns) => RunPass(StartPass(n, now), turns).net
    case SetMode(m) => n.(clock := n.clock.(mode := m))
    case IncreaseDelta(d) => n.(clock := n.clock.(delta := n.clock.delta + d))
    case ResetDelta => n.(clock := n.clock.(delta := 0))
  }

  function ApplyAll(n: Net, ops: seq<Op>): Net {
    if ops == [] then n else Apply(ApplyAll(n, ops[..|ops| - 1]), ops[|ops| - 1])
  }

  ghost predicate LawfulRun(n: Net, ops: seq<Op>) {
    ops != [] ==>
      var front, last := ops[..|ops| - 1], ops[|ops| - 1];
      && LawfulRun(n, front)
      && (last.DoPass? ==> LawfulPass(StartPass(ApplyAll(n, front), last.now), last.turns))
  }

  /** An engine that has produced no block yet. */
  function FreshNet(
    hashes: Hashes, config: nat, workShard: Shard, workBase: nat, masterShard: Shard, masterBase: nat): Net
  {
    Net(hashes, config, Ledger(workShard, workBase, []), Ledger(masterShard, masterBase, []), map[], false,
        INITIAL_CLOCK)
  }

  lemma FreshIsConsistent(
    hashes: Hashes, config: nat, workShard: Shard, workBase: nat, masterShard: Shard, masterBase: nat)
    ensures Consistent(FreshNet(hashes, config, workShard, workBase, masterShard, masterBase))
  {
  }

  lemma ClockMayChange(n: Net, clock: Clock)
    requires Consistent(n)
    ensures Consistent(n.(clock := clock))
  {
    hide Numbered, ListedUpTo, Lists, Shows;
    var n' := n.(clock := clock);
    assert forall w, d :: ShowsSome(n', w, d) == ShowsSome(n, w, d);
    hide ShowsSome;
  }

  lemma ApplyKeeps(n: Net, op: Op)
    requires Consistent(n) && (op.DoPass? ==> LawfulPass(StartPass(n, op.now), op.turns))
    ensures Consistent(Apply(n, op))
  {
    hide Consistent;
    match op
    case DoPass(now, turns) => PassKeeps(n, now, turns);
    case SetMode(m) => ClockMayChange(n, n.clock.(mode := m));
    case IncreaseDelta(d) => ClockMayChange(n, n.clock.(delta := n.clock.delta + d));
    case ResetDelta => ClockMayChange(n, n.clock.(delta := 0));
  }

  /** Main result on registration: register, flag and masterchain agree after any run, with passes that end in an
      error anywhere. */
  lemma {:induction false} RunKeepsConsistent(n: Net, ops: seq<Op>)
    requires Consistent(n) && LawfulRun(n, ops)
    ensures Consistent(ApplyAll(n, ops))
  {
    hide Consistent, Apply, LawfulPass;
    if ops == [] {
    } else {
      RunKeepsConsistent(n, ops[..|ops| - 1]);
      ApplyKeeps(ApplyAll(n, ops[..|ops| - 1]), ops[|ops| - 1]);
    }
  }

  /** After a pass that ends well the newest masterchain block shows the newest workchain block, and every workchain
      block is registered by the masterchain block with the number it was put with. */
  lemma GoodPassMatches(n: Net, now: nat, turns: seq<Turn>)
    requires Consistent(n) && LawfulPass(StartPass(n, now), turns)
    requires RunPass(StartPass(n, now), turns).phase.Finished?
    ensures var n' := RunPass(StartPass(n, now), turns).net;
      && Matching(n')
      && forall i | 0 <= i < |n'.work.blocks| :: RegisteredUnderItsNumber(n', n'.work.blocks[i])
  {
    PassKeeps(n, now, turns);
    var n' := RunPass(StartPass(n, now), turns).net;
    UpToDateMatches(n');
    forall i | 0 <= i < |n'.work.blocks| ensures RegisteredUnderItsNumber(n', n'.work.blocks[i]) {
      AllRegistered(n', i);
    }
  }

  ghost predicate RegisteredUnderItsNumber(n: Net, a: Applied) {
    exists j :: 0 <= j < |n.master.blocks| && FirstListing(n, a, j)
  }

  /** Block `j` of the masterchain has the number the workchain block was put with; it registers the block and no
      earlier one does. */
  ghost predicate FirstListing(n: Net, a: Applied, j: nat)
    requires j < |n.master.blocks|
  {
    && n.master.blocks[j].block.seqNo == a.mcSeqNo
    && forall k | 0 <= k < |n.master.blocks| ::
         ListedUpTo(n.master.blocks[k].block, n.work.shard.workchain, a.block.seqNo) <==> j <= k
  }

  lemma AllRegistered(n: Net, i: nat)
    requires Consistent(n) && !n.changed && i < |n.work.blocks|
    ensures RegisteredUnderItsNumber(n, n.work.blocks[i])
  {
    var a := n.work.blocks[i];
    assert a.mcSeqNo <= NextSeqNo(n.master);
    var j := a.mcSeqNo - n.master.base - 1;
    assert FirstListing(n, a, j);
  }
}
