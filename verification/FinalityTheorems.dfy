/** Crash consistency and restart transparency of the finality layer. */
module FinalityTheorems {
  import opened Common
  import opened Bytes
  import opened ShardStorages
  import opened FinalitySpec

  /** What survives a restart: everything but the traces. */
  function Cleared(f: Finality): Finality { f.(current := Untraced(f.current), last := Untraced(f.last)) }

  /** The store holds what the layer is: a new layer over it loads the same state. */
  ghost predicate Persisted(c: Codec, f: Finality, store: Store) {
    && f.byHash == map[] && f.byNo == map[]
    && Load(c, f.globalId, store) == Some(Cleared(f))
  }

  /** The block has a number, it fits its encoding, and its root hash identifies it: an entry already under that hash
      is the same shard block. */
  ghost predicate Storable(c: Codec, sb: ShardBlock, store: Store) {
    && 0 < sb.seqNo < Pow256(8) && |sb.serializedBlock| < TWO_32
    && (FinalityKey(sb.rootHash) in store ==> store[FinalityKey(sb.rootHash)] == Serialize(c, sb))
  }

  /** The second store has the same index and zerostate and every shard block of the first. */
  ghost predicate Extends(store: Store, store': Store) {
    && (BLOCKS_FINALITY_INFO_KEY in store' <==> BLOCKS_FINALITY_INFO_KEY in store)
    && (BLOCKS_FINALITY_INFO_KEY in store ==> store'[BLOCKS_FINALITY_INFO_KEY] == store[BLOCKS_FINALITY_INFO_KEY])
    && (ZEROSTATE_KEY in store' <==> ZEROSTATE_KEY in store)
    && (ZEROSTATE_KEY in store ==> store'[ZEROSTATE_KEY] == store[ZEROSTATE_KEY])
    && (forall h: Hash | FinalityKey(h) in store ::
          FinalityKey(h) in store' && store'[FinalityKey(h)] == store[FinalityKey(h)])
  }

  lemma LoadIsMonotone(c: Codec, globalId: int, store: Store, store': Store)
    requires Extends(store, store') && Load(c, globalId, store).Some?
    ensures Load(c, globalId, store') == Load(c, globalId, store)
  {
    hide Deserialize, ReadEntry, ReadEntries, FinalityKey, StoredByHash, StoredByNo;
  }

  /** A write that changes neither the index, nor the zerostate, nor a shard block that is already there. */
  ghost predicate Harmless(w: Write) {
    && w.key != BLOCKS_FINALITY_INFO_KEY && w.key != ZEROSTATE_KEY
    && (w.overwrite ==> forall h: Hash :: FinalityKey(h) != w.key)
  }

  lemma WriteExtends(store: Store, store': Store, w: Write)
    requires Extends(store, store') && Harmless(w)
    ensures Extends(store, Applied(store', w))
  {
    hide FinalityKey;
  }

  lemma PutIsHarmless(c: Codec, sb: ShardBlock, entries: seq<Entry>, i: nat)
    requires i < 5
    ensures Harmless(PutWrites(c, sb, entries)[i])
  {
    hide FinalityKey, BlockKey, Serialize, ShardInfoData, IndexData;
    FixedNamesDiffer();
    FamiliesAreDisjoint(sb.rootHash, sb.block.seqNo, sb.block.vertSeqNo);
    forall h: Hash
      ensures FinalityKey(h) !in
        {SHARD_STATE_BLOCK_KEY, SHARD_INFO_KEY, BlockKey(sb.block.seqNo, sb.block.vertSeqNo)}
    {
      FamiliesAreDisjoint(h, sb.block.seqNo, sb.block.vertSeqNo);
    }
  }

  lemma {:induction false} PrefixExtends(c: Codec, store: Store, sb: ShardBlock, entries: seq<Entry>, k: nat)
    requires k <= 5
    ensures Extends(store, AllApplied(store, PutWrites(c, sb, entries)[..k]))
    decreases k
  {
    hide Extends, Harmless, PutWrites;
    var ws := PutWrites(c, sb, entries);
    if k == 0 {
      ExtendsItself(store);
    } else {
      PrefixExtends(c, store, sb, entries, k - 1);
      PutIsHarmless(c, sb, entries, k - 1);
      WriteExtends(store, AllApplied(store, ws[..k - 1]), ws[k - 1]);
      assert ws[..k] == ws[..k - 1] + [ws[k - 1]];
      AppliedAppend(store, ws[..k - 1], ws[k - 1]);
    }
  }

  lemma ExtendsItself(store: Store)
    ensures Extends(store, store)
  {
  }

  lemma FixedNamesDiffer()
    ensures BLOCKS_FINALITY_INFO_KEY !in {SHARD_INFO_KEY, SHARD_STATE_BLOCK_KEY, ZEROSTATE_KEY}
    ensures ZEROSTATE_KEY !in {SHARD_INFO_KEY, SHARD_STATE_BLOCK_KEY}
  {
    assert BLOCKS_FINALITY_INFO_KEY[0] == 'b' && SHARD_INFO_KEY[0] == 's' && SHARD_STATE_BLOCK_KEY[0] == 's'
        && ZEROSTATE_KEY[0] == 'z';
  }

  /** The store after all the writes of a put. */
  lemma StoreAfterPut(c: Codec, store: Store, sb: ShardBlock, entries: seq<Entry>)
    requires Storable(c, sb, store)
    ensures var store' := AllApplied(store, PutWrites(c, sb, entries));
      && BLOCKS_FINALITY_INFO_KEY in store' && store'[BLOCKS_FINALITY_INFO_KEY] == IndexData(sb, sb, entries)
      && FinalityKey(sb.rootHash) in store' && store'[FinalityKey(sb.rootHash)] == Serialize(c, sb)
  {
    var ws := PutWrites(c, sb, entries);
    FamiliesAreDisjoint(sb.rootHash, sb.block.seqNo, sb.block.vertSeqNo);
    hide FinalityKey, BlockKey, Serialize, ShardInfoData, IndexData;
    assert ws[..0] == [];
    var s0 := AllApplied(store, ws[..0]);
    AppliedAppend(store, ws[..0], ws[0]);
    assert ws[..1] == ws[..0] + [ws[0]];
    AppliedAppend(store, ws[..1], ws[1]);
    assert ws[..2] == ws[..1] + [ws[1]];
    AppliedAppend(store, ws[..2], ws[2]);
    assert ws[..3] == ws[..2] + [ws[2]];
    AppliedAppend(store, ws[..3], ws[3]);
    assert ws[..4] == ws[..3] + [ws[3]];
    AppliedAppend(store, ws[..4], ws[4]);
    assert ws[..5] == ws[..4] + [ws[4]];
    AppliedAppend(store, ws[..5], ws[5]);
    assert ws == ws[..5] + [ws[5]];
  }

  lemma IndexReadsBack(c: Codec, store: Store, globalId: int, sb: ShardBlock)
    requires Lawful(c) && Storable(c, sb, store) && FinalityKey(sb.rootHash) in store
    ensures ReadIndex(c, store, globalId, IndexData(sb, sb, []))
         == Some(Finality(globalId, Untraced(sb), Untraced(sb), map[], map[]))
  {
    RoundTripIff(c, sb);
    hide Pow256, Deserialize, Serialize, FinalityKey, ReadEntry, EntryData;
    var e := EntryData(sb.rootHash, sb.seqNo);
    ReadEntryBack(sb.rootHash, sb.seqNo, e + []);
    ReadEntryBack(sb.rootHash, sb.seqNo, []);
    NothingToRead();
  }

  lemma MapsStayEmpty(f: Finality, sb: ShardBlock)
    requires f.byHash == map[] && f.byNo == map[]
    ensures AfterPut(f, sb) == Finality(f.globalId, sb, sb, map[], map[])
  {
  }

  lemma LoadAfterPut(c: Codec, f: Finality, store: Store, sb: ShardBlock)
    requires Lawful(c) && Persisted(c, f, store) && Storable(c, sb, store)
    ensures Load(c, f.globalId, AllApplied(store, PutWrites(c, sb, []))) == Some(Cleared(AfterPut(f, sb)))
  {
    StoreAfterPut(c, store, sb, []);
    MapsStayEmpty(f, sb);
    hide AllApplied, PutWrites, IndexData, Serialize, Lawful, ReadIndex, FinalityKey, AfterPut;
    var store' := AllApplied(store, PutWrites(c, sb, []));
    IndexReadsBack(c, store', f.globalId, sb);
  }

  /** Stopping a put after any number of its six writes and loading again gives the state before the put, or, once the
      index is written, the state after it. */
  lemma CrashConsistency(c: Codec, f: Finality, store: Store, sb: ShardBlock, k: nat)
    requires Lawful(c) && Persisted(c, f, store) && Storable(c, sb, store) && k <= 6
    ensures
      Load(c, f.globalId, AllApplied(store, PutWrites(c, sb, [])[..k]))
        == Some(Cleared(if k < 6 then f else AfterPut(f, sb)))
  {
    hide Lawful, Storable, Load, PutWrites, AllApplied, IndexData, Cleared, AfterPut, Extends;
    var ws := PutWrites(c, sb, []);
    if k < 6 {
      PrefixExtends(c, store, sb, [], k);
      LoadIsMonotone(c, f.globalId, store, AllApplied(store, ws[..k]));
    } else {
      assert ws[..k] == ws;
      LoadAfterPut(c, f, store, sb);
    }
  }

  /** A layer made over a store without an index, with a zerostate or without, is where such runs start. */
  lemma FreshLayerPersists(c: Codec, globalId: int, store: Store)
    requires BLOCKS_FINALITY_INFO_KEY !in store && Load(c, globalId, store).Some?
    ensures Persisted(c, Load(c, globalId, store).value, store)
  {
    var f := Load(c, globalId, store).value;
    assert f.globalId == globalId && Cleared(f) == f;
  }

  // ---- runs with restarts and crashes ----

  /** A crash is a put that stops after its first `done` writes, and a restart. */
  datatype Op =
    | Put(block: Block, state: ShardState, traces: seq<nat>)
    | Restart
    | Crash(block: Block, state: ShardState, traces: seq<nat>, done: nat)

  /** A layer and its store. A restart builds a new layer from the store. */
  datatype Node = Node(f: Finality, store: Store)

  function MadeBy(c: Codec, op: Op): ShardBlock
    requires !op.Restart?
  {
    WithBlockAndState(c, op.block, op.state, op.traces)
  }

  /** How many of the six writes are made. */
  function Done(op: Op): (k: nat)
    ensures k <= 6
  {
    if op.Crash? && op.done < 6 then op.done else 6
  }

  function WritesOf(c: Codec, op: Op): seq<Write> {
    if op.Restart? then [] else PutWrites(c, MadeBy(c, op), [])[..Done(op)]
  }

  function Reloaded(c: Codec, f: Finality, store: Store): Finality {
    var loaded := Load(c, f.globalId, store);
    if loaded.None? then f else loaded.value
  }

  function Step(c: Codec, n: Node, op: Op): Node {
    var store := AllApplied(n.store, WritesOf(c, op));
    Node(if op.Put? then AfterPut(n.f, MadeBy(c, op)) else Reloaded(c, n.f, store), store)
  }

  function Run(c: Codec, n: Node, ops: seq<Op>): Node {
    if ops == [] then n else Step(c, Run(c, n, ops[..|ops| - 1]), ops[|ops| - 1])
  }

  /** The puts of a run that were completed, those that stopped only after their last write included. */
  function Completed(ops: seq<Op>): seq<Op> {
    if ops == [] then [] else Completed(ops[..|ops| - 1]) + CompletedOne(ops[|ops| - 1])
  }

  function CompletedOne(op: Op): seq<Op> {
    match op
    case Put(_, _, _) => [op]
    case Restart => []
    case Crash(block, state, traces, done) => if done < 6 then [] else [Put(block, state, traces)]
  }

  // ---- what the inputs must meet ----

  /** The numbers have 32 bits and are not both 0; the serialized block has a length of 32 bits; the state has a
      hash. */
  predicate Fits(c: Codec, op: Op)
    requires !op.Restart?
  {
    && op.block.seqNo < TWO_32 && op.block.vertSeqNo < TWO_32 && 0 < op.block.seqNo + op.block.vertSeqNo
    && |c.encodeBlock(op.block)| < TWO_32 && c.stateHash(op.block) != ZERO_HASH
  }

  predicate SameRoot(c: Codec, a: Op, b: Op)
    requires !a.Restart? && !b.Restart?
  {
    c.rootHash(a.block) == c.rootHash(b.block)
  }

  /** A root hash identifies its shard block: among the puts of the run, and against what is stored at its start. */
  ghost predicate Identified(c: Codec, store: Store, ops: seq<Op>) {
    && (forall op | op in ops && !op.Restart? :: Fits(c, op) && AgreesWith(c, store, op))
    && (forall a, b | a in ops && b in ops && !a.Restart? && !b.Restart? && SameRoot(c, a, b) ::
          a.block == b.block && a.state == b.state)
  }

  ghost predicate AgreesWith(c: Codec, store: Store, op: Op)
    requires !op.Restart?
  {
    var key := FinalityKey(c.rootHash(op.block));
    key in store ==> store[key] == Serialize(c, MadeBy(c, op))
  }

  // ---- the shard blocks of the store ----

  /** The second store has the entry of this hash from the first one, or as an encoding of the shard block. */
  ghost predicate EntryFrom(c: Codec, store: Store, store': Store, sb: ShardBlock, h: Hash) {
    && (FinalityKey(h) in store ==> FinalityKey(h) in store' && store'[FinalityKey(h)] == store[FinalityKey(h)])
    && (FinalityKey(h) in store' && FinalityKey(h) !in store ==>
          h == sb.rootHash && store'[FinalityKey(h)] == Serialize(c, sb))
  }

  /** An entry under another hash is not touched by a put; one under its own hash is not overwritten. */
  lemma WriteOfPut(c: Codec, sb: ShardBlock, i: nat, h: Hash)
    requires i < 6
    ensures var w := PutWrites(c, sb, [])[i];
      w.key == FinalityKey(h) ==> !w.overwrite && h == sb.rootHash && w.data == Serialize(c, sb)
  {
    FamiliesAreDisjoint(h, sb.block.seqNo, sb.block.vertSeqNo);
    hide FinalityKey, BlockKey, Serialize, ShardInfoData, IndexData;
    if FinalityKey(sb.rootHash) == FinalityKey(h) {
      FinalityKeyIsInjective(sb.rootHash, h);
    }
  }

  lemma {:induction false} EntriesOfPut(c: Codec, store: Store, sb: ShardBlock, k: nat, h: Hash)
    requires k <= 6
    ensures EntryFrom(c, store, AllApplied(store, PutWrites(c, sb, [])[..k]), sb, h)
    decreases k
  {
    hide FinalityKey, Serialize, PutWrites;
    var ws := PutWrites(c, sb, []);
    if k == 0 {
      assert ws[..0] == [];
    } else {
      EntriesOfPut(c, store, sb, k - 1, h);
      WriteOfPut(c, sb, k - 1, h);
      assert ws[..k] == ws[..k - 1] + [ws[k - 1]];
      AppliedAppend(store, ws[..k - 1], ws[k - 1]);
    }
  }

  lemma EntriesOfStep(c: Codec, n: Node, op: Op, h: Hash)
    requires !op.Restart?
    ensures EntryFrom(c, n.store, Step(c, n, op).store, MadeBy(c, op), h)
  {
    hide EntryFrom, PutWrites, AllApplied, Reloaded, WithBlockAndState;
    EntriesOfPut(c, n.store, MadeBy(c, op), Done(op), h);
  }

  /** Every shard block in the store was there at the start or comes from a put of the run. */
  ghost predicate KnownEntry(c: Codec, start: Store, ops: seq<Op>, store: Store, h: Hash) {
    FinalityKey(h) in store ==>
      || (FinalityKey(h) in start && store[FinalityKey(h)] == start[FinalityKey(h)])
      || exists op :: op in ops && Wrote(c, op, h, store[FinalityKey(h)])
  }

  ghost predicate Wrote(c: Codec, op: Op, h: Hash, data: Data) {
    !op.Restart? && c.rootHash(op.block) == h && data == Serialize(c, MadeBy(c, op))
  }

  lemma {:induction false} EntriesAreKnown(c: Codec, n: Node, ops: seq<Op>, h: Hash)
    ensures KnownEntry(c, n.store, ops, Run(c, n, ops).store, h)
  {
    hide FinalityKey, Serialize, Step;
    if ops == [] {
    } else {
      var front, last := ops[..|ops| - 1], ops[|ops| - 1];
      EntriesAreKnown(c, n, front, h);
      var before := Run(c, n, front);
      if last.Restart? {
        RestartKeepsStore(c, before);
      } else {
        EntriesOfStep(c, before, last, h);
        assert MadeBy(c, last).rootHash == c.rootHash(last.block);
      }
      KnownMore(c, n.store, ops, before.store, Run(c, n, ops).store, h);
    }
  }

  lemma RestartKeepsStore(c: Codec, n: Node)
    ensures Step(c, n, Restart).store == n.store
  {
  }

  lemma KnownMore(c: Codec, start: Store, ops: seq<Op>, store: Store, store': Store, h: Hash)
    requires ops != [] && KnownEntry(c, start, ops[..|ops| - 1], store, h)
    requires var last := ops[|ops| - 1];
      if last.Restart? then store' == store else EntryFrom(c, store, store', MadeBy(c, last), h)
    ensures KnownEntry(c, start, ops, store', h)
  {
    hide FinalityKey, Serialize;
    var last := ops[|ops| - 1];
    if FinalityKey(h) in store' && FinalityKey(h) !in store {
      assert last in ops && Wrote(c, last, h, store'[FinalityKey(h)]);
    }
    assert forall op | op in ops[..|ops| - 1] :: op in ops;
  }

  /** The encoding of a shard block leaves its traces out. */
  lemma EncodingOfSame(c: Codec, a: Op, b: Op)
    requires !a.Restart? && !b.Restart? && a.block == b.block && a.state == b.state
    ensures Serialize(c, MadeBy(c, a)) == Serialize(c, MadeBy(c, b))
  {
  }

  lemma SizesFit(c: Codec, op: Op)
    requires !op.Restart? && Fits(c, op)
    ensures var sb := MadeBy(c, op); 0 < sb.seqNo < Pow256(8) && |sb.serializedBlock| < TWO_32
  {
    NumberFits(op.block.seqNo, op.block.vertSeqNo);
    hide Pow256, KeyBySeqNo;
  }

  lemma EntryIsOwn(c: Codec, start: Store, ops: seq<Op>, store: Store)
    requires ops != [] && Identified(c, start, ops) && !ops[|ops| - 1].Restart?
    requires var last := ops[|ops| - 1]; KnownEntry(c, start, ops[..|ops| - 1], store, c.rootHash(last.block))
    ensures var last := ops[|ops| - 1]; AgreesWith(c, store, last)
  {
    hide FinalityKey, Serialize, MadeBy, Fits;
    var front, last := ops[..|ops| - 1], ops[|ops| - 1];
    var h := c.rootHash(last.block);
    assert last in ops && AgreesWith(c, start, last);
    if FinalityKey(h) in store && !(FinalityKey(h) in start && store[FinalityKey(h)] == start[FinalityKey(h)]) {
      var op :| op in front && Wrote(c, op, h, store[FinalityKey(h)]);
      assert op in ops && SameRoot(c, op, last);
      EncodingOfSame(c, op, last);
    }
  }

  /** So what is stored under the hash of a put, if anything, is that shard block, at every point of the run. */
  lemma StorableInRun(c: Codec, n: Node, ops: seq<Op>)
    requires ops != [] && Identified(c, n.store, ops) && !ops[|ops| - 1].Restart?
    ensures Storable(c, MadeBy(c, ops[|ops| - 1]), Run(c, n, ops[..|ops| - 1]).store)
  {
    var front, last := ops[..|ops| - 1], ops[|ops| - 1];
    hide KnownEntry, FinalityKey, Serialize, Run, Pow256, Fits, AgreesWith;
    EntriesAreKnown(c, n, front, c.rootHash(last.block));
    EntryIsOwn(c, n.store, ops, Run(c, n, front).store);
    assert last in ops && Fits(c, last);
    SizesFit(c, last);
    StorableParts(c, last, Run(c, n, front).store);
  }

  lemma StorableParts(c: Codec, op: Op, store: Store)
    requires !op.Restart? && AgreesWith(c, store, op)
    requires var sb := MadeBy(c, op); 0 < sb.seqNo < Pow256(8) && |sb.serializedBlock| < TWO_32
    ensures Storable(c, MadeBy(c, op), store)
  {
    hide FinalityKey, Serialize, Pow256;
  }

  lemma NumberFits(seqNo: nat, vertSeqNo: nat)
    requires seqNo < TWO_32 && vertSeqNo < TWO_32 && 0 < seqNo + vertSeqNo
    ensures 0 < KeyBySeqNo(seqNo, vertSeqNo) < Pow256(8)
  {
    assert Pow256(4) == TWO_32 && Pow256(8) == 256 * (256 * (256 * (256 * Pow256(4))));
  }

  lemma EightDigits()
    ensures Pow16(8) == TWO_32
  {
  }

  predicate SameNumbers(block: Block, seqNo: nat, vertSeqNo: nat) {
    block.seqNo == seqNo && block.vertSeqNo == vertSeqNo
  }

  predicate ShortNumbers(block: Block) { block.seqNo < TWO_32 && block.vertSeqNo < TWO_32 }

  lemma BlockKeysDiffer(block: Block, other: Block)
    requires ShortNumbers(block) && ShortNumbers(other)
    ensures BlockKey(other.seqNo, other.vertSeqNo) == BlockKey(block.seqNo, block.vertSeqNo)
      <==> SameNumbers(block, other.seqNo, other.vertSeqNo)
  {
    EightDigits();
    hide BlockKey, Pow16;
    if BlockKey(other.seqNo, other.vertSeqNo) == BlockKey(block.seqNo, block.vertSeqNo) {
      BlockKeyIsInjective(other.seqNo, other.vertSeqNo, block.seqNo, block.vertSeqNo);
    }
  }

  lemma OtherNames(hash: Hash, block: Block)
    ensures BlockKey(block.seqNo, block.vertSeqNo) != SHARD_STATE_BLOCK_KEY
    ensures BlockKey(block.seqNo, block.vertSeqNo) != SHARD_INFO_KEY
    ensures BlockKey(block.seqNo, block.vertSeqNo) != BLOCKS_FINALITY_INFO_KEY
    ensures BlockKey(block.seqNo, block.vertSeqNo) != FinalityKey(hash)
  {
    FamiliesAreDisjoint(hash, block.seqNo, block.vertSeqNo);
  }

  lemma OtherWrites(c: Codec, sb: ShardBlock, key: string, i: nat)
    requires i < 6 && key != SHARD_STATE_BLOCK_KEY && key != SHARD_INFO_KEY && key != BLOCKS_FINALITY_INFO_KEY
    requires key != FinalityKey(sb.rootHash)
    ensures PutWrites(c, sb, [])[i].key == key ==> i == 2
  {
    hide FinalityKey, BlockKey, Serialize, ShardInfoData, IndexData;
  }

  lemma ThirdWrite(c: Codec, sb: ShardBlock)
    ensures PutWrites(c, sb, [])[2]
         == Write(BlockKey(sb.block.seqNo, sb.block.vertSeqNo), sb.serializedBlock, true)
  {
    hide FinalityKey, BlockKey, Serialize, ShardInfoData, IndexData;
  }

  /** Only the third write of a put goes to a block key, and to that of its own numbers. */
  lemma BlockWrite(c: Codec, sb: ShardBlock, i: nat, block: Block)
    requires i < 6 && ShortNumbers(block) && ShortNumbers(sb.block)
    ensures var w, own := PutWrites(c, sb, [])[i], i == 2 && SameNumbers(sb.block, block.seqNo, block.vertSeqNo);
      && (w.key == BlockKey(block.seqNo, block.vertSeqNo) <==> own)
      && (own ==> w.data == sb.serializedBlock && w.overwrite)
  {
    hide FinalityKey, BlockKey, Serialize, ShardInfoData, IndexData, SameNumbers, ShortNumbers, PutWrites;
    OtherNames(sb.rootHash, block);
    BlockKeysDiffer(sb.block, block);
    ThirdWrite(c, sb);
    OtherWrites(c, sb, BlockKey(block.seqNo, block.vertSeqNo), i);
  }

  lemma {:induction false} BlockInPrefix(c: Codec, store: Store, sb: ShardBlock, k: nat, block: Block)
    requires k <= 6 && ShortNumbers(block) && ShortNumbers(sb.block)
    ensures var store', key := AllApplied(store, PutWrites(c, sb, [])[..k]), BlockKey(block.seqNo, block.vertSeqNo);
      if k > 2 && SameNumbers(sb.block, block.seqNo, block.vertSeqNo)
      then key in store' && store'[key] == sb.serializedBlock
      else (key in store' <==> key in store) && (key in store ==> store'[key] == store[key])
    decreases k
  {
    hide BlockKey, PutWrites, SameNumbers, ShortNumbers;
    var ws := PutWrites(c, sb, []);
    if k == 0 {
      assert ws[..0] == [];
    } else {
      BlockInPrefix(c, store, sb, k - 1, block);
      BlockWrite(c, sb, k - 1, block);
      assert ws[..k] == ws[..k - 1] + [ws[k - 1]];
      AppliedAppend(store, ws[..k - 1], ws[k - 1]);
    }
  }

  lemma BlockAfterStep(c: Codec, n: Node, op: Op, block: Block)
    requires !op.Restart? && Fits(c, op) && ShortNumbers(block)
    ensures var key, store := BlockKey(block.seqNo, block.vertSeqNo), Step(c, n, op).store;
      if SameNumbers(op.block, block.seqNo, block.vertSeqNo)
      then op.Put? ==> key in store && store[key] == c.encodeBlock(op.block)
      else (key in store <==> key in n.store) && (key in store ==> store[key] == n.store[key])
  {
    FitsIsShort(c, op);
    hide BlockKey, PutWrites, AllApplied, Reloaded, SameNumbers, ShortNumbers, Fits;
    BlockInPrefix(c, n.store, MadeBy(c, op), Done(op), block);
    assert MadeBy(c, op).block == op.block && MadeBy(c, op).serializedBlock == c.encodeBlock(op.block);
  }

  lemma FitsIsShort(c: Codec, op: Op)
    requires !op.Restart? && Fits(c, op)
    ensures ShortNumbers(op.block) && SameNumbers(op.block, op.block.seqNo, op.block.vertSeqNo)
  {
  }

  ghost predicate AllFit(c: Codec, ops: seq<Op>) { forall op | op in ops && !op.Restart? :: Fits(c, op) }

  /** No later put has the numbers of put `i`. */
  ghost predicate NotReused(ops: seq<Op>, i: nat)
    requires i < |ops| && !ops[i].Restart?
  {
    forall j | i < j < |ops| && !ops[j].Restart? ::
      !SameNumbers(ops[j].block, ops[i].block.seqNo, ops[i].block.vertSeqNo)
  }

  ghost predicate Holds(store: Store, c: Codec, block: Block) {
    var key := BlockKey(block.seqNo, block.vertSeqNo);
    key in store && store[key] == c.encodeBlock(block)
  }

  lemma HoldsAfterStep(c: Codec, n: Node, op: Op, block: Block)
    requires !op.Restart? ==> Fits(c, op)
    requires ShortNumbers(block)
    requires if op.Put? && op.block == block then true else
      Holds(n.store, c, block) && (op.Restart? || !SameNumbers(op.block, block.seqNo, block.vertSeqNo))
    ensures Holds(Step(c, n, op).store, c, block)
  {
    if op.Restart? {
      RestartKeepsStore(c, n);
    } else {
      BlockAfterStep(c, n, op, block);
    }
    hide BlockKey, Step;
  }

  lemma FrontFits(c: Codec, ops: seq<Op>, i: nat)
    requires i + 1 < |ops| && ops[i].Put? && AllFit(c, ops) && NotReused(ops, i)
    ensures AllFit(c, ops[..|ops| - 1]) && NotReused(ops[..|ops| - 1], i)
  {
    hide Fits, SameNumbers;
  }

  /** The block of a put stays readable under its numbers until a later put has the same ones. */
  lemma {:induction false} BlockStaysStored(c: Codec, n: Node, ops: seq<Op>, i: nat)
    requires i < |ops| && ops[i].Put? && AllFit(c, ops) && NotReused(ops, i)
    ensures Holds(Run(c, n, ops).store, c, ops[i].block)
    decreases |ops|
  {
    hide Holds, Step, Fits, SameNumbers, ShortNumbers;
    var front, last := ops[..|ops| - 1], ops[|ops| - 1];
    assert ops[i] in ops && last in ops;
    FitsIsShort(c, ops[i]);
    if i < |front| {
      FrontFits(c, ops, i);
      BlockStaysStored(c, n, front, i);
    }
    hide AllFit, NotReused;
    HoldsAfterStep(c, Run(c, n, front), last, ops[i].block);
  }

  // ---- restarts and crashes cannot be seen ----

  /** What the chain reads from the layer to build the next block. */
  datatype LastInfo = LastInfo(state: ShardState, endLt: nat, seqNo: nat, rootHash: Hash, fileHash: Hash)

  function GetLastInfo(f: Finality): LastInfo {
    LastInfo(f.current.state, f.current.block.endLt, f.current.block.seqNo, f.current.rootHash, f.current.fileHash)
  }

  function NextSeqNo(f: Finality): nat { GetLastInfo(f).state.seqNo + 1 }

  lemma PutPersists(c: Codec, n: Node, op: Op)
    requires Lawful(c) && op.Put? && Persisted(c, n.f, n.store) && Storable(c, MadeBy(c, op), n.store)
    ensures var n' := Step(c, n, op); Persisted(c, n'.f, n'.store)
  {
    hide Lawful, Storable, Load, PutWrites, AllApplied, WithBlockAndState;
    var sb := MadeBy(c, op);
    assert PutWrites(c, sb, [])[..6] == PutWrites(c, sb, []);
    LoadAfterPut(c, n.f, n.store, sb);
    MapsStayEmpty(n.f, sb);
  }

  lemma PutForgetsTraces(c: Codec, m: Node, n: Node, op: Op)
    requires Cleared(m.f) == Cleared(n.f) && op.Put?
    ensures Cleared(Step(c, m, op).f) == Cleared(Step(c, n, op).f)
  {
    hide PutWrites, AllApplied, WithBlockAndState;
  }

  lemma RestartClears(c: Codec, n: Node)
    requires Persisted(c, n.f, n.store)
    ensures var n' := Step(c, n, Restart); Persisted(c, n'.f, n'.store) && n'.f == Cleared(n.f) && n'.store == n.store
  {
    hide Load;
  }

  /** What is loaded as the cleared layer is a layer that stays. */
  lemma LoadedPersists(c: Codec, f: Finality, store: Store)
    requires f.byHash == map[] && f.byNo == map[] && Load(c, f.globalId, store) == Some(Cleared(f))
    ensures Persisted(c, Cleared(f), store)
  {
    hide Load;
  }

  /** A crash leaves the layer as it was, or as the whole put leaves it. */
  lemma CrashClears(c: Codec, n: Node, op: Op)
    requires Lawful(c) && op.Crash? && Persisted(c, n.f, n.store) && Storable(c, MadeBy(c, op), n.store)
    ensures var n' := Step(c, n, op);
      && Persisted(c, n'.f, n'.store)
      && n'.f == Cleared(if op.done < 6 then n.f else AfterPut(n.f, MadeBy(c, op)))
  {
    hide Lawful, Storable, Load, PutWrites, AllApplied, MadeBy, Cleared;
    var sb := MadeBy(c, op);
    var ws, k := PutWrites(c, sb, []), Done(op);
    MapsStayEmpty(n.f, sb);
    CrashConsistency(c, n.f, n.store, sb, k);
    hide AfterPut;
    LoadedPersists(c, if k < 6 then n.f else AfterPut(n.f, sb), AllApplied(n.store, ws[..k]));
  }

  lemma RunAppend(c: Codec, n: Node, ops: seq<Op>, op: Op)
    ensures Run(c, n, ops + [op]) == Step(c, Run(c, n, ops), op)
  {
    hide Step;
    assert (ops + [op])[..|ops|] == ops;
  }

  lemma SameInfo(f: Finality, g: Finality)
    requires Cleared(f) == Cleared(g)
    ensures GetLastInfo(f) == GetLastInfo(g) && NextSeqNo(f) == NextSeqNo(g)
  {
    assert Cleared(f).current.state == Cleared(g).current.state;
  }

  lemma IdentifiedFront(c: Codec, store: Store, ops: seq<Op>)
    requires ops != [] && Identified(c, store, ops)
    ensures Identified(c, store, ops[..|ops| - 1])
  {
    hide AgreesWith, SameRoot, Fits;
  }

  lemma RunPersists(c: Codec, n: Node, ops: seq<Op>)
    requires ops != [] && Lawful(c) && Identified(c, n.store, ops)
    requires var before := Run(c, n, ops[..|ops| - 1]); Persisted(c, before.f, before.store)
    ensures var after := Run(c, n, ops); Persisted(c, after.f, after.store)
  {
    hide Lawful, Persisted, Storable, Step, Identified;
    var before, last := Run(c, n, ops[..|ops| - 1]), ops[|ops| - 1];
    if last.Restart? {
      RestartClears(c, before);
    } else {
      StorableInRun(c, n, ops);
      if last.Put? {
        PutPersists(c, before, last);
      } else {
        CrashClears(c, before, last);
      }
    }
  }

  /** Restarts and crashes anywhere in a run of puts are invisible: up to traces the layer is that of the completed puts
      alone, so the next block is built on the same state, the same previous block and the same number; and both maps
      are empty after every step. */
  lemma {:induction false} RestartTransparency(c: Codec, n: Node, ops: seq<Op>)
    requires Lawful(c) && Persisted(c, n.f, n.store) && Identified(c, n.store, ops)
    ensures var with, without := Run(c, n, ops), Run(c, n, Completed(ops));
      && Persisted(c, with.f, with.store) && Cleared(with.f) == Cleared(without.f)
      && GetLastInfo(with.f) == GetLastInfo(without.f) && NextSeqNo(with.f) == NextSeqNo(without.f)
  {
    hide Lawful, Persisted, Storable, Step, GetLastInfo, NextSeqNo, Identified, Cleared, AfterPut, MadeBy;
    if ops == [] {
    } else {
      var front, last := ops[..|ops| - 1], ops[|ops| - 1];
      IdentifiedFront(c, n.store, ops);
      RestartTransparency(c, n, front);
      RunPersists(c, n, ops);
      var before, plain := Run(c, n, front), Run(c, n, Completed(front));
      ClearedStep(c, n, ops, before, plain);
    }
    SameInfo(Run(c, n, ops).f, Run(c, n, Completed(ops)).f);
  }

  lemma ClearedTwice(f: Finality)
    ensures Cleared(Cleared(f)) == Cleared(f)
  {
  }

  lemma CrashIsPutOrNothing(c: Codec, m: Node, n: Node, op: Op)
    requires Lawful(c) && op.Crash? && Persisted(c, m.f, m.store) && Storable(c, MadeBy(c, op), m.store)
    requires Cleared(m.f) == Cleared(n.f)
    ensures Cleared(Step(c, m, op).f)
         == Cleared(if op.done < 6 then n.f else Step(c, n, Put(op.block, op.state, op.traces)).f)
  {
    CrashClears(c, m, op);
    ClearedTwice(m.f);
    hide Lawful, Persisted, Storable, Load, PutWrites, AllApplied, WithBlockAndState;
  }

  lemma ClearedStep(c: Codec, n: Node, ops: seq<Op>, before: Node, plain: Node)
    requires ops != [] && Lawful(c) && Identified(c, n.store, ops)
    requires before == Run(c, n, ops[..|ops| - 1]) && plain == Run(c, n, Completed(ops[..|ops| - 1]))
    requires Persisted(c, before.f, before.store) && Cleared(before.f) == Cleared(plain.f)
    ensures Cleared(Run(c, n, ops).f) == Cleared(Run(c, n, Completed(ops)).f)
  {
    var last, done := ops[|ops| - 1], Completed(ops[..|ops| - 1]);
    assert Run(c, n, ops) == Step(c, before, last) && Completed(ops) == done + CompletedOne(last);
    hide Lawful, Persisted, Storable, Identified, Step, Cleared, MadeBy, Run, Completed;
    if last.Restart? {
      RestartClears(c, before);
      ClearedTwice(before.f);
      assert done + [] == done;
    } else {
      StorableInRun(c, n, ops);
      if last.Put? {
        RunAppend(c, n, done, last);
        PutForgetsTraces(c, before, plain, last);
      } else {
        CrashIsPutOrNothing(c, before, plain, last);
        assert done + [] == done;
        RunAppend(c, n, done, Put(last.block, last.state, last.traces));
      }
    }
  }

  ghost predicate NoCrash(ops: seq<Op>) { forall op | op in ops :: !op.Crash? }

  lemma SameStore(c: Codec, m: Node, n: Node, op: Op)
    requires m.store == n.store && op.Put?
    ensures Step(c, m, op).store == Step(c, n, op).store
  {
  }

  /** Without crashes the store is the same too. */
  lemma {:induction false} RestartsLeaveStore(c: Codec, n: Node, ops: seq<Op>)
    requires NoCrash(ops)
    ensures Run(c, n, ops).store == Run(c, n, Completed(ops)).store
  {
    hide Step;
    if ops == [] {
    } else {
      var front, last := ops[..|ops| - 1], ops[|ops| - 1];
      RestartsLeaveStore(c, n, front);
      if last.Put? {
        RunAppend(c, n, Completed(front), last);
        SameStore(c, Run(c, n, front), Run(c, n, Completed(front)), last);
      } else {
        RestartKeepsStore(c, Run(c, n, front));
        assert Completed(front) + [] == Completed(front);
      }
    }
  }
}
