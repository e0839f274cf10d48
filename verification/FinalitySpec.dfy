/** The finality layer as functions: shard blocks, their encoding, the writes of a put, and loading from a store. */
module FinalitySpec {
  import opened Common
  import opened Bytes
  import opened ShardStorages

  datatype Block = Block(globalId: int, seqNo: nat, vertSeqNo: nat, endLt: nat, body: nat)

  /** The body stands for all else that the state holds. */
  datatype ShardState = ShardState(globalId: int, seqNo: nat, body: seq<nat>)

  /** The cell encoding: self-delimiting, so that a reader takes exactly what was written. */
  datatype Codec = Codec(
    encodeBlock: Block -> Data, readBlock: Data -> Read<Block>,
    encodeState: ShardState -> Data, readState: Data -> Read<ShardState>,
    rootHash: Block -> Hash, fileHash: Data -> Hash, stateHash: Block -> Hash)

  ghost predicate BlockReadsBack(c: Codec, block: Block, rest: Data) {
    c.readBlock(c.encodeBlock(block) + rest) == Got(block, rest)
  }

  ghost predicate StateReadsBack(c: Codec, state: ShardState, rest: Data) {
    c.readState(c.encodeState(state) + rest) == Got(state, rest)
  }

  ghost predicate Lawful(c: Codec) {
    && (forall block, rest :: BlockReadsBack(c, block, rest))
    && (forall state, rest :: StateReadsBack(c, state, rest))
  }

  datatype ShardBlock = ShardBlock(
    seqNo: nat, serializedBlock: Data, rootHash: Hash, fileHash: Hash, block: Block, state: ShardState,
    traces: seq<nat>)

  function KeyBySeqNo(seqNo: nat, vertSeqNo: nat): nat { vertSeqNo * TWO_32 + seqNo }

  function NewShardBlock(globalId: int): ShardBlock {
    ShardBlock(0, [], ZERO_HASH, ZERO_HASH, Block(globalId, 0, 0, 0, 0), ShardState(globalId, 0, []), [])
  }

  function WithBlockAndState(c: Codec, block: Block, state: ShardState, traces: seq<nat>): ShardBlock {
    var serialized := c.encodeBlock(block);
    ShardBlock(KeyBySeqNo(block.seqNo, block.vertSeqNo), serialized, c.rootHash(block), c.fileHash(serialized),
               block, state, traces)
  }

  // ---- the shard block codec ----

  function Serialize(c: Codec, sb: ShardBlock): Data {
    LittleEndian(sb.seqNo, 8) + (LittleEndian(|sb.serializedBlock|, 4) + (sb.serializedBlock
      + (sb.rootHash + (sb.fileHash + (c.encodeState(sb.state) + (c.encodeBlock(sb.block) + []))))))
  }

  /** `read` into a zeroed buffer of `n` bytes: a short read leaves zeros behind and is not an error. */
  function ReadInto(d: Data, n: nat): Read<Data> {
    if |d| < n then Got(d + Zeros(n - |d|), []) else Got(d[..n], d[n..])
  }

  function Deserialize(c: Codec, d: Data): Option<ShardBlock> {
    var seqNo := ReadInt(d, 8);
    if seqNo.Eof? then None else
      var len := ReadInt(seqNo.rest, 4);
      if len.Eof? then None else
        var serialized := ReadInto(len.rest, len.value);
        var root := ReadExact(serialized.rest, 32);
        if root.Eof? then None else
          var file := ReadExact(root.rest, 32);
          if file.Eof? then None else
            var state := c.readState(file.rest);
            if state.Eof? then None else
              var block := c.readBlock(state.rest);
              if block.Eof? then None else
                Some(ShardBlock(seqNo.value, serialized.value, root.value, file.value, block.value, state.value, []))
  }

  function Untraced(sb: ShardBlock): ShardBlock { sb.(traces := []) }

  lemma {:induction false} LittleEndianBound(d: Data)
    ensures FromLittleEndian(d) < Pow256(|d|)
    decreases |d|
  {
    if d == [] {
    } else {
      LittleEndianBound(d[1..]);
    }
  }

  lemma DeserializedIsShort(c: Codec, d: Data)
    ensures var r := Deserialize(c, d); r.Some? ==> |r.value.serializedBlock| < Pow256(4)
  {
    hide Pow256, FromLittleEndian;
    if |d| >= 12 {
      LittleEndianBound(d[8..][..4]);
    }
  }

  lemma ShortSurvives(c: Codec, sb: ShardBlock)
    requires Lawful(c) && sb.seqNo < Pow256(8) && |sb.serializedBlock| < Pow256(4)
    ensures Deserialize(c, Serialize(c, sb)) == Some(Untraced(sb))
  {
    hide Pow256, FromLittleEndian, LittleEndian;
    var d6 := c.encodeBlock(sb.block) + [];
    var d5 := c.encodeState(sb.state) + d6;
    var d4 := sb.fileHash + d5;
    var d3 := sb.rootHash + d4;
    var d2 := sb.serializedBlock + d3;
    var d1 := LittleEndian(|sb.serializedBlock|, 4) + d2;
    ReadIntBack(sb.seqNo, 8, d1);
    ReadIntBack(|sb.serializedBlock|, 4, d2);
    SmallMod(sb.seqNo, Pow256(8));
    SmallMod(|sb.serializedBlock|, Pow256(4));
    assert ReadInto(d2, |sb.serializedBlock|) == Got(sb.serializedBlock, d3);
    ReadExactBack(sb.rootHash, d4);
    ReadExactBack(sb.fileHash, d5);
    assert StateReadsBack(c, sb.state, d6) && BlockReadsBack(c, sb.block, []);
  }

  lemma SmallMod(n: nat, m: nat)
    requires n < m
    ensures n % m == n
  {
  }

  /** A shard block comes back from its encoding, without its traces, exactly when the length of its serialized
      block fits in the 32 bits kept for it. */
  lemma RoundTripIff(c: Codec, sb: ShardBlock)
    requires Lawful(c) && sb.seqNo < Pow256(8)
    ensures Deserialize(c, Serialize(c, sb)) == Some(Untraced(sb)) <==> |sb.serializedBlock| < TWO_32
  {
    assert Pow256(4) == TWO_32;
    if |sb.serializedBlock| < TWO_32 {
      ShortSurvives(c, sb);
    } else {
      DeserializedIsShort(c, Serialize(c, sb));
    }
  }

  // ---- the layer ----

  datatype FinalityBlock = Loaded(sb: ShardBlock) | Stored(seqNo: nat, rootHash: Hash)

  datatype Finality = Finality(
    globalId: int, current: ShardBlock, last: ShardBlock,
    byHash: map<Hash, FinalityBlock>, byNo: map<nat, FinalityBlock>)

  function Fresh(globalId: int): Finality {
    Finality(globalId, NewShardBlock(globalId), NewShardBlock(globalId), map[], map[])
  }

  datatype Entry = Entry(hash: Hash, seqNo: nat)

  function SeqNoOf(f: FinalityBlock): nat { if f.Loaded? then f.sb.seqNo else f.seqNo }

  ghost predicate Mentioned(entries: seq<Entry>, h: Hash) { exists e :: e in entries && e.hash == h }

  /** An order in which the hash map may be walked. */
  ghost predicate Enumerates(entries: seq<Entry>, byHash: map<Hash, FinalityBlock>) {
    && (forall e | e in entries :: e.hash in byHash && e.seqNo == SeqNoOf(byHash[e.hash]))
    && (forall h | h in byHash :: Mentioned(entries, h))
    && (forall i, j | 0 <= i < j < |entries| :: entries[i].hash != entries[j].hash)
  }

  function EntryData(hash: Hash, seqNo: nat): Data { hash + LittleEndian(seqNo, 8) }

  function EntriesData(entries: seq<Entry>): Data {
    if entries == [] then [] else EntryData(entries[0].hash, entries[0].seqNo) + EntriesData(entries[1..])
  }

  function IndexData(current: ShardBlock, last: ShardBlock, entries: seq<Entry>): Data {
    EntryData(current.rootHash, current.seqNo) + (EntryData(last.rootHash, last.seqNo) + EntriesData(entries))
  }

  function ReadEntry(d: Data): Read<Entry> {
    var hash := ReadExact(d, 32);
    if hash.Eof? then Eof else
      var seqNo := ReadInt(hash.rest, 8);
      if seqNo.Eof? then Eof else Got(Entry(hash.value, seqNo.value), seqNo.rest)
  }

  /** The entries up to the end of the data; a torn last entry ends the list. */
  function ReadEntries(d: Data): seq<Entry>
    decreases |d|
  {
    var e := ReadEntry(d);
    if e.Eof? then [] else [e.value] + ReadEntries(e.rest)
  }

  lemma ReadEntryBack(hash: Hash, seqNo: nat, rest: Data)
    requires seqNo < Pow256(8)
    ensures ReadEntry(EntryData(hash, seqNo) + rest) == Got(Entry(hash, seqNo), rest)
  {
    hide Pow256, LittleEndian, FromLittleEndian;
    assert EntryData(hash, seqNo) + rest == hash + (LittleEndian(seqNo, 8) + rest);
    ReadExactBack(hash, LittleEndian(seqNo, 8) + rest);
    ReadIntBack(seqNo, 8, rest);
    SmallMod(seqNo, Pow256(8));
  }

  /** The list of blocks in the index round-trips. */
  lemma {:induction false} EntriesRoundTrip(entries: seq<Entry>)
    requires forall e | e in entries :: e.seqNo < Pow256(8)
    ensures ReadEntries(EntriesData(entries)) == entries
    decreases |entries|
  {
    hide EntryData, Pow256, ReadEntry;
    if entries == [] {
      NothingToRead();
    } else {
      ReadEntryBack(entries[0].hash, entries[0].seqNo, EntriesData(entries[1..]));
      EntriesRoundTrip(entries[1..]);
    }
  }

  lemma NothingToRead()
    ensures ReadEntry([]) == Eof
  {
  }

  function StoredByHash(entries: seq<Entry>): map<Hash, FinalityBlock> {
    if entries == [] then map[] else
      var e := entries[|entries| - 1];
      StoredByHash(entries[..|entries| - 1])[e.hash := Stored(e.seqNo, e.hash)]
  }

  function StoredByNo(entries: seq<Entry>): map<nat, FinalityBlock> {
    if entries == [] then map[] else
      var e := entries[|entries| - 1];
      StoredByNo(entries[..|entries| - 1])[e.seqNo := Stored(e.seqNo, e.hash)]
  }

  function FetchBlock(c: Codec, store: Store, globalId: int, e: Entry): Option<ShardBlock> {
    if e.seqNo == 0 then Some(NewShardBlock(globalId))
    else if FinalityKey(e.hash) !in store then None
    else Deserialize(c, store[FinalityKey(e.hash)])
  }

  function ReadIndex(c: Codec, store: Store, globalId: int, d: Data): Option<Finality> {
    var cur := ReadEntry(d);
    if cur.Eof? then None else
      var current := FetchBlock(c, store, globalId, cur.value);
      if current.None? then None else
        var fin := ReadEntry(cur.rest);
        if fin.Eof? then None else
          var last := FetchBlock(c, store, current.value.block.globalId, fin.value);
          if last.None? then None else
            var entries := ReadEntries(fin.rest);
            Some(Finality(globalId, current.value, last.value, StoredByHash(entries), StoredByNo(entries)))
  }

  /** What a new layer over the store loads: the index, or else the zerostate, or else nothing. */
  function Load(c: Codec, globalId: int, store: Store): Option<Finality> {
    if BLOCKS_FINALITY_INFO_KEY in store then ReadIndex(c, store, globalId, store[BLOCKS_FINALITY_INFO_KEY])
    else if ZEROSTATE_KEY in store then
      var zerostate := c.readState(store[ZEROSTATE_KEY]);
      if zerostate.Eof? then None else
        var f, s := Fresh(globalId), zerostate.value.(globalId := globalId);
        Some(f.(current := f.current.(state := s), last := f.last.(state := s)))
    else Some(Fresh(globalId))
  }

  // ---- a put ----

  function ShardInfoData(sb: ShardBlock): Data {
    BigEndian(KeyBySeqNo(sb.block.seqNo, sb.block.vertSeqNo), 8) + BigEndian(sb.block.endLt, 8) + sb.rootHash
  }

  /** A panic ends the process. */
  datatype FinalizeEnd = Succeeds | Fails | Panics

  datatype FinalizeOutcome = FinalizeOutcome(f: Finality, writes: seq<Write>, end: FinalizeEnd)

  /** The shard block behind an entry of the hash map; a stored one is read back. */
  function LoadedFrom(c: Codec, store: Store, b: FinalityBlock): Option<ShardBlock> {
    match b
    case Loaded(sb) => Some(sb)
    case Stored(_, hash) => if FinalityKey(hash) !in store then None else Deserialize(c, store[FinalityKey(hash)])
  }

  /** The writes of finalizing one shard block: its state, the shard info, the block. */
  function FinalizeWrites(c: Codec, sb: ShardBlock): seq<Write> {
    [ Write(SHARD_STATE_BLOCK_KEY, c.encodeState(sb.state), true),
      Write(SHARD_INFO_KEY, ShardInfoData(sb), true),
      Write(BlockKey(sb.block.seqNo, sb.block.vertSeqNo), sb.serializedBlock, true) ]
  }

  /** What finalizing a root hash does. The hash leaves its map even when the block cannot be read; a block without a
      state hash ends the process before anything is written, and one that the map by number lacks after it is. */
  function FinalizeBlocks(c: Codec, f: Finality, store: Store, root: Hash): FinalizeOutcome {
    if root in f.byHash then
      var f' := f.(byHash := f.byHash - {root});
      var loaded := LoadedFrom(c, store, f.byHash[root]);
      if loaded.None? then FinalizeOutcome(f', [], Fails)
      else
        var sb := loaded.value;
        if c.stateHash(sb.block) == ZERO_HASH then FinalizeOutcome(f', [], Panics)
        else if sb.seqNo !in f.byNo then FinalizeOutcome(f', FinalizeWrites(c, sb), Panics)
        else FinalizeOutcome(f'.(byNo := f.byNo - {sb.seqNo}, last := sb), FinalizeWrites(c, sb), Succeeds)
    else if root != ZERO_HASH && root != f.last.rootHash then FinalizeOutcome(f, [], Fails)
    else FinalizeOutcome(f, [], Succeeds)
  }

  /** The layer after a put: the new block is current and finalized at once and leaves both maps again. */
  function AfterPut(f: Finality, sb: ShardBlock): Finality {
    f.(current := sb, last := sb, byHash := f.byHash - {sb.rootHash}, byNo := f.byNo - {sb.seqNo})
  }

  /** The writes of saving the layer; the index comes last. */
  function SaveWrites(c: Codec, f: Finality, entries: seq<Entry>): seq<Write> {
    [ Write(FinalityKey(f.current.rootHash), Serialize(c, f.current), false),
      Write(FinalityKey(f.last.rootHash), Serialize(c, f.last), false),
      Write(BLOCKS_FINALITY_INFO_KEY, IndexData(f.current, f.last, entries), true) ]
  }

  /** The writes of a put, in their order; the index comes last. */
  function PutWrites(c: Codec, sb: ShardBlock, entries: seq<Entry>): (ws: seq<Write>)
    ensures |ws| == 6
  {
    [ Write(SHARD_STATE_BLOCK_KEY, c.encodeState(sb.state), true),
      Write(SHARD_INFO_KEY, ShardInfoData(sb), true),
      Write(BlockKey(sb.block.seqNo, sb.block.vertSeqNo), sb.serializedBlock, true),
      Write(FinalityKey(sb.rootHash), Serialize(c, sb), false),
      Write(FinalityKey(sb.rootHash), Serialize(c, sb), false),
      Write(BLOCKS_FINALITY_INFO_KEY, IndexData(sb, sb, entries), true) ]
  }
}
