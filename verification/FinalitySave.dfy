/** Saving and loading a layer whose maps need not be empty, and the bytes and names in which things are kept. */
module FinalitySaves {
  import opened Common
  import opened Bytes
  import opened ShardStorages
  import opened FinalitySpec
  import opened FinalityTheorems

  // ---- the maps ----

  lemma {:induction false} StoredByHashIs(entries: seq<Entry>, byHash: map<Hash, FinalityBlock>)
    requires Enumerates(entries, byHash)
    ensures StoredByHash(entries) == map h | h in byHash :: Stored(SeqNoOf(byHash[h]), h)
    decreases |entries|
  {
    if entries == [] {
      assert byHash.Keys == {};
    } else {
      var front, last := entries[..|entries| - 1], entries[|entries| - 1];
      EnumerateFront(entries, byHash);
      StoredByHashIs(front, byHash - {last.hash});
    }
  }

  lemma EnumerateFront(entries: seq<Entry>, byHash: map<Hash, FinalityBlock>)
    requires entries != [] && Enumerates(entries, byHash)
    ensures var front, last := entries[..|entries| - 1], entries[|entries| - 1];
      last.hash in byHash && last.seqNo == SeqNoOf(byHash[last.hash]) && Enumerates(front, byHash - {last.hash})
  {
    var front, last := entries[..|entries| - 1], entries[|entries| - 1];
    assert last in entries;
    forall h | h in byHash - {last.hash} ensures Mentioned(front, h) {
      assert Mentioned(entries, h);
      var e :| e in entries && e.hash == h;
      assert e in front;
    }
    forall e | e in front ensures e.hash in byHash - {last.hash} {
      var i :| 0 <= i < |front| && front[i] == e;
      assert entries[i].hash != entries[|entries| - 1].hash && e in entries;
    }
  }

  /** Some entry has the number, and the map by number names one of those that have it. */
  ghost predicate NamesOne(entries: seq<Entry>, byNo: map<nat, FinalityBlock>, n: nat) {
    && (n in byNo <==> exists h :: Entry(h, n) in entries)
    && (n in byNo ==> byNo[n].Stored? && byNo[n].seqNo == n && Entry(byNo[n].rootHash, n) in entries)
  }

  lemma {:induction false} StoredByNoIs(entries: seq<Entry>, n: nat)
    ensures NamesOne(entries, StoredByNo(entries), n)
    decreases |entries|
  {
    if entries == [] {
    } else {
      var front, last := entries[..|entries| - 1], entries[|entries| - 1];
      StoredByNoIs(front, n);
      assert entries == front + [last];
      assert last == Entry(last.hash, last.seqNo);
    }
  }

  // ---- saving and loading ----

  /** A block that is read again as it was, without its traces: a new one is not read at all. */
  ghost predicate Savable(c: Codec, sb: ShardBlock, store: Store, globalId: int) {
    if sb.seqNo == 0 then Untraced(sb) == NewShardBlock(globalId) else Storable(c, sb, store)
  }

  /** The encoding of the block is under its hash. */
  ghost predicate IsStored(c: Codec, sb: ShardBlock, store: Store) {
    FinalityKey(sb.rootHash) in store && store[FinalityKey(sb.rootHash)] == Serialize(c, sb)
  }

  lemma SavedStore(c: Codec, f: Finality, store: Store, entries: seq<Entry>)
    ensures var store' := AllApplied(store, SaveWrites(c, f, entries));
      var one := Applied(store, Write(FinalityKey(f.current.rootHash), Serialize(c, f.current), false));
      var two := Applied(one, Write(FinalityKey(f.last.rootHash), Serialize(c, f.last), false));
      store' == Applied(two, Write(BLOCKS_FINALITY_INFO_KEY, IndexData(f.current, f.last, entries), true))
  {
    hide FinalityKey, Serialize, IndexData;
    var ws := SaveWrites(c, f, entries);
    assert ws[..0] == [] && ws[..1] == [ws[0]] && ws[..2] == ws[..1] + [ws[1]] && ws == ws[..2] + [ws[2]];
    AppliedAppend(store, [], ws[0]);
    AppliedAppend(store, ws[..1], ws[1]);
    AppliedAppend(store, ws[..2], ws[2]);
  }

  lemma IndexIsNoBlock(hash: Hash)
    ensures FinalityKey(hash) != BLOCKS_FINALITY_INFO_KEY
  {
    FamiliesAreDisjoint(hash, 0, 0);
  }

  lemma ThreeWrites(store: Store, u: Write, v: Write, w: Write)
    requires u.key != w.key && v.key != w.key && w.overwrite && (u.key == v.key ==> u.data == v.data)
    ensures var store' := Applied(Applied(Applied(store, u), v), w);
      && w.key in store' && store'[w.key] == w.data
      && (u.key !in store || store[u.key] == u.data ==> u.key in store' && store'[u.key] == u.data)
      && (v.key !in store || store[v.key] == v.data ==> v.key in store' && store'[v.key] == v.data)
  {
  }

  lemma SavedEntries(c: Codec, f: Finality, store: Store, entries: seq<Entry>, globalId: int)
    requires Savable(c, f.current, store, f.globalId) && Savable(c, f.last, store, globalId)
    requires f.current.rootHash == f.last.rootHash ==> Untraced(f.current) == Untraced(f.last)
    ensures var store' := AllApplied(store, SaveWrites(c, f, entries));
      && BLOCKS_FINALITY_INFO_KEY in store'
      && store'[BLOCKS_FINALITY_INFO_KEY] == IndexData(f.current, f.last, entries)
      && (f.current.seqNo > 0 ==> IsStored(c, f.current, store')) && (f.last.seqNo > 0 ==> IsStored(c, f.last, store'))
  {
    hide FinalityKey, Serialize, IndexData, Pow256, Applied, AllApplied, SaveWrites;
    SavedStore(c, f, store, entries);
    IndexIsNoBlock(f.current.rootHash);
    IndexIsNoBlock(f.last.rootHash);
    SameNameSameData(c, f.current, f.last);
    ThreeWrites(store, Write(FinalityKey(f.current.rootHash), Serialize(c, f.current), false),
                Write(FinalityKey(f.last.rootHash), Serialize(c, f.last), false),
                Write(BLOCKS_FINALITY_INFO_KEY, IndexData(f.current, f.last, entries), true));
  }

  lemma SameNameSameData(c: Codec, a: ShardBlock, b: ShardBlock)
    requires a.rootHash == b.rootHash ==> Untraced(a) == Untraced(b)
    ensures FinalityKey(a.rootHash) == FinalityKey(b.rootHash) ==> Serialize(c, a) == Serialize(c, b)
  {
    hide FinalityKey, Serialize;
    if FinalityKey(a.rootHash) == FinalityKey(b.rootHash) {
      FinalityKeyIsInjective(a.rootHash, b.rootHash);
      SameEncoding(c, a, b);
    }
  }

  lemma SameEncoding(c: Codec, a: ShardBlock, b: ShardBlock)
    requires Untraced(a) == Untraced(b)
    ensures Serialize(c, a) == Serialize(c, b)
  {
    assert a == Untraced(a).(traces := a.traces) && b == Untraced(a).(traces := b.traces);
  }

  lemma SavedIsFetched(c: Codec, store: Store, globalId: int, sb: ShardBlock)
    requires Lawful(c) && Savable(c, sb, store, globalId)
    requires sb.seqNo > 0 ==> IsStored(c, sb, store)
    ensures FetchBlock(c, store, globalId, Entry(sb.rootHash, sb.seqNo)) == Some(Untraced(sb))
  {
    hide FinalityKey, Pow256, Deserialize, Serialize, Lawful;
    if sb.seqNo > 0 {
      RoundTripIff(c, sb);
    }
  }

  lemma IndexBack(current: ShardBlock, last: ShardBlock, entries: seq<Entry>)
    requires current.seqNo < Pow256(8) && last.seqNo < Pow256(8) && forall e | e in entries :: e.seqNo < Pow256(8)
    ensures var d := IndexData(current, last, entries);
      var cur := ReadEntry(d);
      && cur.Got? && cur.value == Entry(current.rootHash, current.seqNo)
      && ReadEntry(cur.rest) == Got(Entry(last.rootHash, last.seqNo), EntriesData(entries))
      && ReadEntries(EntriesData(entries)) == entries
  {
    hide Pow256, EntryData, ReadEntry, EntriesData, ReadEntries;
    ReadEntryBack(current.rootHash, current.seqNo, EntryData(last.rootHash, last.seqNo) + EntriesData(entries));
    ReadEntryBack(last.rootHash, last.seqNo, EntriesData(entries));
    EntriesRoundTrip(entries);
  }

  lemma NumbersAreShort(c: Codec, sb: ShardBlock, store: Store, globalId: int)
    requires Savable(c, sb, store, globalId)
    ensures sb.seqNo < Pow256(8)
  {
    hide Pow256, FinalityKey, Serialize;
  }

  lemma LoadOfIndex(c: Codec, f: Finality, store: Store, entries: seq<Entry>)
    requires f.current.seqNo < Pow256(8) && f.last.seqNo < Pow256(8) && forall e | e in entries :: e.seqNo < Pow256(8)
    requires BLOCKS_FINALITY_INFO_KEY in store
      && store[BLOCKS_FINALITY_INFO_KEY] == IndexData(f.current, f.last, entries)
    requires FetchBlock(c, store, f.globalId, Entry(f.current.rootHash, f.current.seqNo)) == Some(Untraced(f.current))
    requires FetchBlock(c, store, f.current.block.globalId, Entry(f.last.rootHash, f.last.seqNo))
      == Some(Untraced(f.last))
    ensures Load(c, f.globalId, store)
      == Some(Finality(f.globalId, Untraced(f.current), Untraced(f.last), StoredByHash(entries), StoredByNo(entries)))
  {
    IndexBack(f.current, f.last, entries);
    hide IndexData, ReadEntry, ReadEntries, EntriesData, FetchBlock, StoredByHash, StoredByNo, Pow256;
  }

  /** A layer that is saved and loaded comes back: both blocks up to their traces, and every block of the two maps as a
      reference to what is stored under its hash. */
  lemma SavedLayerLoads(c: Codec, f: Finality, store: Store, entries: seq<Entry>)
    requires Lawful(c) && Enumerates(entries, f.byHash) && forall e | e in entries :: e.seqNo < Pow256(8)
    requires Savable(c, f.current, store, f.globalId) && Savable(c, f.last, store, f.current.block.globalId)
    requires f.current.rootHash == f.last.rootHash ==> Untraced(f.current) == Untraced(f.last)
    ensures var loaded := Load(c, f.globalId, AllApplied(store, SaveWrites(c, f, entries)));
      && loaded.Some? && loaded.value.globalId == f.globalId
      && loaded.value.current == Untraced(f.current) && loaded.value.last == Untraced(f.last)
      && loaded.value.byHash == (map h | h in f.byHash :: Stored(SeqNoOf(f.byHash[h]), h))
      && forall n: nat :: NamesOne(entries, loaded.value.byNo, n)
  {
    hide Lawful, Enumerates, Savable, AllApplied, SaveWrites, IndexData, FetchBlock, Load, StoredByHash, StoredByNo,
      NamesOne, Pow256, Serialize, FinalityKey;
    var store' := AllApplied(store, SaveWrites(c, f, entries));
    SavedEntries(c, f, store, entries, f.current.block.globalId);
    NumbersAreShort(c, f.current, store, f.globalId);
    NumbersAreShort(c, f.last, store, f.current.block.globalId);
    StillSavable(c, f.current, store, store', f.globalId);
    StillSavable(c, f.last, store, store', f.current.block.globalId);
    SavedIsFetched(c, store', f.globalId, f.current);
    SavedIsFetched(c, store', f.current.block.globalId, f.last);
    LoadOfIndex(c, f, store', entries);
    StoredByHashIs(entries, f.byHash);
    forall n: nat ensures NamesOne(entries, StoredByNo(entries), n) {
      StoredByNoIs(entries, n);
    }
  }

  lemma StillSavable(c: Codec, sb: ShardBlock, store: Store, store': Store, globalId: int)
    requires Savable(c, sb, store, globalId)
    requires sb.seqNo > 0 ==> IsStored(c, sb, store')
    ensures Savable(c, sb, store', globalId)
  {
    hide Pow256, FinalityKey, Serialize;
  }

  // ---- bytes and digits in their places ----

  lemma DivideDigit(n: nat, q: nat)
    requires q > 0
    ensures n / (16 * q) == n / 16 / q
  {
    var a := n / 16;
    var b, t := a / q, a % q;
    var w := q * b;
    assert a == w + t && (16 * q) * b == 16 * w && (16 * q) * (b + 1) == 16 * w + 16 * q;
    QuotientIs(n, 16 * q, b);
  }

  /** Byte `i` has weight 256^i in the one order and 256^(width - 1 - i) in the other. */
  lemma {:induction false} LittleEndianByte(n: nat, width: nat, i: nat)
    requires i < width
    ensures LittleEndian(n, width)[i] == n / Pow256(i) % 256
    decreases width
  {
    if i > 0 {
      LittleEndianByte(n / 256, width - 1, i - 1);
      DivideByte(n, Pow256(i - 1));
    }
  }

  lemma {:induction false} BigEndianByte(n: nat, width: nat, i: nat)
    requires i < width
    ensures BigEndian(n, width)[i] == n / Pow256(width - 1 - i) % 256
    decreases width
  {
    if i < width - 1 {
      BigEndianByte(n / 256, width - 1, i);
      DivideByte(n, Pow256(width - 2 - i));
    }
  }

  lemma {:induction false} HexDigit(d: Data, i: nat)
    requires i < |d|
    ensures HexString(d)[2 * i] == LOWER_HEX[d[i] / 16]
    ensures HexString(d)[2 * i + 1] == LOWER_HEX[d[i] % 16]
  {
    if i > 0 {
      HexDigit(d[1..], i - 1);
    }
  }

  lemma DigitMoves(n: nat, k: nat)
    ensures n / 16 / Pow16(k) % 16 == n / Pow16(k + 1) % 16
  {
    DivideDigit(n, Pow16(k));
  }

  lemma {:induction false} UpperHexDigit(n: nat, digits: nat, i: nat)
    requires i < digits
    ensures UpperHex(n, digits)[i] == UPPER_HEX[n / Pow16(digits - 1 - i) % 16]
    decreases digits
  {
    if i == digits - 1 {
      assert Pow16(0) == 1;
    } else {
      UpperHexDigit(n / 16, digits - 1, i);
      DigitMoves(n, digits - 2 - i);
      hide Pow16;
    }
  }

  /** A shard block in the store: number, length, serialized block, root hash, file hash, state, block. */
  lemma ShardBlockLayout(c: Codec, sb: ShardBlock)
    ensures var d, n := Serialize(c, sb), |sb.serializedBlock|;
      var m := |c.encodeState(sb.state)|;
      && |d| == 76 + n + m + |c.encodeBlock(sb.block)|
      && d[..8] == LittleEndian(sb.seqNo, 8) && d[8..12] == LittleEndian(n, 4)
      && d[12..12 + n] == sb.serializedBlock
      && d[12 + n..44 + n] == sb.rootHash && d[44 + n..76 + n] == sb.fileHash
      && d[76 + n..76 + n + m] == c.encodeState(sb.state) && d[76 + n + m..] == c.encodeBlock(sb.block)
  {
    hide LittleEndian;
  }

  /** An entry of the index is a hash and a number; the current block comes first, then the last one. */
  lemma IndexLayout(current: ShardBlock, last: ShardBlock, entries: seq<Entry>)
    ensures var d := IndexData(current, last, entries);
      && |d| >= 80 && d[..32] == current.rootHash && d[32..40] == LittleEndian(current.seqNo, 8)
      && d[40..72] == last.rootHash && d[72..80] == LittleEndian(last.seqNo, 8) && d[80..] == EntriesData(entries)
  {
    hide LittleEndian, EntriesData;
  }

  /** The shard info: the number with the vertical number above it, the end time, and the root hash. */
  lemma ShardInfoLayout(sb: ShardBlock)
    ensures var d := ShardInfoData(sb);
      && |d| == 48 && d[..8] == BigEndian(sb.block.vertSeqNo * 0x1_0000_0000 + sb.block.seqNo, 8)
      && d[8..16] == BigEndian(sb.block.endLt, 8) && d[16..] == sb.rootHash
  {
    hide BigEndian;
  }
}
