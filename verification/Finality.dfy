/** The finality layer in the form of the node: an object over its storage, with two maps that it updates in place. */
module BlockFinalities {
  import opened Common
  import opened Bytes
  import opened ShardStorages
  import opened FinalitySpec
  import opened FinalityTheorems

  lemma {:induction false} EntriesAppend(entries: seq<Entry>, e: Entry)
    ensures EntriesData(entries + [e]) == EntriesData(entries) + EntryData(e.hash, e.seqNo)
  {
    hide EntryData;
    if entries == [] {
    } else {
      assert (entries + [e])[1..] == entries[1..] + [e];
      EntriesAppend(entries[1..], e);
    }
  }

  lemma StoredAppend(entries: seq<Entry>, e: Entry)
    ensures StoredByHash(entries + [e]) == StoredByHash(entries)[e.hash := Stored(e.seqNo, e.hash)]
    ensures StoredByNo(entries + [e]) == StoredByNo(entries)[e.seqNo := Stored(e.seqNo, e.hash)]
  {
    assert (entries + [e])[..|entries|] == entries;
  }

  lemma NothingEnumerated()
    ensures Enumerates([], map[])
  {
  }

  lemma EnumerateOneMore(entries: seq<Entry>, byHash: map<Hash, FinalityBlock>, rest: set<Hash>, h: Hash)
    requires h in rest && rest <= byHash.Keys && Enumerates(entries, byHash - rest)
    ensures Enumerates(entries + [Entry(h, SeqNoOf(byHash[h]))], byHash - (rest - {h}))
  {
    var e := Entry(h, SeqNoOf(byHash[h]));
    forall k | k in byHash - (rest - {h}) ensures Mentioned(entries + [e], k) {
      if k == h {
        assert e in entries + [e];
      } else {
        assert Mentioned(entries, k);
        var x :| x in entries && x.hash == k;
        assert x in entries + [e];
      }
    }
  }

  /** Finalizing a block that has just been made current takes it out of both maps again. */
  lemma FinalizeNew(c: Codec, f: Finality, store: Store, sb: ShardBlock)
    ensures
      var added := f.(current := sb, byHash := f.byHash[sb.rootHash := Loaded(sb)],
                      byNo := f.byNo[sb.seqNo := Loaded(sb)]);
      var o := FinalizeBlocks(c, added, store, sb.rootHash);
      if c.stateHash(sb.block) == ZERO_HASH then o.end == Panics && o.writes == []
      else o == FinalizeOutcome(AfterPut(f, sb), FinalizeWrites(c, sb), Succeeds)
  {
    hide FinalizeWrites;
    assert f.byHash[sb.rootHash := Loaded(sb)] - {sb.rootHash} == f.byHash - {sb.rootHash};
    assert f.byNo[sb.seqNo := Loaded(sb)] - {sb.seqNo} == f.byNo - {sb.seqNo};
  }

  lemma MadeOfBlock(c: Codec, block: Block, state: ShardState, traces: seq<nat>)
    ensures WithBlockAndState(c, block, state, traces).block == block
  {
  }

  lemma AfterPutIsCurrent(f: Finality, sb: ShardBlock)
    ensures var f' := AfterPut(f, sb);
      f'.current == sb && f'.last == sb && (f.byHash == map[] ==> f'.byHash == map[])
  {
  }

  lemma PutIsFinalizeThenSave(c: Codec, sb: ShardBlock, f: Finality, entries: seq<Entry>)
    requires f.current == sb && f.last == sb
    ensures PutWrites(c, sb, entries) == FinalizeWrites(c, sb) + SaveWrites(c, f, entries)
  {
    hide FinalityKey, BlockKey, Serialize, ShardInfoData, IndexData;
  }

  lemma EmptyMapHasNoEntries(entries: seq<Entry>)
    requires Enumerates(entries, map[])
    ensures entries == []
  {
    if entries != [] {
      HasFirst(entries);
    }
  }

  /** So a put on empty maps, which has no entries to write, is a step of the machine of module FinalityTheorems. */
  lemma PutIsAStep(c: Codec, f: Finality, store: Store, block: Block, state: ShardState, traces: seq<nat>)
    ensures var sb := WithBlockAndState(c, block, state, traces);
      FinalityTheorems.Step(c, Node(f, store), Put(block, state, traces))
        == Node(AfterPut(f, sb), AllApplied(store, PutWrites(c, sb, [])))
  {
    hide PutWrites, AllApplied, WithBlockAndState;
    var ws := PutWrites(c, WithBlockAndState(c, block, state, traces), []);
    assert ws[..6] == ws;
  }

  lemma NoWrites(store: Store)
    ensures AllApplied(store, []) == store
  {
  }

  lemma ShorterAfterEntry(d: Data)
    ensures ReadEntry(d).Got? ==> |ReadEntry(d).rest| < |d|
  {
  }

  class BlockFinality {
    const codec: Codec
    const globalId: int
    const storage: ShardStorage
    var currentBlock: ShardBlock
    var lastFinalizedBlock: ShardBlock
    var blocksByHash: map<Hash, FinalityBlock>
    var blocksByNo: map<nat, FinalityBlock>

    ghost function View(): Finality
      reads this
    {
      Finality(globalId, currentBlock, lastFinalizedBlock, blocksByHash, blocksByNo)
    }

    constructor WithParams(codec: Codec, globalId: int, storage: ShardStorage)
      ensures View() == Fresh(globalId) && this.codec == codec && this.storage == storage
    {
      this.codec, this.globalId, this.storage := codec, globalId, storage;
      currentBlock, lastFinalizedBlock := NewShardBlock(globalId), NewShardBlock(globalId);
      blocksByHash, blocksByNo := map[], map[];
    }

    method ReadOneFromKey(hash: Hash) returns (sb: Option<ShardBlock>)
      ensures sb == if FinalityKey(hash) !in storage.entries then None
                    else Deserialize(codec, storage.entries[FinalityKey(hash)])
    {
      if FinalityKey(hash) !in storage.entries {
        return None;
      }
      return Deserialize(codec, storage.entries[FinalityKey(hash)]);
    }

    method StoredToLoaded(b: FinalityBlock) returns (sb: Option<ShardBlock>)
      ensures sb == LoadedFrom(codec, storage.entries, b)
    {
      match b
      case Loaded(l) => return Some(l);
      case Stored(_, hash) => sb := ReadOneFromKey(hash);
    }

    /** Stores the state, the shard info and the block. */
    method SaveFinalized(sb: ShardBlock) returns (ghost writes: seq<Write>)
      modifies storage
      ensures writes == FinalizeWrites(codec, sb)
      ensures storage.entries == AllApplied(old(storage.entries), writes)
      ensures storage.journal == old(storage.journal) + writes
    {
      hide ShardInfoData, BlockKey;
      ghost var store := storage.entries;
      writes := FinalizeWrites(codec, sb);
      AppliedAppend(store, [], writes[0]);
      AppliedAppend(store, writes[..1], writes[1]);
      AppliedAppend(store, writes[..2], writes[2]);
      storage.Set(SHARD_STATE_BLOCK_KEY, codec.encodeState(sb.state), true);
      storage.Set(SHARD_INFO_KEY, ShardInfoData(sb), true);
      storage.Set(BlockKey(sb.block.seqNo, sb.block.vertSeqNo), sb.serializedBlock, true);
    }

    method FinalityBlocks(root: Hash) returns (end: FinalizeEnd, ghost writes: seq<Write>)
      modifies this, storage
      ensures FinalizeBlocks(codec, old(View()), old(storage.entries), root) == FinalizeOutcome(View(), writes, end)
      ensures storage.entries == AllApplied(old(storage.entries), writes)
      ensures storage.journal == old(storage.journal) + writes
    {
      hide AllApplied, FinalizeWrites;
      writes := [];
      NoWrites(storage.entries);
      if root in blocksByHash {
        var found := blocksByHash[root];
        blocksByHash := blocksByHash - {root};
        var loaded := StoredToLoaded(found);
        if loaded.None? {
          return Fails, [];
        }
        var sb := loaded.value;
        if codec.stateHash(sb.block) == ZERO_HASH {
          return Panics, [];
        }
        writes := SaveFinalized(sb);
        if sb.seqNo !in blocksByNo {
          return Panics, writes;
        }
        blocksByNo := blocksByNo - {sb.seqNo};
        lastFinalizedBlock := sb;
      } else if root != ZERO_HASH && root != lastFinalizedBlock.rootHash {
        return Fails, [];
      }
      end := Succeeds;
    }

    /** The index: the current block, the last finalized one, and the hash map in whatever order it is walked. */
    method SerializeIndex() returns (data: Data, ghost entries: seq<Entry>)
      ensures Enumerates(entries, blocksByHash)
      ensures data == IndexData(currentBlock, lastFinalizedBlock, entries)
    {
      hide EntryData, Enumerates;
      assert blocksByHash - blocksByHash.Keys == map[];
      NothingEnumerated();
      var head := EntryData(currentBlock.rootHash, currentBlock.seqNo)
                + EntryData(lastFinalizedBlock.rootHash, lastFinalizedBlock.seqNo);
      var tail: Data := [];
      entries := [];
      var rest := blocksByHash.Keys;
      while rest != {}
        invariant rest <= blocksByHash.Keys
        invariant tail == EntriesData(entries)
        invariant Enumerates(entries, blocksByHash - rest)
        decreases rest
      {
        var h :| h in rest;
        var e := Entry(h, SeqNoOf(blocksByHash[h]));
        EntriesAppend(entries, e);
        tail := tail + EntryData(h, e.seqNo);
        EnumerateOneMore(entries, blocksByHash, rest, h);
        entries := entries + [e];
        rest := rest - {h};
      }
      assert blocksByHash - rest == blocksByHash;
      data := head + tail;
    }

    method SaveFinality() returns (ghost writes: seq<Write>, ghost entries: seq<Entry>)
      modifies storage
      ensures Enumerates(entries, blocksByHash)
      ensures writes == SaveWrites(codec, View(), entries)
      ensures storage.entries == AllApplied(old(storage.entries), writes)
      ensures storage.journal == old(storage.journal) + writes
    {
      hide FinalityKey, Serialize, IndexData;
      ghost var store := storage.entries;
      var data;
      data, entries := SerializeIndex();
      writes := SaveWrites(codec, View(), entries);
      AppliedAppend(store, [], writes[0]);
      AppliedAppend(store, writes[..1], writes[1]);
      AppliedAppend(store, writes[..2], writes[2]);
      storage.Set(FinalityKey(currentBlock.rootHash), Serialize(codec, currentBlock), false);
      storage.Set(FinalityKey(lastFinalizedBlock.rootHash), Serialize(codec, lastFinalizedBlock), false);
      storage.Set(BLOCKS_FINALITY_INFO_KEY, data, true);
    }

    /** A put: the block becomes current, is finalized at once, and the layer is saved. It ends in a panic exactly when
        the block has no state hash, and then nothing has been written. */
    method PutBlockWithInfo(block: Block, state: ShardState, traces: seq<nat>)
      returns (end: FinalizeEnd, ghost writes: seq<Write>, ghost entries: seq<Entry>)
      modifies this, storage
      ensures end == if codec.stateHash(block) == ZERO_HASH then Panics else Succeeds
      ensures var sb := WithBlockAndState(codec, block, state, traces);
        if end.Panics? then writes == [] else
          && View() == AfterPut(old(View()), sb)
          && Enumerates(entries, blocksByHash) && writes == PutWrites(codec, sb, entries)
      ensures end.Succeeds? && old(blocksByHash) == map[] ==> entries == []
      ensures storage.entries == AllApplied(old(storage.entries), writes)
      ensures storage.journal == old(storage.journal) + writes
    {
      hide Enumerates, WithBlockAndState, AllApplied, PutWrites, SaveWrites, FinalizeWrites, FinalizeBlocks, AfterPut;
      var sb := WithBlockAndState(codec, block, state, traces);
      MadeOfBlock(codec, block, state, traces);
      FinalizeNew(codec, View(), storage.entries, sb);
      AfterPutIsCurrent(View(), sb);
      currentBlock := sb;
      blocksByHash := blocksByHash[sb.rootHash := Loaded(sb)];
      blocksByNo := blocksByNo[sb.seqNo := Loaded(sb)];
      entries := [];
      end, writes := FinalityBlocks(sb.rootHash);
      if end.Panics? {
        return;
      }
      ghost var saved;
      saved, entries := SaveFinality();
      AppliedConcat(old(storage.entries), writes, saved);
      PutIsFinalizeThenSave(codec, sb, View(), entries);
      writes := writes + saved;
      if old(blocksByHash) == map[] {
        EmptyMapHasNoEntries(entries);
      }
    }

    method ReadOne(d: Data, blockGlobalId: int) returns (sb: Option<ShardBlock>, rest: Data)
      ensures var e := ReadEntry(d);
        && sb == (if e.Eof? then None else FetchBlock(codec, storage.entries, blockGlobalId, e.value))
        && rest == (if e.Eof? then d else e.rest)
    {
      var e := ReadEntry(d);
      if e.Eof? {
        return None, d;
      }
      rest := e.rest;
      if e.value.seqNo == 0 {
        sb := Some(NewShardBlock(blockGlobalId));
      } else {
        sb := ReadOneFromKey(e.value.hash);
      }
    }

    /** Fills both maps with the stored blocks named in the rest of an index. */
    method ReadStored(d: Data)
      requires blocksByHash == map[] && blocksByNo == map[]
      modifies this`blocksByHash, this`blocksByNo
      ensures blocksByHash == StoredByHash(ReadEntries(d)) && blocksByNo == StoredByNo(ReadEntries(d))
    {
      hide ReadEntry;
      ghost var seen: seq<Entry> := [];
      ghost var all := ReadEntries(d);
      var rest := d;
      while true
        invariant all == seen + ReadEntries(rest)
        invariant blocksByHash == StoredByHash(seen) && blocksByNo == StoredByNo(seen)
        decreases |rest|
      {
        var e := ReadEntry(rest);
        ShorterAfterEntry(rest);
        if e.Eof? {
          assert all == seen;
          break;
        }
        StoredAppend(seen, e.value);
        blocksByHash := blocksByHash[e.value.hash := Stored(e.value.seqNo, e.value.hash)];
        blocksByNo := blocksByNo[e.value.seqNo := Stored(e.value.seqNo, e.value.hash)];
        seen := seen + [e.value];
        rest := e.rest;
      }
    }

    /** Reads an index; a torn entry at its end is the end of the list. */
    method DeserializeIndex(data: Data) returns (ok: bool)
      requires View() == Fresh(globalId)
      modifies this
      ensures var read := ReadIndex(codec, storage.entries, globalId, data);
        ok == read.Some? && (ok ==> View() == read.value)
    {
      hide ReadEntry, ReadEntries, FetchBlock, StoredByHash, StoredByNo;
      var current, rest := ReadOne(data, currentBlock.block.globalId);
      if current.None? {
        return false;
      }
      currentBlock := current.value;
      var last, tail := ReadOne(rest, currentBlock.block.globalId);
      if last.None? {
        return false;
      }
      lastFinalizedBlock := last.value;
      ReadStored(tail);
      ok := true;
    }

    /** Called once, on a layer that has just been made. */
    method Load() returns (ok: bool, fromIndex: bool)
      requires View() == Fresh(globalId)
      modifies this
      ensures var loaded := FinalitySpec.Load(codec, globalId, storage.entries);
        && ok == loaded.Some?
        && (ok ==> View() == loaded.value && fromIndex == (BLOCKS_FINALITY_INFO_KEY in storage.entries))
      ensures BLOCKS_FINALITY_INFO_KEY !in storage.entries && ZEROSTATE_KEY in storage.entries ==>
        match codec.readState(storage.entries[ZEROSTATE_KEY])
        case Eof => !ok
        case Got(z, _) => ok && currentBlock.state == lastFinalizedBlock.state == z.(globalId := globalId)
    {
      hide ReadIndex;
      fromIndex := BLOCKS_FINALITY_INFO_KEY in storage.entries;
      if fromIndex {
        ok := DeserializeIndex(storage.entries[BLOCKS_FINALITY_INFO_KEY]);
      } else {
        ok := true;
        if ZEROSTATE_KEY in storage.entries {
          var zerostate := codec.readState(storage.entries[ZEROSTATE_KEY]);
          if zerostate.Eof? {
            return false, false;
          }
          var state := zerostate.value.(globalId := currentBlock.block.globalId);
          currentBlock := currentBlock.(state := state);
          lastFinalizedBlock := lastFinalizedBlock.(state := state);
        }
      }
    }
  }
}
