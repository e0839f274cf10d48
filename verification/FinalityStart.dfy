/** Where a layer starts, and what saving and loading it means when its maps are not empty. */
module FinalityStarts {
  import opened Common
  import opened Bytes
  import opened ShardStorages
  import opened FinalitySpec
  import opened FinalityTheorems

  // ---- the zerostate ----

  /** The layer has not taken a put: its blocks are those of a new layer, and its state is the given one. */
  ghost predicate StartsWith(f: Finality, globalId: int, state: ShardState) {
    && f.globalId == globalId && f.byHash == map[] && f.byNo == map[]
    && f.current == f.last && f.current.state == state
    && f.current.seqNo == 0 && f.current.serializedBlock == [] && f.current.block == Block(globalId, 0, 0, 0, 0)
    && f.current.rootHash == ZERO_HASH && f.current.fileHash == ZERO_HASH && f.current.traces == []
  }

  /** The first load of a layer takes the zerostate under the layer's own global id, and without a zerostate an empty
      state; it fails exactly when there is a zerostate that cannot be read. */
  lemma FirstLoad(c: Codec, globalId: int, store: Store)
    requires BLOCKS_FINALITY_INFO_KEY !in store
    ensures var loaded := Load(c, globalId, store);
      if ZEROSTATE_KEY !in store then
        loaded.Some? && StartsWith(loaded.value, globalId, ShardState(globalId, 0, []))
      else match c.readState(store[ZEROSTATE_KEY])
        case Eof => loaded.None?
        case Got(z, _) => loaded.Some? && StartsWith(loaded.value, globalId, ShardState(globalId, z.seqNo, z.body))
  {
  }

  lemma ClearedStart(f: Finality, f': Finality, globalId: int, state: ShardState)
    requires StartsWith(f, globalId, state) && Cleared(f') == Cleared(f)
    ensures GetLastInfo(f') == LastInfo(state, 0, 0, ZERO_HASH, ZERO_HASH) && f'.last.state == state
  {
    assert Cleared(f').last.state == f'.last.state;
    SameInfo(f', f);
  }

  /** So a node with a zerostate builds its first block on the accounts, the queue and the number of the zerostate; and
      no restart and no put that was cut short makes it forget them before a put is completed. */
  lemma ZerostateIsTheStart(c: Codec, globalId: int, store: Store, z: ShardState, more: Data, ops: seq<Op>)
    requires Lawful(c) && BLOCKS_FINALITY_INFO_KEY !in store
    requires ZEROSTATE_KEY in store && store[ZEROSTATE_KEY] == c.encodeState(z) + more
    requires Identified(c, store, ops) && Completed(ops) == []
    ensures var loaded := Load(c, globalId, store);
      && loaded.Some?
      && var f, state := Run(c, Node(loaded.value, store), ops).f, ShardState(globalId, z.seqNo, z.body);
         && GetLastInfo(f) == LastInfo(state, 0, 0, ZERO_HASH, ZERO_HASH) && f.last.state == state
         && NextSeqNo(f) == z.seqNo + 1
  {
    assert StateReadsBack(c, z, more);
    FirstLoad(c, globalId, store);
    FreshLayerPersists(c, globalId, store);
    var first := Load(c, globalId, store).value;
    hide Load, Lawful, Persisted, Identified, StartsWith, Step;
    RestartTransparency(c, Node(first, store), ops);
    assert Run(c, Node(first, store), []) == Node(first, store);
    ClearedStart(first, Run(c, Node(first, store), ops).f, globalId, ShardState(globalId, z.seqNo, z.body));
  }

  lemma {:induction false} CompletedArePuts(ops: seq<Op>)
    ensures forall op | op in Completed(ops) :: op.Put?
  {
    if ops == [] {
    } else {
      CompletedArePuts(ops[..|ops| - 1]);
    }
  }

  /** Once puts have been completed, the next block is built on the last of them: on its state, with its number, times
      and hashes as the previous block, whatever restarts and crashes there were. */
  lemma NextBlockIsBuiltOnLastPut(c: Codec, n: Node, ops: seq<Op>)
    requires Lawful(c) && Persisted(c, n.f, n.store) && Identified(c, n.store, ops) && Completed(ops) != []
    ensures var f, put := Run(c, n, ops).f, Completed(ops)[|Completed(ops)| - 1];
      && put.Put? && NextSeqNo(f) == put.state.seqNo + 1
      && GetLastInfo(f) == LastInfo(put.state, put.block.endLt, put.block.seqNo, c.rootHash(put.block),
                                    c.fileHash(c.encodeBlock(put.block)))
  {
    CompletedArePuts(ops);
    hide Lawful, Persisted, Identified, PutWrites, AllApplied, Completed;
    RestartTransparency(c, n, ops);
  }

  // ---- what a put leaves behind besides the layer ----

  predicate OwnName(key: string, hash: Hash, seqNo: nat, vertSeqNo: nat) {
    key != BlockKey(seqNo, vertSeqNo) && key != FinalityKey(hash) && key != BLOCKS_FINALITY_INFO_KEY
  }

  lemma StateAndInfoNames(hash: Hash, seqNo: nat, vertSeqNo: nat)
    ensures SHARD_STATE_BLOCK_KEY != SHARD_INFO_KEY
    ensures OwnName(SHARD_STATE_BLOCK_KEY, hash, seqNo, vertSeqNo) && OwnName(SHARD_INFO_KEY, hash, seqNo, vertSeqNo)
  {
    hide HexString, UpperHex;
    assert SHARD_INFO_KEY[5] != SHARD_STATE_BLOCK_KEY[5];
    assert SHARD_INFO_KEY[0] == 's' && SHARD_STATE_BLOCK_KEY[0] == 's' && BLOCKS_FINALITY_INFO_KEY[0] == 'b';
    assert FinalityKey(hash)[0] == 'b' && BlockKey(seqNo, vertSeqNo)[0] == 'b';
  }

  lemma WrittenFirst(c: Codec, sb: ShardBlock, key: string, i: nat)
    requires i < 6 && key in {SHARD_STATE_BLOCK_KEY, SHARD_INFO_KEY} && SHARD_STATE_BLOCK_KEY != SHARD_INFO_KEY
    requires OwnName(key, sb.rootHash, sb.block.seqNo, sb.block.vertSeqNo)
    ensures PutWrites(c, sb, [])[i].key == key <==> i == if key == SHARD_STATE_BLOCK_KEY then 0 else 1
  {
    hide FinalityKey, BlockKey, Serialize, ShardInfoData, IndexData;
  }

  lemma FirstData(c: Codec, sb: ShardBlock)
    ensures var ws := PutWrites(c, sb, []);
      && ws[0].data == c.encodeState(sb.state) && ws[0].overwrite && ws[1].data == ShardInfoData(sb) && ws[1].overwrite
  {
    hide FinalityKey, BlockKey, Serialize, ShardInfoData, IndexData;
  }

  lemma FirstWrites(c: Codec, sb: ShardBlock, i: nat)
    requires i < 6
    ensures var w := PutWrites(c, sb, [])[i];
      && (w.key == SHARD_STATE_BLOCK_KEY <==> i == 0) && (w.key == SHARD_INFO_KEY <==> i == 1)
      && (i == 0 ==> w.data == c.encodeState(sb.state)) && (i == 1 ==> w.data == ShardInfoData(sb))
      && (i <= 1 ==> w.overwrite)
  {
    hide PutWrites, OwnName, ShardInfoData;
    StateAndInfoNames(sb.rootHash, sb.block.seqNo, sb.block.vertSeqNo);
    WrittenFirst(c, sb, SHARD_STATE_BLOCK_KEY, i);
    WrittenFirst(c, sb, SHARD_INFO_KEY, i);
    FirstData(c, sb);
  }

  predicate HasEntry(store: Store, key: string, data: Data) { key in store && store[key] == data }

  predicate KeepsEntry(store: Store, store': Store, key: string) { key in store ==> HasEntry(store', key, store[key]) }

  /** One write of a row goes to a key: from that write on the entry is its data, and before it is what it was. */
  lemma {:induction false} EntryInPrefix(store: Store, ws: seq<Write>, k: nat, i: nat)
    requires k <= |ws| && i < |ws| && ws[i].overwrite
    requires forall j | 0 <= j < |ws| && j != i :: ws[j].key != ws[i].key
    ensures var store' := AllApplied(store, ws[..k]);
      if k > i then HasEntry(store', ws[i].key, ws[i].data) else KeepsEntry(store, store', ws[i].key)
    decreases k
  {
    if k == 0 {
      assert ws[..0] == [];
    } else {
      EntryInPrefix(store, ws, k - 1, i);
      assert ws[..k] == ws[..k - 1] + [ws[k - 1]];
      AppliedAppend(store, ws[..k - 1], ws[k - 1]);
      hide AllApplied;
    }
  }

  lemma FirstEntries(c: Codec, store: Store, sb: ShardBlock, k: nat)
    requires k <= 6
    ensures var store' := AllApplied(store, PutWrites(c, sb, [])[..k]);
      && (if k > 0 then HasEntry(store', SHARD_STATE_BLOCK_KEY, c.encodeState(sb.state))
          else KeepsEntry(store, store', SHARD_STATE_BLOCK_KEY))
      && (if k > 1 then HasEntry(store', SHARD_INFO_KEY, ShardInfoData(sb))
          else KeepsEntry(store, store', SHARD_INFO_KEY))
  {
    hide PutWrites, ShardInfoData, AllApplied, HasEntry, KeepsEntry;
    var ws := PutWrites(c, sb, []);
    FirstWrites(c, sb, 0);
    FirstWrites(c, sb, 1);
    forall j | 0 <= j < |ws| ensures (j != 0 ==> ws[j].key != ws[0].key) && (j != 1 ==> ws[j].key != ws[1].key) {
      FirstWrites(c, sb, j);
    }
    EntryInPrefix(store, ws, k, 0);
    EntryInPrefix(store, ws, k, 1);
  }

  /** How many writes the operation makes. */
  function Made(op: Op): nat { if op.Restart? then 0 else Done(op) }

  /** The saved state is that of the newest put that has made its first write, completed or not; the shard info is that
      of the newest one that has made its second. */
  lemma {:induction false} SavedStateIsNewest(c: Codec, n: Node, ops: seq<Op>, i: nat)
    requires i < |ops| && Made(ops[i]) > 0
    ensures (forall j | i < j < |ops| :: Made(ops[j]) == 0) ==>
      HasEntry(Run(c, n, ops).store, SHARD_STATE_BLOCK_KEY, c.encodeState(ops[i].state))
    ensures Made(ops[i]) > 1 && (forall j | i < j < |ops| :: Made(ops[j]) <= 1) ==>
      HasEntry(Run(c, n, ops).store, SHARD_INFO_KEY, ShardInfoData(MadeBy(c, ops[i])))
    decreases |ops|
  {
    hide PutWrites, AllApplied, ShardInfoData, Reloaded;
    var front, last := ops[..|ops| - 1], ops[|ops| - 1];
    if i < |front| {
      SavedStateIsNewest(c, n, front, i);
      assert forall j | i < j < |front| :: front[j] == ops[j];
    }
    if last.Restart? {
      RestartKeepsStore(c, Run(c, n, front));
    } else {
      FirstEntries(c, Run(c, n, front).store, MadeBy(c, last), Done(last));
    }
  }

  // ---- finalizing twice ----

  /** A hash is finalized once: finalizing it again succeeds and changes nothing. A hash that is neither known, nor
      zero, nor the one finalized last is an error and changes nothing; one that could not be read back is forgotten. */
  lemma FinalizedOnce(c: Codec, f: Finality, store: Store, root: Hash)
    requires root in f.byHash ==>
      var found := LoadedFrom(c, store, f.byHash[root]); found.Some? ==> found.value.rootHash == root
    ensures var o := FinalizeBlocks(c, f, store, root);
      && (o.end.Succeeds? ==>
            FinalizeBlocks(c, o.f, AllApplied(store, o.writes), root) == FinalizeOutcome(o.f, [], Succeeds))
      && (root !in f.byHash ==>
            && o.f == f && o.writes == []
            && (o.end.Succeeds? <==> root == ZERO_HASH || root == f.last.rootHash) && !o.end.Panics?)
      && (o.end.Fails? ==> o.writes == [] && o.f == f.(byHash := f.byHash - {root}))
      && (o.end.Fails? && root in f.byHash && root != ZERO_HASH && root != f.last.rootHash ==>
            FinalizeBlocks(c, o.f, store, root) == FinalizeOutcome(o.f, [], Fails))
  {
    hide FinalizeWrites, AllApplied, Deserialize;
    assert root !in f.byHash ==> f.byHash - {root} == f.byHash;
  }
}
