/** The key-value store of a shard and the names under which the node keeps its data. */
module ShardStorages {
  import opened Bytes

  /** 32 bytes. */
  type Hash = h: Data | |h| == 32 witness Zeros(32)

  const ZERO_HASH: Hash := Zeros(32)

  const BLOCKS_FINALITY_INFO_KEY: string := "blocks_finality.info"
  const SHARD_INFO_KEY: string := "shard.info"
  const SHARD_STATE_BLOCK_KEY: string := "shard_state.block"
  const ZEROSTATE_KEY: string := "zerostate"
  const BLOCK_PREFIX: string := "blocks/block_"
  const FINALITY_PREFIX: string := "block_finality/"

  function BlockKey(seqNo: nat, vertSeqNo: nat): string {
    BLOCK_PREFIX + UpperHex(seqNo, 8) + "_" + UpperHex(vertSeqNo, 8) + ".block"
  }

  function FinalityKey(hash: Hash): string { FINALITY_PREFIX + HexString(hash) }

  lemma FinalityKeyIsInjective(a: Hash, b: Hash)
    requires FinalityKey(a) == FinalityKey(b)
    ensures a == b
  {
    assert FinalityKey(a)[|FINALITY_PREFIX|..] == HexString(a);
    assert FinalityKey(b)[|FINALITY_PREFIX|..] == HexString(b);
    HexIsInjective(a, b);
  }

  lemma BlockKeyIsInjective(s: nat, v: nat, s': nat, v': nat)
    requires s < Pow16(8) && v < Pow16(8) && s' < Pow16(8) && v' < Pow16(8)
    requires BlockKey(s, v) == BlockKey(s', v')
    ensures s == s' && v == v'
  {
    hide Pow16, UpperHex;
    assert BlockKey(s, v)[13..21] == UpperHex(s, 8) && BlockKey(s', v')[13..21] == UpperHex(s', 8);
    assert BlockKey(s, v)[22..30] == UpperHex(v, 8) && BlockKey(s', v')[22..30] == UpperHex(v', 8);
    UpperHexIsInjective(s, s', 8);
    UpperHexIsInjective(v, v', 8);
  }

  /** The key families are disjoint. */
  lemma FamiliesAreDisjoint(hash: Hash, seqNo: nat, vertSeqNo: nat)
    ensures FinalityKey(hash) !in
      {BLOCKS_FINALITY_INFO_KEY, SHARD_INFO_KEY, SHARD_STATE_BLOCK_KEY, ZEROSTATE_KEY, BlockKey(seqNo, vertSeqNo)}
    ensures BlockKey(seqNo, vertSeqNo) !in
      {BLOCKS_FINALITY_INFO_KEY, SHARD_INFO_KEY, SHARD_STATE_BLOCK_KEY, ZEROSTATE_KEY}
    ensures |{BLOCKS_FINALITY_INFO_KEY, SHARD_INFO_KEY, SHARD_STATE_BLOCK_KEY, ZEROSTATE_KEY}| == 4
  {
    hide HexString, UpperHex;
    var f, b := FinalityKey(hash), BlockKey(seqNo, vertSeqNo);
    assert f[5] == '_' && f[6] == 'f' && f[0] == 'b';
    assert b[5] == 's' && b[6] == '/' && b[0] == 'b';
    assert BLOCKS_FINALITY_INFO_KEY[5] == 's' && BLOCKS_FINALITY_INFO_KEY[6] == '_';
    assert SHARD_INFO_KEY[0] == 's' && SHARD_STATE_BLOCK_KEY[0] == 's' && ZEROSTATE_KEY[0] == 'z';
    assert SHARD_INFO_KEY[5] == '.' && SHARD_STATE_BLOCK_KEY[5] == '_';
  }

  type Store = map<string, Data>

  datatype Write = Write(key: string, data: Data, overwrite: bool)

  /** `set`: without `overwrite` an existing entry is left as it is. */
  function Applied(store: Store, w: Write): Store {
    if w.key in store && !w.overwrite then store else store[w.key := w.data]
  }

  function AllApplied(store: Store, ws: seq<Write>): Store {
    if ws == [] then store else Applied(AllApplied(store, ws[..|ws| - 1]), ws[|ws| - 1])
  }

  lemma AppliedAppend(store: Store, ws: seq<Write>, w: Write)
    ensures AllApplied(store, ws + [w]) == Applied(AllApplied(store, ws), w)
  {
    assert (ws + [w])[..|ws|] == ws;
  }

  lemma {:induction false} AppliedConcat(store: Store, a: seq<Write>, b: seq<Write>)
    ensures AllApplied(store, a + b) == AllApplied(AllApplied(store, a), b)
    decreases |b|
  {
    if b == [] {
      assert a + b == a;
    } else {
      var front, last := b[..|b| - 1], b[|b| - 1];
      AppliedConcat(store, a, front);
      AppliedAppend(store, a + front, last);
      assert a + b == (a + front) + [last];
    }
  }

  class ShardStorage {
    var entries: Store
    ghost var journal: seq<Write>

    constructor ()
      ensures entries == map[] && journal == []
    {
      entries, journal := map[], [];
    }

    method Set(key: string, data: Data, overwrite: bool)
      modifies this
      ensures entries == Applied(old(entries), Write(key, data, overwrite))
      ensures journal == old(journal) + [Write(key, data, overwrite)]
    {
      if key in entries {
        if overwrite {
          entries := entries[key := data];
        }
      } else {
        entries := entries[key := data];
      }
      journal := journal + [Write(key, data, overwrite)];
    }
  }
}
