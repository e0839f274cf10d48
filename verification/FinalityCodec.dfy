/** A lawful codec, and a shard block that is too long for its own encoding. */
module FinalityCodecs {
  import opened Common
  import opened Bytes
  import opened ShardStorages
  import opened FinalitySpec

  /** A number as that many ones and a zero: the plainest self-delimiting code. */
  function Unary(n: nat): (d: Data)
    ensures |d| == n + 1
  {
    if n == 0 then [0] else [1] + Unary(n - 1)
  }

  function ReadUnary(d: Data): Read<nat>
    decreases |d|
  {
    if d == [] then Eof
    else if d[0] == 0 then Got(0, d[1..])
    else
      var r := ReadUnary(d[1..]);
      if r.Eof? then Eof else Got(r.value + 1, r.rest)
  }

  lemma {:induction false} UnaryReadsBack(n: nat, rest: Data)
    ensures ReadUnary(Unary(n) + rest) == Got(n, rest)
  {
    if n == 0 {
    } else {
      UnaryReadsBack(n - 1, rest);
      assert (Unary(n) + rest)[1..] == Unary(n - 1) + rest;
    }
  }

  function EncodeAll(ns: seq<nat>): Data { if ns == [] then [] else Unary(ns[0]) + EncodeAll(ns[1..]) }

  function ReadAll(d: Data, count: nat): (r: Read<seq<nat>>)
    ensures r.Got? ==> |r.value| == count
    decreases count
  {
    if count == 0 then Got([], d) else
      var first := ReadUnary(d);
      if first.Eof? then Eof else
        var others := ReadAll(first.rest, count - 1);
        if others.Eof? then Eof else Got([first.value] + others.value, others.rest)
  }

  lemma ReadAllOneMore(d: Data, n: nat, tail: Data, others: seq<nat>, rest: Data)
    requires ReadUnary(d) == Got(n, tail) && ReadAll(tail, |others|) == Got(others, rest)
    ensures ReadAll(d, |others| + 1) == Got([n] + others, rest)
  {
  }

  lemma {:induction false} AllReadBack(ns: seq<nat>, rest: Data)
    ensures ReadAll(EncodeAll(ns) + rest, |ns|) == Got(ns, rest)
    decreases |ns|
  {
    if ns == [] {
      assert EncodeAll(ns) + rest == rest;
    } else {
      hide Unary, ReadUnary, ReadAll;
      var others := EncodeAll(ns[1..]) + rest;
      UnaryReadsBack(ns[0], others);
      AllReadBack(ns[1..], rest);
      ConcatAssociates(Unary(ns[0]), EncodeAll(ns[1..]), rest);
      hide EncodeAll;
      ReadAllOneMore(Unary(ns[0]) + others, ns[0], others, ns[1..], rest);
      assert ns == [ns[0]] + ns[1..];
    }
  }

  function Folded(i: int): nat { if i < 0 then -2 * i - 1 else 2 * i }

  function Unfolded(n: nat): int { if n % 2 == 0 then n / 2 else -((n + 1) / 2) }

  function EncodeBlock(b: Block): Data { EncodeAll([Folded(b.globalId), b.seqNo, b.vertSeqNo, b.endLt, b.body]) }

  function ReadBlock(d: Data): Read<Block> {
    var r := ReadAll(d, 5);
    if r.Eof? then Eof
    else Got(Block(Unfolded(r.value[0]), r.value[1], r.value[2], r.value[3], r.value[4]), r.rest)
  }

  function EncodeState(s: ShardState): Data {
    EncodeAll([Folded(s.globalId), s.seqNo, |s.body|]) + EncodeAll(s.body)
  }

  function ReadState(d: Data): Read<ShardState> {
    var head := ReadAll(d, 3);
    if head.Eof? then Eof else
      var body := ReadAll(head.rest, head.value[2]);
      if body.Eof? then Eof else Got(ShardState(Unfolded(head.value[0]), head.value[1], body.value), body.rest)
  }

  function NoHash(b: Block): Hash { ZERO_HASH }

  function SomeHash(b: Block): Hash { [1] + Zeros(31) }

  function NoFileHash(d: Data): Hash { ZERO_HASH }

  function UnaryCodec(): Codec {
    Codec(EncodeBlock, ReadBlock, EncodeState, ReadState, NoHash, NoFileHash, SomeHash)
  }

  lemma UnaryCodecIsLawful()
    ensures Lawful(UnaryCodec())
  {
    hide ReadAll, EncodeAll;
    forall b: Block, rest: Data ensures BlockReadsBack(UnaryCodec(), b, rest) {
      AllReadBack([Folded(b.globalId), b.seqNo, b.vertSeqNo, b.endLt, b.body], rest);
    }
    forall s: ShardState, rest: Data ensures StateReadsBack(UnaryCodec(), s, rest) {
      var head := [Folded(s.globalId), s.seqNo, |s.body|];
      AllReadBack(head, EncodeAll(s.body) + rest);
      AllReadBack(s.body, rest);
      ConcatAssociates(EncodeAll(head), EncodeAll(s.body), rest);
    }
  }

  lemma {:induction false} EncodedLength(ns: seq<nat>, n: nat)
    requires n in ns
    ensures |EncodeAll(ns)| > n
    decreases |ns|
  {
    if ns[0] != n {
      EncodedLength(ns[1..], n);
    }
  }

  /** A shard block whose own encoding loses it. */
  lemma LongBlockIsLost() returns (c: Codec, sb: ShardBlock)
    ensures Lawful(c) && 0 < sb.seqNo < Pow256(8) && |sb.serializedBlock| >= TWO_32
    ensures Deserialize(c, Serialize(c, sb)) != Some(Untraced(sb))
  {
    c := UnaryCodec();
    UnaryCodecIsLawful();
    var block := Block(0, 1, 0, 0, TWO_32);
    sb := WithBlockAndState(c, block, ShardState(0, 1, []), []);
    hide Unary, EncodeAll, Deserialize, Serialize, Lawful, Pow256;
    var ns := [Folded(0), 1, 0, 0, TWO_32];
    assert ns[4] == TWO_32;
    EncodedLength(ns, TWO_32);
    OneFits();
    RoundTripIff(c, sb);
  }

  lemma OneFits()
    ensures 1 < Pow256(8)
  {
    assert Pow256(8) == 256 * Pow256(7);
  }
}
