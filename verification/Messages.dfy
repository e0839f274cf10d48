/** Messages, addresses and the sequence vocabulary shared by the whole model. */
module Messages {

  import opened Common

  type AccountId = nat

  datatype Address = Address(workchain: int, account: AccountId)

  /** An internal message. `bounced` is the header flag of a message returned to its sender. */
  datatype Message = Message(
    src: AccountId, dst: Address, createdLt: nat, value: nat, fwdFee: nat, bounced: bool, body: nat)

  /** An external inbound message; one without a standard destination has no workchain. */
  datatype ExtMessage = ExtMessage(workchain: Option<int>, account: AccountId, body: nat)

  datatype InMsg = Internal(msg: Message) | External(ext: ExtMessage)

  /** A shard of a workchain: the accounts whose id, divided by `width`, is `prefix`. */
  datatype Shard = Shard(workchain: int, prefix: nat, width: nat)

  predicate InShard(shard: Shard, m: Message) {
    m.dst.workchain == shard.workchain && shard.width > 0 && m.dst.account / shard.width == shard.prefix
  }

  /** The shards of one width in a workchain part its addresses among them: each one is in exactly one of them, and an
      address of another workchain in none. */
  lemma ShardsPart(workchain: int, width: nat, m: Message)
    requires width > 0
    ensures m.dst.workchain != workchain ==> forall prefix: nat :: !InShard(Shard(workchain, prefix, width), m)
    ensures m.dst.workchain == workchain ==>
      && (exists prefix: nat :: InShard(Shard(workchain, prefix, width), m))
      && forall p: nat, q: nat | InShard(Shard(workchain, p, width), m) && InShard(Shard(workchain, q, width), m) ::
           p == q
    ensures forall prefix: nat | InShard(Shard(workchain, prefix, width), m) ::
      prefix * width <= m.dst.account < (prefix + 1) * width
  {
    assert InShard(Shard(m.dst.workchain, m.dst.account / width, width), m);
  }

  function Max(a: nat, b: nat): nat { if a < b then b else a }

  // ---- the set and the sub-sequences of a message sequence ----

  ghost function SetOf(ms: seq<Message>): set<Message> { set m | m in ms }

  /** The messages of `ms` that are (`inside`) or are not (`!inside`) addressed to the shard, in order. */
  ghost function Split(shard: Shard, inside: bool, ms: seq<Message>): (r: seq<Message>)
    ensures forall m :: m in r <==> m in ms && InShard(shard, m) == inside
  {
    if ms == [] then [] else
      var last := ms[|ms| - 1];
      var front := Split(shard, inside, ms[..|ms| - 1]);
      assert ms == ms[..|ms| - 1] + [last];
      if InShard(shard, last) == inside then front + [last] else front
  }

  lemma SplitAppend(shard: Shard, inside: bool, ms: seq<Message>, m: Message)
    ensures Split(shard, inside, ms + [m])
         == Split(shard, inside, ms) + if InShard(shard, m) == inside then [m] else []
  {
    assert (ms + [m])[..|ms|] == ms;
  }

  // ---- delivery order ----

  predicate SameRoute(a: Message, b: Message) { a.src == b.src && a.dst == b.dst }

  /** Of two messages on one route, `a` was created first. */
  predicate Before(a: Message, b: Message) { SameRoute(a, b) ==> a.createdLt < b.createdLt }

  /** Of two messages of one source, `a` was created first. */
  predicate Earlier(a: Message, b: Message) { a.src == b.src ==> a.createdLt < b.createdLt }

  /** Messages that share a route appear in strictly increasing creation time. */
  ghost predicate Ordered(ms: seq<Message>) {
    forall i, j | 0 <= i < j < |ms| :: Before(ms[i], ms[j])
  }

  /** Messages that share a source appear in strictly increasing creation time. */
  ghost predicate SourceOrdered(ms: seq<Message>) {
    forall i, j | 0 <= i < j < |ms| :: Earlier(ms[i], ms[j])
  }

  ghost predicate AllBefore(a: set<Message>, b: set<Message>) {
    forall x, y | x in a && y in b :: Before(x, y)
  }

  lemma OrderedConcat(a: seq<Message>, b: seq<Message>)
    requires Ordered(a) && Ordered(b) && AllBefore(SetOf(a), SetOf(b))
    ensures Ordered(a + b)
  {
    forall i, j | 0 <= i < j < |a + b| ensures Before((a + b)[i], (a + b)[j]) {
      if i < |a| <= j {
        assert a[i] in SetOf(a) && b[j - |a|] in SetOf(b);
      }
    }
  }

  ghost predicate NoRepeat(ms: seq<Message>) { forall i, j | 0 <= i < j < |ms| :: ms[i] != ms[j] }

  /** As a multiset, a sequence without repeats is its set. */
  lemma {:induction false} SetOfDistinct(ms: seq<Message>)
    requires NoRepeat(ms)
    ensures multiset(SetOf(ms)) == multiset(ms)
  {
    if ms == [] {
    } else {
      var front, last := ms[..|ms| - 1], ms[|ms| - 1];
      SetOfDistinct(front);
      assert ms == front + [last];
      assert SetOf(ms) == SetOf(front) + {last};
    }
  }

  /** An ordered sequence holds no message twice. */
  lemma OrderedDistinct(ms: seq<Message>)
    requires Ordered(ms)
    ensures NoRepeat(ms) && multiset(SetOf(ms)) == multiset(ms)
  {
    forall i, j | 0 <= i < j < |ms| ensures ms[i] != ms[j] {
      assert Before(ms[i], ms[j]);
    }
    SetOfDistinct(ms);
  }

  lemma {:induction false} SplitMultiset(shard: Shard, ms: seq<Message>)
    ensures multiset(ms) == multiset(Split(shard, true, ms)) + multiset(Split(shard, false, ms))
  {
    hide SetOf;
    if ms == [] {
    } else {
      var front, last := ms[..|ms| - 1], ms[|ms| - 1];
      SplitMultiset(shard, front);
      SplitAppend(shard, true, front, last);
      SplitAppend(shard, false, front, last);
      assert ms == front + [last];
      hide Split;
    }
  }
}
