/** Delivery of internal messages over runs of a chain: in order, exactly once. */
module Delivery {
  import opened Messages
  import opened Executor
  import opened BlockSpec
  import opened Trace
  import opened BlockShape
  import opened Chains

  ghost predicate UpTo(lt: nat, ms: set<Message>) { forall m | m in ms :: m.createdLt <= lt }

  ghost predicate After(lt: nat, ms: set<Message>) { forall m | m in ms :: lt < m.createdLt }

  /** No two queued messages of one route were created at the same time. */
  ghost predicate DistinctTimes(q: set<Message>) {
    forall a, b | a in q && b in q && a != b && SameRoute(a, b) :: a.createdLt != b.createdLt
  }

  /** What has run is in order and precedes what waits; and what the chain was given with its first queue plus what
      was created since is what has run plus what waits, message by message. */
  ghost predicate Delivered(origin: set<Message>, c: Chain) {
    var ran, emitted := Ran(History(c.blocks)), Emitted(History(c.blocks));
    && UpTo(c.endLt, c.queue) && UpTo(c.endLt, SetOf(emitted)) && UpTo(c.endLt, SetOf(ran))
    && DistinctTimes(c.queue)
    && Ordered(ran) && AllBefore(SetOf(ran), c.queue)
    && multiset(origin) + multiset(emitted) == multiset(ran) + multiset(c.queue)
  }

  // ---- the messages of one block ----

  /** Of two messages on one route the times differ, and `first` is the older one if it has run. */
  predicate InOrder(first: Message, second: Message, ran: bool) {
    SameRoute(first, second) ==>
      first.createdLt != second.createdLt && (ran ==> first.createdLt < second.createdLt)
  }

  /** What a block must create for its messages to be delivered, when it closes to the messages from `cut` on: on one
      route all times differ, and they increase from each message that runs in the block. */
  ghost predicate RouteOrder(shard: Shard, emitted: seq<Message>, cut: nat) {
    forall i, j | 0 <= i < j < |emitted| :: InOrder(emitted[i], emitted[j], InShard(shard, emitted[i]) && i < cut)
  }

  lemma SourceOrderIsEnough(shard: Shard, emitted: seq<Message>, cut: nat)
    requires SourceOrdered(emitted)
    ensures RouteOrder(shard, emitted, cut)
  {
    forall i, j | 0 <= i < j < |emitted|
      ensures InOrder(emitted[i], emitted[j], InShard(shard, emitted[i]) && i < cut)
    {
      assert Earlier(emitted[i], emitted[j]);
    }
  }

  /** Messages that share a route differ in their times. */
  ghost predicate Apart(ms: seq<Message>) {
    forall i, j | 0 <= i < j < |ms| :: InOrder(ms[i], ms[j], false)
  }

  lemma ApartConcat(a: seq<Message>, b: seq<Message>)
    requires Apart(a) && Apart(b) && forall x, y | x in a && y in b :: InOrder(x, y, false)
    ensures Apart(a + b)
  {
  }

  lemma ApartIsDistinct(ms: seq<Message>)
    requires Apart(ms)
    ensures DistinctTimes(SetOf(ms)) && NoRepeat(ms)
  {
    forall i, j | 0 <= i < j < |ms| ensures ms[i] != ms[j] {
      assert InOrder(ms[i], ms[j], false);
    }
    forall a, b | a in ms && b in ms && a != b && SameRoute(a, b) ensures a.createdLt != b.createdLt {
      var i :| 0 <= i < |ms| && ms[i] == a;
      var j :| 0 <= j < |ms| && ms[j] == b;
      assert if i < j then InOrder(ms[i], ms[j], false) else InOrder(ms[j], ms[i], false);
    }
  }

  lemma {:induction false} SplitApart(shard: Shard, inside: bool, ms: seq<Message>)
    requires Apart(ms)
    ensures Apart(Split(shard, inside, ms))
  {
    if ms == [] {
    } else {
      var front, last := ms[..|ms| - 1], ms[|ms| - 1];
      SplitApart(shard, inside, front);
      forall x | x in Split(shard, inside, front) ensures InOrder(x, last, false) {
        var i :| 0 <= i < |front| && front[i] == x;
        assert InOrder(ms[i], ms[|ms| - 1], false);
      }
      ApartConcat(Split(shard, inside, front), [last]);
    }
  }

  lemma {:induction false} SplitRunsInOrder(shard: Shard, ms: seq<Message>)
    requires RouteOrder(shard, ms, |ms|)
    ensures Ordered(Split(shard, true, ms))
  {
    if ms == [] {
    } else {
      var front, last := ms[..|ms| - 1], ms[|ms| - 1];
      forall i, j | 0 <= i < j < |front| ensures InOrder(front[i], front[j], InShard(shard, front[i]) && i < |front|) {
        assert InOrder(ms[i], ms[j], InShard(shard, ms[i]) && i < |ms|);
      }
      SplitRunsInOrder(shard, front);
      forall x | x in SetOf(Split(shard, true, front)) ensures Before(x, last) {
        var i :| 0 <= i < |front| && front[i] == x;
        assert InOrder(ms[i], ms[|ms| - 1], InShard(shard, ms[i]) && i < |ms|);
      }
      OrderedConcat(Split(shard, true, front), [last]);
    }
  }

  lemma OrderedPart(ms: seq<Message>, k: nat)
    requires k <= |ms| && Ordered(ms)
    ensures Ordered(ms[..k]) && Ordered(ms[k..]) && AllBefore(SetOf(ms[..k]), SetOf(ms[k..]))
  {
    forall x, y | x in SetOf(ms[..k]) && y in SetOf(ms[k..]) ensures Before(x, y) {
      var i :| 0 <= i < k && ms[i] == x;
      var j :| k <= j < |ms| && ms[j] == y;
      assert Before(ms[i], ms[j]);
    }
  }

  lemma SortedIsOrdered(sorted: seq<Message>, queue: set<Message>)
    requires IsSortOf(sorted, queue) && DistinctTimes(queue)
    ensures Ordered(sorted)
    ensures multiset(sorted) == multiset(queue)
  {
    forall i, j | 0 <= i < j < |sorted| ensures Before(sorted[i], sorted[j]) {
      assert sorted[i] in SetOf(sorted) && sorted[j] in SetOf(sorted);
    }
    OrderedDistinct(sorted);
  }

  /** The messages a block leaves in the queue. */
  ghost function LeftOver(shard: Shard, sorted: seq<Message>, emitted: seq<Message>, k: nat, cut: nat): seq<Message>
    requires k <= |sorted| && cut <= |emitted|
  {
    sorted[k..] + (Split(shard, false, emitted[..cut]) + emitted[cut..])
  }

  /** The messages it runs. */
  ghost function RunOf(shard: Shard, sorted: seq<Message>, emitted: seq<Message>, k: nat, cut: nat): seq<Message>
    requires k <= |sorted| && cut <= |emitted|
  {
    sorted[..k] + Split(shard, true, emitted[..cut])
  }

  lemma NothingLost(shard: Shard, sorted: seq<Message>, emitted: seq<Message>, k: nat, cut: nat)
    requires k <= |sorted| && cut <= |emitted|
    ensures multiset(sorted) + multiset(emitted)
         == multiset(RunOf(shard, sorted, emitted, k, cut)) + multiset(LeftOver(shard, sorted, emitted, k, cut))
  {
    SplitMultiset(shard, emitted[..cut]);
    assert sorted == sorted[..k] + sorted[k..] && emitted == emitted[..cut] + emitted[cut..];
  }

  lemma LeftOverSet(shard: Shard, sorted: seq<Message>, emitted: seq<Message>, k: nat, cut: nat)
    requires k <= |sorted| && cut <= |emitted|
    ensures SetOf(LeftOver(shard, sorted, emitted, k, cut))
         == SetOf(sorted[k..]) + SetOf(Split(shard, false, emitted[..cut])) + SetOf(emitted[cut..|emitted|])
  {
    assert emitted[cut..|emitted|] == emitted[cut..];
  }

  lemma RouteOrderIsApart(shard: Shard, emitted: seq<Message>, cut: nat)
    requires RouteOrder(shard, emitted, cut) && cut <= |emitted|
    ensures Apart(emitted) && Apart(emitted[..cut]) && Apart(emitted[cut..]) && RouteOrder(shard, emitted[..cut], cut)
    ensures forall x, y | x in emitted[..cut] && y in emitted[cut..] :: InOrder(x, y, InShard(shard, x))
  {
    forall i, j | 0 <= i < j < |emitted| ensures InOrder(emitted[i], emitted[j], false) {
      assert InOrder(emitted[i], emitted[j], InShard(shard, emitted[i]) && i < cut);
    }
    forall x, y | x in emitted[..cut] && y in emitted[cut..] ensures InOrder(x, y, InShard(shard, x)) {
      var i :| 0 <= i < cut && emitted[i] == x;
      var j :| cut <= j < |emitted| && emitted[j] == y;
      assert InOrder(emitted[i], emitted[j], InShard(shard, emitted[i]) && i < cut);
    }
  }

  lemma LeftOverApart(shard: Shard, sorted: seq<Message>, emitted: seq<Message>, k: nat, cut: nat, lt: nat)
    requires k <= |sorted| && cut <= |emitted|
    requires Ordered(sorted) && RouteOrder(shard, emitted, cut) && UpTo(lt, SetOf(sorted)) && After(lt, SetOf(emitted))
    ensures Apart(LeftOver(shard, sorted, emitted, k, cut))
  {
    RouteOrderIsApart(shard, emitted, cut);
    SplitApart(shard, false, emitted[..cut]);
    forall i, j | k <= i < j < |sorted| ensures InOrder(sorted[i], sorted[j], false) {
      assert Before(sorted[i], sorted[j]);
    }
    assert Apart(sorted[k..]);
    hide Ordered, RouteOrder, Apart;
    assert forall x, y | x in Split(shard, false, emitted[..cut]) && y in emitted[cut..] :: InOrder(x, y, false);
    ApartConcat(Split(shard, false, emitted[..cut]), emitted[cut..]);
    forall x, y | x in sorted[k..] && y in Split(shard, false, emitted[..cut]) + emitted[cut..]
      ensures InOrder(x, y, false)
    {
      assert x in SetOf(sorted) && y in SetOf(emitted);
    }
    ApartConcat(sorted[k..], Split(shard, false, emitted[..cut]) + emitted[cut..]);
  }

  lemma RanOrdered(shard: Shard, sorted: seq<Message>, emitted: seq<Message>, k: nat, cut: nat, lt: nat)
    requires k <= |sorted| && cut <= |emitted|
    requires Ordered(sorted) && RouteOrder(shard, emitted, cut) && UpTo(lt, SetOf(sorted)) && After(lt, SetOf(emitted))
    ensures Ordered(RunOf(shard, sorted, emitted, k, cut))
  {
    OrderedPart(sorted, k);
    RouteOrderIsApart(shard, emitted, cut);
    SplitRunsInOrder(shard, emitted[..cut]);
    hide Ordered, RouteOrder, Apart;
    forall x, y | x in SetOf(sorted[..k]) && y in SetOf(Split(shard, true, emitted[..cut])) ensures Before(x, y) {
      assert x in SetOf(sorted) && y in SetOf(emitted);
    }
    OrderedConcat(sorted[..k], Split(shard, true, emitted[..cut]));
  }

  /** A full block splits a route between what ran and what waits without ever inverting it. */
  lemma RanBeforeLeftOver(shard: Shard, sorted: seq<Message>, emitted: seq<Message>, k: nat, cut: nat, lt: nat)
    requires k <= |sorted| && cut <= |emitted| && (k < |sorted| ==> cut == 0)
    requires Ordered(sorted) && RouteOrder(shard, emitted, cut) && UpTo(lt, SetOf(sorted)) && After(lt, SetOf(emitted))
    ensures AllBefore(SetOf(RunOf(shard, sorted, emitted, k, cut)), SetOf(LeftOver(shard, sorted, emitted, k, cut)))
  {
    OrderedPart(sorted, k);
    RouteOrderIsApart(shard, emitted, cut);
    hide Ordered, RouteOrder, Apart;
    forall x, y | x in RunOf(shard, sorted, emitted, k, cut) && y in LeftOver(shard, sorted, emitted, k, cut)
      ensures Before(x, y)
    {
      if x in sorted[..k] {
        assert x in SetOf(sorted);
        if y in sorted[k..] {
          assert x in SetOf(sorted[..k]) && y in SetOf(sorted[k..]);
        } else {
          assert y in SetOf(emitted);
        }
      } else {
        assert y !in sorted[k..];
        if y in emitted[cut..] {
          assert InOrder(x, y, InShard(shard, x));
        }
      }
    }
  }

  /** A block delivers: what it runs is in order and precedes what it leaves, and nothing is lost or doubled. */
  ghost predicate BlockDelivered(queue: set<Message>, emitted: seq<Message>, ran: seq<Message>, left: set<Message>) {
    && Ordered(ran) && DistinctTimes(left) && AllBefore(SetOf(ran), left)
    && multiset(queue) + multiset(emitted) == multiset(ran) + multiset(left)
  }

  ghost predicate Deliverable(c: Chain, inp: BlockInput, s: BlockState, k: nat, cut: nat) {
    && IsSortOf(inp.sorted, c.queue) && DistinctTimes(c.queue) && UpTo(c.endLt, c.queue)
    && BlockForm(EnvOf(c, inp), inp.sorted, k, cut, s)
    && InInterval(c.endLt + 1, s.endLt, s.trace)
  }

  lemma BlockDelivers(c: Chain, inp: BlockInput, s: BlockState, k: nat, cut: nat)
    requires Deliverable(c, inp, s, k, cut) && RouteOrder(inp.shard, Emitted(s.trace), cut)
    ensures BlockDelivered(c.queue, Emitted(s.trace), Ran(s.trace), s.outQueue)
  {
    var shard, sorted, emitted, lt := inp.shard, inp.sorted, Emitted(s.trace), c.endLt;
    var left := LeftOver(shard, sorted, emitted, k, cut);
    SortedIsOrdered(sorted, c.queue);
    assert UpTo(lt, SetOf(sorted)) && After(lt, SetOf(emitted));
    LeftOverSet(shard, sorted, emitted, k, cut);
    hide Ordered, RouteOrder, Apart, DistinctTimes, UpTo, After, InInterval, LeftOver, Split, Emitted, Ran, SetOf,
      AllBefore;
    LeftOverApart(shard, sorted, emitted, k, cut, lt);
    ApartIsDistinct(left);
    SetOfDistinct(left);
    RanOrdered(shard, sorted, emitted, k, cut, lt);
    RanBeforeLeftOver(shard, sorted, emitted, k, cut, lt);
    NothingLost(shard, sorted, emitted, k, cut);
  }

  // ---- and only then ----

  /** Splitting keeps the order of positions. */
  lemma {:induction false} SplitKeepsOrder(shard: Shard, ms: seq<Message>, i: nat, j: nat) returns (p: nat, q: nat)
    requires i < j < |ms| && InShard(shard, ms[i]) && InShard(shard, ms[j])
    ensures var split := Split(shard, true, ms); p < q < |split| && split[p] == ms[i] && split[q] == ms[j]
  {
    var front := ms[..|ms| - 1];
    if j < |front| {
      p, q := SplitKeepsOrder(shard, front, i, j);
    } else {
      q := |Split(shard, true, front)|;
      assert front[i] in Split(shard, true, front);
      p :| 0 <= p < q && Split(shard, true, front)[p] == front[i];
    }
  }

  lemma AtMostOnceDistinct(ms: seq<Message>)
    requires forall m :: multiset(ms)[m] <= 1
    ensures NoRepeat(ms)
  {
    forall i, j | 0 <= i < j < |ms| ensures ms[i] != ms[j] {
      assert ms == ms[..j] + [ms[j]] + ms[j + 1..];
      assert ms[i] in ms[..j];
      assert multiset(ms)[ms[j]] == multiset(ms[..j])[ms[j]] + 1 + multiset(ms[j + 1..])[ms[j]];
    }
  }

  lemma DeliveredIsDistinct(queue: set<Message>, emitted: seq<Message>, ran: seq<Message>, left: set<Message>)
    requires BlockDelivered(queue, emitted, ran, left)
    ensures NoRepeat(emitted)
    ensures forall m :: !(m in ran && m in left)
    ensures forall m :: multiset(ran)[m] + multiset(left)[m] <= 1
  {
    OrderedDistinct(ran);
    forall m ensures multiset(ran)[m] + multiset(left)[m] <= 1 && !(m in ran && m in left) {
      assert m in SetOf(ran) && m in left ==> Before(m, m);
      assert multiset(SetOf(ran))[m] <= 1;
    }
    forall m ensures multiset(emitted)[m] <= 1 {
      assert (multiset(ran) + multiset(left))[m] <= 1;
    }
    AtMostOnceDistinct(emitted);
  }

  lemma OrderedAt(ms: seq<Message>, p: nat, q: nat)
    requires Ordered(ms) && p < q < |ms|
    ensures Before(ms[p], ms[q])
  {
  }

  /** Two messages on one route, the first of which runs in the block. */
  lemma RunPair(
    shard: Shard, sorted: seq<Message>, emitted: seq<Message>, k: nat, cut: nat, i: nat, j: nat)
    requires k <= |sorted| && cut <= |emitted| && i < j < |emitted| && i < cut
    requires InShard(shard, emitted[i]) && SameRoute(emitted[i], emitted[j])
    requires Ordered(RunOf(shard, sorted, emitted, k, cut))
    requires AllBefore(SetOf(RunOf(shard, sorted, emitted, k, cut)), SetOf(LeftOver(shard, sorted, emitted, k, cut)))
    ensures emitted[i].createdLt < emitted[j].createdLt
  {
    var ran, left := RunOf(shard, sorted, emitted, k, cut), SetOf(LeftOver(shard, sorted, emitted, k, cut));
    var x, y, created := emitted[i], emitted[j], emitted[..cut];
    assert created[i] == x;
    if j < cut {
      assert created[j] == y;
      var p, q := SplitKeepsOrder(shard, created, i, j);
      OrderedAt(ran, k + p, k + q);
    } else {
      hide Ordered;
      assert emitted[cut..][j - cut] == y;
      assert Before(x, y);
    }
  }

  lemma DeliveredPair(
    shard: Shard, sorted: seq<Message>, emitted: seq<Message>, k: nat, cut: nat, queue: set<Message>, i: nat, j: nat)
    requires k <= |sorted| && cut <= |emitted| && i < j < |emitted|
    requires BlockDelivered(queue, emitted, RunOf(shard, sorted, emitted, k, cut),
                            SetOf(LeftOver(shard, sorted, emitted, k, cut)))
    ensures InOrder(emitted[i], emitted[j], InShard(shard, emitted[i]) && i < cut)
  {
    DeliveredIsDistinct(queue, emitted, RunOf(shard, sorted, emitted, k, cut),
                        SetOf(LeftOver(shard, sorted, emitted, k, cut)));
    hide RunOf, Ordered, AllBefore;
    if SameRoute(emitted[i], emitted[j]) {
      if InShard(shard, emitted[i]) && i < cut {
        RunPair(shard, sorted, emitted, k, cut, i, j);
      } else {
        LeftBehind(shard, sorted, emitted, k, cut, i);
        LeftBehind(shard, sorted, emitted, k, cut, j);
      }
    }
  }

  lemma LeftBehind(shard: Shard, sorted: seq<Message>, emitted: seq<Message>, k: nat, cut: nat, i: nat)
    requires k <= |sorted| && cut <= |emitted| && i < |emitted| && !(InShard(shard, emitted[i]) && i < cut)
    ensures emitted[i] in LeftOver(shard, sorted, emitted, k, cut)
  {
    if i < cut {
      assert emitted[..cut][i] == emitted[i];
    } else {
      assert emitted[cut..][i - cut] == emitted[i];
    }
  }

  /** Exactly when a block delivers. */
  lemma BlockDeliversIff(c: Chain, inp: BlockInput, s: BlockState, k: nat, cut: nat)
    requires Deliverable(c, inp, s, k, cut)
    ensures BlockDelivered(c.queue, Emitted(s.trace), Ran(s.trace), s.outQueue)
      <==> RouteOrder(inp.shard, Emitted(s.trace), cut)
  {
    var shard, sorted, emitted := inp.shard, inp.sorted, Emitted(s.trace);
    LeftOverSet(shard, sorted, emitted, k, cut);
    if RouteOrder(shard, emitted, cut) {
      BlockDelivers(c, inp, s, k, cut);
    }
    if BlockDelivered(c.queue, emitted, Ran(s.trace), s.outQueue) {
      hide BlockDelivered, InInterval, DistinctTimes, UpTo;
      forall i, j | 0 <= i < j < |emitted|
        ensures InOrder(emitted[i], emitted[j], InShard(shard, emitted[i]) && i < cut)
      {
        DeliveredPair(shard, sorted, emitted, k, cut, c.queue, i, j);
      }
    }
  }

  // ---- runs ----

  lemma LeftOverTimes(c: Chain, inp: BlockInput, s: BlockState, k: nat, cut: nat)
    requires IsSortOf(inp.sorted, c.queue) && UpTo(c.endLt, c.queue) && c.endLt <= s.endLt
    requires BlockForm(EnvOf(c, inp), inp.sorted, k, cut, s)
    requires InInterval(c.endLt + 1, s.endLt, s.trace)
    ensures UpTo(s.endLt, s.outQueue) && UpTo(s.endLt, SetOf(Ran(s.trace))) && UpTo(s.endLt, SetOf(Emitted(s.trace)))
    ensures forall m | m in Ran(s.trace) :: m in c.queue || c.endLt < m.createdLt
    ensures forall m | m in s.outQueue :: m in c.queue || c.endLt < m.createdLt
  {
    hide Emitted, Ran;
    assert forall m | m in inp.sorted :: m in SetOf(inp.sorted);
  }

  lemma StepKeepsUpTo(c: Chain, inp: BlockInput)
    requires Valid(c, inp) && UpTo(c.endLt, c.queue)
    ensures UpTo(Step(c, inp).endLt, Step(c, inp).queue)
  {
    hide BuildBlock, BlockForm, InInterval, SourceOrdered, SendersStay, UpTo, StartedWithinLimit, AccountTimesIncrease;
    if Step(c, inp) != c {
      var k, cut := BuiltBlock(c, inp);
      LeftOverTimes(c, inp, BuildOn(c, inp).state, k, cut);
    }
  }

  lemma JoinMultisets<T>(
    origin: multiset<T>, emitted: seq<T>, ran: seq<T>, q: multiset<T>, emitted': seq<T>, ran': seq<T>, q': multiset<T>)
    requires origin + multiset(emitted) == multiset(ran) + q
    ensures q + multiset(emitted') == multiset(ran') + q'
      <==> origin + multiset(emitted + emitted') == multiset(ran + ran') + q'
  {
    assert origin + multiset(emitted + emitted') == (origin + multiset(emitted)) + multiset(emitted');
    assert (multiset(ran) + q) + multiset(emitted') == multiset(ran) + (q + multiset(emitted'));
    assert multiset(ran + ran') + q' == multiset(ran) + (multiset(ran') + q');
    Cancel(multiset(ran), q + multiset(emitted'), multiset(ran') + q');
  }

  lemma Cancel<T>(a: multiset<T>, b: multiset<T>, c: multiset<T>)
    ensures a + b == a + c <==> b == c
  {
    if a + b == a + c {
      forall x ensures b[x] == c[x] {
        assert (a + b)[x] == (a + c)[x];
      }
    }
  }

  lemma UpToJoins(lt: nat, lt': nat, a: seq<Message>, b: seq<Message>)
    requires lt <= lt' && UpTo(lt, SetOf(a)) && UpTo(lt', SetOf(b))
    ensures UpTo(lt', SetOf(a + b))
  {
  }

  lemma OrderJoins(lt: nat, ran: seq<Message>, q: set<Message>, ran': seq<Message>, q': set<Message>)
    requires Ordered(ran) && AllBefore(SetOf(ran), q) && UpTo(lt, SetOf(ran))
    requires forall m | m in ran' :: m in q || lt < m.createdLt
    requires forall m | m in q' :: m in q || lt < m.createdLt
    ensures Ordered(ran') && AllBefore(SetOf(ran'), q') <==> Ordered(ran + ran') && AllBefore(SetOf(ran + ran'), q')
  {
    if Ordered(ran') && AllBefore(SetOf(ran'), q') {
      assert AllBefore(SetOf(ran), SetOf(ran'));
      OrderedConcat(ran, ran');
    }
    if Ordered(ran + ran') && AllBefore(SetOf(ran + ran'), q') {
      forall i, j | 0 <= i < j < |ran'| ensures Before(ran'[i], ran'[j]) {
        assert (ran + ran')[|ran| + i] == ran'[i] && (ran + ran')[|ran| + j] == ran'[j];
      }
      assert SetOf(ran') <= SetOf(ran + ran');
    }
  }

  /** What a chain with one block more has delivered. */
  lemma DeliveredMore(origin: set<Message>, c: Chain, c': Chain, r: BlockRecord)
    requires Delivered(origin, c) && c'.blocks == c.blocks + [r] && c.endLt <= c'.endLt
    requires UpTo(c'.endLt, c'.queue) && UpTo(c'.endLt, SetOf(Ran(r.trace))) && UpTo(c'.endLt, SetOf(Emitted(r.trace)))
    requires forall m | m in Ran(r.trace) :: m in c.queue || c.endLt < m.createdLt
    requires forall m | m in c'.queue :: m in c.queue || c.endLt < m.createdLt
    ensures Delivered(origin, c') <==> BlockDelivered(c.queue, Emitted(r.trace), Ran(r.trace), c'.queue)
  {
    hide Ordered, AllBefore, DistinctTimes, UpTo, Ran, Emitted, History, SetOf;
    HistoryAppend(c.blocks, r);
    var ran, emitted := Ran(History(c.blocks)), Emitted(History(c.blocks));
    OrderJoins(c.endLt, ran, c.queue, Ran(r.trace), c'.queue);
    UpToJoins(c.endLt, c'.endLt, ran, Ran(r.trace));
    UpToJoins(c.endLt, c'.endLt, emitted, Emitted(r.trace));
    JoinMultisets(multiset(origin), emitted, ran, multiset(c.queue), Emitted(r.trace), Ran(r.trace),
                  multiset(c'.queue));
  }

  /** Exactly when an attempt that applies a block keeps delivery. */
  lemma AppliedDeliversIff(origin: set<Message>, c: Chain, inp: BlockInput, k: nat, cut: nat)
    requires Valid(c, inp) && Delivered(origin, c) && Step(c, inp) != c && BuildOn(c, inp).Built?
    requires BlockForm(EnvOf(c, inp), inp.sorted, k, cut, BuildOn(c, inp).state)
    ensures Delivered(origin, Step(c, inp)) <==> RouteOrder(inp.shard, Emitted(BuildOn(c, inp).state.trace), cut)
  {
    hide BuildBlock, BlockForm, InInterval, SourceOrdered, SendersStay, Ordered, AllBefore, DistinctTimes, UpTo, Ran,
      Emitted, History, SetOf, StartedWithinLimit, AccountTimesIncrease, BlockDelivered, RouteOrder;
    var _, _ := BuiltBlock(c, inp);
    var s, c' := BuildOn(c, inp).state, Step(c, inp);
    BlockDeliversIff(c, inp, s, k, cut);
    LeftOverTimes(c, inp, s, k, cut);
    DeliveredMore(origin, c, c', c'.blocks[|c.blocks|]);
  }

  /** The attempt applies nothing, or its block creates its messages in route order. */
  ghost predicate StepInOrder(c: Chain, inp: BlockInput)
    requires Valid(c, inp)
  {
    Step(c, inp) == c || exists k, cut :: BlockInOrder(c, inp, k, cut)
  }

  ghost predicate BlockInOrder(c: Chain, inp: BlockInput, k: nat, cut: nat)
    requires Valid(c, inp)
  {
    var b := BuildOn(c, inp);
    && b.Built? && BlockForm(EnvOf(c, inp), inp.sorted, k, cut, b.state)
    && RouteOrder(inp.shard, Emitted(b.state.trace), cut)
  }

  /** Exactly when an attempt keeps delivery. */
  lemma StepDeliversIff(origin: set<Message>, c: Chain, inp: BlockInput)
    requires Valid(c, inp) && Delivered(origin, c)
    ensures Delivered(origin, Step(c, inp)) <==> StepInOrder(c, inp)
  {
    hide BuildBlock, BlockForm, InInterval, SourceOrdered, SendersStay, Delivered, Emitted, StartedWithinLimit,
      AccountTimesIncrease, RouteOrder;
    if Step(c, inp) != c {
      var k, cut := BuiltBlock(c, inp);
      AppliedDeliversIff(origin, c, inp, k, cut);
      assert Delivered(origin, Step(c, inp)) ==> BlockInOrder(c, inp, k, cut);
      forall k, cut | BlockInOrder(c, inp, k, cut) ensures Delivered(origin, Step(c, inp)) {
        AppliedDeliversIff(origin, c, inp, k, cut);
      }
    }
  }

  // ---- what fails once stays failed ----

  /** What every run keeps: times lie in the past, and no message comes out of nothing. */
  ghost predicate Sound(origin: set<Message>, c: Chain) {
    var ran, emitted := Ran(History(c.blocks)), Emitted(History(c.blocks));
    && UpTo(c.endLt, c.queue) && UpTo(c.endLt, SetOf(emitted)) && UpTo(c.endLt, SetOf(ran))
    && multiset(ran) + multiset(c.queue) <= multiset(origin) + multiset(emitted)
  }

  lemma DeliveredIsSound(origin: set<Message>, c: Chain)
    requires Delivered(origin, c)
    ensures Sound(origin, c)
  {
  }

  lemma SetIsPart(ms: seq<Message>)
    ensures multiset(SetOf(ms)) <= multiset(ms)
  {
    forall m ensures multiset(SetOf(ms))[m] <= multiset(ms)[m] {
      assert m in SetOf(ms) <==> m in multiset(ms);
    }
  }

  lemma BlockMakesNothingUp(c: Chain, inp: BlockInput, s: BlockState, k: nat, cut: nat)
    requires IsSortOf(inp.sorted, c.queue) && BlockForm(EnvOf(c, inp), inp.sorted, k, cut, s)
    ensures multiset(Ran(s.trace)) + multiset(s.outQueue) <= multiset(c.queue) + multiset(Emitted(s.trace))
  {
    var emitted := Emitted(s.trace);
    var left := LeftOver(inp.shard, inp.sorted, emitted, k, cut);
    LeftOverSet(inp.shard, inp.sorted, emitted, k, cut);
    NothingLost(inp.shard, inp.sorted, emitted, k, cut);
    SetIsPart(left);
    SetOfDistinct(inp.sorted);
  }

  lemma PartsJoin<T>(
    origin: multiset<T>, emitted: seq<T>, ran: seq<T>, q: multiset<T>, emitted': seq<T>, ran': seq<T>, q': multiset<T>)
    requires multiset(ran) + q <= origin + multiset(emitted)
    requires multiset(ran') + q' <= q + multiset(emitted')
    ensures multiset(ran + ran') + q' <= origin + multiset(emitted + emitted')
    ensures multiset(ran + ran') + q' == origin + multiset(emitted + emitted') ==>
      multiset(ran) + q == origin + multiset(emitted) && multiset(ran') + q' == q + multiset(emitted')
  {
    forall x
      ensures (multiset(ran + ran') + q')[x] <= (origin + multiset(emitted + emitted'))[x]
      ensures (multiset(ran + ran') + q')[x] == (origin + multiset(emitted + emitted'))[x] ==>
        (multiset(ran) + q)[x] == (origin + multiset(emitted))[x]
        && (multiset(ran') + q')[x] == (q + multiset(emitted'))[x]
    {
      assert (multiset(ran) + q)[x] <= (origin + multiset(emitted))[x];
      assert (multiset(ran') + q')[x] <= (q + multiset(emitted'))[x];
    }
    if multiset(ran + ran') + q' == origin + multiset(emitted + emitted') {
      assert forall x :: (multiset(ran + ran') + q')[x] == (origin + multiset(emitted + emitted'))[x];
    }
  }

  /** What one more block keeps of soundness, and what delivery after it says of delivery before it. */
  lemma SoundMore(origin: set<Message>, c: Chain, c': Chain, r: BlockRecord)
    requires Sound(origin, c) && c'.blocks == c.blocks + [r] && c.endLt <= c'.endLt
    requires UpTo(c'.endLt, c'.queue) && UpTo(c'.endLt, SetOf(Ran(r.trace))) && UpTo(c'.endLt, SetOf(Emitted(r.trace)))
    requires multiset(Ran(r.trace)) + multiset(c'.queue) <= multiset(c.queue) + multiset(Emitted(r.trace))
    ensures Sound(origin, c')
    ensures Delivered(origin, c') ==> Delivered(origin, c)
  {
    var ran, emitted := Ran(History(c.blocks)), Emitted(History(c.blocks));
    hide UpTo, Ran, Emitted, History, SetOf, Ordered, AllBefore, DistinctTimes;
    HistoryAppend(c.blocks, r);
    UpToJoins(c.endLt, c'.endLt, ran, Ran(r.trace));
    UpToJoins(c.endLt, c'.endLt, emitted, Emitted(r.trace));
    PartsJoin(multiset(origin), emitted, ran, multiset(c.queue), Emitted(r.trace), Ran(r.trace), multiset(c'.queue));
    if Delivered(origin, c') {
      OrderBefore(ran, c.queue, Emitted(r.trace), Ran(r.trace), c'.queue);
    }
  }

  /** Order after a block was order before it. */
  lemma OrderBefore(ran: seq<Message>, q: set<Message>, emitted': seq<Message>, ran': seq<Message>, q': set<Message>)
    requires Ordered(ran + ran') && AllBefore(SetOf(ran + ran'), q') && DistinctTimes(q')
    requires multiset(ran') + multiset(q') == multiset(q) + multiset(emitted')
    ensures Ordered(ran) && AllBefore(SetOf(ran), q) && DistinctTimes(q)
  {
    forall m | m in q ensures m in ran' || m in q' {
      assert m in multiset(q) + multiset(emitted');
      assert m in multiset(ran') + multiset(q');
    }
    forall i, j | 0 <= i < j < |ran| ensures Before(ran[i], ran[j]) {
      assert (ran + ran')[i] == ran[i] && (ran + ran')[j] == ran[j];
    }
    forall x, y | x in SetOf(ran) && y in q ensures Before(x, y) {
      if y in ran' {
        RanPair(ran, ran', x, y);
      } else {
        assert x in SetOf(ran + ran');
      }
    }
    forall a, b | a in q && b in q && a != b && SameRoute(a, b) ensures a.createdLt != b.createdLt {
      TimesBefore(ran, ran', q', a, b);
    }
  }

  lemma RanPair(ran: seq<Message>, ran': seq<Message>, x: Message, y: Message)
    requires Ordered(ran + ran') && x in ran && y in ran'
    ensures Before(x, y)
  {
    var i :| 0 <= i < |ran| && ran[i] == x;
    var j :| 0 <= j < |ran'| && ran'[j] == y;
    OrderedAt(ran + ran', i, |ran| + j);
  }

  lemma TimesBefore(ran: seq<Message>, ran': seq<Message>, q': set<Message>, a: Message, b: Message)
    requires Ordered(ran + ran') && AllBefore(SetOf(ran + ran'), q') && DistinctTimes(q')
    requires (a in ran' || a in q') && (b in ran' || b in q') && a != b && SameRoute(a, b)
    ensures a.createdLt != b.createdLt
  {
    if a in ran' {
      assert a in SetOf(ran + ran');
      if b in ran' {
        var i :| 0 <= i < |ran'| && ran'[i] == a;
        var j :| 0 <= j < |ran'| && ran'[j] == b;
        if i < j {
          OrderedAt(ran + ran', |ran| + i, |ran| + j);
        } else {
          OrderedAt(ran + ran', |ran| + j, |ran| + i);
        }
      } else {
        assert Before(a, b);
      }
    } else if b in ran' {
      assert b in SetOf(ran + ran') && Before(b, a);
    }
  }

  lemma StepIsSound(origin: set<Message>, c: Chain, inp: BlockInput)
    requires Valid(c, inp) && Sound(origin, c)
    ensures Sound(origin, Step(c, inp))
    ensures Delivered(origin, Step(c, inp)) ==> Delivered(origin, c)
  {
    hide BuildBlock, BlockForm, InInterval, SourceOrdered, SendersStay, Ordered, AllBefore, DistinctTimes, UpTo, Ran,
      Emitted, History, SetOf, StartedWithinLimit, AccountTimesIncrease, Delivered;
    var c' := Step(c, inp);
    if c' != c {
      var k, cut := BuiltBlock(c, inp);
      var s := BuildOn(c, inp).state;
      LeftOverTimes(c, inp, s, k, cut);
      BlockMakesNothingUp(c, inp, s, k, cut);
      SoundMore(origin, c, c', c'.blocks[|c.blocks|]);
    }
  }

  /** Once delivery has failed it has failed for good. */
  lemma {:induction false} DeliveredBefore(origin: set<Message>, c: Chain, inputs: seq<BlockInput>)
    requires ValidRun(c, inputs) && Sound(origin, c) && Delivered(origin, Run(c, inputs))
    ensures Delivered(origin, c)
    decreases |inputs|
  {
    hide Sound, Delivered;
    if inputs == [] {
    } else {
      StepIsSound(origin, c, inputs[0]);
      DeliveredBefore(origin, Step(c, inputs[0]), inputs[1..]);
    }
  }

  /** Every attempt of the run is in order. */
  ghost predicate RunInOrder(c: Chain, inputs: seq<BlockInput>)
    requires ValidRun(c, inputs)
    decreases |inputs|
  {
    inputs == [] || (StepInOrder(c, inputs[0]) && RunInOrder(Step(c, inputs[0]), inputs[1..]))
  }

  /** Main result on delivery: over any run, whatever the executor, the accounts, the limits, the modes and the
      failures, internal messages of one source and one destination run in strictly increasing creation time, none runs
      twice, and none is lost, if and only if every block creates its messages in route order. */
  lemma {:induction false} RunDeliversIff(origin: set<Message>, c: Chain, inputs: seq<BlockInput>)
    requires ValidRun(c, inputs) && Delivered(origin, c)
    ensures Delivered(origin, Run(c, inputs)) <==> RunInOrder(c, inputs)
    decreases |inputs|
  {
    hide Delivered, Sound, StepInOrder;
    if inputs == [] {
    } else {
      var c' := Step(c, inputs[0]);
      StepDeliversIff(origin, c, inputs[0]);
      DeliveredIsSound(origin, c);
      StepIsSound(origin, c, inputs[0]);
      if Delivered(origin, c') {
        RunDeliversIff(origin, c', inputs[1..]);
      } else if Delivered(origin, Run(c', inputs[1..])) {
        DeliveredBefore(origin, c', inputs[1..]);
      }
    }
  }

  // ---- a condition on accounts that is enough ----

  lemma StepDelivers(origin: set<Message>, c: Chain, inp: BlockInput)
    requires Valid(c, inp) && Disciplined(c, inp) && Delivered(origin, c)
    ensures Delivered(origin, Step(c, inp))
  {
    hide BuildBlock, BlockForm, InInterval, SourceOrdered, SendersStay, Delivered, Emitted, StartedWithinLimit,
      AccountTimesIncrease, RouteOrder;
    if Step(c, inp) != c {
      var k, cut := BuiltBlock(c, inp);
      SourceOrderIsEnough(inp.shard, Emitted(BuildOn(c, inp).state.trace), cut);
      AppliedDeliversIff(origin, c, inp, k, cut);
    }
  }

  /** It is enough that in no block an account leaves the dictionary between two transactions that send messages. */
  lemma {:induction false} RunDelivers(origin: set<Message>, c: Chain, inputs: seq<BlockInput>)
    requires ValidRun(c, inputs) && DisciplinedRun(c, inputs) && Delivered(origin, c)
    ensures Delivered(origin, Run(c, inputs))
    decreases |inputs|
  {
    if inputs == [] {
    } else {
      StepDelivers(origin, c, inputs[0]);
      RunDelivers(origin, Step(c, inputs[0]), inputs[1..]);
    }
  }

  /** A block of at most one transaction needs no assumption. */
  lemma SequentialIsDisciplined(c: Chain, inp: BlockInput)
    requires Valid(c, inp) && inp.seqMode
    ensures Disciplined(c, inp)
  {
    hide BuildBlock;
    if BuildOn(c, inp).Built? {
      var _, _ := BuiltBlock(c, inp);
    }
  }

  ghost predicate Sequential(inputs: seq<BlockInput>) { forall inp | inp in inputs :: inp.seqMode }

  lemma {:induction false} SequentialRunIsDisciplined(c: Chain, inputs: seq<BlockInput>)
    requires ValidRun(c, inputs) && Sequential(inputs)
    ensures DisciplinedRun(c, inputs)
    decreases |inputs|
  {
    if inputs == [] {
    } else {
      SequentialIsDisciplined(c, inputs[0]);
      SequentialRunIsDisciplined(Step(c, inputs[0]), inputs[1..]);
    }
  }

  /** A chain that has produced no block yet. */
  lemma GenesisDelivers(c: Chain)
    requires c.blocks == []
    ensures Delivered(c.queue, c) <==> UpTo(c.endLt, c.queue) && DistinctTimes(c.queue)
  {
    assert SetOf([]) == {};
  }

  /** Read as statements on single messages. */
  lemma DeliveredExactlyOnce(origin: set<Message>, c: Chain)
    requires Delivered(origin, c)
    ensures var ran, emitted := Ran(History(c.blocks)), Emitted(History(c.blocks));
      && (forall i, j | 0 <= i < j < |ran| && ran[i].src == ran[j].src && ran[i].dst == ran[j].dst ::
            ran[i].createdLt < ran[j].createdLt)
      && NoRepeat(ran) && NoRepeat(emitted)
      && (forall m :: (m in origin || m in emitted) <==> (m in ran || m in c.queue))
      && (forall m :: !(m in origin && m in emitted) && !(m in ran && m in c.queue))
  {
    hide Ran, Emitted, History, DistinctTimes, UpTo;
    var ran, emitted := Ran(History(c.blocks)), Emitted(History(c.blocks));
    DeliveredIsDistinct(origin, emitted, ran, c.queue);
    OrderedDistinct(ran);
    forall i, j | 0 <= i < j < |ran| ensures Before(ran[i], ran[j]) {}
    forall m
      ensures (m in origin || m in emitted) <==> (m in ran || m in c.queue)
      ensures !(m in origin && m in emitted) && !(m in ran && m in c.queue)
    {
      var all := multiset(ran) + multiset(c.queue);
      assert all[m] <= 1 && all == multiset(origin) + multiset(emitted);
      assert m in origin ==> multiset(origin)[m] == 1;
    }
  }

  // ---- messages for other shards ----

  /** The import makes no check of the destination: a block runs a message that is not for its shard exactly when it
      imports it, so only when the message was in the queue before the block; none that the block creates. */
  lemma ForeignRunsOnlyByImport(c: Chain, inp: BlockInput) returns (k: nat)
    requires Valid(c, inp) && BuildOn(c, inp).Built?
    ensures k <= |inp.sorted|
    ensures forall m | !InShard(inp.shard, m) ::
      (m in Ran(BuildOn(c, inp).state.trace) <==> m in inp.sorted[..k]) && (m in inp.sorted[..k] ==> m in c.queue)
    ensures !inp.seqMode && GasOf(BuildOn(c, inp).state.trace) <= inp.gasLimit ==> k == |inp.sorted|
  {
    hide BuildBlock, InInterval, SourceOrdered, SendersStay, StartedWithinLimit, AccountTimesIncrease, Ran, Emitted,
      GasOf;
    var cut;
    k, cut := BuiltBlock(c, inp);
    assert forall m | m in inp.sorted[..k] :: m in SetOf(inp.sorted);
  }

  /** Over a run that delivers, a message for this shard or another has been executed exactly when it was in the first
      queue or was created, and is not in the queue any more. */
  lemma ForeignOverRuns(origin: set<Message>, c: Chain, inputs: seq<BlockInput>, m: Message)
    requires ValidRun(c, inputs) && Delivered(origin, c) && RunInOrder(c, inputs)
    ensures var c' := Run(c, inputs);
      m in Ran(History(c'.blocks)) <==> (m in origin || m in Emitted(History(c'.blocks))) && m !in c'.queue
  {
    hide Delivered;
    RunDeliversIff(origin, c, inputs);
    DeliveredExactlyOnce(origin, Run(c, inputs));
  }
}
