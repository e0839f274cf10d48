/** The ordered keys of a contract dictionary. */
module OrderedKeys {

  ghost predicate IsLeast(s: set<nat>, k: nat) { k in s && forall j | j in s :: k <= j }

  lemma {:induction false} HasLeast(s: set<nat>)
    requires s != {}
    ensures exists k :: IsLeast(s, k)
    decreases |s|
  {
    var x :| x in s;
    if s - {x} == {} {
      assert s == {x};
      assert IsLeast(s, x);
    } else {
      HasLeast(s - {x});
      var k :| IsLeast(s - {x}, k);
      var least := if x < k then x else k;
      forall j | j in s ensures least <= j {
        assert j == x || j in s - {x};
      }
      assert IsLeast(s, least);
    }
  }

  /** `min()` of a dictionary that is not empty. */
  function Least(s: set<nat>): (k: nat)
    requires s != {}
    ensures k in s && forall j | j in s :: k <= j
  {
    assert exists k :: k in s && forall j | j in s :: k <= j by {
      HasLeast(s);
      var k :| IsLeast(s, k);
    }
    var k :| k in s && forall j | j in s :: k <= j;
    k
  }

  /** The keys `next(k)` chooses from; `k` itself need not be present. */
  function Above(s: set<nat>, k: nat): set<nat> { set j | j in s && k < j }

  lemma FewerAbove(s: set<nat>, k: nat, next: nat)
    requires next in Above(s, k)
    ensures |Above(s, next)| < |Above(s, k)|
  {
    assert Above(s, next) <= Above(s, k) - {next};
    SubsetSize(Above(s, next), Above(s, k) - {next});
  }

  lemma {:induction false} SubsetSize(a: set<nat>, b: set<nat>)
    requires a <= b
    ensures |a| <= |b|
    decreases |a|
  {
    if a == {} {
    } else {
      var x :| x in a;
      SubsetSize(a - {x}, b - {x});
    }
  }

  function Below(s: set<nat>, x: nat): set<nat> { set j | j in s && j < x }

  /** The number of smaller keys. */
  function Rank(s: set<nat>, x: nat): nat { |Below(s, x)| }

  /** Removing the least key lowers every other rank by one. */
  lemma RankWithoutLeast(s: set<nat>, x: nat)
    requires s != {} && x in s && x != Least(s)
    ensures Rank(s, x) == Rank(s - {Least(s)}, x) + 1
  {
    assert Below(s, x) == Below(s - {Least(s)}, x) + {Least(s)};
  }

  function UpTo(s: set<nat>, bound: int): set<nat> { set j | j in s && j <= bound }

  /** The keys up to the bound that are among the `n` smallest. */
  function Oldest(s: set<nat>, bound: int, n: nat): set<nat> { set j | j in s && j <= bound && Rank(s, j) < n }

  lemma OldestWithoutLeast(s: set<nat>, bound: int, n: nat)
    requires s != {} && Least(s) <= bound && n > 0
    ensures |Oldest(s, bound, n)| == |Oldest(s - {Least(s)}, bound, n - 1)| + 1
  {
    var least := Least(s);
    assert Below(s, least) == {};
    forall j | j in s && j != least ensures Rank(s, j) == Rank(s - {least}, j) + 1 {
      RankWithoutLeast(s, j);
    }
    assert Oldest(s, bound, n) == Oldest(s - {least}, bound, n - 1) + {least};
  }

  lemma UpToWithoutLeast(s: set<nat>, bound: int)
    requires s != {} && Least(s) <= bound
    ensures |UpTo(s, bound)| == |UpTo(s - {Least(s)}, bound)| + 1
  {
    assert UpTo(s, bound) == UpTo(s - {Least(s)}, bound) + {Least(s)};
  }

  lemma NoneUpTo(s: set<nat>, bound: int, n: nat)
    requires s == {} || Least(s) > bound || n == 0
    ensures Oldest(s, bound, n) == {}
    ensures s == {} || Least(s) > bound ==> UpTo(s, bound) == {}
  {
  }

  /** There are as many as the smaller of `n` and the number of keys up to the bound. */
  lemma {:induction false} OldestCount(s: set<nat>, bound: int, n: nat)
    ensures |Oldest(s, bound, n)| == if |UpTo(s, bound)| < n then |UpTo(s, bound)| else n
    decreases n
  {
    hide Oldest, UpTo, Rank, Below;
    if s == {} || Least(s) > bound || n == 0 {
      NoneUpTo(s, bound, n);
    } else {
      UpToWithoutLeast(s, bound);
      OldestWithoutLeast(s, bound, n);
      OldestCount(s - {Least(s)}, bound, n - 1);
    }
  }
}
