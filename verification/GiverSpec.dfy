/** The replay protection of the givers: a map from message hashes to expiry times that is pruned as it is used. */
module GiverSpec {
  import opened OrderedKeys

  datatype Version = V2 | V3

  const MAX_CLEANUP_MSGS: nat := 30

  type Replay = map<nat, nat>

  /** An external call. The hash is that of the body in V3 and that of the whole message in V2. */
  datatype Call = Call(now: nat, senderKey: nat, hash: nat, expireAt: nat)

  datatype Outcome = Thrown(code: nat) | Transferred

  /** The map without those of the visited entries that have expired. */
  function Pruned(m: Replay, visited: set<nat>, now: nat): Replay {
    map h | h in m && !(h in visited && m[h] <= now) :: m[h]
  }

  /** The first `n` keys of the map. */
  function First(m: Replay, n: nat): set<nat> { set h | h in m && Rank(m.Keys, h) < n }

  function Gc(v: Version, m: Replay, now: nat): Replay {
    match v
    case V2 => Pruned(m, m.Keys, now)
    case V3 => Pruned(m, First(m, MAX_CLEANUP_MSGS), now)
  }

  function Check(owner: nat, m: Replay, c: Call): Outcome {
    if c.senderKey != owner then Thrown(101)
    else if c.expireAt <= c.now then Thrown(57)
    else if c.hash in m then Thrown(102)
    else Transferred
  }

  /** A call that passes the check is recorded, transfers, and prunes the map. */
  function Step(v: Version, owner: nat, m: Replay, c: Call): Replay {
    if Check(owner, m, c).Thrown? then m else Gc(v, m[c.hash := c.expireAt], c.now)
  }

  function Run(v: Version, owner: nat, calls: seq<Call>): Replay {
    if calls == [] then map[] else Step(v, owner, Run(v, owner, calls[..|calls| - 1]), calls[|calls| - 1])
  }

  /** What the giver answers to the last call of a run. */
  function Answer(v: Version, owner: nat, calls: seq<Call>): Outcome
    requires calls != []
  {
    Check(owner, Run(v, owner, calls[..|calls| - 1]), calls[|calls| - 1])
  }

  // ---- the ideal giver never forgets ----

  function Memory(owner: nat, calls: seq<Call>): Replay {
    if calls == [] then map[] else
      var memory, c := Memory(owner, calls[..|calls| - 1]), calls[|calls| - 1];
      if Check(owner, memory, c).Thrown? then memory else memory[c.hash := c.expireAt]
  }

  function IdealAnswer(owner: nat, calls: seq<Call>): Outcome
    requires calls != []
  {
    Check(owner, Memory(owner, calls[..|calls| - 1]), calls[|calls| - 1])
  }

  /** Time does not go back, and the hash determines the expiry time, which is part of what is hashed. */
  ghost predicate Plausible(calls: seq<Call>) {
    && (forall i, j | 0 <= i < j < |calls| :: calls[i].now <= calls[j].now)
    && (forall i, j | 0 <= i < j < |calls| && calls[i].hash == calls[j].hash :: calls[i].expireAt == calls[j].expireAt)
  }

  /** The map holds part of the memory, and what it has forgotten has expired. */
  ghost predicate ForgetsOnlyExpired(m: Replay, memory: Replay, now: nat) {
    && (forall h | h in m :: h in memory && m[h] == memory[h])
    && (forall h | h in memory :: h in m || memory[h] <= now)
  }

  lemma GcDeletesOnlyExpired(v: Version, m: Replay, memory: Replay, now: nat)
    requires ForgetsOnlyExpired(m, memory, now)
    ensures ForgetsOnlyExpired(Gc(v, m, now), memory, now)
  {
    hide First;
  }

  ghost predicate Remembered(calls: seq<Call>, h: nat, expireAt: nat) {
    exists i :: 0 <= i < |calls| && calls[i].hash == h && calls[i].expireAt == expireAt
  }

  lemma {:induction false} MemoryComesFromCalls(owner: nat, calls: seq<Call>, h: nat)
    requires h in Memory(owner, calls)
    ensures Remembered(calls, h, Memory(owner, calls)[h])
  {
    var front, c := calls[..|calls| - 1], calls[|calls| - 1];
    if Memory(owner, calls) != Memory(owner, front) && h == c.hash {
      assert calls[|calls| - 1].hash == h;
    } else {
      MemoryComesFromCalls(owner, front, h);
      var i :| 0 <= i < |front| && front[i].hash == h && front[i].expireAt == Memory(owner, front)[h];
      assert calls[i] == front[i];
    }
  }

  /** A hash that the ideal giver remembers and the map has forgotten cannot pass the expiry check again. */
  lemma SameAnswer(v: Version, owner: nat, calls: seq<Call>)
    requires calls != [] && Plausible(calls)
    requires var front := calls[..|calls| - 1];
      front != [] ==> ForgetsOnlyExpired(Run(v, owner, front), Memory(owner, front), front[|front| - 1].now)
    ensures Answer(v, owner, calls) == IdealAnswer(owner, calls)
  {
    var front, c := calls[..|calls| - 1], calls[|calls| - 1];
    hide Run, Memory;
    if front != [] && c.hash in Memory(owner, front) {
      MemoryComesFromCalls(owner, front, c.hash);
      var memory := Memory(owner, front);
      assert Remembered(front, c.hash, memory[c.hash]);
      var i :| 0 <= i < |front| && front[i].hash == c.hash && front[i].expireAt == memory[c.hash];
      assert calls[i].hash == calls[|calls| - 1].hash;
    }
    assert front == [] ==> Run(v, owner, front) == Memory(owner, front) == map[] by {
      EmptyRun(v, owner);
    }
  }

  lemma EmptyRun(v: Version, owner: nat)
    ensures Run(v, owner, []) == Memory(owner, []) == map[]
  {
  }

  /** Every accepted hash is still in the map, or its expiry time has come. */
  lemma {:induction false} AcceptedIsKeptOrExpired(v: Version, owner: nat, calls: seq<Call>)
    requires calls != [] && Plausible(calls)
    ensures ForgetsOnlyExpired(Run(v, owner, calls), Memory(owner, calls), calls[|calls| - 1].now)
  {
    var front, c := calls[..|calls| - 1], calls[|calls| - 1];
    if front == [] {
    } else {
      AcceptedIsKeptOrExpired(v, owner, front);
    }
    SameAnswer(v, owner, calls);
    hide Gc;
    var m, memory := Run(v, owner, front), Memory(owner, front);
    assert ForgetsOnlyExpired(m, memory, c.now);
    if Answer(v, owner, calls).Transferred? {
      GcDeletesOnlyExpired(v, m[c.hash := c.expireAt], memory[c.hash := c.expireAt], c.now);
    }
  }

  /** Main result: pruning cannot be observed. Whatever the run, each call is answered, with the same code, as by a
      giver that never forgets. */
  lemma PruningIsInvisible(v: Version, owner: nat, calls: seq<Call>)
    requires calls != [] && Plausible(calls)
    ensures Answer(v, owner, calls) == IdealAnswer(owner, calls)
  {
    var front := calls[..|calls| - 1];
    if front != [] {
      AcceptedIsKeptOrExpired(v, owner, front);
    }
    SameAnswer(v, owner, calls);
  }

  ghost predicate Accepts(v: Version, owner: nat, calls: seq<Call>, i: nat)
    requires i < |calls|
  {
    Answer(v, owner, calls[..i + 1]).Transferred?
  }

  lemma {:induction false} MemoryGrows(owner: nat, calls: seq<Call>, n: nat)
    requires n <= |calls|
    ensures Memory(owner, calls[..n]).Keys <= Memory(owner, calls).Keys
  {
    if n < |calls| {
      var front := calls[..|calls| - 1];
      MemoryGrows(owner, front, n);
      assert front[..n] == calls[..n];
    } else {
      assert calls[..n] == calls;
    }
  }

  /** No hash is accepted twice. */
  lemma AcceptedAtMostOnce(v: Version, owner: nat, calls: seq<Call>, i: nat, j: nat)
    requires Plausible(calls) && i < j < |calls|
    requires Accepts(v, owner, calls, i) && Accepts(v, owner, calls, j)
    ensures calls[i].hash != calls[j].hash
  {
    var first, second := calls[..i + 1], calls[..j + 1];
    PruningIsInvisible(v, owner, first);
    PruningIsInvisible(v, owner, second);
    hide Run;
    assert first[..i] == calls[..i] && second[..j] == calls[..j] && calls[..j][..i + 1] == first;
    MemoryGrows(owner, calls[..j], i + 1);
    assert calls[i].hash in Memory(owner, first);
  }

  // ---- without any assumption on time ----

  /** Call `k` of the run is accepted when the expiry time of a hash has come, and V3 reaches the hash in its walk. */
  ghost predicate Forgets(v: Version, owner: nat, calls: seq<Call>, k: nat, h: nat, expireAt: nat)
    requires k < |calls|
  {
    && Accepts(v, owner, calls, k) && calls[k].now >= expireAt
    && (v.V3? ==> h in First(Run(v, owner, calls[..k])[calls[k].hash := calls[k].expireAt], 30))
  }

  /** Some call after `i` makes the giver forget the hash of call `i`. */
  ghost predicate ForgottenSince(v: Version, owner: nat, calls: seq<Call>, i: nat)
    requires i < |calls|
  {
    exists k :: i < k < |calls| && Forgets(v, owner, calls, k, calls[i].hash, calls[i].expireAt)
  }

  /** Call `i` is the last one of its hash to be accepted. */
  ghost predicate LastAccepted(v: Version, owner: nat, calls: seq<Call>, i: nat)
    requires i < |calls|
  {
    Accepts(v, owner, calls, i)
    && forall k | i < k < |calls| && calls[k].hash == calls[i].hash :: !Accepts(v, owner, calls, k)
  }

  lemma SamePast(v: Version, owner: nat, calls: seq<Call>, n: nat, k: nat, h: nat, expireAt: nat)
    requires k < n <= |calls|
    ensures Accepts(v, owner, calls[..n], k) == Accepts(v, owner, calls, k)
    ensures Forgets(v, owner, calls[..n], k, h, expireAt) == Forgets(v, owner, calls, k, h, expireAt)
  {
    hide Answer, Run, First;
    assert calls[..n][..k + 1] == calls[..k + 1] && calls[..n][..k] == calls[..k];
  }

  lemma LastAcceptedBefore(v: Version, owner: nat, calls: seq<Call>, n: nat, i: nat)
    requires i < n <= |calls| && Accepts(v, owner, calls, i)
    requires forall k | i < k < n && calls[k].hash == calls[i].hash :: !Accepts(v, owner, calls, k)
    ensures LastAccepted(v, owner, calls[..n], i)
  {
    hide Accepts, Forgets;
    SamePast(v, owner, calls, n, i, 0, 0);
    forall k | i < k < n && calls[k].hash == calls[i].hash ensures !Accepts(v, owner, calls[..n], k) {
      SamePast(v, owner, calls, n, k, 0, 0);
    }
  }

  lemma ForgottenOneMore(v: Version, owner: nat, calls: seq<Call>, i: nat)
    requires i + 1 < |calls|
    ensures ForgottenSince(v, owner, calls, i)
      <==> (ForgottenSince(v, owner, calls[..|calls| - 1], i)
            || Forgets(v, owner, calls, |calls| - 1, calls[i].hash, calls[i].expireAt))
  {
    hide Forgets, Accepts;
    var n, h, e := |calls| - 1, calls[i].hash, calls[i].expireAt;
    forall k: nat | k < n ensures Forgets(v, owner, calls[..n], k, h, e) == Forgets(v, owner, calls, k, h, e) {
      SamePast(v, owner, calls, n, k, h, e);
    }
    if ForgottenSince(v, owner, calls, i) {
      var k :| i < k < |calls| && Forgets(v, owner, calls, k, h, e);
      assert k < n ==> Forgets(v, owner, calls[..n], k, h, e);
    }
    if ForgottenSince(v, owner, calls[..n], i) {
      var k :| i < k < n && Forgets(v, owner, calls[..n], k, h, e);
      assert Forgets(v, owner, calls, k, h, e);
    }
  }

  /** The hash is in the map until it is forgotten. */
  lemma {:induction false} RememberedUntilForgotten(v: Version, owner: nat, calls: seq<Call>, i: nat)
    requires i < |calls| && LastAccepted(v, owner, calls, i)
    ensures var m := Run(v, owner, calls);
      && (calls[i].hash in m <==> !ForgottenSince(v, owner, calls, i))
      && (calls[i].hash in m ==> m[calls[i].hash] == calls[i].expireAt)
    decreases |calls|
  {
    var n := |calls| - 1;
    var front, c := calls[..n], calls[n];
    assert calls[..n + 1] == calls;
    hide First, Forgets;
    if i < n {
      LastAcceptedBefore(v, owner, calls, n, i);
      RememberedUntilForgotten(v, owner, front, i);
      ForgottenOneMore(v, owner, calls, i);
      StepForgets(v, owner, calls, calls[i].hash, calls[i].expireAt);
    }
  }

  /** What the last call does to a hash that is not its own. */
  lemma StepForgets(v: Version, owner: nat, calls: seq<Call>, h: nat, expireAt: nat)
    requires calls != []
    requires Accepts(v, owner, calls, |calls| - 1) ==> calls[|calls| - 1].hash != h
    requires var m := Run(v, owner, calls[..|calls| - 1]); h in m ==> m[h] == expireAt
    ensures var m, m' := Run(v, owner, calls[..|calls| - 1]), Run(v, owner, calls);
      && (h in m' <==> h in m && !Forgets(v, owner, calls, |calls| - 1, h, expireAt))
      && (h in m' ==> m'[h] == expireAt)
  {
    assert calls[..|calls|] == calls;
  }

  /** Some call between `i` and `j` makes the giver forget the hash of call `i`. */
  ghost predicate ForgottenBetween(v: Version, owner: nat, calls: seq<Call>, i: nat, j: nat)
    requires i < j <= |calls|
  {
    exists k :: i < k < j && Forgets(v, owner, calls, k, calls[i].hash, calls[i].expireAt)
  }

  lemma ForgottenInPast(v: Version, owner: nat, calls: seq<Call>, i: nat, j: nat)
    requires i < j <= |calls|
    ensures ForgottenSince(v, owner, calls[..j], i) == ForgottenBetween(v, owner, calls, i, j)
  {
    hide Forgets, Accepts;
    var past, h, e := calls[..j], calls[i].hash, calls[i].expireAt;
    forall k | i < k < j ensures Forgets(v, owner, past, k, h, e) == Forgets(v, owner, calls, k, h, e) {
      SamePast(v, owner, calls, j, k, h, e);
    }
    if ForgottenSince(v, owner, past, i) {
      var k :| i < k < j && Forgets(v, owner, past, k, h, e);
      assert Forgets(v, owner, calls, k, h, e);
    }
    if ForgottenBetween(v, owner, calls, i, j) {
      var k :| i < k < j && Forgets(v, owner, calls, k, h, e);
      assert Forgets(v, owner, past, k, h, e);
    }
  }

  /** When exactly a hash that was accepted is accepted again, whatever the times: the giver has forgotten it, because a
      call accepted since then came when its expiry time had come (and, in V3, reached it), and the new call itself
      has not expired. */
  lemma AcceptedAgainIff(v: Version, owner: nat, calls: seq<Call>, i: nat, j: nat)
    requires i < j < |calls| && calls[j].hash == calls[i].hash && Accepts(v, owner, calls, i)
    requires forall k | i < k < j && calls[k].hash == calls[i].hash :: !Accepts(v, owner, calls, k)
    ensures Accepts(v, owner, calls, j)
      <==> (calls[j].senderKey == owner && calls[j].now < calls[j].expireAt
            && ForgottenBetween(v, owner, calls, i, j))
  {
    LastAcceptedBefore(v, owner, calls, j, i);
    RememberedUntilForgotten(v, owner, calls[..j], i);
    ForgottenInPast(v, owner, calls, i, j);
    hide ForgottenSince, ForgottenBetween, Run, LastAccepted;
    assert calls[..j + 1][..j] == calls[..j];
  }

  lemma LastAcceptedMore(v: Version, owner: nat, calls: seq<Call>, i: nat)
    requires i + 1 < |calls| && LastAccepted(v, owner, calls[..|calls| - 1], i)
    requires var last := calls[|calls| - 1]; last.hash == calls[i].hash ==> !Accepts(v, owner, calls, |calls| - 1)
    ensures LastAccepted(v, owner, calls, i)
  {
    hide Accepts, Forgets;
    var n := |calls| - 1;
    SamePast(v, owner, calls, n, i, 0, 0);
    forall k | i < k < n && calls[k].hash == calls[i].hash ensures !Accepts(v, owner, calls, k) {
      SamePast(v, owner, calls, n, k, 0, 0);
      assert calls[..n][k].hash == calls[..n][i].hash;
    }
  }

  /** A hash in the map comes from a call that was accepted, and no later one of that hash was. */
  lemma {:induction false} InMapWasAccepted(v: Version, owner: nat, calls: seq<Call>, h: nat) returns (i: nat)
    requires h in Run(v, owner, calls)
    ensures i < |calls| && calls[i].hash == h && LastAccepted(v, owner, calls, i)
    decreases |calls|
  {
    var n := |calls| - 1;
    var front, c := calls[..n], calls[n];
    assert calls[..n + 1] == calls;
    hide First;
    if h in Run(v, owner, front) {
      i := InMapWasAccepted(v, owner, front, h);
      LastAcceptedMore(v, owner, calls, i);
    } else {
      i := n;
    }
  }

  /** Call `i` was accepted with the hash of the last call, and the giver has not forgotten it since. */
  ghost predicate Remembers(v: Version, owner: nat, calls: seq<Call>, i: nat)
    requires calls != []
  {
    var n := |calls| - 1;
    && i < n && calls[i].hash == calls[n].hash
    && LastAccepted(v, owner, calls[..n], i) && !ForgottenSince(v, owner, calls[..n], i)
  }

  /** Every answer in terms of the calls so far: 101 to anybody but the owner, 57 when the message has expired, 102 when
      a call with this hash was accepted and has not been forgotten since, and otherwise the transfer is made. */
  lemma AnswersIff(v: Version, owner: nat, calls: seq<Call>)
    requires calls != []
    ensures var c := calls[|calls| - 1];
      Answer(v, owner, calls) ==
        if c.senderKey != owner then Thrown(101)
        else if c.now >= c.expireAt then Thrown(57)
        else if exists i: nat :: Remembers(v, owner, calls, i) then Thrown(102)
        else Transferred
  {
    hide ForgottenSince, LastAccepted, Run;
    var n := |calls| - 1;
    var front, h := calls[..n], calls[n].hash;
    if h in Run(v, owner, front) {
      var i := InMapWasAccepted(v, owner, front, h);
      RememberedUntilForgotten(v, owner, front, i);
      assert Remembers(v, owner, calls, i);
    }
    forall i: nat | Remembers(v, owner, calls, i) ensures h in Run(v, owner, front) {
      RememberedUntilForgotten(v, owner, front, i);
    }
  }

  /** While time does not go back, the owner's unexpired message is refused exactly when it was accepted before. */
  lemma RefusedIffAccepted(v: Version, owner: nat, calls: seq<Call>)
    requires calls != [] && Plausible(calls)
    requires calls[|calls| - 1].senderKey == owner && calls[|calls| - 1].now < calls[|calls| - 1].expireAt
    ensures Answer(v, owner, calls) == Thrown(102)
      <==> exists i: nat :: i + 1 < |calls| && calls[i].hash == calls[|calls| - 1].hash && Accepts(v, owner, calls, i)
  {
    var n := |calls| - 1;
    assert calls[..n + 1] == calls;
    AnswersIff(v, owner, calls);
    if Answer(v, owner, calls) == Thrown(102) {
      var i: nat :| Remembers(v, owner, calls, i);
      SamePast(v, owner, calls, n, i, 0, 0);
    } else {
      forall i: nat | i < n && Accepts(v, owner, calls, i) ensures calls[i].hash != calls[n].hash {
        AcceptedAtMostOnce(v, owner, calls, i, n);
      }
    }
  }

  lemma AllAreFirst(m: Replay, n: nat)
    requires |m.Keys| <= n
    ensures First(m, n) == m.Keys
  {
    forall h | h in m ensures Rank(m.Keys, h) < n {
      assert Below(m.Keys, h) <= m.Keys - {h};
      SubsetSize(Below(m.Keys, h), m.Keys - {h});
    }
  }

  /** What an accepted call leaves of a small map. */
  lemma GcOfFew(v: Version, m: Replay, now: nat)
    requires |m.Keys| <= MAX_CLEANUP_MSGS
    ensures Gc(v, m, now) == Pruned(m, m.Keys, now)
  {
    AllAreFirst(m, MAX_CLEANUP_MSGS);
  }

  /** So it happens: with a clock that goes back either giver accepts the same message twice. */
  lemma ClockGoingBackReplays(v: Version, owner: nat, a: Call, b: Call, again: Call)
    requires a.senderKey == owner && b.senderKey == owner && a.now < a.expireAt
    requires b.hash != a.hash && a.expireAt <= b.now < b.expireAt
    requires again == a.(now := again.now) && again.now < a.expireAt
    ensures var calls := [a, b, again]; Accepts(v, owner, calls, 0) && Accepts(v, owner, calls, 2)
  {
    var calls := [a, b, again];
    assert calls[..1] == [a] && calls[..3] == calls && calls[..2] == [a, b];
    assert [a][..0] == [] && [a, b][..1] == [a];
    var m1, m2 := map[a.hash := a.expireAt], map[a.hash := a.expireAt, b.hash := b.expireAt];
    assert m1.Keys == {a.hash} && m2.Keys == {a.hash, b.hash};
    GcOfFew(v, m1, a.now);
    GcOfFew(v, m2, b.now);
    hide Gc;
    assert Run(v, owner, [a]) == m1;
    assert Run(v, owner, [a, b]) == map[b.hash := b.expireAt];
  }
}
