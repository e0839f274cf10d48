/** The giver contracts in their own form. */
module Givers {
  import opened OrderedKeys
  import opened GiverSpec

  /** The keys a walk in ascending order has left behind: all of them once it has ended. */
  function Visited(s: set<nat>, k: nat, walking: bool): set<nat> { if walking then Below(s, k) else s }

  lemma VisitNext(s: set<nat>, k: nat)
    requires k in s
    ensures var later := Above(s, k);
      Visited(s, if later != {} then Least(later) else 0, later != {}) == Below(s, k) + {k}
    ensures |Below(s, k) + {k}| == |Below(s, k)| + 1
  {
    var later := Above(s, k);
    assert forall j | j in s && k < j :: j in later;
  }

  lemma PruneNext(m: Replay, visited: set<nat>, k: nat, now: nat)
    requires k in m && k !in visited
    ensures k in Pruned(m, visited, now)
    ensures Pruned(m, visited + {k}, now)
         == if m[k] <= now then Pruned(m, visited, now) - {k} else Pruned(m, visited, now)
  {
  }

  lemma BelowIsFirst(m: Replay, k: nat)
    requires k in m
    ensures Below(m.Keys, k) == First(m, Rank(m.Keys, k))
  {
    forall h | h in m ensures h < k <==> Rank(m.Keys, h) < Rank(m.Keys, k) {
      if h < k {
        RankIsMonotone(m.Keys, h, k);
      } else if k < h {
        RankIsMonotone(m.Keys, k, h);
      }
    }
  }

  lemma RankIsMonotone(s: set<nat>, a: nat, b: nat)
    requires a in s && b in s && a < b
    ensures Rank(s, a) < Rank(s, b) <= |s| - 1
  {
    assert a !in Below(s, a) && Below(s, a) + {a} <= Below(s, b);
    SubsetSize(Below(s, a) + {a}, Below(s, b));
    assert Below(s, b) <= s - {b};
    SubsetSize(Below(s, b), s - {b});
  }

  class GiverV3 {
    const owner: nat
    var messages: Replay

    constructor (owner: nat)
      ensures this.owner == owner && messages == map[]
    {
      this.owner, messages := owner, map[];
    }

    method AfterSignatureCheck(c: Call) returns (o: Outcome)
      modifies this
      ensures o == Check(owner, old(messages), c)
      ensures messages == if o.Thrown? then old(messages) else old(messages)[c.hash := c.expireAt]
    {
      if c.senderKey != owner {
        return Thrown(101);
      }
      if c.expireAt <= c.now {
        return Thrown(57);
      }
      if c.hash in messages {
        return Thrown(102);
      }
      messages := messages[c.hash := c.expireAt];
      return Transferred;
    }

    /** The loop walks the map as it was when the loop began, and stops after 30 entries. */
    method CollectGarbage(now: nat)
      modifies this
      ensures messages == Gc(V3, old(messages), now)
    {
      var all := messages;
      var keys := all.Keys;
      var counter := 0;
      var walking := keys != {};
      var hash: nat := if walking then Least(keys) else 0;
      assert Visited(keys, hash, walking) == {};
      while walking && counter < MAX_CLEANUP_MSGS
        invariant walking ==> hash in keys
        invariant counter == |Visited(keys, hash, walking)| <= MAX_CLEANUP_MSGS
        invariant messages == Pruned(all, Visited(keys, hash, walking), now)
        decreases if walking then |Above(keys, hash)| + 1 else 0
      {
        hide Pruned;
        VisitNext(keys, hash);
        PruneNext(all, Below(keys, hash), hash, now);
        counter := counter + 1;
        if all[hash] <= now {
          messages := messages - {hash};
        }
        var later := Above(keys, hash);
        walking := later != {};
        if walking {
          FewerAbove(keys, hash, Least(later));
        }
        hash := if walking then Least(later) else 0;
      }
      if walking {
        BelowIsFirst(all, hash);
      } else {
        AllAreFirst(all, MAX_CLEANUP_MSGS);
      }
    }

    /** A signed external call of sendTransaction. */
    method SendTransaction(c: Call) returns (o: Outcome)
      modifies this
      ensures o == Check(owner, old(messages), c) && messages == Step(V3, owner, old(messages), c)
    {
      o := AfterSignatureCheck(c);
      if o.Transferred? {
        CollectGarbage(c.now);
      }
    }
  }

  class GiverV2 {
    const owner: nat
    var messages: Replay

    constructor (owner: nat)
      ensures this.owner == owner && messages == map[]
    {
      this.owner, messages := owner, map[];
    }

    method AfterSignatureCheck(c: Call) returns (o: Outcome)
      modifies this
      ensures o == Check(owner, old(messages), c)
      ensures messages == if o.Thrown? then old(messages) else old(messages)[c.hash := c.expireAt]
    {
      if c.senderKey != owner {
        return Thrown(101);
      }
      if c.expireAt <= c.now {
        return Thrown(57);
      }
      if c.hash in messages {
        return Thrown(102);
      }
      messages := messages[c.hash := c.expireAt];
      return Transferred;
    }

    /** The loop deletes from the map it is walking: `next` is asked for the key after one that may be gone. */
    method CollectGarbage(now: nat)
      modifies this
      ensures messages == Gc(V2, old(messages), now)
    {
      ghost var all := messages;
      var ok := messages.Keys != {};
      var hash: nat := if ok then Least(messages.Keys) else 0;
      assert Visited(all.Keys, hash, ok) == {};
      while ok
        invariant ok ==> hash in all && hash in messages
        invariant messages == Pruned(all, Visited(all.Keys, hash, ok), now)
        decreases if ok then |Above(all.Keys, hash)| + 1 else 0
      {
        VisitNext(all.Keys, hash);
        PruneNext(all, Below(all.Keys, hash), hash, now);
        if messages[hash] <= now {
          messages := messages - {hash};
        }
        var later := Above(messages.Keys, hash);
        assert later == Above(all.Keys, hash);
        ok := later != {};
        if ok {
          FewerAbove(all.Keys, hash, Least(later));
        }
        hash := if ok then Least(later) else 0;
      }
    }

    /** A signed external call of sendTransaction. */
    method SendTransaction(c: Call) returns (o: Outcome)
      modifies this
      ensures o == Check(owner, old(messages), c) && messages == Step(V2, owner, old(messages), c)
    {
      o := AfterSignatureCheck(c);
      if o.Transferred? {
        CollectGarbage(c.now);
      }
    }
  }
}
