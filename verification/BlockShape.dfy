/** The closed form of a block: which messages it runs, in which order, and what it leaves in the queue. */
module BlockShape {
  import opened Common
  import opened Messages
  import opened Executor
  import opened BlockSpec
  import opened Trace
  import opened BlockLaws
  import opened ValueFlow

  /** The part of the state that only transactions change. */
  ghost function Core(s: BlockState): BlockState { s.(newMessages := [], outQueue := {}, inMsgDescr := {}) }

  /** What every step of a build keeps, whichever phase it belongs to. */
  ghost predicate Kept(env: BlockEnv, before: nat, s: BlockState) {
    && InInterval(env.startLt, s.endLt, s.trace) && env.startLt < s.endLt
    && AccountTimesIncrease(s.trace) && AccountsFollow(s.trace, s.accounts)
    && SourcesInOrder(s.trace, s.accounts)
    && StartedWithinLimit(env.gasLimit, s.trace) && s.gasUsed == GasOf(s.trace)
    && |s.trace| <= s.processed && (env.seqMode ==> |s.trace| <= 1)
    && (NoProvider(env) ==> ValueKept(before, s.accounts, s.copyleftRewards, s.trace))
  }

  lemma KeptByTransaction(env: BlockEnv, before: nat, s: BlockState, id: AccountId, m: InMsg)
    requires Lawful(env.executor) && PrepareIn(env, s, id, m).Prepared?
    requires Kept(env, before, Core(s)) && !LimitReached(env, s)
    ensures Kept(env, before, Core(Added(s, id, m, PrepareIn(env, s, id, m).tx)))
  {
    hide InInterval, AccountTimesIncrease, AccountsFollow, SourcesInOrder, StartedWithinLimit, ValueKept, LawfulStep;
    var t := PrepareIn(env, s, id, m).tx;
    LawfulPrepare(env, s, id, m);
    AddedInInterval(env, s, id, m, t);
    AddedAccountTimes(env, s, id, m, t);
    AddedAccountsFollow(env, s, id, m, t);
    AddedSourcesInOrder(env, s, id, m, t);
    AddedGas(env, s, id, m, t);
    if NoProvider(env) {
      AddedValue(env, before, s, id, m, t);
    }
  }

  lemma LoggedByTransaction(env: BlockEnv, start: Books, j: Journal, s: BlockState, m: InMsg) returns (j': Journal)
    requires Lawful(env.executor) && PrepareIn(env, s, Target(m), m).Prepared?
    requires Logged(env, start, j, Core(s)) && !LimitReached(env, s)
    ensures Logged(env, start, j', Core(Added(s, Target(m), m, PrepareIn(env, s, Target(m), m).tx)))
    ensures var t := PrepareIn(env, s, Target(m), m).tx;
      j' == Append(j, Entry(m, Some(Record(Target(m), m, t))), Last(j')) && j'.books != []
    ensures MessagesOf(j'.entries) == MessagesOf(j.entries) + [m]
  {
    hide Honest, PrepareIn, Lawful, Added, MessagesOf;
    j' := LoggedTransaction(env, start, j, s, m);
  }

  /** The message that is next cannot be run. */
  lemma LoggedStuck(env: BlockEnv, start: Books, j: Journal, s: BlockState, m: Message)
    requires PrepareIn(env, s, m.dst.account, Internal(m)).NotPrepared?
    requires Logged(env, start, j, Core(s)) && !LimitReached(env, s)
    ensures Stuck(env, start, j, m)
  {
    UnpreparedCannotRun(env, s, Internal(m));
    hide Honest, PrepareIn, CannotRun;
  }

  /** After `k` imports and `taken` messages off the worklist, of which the first `c` were taken while the block
      was open. */
  ghost predicate ShapeOf(
    shard: Shard, sorted: seq<Message>, k: nat, c: nat, taken: nat, ran: seq<Message>, emitted: seq<Message>,
    newMessages: seq<Message>, outQueue: set<Message>, inMsgDescr: set<Message>)
  {
    && k <= |sorted| && c <= taken <= |emitted|
    && ran == sorted[..k] + Split(shard, true, emitted[..c])
    && newMessages == emitted[taken..]
    && outQueue == SetOf(sorted[k..]) + SetOf(Split(shard, false, emitted[..c])) + SetOf(emitted[c..taken])
    && inMsgDescr == SetOf(ran)
  }

  ghost predicate Shape(env: BlockEnv, sorted: seq<Message>, k: nat, c: nat, taken: nat, s: BlockState) {
    ShapeOf(env.shard, sorted, k, c, taken, Ran(s.trace), Emitted(s.trace), s.newMessages, s.outQueue, s.inMsgDescr)
  }

  /** The form of a finished block: the `k` oldest messages of the saved queue ran first, then the messages
      for this shard among the first `c` new ones, in creation order; everything else is in the new queue.
      When the import did not come to its end, no new message ran; a block that ends within its limits has
      imported the whole queue and closed to no new message. */
  ghost predicate BlockForm(env: BlockEnv, sorted: seq<Message>, k: nat, c: nat, s: BlockState) {
    && Shape(env, sorted, k, c, |Emitted(s.trace)|, s)
    && (k < |sorted| ==> c == 0)
    && (s.gasUsed <= env.gasLimit && (env.seqMode ==> s.processed == 0) ==> k == |sorted| && c == |Emitted(s.trace)|)
  }

  lemma ShapeOfImport(env: BlockEnv, sorted: seq<Message>, k: nat, s: BlockState, t: TxResult)
    requires k < |sorted| && Shape(env, sorted, k, 0, 0, s)
    requires NoRepeat(sorted)
    ensures
      var added := Added(s, sorted[k].dst.account, Internal(sorted[k]), t);
      Shape(env, sorted, k + 1, 0, 0, added.(outQueue := added.outQueue - {sorted[k]}))
  {
    hide Emitted, Ran;
    TraceAppend(s.trace, Record(sorted[k].dst.account, Internal(sorted[k]), t));
    assert Emitted(s.trace)[..0] == (Emitted(s.trace) + t.outs)[..0];
    assert sorted[..k + 1] == sorted[..k] + [sorted[k]];
    assert SetOf(sorted[k..]) - {sorted[k]} == SetOf(sorted[k + 1..]);
  }

  lemma {:induction false} ImportKeeps(
    env: BlockEnv, before: nat, start: Books, j: Journal, s: BlockState, sorted: seq<Message>, k: nat)
    returns (k': nat, j': Journal)
    requires Lawful(env.executor) && k <= |sorted| && NoRepeat(sorted)
    requires Kept(env, before, Core(s)) && !LimitReached(env, s) && Shape(env, sorted, k, 0, 0, s)
    requires Logged(env, start, j, Core(s)) && MessagesOf(j.entries) == AsInternal(sorted[..k])
    ensures k <= k' <= |sorted| && MessagesOf(j'.entries) == AsInternal(sorted[..k'])
    ensures var r := Import(env, s, sorted[k..]);
      if r.Failed? then k' < |sorted| && Stuck(env, start, j', sorted[k']) else
        && Kept(env, before, Core(r.state)) && Shape(env, sorted, k', 0, 0, r.state)
        && Logged(env, start, j', Core(r.state))
        && (!r.full ==> k' == |sorted|)
        && r.full == LimitReached(env, r.state)
    decreases |sorted| - k
  {
    hide Kept, Shape, LimitReached, PrepareIn, Added, Logged, Stuck;
    k', j' := k, j;
    if k < |sorted| {
      var m := sorted[k];
      assert sorted[k..][0] == m && sorted[k..][1..] == sorted[k + 1..];
      assert AsInternal(sorted[..k + 1]) == AsInternal(sorted[..k]) + [Internal(m)];
      hide MessagesOf, AsInternal;
      var p := PrepareIn(env, s, m.dst.account, Internal(m));
      if p.NotPrepared? {
        LoggedStuck(env, start, j, s, m);
      } else {
        KeptByTransaction(env, before, s, m.dst.account, Internal(m));
        ShapeOfImport(env, sorted, k, s, p.tx);
        j' := LoggedByTransaction(env, start, j, s, Internal(m));
        var added := Added(s, m.dst.account, Internal(m), p.tx);
        var s' := added.(outQueue := added.outQueue - {m});
        k' := k + 1;
        if !LimitReached(env, s') {
          k', j' := ImportKeeps(env, before, start, j', s', sorted, k + 1);
        }
      }
    }
  }

  lemma ShapeOfTransaction(
    env: BlockEnv, sorted: seq<Message>, k: nat, s: BlockState, id: AccountId, e: ExtMessage, t: TxResult)
    requires Shape(env, sorted, k, 0, 0, s)
    ensures Shape(env, sorted, k, 0, 0, Added(s, id, External(e), t))
  {
    hide Emitted, Ran;
    TraceAppend(s.trace, Record(id, External(e), t));
    assert Emitted(s.trace)[..0] == (Emitted(s.trace) + t.outs)[..0];
  }

  lemma ExternalKeeps(env: BlockEnv, before: nat, s: BlockState, e: ExtMessage, sorted: seq<Message>, k: nat)
    requires Lawful(env.executor)
    requires Kept(env, before, Core(s)) && !LimitReached(env, s) && Shape(env, sorted, k, 0, 0, s)
    ensures var s' := AfterExternal(env, s, e); Kept(env, before, Core(s')) && Shape(env, sorted, k, 0, 0, s')
  {
    var p := PrepareIn(env, s, e.account, External(e));
    if p.Prepared? {
      KeptByTransaction(env, before, s, e.account, External(e));
      ShapeOfTransaction(env, sorted, k, s, e.account, e, p.tx);
    }
  }

  lemma LoggedByExternal(env: BlockEnv, start: Books, j: Journal, s: BlockState, e: ExtMessage) returns (j': Journal)
    requires Lawful(env.executor) && Logged(env, start, j, Core(s)) && !LimitReached(env, s)
    ensures Logged(env, start, j', Core(AfterExternal(env, s, e)))
    ensures MessagesOf(j'.entries) == MessagesOf(j.entries) + [External(e)]
  {
    hide Honest, PrepareIn, Lawful, MessagesOf;
    if PrepareIn(env, s, e.account, External(e)).Prepared? {
      j' := LoggedByTransaction(env, start, j, s, External(e));
    } else {
      j' := LoggedFailure(env, start, j, s, e);
    }
  }

  lemma {:induction false} ExternalsKeep(
    env: BlockEnv, before: nat, start: Books, j: Journal, s: BlockState, exts: seq<ExtMessage>, x: nat,
    sorted: seq<Message>, k: nat, base: seq<InMsg>)
    returns (x': nat, j': Journal)
    requires Lawful(env.executor) && x <= |exts|
    requires Kept(env, before, Core(s)) && !LimitReached(env, s) && Shape(env, sorted, k, 0, 0, s)
    requires Logged(env, start, j, Core(s)) && MessagesOf(j.entries) == base + AsExternal(exts[..x])
    ensures x <= x' <= |exts| && MessagesOf(j'.entries) == base + AsExternal(exts[..x'])
    ensures var r := Externals(env, s, exts[x..]);
      && Kept(env, before, Core(r.state)) && Shape(env, sorted, k, 0, 0, r.state)
      && Logged(env, start, j', Core(r.state))
      && r.rest == exts[x'..] && (!r.full ==> x' == |exts|)
      && r.full == LimitReached(env, r.state)
    decreases |exts| - x
  {
    hide Kept, Shape, AfterExternal, Core, LimitReached, Logged;
    x', j' := x, j;
    if x < |exts| {
      var e, s' := exts[x], AfterExternal(env, s, exts[x]);
      assert exts[x..][0] == e && exts[x..][1..] == exts[x + 1..];
      assert AsExternal(exts[..x + 1]) == AsExternal(exts[..x]) + [External(e)];
      hide MessagesOf, AsExternal;
      ConcatAssociates(base, AsExternal(exts[..x]), [External(e)]);
      ExternalKeeps(env, before, s, e, sorted, k);
      j' := LoggedByExternal(env, start, j, s, e);
      x' := x + 1;
      if !LimitReached(env, s') {
        x', j' := ExternalsKeep(env, before, start, j', s', exts, x + 1, sorted, k, base);
      }
    }
  }

  /** The state of the worklist between two steps. */
  ghost predicate Working(env: BlockEnv, sorted: seq<Message>, k: nat, c: nat, taken: nat, s: BlockState, full: bool) {
    && Shape(env, sorted, k, c, taken, s)
    && (k < |sorted| ==> c == 0 && full)
    && (!full ==> c == taken)
    && full == LimitReached(env, s)
  }

  function TakeFirst(s: BlockState): BlockState
    requires s.newMessages != []
  {
    s.(newMessages := s.newMessages[1..])
  }

  lemma ShapeOfClosed(env: BlockEnv, sorted: seq<Message>, k: nat, c: nat, taken: nat, s: BlockState)
    requires Shape(env, sorted, k, c, taken, s) && s.newMessages != []
    ensures Shape(env, sorted, k, c, taken + 1, TakeFirst(s).(outQueue := s.outQueue + {s.newMessages[0]}))
  {
    hide Split, Emitted, Ran;
    var emitted := Emitted(s.trace);
    assert emitted[c..taken + 1] == emitted[c..taken] + [s.newMessages[0]];
  }

  lemma ShapeOfForeign(env: BlockEnv, sorted: seq<Message>, k: nat, c: nat, s: BlockState)
    requires Shape(env, sorted, k, c, c, s) && s.newMessages != [] && !InShard(env.shard, s.newMessages[0])
    ensures Shape(env, sorted, k, c + 1, c + 1, TakeFirst(s).(outQueue := s.outQueue + {s.newMessages[0]}))
  {
    hide Split, Emitted, Ran;
    var m, emitted := s.newMessages[0], Emitted(s.trace);
    assert emitted[..c + 1] == emitted[..c] + [m];
    SplitAppend(env.shard, true, emitted[..c], m);
    SplitAppend(env.shard, false, emitted[..c], m);
  }

  lemma RunTakesOne(
    shard: Shard, sorted: seq<Message>, k: nat, c: nat, ran: seq<Message>, emitted: seq<Message>, outs: seq<Message>,
    outQueue: set<Message>, inMsgDescr: set<Message>)
    requires c < |emitted| && InShard(shard, emitted[c])
    requires ShapeOf(shard, sorted, k, c, c, ran, emitted, emitted[c..], outQueue, inMsgDescr)
    ensures ShapeOf(shard, sorted, k, c + 1, c + 1, ran + [emitted[c]], emitted + outs, emitted[c + 1..] + outs,
                    outQueue, inMsgDescr + {emitted[c]})
  {
    hide Split;
    var m, emitted' := emitted[c], emitted + outs;
    assert emitted'[..c + 1] == emitted[..c] + [m];
    SplitAppend(shard, true, emitted[..c], m);
    SplitAppend(shard, false, emitted[..c], m);
    assert emitted[c..c] == emitted'[c + 1..c + 1];
  }

  lemma ShapeOfRun(env: BlockEnv, sorted: seq<Message>, k: nat, c: nat, s: BlockState, t: TxResult)
    requires Shape(env, sorted, k, c, c, s) && s.newMessages != [] && InShard(env.shard, s.newMessages[0])
    ensures
      var m := s.newMessages[0];
      Shape(env, sorted, k, c + 1, c + 1, Added(TakeFirst(s), m.dst.account, Internal(m), t))
  {
    hide Split, Emitted, Ran;
    var m, emitted := s.newMessages[0], Emitted(s.trace);
    TraceAppend(s.trace, Record(m.dst.account, Internal(m), t));
    assert m == emitted[c] && s.newMessages[1..] == emitted[c + 1..];
    RunTakesOne(env.shard, sorted, k, c, Ran(s.trace), emitted, t.outs, s.outQueue, s.inMsgDescr);
  }

  lemma WorkingNext(env: BlockEnv, sorted: seq<Message>, k: nat, c: nat, taken: nat, s: BlockState, full: bool)
    requires Working(env, sorted, k, c, taken, s, full) && s.newMessages != [] && Next(env, s, full).Finished?
    ensures var n := Next(env, s, full);
      Working(env, sorted, k, if full then c else c + 1, taken + 1, n.state, n.full)
  {
    hide Shape;
    var m := s.newMessages[0];
    if full {
      ShapeOfClosed(env, sorted, k, c, taken, s);
    } else if !InShard(env.shard, m) {
      ShapeOfForeign(env, sorted, k, c, s);
    } else {
      ShapeOfRun(env, sorted, k, c, s, PrepareIn(env, TakeFirst(s), m.dst.account, Internal(m)).tx);
    }
  }

  lemma KeptByNext(env: BlockEnv, before: nat, s: BlockState, full: bool)
    requires Lawful(env.executor) && Kept(env, before, Core(s)) && (!full ==> !LimitReached(env, s))
    requires s.newMessages != [] && Next(env, s, full).Finished?
    ensures Kept(env, before, Core(Next(env, s, full).state))
  {
    hide Kept;
    var m := s.newMessages[0];
    if !full && InShard(env.shard, m) {
      assert Core(TakeFirst(s)) == Core(s);
      KeptByTransaction(env, before, TakeFirst(s), m.dst.account, Internal(m));
    }
  }

  /** The messages of the journal: the first ones, and then those that the worklist has run. */
  ghost predicate Told(shard: Shard, base: seq<InMsg>, k: nat, j: Journal, trace: seq<Txn>) {
    && k <= |Ran(trace)| && MessagesOf(j.entries) == base + AsInternal(Ran(trace)[k..])
    && Caused(shard, |base|, j.entries)
  }

  /** A message of the worklist for this shard is one more than those that have run. */
  ghost predicate MoreToRun(shard: Shard, k: nat, trace: seq<Txn>) {
    |Ran(trace)| - k < |Split(shard, true, Emitted(trace))|
  }

  lemma {:induction false} SplitGrows(shard: Shard, ms: seq<Message>, n: nat)
    requires n <= |ms|
    ensures |Split(shard, true, ms[..n])| <= |Split(shard, true, ms)|
  {
    if n == |ms| {
      assert ms[..n] == ms;
    } else {
      SplitGrows(shard, ms[..|ms| - 1], n);
      assert ms[..|ms| - 1][..n] == ms[..n];
    }
  }

  lemma OneMoreToRun(env: BlockEnv, sorted: seq<Message>, k: nat, c: nat, s: BlockState)
    requires Shape(env, sorted, k, c, c, s) && s.newMessages != [] && InShard(env.shard, s.newMessages[0])
    ensures MoreToRun(env.shard, k, s.trace)
  {
    hide Split, Ran, Emitted;
    var emitted := Emitted(s.trace);
    assert emitted[..c + 1] == emitted[..c] + [emitted[c]];
    SplitAppend(env.shard, true, emitted[..c], emitted[c]);
    SplitGrows(env.shard, emitted, c + 1);
  }

  lemma ToldOneMore(
    shard: Shard, base: seq<InMsg>, k: nat, j: Journal, e: Entry, b: Books, trace: seq<Txn>, t: Txn, m: Message)
    requires Told(shard, base, k, j, trace) && t.inMsg == e.m == Internal(m)
    requires trace == Transactions(j.entries) && MoreToRun(shard, k, trace)
    ensures Told(shard, base, k, Append(j, e, b), trace + [t])
  {
    var j' := Append(j, e, b);
    hide Ran, Transactions, Split, Emitted;
    TraceAppend(trace, t);
    assert MessagesOf(j'.entries) == MessagesOf(j.entries) + [Internal(m)];
    assert |MessagesOf(j.entries)| == |j.entries|;
    hide MessagesOf;
    assert Ran(trace + [t])[k..] == Ran(trace)[k..] + [m];
    assert AsInternal(Ran(trace)[k..] + [m]) == AsInternal(Ran(trace)[k..]) + [Internal(m)];
    forall i | |base| <= i < |j'.entries|
      ensures i - |base| < |Split(shard, true, Emitted(Transactions(j'.entries[..i])))|
    {
      assert j'.entries[..i] == j.entries[..i];
      assert i == |j.entries| ==> j.entries[..i] == j.entries;
    }
  }

  lemma LoggedByNext(env: BlockEnv, start: Books, j: Journal, s: BlockState, full: bool, base: seq<InMsg>, k: nat)
    returns (j': Journal)
    requires Lawful(env.executor) && Logged(env, start, j, Core(s)) && (!full ==> !LimitReached(env, s))
    requires Told(env.shard, base, k, j, s.trace) && s.newMessages != []
    requires !full && InShard(env.shard, s.newMessages[0]) ==> MoreToRun(env.shard, k, s.trace)
    ensures var n, m := Next(env, s, full), s.newMessages[0];
      if n.Failed? then !full && InShard(env.shard, m) && j' == j && Stuck(env, start, j, m)
      else Logged(env, start, j', Core(n.state)) && Told(env.shard, base, k, j', n.state.trace)
  {
    assert s.trace == Transactions(j.entries);
    hide Logged, Told, PrepareIn, Lawful, Stuck, MessagesOf;
    var m, s0 := s.newMessages[0], TakeFirst(s);
    j' := j;
    assert Core(s0) == Core(s);
    if !full && InShard(env.shard, m) {
      assert !LimitReached(env, s0);
      hide LimitReached;
      var p := PrepareIn(env, s0, m.dst.account, Internal(m));
      if p.NotPrepared? {
        LoggedStuck(env, start, j, s0, m);
      } else {
        j' := LoggedByTransaction(env, start, j, s0, Internal(m));
        var t := Record(m.dst.account, Internal(m), p.tx);
        ToldOneMore(env.shard, base, k, j, Entry(Internal(m), Some(t)), Last(j'), s.trace, t, m);
      }
    }
  }

  /** Where the worklist stops: the next message of those for this shard cannot be run. */
  ghost predicate StopsAt(env: BlockEnv, start: Books, j: Journal, base: seq<InMsg>, c: nat) {
    var emitted := Emitted(Transactions(j.entries));
    && c < |emitted| && InShard(env.shard, emitted[c]) && Stuck(env, start, j, emitted[c])
    && MessagesOf(j.entries) == base + AsInternal(Split(env.shard, true, emitted[..c]))
    && Caused(env.shard, |base|, j.entries)
  }

  lemma StopsInWork(
    env: BlockEnv, start: Books, j: Journal, s: BlockState, sorted: seq<Message>, k: nat, c: nat, base: seq<InMsg>)
    requires Shape(env, sorted, k, c, c, s) && s.newMessages != [] && InShard(env.shard, s.newMessages[0])
    requires Logged(env, start, j, Core(s)) && Told(env.shard, base, k, j, s.trace)
    requires Stuck(env, start, j, s.newMessages[0])
    ensures StopsAt(env, start, j, base, c)
  {
    hide Stuck, Honest, Ran, Emitted, Transactions, Split, MessagesOf, AsInternal;
    assert Ran(s.trace)[k..] == Split(env.shard, true, Emitted(s.trace)[..c]);
  }

  lemma WorkingDone(env: BlockEnv, sorted: seq<Message>, k: nat, c: nat, taken: nat, s: BlockState, full: bool)
    requires Working(env, sorted, k, c, taken, s, full) && s.newMessages == []
    ensures BlockForm(env, sorted, k, c, s)
  {
    hide Split, SetOf, Ran, Emitted;
  }

  lemma {:induction false} WorklistKeeps(
    env: BlockEnv, before: nat, start: Books, j: Journal, s: BlockState, full: bool, sorted: seq<Message>, k: nat,
    c: nat, taken: nat, base: seq<InMsg>)
    returns (c': nat, j': Journal)
    requires Lawful(env.executor)
    requires Kept(env, before, Core(s)) && Working(env, sorted, k, c, taken, s, full)
    requires Logged(env, start, j, Core(s)) && Told(env.shard, base, k, j, s.trace)
    ensures var w := Worklist(env, s, full);
      if w.Failed? then !full && StopsAt(env, start, j', base, c') else
        && Kept(env, before, Core(w.state)) && BlockForm(env, sorted, k, c', w.state)
        && Logged(env, start, j', Core(w.state)) && Told(env.shard, base, k, j', w.state.trace)
        && (full ==> c' == c && LimitReached(env, w.state))
    decreases Gas(env, s, full), Weight(s.newMessages)
  {
    hide Kept, Shape, Next, Core, LimitReached, Logged, Told, StopsAt, MoreToRun;
    c', j' := c, j;
    if s.newMessages == [] {
      WorkingDone(env, sorted, k, c, taken, s, full);
    } else {
      var n := Next(env, s, full);
      StepShrinks(env, s, full);
      if !full && InShard(env.shard, s.newMessages[0]) {
        OneMoreToRun(env, sorted, k, c, s);
      }
      j' := LoggedByNext(env, start, j, s, full, base, k);
      if n.Failed? {
        StopsInWork(env, start, j, s, sorted, k, c, base);
      } else {
        FullStaysFull(env, s, full);
        KeptByNext(env, before, s, full);
        WorkingNext(env, sorted, k, c, taken, s, full);
        c', j' := WorklistKeeps(env, before, start, j', n.state, n.full, sorted, k, if full then c else c + 1,
                                taken + 1, base);
      }
    }
  }

  lemma FullStaysFull(env: BlockEnv, s: BlockState, full: bool)
    requires s.newMessages != []
    ensures var n := Next(env, s, full); n.Finished? && full ==> n.full
  {
  }

  lemma StartKept(env: BlockEnv, accounts: Accounts, queue: set<Message>, sorted: seq<Message>)
    requires IsSortOf(sorted, queue)
    ensures Kept(env, TotalBalance(accounts), Core(Start(env, accounts, queue)))
    ensures Shape(env, sorted, 0, 0, 0, Start(env, accounts, queue))
    ensures !LimitReached(env, Start(env, accounts, queue))
  {
    assert sorted[0..] == sorted;
  }

  lemma EmptyBuildChangesNothing(env: BlockEnv, s: BlockState, sorted: seq<Message>, exts: seq<ExtMessage>)
    requires Lawful(env.executor) && !LimitReached(env, s) && s.newMessages == []
    ensures var b := BuildBlock(env, s, sorted, exts); b.Built? && b.isEmpty ==> b.state == s
  {
  }

  /** The books before the first message. */
  function FirstBooks(env: BlockEnv, accounts: Accounts): Books { Books(accounts, 0, 0, env.startLt + 1) }

  lemma StartLogged(env: BlockEnv, accounts: Accounts, queue: set<Message>) returns (j: Journal)
    ensures Logged(env, FirstBooks(env, accounts), j, Core(Start(env, accounts, queue)))
    ensures MessagesOf(j.entries) == []
  {
    j := Journal([], [FirstBooks(env, accounts)]);
  }
  lemma EmptyIffNothingTaken(
    env: BlockEnv, start: Books, j: Journal, sorted: seq<Message>, exts: seq<ExtMessage>, k: nat, x: nat, s: BlockState)
    requires Logged(env, start, j, s) && start.gas == 0 && k <= |sorted| && x <= |exts|
    requires k < |sorted| || x < |exts| ==> !Open(env, |j.entries|, Last(j))
    requires Told(env.shard, AsInternal(sorted[..k]) + AsExternal(exts[..x]), k, j, s.trace)
    requires sorted == [] && exts == [] ==> s.trace == []
    ensures sorted == [] && exts == [] <==> j.entries == []
  {
    assert |MessagesOf(j.entries)| == |j.entries|;
  }

  /** The journal of a block that has come to its end. */
  lemma EndsComplete(
    env: BlockEnv, start: Books, j: Journal, sorted: seq<Message>, exts: seq<ExtMessage>, k: nat, x: nat, c: nat,
    b: Build)
    requires b.Built? && BlockForm(env, sorted, k, c, b.state) && Logged(env, start, j, Core(b.state))
    requires x <= |exts| && b.rest == exts[x..] && (b.isEmpty <==> sorted == [] && exts == [])
    requires Told(env.shard, AsInternal(sorted[..k]) + AsExternal(exts[..x]), k, j, b.state.trace)
    requires k < |sorted| ==> x == 0
    requires x < |exts| ==> c == 0 && LimitReached(env, b.state)
    requires start.gas == 0 && (b.isEmpty ==> b.state.trace == [])
    ensures Complete(env, start, sorted, exts, j, k, x, c, b)
  {
    hide Honest, Transactions, Emitted, Ran, Split, MessagesOf, AsInternal, AsExternal, SetOf;
    var emitted := Emitted(b.state.trace);
    OpenIffWithinLimit(env, start, j, Core(b.state));
    assert Ran(b.state.trace)[k..] == Split(env.shard, true, emitted[..c]);
    assert emitted[c..|emitted|] == emitted[c..];
    EmptyIffNothingTaken(env, start, j, sorted, exts, k, x, Core(b.state));
  }

  /** The two phases before the worklist: the queue, and then the external messages. */
  lemma ImportsKeep(
    env: BlockEnv, before: nat, start: Books, j: Journal, s: BlockState, sorted: seq<Message>, exts: seq<ExtMessage>)
    returns (k: nat, x: nat, j': Journal)
    requires Lawful(env.executor) && NoRepeat(sorted)
    requires Kept(env, before, Core(s)) && !LimitReached(env, s) && Shape(env, sorted, 0, 0, 0, s)
    requires Logged(env, start, j, Core(s)) && MessagesOf(j.entries) == []
    ensures k <= |sorted| && x <= |exts| && (k < |sorted| ==> x == 0)
    ensures MessagesOf(j'.entries) == AsInternal(sorted[..k]) + AsExternal(exts[..x])
    ensures var imported := Import(env, s, sorted);
      if imported.Failed? then x == 0 && k < |sorted| && Stuck(env, start, j', sorted[k]) else
        var e := AfterImport(env, imported, exts);
        && Kept(env, before, Core(e.state)) && Shape(env, sorted, k, 0, 0, e.state)
        && Logged(env, start, j', Core(e.state))
        && e.rest == exts[x..] && (k < |sorted| || x < |exts| ==> e.full) && e.full == LimitReached(env, e.state)
  {
    hide Kept, Shape, LimitReached, Core, Logged, Externals, MessagesOf, Stuck;
    assert sorted[0..] == sorted && exts[0..] == exts;
    k, j' := ImportKeeps(env, before, start, j, s, sorted, 0);
    x := 0;
    var base := AsInternal(sorted[..k]);
    assert base + AsExternal(exts[..0]) == base;
    var imported := Import(env, s, sorted);
    if imported.Finished? && !imported.full {
      x, j' := ExternalsKeep(env, before, start, j', imported.state, exts, 0, sorted, k, base);
    }
  }

  /** What a worklist that stops makes of the whole build. */
  lemma EndsStopped(
    env: BlockEnv, start: Books, j: Journal, sorted: seq<Message>, exts: seq<ExtMessage>, k: nat, x: nat, c: nat,
    b: Build)
    requires b.BuildFailed? && x <= |exts| && b.rest == exts[x..] && k <= |sorted| && (k < |sorted| ==> x == 0)
    requires if k < |sorted| then Stuck(env, start, j, sorted[k]) && c == 0
      && MessagesOf(j.entries) == AsInternal(sorted[..k]) + AsExternal(exts[..x])
      else x == |exts| && StopsAt(env, start, j, AsInternal(sorted[..k]) + AsExternal(exts[..x]), c)
    ensures Stopped(env, start, sorted, exts, j, k, x, c, b)
  {
    hide Stuck, MessagesOf, Transactions, Emitted;
    assert AsInternal(Split(env.shard, true, [])) == [];
    assert Emitted(Transactions(j.entries))[..0] == [];
  }

  /** Every build is lawful: a finished one is complete and has the closed form, a block reported empty has changed
      nothing, and a failed one has stopped at a message that cannot be run. */
  lemma BuildHasForm(
    env: BlockEnv, accounts: Accounts, queue: set<Message>, sorted: seq<Message>, exts: seq<ExtMessage>)
    returns (k: nat, x: nat, c: nat, j: Journal)
    requires Lawful(env.executor) && IsSortOf(sorted, queue)
    ensures var b := BuildBlock(env, Start(env, accounts, queue), sorted, exts);
      if b.BuildFailed? then Stopped(env, FirstBooks(env, accounts), sorted, exts, j, k, x, c, b) else
        && Kept(env, TotalBalance(accounts), Core(b.state))
        && BlockForm(env, sorted, k, c, b.state)
        && Complete(env, FirstBooks(env, accounts), sorted, exts, j, k, x, c, b)
        && (b.isEmpty ==> b.state == Start(env, accounts, queue))
  {
    hide Kept, Shape, LimitReached, Core, TotalBalance, Externals, Logged, MessagesOf, Stuck, Complete, Stopped,
      BlockForm, Told, StopsAt, Import, Worklist;
    var before, start, s := TotalBalance(accounts), FirstBooks(env, accounts), Start(env, accounts, queue);
    StartKept(env, accounts, queue, sorted);
    EmptyBuildChangesNothing(env, s, sorted, exts);
    WorklistStartsWithinLimit(env, s, sorted, exts);
    c := 0;
    j := StartLogged(env, accounts, queue);
    k, x, j := ImportsKeep(env, before, start, j, s, sorted, exts);
    var b, imported := BuildBlock(env, s, sorted, exts), Import(env, s, sorted);
    if imported.Failed? {
      EndsStopped(env, start, j, sorted, exts, k, x, c, b);
    } else {
      var e, base := AfterImport(env, imported, exts), AsInternal(sorted[..k]) + AsExternal(exts[..x]);
      ToldAtFirst(env, sorted, k, j, e.state, base);
      WorkStarts(env, sorted, k, e.state, e.full);
      c, j := WorklistKeeps(env, before, start, j, e.state, e.full, sorted, k, 0, 0, base);
      if b.Built? {
        EndsComplete(env, start, j, sorted, exts, k, x, c, b);
      } else {
        EndsStopped(env, start, j, sorted, exts, k, x, c, b);
      }
    }
  }

  lemma ToldAtFirst(env: BlockEnv, sorted: seq<Message>, k: nat, j: Journal, s: BlockState, base: seq<InMsg>)
    requires Shape(env, sorted, k, 0, 0, s) && MessagesOf(j.entries) == base
    ensures Told(env.shard, base, k, j, s.trace)
  {
    hide MessagesOf, Ran, Emitted;
    assert Split(env.shard, true, Emitted(s.trace)[..0]) == [];
    assert Ran(s.trace)[k..] == [] && AsInternal([]) == [];
  }

  lemma WorkStarts(env: BlockEnv, sorted: seq<Message>, k: nat, s: BlockState, full: bool)
    requires Shape(env, sorted, k, 0, 0, s) && (k < |sorted| ==> full) && full == LimitReached(env, s)
    ensures Working(env, sorted, k, 0, 0, s, full)
  {
  }

  lemma BuildFollowsLaw(
    env: BlockEnv, accounts: Accounts, queue: set<Message>, sorted: seq<Message>, exts: seq<ExtMessage>)
    requires Lawful(env.executor) && IsSortOf(sorted, queue)
    ensures LawfulBuild(env, FirstBooks(env, accounts), sorted, exts,
                        BuildBlock(env, Start(env, accounts, queue), sorted, exts))
  {
    hide BuildBlock, Complete, Stopped, Kept, BlockForm;
    var _, _, _, _ := BuildHasForm(env, accounts, queue, sorted, exts);
  }

  ghost predicate AllOnTarget(trace: seq<Txn>, trace': seq<Txn>) {
    trace <= trace' && forall i | |trace| <= i < |trace'| :: OnTarget(trace'[i])
  }

  lemma {:induction false} WorklistOnTarget(env: BlockEnv, s: BlockState, full: bool)
    requires Lawful(env.executor) && (!full ==> !LimitReached(env, s))
    ensures var w := Worklist(env, s, full); w.Finished? ==> AllOnTarget(s.trace, w.state.trace)
    decreases Gas(env, s, full), Weight(s.newMessages)
  {
    hide LimitReached, Lawful, PrepareIn;
    if s.newMessages == [] {
    } else {
      var n := Next(env, s, full);
      StepShrinks(env, s, full);
      if n.Finished? {
        assert AllOnTarget(s.trace, n.state.trace);
        hide Next;
        WorklistOnTarget(env, n.state, n.full);
      }
    }
  }
}
