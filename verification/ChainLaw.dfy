/** The law of blocks over a chain: every attempt follows it, a block with gas left takes up all there is, and every
    message runs on the account it is addressed to. */
module ChainLaws {
  import opened Common
  import opened Messages
  import opened Executor
  import opened BlockSpec
  import opened Trace
  import opened BlockLaws
  import opened ValueFlow
  import opened BlockShape
  import opened Chains
  import opened Delivery

  /** The books with which a block of the chain begins. */
  function BooksBefore(c: Chain): Books { Books(c.accounts, 0, 0, c.endLt + 2) }

  /** The chain with the block of the journal. */
  ghost predicate Extends(c: Chain, j: Journal, queue: set<Message>, c': Chain)
    requires j.books != []
  {
    var trace, last := Transactions(j.entries), Last(j);
    && c'.accounts == last.accounts && c'.queue == queue && c'.endLt == last.endLt
    && c'.blocks == c.blocks + [BlockRecord(c.endLt + 1, last.endLt, trace,
                                            FeesOf(trace) + FeesImported(SetOf(Ran(trace))), last.rewards)]
  }

  /** One attempt: a failed build and an empty block that is not forced leave the chain as it was; any other block is
      complete, and its last books are the chain's. */
  lemma AttemptIsLawful(c: Chain, inp: BlockInput) returns (k: nat, x: nat, cut: nat, j: Journal)
    requires Valid(c, inp)
    ensures var b := BuildOn(c, inp);
      if b.BuildFailed? then
        Stopped(EnvOf(c, inp), BooksBefore(c), inp.sorted, inp.exts, j, k, x, cut, b) && Step(c, inp) == c
      else
        && Complete(EnvOf(c, inp), BooksBefore(c), inp.sorted, inp.exts, j, k, x, cut, b)
        && (if j.entries == [] && !inp.forced then Step(c, inp) == c
            else Extends(c, j, b.state.outQueue, Step(c, inp)))
  {
    hide BuildBlock, Honest, TakenInOrder, Transactions, Emitted, Ran, Split, SetOf, FeesOf, FeesImported, InInterval,
      AccountTimesIncrease, AccountsFollow, SourcesInOrder, StartedWithinLimit, ValueKept, TotalBalance;
    k, x, cut, j := BuildHasForm(EnvOf(c, inp), c.accounts, c.queue, inp.sorted, inp.exts);
  }

  /** Gas goes on being spent until the limit is passed: outside the sequential mode a block that ends with its gas at
      or below the limit has run the whole queue, has left no external message waiting, has run all new messages for the
      shard and queues only those for others; so what waits that could have run, waits for gas. */
  lemma GasLeftTakesAll(c: Chain, inp: BlockInput)
    requires Valid(c, inp) && BuildOn(c, inp).Built? && !inp.seqMode
    ensures var b := BuildOn(c, inp);
      var trace, emitted := b.state.trace, Emitted(b.state.trace);
      && (GasOf(trace) <= inp.gasLimit ==>
            && Ran(trace) == inp.sorted + Split(inp.shard, true, emitted)
            && b.state.outQueue == SetOf(Split(inp.shard, false, emitted)) && b.rest == [])
      && (b.rest != [] || (exists m :: m in b.state.outQueue && InShard(inp.shard, m)) ==> GasOf(trace) > inp.gasLimit)
  {
    hide BuildBlock, Complete, Transactions, Emitted, Ran, GasOf, InInterval, AccountTimesIncrease,
      StartedWithinLimit, SourceOrdered, SendersStay, Split, Step;
    var k, x, cut, j := AttemptIsLawful(c, inp);
    var _, _ := BuiltBlock(c, inp);
    var b := BuildOn(c, inp);
    if GasOf(b.state.trace) <= inp.gasLimit {
      OpenTakesAll(EnvOf(c, inp), BooksBefore(c), inp.sorted, inp.exts, j, k, x, cut, b);
    }
    var emitted := Emitted(b.state.trace);
    assert emitted[..|emitted|] == emitted && inp.sorted[..|inp.sorted|] == inp.sorted;
    assert SetOf([]) == {};
    assert forall m | m in SetOf(Split(inp.shard, false, emitted)) :: m in Split(inp.shard, false, emitted);
  }

  /** A block that ends open has used up the external messages. */
  lemma OpenTakesAll(
    env: BlockEnv, start: Books, sorted: seq<Message>, exts: seq<ExtMessage>, j: Journal, k: nat, x: nat, c: nat,
    b: Build)
    requires Complete(env, start, sorted, exts, j, k, x, c, b) && !env.seqMode && b.state.gasUsed <= env.gasLimit
    ensures b.rest == []
  {
    hide Honest, Transactions, Emitted, Split, SetOf, MessagesOf, Caused;
  }

  /** A sequential block has at most one entry, and it is the first message there is: a new one cannot be. */
  lemma SequentialOrder(
    env: BlockEnv, c: Chain, sorted: seq<Message>, exts: seq<ExtMessage>, j: Journal, k: nat, x: nat, cut: nat,
    b: Build)
    requires Complete(env, BooksBefore(c), sorted, exts, j, k, x, cut, b) && env.seqMode
    ensures |j.entries| == (if sorted == [] && exts == [] then 0 else 1)
    ensures k == (if sorted == [] then 0 else 1) && x == (if sorted == [] && exts != [] then 1 else 0)
    ensures Split(env.shard, true, Emitted(b.state.trace)[..cut]) == []
    ensures j.entries != [] ==> j.entries[0].m == if sorted != [] then Internal(sorted[0]) else External(exts[0])
  {
    hide Explained, Emitted, Split;
    if |j.entries| >= 2 {
      OpenAt(env, BooksBefore(c), j, 1);
    }
    if k + x == 0 && j.entries != [] {
      CausedAtFirst(env.shard, j.entries);
    }
    assert j.entries != [] ==> MessagesOf(j.entries)[0] == j.entries[0].m;
  }

  lemma OpenAt(env: BlockEnv, start: Books, j: Journal, i: nat)
    requires Honest(env, start, j) && i < |j.entries|
    ensures Open(env, i, j.books[i])
  {
    assert EntryOk(env, j, i);
  }

  /** A new message cannot be the first one taken up. */
  lemma CausedAtFirst(shard: Shard, entries: seq<Entry>)
    requires Caused(shard, 0, entries)
    ensures entries == []
  {
    assert entries[..0] == [] && Emitted(Transactions([])) == [] && Split(shard, true, []) == [];
  }

  /** With nothing for this shard among the first new messages, everything new is queued. */
  lemma AllNewQueued(
    env: BlockEnv, start: Books, sorted: seq<Message>, exts: seq<ExtMessage>, j: Journal, k: nat, x: nat, c: nat,
    b: Build)
    requires Complete(env, start, sorted, exts, j, k, x, c, b)
    requires Split(env.shard, true, Emitted(b.state.trace)[..c]) == []
    ensures b.state.outQueue == SetOf(sorted[k..]) + SetOf(Emitted(b.state.trace))
  {
    hide Honest, MessagesOf, AsInternal, Caused, Transactions, Emitted;
    var emitted := Emitted(b.state.trace);
    assert emitted == emitted[..c] + emitted[c..];
    assert forall m :: m in Split(env.shard, true, emitted[..c]) <==> m in emitted[..c] && InShard(env.shard, m);
    hide Split;
  }

  lemma OneEntryTrace(env: BlockEnv, start: Books, j: Journal)
    requires Honest(env, start, j) && |j.entries| == 1
    ensures var trace, m := Transactions(j.entries), j.entries[0].m;
      && |trace| <= 1 && (m.Internal? ==> |trace| == 1) && (trace != [] ==> trace[0].inMsg == m)
  {
    assert EntryOk(env, j, 0) && j.entries[..0] == [];
    assert Transactions(j.entries) == Transactions([]) + TransactionOf(j.entries[0]);
    hide KnownAs, AnswerTo, CannotRun, OnlyChanges, AbortTime;
  }

  /** One message is taken up: the oldest of the queue, or else the first external one; everything new is queued. */
  ghost predicate TakesOne(sorted: seq<Message>, exts: seq<ExtMessage>, b: Build)
    requires b.Built?
  {
    var trace, emitted := b.state.trace, Emitted(b.state.trace);
    if sorted != [] then
      && |trace| == 1 && trace[0].inMsg == Internal(sorted[0]) && b.rest == exts
      && b.state.outQueue == SetOf(sorted[1..]) + SetOf(emitted)
    else
      && (if exts == [] then trace == [] && b.rest == []
          else |trace| <= 1 && (trace != [] ==> trace[0].inMsg == External(exts[0])) && b.rest == exts[1..])
      && b.state.outQueue == SetOf(emitted)
  }

  lemma NothingIn()
    ensures SetOf([]) == {} && Transactions([]) == []
  {
  }

  lemma SequentialTakesOne(
    env: BlockEnv, c: Chain, sorted: seq<Message>, exts: seq<ExtMessage>, j: Journal, k: nat, x: nat, cut: nat,
    b: Build)
    requires Complete(env, BooksBefore(c), sorted, exts, j, k, x, cut, b) && env.seqMode
    ensures TakesOne(sorted, exts, b)
  {
    hide Honest, TakenInOrder, Emitted, Split, MessagesOf, SetOf, Transactions;
    SequentialOrder(env, c, sorted, exts, j, k, x, cut, b);
    AllNewQueued(env, BooksBefore(c), sorted, exts, j, k, x, cut, b);
    NothingIn();
    if j.entries != [] {
      OneEntryTrace(env, BooksBefore(c), j);
    }
  }

  /** In sequential mode a block takes up one message if there is any, whether or not it makes a transaction. */
  lemma OneMessageEach(c: Chain, inp: BlockInput)
    requires Valid(c, inp) && BuildOn(c, inp).Built? && inp.seqMode
    ensures TakesOne(inp.sorted, inp.exts, BuildOn(c, inp))
  {
    hide BuildBlock, Complete, Stopped, TakesOne, Step;
    var k, x, cut, j := AttemptIsLawful(c, inp);
    SequentialTakesOne(EnvOf(c, inp), c, inp.sorted, inp.exts, j, k, x, cut, BuildOn(c, inp));
  }

  // ---- every message runs where it is addressed to ----

  lemma {:induction false} TransactionsOnTarget(env: BlockEnv, start: Books, j: Journal, n: nat)
    requires Honest(env, start, j) && n <= |j.entries|
    ensures forall t | t in Transactions(j.entries[..n]) :: OnTarget(t)
  {
    if n > 0 {
      TransactionsOnTarget(env, start, j, n - 1);
      assert j.entries[..n][..n - 1] == j.entries[..n - 1];
      assert EntryOk(env, j, n - 1);
      hide KnownAs, AnswerTo, CannotRun, OnlyChanges, AbortTime;
    }
  }

  lemma StepOnTarget(c: Chain, inp: BlockInput)
    requires Valid(c, inp) && forall t | t in History(c.blocks) :: OnTarget(t)
    ensures forall t | t in History(Step(c, inp).blocks) :: OnTarget(t)
  {
    hide Step, BuildOn, Valid, Honest, TakenInOrder, Transactions, History, OnTarget;
    var k, x, cut, j := AttemptIsLawful(c, inp);
    var c' := Step(c, inp);
    if c' != c {
      TransactionsOnTarget(EnvOf(c, inp), BooksBefore(c), j, |j.entries|);
      assert j.entries[..|j.entries|] == j.entries;
      HistoryAppend(c.blocks, c'.blocks[|c.blocks|]);
    }
  }

  /** Over any run every transaction is on the account to which its message is addressed. */
  lemma {:induction false} RunOnTarget(c: Chain, inputs: seq<BlockInput>)
    requires ValidRun(c, inputs) && forall t | t in History(c.blocks) :: OnTarget(t)
    ensures forall t | t in History(Run(c, inputs).blocks) :: OnTarget(t)
    decreases |inputs|
  {
    hide OnTarget, Step;
    if inputs == [] {
    } else {
      StepOnTarget(c, inputs[0]);
      RunOnTarget(Step(c, inputs[0]), inputs[1..]);
    }
  }

  lemma {:induction false} RanBySome(trace: seq<Txn>, m: Message) returns (i: nat)
    requires m in Ran(trace)
    ensures i < |trace| && trace[i].inMsg == Internal(m)
  {
    if m in RanBy(trace[|trace| - 1].inMsg) {
      i := |trace| - 1;
    } else {
      i := RanBySome(trace[..|trace| - 1], m);
    }
  }

  lemma {:induction false} RanIncludes(trace: seq<Txn>, i: nat)
    requires i < |trace| && trace[i].inMsg.Internal?
    ensures trace[i].inMsg.msg in Ran(trace)
    decreases |trace|
  {
    if i < |trace| - 1 {
      RanIncludes(trace[..|trace| - 1], i);
    }
  }

  lemma {:induction false} RanByOne(trace: seq<Txn>, i: nat, j: nat)
    requires i < j < |trace| && trace[i].inMsg.Internal? && NoRepeat(Ran(trace))
    ensures trace[i].inMsg != trace[j].inMsg
    decreases |trace|
  {
    var front, last := trace[..|trace| - 1], trace[|trace| - 1];
    var ran := Ran(front);
    assert Ran(trace) == ran + RanBy(last.inMsg);
    if j < |front| {
      assert forall p | 0 <= p < |ran| :: Ran(trace)[p] == ran[p];
      RanByOne(front, i, j);
    } else if last.inMsg.Internal? {
      RanIncludes(front, i);
      var p :| 0 <= p < |ran| && ran[p] == trace[i].inMsg.msg;
      assert Ran(trace)[p] == ran[p] && Ran(trace)[|ran|] == last.inMsg.msg;
    }
  }

  /** One transaction of the chain, and no other, runs the message, and it is on its destination. */
  ghost predicate RanOnceAt(trace: seq<Txn>, m: Message, i: nat) {
    && i < |trace| && trace[i].inMsg == Internal(m) && trace[i].account == m.dst.account
    && forall j | 0 <= j < |trace| && trace[j].inMsg == Internal(m) :: j == i
  }

  /** Over a run that delivers, from a chain without blocks: every message of the first queue or created since is still
      in the queue, or exactly one transaction has run it, on the account it is addressed to. */
  lemma RunsAtDestination(c: Chain, inputs: seq<BlockInput>, m: Message) returns (i: nat)
    requires ValidRun(c, inputs) && c.blocks == [] && Delivered(c.queue, c) && RunInOrder(c, inputs)
    ensures var c' := Run(c, inputs);
      var trace := History(c'.blocks);
      m in c.queue || m in Emitted(trace) ==> (m !in c'.queue <==> RanOnceAt(trace, m, i))
  {
    RunOnTarget(c, inputs);
    RunDeliversIff(c.queue, c, inputs);
    hide Run, ValidRun, Delivered, RunInOrder, Emitted, Ran, History;
    var c' := Run(c, inputs);
    var trace := History(c'.blocks);
    DeliveredExactlyOnce(c.queue, c');
    i := 0;
    if m in Ran(trace) {
      i := RanBySome(trace, m);
      assert trace[i] in trace && OnTarget(trace[i]);
      forall j | 0 <= j < |trace| && trace[j].inMsg == Internal(m) ensures j == i {
        if j < i {
          RanByOne(trace, j, i);
        } else if i < j {
          RanByOne(trace, i, j);
        }
      }
    } else if i < |trace| && trace[i].inMsg == Internal(m) {
      RanIncludes(trace, i);
    }
  }
}
