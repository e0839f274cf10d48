/** What one block build does, as functions on values: the specification of class BlockBuilder. */
module BlockSpec {
  import opened Common
  import opened Messages
  import opened Executor

  /** What a build is given and never changes. */
  datatype BlockEnv = BlockEnv(
    shard: Shard, startLt: nat, gasLimit: nat, seqMode: bool,
    executor: ExecutorFn, provider: AccountId -> ProviderReply)

  /** A transaction of the block. `gone`: the account is not in the dictionary after it. */
  datatype Txn = Txn(
    account: AccountId, inMsg: InMsg, lt: nat, outs: seq<Message>,
    gasUsed: nat, fees: nat, copyleft: nat, gone: bool)

  type Accounts = map<AccountId, ShardAccount>

  datatype BlockState = BlockState(
    accounts: Accounts, newMessages: seq<Message>, outQueue: set<Message>, inMsgDescr: set<Message>,
    gasUsed: nat, processed: nat, endLt: nat, copyleftRewards: nat, trace: seq<Txn>)

  function Start(env: BlockEnv, accounts: Accounts, queue: set<Message>): BlockState {
    BlockState(accounts, [], queue, {}, 0, 0, env.startLt + 1, 0, [])
  }

  /** The saved queue as the import visits it: every message once, oldest creation time first. */
  ghost predicate IsSortOf(sorted: seq<Message>, queue: set<Message>) {
    && SetOf(sorted) == queue
    && (forall i, j | 0 <= i < j < |sorted| :: sorted[i] != sorted[j])
    && (forall i, j | 0 <= i < j < |sorted| :: sorted[i].createdLt <= sorted[j].createdLt)
  }

  /** The outcome of preparing one transaction. */
  datatype Prepared = Prepared(tx: TxResult) | NotPrepared

  function Prepare(env: BlockEnv, a: Option<Account>, id: AccountId, m: InMsg, lastLt: nat): Prepared {
    match env.executor(a, id, m, lastLt)
    case Success(t) => Prepared(t)
    case Broken => NotPrepared
    case _ =>
      var lt := EarliestLt(a, m, lastLt);
      var left := if a.Some? then Some(a.value.(lastTrTime := lt)) else None;
      Prepared(TxResult(lt, lt, left, [], 0, 0, 0))
  }

  datatype Lookup = Lookup(account: Option<Account>, lastTransLt: nat) | LookupFailed

  function Find(env: BlockEnv, accounts: Accounts, id: AccountId): Lookup {
    if id in accounts then Lookup(Some(accounts[id].account), accounts[id].lastTransLt)
    else match env.provider(id)
      case Absent => Lookup(None, 0)
      case Found(e) => Lookup(Some(e.account), e.lastTransLt)
      case ProviderFailed => LookupFailed
  }

  function PrepareIn(env: BlockEnv, s: BlockState, id: AccountId, m: InMsg): Prepared {
    var found := Find(env, s.accounts, id);
    if found.LookupFailed? then NotPrepared
    else Prepare(env, found.account, id, m, Max(env.startLt, found.lastTransLt + 1))
  }

  function Record(id: AccountId, m: InMsg, t: TxResult): Txn {
    Txn(id, m, t.lt, t.outs, t.gasUsed, t.fees, t.copyleft, t.account.None?)
  }

  /** The state once a prepared transaction has been added to the block. */
  function Added(s: BlockState, id: AccountId, m: InMsg, t: TxResult): BlockState {
    BlockState(
      if t.account.Some? then s.accounts[id := ShardAccount(t.account.value, t.lt)] else s.accounts - {id},
      s.newMessages + t.outs, s.outQueue,
      if m.Internal? then s.inMsgDescr + {m.msg} else s.inMsgDescr,
      s.gasUsed + t.gasUsed, s.processed + 1, Max(s.endLt, t.maxLt), s.copyleftRewards + t.copyleft,
      s.trace + [Record(id, m, t)])
  }

  /** The attempt is counted even when the execution fails. */
  function Counted(s: BlockState): BlockState { s.(processed := s.processed + 1) }

  predicate LimitReached(env: BlockEnv, s: BlockState) {
    s.gasUsed > env.gasLimit || (env.seqMode && s.processed > 0)
  }

  datatype Outcome = Failed | Finished(state: BlockState, full: bool)

  /** First phase: the saved out-queue, oldest message first. No destination check is made here. */
  function Import(env: BlockEnv, s: BlockState, sorted: seq<Message>): Outcome
    decreases |sorted|
  {
    if sorted == [] then Finished(s, false) else
      var m := sorted[0];
      var p := PrepareIn(env, s, m.dst.account, Internal(m));
      if p.NotPrepared? then Failed else
        var added := Added(s, m.dst.account, Internal(m), p.tx);
        var s' := added.(outQueue := added.outQueue - {m});
        if LimitReached(env, s') then Finished(s', true) else Import(env, s', sorted[1..])
  }

  function AfterExternal(env: BlockEnv, s: BlockState, e: ExtMessage): BlockState {
    var p := PrepareIn(env, s, e.account, External(e));
    if p.NotPrepared? then Counted(s) else Added(s, e.account, External(e), p.tx)
  }

  datatype ExternalOutcome = ExternalOutcome(state: BlockState, full: bool, rest: seq<ExtMessage>)

  /** Second phase: external messages. A failing one is dropped and the block goes on. */
  function Externals(env: BlockEnv, s: BlockState, exts: seq<ExtMessage>): ExternalOutcome
    decreases |exts|
  {
    if exts == [] then ExternalOutcome(s, false, []) else
      var s' := AfterExternal(env, s, exts[0]);
      if LimitReached(env, s') then ExternalOutcome(s', true, exts[1..]) else Externals(env, s', exts[1..])
  }

  // ---- third phase: the worklist of new messages ----

  function Weight(ms: seq<Message>): nat {
    if ms == [] then 0 else Weight(ms[..|ms| - 1]) + if ms[|ms| - 1].bounced then 1 else 2
  }

  lemma {:induction false} WeightConcat(a: seq<Message>, b: seq<Message>)
    ensures Weight(a + b) == Weight(a) + Weight(b)
  {
    if b == [] {
      assert a + b == a;
    } else {
      WeightConcat(a, b[..|b| - 1]);
      assert (a + b)[..|a + b| - 1] == a + b[..|b| - 1];
    }
  }

  function Gas(env: BlockEnv, s: BlockState, full: bool): nat {
    if full || s.gasUsed > env.gasLimit then 0 else env.gasLimit - s.gasUsed + 1
  }

  /** One step of the worklist: the oldest new message is run, or goes to the out-queue when the block is full
      or the message is not for this shard. */
  function Next(env: BlockEnv, s: BlockState, full: bool): Outcome
    requires s.newMessages != []
  {
    var m := s.newMessages[0];
    var rest := s.(newMessages := s.newMessages[1..]);
    if full || !InShard(env.shard, m) then Finished(rest.(outQueue := rest.outQueue + {m}), full) else
      var p := PrepareIn(env, rest, m.dst.account, Internal(m));
      if p.NotPrepared? then Failed else
        var s' := Added(rest, m.dst.account, Internal(m), p.tx);
        Finished(s', LimitReached(env, s'))
  }

  predicate Smaller(env: BlockEnv, s': BlockState, full': bool, s: BlockState, full: bool) {
    || Gas(env, s', full') < Gas(env, s, full)
    || (Gas(env, s', full') == Gas(env, s, full) && Weight(s'.newMessages) < Weight(s.newMessages))
  }

  /** What the contract of the executor says about one transaction prepared in state `s`. */
  ghost predicate LawfulStep(env: BlockEnv, s: BlockState, id: AccountId, m: InMsg, t: TxResult) {
    var found := Find(env, s.accounts, id);
    && found.Lookup?
    && LawfulTimes(found.account, id, m, Max(env.startLt, found.lastTransLt + 1), t)
    && LawfulValue(found.account, m, t)
    && LawfulGas(m, t)
  }

  lemma LawfulPrepare(env: BlockEnv, s: BlockState, id: AccountId, m: InMsg)
    requires Lawful(env.executor)
    requires PrepareIn(env, s, id, m).Prepared?
    ensures LawfulStep(env, s, id, m, PrepareIn(env, s, id, m).tx)
  {
    var found := Find(env, s.accounts, id);
    var lastLt := Max(env.startLt, found.lastTransLt + 1);
    assert LawfulAt(found.account, id, m, lastLt, env.executor(found.account, id, m, lastLt));
  }

  /** A step either spends gas, or closes the block, or shrinks the weight of what is pending. */
  lemma StepShrinks(env: BlockEnv, s: BlockState, full: bool)
    requires Lawful(env.executor)
    requires s.newMessages != [] && (!full ==> !LimitReached(env, s))
    ensures var n := Next(env, s, full);
      n.Finished? ==> Smaller(env, n.state, n.full, s, full) && (!n.full ==> !LimitReached(env, n.state))
  {
    var m := s.newMessages[0];
    var rest := s.(newMessages := s.newMessages[1..]);
    assert s.newMessages == [m] + rest.newMessages;
    WeightConcat([m], rest.newMessages);
    if !full && InShard(env.shard, m) {
      var p := PrepareIn(env, rest, m.dst.account, Internal(m));
      if p.Prepared? {
        LawfulPrepare(env, rest, m.dst.account, Internal(m));
        WeightConcat(rest.newMessages, p.tx.outs);
      }
    }
  }

  /** Third phase: new messages are taken in creation order, one at a time; `full` is never reset. */
  function Worklist(env: BlockEnv, s: BlockState, full: bool): Outcome
    requires Lawful(env.executor)
    requires !full ==> !LimitReached(env, s)
    decreases Gas(env, s, full), Weight(s.newMessages)
  {
    if s.newMessages == [] then Finished(s, full) else
      var n := Next(env, s, full);
      StepShrinks(env, s, full);
      if n.Failed? then Failed else Worklist(env, n.state, n.full)
  }

  lemma WorklistStep(env: BlockEnv, s: BlockState, full: bool)
    requires Lawful(env.executor)
    requires s.newMessages != [] && (!full ==> !LimitReached(env, s))
    ensures var n := Next(env, s, full);
      if n.Failed? then Worklist(env, s, full) == Failed else
        && Smaller(env, n.state, n.full, s, full)
        && (!n.full ==> !LimitReached(env, n.state))
        && Worklist(env, s, full) == Worklist(env, n.state, n.full)
  {
    StepShrinks(env, s, full);
  }

  datatype Build = BuildFailed(rest: seq<ExtMessage>) | Built(state: BlockState, isEmpty: bool, rest: seq<ExtMessage>)

  /** The external phase, entered only when the import did not fill the block. */
  function AfterImport(env: BlockEnv, imported: Outcome, exts: seq<ExtMessage>): ExternalOutcome
    requires imported.Finished?
  {
    if imported.full then ExternalOutcome(imported.state, true, exts) else Externals(env, imported.state, exts)
  }

  lemma {:induction false} ImportWithinLimit(env: BlockEnv, s: BlockState, sorted: seq<Message>)
    requires !LimitReached(env, s)
    ensures var r := Import(env, s, sorted); r.Finished? && !r.full ==> !LimitReached(env, r.state)
    decreases |sorted|
  {
    hide LimitReached;
    if sorted == [] {
    } else {
      var m := sorted[0];
      var p := PrepareIn(env, s, m.dst.account, Internal(m));
      if p.Prepared? {
        var added := Added(s, m.dst.account, Internal(m), p.tx);
        var s' := added.(outQueue := added.outQueue - {m});
        if !LimitReached(env, s') {
          ImportWithinLimit(env, s', sorted[1..]);
        }
      }
    }
  }

  lemma {:induction false} ExternalsWithinLimit(env: BlockEnv, s: BlockState, exts: seq<ExtMessage>)
    requires !LimitReached(env, s)
    ensures var r := Externals(env, s, exts); !r.full ==> !LimitReached(env, r.state)
    decreases |exts|
  {
    hide LimitReached, AfterExternal;
    if exts != [] && !LimitReached(env, AfterExternal(env, s, exts[0])) {
      ExternalsWithinLimit(env, AfterExternal(env, s, exts[0]), exts[1..]);
    }
  }

  lemma WorklistStartsWithinLimit(env: BlockEnv, s: BlockState, sorted: seq<Message>, exts: seq<ExtMessage>)
    requires !LimitReached(env, s)
    ensures
      var imported := Import(env, s, sorted);
      imported.Finished? ==>
        var e := AfterImport(env, imported, exts); !e.full ==> !LimitReached(env, e.state)
  {
    hide LimitReached;
    ImportWithinLimit(env, s, sorted);
    var imported := Import(env, s, sorted);
    if imported.Finished? && !imported.full {
      ExternalsWithinLimit(env, imported.state, exts);
    }
  }

  /** A whole build over the sorted out-queue and the external messages waiting for the workchain. */
  function BuildBlock(env: BlockEnv, s: BlockState, sorted: seq<Message>, exts: seq<ExtMessage>): Build
    requires Lawful(env.executor)
    requires !LimitReached(env, s)
  {
    var imported := Import(env, s, sorted);
    if imported.Failed? then BuildFailed(exts) else
      WorklistStartsWithinLimit(env, s, sorted, exts);
      var e := AfterImport(env, imported, exts);
      var w := Worklist(env, e.state, e.full);
      if w.Failed? then BuildFailed(e.rest) else Built(w.state, sorted == [] && exts == [], e.rest)
  }
}
