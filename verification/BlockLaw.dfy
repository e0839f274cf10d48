/** What a block is, read from outside: the messages it took up one after another, each on the account it is addressed
    to, and the books before and after each of them. The functions of module BlockSpec are not used in this reading. */
module BlockLaws {
  import opened Common
  import opened Messages
  import opened Executor
  import opened BlockSpec
  import opened Trace

  datatype Books = Books(accounts: Accounts, gas: nat, rewards: nat, endLt: nat)

  /** A message taken up, and its transaction unless it failed. */
  datatype Entry = Entry(m: InMsg, tx: Option<Txn>)

  /** `books[i]` are the books before entry `i`, and the last ones are those at the end. */
  datatype Journal = Journal(entries: seq<Entry>, books: seq<Books>)

  function Target(m: InMsg): AccountId {
    match m
    case Internal(x) => x.dst.account
    case External(e) => e.account
  }

  // ---- one entry ----

  /** What is known of an account: what the dictionary holds, or else what the provider answers. */
  ghost predicate KnownAs(env: BlockEnv, accounts: Accounts, id: AccountId, known: Option<ShardAccount>) {
    if id in accounts then known == Some(accounts[id]) else
      match env.provider(id)
      case Absent => known == None
      case Found(e) => known == Some(e)
      case ProviderFailed => false
  }

  /** The executor is asked for a time from the first one of the block on, after the last one of the account. */
  function AnswerTo(env: BlockEnv, known: Option<ShardAccount>, m: InMsg): ExecResult {
    match known
    case None => env.executor(None, Target(m), m, Max(1, env.startLt))
    case Some(e) => env.executor(Some(e.account), Target(m), m, Max(e.lastTransLt + 1, env.startLt))
  }

  /** One account has the given entry, or none, and the others are as before. */
  ghost predicate OnlyChanges(accounts: Accounts, id: AccountId, entry: Option<ShardAccount>, accounts': Accounts) {
    && accounts' - {id} == accounts - {id}
    && (if entry.Some? then id in accounts' && accounts'[id] == entry.value else id !in accounts')
  }

  ghost predicate Succeeds(b: Books, m: InMsg, r: TxResult, t: Txn, b': Books) {
    && t.account == Target(m) && t.inMsg == m && t.lt == r.lt && t.outs == r.outs
    && t.gasUsed == r.gasUsed && t.fees == r.fees && t.copyleft == r.copyleft && (t.gone <==> r.account.None?)
    && OnlyChanges(b.accounts, Target(m), if r.account.None? then None else Some(ShardAccount(r.account.value, r.lt)),
                   b'.accounts)
    && b'.gas == b.gas + r.gasUsed && b'.rewards == b.rewards + r.copyleft && b'.endLt == Max(r.maxLt, b.endLt)
  }

  /** The earliest time after all that is known of the account. */
  function AbortTime(env: BlockEnv, known: Option<ShardAccount>): nat {
    match known
    case None => Max(1, env.startLt)
    case Some(e) => Max(env.startLt, Max(e.lastTransLt + 1, Max(1, e.account.lastTrTime)))
  }

  /** An aborted transaction moves the account on in time and does nothing else. */
  ghost predicate Aborts(env: BlockEnv, b: Books, known: Option<ShardAccount>, m: InMsg, t: Txn, b': Books) {
    var lt := AbortTime(env, known);
    && m.External? && t == Txn(Target(m), m, lt, [], 0, 0, 0, known.None?)
    && OnlyChanges(b.accounts, Target(m),
                   if known.None? then None
                   else Some(ShardAccount(Account(known.value.account.balance, lt, known.value.account.data), lt)),
                   b'.accounts)
    && b'.gas == b.gas && b'.rewards == b.rewards && b'.endLt == Max(lt, b.endLt)
  }

  ghost predicate RunsAs(env: BlockEnv, b: Books, known: Option<ShardAccount>, m: InMsg, t: Txn, b': Books) {
    match AnswerTo(env, known, m)
    case Success(r) => Succeeds(b, m, r, t, b')
    case Broken => false
    case _ => Aborts(env, b, known, m, t, b')
  }

  /** The account cannot be had, or the executor breaks on it. */
  ghost predicate CannotRun(env: BlockEnv, accounts: Accounts, m: InMsg) {
    forall known | KnownAs(env, accounts, Target(m), known) :: AnswerTo(env, known, m).Broken?
  }

  ghost predicate Explained(env: BlockEnv, b: Books, e: Entry, b': Books) {
    match e.tx
    case None => e.m.External? && CannotRun(env, b.accounts, e.m) && b' == b
    case Some(t) =>
      exists known :: KnownAs(env, b.accounts, Target(e.m), known) && RunsAs(env, b, known, e.m, t, b')
  }

  // ---- a journal ----

  /** A block is open while its gas is at most the limit and, in sequential mode, until it has taken up a message. */
  predicate Open(env: BlockEnv, taken: nat, b: Books) { b.gas <= env.gasLimit && (env.seqMode ==> taken == 0) }

  ghost predicate EntryOk(env: BlockEnv, j: Journal, i: nat)
    requires |j.books| == |j.entries| + 1 && i < |j.entries|
  {
    Open(env, i, j.books[i]) && Explained(env, j.books[i], j.entries[i], j.books[i + 1])
  }

  ghost predicate Honest(env: BlockEnv, start: Books, j: Journal) {
    && |j.books| == |j.entries| + 1 && j.books[0] == start
    && forall i | 0 <= i < |j.entries| :: EntryOk(env, j, i)
  }

  function Last(j: Journal): Books
    requires j.books != []
  {
    j.books[|j.books| - 1]
  }

  /** The messages of a journal, and its transactions. */
  function MessagesOf(entries: seq<Entry>): (r: seq<InMsg>)
    ensures |r| == |entries|
  {
    seq(|entries|, i requires 0 <= i < |entries| => entries[i].m)
  }

  function TransactionOf(e: Entry): seq<Txn> { if e.tx.None? then [] else [e.tx.value] }

  function Transactions(entries: seq<Entry>): seq<Txn> {
    if entries == [] then [] else
      Transactions(entries[..|entries| - 1]) + TransactionOf(entries[|entries| - 1])
  }

  function AsInternal(ms: seq<Message>): (r: seq<InMsg>)
    ensures |r| == |ms|
  {
    seq(|ms|, i requires 0 <= i < |ms| => Internal(ms[i]))
  }

  function AsExternal(es: seq<ExtMessage>): (r: seq<InMsg>)
    ensures |r| == |es|
  {
    seq(|es|, i requires 0 <= i < |es| => External(es[i]))
  }

  function Append(j: Journal, e: Entry, b: Books): Journal { Journal(j.entries + [e], j.books + [b]) }

  lemma HonestAppend(env: BlockEnv, start: Books, j: Journal, e: Entry, b: Books)
    requires Honest(env, start, j) && Open(env, |j.entries|, Last(j)) && Explained(env, Last(j), e, b)
    ensures var j' := Append(j, e, b);
      && Honest(env, start, j') && Last(j') == b
      && MessagesOf(j'.entries) == MessagesOf(j.entries) + [e.m]
      && Transactions(j'.entries) == Transactions(j.entries) + TransactionOf(e)
  {
    hide Explained, Open;
    var j' := Append(j, e, b);
    assert j'.entries[..|j.entries|] == j.entries;
    forall i | 0 <= i < |j'.entries| ensures EntryOk(env, j', i) {
      if i < |j.entries| {
        assert EntryOk(env, j, i);
      }
    }
  }

  // ---- a whole block ----

  /** From entry `first` on, a new message for this shard is taken up only once an earlier entry has created it. */
  ghost predicate Caused(shard: Shard, first: nat, entries: seq<Entry>) {
    forall i | first <= i < |entries| :: i - first < |Split(shard, true, Emitted(Transactions(entries[..i])))|
  }

  /** The order in which messages are taken up: `k` of the saved queue, then `x` external ones, then those for this
      shard among the first `c` new ones. Each source is used up before the next one is touched. */
  ghost predicate TakenInOrder(
    env: BlockEnv, sorted: seq<Message>, exts: seq<ExtMessage>, j: Journal, k: nat, x: nat, c: nat)
  {
    var emitted := Emitted(Transactions(j.entries));
    && k <= |sorted| && x <= |exts| && c <= |emitted|
    && MessagesOf(j.entries) == AsInternal(sorted[..k]) + AsExternal(exts[..x])
                                + AsInternal(Split(env.shard, true, emitted[..c]))
    && Caused(env.shard, k + x, j.entries)
    && (k < |sorted| ==> x == 0) && (k < |sorted| || x < |exts| ==> c == 0)
  }

  /** A finished block: an honest journal whose last books are those of the block. What was not taken up waits, and
      nothing waits that could have been taken up unless the block has closed. */
  ghost predicate Complete(
    env: BlockEnv, start: Books, sorted: seq<Message>, exts: seq<ExtMessage>, j: Journal, k: nat, x: nat, c: nat,
    b: Build)
  {
    var emitted := Emitted(Transactions(j.entries));
    && Honest(env, start, j) && TakenInOrder(env, sorted, exts, j, k, x, c)
    && (k < |sorted| || x < |exts| || c < |emitted| ==> !Open(env, |j.entries|, Last(j)))
    && b.Built? && b.state.trace == Transactions(j.entries)
    && Last(j) == Books(b.state.accounts, b.state.gasUsed, b.state.copyleftRewards, b.state.endLt)
    && b.state.outQueue == SetOf(sorted[k..]) + SetOf(Split(env.shard, false, emitted[..c])) + SetOf(emitted[c..])
    && b.rest == exts[x..]
    && (b.isEmpty <==> j.entries == [])
  }

  /** The block is open, and the message cannot be run. */
  ghost predicate Stuck(env: BlockEnv, start: Books, j: Journal, m: Message) {
    Honest(env, start, j) && Open(env, |j.entries|, Last(j)) && CannotRun(env, Last(j).accounts, Internal(m))
  }

  /** A failed build: an honest journal up to an internal message that was next and cannot be run. */
  ghost predicate Stopped(
    env: BlockEnv, start: Books, sorted: seq<Message>, exts: seq<ExtMessage>, j: Journal, k: nat, x: nat, c: nat,
    b: Build)
  {
    var emitted := Emitted(Transactions(j.entries));
    && TakenInOrder(env, sorted, exts, j, k, x, c) && b.BuildFailed? && b.rest == exts[x..]
    && (if k < |sorted| then Stuck(env, start, j, sorted[k]) else
          x == |exts| && c < |emitted| && InShard(env.shard, emitted[c]) && Stuck(env, start, j, emitted[c]))
  }

  /** The build is a finished block or a failed one. */
  ghost predicate LawfulBuild(env: BlockEnv, start: Books, sorted: seq<Message>, exts: seq<ExtMessage>, b: Build) {
    exists j, k, x, c ::
      Complete(env, start, sorted, exts, j, k, x, c, b) || Stopped(env, start, sorted, exts, j, k, x, c, b)
  }

  /** The transaction is on the account to which its message is addressed. */
  predicate OnTarget(t: Txn) { t.account == Target(t.inMsg) }

  // ---- the journal of a build ----

  ghost function BooksOf(s: BlockState): Books { Books(s.accounts, s.gasUsed, s.copyleftRewards, s.endLt) }

  ghost predicate Logged(env: BlockEnv, start: Books, j: Journal, s: BlockState) {
    && Honest(env, start, j) && Last(j) == BooksOf(s)
    && s.trace == Transactions(j.entries) && s.processed == |j.entries|
  }

  lemma OpenIffWithinLimit(env: BlockEnv, start: Books, j: Journal, s: BlockState)
    requires Logged(env, start, j, s)
    ensures Open(env, |j.entries|, Last(j)) <==> !LimitReached(env, s)
  {
    hide Honest;
  }

  lemma FoundIsKnown(env: BlockEnv, accounts: Accounts, id: AccountId)
    ensures var f := Find(env, accounts, id);
      if f.LookupFailed? then forall known :: !KnownAs(env, accounts, id, known)
      else exists known :: KnownAs(env, accounts, id, known)
                           && f == match known
                                   case None => Lookup(None, 0)
                                   case Some(e) => Lookup(Some(e.account), e.lastTransLt)
  {
    if id in accounts {
      assert KnownAs(env, accounts, id, Some(accounts[id]));
    } else {
      match env.provider(id)
      case Absent => assert KnownAs(env, accounts, id, None);
      case Found(e) => assert KnownAs(env, accounts, id, Some(e));
      case ProviderFailed =>
    }
  }

  lemma AddedChangesOnly(s: BlockState, id: AccountId, m: InMsg, t: TxResult)
    ensures OnlyChanges(s.accounts, id, if t.account.None? then None else Some(ShardAccount(t.account.value, t.lt)),
                        Added(s, id, m, t).accounts)
  {
  }

  lemma KnownIsFound(env: BlockEnv, accounts: Accounts, id: AccountId, known: Option<ShardAccount>)
    requires KnownAs(env, accounts, id, known)
    ensures Find(env, accounts, id) == match known
                                       case None => Lookup(None, 0)
                                       case Some(e) => Lookup(Some(e.account), e.lastTransLt)
  {
  }

  lemma OnlyOutsideAborts(env: BlockEnv, known: Option<ShardAccount>, m: InMsg)
    requires Lawful(env.executor)
    ensures var r := AnswerTo(env, known, m); m.External? || r.Success? || r.Broken?
  {
    match known
    case None => assert LawfulAt(None, Target(m), m, Max(1, env.startLt), AnswerTo(env, known, m));
    case Some(e) =>
      var lastLt := Max(e.lastTransLt + 1, env.startLt);
      assert LawfulAt(Some(e.account), Target(m), m, lastLt, AnswerTo(env, known, m));
  }

  /** What the builder prepares is what the executor answers, or an aborted transaction in its place. */
  lemma PreparedAnswer(env: BlockEnv, s: BlockState, m: InMsg, known: Option<ShardAccount>)
    requires KnownAs(env, s.accounts, Target(m), known)
    requires var r := AnswerTo(env, known, m); m.External? || r.Success? || r.Broken?
    ensures PrepareIn(env, s, Target(m), m)
      == match AnswerTo(env, known, m)
         case Success(r) => Prepared(r)
         case Broken => NotPrepared
         case _ =>
           var lt := AbortTime(env, known);
           Prepared(TxResult(lt, lt, if known.None? then None else Some(known.value.account.(lastTrTime := lt)), [], 0,
                             0, 0))
  {
    KnownIsFound(env, s.accounts, Target(m), known);
  }

  lemma PreparedRuns(env: BlockEnv, s: BlockState, m: InMsg, known: Option<ShardAccount>)
    requires Lawful(env.executor) && KnownAs(env, s.accounts, Target(m), known)
    requires PrepareIn(env, s, Target(m), m).Prepared?
    ensures var t := PrepareIn(env, s, Target(m), m).tx;
      RunsAs(env, BooksOf(s), known, m, Record(Target(m), m, t), BooksOf(Added(s, Target(m), m, t)))
  {
    OnlyOutsideAborts(env, known, m);
    PreparedAnswer(env, s, m, known);
    AddedChangesOnly(s, Target(m), m, PrepareIn(env, s, Target(m), m).tx);
    hide Lawful, OnlyChanges, KnownAs, PrepareIn, AnswerTo, Target, AbortTime, Max;
  }

  lemma TransactionExplained(env: BlockEnv, s: BlockState, m: InMsg)
    requires Lawful(env.executor) && PrepareIn(env, s, Target(m), m).Prepared?
    ensures var t := PrepareIn(env, s, Target(m), m).tx;
      Explained(env, BooksOf(s), Entry(m, Some(Record(Target(m), m, t))), BooksOf(Added(s, Target(m), m, t)))
  {
    hide Lawful, Added, RunsAs, Prepare;
    FoundIsKnown(env, s.accounts, Target(m));
    var known :| KnownAs(env, s.accounts, Target(m), known);
    PreparedRuns(env, s, m, known);
  }

  lemma UnpreparedCannotRun(env: BlockEnv, s: BlockState, m: InMsg)
    requires PrepareIn(env, s, Target(m), m).NotPrepared?
    ensures CannotRun(env, s.accounts, m)
  {
    FoundIsKnown(env, s.accounts, Target(m));
  }

  lemma LoggedTransaction(env: BlockEnv, start: Books, j: Journal, s: BlockState, m: InMsg) returns (j': Journal)
    requires Lawful(env.executor) && Logged(env, start, j, s) && !LimitReached(env, s)
    requires PrepareIn(env, s, Target(m), m).Prepared?
    ensures Logged(env, start, j', Added(s, Target(m), m, PrepareIn(env, s, Target(m), m).tx))
    ensures var t := PrepareIn(env, s, Target(m), m).tx;
      j' == Append(j, Entry(m, Some(Record(Target(m), m, t))), Last(j'))
    ensures MessagesOf(j'.entries) == MessagesOf(j.entries) + [m]
  {
    OpenIffWithinLimit(env, start, j, s);
    TransactionExplained(env, s, m);
    hide Lawful, Explained, PrepareIn, Honest, LimitReached, Open;
    var t := PrepareIn(env, s, Target(m), m).tx;
    var e, b := Entry(m, Some(Record(Target(m), m, t))), BooksOf(Added(s, Target(m), m, t));
    HonestAppend(env, start, j, e, b);
    j' := Append(j, e, b);
  }

  lemma LoggedFailure(env: BlockEnv, start: Books, j: Journal, s: BlockState, m: ExtMessage) returns (j': Journal)
    requires Logged(env, start, j, s) && !LimitReached(env, s)
    requires PrepareIn(env, s, m.account, External(m)).NotPrepared?
    ensures Logged(env, start, j', Counted(s))
    ensures MessagesOf(j'.entries) == MessagesOf(j.entries) + [External(m)]
  {
    OpenIffWithinLimit(env, start, j, s);
    UnpreparedCannotRun(env, s, External(m));
    hide PrepareIn, Honest, LimitReached, Open, CannotRun;
    HonestAppend(env, start, j, Entry(External(m), None), BooksOf(s));
    j' := Append(j, Entry(External(m), None), BooksOf(s));
  }
}
