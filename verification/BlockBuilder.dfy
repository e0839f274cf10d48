/** The block builder in the form of the node: an object whose methods update its fields. */
module BlockBuilders {
  import opened Common
  import opened Messages
  import opened InMessagesQueues
  import opened Executor
  import opened BlockSpec
  import opened BlockLaws
  import opened BlockShape

  datatype PreparedBlock = PreparedBlock(
    seqNo: nat, startLt: nat, endLt: nat, transactions: seq<Txn>,
    accounts: Accounts, outQueue: set<Message>, isEmpty: bool)

  datatype BuildResult = BuildError | BuildOk(block: PreparedBlock)

  /** What FinalizeBlock reads out of a finished builder. */
  function Finalized(env: BlockEnv, seqNo: nat, s: BlockState, isEmpty: bool): PreparedBlock {
    PreparedBlock(seqNo, env.startLt, Max(s.endLt, env.startLt + 1), s.trace, s.accounts, s.outQueue, isEmpty)
  }

  class BlockBuilder {
    const env: BlockEnv
    const seqNo: nat
    var accounts: Accounts
    var newMessages: seq<Message>
    var outQueue: set<Message>
    var inMsgDescr: set<Message>
    var accountBlocks: seq<Txn>
    var totalGasUsed: nat
    var totalMessageProcessed: nat
    var endLt: nat
    var copyleftRewards: nat

    ghost function View(): BlockState
      reads this
    {
      BlockState(accounts, newMessages, outQueue, inMsgDescr, totalGasUsed, totalMessageProcessed, endLt,
                 copyleftRewards, accountBlocks)
    }

    constructor WithParams(
      shard: Shard, stateSeqNo: nat, accounts: Accounts, outQueue: set<Message>, prevEndLt: nat,
      seqMode: bool, blockGasLimit: nat, executor: ExecutorFn, provider: AccountId -> ProviderReply)
      ensures env == BlockEnv(shard, prevEndLt + 1, blockGasLimit, seqMode, executor, provider)
      ensures seqNo == stateSeqNo + 1
      ensures View() == Start(env, accounts, outQueue)
    {
      var startLt := prevEndLt + 1;
      env := BlockEnv(shard, startLt, blockGasLimit, seqMode, executor, provider);
      seqNo := stateSeqNo + 1;
      this.accounts, this.outQueue := accounts, outQueue;
      newMessages, inMsgDescr, accountBlocks := [], {}, [];
      totalGasUsed, totalMessageProcessed, copyleftRewards := 0, 0, 0;
      endLt := startLt + 1;
    }

    predicate IsLimitsReached()
      reads this
    {
      totalGasUsed > env.gasLimit || (env.seqMode && totalMessageProcessed > 0)
    }

    /** Runs the executor. The three errors an external message can cause become an aborted transaction. */
    method TryPrepareTransaction(acct: Option<Account>, id: AccountId, m: InMsg, lastLt: nat)
      returns (p: Prepared)
      modifies this`totalGasUsed
      ensures p == Prepare(env, acct, id, m, lastLt)
      ensures totalGasUsed == old(totalGasUsed) + if p.Prepared? then p.tx.gasUsed else 0
    {
      var result := env.executor(acct, id, m, lastLt);
      match result
      case Success(t) =>
        totalGasUsed := totalGasUsed + t.gasUsed;
        return Prepared(t);
      case Broken =>
        return NotPrepared;
      case _ =>
        var lt := Max(LastTime(acct), Max(lastLt, MsgLt(m) + 1));
        var left := acct;
        if acct.Some? {
          left := Some(acct.value.(lastTrTime := lt));
        }
        return Prepared(TxResult(lt, lt, left, [], 0, 0, 0));
    }

    method AddRawTransaction(txn: Txn)
      modifies this`accountBlocks, this`copyleftRewards, this`inMsgDescr, this`newMessages
      ensures accountBlocks == old(accountBlocks) + [txn]
      ensures copyleftRewards == old(copyleftRewards) + txn.copyleft
      ensures inMsgDescr == old(inMsgDescr) + if txn.inMsg.Internal? then {txn.inMsg.msg} else {}
      ensures newMessages == old(newMessages) + txn.outs
    {
      accountBlocks := accountBlocks + [txn];
      copyleftRewards := copyleftRewards + txn.copyleft;
      if txn.inMsg.Internal? {
        inMsgDescr := inMsgDescr + {txn.inMsg.msg};
      }
      for i := 0 to |txn.outs|
        invariant newMessages == old(newMessages) + txn.outs[..i]
        modifies this`newMessages
      {
        newMessages := newMessages + [txn.outs[i]];
      }
    }

    method Execute(m: InMsg, id: AccountId) returns (ok: bool)
      modifies this
      ensures ok == PrepareIn(env, old(View()), id, m).Prepared?
      ensures View() == if ok then Added(old(View()), id, m, PrepareIn(env, old(View()), id, m).tx)
                        else Counted(old(View()))
    {
      hide Prepare;
      totalMessageProcessed := totalMessageProcessed + 1;
      var acct, lastTransLt := None, 0;
      if id in accounts {
        acct, lastTransLt := Some(accounts[id].account), accounts[id].lastTransLt;
      } else {
        match env.provider(id)
        case Absent =>
        case Found(e) => acct, lastTransLt := Some(e.account), e.lastTransLt;
        case ProviderFailed => return false;
      }
      var p := TryPrepareTransaction(acct, id, m, Max(env.startLt, lastTransLt + 1));
      if p.NotPrepared? {
        return false;
      }
      endLt := Max(endLt, p.tx.maxLt);
      if p.tx.account.Some? {
        accounts := accounts[id := ShardAccount(p.tx.account.value, p.tx.lt)];
      } else {
        accounts := accounts - {id};
      }
      AddRawTransaction(Record(id, m, p.tx));
      return true;
    }

    /** Any order the standard sort may give: ties of the creation time are left open. */
    method SortQueue() returns (sorted: seq<Message>)
      ensures IsSortOf(sorted, outQueue)
    {
      sorted := [];
      var rest := outQueue;
      while rest != {}
        invariant SetOf(sorted) !! rest && SetOf(sorted) + rest == outQueue
        invariant IsSortOf(sorted, SetOf(sorted))
        invariant forall x, y | x in SetOf(sorted) && y in rest :: x.createdLt <= y.createdLt
        decreases rest
      {
        var least :| least in rest;
        var others := rest - {least};
        while others != {}
          invariant least in rest && others < rest
          invariant forall y | y in rest - others :: least.createdLt <= y.createdLt
          decreases others
        {
          var y :| y in others;
          if y.createdLt < least.createdLt {
            least := y;
          }
          others := others - {y};
        }
        assert forall i | 0 <= i < |sorted| :: sorted[i] in SetOf(sorted);
        sorted := sorted + [least];
        rest := rest - {least};
        assert SetOf(sorted) == SetOf(sorted[..|sorted| - 1]) + {least};
      }
    }

    /** The saved queue is imported in order; each message leaves it once it has run. */
    method ImportInternals(sorted: seq<Message>) returns (ok: bool, blockFull: bool)
      modifies this
      ensures Import(env, old(View()), sorted) == if ok then Finished(View(), blockFull) else Failed
      ensures sorted == [] ==> !blockFull && View() == old(View())
    {
      blockFull := false;
      ghost var s0 := View();
      for i := 0 to |sorted|
        invariant !blockFull && Import(env, s0, sorted) == Import(env, View(), sorted[i..])
        invariant sorted == [] ==> View() == s0
      {
        assert sorted[i..][0] == sorted[i] && sorted[i..][1..] == sorted[i + 1..];
        var done := Execute(Internal(sorted[i]), sorted[i].dst.account);
        if !done {
          return false, false;
        }
        outQueue := outQueue - {sorted[i]};
        if IsLimitsReached() {
          return true, true;
        }
      }
      ok := true;
    }

    method RunExternal(e: ExtMessage) returns (full: bool)
      modifies this
      ensures View() == AfterExternal(env, old(View()), e)
      ensures full == LimitReached(env, View())
    {
      var _ := Execute(External(e), e.account);
      full := IsLimitsReached();
    }

    method ImportExternals(queue: InMessagesQueue) returns (isEmpty: bool, blockFull: bool)
      modifies this, queue`storage
      ensures isEmpty == (For(env.shard.workchain, old(queue.storage)) == [])
      ensures
        var wc := env.shard.workchain;
        Externals(env, old(View()), For(wc, old(queue.storage)))
          == ExternalOutcome(View(), blockFull, For(wc, queue.storage))
      ensures forall other | other != env.shard.workchain :: For(other, queue.storage) == For(other, old(queue.storage))
      ensures |queue.storage| <= |old(queue.storage)|
    {
      isEmpty, blockFull := true, false;
      ghost var wc, s0, exts := env.shard.workchain, View(), For(env.shard.workchain, queue.storage);
      while true
        invariant !blockFull
        invariant if isEmpty then For(wc, queue.storage) == exts else exts != []
        invariant Externals(env, s0, exts) == Externals(env, View(), For(wc, queue.storage))
        invariant forall other | other != wc :: For(other, queue.storage) == For(other, old(queue.storage))
        invariant |queue.storage| <= |old(queue.storage)|
        decreases |For(wc, queue.storage)|
      {
        var msg := queue.Dequeue(env.shard.workchain);
        if msg.None? {
          return;
        }
        isEmpty := false;
        blockFull := RunExternal(msg.value);
        if blockFull {
          return;
        }
      }
    }

    /** The state seen as one worklist: `ahead` is the part of the current batch still to be drained. */
    ghost function Pending(ahead: seq<Message>): BlockState
      reads this
    {
      View().(newMessages := ahead + newMessages)
    }

    method RunNew(message: Message, ghost ahead: seq<Message>, full: bool) returns (ok: bool, nowFull: bool)
      modifies this
      ensures Next(env, old(Pending([message] + ahead)), full)
           == if ok then Finished(Pending(ahead), nowFull) else Failed
    {
      ghost var s := Pending([message] + ahead);
      assert s.newMessages[0] == message && s.newMessages[1..] == ahead + newMessages;
      ok, nowFull := true, full;
      if !InShard(env.shard, message) || full {
        outQueue := outQueue + {message};
      } else {
        ghost var pending := newMessages;
        ok := Execute(Internal(message), message.dst.account);
        if ok {
          nowFull := IsLimitsReached();
          assert ahead + newMessages == ahead + pending + newMessages[|pending|..];
        }
      }
    }

    /** Drains one batch; the transactions it causes fill the next one. */
    method Drain(batch: seq<Message>, full: bool) returns (ok: bool, nowFull: bool)
      requires Lawful(env.executor)
      requires newMessages == [] && batch != [] && (!full ==> !IsLimitsReached())
      modifies this
      ensures !nowFull ==> !IsLimitsReached()
      ensures Worklist(env, old(Pending(batch)), full) == if ok then Worklist(env, View(), nowFull) else Failed
      ensures ok ==> Smaller(env, View(), nowFull, old(Pending(batch)), full)
    {
      hide Worklist, Next, Gas, Weight;
      ghost var s0 := Pending(batch);
      nowFull := full;
      for i := 0 to |batch|
        invariant !nowFull ==> !IsLimitsReached()
        invariant Worklist(env, s0, full) == Worklist(env, Pending(batch[i..]), nowFull)
        invariant if i == 0 then Pending(batch[i..]) == s0 && nowFull == full
                  else Smaller(env, Pending(batch[i..]), nowFull, s0, full)
      {
        ghost var now, fullNow := Pending(batch[i..]), nowFull;
        assert batch[i..] == [batch[i]] + batch[i + 1..];
        WorklistStep(env, now, fullNow);
        ok, nowFull := RunNew(batch[i], batch[i + 1..], nowFull);
        if !ok {
          return false, true;
        }
      }
      ok := true;
      assert batch[|batch|..] + newMessages == newMessages;
    }

    /** The new messages, batch by batch: each batch is taken as a whole and drained. The outcome is that of
        the one-at-a-time worklist. */
    method RunNewMessages(full: bool) returns (ok: bool, wasEmpty: bool)
      requires Lawful(env.executor)
      requires !full ==> !IsLimitsReached()
      modifies this
      ensures var w := Worklist(env, old(View()), full);
        ok == w.Finished? && (ok ==> View() == w.state)
      ensures ok ==> AllOnTarget(old(accountBlocks), accountBlocks)
      ensures wasEmpty == (old(newMessages) == [])
    {
      ghost var s0 := View();
      WorklistOnTarget(env, s0, full);
      wasEmpty := true;
      var blockFull := full;
      while newMessages != []
        invariant !blockFull ==> !IsLimitsReached()
        invariant Worklist(env, s0, full) == Worklist(env, View(), blockFull)
        invariant if wasEmpty then s0 == View() && blockFull == full else s0.newMessages != []
        decreases Gas(env, View(), blockFull), Weight(newMessages)
      {
        var batch := newMessages;
        newMessages := [];
        wasEmpty := false;
        assert batch + [] == batch;
        ok, blockFull := Drain(batch, blockFull);
        if !ok {
          return;
        }
      }
      ok := true;
    }

    method FinalizeBlock(isEmpty: bool) returns (block: PreparedBlock)
      ensures block == Finalized(env, seqNo, View(), isEmpty)
    {
      block := PreparedBlock(seqNo, env.startLt, Max(endLt, env.startLt + 1), accountBlocks, accounts, outQueue,
                             isEmpty);
    }

    /** One build. It returns what the specification builds for the order `sorted` in which the queue was imported,
        which follows the law of module BlockLaws, and takes from the inbound queue only messages of its own workchain.
        */
    method BuildBlock(queue: InMessagesQueue) returns (r: BuildResult, ghost sorted: seq<Message>)
      requires Lawful(env.executor)
      requires View() == Start(env, accounts, outQueue)
      modifies this, queue`storage
      ensures IsSortOf(sorted, old(outQueue))
      ensures
        var built := BlockSpec.BuildBlock(env, old(View()), sorted, For(env.shard.workchain, old(queue.storage)));
        && r == (if built.BuildFailed? then BuildError else BuildOk(Finalized(env, seqNo, built.state, built.isEmpty)))
        && For(env.shard.workchain, queue.storage) == built.rest
        && LawfulBuild(env, FirstBooks(env, old(accounts)), sorted, For(env.shard.workchain, old(queue.storage)), built)
      ensures forall other | other != env.shard.workchain :: For(other, queue.storage) == For(other, old(queue.storage))
      ensures |queue.storage| <= |old(queue.storage)|
    {
      ghost var s0, exts := View(), For(env.shard.workchain, queue.storage);
      var inOrder := SortQueue();
      sorted := inOrder;
      WorklistStartsWithinLimit(env, s0, sorted, exts);
      BuildFollowsLaw(env, accounts, outQueue, sorted, exts);
      var ok, blockFull := ImportInternals(inOrder);
      if !ok {
        return BuildError, sorted;
      }
      var isEmpty := inOrder == [];
      if !blockFull {
        var noExternal;
        noExternal, blockFull := ImportExternals(queue);
        isEmpty := isEmpty && noExternal;
      }
      ghost var e := AfterImport(env, Import(env, s0, sorted), exts);
      assert View() == e.state && blockFull == e.full && For(env.shard.workchain, queue.storage) == e.rest;
      var done, wasEmpty := RunNewMessages(blockFull);
      if !done {
        return BuildError, sorted;
      }
      isEmpty := isEmpty && wasEmpty;
      var block := FinalizeBlock(isEmpty);
      return BuildOk(block), sorted;
    }
  }
}
