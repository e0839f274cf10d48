/** A chain of the node: it builds on its last state and applies what it has built. */
module Shardchains {
  import opened Common
  import opened Messages
  import opened InMessagesQueues
  import opened Executor
  import opened BlockSpec
  import opened BlockBuilders
  import BlockLaws
  import Chains
  import ValueFlow
  import opened EngineSpec

  datatype Generated = GenerateError | NoBlock | NewBlock(block: Block)

  function AttemptOf(r: BuildResult): Attempt {
    match r
    case BuildError => BuildFails
    case BuildOk(b) => Builds(b.startLt, b.endLt, b.transactions, b.isEmpty)
  }

  ghost predicate SameBlocks(applied: seq<Applied>, records: seq<Chains.BlockRecord>) {
    && |applied| == |records|
    && forall i | 0 <= i < |applied| ::
         var b := applied[i].block;
         b.startLt == records[i].startLt && b.endLt == records[i].endLt && b.transactions == records[i].trace
  }

  /** The record that applying a build leaves. */
  ghost function RecordOf(env: BlockEnv, s: BlockState): Chains.BlockRecord {
    Chains.BlockRecord(env.startLt, Max(s.endLt, env.startLt + 1), s.trace, ValueFlow.FeesCollected(s),
                       s.copyleftRewards)
  }

  /** The messages of all other workchains wait as before. */
  ghost predicate OthersWait(wc: int, before: seq<ExtMessage>, after: seq<ExtMessage>) {
    forall other | other != wc :: For(other, after) == For(other, before)
  }

  class Shardchain {
    const shard: Shard
    const blockGasLimit: nat
    const messageQueue: InMessagesQueue
    ghost const base: nat
    var accounts: Accounts
    var outQueue: set<Message>
    var seqNo: nat
    var endLt: nat
    var applied: seq<Applied>
    ghost var records: seq<Chains.BlockRecord>

    ghost function View(): Chains.Chain
      reads this
    {
      Chains.Chain(accounts, outQueue, endLt, records)
    }

    ghost function Blocks(): Ledger
      reads this
    {
      Ledger(shard, base, applied)
    }

    /** The number of the state is that of its last block; the records describe the applied blocks. */
    ghost predicate Valid()
      reads this
    {
      seqNo == base + |applied| && SameBlocks(applied, records)
    }

    /** A chain over a first state, as a node without saved blocks finds it. */
    constructor (shard: Shard, blockGasLimit: nat, queue: InMessagesQueue, accounts: Accounts, outQueue: set<Message>,
      seqNo: nat)
      ensures Valid() && View() == Chains.Chain(accounts, outQueue, 0, [])
      ensures Blocks() == Ledger(shard, seqNo, [])
      ensures this.shard == shard && this.blockGasLimit == blockGasLimit && messageQueue == queue
    {
      this.shard, this.blockGasLimit, messageQueue, base := shard, blockGasLimit, queue, seqNo;
      this.accounts, this.outQueue, this.seqNo, endLt, applied, records := accounts, outQueue, seqNo, 0, [], [];
    }

    method NextSeqNo() returns (n: nat)
      requires Valid()
      ensures n == EngineSpec.NextSeqNo(Blocks())
    {
      n := seqNo + 1;
    }

    method BuildBlock(seqMode: bool, executor: ExecutorFn, provider: AccountId -> ProviderReply)
      returns (r: BuildResult, ghost inp: Chains.BlockInput)
      requires Executor.Lawful(executor)
      modifies messageQueue`storage
      ensures Chains.Valid(View(), inp)
      ensures inp.shard == shard && inp.gasLimit == blockGasLimit && inp.seqMode == seqMode && !inp.forced
      ensures inp.executor == executor && inp.provider == provider
      ensures inp.exts == For(shard.workchain, old(messageQueue.storage))
      ensures |messageQueue.storage| <= |old(messageQueue.storage)|
      ensures OthersWait(shard.workchain, old(messageQueue.storage), messageQueue.storage)
      ensures var b := Chains.BuildOn(View(), inp);
        && r == (if b.BuildFailed? then BuildError
                 else BuildOk(Finalized(Chains.EnvOf(View(), inp), seqNo + 1, b.state, b.isEmpty)))
        && For(shard.workchain, messageQueue.storage) == b.rest
    {
      hide BlockSpec.BuildBlock, BlockLaws.LawfulBuild, For;
      var collator := new BlockBuilder.WithParams(shard, seqNo, accounts, outQueue, endLt, seqMode, blockGasLimit,
                                                  executor, provider);
      ghost var exts := For(shard.workchain, messageQueue.storage);
      ghost var sorted;
      r, sorted := collator.BuildBlock(messageQueue);
      inp := Chains.BlockInput(shard, blockGasLimit, seqMode, executor, provider, sorted, exts, false);
    }

    method FinalityAndApplyBlock(mcSeqNo: nat, block: Block, p: PreparedBlock, ghost record: Chains.BlockRecord)
      requires Valid() && p.seqNo == seqNo + 1
      requires SameBlocks([Applied(block, mcSeqNo)], [record])
      modifies this
      ensures Valid() && Blocks() == Extended(old(Blocks()), block, mcSeqNo)
      ensures View() == Chains.Chain(p.accounts, p.outQueue, p.endLt, old(records) + [record])
    {
      accounts, outQueue, seqNo, endLt := p.accounts, p.outQueue, p.seqNo, p.endLt;
      applied := applied + [Applied(block, mcSeqNo)];
      records := records + [record];
    }

    /** Builds a block and applies it unless it is empty. The state makes one step of the chain. */
    method GenerateBlock(
      mcSeqNo: nat, time: nat, seqMode: bool, executor: ExecutorFn, provider: AccountId -> ProviderReply)
      returns (g: Generated, ghost inp: Chains.BlockInput, ghost a: Attempt)
      requires Valid() && Executor.Lawful(executor)
      modifies this, messageQueue`storage
      ensures Valid()
      ensures Chains.Valid(old(View()), inp) && View() == Chains.Step(old(View()), inp)
      ensures inp.shard == shard && inp.gasLimit == blockGasLimit && inp.seqMode == seqMode && !inp.forced
      ensures inp.executor == executor && inp.provider == provider
      ensures inp.exts == For(shard.workchain, old(messageQueue.storage))
      ensures |messageQueue.storage| <= |old(messageQueue.storage)|
      ensures OthersWait(shard.workchain, old(messageQueue.storage), messageQueue.storage)
      ensures For(shard.workchain, messageQueue.storage) == Chains.BuildOn(old(View()), inp).rest
      ensures g.NoBlock? ==> outQueue == {} && For(shard.workchain, messageQueue.storage) == []
      ensures match g
        case GenerateError => a.BuildFails? && Blocks() == old(Blocks())
        case NoBlock => a.Builds? && a.isEmpty && Blocks() == old(Blocks())
        case NewBlock(b) =>
          && a.Builds? && !a.isEmpty
          && b == MadeBlock(old(Blocks()), a, time) && Blocks() == Extended(old(Blocks()), b, mcSeqNo)
    {
      hide BlockSpec.BuildBlock, ValueFlow.FeesCollected;
      var r;
      r, inp := BuildBlock(seqMode, executor, provider);
      a := AttemptOf(r);
      if r.BuildError? {
        return GenerateError, inp, a;
      }
      Chains.EmptyBlockLosesNothing(View(), inp);
      if r.block.isEmpty {
        return NoBlock, inp, a;
      }
      var block := Block(shard, r.block.seqNo, r.block.startLt, r.block.endLt, time, NO_MARKS,
                         r.block.transactions, false, None, map[]);
      ghost var record := RecordOf(Chains.EnvOf(View(), inp), Chains.BuildOn(View(), inp).state);
      FinalityAndApplyBlock(mcSeqNo, block, r.block, record);
      return NewBlock(block), inp, a;
    }
  }
}
