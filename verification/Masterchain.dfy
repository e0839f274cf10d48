/** The masterchain: a chain whose blocks also carry the register of the newest shard blocks. */
module Masterchains {
  import opened Common
  import opened Messages
  import opened InMessagesQueues
  import opened Executor
  import opened BlockBuilders
  import Chains
  import BlockSpec
  import ValueFlow
  import opened EngineSpec
  import opened Shardchains

  lemma ListOneMore(byWorkchain: map<int, ShardDescr>, shards: map<Shard, ShardDescr>, rest: set<Shard>, s: Shard)
    requires s in rest && rest <= shards.Keys && Lists(byWorkchain, shards - rest)
    ensures Lists(byWorkchain[s.workchain := shards[s]], shards - (rest - {s}))
  {
    var done, more := shards - (rest - {s}), byWorkchain[s.workchain := shards[s]];
    forall w | w in more ensures IsEntry(done, w, more[w]) {
      if w == s.workchain {
        assert s in done;
      } else {
        assert IsEntry(shards - rest, w, byWorkchain[w]);
        var t :| t in shards - rest && t.workchain == w && shards[t] == byWorkchain[w];
        assert t in done;
      }
    }
  }

  lemma NothingListed()
    ensures Lists(map[], map[])
  {
  }

  class Masterchain {
    const shardchain: Shardchain
    const hashes: Hashes
    const config: nat
    var shards: map<Shard, ShardDescr>
    var shardsHasBeenChanged: bool

    constructor (shardchain: Shardchain, hashes: Hashes, config: nat)
      ensures this.shardchain == shardchain && this.hashes == hashes && this.config == config
      ensures shards == map[] && !shardsHasBeenChanged
    {
      this.shardchain, this.hashes, this.config := shardchain, hashes, config;
      shards, shardsHasBeenChanged := map[], false;
    }

    method RegisterNewShardBlock(block: Block)
      modifies this
      ensures shards == old(shards)[block.shard := DescrOf(hashes, block)] && shardsHasBeenChanged
      ensures Shows(hashes, shards[block.shard], block)
    {
      var descr := ShardDescr(block.seqNo, 1, block.startLt, block.endLt, hashes.root(block), hashes.file(block),
                              block.marks, block.shard, block.genUtime);
      shards := shards[block.shard := descr];
      shardsHasBeenChanged := true;
    }

    /** The register by workchain; the map of shards is walked in any order. */
    method ListShards() returns (byWorkchain: map<int, ShardDescr>)
      ensures Lists(byWorkchain, shards)
    {
      hide Lists;
      byWorkchain := map[];
      var rest := shards.Keys;
      NothingListed();
      assert shards - rest == map[];
      while rest != {}
        invariant rest <= shards.Keys && Lists(byWorkchain, shards - rest)
        decreases rest
      {
        var s :| s in rest;
        ListOneMore(byWorkchain, shards, rest, s);
        byWorkchain := byWorkchain[s.workchain := shards[s]];
        rest := rest - {s};
      }
      assert shards - rest == shards;
    }

    /** Builds a block, and applies it when it is not empty or when shards have changed since the last one. The state
        makes one step of the chain. */
    method GenerateBlock(
      mcSeqNo: nat, time: nat, seqMode: bool, executor: ExecutorFn, provider: AccountId -> ProviderReply)
      returns (g: Generated, ghost inp: Chains.BlockInput, ghost a: Attempt, ghost listing: map<int, ShardDescr>)
      requires shardchain.Valid() && Executor.Lawful(executor)
      modifies this`shardsHasBeenChanged, shardchain, shardchain.messageQueue`storage
      ensures shardchain.Valid() && (g.NewBlock? ==> Lists(listing, shards))
      ensures Chains.Valid(old(shardchain.View()), inp)
      ensures shardchain.View() == Chains.Step(old(shardchain.View()), inp)
      ensures inp.shard == shardchain.shard && inp.gasLimit == shardchain.blockGasLimit && inp.seqMode == seqMode
      ensures inp.forced == old(shardsHasBeenChanged) && inp.executor == executor && inp.provider == provider
      ensures inp.exts == For(shardchain.shard.workchain, old(shardchain.messageQueue.storage))
      ensures |shardchain.messageQueue.storage| <= |old(shardchain.messageQueue.storage)|
      ensures OthersWait(shardchain.shard.workchain, old(shardchain.messageQueue.storage),
                         shardchain.messageQueue.storage)
      ensures g.NoBlock? ==>
        shardchain.outQueue == {} && For(shardchain.shard.workchain, shardchain.messageQueue.storage) == []
      ensures match g
        case GenerateError => a.BuildFails? && shardchain.Blocks() == old(shardchain.Blocks())
        case NoBlock =>
          && a.Builds? && a.isEmpty && !old(shardsHasBeenChanged)
          && shardchain.Blocks() == old(shardchain.Blocks())
        case NewBlock(b) =>
          && a.Builds? && !(a.isEmpty && !old(shardsHasBeenChanged))
          && b == MadeBlock(old(shardchain.Blocks()), a, time).(
               keyBlock := true, config := Some(config), shards := listing)
          && shardchain.Blocks() == Extended(old(shardchain.Blocks()), b, mcSeqNo)
      ensures shardsHasBeenChanged == (old(shardsHasBeenChanged) && !g.NewBlock?)
    {
      hide BlockSpec.BuildBlock, ValueFlow.FeesCollected, Lists;
      listing := map[];
      var r, plain := shardchain.BuildBlock(seqMode, executor, provider);
      inp := plain.(forced := shardsHasBeenChanged);
      a := AttemptOf(r);
      assert Chains.BuildOn(shardchain.View(), inp) == Chains.BuildOn(shardchain.View(), plain);
      if r.BuildError? {
        return GenerateError, inp, a, listing;
      }
      Chains.EmptyBlockLosesNothing(shardchain.View(), inp);
      if r.block.isEmpty && !shardsHasBeenChanged {
        return NoBlock, inp, a, listing;
      }
      var list := ListShards();
      listing := list;
      var block := Block(shardchain.shard, r.block.seqNo, r.block.startLt, r.block.endLt, time, NO_MARKS,
                         r.block.transactions, true, Some(config), list);
      ghost var record :=
        RecordOf(Chains.EnvOf(shardchain.View(), inp), Chains.BuildOn(shardchain.View(), inp).state);
      shardchain.FinalityAndApplyBlock(mcSeqNo, block, r.block, record);
      shardsHasBeenChanged := false;
      return NewBlock(block), inp, a, listing;
    }
  }
}
