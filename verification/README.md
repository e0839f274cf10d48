# A verified model of the node and its contracts

The project models the parts of a single-process TON node (`node/src`) and of its system contracts (`contracts`) whose
behaviour spans many steps, and proves what they guarantee over whole runs.

**Block production.** `BlockBuilder.dfy` is the block builder in the node's own form: an object that imports the saved
out-queue in creation order, then external messages, then drains the messages its own transactions create, until a gas
limit or the sequential mode closes the block. `BlockSpec.dfy` says the same on values, as one worklist. `BlockLaw.dfy`
says what a block is without any of these functions: a journal of the messages it took up, with the books before and
after each; `BlockShape.dfy` proves that every build has such a journal and gives a finished block a closed form.
`Chain.dfy` and `ChainLaw.dfy` lift both to runs of blocks, with their logical times and gas, `Delivery.dfy` proves delivery in order and exactly once, `ChainValue.dfy` the flow of value, and
`Recreation.dfy` the exact condition for both. `Trace.dfy` and `ValueFlow.dfy` hold the vocabulary of transactions and
sums. The transaction executor (`Executor.dfy`) is an arbitrary function that meets a contract: the transaction time
is at least max(account time, given time, message time + 1), new messages come later in increasing order, value is
conserved, the three external-message errors happen only to external messages, and a run without gas emits at most one
bounced message and none when it runs a bounced message.

**The engine.** `Shardchain.dfy`, `Masterchain.dfy`, `BlockTime.dfy` and `Engine.dfy` are the objects around the builder,
with the nested loops of one pass. `EngineSpec.dfy` is the pass as a machine on values; `EngineTheorems.dfy` proves what
every run of passes keeps about the register of shards, `EngineTimes.dfy` what one pass does to generation times,
`EngineClock.dfy` when the time goes back, `EngineRounds.dfy` what a round does, when a pass ends and what times it reads
off the system clock, and `EngineRuns.dfy` what a pass keeps of each chain.
`InMessagesQueue.dfy` is the inbound queue.

**The finality layer.** `ShardStorage.dfy`, `FinalitySpec.dfy`, `FinalityTheorems.dfy` and `Finality.dfy`: key names, the
codecs, the order of writes, crash consistency, runs with restarts and crashes. `FinalityStart.dfy` proves where a layer
starts and what its puts leave, `FinalitySave.dfy` what saving and loading means for maps that are not empty, and where
each byte lies. `FinalityCodec.dfy` has a concrete codec,
`ChainStorage.dfy` a chain that lives in the layer, and `ChainPacking.dfy` one way to hold its state there.

**Contracts.** `Wallet*.dfy` and `Masks.dfy` are the multisignature wallet, with `WalletAnswers.dfy` for what it answers
and pays in terms of its calls; `GiverSpec.dfy` and `Givers.dfy` the replay
protection of the two givers; `OrderedKeys.dfy` the ordered dictionary they use.

Each class is proved equal to functions on values, and the results about runs are proved about these functions.

Six properties do not hold unconditionally, and the exact condition is part of the result.

- Delivery over all runs that a node makes from its start under given settings holds exactly in the sequential mode
  (`Recreation.AlwaysDeliversIff`). In the other mode a run delivers exactly when each block creates its messages in
  route order (`Delivery.RunDeliversIff`), for which it is enough that no account leaves the dictionary between two
  transactions in which it sends messages.
- Conservation of value over all such runs holds exactly in the sequential mode (`Recreation.AlwaysConservesIff`); in
  the other mode a run conserves value exactly when no block doubles a message that carries value
  (`ChainValues.RunConservesValueIff`). Value is never created.
- The wallet can fire a transfer older than its lifetime in some run exactly when it has at least nine custodians and
  asks for at least two confirmations (`WalletExpiry.CanFireExpiredIff`).
- A giver accepts a hash again exactly when a call accepted since came at or after its expiry time, in V3 with the hash
  among the 30 entries it visited, and the new call comes before its own (`GiverSpec.AcceptedAgainIff`); so never while
  time does not go back.
- The time of a sequential pass starts below that of the newest block exactly when the delta has dropped by more than one
  since that block (`EngineClock.FirstTimeIff`).
- A shard block comes back from its encoding exactly when its serialized block is shorter than 2^32 bytes
  (`FinalitySpec.RoundTripIff`).

## Model

| member | source | states |
|---|---|---|
| `Recreation.AlwaysDeliversIff` | node/src/block/builder.rs:337-430 | For every shard and gas limit: all runs that a node makes from its start, with any accounts, deliver if and only if the mode is sequential. |
| `Recreation.TwoBlocksFail` | node/src/block/builder.rs:362-430 | Otherwise, for every shard and gas limit, there is a run of two blocks from a node's start after which delivery has failed and value is lost. |
| `Delivery.StepDeliversIff` | node/src/block/builder.rs:350-430 | For every chain that has delivered so far and every attempt: the chain has still delivered after it if and only if nothing was applied or, on each route, the new messages have different times that increase from each one that ran in the block. |
| `Delivery.RunDeliversIff` | node/src/block/builder.rs:342-437 | Over any run, whatever the executor, accounts, limits, modes and failures: internal messages of one source and destination run in strictly increasing creation time, what waits is later than what ran, and first queue plus created equals run plus waiting as multisets, if and only if every attempt of the run is in route order. |
| `Delivery.DeliveredBefore` | node/src/block/builder.rs:342-437 | Once delivery has failed it has failed for good. |
| `Delivery.SequentialRunIsDisciplined` | node/src/block/builder.rs:337-340 | A sequential run needs no assumption on accounts. |
| `Delivery.DeliveredExactlyOnce` | node/src/block/builder.rs:342-437 | The same read on single messages: every message of the first queue or created since has run once or waits, never both, and none is created twice. |
| `Delivery.BlockDeliversIff` | node/src/block/builder.rs:350-430 | What a block runs is in order and precedes what it leaves, with nothing lost or doubled, if and only if its new messages are in route order; a full block never inverts a route. |
| `Delivery.ForeignRunsOnlyByImport` | node/src/block/builder.rs:362-377 | A block runs a message that is not for its shard exactly when it imports it, as the import makes no check of the destination; a block that ends within its limits imports all. |
| `Delivery.ForeignOverRuns` | node/src/block/builder.rs:362-377 | Over a run that delivers, a message has been executed exactly when it was in the first queue or was created and has left the queue, whether or not it was for the shard. |
| `Delivery.GenesisDelivers` | node/src/block/builder.rs:116-128 | A chain without blocks satisfies the delivery invariant exactly when its first queue has no time beyond the chain's and no two messages of one route with one time. |
| `Recreation.TransfersAreNotDelivered` | node/src/block/builder.rs:362-377 | With any dictionary, two queued transfers to an account that is not in it both run at the first time of the block, both bounce at the next one, and delivery fails, whatever the gas limit. |
| `Recreation.TransfersLoseValue` | node/src/block/builder.rs:400-430 | The two bounced messages are equal, the queue or the inbound description of the block keeps only one of them, and value is lost. |
| `Recreation.AlwaysConservesIff` | node/src/block/builder.rs:529-539 | For every shard and gas limit: all runs that a node makes from its start without an external account provider conserve value if and only if the mode is sequential. |
| `BlockShape.BuildHasForm` | node/src/block/builder.rs:342-444 | Every build follows the law of blocks: a finished one is complete, a failed one has stopped at an internal message that was next and cannot be run. Closed form of a finished one: the k oldest queued messages ran, then the in-shard ones of the first c new messages in creation order; all others are in the new queue, nothing new ran when the import was cut short, and a block reported empty has changed nothing. |
| `ChainLaws.AttemptIsLawful` | node/src/block/builder.rs:265-444 | Every attempt read from its messages alone: it took up k of the queue, then x external ones, then in-shard new ones that it had created before, each while gas was at most the limit and, in sequential mode, only as the first; nothing that could be taken up is left unless the block has closed; accounts, gas, rewards and end time add up transaction by transaction. A failed build is stuck at an internal message that cannot be run. The chain goes on with the last books, or stays as it was. |
| `BlockLaws.TransactionExplained` | node/src/block/builder.rs:167-335 | A prepared transaction is what the executor answers for the addressed account, as the dictionary or else the provider knows it, at a time after its last one; or, for the external errors, an aborted one at the earliest time that leaves balance and data alone. |
| `BlockLaws.UnpreparedCannotRun` | node/src/block/builder.rs:265-303 | A transaction is not prepared only when the account cannot be had or the executor breaks on it. |
| `ChainLaws.GasLeftTakesAll` | node/src/block/builder.rs:337-340 | Outside the sequential mode: a block that ends with its gas at or below the limit has run the whole queue and all new messages for its shard, queues exactly the new ones for others, and leaves no external message waiting; whatever waits that could have run, waits because gas has passed the limit. |
| `ChainLaws.OneMessageEach` | node/src/block/builder.rs:337-398 | In sequential mode a block takes up exactly one message if there is any, the oldest of the queue or else the first external one, whether or not that makes a transaction; everything new is queued. |
| `ChainLaws.RunOnTarget` | node/src/block/builder.rs:364-425 | Over any run every transaction is on the account to which its message is addressed. |
| `ChainLaws.RunsAtDestination` | node/src/block/builder.rs:362-425 | Over a run that delivers: a message of the first queue or created since has left the queue exactly when one transaction, and no other, has run it on its destination. |
| `Messages.ShardsPart` | node/src/block/builder.rs:411-421 | The shards of one width in a workchain part its addresses among them, each shard a range of accounts; an address of another workchain is in none. |
| `BlockShape.WorklistKeeps` | node/src/block/builder.rs:400-430 | The new-message phase keeps times, gas and value, and takes messages off in creation order with a cut that never reopens. |
| `BlockShape.ImportKeeps` | node/src/block/builder.rs:350-377 | The import runs a prefix of the sorted queue and keeps the invariants of a build. |
| `BlockShape.ExternalsKeep` | node/src/block/builder.rs:379-398 | The external phase keeps the invariants of a build; a failing external message does not stop it. |
| `BlockSpec.StepShrinks` | node/src/block/builder.rs:337-340 | Each step of the new-message phase lowers the pair of remaining gas and weighted pending messages, so the phase terminates. |
| `BlockSpec.WorklistStartsWithinLimit` | node/src/block/builder.rs:369-396 | A block that is not full when a phase begins is below its limits. |
| `BlockBuilders.BlockBuilder.WithParams` | node/src/block/builder.rs:116-153 | Number, first time and last time of a new block; the state it starts from. |
| `BlockBuilders.BlockBuilder.TryPrepareTransaction` | node/src/block/builder.rs:167-263 | The three external errors become an aborted transaction at max(account time, given time, message time + 1); other errors fail; gas is added for successes only. |
| `BlockBuilders.BlockBuilder.Execute` | node/src/block/builder.rs:265-335 | One transaction: lookup with fallback to the provider, update or removal of the account, end time, all lists; the attempt is counted even when it fails. |
| `BlockBuilders.BlockBuilder.AddRawTransaction` | node/src/block/builder.rs:449-505 | The transaction, its inbound message, its rewards and its new messages are appended. |
| `BlockBuilders.BlockBuilder.SortQueue` | node/src/block/builder.rs:356-363 | The import order holds every queued message once, oldest first, ties in any order. |
| `BlockBuilders.BlockBuilder.ImportInternals` | node/src/block/builder.rs:362-377 | The import loop equals the import of the specification. |
| `BlockBuilders.BlockBuilder.ImportExternals` | node/src/block/builder.rs:379-398 | The external loop equals the specification and takes only this workchain's messages. |
| `BlockBuilders.BlockBuilder.Drain` | node/src/block/builder.rs:402-429 | Draining one taken batch equals single steps of the worklist. |
| `BlockBuilders.BlockBuilder.RunNewMessages` | node/src/block/builder.rs:400-430 | The nested take and drain loops refine one first-in first-out worklist, and terminate; every transaction they add is on the account its message is addressed to. |
| `BlockBuilders.BlockBuilder.BuildBlock` | node/src/block/builder.rs:342-444 | A whole build equals the specification for some import order, follows the law of blocks, and leaves the queues of other workchains alone. |
| `Chains.BuiltBlock` | node/src/block/builder.rs:337-444 | A finished block has the closed form, all of it lies in its interval, account times increase, every transaction started within the limit, and in sequential mode there is at most one. |
| `Chains.RunTimes` | node/src/block/builder.rs:128-146 | Over any run, block intervals are disjoint and increasing and contain all their transactions and new messages, inbound messages are older than their transactions, and an account's transaction times increase while it stays. |
| `Trace.AddedAccountTimes` | node/src/block/builder.rs:295-328 | A transaction of an account in the dictionary is later than the account's previous one. |
| `Trace.AddedInInterval` | node/src/block/builder.rs:289-303 | A transaction and its messages lie in the interval of the block so far. |
| `Trace.AddedSourcesInOrder` | node/src/block/builder.rs:484-502 | Messages of one source are created in strictly increasing time, as long as no account leaves the dictionary between two transactions in which it sends messages. |
| `Chains.BlockGasBound` | node/src/block/builder.rs:337-340 | A block uses at most its limit plus one transaction's gas, and at most one transaction in sequential mode. |
| `Chains.EmptyBlockLosesNothing` | node/src/engine/shardchain.rs:90-104 | A block reported empty has the accounts and the queue of the input, and that happens exactly when nothing waited. |
| `ChainValues.BlockConservesValueIff` | node/src/block/builder.rs:529-539 | Without an external account provider, balance, value and fees held in the queue, fees collected and rewards after a block never exceed balance, value and fees held before it, and they are equal if and only if no message that carries value is doubled among those left over and none with a fee among those run. |
| `ChainValues.RunConservesValueIff` | node/src/block/builder.rs:529-539 | Over any run without an external account provider no value is created, whatever the accounts do, and value is conserved if and only if no block doubles a message that counts. |
| `ValueFlow.AddedValue` | node/src/block/builder.rs:316-328 | One transaction keeps the balance of value. |
| `InMessagesQueues.RefinesIndependentQueues` | node/src/engine/messages.rs:43-69 | Over every history the shared deque is one queue per workchain: what a workchain has received plus what waits for it is what was accepted for it, in arrival order; capacity is never exceeded. |
| `InMessagesQueues.InMessagesQueue.Queue` | node/src/engine/messages.rs:43-58 | A stopped or full queue rejects and changes nothing; otherwise the message is last. The method is a step of the queue's machine. |
| `InMessagesQueues.InMessagesQueue.Dequeue` | node/src/engine/messages.rs:61-69 | The oldest message of the workchain is removed, other queues keep theirs; none means none waits. The method is a step of the queue's machine. |
| `InMessagesQueues.WithoutFirstActsOnOneQueue` | node/src/engine/messages.rs:61-69 | Removing the first match takes the head of one queue and no other. |
| `EngineTheorems.RunKeepsConsistent` | node/src/engine/engine.rs:137-166 | After any run of passes, failed ones included, mode and delta changes: numbers are consecutive, the register shows the newest workchain block, exactly the masterchain blocks from its own number on register a workchain block, and a clear flag means the newest masterchain block lists exactly the register. Every masterchain block is a key block with the configuration and shows, field by field, the workchain block that has the listed number: its times, its root hash and its file hash. |
| `EngineTheorems.FlagIsExact` | node/src/engine/masterchain.rs:88-128 | The flag is set exactly when the newest masterchain block is out of date. |
| `EngineTheorems.GoodPassMatches` | node/src/engine/engine.rs:137-161 | After a pass that ends well the newest masterchain block lists the workchain alone, and shows its newest block field by field: number, times, root hash, file hash, marks and shard; each workchain block is first registered by the masterchain block whose number it was put with. |
| `EngineTheorems.PassKeeps` | node/src/engine/engine.rs:137-161 | Every prefix of a pass keeps the invariant, whatever the outcomes of the builds. |
| `EngineRounds.RoundHasForm` | node/src/engine/engine.rs:137-161 | A round in closed form: workchain blocks as long as there is something to do, and a masterchain block exactly when there was one, or something is left to register, or it has something to do; the pass ends with the first round that makes no block. |
| `EngineRounds.AbortsIff` | node/src/engine/engine.rs:137-161 | A pass is aborted by the first build that fails and by nothing else, and keeps what it has applied before. |
| `EngineRounds.SystemTimes` | node/src/engine/engine.rs:137-161 | In system mode every block of a pass carries the last reading of the system clock before it, made at the start of the pass or after a workchain block, shifted by the delta; while the clock does not go back, the times of each chain are in order, from the first reading to the last. |
| `EngineTheorems.FreshIsConsistent` | node/src/engine/engine.rs:43-79 | A new engine satisfies the invariant. |
| `EngineTimes.PassTimes` | node/src/engine/engine.rs:137-166 | In sequential mode a pass gives its workchain blocks consecutive times, each masterchain block the time after the workchain block it newly lists, and the next pass continues at one more than the newest block. |
| `EngineTimes.MasterStepTimes` | node/src/engine/engine.rs:152-159 | A masterchain block takes the current time, which is not read again after it. |
| `EngineClock.FirstTimeIff` | node/src/engine/time.rs:42-66 | However a pass ended and in whatever mode: the first time of the next sequential pass is at or after that of the newest block if and only if the delta has not dropped by more than one since. |
| `EngineClock.ResetGoesBackIff` | node/src/engine/time.rs:47-50 | Resetting the delta makes the time go back if and only if the delta was 2 or more. |
| `EngineClock.PassMarks` | node/src/engine/engine.rs:137-166 | At every point of a pass the last time of the clock is that of the newest block without the delta. |
| `BlockTimes.BlockTime.SetLast` | node/src/engine/time.rs:64-66 | The last time without the delta, at least 0. |
| `BlockTimes.BlockTime.IncreaseDelta` | node/src/engine/time.rs:42-45 | Increasing the delta by d shifts the next time by exactly d, in both modes. |
| `Shardchains.Shardchain.BuildBlock` | node/src/engine/shardchain.rs:62-79 | A build over the last state is a build of the chain's specification. |
| `Shardchains.Shardchain.GenerateBlock` | node/src/engine/shardchain.rs:84-105 | One step of the chain: an error or an empty block changes nothing, any other block is applied under the given masterchain number. |
| `Shardchains.Shardchain.NextSeqNo` | node/src/engine/shardchain.rs:54-56 | The number after that of the last block. |
| `Masterchains.Masterchain.RegisterNewShardBlock` | node/src/engine/masterchain.rs:56-88 | The shard's entry shows the block field by field and the flag is set; no other entry changes. |
| `Masterchains.Masterchain.ListShards` | node/src/engine/masterchain.rs:110-116 | The listing has, for exactly the workchains of the register, the entry of one of their shards, whatever the order of the walk. |
| `EngineSpec.ListsAll` | node/src/engine/masterchain.rs:110-116 | With one shard for a workchain the listing has that shard's entry. |
| `Masterchains.Masterchain.GenerateBlock` | node/src/engine/masterchain.rs:93-130 | No block exactly when it would be empty and nothing has changed; otherwise a key block with the configuration and the listing is applied and the flag cleared. |
| `Engines.TonNodeEngine.ExecuteQueuedMessages` | node/src/engine/engine.rs:137-161 | One pass is a run of the machine, and the two chains make runs of their own; when it ends well both out-queues are empty and no inbound message waits for either chain. |
| `Engines.TonNodeEngine.WorkTurn` | node/src/engine/engine.rs:143-151 | One turn of the inner loop is one step of the machine and of the workchain. |
| `Engines.TonNodeEngine.MasterTurn` | node/src/engine/engine.rs:152-159 | The masterchain's turn is one step of the machine and of the masterchain. |
| `Engines.TonNodeEngine.ProcessMessage` | node/src/engine/engine.rs:94-103 | A full queue changes nothing; a pass that ends well leaves the newest workchain block listed and nothing waiting for either chain; times follow in both chains, no value is created without outside accounts, and in sequential mode both chains go on delivering and conserve value. |
| `Engines.TonNodeEngine.WithParams` | node/src/engine/engine.rs:43-79 | A new engine: both chains at their first states, an empty queue of capacity 10000. |
| `Engines.PassIsSafe` | node/src/engine/engine.rs:137-161 | A pass keeps register and masterchain in agreement and times in both chains, and creates no value without outside accounts; in sequential mode, with nothing to do, or when senders stay, both chains go on delivering. |
| `EngineRuns.TravelIsSafe` | node/src/engine/engine.rs:137-161 | The same of the run of one chain in a pass. |
| `Engines.StartNode` | node/src/engine/engine.rs:43-79 | A new engine and its first pass: register and masterchain agree however the pass ends, and match when it ends well; the masterchain, and a workchain with an empty first queue, have delivered. |
| `FinalityTheorems.CrashConsistency` | node/src/block/finality.rs:109-187 | Stopping a put after any prefix of its writes and loading again gives the old layer, or, after the last write, the new one. |
| `FinalityTheorems.RestartTransparency` | node/src/block/finality.rs:192-210 | Restarts, and crashes in the middle of a put, anywhere in a run of puts are invisible: the layer is, up to traces, that of the completed puts alone, with the same state, previous block and next number, and both maps are empty after each step. Root hashes identify shard blocks among the inputs. |
| `FinalityTheorems.StorableInRun` | node/src/data/shard_storage.rs:87-93 | At every point of a run what is stored under the hash of a put, if anything, is that shard block. |
| `FinalityTheorems.RestartsLeaveStore` | node/src/block/finality.rs:192-210 | Without crashes the store is the same too. |
| `FinalityTheorems.BlockStaysStored` | node/src/data/shard_storage.rs:126-139 | The block of a put stays readable under its numbers until a later put has the same ones. |
| `ChainStorages.ReloadsAreInvisible` | node/src/engine/shardchain.rs:62-135 | A chain that lives in the layer, reloaded between blocks and after puts that were cut short, makes the run of the attempts whose puts were completed. |
| `ChainStorages.RunsFromZerostate` | node/src/engine/shardchain.rs:32-79 | A chain that comes up over a zerostate makes the run of its completed attempts from the accounts and the queue of the zerostate. |
| `ChainPackings.RowOfNumbersIsLawful` | node/src/engine/shardchain.rs:62-135 | There is a way to hold any chain's accounts, queue and end time in a shard state and a block. |
| `FinalityCodecs.LongBlockIsLost` | node/src/block/finality_block.rs:110-118 | There is a lawful codec with a shard block of 2^32 bytes or more that its encoding loses. |
| `FinalityTheorems.FreshLayerPersists` | node/src/block/finality.rs:192-223 | A layer over a store without an index, with a zerostate or without, can be loaded again unchanged. |
| `FinalityStarts.FirstLoad` | node/src/block/finality.rs:192-223 | The first load takes the state of the zerostate under the global id of the layer, in both blocks, and otherwise an empty state; it fails exactly when there is a zerostate that cannot be read. |
| `FinalityStarts.ZerostateIsTheStart` | node/src/block/finality.rs:192-223 | A node with a zerostate builds on its state and on the number after its own, and no restart and no put that was cut short changes that before a put is completed. |
| `FinalityStarts.NextBlockIsBuiltOnLastPut` | node/src/block/finality.rs:335-352 | After any run the next block is built on the last completed put: its state, and its block as the previous one with its end time, number, root hash and file hash. |
| `FinalityStarts.SavedStateIsNewest` | node/src/block/finality.rs:109-140 | The saved state is that of the newest put that has made its first write, and the shard info that of the newest one that has made its second. |
| `FinalityStarts.FinalizedOnce` | node/src/block/finality.rs:109-155 | Finalizing a hash again succeeds and changes nothing; an unknown hash is an error and changes nothing unless it is zero or the last one; a hash that could not be read back is forgotten. |
| `FinalitySaves.SavedLayerLoads` | node/src/block/finality.rs:169-305 | A layer with any maps that is saved and loaded comes back: both blocks up to traces, the map by hash as references to what is stored, and the map by number with one of those that have each number. |
| `FinalitySaves.ShardBlockLayout` | node/src/block/finality_block.rs:110-123 | Where each part of a stored shard block lies. |
| `FinalitySaves.IndexLayout` | node/src/block/finality.rs:225-241 | The index begins with hash and number of the current block, and then of the last one. |
| `FinalitySaves.ShardInfoLayout` | node/src/data/shard_storage.rs:59-65 | The shard info: number with the vertical number above it, end time, root hash. |
| `FinalitySaves.LittleEndianByte` | node/src/block/finality_block.rs:110-114 | Byte i has weight 256^i. |
| `FinalitySaves.BigEndianByte` | node/src/data/shard_storage.rs:59-65 | Byte i of width w has weight 256^(w-1-i). |
| `FinalitySaves.HexDigit` | node/src/data/shard_storage.rs:157-159 | Each byte of a hash is two digits of its name, the high one first. |
| `FinalitySaves.UpperHexDigit` | node/src/data/shard_storage.rs:152-154 | Digit i of n digits has weight 16^(n-1-i). |
| `FinalityTheorems.PrefixExtends` | node/src/data/shard_storage.rs:87-139 | No write of a put but the last touches the index, the zerostate or a shard block already stored. |
| `FinalityTheorems.LoadIsMonotone` | node/src/block/finality.rs:253-304 | Loading depends only on the index, the zerostate and the shard blocks. |
| `FinalitySpec.RoundTripIff` | node/src/block/finality_block.rs:110-154 | A shard block comes back from its encoding, without traces, exactly when its serialized block is shorter than 2^32 bytes. |
| `FinalitySpec.EntriesRoundTrip` | node/src/block/finality.rs:225-251 | The list of block names in the index comes back from its encoding. |
| `ShardStorages.FamiliesAreDisjoint` | node/src/data/shard_storage.rs:142-159 | Block keys, finality keys and the four fixed keys never coincide. |
| `ShardStorages.FinalityKeyIsInjective` | node/src/data/shard_storage.rs:157-159 | Different hashes have different keys. |
| `ShardStorages.BlockKeyIsInjective` | node/src/data/shard_storage.rs:152-154 | Different pairs of 32-bit numbers have different keys. |
| `ShardStorages.ShardStorage.Set` | node/src/data/mem_storage.rs:41-50 | Without overwriting, an existing entry stays; the write is atomic. |
| `BlockFinalities.BlockFinality.PutBlockWithInfo` | node/src/block/finality.rs:308-332 | A put makes the block current and finalized, empties it out of both maps, and makes exactly six writes, the index last, with no entries when the maps were empty; it panics exactly when the block has no state hash, and has then written nothing. |
| `BlockFinalities.PutIsAStep` | node/src/block/finality.rs:308-332 | A put on empty maps is a step of the machine whose runs are proved safe. |
| `BlockFinalities.BlockFinality.FinalityBlocks` | node/src/block/finality.rs:109-155 | A known hash is read back if needed, stored and removed from the maps, with a panic before any write when it has no state hash, and after the writes when the map by number lacks it; an unknown one is an error unless it is zero or the last finalized one. |
| `BlockFinalities.BlockFinality.SerializeIndex` | node/src/block/finality.rs:225-241 | The index holds the current block, the last one and every entry of the hash map once, in any order. |
| `BlockFinalities.BlockFinality.SaveFinality` | node/src/block/finality.rs:169-187 | Both blocks are saved without overwriting, then the index with overwriting. |
| `BlockFinalities.BlockFinality.DeserializeIndex` | node/src/block/finality.rs:280-305 | Reading an index gives what the specification reads; a torn last entry ends the list. |
| `BlockFinalities.BlockFinality.Load` | node/src/block/finality.rs:192-223 | A new layer takes the index if there is one, else the zerostate, which both blocks then have as their state under the global id of the layer, else stays as it is. |
| `WalletRuns.RunKeeps` | contracts/safe_multisig/SafeMultisigWallet.sol:107-319 | After any calls to a constructed wallet: counters, masks, store and log agree, also after calls that commit a cleanup and then throw. |
| `WalletRuns.FiresExactlyAtQuorum` | contracts/safe_multisig/SafeMultisigWallet.sol:287-297 | A queued transfer has fired if and only if its distinct confirmers number max(1, signsRequired), which they never exceed; it fires at most once, as submitted; while stored, its count is that of its mask and below the required number. |
| `WalletRuns.IdsAreDistinct` | contracts/safe_multisig/SafeMultisigWallet.sol:175-177 | Generated ids are fresh when logical times differ within a second. |
| `WalletAnswers.EveryPaymentWasAskedFor` | contracts/safe_multisig/SafeMultisigWallet.sol:185-193 | Whatever the wallet pays at any point of a run was asked for by a call: a submission pays what it asked for itself, a confirmation what an earlier submission with its id asked for, with the same destination, bounce flag and payload; its own value with flags 3, or, when it asked for all, the balance at that call with flags 130. A direct send pays what it was given. |
| `WalletAnswers.NoCallPaysTwice` | contracts/safe_multisig/SafeMultisigWallet.sol:287-297 | Two completed transfers are never for one submission. |
| `WalletAnswers.SubmitAnswers` | contracts/safe_multisig/SafeMultisigWallet.sol:232-264 | Each answer to a submission and exactly when it is given; 113 when five transfers of the custodian are left after the cleanup. |
| `WalletAnswers.ConfirmAnswers` | contracts/safe_multisig/SafeMultisigWallet.sol:268-297 | Each answer to a confirmation and exactly when it is given, by the distinct custodians who have confirmed. |
| `WalletAnswers.SubmitLeaves` | contracts/safe_multisig/SafeMultisigWallet.sol:232-264 | What is stored after each answer to a submission: a call turned away before the cleanup changes nothing, one turned away after it leaves the cleanup done, an accepted one touches its own transfer only. |
| `WalletAnswers.ConfirmLeaves` | contracts/safe_multisig/SafeMultisigWallet.sol:268-297 | The same for a confirmation. |
| `WalletAnswers.SendAnswers` | contracts/safe_multisig/SafeMultisigWallet.sol:212-223 | In any state of a run: 108 when the owners are not all one key, 100 when they are and the key is another one. |
| `WalletAnswers.ExpiresAfterAnHour` | contracts/safe_multisig/SafeMultisigWallet.sol:175-182 | A transfer expires more than 3600 seconds after its submission, or in that very second when the low half of its logical time is 0. |
| `WalletInvariant.SubmitKeeps` | contracts/safe_multisig/SafeMultisigWallet.sol:232-264 | Submitting keeps the invariant: byte i counts the stored transfers of custodian i and is at most 5. |
| `WalletInvariant.ConfirmKeeps` | contracts/safe_multisig/SafeMultisigWallet.sol:268-297 | Confirming keeps the invariant, thrown calls included. |
| `WalletInvariant.CleanKeeps` | contracts/safe_multisig/SafeMultisigWallet.sol:300-319 | Each deletion of a cleanup keeps the invariant. |
| `WalletInvariant.InitializedOk` | contracts/safe_multisig/SafeMultisigWallet.sol:107-120 | The constructor establishes the invariant, with exactly the distinct owners as custodians. |
| `WalletSpec.EnrollIndexes` | contracts/safe_multisig/SafeMultisigWallet.sol:107-120 | Distinct keys are in bijection with the indices below their number. |
| `Masks.MaskByte` | contracts/safe_multisig/SafeMultisigWallet.sol:137-139 | The counter of a custodian is the byte of her index, lowest first. |
| `Masks.IncActsOnOneByte` | contracts/safe_multisig/SafeMultisigWallet.sol:137-144 | Counting up a byte below 255 changes that byte only and stays in the word. |
| `Masks.DecActsOnOneByte` | contracts/safe_multisig/SafeMultisigWallet.sol:137-149 | Counting down a byte above 0 changes that byte only and does not underflow. |
| `Masks.SetOneFlag` | contracts/safe_multisig/SafeMultisigWallet.sol:152-165 | Setting a flag adds exactly that custodian. |
| `WalletSpec.CleanupDeletesOldest` | contracts/safe_multisig/SafeMultisigWallet.sol:300-319 | A cleanup deletes exactly the min(40, k) smallest of the k expired ids and nothing else. |
| `WalletInvariant.AcceptedIff` | contracts/safe_multisig/SafeMultisigWallet.sol:268-277 | When exactly a confirmation is accepted: a custodian, a stored transfer, not yet confirmed by her, and not expired or with at least 40 older ones stored. |
| `WalletInvariant.FewCustodiansNeverFireExpired` | contracts/safe_multisig/SafeMultisigWallet.sol:48-52 | With at most 8 custodians nothing older than 3600 seconds is confirmed or fired. |
| `WalletExpiry.CanFireExpiredIff` | contracts/safe_multisig/SafeMultisigWallet.sol:300-319 | Some run fires an expired transfer if and only if there are at least nine custodians and two required confirmations. |
| `Wallets.MultisigWallet.Construct` | contracts/safe_multisig/SafeMultisigWallet.sol:107-130 | The constructor, with the codes 100 and 117; otherwise the loop over the owners builds the initial state of the specification. |
| `Wallets.MultisigWallet.RemoveExpiredTransactions` | contracts/safe_multisig/SafeMultisigWallet.sol:300-319 | The loop over a dictionary it deletes from equals the cleanup of the specification. |
| `Wallets.MultisigWallet.SubmitTransaction` | contracts/safe_multisig/SafeMultisigWallet.sol:232-264 | State and outcome, with the codes 100, 107, 121 and 113; what is paid or stored is what the request asks for. |
| `Wallets.MultisigWallet.ConfirmTransaction` | contracts/safe_multisig/SafeMultisigWallet.sol:268-277 | State and outcome, with the codes 100, 102 and 103. |
| `WalletRuns.OnlySoleOwnerSends` | contracts/safe_multisig/SafeMultisigWallet.sol:212-223 | After any calls a key may send directly if and only if it is the only owner, and sending changes nothing. |
| `Wallets.MultisigWallet.GetTransactions` | contracts/safe_multisig/SafeMultisigWallet.sol:364-374 | Exactly the unexpired transfers, in the order of ids. |
| `GiverSpec.PruningIsInvisible` | contracts/giver_v3/GiverV3.sol:52-81 | Over any run with non-decreasing time each call is answered, with the same code, as by a giver that never forgets. |
| `GiverSpec.AcceptedAtMostOnce` | contracts/giver_v2/GiverV2.sol:51-77 | No hash is accepted twice. |
| `GiverSpec.AcceptedIsKeptOrExpired` | contracts/giver_v3/GiverV3.sol:52-81 | Every accepted hash is still in the map, or its expiry time has come. |
| `GiverSpec.AcceptedAgainIff` | contracts/giver_v2/GiverV2.sol:51-77 | Without any assumption on time: an accepted hash is accepted again if and only if some call accepted since then had reached its expiry time (and, in V3, it was among the 30 entries visited) and the new call is the owner's and has not expired. |
| `GiverSpec.RememberedUntilForgotten` | contracts/giver_v3/GiverV3.sol:52-81 | A hash is in the map, with its expiry time, exactly until such a call. |
| `GiverSpec.AnswersIff` | contracts/giver_v3/GiverV3.sol:52-67 | Every answer in terms of the calls so far: 101 to anybody but the owner, 57 when the message has expired, 102 exactly when a call with this hash was accepted and has not been forgotten since. |
| `GiverSpec.RefusedIffAccepted` | contracts/giver_v2/GiverV2.sol:51-66 | While time does not go back, the owner's unexpired message is refused exactly when it was accepted before. |
| `GiverSpec.ClockGoingBackReplays` | contracts/giver_v2/GiverV2.sol:51-77 | So with a clock that goes back either giver accepts one message twice. |
| `Givers.GiverV3.CollectGarbage` | contracts/giver_v3/GiverV3.sol:70-81 | Of the first 30 entries exactly the expired ones go; the walk is over the map as it was. |
| `Givers.GiverV2.CollectGarbage` | contracts/giver_v2/GiverV2.sol:69-77 | Exactly the expired entries go, although the loop deletes from the map it walks. |
| `Givers.GiverV3.SendTransaction` | contracts/giver_v3/GiverV3.sol:41-67 | Answer and new map of a call; codes 101, 57 and 102. |
| `Givers.GiverV2.SendTransaction` | contracts/giver_v2/GiverV2.sol:40-67 | Answer and new map of a call; codes 101, 57 and 102. |

## Left out

- Delivery.ForeignRunsOnlyByImport: a message for another shard counts as delivered when an import runs it on the local account of the same id, as the node does.
- BlockBuilders.BlockBuilder.AddRawTransaction: always succeeds; the node only logs its failure. The outbound message descriptions, the transaction traces and external outbound messages are not kept, and every message has a destination account.
- BlockSpec.StepShrinks: rests on the executor's gas contract given above.
- Engines.TonNodeEngine.ExecuteQueuedMessages: bounds the number of turns of a pass by a fuel, because messages may go on for ever across blocks; nothing is said about a pass that runs out of it beyond what every prefix of a pass keeps.
- Engines.TonNodeEngine.WithParams: starts from chains without saved blocks; restoring the register after a restart, and recovery across the two chains, are not modelled. The first pass is run by StartNode.
- Engines.TonNodeEngine.ProcessMessage: is bounded by the fuel of its pass.
- Shardchains.Shardchain.GenerateBlock: has no error of the finality layer, as a put of a block with a state hash always succeeds; the object keeps the last state and the applied blocks itself; that a chain in the finality layer makes the same run is proved by ChainStorages.ReloadsAreInvisible, over any lawful way to hold its state in blocks and shard states.
- Masterchains.Masterchain.GenerateBlock: has no error of the finality layer either.
- Masterchains.Masterchain.RegisterNewShardBlock: the fields of a description that the node leaves at their defaults are not kept.
- EngineClock.FirstTimeIff: times do not overflow 32 bits. Logical times, gas, values and numbers are unbounded too, where the node uses 64, 128 and 32 bits.
- FinalitySpec.RoundTripIff: the cell encoding of blocks and states is any self-delimiting code, and hashes are any functions; reading a shard block into a buffer that is too short leaves zeros, as in the node.
- FinalityTheorems.CrashConsistency: one write of the store is atomic, and a root hash identifies its shard block; writing files, which may be torn, is left out.
- BlockFinalities.BlockFinality.PutBlockWithInfo: the reflection of blocks into a database is left out.
- WalletRuns.RunKeeps: assumes that the low half of the logical time does not repeat within a second. Below 3600 the expiry bound is negative here, where the contract would underflow.
- GiverSpec.PruningIsInvisible: assumes non-decreasing time, and that a hash determines its expiry time, which is part of what is hashed.
- The queue key of a message is the message itself: hashes do not collide.
- The transaction executor, the virtual machine, cells, Merkle updates and dictionary internals are library code and enter as functions with contracts.
- Threads and the wait for new messages: one worker is modelled, and nobody queues messages while it builds.
- Contract code upgrades, signatures, gas inside contracts, and failures of the action phase.
- REST interfaces, the document database, JSON reflection, configuration, logging.
