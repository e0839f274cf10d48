/** A chain that lives in the finality layer: its state is read from the layer, and the layer may be reloaded between
    blocks, or after a put that was cut short. */
module ChainStorages {
  import opened Messages
  import opened BlockSpec
  import Chains
  import Bytes
  import ShardStorages
  import F = FinalitySpec
  import T = FinalityTheorems
  import FinalityStarts

  /** How the state of a chain, which is finite data, is held in a shard state and in a block. */
  datatype Packing = Packing(
    state: Chains.Chain -> F.ShardState, block: Chains.Chain -> F.Block,
    accounts: F.ShardState -> Accounts, queue: F.ShardState -> set<Message>)

  ghost predicate Unpacks(pk: Packing, c: Chains.Chain) {
    pk.accounts(pk.state(c)) == c.accounts && pk.queue(pk.state(c)) == c.queue && pk.block(c).endLt == c.endLt
  }

  ghost predicate LawfulPacking(pk: Packing) { forall c :: Unpacks(pk, c) }

  /** The layer with its store, and the blocks of the chain so far. */
  datatype Stored = Stored(node: T.Node, blocks: seq<Chains.BlockRecord>)

  /** The chain that is built on next: accounts and queue of the last state, end time of the last block. */
  function ViewOf(pk: Packing, s: Stored): Chains.Chain {
    var info := T.GetLastInfo(s.node.f);
    Chains.Chain(pk.accounts(info.state), pk.queue(info.state), info.endLt, s.blocks)
  }

  /** `Torn`: the process stops after `done` writes of the put, and starts again. */
  datatype Event = Attempt(inp: Chains.BlockInput) | Reload | Torn(inp: Chains.BlockInput, done: nat)

  /** An attempt that applies nothing puts nothing. */
  ghost predicate Applies(pk: Packing, s: Stored, e: Event) {
    !e.Reload? && Chains.Valid(ViewOf(pk, s), e.inp) && Chains.Step(ViewOf(pk, s), e.inp) != ViewOf(pk, s)
  }

  ghost function After(pk: Packing, s: Stored, e: Event): Chains.Chain
    requires Applies(pk, s, e)
  {
    Chains.Step(ViewOf(pk, s), e.inp)
  }

  ghost function OpsOf(pk: Packing, s: Stored, e: Event): seq<T.Op> {
    if Applies(pk, s, e) then
      var c := After(pk, s, e);
      if e.Attempt? then [T.Put(pk.block(c), pk.state(c), [])] else [T.Crash(pk.block(c), pk.state(c), [], e.done)]
    else if e.Attempt? then [] else [T.Restart]
  }

  /** Whether the block of the event is in the chain after it. */
  ghost predicate Keeps(pk: Packing, s: Stored, e: Event) { Applies(pk, s, e) && (e.Torn? ==> e.done >= 6) }

  ghost function StoredStep(pk: Packing, codec: F.Codec, s: Stored, e: Event): Stored {
    Stored(T.Run(codec, s.node, OpsOf(pk, s, e)), if Keeps(pk, s, e) then After(pk, s, e).blocks else s.blocks)
  }

  ghost function StoredRun(pk: Packing, codec: F.Codec, s: Stored, events: seq<Event>): Stored {
    if events == [] then s else
      StoredStep(pk, codec, StoredRun(pk, codec, s, events[..|events| - 1]), events[|events| - 1])
  }

  /** The puts, restarts and crashes of the layer in the run. */
  ghost function AllOps(pk: Packing, codec: F.Codec, s: Stored, events: seq<Event>): seq<T.Op> {
    if events == [] then [] else
      var front, last := events[..|events| - 1], events[|events| - 1];
      AllOps(pk, codec, s, front) + OpsOf(pk, StoredRun(pk, codec, s, front), last)
  }

  /** The inputs of the attempts whose outcome stayed. */
  ghost function Inputs(events: seq<Event>): seq<Chains.BlockInput> {
    if events == [] then [] else
      var last := events[|events| - 1];
      Inputs(events[..|events| - 1]) + if last.Attempt? || (last.Torn? && last.done >= 6) then [last.inp] else []
  }

  /** The inputs are those of a chain in the state it then has. */
  ghost predicate AllValid(pk: Packing, codec: F.Codec, s: Stored, events: seq<Event>) {
    events != [] ==>
      var front, last := events[..|events| - 1], events[|events| - 1];
      && AllValid(pk, codec, s, front)
      && (!last.Reload? ==> Chains.Valid(ViewOf(pk, StoredRun(pk, codec, s, front)), last.inp))
  }

  lemma {:induction false} RunConcat(c: F.Codec, n: T.Node, a: seq<T.Op>, b: seq<T.Op>)
    ensures T.Run(c, n, a + b) == T.Run(c, T.Run(c, n, a), b)
    decreases |b|
  {
    hide T.Step;
    if b == [] {
      assert a + b == a;
    } else {
      RunConcat(c, n, a, b[..|b| - 1]);
      assert (a + b)[..|a + b| - 1] == a + b[..|b| - 1];
    }
  }

  lemma {:induction false} NodeOfRun(pk: Packing, codec: F.Codec, s: Stored, events: seq<Event>)
    ensures StoredRun(pk, codec, s, events).node == T.Run(codec, s.node, AllOps(pk, codec, s, events))
  {
    hide T.Run, OpsOf, Keeps, After;
    if events == [] {
      EmptyRun(codec, s.node);
    } else {
      var front, last := events[..|events| - 1], events[|events| - 1];
      NodeOfRun(pk, codec, s, front);
      RunConcat(codec, s.node, AllOps(pk, codec, s, front), OpsOf(pk, StoredRun(pk, codec, s, front), last));
    }
  }

  lemma EmptyRun(c: F.Codec, n: T.Node)
    ensures T.Run(c, n, []) == n
  {
  }

  lemma OneRun(c: F.Codec, n: T.Node, op: T.Op)
    ensures T.Run(c, n, [op]) == T.Step(c, n, op)
  {
    hide T.Step;
    assert [op][..0] == [];
  }

  /** What the chain reads from a layer that has just taken a put. */
  lemma PackedPut(pk: Packing, codec: F.Codec, f: F.Finality, c: Chains.Chain, op: T.Op)
    requires LawfulPacking(pk) && !op.Restart? && op.block == pk.block(c) && op.state == pk.state(c)
    ensures var info := T.GetLastInfo(F.AfterPut(f, T.MadeBy(codec, op)));
      pk.accounts(info.state) == c.accounts && pk.queue(info.state) == c.queue && info.endLt == c.endLt
  {
    assert Unpacks(pk, c);
  }

  lemma ClearedView(pk: Packing, f: F.Finality)
    ensures T.GetLastInfo(T.Cleared(f)) == T.GetLastInfo(f)
  {
  }

  /** One event: a reload changes nothing, and a put that is complete makes the chain's step. */
  lemma EventSteps(pk: Packing, codec: F.Codec, s: Stored, e: Event)
    requires F.Lawful(codec) && LawfulPacking(pk) && T.Persisted(codec, s.node.f, s.node.store)
    requires !e.Reload? ==> Chains.Valid(ViewOf(pk, s), e.inp)
    requires Applies(pk, s, e) ==> T.Storable(codec, T.MadeBy(codec, OpsOf(pk, s, e)[0]), s.node.store)
    ensures ViewOf(pk, StoredStep(pk, codec, s, e)) == if Keeps(pk, s, e) then After(pk, s, e) else ViewOf(pk, s)
  {
    var ops := OpsOf(pk, s, e);
    hide F.Lawful, LawfulPacking, T.Persisted, T.Storable, T.Run, T.GetLastInfo, Chains.Step, Chains.Valid, T.MadeBy;
    if ops == [] {
      EmptyRun(codec, s.node);
    } else {
      var op := ops[0];
      assert ops == [op];
      OneRun(codec, s.node, op);
      if Applies(pk, s, e) {
        var c := After(pk, s, e);
        PackedPut(pk, codec, s.node.f, c, op);
        hide F.AfterPut;
        if op.Crash? {
          T.CrashClears(codec, s.node, op);
          ClearedView(pk, if op.done < 6 then s.node.f else F.AfterPut(s.node.f, T.MadeBy(codec, op)));
        }
        EndsAsStep(pk, s, e, c);
      } else {
        T.RestartClears(codec, s.node);
        ClearedView(pk, s.node.f);
      }
    }
  }

  lemma EndsAsStep(pk: Packing, s: Stored, e: Event, c: Chains.Chain)
    requires Applies(pk, s, e) && c == After(pk, s, e)
    ensures c == Chains.Chain(c.accounts, c.queue, c.endLt, c.blocks)
  {
  }

  ghost predicate Good(pk: Packing, codec: F.Codec, s: Stored, events: seq<Event>) {
    && F.Lawful(codec) && LawfulPacking(pk) && T.Persisted(codec, s.node.f, s.node.store)
    && AllValid(pk, codec, s, events) && T.Identified(codec, s.node.store, AllOps(pk, codec, s, events))
  }

  /** In the state before the last event the layer persists, and what the event puts can be stored. */
  lemma BeforeLast(pk: Packing, codec: F.Codec, s: Stored, events: seq<Event>)
    requires events != [] && Good(pk, codec, s, events)
    ensures Good(pk, codec, s, events[..|events| - 1])
    ensures var before, last := StoredRun(pk, codec, s, events[..|events| - 1]), events[|events| - 1];
      && T.Persisted(codec, before.node.f, before.node.store)
      && (Applies(pk, before, last) ==>
            T.Storable(codec, T.MadeBy(codec, OpsOf(pk, before, last)[0]), before.node.store))
  {
    hide F.Lawful, LawfulPacking, T.Persisted, T.Storable, T.Identified, T.MadeBy, Chains.Step, Chains.Valid;
    var front, last := events[..|events| - 1], events[|events| - 1];
    var before, ops := StoredRun(pk, codec, s, front), AllOps(pk, codec, s, front);
    var more := OpsOf(pk, before, last);
    assert AllOps(pk, codec, s, events) == ops + more;
    IdentifiedPart(codec, s.node.store, ops, more);
    NodeOfRun(pk, codec, s, front);
    T.RestartTransparency(codec, s.node, ops);
    if Applies(pk, before, last) {
      assert (ops + more)[..|ops|] == ops && (ops + more)[|ops|] == more[0] && |ops + more| == |ops| + 1;
      T.StorableInRun(codec, s.node, ops + more);
    }
  }

  lemma IdentifiedPart(codec: F.Codec, store: ShardStorages.Store, ops: seq<T.Op>, more: seq<T.Op>)
    requires T.Identified(codec, store, ops + more)
    ensures T.Identified(codec, store, ops)
  {
    hide T.AgreesWith, T.SameRoot, T.Fits;
    assert forall op | op in ops :: op in ops + more;
  }

  lemma AttemptsOne(pk: Packing, codec: F.Codec, s: Stored, events: seq<Event>, before: Stored)
    requires events != [] && before == StoredRun(pk, codec, s, events[..|events| - 1])
    requires var last := events[|events| - 1];
      && (!last.Reload? ==> Chains.Valid(ViewOf(pk, before), last.inp))
      && ViewOf(pk, StoredRun(pk, codec, s, events))
           == if Keeps(pk, before, last) then After(pk, before, last) else ViewOf(pk, before)
    requires var inputs := Inputs(events[..|events| - 1]);
      Chains.ValidRun(ViewOf(pk, s), inputs) && Chains.Run(ViewOf(pk, s), inputs) == ViewOf(pk, before)
    ensures Chains.ValidRun(ViewOf(pk, s), Inputs(events))
    ensures Chains.Run(ViewOf(pk, s), Inputs(events)) == ViewOf(pk, StoredRun(pk, codec, s, events))
  {
    hide Chains.Run, Chains.ValidRun, Chains.Step, Chains.Valid, ViewOf, StoredRun;
    var last, inputs := events[|events| - 1], Inputs(events[..|events| - 1]);
    if last.Attempt? || (last.Torn? && last.done >= 6) {
      Chains.RunAppend(ViewOf(pk, s), inputs, last.inp);
    } else {
      assert inputs + [] == inputs;
    }
  }

  /** Main result: whatever reloads and torn puts lie between its blocks, a chain that lives in the layer makes the run
      of the attempts whose puts were completed. */
  lemma {:induction false} ReloadsAreInvisible(pk: Packing, codec: F.Codec, s: Stored, events: seq<Event>)
    requires Good(pk, codec, s, events)
    ensures Chains.ValidRun(ViewOf(pk, s), Inputs(events))
    ensures Chains.Run(ViewOf(pk, s), Inputs(events)) == ViewOf(pk, StoredRun(pk, codec, s, events))
  {
    if events == [] {
    } else {
      BeforeLast(pk, codec, s, events);
      ReloadsAreInvisible(pk, codec, s, events[..|events| - 1]);
      var before, last := StoredRun(pk, codec, s, events[..|events| - 1]), events[|events| - 1];
      hide F.Lawful, LawfulPacking, T.Persisted, T.Storable, T.Identified, ViewOf, Chains.Step, Chains.Valid, OpsOf,
        Chains.Run, Chains.ValidRun, Keeps, After, StoredStep, Inputs;
      EventSteps(pk, codec, before, last);
      AttemptsOne(pk, codec, s, events, before);
    }
  }

  // ---- from a zerostate ----

  /** The node as it comes up over a store: what it loads, and no blocks. */
  function Up(codec: F.Codec, globalId: int, store: ShardStorages.Store): Stored
    requires F.Load(codec, globalId, store).Some?
  {
    Stored(T.Node(F.Load(codec, globalId, store).value, store), [])
  }

  /** There is no index yet, and the zerostate packs the accounts and the queue under the layer's global id. */
  ghost predicate HasZerostate(
    pk: Packing, codec: F.Codec, globalId: int, store: ShardStorages.Store, z: F.ShardState, more: Bytes.Data,
    accounts: Accounts, queue: set<Message>)
  {
    && ShardStorages.BLOCKS_FINALITY_INFO_KEY !in store && ShardStorages.ZEROSTATE_KEY in store
    && store[ShardStorages.ZEROSTATE_KEY] == codec.encodeState(z) + more
    && F.ShardState(globalId, z.seqNo, z.body) == pk.state(Chains.Chain(accounts, queue, 0, []))
  }

  lemma FirstView(
    pk: Packing, codec: F.Codec, globalId: int, store: ShardStorages.Store, z: F.ShardState, more: Bytes.Data,
    accounts: Accounts, queue: set<Message>)
    requires F.Lawful(codec) && LawfulPacking(pk)
    requires HasZerostate(pk, codec, globalId, store, z, more, accounts, queue)
    ensures F.Load(codec, globalId, store).Some?
    ensures ViewOf(pk, Up(codec, globalId, store)) == Chains.Chain(accounts, queue, 0, [])
    ensures T.Persisted(codec, Up(codec, globalId, store).node.f, store)
  {
    hide F.Load, F.Lawful, T.Persisted;
    FinalityStarts.ZerostateIsTheStart(codec, globalId, store, z, more, []);
    T.FreshLayerPersists(codec, globalId, store);
    EmptyRun(codec, Up(codec, globalId, store).node);
    assert Unpacks(pk, Chains.Chain(accounts, queue, 0, []));
  }

  /** So a chain that comes up over a zerostate makes the run of its attempts from the accounts and the queue of the
      zerostate, whatever reloads and torn puts there are. */
  lemma RunsFromZerostate(
    pk: Packing, codec: F.Codec, globalId: int, store: ShardStorages.Store, z: F.ShardState, more: Bytes.Data,
    accounts: Accounts, queue: set<Message>, events: seq<Event>)
    requires F.Lawful(codec) && LawfulPacking(pk)
    requires HasZerostate(pk, codec, globalId, store, z, more, accounts, queue)
    ensures F.Load(codec, globalId, store).Some?
    ensures var s, start := Up(codec, globalId, store), Chains.Chain(accounts, queue, 0, []);
      AllValid(pk, codec, s, events) && T.Identified(codec, store, AllOps(pk, codec, s, events)) ==>
        && Chains.ValidRun(start, Inputs(events))
        && Chains.Run(start, Inputs(events)) == ViewOf(pk, StoredRun(pk, codec, s, events))
  {
    hide F.Load, F.Lawful, LawfulPacking, T.Persisted, T.Identified, ViewOf, AllValid, AllOps, StoredRun,
      Chains.ValidRun, Chains.Run, HasZerostate;
    FirstView(pk, codec, globalId, store, z, more, accounts, queue);
    var s := Up(codec, globalId, store);
    if AllValid(pk, codec, s, events) && T.Identified(codec, store, AllOps(pk, codec, s, events)) {
      ReloadsAreInvisible(pk, codec, s, events);
    }
  }
}
