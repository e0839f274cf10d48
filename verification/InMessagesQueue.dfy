/** The inbound queue: one bounded deque that serves several workchains. */
module InMessagesQueues {
  import opened Common
  import opened Messages

  /** The messages of one workchain, oldest first. */
  function For(wc: int, s: seq<ExtMessage>): (r: seq<ExtMessage>)
    ensures forall m | m in r :: m.workchain == Some(wc)
  {
    if s == [] then [] else (if s[0].workchain == Some(wc) then [s[0]] else []) + For(wc, s[1..])
  }

  /** The deque without the oldest message of the workchain. */
  function WithoutFirst(wc: int, s: seq<ExtMessage>): seq<ExtMessage> {
    if s == [] then [] else if s[0].workchain == Some(wc) then s[1..] else [s[0]] + WithoutFirst(wc, s[1..])
  }

  lemma {:induction false} ForAppend(wc: int, s: seq<ExtMessage>, m: ExtMessage)
    ensures For(wc, s + [m]) == For(wc, s) + if m.workchain == Some(wc) then [m] else []
  {
    if s == [] {
    } else {
      assert (s + [m])[1..] == s[1..] + [m];
      ForAppend(wc, s[1..], m);
    }
  }

  /** Removing the first match takes the head of that workchain's queue and leaves every other queue alone. */
  lemma {:induction false} WithoutFirstActsOnOneQueue(wc: int, other: int, s: seq<ExtMessage>)
    requires For(wc, s) != []
    ensures For(wc, WithoutFirst(wc, s)) == For(wc, s)[1..]
    ensures other != wc ==> For(other, WithoutFirst(wc, s)) == For(other, s)
    ensures |WithoutFirst(wc, s)| == |s| - 1
  {
    if s[0].workchain != Some(wc) {
      WithoutFirstActsOnOneQueue(wc, other, s[1..]);
      assert WithoutFirst(wc, s)[1..] == WithoutFirst(wc, s[1..]);
    }
  }

  lemma {:induction false} FirstMatch(wc: int, s: seq<ExtMessage>, i: nat)
    requires i < |s| && s[i].workchain == Some(wc)
    requires forall j | 0 <= j < i :: s[j].workchain != Some(wc)
    ensures For(wc, s) != [] && For(wc, s)[0] == s[i]
    ensures WithoutFirst(wc, s) == s[..i] + s[i + 1..]
  {
    if i == 0 {
    } else {
      FirstMatch(wc, s[1..], i - 1);
      assert s[..i] + s[i + 1..] == [s[0]] + (s[1..][..i - 1] + s[1..][i..]);
    }
  }

  lemma {:induction false} NoMatch(wc: int, s: seq<ExtMessage>)
    requires forall j | 0 <= j < |s| :: s[j].workchain != Some(wc)
    ensures For(wc, s) == []
  {
    if s == [] {
    } else {
      NoMatch(wc, s[1..]);
    }
  }

  /** Queue returns the message itself when the deque is full and nothing when the queue is stopped. */
  datatype QueueResult = Accepted | Full(msg: ExtMessage) | Stopped

  class InMessagesQueue {
    var storage: seq<ExtMessage>
    const capacity: nat
    var stopped: bool

    /** The queue as a state of the machine below, with what it has accepted and handed out. */
    ghost function With(accepted: seq<ExtMessage>, taken: seq<ExtMessage>): History
      reads this
    {
      History(storage, stopped, accepted, taken)
    }

    constructor (capacity: nat)
      ensures With([], []) == Run(capacity, [])
      ensures this.capacity == capacity && storage == [] && !stopped
    {
      this.capacity := capacity;
      storage := [];
      stopped := false;
    }

    method Queue(msg: ExtMessage) returns (r: QueueResult)
      modifies this`storage
      ensures r == if stopped then Stopped else if |old(storage)| >= capacity then Full(msg) else Accepted
      ensures storage == if r == Accepted then old(storage) + [msg] else old(storage)
      ensures forall a, t ::
        Step(capacity, old(With(a, t)), Put(msg)) == With(if r == Accepted then a + [msg] else a, t)
    {
      if stopped {
        return Stopped;
      }
      if |storage| >= capacity {
        return Full(msg);
      }
      storage := storage + [msg];
      return Accepted;
    }

    method Dequeue(wc: int) returns (r: Option<ExtMessage>)
      modifies this`storage
      ensures r.None? <==> For(wc, old(storage)) == []
      ensures r.None? ==> storage == old(storage)
      ensures r.Some? ==> r.value == For(wc, old(storage))[0] && storage == WithoutFirst(wc, old(storage))
      ensures r.Some? ==> For(wc, storage) == For(wc, old(storage))[1..]
      ensures forall other | other != wc :: For(other, storage) == For(other, old(storage))
      ensures |storage| <= |old(storage)|
      ensures forall a, t ::
        Step(capacity, old(With(a, t)), Take(wc)) == With(a, if r.Some? then t + [r.value] else t)
    {
      for i := 0 to |storage|
        invariant storage == old(storage)
        invariant forall j | 0 <= j < i :: storage[j].workchain != Some(wc)
      {
        if storage[i].workchain == Some(wc) {
          FirstMatch(wc, storage, i);
          r := Some(storage[i]);
          storage := storage[..i] + storage[i + 1..];
          forall other
            ensures For(wc, storage) == For(wc, old(storage))[1..]
            ensures other != wc ==> For(other, storage) == For(other, old(storage))
          {
            WithoutFirstActsOnOneQueue(wc, other, old(storage));
          }
          return;
        }
      }
      NoMatch(wc, storage);
      return None;
    }

    method Stop()
      modifies this`stopped
      ensures stopped
      ensures forall a, t :: Step(capacity, old(With(a, t)), SetStopped(true)) == With(a, t)
    {
      stopped := true;
    }

    method Start()
      modifies this`stopped
      ensures !stopped
      ensures forall a, t :: Step(capacity, old(With(a, t)), SetStopped(false)) == With(a, t)
    {
      stopped := false;
    }
  }

  // ---- histories ----

  datatype Op = Put(msg: ExtMessage) | Take(wc: int) | SetStopped(on: bool)

  /** The queue with what it has accepted and handed out so far. */
  datatype History = History(
    storage: seq<ExtMessage>, stopped: bool, accepted: seq<ExtMessage>, taken: seq<ExtMessage>)

  function Step(capacity: nat, h: History, op: Op): History {
    match op
    case Put(m) =>
      if h.stopped || |h.storage| >= capacity then h
      else h.(storage := h.storage + [m], accepted := h.accepted + [m])
    case Take(wc) =>
      if For(wc, h.storage) == [] then h
      else h.(storage := WithoutFirst(wc, h.storage), taken := h.taken + [For(wc, h.storage)[0]])
    case SetStopped(on) => h.(stopped := on)
  }

  function Run(capacity: nat, ops: seq<Op>): History {
    if ops == [] then History([], false, [], [])
    else Step(capacity, Run(capacity, ops[..|ops| - 1]), ops[|ops| - 1])
  }

  ghost predicate Refines(wc: int, h: History) {
    For(wc, h.accepted) == For(wc, h.taken) + For(wc, h.storage)
  }

  lemma PutRefines(capacity: nat, h: History, m: ExtMessage, wc: int)
    requires Refines(wc, h)
    ensures Refines(wc, Step(capacity, h, Put(m)))
  {
    ForAppend(wc, h.storage, m);
    ForAppend(wc, h.accepted, m);
    hide For;
    ConcatAssociates(For(wc, h.taken), For(wc, h.storage), if m.workchain == Some(wc) then [m] else []);
  }

  lemma TakeRefines(capacity: nat, h: History, from: int, wc: int)
    requires Refines(wc, h) && For(from, h.storage) != []
    ensures Refines(wc, Step(capacity, h, Take(from)))
    ensures |Step(capacity, h, Take(from)).storage| == |h.storage| - 1
  {
    var first, rest := For(from, h.storage)[0], WithoutFirst(from, h.storage);
    var given := if from == wc then [first] else [];
    WithoutFirstActsOnOneQueue(from, wc, h.storage);
    ForAppend(wc, h.taken, first);
    hide For, WithoutFirst;
    assert For(wc, h.storage) == given + For(wc, rest);
    ConcatAssociates(For(wc, h.taken), given, For(wc, rest));
  }

  /** Every history refines independent queues: each workchain has received its accepted messages in arrival
      order, what is left of them waits in that order, and the deque never exceeds its capacity. */
  lemma {:induction false} RefinesIndependentQueues(capacity: nat, ops: seq<Op>, wc: int)
    ensures var h := Run(capacity, ops);
      && For(wc, h.accepted) == For(wc, h.taken) + For(wc, h.storage)
      && |h.storage| <= capacity
  {
    if ops == [] {
    } else {
      var h, op := Run(capacity, ops[..|ops| - 1]), ops[|ops| - 1];
      RefinesIndependentQueues(capacity, ops[..|ops| - 1], wc);
      match op
      case Put(m) => PutRefines(capacity, h, m, wc);
      case Take(from) =>
        if For(from, h.storage) != [] {
          TakeRefines(capacity, h, from, wc);
        }
      case SetStopped(_) =>
    }
  }
}
