/**
 Enqueues that may not allocate: the queue stays the size it was built with, and only such an
 enqueue is ever refused (include/readerwriterqueue.h:606-719).
 */
module SpscBounded {
  import PowerOfTwo
  import opened SpscQueue
  import opened SpscProof
  import opened SpscTheorems

  // ----- the blocks ------------------------------------------------------------------------------

  /** Every enqueue of the run is a try_enqueue. */
  ghost predicate TryOnly<T>(actions: seq<Action<T>>) {
    forall i :: 0 <= i < |actions| && actions[i].StartEnqueue? ==> !actions[i].alloc
  }

  /** The producer is not on its way to a new block. */
  predicate NoAlloc<T>(p: Producer<T>) {
    match p
    case LoadTailBlock(_, alloc) => !alloc
    case LoadTail(_, alloc, _) => !alloc
    case LoadFront(_, alloc, _, _) => !alloc
    case LoadNext(_, alloc, _) => !alloc
    case LoadFrontBlock(_, alloc, _, _) => !alloc
    case Allocate(_, _) => false
    case StoreNext(_, _, _) => false
    case _ => true
  }

  ghost predicate SameBlocks<T>(q: Queue<T>, r: Queue<T>) {
    |q.blocks| == |r.blocks| && forall b :: 0 <= b < |q.blocks| ==> r.blocks[b].size == q.blocks[b].size
  }

  lemma ProducerKeepsBlocks<T>(s: State<T>, mallocFails: bool)
    requires Safe(s) && NoAlloc(s.p)
    ensures NoAlloc(ProducerStep(s, mallocFails).p) && SameBlocks(s.q, ProducerStep(s, mallocFails).q)
  {
  }

  lemma ConsumerKeepsBlocks<T>(s: State<T>)
    requires Safe(s)
    ensures ConsumerStep(s).p == s.p && SameBlocks(s.q, ConsumerStep(s).q)
  {
  }

  lemma StepKeepsBlocks<T>(s: State<T>, a: Action<T>)
    requires NoAlloc(s.p) && (a.StartEnqueue? ==> !a.alloc)
    ensures NoAlloc(Next(s, a).p) && SameBlocks(s.q, Next(s, a).q)
  {
    hide ProducerStep, ConsumerStep, NoAlloc, Safe;
    if Safe(s) {
      match a
      case StartEnqueue(x, alloc) => FirstMove(x);
      case StartDequeue =>
      case ProducerMoves(mallocFails) => ProducerKeepsBlocks(s, mallocFails);
      case ConsumerMoves => ConsumerKeepsBlocks(s);
    }
  }

  lemma FirstMove<T>(x: T)
    ensures NoAlloc(LoadTailBlock(x, false))
  {
  }

  lemma {:induction false} RunKeepsBlocks<T>(s: State<T>, actions: seq<Action<T>>)
    requires NoAlloc(s.p) && TryOnly(actions)
    ensures NoAlloc(Run(s, actions).p) && SameBlocks(s.q, Run(s, actions).q)
    decreases |actions|
  {
    hide Next, NoAlloc;
    if actions != [] {
      var n := |actions| - 1;
      assert TryOnly(actions[..n]);
      RunKeepsBlocks(s, actions[..n]);
      StepKeepsBlocks(Run(s, actions[..n]), actions[n]);
    }
  }

  // ----- what the blocks hold --------------------------------------------------------------------

  /** The live blocks up to `i` hold at most their slots, one each left out. */
  lemma {:induction false} LiveHold<T>(q: Queue<T>, v: View, put: int, got: int, i: nat)
    requires RingShape(|q.blocks|, v) && Chained(v, put, got) && BlocksOk(q, v) && i < v.live
    ensures v.k[v.ring[i]].off + v.k[v.ring[i]].wr - got <= SumCap(q, v.ring[..i + 1])
    decreases i
  {
    hide Slot;
    BlockOkAt(q, v, v.ring[i]);
    var ids := v.ring[..i + 1];
    assert ids[|ids| - 1] == v.ring[i] && ids[..|ids| - 1] == v.ring[..i];
    if i > 0 {
      LiveHold(q, v, put, got, i - 1);
      assert v.k[v.ring[i - 1]].off + v.k[v.ring[i - 1]].wr == v.k[v.ring[i]].off + v.k[v.ring[i]].rd;
    }
  }

  lemma {:induction false} SumCapRises<T>(q: Queue<T>, v: View, i: nat, j: nat)
    requires RingShape(|q.blocks|, v) && BlocksOk(q, v) && i <= j <= |v.ring|
    ensures SumCap(q, v.ring[..i]) <= SumCap(q, v.ring[..j])
    decreases j - i
  {
    hide Slot;
    if i < j {
      SumCapRises(q, v, i, j - 1);
      BlockOkAt(q, v, v.ring[j - 1]);
      assert v.ring[..j][..j - 1] == v.ring[..j - 1];
    }
  }

  /** Blocks of one size hold at most their number times that size less one. */
  lemma RingHolds<T>(q: Queue<T>, v: View, put: int, got: int, size: nat)
    requires RingShape(|q.blocks|, v) && Chained(v, put, got) && BlocksOk(q, v)
    requires forall b :: 0 <= b < |q.blocks| ==> q.blocks[b].size == size
    ensures put - got <= |q.blocks| * (size - 1)
  {
    LiveHold(q, v, put, got, v.live - 1);
    SumCapRises(q, v, v.live, |v.ring|);
    assert v.ring[..|v.ring|] == v.ring;
    SumCapUniform(q, v.ring, size);
    RingFits(|q.blocks|, v);
    hide SumCap, Chained, RingShape;
    assert size >= 2 by { BlockOkAt(q, v, v.ring[0]); }
    hide BlocksOk;
    Grows(|v.ring|, |q.blocks|, size - 1);
  }

  lemma Grows(m: nat, n: nat, k: nat)
    requires m <= n
    ensures m * k <= n * k
  {
  }

  lemma InvHolds<T>(s: State<T>, v: View, capacity: nat, size: nat)
    requires Inv(s, v, capacity) && forall b :: 0 <= b < |s.q.blocks| ==> s.q.blocks[b].size == size
    ensures Queued(s.h) <= |s.q.blocks| * (size - 1)
  {
    hide RingShape, Linked, BlocksOk, Chained, HoldsStream, Occupied, MiddleFull, ProducerOk, ConsumerOk, Spacious;
    RingHolds(s.q, v, |s.h.enqueued|, |s.h.dequeued|, size);
  }

  lemma RunHolds<T>(capacity: nat, first: nat, actions: seq<Action<T>>)
    requires 1 <= capacity < first && TryOnly(actions)
    ensures var q, s := Start<T>(capacity, first).q, Run(Start(capacity, first), actions);
            && |s.q.blocks| == |q.blocks|
            && (forall b :: 0 <= b < |s.q.blocks| ==> s.q.blocks[b].size == q.largestBlockSize)
            && Queued(s.h) <= |q.blocks| * (q.largestBlockSize - 1)
  {
    hide Run, Inv, NewQueue, TryOnly, Queued;
    StartBlocks<T>(capacity, first);
    RunKeepsBlocks(Start<T>(capacity, first), actions);
    var v := RunInv(capacity, first, actions);
    InvHolds(Run(Start<T>(capacity, first), actions), v, capacity, Start<T>(capacity, first).q.largestBlockSize);
  }

  /** A queue that is only filled by try_enqueue keeps the blocks of the constructor, and at no moment
      holds more elements than these have slots, less one each. */
  lemma TryNeverGrows<T>(size: nat, actions: seq<Action<T>>)
    requires 1 <= size < PowerOfTwo.TWO63 && TryOnly(actions)
    ensures var q, s := Built<T>(size).q, Run(Built(size), actions);
            && |s.q.blocks| == |q.blocks|
            && (forall b :: 0 <= b < |s.q.blocks| ==> s.q.blocks[b].size == q.largestBlockSize)
            && Queued(s.h) <= |q.blocks| * (q.largestBlockSize - 1)
  {
    hide Run, Start, TryOnly, Queued, PowerOfTwo.CeilToPow2;
    BuiltHasRoom(size);
    RunHolds(size, PowerOfTwo.CeilToPow2(size + 1), actions);
  }

  // ----- how a call can end ----------------------------------------------------------------------

  ghost predicate NoCall<T>(actions: seq<Action<T>>) {
    forall i :: 0 <= i < |actions| ==> !actions[i].StartEnqueue?
  }

  /** A call in progress, or its end: only a try_enqueue is refused, only an enqueue lacks memory. */
  ghost predicate InCall<T>(s: State<T>, alloc: bool) {
    match s.p
    case ProducerIdle => s.h.enqueueResult == Accepted || s.h.enqueueResult == if alloc then NoMemory else Refused
    case LoadTailBlock(_, a) => a == alloc
    case LoadTail(_, a, _) => a == alloc
    case LoadFront(_, a, _, _) => a == alloc
    case LoadNext(_, a, _) => a == alloc
    case LoadFrontBlock(_, a, _, _) => a == alloc
    case Allocate(_, _) => alloc
    case StoreNext(_, _, _) => alloc
    case _ => true
  }

  lemma StepInCall<T>(s: State<T>, a: Action<T>, alloc: bool)
    requires InCall(s, alloc) && !a.StartEnqueue?
    ensures InCall(Next(s, a), alloc)
  {
    hide Safe;
    if Safe(s) && a.ConsumerMoves? {
      ConsumerKeepsBlocks(s);
      ConsumerKeepsResult(s);
      hide ConsumerStep;
    }
  }

  lemma ConsumerKeepsResult<T>(s: State<T>)
    requires Safe(s)
    ensures ConsumerStep(s).h.enqueueResult == s.h.enqueueResult
  {
  }

  lemma {:induction false} RunInCall<T>(s: State<T>, actions: seq<Action<T>>, alloc: bool)
    requires InCall(s, alloc) && NoCall(actions)
    ensures InCall(Run(s, actions), alloc)
    decreases |actions|
  {
    hide Next, InCall;
    if actions != [] {
      var n := |actions| - 1;
      assert NoCall(actions[..n]);
      RunInCall(s, actions[..n], alloc);
      StepInCall(Run(s, actions[..n]), actions[n], alloc);
    }
  }

  /** However the threads interleave, an enqueue that has ended was accepted or found no memory, and a
      try_enqueue was accepted or refused. */
  lemma OnlyTriesAreRefused<T>(size: nat, before: seq<Action<T>>, x: T, alloc: bool, after: seq<Action<T>>)
    requires 1 <= size < PowerOfTwo.TWO63 && Run(Built<T>(size), before).p.ProducerIdle? && NoCall(after)
    ensures var s := Run(Run(Built<T>(size), before + [StartEnqueue(x, alloc)]), after);
            s.p.ProducerIdle? ==> s.h.enqueueResult == Accepted || s.h.enqueueResult == if alloc then NoMemory else Refused
  {
    var first := PowerOfTwo.CeilToPow2(size + 1);
    BuiltHasRoom(size);
    Fifo(size, first, before);
    hide Safe;
    var s := Run(Built<T>(size), before);
    var a := StartEnqueue(x, alloc);
    assert (before + [a])[..|before|] == before;
    assert Run(Built<T>(size), before + [a]) == Next(s, a);
    RunInCall(Next(s, a), after, alloc);
  }
}
