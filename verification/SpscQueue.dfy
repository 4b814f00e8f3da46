/**
 moodycamel::ReaderWriterQueue (include/readerwriterqueue.h) as a two-thread transition system
 under sequential consistency: every step of a thread performs at most one load or store of a
 variable the other thread can see. The thread states name the access that comes next.

 Blocks are numbered in order of allocation; `& sizeMask` is written as `% size`.
 */
module SpscQueue {
  import PowerOfTwo

  const MAX_BLOCK_SIZE := 512

  datatype Block<T> = Block(
    size: nat,        // sizeMask + 1
    front: nat, localTail: nat,   // owned by the consumer
    tail: nat, localFront: nat,   // owned by the producer
    next: nat,
    data: map<nat, T>)            // constructed slots

  datatype Queue<T> = Queue(blocks: seq<Block<T>>, frontBlock: nat, tailBlock: nat, largestBlockSize: nat)

  /** Where the producer is in inner_enqueue. */
  datatype Producer<T> =
    | ProducerIdle
    | LoadTailBlock(x: T, alloc: bool)
    | LoadTail(x: T, alloc: bool, tb: nat)
    | LoadFront(x: T, alloc: bool, tb: nat, bt: nat)
    | Construct(x: T, tb: nat, bt: nat)
    | StoreTail(x: T, tb: nat, bt: nat)
    | LoadNext(x: T, alloc: bool, tb: nat)
    | LoadFrontBlock(x: T, alloc: bool, tb: nat, nb: nat)
    | ReloadNext(x: T, tb: nat)
    | LoadNextFront(x: T, nb: nat)
    | LoadNextTail(x: T, nb: nat, nf: nat)
    | ConstructNext(x: T, nb: nat, bt: nat)
    | StoreNextTail(x: T, nb: nat, bt: nat)
    | Allocate(x: T, tb: nat)
    | StoreNext(x: T, tb: nat, nb: nat)
    | StoreTailBlock(x: T, nb: nat)

  /** Where the consumer is in try_dequeue. */
  datatype Consumer<T> =
    | ConsumerIdle
    | ReadFrontBlock
    | ReadFront(fb: nat)
    | ReadTail(fb: nat, bf: nat)
    | ReadTailBlock(fb: nat)
    | RereadFrontBlock
    | RereadTail(fb: nat)
    | RereadFront(fb: nat, bt: nat)
    | ReadNext(fb: nat)
    | ReadNextFront(nb: nat)
    | ReadNextTail(nb: nat, bf: nat)
    | StoreFrontBlock(nb: nat, bf: nat)
    | TakeElement(fb: nat, bf: nat)
    | StoreFront(fb: nat, bf: nat, got: T)

  datatype EnqueueResult = NoEnqueueYet | Accepted | Refused | NoMemory
  datatype DequeueResult = NoDequeueYet | Taken | Empty

  /** What an observer has seen: the elements put in and taken out, the results of the last calls,
      whether the queue was empty at some moment of the current (or last) dequeue call, and the
      largest number of queued elements at any moment of the current (or last) enqueue call. */
  datatype History<T> = History(
    enqueued: seq<T>, dequeued: seq<T>,
    enqueueResult: EnqueueResult, dequeueResult: DequeueResult,
    sawEmpty: bool, peak: int)

  /** `broken` records a failed assert or an access through a wild pointer or to a raw slot. */
  datatype State<T> = State(q: Queue<T>, p: Producer<T>, c: Consumer<T>, h: History<T>, broken: bool)

  datatype Action<T> =
    | StartEnqueue(x: T, alloc: bool)   // enqueue (alloc) or try_enqueue
    | StartDequeue
    | ProducerMoves(mallocFails: bool)
    | ConsumerMoves

  // ----- construction --------------------------------------------------------------------------------

  function MakeBlock<T>(size: nat, next: nat): Block<T> {
    Block(size, 0, 0, 0, 0, next, map[])
  }

  /** The blocks made by the constructor: `count` of them, linked in a circle. */
  function MakeRing<T>(size: nat, count: nat): seq<Block<T>> {
    seq(count, i requires 0 <= i < count => MakeBlock(size, if i + 1 == count then 0 else i + 1))
  }

  /** ReaderWriterQueue(capacity); `first` is ceilToPow2(capacity + 1). */
  function NewQueue<T>(capacity: nat, first: nat): Queue<T> {
    if first > 2 * MAX_BLOCK_SIZE then
      Queue(MakeRing(MAX_BLOCK_SIZE, (capacity + 2 * MAX_BLOCK_SIZE - 3) / (MAX_BLOCK_SIZE - 1)), 0, 0, MAX_BLOCK_SIZE)
    else
      Queue(MakeRing(first, 1), 0, 0, first)
  }

  /** ReaderWriterQueue(size) */
  function Built<T>(size: nat): State<T> {
    Start(size, PowerOfTwo.CeilToPow2(size + 1))
  }

  function Start<T>(capacity: nat, first: nat): State<T> {
    State(NewQueue(capacity, first), ProducerIdle, ConsumerIdle,
          History([], [], NoEnqueueYet, NoDequeueYet, false, 0), false)
  }

  // ----- steps ---------------------------------------------------------------------------------------

  predicate SafeProducer<T>(q: Queue<T>, p: Producer<T>) {
    var n := |q.blocks|;
    match p
    case LoadTail(_, _, tb) => tb < n
    case LoadFront(_, _, tb, _) => tb < n
    case Construct(_, tb, _) => tb < n
    case StoreTail(_, tb, _) => tb < n
    case LoadNext(_, _, tb) => tb < n
    case LoadFrontBlock(_, _, tb, _) => tb < n
    case ReloadNext(_, tb) => tb < n
    case LoadNextFront(_, nb) => nb < n
    case LoadNextTail(_, nb, _) => nb < n
    case ConstructNext(_, nb, _) => nb < n
    case StoreNextTail(_, nb, _) => nb < n
    case Allocate(_, tb) => tb < n
    case StoreNext(_, tb, _) => tb < n
    case _ => true
  }

  predicate SafeConsumer<T>(q: Queue<T>, c: Consumer<T>) {
    var n := |q.blocks|;
    match c
    case ReadFront(fb) => fb < n
    case ReadTail(fb, _) => fb < n
    case RereadTail(fb) => fb < n
    case RereadFront(fb, _) => fb < n
    case ReadNext(fb) => fb < n
    case ReadNextFront(nb) => nb < n
    case ReadNextTail(nb, _) => nb < n
    case TakeElement(fb, bf) => fb < n && bf in q.blocks[fb].data
    case StoreFront(fb, _, _) => fb < n
    case _ => true
  }

  /** The next access of each thread is through a pointer to a block, and to a constructed slot. */
  predicate Safe<T>(s: State<T>) {
    && (forall b :: 0 <= b < |s.q.blocks| ==> s.q.blocks[b].size > 0)
    && SafeProducer(s.q, s.p) && SafeConsumer(s.q, s.c)
  }

  function SetBlock<T>(q: Queue<T>, b: nat, block: Block<T>): Queue<T>
    requires b < |q.blocks|
  {
    q.(blocks := q.blocks[b := block])
  }

  function Bump(i: nat, size: nat): nat
    requires size > 0
  {
    (i + 1) % size
  }

  /** One step of inner_enqueue. */
  function ProducerStep<T>(s: State<T>, mallocFails: bool): State<T>
    requires Safe(s)
  {
    match s.p
    case ProducerIdle => s
    case LoadTailBlock(x, alloc) => s.(p := LoadTail(x, alloc, s.q.tailBlock))
    case LoadTail(x, alloc, tb) =>
      var b := s.q.blocks[tb];
      if Bump(b.tail, b.size) != b.localFront then s.(p := Construct(x, tb, b.tail))
      else s.(p := LoadFront(x, alloc, tb, b.tail))
    case LoadFront(x, alloc, tb, bt) =>
      var b := s.q.blocks[tb];
      s.(q := SetBlock(s.q, tb, b.(localFront := b.front)),
         p := if Bump(bt, b.size) != b.front then Construct(x, tb, bt) else LoadNext(x, alloc, tb))
    case Construct(x, tb, bt) =>
      var b := s.q.blocks[tb];
      s.(q := SetBlock(s.q, tb, b.(data := b.data[bt := x])), p := StoreTail(x, tb, bt))
    case StoreTail(x, tb, bt) =>
      var b := s.q.blocks[tb];
      s.(q := SetBlock(s.q, tb, b.(tail := Bump(bt, b.size))), p := ProducerIdle,
         h := s.h.(enqueued := s.h.enqueued + [x], enqueueResult := Accepted))
    case LoadNext(x, alloc, tb) => s.(p := LoadFrontBlock(x, alloc, tb, s.q.blocks[tb].next))
    case LoadFrontBlock(x, alloc, tb, nb) =>
      if nb != s.q.frontBlock then s.(p := ReloadNext(x, tb))
      else if alloc then s.(p := Allocate(x, tb))
      else s.(p := ProducerIdle, h := s.h.(enqueueResult := Refused))
    case ReloadNext(x, tb) => s.(p := LoadNextFront(x, s.q.blocks[tb].next))
    case LoadNextFront(x, nb) =>
      var b := s.q.blocks[nb];
      s.(q := SetBlock(s.q, nb, b.(localFront := b.front)), p := LoadNextTail(x, nb, b.front))
    case LoadNextTail(x, nb, nf) =>
      var b := s.q.blocks[nb];
      s.(p := ConstructNext(x, nb, b.tail), broken := s.broken || nf != b.tail)   // assert
    case ConstructNext(x, nb, bt) =>
      var b := s.q.blocks[nb];
      s.(q := SetBlock(s.q, nb, b.(data := b.data[bt := x])), p := StoreNextTail(x, nb, bt))
    case StoreNextTail(x, nb, bt) =>
      var b := s.q.blocks[nb];
      s.(q := SetBlock(s.q, nb, b.(tail := Bump(bt, b.size))), p := StoreTailBlock(x, nb))
    case Allocate(x, tb) =>
      if mallocFails then s.(p := ProducerIdle, h := s.h.(enqueueResult := NoMemory))
      else
        var size := if s.q.largestBlockSize >= MAX_BLOCK_SIZE then s.q.largestBlockSize else s.q.largestBlockSize * 2;
        var b := Block(size, 0, 1, 1, 0, s.q.blocks[tb].next, map[0 := x]);
        s.(q := s.q.(blocks := s.q.blocks + [b], largestBlockSize := size), p := StoreNext(x, tb, |s.q.blocks|))
    case StoreNext(x, tb, nb) =>
      s.(q := SetBlock(s.q, tb, s.q.blocks[tb].(next := nb)), p := StoreTailBlock(x, nb))
    case StoreTailBlock(x, nb) =>
      s.(q := s.q.(tailBlock := nb), p := ProducerIdle,
         h := s.h.(enqueued := s.h.enqueued + [x], enqueueResult := Accepted))
  }

  /** One step of try_dequeue. */
  function ConsumerStep<T>(s: State<T>): State<T>
    requires Safe(s)
  {
    match s.c
    case ConsumerIdle => s
    case ReadFrontBlock => s.(c := ReadFront(s.q.frontBlock))
    case ReadFront(fb) =>
      var b := s.q.blocks[fb];
      s.(c := if b.front != b.localTail then TakeElement(fb, b.front) else ReadTail(fb, b.front))
    case ReadTail(fb, bf) =>
      var b := s.q.blocks[fb];
      s.(q := SetBlock(s.q, fb, b.(localTail := b.tail)),
         c := if bf != b.tail then TakeElement(fb, bf) else ReadTailBlock(fb))
    case ReadTailBlock(fb) =>
      if fb != s.q.tailBlock then s.(c := RereadFrontBlock)
      else s.(c := ConsumerIdle, h := s.h.(dequeueResult := Empty))
    case RereadFrontBlock => s.(c := RereadTail(s.q.frontBlock))
    case RereadTail(fb) =>
      var b := s.q.blocks[fb];
      s.(q := SetBlock(s.q, fb, b.(localTail := b.tail)), c := RereadFront(fb, b.tail))
    case RereadFront(fb, bt) =>
      var b := s.q.blocks[fb];
      s.(c := if b.front != bt then TakeElement(fb, b.front) else ReadNext(fb))
    case ReadNext(fb) => s.(c := ReadNextFront(s.q.blocks[fb].next))
    case ReadNextFront(nb) => s.(c := ReadNextTail(nb, s.q.blocks[nb].front))
    case ReadNextTail(nb, bf) =>
      var b := s.q.blocks[nb];
      s.(q := SetBlock(s.q, nb, b.(localTail := b.tail)), c := StoreFrontBlock(nb, bf),
         broken := s.broken || bf == b.tail)                                       // assert
    case StoreFrontBlock(nb, bf) => s.(q := s.q.(frontBlock := nb), c := TakeElement(nb, bf))
    case TakeElement(fb, bf) => s.(c := StoreFront(fb, bf, s.q.blocks[fb].data[bf]))
    case StoreFront(fb, bf, got) =>
      var b := s.q.blocks[fb];
      s.(q := SetBlock(s.q, fb, b.(front := Bump(bf, b.size))), c := ConsumerIdle,
         h := s.h.(dequeued := s.h.dequeued + [got], dequeueResult := Taken))
  }

  function Move<T>(s: State<T>, a: Action<T>): State<T>
    requires Safe(s)
  {
    match a
    case StartEnqueue(x, alloc) =>
      if s.p.ProducerIdle? then s.(p := LoadTailBlock(x, alloc), h := s.h.(peak := 0)) else s
    case StartDequeue =>
      if s.c.ConsumerIdle? then s.(c := ReadFrontBlock, h := s.h.(sawEmpty := false)) else s
    case ProducerMoves(mallocFails) => ProducerStep(s, mallocFails)
    case ConsumerMoves => ConsumerStep(s)
  }

  function Queued<T>(h: History<T>): int {
    |h.enqueued| - |h.dequeued|
  }

  /** Adds the moment after a step to the calls in progress. */
  function Observe<T>(s: State<T>, s': State<T>): State<T> {
    var inDequeue := !s.c.ConsumerIdle? || !s'.c.ConsumerIdle?;
    var inEnqueue := !s.p.ProducerIdle? || !s'.p.ProducerIdle?;
    s'.(h := s'.h.(
          sawEmpty := s'.h.sawEmpty || (inDequeue && Queued(s'.h) == 0),
          peak := if inEnqueue && Queued(s'.h) > s'.h.peak then Queued(s'.h) else s'.h.peak))
  }

  function Next<T>(s: State<T>, a: Action<T>): State<T> {
    if Safe(s) then Observe(s, Move(s, a)) else s.(broken := true)
  }

  /** The state after a run. */
  function Run<T>(s: State<T>, actions: seq<Action<T>>): State<T>
    decreases |actions|
  {
    if actions == [] then s else Next(Run(s, actions[..|actions| - 1]), actions[|actions| - 1])
  }
}
