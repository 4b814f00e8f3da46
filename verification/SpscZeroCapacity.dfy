/**
 The one capacity for which the queue does not work: a queue built for 0 elements starts with a
 block of a single slot, which never holds anything. When `enqueue` comes back to that block it
 takes it for a free one, and a later dequeue fails its assertion.
 */
module SpscZeroCapacity {
  import PowerOfTwo
  import opened SpscQueue
  import opened SpscTheorems

  ghost predicate Reached(s: State<int>) {
    exists actions :: Run(Start<int>(0, 1), actions) == s
  }

  lemma Go(s: State<int>, a: Action<int>) returns (t: State<int>)
    requires Reached(s) && Safe(s)
    ensures Reached(t) && t.q == Move(s, a).q && t.p == Move(s, a).p && t.c == Move(s, a).c
    ensures t.broken == Move(s, a).broken
  {
    hide Move, Start, Safe;
    var actions :| Run(Start<int>(0, 1), actions) == s;
    t := Next(s, a);
    assert (actions + [a])[..|actions|] == actions;
    assert Run(Start<int>(0, 1), actions + [a]) == t;
  }

  /** A state without its history; the queue has one block, or two. */
  datatype Moment = Moment(two: bool, b0: Block<int>, b1: Block<int>, frontBlock: nat, tailBlock: nat, largest: nat,
                           p: Producer<int>, c: Consumer<int>)

  function AsState(m: Moment): State<int> {
    State(Queue(if m.two then [m.b0, m.b1] else [m.b0], m.frontBlock, m.tailBlock, m.largest), m.p, m.c,
          History([], [], NoEnqueueYet, NoDequeueYet, false, 0), false)
  }

  ghost predicate At(s: State<int>, m: Moment) {
    Reached(s) && !s.broken && s.q == AsState(m).q && s.p == m.p && s.c == m.c
  }

  /** The step from one moment to another. */
  ghost predicate Leads(m: Moment, a: Action<int>, n: Moment) {
    && Safe(AsState(m))
    && var t := Move(AsState(m), a);
       !t.broken && |t.q.blocks| == (if n.two then 2 else 1) && t.q.blocks[0] == n.b0 && (n.two ==> t.q.blocks[1] == n.b1)
       && t.q.frontBlock == n.frontBlock && t.q.tailBlock == n.tailBlock && t.q.largestBlockSize == n.largest
       && t.p == n.p && t.c == n.c
  }

  /** The history plays no part in where a step leads. */
  lemma HistoryFree(s: State<int>, r: State<int>, a: Action<int>)
    requires s.q == r.q && s.p == r.p && s.c == r.c && s.broken == r.broken && Safe(r)
    ensures Safe(s) && Move(s, a).q == Move(r, a).q && Move(s, a).p == Move(r, a).p
    ensures Move(s, a).c == Move(r, a).c && Move(s, a).broken == Move(r, a).broken
  {
  }

  lemma Step(s: State<int>, m: Moment, a: Action<int>, n: Moment) returns (t: State<int>, next: Moment)
    requires At(s, m) && Leads(m, a, n)
    ensures next == n && At(t, n)
  {
    hide Reached, Move, Safe;
    HistoryFree(s, AsState(m), a);
    t := Go(s, a);
    next := n;
  }

  // The states between the calls.
  const Moment0 := Moment(false, Block(1, 0, 0, 0, 0, 0, map[]), Block(1, 0, 0, 0, 0, 0, map[]), 0, 0, 1, ProducerIdle, ConsumerIdle)
  const Moment1 := Moment(true, Block(1, 0, 0, 0, 0, 1, map[]), Block(2, 0, 1, 1, 0, 0, map[0 := 1]), 0, 1, 2, ProducerIdle, ConsumerIdle)
  const Moment2 := Moment(true, Block(1, 0, 0, 0, 0, 1, map[]), Block(2, 1, 1, 1, 0, 0, map[0 := 1]), 1, 1, 2, ProducerIdle, ConsumerIdle)
  const Moment3 := Moment(true, Block(1, 0, 0, 0, 0, 1, map[]), Block(2, 1, 1, 0, 1, 0, map[0 := 1, 1 := 2]), 1, 1, 2, ProducerIdle, ConsumerIdle)
  const Moment4 := Moment(true, Block(1, 0, 0, 0, 0, 1, map[0 := 3]), Block(2, 1, 1, 0, 1, 0, map[0 := 1, 1 := 2]), 1, 0, 2, ProducerIdle, ConsumerIdle)
  const Moment5 := Moment(true, Block(1, 0, 0, 0, 0, 1, map[0 := 3]), Block(2, 0, 0, 0, 1, 0, map[0 := 1, 1 := 2]), 1, 0, 2, ProducerIdle, ConsumerIdle)

  /** The single-slot block is full at once, so the first element opens a block of two slots. */
  lemma FirstEnqueue1(s: State<int>, m0: Moment) returns (t: State<int>, m: Moment)
    requires At(s, m0) && m0 == Moment0
    ensures At(t, m) && m == Moment0.(p := LoadNext(1, true, 0))
  {
    hide At;
    t, m := s, m0;
    t, m := Step(t, m, StartEnqueue(1, true), m.(p := LoadTailBlock(1, true)));
    t, m := Step(t, m, ProducerMoves(false), m.(p := LoadTail(1, true, 0)));
    t, m := Step(t, m, ProducerMoves(false), m.(p := LoadFront(1, true, 0, 0)));
    t, m := Step(t, m, ProducerMoves(false), m.(p := LoadNext(1, true, 0)));
  }

  lemma FirstEnqueue2(s: State<int>, m0: Moment) returns (t: State<int>, m: Moment)
    requires At(s, m0) && m0 == Moment0.(p := LoadNext(1, true, 0))
    ensures At(t, m) && m == Moment0.(p := StoreTailBlock(1, 1), two := true, b1 := Block(2, 0, 1, 1, 0, 0, map[0 := 1]), largest := 2, b0 := Block(1, 0, 0, 0, 0, 1, map[]))
  {
    hide At;
    t, m := s, m0;
    t, m := Step(t, m, ProducerMoves(false), m.(p := LoadFrontBlock(1, true, 0, 0)));
    t, m := Step(t, m, ProducerMoves(false), m.(p := Allocate(1, 0)));
    t, m := Step(t, m, ProducerMoves(false), m.(p := StoreNext(1, 0, 1), two := true, b1 := Block(2, 0, 1, 1, 0, 0, map[0 := 1]), largest := 2));
    t, m := Step(t, m, ProducerMoves(false), m.(p := StoreTailBlock(1, 1), b0 := Block(1, 0, 0, 0, 0, 1, map[])));
  }

  lemma FirstEnqueue3(s: State<int>, m0: Moment) returns (t: State<int>, m: Moment)
    requires At(s, m0) && m0 == Moment0.(p := StoreTailBlock(1, 1), two := true, b1 := Block(2, 0, 1, 1, 0, 0, map[0 := 1]), largest := 2, b0 := Block(1, 0, 0, 0, 0, 1, map[]))
    ensures At(t, m) && m == Moment1
  {
    hide At;
    t, m := s, m0;
    t, m := Step(t, m, ProducerMoves(false), m.(p := ProducerIdle, tailBlock := 1));
  }

  /** It is dequeued, and the two-slot block becomes the front block. */
  lemma FirstDequeue1(s: State<int>, m0: Moment) returns (t: State<int>, m: Moment)
    requires At(s, m0) && m0 == Moment1
    ensures At(t, m) && m == Moment1.(c := ReadTailBlock(0))
  {
    hide At;
    t, m := s, m0;
    t, m := Step(t, m, StartDequeue, m.(c := ReadFrontBlock));
    t, m := Step(t, m, ConsumerMoves, m.(c := ReadFront(0)));
    t, m := Step(t, m, ConsumerMoves, m.(c := ReadTail(0, 0)));
    t, m := Step(t, m, ConsumerMoves, m.(c := ReadTailBlock(0)));
  }

  lemma FirstDequeue2(s: State<int>, m0: Moment) returns (t: State<int>, m: Moment)
    requires At(s, m0) && m0 == Moment1.(c := ReadTailBlock(0))
    ensures At(t, m) && m == Moment1.(c := ReadNext(0))
  {
    hide At;
    t, m := s, m0;
    t, m := Step(t, m, ConsumerMoves, m.(c := RereadFrontBlock));
    t, m := Step(t, m, ConsumerMoves, m.(c := RereadTail(0)));
    t, m := Step(t, m, ConsumerMoves, m.(c := RereadFront(0, 0)));
    t, m := Step(t, m, ConsumerMoves, m.(c := ReadNext(0)));
  }

  lemma FirstDequeue3(s: State<int>, m0: Moment) returns (t: State<int>, m: Moment)
    requires At(s, m0) && m0 == Moment1.(c := ReadNext(0))
    ensures At(t, m) && m == Moment1.(c := TakeElement(1, 0), frontBlock := 1)
  {
    hide At;
    t, m := s, m0;
    t, m := Step(t, m, ConsumerMoves, m.(c := ReadNextFront(1)));
    t, m := Step(t, m, ConsumerMoves, m.(c := ReadNextTail(1, 0)));
    t, m := Step(t, m, ConsumerMoves, m.(c := StoreFrontBlock(1, 0)));
    t, m := Step(t, m, ConsumerMoves, m.(c := TakeElement(1, 0), frontBlock := 1));
  }

  lemma FirstDequeue4(s: State<int>, m0: Moment) returns (t: State<int>, m: Moment)
    requires At(s, m0) && m0 == Moment1.(c := TakeElement(1, 0), frontBlock := 1)
    ensures At(t, m) && m == Moment2
  {
    hide At;
    t, m := s, m0;
    t, m := Step(t, m, ConsumerMoves, m.(c := StoreFront(1, 0, 1)));
    t, m := Step(t, m, ConsumerMoves, m.(c := ConsumerIdle, b1 := Block(2, 1, 1, 1, 0, 0, map[0 := 1])));
  }

  /** A second element fills that block. */
  lemma SecondEnqueue1(s: State<int>, m0: Moment) returns (t: State<int>, m: Moment)
    requires At(s, m0) && m0 == Moment2
    ensures At(t, m) && m == Moment2.(p := Construct(2, 1, 1), b1 := Block(2, 1, 1, 1, 0, 0, map[0 := 1]).(localFront := 1))
  {
    hide At;
    t, m := s, m0;
    t, m := Step(t, m, StartEnqueue(2, true), m.(p := LoadTailBlock(2, true)));
    t, m := Step(t, m, ProducerMoves(false), m.(p := LoadTail(2, true, 1)));
    t, m := Step(t, m, ProducerMoves(false), m.(p := LoadFront(2, true, 1, 1)));
    t, m := Step(t, m, ProducerMoves(false), m.(p := Construct(2, 1, 1), b1 := m.b1.(localFront := 1)));
  }

  lemma SecondEnqueue2(s: State<int>, m0: Moment) returns (t: State<int>, m: Moment)
    requires At(s, m0) && m0 == Moment2.(p := Construct(2, 1, 1), b1 := Block(2, 1, 1, 1, 0, 0, map[0 := 1]).(localFront := 1))
    ensures At(t, m) && m == Moment3
  {
    hide At;
    t, m := s, m0;
    t, m := Step(t, m, ProducerMoves(false), m.(p := StoreTail(2, 1, 1), b1 := m.b1.(data := map[0 := 1, 1 := 2])));
    t, m := Step(t, m, ProducerMoves(false), m.(p := ProducerIdle, b1 := Block(2, 1, 1, 0, 1, 0, map[0 := 1, 1 := 2])));
  }

  /** A third one goes to the single slot, whose tail wraps to where it was: the block looks empty. */
  lemma ThirdEnqueue1(s: State<int>, m0: Moment) returns (t: State<int>, m: Moment)
    requires At(s, m0) && m0 == Moment3
    ensures At(t, m) && m == Moment3.(p := LoadFront(3, true, 1, 0))
  {
    hide At;
    t, m := s, m0;
    t, m := Step(t, m, StartEnqueue(3, true), m.(p := LoadTailBlock(3, true)));
    t, m := Step(t, m, ProducerMoves(false), m.(p := LoadTail(3, true, 1)));
    t, m := Step(t, m, ProducerMoves(false), m.(p := LoadFront(3, true, 1, 0)));
  }

  lemma ThirdEnqueue2(s: State<int>, m0: Moment) returns (t: State<int>, m: Moment)
    requires At(s, m0) && m0 == Moment3.(p := LoadFront(3, true, 1, 0))
    ensures At(t, m) && m == Moment3.(p := ReloadNext(3, 1))
  {
    hide At;
    t, m := s, m0;
    t, m := Step(t, m, ProducerMoves(false), m.(p := LoadNext(3, true, 1)));
    t, m := Step(t, m, ProducerMoves(false), m.(p := LoadFrontBlock(3, true, 1, 0)));
    t, m := Step(t, m, ProducerMoves(false), m.(p := ReloadNext(3, 1)));
  }

  lemma ThirdEnqueue3(s: State<int>, m0: Moment) returns (t: State<int>, m: Moment)
    requires At(s, m0) && m0 == Moment3.(p := ReloadNext(3, 1))
    ensures At(t, m) && m == Moment3.(p := ConstructNext(3, 0, 0))
  {
    hide At;
    t, m := s, m0;
    t, m := Step(t, m, ProducerMoves(false), m.(p := LoadNextFront(3, 0)));
    t, m := Step(t, m, ProducerMoves(false), m.(p := LoadNextTail(3, 0, 0)));
    t, m := Step(t, m, ProducerMoves(false), m.(p := ConstructNext(3, 0, 0)));
  }

  lemma ThirdEnqueue4(s: State<int>, m0: Moment) returns (t: State<int>, m: Moment)
    requires At(s, m0) && m0 == Moment3.(p := ConstructNext(3, 0, 0))
    ensures At(t, m) && m == Moment4
  {
    hide At;
    t, m := s, m0;
    t, m := Step(t, m, ProducerMoves(false), m.(p := StoreNextTail(3, 0, 0), b0 := Block(1, 0, 0, 0, 0, 1, map[0 := 3])));
    t, m := Step(t, m, ProducerMoves(false), m.(p := StoreTailBlock(3, 0)));
    t, m := Step(t, m, ProducerMoves(false), m.(p := ProducerIdle, tailBlock := 0));
  }

  /** The second element is dequeued. */
  lemma SecondDequeue1(s: State<int>, m0: Moment) returns (t: State<int>, m: Moment)
    requires At(s, m0) && m0 == Moment4
    ensures At(t, m) && m == Moment4.(c := TakeElement(1, 1), b1 := Block(2, 1, 1, 0, 1, 0, map[0 := 1, 1 := 2]).(localTail := 0))
  {
    hide At;
    t, m := s, m0;
    t, m := Step(t, m, StartDequeue, m.(c := ReadFrontBlock));
    t, m := Step(t, m, ConsumerMoves, m.(c := ReadFront(1)));
    t, m := Step(t, m, ConsumerMoves, m.(c := ReadTail(1, 1)));
    t, m := Step(t, m, ConsumerMoves, m.(c := TakeElement(1, 1), b1 := m.b1.(localTail := 0)));
  }

  lemma SecondDequeue2(s: State<int>, m0: Moment) returns (t: State<int>, m: Moment)
    requires At(s, m0) && m0 == Moment4.(c := TakeElement(1, 1), b1 := Block(2, 1, 1, 0, 1, 0, map[0 := 1, 1 := 2]).(localTail := 0))
    ensures At(t, m) && m == Moment5
  {
    hide At;
    t, m := s, m0;
    t, m := Step(t, m, ConsumerMoves, m.(c := StoreFront(1, 1, 2)));
    t, m := Step(t, m, ConsumerMoves, m.(c := ConsumerIdle, b1 := Block(2, 0, 0, 0, 1, 0, map[0 := 1, 1 := 2])));
  }

  /** For the third, dequeue advances to the block that looks empty. */
  lemma ThirdDequeue1(s: State<int>, m0: Moment) returns (t: State<int>, m: Moment)
    requires At(s, m0) && m0 == Moment5
    ensures At(t, m) && m == Moment5.(c := ReadTailBlock(1))
  {
    hide At;
    t, m := s, m0;
    t, m := Step(t, m, StartDequeue, m.(c := ReadFrontBlock));
    t, m := Step(t, m, ConsumerMoves, m.(c := ReadFront(1)));
    t, m := Step(t, m, ConsumerMoves, m.(c := ReadTail(1, 0)));
    t, m := Step(t, m, ConsumerMoves, m.(c := ReadTailBlock(1)));
  }

  lemma ThirdDequeue2(s: State<int>, m0: Moment) returns (t: State<int>, m: Moment)
    requires At(s, m0) && m0 == Moment5.(c := ReadTailBlock(1))
    ensures At(t, m) && m == Moment5.(c := ReadNext(1))
  {
    hide At;
    t, m := s, m0;
    t, m := Step(t, m, ConsumerMoves, m.(c := RereadFrontBlock));
    t, m := Step(t, m, ConsumerMoves, m.(c := RereadTail(1)));
    t, m := Step(t, m, ConsumerMoves, m.(c := RereadFront(1, 0)));
    t, m := Step(t, m, ConsumerMoves, m.(c := ReadNext(1)));
  }

  lemma ThirdDequeue3(s: State<int>, m0: Moment) returns (t: State<int>, m: Moment)
    requires At(s, m0) && m0 == Moment5.(c := ReadNext(1))
    ensures At(t, m) && m == Moment5.(c := ReadNextTail(0, 0))
  {
    hide At;
    t, m := s, m0;
    t, m := Step(t, m, ConsumerMoves, m.(c := ReadNextFront(0)));
    t, m := Step(t, m, ConsumerMoves, m.(c := ReadNextTail(0, 0)));
  }

  /** The assertion that a block ahead is not empty fails. */
  lemma ZeroCapacityBreaks() returns (actions: seq<Action<int>>)
    ensures Run(Start<int>(0, 1), actions).broken
  {
    var s, m := StartMoment();
    s, m := FirstEnqueue1(s, m);
    s, m := FirstEnqueue2(s, m);
    s, m := FirstEnqueue3(s, m);
    s, m := FirstDequeue1(s, m);
    s, m := FirstDequeue2(s, m);
    s, m := FirstDequeue3(s, m);
    s, m := FirstDequeue4(s, m);
    s, m := SecondEnqueue1(s, m);
    s, m := SecondEnqueue2(s, m);
    s, m := ThirdEnqueue1(s, m);
    s, m := ThirdEnqueue2(s, m);
    s, m := ThirdEnqueue3(s, m);
    s, m := ThirdEnqueue4(s, m);
    s, m := SecondDequeue1(s, m);
    s, m := SecondDequeue2(s, m);
    s, m := ThirdDequeue1(s, m);
    s, m := ThirdDequeue2(s, m);
    s, m := ThirdDequeue3(s, m);
    actions := AssertFails(s, m);
  }

  lemma StartMoment() returns (s: State<int>, m: Moment)
    ensures At(s, m) && m == Moment0
  {
    s, m := Start<int>(0, 1), Moment0;
    var none: seq<Action<int>> := [];
    assert Run(s, none) == s;
    var ring := MakeRing<int>(1, 1);
    assert |ring| == 1 && ring[0] == MakeBlock<int>(1, 0) == m.b0;
    assert ring == [m.b0];
  }

  lemma AssertFails(s: State<int>, m: Moment) returns (actions: seq<Action<int>>)
    requires At(s, m) && m == Moment5.(c := ReadNextTail(0, 0))
    ensures Run(Start<int>(0, 1), actions).broken
  {
    var t := Go(s, ConsumerMoves);
    actions :| Run(Start<int>(0, 1), actions) == t;
  }

  /** The assertions hold in every run exactly if the queue is built for at least one element. */
  lemma SoundIffNonZero(size: nat)
    requires size < PowerOfTwo.TWO63
    ensures (forall actions :: !Run(Built<int>(size), actions).broken) <==> size >= 1
  {
    hide Run, Start, Safe, Contents, SizeApprox, PowerOfTwo.CeilToPow2;
    if size == 0 {
      PowerOfTwo.CeilOfOne();
      var actions := ZeroCapacityBreaks();
      assert Built<int>(size) == Start<int>(0, 1);
      assert Run(Built<int>(size), actions).broken;
    } else {
      forall actions ensures !Run(Built<int>(size), actions).broken {
        BuiltQueue<int>(size, actions);
      }
    }
  }
}
