/**
 What holds of the queue in every state that any interleaving of the two threads can reach.
 */
module SpscTheorems {
  import PowerOfTwo
  import opened SpscQueue
  import opened SpscProof

  // ----- the initial state ----------------------------------------------------------------------------

  function StartView(count: nat): View
    requires count >= 1
  {
    View(seq(count, i => i), 1, seq(count, _ => Counters(0, 0, 0, 0, 0)))
  }

  lemma {:induction false} SumCapUniform<T>(q: Queue<T>, ids: seq<nat>, size: nat)
    requires forall i :: 0 <= i < |ids| ==> ids[i] < |q.blocks| && q.blocks[ids[i]].size == size
    ensures SumCap(q, ids) == |ids| * (size - 1)
    decreases |ids|
  {
    if ids != [] {
      var m := |ids| - 1;
      SumCapUniform(q, ids[..m], size);
      assert (m + 1) * (size - 1) == m * (size - 1) + (size - 1);
    }
  }

  lemma StartBlocks<T>(capacity: nat, first: nat)
    requires 1 <= capacity < first
    ensures var q := NewQueue<T>(capacity, first);
            && |q.blocks| >= 1
            && (forall b :: 0 <= b < |q.blocks| ==>
                  q.blocks[b] == MakeBlock<T>(q.largestBlockSize, if b + 1 == |q.blocks| then 0 else b + 1))
            && q.largestBlockSize >= 2 && q.frontBlock == q.tailBlock == 0
            && (if |q.blocks| == 1 then q.largestBlockSize - 1 >= capacity
                else (|q.blocks| - 1) * (q.largestBlockSize - 1) >= capacity)
  {
  }

  /** The queue starts in the invariant: the block count and size formulas leave room for
      `capacity` elements without the front block. */
  lemma StartInv<T>(capacity: nat, first: nat)
    requires 1 <= capacity < first
    ensures |NewQueue<T>(capacity, first).blocks| >= 1
    ensures Inv(Start<T>(capacity, first), StartView(|NewQueue<T>(capacity, first).blocks|), capacity)
  {
    StartBlocks<T>(capacity, first);
    var s := Start<T>(capacity, first);
    hide NewQueue; hide Spacious; hide SumCap; hide Slot; hide BlocksOk; hide Linked; hide BlockOk; hide HoldsStream;
    hide Occupied; hide MiddleFull; hide Chained; hide RingShape;
    var v := StartView(|s.q.blocks|);
    StartRing(s.q, v);
    StartProgress(s.q, v);
    StartSpacious(s.q, v, capacity);
  }

  lemma StartProgress<T>(q: Queue<T>, v: View)
    requires RingShape(|q.blocks|, v) && |q.blocks| >= 1 && v == StartView(|q.blocks|)
    requires forall b :: 0 <= b < |q.blocks| ==> q.blocks[b].size >= 2
    ensures Chained(v, 0, 0) && HoldsStream(q, v, []) && Occupied(v, false) && MiddleFull(q, v)
  {
  }

  lemma StartRing<T>(q: Queue<T>, v: View)
    requires |q.blocks| >= 1 && q.largestBlockSize >= 2 && q.frontBlock == q.tailBlock == 0
    requires forall b :: 0 <= b < |q.blocks| ==>
               q.blocks[b] == MakeBlock<T>(q.largestBlockSize, if b + 1 == |q.blocks| then 0 else b + 1)
    requires v == StartView(|q.blocks|)
    ensures RingShape(|q.blocks|, v) && Linked(q, v) && BlocksOk(q, v)
  {
    hide Slot;
    SlotSmall(0, q.largestBlockSize);
  }

  lemma StartSpacious<T>(q: Queue<T>, v: View, capacity: nat)
    requires RingShape(|q.blocks|, v) && |v.ring| == |q.blocks| && q.largestBlockSize >= 2
    requires forall b :: 0 <= b < |q.blocks| ==> q.blocks[b].size == q.largestBlockSize
    requires if |q.blocks| == 1 then q.largestBlockSize - 1 >= capacity
             else (|q.blocks| - 1) * (q.largestBlockSize - 1) >= capacity
    ensures Spacious(q, v, capacity)
  {
    hide SumCap;
    SumCapUniform(q, v.ring, q.largestBlockSize);
    assert (|q.blocks| - 1) * (q.largestBlockSize - 1) == |q.blocks| * (q.largestBlockSize - 1) - (q.largestBlockSize - 1);
  }

  /** Every reachable state is in the invariant. */
  lemma {:induction false} RunInv<T>(capacity: nat, first: nat, actions: seq<Action<T>>) returns (v: View)
    requires 1 <= capacity < first
    ensures Inv(Run(Start(capacity, first), actions), v, capacity)
    decreases |actions|
  {
    hide Inv;
    if actions == [] {
      StartInv<T>(capacity, first);
      v := StartView(|NewQueue<T>(capacity, first).blocks|);
    } else {
      var before, a := actions[..|actions| - 1], actions[|actions| - 1];
      var v0 := RunInv(capacity, first, before);
      var s := Run(Start(capacity, first), before);
      StepKeepsInv(s, v0, capacity, a);
      v := NextView(s, v0, a);
    }
  }

  // ----- contents -------------------------------------------------------------------------------------------

  /** (tail - front) & sizeMask */
  function Count<T>(b: Block<T>): nat
    requires b.size > 0 && b.front < b.size
  {
    (b.tail + b.size - b.front) % b.size
  }

  /** `n` elements of a block from slot `i` on; stops at a raw slot. */
  function Segment<T>(b: Block<T>, i: nat, n: nat): seq<T>
    requires b.size > 0
    decreases n
  {
    if n == 0 || i !in b.data then [] else [b.data[i]] + Segment(b, Bump(i, b.size), n - 1)
  }

  /** The elements in the blocks from `id` on, following `next` up to the tail block. */
  function ContentsFrom<T>(q: Queue<T>, id: nat, fuel: nat): seq<T>
    decreases fuel
  {
    if fuel == 0 || id >= |q.blocks| || q.blocks[id].size == 0 || q.blocks[id].front >= q.blocks[id].size then []
    else
      var b := q.blocks[id];
      Segment(b, b.front, Count(b)) + if id == q.tailBlock then [] else ContentsFrom(q, b.next, fuel - 1)
  }

  /** The queue's contents as a walk through its blocks finds them. */
  function Contents<T>(q: Queue<T>): seq<T> {
    ContentsFrom(q, q.frontBlock, |q.blocks|)
  }

  lemma CountIs<T>(b: Block<T>, k: Counters)
    requires BlockOk(b, k)
    ensures b.front < b.size && Count(b) == k.wr - k.rd
  {
    var n := b.size;
    assert b.tail == k.wr - n * (k.wr / n) && b.front == k.rd - n * (k.rd / n);
    ModUnique(b.tail + n - b.front, n, k.rd / n - k.wr / n + 1, k.wr - k.rd);
  }

  lemma {:induction false} SegmentIs<T>(b: Block<T>, k: Counters, stream: seq<T>, j: nat)
    requires b.size >= 2 && Holds(b, k, stream) && k.rd <= j <= k.wr
    requires 0 <= k.off + k.rd && k.off + k.wr <= |stream|
    ensures Segment(b, Slot(j, b.size), k.wr - j) == stream[k.off + j..k.off + k.wr]
    decreases k.wr - j
  {
    hide Slot; hide Bump; hide Holds;
    if j < k.wr {
      assert HoldsAt(b, k, stream, j) by { HoldsHere(b, k, stream, j); }
      SlotBump(j, b.size);
      SegmentIs(b, k, stream, j + 1);
      assert stream[k.off + j..k.off + k.wr] == [stream[k.off + j]] + stream[k.off + j + 1..k.off + k.wr];
    }
  }

  lemma HoldsHere<T>(b: Block<T>, k: Counters, stream: seq<T>, j: nat)
    requires Holds(b, k, stream) && k.rd <= j < k.wr
    ensures HoldsAt(b, k, stream, j)
  {
  }

  /** A walk from the live block at `i` finds the rest of the stream. */
  lemma {:induction false} ContentsFromIs<T>(s: State<T>, v: View, capacity: nat, i: nat, fuel: nat)
    requires Inv(s, v, capacity) && i < v.live <= i + fuel
    ensures var k := v.k[v.ring[i]];
            && 0 <= k.off + k.rd <= |s.h.enqueued|
            && ContentsFrom(s.q, v.ring[i], fuel) == s.h.enqueued[k.off + k.rd..]
    decreases fuel
  {
    hide ProducerOk; hide ConsumerOk; hide MiddleFull; hide Spacious; hide SumCap; hide Slot; hide Segment; hide Count;
    hide HoldsStream; hide Occupied; hide BlocksOk; hide Chained; hide Linked;
    var b, k := s.q.blocks[v.ring[i]], v.k[v.ring[i]];
    LiveSegment(s, v, capacity, i);
    ContentsUnfold(s.q, v.ring[i], fuel);
    hide ContentsFrom;
    Neighbours(s.q, v, |s.h.enqueued|, |s.h.dequeued|, i);
    var from, to := k.off + k.rd, k.off + k.wr;
    assert [] == s.h.enqueued[|s.h.enqueued|..];
    Cut(s.h.enqueued, from, to);
    if i < v.live - 1 {
      ContentsFromIs(s, v, capacity, i + 1, fuel - 1);
    }
  }

  lemma ContentsUnfold<T>(q: Queue<T>, id: nat, fuel: nat)
    requires fuel > 0 && id < |q.blocks| && q.blocks[id].size > 0 && q.blocks[id].front < q.blocks[id].size
    ensures var b := q.blocks[id];
            ContentsFrom(q, id, fuel) ==
            Segment(b, b.front, Count(b)) + if id == q.tailBlock then [] else ContentsFrom(q, b.next, fuel - 1)
  {
  }

  lemma Cut<T>(s: seq<T>, i: nat, j: nat)
    requires i <= j <= |s|
    ensures s[i..] == s[i..j] + s[j..]
  {
  }

  /** The walk through one live block finds its stretch of the stream. */
  lemma LiveSegment<T>(s: State<T>, v: View, capacity: nat, i: nat)
    requires Inv(s, v, capacity) && i < v.live
    ensures var b, k := s.q.blocks[v.ring[i]], v.k[v.ring[i]];
            && b.size > 0 && b.front < b.size
            && 0 <= k.off + k.rd <= k.off + k.wr <= |s.h.enqueued|
            && Segment(b, b.front, Count(b)) == s.h.enqueued[k.off + k.rd..k.off + k.wr]
  {
    hide ProducerOk; hide ConsumerOk; hide MiddleFull; hide Spacious; hide SumCap; hide Slot; hide Segment; hide Count;
    hide Holds; hide Occupied; hide Linked; hide Chained; hide BlocksOk;
    var b, k := s.q.blocks[v.ring[i]], v.k[v.ring[i]];
    BlockOkAt(s.q, v, v.ring[i]);
    CountIs(b, k);
    assert Holds(s.q.blocks[v.ring[i]], v.k[v.ring[i]], s.h.enqueued);
    ChainOrder(v, |s.h.enqueued|, |s.h.dequeued|, i, s.q);
    SegmentIs(b, k, s.h.enqueued, k.rd);
  }

  lemma Neighbours<T>(q: Queue<T>, v: View, put: int, got: int, i: nat)
    requires RingShape(|q.blocks|, v) && Linked(q, v) && Chained(v, put, got) && i < v.live
    ensures q.tailBlock == v.ring[i] <==> i == v.live - 1
    ensures i == v.live - 1 ==> v.k[v.ring[i]].off + v.k[v.ring[i]].wr == put
    ensures i < v.live - 1 ==>
              && q.blocks[v.ring[i]].next == v.ring[i + 1]
              && v.k[v.ring[i]].off + v.k[v.ring[i]].wr == v.k[v.ring[i + 1]].off + v.k[v.ring[i + 1]].rd
  {
    assert q.blocks[v.ring[i]].next == v.ring[Succ(i, |v.ring|)];
  }

  /** Stream positions of the live blocks lie between what is dequeued and what is enqueued. */
  lemma {:induction false} ChainOrder<T>(v: View, put: int, got: int, i: nat, q: Queue<T>)
    requires RingShape(|v.k|, v) && Chained(v, put, got) && BlocksOk(q, v) && i < v.live && 0 <= got
    ensures var k := v.k[v.ring[i]]; 0 <= k.off + k.rd <= k.off + k.wr <= put
    decreases v.live - i
  {
    hide Slot;
    BlockOkAt(q, v, v.ring[i]);
    ChainUp(v, put, got, i, q);
    if i < v.live - 1 {
      ChainOrder(v, put, got, i + 1, q);
    }
  }

  lemma {:induction false} ChainUp<T>(v: View, put: int, got: int, i: nat, q: Queue<T>)
    requires RingShape(|v.k|, v) && Chained(v, put, got) && BlocksOk(q, v) && i < v.live && 0 <= got
    ensures 0 <= v.k[v.ring[i]].off + v.k[v.ring[i]].rd
    decreases i
  {
    hide Slot;
    if i > 0 {
      ChainUp(v, put, got, i - 1, q);
      BlockOkAt(q, v, v.ring[i - 1]);
      assert v.k[v.ring[i - 1]].off + v.k[v.ring[i - 1]].wr == v.k[v.ring[i]].off + v.k[v.ring[i]].rd;
    }
  }

  // ----- the theorems -----------------------------------------------------------------------------------------

  /** In every reachable state the queue is a FIFO: what was dequeued is a prefix of what was
      enqueued, the rest is exactly what the blocks hold from front to tail, no assertion has
      failed, and the next access of each thread is through a valid pointer to a constructed slot. */
  lemma Fifo<T>(capacity: nat, first: nat, actions: seq<Action<T>>)
    requires 1 <= capacity < first
    ensures var s := Run(Start(capacity, first), actions);
            && s.h.dequeued <= s.h.enqueued
            && Contents(s.q) == s.h.enqueued[|s.h.dequeued|..]
            && !s.broken && Safe(s)
  {
    var v := RunInv(capacity, first, actions);
    var s := Run(Start(capacity, first), actions);
    hide Run;
    InvIsSafe(s, v, capacity);
    hide ProducerOk; hide ConsumerOk; hide MiddleFull; hide Spacious; hide SumCap; hide Slot; hide HoldsStream; hide Occupied;
    hide BlocksOk; hide Safe;
    RingFits(|s.q.blocks|, v);
    ContentsFromIs(s, v, capacity, 0, |s.q.blocks|);
  }

  /** Distinct block numbers below `n`: at most `n` of them. */
  lemma RingFits(n: nat, v: View)
    requires RingShape(n, v)
    ensures |v.ring| <= n
  {
    DistinctBound(v.ring, n);
  }

  lemma {:induction false} DistinctBound(ids: seq<nat>, n: nat)
    requires forall i :: 0 <= i < |ids| ==> ids[i] < n
    requires forall i, j :: 0 <= i < j < |ids| ==> ids[i] != ids[j]
    ensures |ids| <= n
    decreases n
  {
    if |ids| > 0 {
      assert ids[0] < n;
      if k :| 0 <= k < |ids| && ids[k] == n - 1 {
        var rest := ids[..k] + ids[k + 1..];
        assert forall i :: 0 <= i < |rest| ==> rest[i] == ids[if i < k then i else i + 1];
        DistinctBound(rest, n - 1);
      } else {
        DistinctBound(ids, n - 1);
      }
    }
  }

  /** A dequeue that reports an empty queue: it was empty at some moment of that call. */
  lemma EmptyWasEmpty<T>(capacity: nat, first: nat, actions: seq<Action<T>>)
    requires 1 <= capacity < first
    ensures var s := Run(Start(capacity, first), actions);
            s.c.ConsumerIdle? && s.h.dequeueResult == Empty ==> s.h.sawEmpty
  {
    var v := RunInv(capacity, first, actions);
    hide Run; hide ProducerOk;
  }

  /** A refused try_enqueue: at some moment of that call at least `capacity` elements were queued. */
  lemma RefusedWasFull<T>(capacity: nat, first: nat, actions: seq<Action<T>>)
    requires 1 <= capacity < first
    ensures var s := Run(Start(capacity, first), actions);
            s.p.ProducerIdle? && s.h.enqueueResult == Refused ==> s.h.peak >= capacity
  {
    var v := RunInv(capacity, first, actions);
    hide Run; hide ConsumerOk;
  }

  /** The constructor's first block, or its blocks together, leave a slot more than `size`. */
  lemma BuiltHasRoom(size: nat)
    requires size < PowerOfTwo.TWO63
    ensures size < PowerOfTwo.CeilToPow2(size + 1)
  {
    PowerOfTwo.CeilIsLeast(size + 1);
  }

  /** The queue as it is built, for every size from 1 that ceilToPow2 can round: all of the above. */
  lemma BuiltQueue<T>(size: nat, actions: seq<Action<T>>)
    requires 1 <= size < PowerOfTwo.TWO63
    ensures var s := Run(Built(size), actions);
            && s.h.dequeued <= s.h.enqueued
            && Contents(s.q) == s.h.enqueued[|s.h.dequeued|..]
            && !s.broken && Safe(s)
            && (s.c.ConsumerIdle? && s.h.dequeueResult == Empty ==> s.h.sawEmpty)
            && (s.p.ProducerIdle? && s.h.enqueueResult == Refused ==> s.h.peak >= size)
            && (s.p.ProducerIdle? ==> SizeApprox(s.q) == Queued(s.h))
  {
    hide Run, Start, Safe, Contents, SizeApprox;
    var first := PowerOfTwo.CeilToPow2(size + 1);
    BuiltHasRoom(size);
    Fifo(size, first, actions);
    EmptyWasEmpty(size, first, actions);
    RefusedWasFull(size, first, actions);
    SizeAtRest(size, first, actions);
  }

  /** Every element is taken once, from its own slot, and no slot is written while an element that
      was not taken yet is in it. */
  lemma SlotsUsedOnce<T>(capacity: nat, first: nat, actions: seq<Action<T>>)
    requires 1 <= capacity < first
    ensures var s := Run(Start(capacity, first), actions);
            && (s.c.TakeElement? ==>
                  s.c.fb == s.q.frontBlock < |s.q.blocks| && s.c.bf == s.q.blocks[s.c.fb].front && s.c.bf in s.q.blocks[s.c.fb].data
                  && |s.h.dequeued| < |s.h.enqueued| && s.q.blocks[s.c.fb].data[s.c.bf] == s.h.enqueued[|s.h.dequeued|])
            && (s.p.Construct? ==> s.p.tb < |s.q.blocks| && Unused(s.q.blocks[s.p.tb], s.p.bt))
            && (s.p.ConstructNext? ==> s.p.nb < |s.q.blocks| && Unused(s.q.blocks[s.p.nb], s.p.bt))
  {
    hide Run, Inv, Unused;
    var v := RunInv(capacity, first, actions);
    var s := Run(Start(capacity, first), actions);
    TakesNext(s, v, capacity);
    WritesUnused(s, v, capacity);
  }

  lemma TakesNext<T>(s: State<T>, v: View, capacity: nat)
    requires Inv(s, v, capacity)
    ensures s.c.TakeElement? ==>
              s.c.fb == s.q.frontBlock < |s.q.blocks| && s.c.bf == s.q.blocks[s.c.fb].front && s.c.bf in s.q.blocks[s.c.fb].data
              && |s.h.dequeued| < |s.h.enqueued| && s.q.blocks[s.c.fb].data[s.c.bf] == s.h.enqueued[|s.h.dequeued|]
  {
    hide ProducerOk, MiddleFull, Spacious, SumCap, HoldsStream, Occupied, Chained, BlocksOk;
    if s.c.TakeElement? {
      NextElement(s, v, capacity);
    }
  }

  lemma WritesUnused<T>(s: State<T>, v: View, capacity: nat)
    requires Inv(s, v, capacity)
    ensures s.p.Construct? ==> s.p.tb < |s.q.blocks| && Unused(s.q.blocks[s.p.tb], s.p.bt)
    ensures s.p.ConstructNext? ==> s.p.nb < |s.q.blocks| && Unused(s.q.blocks[s.p.nb], s.p.bt)
  {
    hide ConsumerOk, MiddleFull, Spacious, SumCap, HoldsStream, Occupied, Chained, BlocksOk, Unused, Linked;
    if s.p.Construct? {
      BlockOkAt(s.q, v, s.p.tb);
      TailIsUnused(s.q.blocks[s.p.tb], v.k[s.p.tb]);
    }
    if s.p.ConstructNext? {
      BlockOkAt(s.q, v, s.p.nb);
      TailIsUnused(s.q.blocks[s.p.nb], v.k[s.p.nb]);
    }
  }

  /** None of the block's elements, from front to tail, is in the slot. */
  ghost predicate Unused<T>(b: Block<T>, slot: nat) {
    b.size > 0 && b.front < b.size && forall j :: b.front <= j < b.front + Count(b) ==> Slot(j, b.size) != slot
  }

  lemma TailIsUnused<T>(b: Block<T>, k: Counters)
    requires BlockOk(b, k)
    ensures Unused(b, b.tail)
  {
    CountIs(b, k);
    var n, end := b.size, b.front + (k.wr - k.rd);
    assert b.front == k.rd - n * (k.rd / n) && b.tail == k.wr - n * (k.wr / n);
    ModUnique(end, n, k.wr / n - k.rd / n, b.tail);
    hide Count, BlockOk;
    forall j | b.front <= j < end ensures Slot(j, n) != b.tail {
      ModClose(j, end, n);
    }
  }

  // ----- size_approx ------------------------------------------------------------------------------------------------

  /** The rest of the loop of size_approx, from block `id` until the circle is closed. */
  function SizeFrom<T>(q: Queue<T>, id: nat, fuel: nat): nat
    decreases fuel
  {
    if fuel == 0 || id >= |q.blocks| || q.blocks[id].size == 0 || q.blocks[id].front >= q.blocks[id].size then 0
    else
      var b := q.blocks[id];
      Count(b) + if b.next == q.frontBlock then 0 else SizeFrom(q, b.next, fuel - 1)
  }

  function SizeApprox<T>(q: Queue<T>): nat {
    SizeFrom(q, q.frontBlock, |q.blocks|)
  }

  lemma {:induction false} SizeFromIs<T>(s: State<T>, v: View, capacity: nat, i: nat, fuel: nat)
    requires Inv(s, v, capacity) && s.p.ProducerIdle? && i < |v.ring| <= i + fuel
    ensures SizeFrom(s.q, v.ring[i], fuel) ==
            if i < v.live then |s.h.enqueued| - (v.k[v.ring[i]].off + v.k[v.ring[i]].rd) else 0
    decreases fuel
  {
    hide ProducerOk; hide ConsumerOk; hide MiddleFull; hide Spacious; hide SumCap; hide Slot; hide Count; hide HoldsStream;
    hide BlocksOk; hide Chained; hide Linked;
    var b, k := s.q.blocks[v.ring[i]], v.k[v.ring[i]];
    BlockOkAt(s.q, v, v.ring[i]);
    CountIs(b, k);
    SizeUnfold(s.q, v.ring[i], fuel);
    hide SizeFrom; hide BlockOk;
    RingNeighbours(s.q, v, i);
    if i < v.live {
      Neighbours(s.q, v, |s.h.enqueued|, |s.h.dequeued|, i);
    }
    if i + 1 < |v.ring| {
      SizeFromIs(s, v, capacity, i + 1, fuel - 1);
    }
  }

  lemma SizeUnfold<T>(q: Queue<T>, id: nat, fuel: nat)
    requires fuel > 0 && id < |q.blocks| && q.blocks[id].size > 0 && q.blocks[id].front < q.blocks[id].size
    ensures var b := q.blocks[id];
            SizeFrom(q, id, fuel) == Count(b) + if b.next == q.frontBlock then 0 else SizeFrom(q, b.next, fuel - 1)
  {
  }

  lemma RingNeighbours<T>(q: Queue<T>, v: View, i: nat)
    requires RingShape(|q.blocks|, v) && Linked(q, v) && i < |v.ring|
    ensures q.blocks[v.ring[i]].next == q.frontBlock <==> i + 1 == |v.ring|
    ensures i + 1 < |v.ring| ==> q.blocks[v.ring[i]].next == v.ring[i + 1]
  {
    assert q.blocks[v.ring[i]].next == v.ring[Succ(i, |v.ring|)];
  }

  /** With the producer at rest, size_approx is the number of queued elements. */
  lemma SizeIsQueued<T>(s: State<T>, v: View, capacity: nat)
    requires Inv(s, v, capacity) && s.p.ProducerIdle?
    ensures SizeApprox(s.q) == Queued(s.h)
  {
    hide ProducerOk; hide ConsumerOk; hide MiddleFull; hide Spacious; hide SumCap; hide HoldsStream; hide BlocksOk; hide Occupied;
    RingFits(|s.q.blocks|, v);
    SizeFromIs(s, v, capacity, 0, |s.q.blocks|);
  }

  /** The same in every reachable state. */
  lemma SizeAtRest<T>(capacity: nat, first: nat, actions: seq<Action<T>>)
    requires 1 <= capacity < first
    ensures var s := Run(Start(capacity, first), actions); s.p.ProducerIdle? ==> SizeApprox(s.q) == Queued(s.h)
  {
    hide Inv, SizeApprox;
    var v := RunInv(capacity, first, actions);
    var s := Run(Start(capacity, first), actions);
    if s.p.ProducerIdle? {
      SizeIsQueued(s, v, capacity);
    }
  }
}
