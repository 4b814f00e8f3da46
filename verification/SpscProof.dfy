/**
 The invariant of the queue, kept by every step of either thread, and what follows from it.
 */
module SpscProof {
  import opened SpscQueue

  // ----- what the proof knows about a state -----------------------------------------------------------

  /** Unbounded counterparts of a block's indices: elements read and written so far, the shadow
      copies, and `off`, by which the block's index i stands for element off + i of the stream. */
  datatype Counters = Counters(rd: nat, wr: nat, lt: nat, lf: nat, off: int)

  /** The circle of blocks from the front block on, of which the first `live` lead to the tail block. */
  datatype View = View(ring: seq<nat>, live: nat, k: seq<Counters>)

  function Succ(i: nat, n: nat): nat {
    if i + 1 == n then 0 else i + 1
  }

  ghost predicate RingShape(n: nat, v: View) {
    && |v.k| == n
    && 1 <= v.live <= |v.ring|
    && (forall i :: 0 <= i < |v.ring| ==> v.ring[i] < n)
    && (forall i, j :: 0 <= i < j < |v.ring| ==> v.ring[i] != v.ring[j])
  }

  ghost predicate Linked<T>(q: Queue<T>, v: View)
    requires RingShape(|q.blocks|, v)
  {
    && q.frontBlock == v.ring[0] && q.tailBlock == v.ring[v.live - 1]
    && forall i {:trigger q.blocks[v.ring[i]].next} :: 0 <= i < |v.ring| ==>
         q.blocks[v.ring[i]].next == v.ring[Succ(i, |v.ring|)]
  }

  /** Where element `j` of a block is stored. */
  function Slot(j: nat, size: nat): nat
    requires size > 0
  {
    j % size
  }

  ghost predicate BlockOk<T>(b: Block<T>, k: Counters) {
    && b.size >= 2
    && k.rd <= k.lt <= k.wr && k.lf <= k.rd && k.wr <= k.lf + b.size - 1
    && b.front == Slot(k.rd, b.size) && b.tail == Slot(k.wr, b.size)
    && b.localTail == Slot(k.lt, b.size) && b.localFront == Slot(k.lf, b.size)
  }

  ghost predicate BlocksOk<T>(q: Queue<T>, v: View) {
    |v.k| == |q.blocks| && forall b :: 0 <= b < |v.k| ==> BlockOk(q.blocks[b], v.k[b])
  }

  /** The live blocks hold consecutive stretches of the stream, from the next element to dequeue
      to the last one enqueued. */
  ghost predicate Chained(v: View, put: int, got: int)
    requires RingShape(|v.k|, v)
  {
    && v.k[v.ring[0]].off + v.k[v.ring[0]].rd == got
    && v.k[v.ring[v.live - 1]].off + v.k[v.ring[v.live - 1]].wr == put
    && forall i, j :: 0 <= i && j == i + 1 && j < v.live ==>
         v.k[v.ring[i]].off + v.k[v.ring[i]].wr == v.k[v.ring[j]].off + v.k[v.ring[j]].rd
  }

  /** Element `j` of the block is element off + j of the stream. */
  ghost predicate HoldsAt<T>(b: Block<T>, k: Counters, stream: seq<T>, j: nat)
    requires b.size > 0
  {
    && Slot(j, b.size) in b.data
    && 0 <= k.off + j < |stream|
    && b.data[Slot(j, b.size)] == stream[k.off + j]
  }

  ghost predicate Holds<T>(b: Block<T>, k: Counters, stream: seq<T>) {
    b.size > 0 && forall j :: k.rd <= j < k.wr ==> HoldsAt(b, k, stream, j)
  }

  ghost predicate HoldsStream<T>(q: Queue<T>, v: View, stream: seq<T>)
    requires RingShape(|q.blocks|, v)
  {
    forall i :: 0 <= i < v.live ==> Holds(q.blocks[v.ring[i]], v.k[v.ring[i]], stream)
  }

  /** Live blocks behind the front one are not empty; the others are, but for the one the producer
      has just written and not yet made the tail block. */
  ghost predicate Occupied(v: View, pending: bool)
    requires RingShape(|v.k|, v)
  {
    && (forall i :: 1 <= i < v.live ==> v.k[v.ring[i]].rd < v.k[v.ring[i]].wr)
    && (forall i :: v.live <= i < |v.ring| ==>
          v.k[v.ring[i]].wr == v.k[v.ring[i]].rd + if pending && i == v.live then 1 else 0)
    && (pending ==> v.live < |v.ring|)
  }

  ghost predicate Full<T>(b: Block<T>, k: Counters) {
    k.wr == k.rd + b.size - 1
  }

  /** Live blocks strictly between the front and the tail block are full. */
  ghost predicate MiddleFull<T>(q: Queue<T>, v: View)
    requires RingShape(|q.blocks|, v)
  {
    forall i :: 1 <= i < v.live - 1 ==> Full(q.blocks[v.ring[i]], v.k[v.ring[i]])
  }

  /** The tail block was seen full; it still is, unless the consumer has reached it. */
  ghost predicate TailSeenFull<T>(q: Queue<T>, v: View, peak: int)
    requires RingShape(|q.blocks|, v)
  {
    var t := v.ring[v.live - 1];
    && (v.live >= 2 ==> Full(q.blocks[t], v.k[t]))
    && (|v.ring| == 1 ==> peak >= q.blocks[t].size - 1)
  }

  ghost predicate ProducerOk<T>(q: Queue<T>, v: View, p: Producer<T>, peak: int)
    requires RingShape(|q.blocks|, v)
  {
    var t := v.ring[v.live - 1];
    var k := v.k[t];
    match p
    case ProducerIdle => true
    case LoadTailBlock(_, _) => true
    case LoadTail(_, _, tb) => tb == t
    case LoadFront(_, _, tb, bt) => tb == t && bt == q.blocks[t].tail
    case Construct(_, tb, bt) => tb == t && bt == q.blocks[t].tail && k.wr + 1 <= k.lf + q.blocks[t].size - 1
    case StoreTail(x, tb, bt) =>
      && tb == t && bt == q.blocks[t].tail && k.wr + 1 <= k.lf + q.blocks[t].size - 1
      && bt in q.blocks[t].data && q.blocks[t].data[bt] == x
    case LoadNext(_, _, tb) => tb == t && TailSeenFull(q, v, peak)
    case LoadFrontBlock(_, _, tb, nb) => tb == t && TailSeenFull(q, v, peak) && nb == q.blocks[t].next
    case ReloadNext(_, tb) => tb == t && TailSeenFull(q, v, peak) && v.live < |v.ring|
    case LoadNextFront(_, nb) => TailSeenFull(q, v, peak) && v.live < |v.ring| && nb == v.ring[v.live]
    case LoadNextTail(_, nb, nf) =>
      && TailSeenFull(q, v, peak) && v.live < |v.ring| && nb == v.ring[v.live]
      && nf == q.blocks[nb].front && v.k[nb].lf == v.k[nb].rd
    case ConstructNext(_, nb, bt) =>
      && TailSeenFull(q, v, peak) && v.live < |v.ring| && nb == v.ring[v.live]
      && bt == q.blocks[nb].tail && v.k[nb].lf == v.k[nb].rd
    case StoreNextTail(x, nb, bt) =>
      && TailSeenFull(q, v, peak) && v.live < |v.ring| && nb == v.ring[v.live]
      && bt == q.blocks[nb].tail && v.k[nb].lf == v.k[nb].rd
      && bt in q.blocks[nb].data && q.blocks[nb].data[bt] == x
    case Allocate(_, tb) => tb == t && TailSeenFull(q, v, peak)
    case StoreNext(x, tb, nb) =>
      && tb == t && TailSeenFull(q, v, peak) && nb < |q.blocks| && nb !in v.ring
      && q.blocks[nb].next == q.blocks[t].next
      && v.k[nb].rd == 0 && v.k[nb].wr == 1
      && 0 in q.blocks[nb].data && q.blocks[nb].data[0] == x
      && forall i :: 0 <= i < |v.ring| ==> q.blocks[v.ring[i]].size <= q.blocks[nb].size
    case StoreTailBlock(x, nb) =>
      && TailSeenFull(q, v, peak) && v.live < |v.ring| && nb == v.ring[v.live] && q.blocks[nb].size > 0
      && var slot := Slot(v.k[nb].rd, q.blocks[nb].size);
         slot in q.blocks[nb].data && q.blocks[nb].data[slot] == x
  }

  ghost predicate ConsumerOk<T>(q: Queue<T>, v: View, c: Consumer<T>, h: History<T>)
    requires RingShape(|q.blocks|, v)
  {
    var f := v.ring[0];
    var k := v.k[f];
    match c
    case ConsumerIdle => h.dequeueResult == Empty ==> h.sawEmpty
    case ReadFrontBlock => true
    case ReadFront(fb) => fb == f
    case ReadTail(fb, bf) => fb == f && bf == q.blocks[f].front
    case ReadTailBlock(fb) => fb == f && (h.sawEmpty || v.live >= 2)
    case RereadFrontBlock => v.live >= 2
    case RereadTail(fb) => fb == f && v.live >= 2
    case RereadFront(fb, bt) => fb == f && v.live >= 2 && bt == q.blocks[f].tail && k.lt == k.wr
    case ReadNext(fb) => fb == f && v.live >= 2 && k.rd == k.wr
    case ReadNextFront(nb) => v.live >= 2 && k.rd == k.wr && nb == v.ring[1]
    case ReadNextTail(nb, bf) => v.live >= 2 && k.rd == k.wr && nb == v.ring[1] && bf == q.blocks[nb].front
    case StoreFrontBlock(nb, bf) =>
      && v.live >= 2 && k.rd == k.wr && nb == v.ring[1] && bf == q.blocks[nb].front
      && v.k[nb].rd < v.k[nb].lt
    case TakeElement(fb, bf) => fb == f && bf == q.blocks[f].front && k.rd < k.lt
    case StoreFront(fb, bf, got) =>
      && fb == f && bf == q.blocks[f].front && k.rd < k.lt
      && |h.dequeued| < |h.enqueued| && got == h.enqueued[|h.dequeued|]
  }

  function SumCap<T>(q: Queue<T>, ids: seq<nat>): int
    requires forall i :: 0 <= i < |ids| ==> ids[i] < |q.blocks|
    decreases |ids|
  {
    if ids == [] then 0 else SumCap(q, ids[..|ids| - 1]) + q.blocks[ids[|ids| - 1]].size - 1
  }

  /** Without any one block, the others still hold `capacity` elements. */
  ghost predicate Spacious<T>(q: Queue<T>, v: View, capacity: nat)
    requires RingShape(|q.blocks|, v)
  {
    && (forall b :: 0 <= b < |q.blocks| ==> q.blocks[b].size <= q.largestBlockSize)
    && (if |v.ring| == 1 then q.blocks[v.ring[0]].size - 1 >= capacity
        else forall i :: 0 <= i < |v.ring| ==> SumCap(q, v.ring) - (q.blocks[v.ring[i]].size - 1) >= capacity)
  }

  ghost predicate Inv<T>(s: State<T>, v: View, capacity: nat) {
    && !s.broken
    && RingShape(|s.q.blocks|, v)
    && Linked(s.q, v)
    && BlocksOk(s.q, v)
    && s.h.dequeued <= s.h.enqueued
    && Chained(v, |s.h.enqueued|, |s.h.dequeued|)
    && HoldsStream(s.q, v, s.h.enqueued)
    && Occupied(v, s.p.StoreTailBlock?)
    && MiddleFull(s.q, v)
    && ProducerOk(s.q, v, s.p, s.h.peak)
    && ConsumerOk(s.q, v, s.c, s.h)
    && Spacious(s.q, v, capacity)
    && (s.p.ProducerIdle? && s.h.enqueueResult == Refused ==> s.h.peak >= capacity)
  }

  // ----- arithmetic of circular indices ------------------------------------------------------------------

  lemma ModUnique(x: int, n: nat, q: int, r: nat)
    requires x == n * q + r && r < n
    ensures x % n == r
  {
    var d := q - x / n;
    assert n * d == n * q - n * (x / n) == x % n - r;
    Multiple(n, d);
  }

  lemma Multiple(n: nat, d: int)
    ensures d >= 1 ==> n * d >= n
    ensures d <= -1 ==> n * d <= 0 - n
  {
  }

  lemma ModClose(a: nat, b: nat, n: nat)
    requires a <= b < a + n
    ensures a % n == b % n <==> a == b
  {
    if a % n == b % n {
      var d := b / n - a / n;
      assert b - a == n * (b / n) - n * (a / n) == n * d;
      Multiple(n, d);
    }
  }

  lemma BumpIs(a: nat, n: nat)
    requires n >= 2
    ensures Bump(a % n, n) == (a + 1) % n
  {
    if a % n + 1 == n {
      assert a + 1 == n * (a / n + 1);
      ModUnique(a + 1, n, a / n + 1, 0);
      ModUnique(n, n, 1, 0);
    } else {
      ModUnique(a + 1, n, a / n, a % n + 1);
      ModUnique(a % n + 1, n, 0, a % n + 1);
    }
  }

  lemma SlotBump(a: nat, n: nat)
    requires n >= 2
    ensures Bump(Slot(a, n), n) == Slot(a + 1, n)
  {
    BumpIs(a, n);
  }

  // ----- steps that change no shared variable -----------------------------------------------------------

  lemma ProducerOkMono<T>(q: Queue<T>, v: View, p: Producer<T>, peak: int, peak': int)
    requires RingShape(|q.blocks|, v) && ProducerOk(q, v, p, peak) && peak <= peak'
    ensures ProducerOk(q, v, p, peak')
  {
  }

  lemma ConsumerOkMono<T>(q: Queue<T>, v: View, c: Consumer<T>, h: History<T>, h': History<T>)
    requires RingShape(|q.blocks|, v) && ConsumerOk(q, v, c, h)
    requires h'.dequeued == h.dequeued && h.enqueued <= h'.enqueued
    requires h'.dequeueResult == h.dequeueResult && (h.sawEmpty ==> h'.sawEmpty)
    ensures ConsumerOk(q, v, c, h')
  {
  }

  /** Only the producer's own state changes. */
  lemma ProducerLocal<T>(s: State<T>, s': State<T>, v: View, capacity: nat)
    requires Inv(s, v, capacity)
    requires s'.q == s.q && s'.c == s.c && !s'.broken && !s.p.StoreTailBlock? && !s'.p.StoreTailBlock?
    requires s'.h.enqueued == s.h.enqueued && s'.h.dequeued == s.h.dequeued
    requires s'.h.dequeueResult == s.h.dequeueResult && (s.h.sawEmpty ==> s'.h.sawEmpty)
    requires ProducerOk(s'.q, v, s'.p, s'.h.peak)
    requires s'.p.ProducerIdle? && s'.h.enqueueResult == Refused ==> s'.h.peak >= capacity
    ensures Inv(s', v, capacity)
  {
    hide ProducerOk; hide ConsumerOk; hide Linked; hide BlocksOk; hide Chained; hide HoldsStream; hide Occupied;
    hide MiddleFull; hide Spacious; hide RingShape;
    ConsumerOkMono(s.q, v, s.c, s.h, s'.h);
  }

  /** Only the consumer's own state changes. */
  lemma ConsumerLocal<T>(s: State<T>, s': State<T>, v: View, capacity: nat)
    requires Inv(s, v, capacity)
    requires s'.q == s.q && s'.p == s.p && !s'.broken
    requires s'.h.enqueued == s.h.enqueued && s'.h.dequeued == s.h.dequeued
    requires s'.h.enqueueResult == s.h.enqueueResult && s.h.peak <= s'.h.peak
    requires ConsumerOk(s'.q, v, s'.c, s'.h)
    ensures Inv(s', v, capacity)
  {
    hide ProducerOk; hide ConsumerOk; hide Linked; hide BlocksOk; hide Chained; hide HoldsStream; hide Occupied;
    hide MiddleFull; hide Spacious; hide RingShape;
    ProducerOkMono(s.q, v, s.p, s.h.peak, s'.h.peak);
  }

  lemma InvIsSafe<T>(s: State<T>, v: View, capacity: nat)
    requires Inv(s, v, capacity)
    ensures Safe(s)
  {
    hide Chained; hide Occupied; hide MiddleFull; hide Spacious; hide Linked;
    forall b | 0 <= b < |s.q.blocks| ensures s.q.blocks[b].size > 0 {
      assert BlockOk(s.q.blocks[b], v.k[b]);
    }
    if s.c.TakeElement? {
      var f := v.ring[0];
      assert Holds(s.q.blocks[f], v.k[f], s.h.enqueued);
      assert BlockOk(s.q.blocks[f], v.k[f]);
      assert v.k[f].rd < v.k[f].wr;
      assert HoldsAt(s.q.blocks[f], v.k[f], s.h.enqueued, v.k[f].rd);
    }
  }

  // ----- reading indices -----------------------------------------------------------------------------------

  lemma WrapEq(a: nat, b: nat, n: nat)
    requires a < b <= a + n && n >= 2
    ensures b % n == a % n <==> b == a + n
  {
    if b == a + n {
      ModUnique(b, n, a / n + 1, a % n);
    } else {
      ModClose(a, b, n);
    }
  }

  /** The producer's test for a full block, against the shadow copy and against the real index. */
  lemma FullTest<T>(b: Block<T>, k: Counters)
    requires BlockOk(b, k)
    ensures Bump(b.tail, b.size) == b.localFront <==> k.wr + 1 == k.lf + b.size
    ensures Bump(b.tail, b.size) == b.front <==> k.wr + 1 == k.rd + b.size
    ensures k.wr + 1 <= k.lf + b.size
  {
    BumpIs(k.wr, b.size);
    WrapEq(k.lf, k.wr + 1, b.size);
    WrapEq(k.rd, k.wr + 1, b.size);
  }

  /** The consumer's test for an empty block, likewise. */
  lemma EmptyTest<T>(b: Block<T>, k: Counters)
    requires BlockOk(b, k)
    ensures b.front == b.localTail <==> k.rd == k.lt
    ensures b.front == b.tail <==> k.rd == k.wr
  {
    ModClose(k.rd, k.lt, b.size);
    ModClose(k.rd, k.wr, b.size);
  }

  lemma NextOfTail<T>(q: Queue<T>, v: View)
    requires RingShape(|q.blocks|, v) && Linked(q, v)
    ensures q.blocks[v.ring[v.live - 1]].next == q.frontBlock <==> v.live == |v.ring|
    ensures v.live < |v.ring| ==> q.blocks[v.ring[v.live - 1]].next == v.ring[v.live]
  {
  }

  // ----- capacity at a refusal --------------------------------------------------------------------------------

  lemma {:induction false} SumCapCons<T>(q: Queue<T>, x: nat, ids: seq<nat>)
    requires x < |q.blocks| && forall i :: 0 <= i < |ids| ==> ids[i] < |q.blocks|
    ensures SumCap(q, [x] + ids) == q.blocks[x].size - 1 + SumCap(q, ids)
    decreases |ids|
  {
    if ids == [] {
      assert ([x] + ids)[..0] == [];
    } else {
      var m := |ids| - 1;
      assert ([x] + ids)[..|ids|] == [x] + ids[..m];
      SumCapCons(q, x, ids[..m]);
    }
  }

  /** The full live blocks from the second to the one at `j` hold their capacity in elements. */
  lemma {:induction false} FullStretch<T>(q: Queue<T>, v: View, put: int, got: int, j: nat)
    requires RingShape(|q.blocks|, v) && Chained(v, put, got)
    requires 1 <= j < v.live
    requires forall i :: 1 <= i <= j ==> Full(q.blocks[v.ring[i]], v.k[v.ring[i]])
    ensures v.k[v.ring[j]].off + v.k[v.ring[j]].wr - (v.k[v.ring[1]].off + v.k[v.ring[1]].rd) == SumCap(q, v.ring[1..j + 1])
    decreases j
  {
    var ids := v.ring[1..j + 1];
    assert ids[|ids| - 1] == v.ring[j];
    assert ids[..|ids| - 1] == v.ring[1..j];
    assert Full(q.blocks[v.ring[j]], v.k[v.ring[j]]);
    if j > 1 {
      FullStretch(q, v, put, got, j - 1);
      assert v.k[v.ring[j - 1]].off + v.k[v.ring[j - 1]].wr == v.k[v.ring[j]].off + v.k[v.ring[j]].rd;
    }
  }

  /** When no block is free and the tail block was seen full, `capacity` elements are queued now or
      were when it was seen. */
  lemma RefusalMeansFull<T>(q: Queue<T>, v: View, put: int, got: int, peak: int, capacity: nat)
    requires RingShape(|q.blocks|, v) && BlocksOk(q, v) && Chained(v, put, got)
    requires MiddleFull(q, v) && TailSeenFull(q, v, peak) && Spacious(q, v, capacity)
    requires v.live == |v.ring|
    ensures put - got >= capacity || peak >= capacity
  {
    if v.live >= 2 {
      FullStretch(q, v, put, got, v.live - 1);
      assert v.ring == [v.ring[0]] + v.ring[1..v.live];
      SumCapCons(q, v.ring[0], v.ring[1..v.live]);
      assert BlockOk(q.blocks[v.ring[0]], v.k[v.ring[0]]);
      assert v.k[v.ring[0]].off + v.k[v.ring[0]].wr == v.k[v.ring[1]].off + v.k[v.ring[1]].rd;
    }
  }

  // ----- producer steps that only read -------------------------------------------------------------------------

  predicate ProducerOnlyReads<T>(p: Producer<T>, mallocFails: bool) {
    || p.ProducerIdle? || p.LoadTailBlock? || p.LoadTail? || p.LoadNext? || p.LoadFrontBlock?
    || p.ReloadNext? || p.LoadNextTail? || (p.Allocate? && mallocFails)
  }

  /** `t` is `u` after observing a moment of the producer's call. */
  ghost predicate Observed<T>(u: State<T>, t: State<T>) {
    && t.q == u.q && t.p == u.p && t.c == u.c && t.broken == u.broken
    && t.h.enqueued == u.h.enqueued && t.h.dequeued == u.h.dequeued
    && t.h.enqueueResult == u.h.enqueueResult && t.h.dequeueResult == u.h.dequeueResult
    && u.h.peak <= t.h.peak && (u.h.sawEmpty ==> t.h.sawEmpty)
  }

  lemma NextProducer<T>(s: State<T>, mallocFails: bool)
    requires Safe(s)
    ensures var t := Next(s, ProducerMoves(mallocFails));
            && Observed(ProducerStep(s, mallocFails), t)
            && (!s.p.ProducerIdle? ==> Queued(t.h) <= t.h.peak)
  {
    hide ProducerStep; hide ConsumerStep; hide Safe;
  }

  lemma NextConsumer<T>(s: State<T>)
    requires Safe(s)
    ensures var t := Next(s, ConsumerMoves);
            && Observed(ConsumerStep(s), t)
            && (!s.c.ConsumerIdle? && Queued(t.h) == 0 ==> t.h.sawEmpty)
  {
    hide ProducerStep; hide ConsumerStep; hide Safe;
  }

  lemma ReadsOk<T>(s: State<T>, v: View, capacity: nat, mallocFails: bool)
    requires Inv(s, v, capacity) && Safe(s) && ProducerOnlyReads(s.p, mallocFails)
    ensures var u := ProducerStep(s, mallocFails);
            && ProducerOk(s.q, v, u.p, s.h.peak) && u == s.(p := u.p, h := u.h, broken := false)
            && u.h == s.h.(enqueueResult := u.h.enqueueResult)
            && (u.p.ProducerIdle? && !s.p.ProducerIdle? && u.h.enqueueResult == Refused ==>
                  Queued(s.h) >= capacity || s.h.peak >= capacity)
            && !u.p.StoreTailBlock? && (s.p.ProducerIdle? ==> u.h == s.h)
  {
    hide ConsumerOk; hide Chained; hide HoldsStream; hide MiddleFull; hide Spacious; hide SumCap; hide Safe;
    hide BlockOk;
    NextOfTail(s.q, v);
    var t := v.ring[v.live - 1];
    FullTest(s.q.blocks[t], v.k[t]);
    if s.p.LoadNextTail? {
      EmptyTest(s.q.blocks[s.p.nb], v.k[s.p.nb]);
    }
    if s.p.LoadFrontBlock? && s.p.nb == s.q.frontBlock {
      RefusalMeansFull(s.q, v, |s.h.enqueued|, |s.h.dequeued|, s.h.peak, capacity);
    }
  }

  lemma ProducerReads<T>(s: State<T>, v: View, capacity: nat, mallocFails: bool)
    requires Inv(s, v, capacity) && ProducerOnlyReads(s.p, mallocFails)
    ensures Inv(Next(s, ProducerMoves(mallocFails)), v, capacity)
  {
    hide ConsumerOk; hide ProducerOk; hide Chained; hide HoldsStream; hide MiddleFull; hide Spacious; hide Linked;
    hide BlocksOk; hide RingShape; hide Occupied; hide Safe; hide ProducerStep; hide Next;
    InvIsSafe(s, v, capacity);
    NextProducer(s, mallocFails);
    ReadsOk(s, v, capacity, mallocFails);
    var u, s' := ProducerStep(s, mallocFails), Next(s, ProducerMoves(mallocFails));
    ProducerOkMono(s.q, v, u.p, s.h.peak, s'.h.peak);
    ProducerLocal(s, s', v, capacity);
  }

  // ----- shadow copies -------------------------------------------------------------------------------------------

  /** Same circle, same contents, same progress: only shadow copies differ. */
  ghost predicate SameButShadows<T>(q: Queue<T>, v: View, q': Queue<T>, v': View) {
    && |q'.blocks| == |q.blocks| == |v.k| == |v'.k| && v'.ring == v.ring && v'.live == v.live
    && q'.frontBlock == q.frontBlock && q'.tailBlock == q.tailBlock && q'.largestBlockSize == q.largestBlockSize
    && forall b :: 0 <= b < |q.blocks| ==>
         && q'.blocks[b].size == q.blocks[b].size && q'.blocks[b].next == q.blocks[b].next
         && q'.blocks[b].front == q.blocks[b].front && q'.blocks[b].tail == q.blocks[b].tail
         && q'.blocks[b].data == q.blocks[b].data
         && v'.k[b].rd == v.k[b].rd && v'.k[b].wr == v.k[b].wr && v'.k[b].off == v.k[b].off
  }

  lemma {:induction false} SumCapSame<T>(q: Queue<T>, q': Queue<T>, ids: seq<nat>)
    requires |q.blocks| <= |q'.blocks|
    requires forall b :: 0 <= b < |q.blocks| ==> q'.blocks[b].size == q.blocks[b].size
    requires forall i :: 0 <= i < |ids| ==> ids[i] < |q.blocks|
    ensures SumCap(q', ids) == SumCap(q, ids)
    decreases |ids|
  {
    if ids != [] {
      SumCapSame(q, q', ids[..|ids| - 1]);
    }
  }

  lemma SpaciousSame<T>(q: Queue<T>, v: View, q': Queue<T>, v': View, capacity: nat)
    requires RingShape(|q.blocks|, v) && Spacious(q, v, capacity) && v'.ring == v.ring && RingShape(|q'.blocks|, v')
    requires |q'.blocks| == |q.blocks| && q'.largestBlockSize == q.largestBlockSize
    requires forall b :: 0 <= b < |q.blocks| ==> q'.blocks[b].size == q.blocks[b].size
    ensures Spacious(q', v', capacity)
  {
    SumCapSame(q, q', v.ring);
  }

  lemma LinkedSame<T>(q: Queue<T>, v: View, q': Queue<T>, v': View)
    requires RingShape(|q.blocks|, v) && Linked(q, v) && v'.ring == v.ring && v'.live == v.live
    requires |q'.blocks| == |v'.k| >= |q.blocks| && q'.frontBlock == q.frontBlock && q'.tailBlock == q.tailBlock
    requires forall b :: 0 <= b < |q.blocks| ==> q'.blocks[b].next == q.blocks[b].next
    ensures RingShape(|q'.blocks|, v') && Linked(q', v')
  {
  }

  ghost predicate SameProgress(v: View, v': View) {
    && v'.ring == v.ring && v'.live == v.live && |v.k| <= |v'.k|
    && forall b :: 0 <= b < |v.k| ==> v'.k[b].rd == v.k[b].rd && v'.k[b].wr == v.k[b].wr && v'.k[b].off == v.k[b].off
  }

  lemma ChainedSame(v: View, v': View, put: int, got: int)
    requires RingShape(|v.k|, v) && Chained(v, put, got) && SameProgress(v, v')
    ensures RingShape(|v'.k|, v') && Chained(v', put, got)
  {
  }

  lemma OccupiedSame(v: View, v': View, pending: bool)
    requires RingShape(|v.k|, v) && Occupied(v, pending) && SameProgress(v, v')
    ensures RingShape(|v'.k|, v') && Occupied(v', pending)
  {
  }

  lemma HoldsCopy<T>(b: Block<T>, k: Counters, b': Block<T>, k': Counters, stream: seq<T>)
    requires Holds(b, k, stream)
    requires b'.size == b.size && b'.data == b.data && k'.rd == k.rd && k'.wr == k.wr && k'.off == k.off
    ensures Holds(b', k', stream)
  {
    forall j | k.rd <= j < k.wr
      ensures HoldsAt(b', k', stream, j)
    {
      assert HoldsAt(b, k, stream, j);
    }
  }

  lemma HoldsSame<T>(q: Queue<T>, v: View, q': Queue<T>, v': View, stream: seq<T>)
    requires RingShape(|q.blocks|, v) && HoldsStream(q, v, stream) && SameProgress(v, v') && |q'.blocks| == |v'.k|
    requires forall b :: 0 <= b < |q.blocks| ==> q'.blocks[b].size == q.blocks[b].size && q'.blocks[b].data == q.blocks[b].data
    ensures RingShape(|q'.blocks|, v') && HoldsStream(q', v', stream)
  {
    hide Holds;
    forall i | 0 <= i < v.live
      ensures Holds(q'.blocks[v.ring[i]], v'.k[v.ring[i]], stream)
    {
      assert Holds(q.blocks[v.ring[i]], v.k[v.ring[i]], stream);
      HoldsCopy(q.blocks[v.ring[i]], v.k[v.ring[i]], q'.blocks[v.ring[i]], v'.k[v.ring[i]], stream);
    }
  }

  lemma MiddleFullSame<T>(q: Queue<T>, v: View, q': Queue<T>, v': View)
    requires RingShape(|q.blocks|, v) && MiddleFull(q, v) && SameProgress(v, v') && |q'.blocks| == |v'.k|
    requires forall b :: 0 <= b < |q.blocks| ==> q'.blocks[b].size == q.blocks[b].size
    ensures RingShape(|q'.blocks|, v') && MiddleFull(q', v')
  {
    forall i | 1 <= i < v.live - 1
      ensures Full(q'.blocks[v.ring[i]], v'.k[v.ring[i]])
    {
      assert Full(q.blocks[v.ring[i]], v.k[v.ring[i]]);
    }
  }

  /** Everything but the blocks' own indices and the threads survives a change of shadow copies. */
  lemma ShadowsKeep<T>(s: State<T>, v: View, q': Queue<T>, v': View, capacity: nat)
    requires Inv(s, v, capacity) && SameButShadows(s.q, v, q', v')
    ensures RingShape(|q'.blocks|, v') && Linked(q', v') && Chained(v', |s.h.enqueued|, |s.h.dequeued|)
    ensures HoldsStream(q', v', s.h.enqueued) && Occupied(v', s.p.StoreTailBlock?) && MiddleFull(q', v')
    ensures Spacious(q', v', capacity)
  {
    hide ConsumerOk; hide ProducerOk; hide BlocksOk; hide Linked; hide Chained; hide HoldsStream; hide Occupied;
    hide MiddleFull; hide Spacious;
    LinkedSame(s.q, v, q', v');
    ChainedSame(v, v', |s.h.enqueued|, |s.h.dequeued|);
    HoldsSame(s.q, v, q', v', s.h.enqueued);
    OccupiedSame(v, v', s.p.StoreTailBlock?);
    MiddleFullSame(s.q, v, q', v');
    SpaciousSame(s.q, v, q', v', capacity);
  }

  // ----- what each thread relies on, under steps of the other -----------------------------------------------------

  /** The producer leaves alone what the consumer relies on. */
  ghost predicate LeavesConsumer<T>(q: Queue<T>, v: View, q': Queue<T>, v': View)
    requires RingShape(|q.blocks|, v) && RingShape(|q'.blocks|, v')
  {
    var f := v.ring[0];
    && v.live <= v'.live && v'.ring[0] == f
    && q'.blocks[f].front == q.blocks[f].front && v'.k[f].rd == v.k[f].rd && v'.k[f].lt == v.k[f].lt
    && (v.live >= 2 ==>
          var n := v.ring[1];
          && v'.ring[1] == n && q'.blocks[f].tail == q.blocks[f].tail && v'.k[f].wr == v.k[f].wr
          && q'.blocks[n].front == q.blocks[n].front && v'.k[n].rd == v.k[n].rd && v'.k[n].lt == v.k[n].lt)
  }

  lemma ConsumerKept<T>(q: Queue<T>, v: View, q': Queue<T>, v': View, c: Consumer<T>, h: History<T>, h': History<T>)
    requires RingShape(|q.blocks|, v) && RingShape(|q'.blocks|, v') && ConsumerOk(q, v, c, h)
    requires LeavesConsumer(q, v, q', v')
    requires h'.dequeued == h.dequeued && h.enqueued <= h'.enqueued
    requires h'.dequeueResult == h.dequeueResult && (h.sawEmpty ==> h'.sawEmpty)
    ensures ConsumerOk(q', v', c, h')
  {
  }

  ghost predicate SameForProducer<T>(b: Block<T>, k: Counters, b': Block<T>, k': Counters) {
    && b'.size == b.size && b'.tail == b.tail && b'.data == b.data && b'.next == b.next
    && k'.wr == k.wr && k'.lf == k.lf
  }

  /** The consumer leaves alone what the producer relies on. */
  ghost predicate LeavesProducer<T>(q: Queue<T>, v: View, q': Queue<T>, v': View)
    requires RingShape(|q.blocks|, v) && RingShape(|q'.blocks|, v')
  {
    var t := v.ring[v.live - 1];
    && |q'.blocks| == |q.blocks| && |v'.ring| == |v.ring| && v'.live <= v.live
    && v'.ring[v'.live - 1] == t
    && (forall b :: 0 <= b < |q.blocks| ==> SameForProducer(q.blocks[b], v.k[b], q'.blocks[b], v'.k[b]))
    && (forall i :: 0 <= i < |v'.ring| ==> v'.ring[i] in v.ring)
    && (v'.live >= 2 ==> v'.k[t].rd == v.k[t].rd)
    && (v.live < |v.ring| ==>
          var n := v.ring[v.live];
          v'.live < |v'.ring| && v'.ring[v'.live] == n && v'.k[n].rd == v.k[n].rd && q'.blocks[n].front == q.blocks[n].front)
    && (forall b :: 0 <= b < |q.blocks| && b !in v.ring ==> v'.k[b].rd == v.k[b].rd)
  }

  lemma ProducerKept<T>(q: Queue<T>, v: View, q': Queue<T>, v': View, p: Producer<T>, peak: int, peak': int)
    requires RingShape(|q.blocks|, v) && RingShape(|q'.blocks|, v') && ProducerOk(q, v, p, peak)
    requires LeavesProducer(q, v, q', v') && peak <= peak'
    ensures ProducerOk(q', v', p, peak')
  {
    var t := v.ring[v.live - 1];
    assert SameForProducer(q.blocks[t], v.k[t], q'.blocks[t], v'.k[t]);
    assert TailSeenFull(q, v, peak) ==> TailSeenFull(q', v', peak');
    if v.live < |v.ring| {
      var n := v.ring[v.live];
      assert SameForProducer(q.blocks[n], v.k[n], q'.blocks[n], v'.k[n]);
    }
    if p.StoreNext? {
      assert SameForProducer(q.blocks[p.nb], v.k[p.nb], q'.blocks[p.nb], v'.k[p.nb]);
      forall i | 0 <= i < |v'.ring|
        ensures q'.blocks[v'.ring[i]].size <= q'.blocks[p.nb].size
      {
        var b := v'.ring[i];
        assert SameForProducer(q.blocks[b], v.k[b], q'.blocks[b], v'.k[b]);
        var j :| 0 <= j < |v.ring| && v.ring[j] == b;
      }
    }
  }

  /** The invariant after a producer step, put together from its parts. */
  lemma AfterProducer<T>(s: State<T>, u: State<T>, s': State<T>, v: View, v': View, capacity: nat)
    requires Inv(s, v, capacity) && Observed(u, s') && u.c == s.c && !u.broken
    requires u.h.dequeued == s.h.dequeued && s.h.enqueued <= u.h.enqueued && u.h.dequeueResult == s.h.dequeueResult
    requires u.h.sawEmpty == s.h.sawEmpty
    requires RingShape(|u.q.blocks|, v') && Linked(u.q, v') && BlocksOk(u.q, v')
    requires Chained(v', |u.h.enqueued|, |u.h.dequeued|) && HoldsStream(u.q, v', u.h.enqueued)
    requires Occupied(v', u.p.StoreTailBlock?) && MiddleFull(u.q, v') && Spacious(u.q, v', capacity)
    requires u.h.enqueueResult != Refused || !u.p.ProducerIdle?
    requires ProducerOk(u.q, v', u.p, s'.h.peak) && LeavesConsumer(s.q, v, u.q, v')
    ensures Inv(s', v', capacity)
  {
    hide ProducerOk; hide ConsumerOk; hide Linked; hide BlocksOk; hide Chained; hide HoldsStream; hide Occupied;
    hide MiddleFull; hide Spacious; hide LeavesConsumer;
    ConsumerKept(s.q, v, u.q, v', s.c, s.h, s'.h);
  }

  // ----- steps that refresh a shadow copy ------------------------------------------------------------------------

  function SetCounters(v: View, b: nat, k: Counters): View
    requires b < |v.k|
  {
    v.(k := v.k[b := k])
  }

  lemma BlocksOkSet<T>(q: Queue<T>, v: View, b: nat, block: Block<T>, k: Counters)
    requires BlocksOk(q, v) && b < |q.blocks| && BlockOk(block, k)
    ensures BlocksOk(SetBlock(q, b, block), SetCounters(v, b, k))
  {
  }

  /** The view after a producer step that refreshes localFront of block `b`. */
  function FrontSeen(v: View, b: nat): View
    requires b < |v.k|
  {
    SetCounters(v, b, v.k[b].(lf := v.k[b].rd))
  }

  lemma ProducerRefreshes<T>(s: State<T>, v: View, capacity: nat, b: nat)
    requires Inv(s, v, capacity) && ((s.p.LoadFront? && b == s.p.tb) || (s.p.LoadNextFront? && b == s.p.nb))
    ensures b < |v.k| && Inv(Next(s, ProducerMoves(false)), FrontSeen(v, b), capacity)
  {
    hide Chained; hide HoldsStream; hide MiddleFull; hide Spacious; hide SumCap; hide Linked; hide Next; hide Safe;
    hide ConsumerOk; hide Slot;
    InvIsSafe(s, v, capacity);
    NextProducer(s, false);
    var u, s', v' := ProducerStep(s, false), Next(s, ProducerMoves(false)), FrontSeen(v, b);
    var block := s.q.blocks[b];
    assert BlockOk(block, v.k[b]);
    BlocksOkSet(s.q, v, b, block.(localFront := block.front), v'.k[b]);
    assert u.q == SetBlock(s.q, b, block.(localFront := block.front));
    assert SameButShadows(s.q, v, u.q, v');
    ShadowsKeep(s, v, u.q, v', capacity);
    FullTest(block, v.k[b]);
    SingleBlockCount(v, |s.h.enqueued|, |s.h.dequeued|);
    hide BlocksOk; hide Occupied; hide SameButShadows;
    AfterProducer(s, u, s', v, v', capacity);
  }

  lemma SingleBlockCount(v: View, put: int, got: int)
    requires RingShape(|v.k|, v) && Chained(v, put, got)
    ensures v.live == 1 ==> put - got == v.k[v.ring[0]].wr - v.k[v.ring[0]].rd
  {
  }

  // ----- steps that construct an element -----------------------------------------------------------------------------

  /** Constructing in the free slot at the tail leaves the elements in the block alone. */
  lemma HoldsConstruct<T>(b: Block<T>, k: Counters, stream: seq<T>, x: T)
    requires BlockOk(b, k) && Holds(b, k, stream)
    ensures Holds(b.(data := b.data[b.tail := x]), k, stream)
  {
    var b' := b.(data := b.data[b.tail := x]);
    forall j | k.rd <= j < k.wr
      ensures HoldsAt(b', k, stream, j)
    {
      assert HoldsAt(b, k, stream, j);
      ModClose(j, k.wr, b.size);
    }
  }

  lemma HoldsSet<T>(q: Queue<T>, v: View, b: nat, block: Block<T>, k: Counters, stream: seq<T>, stream': seq<T>)
    requires RingShape(|q.blocks|, v) && HoldsStream(q, v, stream) && b < |q.blocks| && stream <= stream'
    requires b in v.ring[..v.live] ==> Holds(block, k, stream')
    ensures HoldsStream(SetBlock(q, b, block), SetCounters(v, b, k), stream')
  {
    hide Holds;
    var q', v' := SetBlock(q, b, block), SetCounters(v, b, k);
    forall i | 0 <= i < v.live
      ensures Holds(q'.blocks[v.ring[i]], v'.k[v.ring[i]], stream')
    {
      if v.ring[i] == b {
        assert v.ring[..v.live][i] == b;
      } else {
        assert Holds(q.blocks[v.ring[i]], v.k[v.ring[i]], stream);
        HoldsLonger(q.blocks[v.ring[i]], v.k[v.ring[i]], stream, stream');
      }
    }
  }

  function WithElement<T>(q: Queue<T>, b: nat, x: T): Queue<T>
    requires b < |q.blocks|
  {
    SetBlock(q, b, q.blocks[b].(data := q.blocks[b].data[q.blocks[b].tail := x]))
  }

  lemma ProducerConstructs<T>(s: State<T>, v: View, capacity: nat)
    requires Inv(s, v, capacity) && (s.p.Construct? || s.p.ConstructNext?)
    ensures Inv(Next(s, ProducerMoves(false)), v, capacity)
  {
    hide Chained; hide HoldsStream; hide MiddleFull; hide Spacious; hide SumCap; hide Linked; hide Next; hide Safe;
    hide ConsumerOk; hide Holds; hide Occupied; hide Slot; hide BlocksOk;
    InvIsSafe(s, v, capacity);
    NextProducer(s, false);
    var b := if s.p.Construct? then s.p.tb else s.p.nb;
    var u := ProducerStep(s, false);
    assert u.q == WithElement(s.q, b, s.p.x);
    ElementKeeps(s, v, capacity, b);
    hide WithElement;
    AfterProducer(s, u, Next(s, ProducerMoves(false)), v, v, capacity);
  }

  /** Constructing an element changes nothing that the circle or the stream depends on. */
  lemma ElementKeeps<T>(s: State<T>, v: View, capacity: nat, b: nat)
    requires Inv(s, v, capacity) && b < |s.q.blocks| && !s.p.ProducerIdle?
    ensures var q' := WithElement(s.q, b, s.p.x);
            && |q'.blocks| == |s.q.blocks|
            && Linked(q', v) && BlocksOk(q', v) && HoldsStream(q', v, s.h.enqueued) && MiddleFull(q', v)
            && Spacious(q', v, capacity) && LeavesConsumer(s.q, v, q', v)
  {
    hide Chained; hide HoldsStream; hide MiddleFull; hide Spacious; hide SumCap; hide Linked;
    hide ConsumerOk; hide ProducerOk; hide Holds; hide Occupied; hide Slot; hide BlockOk;
    var q' := WithElement(s.q, b, s.p.x);
    assert BlockOk(s.q.blocks[b], v.k[b]);
    ElementBlockOk(s.q.blocks[b], v.k[b], s.p.x);
    BlocksOkSet(s.q, v, b, q'.blocks[b], v.k[b]);
    assert SetCounters(v, b, v.k[b]) == v;
    ElementHolds(s.q, v, b, s.p.x, s.h.enqueued);
    LinkedSame(s.q, v, q', v);
    MiddleFullSame(s.q, v, q', v);
    SpaciousSame(s.q, v, q', v, capacity);
  }

  lemma ElementBlockOk<T>(b: Block<T>, k: Counters, x: T)
    requires BlockOk(b, k)
    ensures BlockOk(b.(data := b.data[b.tail := x]), k)
  {
  }

  lemma ElementHolds<T>(q: Queue<T>, v: View, b: nat, x: T, stream: seq<T>)
    requires RingShape(|q.blocks|, v) && BlocksOk(q, v) && HoldsStream(q, v, stream) && b < |q.blocks|
    ensures HoldsStream(WithElement(q, b, x), v, stream)
  {
    hide Holds; hide Slot;
    assert SetCounters(v, b, v.k[b]) == v;
    assert BlockOk(q.blocks[b], v.k[b]);
    if b in v.ring[..v.live] {
      assert Holds(q.blocks[b], v.k[b], stream);
      HoldsConstruct(q.blocks[b], v.k[b], stream, x);
    }
    HoldsSet(q, v, b, q.blocks[b].(data := q.blocks[b].data[q.blocks[b].tail := x]), v.k[b], stream, stream);
  }

  // ----- steps that store a tail index ---------------------------------------------------------------------------------

  /** The view after the producer has stored the tail index of block `b`. */
  function Written(v: View, b: nat): View
    requires b < |v.k|
  {
    SetCounters(v, b, v.k[b].(wr := v.k[b].wr + 1))
  }

  lemma BlockOkWritten<T>(b: Block<T>, k: Counters)
    requires BlockOk(b, k) && k.wr + 1 <= k.lf + b.size - 1
    ensures BlockOk(b.(tail := Bump(b.tail, b.size)), k.(wr := k.wr + 1))
  {
    BumpIs(k.wr, b.size);
  }

  lemma ChainedWritten(v: View, put: int, got: int)
    requires RingShape(|v.k|, v) && Chained(v, put, got)
    ensures Chained(Written(v, v.ring[v.live - 1]), put + 1, got)
  {
  }

  lemma HoldsWritten<T>(b: Block<T>, k: Counters, stream: seq<T>, x: T)
    requires BlockOk(b, k) && Holds(b, k, stream) && k.off + k.wr == |stream|
    requires b.tail in b.data && b.data[b.tail] == x
    ensures Holds(b.(tail := Bump(b.tail, b.size)), k.(wr := k.wr + 1), stream + [x])
  {
    hide Slot;
    var b', k', stream' := b.(tail := Bump(b.tail, b.size)), k.(wr := k.wr + 1), stream + [x];
    forall j | k'.rd <= j < k'.wr
      ensures HoldsAt(b', k', stream', j)
    {
      if j < k.wr {
        assert HoldsAt(b, k, stream, j);
      }
    }
  }

  /** `q` with the tail index of block `b` moved on. */
  function Published<T>(q: Queue<T>, b: nat): Queue<T>
    requires b < |q.blocks| && q.blocks[b].size > 0
  {
    SetBlock(q, b, q.blocks[b].(tail := Bump(q.blocks[b].tail, q.blocks[b].size)))
  }

  lemma PublishKeeps<T>(q: Queue<T>, v: View, b: nat, capacity: nat)
    requires RingShape(|q.blocks|, v) && Linked(q, v) && BlocksOk(q, v) && Spacious(q, v, capacity)
    requires b < |q.blocks| && v.k[b].wr + 1 <= v.k[b].lf + q.blocks[b].size - 1
    ensures q.blocks[b].size > 0
    ensures var q', v' := Published(q, b), Written(v, b);
            RingShape(|q'.blocks|, v') && Linked(q', v') && BlocksOk(q', v') && Spacious(q', v', capacity)
  {
    hide Linked; hide Spacious; hide SumCap; hide Slot; hide BlockOk;
    var block, k := q.blocks[b], v.k[b];
    assert BlockOk(block, k);
    BlockOkWritten(block, k);
    BlocksOkSet(q, v, b, block.(tail := Bump(block.tail, block.size)), k.(wr := k.wr + 1));
    LinkedSame(q, v, Published(q, b), Written(v, b));
    SpaciousSame(q, v, Published(q, b), Written(v, b), capacity);
  }

  lemma ProducerStoresTail<T>(s: State<T>, v: View, capacity: nat)
    requires Inv(s, v, capacity) && s.p.StoreTail?
    ensures s.p.tb < |v.k| && Inv(Next(s, ProducerMoves(false)), Written(v, s.p.tb), capacity)
  {
    hide Chained; hide HoldsStream; hide Spacious; hide SumCap; hide Linked; hide Next; hide Safe;
    hide ConsumerOk; hide Holds; hide Slot; hide BlocksOk;
    InvIsSafe(s, v, capacity);
    NextProducer(s, false);
    var u, b := ProducerStep(s, false), s.p.tb;
    var v' := Written(v, b);
    PublishKeeps(s.q, v, b, capacity);
    assert u.q == Published(s.q, b);
    StreamAfterStoreTail(s, v, capacity);
    ChainedWritten(v, |s.h.enqueued|, |s.h.dequeued|);
    assert Occupied(v', false);
    forall i | 1 <= i < v.live - 1
      ensures Full(u.q.blocks[v.ring[i]], v'.k[v.ring[i]])
    {
      assert Full(s.q.blocks[v.ring[i]], v.k[v.ring[i]]);
    }
    AfterProducer(s, u, Next(s, ProducerMoves(false)), v, v', capacity);
  }

  lemma StreamAfterStoreTail<T>(s: State<T>, v: View, capacity: nat)
    requires Inv(s, v, capacity) && s.p.StoreTail?
    ensures s.p.tb < |v.k| && s.q.blocks[s.p.tb].size > 0
    ensures HoldsStream(Published(s.q, s.p.tb), Written(v, s.p.tb), s.h.enqueued + [s.p.x])
  {
    hide MiddleFull; hide Spacious; hide SumCap; hide Linked; hide ConsumerOk; hide Holds; hide Occupied; hide Slot;
    var block, k := s.q.blocks[s.p.tb], v.k[s.p.tb];
    assert BlockOk(block, k);
    assert Holds(s.q.blocks[v.ring[v.live - 1]], v.k[v.ring[v.live - 1]], s.h.enqueued);
    HoldsWritten(block, k, s.h.enqueued, s.p.x);
    HoldsSet(s.q, v, s.p.tb, block.(tail := Bump(block.tail, block.size)), k.(wr := k.wr + 1),
             s.h.enqueued, s.h.enqueued + [s.p.x]);
  }

  lemma ProducerStoresNextTail<T>(s: State<T>, v: View, capacity: nat)
    requires Inv(s, v, capacity) && s.p.StoreNextTail?
    ensures s.p.nb < |v.k| && Inv(Next(s, ProducerMoves(false)), Written(v, s.p.nb), capacity)
  {
    hide Chained; hide HoldsStream; hide Spacious; hide SumCap; hide Linked; hide Next; hide Safe;
    hide ConsumerOk; hide Holds; hide Slot; hide BlocksOk;
    InvIsSafe(s, v, capacity);
    NextProducer(s, false);
    var u, b := ProducerStep(s, false), s.p.nb;
    var v' := Written(v, b);
    assert v.k[b].wr == v.k[b].rd;
    assert BlockOk(s.q.blocks[b], v.k[b]) by { BlockOkAt(s.q, v, b); }
    PublishKeeps(s.q, v, b, capacity);
    assert u.q == Published(s.q, b);
    FreeBlockAside(s.q, v, v', b, s.h.enqueued, |s.h.dequeued|);
    assert Occupied(v', true);
    forall i | 1 <= i < v.live - 1
      ensures Full(u.q.blocks[v.ring[i]], v'.k[v.ring[i]])
    {
      assert Full(s.q.blocks[v.ring[i]], v.k[v.ring[i]]);
    }
    AfterProducer(s, u, Next(s, ProducerMoves(false)), v, v', capacity);
  }

  lemma BlockOkAt<T>(q: Queue<T>, v: View, b: nat)
    requires BlocksOk(q, v) && b < |q.blocks|
    ensures BlockOk(q.blocks[b], v.k[b])
  {
  }

  /** Writing to a block that is not live leaves the stream alone. */
  lemma FreeBlockAside<T>(q: Queue<T>, v: View, v': View, b: nat, stream: seq<T>, got: int)
    requires RingShape(|q.blocks|, v) && Chained(v, |stream|, got) && HoldsStream(q, v, stream)
    requires v.live < |v.ring| && b == v.ring[v.live] && q.blocks[b].size > 0 && v' == Written(v, b)
    ensures RingShape(|v'.k|, v') && Chained(v', |stream|, got) && HoldsStream(Published(q, b), v', stream)
  {
    hide Holds;
    HoldsSet(q, v, b, Published(q, b).blocks[b], v'.k[b], stream, stream);
  }

  // ----- the tail block moves on --------------------------------------------------------------------------------------------

  /** The view after the producer has made the next block the tail block: `put` elements before. */
  function TailMoved(v: View, put: int): View
    requires v.live < |v.ring| && v.ring[v.live] < |v.k|
  {
    var b := v.ring[v.live];
    SetCounters(v, b, v.k[b].(off := put - v.k[b].rd)).(live := v.live + 1)
  }

  lemma LinkedMoved<T>(q: Queue<T>, v: View, put: int)
    requires RingShape(|q.blocks|, v) && Linked(q, v) && BlocksOk(q, v) && v.live < |v.ring|
    ensures var q', v' := q.(tailBlock := v.ring[v.live]), TailMoved(v, put);
            RingShape(|q'.blocks|, v') && Linked(q', v') && BlocksOk(q', v')
  {
    hide Slot;
    var v', b := TailMoved(v, put), v.ring[v.live];
    forall c | 0 <= c < |v.k|
      ensures BlockOk(q.blocks[c], v'.k[c])
    {
      assert BlockOk(q.blocks[c], v.k[c]);
    }
  }

  lemma StreamMoved<T>(q: Queue<T>, v: View, stream: seq<T>, got: int, x: T)
    requires RingShape(|q.blocks|, v) && BlocksOk(q, v) && Chained(v, |stream|, got) && HoldsStream(q, v, stream)
    requires Occupied(v, true) && q.blocks[v.ring[v.live]].size > 0
    requires var b := v.ring[v.live];
             var slot := Slot(v.k[b].rd, q.blocks[b].size);
             slot in q.blocks[b].data && q.blocks[b].data[slot] == x
    ensures var v' := TailMoved(v, |stream|);
            && RingShape(|q.blocks|, v') && Chained(v', |stream| + 1, got)
            && HoldsStream(q.(tailBlock := v.ring[v.live]), v', stream + [x])
  {
    hide Slot; hide BlockOk; hide Holds;
    var b, v' := v.ring[v.live], TailMoved(v, |stream|);
    var q' := q.(tailBlock := b);
    forall i | 0 <= i < v'.live
      ensures Holds(q'.blocks[v'.ring[i]], v'.k[v'.ring[i]], stream + [x])
    {
      if i < v.live {
        assert Holds(q.blocks[v.ring[i]], v.k[v.ring[i]], stream);
        HoldsLonger(q.blocks[v.ring[i]], v.k[v.ring[i]], stream, stream + [x]);
      } else {
        HoldsOne(q.blocks[b], v'.k[b], stream, x);
      }
    }
  }

  lemma HoldsLonger<T>(b: Block<T>, k: Counters, stream: seq<T>, stream': seq<T>)
    requires Holds(b, k, stream) && stream <= stream'
    ensures Holds(b, k, stream')
  {
    forall j | k.rd <= j < k.wr
      ensures HoldsAt(b, k, stream', j)
    {
      assert HoldsAt(b, k, stream, j);
    }
  }

  lemma HoldsOne<T>(b: Block<T>, k: Counters, stream: seq<T>, x: T)
    requires b.size > 0 && k.wr == k.rd + 1 && k.off + k.rd == |stream|
    requires Slot(k.rd, b.size) in b.data && b.data[Slot(k.rd, b.size)] == x
    ensures Holds(b, k, stream + [x])
  {
    hide Slot;
  }

  lemma ProducerMovesTail<T>(s: State<T>, v: View, capacity: nat)
    requires Inv(s, v, capacity) && s.p.StoreTailBlock?
    ensures v.live < |v.ring| && v.ring[v.live] < |v.k|
    ensures Inv(Next(s, ProducerMoves(false)), TailMoved(v, |s.h.enqueued|), capacity)
  {
    hide Chained; hide HoldsStream; hide Spacious; hide SumCap; hide Linked; hide Next; hide Safe;
    hide ConsumerOk; hide Holds; hide Slot; hide BlocksOk;
    InvIsSafe(s, v, capacity);
    NextProducer(s, false);
    var u := ProducerStep(s, false);
    var v' := TailMoved(v, |s.h.enqueued|);
    LinkedMoved(s.q, v, |s.h.enqueued|);
    StreamMoved(s.q, v, s.h.enqueued, |s.h.dequeued|, s.p.x);
    SpaciousSame(s.q, v, u.q, v', capacity);
    assert Occupied(v', false);
    forall i | 1 <= i < v'.live - 1
      ensures Full(u.q.blocks[v'.ring[i]], v'.k[v'.ring[i]])
    {
      if i < v.live - 1 {
        assert Full(s.q.blocks[v.ring[i]], v.k[v.ring[i]]);
      }
    }
    AfterProducer(s, u, Next(s, ProducerMoves(false)), v, v', capacity);
  }

  // ----- a new block ------------------------------------------------------------------------------------------------------------

  /** The view after a block has been allocated with one element in it. */
  function Allocated(v: View): View {
    v.(k := v.k + [Counters(0, 1, 1, 0, 0)])
  }

  lemma ProducerAllocates<T>(s: State<T>, v: View, capacity: nat)
    requires Inv(s, v, capacity) && s.p.Allocate?
    ensures Inv(Next(s, ProducerMoves(false)), Allocated(v), capacity)
  {
    hide Chained; hide HoldsStream; hide SumCap; hide Linked; hide Next; hide Safe;
    hide ConsumerOk; hide Holds; hide Slot; hide Occupied; hide MiddleFull;
    InvIsSafe(s, v, capacity);
    NextProducer(s, false);
    var u, v' := ProducerStep(s, false), Allocated(v);
    LinkedSame(s.q, v, u.q, v');
    ChainedSame(v, v', |s.h.enqueued|, |s.h.dequeued|);
    OccupiedSame(v, v', false);
    HoldsSame(s.q, v, u.q, v', s.h.enqueued);
    MiddleFullSame(s.q, v, u.q, v');
    NewBlockOk(s, v, capacity);
    hide BlocksOk; hide Spacious;
    AfterProducer(s, u, Next(s, ProducerMoves(false)), v, v', capacity);
  }

  lemma SlotSmall(j: nat, n: nat)
    requires j < n
    ensures Slot(j, n) == j
  {
    ModUnique(j, n, 0, j);
  }

  lemma NewBlockOk<T>(s: State<T>, v: View, capacity: nat)
    requires Inv(s, v, capacity) && Safe(s) && s.p.Allocate?
    ensures var u, v' := ProducerStep(s, false), Allocated(v);
            RingShape(|u.q.blocks|, v') && BlocksOk(u.q, v') && Spacious(u.q, v', capacity)
  {
    hide Chained; hide HoldsStream; hide Linked; hide ConsumerOk; hide Occupied; hide MiddleFull; hide Safe; hide SumCap;
    hide Slot;
    var u, v' := ProducerStep(s, false), Allocated(v);
    assert s.q.blocks[v.ring[0]].size <= s.q.largestBlockSize && BlockOk(s.q.blocks[v.ring[0]], v.k[v.ring[0]]);
    var n := u.q.largestBlockSize;
    SlotSmall(0, n);
    SlotSmall(1, n);
    forall b | 0 <= b < |u.q.blocks|
      ensures BlockOk(u.q.blocks[b], v'.k[b]) && u.q.blocks[b].size <= n
    {
      if b < |s.q.blocks| {
        assert BlockOk(s.q.blocks[b], v.k[b]);
      }
    }
    SumCapSame(s.q, u.q, v.ring);
  }

  /** The view after the new block `b` has been linked in behind the tail block. */
  function Inserted(v: View, b: nat): View
    requires v.live <= |v.ring|
  {
    v.(ring := v.ring[..v.live] + ([b] + v.ring[v.live..]))
  }

  lemma RingInserted(n: nat, v: View, b: nat)
    requires RingShape(n, v) && b < n && b !in v.ring
    ensures RingShape(n, Inserted(v, b))
    ensures var r := Inserted(v, b).ring;
            && |r| == |v.ring| + 1 && r[v.live] == b
            && (forall i :: 0 <= i < v.live ==> r[i] == v.ring[i])
            && (forall i, j :: v.live < i < |r| && j == i - 1 ==> r[i] == v.ring[j])
  {
    var r := Inserted(v, b).ring;
    forall i, j | 0 <= i < j < |r|
      ensures r[i] != r[j]
    {
      var i' := if i <= v.live then i else i - 1;
      var j' := if j <= v.live then j else j - 1;
    }
  }

  lemma LinkedInserted<T>(q: Queue<T>, v: View, b: nat)
    requires RingShape(|q.blocks|, v) && Linked(q, v) && b < |q.blocks| && b !in v.ring
    requires q.blocks[b].next == q.blocks[v.ring[v.live - 1]].next
    ensures var t := v.ring[v.live - 1];
            var q', v' := SetBlock(q, t, q.blocks[t].(next := b)), Inserted(v, b);
            RingShape(|q'.blocks|, v') && Linked(q', v')
  {
    RingInserted(|q.blocks|, v, b);
    var t := v.ring[v.live - 1];
    var q', v' := SetBlock(q, t, q.blocks[t].(next := b)), Inserted(v, b);
    forall i | 0 <= i < |v'.ring|
      ensures q'.blocks[v'.ring[i]].next == v'.ring[Succ(i, |v'.ring|)]
    {
      NextInserted(q, v, b, i);
    }
  }

  lemma NextInserted<T>(q: Queue<T>, v: View, b: nat, i: nat)
    requires RingShape(|q.blocks|, v) && Linked(q, v) && b < |q.blocks| && b !in v.ring && i <= |v.ring|
    requires q.blocks[b].next == q.blocks[v.ring[v.live - 1]].next
    ensures var t, r := v.ring[v.live - 1], Inserted(v, b).ring;
            |r| == |v.ring| + 1 && r[i] < |q.blocks| &&
            SetBlock(q, t, q.blocks[t].(next := b)).blocks[r[i]].next == r[Succ(i, |r|)]
  {
    RingInserted(|q.blocks|, v, b);
    hide Inserted;
    var n := |v.ring|;
    if i == v.live {
      assert q.blocks[v.ring[v.live - 1]].next == v.ring[Succ(v.live - 1, n)];
    } else if i < v.live - 1 {
      assert q.blocks[v.ring[i]].next == v.ring[Succ(i, n)];
    } else if i > v.live {
      assert q.blocks[v.ring[i - 1]].next == v.ring[Succ(i - 1, n)];
    }
  }

  lemma {:induction false} SumCapConcat<T>(q: Queue<T>, a: seq<nat>, b: seq<nat>)
    requires forall i :: 0 <= i < |a| ==> a[i] < |q.blocks|
    requires forall i :: 0 <= i < |b| ==> b[i] < |q.blocks|
    ensures SumCap(q, a + b) == SumCap(q, a) + SumCap(q, b)
    decreases |b|
  {
    if b == [] {
      assert a + b == a;
    } else {
      var m := |b| - 1;
      assert (a + b)[..|a + b| - 1] == a + b[..m];
      SumCapConcat(q, a, b[..m]);
    }
  }

  lemma SumInserted<T>(q: Queue<T>, v: View, b: nat)
    requires RingShape(|q.blocks|, v) && b < |q.blocks|
    ensures forall i :: 0 <= i < |Inserted(v, b).ring| ==> Inserted(v, b).ring[i] < |q.blocks|
    ensures SumCap(q, Inserted(v, b).ring) == SumCap(q, v.ring) + q.blocks[b].size - 1
  {
    var x, y := v.ring[..v.live], v.ring[v.live..];
    assert v.ring == x + y;
    SumCapConcat(q, x, [b] + y);
    SumCapCons(q, b, y);
    SumCapConcat(q, x, y);
  }

  lemma SumSingle<T>(q: Queue<T>, x: nat)
    requires x < |q.blocks|
    ensures SumCap(q, [x]) == q.blocks[x].size - 1
  {
    assert [x][..0] == [];
  }

  lemma SpaciousInserted<T>(q: Queue<T>, v: View, b: nat, capacity: nat)
    requires RingShape(|q.blocks|, v) && BlocksOk(q, v) && Spacious(q, v, capacity) && b < |q.blocks| && b !in v.ring
    requires forall i :: 0 <= i < |v.ring| ==> q.blocks[v.ring[i]].size <= q.blocks[b].size
    ensures RingShape(|q.blocks|, Inserted(v, b)) && Spacious(q, Inserted(v, b), capacity)
  {
    RingInserted(|q.blocks|, v, b);
    SumInserted(q, v, b);
    hide Slot; hide SumCap; hide Inserted;
    var r := Inserted(v, b).ring;
    if |v.ring| == 1 {
      assert v.ring == [v.ring[0]];
      SumSingle(q, v.ring[0]);
    }
    assert BlockOk(q.blocks[v.ring[0]], v.k[v.ring[0]]) && BlockOk(q.blocks[b], v.k[b]);
    forall i | 0 <= i < |r|
      ensures SumCap(q, r) - (q.blocks[r[i]].size - 1) >= capacity
    {
      if i != v.live {
        var j := if i < v.live then i else i - 1;
        assert r[i] == v.ring[j];
      }
    }
  }

  lemma ProducerLinks<T>(s: State<T>, v: View, capacity: nat)
    requires Inv(s, v, capacity) && s.p.StoreNext?
    ensures Inv(Next(s, ProducerMoves(false)), Inserted(v, s.p.nb), capacity)
  {
    hide Chained; hide HoldsStream; hide Spacious; hide SumCap; hide Linked; hide Next; hide Safe;
    hide ConsumerOk; hide Holds; hide BlocksOk; hide Occupied; hide MiddleFull; hide Inserted; hide Slot;
    InvIsSafe(s, v, capacity);
    NextProducer(s, false);
    var u, b, t := ProducerStep(s, false), s.p.nb, s.p.tb;
    var v' := Inserted(v, b);
    RingInserted(|s.q.blocks|, v, b);
    LinkedInserted(s.q, v, b);
    assert u.q == SetBlock(s.q, t, s.q.blocks[t].(next := b));
    InsertKeeps(s.q, v, b, s.h.enqueued, |s.h.dequeued|);
    SpaciousInserted(s.q, v, b, capacity);
    SpaciousSame(s.q, v', u.q, v', capacity);
    NextAside(s.q, u.q, v', t, b, s.h.enqueued);
    SlotSmall(0, s.q.blocks[b].size);
    AfterProducer(s, u, Next(s, ProducerMoves(false)), v, v', capacity);
  }

  lemma InsertKeeps<T>(q: Queue<T>, v: View, b: nat, stream: seq<T>, got: int)
    requires RingShape(|q.blocks|, v) && Chained(v, |stream|, got) && HoldsStream(q, v, stream)
    requires BlocksOk(q, v) && Occupied(v, false) && MiddleFull(q, v)
    requires b < |q.blocks| && b !in v.ring && v.k[b].wr == v.k[b].rd + 1
    ensures var v' := Inserted(v, b);
            && RingShape(|q.blocks|, v') && Chained(v', |stream|, got) && HoldsStream(q, v', stream)
            && BlocksOk(q, v') && Occupied(v', true) && MiddleFull(q, v') && q.blocks[b].size >= 2
            && v'.k == v.k && v'.live == v.live
  {
    hide Holds; hide Slot;
    RingInserted(|q.blocks|, v, b);
    var v' := Inserted(v, b);
    assert BlockOk(q.blocks[b], v.k[b]);
    forall i | 0 <= i < v'.live
      ensures Holds(q.blocks[v'.ring[i]], v'.k[v'.ring[i]], stream)
    {
      assert Holds(q.blocks[v.ring[i]], v.k[v.ring[i]], stream);
    }
    forall i | v'.live <= i < |v'.ring|
      ensures v'.k[v'.ring[i]].wr == v'.k[v'.ring[i]].rd + if i == v'.live then 1 else 0
    {
      if i > v.live {
        assert v'.ring[i] == v.ring[i - 1];
      }
    }
    forall i | 1 <= i < v'.live - 1
      ensures Full(q.blocks[v'.ring[i]], v'.k[v'.ring[i]])
    {
      assert Full(q.blocks[v.ring[i]], v.k[v.ring[i]]);
    }
  }

  /** A change of a `next` field matters to nothing but the circle. */
  lemma NextAside<T>(q: Queue<T>, q': Queue<T>, v: View, t: nat, b: nat, stream: seq<T>)
    requires RingShape(|q.blocks|, v) && BlocksOk(q, v) && HoldsStream(q, v, stream) && MiddleFull(q, v)
    requires t < |q.blocks| && q' == SetBlock(q, t, q.blocks[t].(next := b))
    ensures BlocksOk(q', v) && HoldsStream(q', v, stream) && MiddleFull(q', v)
  {
    hide Holds; hide Slot;
    assert BlockOk(q.blocks[t], v.k[t]);
    BlocksOkSet(q, v, t, q.blocks[t].(next := b), v.k[t]);
    assert SetCounters(v, t, v.k[t]) == v;
    HoldsSame(q, v, q', v, stream);
    MiddleFullSame(q, v, q', v);
  }

  // ----- consumer steps that only read ------------------------------------------------------------------------------------------

  predicate ConsumerOnlyReads<T>(c: Consumer<T>) {
    || c.ConsumerIdle? || c.ReadFrontBlock? || c.ReadFront? || c.ReadTailBlock? || c.RereadFrontBlock?
    || c.RereadFront? || c.ReadNext? || c.ReadNextFront? || c.TakeElement?
  }

  lemma ConsumerReadsOk<T>(s: State<T>, v: View, capacity: nat)
    requires Inv(s, v, capacity) && Safe(s) && ConsumerOnlyReads(s.c)
    ensures var u := ConsumerStep(s);
            && u == s.(c := u.c, h := u.h) && u.h == s.h.(dequeueResult := u.h.dequeueResult)
            && ConsumerOk(s.q, v, u.c, u.h)
  {
    hide ProducerOk; hide HoldsStream; hide MiddleFull; hide Spacious; hide SumCap; hide Occupied; hide Linked;
    hide BlocksOk; hide Chained; hide Slot; hide Safe;
    FrontFacts(s.q, v);
    if s.c.TakeElement? {
      NextElement(s, v, capacity);
    }
  }

  /** What the consumer can conclude from the front block's indices and links. */
  lemma FrontFacts<T>(q: Queue<T>, v: View)
    requires RingShape(|q.blocks|, v) && Linked(q, v) && BlocksOk(q, v)
    ensures var f := v.ring[0];
            var b, k := q.blocks[f], v.k[f];
            && q.frontBlock == f && (q.tailBlock == f <==> v.live == 1)
            && (v.live >= 2 ==> b.next == v.ring[1])
            && (b.front == b.localTail <==> k.rd == k.lt) && (b.front == b.tail <==> k.rd == k.wr)
            && k.rd <= k.lt <= k.wr
  {
    hide Slot;
    var f := v.ring[0];
    BlockOkAt(q, v, f);
    EmptyTest(q.blocks[f], v.k[f]);
    assert q.blocks[v.ring[0]].next == v.ring[Succ(0, |v.ring|)];
  }

  /** The element at the front index is the next one of the stream. */
  lemma NextElement<T>(s: State<T>, v: View, capacity: nat)
    requires Inv(s, v, capacity) && s.c.TakeElement?
    ensures s.c.fb < |s.q.blocks| && s.c.bf in s.q.blocks[s.c.fb].data && |s.h.dequeued| < |s.h.enqueued|
    ensures s.q.blocks[s.c.fb].data[s.c.bf] == s.h.enqueued[|s.h.dequeued|]
  {
    hide ProducerOk; hide MiddleFull; hide Spacious; hide SumCap; hide Occupied; hide Linked; hide Slot;
    var f := v.ring[0];
    BlockOkAt(s.q, v, f);
    assert Holds(s.q.blocks[f], v.k[f], s.h.enqueued);
    assert HoldsAt(s.q.blocks[f], v.k[f], s.h.enqueued, v.k[f].rd);
  }

  lemma ConsumerReads<T>(s: State<T>, v: View, capacity: nat)
    requires Inv(s, v, capacity) && ConsumerOnlyReads(s.c)
    ensures Inv(Next(s, ConsumerMoves), v, capacity)
  {
    hide ConsumerOk; hide ProducerOk; hide Chained; hide HoldsStream; hide MiddleFull; hide Spacious; hide Linked;
    hide BlocksOk; hide RingShape; hide Occupied; hide Safe; hide ConsumerStep; hide Next;
    InvIsSafe(s, v, capacity);
    NextConsumer(s);
    ConsumerReadsOk(s, v, capacity);
    var u, s' := ConsumerStep(s), Next(s, ConsumerMoves);
    ConsumerOkMono(s.q, v, u.c, u.h, s'.h);
    ConsumerLocal(s, s', v, capacity);
  }

  // ----- consumer steps that store -----------------------------------------------------------------------------------------------

  /** The invariant after a consumer step, put together from its parts. */
  lemma AfterConsumer<T>(s: State<T>, u: State<T>, s': State<T>, v: View, v': View, capacity: nat)
    requires Inv(s, v, capacity) && Observed(u, s') && u.p == s.p && !u.broken
    requires u.h.enqueued == s.h.enqueued && u.h.dequeued <= u.h.enqueued
    requires u.h.enqueueResult == s.h.enqueueResult && u.h.peak == s.h.peak
    requires RingShape(|u.q.blocks|, v') && Linked(u.q, v') && BlocksOk(u.q, v')
    requires Chained(v', |u.h.enqueued|, |u.h.dequeued|) && HoldsStream(u.q, v', u.h.enqueued)
    requires Occupied(v', u.p.StoreTailBlock?) && MiddleFull(u.q, v') && Spacious(u.q, v', capacity)
    requires ConsumerOk(u.q, v', u.c, s'.h) && LeavesProducer(s.q, v, u.q, v')
    ensures Inv(s', v', capacity)
  {
    hide ProducerOk; hide ConsumerOk; hide Linked; hide BlocksOk; hide Chained; hide HoldsStream; hide Occupied;
    hide MiddleFull; hide Spacious; hide LeavesProducer;
    ProducerKept(s.q, v, u.q, v', s.p, s.h.peak, s'.h.peak);
  }

  /** The view after the consumer has refreshed localTail of block `b`. */
  function TailSeen(v: View, b: nat): View
    requires b < |v.k|
  {
    SetCounters(v, b, v.k[b].(lt := v.k[b].wr))
  }

  function Target<T>(c: Consumer<T>): nat
    requires c.ReadTail? || c.RereadTail? || c.ReadNextTail?
  {
    if c.ReadNextTail? then c.nb else c.fb
  }

  predicate ConsumerLoadsTail<T>(c: Consumer<T>) {
    c.ReadTail? || c.RereadTail? || c.ReadNextTail?
  }

  /** What the consumer knows after loading a tail index; `h` includes the moment of the load. */
  lemma TailLoaded<T>(s: State<T>, v: View, capacity: nat, h: History<T>)
    requires Inv(s, v, capacity) && Safe(s) && ConsumerLoadsTail(s.c)
    requires h.enqueued == s.h.enqueued && h.dequeued == s.h.dequeued && h.dequeueResult == s.h.dequeueResult
    requires (s.h.sawEmpty ==> h.sawEmpty) && (Queued(h) == 0 ==> h.sawEmpty)
    ensures Target(s.c) < |v.k|
    ensures var u, b := ConsumerStep(s), Target(s.c);
            && u.q == SetBlock(s.q, b, s.q.blocks[b].(localTail := s.q.blocks[b].tail))
            && u.p == s.p && u.h == s.h && !u.broken
            && RingShape(|u.q.blocks|, TailSeen(v, b)) && ConsumerOk(u.q, TailSeen(v, b), u.c, h)
  {
    hide HoldsStream; hide MiddleFull; hide Spacious; hide SumCap; hide Linked; hide Safe; hide Chained; hide BlocksOk;
    hide ProducerOk; hide Slot; hide BlockOk;
    var b := Target(s.c);
    BlockOkAt(s.q, v, b);
    EmptyTest(s.q.blocks[b], v.k[b]);
    BlockOrder(s.q.blocks[b], v.k[b]);
    SingleBlockCount(v, |s.h.enqueued|, |s.h.dequeued|);
  }

  lemma BlockOrder<T>(b: Block<T>, k: Counters)
    requires BlockOk(b, k)
    ensures k.rd <= k.lt <= k.wr
  {
  }

  lemma ConsumerRefreshes<T>(s: State<T>, v: View, capacity: nat)
    requires Inv(s, v, capacity) && ConsumerLoadsTail(s.c)
    ensures Target(s.c) < |v.k| && Inv(Next(s, ConsumerMoves), TailSeen(v, Target(s.c)), capacity)
  {
    hide HoldsStream; hide MiddleFull; hide Spacious; hide SumCap; hide Linked; hide Next; hide Safe; hide Chained;
    hide ProducerOk; hide Slot; hide ConsumerOk; hide ConsumerStep; hide Occupied; hide BlocksOk;
    InvIsSafe(s, v, capacity);
    NextConsumer(s);
    var u, s' := ConsumerStep(s), Next(s, ConsumerMoves);
    TailLoaded(s, v, capacity, s.h.(sawEmpty := s.h.sawEmpty || Queued(s.h) == 0));
    var b := Target(s.c);
    var v', block := TailSeen(v, b), s.q.blocks[b];
    ConsumerOkMono(u.q, v', u.c, s.h.(sawEmpty := s.h.sawEmpty || Queued(s.h) == 0), s'.h);
    BlockOkAt(s.q, v, b);
    BlocksOkSet(s.q, v, b, block.(localTail := block.tail), v'.k[b]);
    assert SameButShadows(s.q, v, u.q, v');
    ShadowsKeep(s, v, u.q, v', capacity);
    hide SameButShadows; hide BlockOk;
    AfterConsumer(s, u, s', v, v', capacity);
  }

  /** The view after the consumer has made the next block the front block. */
  function FrontMoved(v: View): View
    requires |v.ring| >= 1 && v.live >= 1
  {
    v.(ring := v.ring[1..] + [v.ring[0]], live := v.live - 1)
  }

  lemma RingRotated(n: nat, v: View)
    requires RingShape(n, v) && v.live >= 2
    ensures RingShape(n, FrontMoved(v))
    ensures var r := FrontMoved(v).ring;
            && |r| == |v.ring| && r[|r| - 1] == v.ring[0]
            && (forall i, j :: 0 <= i < |r| - 1 && j == i + 1 ==> r[i] == v.ring[j])
            && (forall i :: 0 <= i < |r| ==> r[i] in v.ring)
  {
    var r := FrontMoved(v).ring;
    forall i, j | 0 <= i < j < |r|
      ensures r[i] != r[j]
    {
      assert r[i] == v.ring[i + 1];
    }
  }

  lemma LinkedRotated<T>(q: Queue<T>, v: View)
    requires RingShape(|q.blocks|, v) && Linked(q, v) && v.live >= 2
    ensures var q', v' := q.(frontBlock := v.ring[1]), FrontMoved(v);
            RingShape(|q'.blocks|, v') && Linked(q', v')
  {
    RingRotated(|q.blocks|, v);
    var v', n := FrontMoved(v), |v.ring|;
    var r := v'.ring;
    forall i | 0 <= i < n
      ensures q.blocks[r[i]].next == r[Succ(i, n)]
    {
      if i == n - 1 {
        assert q.blocks[v.ring[0]].next == v.ring[Succ(0, n)];
        assert r[0] == v.ring[1];
      } else {
        assert q.blocks[v.ring[i + 1]].next == v.ring[Succ(i + 1, n)];
      }
    }
  }

  lemma StreamRotated<T>(q: Queue<T>, v: View, stream: seq<T>, got: int, pending: bool)
    requires RingShape(|q.blocks|, v) && v.live >= 2 && v.k[v.ring[0]].rd == v.k[v.ring[0]].wr
    requires Chained(v, |stream|, got) && HoldsStream(q, v, stream) && Occupied(v, pending) && MiddleFull(q, v)
    ensures var q', v' := q.(frontBlock := v.ring[1]), FrontMoved(v);
            && RingShape(|q'.blocks|, v') && Chained(v', |stream|, got) && HoldsStream(q', v', stream)
            && Occupied(v', pending) && MiddleFull(q', v')
  {
    hide Holds; hide Chained; hide Occupied; hide FrontMoved;
    RingRotated(|q.blocks|, v);
    var q', v' := q.(frontBlock := v.ring[1]), FrontMoved(v);
    var r := v'.ring;
    OccupiedRotated(v, pending);
    ChainRotated(v, |stream|, got);
    assert v'.k == v.k && v'.live == v.live - 1 by { RotationLeavesProducer(q, v, q'); }
    forall i | 0 <= i < v'.live
      ensures Holds(q'.blocks[r[i]], v'.k[r[i]], stream)
    {
      assert Holds(q.blocks[v.ring[i + 1]], v.k[v.ring[i + 1]], stream);
    }
    forall i | 1 <= i < v'.live - 1
      ensures Full(q'.blocks[r[i]], v'.k[r[i]])
    {
      assert Full(q.blocks[v.ring[i + 1]], v.k[v.ring[i + 1]]);
    }
  }

  lemma OccupiedRotated(v: View, pending: bool)
    requires RingShape(|v.k|, v) && v.live >= 2 && v.k[v.ring[0]].rd == v.k[v.ring[0]].wr && Occupied(v, pending)
    ensures RingShape(|v.k|, FrontMoved(v)) && Occupied(FrontMoved(v), pending)
  {
    RingRotated(|v.k|, v);
    var v' := FrontMoved(v);
    var r := v'.ring;
    forall i | v'.live <= i < |r|
      ensures v'.k[r[i]].wr == v'.k[r[i]].rd + if pending && i == v'.live then 1 else 0
    {
      assert i < |r| - 1 ==> r[i] == v.ring[i + 1];
    }
    forall i | 1 <= i < v'.live
      ensures v'.k[r[i]].rd < v'.k[r[i]].wr
    {
      assert r[i] == v.ring[i + 1];
    }
  }

  lemma ChainRotated(v: View, put: int, got: int)
    requires RingShape(|v.k|, v) && v.live >= 2 && v.k[v.ring[0]].rd == v.k[v.ring[0]].wr && Chained(v, put, got)
    ensures RingShape(|v.k|, FrontMoved(v)) && Chained(FrontMoved(v), put, got)
  {
    RingRotated(|v.k|, v);
    var v' := FrontMoved(v);
    var r := v'.ring;
    forall i, j | 0 <= i && j == i + 1 && j < v'.live
      ensures v'.k[r[i]].off + v'.k[r[i]].wr == v'.k[r[j]].off + v'.k[r[j]].rd
    {
      assert r[i] == v.ring[i + 1] && r[j] == v.ring[j + 1];
    }
    assert r[0] == v.ring[1] && r[v'.live - 1] == v.ring[v.live - 1];
  }

  lemma SpaciousRotated<T>(q: Queue<T>, v: View, capacity: nat)
    requires RingShape(|q.blocks|, v) && Spacious(q, v, capacity) && v.live >= 2
    ensures var q', v' := q.(frontBlock := v.ring[1]), FrontMoved(v);
            RingShape(|q'.blocks|, v') && Spacious(q', v', capacity)
  {
    RingRotated(|q.blocks|, v);
    SumRotated(q, v);
    hide SumCap; hide FrontMoved;
    var r := FrontMoved(v).ring;
    forall i | 0 <= i < |r|
      ensures SumCap(q, v.ring) - (q.blocks[r[i]].size - 1) >= capacity
    {
      assert r[i] in v.ring;
    }
  }

  lemma SumRotated<T>(q: Queue<T>, v: View)
    requires RingShape(|q.blocks|, v) && RingShape(|q.blocks|, FrontMoved(v)) && v.live >= 2
    ensures SumCap(q.(frontBlock := v.ring[1]), FrontMoved(v).ring) == SumCap(q, v.ring)
  {
    var x, y := v.ring[0], v.ring[1..];
    assert v.ring == [x] + y;
    SumCapCons(q, x, y);
    SumCapConcat(q, y, [x]);
    SumSingle(q, x);
    SumCapSame(q, q.(frontBlock := v.ring[1]), y + [x]);
  }

  lemma ConsumerMovesFront<T>(s: State<T>, v: View, capacity: nat)
    requires Inv(s, v, capacity) && s.c.StoreFrontBlock?
    ensures v.live >= 2 && Inv(Next(s, ConsumerMoves), FrontMoved(v), capacity)
  {
    hide HoldsStream; hide MiddleFull; hide Spacious; hide SumCap; hide Linked; hide Next; hide Safe; hide Chained;
    hide ProducerOk; hide Slot; hide Occupied; hide BlocksOk; hide FrontMoved;
    InvIsSafe(s, v, capacity);
    NextConsumer(s);
    var u, v' := ConsumerStep(s), FrontMoved(v);
    RingRotated(|s.q.blocks|, v);
    assert u.q == s.q.(frontBlock := v.ring[1]);
    LinkedRotated(s.q, v);
    StreamRotated(s.q, v, s.h.enqueued, |s.h.dequeued|, s.p.StoreTailBlock?);
    SpaciousRotated(s.q, v, capacity);
    RotationLeavesProducer(s.q, v, u.q);
    BlocksOkFrame(s.q, v, u.q, v');
    AfterConsumer(s, u, Next(s, ConsumerMoves), v, v', capacity);
  }

  lemma BlocksOkFrame<T>(q: Queue<T>, v: View, q': Queue<T>, v': View)
    requires BlocksOk(q, v) && q'.blocks == q.blocks && v'.k == v.k
    ensures BlocksOk(q', v')
  {
  }

  lemma RotationLeavesProducer<T>(q: Queue<T>, v: View, q': Queue<T>)
    requires RingShape(|q.blocks|, v) && v.live >= 2 && q'.blocks == q.blocks
    ensures FrontMoved(v).k == v.k && FrontMoved(v).live == v.live - 1
    ensures RingShape(|q'.blocks|, FrontMoved(v)) && LeavesProducer(q, v, q', FrontMoved(v))
  {
    RingRotated(|q.blocks|, v);
    var r := FrontMoved(v).ring;
    assert r[v.live - 2] == v.ring[v.live - 1];
    assert v.live < |v.ring| ==> r[v.live - 1] == v.ring[v.live];
  }

  // ----- an element leaves --------------------------------------------------------------------------------------------------------

  /** The view after the consumer has stored the front index of the front block. */
  function Popped(v: View): View
    requires |v.ring| >= 1 && v.ring[0] < |v.k|
  {
    SetCounters(v, v.ring[0], v.k[v.ring[0]].(rd := v.k[v.ring[0]].rd + 1))
  }

  lemma BlockOkPopped<T>(b: Block<T>, k: Counters)
    requires BlockOk(b, k) && k.rd < k.lt
    ensures BlockOk(b.(front := Bump(b.front, b.size)), k.(rd := k.rd + 1))
  {
    BumpIs(k.rd, b.size);
  }

  lemma HoldsPopped<T>(b: Block<T>, k: Counters, stream: seq<T>)
    requires Holds(b, k, stream)
    ensures Holds(b.(front := Bump(b.front, b.size)), k.(rd := k.rd + 1), stream)
  {
    var b', k' := b.(front := Bump(b.front, b.size)), k.(rd := k.rd + 1);
    forall j | k'.rd <= j < k'.wr
      ensures HoldsAt(b', k', stream, j)
    {
      assert HoldsAt(b, k, stream, j);
    }
  }

  lemma PopKeeps<T>(s: State<T>, v: View, capacity: nat)
    requires Inv(s, v, capacity) && Safe(s) && s.c.StoreFront?
    ensures var u, v' := ConsumerStep(s), Popped(v);
            && RingShape(|u.q.blocks|, v') && Linked(u.q, v') && BlocksOk(u.q, v')
            && HoldsStream(u.q, v', s.h.enqueued) && Spacious(u.q, v', capacity)
  {
    hide MiddleFull; hide Spacious; hide SumCap; hide Linked; hide Safe; hide Chained; hide ProducerOk; hide Slot;
    hide Occupied; hide Holds;
    var f := v.ring[0];
    var block, k, u, v' := s.q.blocks[f], v.k[f], ConsumerStep(s), Popped(v);
    BlockOkAt(s.q, v, f);
    BlockOkPopped(block, k);
    BlocksOkSet(s.q, v, f, block.(front := Bump(block.front, block.size)), v'.k[f]);
    assert Holds(s.q.blocks[v.ring[0]], v.k[v.ring[0]], s.h.enqueued);
    HoldsPopped(block, k, s.h.enqueued);
    HoldsSet(s.q, v, f, block.(front := Bump(block.front, block.size)), v'.k[f], s.h.enqueued, s.h.enqueued);
    assert u.q == SetBlock(s.q, f, block.(front := Bump(block.front, block.size)));
    LinkedSame(s.q, v, u.q, v');
    SpaciousSame(s.q, v, u.q, v', capacity);
  }

  lemma PopProgress<T>(q: Queue<T>, v: View, q': Queue<T>, put: int, got: int, pending: bool)
    requires RingShape(|q.blocks|, v) && Chained(v, put, got) && Occupied(v, pending) && MiddleFull(q, v)
    requires |q'.blocks| == |q.blocks| && forall b :: 0 <= b < |q.blocks| ==> q'.blocks[b].size == q.blocks[b].size
    ensures var v' := Popped(v);
            RingShape(|q'.blocks|, v') && Chained(v', put, got + 1) && Occupied(v', pending) && MiddleFull(q', v')
  {
    var v' := Popped(v);
    forall i | 1 <= i < v.live - 1
      ensures Full(q'.blocks[v.ring[i]], v'.k[v.ring[i]])
    {
      assert Full(q.blocks[v.ring[i]], v.k[v.ring[i]]);
    }
  }

  lemma ConsumerPops<T>(s: State<T>, v: View, capacity: nat)
    requires Inv(s, v, capacity) && s.c.StoreFront?
    ensures RingShape(|v.k|, v) && Inv(Next(s, ConsumerMoves), Popped(v), capacity)
  {
    hide HoldsStream; hide MiddleFull; hide Spacious; hide SumCap; hide Linked; hide Next; hide Safe; hide Chained;
    hide ProducerOk; hide Slot; hide Occupied; hide BlocksOk;
    InvIsSafe(s, v, capacity);
    NextConsumer(s);
    var u, v' := ConsumerStep(s), Popped(v);
    PopKeeps(s, v, capacity);
    PopProgress(s.q, v, u.q, |s.h.enqueued|, |s.h.dequeued|, s.p.StoreTailBlock?);
    AfterConsumer(s, u, Next(s, ConsumerMoves), v, v', capacity);
  }

  // ----- every step keeps the invariant ---------------------------------------------------------------------------------------------

  lemma CallsStart<T>(s: State<T>, v: View, capacity: nat, a: Action<T>)
    requires Inv(s, v, capacity) && (a.StartEnqueue? || a.StartDequeue?)
    ensures Inv(Next(s, a), v, capacity)
  {
    hide HoldsStream; hide MiddleFull; hide Spacious; hide SumCap; hide Linked; hide Chained; hide Slot; hide Occupied;
    hide BlocksOk; hide ProducerStep; hide ConsumerStep; hide RingShape; hide Safe;
    InvIsSafe(s, v, capacity);
    var s' := Next(s, a);
    if a.StartEnqueue? && s.p.ProducerIdle? {
      ProducerLocal(s, s', v, capacity);
    } else if a.StartDequeue? && s.c.ConsumerIdle? {
      ConsumerLocal(s, s', v, capacity);
    } else {
      ProducerOkMono(s.q, v, s.p, s.h.peak, s'.h.peak);
      ConsumerOkMono(s.q, v, s.c, s.h, s'.h);
    }
  }

  /** The view after a step. */
  function NextView<T>(s: State<T>, v: View, a: Action<T>): View
    requires RingShape(|v.k|, v) && |v.k| == |s.q.blocks| && Safe(s)
  {
    match a
    case StartEnqueue(_, _) => v
    case StartDequeue => v
    case ProducerMoves(mallocFails) => (
      match s.p
      case LoadFront(_, _, tb, _) => FrontSeen(v, tb)
      case LoadNextFront(_, nb) => FrontSeen(v, nb)
      case StoreTail(_, tb, _) => Written(v, tb)
      case StoreNextTail(_, nb, _) => Written(v, nb)
      case StoreTailBlock(_, _) => if v.live < |v.ring| then TailMoved(v, |s.h.enqueued|) else v
      case Allocate(_, _) => if mallocFails then v else Allocated(v)
      case StoreNext(_, _, nb) => Inserted(v, nb)
      case _ => v)
    case ConsumerMoves => (
      match s.c
      case ReadTail(fb, _) => TailSeen(v, fb)
      case RereadTail(fb) => TailSeen(v, fb)
      case ReadNextTail(nb, _) => TailSeen(v, nb)
      case StoreFrontBlock(_, _) => FrontMoved(v)
      case StoreFront(_, _, _) => Popped(v)
      case _ => v)
  }

  /** Every step of either thread keeps the invariant. */
  lemma StepKeepsInv<T>(s: State<T>, v: View, capacity: nat, a: Action<T>)
    requires Inv(s, v, capacity)
    ensures RingShape(|v.k|, v) && |v.k| == |s.q.blocks| && Safe(s)
    ensures Inv(Next(s, a), NextView(s, v, a), capacity)
  {
    InvIsSafe(s, v, capacity);
    hide HoldsStream; hide MiddleFull; hide Spacious; hide SumCap; hide Linked; hide Chained; hide Slot; hide Occupied;
    hide BlocksOk; hide ProducerOk; hide ConsumerOk; hide Next; hide Safe;
    hide FrontMoved; hide Inserted; hide TailMoved; hide Popped; hide Written; hide Allocated; hide FrontSeen; hide TailSeen;
    match a
    case StartEnqueue(_, _) => CallsStart(s, v, capacity, a);
    case StartDequeue => CallsStart(s, v, capacity, a);
    case ProducerMoves(mallocFails) => ProducerSteps(s, v, capacity, mallocFails);
    case ConsumerMoves => ConsumerSteps(s, v, capacity);
  }

  lemma ConsumerSteps<T>(s: State<T>, v: View, capacity: nat)
    requires Inv(s, v, capacity) && Safe(s)
    ensures RingShape(|v.k|, v) && |v.k| == |s.q.blocks|
    ensures Inv(Next(s, ConsumerMoves), NextView(s, v, ConsumerMoves), capacity)
  {
    hide HoldsStream; hide MiddleFull; hide Spacious; hide SumCap; hide Linked; hide Chained; hide Slot; hide Occupied;
    hide BlocksOk; hide ConsumerOk; hide ProducerOk; hide Next; hide Safe;
    hide FrontMoved; hide Inserted; hide TailMoved; hide Popped; hide Written; hide Allocated; hide FrontSeen; hide TailSeen;
    match s.c
    case ReadTail(_, _) => ConsumerRefreshes(s, v, capacity);
    case RereadTail(_) => ConsumerRefreshes(s, v, capacity);
    case ReadNextTail(_, _) => ConsumerRefreshes(s, v, capacity);
    case StoreFrontBlock(_, _) => ConsumerMovesFront(s, v, capacity);
    case StoreFront(_, _, _) => ConsumerPops(s, v, capacity);
    case _ => ConsumerReads(s, v, capacity);
  }

  lemma ProducerSteps<T>(s: State<T>, v: View, capacity: nat, mallocFails: bool)
    requires Inv(s, v, capacity) && Safe(s)
    ensures RingShape(|v.k|, v) && |v.k| == |s.q.blocks|
    ensures Inv(Next(s, ProducerMoves(mallocFails)), NextView(s, v, ProducerMoves(mallocFails)), capacity)
  {
    hide HoldsStream; hide MiddleFull; hide Spacious; hide SumCap; hide Linked; hide Chained; hide Slot; hide Occupied;
    hide BlocksOk; hide ConsumerOk; hide ProducerOk; hide Next; hide Safe;
    hide FrontMoved; hide Inserted; hide TailMoved; hide Popped; hide Written; hide Allocated; hide FrontSeen; hide TailSeen;
    if ProducerOnlyReads(s.p, mallocFails) {
      ProducerReads(s, v, capacity, mallocFails);
    } else {
      MallocOnlyForAllocate(s, mallocFails);
      ProducerWrites(s, v, capacity);
    }
  }

  lemma MallocOnlyForAllocate<T>(s: State<T>, mallocFails: bool)
    requires Safe(s) && !ProducerOnlyReads(s.p, mallocFails)
    ensures Next(s, ProducerMoves(mallocFails)) == Next(s, ProducerMoves(false))
  {
    hide Safe;
  }

  lemma ProducerWrites<T>(s: State<T>, v: View, capacity: nat)
    requires Inv(s, v, capacity) && !ProducerOnlyReads(s.p, false) && Safe(s)
    ensures RingShape(|v.k|, v) && |v.k| == |s.q.blocks|
    ensures Inv(Next(s, ProducerMoves(false)), NextView(s, v, ProducerMoves(false)), capacity)
  {
    hide HoldsStream; hide MiddleFull; hide Spacious; hide SumCap; hide Linked; hide Chained; hide Slot; hide Occupied;
    hide BlocksOk; hide ConsumerOk; hide ProducerOk; hide Next; hide Safe;
    hide FrontMoved; hide Inserted; hide TailMoved; hide Popped; hide Written; hide Allocated; hide FrontSeen; hide TailSeen;
    match s.p
    case LoadFront(_, _, tb, _) => ProducerRefreshes(s, v, capacity, tb);
    case LoadNextFront(_, nb) => ProducerRefreshes(s, v, capacity, nb);
    case Construct(_, _, _) => ProducerConstructs(s, v, capacity);
    case ConstructNext(_, _, _) => ProducerConstructs(s, v, capacity);
    case StoreTail(_, _, _) => ProducerStoresTail(s, v, capacity);
    case StoreNextTail(_, _, _) => ProducerStoresNextTail(s, v, capacity);
    case StoreTailBlock(_, _) => ProducerMovesTail(s, v, capacity);
    case Allocate(_, _) => ProducerAllocates(s, v, capacity);
    case StoreNext(_, _, _) => ProducerLinks(s, v, capacity);
  }
}
