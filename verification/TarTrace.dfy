/**
 What the tar mode of the chunker makes of a file, as functions of its bytes: the items of an archive
 read at once, with their payloads cut into chunks; and what reading in windows gives for any file,
 the queue of data chunks and header segments with the items it holds. The file can be put together
 again from these, and they are the items of the archive exactly if no window end clips one.
 */
module TarTrace {
  import opened Bytes
  import FastCdc
  import Chunking
  import opened Tar

  /** A big payload: FastCDC while more than one longest chunk is left. */
  function BigPieces(p: FastCdc.Params, s: seq<Byte>): seq<seq<Byte>>
    requires FastCdc.ParamsOk(p)
    decreases |s|
  {
    if |s| <= p.maxChunkSize then [s]
    else
      var c := Chunking.CutOf(p, Chunking.FastCdcCut, s);
      [s[..c]] + BigPieces(p, s[c..])
  }

  /** The chunks of the payload that a header announces, cut from the rest of the archive. */
  function BodyOf(p: FastCdc.Params, h: Head, rest: seq<Byte>): seq<seq<Byte>>
    requires FastCdc.ParamsOk(p)
  {
    var n := Min(Left(h), |rest|);
    if n == 0 then [] else if h.next == BigChunk then BigPieces(p, rest[..n]) else [rest[..n]]
  }

  function ItemsOf(p: FastCdc.Params, a: seq<Byte>): seq<Item>
    requires FastCdc.ParamsOk(p)
    decreases |a|
  {
    if |a| < HEADER_SIZE then []
    else
      var h, rest := ChunkerHead(a[..HEADER_SIZE]), a[HEADER_SIZE..];
      [Item(a[..HEADER_SIZE], BodyOf(p, h, rest))] + ItemsOf(p, rest[Min(Left(h), |rest|)..])
  }

  // ----- the state of the parser ---------------------------------------------------------------

  const MAX_CHUNK_SIZE := 16384
  const READ_FILE_SIZE := Chunking.READ_FILE_SIZE
  const TAIL_SIZE := Chunking.TAIL_SIZE
  const RUN_SIZE := CONTAINER_MAX_SIZE - MAX_CHUNK_SIZE

  ghost predicate ParamsFit(p: FastCdc.Params) {
    FastCdc.ParamsOk(p) && p.maxChunkSize <= MAX_CHUNK_SIZE
  }

  /** The state of CutPointTarFast. */
  datatype Cut = Cut(next: BlockType, size: nat, big: nat, offset: nat)

  const Between := Cut(FileHeader, 0, 0, 0)

  /** Between items the size fields of the state play no part. */
  function Canon(c: Cut): Cut { if c.next == FileHeader then Between else c }

  function CutAfter(block: seq<Byte>): (c: Cut)
    requires |block| == HEADER_SIZE
    ensures c == Canon(c) && c.offset == 0
  {
    var h := ChunkerHead(block);
    Canon(Cut(h.next, h.size, if h.next == BigChunk then h.big else 0, 0))
  }

  /** The bytes of the current payload that are still to come. */
  function Ahead(c: Cut, s: seq<Byte>): (n: nat)
    ensures n <= |s|
  {
    match c.next
    case FileHeader => 0
    case FileChunk => Min(RoundUp(c.size), |s|)
    case BigChunk => if c.big <= c.offset then 0 else Min(c.big - c.offset, |s|)
  }

  // ----- reading in windows --------------------------------------------------------------------

  /** Where CutPointTarHeader is: not called, in the loop over headers, behind it, or in a big payload. */
  datatype Mode = Call | Seg(collected: seq<Byte>) | Flush(collected: seq<Byte>) | Run(done: nat)

  /** The parser in the window that begins at `w`. */
  datatype Point = Point(w: nat, pos: nat, c: Cut, m: Mode)

  /** A block taken, or a segment queued. `whole` is false if a window end or the end of the file
      clips the header, or a window end the payload. */
  datatype Out = Silent | Header(block: seq<Byte>, whole: bool) | Payload(bytes: seq<Byte>, whole: bool) | Segment(headers: seq<Byte>)

  /** The parser goes astray where it asks for a header beyond the read buffer, or for a big payload
      that the file does not hold. */
  datatype Move = End | Stray | To(next: Point, out: Out)

  predicate LastWindow(a: seq<Byte>, w: nat) { |a| < w + READ_FILE_SIZE }

  function WindowEnd(a: seq<Byte>, w: nat): nat {
    if LastWindow(a, w) then |a| else w + READ_FILE_SIZE
  }

  /** The points that are reached. */
  ghost predicate Placed(a: seq<Byte>, x: Point) {
    && x.w <= x.pos <= WindowEnd(a, x.w) <= |a| && x.c == Canon(x.c) && x.c.offset <= x.c.big
    && match x.m
       case Call => x.c.next != FileChunk
       case Seg(collected) => x.pos < WindowEnd(a, x.w) && (collected == [] ==> x.c.next == FileHeader)
       case Flush(collected) => x.c.next != FileChunk && collected != []
       case Run(done) =>
         && x.c.next != FileChunk && (x.c.next == BigChunk ==> x.pos < |a|)
         && (!LastWindow(a, x.w) ==> done <= x.pos - x.w && TAIL_SIZE <= WindowEnd(a, x.w) - (x.pos - done))
  }

  function Rank(c: Cut): nat {
    match c.next
    case FileHeader => 0
    case FileChunk => 1
    case BigChunk => 2
  }

  function ModeRank(x: Point): nat {
    match x.m
    case Call => 1
    case Seg(collected) => if collected == [] then 0 else 3
    case Flush(_) => 2
    case Run(done) => if done == 0 && x.c.next == BigChunk then 0 else 2
  }

  ghost predicate Closer(a: seq<Byte>, y: Point, x: Point) {
    || y.pos > x.pos
    || (y.pos == x.pos && (y.w > x.w
        || (y.w == x.w && (Rank(y.c) < Rank(x.c) || (Rank(y.c) == Rank(x.c) && ModeRank(y) < ModeRank(x))))))
  }

  /** The next chunk inside a big payload, and the state after it. */
  function NextCut(p: FastCdc.Params, c: Cut, s: seq<Byte>): (r: (nat, Cut))
    requires FastCdc.ParamsOk(p) && c.next == BigChunk && c.offset <= c.big && c.big - c.offset <= |s|
    ensures r.0 <= p.maxChunkSize && r.0 <= |s| && r.1 == Canon(r.1) && r.1.next != FileChunk && r.1.offset <= r.1.big
    ensures r.1.next == BigChunk ==> 0 < r.0 < |s| && r.1.big - r.1.offset <= |s| - r.0
    ensures r.0 == 0 ==> r.1 == Between
  {
    var left := c.big - c.offset;
    if left > p.maxChunkSize
    then
      var cp := Chunking.CutOf(p, Chunking.FastCdcCut, s[..left]);
      (cp, c.(offset := c.offset + cp))
    else (left, Between)
  }

  /** The parser looks at the first 157 bytes of a header. */
  const HEADER_READ := 157

  /** A header. At the end of the window the next block is taken for a header whatever this one says. */
  function HeaderMove(a: seq<Byte>, x: Point): (r: Move)
    requires Placed(a, x) && x.m.Seg? && x.c.next == FileHeader
    ensures r.To? ==> Placed(a, r.next) && x.pos < r.next.pos && r.out.Header?
  {
    hide CutAfter, Ahead;
    var end := WindowEnd(a, x.w);
    if x.pos + HEADER_READ > x.w + READ_FILE_SIZE then Stray
    else
      var n := Min(HEADER_SIZE, end - x.pos);
      var block, at := a[x.pos..x.pos + n], x.pos + n;
      var d := if n == HEADER_SIZE then CutAfter(block) else Between;
      if at == end then To(Point(x.w, at, Between, Flush(x.m.collected + block)), Header(block, n == HEADER_SIZE && Ahead(d, a[at..]) == 0))
      else To(Point(x.w, at, d, Seg(x.m.collected + block)), Header(block, true))
  }

  /** The payload of a small file, as far as the window shows it. */
  function FileMove(a: seq<Byte>, x: Point): (r: Move)
    requires Placed(a, x) && x.m.Seg? && x.c.next == FileChunk
    ensures r.To? && Placed(a, r.next) && x.pos <= r.next.pos && r.next.w == x.w && r.next.c == Between
  {
    hide RoundUp, Ahead;
    var end := WindowEnd(a, x.w);
    var n := Min(RoundUp(x.c.size), end - x.pos);
    var at := x.pos + n;
    To(Point(x.w, at, Between, if at == end then Flush(x.m.collected) else x.m),
       if n == 0 then Silent else Payload(a[x.pos..at], n == Ahead(x.c, a[x.pos..])))
  }

  /** A chunk of a big payload. */
  function BigMove(p: FastCdc.Params, a: seq<Byte>, x: Point): (r: Move)
    requires ParamsFit(p) && Placed(a, x) && x.m.Run? && x.c.next == BigChunk && x.m.done < RUN_SIZE
    ensures r.To? ==> Placed(a, r.next) && r.next.w == x.w && (x.pos < r.next.pos || (x.pos == r.next.pos && r.next.c == Between))
  {
    hide NextCut;
    if x.c.big - x.c.offset > |a| - x.pos then Stray
    else
      var cut := NextCut(p, x.c, a[x.pos..]);
      To(Point(x.w, x.pos + cut.0, cut.1, Run(x.m.done + cut.0)), Payload(a[x.pos..x.pos + cut.0], true))
  }

  function Step(p: FastCdc.Params, a: seq<Byte>, x: Point): (r: Move)
    requires ParamsFit(p) && Placed(a, x)
    ensures r.To? ==> Placed(a, r.next) && Closer(a, r.next, x)
    ensures r.To? && x.c.next == FileHeader ==> r.out.Header? || (!r.out.Payload? && r.next.c.next == FileHeader)
  {
    hide HeaderMove, FileMove, BigMove;
    match x.m
    case Call =>
      if LastWindow(a, x.w) && x.pos == |a| then End
      else if !LastWindow(a, x.w) && WindowEnd(a, x.w) - x.pos < TAIL_SIZE then To(x.(w := x.pos), Silent)
      else To(x.(m := if x.c.next == FileHeader then Seg([]) else Run(0)), Silent)
    case Seg(collected) =>
      if x.c.next == FileChunk then FileMove(a, x)
      else if x.c.next == FileHeader && |collected| < MULTI_HEADER_SIZE then HeaderMove(a, x)
      else To(x.(m := Flush(collected)), Silent)
    case Flush(collected) => To(x.(m := Call), Segment(collected))
    case Run(done) =>
      if x.c.next == BigChunk && done < RUN_SIZE then BigMove(p, a, x) else To(x.(m := Call), Silent)
  }

  /** What is still to come: the `queue`, the chunks of the current item, and the items after it. `ok`
      is false if the parser goes astray, and `whole` if it does or anything is clipped. */
  datatype Parsed = Parsed(ok: bool, whole: bool, queue: seq<Piece>, body: seq<seq<Byte>>, items: seq<Item>)

  const Finished := Parsed(true, true, [], [], [])
  const Astray := Parsed(false, false, [], [], [])

  function After(out: Out, r: Parsed): Parsed {
    match out
    case Silent => r
    case Header(block, whole) => Parsed(r.ok, whole && r.whole, r.queue, [], [Item(block, r.body)] + r.items)
    case Payload(bytes, whole) => Parsed(r.ok, whole && r.whole, [Piece(bytes, false)] + r.queue, [bytes] + r.body, r.items)
    case Segment(headers) => r.(queue := [Piece(headers, true)] + r.queue)
  }

  /** The chunker from any point on. */
  function Parse(p: FastCdc.Params, a: seq<Byte>, x: Point): (r: Parsed)
    requires ParamsFit(p) && Placed(a, x)
    ensures x.c.next == FileHeader ==> r.body == []
    ensures r.whole ==> r.ok
    decreases |a| - x.pos, |a| - x.w, Rank(x.c), ModeRank(x)
  {
    hide Step, Placed;
    match Step(p, a, x)
    case End => Finished
    case Stray => Astray
    case To(y, out) => PlacedBounds(a, y); After(out, Parse(p, a, y))
  }

  lemma PlacedBounds(a: seq<Byte>, x: Point)
    requires Placed(a, x)
    ensures x.w <= x.pos <= |a|
  {
  }

  const StartPoint := Point(0, 0, Between, Call)

  /** A file read from its beginning. */
  function ReadInWindows(p: FastCdc.Params, a: seq<Byte>): Parsed
    requires ParamsFit(p)
  {
    Parse(p, a, StartPoint)
  }

  // ----- the items are the archive -------------------------------------------------------------

  lemma Front(it: Item, items: seq<Item>)
    ensures Heads([it] + items) == it.head + Heads(items)
    ensures DataChunks([it] + items) == it.body + DataChunks(items)
    ensures Joined([it] + items) == it.head + Flatten(it.body) + Joined(items)
  {
    hide Heads, DataChunks, Joined;
    FrontHead(it, items);
    FrontBody(it, items);
    FrontJoined(it, items);
  }

  lemma {:induction false} FrontHead(it: Item, items: seq<Item>)
    ensures Heads([it] + items) == it.head + Heads(items)
  {
    var all, n := [it] + items, |items|;
    if n == 0 {
      assert all[..0] == [];
    } else {
      assert all[..n] == [it] + items[..n - 1];
      FrontHead(it, items[..n - 1]);
    }
  }

  lemma {:induction false} FrontBody(it: Item, items: seq<Item>)
    ensures DataChunks([it] + items) == it.body + DataChunks(items)
  {
    var all, n := [it] + items, |items|;
    if n == 0 {
      assert all[..0] == [];
    } else {
      assert all[..n] == [it] + items[..n - 1];
      FrontBody(it, items[..n - 1]);
    }
  }

  lemma {:induction false} FrontJoined(it: Item, items: seq<Item>)
    ensures Joined([it] + items) == it.head + Flatten(it.body) + Joined(items)
  {
    hide Flatten;
    var all, n := [it] + items, |items|;
    if n == 0 {
      assert all[..0] == [];
    } else {
      assert all[..n] == [it] + items[..n - 1];
      FrontJoined(it, items[..n - 1]);
    }
  }

  lemma {:induction false} BigPiecesJoin(p: FastCdc.Params, s: seq<Byte>)
    requires FastCdc.ParamsOk(p) && s != []
    ensures Flatten(BigPieces(p, s)) == s && BigPieces(p, s) != [] && ShortAll(BigPieces(p, s), p.maxChunkSize)
    decreases |s|
  {
    hide Flatten, Chunking.CutOf, FastCdc.ParamsOk;
    if |s| <= p.maxChunkSize {
      FlattenSingle(s);
    } else {
      var c := Chunking.CutOf(p, Chunking.FastCdcCut, s);
      var rest := BigPieces(p, s[c..]);
      BigPiecesJoin(p, s[c..]);
      FlattenConcat([s[..c]], rest);
      FlattenSingle(s[..c]);
      assert s == s[..c] + s[c..];
      ShortFront(s[..c], rest, p.maxChunkSize);
    }
  }

  /** No chunk is empty or longer than `max`. */
  ghost predicate ShortAll(chunks: seq<seq<Byte>>, max: nat) {
    forall k :: 0 <= k < |chunks| ==> 0 < |chunks[k]| <= max
  }

  lemma ShortFront(chunk: seq<Byte>, chunks: seq<seq<Byte>>, max: nat)
    requires ShortAll(chunks, max) && 0 < |chunk| <= max
    ensures ShortAll([chunk] + chunks, max)
  {
  }

  lemma FlattenSingle(s: seq<Byte>)
    ensures Flatten([s]) == s
  {
    FlattenPush([], s);
    assert [] + [s] == [s];
  }

  /** The body of an item joins to the bytes it was cut from, and is what its header announces,
      unless the archive ends with the header. */
  lemma BodyJoins(p: FastCdc.Params, head: seq<Byte>, rest: seq<Byte>)
    requires FastCdc.ParamsOk(p) && p.maxChunkSize <= CONTAINER_MAX_SIZE && GoodHead(head)
    requires ChunkerHead(head).next == BigChunk && rest != [] ==> Left(ChunkerHead(head)) <= |rest|
    ensures var h := ChunkerHead(head);
            var body := BodyOf(p, h, rest);
            && Flatten(body) == rest[..Min(Left(h), |rest|)]
            && SizesOk(body)
            && (Complete(Item(head, body)) || (rest == [] && body == []))
  {
    hide SizeField;
    var h := ChunkerHead(head);
    GoodLeft(head);
    var n := Min(Left(h), |rest|);
    if n > 0 {
      if h.next == BigChunk {
        BigPiecesJoin(p, rest[..n]);
      } else {
        FlattenSingle(rest[..n]);
      }
    }
  }

  lemma {:induction false} ItemsMean(p: FastCdc.Params, a: seq<Byte>)
    requires FastCdc.ParamsOk(p) && p.maxChunkSize <= CONTAINER_MAX_SIZE && WellFormed(a)
    ensures Joined(ItemsOf(p, a)) == a && ItemsOk(ItemsOf(p, a)) && SizesOk(DataChunks(ItemsOf(p, a)))
    decreases |a|
  {
    hide GoodHead, Complete, ChunkerHead, BodyOf, Heads, DataChunks, Joined, Flatten, ItemsOk, SizesOk;
    if a == [] {
      NoItems();
    } else {
      var head, rest := a[..HEADER_SIZE], a[HEADER_SIZE..];
      var h := ChunkerHead(head);
      var n := Min(Left(h), |rest|);
      var it, more := Item(head, BodyOf(p, h, rest)), ItemsOf(p, rest[n..]);
      BodyJoins(p, head, rest);
      assert rest == [] ==> rest[n..] == [];
      if rest == [] {
        EmptyIsWellFormed();
      }
      ItemsMean(p, rest[n..]);
      NoItems();
      Front(it, more);
      assert a == head + rest[..n] + rest[n..];
      ItemsOkFront(it, more);
      SizesConcat(it.body, DataChunks(more));
    }
  }

  lemma NoItems()
    ensures Joined([]) == [] && ItemsOk([]) && DataChunks([]) == [] && SizesOk([])
  {
  }

  lemma EmptyIsWellFormed()
    ensures WellFormed([])
  {
  }

  lemma SizesConcat(a: seq<seq<Byte>>, b: seq<seq<Byte>>)
    requires SizesOk(a) && SizesOk(b)
    ensures SizesOk(a + b)
  {
  }

  lemma ItemsOkFront(it: Item, more: seq<Item>)
    requires ItemsOk(more) && (Complete(it) || (more == [] && GoodHead(it.head) && it.body == []))
    ensures ItemsOk([it] + more)
  {
    hide Complete, GoodHead;
    var all := [it] + more;
    forall i | 0 <= i < |all| ensures Complete(all[i]) || (i == |all| - 1 && GoodHead(all[i].head) && all[i].body == []) {
      assert i > 0 ==> all[i] == more[i - 1];
    }
  }

  // ----- the queue holds the items, and they join to the file ------------------------------------

  function Collected(m: Mode): seq<Byte> { if m.Seg? || m.Flush? then m.collected else [] }

  /** Header segments join to the heads, data chunks are the bodies. */
  ghost predicate Holds(r: Parsed, collected: seq<Byte>, s: seq<Byte>) {
    && Flatten(Bodies(r.queue, true)) == collected + Heads(r.items)
    && Bodies(r.queue, false) == r.body + DataChunks(r.items)
    && Flatten(r.body) + Joined(r.items) == s
  }

  /** What a step takes from the file, and what it leaves collected. */
  lemma StepTakes(p: FastCdc.Params, a: seq<Byte>, x: Point)
    requires ParamsFit(p) && Placed(a, x)
    ensures Step(p, a, x).End? ==> Collected(x.m) == [] && x.pos == |a|
    ensures Step(p, a, x).To? ==>
              var y, out, was := Step(p, a, x).next, Step(p, a, x).out, Collected(x.m);
              && x.pos <= y.pos <= |a|
              && match out
                 case Silent => y.pos == x.pos && Collected(y.m) == was
                 case Header(block, _) => a[x.pos..] == block + a[y.pos..] && Collected(y.m) == was + block && |was| < MULTI_HEADER_SIZE && block != []
                 case Payload(bytes, _) => a[x.pos..] == bytes + a[y.pos..] && Collected(y.m) == was
                 case Segment(headers) => y.pos == x.pos && headers == was != [] && Collected(y.m) == []
  {
    hide CutAfter, RoundUp, NextCut, Ahead;
  }

  lemma {:induction false} ParseHolds(p: FastCdc.Params, a: seq<Byte>, x: Point)
    requires ParamsFit(p) && Placed(a, x) && Parse(p, a, x).ok
    ensures Holds(Parse(p, a, x), Collected(x.m), a[x.pos..])
    decreases |a| - x.pos, |a| - x.w, Rank(x.c), ModeRank(x)
  {
    hide Holds, Step, Placed, Collected;
    PlacedBounds(a, x);
    StepTakes(p, a, x);
    match Step(p, a, x)
    case End => FinishedHolds(a[x.pos..]);
    case Stray =>
    case To(y, out) =>
      PlacedBounds(a, y);
      var r := Parse(p, a, y);
      ParseHolds(p, a, y);
      match out
      case Silent =>
      case Header(block, whole) => HeadHolds(block, Collected(x.m), whole, r, a[y.pos..]);
      case Payload(bytes, whole) => ChunkHolds(bytes, Collected(x.m), whole, r, a[y.pos..]);
      case Segment(headers) => SegmentHolds(headers, r, a[y.pos..]);
  }

  lemma FinishedHolds(s: seq<Byte>)
    requires s == []
    ensures Holds(Finished, [], s)
  {
  }

  lemma SegmentHolds(segment: seq<Byte>, r: Parsed, s: seq<Byte>)
    requires Holds(r, [], s)
    ensures Holds(After(Segment(segment), r), segment, s)
  {
    hide Flatten, Bodies, Heads, DataChunks, Joined;
    OneSegment(segment, r.queue);
  }

  lemma HeadHolds(head: seq<Byte>, collected: seq<Byte>, whole: bool, r: Parsed, s: seq<Byte>)
    requires Holds(r, collected + head, s)
    ensures Holds(After(Header(head, whole), r), collected, head + s)
  {
    hide Bodies, Heads, DataChunks, Joined;
    Front(Item(head, r.body), r.items);
  }

  lemma ChunkHolds(chunk: seq<Byte>, collected: seq<Byte>, whole: bool, r: Parsed, s: seq<Byte>)
    requires Holds(r, collected, s)
    ensures Holds(After(Payload(chunk, whole), r), collected, chunk + s)
  {
    hide Bodies, Heads, DataChunks, Joined, Flatten;
    OnePiece(chunk);
    PiecesThen([chunk], r.queue);
    FlattenConcat([chunk], r.body);
    FlattenSingle(chunk);
  }

  lemma OnePiece(chunk: seq<Byte>)
    ensures DataPieces([chunk]) == [Piece(chunk, false)]
  {
  }

  /** A segment in front of a queue. */
  lemma OneSegment(segment: seq<Byte>, q: seq<Piece>)
    ensures Bodies([Piece(segment, true)] + q, true) == [segment] + Bodies(q, true)
    ensures Bodies([Piece(segment, true)] + q, false) == Bodies(q, false)
    ensures Flatten([segment] + Bodies(q, true)) == segment + Flatten(Bodies(q, true))
  {
    BodiesPush([], Piece(segment, true), true);
    BodiesPush([], Piece(segment, true), false);
    assert [] + [Piece(segment, true)] == [Piece(segment, true)] && [] + [segment] == [segment];
    BodiesConcat([Piece(segment, true)], q, true);
    BodiesConcat([Piece(segment, true)], q, false);
    FlattenConcat([segment], Bodies(q, true));
    FlattenSingle(segment);
  }

  /** Data chunks in front of a queue. */
  lemma PiecesThen(body: seq<seq<Byte>>, q: seq<Piece>)
    ensures Bodies(DataPieces(body) + q, true) == Bodies(q, true)
    ensures Bodies(DataPieces(body) + q, false) == body + Bodies(q, false)
  {
    BodiesConcat(DataPieces(body), q, true);
    BodiesConcat(DataPieces(body), q, false);
    DataPiecesAreBodies(body);
    NoHeaderBodies(body);
  }

  /** No header is clipped. */
  ghost predicate FullHeads(items: seq<Item>) {
    forall i :: 0 <= i < |items| ==> |items[i].head| == HEADER_SIZE
  }

  /** Segments of whole headers have at most sixteen of them. */
  lemma {:induction false} SegmentsFit(p: FastCdc.Params, a: seq<Byte>, x: Point)
    requires ParamsFit(p) && Placed(a, x) && FullHeads(Parse(p, a, x).items)
    requires |Collected(x.m)| <= MULTI_HEADER_SIZE && |Collected(x.m)| % HEADER_SIZE == 0
    ensures SegmentsOk(Bodies(Parse(p, a, x).queue, true))
    decreases |a| - x.pos, |a| - x.w, Rank(x.c), ModeRank(x)
  {
    hide Step, Placed, FullHeads, SegmentsOk, Bodies;
    NoSegments();
    PlacedBounds(a, x);
    StepTakes(p, a, x);
    match Step(p, a, x)
    case End =>
    case Stray =>
    case To(y, out) =>
      PlacedBounds(a, y);
      var r := Parse(p, a, y);
      if out.Header? {
        HeadsAfter(out.block, r);
      }
      SegmentsFit(p, a, y);
      if out.Payload? {
        ChunkFits(out.bytes, r.queue);
      } else if out.Segment? {
        SegmentFits(out.headers, r.queue);
      }
  }

  lemma NoSegments()
    ensures SegmentsOk(Bodies([], true))
  {
  }

  lemma HeadsAfter(head: seq<Byte>, r: Parsed)
    ensures FullHeads([Item(head, r.body)] + r.items) ==> |head| == HEADER_SIZE && FullHeads(r.items)
  {
    var items := [Item(head, r.body)] + r.items;
    if FullHeads(items) {
      assert items[0].head == head;
      forall i | 0 <= i < |r.items| ensures |r.items[i].head| == HEADER_SIZE {
        assert items[i + 1] == r.items[i];
      }
    }
  }

  lemma SegmentFits(segment: seq<Byte>, q: seq<Piece>)
    requires SegmentsOk(Bodies(q, true)) && 0 < |segment| <= MULTI_HEADER_SIZE && |segment| % HEADER_SIZE == 0
    ensures SegmentsOk(Bodies([Piece(segment, true)] + q, true))
  {
    hide Bodies;
    OneSegment(segment, q);
  }

  lemma ChunkFits(chunk: seq<Byte>, q: seq<Piece>)
    requires SegmentsOk(Bodies(q, true))
    ensures SegmentsOk(Bodies([Piece(chunk, false)] + q, true))
  {
    hide Bodies;
    OnePiece(chunk);
    PiecesThen([chunk], q);
  }

  // ----- when windows keep the items ---------------------------------------------------------------

  /** The rest of the archive is what the state expects. */
  ghost predicate Expects(c: Cut, s: seq<Byte>) {
    && WellFormed(s[Ahead(c, s)..])
    && (c.next == FileChunk ==> c.size <= CONTAINER_MAX_SIZE)
    && (c.next == BigChunk ==> c.offset < c.big && (s == [] || c.big - c.offset <= |s|))
  }

  /** The chunks that are still due for the current item. */
  function Due(p: FastCdc.Params, c: Cut, s: seq<Byte>): seq<seq<Byte>>
    requires FastCdc.ParamsOk(p)
  {
    var n := Ahead(c, s);
    if n == 0 then [] else if c.next == BigChunk then BigPieces(p, s[..n]) else [s[..n]]
  }

  /** What is left of the archive, read at once. */
  ghost predicate AtOnce(p: FastCdc.Params, c: Cut, s: seq<Byte>, r: Parsed)
    requires FastCdc.ParamsOk(p)
  {
    r.body == Due(p, c, s) && r.items == ItemsOf(p, s[Ahead(c, s)..])
  }

  /** Reading in windows gives the items of a well-formed archive if and only if none is clipped. */
  lemma {:induction false} WholeIff(p: FastCdc.Params, a: seq<Byte>, x: Point)
    requires ParamsFit(p) && Placed(a, x) && Expects(x.c, a[x.pos..])
    ensures Parse(p, a, x).whole <==> AtOnce(p, x.c, a[x.pos..], Parse(p, a, x))
    decreases |a| - x.pos, |a| - x.w, Rank(x.c), ModeRank(x)
  {
    hide Step, Placed, Expects, AtOnce;
    PlacedBounds(a, x);
    match Step(p, a, x)
    case End =>
      StepTakes(p, a, x);
      FinishedAtOnce(p, x.c, a[x.pos..]);
    case Stray => StrayClips(p, a, x);
    case To(y, out) =>
      PlacedBounds(a, y);
      StepKeeps(p, a, x, Parse(p, a, y));
      if !Clips(out) {
        WholeIff(p, a, y);
      }
  }

  predicate Clips(out: Out) { (out.Header? || out.Payload?) && !out.whole }

  lemma StrayClips(p: FastCdc.Params, a: seq<Byte>, x: Point)
    requires ParamsFit(p) && Placed(a, x) && Expects(x.c, a[x.pos..]) && Step(p, a, x).Stray?
    ensures !AtOnce(p, x.c, a[x.pos..], Astray)
  {
    hide AtOnce, RoundUp, NextCut, WellFormed;
    if x.m.Seg? {
      HeaderThere(a[x.pos..]);
      ClippedHead(p, a[x.pos..], Astray);
    }
  }

  /** A step that clips nothing leaves what is to come as it would be at once, and only such a step. */
  lemma StepKeeps(p: FastCdc.Params, a: seq<Byte>, x: Point, r: Parsed)
    requires ParamsFit(p) && Placed(a, x) && Expects(x.c, a[x.pos..]) && Step(p, a, x).To?
    requires Step(p, a, x).next.c.next == FileHeader ==> r.body == []
    ensures var y, out := Step(p, a, x).next, Step(p, a, x).out;
            && x.pos <= y.pos <= |a|
            && if Clips(out) then !AtOnce(p, x.c, a[x.pos..], After(out, r))
               else Expects(y.c, a[y.pos..]) && (AtOnce(p, y.c, a[y.pos..], r) <==> AtOnce(p, x.c, a[x.pos..], After(out, r)))
  {
    hide AtOnce, Expects, RoundUp, NextCut, HeaderMove, CutAfter;
    if x.m.Seg? && x.c.next == FileHeader && |x.m.collected| < MULTI_HEADER_SIZE {
      HeaderKeeps(p, a, x, r);
    } else if x.m.Seg? && x.c.next == FileChunk {
      FileKeeps(p, a, x, r);
    } else if x.m.Run? && x.c.next == BigChunk && x.m.done < RUN_SIZE {
      BigExpects(p, x.c, a[x.pos..]);
      var cut := NextCut(p, x.c, a[x.pos..]);
      assert a[x.pos..][..cut.0] == a[x.pos..x.pos + cut.0] && a[x.pos..][cut.0..] == a[x.pos + cut.0..];
      BigAtOnce(p, x.c, a[x.pos..], r);
    } else if x.m.Flush? {
      SameItems(p, x.c, a[x.pos..], x.m.collected, r);
    }
  }

  lemma HeaderKeeps(p: FastCdc.Params, a: seq<Byte>, x: Point, r: Parsed)
    requires ParamsFit(p) && Placed(a, x) && Expects(x.c, a[x.pos..]) && x.m.Seg? && x.c.next == FileHeader
    requires var m := HeaderMove(a, x);
             m.To? && (m.next.c.next == FileHeader ==> r.body == [])
    ensures var m := HeaderMove(a, x);
            && x.pos <= m.next.pos <= |a|
            && if Clips(m.out) then !AtOnce(p, x.c, a[x.pos..], After(m.out, r))
               else Expects(m.next.c, a[m.next.pos..]) && (AtOnce(p, m.next.c, a[m.next.pos..], r) <==> AtOnce(p, x.c, a[x.pos..], After(m.out, r)))
  {
    hide AtOnce, Expects, CutAfter, Ahead, RoundUp, NextCut;
    var s, end := a[x.pos..], WindowEnd(a, x.w);
    var n := Min(HEADER_SIZE, end - x.pos);
    var rest := a[x.pos + n..];
    assert a[x.pos..x.pos + n] == s[..n] && rest == s[n..];
    HeaderThere(s);
    if n < HEADER_SIZE {
      ClippedHead(p, s, After(Header(s[..n], false), r));
    } else {
      var d := CutAfter(s[..n]);
      if x.pos + n == end && Ahead(d, rest) > 0 {
        ClippedPayload(p, s, r);
      } else {
        HeaderExpects(s);
        HeadAtOnce(p, s, true, r);
        if x.pos + n == end {
          NothingDue(p, d, rest, r);
        }
      }
    }
  }

  lemma FileKeeps(p: FastCdc.Params, a: seq<Byte>, x: Point, r: Parsed)
    requires ParamsFit(p) && Placed(a, x) && Expects(x.c, a[x.pos..]) && x.m.Seg? && x.c.next == FileChunk && r.body == []
    ensures var m := FileMove(a, x);
            && x.pos <= m.next.pos <= |a|
            && if Clips(m.out) then !AtOnce(p, x.c, a[x.pos..], After(m.out, r))
               else Expects(m.next.c, a[m.next.pos..]) && (AtOnce(p, m.next.c, a[m.next.pos..], r) <==> AtOnce(p, x.c, a[x.pos..], After(m.out, r)))
  {
    hide AtOnce, Expects, RoundUp;
    var s, end := a[x.pos..], WindowEnd(a, x.w);
    var n := Min(RoundUp(x.c.size), end - x.pos);
    assert a[x.pos..x.pos + n] == s[..n] && a[x.pos + n..] == s[n..];
    if n == Ahead(x.c, s) {
      FileExpects(x.c, s);
      FileAtOnce(p, x.c, s, r);
    } else {
      ClippedFile(p, x.c, s, n, r);
    }
  }

  lemma FinishedAtOnce(p: FastCdc.Params, c: Cut, s: seq<Byte>)
    requires FastCdc.ParamsOk(p) && s == []
    ensures AtOnce(p, c, s, Finished)
  {
    assert s[0..] == [];
  }

  lemma SameItems(p: FastCdc.Params, c: Cut, s: seq<Byte>, segment: seq<Byte>, r: Parsed)
    requires FastCdc.ParamsOk(p)
    ensures AtOnce(p, c, s, After(Segment(segment), r)) <==> AtOnce(p, c, s, r)
  {
  }

  lemma HeaderThere(s: seq<Byte>)
    requires Expects(Between, s) && s != []
    ensures |s| >= HEADER_SIZE
  {
    assert s[0..] == s;
  }

  lemma HeaderExpects(s: seq<Byte>)
    requires Expects(Between, s) && |s| >= HEADER_SIZE
    ensures Expects(CutAfter(s[..HEADER_SIZE]), s[HEADER_SIZE..])
  {
    hide GoodHead, ChunkerHead;
    assert s[0..] == s;
    var head, rest := s[..HEADER_SIZE], s[HEADER_SIZE..];
    var d := CutAfter(head);
    GoodLeft(head);
    EmptyIsWellFormed();
    if rest == [] {
      assert rest[Ahead(d, rest)..] == [];
    }
  }

  /** The item of a header, and the items after it. */
  lemma FirstItem(p: FastCdc.Params, s: seq<Byte>)
    requires FastCdc.ParamsOk(p) && |s| >= HEADER_SIZE
    ensures var d, rest := CutAfter(s[..HEADER_SIZE]), s[HEADER_SIZE..];
            ItemsOf(p, s) == [Item(s[..HEADER_SIZE], Due(p, d, rest))] + ItemsOf(p, rest[Ahead(d, rest)..])
  {
    hide ChunkerHead, BigPieces;
  }

  lemma HeadAtOnce(p: FastCdc.Params, s: seq<Byte>, whole: bool, r: Parsed)
    requires FastCdc.ParamsOk(p) && |s| >= HEADER_SIZE
    ensures AtOnce(p, CutAfter(s[..HEADER_SIZE]), s[HEADER_SIZE..], r)
       <==> AtOnce(p, Between, s, After(Header(s[..HEADER_SIZE], whole), r))
  {
    hide CutAfter, ItemsOf, BigPieces;
    FirstItem(p, s);
    assert s[0..] == s && Due(p, Between, s) == [];
    hide Due;
    var items, more := After(Header(s[..HEADER_SIZE], whole), r).items, ItemsOf(p, s);
    if items == more {
      assert items[0] == more[0] && items[1..] == more[1..];
    }
  }

  lemma ClippedHead(p: FastCdc.Params, s: seq<Byte>, r: Parsed)
    requires FastCdc.ParamsOk(p) && |s| >= HEADER_SIZE && (r.items == [] || |r.items[0].head| < HEADER_SIZE)
    ensures !AtOnce(p, Between, s, r)
  {
    hide CutAfter, Due;
    FirstItem(p, s);
    assert s[0..] == s && |ItemsOf(p, s)[0].head| == HEADER_SIZE;
  }

  /** With no payload to come it makes no difference which block is expected. */
  lemma NothingDue(p: FastCdc.Params, d: Cut, s: seq<Byte>, r: Parsed)
    requires FastCdc.ParamsOk(p) && Ahead(d, s) == 0
    ensures AtOnce(p, d, s, r) <==> AtOnce(p, Between, s, r)
    ensures Expects(d, s) ==> Expects(Between, s)
  {
  }

  lemma ClippedPayload(p: FastCdc.Params, s: seq<Byte>, r: Parsed)
    requires FastCdc.ParamsOk(p) && |s| >= HEADER_SIZE && r.body == []
    requires Ahead(CutAfter(s[..HEADER_SIZE]), s[HEADER_SIZE..]) > 0
    ensures !AtOnce(p, Between, s, After(Header(s[..HEADER_SIZE], false), r))
  {
    hide CutAfter, Ahead, BigPieces;
    var d, rest := CutAfter(s[..HEADER_SIZE]), s[HEADER_SIZE..];
    DueSomething(p, d, rest);
    HeadAtOnce(p, s, false, r);
  }

  lemma DueSomething(p: FastCdc.Params, c: Cut, s: seq<Byte>)
    requires FastCdc.ParamsOk(p) && Ahead(c, s) > 0
    ensures Due(p, c, s) != []
  {
  }

  lemma FileExpects(c: Cut, s: seq<Byte>)
    requires c.next == FileChunk && Expects(c, s)
    ensures Expects(Between, s[Ahead(c, s)..])
  {
    assert s[Ahead(c, s)..][0..] == s[Ahead(c, s)..];
  }

  lemma FileAtOnce(p: FastCdc.Params, c: Cut, s: seq<Byte>, r: Parsed)
    requires FastCdc.ParamsOk(p) && c.next == FileChunk && r.body == []
    ensures var n := Ahead(c, s);
            AtOnce(p, Between, s[n..], r) <==> AtOnce(p, c, s, if n == 0 then r else After(Payload(s[..n], true), r))
  {
    hide ItemsOf;
    var n := Ahead(c, s);
    assert s[n..][0..] == s[n..];
  }

  lemma ClippedFile(p: FastCdc.Params, c: Cut, s: seq<Byte>, n: nat, r: Parsed)
    requires FastCdc.ParamsOk(p) && c.next == FileChunk && n < Ahead(c, s)
    ensures !AtOnce(p, c, s, After(Payload(s[..n], false), r))
  {
    assert |Due(p, c, s)[0]| == Ahead(c, s);
  }

  lemma BigExpects(p: FastCdc.Params, c: Cut, s: seq<Byte>)
    requires FastCdc.ParamsOk(p) && Expects(c, s) && c.next == BigChunk && s != []
    ensures c.offset < c.big && c.big - c.offset <= |s|
    ensures var cut := NextCut(p, c, s);
            cut.0 > 0 && Expects(cut.1, s[cut.0..])
  {
    hide WellFormed, Chunking.CutOf;
    var left := c.big - c.offset;
    var cut := NextCut(p, c, s);
    if left > p.maxChunkSize {
      assert s[cut.0..][left - cut.0..] == s[left..];
    } else {
      assert s[cut.0..][0..] == s[left..];
    }
  }

  lemma BigAtOnce(p: FastCdc.Params, c: Cut, s: seq<Byte>, r: Parsed)
    requires FastCdc.ParamsOk(p) && c.next == BigChunk && c.offset < c.big && c.big - c.offset <= |s|
    requires NextCut(p, c, s).1 == Between ==> r.body == []
    ensures var cut := NextCut(p, c, s);
            AtOnce(p, cut.1, s[cut.0..], r) <==> AtOnce(p, c, s, After(Payload(s[..cut.0], true), r))
  {
    hide ItemsOf, Chunking.CutOf;
    var left := c.big - c.offset;
    var cut := NextCut(p, c, s);
    var cp, t := cut.0, s[cut.0..];
    if left > p.maxChunkSize {
      assert s[..left][..cp] == s[..cp] && s[..left][cp..] == t[..left - cp] && s[left..] == t[left - cp..];
      var more := BigPieces(p, t[..left - cp]);
      assert Due(p, c, s) == [s[..cp]] + more && Due(p, cut.1, t) == more;
      assert ([s[..cp]] + r.body)[1..] == r.body && ([s[..cp]] + more)[1..] == more;
    } else {
      assert t[0..] == t;
      assert Due(p, c, s) == [s[..left]];
    }
  }

  /** An archive that no window end clips gives its items. */
  lemma WindowsKeepItems(p: FastCdc.Params, a: seq<Byte>)
    requires ParamsFit(p) && WellFormed(a)
    ensures ReadInWindows(p, a).whole <==> ReadInWindows(p, a).items == ItemsOf(p, a)
  {
    hide Parse, ItemsOf, WellFormed;
    assert a[0..] == a;
    WholeIff(p, a, StartPoint);
  }

  /** Whatever the file: the queue holds the items that reading in windows gives, and they join to the
      file. */
  lemma QueueHoldsItems(p: FastCdc.Params, a: seq<Byte>)
    requires ParamsFit(p) && ReadInWindows(p, a).ok
    ensures var r := ReadInWindows(p, a);
            && Flatten(Bodies(r.queue, true)) == Heads(r.items)
            && Bodies(r.queue, false) == DataChunks(r.items)
            && Joined(r.items) == a
            && (FullHeads(r.items) ==> SegmentsOk(Bodies(r.queue, true)))
  {
    hide Parse, Bodies, Heads, DataChunks, Joined, FullHeads, SegmentsOk;
    var r := ReadInWindows(p, a);
    ParseHolds(p, a, StartPoint);
    assert a[0..] == a && [] + Heads(r.items) == Heads(r.items);
    assert r.body == [] && [] + DataChunks(r.items) == DataChunks(r.items) && Flatten([]) == [];
    if FullHeads(r.items) {
      SegmentsFit(p, a, StartPoint);
    }
  }
}
