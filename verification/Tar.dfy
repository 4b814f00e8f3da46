/**
 Tar archives (src/chunking/chunker.cc and the copy in src/datawrite/datawrite.cc): 512-byte
 headers are parsed to find the payloads between them. An archive is described by its items, each
 a header and the chunks its payload is cut into.
 */
module Tar {
  import opened Bytes
  import opened Words

  const HEADER_SIZE := 512
  const MULTI_HEADER_SIZE := 8192
  const CONTAINER_MAX_SIZE := 4194304

  datatype BlockType = FileChunk | FileHeader | BigChunk

  /** A size field read digit by digit in 64-bit arithmetic; `bias` is the code of the digit 0. */
  function SizeField(d: seq<Byte>, bias: nat): (r: nat)
    ensures r < TWO64
  {
    if d == [] then 0 else (SizeField(d[..|d| - 1], bias) * 8 + d[|d| - 1] - bias) % TWO64
  }

  /** The size loop, which both parsers run on the first eleven bytes of the field. */
  method ReadSize(data: seq<Byte>, bias: nat) returns (size: nat)
    requires |data| == 11
    ensures size == SizeField(data, bias)
  {
    size := 0;
    assert data[..0] == [];
    for i := 0 to 11
      invariant size == SizeField(data[..i], bias)
    {
      assert data[..i + 1][..i] == data[..i];
      size := (size * 8 + data[i] - bias) % TWO64;
    }
    assert data[..11] == data;
  }

  /** Whole blocks, again in 64-bit arithmetic. */
  function RoundUp(n: nat): nat { (n + 511) % TWO64 / 512 * 512 }

  /** What a header says: the kind of the next block, its size, and the rounded size if it is big. */
  datatype Head = Head(next: BlockType, size: nat, big: nat)

  function BySize(size: nat): Head {
    if size <= CONTAINER_MAX_SIZE then Head(FileChunk, size, 0) else Head(BigChunk, size, RoundUp(size))
  }

  const REGTYPE := 48
  const AREGTYPE := 0
  const XHDTYPE := 120
  const GNUTYPE_LONGNAME := 76

  /** The chunker's reading of a header: an AREGTYPE block has no payload. */
  function ChunkerHead(b: seq<Byte>): Head
    requires |b| == HEADER_SIZE
  {
    var size := SizeField(b[124..135], 48);
    if b[156] == REGTYPE then BySize(size)
    else if b[156] == AREGTYPE then Head(FileChunk, 0, 0)
    else if b[156] == XHDTYPE || b[156] == GNUTYPE_LONGNAME then Head(FileChunk, size, 0)
    else Head(FileHeader, size, 0)
  }

  /** The reader's copy differs for AREGTYPE: it reads a size there, without the digit offset. */
  function RestoreHead(b: seq<Byte>): Head
    requires |b| == HEADER_SIZE
  {
    if b[156] == AREGTYPE then BySize(SizeField(b[124..135], 0)) else ChunkerHead(b)
  }

  /** The two copies agree on a header exactly when it is not an AREGTYPE block with a size. */
  lemma HeadsAgree(b: seq<Byte>)
    requires |b| == HEADER_SIZE
    ensures ChunkerHead(b) == RestoreHead(b) <==> (b[156] == AREGTYPE ==> SizeField(b[124..135], 0) == 0)
  {
  }

  /** Octal digits give their value, which no 11-digit field can make wrap. */
  lemma {:induction false} OctalSize(d: seq<Byte>)
    requires |d| <= 11 && forall i :: 0 <= i < |d| ==> 48 <= d[i] < 56
    ensures SizeField(d, 48) == Octal(d) < Power8(|d|) <= Power8(11)
    decreases |d|
  {
    if d != [] {
      OctalSize(d[..|d| - 1]);
      PowerGrows(|d|);
    } else {
      PowerGrows(0);
    }
  }

  function Octal(d: seq<Byte>): int {
    if d == [] then 0 else Octal(d[..|d| - 1]) * 8 + d[|d| - 1] - 48
  }

  function Power8(n: nat): nat { if n == 0 then 1 else 8 * Power8(n - 1) }

  lemma {:induction false} PowerGrows(n: nat)
    requires n <= 11
    ensures 0 < Power8(n) <= Power8(11) == 8589934592
    decreases 11 - n
  {
    assert Power8(5) == 32768;
    if n < 11 {
      PowerGrows(n + 1);
    }
  }

  /** The headers the split can handle: AREGTYPE blocks carry no size, sizes do not wrap when rounded,
      and extended headers and long names fit a container. */
  predicate GoodHead(b: seq<Byte>) {
    && |b| == HEADER_SIZE
    && (b[156] == AREGTYPE ==> SizeField(b[124..135], 0) == 0)
    && (b[156] == REGTYPE ==> SizeField(b[124..135], 48) <= TWO64 - 512)
    && (b[156] == XHDTYPE || b[156] == GNUTYPE_LONGNAME ==> SizeField(b[124..135], 48) <= CONTAINER_MAX_SIZE)
  }

  function Left(h: Head): nat {
    match h.next
    case FileHeader => 0
    case FileChunk => RoundUp(h.size)
    case BigChunk => h.big
  }

  /** A good header announces whole blocks, none only for size 0, and big ones only above the limit. */
  lemma GoodLeft(b: seq<Byte>)
    requires GoodHead(b)
    ensures var h := ChunkerHead(b);
            && h == RestoreHead(b)
            && (h.next == FileChunk ==> h.size <= CONTAINER_MAX_SIZE && (Left(h) == 0 <==> h.size == 0) && Left(h) <= CONTAINER_MAX_SIZE)
            && (h.next == BigChunk ==> h.size > CONTAINER_MAX_SIZE && Left(h) == h.big >= h.size > 0)
  {
  }

  function Min(a: nat, b: nat): nat { if a <= b then a else b }

  /** An archive: good headers, each followed by its payload. The last payload may be cut short,
      but a big one is there in full or not at all. */
  predicate WellFormed(a: seq<Byte>)
    decreases |a|
  {
    a == [] ||
    (&& |a| >= HEADER_SIZE && GoodHead(a[..HEADER_SIZE])
     && var left := Left(ChunkerHead(a[..HEADER_SIZE]));
        var rest := a[HEADER_SIZE..];
        rest == [] || ((ChunkerHead(a[..HEADER_SIZE]).next == BigChunk ==> left <= |rest|) && WellFormed(rest[Min(left, |rest|)..])))
  }

  // ----- items ---------------------------------------------------------------------------------

  datatype Item = Item(head: seq<Byte>, body: seq<seq<Byte>>)

  function Heads(items: seq<Item>): seq<Byte> {
    if items == [] then [] else Heads(items[..|items| - 1]) + items[|items| - 1].head
  }

  function DataChunks(items: seq<Item>): seq<seq<Byte>> {
    if items == [] then [] else DataChunks(items[..|items| - 1]) + items[|items| - 1].body
  }

  function Joined(items: seq<Item>): seq<Byte> {
    if items == [] then []
    else Joined(items[..|items| - 1]) + items[|items| - 1].head + Flatten(items[|items| - 1].body)
  }

  ghost predicate NonEmptyAll(body: seq<seq<Byte>>) {
    forall k :: 0 <= k < |body| ==> body[k] != []
  }

  /** The chunks of a payload are what its header announces. */
  ghost predicate Complete(it: Item) {
    && GoodHead(it.head)
    && var h := ChunkerHead(it.head);
       match h.next
       case FileHeader => it.body == []
       case FileChunk => if h.size == 0 then it.body == [] else |it.body| == 1 && it.body[0] != []
       case BigChunk => it.body != [] && NonEmptyAll(it.body) && |Flatten(it.body)| == h.big
  }

  /** All items are complete; only the last may lack its payload altogether. */
  ghost predicate ItemsOk(items: seq<Item>) {
    forall i :: 0 <= i < |items| ==>
      Complete(items[i]) || (i == |items| - 1 && GoodHead(items[i].head) && items[i].body == [])
  }

  /** Header segments hold whole headers and fit the buffer of the reader. */
  ghost predicate SegmentsOk(segments: seq<seq<Byte>>) {
    forall k :: 0 <= k < |segments| ==> 0 < |segments[k]| <= MULTI_HEADER_SIZE && |segments[k]| % HEADER_SIZE == 0
  }

  /** Data chunks are not empty and fit a container. */
  ghost predicate SizesOk(chunks: seq<seq<Byte>>) {
    forall k :: 0 <= k < |chunks| ==> 0 < |chunks[k]| <= CONTAINER_MAX_SIZE
  }
}
