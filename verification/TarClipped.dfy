/**
 An archive that tar mode (src/chunking/chunker.cc) gives back changed: directories up to 64 MiB
 before the end of the first window, and then sixteen files of one container each. The window ends
 8192 bytes before the last payload does, and these bytes are parsed as headers. One of them is an
 AREGTYPE block with a size: the chunker cuts no payload behind it, but the reader takes one, which
 belongs to the next file.
 */
module TarClipped {
  import opened Bytes
  import FastCdc
  import opened Tar
  import opened TarTrace
  import opened TarMerge
  import opened TarWindows

  // ----- the blocks ------------------------------------------------------------------------------

  /** A header with one digit in its size field. */
  function Block(flag: Byte, zero: Byte, at: nat, digit: nat): (r: seq<Byte>)
    requires zero + digit < 256
    ensures |r| == HEADER_SIZE && r[156] == flag && |r[124..135]| == 11
    ensures forall i :: 0 <= i < 11 && i != at ==> r[124..135][i] == zero
    ensures at < 11 ==> r[124..135][at] == zero + digit
  {
    seq(HEADER_SIZE, i => if i == 156 then flag else if i == 124 + at then zero + digit else if 124 <= i < 135 then zero else 0)
  }

  lemma {:induction false} ZeroField(d: seq<Byte>, zero: Byte)
    requires forall i :: 0 <= i < |d| ==> d[i] == zero
    ensures SizeField(d, zero) == 0
  {
    if d != [] {
      ZeroField(d[..|d| - 1], zero);
    }
  }

  lemma FieldStep(d: seq<Byte>, zero: Byte, k: nat, n: nat)
    requires k < |d| && SizeField(d[..k], zero) == n < 8589934592 && d[k] >= zero
    ensures SizeField(d[..k + 1], zero) == n * 8 + d[k] - zero
  {
    assert d[..k + 1][..k] == d[..k];
  }

  /** A directory. */
  function Dir(): (r: seq<Byte>)
    ensures |r| == HEADER_SIZE
  {
    Block(53, 48, 0, 0)
  }

  /** A file of one container, or 20000000 bytes in octal. */
  function FullFile(): (r: seq<Byte>)
    ensures |r| == HEADER_SIZE
  {
    Block(REGTYPE, 48, 3, 2)
  }

  /** A file of one block, or 1000 bytes in octal. */
  function OneBlockFile(): (r: seq<Byte>)
    ensures |r| == HEADER_SIZE
  {
    Block(REGTYPE, 48, 7, 1)
  }

  /** What passes for an empty file to the chunker, and for a file of one byte to the reader. */
  function Trap(): (r: seq<Byte>)
    ensures |r| == HEADER_SIZE
  {
    Block(AREGTYPE, 0, 10, 1)
  }

  lemma DirHead()
    ensures GoodHead(Dir()) && ChunkerHead(Dir()) == Head(FileHeader, 0, 0)
  {
    hide SizeField, Block;
    ZeroField(Dir()[124..135], 48);
  }

  lemma FullHead()
    ensures GoodHead(FullFile()) && ChunkerHead(FullFile()) == Head(FileChunk, CONTAINER_MAX_SIZE, 0)
  {
    hide SizeField, Block;
    var d := FullFile()[124..135];
    ZeroField(d[..3], 48);
    FieldStep(d, 48, 3, 0);
    FieldStep(d, 48, 4, 2);
    FieldStep(d, 48, 5, 16);
    FieldStep(d, 48, 6, 128);
    FieldStep(d, 48, 7, 1024);
    FieldStep(d, 48, 8, 8192);
    FieldStep(d, 48, 9, 65536);
    FieldStep(d, 48, 10, 524288);
    assert d[..11] == d;
  }

  lemma OneBlockHead()
    ensures GoodHead(OneBlockFile()) && ChunkerHead(OneBlockFile()) == Head(FileChunk, 512, 0)
  {
    hide SizeField, Block;
    var d := OneBlockFile()[124..135];
    ZeroField(d[..7], 48);
    FieldStep(d, 48, 7, 0);
    FieldStep(d, 48, 8, 1);
    FieldStep(d, 48, 9, 8);
    FieldStep(d, 48, 10, 64);
    assert d[..11] == d;
  }

  lemma TrapHead()
    ensures |Trap()| == HEADER_SIZE && ChunkerHead(Trap()) == Head(FileChunk, 0, 0) && RestoreHead(Trap()) == Head(FileChunk, 1, 0)
  {
    hide SizeField, Block;
    var d := Trap()[124..135];
    ZeroField(d[..10], 0);
    FieldStep(d, 0, 10, 0);
    assert d[..11] == d;
  }

  // ----- the archive -----------------------------------------------------------------------------

  function Filler(n: nat, b: Byte): (r: seq<Byte>)
    ensures |r| == n
  {
    seq(n, _ => b)
  }

  function Dirs(n: nat, rest: seq<Byte>): (r: seq<Byte>)
    ensures |r| == HEADER_SIZE * n + |rest|
  {
    if n == 0 then rest else Dir() + Dirs(n - 1, rest)
  }

  function FullFiles(n: nat, rest: seq<Byte>): (r: seq<Byte>)
    ensures |r| == (HEADER_SIZE + CONTAINER_MAX_SIZE) * n + |rest|
  {
    if n == 0 then rest else FullFile() + Filler(CONTAINER_MAX_SIZE, 0) + FullFiles(n - 1, rest)
  }

  /** The last 8192 bytes of the last payload, and the file after it. */
  function Clipped(): (r: seq<Byte>)
    ensures |r| == MULTI_HEADER_SIZE + 1024
  {
    Dirs(15, Trap() + OneBlockFile() + Filler(512, 7))
  }

  function LastFile(): (r: seq<Byte>)
    ensures |r| == HEADER_SIZE + CONTAINER_MAX_SIZE + 1024
  {
    FullFile() + Filler(CONTAINER_MAX_SIZE - MULTI_HEADER_SIZE, 0) + Clipped()
  }

  const DIRS := 262144

  /** The number of directories is a parameter here and in what follows: with the constant in its place
      the verifier would unfold all 262144 of them. */
  function Archive(dirs: nat): (r: seq<Byte>)
    ensures |r| == HEADER_SIZE * dirs + 16 * (HEADER_SIZE + CONTAINER_MAX_SIZE) + 1024
  {
    Dirs(dirs, FullFiles(15, LastFile()))
  }

  lemma OneDir(n: nat, rest: seq<Byte>)
    requires n > 0
    ensures Dirs(n, rest)[..HEADER_SIZE] == Dir() && Dirs(n, rest)[HEADER_SIZE..] == Dirs(n - 1, rest)
  {
    hide Block;
  }

  lemma OneFull(n: nat, rest: seq<Byte>)
    requires n > 0
    ensures var s := FullFiles(n, rest);
            && s[..HEADER_SIZE] == FullFile() && |s[HEADER_SIZE..]| >= CONTAINER_MAX_SIZE
            && s[HEADER_SIZE..][..CONTAINER_MAX_SIZE] == Filler(CONTAINER_MAX_SIZE, 0)
            && s[HEADER_SIZE..][CONTAINER_MAX_SIZE..] == FullFiles(n - 1, rest)
  {
    hide Block, Filler;
    var s := FullFiles(n, rest);
    assert s == FullFile() + (Filler(CONTAINER_MAX_SIZE, 0) + FullFiles(n - 1, rest));
    assert s[HEADER_SIZE..] == Filler(CONTAINER_MAX_SIZE, 0) + FullFiles(n - 1, rest);
  }

  // ----- it is well-formed -----------------------------------------------------------------------

  /** A well-formed archive whose payloads are at most a container. */
  ghost predicate Fine(s: seq<Byte>) { WellFormed(s) && PayloadsAtMost(s, CONTAINER_MAX_SIZE) }

  lemma FineStep(s: seq<Byte>)
    requires |s| >= HEADER_SIZE && GoodHead(s[..HEADER_SIZE]) && ChunkerHead(s[..HEADER_SIZE]).next != BigChunk
    requires var rest := s[HEADER_SIZE..]; Fine(rest[Min(Left(ChunkerHead(s[..HEADER_SIZE])), |rest|)..])
    ensures Fine(s)
  {
    hide ChunkerHead;
    GoodLeft(s[..HEADER_SIZE]);
  }

  lemma {:induction false} DirsFine(n: nat, rest: seq<Byte>)
    requires Fine(rest)
    ensures Fine(Dirs(n, rest))
  {
    hide Block, ChunkerHead, GoodHead, Fine;
    if n > 0 {
      DirHead();
      OneDir(n, rest);
      DirsFine(n - 1, rest);
      var s := Dirs(n - 1, rest);
      assert s[0..] == s;
      FineStep(Dirs(n, rest));
    }
  }

  lemma {:induction false} FullFine(n: nat, rest: seq<Byte>)
    requires Fine(rest)
    ensures Fine(FullFiles(n, rest))
  {
    hide Block, ChunkerHead, GoodHead, Fine;
    if n > 0 {
      FullHead();
      OneFull(n, rest);
      FullFine(n - 1, rest);
      FineStep(FullFiles(n, rest));
    }
  }

  lemma LastFine()
    ensures Fine(LastFile())
  {
    hide Block, ChunkerHead, GoodHead, Fine, Filler, Dirs, Trap, Dir;
    var next := OneBlockFile() + Filler(512, 7);
    OneBlockHead();
    assert next[..HEADER_SIZE] == OneBlockFile() && next[HEADER_SIZE..][512..] == [];
    NothingFine();
    FineStep(next);
    FullHead();
    var s := LastFile();
    assert s[..HEADER_SIZE] == FullFile() && s[HEADER_SIZE..] == Filler(CONTAINER_MAX_SIZE - MULTI_HEADER_SIZE, 0) + Clipped();
    DirsEnd(15, Trap() + next);
    assert Trap() + OneBlockFile() + Filler(512, 7) == Trap() + next;
    assert (Trap() + next)[HEADER_SIZE..] == next;
    assert s[HEADER_SIZE..][CONTAINER_MAX_SIZE..] == next;
    FineStep(s);
  }

  lemma NothingFine()
    ensures Fine([])
  {
  }

  lemma {:induction false} DirsEnd(n: nat, rest: seq<Byte>)
    ensures Dirs(n, rest)[HEADER_SIZE * n..] == rest
  {
    hide Block;
    if n > 0 {
      DirsEnd(n - 1, rest);
      OneDir(n, rest);
      assert Dirs(n, rest)[HEADER_SIZE..][HEADER_SIZE * (n - 1)..] == Dirs(n, rest)[HEADER_SIZE * n..];
    }
  }

  lemma ArchiveFine(dirs: nat)
    ensures Fine(Archive(dirs))
  {
    hide Fine, Dirs, FullFiles, LastFile;
    LastFine();
    FullFine(15, LastFile());
    DirsFine(dirs, FullFiles(15, LastFile()));
  }

  // ----- what the chunker makes of it --------------------------------------------------------------

  /** From `x` on the chunker cuts `items` and then what it cuts from `y` on. */
  ghost predicate Leads(p: FastCdc.Params, a: seq<Byte>, x: Point, items: seq<Item>, y: Point)
    requires ParamsFit(p)
  {
    && Placed(a, x) && Placed(a, y)
    && Parse(p, a, x).ok == Parse(p, a, y).ok && Parse(p, a, x).items == items + Parse(p, a, y).items
  }

  lemma LeadsOn(p: FastCdc.Params, a: seq<Byte>, x: Point, i: seq<Item>, y: Point, j: seq<Item>, z: Point)
    requires ParamsFit(p) && Leads(p, a, x, i, y) && Leads(p, a, y, j, z)
    ensures Leads(p, a, x, i + j, z)
  {
    hide Parse, Placed;
    assert i + (j + Parse(p, a, z).items) == i + j + Parse(p, a, z).items;
  }

  lemma StepLeads(p: FastCdc.Params, a: seq<Byte>, x: Point)
    requires ParamsFit(p) && Placed(a, x) && Step(p, a, x).To? && (Step(p, a, x).out.Silent? || Step(p, a, x).out.Segment?)
    ensures Leads(p, a, x, [], Step(p, a, x).next)
  {
    hide Step, Placed;
    var y := Step(p, a, x).next;
    assert [] + Parse(p, a, y).items == Parse(p, a, y).items;
  }

  /** A header, and as much of its payload as the window shows. */
  lemma TakeItem(p: FastCdc.Params, a: seq<Byte>, w: nat, pos: nat, collected: seq<Byte>) returns (y: Point)
    requires ParamsFit(p) && Placed(a, Point(w, pos, Between, Seg(collected))) && |collected| < MULTI_HEADER_SIZE
    requires pos + HEADER_SIZE < WindowEnd(a, w) && CutAfter(a[pos..pos + HEADER_SIZE]).next != BigChunk
    ensures var head, at, end := a[pos..pos + HEADER_SIZE], pos + HEADER_SIZE, WindowEnd(a, w);
            var n := if CutAfter(head).next == FileHeader then 0 else Min(RoundUp(CutAfter(head).size), end - at);
            && y == Point(w, at + n, Between, if at + n == end then Flush(collected + head) else Seg(collected + head))
            && Leads(p, a, Point(w, pos, Between, Seg(collected)), [Item(head, if n == 0 then [] else [a[at..at + n]])], y)
  {
    hide CutAfter, RoundUp, Parse, Ahead;
    var x := Point(w, pos, Between, Seg(collected));
    var head := a[pos..pos + HEADER_SIZE];
    y := Step(p, a, x).next;
    ItemParse(p, a, x);
    if y.c.next == FileChunk {
      var z := Step(p, a, y).next;
      ItemParse(p, a, y);
      if Step(p, a, y).out.Payload? {
        var chunk := Step(p, a, y).out.bytes;
        assert [chunk] + Parse(p, a, z).body == [chunk];
      }
      y := z;
    }
  }

  lemma ItemParse(p: FastCdc.Params, a: seq<Byte>, x: Point)
    requires ParamsFit(p) && Placed(a, x) && Step(p, a, x).To?
    ensures Parse(p, a, x) == After(Step(p, a, x).out, Parse(p, a, Step(p, a, x).next))
  {
    hide Step, Placed;
  }

  function DirItems(n: nat): seq<Item> {
    if n == 0 then [] else [Item(Dir(), [])] + DirItems(n - 1)
  }

  function FullItems(n: nat): seq<Item> {
    if n == 0 then [] else [Item(FullFile(), [Filler(CONTAINER_MAX_SIZE, 0)])] + FullItems(n - 1)
  }

  lemma DirCut()
    ensures CutAfter(Dir()) == Between
  {
    hide Dir, ChunkerHead;
    DirHead();
  }

  /** Directories in a segment that has room for them. */
  lemma {:induction false} DirsLead(p: FastCdc.Params, a: seq<Byte>, w: nat, pos: nat, collected: seq<Byte>, n: nat, rest: seq<Byte>)
    returns (all: seq<Byte>)
    requires ParamsFit(p) && Placed(a, Point(w, pos, Between, Seg(collected))) && a[pos..] == Dirs(n, rest)
    requires |collected| + HEADER_SIZE * n <= MULTI_HEADER_SIZE && pos + HEADER_SIZE * n < WindowEnd(a, w)
    ensures |all| == |collected| + HEADER_SIZE * n
    ensures Leads(p, a, Point(w, pos, Between, Seg(collected)), DirItems(n), Point(w, pos + HEADER_SIZE * n, Between, Seg(all)))
    decreases n
  {
    hide Parse, CutAfter, Dir, Leads;
    var x := Point(w, pos, Between, Seg(collected));
    if n == 0 {
      all := collected;
      LeadsHere(p, a, x);
    } else {
      OneDir(n, rest);
      DirCut();
      var s := a[pos..];
      assert s[..HEADER_SIZE] == a[pos..pos + HEADER_SIZE] && s[HEADER_SIZE..] == a[pos + HEADER_SIZE..];
      var y := TakeItem(p, a, w, pos, collected);
      LeadsPlaced(p, a, x, [Item(Dir(), [])], y);
      all := DirsLead(p, a, w, pos + HEADER_SIZE, collected + Dir(), n - 1, rest);
      LeadsOn(p, a, x, [Item(Dir(), [])], y, DirItems(n - 1), Point(w, pos + HEADER_SIZE * n, Between, Seg(all)));
    }
  }

  lemma LeadsHere(p: FastCdc.Params, a: seq<Byte>, x: Point)
    requires ParamsFit(p) && Placed(a, x)
    ensures Leads(p, a, x, [], x)
  {
    hide Parse;
    assert [] + Parse(p, a, x).items == Parse(p, a, x).items;
  }

  lemma LeadsPlaced(p: FastCdc.Params, a: seq<Byte>, x: Point, items: seq<Item>, y: Point)
    requires ParamsFit(p) && Leads(p, a, x, items, y)
    ensures Placed(a, x) && Placed(a, y)
  {
  }

  lemma FullCut()
    ensures CutAfter(FullFile()) == Cut(FileChunk, CONTAINER_MAX_SIZE, 0, 0)
  {
    hide FullFile, ChunkerHead;
    FullHead();
  }

  lemma {:induction false} FullLead(p: FastCdc.Params, a: seq<Byte>, w: nat, pos: nat, collected: seq<Byte>, n: nat, rest: seq<Byte>)
    returns (all: seq<Byte>)
    requires ParamsFit(p) && Placed(a, Point(w, pos, Between, Seg(collected))) && a[pos..] == FullFiles(n, rest)
    requires |collected| + HEADER_SIZE * n <= MULTI_HEADER_SIZE && pos + (HEADER_SIZE + CONTAINER_MAX_SIZE) * n < WindowEnd(a, w)
    ensures |all| == |collected| + HEADER_SIZE * n
    ensures Leads(p, a, Point(w, pos, Between, Seg(collected)), FullItems(n), Point(w, pos + (HEADER_SIZE + CONTAINER_MAX_SIZE) * n, Between, Seg(all)))
    decreases n
  {
    hide Parse, CutAfter, FullFile, Leads, Filler;
    var x := Point(w, pos, Between, Seg(collected));
    if n == 0 {
      all := collected;
      LeadsHere(p, a, x);
    } else {
      OneFull(n, rest);
      FullCut();
      var s, at := a[pos..], pos + HEADER_SIZE;
      assert s[..HEADER_SIZE] == a[pos..at] && s[HEADER_SIZE..] == a[at..];
      assert a[at..][..CONTAINER_MAX_SIZE] == a[at..at + CONTAINER_MAX_SIZE] && a[at..][CONTAINER_MAX_SIZE..] == a[at + CONTAINER_MAX_SIZE..];
      var it := Item(FullFile(), [Filler(CONTAINER_MAX_SIZE, 0)]);
      var y := TakeItem(p, a, w, pos, collected);
      LeadsPlaced(p, a, x, [it], y);
      all := FullLead(p, a, w, at + CONTAINER_MAX_SIZE, collected + FullFile(), n - 1, rest);
      LeadsOn(p, a, x, [it], y, FullItems(n - 1), Point(w, pos + (HEADER_SIZE + CONTAINER_MAX_SIZE) * n, Between, Seg(all)));
    }
  }

  /** A segment of sixteen directories, in one call. */
  lemma SegmentLead(p: FastCdc.Params, a: seq<Byte>, pos: nat, rest: seq<Byte>)
    requires ParamsFit(p) && |a| >= READ_FILE_SIZE && pos + MULTI_HEADER_SIZE + TAIL_SIZE <= READ_FILE_SIZE
    requires a[pos..] == Dirs(16, rest)
    ensures Leads(p, a, Point(0, pos, Between, Call), DirItems(16), Point(0, pos + MULTI_HEADER_SIZE, Between, Call))
  {
    hide Parse, Dir, Leads, CutAfter, Dirs, DirItems;
    var x, i := Point(0, pos, Between, Call), DirItems(16);
    StepLeads(p, a, x);
    var all := DirsLead(p, a, 0, pos, [], 16, rest);
    var y := Point(0, pos + MULTI_HEADER_SIZE, Between, Seg(all));
    LeadsOn(p, a, x, [], Point(0, pos, Between, Seg([])), i, y);
    StepLeads(p, a, y);
    var z := y.(m := Flush(all));
    LeadsOn(p, a, x, [] + i, y, [], z);
    StepLeads(p, a, z);
    LeadsOn(p, a, x, [] + i + [], z, [], z.(m := Call));
    assert [] + i + [] + [] == i;
  }

  lemma {:induction false} SegmentsLead(p: FastCdc.Params, a: seq<Byte>, pos: nat, segments: nat, rest: seq<Byte>)
    requires ParamsFit(p) && |a| >= READ_FILE_SIZE && pos + MULTI_HEADER_SIZE * segments + TAIL_SIZE <= READ_FILE_SIZE
    requires a[pos..] == Dirs(16 * segments, rest)
    ensures Leads(p, a, Point(0, pos, Between, Call), DirItems(16 * segments), Point(0, pos + MULTI_HEADER_SIZE * segments, Between, Call))
    decreases segments
  {
    hide Parse, Dir, Leads, CutAfter, Dirs, DirItems;
    var x := Point(0, pos, Between, Call);
    if segments == 0 {
      NoDirItems();
      LeadsHere(p, a, x);
    } else {
      var more := 16 * (segments - 1);
      var y := Point(0, pos + MULTI_HEADER_SIZE, Between, Call);
      DirsSplit(16, more, rest);
      SegmentLead(p, a, pos, Dirs(more, rest));
      DirsEnd(16, Dirs(more, rest));
      assert a[pos..][MULTI_HEADER_SIZE..] == a[pos + MULTI_HEADER_SIZE..];
      SegmentsLead(p, a, pos + MULTI_HEADER_SIZE, segments - 1, rest);
      LeadsOn(p, a, x, DirItems(16), y, DirItems(more), Point(0, pos + MULTI_HEADER_SIZE * segments, Between, Call));
      ItemsSum(16, more);
    }
  }

  lemma NoDirItems()
    ensures DirItems(0) == []
  {
  }

  lemma {:induction false} DirsSplit(n: nat, m: nat, rest: seq<Byte>)
    ensures Dirs(n + m, rest) == Dirs(n, Dirs(m, rest))
  {
    hide Dir;
    if n > 0 {
      DirsSplit(n - 1, m, rest);
    }
  }

  lemma {:induction false} ItemsSum(n: nat, m: nat)
    ensures DirItems(n) + DirItems(m) == DirItems(n + m)
  {
    hide Dir;
    if n > 0 {
      ItemsSum(n - 1, m);
      assert [Item(Dir(), [])] + DirItems(n - 1) + DirItems(m) == [Item(Dir(), [])] + (DirItems(n - 1) + DirItems(m));
    } else {
      assert [] + DirItems(m) == DirItems(m);
    }
  }

  lemma {:induction false} FullEnd(n: nat, rest: seq<Byte>)
    ensures FullFiles(n, rest)[(HEADER_SIZE + CONTAINER_MAX_SIZE) * n..] == rest
  {
    hide FullFile, Filler;
    if n > 0 {
      FullEnd(n - 1, rest);
      OneFull(n, rest);
      var s := FullFiles(n, rest);
      assert s[HEADER_SIZE..][CONTAINER_MAX_SIZE..][(HEADER_SIZE + CONTAINER_MAX_SIZE) * (n - 1)..] == s[(HEADER_SIZE + CONTAINER_MAX_SIZE) * n..];
    }
  }

  const LEAD := HEADER_SIZE * DIRS

  /** The last file's payload in the first window. */
  function Shown(): seq<Byte> { Filler(CONTAINER_MAX_SIZE - MULTI_HEADER_SIZE, 0) }

  /** The sixteen files, the last clipped. */
  lemma FilesLead(p: FastCdc.Params, a: seq<Byte>) returns (all: seq<Byte>)
    requires ParamsFit(p) && |a| >= READ_FILE_SIZE && a[LEAD..] == FullFiles(15, LastFile())
    ensures all != []
    ensures Leads(p, a, Point(0, LEAD, Between, Call), FullItems(15) + [Item(FullFile(), [Shown()])], Point(0, READ_FILE_SIZE, Between, Flush(all)))
    ensures a[READ_FILE_SIZE..] == Clipped()
  {
    hide Parse, FullFile, Filler, Leads, CutAfter, Clipped, FullFiles, FullItems;
    var x, x0 := Point(0, LEAD, Between, Call), Point(0, LEAD, Between, Seg([]));
    StepLeads(p, a, x);
    var most := FullLead(p, a, 0, LEAD, [], 15, LastFile());
    var at := LEAD + (HEADER_SIZE + CONTAINER_MAX_SIZE) * 15;
    var y := Point(0, at, Between, Seg(most));
    LeadsOn(p, a, x, [], x0, FullItems(15), y);
    LeadsPlaced(p, a, x, [] + FullItems(15), y);
    FullEnd(15, LastFile());
    var last := LastFile();
    assert a[LEAD..][at - LEAD..] == a[at..];
    assert a[at..] == last && last[..HEADER_SIZE] == FullFile() && last[HEADER_SIZE..READ_FILE_SIZE - at] == Shown();
    assert a[at..][..HEADER_SIZE] == a[at..at + HEADER_SIZE];
    assert a[at..][HEADER_SIZE..READ_FILE_SIZE - at] == a[at + HEADER_SIZE..READ_FILE_SIZE];
    assert a[at..][READ_FILE_SIZE - at..] == a[READ_FILE_SIZE..];
    FullCut();
    var z := TakeItem(p, a, 0, at, most);
    all := most + FullFile();
    LeadsOn(p, a, x, [] + FullItems(15), y, [Item(FullFile(), [Shown()])], z);
    assert [] + FullItems(15) + [Item(FullFile(), [Shown()])] == FullItems(15) + [Item(FullFile(), [Shown()])];
  }

  lemma TrapCut()
    ensures CutAfter(Trap()) == Cut(FileChunk, 0, 0, 0)
  {
    hide Trap, ChunkerHead, RestoreHead;
    TrapHead();
  }

  lemma OneBlockCut()
    ensures CutAfter(OneBlockFile()) == Cut(FileChunk, 512, 0, 0)
  {
    hide OneBlockFile, ChunkerHead;
    OneBlockHead();
  }

  function Tail(): seq<Item> { [Item(Trap(), []), Item(OneBlockFile(), [Filler(512, 7)])] }

  /** The next window, from the directories in the payload on. */
  lemma WindowLead(p: FastCdc.Params, a: seq<Byte>, collected: seq<Byte>)
    requires ParamsFit(p) && |a| == READ_FILE_SIZE + MULTI_HEADER_SIZE + 1024 && a[READ_FILE_SIZE..] == Clipped() && collected != []
    ensures var x := Point(0, READ_FILE_SIZE, Between, Flush(collected));
            Placed(a, x) && Parse(p, a, x).ok && Parse(p, a, x).items == DirItems(15) + Tail()
  {
    hide Parse, Leads, CutAfter, Trap, OneBlockFile, Filler, Dir, Dirs, DirItems;
    var x, w := Point(0, READ_FILE_SIZE, Between, Flush(collected)), READ_FILE_SIZE;
    var call, again, seg := Point(0, w, Between, Call), Point(w, w, Between, Call), Point(w, w, Between, Seg([]));
    StepLeads(p, a, x);
    StepLeads(p, a, call);
    StepLeads(p, a, again);
    LeadsOn(p, a, x, [], call, [], again);
    LeadsOn(p, a, x, [] + [], again, [], seg);
    var rest := Trap() + OneBlockFile() + Filler(512, 7);
    var all := DirsLead(p, a, w, w, [], 15, rest);
    var at := w + HEADER_SIZE * 15;
    var y := Point(w, at, Between, Seg(all));
    LeadsOn(p, a, x, [] + [] + [], seg, DirItems(15), y);
    LeadsPlaced(p, a, seg, DirItems(15), y);
    DirsEnd(15, rest);
    assert a[w..][HEADER_SIZE * 15..] == a[at..];
    TailLead(p, a, w, at, all);
    assert [] + [] + [] + DirItems(15) == DirItems(15);
    LeadsItems(p, a, x, DirItems(15), y);
  }

  lemma LeadsItems(p: FastCdc.Params, a: seq<Byte>, x: Point, items: seq<Item>, y: Point)
    requires ParamsFit(p) && Leads(p, a, x, items, y)
    ensures Placed(a, x) && Placed(a, y) && Parse(p, a, x).items == items + Parse(p, a, y).items && Parse(p, a, x).ok == Parse(p, a, y).ok
  {
  }

  lemma TailLead(p: FastCdc.Params, a: seq<Byte>, w: nat, at: nat, collected: seq<Byte>)
    requires ParamsFit(p) && |a| == at + 1536 && LastWindow(a, w) && w <= at && |collected| == MULTI_HEADER_SIZE - HEADER_SIZE
    requires a[at..] == Trap() + OneBlockFile() + Filler(512, 7)
    ensures var y := Point(w, at, Between, Seg(collected));
            Placed(a, y) && Parse(p, a, y).ok && Parse(p, a, y).items == Tail()
  {
    hide Parse, Leads, CutAfter, Trap, OneBlockFile, Filler;
    var s := a[at..];
    TrapCut();
    OneBlockCut();
    assert s[..HEADER_SIZE] == Trap() == a[at..at + HEADER_SIZE];
    assert s[HEADER_SIZE..1024] == OneBlockFile() == a[at + HEADER_SIZE..at + 1024];
    assert s[1024..] == Filler(512, 7) == a[at + 1024..at + 1536];
    var y := Point(w, at, Between, Seg(collected));
    var trap, next := Item(Trap(), []), Item(OneBlockFile(), [Filler(512, 7)]);
    var full := TakeItem(p, a, w, at, collected);
    StepLeads(p, a, full);
    var flush := full.(m := Flush(collected + Trap()));
    StepLeads(p, a, flush);
    var call := flush.(m := Call);
    StepLeads(p, a, call);
    LeadsOn(p, a, y, [trap], full, [], flush);
    LeadsOn(p, a, y, [trap] + [], flush, [], call);
    LeadsOn(p, a, y, [trap] + [] + [], call, [], call.(m := Seg([])));
    var end := TakeItem(p, a, w, at + HEADER_SIZE, []);
    LeadsOn(p, a, y, [trap] + [] + [] + [], call.(m := Seg([])), [next], end);
    StepLeads(p, a, end);
    var done := end.(m := Call);
    LeadsOn(p, a, y, [trap] + [] + [] + [] + [next], end, [], done);
    LeadsItems(p, a, y, [trap] + [] + [] + [] + [next] + [], done);
    EndOfFile(p, a, done);
    assert [trap] + [] + [] + [] + [next] + [] + [] == Tail();
  }

  lemma EndOfFile(p: FastCdc.Params, a: seq<Byte>, x: Point)
    requires ParamsFit(p) && Placed(a, x) && x.m == Call && LastWindow(a, x.w) && x.pos == |a|
    ensures Parse(p, a, x) == Finished
  {
  }

  /** All items before the trap. */
  function Before(dirs: nat): seq<Item> {
    DirItems(dirs) + (FullItems(15) + [Item(FullFile(), [Shown()])]) + DirItems(15)
  }

  lemma ArchiveItems(p: FastCdc.Params, segments: nat)
    requires ParamsFit(p) && 16 * segments == DIRS
    ensures var r := ReadInWindows(p, Archive(16 * segments));
            r.ok && r.items == Before(16 * segments) + Tail()
  {
    hide Parse, Leads, FullFiles, LastFile, Dirs, DirItems, FullItems, Tail, Clipped, FullFile, Filler;
    var a, files := Archive(16 * segments), FullFiles(15, LastFile());
    assert a[0..] == a;
    SegmentsLead(p, a, 0, segments, files);
    DirsEnd(16 * segments, files);
    var all := FilesLead(p, a);
    var x, y, z := Point(0, LEAD, Between, Call), Point(0, READ_FILE_SIZE, Between, Flush(all)), DirItems(16 * segments);
    var shown := FullItems(15) + [Item(FullFile(), [Shown()])];
    LeadsOn(p, a, StartPoint, z, x, shown, y);
    WindowLead(p, a, all);
    LeadsItems(p, a, StartPoint, z + shown, y);
    assert z + shown + (DirItems(15) + Tail()) == z + shown + DirItems(15) + Tail();
  }

  // ----- what the reader makes of it ---------------------------------------------------------------

  lemma {:induction false} DirsOwn(n: nat)
    ensures forall i :: 0 <= i < |DirItems(n)| ==> Own(DirItems(n)[i])
  {
    hide Dir, Own;
    if n > 0 {
      OwnDir();
      DirsOwn(n - 1);
    }
  }

  lemma OwnDir()
    ensures Own(Item(Dir(), []))
  {
    hide Dir, ChunkerHead, GoodHead;
    DirHead();
    GoodLeft(Dir());
  }

  lemma OwnFull(chunk: seq<Byte>)
    ensures Own(Item(FullFile(), [chunk]))
  {
    hide FullFile, ChunkerHead, GoodHead;
    FullHead();
    GoodLeft(FullFile());
  }

  lemma {:induction false} FullOwn(n: nat)
    ensures forall i :: 0 <= i < |FullItems(n)| ==> Own(FullItems(n)[i])
  {
    hide FullFile, Own, Filler;
    if n > 0 {
      OwnFull(Filler(CONTAINER_MAX_SIZE, 0));
      FullOwn(n - 1);
    }
  }

  lemma BeforeOwn(dirs: nat)
    ensures forall i :: 0 <= i < |Before(dirs)| ==> Own(Before(dirs)[i])
  {
    hide DirItems, FullItems, Own, FullFile, Shown;
    DirsOwn(dirs);
    DirsOwn(15);
    FullOwn(15);
    OwnFull(Shown());
  }

  /** The trap takes the chunk of the file after it. */
  function Trapped(): seq<Item> { [Item(Trap(), [Filler(512, 7)]), Item(OneBlockFile(), [])] }

  lemma TailHolds()
    ensures Heads(Tail()) == Trap() + OneBlockFile() && DataChunks(Tail()) == [Filler(512, 7)]
    ensures Joined(Tail()) == Trap() + OneBlockFile() + Filler(512, 7)
    ensures Joined(Trapped()) == Trap() + Filler(512, 7) + OneBlockFile()
  {
    hide Trap, OneBlockFile, Filler, Heads, DataChunks, Joined, Flatten;
    var d := Filler(512, 7);
    TwoItems(Item(Trap(), []), Item(OneBlockFile(), [d]));
    TwoItems(Item(Trap(), [d]), Item(OneBlockFile(), []));
    FlattenSingle(d);
    assert Flatten([]) == [] by { NothingJoined(); }
    assert [] + [d] == [d];
  }

  lemma TrapReads()
    ensures ItemsRead(Trap() + OneBlockFile(), [Filler(512, 7)]) == Some(Trapped())
  {
    hide Trap, OneBlockFile, Filler, RestoreHead, ItemsRead;
    var trap, next, d := Item(Trap(), [Filler(512, 7)]), Item(OneBlockFile(), []), Filler(512, 7);
    TrapHead();
    assert trap.body + [] == [d] && next.body + [] == [] && OneBlockFile() + [] == OneBlockFile();
    NothingRead();
    NothingHeld();
    ReadNext(next, [], []);
    ReadNext(trap, OneBlockFile(), []);
    assert [next] + [] == [next] && [trap] + [next] == Trapped();
  }

  lemma TwoItems(x: Item, y: Item)
    ensures Heads([x, y]) == x.head + y.head && DataChunks([x, y]) == x.body + y.body
    ensures Joined([x, y]) == x.head + Flatten(x.body) + (y.head + Flatten(y.body))
  {
    hide Flatten;
    assert [x, y] == [x] + [y] && [y] == [y] + [];
    Front(x, [y]);
    Front(y, []);
  }

  lemma {:induction false} HeadsConcat(x: seq<Item>, y: seq<Item>)
    ensures Heads(x + y) == Heads(x) + Heads(y)
    decreases |y|
  {
    if y == [] {
      assert x + y == x;
    } else {
      var n := |y| - 1;
      assert (x + y)[..|x| + n] == x + y[..n];
      HeadsConcat(x, y[..n]);
    }
  }

  lemma {:induction false} DataConcat(x: seq<Item>, y: seq<Item>)
    ensures DataChunks(x + y) == DataChunks(x) + DataChunks(y)
    decreases |y|
  {
    if y == [] {
      assert x + y == x;
    } else {
      var n := |y| - 1;
      assert (x + y)[..|x| + n] == x + y[..n];
      DataConcat(x, y[..n]);
    }
  }

  lemma {:induction false} JoinedConcat(x: seq<Item>, y: seq<Item>)
    ensures Joined(x + y) == Joined(x) + Joined(y)
    decreases |y|
  {
    hide Flatten;
    if y == [] {
      assert x + y == x;
    } else {
      var n := |y| - 1;
      assert (x + y)[..|x| + n] == x + y[..n];
      JoinedConcat(x, y[..n]);
    }
  }

  /** The archive comes back with the last two blocks exchanged: the payload of the last file stands
      before its header. */
  lemma ArchiveChanged(p: FastCdc.Params, segments: nat)
    requires ParamsFit(p) && 16 * segments == DIRS
    ensures var a := Archive(16 * segments);
            && Merged(p, a) == Some(a[..|a| - 1024] + Filler(512, 7) + OneBlockFile())
            && a[|a| - 1024..] == OneBlockFile() + Filler(512, 7)
            && Merged(p, a) != Some(a)
  {
    hide Parse, ReadInWindows, Before, Tail, Trapped, Archive, Trap, OneBlockFile, Filler, Heads, DataChunks, Joined, Bodies,
      ItemsRead, SegmentsOk, Own, FullHeads;
    var a := Archive(16 * segments);
    var r, good := ReadInWindows(p, a), Before(16 * segments);
    ArchiveItems(p, segments);
    BeforeOwn(16 * segments);
    HeadsFull(good);
    QueueHoldsItems(p, a);
    HeadsConcat(good, Tail());
    DataConcat(good, Tail());
    JoinedConcat(good, Tail());
    JoinedConcat(good, Trapped());
    TailHolds();
    TrapReads();
    ReadOn(good, Trap() + OneBlockFile(), [Filler(512, 7)]);
    Exchanged(Joined(good), Trap(), OneBlockFile(), Filler(512, 7));
    LastBlocksDiffer();
  }

  lemma HeadsFull(good: seq<Item>)
    requires forall i :: 0 <= i < |good| ==> Own(good[i])
    ensures FullHeads(good + Tail())
  {
    hide Own;
    forall i | 0 <= i < |good| ensures |good[i].head| == HEADER_SIZE {
      OwnHead(good[i]);
    }
  }

  lemma Exchanged(before: seq<Byte>, trap: seq<Byte>, head: seq<Byte>, payload: seq<Byte>)
    requires |head| == |payload| == 512
    ensures var a := before + (trap + head + payload);
            && |a| >= 1024 && a[|a| - 1024..] == head + payload
            && before + (trap + payload + head) == a[..|a| - 1024] + payload + head
            && (head != payload ==> before + (trap + payload + head) != a)
  {
    var a, b := before + (trap + head + payload), before + (trap + payload + head);
    assert a[..|a| - 1024] == before + trap;
    assert b[|a| - 1024..|a| - 512] == payload && a[|a| - 1024..|a| - 512] == head;
  }

  lemma LastBlocksDiffer()
    ensures OneBlockFile() != Filler(512, 7)
  {
    assert OneBlockFile()[156] != Filler(512, 7)[156];
  }

  /** The bound is sharp: all well-formed archives with payloads of at most `max` bytes come back if
      and only if that is less than a container. */
  lemma SafeIff(p: FastCdc.Params, max: nat)
    requires ParamsFit(p)
    ensures (forall a :: WellFormed(a) && PayloadsAtMost(a, max) ==> Merged(p, a) == Some(a)) <==> max < CONTAINER_MAX_SIZE
  {
    hide Merged, PayloadsAtMost, WellFormed, Archive, ReadInWindows;
    if max < CONTAINER_MAX_SIZE {
      forall a | WellFormed(a) && PayloadsAtMost(a, max) ensures Merged(p, a) == Some(a) {
        AtMostSafe(a, max);
        SmallPayloadsReturn(p, a);
      }
    } else {
      var segments := 16384;
      ArchiveFine(16 * segments);
      AtMostMore(Archive(16 * segments), CONTAINER_MAX_SIZE, max);
      ArchiveChanged(p, segments);
    }
  }

  lemma {:induction false} AtMostMore(a: seq<Byte>, max: nat, more: nat)
    requires PayloadsAtMost(a, max) && max <= more
    ensures PayloadsAtMost(a, more)
    decreases |a|
  {
    hide ChunkerHead, RoundUp;
    if |a| >= HEADER_SIZE {
      var h, rest := ChunkerHead(a[..HEADER_SIZE]), a[HEADER_SIZE..];
      AtMostMore(rest[Min(Left(h), |rest|)..], max, more);
    }
  }

  /** Payloads come in whole blocks. */
  lemma {:induction false} AtMostSafe(a: seq<Byte>, max: nat)
    requires PayloadsAtMost(a, max) && max < CONTAINER_MAX_SIZE
    ensures PayloadsAtMost(a, SAFE_PAYLOAD)
    decreases |a|
  {
    hide ChunkerHead;
    if |a| >= HEADER_SIZE {
      var h, rest := ChunkerHead(a[..HEADER_SIZE]), a[HEADER_SIZE..];
      AtMostSafe(rest[Min(Left(h), |rest|)..], max);
    }
  }
}
