/**
 When reading an archive in windows does no harm in tar mode (src/chunking/chunker.cc). A segment
 holds up to sixteen headers with their payloads, and a window keeps 64 MiB in reserve: that is
 enough for sixteen payloads of one container less a block, and not for sixteen full containers. A
 payload that a window end clips is parsed on as headers, and the archive may come back changed.
 */
module TarWindows {
  import opened Bytes
  import FastCdc
  import opened Tar
  import opened TarTrace
  import opened TarMerge

  const SAFE_PAYLOAD := CONTAINER_MAX_SIZE - HEADER_SIZE

  /** No payload queued as one chunk takes more than `max` bytes, rounded to blocks. */
  predicate PayloadsAtMost(a: seq<Byte>, max: nat)
    decreases |a|
  {
    |a| < HEADER_SIZE ||
    (var h, rest := ChunkerHead(a[..HEADER_SIZE]), a[HEADER_SIZE..];
     (h.next == FileChunk ==> RoundUp(h.size) <= max) && PayloadsAtMost(rest[Min(Left(h), |rest|)..], max))
  }

  /** The same of the rest of an archive in the middle of a parse. */
  predicate Limited(c: Cut, s: seq<Byte>, max: nat) {
    PayloadsAtMost(s[Ahead(c, s)..], max) && (c.next == FileChunk ==> RoundUp(c.size) <= max)
  }

  lemma HeadLimited(s: seq<Byte>, max: nat)
    requires PayloadsAtMost(s, max) && |s| >= HEADER_SIZE
    ensures Limited(CutAfter(s[..HEADER_SIZE]), s[HEADER_SIZE..], max)
  {
    hide ChunkerHead, SizeField;
    var rest := s[HEADER_SIZE..];
    assert rest[0..] == rest;
  }

  lemma BigOn(p: FastCdc.Params, c: Cut, s: seq<Byte>, max: nat)
    requires FastCdc.ParamsOk(p) && Limited(c, s, max) && c.next == BigChunk && c.offset < c.big && c.big - c.offset <= |s|
    ensures var cut := NextCut(p, c, s);
            Limited(cut.1, s[cut.0..], max)
  {
    hide PayloadsAtMost, FastCdc.ParamsOk;
    var cut := NextCut(p, c, s);
    assert s[cut.0..][Ahead(cut.1, s[cut.0..])..] == s[c.big - c.offset..];
  }

  /** The bytes for which the headers a segment still takes, and their payloads, have room. */
  function Room(cp: nat): nat
    decreases MULTI_HEADER_SIZE - cp
  {
    if cp >= MULTI_HEADER_SIZE then 0 else HEADER_SIZE + SAFE_PAYLOAD + Room(cp + HEADER_SIZE)
  }

  /** Sixteen headers with their payloads fit the reserve of a window. */
  lemma {:induction false} RoomIs(headers: nat)
    requires headers <= 16
    ensures Room(HEADER_SIZE * headers) == (16 - headers) * CONTAINER_MAX_SIZE <= TAIL_SIZE
    decreases 16 - headers
  {
    if headers < 16 {
      RoomIs(headers + 1);
    }
  }

  /** In a window that is not the last, a segment has room for all that it still takes. */
  ghost predicate Roomy(a: seq<Byte>, x: Point)
    requires Placed(a, x)
  {
    x.m.Seg? ==>
      && |x.m.collected| % HEADER_SIZE == 0
      && (!LastWindow(a, x.w) ==>
            x.pos + Room(|x.m.collected|) + (if x.c.next == FileChunk then SAFE_PAYLOAD else 0) <= WindowEnd(a, x.w))
  }

  /** Small payloads keep their room, and then nothing is clipped. */
  lemma StepRoomy(p: FastCdc.Params, a: seq<Byte>, x: Point)
    requires ParamsFit(p) && Placed(a, x) && Expects(x.c, a[x.pos..]) && Limited(x.c, a[x.pos..], SAFE_PAYLOAD) && Roomy(a, x)
    ensures !Step(p, a, x).Stray?
    ensures Step(p, a, x).To? ==>
              var y, out := Step(p, a, x).next, Step(p, a, x).out;
              x.pos <= y.pos <= |a| && !Clips(out) && Limited(y.c, a[y.pos..], SAFE_PAYLOAD) && Roomy(a, y)
  {
    hide Expects, Limited, RoundUp, NextCut, CutAfter, Room;
    RoomIs(0);
    var s := a[x.pos..];
    if x.m.Seg? && x.c.next == FileHeader && |x.m.collected| < MULTI_HEADER_SIZE {
      HeaderRoomy(a, x);
    } else if x.m.Seg? && x.c.next == FileChunk {
      FileRoomy(a, x);
    } else if x.m.Run? && x.c.next == BigChunk && x.m.done < RUN_SIZE {
      BigExpects(p, x.c, s);
      BigOn(p, x.c, s, SAFE_PAYLOAD);
      var cut := NextCut(p, x.c, s);
      assert s[cut.0..] == a[x.pos + cut.0..];
    }
  }

  lemma HeaderRoomy(a: seq<Byte>, x: Point)
    requires Placed(a, x) && Expects(x.c, a[x.pos..]) && Limited(x.c, a[x.pos..], SAFE_PAYLOAD) && Roomy(a, x)
    requires x.m.Seg? && x.c.next == FileHeader && |x.m.collected| < MULTI_HEADER_SIZE
    ensures var m := HeaderMove(a, x);
            m.To? && !Clips(m.out) && Limited(m.next.c, a[m.next.pos..], SAFE_PAYLOAD) && Roomy(a, m.next)
  {
    hide Expects, RoundUp, CutAfter, PayloadsAtMost;
    var s := a[x.pos..];
    HeaderThere(s);
    assert s[0..] == s;
    assert x.pos + HEADER_SIZE <= WindowEnd(a, x.w);
    HeadLimited(s, SAFE_PAYLOAD);
    assert s[..HEADER_SIZE] == a[x.pos..x.pos + HEADER_SIZE] && s[HEADER_SIZE..] == a[x.pos + HEADER_SIZE..];
    var rest := a[x.pos + HEADER_SIZE..];
    assert rest == [] ==> rest[0..] == rest[Ahead(CutAfter(s[..HEADER_SIZE]), rest)..];
  }

  lemma FileRoomy(a: seq<Byte>, x: Point)
    requires Placed(a, x) && Limited(x.c, a[x.pos..], SAFE_PAYLOAD) && Roomy(a, x)
    requires x.m.Seg? && x.c.next == FileChunk
    ensures var m := FileMove(a, x);
            m.To? && !Clips(m.out) && Limited(m.next.c, a[m.next.pos..], SAFE_PAYLOAD) && Roomy(a, m.next)
  {
    hide RoundUp, PayloadsAtMost, Room;
    var s := a[x.pos..];
    var n := Ahead(x.c, s);
    assert s[n..] == a[x.pos + n..] && a[x.pos + n..][0..] == a[x.pos + n..];
  }

  lemma {:induction false} SmallWhole(p: FastCdc.Params, a: seq<Byte>, x: Point)
    requires ParamsFit(p) && Placed(a, x) && Expects(x.c, a[x.pos..]) && Limited(x.c, a[x.pos..], SAFE_PAYLOAD) && Roomy(a, x)
    ensures Parse(p, a, x).whole
    decreases |a| - x.pos, |a| - x.w, Rank(x.c), ModeRank(x)
  {
    hide Step, Placed, Expects, Limited, Roomy;
    PlacedBounds(a, x);
    StepRoomy(p, a, x);
    match Step(p, a, x)
    case End =>
    case Stray =>
    case To(y, out) =>
      PlacedBounds(a, y);
      StepKeeps(p, a, x, Parse(p, a, y));
      SmallWhole(p, a, y);
  }

  /** If no payload fills a whole container, windows clip nothing and the archive comes back. */
  lemma SmallPayloadsReturn(p: FastCdc.Params, a: seq<Byte>)
    requires ParamsFit(p) && WellFormed(a) && PayloadsAtMost(a, SAFE_PAYLOAD)
    ensures ReadInWindows(p, a).whole && ReadInWindows(p, a).items == ItemsOf(p, a)
    ensures ItemsReturn(p, a) && Merged(p, a) == Some(a)
  {
    hide Parse, WellFormed, PayloadsAtMost, ItemsReturn, Merged;
    assert a[0..] == a;
    SmallWhole(p, a, StartPoint);
    WindowsKeepItems(p, a);
    WholeReturns(p, a);
  }

  // ----- archives of one window --------------------------------------------------------------------

  /** In the last window the parser sees all that the archive announces. */
  lemma LastStep(p: FastCdc.Params, a: seq<Byte>, x: Point)
    requires ParamsFit(p) && Placed(a, x) && Expects(x.c, a[x.pos..]) && LastWindow(a, x.w)
    ensures !Step(p, a, x).Stray?
    ensures Step(p, a, x).To? ==> !Clips(Step(p, a, x).out) && LastWindow(a, Step(p, a, x).next.w)
  {
    hide Expects, RoundUp, NextCut, CutAfter;
    var s := a[x.pos..];
    if x.m.Seg? && x.c.next == FileHeader {
      HeaderThere(s);
      assert s == [] || x.pos + HEADER_SIZE <= |a|;
    } else if x.m.Run? && x.c.next == BigChunk {
      BigExpects(p, x.c, s);
    }
  }

  lemma {:induction false} LastWhole(p: FastCdc.Params, a: seq<Byte>, x: Point)
    requires ParamsFit(p) && Placed(a, x) && Expects(x.c, a[x.pos..]) && LastWindow(a, x.w)
    ensures Parse(p, a, x).whole
    decreases |a| - x.pos, |a| - x.w, Rank(x.c), ModeRank(x)
  {
    hide Step, Placed, Expects;
    PlacedBounds(a, x);
    LastStep(p, a, x);
    match Step(p, a, x)
    case End =>
    case Stray =>
    case To(y, out) =>
      PlacedBounds(a, y);
      StepKeeps(p, a, x, Parse(p, a, y));
      LastWhole(p, a, y);
  }

  /** Whatever its payloads, an archive that is read in one window comes back. */
  lemma OneWindowReturns(p: FastCdc.Params, a: seq<Byte>)
    requires ParamsFit(p) && WellFormed(a) && |a| < READ_FILE_SIZE
    ensures ReadInWindows(p, a).whole && ReadInWindows(p, a).items == ItemsOf(p, a)
    ensures ItemsReturn(p, a) && Merged(p, a) == Some(a)
  {
    hide Parse, WellFormed, ItemsReturn, Merged;
    assert a[0..] == a;
    LastWhole(p, a, StartPoint);
    WindowsKeepItems(p, a);
    WholeReturns(p, a);
  }
}
