/**
 The tar mode of the chunker (src/chunking/chunker.cc): payload chunks are queued one by one,
 headers are collected and queued in segments. The file is read in windows, and what follows a
 window end is parsed as the state left there says. For any file the queue is the one that
 `TarTrace.ReadInWindows` gives.
 */
module TarSplit {
  import opened Bytes
  import FastCdc
  import Windows = Chunking
  import opened Tar
  import opened TarTrace

  /** Queued and remaining pieces together are the queue of the file. */
  ghost predicate On(p: FastCdc.Params, a: seq<Byte>, x: Point, queue: seq<Piece>)
    requires ParamsFit(p)
  {
    && Placed(a, x)
    && queue + Parse(p, a, x).queue == ReadInWindows(p, a).queue
    && Parse(p, a, x).ok == ReadInWindows(p, a).ok
  }

  function Queued(out: Out): seq<Piece> {
    match out
    case Payload(bytes, _) => [Piece(bytes, false)]
    case Segment(headers) => [Piece(headers, true)]
    case _ => []
  }

  lemma Advance(p: FastCdc.Params, a: seq<Byte>, x: Point, queue: seq<Piece>)
    requires ParamsFit(p) && On(p, a, x, queue) && Step(p, a, x).To?
    ensures On(p, a, Step(p, a, x).next, queue + Queued(Step(p, a, x).out))
  {
    hide ParamsFit, Placed, Step;
    var y, out := Step(p, a, x).next, Step(p, a, x).out;
    var r := Parse(p, a, y);
    assert queue + (Queued(out) + r.queue) == queue + Queued(out) + r.queue;
    assert out.Silent? || out.Header? ==> [] + r.queue == r.queue;
  }

  lemma Ends(p: FastCdc.Params, a: seq<Byte>, x: Point, queue: seq<Piece>)
    requires ParamsFit(p) && On(p, a, x, queue) && !Step(p, a, x).To?
    ensures queue == ReadInWindows(p, a).queue && ReadInWindows(p, a).ok == Step(p, a, x).End?
  {
    hide ParamsFit, Placed, Step;
    assert queue + [] == queue;
  }

  lemma Begins(p: FastCdc.Params, a: seq<Byte>)
    requires ParamsFit(p)
    ensures On(p, a, StartPoint, [])
  {
    hide Parse;
    assert [] + ReadInWindows(p, a).queue == ReadInWindows(p, a).queue;
  }

  // ----- the chunker ---------------------------------------------------------------------------

  class TarChunker {
    const p: FastCdc.Params
    var nextChunkType: BlockType
    var nextChunkSize: nat
    var bigChunkSize: nat
    var bigChunkOffset: nat
    var localType: BlockType
    var headerCp: nat
    const headerBuffer: array<Byte>
    var outputMQ: seq<Piece>

    ghost function State(): Cut
      reads this
    {
      Canon(Cut(nextChunkType, nextChunkSize, if nextChunkType == BigChunk then bigChunkSize else 0,
                if nextChunkType == BigChunk then bigChunkOffset else 0))
    }

    ghost predicate Valid()
      reads this
    {
      ParamsFit(p) && headerBuffer.Length == 512 * 32 && headerCp <= headerBuffer.Length
    }

    /** The parser stands at `x`, and what it has queued and what is left are the queue of `a`. */
    ghost predicate Stands(a: seq<Byte>, x: Point)
      reads this, headerBuffer
    {
      Valid() && State() == x.c && headerBuffer[..headerCp] == Collected(x.m) && On(p, a, x, outputMQ)
    }

    constructor (p: FastCdc.Params)
      requires ParamsFit(p)
      ensures this.p == p && Valid() && nextChunkType == FileHeader && headerCp == 0 && outputMQ == [] && fresh(headerBuffer)
    {
      this.p, nextChunkType, nextChunkSize, bigChunkSize, bigChunkOffset := p, FileHeader, 0, 0, 0;
      localType, headerCp, outputMQ := FileHeader, 0, [];
      headerBuffer := new Byte[512 * 32];
    }

    /** CutPointTarFast on a header block. */
    method CutHeader(block: seq<Byte>)
      requires |block| == HEADER_SIZE && nextChunkType == FileHeader
      modifies this`nextChunkType, this`nextChunkSize, this`bigChunkSize, this`bigChunkOffset
      ensures State() == CutAfter(block)
    {
      nextChunkSize := ReadSize(block[124..135], 48);
      if block[156] == REGTYPE {
        if nextChunkSize <= CONTAINER_MAX_SIZE {
          nextChunkType := FileChunk;
        } else {
          nextChunkType := BigChunk;
          bigChunkSize := RoundUp(nextChunkSize);
          bigChunkOffset := 0;
        }
      }
      if block[156] == AREGTYPE {
        nextChunkSize := 0;
        nextChunkType := FileChunk;
      }
      if block[156] == XHDTYPE || block[156] == GNUTYPE_LONGNAME {
        nextChunkType := FileChunk;
      }
    }

    /** CutPointTarFast on a payload of at most one container. */
    method CutFile(len: nat) returns (cp: nat)
      requires nextChunkType == FileChunk
      modifies this`nextChunkType, this`nextChunkSize
      ensures nextChunkType == FileHeader && cp == Min(RoundUp(old(nextChunkSize)), len)
    {
      var roundedUp := RoundUp(nextChunkSize);
      nextChunkType := FileHeader;
      nextChunkSize := 512;
      cp := if roundedUp < len then roundedUp else len;
    }

    /** CutPointTarFast inside a big payload: FastCDC while more than one longest chunk is left. */
    method CutBig(src: seq<Byte>, at: nat) returns (cp: nat)
      requires nextChunkType == BigChunk && FastCdc.ParamsOk(p)
      requires bigChunkOffset <= bigChunkSize && at + (bigChunkSize - bigChunkOffset) <= |src|
      modifies this`nextChunkType, this`bigChunkOffset
      ensures (cp, State()) == NextCut(p, old(State()), src[at..])
    {
      var remaining := bigChunkSize - bigChunkOffset;
      if remaining > p.maxChunkSize {
        hide FastCdc.Fires;
        cp := FastCdc.CutPointFastCDC(p, src, at, remaining);
        ghost var view := src[at..][..remaining];
        assert view == src[at..at + remaining];
        assert view[..remaining] == view;
        Windows.WindowCut(p, view, remaining, cp);
        bigChunkOffset := bigChunkOffset + cp;
      } else {
        nextChunkType := FileHeader;
        cp := remaining;
      }
    }

    /** The collected headers go to the queue as one segment. */
    method PushSegment(ghost a: seq<Byte>, ghost x: Point)
      requires Stands(a, x) && x.m.Flush?
      modifies this`outputMQ, this`headerCp
      ensures Stands(a, x.(m := Call)) && headerCp == 0
    {
      hide On, Parse;
      Advance(p, a, x, outputMQ);
      outputMQ := outputMQ + [Piece(headerBuffer[..headerCp], true)];
      headerCp := 0;
      assert headerBuffer[..0] == [];
    }

    /** memcpy behind the headers collected so far. */
    method CopyHeader(block: seq<Byte>)
      requires headerCp + |block| <= headerBuffer.Length
      modifies this`headerCp, headerBuffer
      ensures headerCp == old(headerCp) + |block|
      ensures headerBuffer[..headerCp] == old(headerBuffer[..headerCp]) + block
    {
      var at := headerCp;
      forall i | 0 <= i < |block| {
        headerBuffer[at + i] := block[i];
      }
      headerCp := headerCp + |block|;
    }

    /** A header block: parsed, and copied behind the headers collected so far. At the end of the
        window the state is set back. `ok` is false where the parser would look beyond the buffer. */
    method TakeHeader(a: seq<Byte>, ghost x: Point, w: nat, pos: nat, end: nat) returns (ok: bool, cp: nat, ghost y: Point)
      requires Stands(a, x) && x.m.Seg? && nextChunkType == FileHeader && headerCp < MULTI_HEADER_SIZE
      requires x.w == w && x.pos == pos && end == WindowEnd(a, w)
      modifies this`nextChunkType, this`nextChunkSize, this`bigChunkSize, this`bigChunkOffset, this`headerCp, headerBuffer
      ensures !ok ==> Astray(a)
      ensures ok ==> 0 < cp <= end - pos && Stands(a, y) && y.pos == pos + cp && y.w == w && (if y.pos == end then y.m.Flush? else y.m.Seg?)
      ensures ok ==> headerCp == old(headerCp) + cp && (y.pos == end ==> nextChunkType == FileHeader)
    {
      hide Parse, ReadInWindows, CutAfter;
      ok, y := pos + HEADER_READ <= w + READ_FILE_SIZE, x;
      cp := Min(HEADER_SIZE, end - pos);
      if !ok {
        Ends(p, a, x, outputMQ);
        return;
      }
      var block := a[pos..pos + cp];
      CutHeader(block + Zeros(HEADER_SIZE - cp));
      assert cp == HEADER_SIZE ==> block + Zeros(0) == block;
      CopyHeader(block);
      if pos + cp == end {
        nextChunkType := FileHeader;
      }
      Advance(p, a, x, outputMQ);
      y := Step(p, a, x).next;
      assert outputMQ + [] == outputMQ;
    }

    /** The parser has gone astray; the queue holds what was cut before. */
    ghost predicate Astray(a: seq<Byte>)
      reads this
    {
      ParamsFit(p) && !ReadInWindows(p, a).ok && outputMQ == ReadInWindows(p, a).queue
    }

    /** A payload block of a small file, as far as the window shows it. */
    method TakeFile(a: seq<Byte>, ghost x: Point, pos: nat, end: nat) returns (cp: nat, ghost y: Point)
      requires Stands(a, x) && x.m.Seg? && nextChunkType == FileChunk
      requires x.pos == pos && end == WindowEnd(a, x.w)
      modifies this`nextChunkType, this`nextChunkSize, this`outputMQ
      ensures cp <= end - pos && nextChunkType == FileHeader
      ensures Stands(a, y) && y.pos == pos + cp && y.w == x.w && (if y.pos == end then y.m.Flush? else y.m.Seg?)
    {
      hide Parse, ReadInWindows, RoundUp, Ahead;
      Advance(p, a, x, outputMQ);
      y := Step(p, a, x).next;
      cp := CutFile(end - pos);
      if cp > 0 {
        outputMQ := outputMQ + [Piece(a[pos..pos + cp], false)];
      }
      assert outputMQ + [] == outputMQ;
    }

    /** One chunk of a big file. `ok` is false where the payload goes beyond the file. */
    method TakeBig(a: seq<Byte>, ghost x: Point, pos: nat) returns (ok: bool, cp: nat, ghost y: Point)
      requires Stands(a, x) && x.m.Run? && x.m.done < RUN_SIZE && nextChunkType == BigChunk && x.pos == pos
      modifies this`nextChunkType, this`bigChunkOffset, this`outputMQ
      ensures !ok ==> Astray(a)
      ensures ok ==> Stands(a, y) && y == Point(x.w, pos + cp, State(), Run(x.m.done + cp)) && cp <= MAX_CHUNK_SIZE
      ensures ok ==> nextChunkType != FileChunk && (nextChunkType == BigChunk ==> cp > 0)
    {
      hide Parse, ReadInWindows, NextCut;
      ok, cp, y := bigChunkSize - bigChunkOffset <= |a| - pos, 0, x;
      if !ok {
        Ends(p, a, x, outputMQ);
        return;
      }
      Advance(p, a, x, outputMQ);
      y := Step(p, a, x).next;
      cp := CutBig(a, pos);
      outputMQ := outputMQ + [Piece(a[pos..pos + cp], false)];
    }

    /** CutPointTarHeader from a header on: headers are collected until the segment is full, and a
        header is not separated from the payload of the file it announces, unless the window ends. */
    method CutSegment(a: seq<Byte>, w: nat, at: nat) returns (ok: bool, pos: nat)
      requires Stands(a, Point(w, at, State(), Call)) && nextChunkType == FileHeader && headerCp == 0
      requires at < WindowEnd(a, w) && Step(p, a, Point(w, at, State(), Call)).To? && Step(p, a, Point(w, at, State(), Call)).next.m == Seg([])
      modifies this, headerBuffer
      ensures !ok ==> Astray(a)
      ensures ok ==> at < pos <= WindowEnd(a, w) && headerCp == 0 && Stands(a, Point(w, pos, State(), Call))
      ensures ok && pos == WindowEnd(a, w) ==> nextChunkType == FileHeader
    {
      hide Parse, ReadInWindows, CutAfter, RoundUp;
      var end := WindowEnd(a, w);
      ghost var x := Point(w, at, State(), Call);
      Advance(p, a, x, outputMQ);
      x := Step(p, a, x).next;
      assert outputMQ + [] == outputMQ;
      ok, pos := true, at;
      while (headerCp < MULTI_HEADER_SIZE || (localType == FileHeader && nextChunkType == FileChunk)) && nextChunkType != BigChunk
        invariant at <= pos < end && ok && Stands(a, x) && x == Point(w, pos, State(), Seg(headerBuffer[..headerCp]))
        invariant nextChunkType == FileChunk ==> localType == FileHeader
        invariant headerCp == 0 ==> pos == at && nextChunkType == FileHeader
        invariant headerCp > 0 ==> pos > at
        decreases end - pos, if nextChunkType == FileChunk then 1 else 0
      {
        localType := nextChunkType;
        var cp;
        if localType == FileHeader {
          ok, cp, x := TakeHeader(a, x, w, pos, end);
          if !ok {
            return;
          }
        } else {
          cp, x := TakeFile(a, x, pos, end);
          if cp == 0 {
            continue;
          }
        }
        pos := pos + cp;
        if pos == end {
          break;
        }
      }
      if pos < end {
        Advance(p, a, x, outputMQ);
        x := Step(p, a, x).next;
        assert outputMQ + [] == outputMQ;
      }
      PushSegment(a, x);
    }

    /** CutPointTarHeader inside a big payload, about one container at a time. */
    method CutBigRun(a: seq<Byte>, w: nat, at: nat) returns (ok: bool, pos: nat)
      requires Stands(a, Point(w, at, State(), Call)) && nextChunkType == BigChunk && headerCp == 0
      requires Step(p, a, Point(w, at, State(), Call)).To? && Step(p, a, Point(w, at, State(), Call)).next.m == Run(0)
      modifies this
      ensures !ok ==> Astray(a)
      ensures ok ==> at <= pos && headerCp == 0 && Stands(a, Point(w, pos, State(), Call))
      ensures ok ==> (pos == at ==> nextChunkType == FileHeader) && (nextChunkType == BigChunk ==> pos < |a|)
    {
      hide Parse, ReadInWindows, NextCut;
      ghost var x := Point(w, at, State(), Call);
      Advance(p, a, x, outputMQ);
      x := Step(p, a, x).next;
      assert outputMQ + [] == outputMQ;
      ok, pos := true, at;
      while nextChunkType != FileHeader && pos - at < CONTAINER_MAX_SIZE - MAX_CHUNK_SIZE
        invariant at <= pos && ok && headerCp == 0 && Stands(a, x) && x == Point(w, pos, State(), Run(pos - at))
        invariant pos == at ==> nextChunkType != FileChunk
        invariant nextChunkType == BigChunk ==> pos < |a|
        decreases |a| - pos, nextChunkType == BigChunk
      {
        localType := nextChunkType;
        var cp;
        ok, cp, x := TakeBig(a, x, pos);
        if !ok {
          return;
        }
        pos := pos + cp;
        if pos == WindowEnd(a, w) {
          break;
        }
      }
      Advance(p, a, x, outputMQ);
      assert outputMQ + [] == outputMQ;
    }

    /** The calls of one window, while enough of it is left, or to the end of the file. */
    method ChunkWindow(a: seq<Byte>, w: nat, len: nat, eof: bool) returns (ok: bool, pos: nat)
      requires Stands(a, Point(w, w, State(), Call)) && headerCp == 0 && 0 < len
      requires w + len == WindowEnd(a, w) && eof == LastWindow(a, w)
      modifies this, headerBuffer
      ensures !ok ==> Astray(a)
      ensures ok ==> w < pos && headerCp == 0 && Stands(a, Point(if eof then w else pos, pos, State(), Call))
      ensures ok && eof ==> pos == |a|
      ensures ok && pos == |a| ==> nextChunkType == FileHeader
    {
      hide Parse, ReadInWindows, RoundUp;
      ok, pos := true, w;
      while w + len - pos >= TAIL_SIZE || (eof && pos < w + len)
        invariant w <= pos && headerCp == 0 && Stands(a, Point(w, pos, State(), Call))
        invariant pos == |a| ==> nextChunkType == FileHeader
        decreases |a| - pos, nextChunkType == BigChunk
      {
        if nextChunkType == FileHeader {
          ok, pos := CutSegment(a, w, pos);
        } else {
          ok, pos := CutBigRun(a, w, pos);
        }
        if !ok {
          return;
        }
      }
      if !eof {
        Advance(p, a, Point(w, pos, State(), Call), outputMQ);
        assert outputMQ + [] == outputMQ;
      }
    }

    /** Chunking in tar mode, on any file: the queue is exactly what `ReadInWindows` gives, up to the
        place where the parser goes astray if it does. */
    method Chunking(a: seq<Byte>) returns (ok: bool)
      requires Valid() && nextChunkType == FileHeader && headerCp == 0 && outputMQ == []
      modifies this, headerBuffer
      ensures ok <==> ReadInWindows(p, a).ok
      ensures outputMQ == ReadInWindows(p, a).queue
      ensures ok ==> nextChunkType == FileHeader && headerCp == 0
    {
      hide Parse, ReadInWindows;
      var end, totalOffset: nat := false, 0;
      ok := true;
      Begins(p, a);
      ghost var w: nat := 0;
      while !end
        invariant totalOffset <= |a| && headerCp == 0 && Stands(a, Point(w, totalOffset, State(), Call))
        invariant if end then totalOffset == |a| && LastWindow(a, w) else w == totalOffset
        invariant totalOffset == |a| ==> nextChunkType == FileHeader
        decreases |a| - totalOffset, !end
      {
        end := |a| - totalOffset < READ_FILE_SIZE;
        var len := if end then |a| - totalOffset else READ_FILE_SIZE;
        if len == 0 {
          break;
        }
        ok, totalOffset := ChunkWindow(a, totalOffset, len, end);
        if !ok {
          return;
        }
        if !end {
          w := totalOffset;
        }
      }
      Ends(p, a, Point(w, totalOffset, State(), Call), outputMQ);
    }
  }

  /** The buffer is cleared before a window is read. */
  function Zeros(n: nat): (r: seq<Byte>)
    ensures |r| == n
  {
    seq(n, _ => 0)
  }
}
