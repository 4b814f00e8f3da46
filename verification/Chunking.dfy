/**
 Chunker::Chunking of src/chunking/chunker.cc for fixed-size and FastCDC chunks. The file is read
 in windows; what a window leaves over is read again with the next one.
 */
module Chunking {
  import opened Bytes
  import opened FastCdc

  const READ_FILE_SIZE := 192 * 1024 * 1024
  const TAIL_SIZE := 4194304 * 16

  datatype ChunkType = FixedSize | FastCdcCut

  /** The cut of a whole rest of a file, by trying the positions in order. */
  function FirstCut(p: Params, s: seq<Byte>, k: nat): (r: nat)
    requires ParamsOk(p) && Start(p, |s|) <= k <= Min(p.maxChunkSize, |s|)
    ensures k <= r <= Min(p.maxChunkSize, |s|)
    decreases |s| - k
  {
    if k == Min(p.maxChunkSize, |s|) then k
    else if Fires(p, s, k + 1) then k + 1
    else FirstCut(p, s, k + 1)
  }

  function CutOf(p: Params, kind: ChunkType, s: seq<Byte>): (r: nat)
    requires ParamsOk(p)
    ensures r <= |s| && r <= p.maxChunkSize && (s != [] ==> r > 0)
  {
    match kind
    case FixedSize => Min(p.avgChunkSize, |s|)
    case FastCdcCut => FirstCut(p, s, Start(p, |s|))
  }

  /** The whole file cut at once, with all of it in view. */
  function CutWhole(p: Params, kind: ChunkType, s: seq<Byte>): seq<seq<Byte>>
    requires ParamsOk(p)
    decreases |s|
  {
    if s == [] then []
    else
      var c := CutOf(p, kind, s);
      [s[..c]] + CutWhole(p, kind, s[c..])
  }

  lemma {:induction false} FirstCutIsCut(p: Params, s: seq<Byte>, k: nat)
    requires ParamsOk(p) && Start(p, |s|) <= k <= Min(p.maxChunkSize, |s|)
    requires forall j :: Start(p, |s|) < j <= k ==> !Fires(p, s, j)
    ensures IsCut(p, s, FirstCut(p, s, k))
    decreases |s| - k
  {
    if k < Min(p.maxChunkSize, |s|) && !Fires(p, s, k + 1) {
      FirstCutIsCut(p, s, k + 1);
    }
  }

  /** A cut made in a window that shows enough of the file is the cut of the whole rest. */
  lemma WindowCut(p: Params, s: seq<Byte>, w: nat, r: nat)
    requires ParamsOk(p) && w <= |s| && (w >= p.maxChunkSize || w == |s|)
    requires IsCut(p, s[..w], r)
    ensures r == CutOf(p, FastCdcCut, s)
  {
    hide IsCut;
    CutIsLocal(p, s, w, r);
    FirstCutIsCut(p, s, Start(p, |s|));
    CutIsUnique(p, s, r, CutOf(p, FastCdcCut, s));
  }

  /** The chunks of a file, joined, are the file, and every chunk is non-empty and short enough. */
  lemma {:induction false} ChunksJoin(p: Params, kind: ChunkType, s: seq<Byte>)
    requires ParamsOk(p)
    ensures Flatten(CutWhole(p, kind, s)) == s
    ensures forall k :: 0 <= k < |CutWhole(p, kind, s)| ==> 0 < |CutWhole(p, kind, s)[k]| <= p.maxChunkSize
    decreases |s|
  {
    hide CutOf, ParamsOk;
    if s != [] {
      var c := CutOf(p, kind, s);
      ChunksJoin(p, kind, s[c..]);
      FlattenConcat([s[..c]], CutWhole(p, kind, s[c..]));
      FlattenPush([], s[..c]);
      assert [] + [s[..c]] == [s[..c]];
      assert s == s[..c] + s[c..];
    }
  }

  // ----- what the chunks are, chunk by chunk -------------------------------------------------------

  /** Chunks of exactly `size` bytes up to the last, which has at least one. */
  ghost predicate FixedChunks(size: nat, s: seq<Byte>, chunks: seq<seq<Byte>>) {
    && (forall k :: 0 <= k < |chunks| - 1 ==> |chunks[k]| == size)
    && (chunks != [] ==> 1 <= |chunks[|chunks| - 1]| <= size)
    && Flatten(chunks) == s
  }

  /** Every chunk is cut off the rest of the file where the gear hash says, and is not empty. */
  ghost predicate CdcChunks(p: Params, s: seq<Byte>, chunks: seq<seq<Byte>>)
    requires ParamsOk(p)
    decreases |chunks|
  {
    if chunks == [] then s == []
    else
      var n := |chunks[0]|;
      && 0 < n <= |s| && chunks[0] == s[..n] && IsCut(p, s, n)
      && CdcChunks(p, s[n..], chunks[1..])
  }

  lemma {:induction false} WholeIsFixed(p: Params, s: seq<Byte>)
    requires ParamsOk(p)
    ensures FixedChunks(p.avgChunkSize, s, CutWhole(p, FixedSize, s))
    decreases |s|
  {
    ChunksJoin(p, FixedSize, s);
    if s != [] {
      var c := CutOf(p, FixedSize, s);
      var rest := CutWhole(p, FixedSize, s[c..]);
      WholeIsFixed(p, s[c..]);
      assert c < |s| ==> rest != [];
      assert forall k :: 0 < k < |rest| + 1 ==> ([s[..c]] + rest)[k] == rest[k - 1];
    }
  }

  lemma {:induction false} WholeIsCdc(p: Params, s: seq<Byte>)
    requires ParamsOk(p)
    ensures CdcChunks(p, s, CutWhole(p, FastCdcCut, s))
    decreases |s|
  {
    hide IsCut;
    if s != [] {
      var c := CutOf(p, FastCdcCut, s);
      FirstCutIsCut(p, s, Start(p, |s|));
      WholeIsCdc(p, s[c..]);
      assert ([s[..c]] + CutWhole(p, FastCdcCut, s[c..]))[1..] == CutWhole(p, FastCdcCut, s[c..]);
    }
  }

  class Chunker {
    const p: Params
    const chunkType: ChunkType
    var outputMQ: seq<seq<Byte>>

    constructor (p: Params, chunkType: ChunkType)
      requires ParamsOk(p) && p.maxChunkSize <= TAIL_SIZE
      ensures this.p == p && this.chunkType == chunkType && outputMQ == []
    {
      this.p, this.chunkType, outputMQ := p, chunkType, [];
    }

    /** Cuts the window `file[totalOffset..totalOffset + len]` while enough of it is left, to its
        end if it is the last. */
    method ChunkWindow(file: seq<Byte>, totalOffset: nat, len: nat, end: bool) returns (localOffset: nat)
      requires ParamsOk(p) && p.maxChunkSize <= TAIL_SIZE
      requires totalOffset + len <= |file| && (end ==> totalOffset + len == |file|)
      modifies this`outputMQ
      ensures localOffset <= len && (end ==> localOffset == len) && (len >= TAIL_SIZE ==> localOffset > 0)
      ensures outputMQ + CutWhole(p, chunkType, file[totalOffset + localOffset..])
           == old(outputMQ) + CutWhole(p, chunkType, file[totalOffset..])
    {
      hide IsCut, CutOf;
      localOffset := 0;
      while len - localOffset >= TAIL_SIZE || (end && localOffset < len)
        invariant localOffset <= len && (localOffset == 0 ==> outputMQ == old(outputMQ))
        invariant outputMQ + CutWhole(p, chunkType, file[totalOffset + localOffset..])
               == old(outputMQ) + CutWhole(p, chunkType, file[totalOffset..])
        decreases len - localOffset
      {
        ghost var rest := file[totalOffset + localOffset..];
        var cp := CutPoint(file, totalOffset + localOffset, len - localOffset);
        CutStep(p, chunkType, rest);
        assert rest[..cp] == file[totalOffset + localOffset..totalOffset + localOffset + cp];
        assert rest[cp..] == file[totalOffset + (localOffset + cp)..];
        ghost var queue := outputMQ;
        outputMQ := outputMQ + [file[totalOffset + localOffset..totalOffset + localOffset + cp]];
        assert queue + ([rest[..cp]] + CutWhole(p, chunkType, rest[cp..])) == outputMQ + CutWhole(p, chunkType, rest[cp..]);
        localOffset := localOffset + cp;
      }
    }

    /** The switch over the chunk types. */
    method CutPoint(file: seq<Byte>, at: nat, len: nat) returns (cp: nat)
      requires ParamsOk(p) && p.maxChunkSize <= TAIL_SIZE
      requires at + len <= |file| && (len >= TAIL_SIZE || at + len == |file|) && len > 0
      ensures cp == CutOf(p, chunkType, file[at..]) && 0 < cp <= len
    {
      ghost var rest := file[at..];
      assert rest[..len] == file[at..at + len];
      match chunkType {
        case FixedSize => cp := Min(p.avgChunkSize, len);
        case FastCdcCut =>
          hide Fires, Gear;
          cp := CutPointFastCDC(p, file, at, len);
          WindowCut(p, rest, len, cp);
      }
    }

    /** The read loop. Reading in windows and reading again what was left is invisible in the result. */
    method Chunking(inputFile: seq<Byte>)
      requires ParamsOk(p) && p.maxChunkSize <= TAIL_SIZE
      modifies this`outputMQ
      ensures outputMQ == old(outputMQ) + CutWhole(p, chunkType, inputFile)
      ensures chunkType == FixedSize ==> FixedChunks(p.avgChunkSize, inputFile, outputMQ[|old(outputMQ)|..])
      ensures chunkType == FastCdcCut ==> CdcChunks(p, inputFile, outputMQ[|old(outputMQ)|..])
    {
      hide CutWhole, FixedChunks, CdcChunks;
      WholeIsFixed(p, inputFile);
      WholeIsCdc(p, inputFile);
      var end, totalOffset := false, 0;
      assert inputFile[0..] == inputFile;
      NothingLeft(p, chunkType);
      while !end
        invariant totalOffset <= |inputFile|
        invariant outputMQ + CutWhole(p, chunkType, inputFile[totalOffset..]) == old(outputMQ) + CutWhole(p, chunkType, inputFile)
        invariant end ==> totalOffset == |inputFile|
        decreases |inputFile| - totalOffset, !end
      {
        end := |inputFile| - totalOffset < READ_FILE_SIZE;
        var len := if end then |inputFile| - totalOffset else READ_FILE_SIZE;
        if len == 0 {
          break;
        }
        var localOffset := ChunkWindow(inputFile, totalOffset, len, end);
        totalOffset := totalOffset + localOffset;
      }
      assert inputFile[totalOffset..] == [];
      assert outputMQ == old(outputMQ) + CutWhole(p, chunkType, inputFile) by {
        assert outputMQ + [] == outputMQ;
      }
      assert outputMQ[|old(outputMQ)|..] == CutWhole(p, chunkType, inputFile);
    }
  }

  lemma NothingLeft(p: Params, kind: ChunkType)
    requires ParamsOk(p)
    ensures CutWhole(p, kind, []) == []
  {
  }

  lemma CutStep(p: Params, kind: ChunkType, s: seq<Byte>)
    requires ParamsOk(p) && s != []
    ensures CutWhole(p, kind, s) == [s[..CutOf(p, kind, s)]] + CutWhole(p, kind, s[CutOf(p, kind, s)..])
  {
  }
}
