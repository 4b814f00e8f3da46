/**
 Whole backup runs: files or archives go through the chunker and a trace processor one after the
 other, sharing its store, and any of them can be restored afterwards.
 */
module EndToEnd {
  import opened Bytes
  import ContainerCache
  import opened ChunkStore
  import opened DataWriter
  import opened AbsMethod
  import opened PalantirIndex
  import FinesseOutcome
  import PalantirOutcome
  import opened FinesseMethod
  import opened PalantirMethod
  import FastCdc
  import Chunking
  import MessageQueue
  import Tar
  import TarTrace
  import TarMerge
  import TarSplit
  import TarWindows
  import TarRestore

  /** What a run assumes of its chunks: sizes, and contents that fingerprints and list flags tell apart. */
  ghost predicate RunFits(backups: seq<Backup>, fp: seq<Byte> -> Hash, seen: set<seq<Byte>>, isHeader: seq<Byte> -> bool) {
    && NamesDiffer(backups) && Separates(fp, seen)
    && forall i :: 0 <= i < |backups| ==> Fits(backups[i].pieces, seen, isHeader)
  }

  ghost predicate NoneEmpty(backups: seq<Backup>) {
    forall i, k :: 0 <= i < |backups| && 0 <= k < |backups[i].pieces| ==> backups[i].pieces[k].bytes != []
  }

  /** The chunks of a run in the order in which they are processed. */
  function Chunked(backups: seq<Backup>): seq<seq<Byte>> {
    if backups == [] then [] else Chunked(backups[..|backups| - 1]) + PieceBytes(backups[|backups| - 1].pieces)
  }

  /** The same, file by file. */
  function FilesOf(backups: seq<Backup>): (r: seq<seq<seq<Byte>>>)
    ensures |r| == |backups|
  {
    seq(|backups|, i requires 0 <= i < |backups| => PieceBytes(backups[i].pieces))
  }

  lemma {:induction false} ChunkedPrefix(backups: seq<Backup>, i: nat)
    requires i <= |backups|
    ensures |Chunked(backups[..i])| <= |Chunked(backups)| && Chunked(backups)[..|Chunked(backups[..i])|] == Chunked(backups[..i])
    decreases |backups|
  {
    if i == |backups| {
      assert backups[..i] == backups;
    } else {
      var n := |backups| - 1;
      ChunkedPrefix(backups[..n], i);
      assert backups[..n][..i] == backups[..i];
    }
  }

  lemma NextFile(backups: seq<Backup>, i: nat)
    requires i < |backups|
    ensures RunLog(backups[..i + 1]) == RunLog(backups[..i]) + LogFor(backups[i].name, backups[i].pieces)
    ensures Chunked(backups[..i + 1]) == Chunked(backups[..i]) + PieceBytes(backups[i].pieces)
    ensures PalantirOutcome.StepsOf(FilesOf(backups)[..i + 1])
         == PalantirOutcome.StepsOf(FilesOf(backups)[..i]) + (PalantirOutcome.Takes(PieceBytes(backups[i].pieces)) + [PalantirOutcome.EndOfFile])
  {
    assert backups[..i + 1][..i] == backups[..i];
    assert FilesOf(backups)[..i + 1][..i] == FilesOf(backups)[..i];
  }

  // ----- Finesse -------------------------------------------------------------------------------

  /** A Finesse run keeps every chunk in the recipe of its file, or ends exactly as the lengths of
      its deltas decide. */
  method FinesseRun(codec: Codec, fp: seq<Byte> -> Hash, sf: seq<Byte> -> FinesseOutcome.Features, backups: seq<Backup>,
                    ghost seen: set<seq<Byte>>, ghost isHeader: seq<Byte> -> bool) returns (outcome: Outcome, f: Finesse)
    requires Lossless(codec) && RunFits(backups, fp, seen, isHeader)
    ensures fresh(f.Repr())
    ensures outcome == Kept ==> f.Valid() && f.base.log == RunLog(backups)
    ensures outcome == FinesseOutcome.RunOf(codec, sf, FinesseOutcome.Nothing, Chunked(backups))
    ensures outcome == Kept ==>
              FinesseOutcome.Booked(codec, sf, FinesseOutcome.Nothing, Chunked(backups), NoStats, f.base.stats)
  {
    hide FinesseOutcome.Booked;
    hide Processor.Valid, Lossless, StatsOk, Fits, Separates, FinesseMethod.IndexOk, Chunked, RunLog, LogFor,
      FinesseOutcome.RunOf, FinesseOutcome.KnownAfter;
    f := new Finesse(codec, fp, sf);
    NothingRun(codec, sf);
    FinesseOutcome.NothingBooked(codec, sf, FinesseOutcome.Nothing, NoStats);
    for i := 0 to |backups|
      invariant fresh(f.Repr()) && f.Valid() && f.base.log == RunLog(backups[..i])
      invariant f.sf == sf && f.base.fp == fp && f.base.dataWrite.codec == codec
      invariant AllIn(f.base.dataWrite.contents, seen)
      invariant FlagsAgree(f.base.dataWrite.chunklist, f.base.dataWrite.contents, isHeader)
      invariant FinesseOutcome.RunOf(codec, sf, FinesseOutcome.Nothing, Chunked(backups[..i])) == Kept
      invariant f.Knows() == FinesseOutcome.KnownAfter(sf, FinesseOutcome.Nothing, Chunked(backups[..i]))
      invariant FinesseOutcome.Booked(codec, sf, FinesseOutcome.Nothing, Chunked(backups[..i]), NoStats, f.base.stats)
    {
      assert Fits(backups[i].pieces, seen, isHeader);
      ghost var stats := f.base.stats;
      f.StartFile(backups[i].name);
      outcome := f.ProcessTrace(backups[i].pieces, seen, isHeader);
      NextFile(backups, i);
      FinesseOutcome.RunConcat(codec, sf, FinesseOutcome.Nothing, Chunked(backups[..i]), PieceBytes(backups[i].pieces));
      if outcome != Kept {
        ChunkedPrefix(backups, i + 1);
        FinesseOutcome.RunStops(codec, sf, FinesseOutcome.Nothing, Chunked(backups), |Chunked(backups[..i + 1])|);
        return;
      }
      FinesseOutcome.BookedConcat(codec, sf, FinesseOutcome.Nothing, Chunked(backups[..i]), PieceBytes(backups[i].pieces),
                                  NoStats, stats, f.base.stats);
    }
    assert backups[..|backups|] == backups;
    outcome := Kept;
  }

  lemma NothingRun(codec: Codec, sf: seq<Byte> -> FinesseOutcome.Features)
    ensures RunLog([]) == [] && Chunked([]) == []
    ensures FinesseOutcome.RunOf(codec, sf, FinesseOutcome.Nothing, []) == Kept
    ensures FinesseOutcome.KnownAfter(sf, FinesseOutcome.Nothing, []) == FinesseOutcome.Nothing
  {
  }

  /** What restoreFile writes for any file of a Finesse run is that file's data chunks, joined. */
  method FinesseRestores(codec: Codec, fp: seq<Byte> -> Hash, sf: seq<Byte> -> FinesseOutcome.Features, backups: seq<Backup>, which: nat,
                         ghost seen: set<seq<Byte>>, ghost isHeader: seq<Byte> -> bool) returns (outcome: Outcome, out: seq<Byte>)
    requires Lossless(codec) && RunFits(backups, fp, seen, isHeader) && which < |backups|
    ensures outcome == Kept ==> out == Flatten(Bodies(backups[which].pieces, false))
    ensures outcome == FinesseOutcome.RunOf(codec, sf, FinesseOutcome.Nothing, Chunked(backups))
  {
    hide Lossless, StatsOk, FinesseMethod.IndexOk, Chunked;
    var f;
    outcome, f := FinesseRun(codec, fp, sf, backups, seen, isHeader);
    out := [];
    if outcome == Kept {
      ChunksOfRun(backups, backups[which].name, false);
      out := f.base.Restore(backups[which].name);
    }
  }

  // ----- Palantir ------------------------------------------------------------------------------

  /** A Palantir run keeps every chunk in the recipe of its file, or ends exactly as its lookups and
      deltas decide. */
  method PalantirRun(codec: Codec, fp: seq<Byte> -> Hash, sf: seq<Byte> -> SuperFeatures, backups: seq<Backup>,
                     ghost seen: set<seq<Byte>>, ghost isHeader: seq<Byte> -> bool)
    returns (outcome: Outcome, p: Palantir)
    requires Lossless(codec) && RunFits(backups, fp, seen, isHeader) && NoneEmpty(backups)
    ensures fresh(p.Repr())
    ensures outcome == Kept ==> p.Valid() && p.base.log == RunLog(backups)
    ensures outcome == PalantirOutcome.RunOf(codec, sf, PalantirOutcome.Nothing, PalantirOutcome.StepsOf(FilesOf(backups)))
  {
    hide Processor.Valid, Lossless, StatsOk, Fits, Separates, TiersOk, RatioOk, RunLog, LogFor, FilesOf,
      PalantirOutcome.RunOf, PalantirOutcome.KnownAfter, PalantirOutcome.StepsOf, PalantirOutcome.Takes;
    p := new Palantir(codec, fp, sf);
    ghost var files := FilesOf(backups);
    NothingStepped(codec, sf, files);
    for i := 0 to |backups|
      invariant fresh(p.Repr()) && p.Valid() && p.base.log == RunLog(backups[..i])
      invariant p.sf == sf && p.base.fp == fp && p.base.dataWrite.codec == codec
      invariant AllIn(p.base.dataWrite.contents, seen)
      invariant FlagsAgree(p.base.dataWrite.chunklist, p.base.dataWrite.contents, isHeader)
      invariant PalantirOutcome.RunOf(codec, sf, PalantirOutcome.Nothing, PalantirOutcome.StepsOf(files[..i])) == Kept
      invariant p.Knows() == PalantirOutcome.KnownAfter(codec, sf, PalantirOutcome.Nothing, PalantirOutcome.StepsOf(files[..i]))
    {
      assert Fits(backups[i].pieces, seen, isHeader);
      ghost var steps := PalantirOutcome.StepsOf(files[..i]);
      p.StartFile(backups[i].name);
      outcome := p.ProcessTrace(backups[i].pieces, seen, isHeader);
      NextFile(backups, i);
      PalantirOutcome.RunConcat(codec, sf, PalantirOutcome.Nothing, steps,
                                PalantirOutcome.Takes(PieceBytes(backups[i].pieces)) + [PalantirOutcome.EndOfFile]);
      if outcome != Kept {
        StepsPrefix(files, i + 1);
        PalantirOutcome.RunStops(codec, sf, PalantirOutcome.Nothing, PalantirOutcome.StepsOf(files),
                                 |PalantirOutcome.StepsOf(files[..i + 1])|);
        return;
      }
    }
    assert backups[..|backups|] == backups && files[..|backups|] == files;
    outcome := Kept;
  }

  lemma NothingStepped(codec: Codec, sf: seq<Byte> -> SuperFeatures, files: seq<seq<seq<Byte>>>)
    ensures RunLog([]) == [] && PalantirOutcome.StepsOf(files[..0]) == []
    ensures PalantirOutcome.RunOf(codec, sf, PalantirOutcome.Nothing, []) == Kept
    ensures PalantirOutcome.KnownAfter(codec, sf, PalantirOutcome.Nothing, []) == PalantirOutcome.Nothing
  {
  }

  lemma {:induction false} StepsPrefix(files: seq<seq<seq<Byte>>>, i: nat)
    requires i <= |files|
    ensures var part, all := PalantirOutcome.StepsOf(files[..i]), PalantirOutcome.StepsOf(files);
            |part| <= |all| && all[..|part|] == part
    decreases |files|
  {
    if i == |files| {
      assert files[..i] == files;
    } else {
      var n := |files| - 1;
      StepsPrefix(files[..n], i);
      assert files[..n][..i] == files[..i];
    }
  }

  /** The same for Palantir. */
  method PalantirRestores(codec: Codec, fp: seq<Byte> -> Hash, sf: seq<Byte> -> SuperFeatures, backups: seq<Backup>, which: nat,
                          ghost seen: set<seq<Byte>>, ghost isHeader: seq<Byte> -> bool)
    returns (outcome: Outcome, out: seq<Byte>)
    requires Lossless(codec) && RunFits(backups, fp, seen, isHeader) && which < |backups| && NoneEmpty(backups)
    ensures outcome == Kept ==> out == Flatten(Bodies(backups[which].pieces, false))
    ensures outcome == PalantirOutcome.RunOf(codec, sf, PalantirOutcome.Nothing, PalantirOutcome.StepsOf(FilesOf(backups)))
    ensures outcome != Overrun && (NeverEmpty(codec) && |backups| <= 4 ==> outcome == Kept)
  {
    hide Lossless, StatsOk, TiersOk, RatioOk, PalantirOutcome.StepsOf, FilesOf;
    var p;
    outcome, p := PalantirRun(codec, fp, sf, backups, seen, isHeader);
    FewFiles(codec, sf, backups);
    out := [];
    if outcome == Kept {
      ChunksOfRun(backups, backups[which].name, false);
      out := p.base.Restore(backups[which].name);
    }
  }

  /** Deltas have a header, so none is empty. */
  ghost predicate NeverEmpty(codec: Codec) {
    forall t, b :: |codec.encode(t, b)| > 0
  }

  /** With such deltas a Palantir run of at most four files keeps everything. */
  lemma FewFiles(codec: Codec, sf: seq<Byte> -> SuperFeatures, backups: seq<Backup>)
    ensures var outcome := PalantirOutcome.RunOf(codec, sf, PalantirOutcome.Nothing, PalantirOutcome.StepsOf(FilesOf(backups)));
            outcome != Overrun && (NeverEmpty(codec) && |backups| <= 4 ==> outcome == Kept)
  {
    hide PalantirOutcome.RunOf, PalantirOutcome.StepsOf;
    PalantirOutcome.NeverOverruns(codec, sf, PalantirOutcome.Nothing, PalantirOutcome.StepsOf(FilesOf(backups)));
    if |backups| <= 4 {
      PalantirOutcome.FourFilesAnswer(codec, sf, FilesOf(backups));
    }
  }

  // ----- through the queue -----------------------------------------------------------------------

  /** The traces that the chunker pushes, file by file. */
  function Sent(names: seq<string>, files: seq<MessageQueue.File<Piece>>): (r: seq<Backup>)
    requires |names| == |files|
    ensures |r| == |files|
  {
    seq(|files|, i requires 0 <= i < |files| => Backup(names[i], files[i].items))
  }

  /** The traces that the processor pops. */
  function Arrived(capacity: nat, first: nat, names: seq<string>, files: seq<MessageQueue.File<Piece>>): (r: seq<Backup>)
    requires |names| == |files|
    ensures |r| == |files|
  {
    seq(|files|, i requires 0 <= i < |files| => Backup(names[i], MessageQueue.Received(capacity, first, files, i)))
  }

  /** Chunker and consumer have left their loops for the last file. */
  predicate Through(capacity: nat, first: nat, files: seq<MessageQueue.File<Piece>>) {
    MessageQueue.RunFiles(MessageQueue.Ready<Piece>(capacity, first), files).receiver.Left?
  }

  lemma ArrivedIsSent(capacity: nat, first: nat, names: seq<string>, files: seq<MessageQueue.File<Piece>>)
    requires |names| == |files| && 1 <= capacity < first && Through(capacity, first, files)
    ensures Arrived(capacity, first, names, files) == Sent(names, files)
  {
    hide MessageQueue.RunFiles, MessageQueue.Received;
    forall i | 0 <= i < |files| ensures MessageQueue.Received(capacity, first, files, i) == files[i].items {
      MessageQueue.EachFileArrives(capacity, first, files, i);
    }
  }

  /** Under every schedule of the two threads, what Finesse pops, stores and restores is what was
      pushed. */
  method FinesseThroughQueue(capacity: nat, first: nat, names: seq<string>, files: seq<MessageQueue.File<Piece>>, which: nat,
                             codec: Codec, fp: seq<Byte> -> Hash, sf: seq<Byte> -> FinesseOutcome.Features,
                             ghost seen: set<seq<Byte>>, ghost isHeader: seq<Byte> -> bool) returns (outcome: Outcome, out: seq<Byte>)
    requires |names| == |files| && 1 <= capacity < first && Through(capacity, first, files) && which < |files|
    requires Lossless(codec) && RunFits(Sent(names, files), fp, seen, isHeader)
    ensures outcome == Kept ==> out == Flatten(Bodies(files[which].items, false))
    ensures outcome == FinesseOutcome.RunOf(codec, sf, FinesseOutcome.Nothing, Chunked(Sent(names, files)))
  {
    hide Lossless, RunFits, Chunked, Through;
    ArrivedIsSent(capacity, first, names, files);
    outcome, out := FinesseRestores(codec, fp, sf, Arrived(capacity, first, names, files), which, seen, isHeader);
  }

  /** The same for Palantir. */
  method PalantirThroughQueue(capacity: nat, first: nat, names: seq<string>, files: seq<MessageQueue.File<Piece>>, which: nat,
                              codec: Codec, fp: seq<Byte> -> Hash, sf: seq<Byte> -> SuperFeatures,
                              ghost seen: set<seq<Byte>>, ghost isHeader: seq<Byte> -> bool)
    returns (outcome: Outcome, out: seq<Byte>)
    requires |names| == |files| && 1 <= capacity < first && Through(capacity, first, files) && which < |files|
    requires Lossless(codec) && RunFits(Sent(names, files), fp, seen, isHeader) && NoneEmpty(Sent(names, files))
    ensures outcome == Kept ==> out == Flatten(Bodies(files[which].items, false))
    ensures outcome == PalantirOutcome.RunOf(codec, sf, PalantirOutcome.Nothing, PalantirOutcome.StepsOf(FilesOf(Sent(names, files))))
    ensures outcome != Overrun && (NeverEmpty(codec) && |files| <= 4 ==> outcome == Kept)
  {
    hide Lossless, RunFits, NoneEmpty, Through, PalantirOutcome.StepsOf, FilesOf, NeverEmpty;
    ArrivedIsSent(capacity, first, names, files);
    outcome, out := PalantirRestores(codec, fp, sf, Arrived(capacity, first, names, files), which, seen, isHeader);
  }

  // ----- from files to files -------------------------------------------------------------------

  datatype SourceFile = SourceFile(name: string, bytes: seq<Byte>)

  ghost predicate FileNamesDiffer(files: seq<SourceFile>) {
    forall i, j :: 0 <= i < j < |files| ==> files[i].name != files[j].name
  }

  /** The trace of a file: its chunks by the chunker. */
  function TraceOf(p: FastCdc.Params, kind: Chunking.ChunkType, f: SourceFile): Backup
    requires FastCdc.ParamsOk(p)
  {
    Backup(f.name, DataPieces(Chunking.CutWhole(p, kind, f.bytes)))
  }

  function Traces(p: FastCdc.Params, kind: Chunking.ChunkType, files: seq<SourceFile>): (r: seq<Backup>)
    requires FastCdc.ParamsOk(p)
    ensures |r| == |files|
  {
    seq(|files|, i requires 0 <= i < |files| => TraceOf(p, kind, files[i]))
  }

  /** The files have different names and the fingerprint tells their chunks apart. */
  ghost predicate FilesFit(p: FastCdc.Params, kind: Chunking.ChunkType, files: seq<SourceFile>, fp: seq<Byte> -> Hash, seen: set<seq<Byte>>)
    requires FastCdc.ParamsOk(p)
  {
    && Separates(fp, seen) && FileNamesDiffer(files)
    && forall i, k :: 0 <= i < |files| && 0 <= k < |Chunking.CutWhole(p, kind, files[i].bytes)| ==>
         Chunking.CutWhole(p, kind, files[i].bytes)[k] in seen
  }

  /** The chunker over all files. */
  method ChunkFiles(p: FastCdc.Params, kind: Chunking.ChunkType, files: seq<SourceFile>) returns (backups: seq<Backup>)
    requires FastCdc.ParamsOk(p) && p.maxChunkSize <= Chunking.TAIL_SIZE
    ensures backups == Traces(p, kind, files)
  {
    backups := [];
    for i := 0 to |files|
      invariant |backups| == i && forall j :: 0 <= j < i ==> backups[j] == TraceOf(p, kind, files[j])
    {
      var chunker := new Chunking.Chunker(p, kind);
      chunker.Chunking(files[i].bytes);
      backups := backups + [Backup(files[i].name, DataPieces(chunker.outputMQ))];
    }
  }

  lemma TracesFit(p: FastCdc.Params, kind: Chunking.ChunkType, files: seq<SourceFile>, fp: seq<Byte> -> Hash, seen: set<seq<Byte>>)
    requires FastCdc.ParamsOk(p) && p.maxChunkSize <= ContainerCache.CONTAINER_MAX_SIZE && FilesFit(p, kind, files, fp, seen)
    ensures RunFits(Traces(p, kind, files), fp, seen, _ => false) && NoneEmpty(Traces(p, kind, files))
  {
    hide Chunking.CutWhole;
    var backups := Traces(p, kind, files);
    forall i | 0 <= i < |backups|
      ensures Fits(backups[i].pieces, seen, _ => false)
      ensures forall k :: 0 <= k < |backups[i].pieces| ==> backups[i].pieces[k].bytes != []
    {
      Chunking.ChunksJoin(p, kind, files[i].bytes);
      var chunks := Chunking.CutWhole(p, kind, files[i].bytes);
      assert backups[i].pieces == DataPieces(chunks);
    }
  }

  /** Chunked, deduplicated, compressed and stored by Finesse, every file comes back as it was. */
  method FinesseBackup(p: FastCdc.Params, kind: Chunking.ChunkType, files: seq<SourceFile>, which: nat,
                       codec: Codec, fp: seq<Byte> -> Hash, sf: seq<Byte> -> FinesseOutcome.Features, ghost seen: set<seq<Byte>>)
    returns (outcome: Outcome, out: seq<Byte>)
    requires FastCdc.ParamsOk(p) && p.maxChunkSize <= ContainerCache.CONTAINER_MAX_SIZE
    requires Lossless(codec) && FilesFit(p, kind, files, fp, seen) && which < |files|
    ensures outcome == Kept ==> out == files[which].bytes
    ensures outcome == FinesseOutcome.RunOf(codec, sf, FinesseOutcome.Nothing, Chunked(Traces(p, kind, files)))
  {
    hide RunFits, Lossless, FilesFit, Chunking.CutWhole, Chunked;
    var backups := ChunkFiles(p, kind, files);
    TracesFit(p, kind, files, fp, seen);
    outcome, out := FinesseRestores(codec, fp, sf, backups, which, seen, _ => false);
    Chunking.ChunksJoin(p, kind, files[which].bytes);
    DataPiecesAreBodies(Chunking.CutWhole(p, kind, files[which].bytes));
  }

  /** The same for Palantir, which never overruns a chunk buffer. */
  method PalantirBackup(p: FastCdc.Params, kind: Chunking.ChunkType, files: seq<SourceFile>, which: nat,
                        codec: Codec, fp: seq<Byte> -> Hash, sf: seq<Byte> -> SuperFeatures, ghost seen: set<seq<Byte>>)
    returns (outcome: Outcome, out: seq<Byte>)
    requires FastCdc.ParamsOk(p) && p.maxChunkSize <= ContainerCache.CONTAINER_MAX_SIZE
    requires Lossless(codec) && FilesFit(p, kind, files, fp, seen) && which < |files|
    ensures outcome == Kept ==> out == files[which].bytes
    ensures outcome == PalantirOutcome.RunOf(codec, sf, PalantirOutcome.Nothing, PalantirOutcome.StepsOf(FilesOf(Traces(p, kind, files))))
    ensures outcome != Overrun && (NeverEmpty(codec) && |files| <= 4 ==> outcome == Kept)
  {
    hide RunFits, Lossless, FilesFit, Chunking.CutWhole, NoneEmpty, FilesOf, PalantirOutcome.StepsOf, NeverEmpty;
    var backups := ChunkFiles(p, kind, files);
    TracesFit(p, kind, files, fp, seen);
    outcome, out := PalantirRestores(codec, fp, sf, backups, which, seen, _ => false);
    Chunking.ChunksJoin(p, kind, files[which].bytes);
    DataPiecesAreBodies(Chunking.CutWhole(p, kind, files[which].bytes));
  }

  // ----- from archives to archives -------------------------------------------------------------

  /** The trace of an archive: header segments and data chunks. */
  function ArchiveTraces(p: FastCdc.Params, files: seq<SourceFile>): (r: seq<Backup>)
    requires TarTrace.ParamsFit(p)
    ensures |r| == |files|
  {
    seq(|files|, i requires 0 <= i < |files| => Backup(files[i].name, TarTrace.ReadInWindows(p, files[i].bytes).queue))
  }

  /** The archives have different names, the fingerprint tells their chunks and header segments apart,
      and no data chunk repeats a header segment. */
  ghost predicate ArchivesFit(p: FastCdc.Params, files: seq<SourceFile>, fp: seq<Byte> -> Hash, seen: set<seq<Byte>>, isHeader: seq<Byte> -> bool)
    requires TarTrace.ParamsFit(p)
  {
    && Separates(fp, seen) && FileNamesDiffer(files)
    && forall i :: 0 <= i < |files| ==> Known(TarTrace.ReadInWindows(p, files[i].bytes).queue, seen, isHeader)
  }

  ghost predicate Known(pieces: seq<Piece>, seen: set<seq<Byte>>, isHeader: seq<Byte> -> bool) {
    forall k :: 0 <= k < |pieces| ==> pieces[k].bytes in seen && pieces[k].header == isHeader(pieces[k].bytes)
  }

  /** No chunk is empty or too long for a container. */
  predicate PiecesFit(pieces: seq<Piece>) {
    forall k :: 0 <= k < |pieces| ==> 0 < |pieces[k].bytes| <= ContainerCache.CONTAINER_MAX_SIZE
  }

  /** The chunker does not go astray in any of the files, and the store can hold their chunks. */
  predicate AllCut(p: FastCdc.Params, files: seq<SourceFile>)
    requires TarTrace.ParamsFit(p)
  {
    forall i :: 0 <= i < |files| ==>
      TarTrace.ReadInWindows(p, files[i].bytes).ok && PiecesFit(TarTrace.ReadInWindows(p, files[i].bytes).queue)
  }

  /** The chunker in tar mode over all files. */
  method ChunkArchives(p: FastCdc.Params, files: seq<SourceFile>) returns (cut: bool, backups: seq<Backup>)
    requires TarTrace.ParamsFit(p)
    ensures cut <==> AllCut(p, files)
    ensures cut ==> backups == ArchiveTraces(p, files)
  {
    hide TarTrace.ReadInWindows, PiecesFit;
    cut, backups := true, [];
    for i := 0 to |files|
      invariant cut && |backups| == i
      invariant forall j :: 0 <= j < i ==>
                  TarTrace.ReadInWindows(p, files[j].bytes).ok && PiecesFit(TarTrace.ReadInWindows(p, files[j].bytes).queue)
      invariant forall j :: 0 <= j < i ==> backups[j] == Backup(files[j].name, TarTrace.ReadInWindows(p, files[j].bytes).queue)
    {
      var chunker := new TarSplit.TarChunker(p);
      cut := chunker.Chunking(files[i].bytes);
      cut := cut && PiecesFit(chunker.outputMQ);
      if !cut {
        return;
      }
      backups := backups + [Backup(files[i].name, chunker.outputMQ)];
    }
  }

  lemma ArchiveTracesFit(p: FastCdc.Params, files: seq<SourceFile>, fp: seq<Byte> -> Hash, seen: set<seq<Byte>>, isHeader: seq<Byte> -> bool)
    requires TarTrace.ParamsFit(p) && ArchivesFit(p, files, fp, seen, isHeader) && AllCut(p, files)
    ensures RunFits(ArchiveTraces(p, files), fp, seen, isHeader) && NoneEmpty(ArchiveTraces(p, files))
  {
    hide TarTrace.ReadInWindows;
    var backups := ArchiveTraces(p, files);
    forall i | 0 <= i < |backups|
      ensures Fits(backups[i].pieces, seen, isHeader)
      ensures forall k :: 0 <= k < |backups[i].pieces| ==> backups[i].pieces[k].bytes != []
    {
      assert PiecesFit(TarTrace.ReadInWindows(p, files[i].bytes).queue);
      assert Known(TarTrace.ReadInWindows(p, files[i].bytes).queue, seen, isHeader);
    }
  }

  lemma {:induction false} PieceInBodies(pieces: seq<Piece>, k: nat)
    requires k < |pieces|
    ensures pieces[k].bytes in Bodies(pieces, pieces[k].header)
  {
    var n := |pieces| - 1;
    if k < n {
      PieceInBodies(pieces[..n], k);
    }
  }

  /** Nothing goes wrong with a well-formed archive that no window end clips. */
  lemma WholeIsCut(p: FastCdc.Params, a: seq<Byte>)
    requires TarTrace.ParamsFit(p) && Tar.WellFormed(a) && TarTrace.ReadInWindows(p, a).whole
    ensures TarTrace.ReadInWindows(p, a).ok && PiecesFit(TarTrace.ReadInWindows(p, a).queue)
    ensures TarMerge.Merged(p, a) == Some(a)
  {
    hide TarTrace.ReadInWindows, Tar.WellFormed, Bodies, TarMerge.Merged, Tar.ItemsOk, TarTrace.FullHeads;
    var r := TarTrace.ReadInWindows(p, a);
    TarMerge.WholeReturns(p, a);
    TarTrace.WindowsKeepItems(p, a);
    TarTrace.ItemsMean(p, a);
    TarMerge.OkIsMatched(r.items);
    TarMerge.MatchedHeads(r.items);
    TarTrace.QueueHoldsItems(p, a);
    forall k | 0 <= k < |r.queue| ensures 0 < |r.queue[k].bytes| <= ContainerCache.CONTAINER_MAX_SIZE {
      PieceInBodies(r.queue, k);
    }
  }

  /** restoreHeaderFile on a file of a run. */
  method RestoreArchive(base: Processor, ghost p: FastCdc.Params, ghost files: seq<SourceFile>, name: string, ghost which: nat)
    returns (ok: bool, out: seq<Byte>)
    requires TarTrace.ParamsFit(p) && FileNamesDiffer(files) && which < |files| && files[which].name == name
    requires base.Valid() && base.log == RunLog(ArchiveTraces(p, files))
    modifies base.dataWrite.lz4SafeChunkBuffer, base.dataWrite.containerCache, base.dataWrite.containerCache.readCache,
      base.dataWrite.containerCache.containerPool
    ensures match TarMerge.Merged(p, files[which].bytes)
            case None => !ok
            case Some(bytes) => ok && out == bytes
  {
    hide StatsOk, FpOk, StoreOk, ContainerCache.PoolOk, CacheAgrees, TarTrace.ReadInWindows, TarMerge.Read;
    ghost var dw, backups := base.dataWrite, ArchiveTraces(p, files);
    assert backups[which] == Backup(name, TarTrace.ReadInWindows(p, files[which].bytes).queue);
    ChunksOfRun(backups, name, true);
    ChunksOfRun(backups, name, false);
    assert RecipeHolds(base.log, dw.contents, dw.recipeMapHeader, true, name);
    assert RecipeHolds(base.log, dw.contents, dw.recipeMap, false, name);
    var reader := new TarRestore.TarReader(base.dataWrite);
    ok, out := reader.RestoreHeaderFile(name);
  }

  /** Files split in tar mode and kept by Finesse: what restoreHeaderFile writes is exactly what the
      reader makes of the chunker's queue, and that is the archive if no window end clips it. */
  method FinesseArchives(p: FastCdc.Params, files: seq<SourceFile>, which: nat, codec: Codec, fp: seq<Byte> -> Hash,
                         sf: seq<Byte> -> FinesseOutcome.Features, ghost seen: set<seq<Byte>>, ghost isHeader: seq<Byte> -> bool)
    returns (cut: bool, outcome: Outcome, ok: bool, out: seq<Byte>)
    requires TarTrace.ParamsFit(p) && Lossless(codec) && ArchivesFit(p, files, fp, seen, isHeader) && which < |files|
    ensures cut <==> AllCut(p, files)
    ensures cut ==> outcome == FinesseOutcome.RunOf(codec, sf, FinesseOutcome.Nothing, Chunked(ArchiveTraces(p, files)))
    ensures cut && outcome == Kept ==>
              match TarMerge.Merged(p, files[which].bytes) case None => !ok case Some(bytes) => ok && out == bytes
    ensures cut && outcome == Kept && Tar.WellFormed(files[which].bytes) && TarTrace.ReadInWindows(p, files[which].bytes).whole ==>
              ok && out == files[which].bytes
  {
    hide RunFits, Lossless, Tar.WellFormed, AllCut, Chunked, Processor.Valid, FinesseMethod.IndexOk, RunLog, Known, TarTrace.ReadInWindows,
      TarMerge.Merged;
    var backups;
    cut, backups := ChunkArchives(p, files);
    outcome, ok, out := Kept, false, [];
    if cut {
      outcome, ok, out := FinesseStores(p, files, backups, which, codec, fp, sf, seen, isHeader);
    }
  }

  /** The traces of archives are stored by Finesse, and one of them is restored. */
  method FinesseStores(ghost p: FastCdc.Params, files: seq<SourceFile>, backups: seq<Backup>, which: nat, codec: Codec, fp: seq<Byte> -> Hash,
                       sf: seq<Byte> -> FinesseOutcome.Features, ghost seen: set<seq<Byte>>, ghost isHeader: seq<Byte> -> bool)
    returns (outcome: Outcome, ok: bool, out: seq<Byte>)
    requires TarTrace.ParamsFit(p) && Lossless(codec) && ArchivesFit(p, files, fp, seen, isHeader) && which < |files|
    requires AllCut(p, files) && backups == ArchiveTraces(p, files)
    ensures outcome == FinesseOutcome.RunOf(codec, sf, FinesseOutcome.Nothing, Chunked(ArchiveTraces(p, files)))
    ensures outcome == Kept ==>
              match TarMerge.Merged(p, files[which].bytes) case None => !ok case Some(bytes) => ok && out == bytes
    ensures outcome == Kept && Tar.WellFormed(files[which].bytes) && TarTrace.ReadInWindows(p, files[which].bytes).whole ==>
              ok && out == files[which].bytes
  {
    hide RunFits, Lossless, Tar.WellFormed, AllCut, Chunked, Processor.Valid, FinesseMethod.IndexOk, RunLog, Known, TarTrace.ReadInWindows,
      TarMerge.Merged;
    ArchiveTracesFit(p, files, fp, seen, isHeader);
    var f;
    outcome, f := FinesseRun(codec, fp, sf, backups, seen, isHeader);
    ok, out := false, [];
    if outcome == Kept {
      ok, out := RestoreArchive(f.base, p, files, files[which].name, which);
      if Tar.WellFormed(files[which].bytes) && TarTrace.ReadInWindows(p, files[which].bytes).whole {
        WholeIsCut(p, files[which].bytes);
      }
    }
  }

  /** The same for Palantir. */
  method PalantirArchives(p: FastCdc.Params, files: seq<SourceFile>, which: nat, codec: Codec, fp: seq<Byte> -> Hash,
                          sf: seq<Byte> -> SuperFeatures, ghost seen: set<seq<Byte>>, ghost isHeader: seq<Byte> -> bool)
    returns (cut: bool, outcome: Outcome, ok: bool, out: seq<Byte>)
    requires TarTrace.ParamsFit(p) && Lossless(codec) && ArchivesFit(p, files, fp, seen, isHeader) && which < |files|
    ensures cut <==> AllCut(p, files)
    ensures cut ==>
              && outcome == PalantirOutcome.RunOf(codec, sf, PalantirOutcome.Nothing, PalantirOutcome.StepsOf(FilesOf(ArchiveTraces(p, files))))
    ensures outcome != Overrun && (cut && NeverEmpty(codec) && |files| <= 4 ==> outcome == Kept)
    ensures cut && outcome == Kept ==>
              match TarMerge.Merged(p, files[which].bytes) case None => !ok case Some(bytes) => ok && out == bytes
    ensures cut && outcome == Kept && Tar.WellFormed(files[which].bytes) && TarTrace.ReadInWindows(p, files[which].bytes).whole ==>
              ok && out == files[which].bytes
  {
    hide RunFits, Lossless, Tar.WellFormed, AllCut, Processor.Valid, TiersOk, RatioOk, RunLog, Known, NoneEmpty, FilesOf,
      PalantirOutcome.StepsOf, NeverEmpty, TarTrace.ReadInWindows, TarMerge.Merged;
    var backups;
    cut, backups := ChunkArchives(p, files);
    outcome, ok, out := Kept, false, [];
    if cut {
      outcome, ok, out := PalantirStores(p, files, backups, which, codec, fp, sf, seen, isHeader);
    }
  }

  method PalantirStores(ghost p: FastCdc.Params, files: seq<SourceFile>, backups: seq<Backup>, which: nat, codec: Codec, fp: seq<Byte> -> Hash,
                        sf: seq<Byte> -> SuperFeatures, ghost seen: set<seq<Byte>>, ghost isHeader: seq<Byte> -> bool)
    returns (outcome: Outcome, ok: bool, out: seq<Byte>)
    requires TarTrace.ParamsFit(p) && Lossless(codec) && ArchivesFit(p, files, fp, seen, isHeader) && which < |files|
    requires AllCut(p, files) && backups == ArchiveTraces(p, files)
    ensures outcome == PalantirOutcome.RunOf(codec, sf, PalantirOutcome.Nothing, PalantirOutcome.StepsOf(FilesOf(ArchiveTraces(p, files))))
    ensures outcome != Overrun && (NeverEmpty(codec) && |files| <= 4 ==> outcome == Kept)
    ensures outcome == Kept ==>
              match TarMerge.Merged(p, files[which].bytes) case None => !ok case Some(bytes) => ok && out == bytes
    ensures outcome == Kept && Tar.WellFormed(files[which].bytes) && TarTrace.ReadInWindows(p, files[which].bytes).whole ==>
              ok && out == files[which].bytes
  {
    hide RunFits, Lossless, Tar.WellFormed, AllCut, Processor.Valid, TiersOk, RatioOk, RunLog, Known, NoneEmpty, FilesOf,
      PalantirOutcome.StepsOf, NeverEmpty, TarTrace.ReadInWindows, TarMerge.Merged;
    ArchiveTracesFit(p, files, fp, seen, isHeader);
    var q;
    outcome, q := PalantirRun(codec, fp, sf, backups, seen, isHeader);
    FewFiles(codec, sf, backups);
    ok, out := false, [];
    if outcome == Kept {
      ok, out := RestoreArchive(q.base, p, files, files[which].name, which);
      if Tar.WellFormed(files[which].bytes) && TarTrace.ReadInWindows(p, files[which].bytes).whole {
        WholeIsCut(p, files[which].bytes);
      }
    }
  }

  /** The archive is shorter than a window, or no payload in it fills a container. */
  predicate Small(a: seq<Byte>) {
    |a| < Chunking.READ_FILE_SIZE || TarWindows.PayloadsAtMost(a, TarWindows.SAFE_PAYLOAD)
  }

  /** Well-formed archives, each of one window or with payloads below a container, meet all of this. */
  lemma SmallArchivesReturn(p: FastCdc.Params, files: seq<SourceFile>)
    requires TarTrace.ParamsFit(p)
    requires forall i :: 0 <= i < |files| ==> Tar.WellFormed(files[i].bytes) && Small(files[i].bytes)
    ensures AllCut(p, files)
    ensures forall i :: 0 <= i < |files| ==>
              TarTrace.ReadInWindows(p, files[i].bytes).whole && TarMerge.Merged(p, files[i].bytes) == Some(files[i].bytes)
  {
    hide Tar.WellFormed, TarWindows.PayloadsAtMost, TarTrace.ReadInWindows, PiecesFit, TarMerge.Merged;
    forall i | 0 <= i < |files|
      ensures TarTrace.ReadInWindows(p, files[i].bytes).ok && PiecesFit(TarTrace.ReadInWindows(p, files[i].bytes).queue)
      ensures TarTrace.ReadInWindows(p, files[i].bytes).whole && TarMerge.Merged(p, files[i].bytes) == Some(files[i].bytes)
    {
      if |files[i].bytes| < Chunking.READ_FILE_SIZE {
        TarWindows.OneWindowReturns(p, files[i].bytes);
      } else {
        TarWindows.SmallPayloadsReturn(p, files[i].bytes);
      }
      WholeIsCut(p, files[i].bytes);
    }
  }

  // ----- from bytes to bytes, through the two threads ----------------------------------------------

  /** The traces with a schedule for the two threads of each file. */
  function Scheduled(backups: seq<Backup>, schedules: seq<seq<bool>>): (r: seq<MessageQueue.File<Piece>>)
    requires |backups| == |schedules|
    ensures |r| == |backups|
  {
    seq(|backups|, i requires 0 <= i < |backups| => MessageQueue.File(backups[i].pieces, schedules[i]))
  }

  function Names(backups: seq<Backup>): (r: seq<string>)
    ensures |r| == |backups|
  {
    seq(|backups|, i requires 0 <= i < |backups| => backups[i].name)
  }

  /** What the processor pops when the traces are pushed, under given schedules. */
  function Popped(capacity: nat, first: nat, backups: seq<Backup>, schedules: seq<seq<bool>>): seq<Backup>
    requires |backups| == |schedules|
  {
    Arrived(capacity, first, Names(backups), Scheduled(backups, schedules))
  }

  lemma PoppedIsPushed(capacity: nat, first: nat, backups: seq<Backup>, schedules: seq<seq<bool>>)
    requires |backups| == |schedules| && 1 <= capacity < first && Through(capacity, first, Scheduled(backups, schedules))
    ensures Popped(capacity, first, backups, schedules) == backups
  {
    hide Arrived, Through;
    ArrivedIsSent(capacity, first, Names(backups), Scheduled(backups, schedules));
    SentIsPushed(backups, schedules);
  }

  lemma SentIsPushed(backups: seq<Backup>, schedules: seq<seq<bool>>)
    requires |backups| == |schedules|
    ensures Sent(Names(backups), Scheduled(backups, schedules)) == backups
    ensures forall i :: 0 <= i < |backups| ==> Scheduled(backups, schedules)[i].items == backups[i].pieces
  {
  }

  /** Files are chunked by one thread and stored by the other: what comes back are their bytes. */
  method FinesseFilesThroughQueue(capacity: nat, first: nat, schedules: seq<seq<bool>>,
                                  p: FastCdc.Params, kind: Chunking.ChunkType, files: seq<SourceFile>, which: nat,
                                  codec: Codec, fp: seq<Byte> -> Hash, sf: seq<Byte> -> FinesseOutcome.Features, ghost seen: set<seq<Byte>>)
    returns (outcome: Outcome, out: seq<Byte>)
    requires FastCdc.ParamsOk(p) && p.maxChunkSize <= ContainerCache.CONTAINER_MAX_SIZE
    requires Lossless(codec) && FilesFit(p, kind, files, fp, seen) && which < |files| == |schedules|
    requires 1 <= capacity < first && Through(capacity, first, Scheduled(Traces(p, kind, files), schedules))
    ensures outcome == Kept ==> out == files[which].bytes
    ensures outcome == FinesseOutcome.RunOf(codec, sf, FinesseOutcome.Nothing, Chunked(Traces(p, kind, files)))
  {
    hide RunFits, Lossless, FilesFit, Chunking.CutWhole, Chunked, Through, Sent, Names, Scheduled;
    var pushed := ChunkFiles(p, kind, files);
    SentIsPushed(pushed, schedules);
    TracesFit(p, kind, files, fp, seen);
    outcome, out := FinesseThroughQueue(capacity, first, Names(pushed), Scheduled(pushed, schedules), which, codec, fp, sf, seen, _ => false);
    Chunking.ChunksJoin(p, kind, files[which].bytes);
    DataPiecesAreBodies(Chunking.CutWhole(p, kind, files[which].bytes));
  }

  /** The same for Palantir. */
  method PalantirFilesThroughQueue(capacity: nat, first: nat, schedules: seq<seq<bool>>,
                                   p: FastCdc.Params, kind: Chunking.ChunkType, files: seq<SourceFile>, which: nat,
                                   codec: Codec, fp: seq<Byte> -> Hash, sf: seq<Byte> -> SuperFeatures, ghost seen: set<seq<Byte>>)
    returns (outcome: Outcome, out: seq<Byte>)
    requires FastCdc.ParamsOk(p) && p.maxChunkSize <= ContainerCache.CONTAINER_MAX_SIZE
    requires Lossless(codec) && FilesFit(p, kind, files, fp, seen) && which < |files| == |schedules|
    requires 1 <= capacity < first && Through(capacity, first, Scheduled(Traces(p, kind, files), schedules))
    ensures outcome == Kept ==> out == files[which].bytes
    ensures outcome == PalantirOutcome.RunOf(codec, sf, PalantirOutcome.Nothing, PalantirOutcome.StepsOf(FilesOf(Traces(p, kind, files))))
    ensures outcome != Overrun && (NeverEmpty(codec) && |files| <= 4 ==> outcome == Kept)
  {
    hide RunFits, Lossless, FilesFit, Chunking.CutWhole, NoneEmpty, FilesOf, PalantirOutcome.StepsOf, NeverEmpty, Through, Sent, Names, Scheduled;
    var pushed := ChunkFiles(p, kind, files);
    SentIsPushed(pushed, schedules);
    TracesFit(p, kind, files, fp, seen);
    outcome, out :=
      PalantirThroughQueue(capacity, first, Names(pushed), Scheduled(pushed, schedules), which, codec, fp, sf, seen, _ => false);
    Chunking.ChunksJoin(p, kind, files[which].bytes);
    DataPiecesAreBodies(Chunking.CutWhole(p, kind, files[which].bytes));
  }

  /** Archives are split by one thread and stored by the other: what is written is what the reader makes
      of the queue, and that is the archive if it is well-formed and no window end clips it. */
  method FinesseArchivesThroughQueue(capacity: nat, first: nat, schedules: seq<seq<bool>>,
                                     p: FastCdc.Params, files: seq<SourceFile>, which: nat, codec: Codec, fp: seq<Byte> -> Hash,
                                     sf: seq<Byte> -> FinesseOutcome.Features, ghost seen: set<seq<Byte>>, ghost isHeader: seq<Byte> -> bool)
    returns (cut: bool, outcome: Outcome, ok: bool, out: seq<Byte>)
    requires TarTrace.ParamsFit(p) && Lossless(codec) && ArchivesFit(p, files, fp, seen, isHeader) && which < |files| == |schedules|
    requires 1 <= capacity < first && Through(capacity, first, Scheduled(ArchiveTraces(p, files), schedules))
    ensures cut <==> AllCut(p, files)
    ensures cut ==> outcome == FinesseOutcome.RunOf(codec, sf, FinesseOutcome.Nothing, Chunked(ArchiveTraces(p, files)))
    ensures cut && outcome == Kept ==>
              match TarMerge.Merged(p, files[which].bytes) case None => !ok case Some(bytes) => ok && out == bytes
    ensures cut && outcome == Kept && Tar.WellFormed(files[which].bytes) && TarTrace.ReadInWindows(p, files[which].bytes).whole ==>
              ok && out == files[which].bytes
  {
    hide Lossless, ArchivesFit, Tar.WellFormed, AllCut, Chunked, TarTrace.ReadInWindows, TarMerge.Merged, Through, Popped, ArchiveTraces;
    var pushed;
    cut, pushed := ChunkArchives(p, files);
    outcome, ok, out := Kept, false, [];
    if cut {
      PoppedIsPushed(capacity, first, pushed, schedules);
      outcome, ok, out := FinesseStores(p, files, Popped(capacity, first, pushed, schedules), which, codec, fp, sf, seen, isHeader);
    }
  }

  /** The same for Palantir. */
  method PalantirArchivesThroughQueue(capacity: nat, first: nat, schedules: seq<seq<bool>>,
                                      p: FastCdc.Params, files: seq<SourceFile>, which: nat, codec: Codec, fp: seq<Byte> -> Hash,
                                      sf: seq<Byte> -> SuperFeatures, ghost seen: set<seq<Byte>>, ghost isHeader: seq<Byte> -> bool)
    returns (cut: bool, outcome: Outcome, ok: bool, out: seq<Byte>)
    requires TarTrace.ParamsFit(p) && Lossless(codec) && ArchivesFit(p, files, fp, seen, isHeader) && which < |files| == |schedules|
    requires 1 <= capacity < first && Through(capacity, first, Scheduled(ArchiveTraces(p, files), schedules))
    ensures cut <==> AllCut(p, files)
    ensures cut ==>
              && outcome == PalantirOutcome.RunOf(codec, sf, PalantirOutcome.Nothing, PalantirOutcome.StepsOf(FilesOf(ArchiveTraces(p, files))))
    ensures outcome != Overrun && (cut && NeverEmpty(codec) && |files| <= 4 ==> outcome == Kept)
    ensures cut && outcome == Kept ==>
              match TarMerge.Merged(p, files[which].bytes) case None => !ok case Some(bytes) => ok && out == bytes
    ensures cut && outcome == Kept && Tar.WellFormed(files[which].bytes) && TarTrace.ReadInWindows(p, files[which].bytes).whole ==>
              ok && out == files[which].bytes
  {
    hide Lossless, ArchivesFit, Tar.WellFormed, AllCut, FilesOf, PalantirOutcome.StepsOf, NeverEmpty, TarTrace.ReadInWindows,
      TarMerge.Merged, Through, Popped, ArchiveTraces;
    var pushed;
    cut, pushed := ChunkArchives(p, files);
    outcome, ok, out := Kept, false, [];
    if cut {
      PoppedIsPushed(capacity, first, pushed, schedules);
      outcome, ok, out := PalantirStores(p, files, Popped(capacity, first, pushed, schedules), which, codec, fp, sf, seen, isHeader);
    }
  }
}
