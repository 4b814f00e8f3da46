/**
 What the trace processors share (src/method/absMethod.cc): the fingerprint index, the counters,
 and the steps that store a chunk as a base or as a delta and enter it in a recipe.
 */
module AbsMethod {
  import opened Bytes
  import opened Lz4Format
  import Lz4Compressor
  import Lz4Greedy
  import opened ContainerCache
  import opened ChunkStore
  import opened DataWriter

  type Hash = seq<Byte>

  /** What became of a chunk taken from the queue. */
  datatype Outcome =
    | Kept         // stored or found, and entered in the recipe
    | DeltaError   // the encoder produced nothing: the run ends
    | Overrun      // the delta is longer than the chunk buffer it is copied into
    | NoEntry      // a bucket without an entry was read

  /** A chunk entered in the recipe of a file. */
  datatype Event = Event(file: string, bytes: seq<Byte>, header: bool)

  // ----- counters ------------------------------------------------------------------------------

  datatype Stats = Stats(
    logicalchunkNum: nat, logicalchunkSize: nat,
    uniquechunkNum: nat, uniquechunkSize: nat,
    basechunkNum: nat, basechunkSize: nat,
    deltachunkNum: nat, deltachunkSize: nat, deltachunkOriSize: nat,
    dedupReduct: nat, deltaReduct: nat, localReduct: nat)

  const NoStats := Stats(0, 0, 0, 0, 0, 0, 0, 0, 0, 0, 0, 0)

  function AddBase(s: Stats, size: nat, save: nat): Stats
    requires save <= size
  {
    s.(basechunkNum := s.basechunkNum + 1, basechunkSize := s.basechunkSize + save, localReduct := s.localReduct + size - save)
  }

  /** StatsDelta */
  function AddDelta(s: Stats, size: nat, save: nat): Stats
    requires save <= size
  {
    s.(deltachunkNum := s.deltachunkNum + 1, deltachunkSize := s.deltachunkSize + save,
       deltachunkOriSize := s.deltachunkOriSize + size, deltaReduct := s.deltaReduct + size - save)
  }

  function AddUnique(s: Stats, save: nat): Stats {
    s.(uniquechunkNum := s.uniquechunkNum + 1, uniquechunkSize := s.uniquechunkSize + save)
  }

  function AddDedup(s: Stats, size: nat): Stats {
    s.(dedupReduct := s.dedupReduct + size)
  }

  function AddLogical(s: Stats, size: nat): Stats {
    s.(logicalchunkNum := s.logicalchunkNum + 1, logicalchunkSize := s.logicalchunkSize + size)
  }

  /** Bytes and number of stored chunks, bases or deltas. */
  function SavedSize(entries: seq<Entry>, base: bool): nat {
    if entries == [] then 0
    else
      var e := entries[|entries| - 1];
      SavedSize(entries[..|entries| - 1], base) + if IsBase(e.deltaFlag) == base then e.saveSize else 0
  }

  /** What these chunks are in full. */
  function OriSize(entries: seq<Entry>, base: bool): nat {
    if entries == [] then 0
    else
      var e := entries[|entries| - 1];
      OriSize(entries[..|entries| - 1], base) + if IsBase(e.deltaFlag) == base then e.chunkSize else 0
  }

  function SavedNum(entries: seq<Entry>, base: bool): nat {
    if entries == [] then 0
    else
      SavedNum(entries[..|entries| - 1], base) + if IsBase(entries[|entries| - 1].deltaFlag) == base then 1 else 0
  }

  function LoggedSize(log: seq<Event>): nat {
    if log == [] then 0 else LoggedSize(log[..|log| - 1]) + |log[|log| - 1].bytes|
  }

  lemma PushSums(entries: seq<Entry>, e: Entry, log: seq<Event>, ev: Event, base: bool)
    ensures SavedSize(entries + [e], base) == SavedSize(entries, base) + if IsBase(e.deltaFlag) == base then e.saveSize else 0
    ensures OriSize(entries + [e], base) == OriSize(entries, base) + if IsBase(e.deltaFlag) == base then e.chunkSize else 0
    ensures SavedNum(entries + [e], base) == SavedNum(entries, base) + if IsBase(e.deltaFlag) == base then 1 else 0
    ensures LoggedSize(log + [ev]) == LoggedSize(log) + |ev.bytes|
  {
    assert (entries + [e])[..|entries|] == entries;
    assert (log + [ev])[..|log|] == log;
  }

  /** The counters are the sizes they claim to be, and no byte is unaccounted for: what deltas and LZ4
      save is the difference of full and stored sizes, and what is left of the logged bytes after every
      chunk is counted once is saved by duplicates. */
  ghost predicate StatsOk(s: Stats, entries: seq<Entry>, log: seq<Event>) {
    && s.logicalchunkNum == |log| && s.logicalchunkSize == LoggedSize(log)
    && s.uniquechunkNum == |entries| == s.basechunkNum + s.deltachunkNum
    && s.basechunkNum == SavedNum(entries, true) && s.basechunkSize == SavedSize(entries, true)
    && s.deltachunkNum == SavedNum(entries, false) && s.deltachunkSize == SavedSize(entries, false)
    && s.uniquechunkSize == s.basechunkSize + s.deltachunkSize
    && s.deltachunkOriSize == OriSize(entries, false) == s.deltachunkSize + s.deltaReduct
    && OriSize(entries, true) == s.basechunkSize + s.localReduct
    && s.logicalchunkSize == OriSize(entries, true) + OriSize(entries, false) + s.dedupReduct
  }

  /** No byte is unaccounted for. */
  lemma ReductionsAddUp(s: Stats, entries: seq<Entry>, log: seq<Event>)
    requires StatsOk(s, entries, log)
    ensures LoggedSize(log) == SavedSize(entries, true) + SavedSize(entries, false) + s.dedupReduct + s.deltaReduct + s.localReduct
  {
  }

  /** Ids are given out in the order of the list: the next one is the list's length. */
  lemma NextId(s: Stats, entries: seq<Entry>, log: seq<Event>)
    requires StatsOk(s, entries, log)
    ensures s.uniquechunkNum == |entries|
  {
  }

  /** A new base, a new delta and a duplicate each keep the books balanced. */
  lemma BaseBalances(s: Stats, entries: seq<Entry>, log: seq<Event>, e: Entry, ev: Event)
    requires StatsOk(s, entries, log) && IsBase(e.deltaFlag) && e.saveSize <= e.chunkSize == |ev.bytes|
    ensures StatsOk(AddLogical(AddUnique(AddBase(s, e.chunkSize, e.saveSize), e.saveSize), e.chunkSize), entries + [e], log + [ev])
  {
    PushSums(entries, e, log, ev, true);
    PushSums(entries, e, log, ev, false);
  }

  lemma DeltaBalances(s: Stats, entries: seq<Entry>, log: seq<Event>, e: Entry, ev: Event)
    requires StatsOk(s, entries, log) && !IsBase(e.deltaFlag) && e.saveSize <= e.chunkSize == |ev.bytes|
    ensures StatsOk(AddLogical(AddUnique(AddDelta(s, e.chunkSize, e.saveSize), e.saveSize), e.chunkSize), entries + [e], log + [ev])
  {
    PushSums(entries, e, log, ev, true);
    PushSums(entries, e, log, ev, false);
  }

  lemma DedupBalances(s: Stats, entries: seq<Entry>, log: seq<Event>, ev: Event)
    requires StatsOk(s, entries, log)
    ensures StatsOk(AddLogical(AddDedup(s, |ev.bytes|), |ev.bytes|), entries, log + [ev])
  {
    assert (log + [ev])[..|log|] == log;
  }

  // ----- fingerprints --------------------------------------------------------------------------

  /** The index knows exactly the stored chunks, so no content is stored twice. */
  ghost predicate FpOk(fp: seq<Byte> -> Hash, index: map<Hash, nat>, contents: seq<seq<Byte>>) {
    && (forall i :: 0 <= i < |contents| ==> fp(contents[i]) in index && index[fp(contents[i])] == i)
    && (forall h :: h in index ==> index[h] < |contents| && fp(contents[index[h]]) == h)
  }

  lemma FpPush(fp: seq<Byte> -> Hash, index: map<Hash, nat>, contents: seq<seq<Byte>>, c: seq<Byte>)
    requires FpOk(fp, index, contents) && fp(c) !in index
    ensures FpOk(fp, index[fp(c) := |contents|], contents + [c])
  {
  }

  /** The fingerprint tells the contents of a run apart. */
  ghost predicate Separates(fp: seq<Byte> -> Hash, seen: set<seq<Byte>>) {
    forall a, b :: a in seen && b in seen && fp(a) == fp(b) ==> a == b
  }

  // ----- recipes -------------------------------------------------------------------------------

  function RecipeOf(recipes: map<string, seq<nat>>, f: string): seq<nat> {
    if f in recipes then recipes[f] else []
  }

  /** The data chunks, or the header chunks, that a log holds for a file. */
  function Chunks(log: seq<Event>, f: string, header: bool): seq<seq<Byte>> {
    if log == [] then []
    else
      var e := log[|log| - 1];
      Chunks(log[..|log| - 1], f, header) + if e.file == f && e.header == header then [e.bytes] else []
  }

  /** Every recipe lists exactly the chunks logged for its file, in order. */
  ghost predicate LogOk(log: seq<Event>, contents: seq<seq<Byte>>, recipes: map<string, seq<nat>>, header: bool) {
    forall f :: RecipeHolds(log, contents, recipes, header, f)
  }

  ghost predicate RecipeHolds(log: seq<Event>, contents: seq<seq<Byte>>, recipes: map<string, seq<nat>>, header: bool, f: string) {
    && Resolve(contents, RecipeOf(recipes, f)) == Chunks(log, f, header)
    && forall k :: 0 <= k < |RecipeOf(recipes, f)| ==> RecipeOf(recipes, f)[k] < |contents|
  }

  /** Storing more chunks does not change what a recipe means. */
  lemma LogGrows(log: seq<Event>, contents: seq<seq<Byte>>, recipes: map<string, seq<nat>>, header: bool, more: seq<seq<Byte>>)
    requires LogOk(log, contents, recipes, header)
    ensures LogOk(log, contents + more, recipes, header)
  {
    forall f ensures RecipeHolds(log, contents + more, recipes, header, f) {
      assert RecipeHolds(log, contents, recipes, header, f);
      assert Resolve(contents + more, RecipeOf(recipes, f)) == Resolve(contents, RecipeOf(recipes, f));
    }
  }

  lemma HoldsFor(log: seq<Event>, contents: seq<seq<Byte>>, recipes: map<string, seq<nat>>, header: bool, f: string)
    requires LogOk(log, contents, recipes, header)
    ensures RecipeHolds(log, contents, recipes, header, f)
  {
  }

  /** A recipe that is missing means the same as an empty one. */
  lemma SameRecipes(log: seq<Event>, contents: seq<seq<Byte>>, recipes: map<string, seq<nat>>, more: map<string, seq<nat>>, header: bool)
    requires LogOk(log, contents, recipes, header)
    requires forall f :: RecipeOf(more, f) == RecipeOf(recipes, f)
    ensures LogOk(log, contents, more, header)
  {
    forall f ensures RecipeHolds(log, contents, more, header, f) {
      hide Chunks, Resolve;
      assert RecipeHolds(log, contents, recipes, header, f);
    }
  }

  lemma ChunksPush(log: seq<Event>, e: Event, f: string, header: bool)
    ensures Chunks(log + [e], f, header) == if e.file == f && e.header == header then Chunks(log, f, header) + [e.bytes] else Chunks(log, f, header)
  {
    assert (log + [e])[..|log|] == log;
  }

  /** Entering a chunk in a recipe and logging it keep the two together ... */
  lemma LogPush(log: seq<Event>, contents: seq<seq<Byte>>, recipes: map<string, seq<nat>>, header: bool, file: string, id: nat)
    requires LogOk(log, contents, recipes, header) && id < |contents|
    ensures LogOk(log + [Event(file, contents[id], header)], contents, Pushed(recipes, file, id), header)
  {
    var e := Event(file, contents[id], header);
    var more := Pushed(recipes, file, id);
    forall f ensures RecipeHolds(log + [e], contents, more, header, f) {
      hide Chunks, Resolve;
      assert RecipeHolds(log, contents, recipes, header, f);
      ChunksPush(log, e, f, header);
      ResolvePush(contents, RecipeOf(recipes, f), id);
      assert RecipeOf(more, f) == RecipeOf(recipes, f) + if f == file then [id] else [];
    }
  }

  lemma ResolvePush(contents: seq<seq<Byte>>, recipe: seq<nat>, id: nat)
    requires id < |contents|
    ensures Resolve(contents, recipe + [id]) == Resolve(contents, recipe) + [contents[id]]
  {
  }

  /** ... and leave the recipes of the other kind as they are. */
  lemma LogOther(log: seq<Event>, contents: seq<seq<Byte>>, recipes: map<string, seq<nat>>, header: bool, e: Event)
    requires LogOk(log, contents, recipes, header) && e.header != header
    ensures LogOk(log + [e], contents, recipes, header)
  {
    forall f ensures RecipeHolds(log + [e], contents, recipes, header, f) {
      hide Chunks, Resolve;
      assert RecipeHolds(log, contents, recipes, header, f);
      ChunksPush(log, e, f, header);
    }
  }

  // ----- whole traces --------------------------------------------------------------------------

  /** What a trace of chunks should leave in the log. */
  function LogFor(file: string, pieces: seq<Piece>): seq<Event> {
    seq(|pieces|, k requires 0 <= k < |pieces| => Event(file, pieces[k].bytes, pieces[k].header))
  }

  lemma {:induction false} ChunksOfTrace(log: seq<Event>, file: string, pieces: seq<Piece>, f: string, header: bool)
    ensures Chunks(log + LogFor(file, pieces), f, header) == if f == file then Chunks(log, f, header) + Bodies(pieces, header) else Chunks(log, f, header)
    decreases |pieces|
  {
    if pieces == [] {
      assert log + LogFor(file, pieces) == log;
    } else {
      var n := |pieces| - 1;
      var e := Event(file, pieces[n].bytes, pieces[n].header);
      assert LogFor(file, pieces) == LogFor(file, pieces[..n]) + [e];
      assert log + LogFor(file, pieces) == (log + LogFor(file, pieces[..n])) + [e];
      ChunksOfTrace(log, file, pieces[..n], f, header);
      ChunksPush(log + LogFor(file, pieces[..n]), e, f, header);
    }
  }

  /** One file of a backup run. */
  datatype Backup = Backup(name: string, pieces: seq<Piece>)

  function RunLog(backups: seq<Backup>): seq<Event> {
    if backups == [] then []
    else
      var n := |backups| - 1;
      RunLog(backups[..n]) + LogFor(backups[n].name, backups[n].pieces)
  }

  ghost predicate NamesDiffer(backups: seq<Backup>) {
    forall i, j :: 0 <= i < j < |backups| ==> backups[i].name != backups[j].name
  }

  lemma NoChunks(f: string, header: bool)
    ensures Chunks([], f, header) == []
  {
  }

  /** The recipe of a file holds its own chunks and nothing of the other files. */
  lemma {:induction false} ChunksOfRun(backups: seq<Backup>, f: string, header: bool)
    requires NamesDiffer(backups)
    ensures (forall i :: 0 <= i < |backups| ==> backups[i].name != f) ==> Chunks(RunLog(backups), f, header) == []
    ensures forall i :: 0 <= i < |backups| && backups[i].name == f ==> Chunks(RunLog(backups), f, header) == Bodies(backups[i].pieces, header)
    decreases |backups|
  {
    hide Chunks, LogFor, Bodies;
    NoChunks(f, header);
    if backups != [] {
      var n := |backups| - 1;
      assert NamesDiffer(backups[..n]);
      ChunksOfRun(backups[..n], f, header);
      ChunksOfTrace(RunLog(backups[..n]), backups[n].name, backups[n].pieces, f, header);
    }
  }

  /** A chunk's list depends on its content only: no data chunk repeats a header chunk. */
  ghost predicate FlagsAgree(entries: seq<Entry>, contents: seq<seq<Byte>>, isHeader: seq<Byte> -> bool) {
    |entries| == |contents| && forall i :: 0 <= i < |contents| ==> entries[i].headerFlag == isHeader(contents[i])
  }

  /** The assumptions on the chunks of a trace. */
  ghost predicate Fits(pieces: seq<Piece>, seen: set<seq<Byte>>, isHeader: seq<Byte> -> bool) {
    forall k :: 0 <= k < |pieces| ==>
      && |pieces[k].bytes| <= CONTAINER_MAX_SIZE
      && pieces[k].bytes in seen && pieces[k].header == isHeader(pieces[k].bytes)
  }

  ghost predicate AllIn(contents: seq<seq<Byte>>, seen: set<seq<Byte>>) {
    forall i :: 0 <= i < |contents| ==> contents[i] in seen
  }

  const LZ4_ACCELERATION := 3

  /** What a base takes: its LZ4 block, or itself if that is not longer. */
  ghost function Lz4Size(chunk: seq<Byte>): nat {
    var n := |Lz4Greedy.Block(chunk, LZ4_ACCELERATION)|;
    if n <= |chunk| then n else |chunk|
  }

  ghost function Lz4Flag(chunk: seq<Byte>): Flag {
    if |Lz4Greedy.Block(chunk, LZ4_ACCELERATION)| <= |chunk| then NoDelta else NoLz4
  }

  /** The entry of a new chunk: a delta against its base if it has one, otherwise a base. */
  ghost predicate StoredAs(codec: Codec, flag: Flag, e: Entry, chunk: seq<Byte>, base: Option<nat>, contents: seq<seq<Byte>>) {
    match base
    case None => IsBase(e.deltaFlag) && e.basechunkID == -1 && e.saveSize == Lz4Size(chunk)
    case Some(b) =>
      b < |contents| && e.deltaFlag == flag && e.basechunkID == b && e.saveSize == |codec.encode(chunk, contents[b])|
  }

  lemma BaseStored(codec: Codec, flag: Flag, e: Entry, chunk: seq<Byte>, contents: seq<seq<Byte>>)
    requires e.deltaFlag == Lz4Flag(chunk) && e.saveSize == Lz4Size(chunk) && e.basechunkID == -1
    ensures IsBase(e.deltaFlag) && StoredAs(codec, flag, e, chunk, None, contents)
  {
  }

  // ----- the shared object ---------------------------------------------------------------------

  /** Fields and steps common to Finesse and Palantir. `log` records the recipe entries made. */
  class Processor {
    const dataWrite: DataWrite
    const fp: seq<Byte> -> Hash
    const lz4ChunkBuffer: array<Byte>
    var fpIndex: map<Hash, nat>
    var stats: Stats
    ghost var log: seq<Event>

    ghost function Repr(): set<object> {
      {this, lz4ChunkBuffer} + dataWrite.Repr()
    }

    /** Valid while `pending` is entered in the fingerprint index but not yet stored. */
    ghost predicate Holding(pending: seq<seq<Byte>>)
      reads Repr()
    {
      && this !in dataWrite.Repr()
      && lz4ChunkBuffer !in dataWrite.Repr() && lz4ChunkBuffer.Length == CONTAINER_MAX_SIZE
      && dataWrite.Valid()
      && FpOk(fp, fpIndex, dataWrite.contents + pending)
      && LogOk(log, dataWrite.contents, dataWrite.recipeMap, false)
      && LogOk(log, dataWrite.contents, dataWrite.recipeMapHeader, true)
    }

    ghost predicate Valid()
      reads Repr()
    {
      Holding([]) && StatsOk(stats, dataWrite.chunklist, log)
    }

    constructor (codec: Codec, fp: seq<Byte> -> Hash)
      ensures Valid() && fresh(Repr()) && this.fp == fp && dataWrite.codec == codec
      ensures log == [] && dataWrite.contents == [] && stats == NoStats && dataWrite.chunklist == []
    {
      hide FpOk, LogOk, StatsOk, StoreOk;
      this.fp := fp;
      dataWrite := new DataWrite(codec);
      lz4ChunkBuffer := new Byte[CONTAINER_MAX_SIZE];
      fpIndex, stats, log := map[], NoStats, [];
      new;
      NothingStored(fp, stats, dataWrite.chunklist, log, dataWrite.contents, dataWrite.recipeMap);
      assert dataWrite.contents + [] == dataWrite.contents;
    }

    /** FP_Find: `None` stands for -1. */
    method FpFind(h: Hash) returns (r: Option<nat>)
      requires Valid()
      ensures r.None? ==> h !in fpIndex && forall i :: 0 <= i < |dataWrite.contents| ==> fp(dataWrite.contents[i]) != h
      ensures r.Some? ==> r.value < |dataWrite.contents| == |dataWrite.chunklist| && fp(dataWrite.contents[r.value]) == h
    {
      hide LogOk, StatsOk;
      StoreIsPlaced(dataWrite.codec, dataWrite.Value(), dataWrite.contents);
      assert dataWrite.contents + [] == dataWrite.contents;
      r := if h in fpIndex then Some(fpIndex[h]) else None;
    }

    /** FP_Insert, before the chunk itself is stored. */
    method FpInsert(chunk: seq<Byte>)
      requires Holding([]) && fp(chunk) !in fpIndex && stats.uniquechunkNum == |dataWrite.chunklist|
      modifies this`fpIndex
      ensures Holding([chunk])
    {
      hide LogOk, StoreOk;
      assert dataWrite.contents + [] == dataWrite.contents;
      StoreIsPlaced(dataWrite.codec, dataWrite.Value(), dataWrite.contents);
      FpPush(fp, fpIndex, dataWrite.contents, chunk);
      fpIndex := fpIndex[fp(chunk) := stats.uniquechunkNum];
    }

    /** LZ4 with the chunk size as budget; a chunk that does not shrink is kept raw. */
    method CompressChunk(chunk: seq<Byte>) returns (flag: Flag, saveSize: nat)
      requires |chunk| <= lz4ChunkBuffer.Length == CONTAINER_MAX_SIZE
      modifies lz4ChunkBuffer
      ensures saveSize <= |chunk| && IsBase(flag) && (|chunk| > 0 ==> saveSize > 0)
      ensures saveSize == Lz4Size(chunk) && flag == Lz4Flag(chunk)
      ensures flag == NoDelta ==> IsBlockOf(lz4ChunkBuffer[..saveSize], chunk)
      ensures flag == NoLz4 ==> saveSize == |chunk|
    {
      hide IsBlockOf, Lz4Greedy.Block;
      var tmpChunkLz4CompressSize := Lz4Compressor.CompressFast(chunk, lz4ChunkBuffer, |chunk|, LZ4_ACCELERATION);
      if tmpChunkLz4CompressSize > 0 {
        flag, saveSize := NoDelta, tmpChunkLz4CompressSize;
      } else {
        flag, saveSize := NoLz4, |chunk|;
      }
    }

    /** Everything but the new chunk is as before. */
    ghost predicate Appended(chunk: seq<Byte>, oldContents: seq<seq<Byte>>, oldList: seq<Entry>)
      reads dataWrite
    {
      && dataWrite.contents == oldContents + [chunk]
      && |dataWrite.chunklist| == |oldList| + 1 == |dataWrite.contents|
      && dataWrite.chunklist[..|oldList|] == oldList
    }

    /** A new base chunk, compressed if that pays. */
    method StoreBase(chunk: seq<Byte>, header: bool) returns (saveSize: nat)
      requires Holding([chunk]) && |chunk| <= CONTAINER_MAX_SIZE && stats.uniquechunkNum == |dataWrite.chunklist|
      modifies this`stats, lz4ChunkBuffer, dataWrite`curOffset, dataWrite`containerNum, dataWrite`chunkNum,
        dataWrite`chunklist, dataWrite`disk, dataWrite`contents, dataWrite.data
      ensures Holding([]) && Appended(chunk, old(dataWrite.contents), old(dataWrite.chunklist))
      ensures saveSize <= |chunk| && (|chunk| > 0 ==> saveSize > 0)
      ensures stats == AddUnique(AddBase(old(stats), |chunk|, saveSize), saveSize)
      ensures var e := dataWrite.chunklist[|old(dataWrite.chunklist)|];
              && e.deltaFlag == Lz4Flag(chunk) && e.saveSize == saveSize == Lz4Size(chunk) && e.basechunkID == -1
              && e.chunkSize == |chunk| && e.headerFlag == header
    {
      hide LogOk, StoreOk, FpOk, IsBlockOf, AddBase, AddUnique, Lz4Size;
      var id := stats.uniquechunkNum;
      var flag: Flag;
      flag, saveSize := CompressChunk(chunk);
      stats := AddBase(stats, |chunk|, saveSize);
      InsertBase(chunk, header, id, flag, saveSize);
      stats := AddUnique(stats, saveSize);
    }

    /** Raw or compressed, as CompressChunk decided. */
    method InsertBase(chunk: seq<Byte>, header: bool, id: nat, flag: Flag, saveSize: nat)
      requires Holding([chunk]) && |chunk| <= CONTAINER_MAX_SIZE && saveSize <= |chunk| && IsBase(flag)
      requires id == |dataWrite.chunklist|
      requires flag == NoDelta ==> IsBlockOf(lz4ChunkBuffer[..saveSize], chunk)
      requires flag == NoLz4 ==> saveSize == |chunk|
      modifies dataWrite`curOffset, dataWrite`containerNum, dataWrite`chunkNum,
        dataWrite`chunklist, dataWrite`disk, dataWrite`contents, dataWrite.data
      ensures Holding([]) && Appended(chunk, old(dataWrite.contents), old(dataWrite.chunklist))
      ensures var e := dataWrite.chunklist[|old(dataWrite.chunklist)|];
              && e.deltaFlag == flag && e.saveSize == saveSize && e.basechunkID == -1
              && e.chunkSize == |chunk| && e.headerFlag == header
    {
      hide LogOk, StoreOk, FpOk, IsBlockOf, PoolOk, CacheAgrees;
      var tmpChunk := Entry(id, |chunk|, saveSize, -1, flag, header, 0, 0);
      StoreIsPlaced(dataWrite.codec, dataWrite.Value(), dataWrite.contents);
      LogGrows(log, dataWrite.contents, dataWrite.recipeMap, false, [chunk]);
      LogGrows(log, dataWrite.contents, dataWrite.recipeMapHeader, true, [chunk]);
      assert dataWrite.contents + [chunk] + [] == dataWrite.contents + [chunk];
      if flag == NoLz4 {
        assert chunk[..saveSize] == chunk;
        dataWrite.ChunkInsert(tmpChunk, chunk, chunk);
      } else {
        dataWrite.ChunkInsertLz4(tmpChunk, lz4ChunkBuffer, chunk);
      }
    }

    /** A new chunk as a delta, which was copied over the chunk it encodes. */
    method StoreDelta(chunk: seq<Byte>, header: bool, delta: seq<Byte>, base: nat, flag: Flag)
      requires Holding([chunk]) && |delta| <= |chunk| <= CONTAINER_MAX_SIZE
      requires !IsBase(flag) && base < |dataWrite.chunklist| == |dataWrite.contents| == stats.uniquechunkNum
      requires IsBase(dataWrite.chunklist[base].deltaFlag)
      requires dataWrite.codec.decode(delta, dataWrite.contents[base]) == chunk
      modifies this`stats, dataWrite`curOffset, dataWrite`containerNum, dataWrite`chunkNum,
        dataWrite`chunklist, dataWrite`disk, dataWrite`contents, dataWrite.data
      ensures Holding([]) && Appended(chunk, old(dataWrite.contents), old(dataWrite.chunklist))
      ensures stats == AddUnique(AddDelta(old(stats), |chunk|, |delta|), |delta|)
      ensures var e := dataWrite.chunklist[|old(dataWrite.chunklist)|];
              && e.deltaFlag == flag && e.saveSize == |delta| && e.basechunkID == base
              && e.chunkSize == |chunk| && e.headerFlag == header
    {
      hide LogOk, StoreOk, FpOk, IsBlockOf, PoolOk, CacheAgrees;
      var tmpChunk := Entry(stats.uniquechunkNum, |chunk|, |delta|, base, flag, header, 0, 0);
      stats := AddDelta(stats, |chunk|, |delta|);
      StoreIsPlaced(dataWrite.codec, dataWrite.Value(), dataWrite.contents);
      LogGrows(log, dataWrite.contents, dataWrite.recipeMap, false, [chunk]);
      LogGrows(log, dataWrite.contents, dataWrite.recipeMapHeader, true, [chunk]);
      assert dataWrite.contents + [chunk] + [] == dataWrite.contents + [chunk];
      var chunkPtr := delta + chunk[|delta|..];
      assert chunkPtr[..|delta|] == delta;
      dataWrite.ChunkInsert(tmpChunk, chunkPtr, chunk);
      stats := AddUnique(stats, |delta|);
    }

    /** xd3_encode against a stored base, read through Get_Chunk_Info. */
    method EncodeAgainst(chunk: seq<Byte>, base: nat) returns (delta: seq<Byte>)
      requires dataWrite.Valid() && base < |dataWrite.chunklist| && IsBase(dataWrite.chunklist[base].deltaFlag)
      modifies dataWrite.lz4SafeChunkBuffer, dataWrite.containerCache, dataWrite.containerCache.readCache,
        dataWrite.containerCache.containerPool
      ensures dataWrite.Valid() && base < |dataWrite.contents|
      ensures delta == dataWrite.codec.encode(chunk, dataWrite.contents[base])
    {
      hide StoreOk, PoolOk, CacheAgrees;
      DeltaFacts(dataWrite.codec, dataWrite.Value(), dataWrite.contents, base);
      var basechunkinfo := dataWrite.GetChunkInfo(base);
      var whole := dataWrite.ReadBytes(basechunkinfo.ptr, basechunkinfo.entry.chunkSize);
      delta := dataWrite.codec.encode(chunk, whole);
    }

    /** A chunk that was not stored before is now the last one. */
    ghost predicate NewEntered(chunk: seq<Byte>, header: bool, oldLog: seq<Event>, oldContents: seq<seq<Byte>>, oldList: seq<Entry>)
      reads this, dataWrite
    {
      var dw := dataWrite;
      && |dw.chunklist| == |dw.contents|
      && Added(dw.contents, oldContents, chunk) && Extends(dw.chunklist, oldList, header)
      && log == oldLog + [Event(dw.filename, chunk, header)]
    }

    /** The log has one more event, in the list of the stored copy of the chunk. */
    ghost predicate Entered(chunk: seq<Byte>, header: bool, oldLog: seq<Event>, oldContents: seq<seq<Byte>>, oldList: seq<Entry>)
      reads this, dataWrite
    {
      var dw := dataWrite;
      && |dw.chunklist| == |dw.contents|
      && (if chunk in oldContents then dw.contents == oldContents && dw.chunklist == oldList
          else Added(dw.contents, oldContents, chunk) && Extends(dw.chunklist, oldList, header))
      && exists id :: 0 <= id < |dw.contents| && dw.contents[id] == chunk
           && log == oldLog + [Event(dw.filename, chunk, dw.chunklist[id].headerFlag)]
    }

    /** restoreFile on any file of the run: the data chunks logged for it. */
    method Restore(file: string) returns (out: seq<Byte>)
      requires Holding([])
      modifies dataWrite`recipeMap, dataWrite.lz4SafeChunkBuffer, dataWrite.containerCache,
        dataWrite.containerCache.readCache, dataWrite.containerCache.containerPool
      ensures Holding([]) && out == Flatten(Chunks(log, file, false))
    {
      hide StoreOk, FpOk, PoolOk, CacheAgrees, LogOk;
      HoldsFor(log, dataWrite.contents, dataWrite.recipeMap, false, file);
      ghost var recipes := dataWrite.recipeMap;
      out := dataWrite.RestoreFile(file);
      SameRecipes(log, dataWrite.contents, recipes, dataWrite.recipeMap, false);
    }

    /** The recipe entry of a processed chunk, in the list its stored copy belongs to. */
    method Record(id: nat)
      requires Holding([]) && id < |dataWrite.chunklist|
      modifies this`stats, this`log, dataWrite`recipeMap, dataWrite`recipeMapHeader
      ensures Holding([]) && id < |dataWrite.contents|
      ensures log == old(log) + [Event(dataWrite.filename, dataWrite.contents[id], dataWrite.chunklist[id].headerFlag)]
      ensures stats == AddLogical(old(stats), |dataWrite.contents[id]|)
    {
      hide LogOk, StoreOk, FpOk, PoolOk, CacheAgrees, IsBlockOf, EntryPlaced, Stored;
      EntryFacts(dataWrite.codec, dataWrite.Value(), dataWrite.contents, id);
      var tmpChunk := dataWrite.chunklist[id];
      ghost var e := Event(dataWrite.filename, dataWrite.contents[id], tmpChunk.headerFlag);
      if !tmpChunk.headerFlag {
        LogPush(log, dataWrite.contents, dataWrite.recipeMap, false, dataWrite.filename, id);
        LogOther(log, dataWrite.contents, dataWrite.recipeMapHeader, true, e);
        dataWrite.RecipeInsert(id);
      } else {
        LogPush(log, dataWrite.contents, dataWrite.recipeMapHeader, true, dataWrite.filename, id);
        LogOther(log, dataWrite.contents, dataWrite.recipeMap, false, e);
        dataWrite.RecipeHeaderInsert(id);
      }
      log := log + [e];
      stats := AddLogical(stats, tmpChunk.chunkSize);
    }

    /** A duplicate: its size is saved, and only the recipe grows. */
    method RecordDuplicate(findRes: nat)
      requires Valid() && findRes < |dataWrite.contents|
      modifies this`stats, this`log, dataWrite`recipeMap, dataWrite`recipeMapHeader
      ensures Valid() && findRes < |dataWrite.chunklist|
      ensures log == old(log) + [Event(dataWrite.filename, dataWrite.contents[findRes], dataWrite.chunklist[findRes].headerFlag)]
      ensures var size := |dataWrite.contents[findRes]|; stats == AddLogical(AddDedup(old(stats), size), size)
    {
      hide StoreOk, LogOk, FpOk, StatsOk, PoolOk, CacheAgrees, AddLogical, AddDedup, EntryPlaced, Stored;
      StoreIsPlaced(dataWrite.codec, dataWrite.Value(), dataWrite.contents);
      EntryFacts(dataWrite.codec, dataWrite.Value(), dataWrite.contents, findRes);
      var tmpChunk := dataWrite.chunklist[findRes];
      DedupBalances(stats, dataWrite.chunklist, log, Event(dataWrite.filename, dataWrite.contents[findRes], tmpChunk.headerFlag));
      stats := AddDedup(stats, tmpChunk.chunkSize);
      Record(findRes);
    }
  }

  lemma FlagsStay(chunk: seq<Byte>, header: bool, was: seq<seq<Byte>>, list: seq<Entry>,
                  contents: seq<seq<Byte>>, entries: seq<Entry>, isHeader: seq<Byte> -> bool)
    requires FlagsAgree(list, was, isHeader) && header == isHeader(chunk)
    requires if chunk in was then contents == was && entries == list else Added(contents, was, chunk) && Extends(entries, list, header)
    ensures FlagsAgree(entries, contents, isHeader)
  {
    if chunk !in was {
      assert forall i :: 0 <= i < |list| ==> entries[i] == entries[..|list|][i];
    }
  }

  ghost predicate Added(contents: seq<seq<Byte>>, oldContents: seq<seq<Byte>>, chunk: seq<Byte>) {
    contents == oldContents + [chunk]
  }

  ghost predicate Extends(list: seq<Entry>, oldList: seq<Entry>, header: bool) {
    |list| == |oldList| + 1 && list[..|oldList|] == oldList && list[|oldList|].headerFlag == header
  }

  lemma NothingStored(fp: seq<Byte> -> Hash, s: Stats, entries: seq<Entry>, log: seq<Event>, contents: seq<seq<Byte>>, recipes: map<string, seq<nat>>)
    requires s == NoStats && entries == [] && log == [] && contents == [] && recipes == map[]
    ensures StatsOk(s, entries, log)
    ensures FpOk(fp, map[], contents)
    ensures LogOk(log, contents, recipes, false) && LogOk(log, contents, recipes, true)
  {
    forall f, header ensures RecipeHolds(log, contents, recipes, header, f) {
    }
  }
}
