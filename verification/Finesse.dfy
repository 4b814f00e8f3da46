/**
 The Finesse trace processor (src/method/Finesse.cc): every chunk from the queue is a duplicate, a
 base, or a delta against a base with an equal super-feature.
 */
module FinesseMethod {
  import opened Bytes
  import opened ContainerCache
  import opened ChunkStore
  import opened DataWriter
  import opened AbsMethod
  import opened FinesseOutcome

  /** Buckets are never empty and hold only bases. */
  ghost predicate IndexOk(index: SfIndex, entries: seq<Entry>) {
    forall i, k :: 0 <= i < 3 && k in index[i] ==> BucketOk(index[i][k], entries)
  }

  ghost predicate BucketOk(bucket: seq<nat>, entries: seq<Entry>) {
    bucket != [] && forall j :: 0 <= j < |bucket| ==> bucket[j] < |entries| && IsBase(entries[bucket[j]].deltaFlag)
  }

  lemma EmptyIndex(index: SfIndex, entries: seq<Entry>)
    requires forall i :: 0 <= i < 3 ==> index[i] == map[]
    ensures IndexOk(index, entries)
  {
  }

  lemma IndexGrows(index: SfIndex, entries: seq<Entry>, more: seq<Entry>)
    requires IndexOk(index, entries) && |entries| <= |more| && more[..|entries|] == entries
    ensures IndexOk(index, more)
  {
    forall i, k | 0 <= i < 3 && k in index[i] ensures BucketOk(index[i][k], more) {
      assert BucketOk(index[i][k], entries);
      assert forall j :: 0 <= j < |entries| ==> more[j] == more[..|entries|][j];
    }
  }

  class Finesse {
    const base: Processor
    const sf: seq<Byte> -> Features
    var sfIndex: SfIndex

    ghost function Repr(): set<object> {
      {this} + base.Repr()
    }

    /** What decides the fate of the next chunk. */
    ghost function Knows(): Known
      reads this, base.dataWrite
    {
      Known(base.dataWrite.contents, sfIndex)
    }

    ghost predicate Valid()
      reads Repr()
    {
      && this !in base.Repr() && base.Valid()
      && IndexOk(sfIndex, base.dataWrite.chunklist)
    }

    constructor (codec: Codec, fp: seq<Byte> -> Hash, sf: seq<Byte> -> Features)
      ensures Valid() && fresh(Repr()) && base.fp == fp && this.sf == sf && base.dataWrite.codec == codec
      ensures base.log == [] && base.dataWrite.contents == [] && base.dataWrite.chunklist == [] && base.stats == NoStats
      ensures Knows() == Nothing
    {
      hide FpOk, LogOk, StatsOk, StoreOk, PoolOk, CacheAgrees, IndexOk;
      base := new Processor(codec, fp);
      this.sf := sf;
      sfIndex := [map[], map[], map[]];
      new;
      EmptyIndex(sfIndex, base.dataWrite.chunklist);
    }

    /** SF_Find: the newest chunk of the first bucket that exists. */
    method SfFind(keys: Features) returns (r: Option<nat>)
      requires IndexOk(sfIndex, base.dataWrite.chunklist)
      ensures r == BaseFor(sfIndex, keys)
      ensures r.Some? ==> r.value < |base.dataWrite.chunklist| && IsBase(base.dataWrite.chunklist[r.value].deltaFlag)
    {
      for i := 0 to 3
        invariant forall j :: 0 <= j < i ==> keys[j] !in sfIndex[j]
      {
        if keys[i] in sfIndex[i] {
          var bucket := sfIndex[i][keys[i]];
          assert BucketOk(bucket, base.dataWrite.chunklist);
          return Some(bucket[|bucket| - 1]);
        }
      }
      return None;
    }

    /** SF_Insert: the chunk joins the bucket of each of its super-features. */
    method SfInsert(keys: Features, chunkid: nat)
      requires IndexOk(sfIndex, base.dataWrite.chunklist)
      requires chunkid < |base.dataWrite.chunklist| && IsBase(base.dataWrite.chunklist[chunkid].deltaFlag)
      modifies this`sfIndex
      ensures IndexOk(sfIndex, base.dataWrite.chunklist)
      ensures sfIndex == AllJoined(old(sfIndex), keys, chunkid)
    {
      for i := 0 to 3
        invariant IndexOk(sfIndex, base.dataWrite.chunklist)
        invariant forall j :: 0 <= j < i ==> sfIndex[j] == Joined(old(sfIndex[j]), keys[j], chunkid)
        invariant forall j :: i <= j < 3 ==> sfIndex[j] == old(sfIndex[j])
      {
        JoinOk(sfIndex, i, keys[i], chunkid, base.dataWrite.chunklist);
        sfIndex := sfIndex[i := Joined(sfIndex[i], keys[i], chunkid)];
      }
    }

    /** The chunk is known: only the recipe grows. */
    method ProcessDuplicate(chunk: seq<Byte>, findRes: nat)
      requires Valid() && findRes < |base.dataWrite.contents| && base.dataWrite.contents[findRes] == chunk
      modifies base`stats, base`log, base.dataWrite`recipeMap, base.dataWrite`recipeMapHeader
      ensures Valid() && findRes < |base.dataWrite.chunklist|
      ensures base.log == old(base.log) + [Event(base.dataWrite.filename, chunk, base.dataWrite.chunklist[findRes].headerFlag)]
    {
      hide Processor.Valid, IndexOk;
      base.RecordDuplicate(findRes);
    }

    /** A new chunk without a similar base becomes a base itself. */
    method ProcessBase(chunk: seq<Byte>, header: bool)
      requires this !in base.Repr() && base.Holding([chunk]) && StatsOk(base.stats, base.dataWrite.chunklist, base.log)
      requires IndexOk(sfIndex, base.dataWrite.chunklist) && |chunk| <= CONTAINER_MAX_SIZE
      modifies Repr()
      ensures base.dataWrite.filename == old(base.dataWrite.filename)
      ensures sfIndex == if |chunk| > MIN_FEATURE_SIZE then AllJoined(old(sfIndex), sf(chunk), |old(base.dataWrite.contents)|) else old(sfIndex)
      ensures Valid() && base.NewEntered(chunk, header, old(base.log), old(base.dataWrite.contents), old(base.dataWrite.chunklist))
      ensures StoredAs(base.dataWrite.codec, FinesseDelta, base.dataWrite.chunklist[|old(base.dataWrite.chunklist)|],
                       chunk, None, old(base.dataWrite.contents))
    {
      hide Processor.Holding, StoreOk, LogOk, FpOk, StatsOk, PoolOk, CacheAgrees, IndexOk, AddBase, AddUnique,
        AddLogical, Lz4Size, Lz4Flag, AllJoined, StoredAs;
      ghost var dw := base.dataWrite;
      ghost var list, log, stats := dw.chunklist, base.log, base.stats;
      NextId(stats, list, log);
      var id := base.stats.uniquechunkNum;
      var saveSize := base.StoreBase(chunk, header);
      BaseStored(dw.codec, FinesseDelta, dw.chunklist[id], chunk, old(dw.contents));
      IndexGrows(sfIndex, list, dw.chunklist);
      if |chunk| > MIN_FEATURE_SIZE {
        SfInsert(sf(chunk), id);
      }
      assert dw.chunklist == list + [dw.chunklist[id]];
      BaseBalances(stats, list, log, dw.chunklist[id], Event(dw.filename, chunk, header));
      base.Record(id);
    }

    /** A new chunk with a similar base becomes a delta. */
    method ProcessDelta(chunk: seq<Byte>, header: bool, basechunkID: nat) returns (outcome: Outcome)
      requires this !in base.Repr() && base.Holding([chunk]) && StatsOk(base.stats, base.dataWrite.chunklist, base.log)
      requires IndexOk(sfIndex, base.dataWrite.chunklist) && |chunk| <= CONTAINER_MAX_SIZE
      requires basechunkID < |base.dataWrite.chunklist| && IsBase(base.dataWrite.chunklist[basechunkID].deltaFlag)
      requires Lossless(base.dataWrite.codec)
      modifies Repr()
      ensures base.dataWrite.filename == old(base.dataWrite.filename)
      ensures outcome == Kept ==> Valid() && base.NewEntered(chunk, header, old(base.log), old(base.dataWrite.contents), old(base.dataWrite.chunklist))
      ensures outcome != Kept ==> base.Holding([chunk]) && base.log == old(base.log)
      ensures sfIndex == old(sfIndex) && (outcome != Kept ==> base.dataWrite.contents == old(base.dataWrite.contents))
      ensures basechunkID < |old(base.dataWrite.contents)|
      ensures var n := |base.dataWrite.codec.encode(chunk, old(base.dataWrite.contents)[basechunkID])|;
              outcome == if n > |chunk| then Overrun else if n == 0 then DeltaError else Kept
      ensures outcome == Kept ==>
                StoredAs(base.dataWrite.codec, FinesseDelta, base.dataWrite.chunklist[|old(base.dataWrite.chunklist)|], chunk,
                         Some(basechunkID), old(base.dataWrite.contents))
    {
      hide Lossless, StoreOk, LogOk, FpOk, StatsOk, PoolOk, CacheAgrees, IndexOk;
      ghost var dw := base.dataWrite;
      StoreIsPlaced(dw.codec, dw.Value(), dw.contents);
      var deltachunk := base.EncodeAgainst(chunk, basechunkID);
      if |deltachunk| > |chunk| {
        return Overrun;
      }
      if |deltachunk| == 0 {
        return DeltaError;
      }
      DecodesBack(dw.codec, chunk, dw.contents[basechunkID]);
      KeepDelta(chunk, header, basechunkID, deltachunk);
      return Kept;
    }

    /** The delta is stored in place of the chunk and entered in the recipe. */
    method KeepDelta(chunk: seq<Byte>, header: bool, basechunkID: nat, deltachunk: seq<Byte>)
      requires this !in base.Repr() && base.Holding([chunk]) && StatsOk(base.stats, base.dataWrite.chunklist, base.log)
      requires IndexOk(sfIndex, base.dataWrite.chunklist)
      requires |deltachunk| <= |chunk| <= CONTAINER_MAX_SIZE && |base.dataWrite.chunklist| == |base.dataWrite.contents|
      requires basechunkID < |base.dataWrite.chunklist| && IsBase(base.dataWrite.chunklist[basechunkID].deltaFlag)
      requires base.dataWrite.codec.decode(deltachunk, base.dataWrite.contents[basechunkID]) == chunk
      modifies base.Repr()
      ensures base.dataWrite.filename == old(base.dataWrite.filename)
      ensures Valid() && base.NewEntered(chunk, header, old(base.log), old(base.dataWrite.contents), old(base.dataWrite.chunklist))
      ensures var e := base.dataWrite.chunklist[|old(base.dataWrite.chunklist)|];
              e.deltaFlag == FinesseDelta && e.basechunkID == basechunkID && e.saveSize == |deltachunk|
    {
      hide Processor.Holding, StoreOk, LogOk, FpOk, StatsOk, PoolOk, CacheAgrees, IndexOk, AddDelta, AddUnique, AddLogical;
      ghost var dw := base.dataWrite;
      ghost var list, log, stats := dw.chunklist, base.log, base.stats;
      NextId(stats, list, log);
      base.StoreDelta(chunk, header, deltachunk, basechunkID, FinesseDelta);
      IndexGrows(sfIndex, list, dw.chunklist);
      assert dw.chunklist == list + [dw.chunklist[|list|]];
      DeltaBalances(stats, list, log, dw.chunklist[|list|], Event(dw.filename, chunk, header));
      base.Record(|base.dataWrite.chunklist| - 1);
    }

    /** One round of ProcessTrace. The fingerprint has to tell the chunk from the stored ones. */
    method ProcessChunk(chunk: seq<Byte>, header: bool) returns (outcome: Outcome)
      requires Valid() && |chunk| <= CONTAINER_MAX_SIZE && Lossless(base.dataWrite.codec)
      requires forall i :: 0 <= i < |base.dataWrite.contents| && base.fp(base.dataWrite.contents[i]) == base.fp(chunk)
                 ==> base.dataWrite.contents[i] == chunk
      modifies Repr()
      ensures base.dataWrite.filename == old(base.dataWrite.filename)
      ensures outcome == Kept ==> Valid() && base.Entered(chunk, header, old(base.log), old(base.dataWrite.contents), old(base.dataWrite.chunklist))
      ensures outcome == OutcomeOf(base.dataWrite.codec, sf, old(Knows()), chunk)
      ensures Knows() == if outcome == Kept then KnownNext(sf, old(Knows()), chunk) else old(Knows())
      ensures outcome == Kept && chunk !in old(base.dataWrite.contents) ==>
                StoredAs(base.dataWrite.codec, FinesseDelta, base.dataWrite.chunklist[|old(base.dataWrite.chunklist)|], chunk,
                         BaseOf(sf, old(Knows()), chunk), old(base.dataWrite.contents))
      ensures outcome == Kept ==> Counted(base.dataWrite.codec, sf, old(Knows()), chunk, old(base.stats), base.stats)
    {
      hide StoredAs, Counted;
      ghost var k, stats, list, log := Knows(), base.stats, base.dataWrite.chunklist, base.log;
      hide StoreOk, LogOk, FpOk, StatsOk, PoolOk, CacheAgrees, IndexOk, BaseFor, AllJoined, Lossless;
      ghost var dw := base.dataWrite;
      StoreIsPlaced(dw.codec, dw.Value(), dw.contents);
      NextId(base.stats, dw.chunklist, base.log);
      var findRes := base.FpFind(base.fp(chunk));
      if findRes.Some? {
        ProcessDuplicate(chunk, findRes.value);
        BooksGrow(dw.codec, sf, k, chunk, stats, list, log, base.stats, dw.chunklist, base.log);
        return Kept;
      }
      outcome := ProcessNew(chunk, header);
      if outcome == Kept {
        BooksGrow(dw.codec, sf, k, chunk, stats, list, log, base.stats, dw.chunklist, base.log);
      }
    }

    /** A chunk that is not stored yet. */
    method ProcessNew(chunk: seq<Byte>, header: bool) returns (outcome: Outcome)
      requires Valid() && |chunk| <= CONTAINER_MAX_SIZE && Lossless(base.dataWrite.codec)
      requires base.fp(chunk) !in base.fpIndex && chunk !in base.dataWrite.contents
      requires base.stats.uniquechunkNum == |base.dataWrite.chunklist| == |base.dataWrite.contents|
      modifies Repr()
      ensures base.dataWrite.filename == old(base.dataWrite.filename)
      ensures outcome == Kept ==> Valid() && base.NewEntered(chunk, header, old(base.log), old(base.dataWrite.contents), old(base.dataWrite.chunklist))
      ensures outcome == OutcomeOf(base.dataWrite.codec, sf, old(Knows()), chunk)
      ensures Knows() == if outcome == Kept then KnownNext(sf, old(Knows()), chunk) else old(Knows())
      ensures outcome == Kept ==>
                StoredAs(base.dataWrite.codec, FinesseDelta, base.dataWrite.chunklist[|old(base.dataWrite.chunklist)|], chunk,
                         BaseOf(sf, old(Knows()), chunk), old(base.dataWrite.contents))
    {
      hide StoredAs;
      hide Processor.Holding, StatsOk, IndexOk, BaseFor, AllJoined, Lossless;
      base.FpInsert(chunk);
      var basechunkID := None;
      if |chunk| > MIN_FEATURE_SIZE {
        basechunkID := SfFind(sf(chunk));
      }
      if basechunkID == None {
        ProcessBase(chunk, header);
        outcome := Kept;
      } else {
        outcome := ProcessDelta(chunk, header, basechunkID.value);
      }
    }

    /** The files of a run share the store and differ in the recipe name. */
    method StartFile(name: string)
      requires Valid()
      modifies base.dataWrite`filename
      ensures Valid() && base.dataWrite.filename == name
    {
      hide StoreOk, LogOk, FpOk, StatsOk, PoolOk, CacheAgrees, IndexOk;
      base.dataWrite.SetFilename(name);
    }

    /** ProcessTrace: the chunks of one file, in the order they were queued. */
    method ProcessTrace(pieces: seq<Piece>, ghost seen: set<seq<Byte>>, ghost isHeader: seq<Byte> -> bool) returns (outcome: Outcome)
      requires Valid() && Lossless(base.dataWrite.codec) && Separates(base.fp, seen)
      requires Fits(pieces, seen, isHeader) && AllIn(base.dataWrite.contents, seen)
      requires FlagsAgree(base.dataWrite.chunklist, base.dataWrite.contents, isHeader)
      modifies Repr()
      ensures outcome == Kept ==>
        && Valid() && AllIn(base.dataWrite.contents, seen)
        && FlagsAgree(base.dataWrite.chunklist, base.dataWrite.contents, isHeader)
        && base.log == old(base.log) + LogFor(old(base.dataWrite.filename), pieces)
      ensures outcome == RunOf(base.dataWrite.codec, sf, old(Knows()), PieceBytes(pieces))
      ensures outcome == Kept ==> Knows() == KnownAfter(sf, old(Knows()), PieceBytes(pieces))
      ensures outcome == Kept ==> Booked(base.dataWrite.codec, sf, old(Knows()), PieceBytes(pieces), old(base.stats), base.stats)
    {
      hide Processor.Holding, StoreOk, LogOk, FpOk, StatsOk, PoolOk, CacheAgrees, IndexOk, Lossless, OutcomeOf,
        KnownNext, PieceBytes, Counted, StoredAs, Booked;
      ghost var stats0 := base.stats;
      NothingBooked(base.dataWrite.codec, sf, Knows(), base.stats);
      assert PieceBytes(pieces[..0]) == [];
      ghost var dw := base.dataWrite;
      ghost var file, log, start := dw.filename, base.log, Knows();
      for i := 0 to |pieces|
        invariant Valid() && AllIn(dw.contents, seen) && FlagsAgree(dw.chunklist, dw.contents, isHeader)
        invariant dw.filename == file && base.log == log + LogFor(file, pieces[..i])
        invariant RunOf(dw.codec, sf, start, PieceBytes(pieces[..i])) == Kept && Knows() == KnownAfter(sf, start, PieceBytes(pieces[..i]))
        invariant Booked(dw.codec, sf, start, PieceBytes(pieces[..i]), stats0, base.stats)
      {
        ContentsPush(pieces, i);
        RunStops(dw.codec, sf, start, PieceBytes(pieces), i + 1);
        ghost var was, list, stats := dw.contents, dw.chunklist, base.stats;
        outcome := ProcessChunk(pieces[i].bytes, pieces[i].header);
        if outcome != Kept {
          return;
        }
        BookedPush(dw.codec, sf, start, PieceBytes(pieces[..i + 1]), stats0, stats, base.stats);
        FlagsStay(pieces[i].bytes, pieces[i].header, was, list, dw.contents, dw.chunklist, isHeader);
        assert LogFor(file, pieces[..i + 1]) == LogFor(file, pieces[..i]) + [Event(file, pieces[i].bytes, pieces[i].header)];
      }
      assert pieces[..|pieces|] == pieces;
      outcome := Kept;
    }
  }

  /** Balanced books before and after a chunk: one more entry is one more delta or base counted. */
  lemma BooksGrow(codec: Codec, sf: seq<Byte> -> Features, k: Known, chunk: seq<Byte>,
                  s: Stats, list: seq<Entry>, log: seq<Event>, t: Stats, entries: seq<Entry>, logged: seq<Event>)
    requires StatsOk(s, list, log) && StatsOk(t, entries, logged)
    requires if chunk in k.contents then entries == list
             else |entries| == |list| + 1 && entries[..|list|] == list
                  && StoredAs(codec, FinesseDelta, entries[|list|], chunk, BaseOf(sf, k, chunk), k.contents)
    ensures Counted(codec, sf, k, chunk, s, t)
  {
    hide BaseFor, Lz4Size;
  }

  lemma JoinOk(index: SfIndex, i: nat, key: Hash, id: nat, entries: seq<Entry>)
    requires IndexOk(index, entries) && i < 3 && id < |entries| && IsBase(entries[id].deltaFlag)
    ensures IndexOk(index[i := Joined(index[i], key, id)], entries)
  {
    assert key in index[i] ==> BucketOk(index[i][key], entries);
  }
}
