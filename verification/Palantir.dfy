/**
 The Palantir trace processor (src/method/palantir.cc): as Finesse, with three tiers of
 super-features and a delta kept only if it beats the average LZ4 ratio so far.
 */
module PalantirMethod {
  import opened Bytes
  import opened ContainerCache
  import opened ChunkStore
  import opened DataWriter
  import opened AbsMethod
  import opened PalantirIndex
  import opened PalantirOutcome

  /** LZ4Ratio is the ratio of all bases so far, 2 before the first. `ori` is their total size. */
  ghost predicate RatioOk(ratio: real, ori: nat, s: Stats) {
    && ori == s.basechunkSize + s.localReduct
    && (s.basechunkNum > 0 ==> s.basechunkSize > 0)
    && ratio == if s.basechunkNum == 0 then 2.0 else ori as real / s.basechunkSize as real
  }

  lemma RatioAtLeastOne(ratio: real, ori: nat, s: Stats)
    requires RatioOk(ratio, ori, s)
    ensures ratio >= 1.0
  {
    if s.basechunkNum > 0 {
      QuotientAtLeast(ori as real, s.basechunkSize as real, 1.0);
    }
  }

  lemma QuotientAtLeast(a: real, b: real, r: real)
    requires b > 0.0 && a >= r * b
    ensures a / b >= r
  {
  }

  /** A delta that passes the test is not longer than its chunk. */
  lemma AcceptedFits(size: nat, save: nat, ratio: real)
    requires save > 0 && ratio >= 1.0 && size as real / save as real >= ratio
    ensures save <= size
  {
    var q := size as real / save as real;
    assert q * save as real == size as real;
    assert (q - 1.0) * save as real >= 0.0;
  }

  /** The test on real quotients is one on whole numbers. */
  lemma PaysIff(ratio: real, ori: nat, s: Stats, size: nat, n: nat)
    requires RatioOk(ratio, ori, s) && n > 0
    ensures size as real / n as real >= ratio <==> Pays(size, n, s, ori)
  {
    if s.basechunkNum == 0 {
      QuotientsCompare(size, n, 2, 1);
    } else {
      QuotientsCompare(size, n, ori, s.basechunkSize);
    }
  }

  lemma QuotientsCompare(a: nat, b: nat, c: nat, d: nat)
    requires b > 0 && d > 0
    ensures a as real / b as real >= c as real / d as real <==> a * d >= b * c
  {
    var x, y := a as real / b as real, c as real / d as real;
    var p, q := b as real, d as real;
    assert x * p == a as real && y * q == c as real;
    ProductOf(a, d);
    ProductOf(b, c);
    assert p * q > 0.0;
    Scaled(x, y, p * q);
    assert x * (p * q) == (x * p) * q;
    assert y * (p * q) == p * (y * q);
  }

  lemma ProductOf(a: nat, b: nat)
    ensures (a * b) as real == a as real * b as real
  {
  }

  lemma Scaled(x: real, y: real, z: real)
    requires z > 0.0
    ensures x >= y <==> x * z >= y * z
  {
  }

  lemma RatioNoBase(ratio: real, ori: nat, s: Stats, size: nat, save: nat)
    requires RatioOk(ratio, ori, s) && save <= size
    ensures RatioOk(ratio, ori, AddLogical(AddDedup(s, size), size))
    ensures RatioOk(ratio, ori, AddLogical(AddUnique(AddDelta(s, size, save), save), size))
  {
  }

  lemma RatioBase(ratio: real, ori: nat, s: Stats, size: nat, save: nat)
    requires RatioOk(ratio, ori, s) && 0 < save <= size
    ensures AddBase(s, size, save).basechunkSize > 0
    ensures RatioOk((ori + size) as real / AddBase(s, size, save).basechunkSize as real, ori + size,
                    AddLogical(AddUnique(AddBase(s, size, save), save), size))
  {
  }

  /** Duplicates and deltas add nothing to the size of the bases, a base adds its own. */
  lemma SavedStays(s: Stats, size: nat, save: nat)
    requires save <= size
    ensures AddLogical(AddDedup(s, size), size).basechunkSize == s.basechunkSize
    ensures AddLogical(AddUnique(AddDelta(s, size, save), save), size).basechunkSize == s.basechunkSize
  {
  }

  lemma SavedGrows(s: Stats, size: nat, save: nat)
    requires save <= size
    ensures AddLogical(AddUnique(AddBase(s, size, save), save), size).basechunkSize == s.basechunkSize + save
    ensures AddUnique(AddBase(s, size, save), save).basechunkSize == s.basechunkSize + save
  {
  }

  lemma UniqueKeepsBase(s: Stats, save: nat)
    ensures AddUnique(s, save).basechunkSize == s.basechunkSize
  {
  }

  class Palantir {
    const base: Processor
    const sf: seq<Byte> -> SuperFeatures
    var index: Tiers
    var sfNum: int
    var basechunkOriSize: nat
    var lz4Ratio: real

    ghost function Repr(): set<object> {
      {this} + base.Repr()
    }

    /** What decides the fate of the next chunk. */
    ghost function Knows(): Known
      reads this, base, base.dataWrite
    {
      Known(base.dataWrite.contents, BaseFlags(base.dataWrite.chunklist), IndexesOf(index), lz4Ratio, basechunkOriSize,
            base.stats.basechunkSize)
    }

    ghost predicate Valid()
      reads Repr()
    {
      && this !in base.Repr() && base.Valid()
      && TiersOk(index, base.dataWrite.chunklist)
      && RatioOk(lz4Ratio, basechunkOriSize, base.stats)
    }

    constructor (codec: Codec, fp: seq<Byte> -> Hash, sf: seq<Byte> -> SuperFeatures)
      ensures Valid() && fresh(Repr()) && base.fp == fp && this.sf == sf && base.dataWrite.codec == codec
      ensures base.log == [] && base.dataWrite.contents == [] && base.dataWrite.chunklist == [] && base.stats == NoStats
      ensures Knows() == Nothing
    {
      hide FpOk, LogOk, StatsOk, StoreOk, PoolOk, CacheAgrees, RatioOk, TiersOk;
      base := new Processor(codec, fp);
      this.sf := sf;
      index, sfNum := Tiers(map[], map[], map[], 0, 0, 0), 0;
      basechunkOriSize, lz4Ratio := 0, 2.0;
      new;
      NoTiers(index, base.dataWrite.chunklist);
      FirstRatio(lz4Ratio, basechunkOriSize, base.stats);
    }

    /** The end of a file's trace. */
    method CloseVersion()
      requires Valid()
      modifies this`index, this`sfNum
      ensures Valid() && index.version == old(index.version) + 1 && sfNum == index.sfNew - index.sfDelete
      ensures IndexesOf(index) == AllCleaned(old(IndexesOf(index)))
    {
      hide FpOk, LogOk, StatsOk, StoreOk, PoolOk, CacheAgrees, RatioOk, TiersOk, CleanedOf;
      index := CleanIndex(index, base.dataWrite.chunklist);
      sfNum := index.sfNew - index.sfDelete;
    }

    /** The chunk is known. A known base refreshes its buckets. */
    method ProcessDuplicate(chunk: seq<Byte>, findRes: nat)
      requires Valid() && findRes < |base.dataWrite.contents| && base.dataWrite.contents[findRes] == chunk
      requires findRes == Position(base.dataWrite.contents, chunk)
      modifies this`index, base`stats, base`log,
        base.dataWrite`recipeMap, base.dataWrite`recipeMapHeader
      ensures Valid() && findRes < |base.dataWrite.chunklist|
      ensures Knows() == Again(sf, old(Knows()), chunk)
      ensures base.log == old(base.log) + [Event(base.dataWrite.filename, chunk, base.dataWrite.chunklist[findRes].headerFlag)]
    {
      hide Processor.Valid, TiersOk, RatioOk, AddLogical, AddDedup, AllPut, Position, IndexesOf, BaseFlags;
      ghost var dw := base.dataWrite;
      EqualLengths();
      Refresh(chunk, findRes);
      SavedStays(base.stats, |chunk|, 0);
      RatioNoBase(lz4Ratio, basechunkOriSize, base.stats, |chunk|, 0);
      base.RecordDuplicate(findRes);
    }

    lemma EqualLengths()
      requires base.Valid()
      ensures |base.dataWrite.chunklist| == |base.dataWrite.contents|
    {
      hide LogOk, FpOk, StatsOk, PoolOk, CacheAgrees;
      StoreIsPlaced(base.dataWrite.codec, base.dataWrite.Value(), base.dataWrite.contents);
    }

    method Refresh(chunk: seq<Byte>, id: nat)
      requires TiersOk(index, base.dataWrite.chunklist) && id < |base.dataWrite.chunklist|
      modifies this`index
      ensures TiersOk(index, base.dataWrite.chunklist)
      ensures IndexesOf(index) == if BaseFlags(base.dataWrite.chunklist)[id] then AllPut(old(IndexesOf(index)), sf(chunk), id) else old(IndexesOf(index))
    {
      hide TiersOk, AllPut, Inserted, IndexesOf;
      var tmpChunk := base.dataWrite.chunklist[id];
      if tmpChunk.deltaFlag == NoDelta || tmpChunk.deltaFlag == NoLz4 {
        index := SfInsert(index, sf(chunk), id, base.dataWrite.chunklist);
      }
    }

    /** A base that was just stored joins the index. */
    method IndexBase(chunk: seq<Byte>, id: nat, ghost list: seq<Entry>)
      requires |base.dataWrite.chunklist| == |list| + 1 && base.dataWrite.chunklist[..|list|] == list
      requires TiersOk(index, list) && IsBaseId(id, base.dataWrite.chunklist)
      modifies this`index
      ensures TiersOk(index, base.dataWrite.chunklist) && index.version == old(index.version)
      ensures IndexesOf(index) == AllPut(old(IndexesOf(index)), sf(chunk), id)
    {
      hide TiersOk, AllPut, Inserted, IndexesOf;
      TiersGrow(index, list, base.dataWrite.chunklist);
      index := SfInsert(index, sf(chunk), id, base.dataWrite.chunklist);
    }

    /** A new base: indexed, counted in the ratio, stored. */
    method ProcessBase(chunk: seq<Byte>, header: bool)
      requires this !in base.Repr() && base.Holding([chunk]) && StatsOk(base.stats, base.dataWrite.chunklist, base.log)
      requires TiersOk(index, base.dataWrite.chunklist) && RatioOk(lz4Ratio, basechunkOriSize, base.stats)
      requires 0 < |chunk| <= CONTAINER_MAX_SIZE && |base.dataWrite.contents| == |base.dataWrite.chunklist|
      modifies Repr()
      ensures base.dataWrite.filename == old(base.dataWrite.filename) && index.version == old(index.version)
      ensures Valid() && base.NewEntered(chunk, header, old(base.log), old(base.dataWrite.contents), old(base.dataWrite.chunklist))
      ensures Knows() == AsBase(sf, old(Knows()), chunk)
      ensures StoredAs(base.dataWrite.codec, Delta, base.dataWrite.chunklist[|old(base.dataWrite.chunklist)|],
                       chunk, None, old(base.dataWrite.contents))
    {
      hide Processor.Holding, StatsOk, TiersOk, RatioOk, AddBase, AddUnique, AddLogical, Inserted, AllPut, IndexesOf, BaseFlags,
        Lz4Size, Lz4Flag, StoredAs, AsBase;
      ghost var dw := base.dataWrite;
      ghost var list, log, stats := dw.chunklist, base.log, base.stats;
      NextId(stats, list, log);
      var id := base.stats.uniquechunkNum;
      var saveSize := base.StoreBase(chunk, header);
      BaseStored(dw.codec, Delta, dw.chunklist[id], chunk, old(dw.contents));
      IndexBase(chunk, id, list);
      EntriesPush(list, dw.chunklist);
      CountBase(chunk, saveSize, stats);
      assert dw.chunklist == list + [dw.chunklist[id]];
      BaseBalances(stats, list, log, dw.chunklist[id], Event(dw.filename, chunk, header));
      base.Record(id);
      AsBaseIs(sf, old(Knows()), chunk, Knows());
    }

    /** The average LZ4 ratio with one more base. */
    method CountBase(chunk: seq<Byte>, saveSize: nat, ghost stats: Stats)
      requires 0 < saveSize <= |chunk| && RatioOk(lz4Ratio, basechunkOriSize, stats)
      requires base.stats == AddUnique(AddBase(stats, |chunk|, saveSize), saveSize)
      modifies this`basechunkOriSize, this`lz4Ratio
      ensures basechunkOriSize == old(basechunkOriSize) + |chunk|
      ensures stats.basechunkSize + saveSize > 0
      ensures lz4Ratio == basechunkOriSize as real / (stats.basechunkSize + saveSize) as real
      ensures RatioOk(lz4Ratio, basechunkOriSize, AddLogical(base.stats, |chunk|))
      ensures AddLogical(base.stats, |chunk|).basechunkSize == stats.basechunkSize + saveSize
    {
      hide RatioOk, AddBase, AddUnique, AddLogical;
      SavedGrows(stats, |chunk|, saveSize);
      RatioBase(lz4Ratio, basechunkOriSize, stats, |chunk|, saveSize);
      UniqueKeepsBase(AddBase(stats, |chunk|, saveSize), saveSize);
      basechunkOriSize := basechunkOriSize + |chunk|;
      lz4Ratio := basechunkOriSize as real / base.stats.basechunkSize as real;
    }

    /** A similar base exists. Its delta is kept if it does better than LZ4 does on average;
        otherwise the chunk becomes a base. A kept delta always fits the chunk's buffer. */
    method ProcessDelta(chunk: seq<Byte>, header: bool, basechunkid: nat) returns (outcome: Outcome)
      requires this !in base.Repr() && base.Holding([chunk]) && StatsOk(base.stats, base.dataWrite.chunklist, base.log)
      requires TiersOk(index, base.dataWrite.chunklist) && RatioOk(lz4Ratio, basechunkOriSize, base.stats)
      requires 0 < |chunk| <= CONTAINER_MAX_SIZE && IsBaseId(basechunkid, base.dataWrite.chunklist)
      requires Lossless(base.dataWrite.codec)
      modifies Repr()
      ensures base.dataWrite.filename == old(base.dataWrite.filename) && index.version == old(index.version)
      ensures outcome == Kept ==> Valid() && base.NewEntered(chunk, header, old(base.log), old(base.dataWrite.contents), old(base.dataWrite.chunklist))
      ensures outcome != Kept ==> base.Holding([chunk]) && base.log == old(base.log) && base.dataWrite.chunklist == old(base.dataWrite.chunklist)
      ensures basechunkid < |old(base.dataWrite.contents)|
      ensures var n := |base.dataWrite.codec.encode(chunk, old(base.dataWrite.contents)[basechunkid])|;
              && outcome == (if n == 0 then DeltaError else Kept)
              && (outcome == Kept ==>
                    var taken := if Pays(|chunk|, n, old(base.stats), old(basechunkOriSize)) then Some(basechunkid) else None;
                    StoredAs(base.dataWrite.codec, Delta, base.dataWrite.chunklist[|old(base.dataWrite.chunklist)|],
                             chunk, taken, old(base.dataWrite.contents)))
      ensures LookupOf(IndexesOf(old(index)), sf(chunk)) == Found(basechunkid) ==>
              Knows() == if outcome != Kept then old(Knows())
                         else if IsDelta(base.dataWrite.codec, sf, old(Knows()), chunk) then AsDelta(old(Knows()), chunk)
                         else AsBase(sf, old(Knows()), chunk)
    {
      hide StoreOk, LogOk, FpOk, StatsOk, PoolOk, CacheAgrees, TiersOk, RatioOk, Lossless, BaseFlags, AsDelta, AsBase, Pays, StoredAs;
      ghost var dw := base.dataWrite;
      StoreIsPlaced(dw.codec, dw.Value(), dw.contents);
      ghost var list := dw.chunklist;
      RatioAtLeastOne(lz4Ratio, basechunkOriSize, base.stats);
      var deltachunk := base.EncodeAgainst(chunk, basechunkid);
      if |deltachunk| == 0 {
        return DeltaError;
      }
      PaysIff(lz4Ratio, basechunkOriSize, base.stats, |chunk|, |deltachunk|);
      if |chunk| as real / |deltachunk| as real < lz4Ratio {
        ProcessBase(chunk, header);
      } else {
        AcceptedFits(|chunk|, |deltachunk|, lz4Ratio);
        DecodesBack(dw.codec, chunk, dw.contents[basechunkid]);
        KeepDelta(chunk, header, basechunkid, deltachunk);
      }
      return Kept;
    }

    method KeepDelta(chunk: seq<Byte>, header: bool, basechunkid: nat, deltachunk: seq<Byte>)
      requires this !in base.Repr() && base.Holding([chunk]) && StatsOk(base.stats, base.dataWrite.chunklist, base.log)
      requires TiersOk(index, base.dataWrite.chunklist) && RatioOk(lz4Ratio, basechunkOriSize, base.stats)
      requires 0 < |deltachunk| <= |chunk| <= CONTAINER_MAX_SIZE && IsBaseId(basechunkid, base.dataWrite.chunklist)
      requires |base.dataWrite.chunklist| == |base.dataWrite.contents|
      requires base.dataWrite.codec.decode(deltachunk, base.dataWrite.contents[basechunkid]) == chunk
      modifies base.Repr()
      ensures base.dataWrite.filename == old(base.dataWrite.filename)
      ensures Valid() && base.NewEntered(chunk, header, old(base.log), old(base.dataWrite.contents), old(base.dataWrite.chunklist))
      ensures Knows() == AsDelta(old(Knows()), chunk)
      ensures deltachunk == base.dataWrite.codec.encode(chunk, old(base.dataWrite.contents)[basechunkid]) ==>
                StoredAs(base.dataWrite.codec, Delta, base.dataWrite.chunklist[|old(base.dataWrite.chunklist)|],
                         chunk, Some(basechunkid), old(base.dataWrite.contents))
    {
      hide Processor.Holding, StoreOk, LogOk, FpOk, StatsOk, PoolOk, CacheAgrees, TiersOk, RatioOk, AddDelta, AddUnique, AddLogical;
      ghost var dw := base.dataWrite;
      ghost var list, log, stats := dw.chunklist, base.log, base.stats;
      NextId(stats, list, log);
      base.StoreDelta(chunk, header, deltachunk, basechunkid, Delta);
      TiersGrow(index, list, dw.chunklist);
      assert dw.chunklist == list + [dw.chunklist[|list|]];
      DeltaBalances(stats, list, log, dw.chunklist[|list|], Event(dw.filename, chunk, header));
      EntriesPush(list, dw.chunklist);
      SavedStays(stats, |chunk|, |deltachunk|);
      RatioNoBase(lz4Ratio, basechunkOriSize, stats, |chunk|, |deltachunk|);
      base.Record(|base.dataWrite.chunklist| - 1);
    }

    /** One round of ProcessTrace. */
    method ProcessChunk(chunk: seq<Byte>, header: bool) returns (outcome: Outcome)
      requires Valid() && 0 < |chunk| <= CONTAINER_MAX_SIZE && Lossless(base.dataWrite.codec)
      requires forall i :: 0 <= i < |base.dataWrite.contents| && base.fp(base.dataWrite.contents[i]) == base.fp(chunk)
                 ==> base.dataWrite.contents[i] == chunk
      modifies Repr()
      ensures base.dataWrite.filename == old(base.dataWrite.filename)
      ensures outcome == Kept ==> Valid() && base.Entered(chunk, header, old(base.log), old(base.dataWrite.contents), old(base.dataWrite.chunklist))
      ensures outcome == OutcomeOf(base.dataWrite.codec, sf, old(Knows()), chunk)
      ensures Knows() == if outcome != Kept then old(Knows())
                         else KnownNext(base.dataWrite.codec, sf, old(Knows()), chunk)
      ensures outcome != Kept ==> base.dataWrite.chunklist == old(base.dataWrite.chunklist)
      ensures outcome == Kept && chunk !in old(base.dataWrite.contents) ==>
                StoredAs(base.dataWrite.codec, Delta, base.dataWrite.chunklist[|old(base.dataWrite.chunklist)|], chunk,
                         BaseOf(base.dataWrite.codec, sf, old(Knows()), old(base.stats), chunk), old(base.dataWrite.contents))
    {
      hide StoredAs, BaseOf;
      hide StoreOk, LogOk, StatsOk, PoolOk, CacheAgrees, TiersOk, RatioOk, Lossless, LookupOf, Again, AsBase, AsDelta, FpOk, Position;
      ghost var dw := base.dataWrite;
      ghost var list := dw.chunklist;
      StoreIsPlaced(dw.codec, dw.Value(), dw.contents);
      NextId(base.stats, dw.chunklist, base.log);
      var findRes := base.FpFind(base.fp(chunk));
      if findRes.Some? {
        assert dw.contents + [] == dw.contents;
        PositionIsId(base.fp, base.fpIndex, dw.contents, findRes.value);
        ProcessDuplicate(chunk, findRes.value);
        return Kept;
      }
      outcome := ProcessNew(chunk, header);
      if outcome == Kept {
        EntriesPush(list, dw.chunklist);
      }
    }

    /** A chunk that is not stored yet. */
    method ProcessNew(chunk: seq<Byte>, header: bool) returns (outcome: Outcome)
      requires Valid() && 0 < |chunk| <= CONTAINER_MAX_SIZE && Lossless(base.dataWrite.codec)
      requires base.fp(chunk) !in base.fpIndex && chunk !in base.dataWrite.contents
      requires base.stats.uniquechunkNum == |base.dataWrite.chunklist| == |base.dataWrite.contents|
      modifies Repr()
      ensures base.dataWrite.filename == old(base.dataWrite.filename)
      ensures outcome == Kept ==> Valid() && base.NewEntered(chunk, header, old(base.log), old(base.dataWrite.contents), old(base.dataWrite.chunklist))
      ensures outcome != Kept ==> base.dataWrite.chunklist == old(base.dataWrite.chunklist)
      ensures outcome == Kept ==>
                StoredAs(base.dataWrite.codec, Delta, base.dataWrite.chunklist[|old(base.dataWrite.chunklist)|], chunk,
                         BaseOf(base.dataWrite.codec, sf, old(Knows()), old(base.stats), chunk), old(base.dataWrite.contents))
      ensures outcome == OutcomeOf(base.dataWrite.codec, sf, old(Knows()), chunk)
      ensures Knows() == if outcome != Kept then old(Knows())
                         else KnownNext(base.dataWrite.codec, sf, old(Knows()), chunk)
    {
      hide Processor.Holding, StoreOk, LogOk, FpOk, StatsOk, PoolOk, CacheAgrees, TiersOk, RatioOk, Lossless, LookupOf,
        AsBase, AsDelta, BaseFlags, Pays, StoredAs;
      base.FpInsert(chunk);
      var basechunkid := SfFind(index, sf(chunk), base.dataWrite.chunklist);
      if basechunkid.EmptyBucket? {
        return NoEntry;
      }
      if basechunkid.Found? {
        outcome := ProcessDelta(chunk, header, basechunkid.id);
      } else {
        ProcessBase(chunk, header);
        outcome := Kept;
      }
    }

    /** The files of a run share the store and differ in the recipe name. */
    method StartFile(name: string)
      requires Valid()
      modifies base.dataWrite`filename
      ensures Valid() && base.dataWrite.filename == name
    {
      hide StoreOk, LogOk, FpOk, StatsOk, PoolOk, CacheAgrees, TiersOk, RatioOk;
      base.dataWrite.SetFilename(name);
    }

    /** ProcessTrace: the chunks of one file, then the index is cleaned for the next version. */
    method ProcessTrace(pieces: seq<Piece>, ghost seen: set<seq<Byte>>, ghost isHeader: seq<Byte> -> bool) returns (outcome: Outcome)
      requires Valid() && Lossless(base.dataWrite.codec) && Separates(base.fp, seen)
      requires Fits(pieces, seen, isHeader) && AllIn(base.dataWrite.contents, seen)
      requires forall k :: 0 <= k < |pieces| ==> pieces[k].bytes != []
      requires FlagsAgree(base.dataWrite.chunklist, base.dataWrite.contents, isHeader)
      modifies Repr()
      ensures outcome == Kept ==>
        && Valid() && AllIn(base.dataWrite.contents, seen)
        && FlagsAgree(base.dataWrite.chunklist, base.dataWrite.contents, isHeader)
        && base.log == old(base.log) + LogFor(old(base.dataWrite.filename), pieces)
      ensures outcome == RunOf(base.dataWrite.codec, sf, old(Knows()), Takes(PieceBytes(pieces)) + [EndOfFile])
      ensures outcome == Kept ==>
        Knows() == KnownAfter(base.dataWrite.codec, sf, old(Knows()), Takes(PieceBytes(pieces)) + [EndOfFile])
    {
      hide Processor.Holding, StoreOk, LogOk, FpOk, StatsOk, PoolOk, CacheAgrees, TiersOk, RatioOk, Lossless, OutcomeOf, KnownNext,
        PieceBytes, Takes, BaseFlags, AllCleaned, RunOf, KnownAfter, StoredAs, BaseOf, IndexesOf;
      ghost var dw := base.dataWrite;
      ghost var file, log, start := dw.filename, base.log, Knows();
      ghost var all := Takes(PieceBytes(pieces));
      NoSteps(dw.codec, sf, start);
      for i := 0 to |pieces|
        invariant Valid() && AllIn(dw.contents, seen) && FlagsAgree(dw.chunklist, dw.contents, isHeader)
        invariant dw.filename == file && base.log == log + LogFor(file, pieces[..i])
        invariant RunOf(dw.codec, sf, start, all[..i]) == Kept
        invariant Knows() == KnownAfter(dw.codec, sf, start, all[..i])
      {
        TakesAt(pieces, i);
        ghost var was, list := dw.contents, dw.chunklist;
        outcome := ProcessChunk(pieces[i].bytes, pieces[i].header);
        RunPush(dw.codec, sf, start, all[..i], Take(pieces[i].bytes));
        RunStops(dw.codec, sf, start, all + [EndOfFile], i + 1);
        if outcome != Kept {
          return;
        }
        FlagsStay(pieces[i].bytes, pieces[i].header, was, list, dw.contents, dw.chunklist, isHeader);
        assert LogFor(file, pieces[..i + 1]) == LogFor(file, pieces[..i]) + [Event(file, pieces[i].bytes, pieces[i].header)];
      }
      assert pieces[..|pieces|] == pieces;
      assert all[..|pieces|] == all;
      RunPush(dw.codec, sf, start, all, EndOfFile);
      CloseVersion();
      outcome := Kept;
    }
  }

  /** The ratio with one more base, from its new total sizes. */
  lemma AsBaseIs(sf: Extract, k: Known, chunk: seq<Byte>, l: Known)
    requires l.contents == k.contents + [chunk] && l.bases == k.bases + [true]
    requires l.indexes == AllPut(k.indexes, sf(chunk), |k.contents|)
    requires l.ori == k.ori + |chunk| && l.saved == k.saved + Lz4Size(chunk) && l.saved > 0
    requires l.ratio == l.ori as real / l.saved as real
    ensures l == AsBase(sf, k, chunk)
  {
    hide AllPut, Lz4Size;
  }

  lemma FirstRatio(ratio: real, ori: nat, s: Stats)
    requires ratio == 2.0 && ori == 0 && s == NoStats
    ensures RatioOk(ratio, ori, s)
  {
  }
}
