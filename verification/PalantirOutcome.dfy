/**
 What Palantir does with a chunk, as a function of the stored contents, the indexes and the average
 LZ4 ratio (src/method/palantir.cc). A run is a sequence of chunks and ends of files.
 */
module PalantirOutcome {
  import opened Bytes
  import opened ChunkStore
  import opened AbsMethod
  import opened Lz4Format
  import opened PalantirIndex

  type Extract = seq<Byte> -> SuperFeatures

  datatype Known = Known(contents: seq<seq<Byte>>, bases: seq<bool>, indexes: Indexes, ratio: real, ori: nat, saved: nat)

  const Nothing := Known([], [], Indexes(map[], map[], map[], 0), 2.0, 0, 0)

  function At(contents: seq<seq<Byte>>, i: nat): seq<Byte> {
    if i < |contents| then contents[i] else []
  }

  /** The lookup decides, and the length of the delta if there is a base. */
  function OutcomeOf(codec: Codec, sf: Extract, k: Known, chunk: seq<Byte>): Outcome {
    if chunk in k.contents then Kept
    else
      match LookupOf(k.indexes, sf(chunk))
      case EmptyBucket => NoEntry
      case NotFound => Kept
      case Found(b) => if |codec.encode(chunk, At(k.contents, b))| == 0 then DeltaError else Kept
  }

  /** A chunk with a similar base is a delta if that reaches the average ratio. */
  function IsDelta(codec: Codec, sf: Extract, k: Known, chunk: seq<Byte>): bool {
    match LookupOf(k.indexes, sf(chunk))
    case Found(b) =>
      var n := |codec.encode(chunk, At(k.contents, b))|;
      n > 0 && |chunk| as real / n as real >= k.ratio
    case _ => false
  }

  /** The delta does at least as well as LZ4 does on all bases so far, in whole numbers; before the first
      base it has to halve the chunk. */
  predicate Pays(size: nat, n: nat, s: Stats, ori: nat) {
    n > 0 && if s.basechunkNum == 0 then size >= 2 * n else size * s.basechunkSize >= n * ori
  }

  /** The id of the chunk that a new chunk is stored as a delta against, if any. */
  function BaseOf(codec: Codec, sf: Extract, k: Known, s: Stats, chunk: seq<Byte>): Option<nat> {
    match LookupOf(k.indexes, sf(chunk))
    case Found(b) => if Pays(|chunk|, |codec.encode(chunk, At(k.contents, b))|, s, k.ori) then Some(b) else None
    case _ => None
  }

  function Position(contents: seq<seq<Byte>>, chunk: seq<Byte>): nat {
    if contents == [] || contents[0] == chunk then 0 else 1 + Position(contents[1..], chunk)
  }

  /** A content is stored once, so its first position is its id. */
  lemma {:induction false} PositionIsId(fp: seq<Byte> -> Hash, index: map<Hash, nat>, contents: seq<seq<Byte>>, i: nat)
    requires FpOk(fp, index, contents) && i < |contents|
    ensures Position(contents, contents[i]) == i
  {
    forall j | 0 <= j < i ensures contents[j] != contents[i] {
      assert index[fp(contents[j])] == j;
    }
    FirstPosition(contents, i);
  }

  lemma {:induction false} FirstPosition(contents: seq<seq<Byte>>, i: nat)
    requires i < |contents| && forall j :: 0 <= j < i ==> contents[j] != contents[i]
    ensures Position(contents, contents[i]) == i
    decreases i
  {
    if i > 0 {
      assert contents[0] != contents[i] && contents[1..][i - 1] == contents[i];
      assert forall j :: 0 <= j < i - 1 ==> contents[1..][j] == contents[j + 1];
      FirstPosition(contents[1..], i - 1);
    }
  }

  function Again(sf: Extract, k: Known, chunk: seq<Byte>): Known {
    var id := Position(k.contents, chunk);
    if id < |k.bases| && k.bases[id] then k.(indexes := AllPut(k.indexes, sf(chunk), id)) else k
  }

  function AsDelta(k: Known, chunk: seq<Byte>): Known {
    k.(contents := k.contents + [chunk], bases := k.bases + [false])
  }

  ghost function AsBase(sf: Extract, k: Known, chunk: seq<Byte>): Known {
    var save := Lz4Size(chunk);
    Known(k.contents + [chunk], k.bases + [true], AllPut(k.indexes, sf(chunk), |k.contents|),
          if k.saved + save == 0 then k.ratio else (k.ori + |chunk|) as real / (k.saved + save) as real,
          k.ori + |chunk|, k.saved + save)
  }

  /** What is known after a chunk was kept. */
  ghost function KnownNext(codec: Codec, sf: Extract, k: Known, chunk: seq<Byte>): Known {
    if chunk in k.contents then Again(sf, k, chunk)
    else if IsDelta(codec, sf, k, chunk) then AsDelta(k, chunk)
    else AsBase(sf, k, chunk)
  }

  // ----- runs ----------------------------------------------------------------------------------

  datatype Step = Take(chunk: seq<Byte>) | EndOfFile

  function BaseFlags(entries: seq<Entry>): (r: seq<bool>)
    ensures |r| == |entries|
  {
    seq(|entries|, i requires 0 <= i < |entries| => IsBase(entries[i].deltaFlag))
  }

  lemma EntriesPush(list: seq<Entry>, entries: seq<Entry>)
    requires |entries| == |list| + 1 && entries[..|list|] == list
    ensures BaseFlags(entries) == BaseFlags(list) + [IsBase(entries[|list|].deltaFlag)]
  {
    assert forall i :: 0 <= i < |list| ==> entries[i] == entries[..|list|][i];
  }

  function StepOutcome(codec: Codec, sf: Extract, k: Known, s: Step): Outcome {
    match s
    case Take(chunk) => OutcomeOf(codec, sf, k, chunk)
    case EndOfFile => Kept
  }

  ghost function StepNext(codec: Codec, sf: Extract, k: Known, s: Step): Known {
    match s
    case Take(chunk) => KnownNext(codec, sf, k, chunk)
    case EndOfFile => k.(indexes := AllCleaned(k.indexes))
  }

  ghost function KnownAfter(codec: Codec, sf: Extract, k: Known, steps: seq<Step>): Known {
    if steps == [] then k
    else StepNext(codec, sf, KnownAfter(codec, sf, k, steps[..|steps| - 1]), steps[|steps| - 1])
  }

  /** The outcome of a run: that of its first step that fails. */
  ghost function RunOf(codec: Codec, sf: Extract, k: Known, steps: seq<Step>): Outcome {
    if steps == [] then Kept
    else
      var n := |steps| - 1;
      var before := RunOf(codec, sf, k, steps[..n]);
      if before != Kept then before else StepOutcome(codec, sf, KnownAfter(codec, sf, k, steps[..n]), steps[n])
  }

  lemma NoSteps(codec: Codec, sf: Extract, k: Known)
    ensures KnownAfter(codec, sf, k, []) == k && RunOf(codec, sf, k, []) == Kept
  {
  }

  lemma RunPush(codec: Codec, sf: Extract, k: Known, steps: seq<Step>, s: Step)
    ensures KnownAfter(codec, sf, k, steps + [s]) == StepNext(codec, sf, KnownAfter(codec, sf, k, steps), s)
    ensures RunOf(codec, sf, k, steps + [s])
         == if RunOf(codec, sf, k, steps) != Kept then RunOf(codec, sf, k, steps)
            else StepOutcome(codec, sf, KnownAfter(codec, sf, k, steps), s)
  {
    assert (steps + [s])[..|steps|] == steps;
  }

  lemma {:induction false} RunConcat(codec: Codec, sf: Extract, k: Known, a: seq<Step>, b: seq<Step>)
    ensures KnownAfter(codec, sf, k, a + b) == KnownAfter(codec, sf, KnownAfter(codec, sf, k, a), b)
    ensures RunOf(codec, sf, k, a + b)
         == if RunOf(codec, sf, k, a) != Kept then RunOf(codec, sf, k, a)
            else RunOf(codec, sf, KnownAfter(codec, sf, k, a), b)
    decreases |b|
  {
    hide StepNext, StepOutcome;
    if b == [] {
      assert a + b == a;
    } else {
      var n := |b| - 1;
      assert (a + b)[..|a| + n] == a + b[..n];
      RunConcat(codec, sf, k, a, b[..n]);
    }
  }

  function Takes(chunks: seq<seq<Byte>>): (r: seq<Step>)
    ensures |r| == |chunks|
  {
    seq(|chunks|, i requires 0 <= i < |chunks| => Take(chunks[i]))
  }

  lemma TakesAt(pieces: seq<Piece>, i: nat)
    requires i < |pieces|
    ensures Takes(PieceBytes(pieces))[..i + 1] == Takes(PieceBytes(pieces))[..i] + [Take(pieces[i].bytes)]
    ensures (Takes(PieceBytes(pieces)) + [EndOfFile])[..i + 1] == Takes(PieceBytes(pieces))[..i + 1]
  {
  }

  /** A run that stops keeps its outcome, whatever follows. */
  lemma {:induction false} RunStops(codec: Codec, sf: Extract, k: Known, steps: seq<Step>, i: nat)
    requires i <= |steps|
    ensures RunOf(codec, sf, k, steps[..i]) != Kept ==> RunOf(codec, sf, k, steps) == RunOf(codec, sf, k, steps[..i])
    decreases |steps|
  {
    if i == |steps| {
      assert steps[..i] == steps;
    } else {
      var n := |steps| - 1;
      RunStops(codec, sf, k, steps[..n], i);
      assert steps[..n][..i] == steps[..i];
    }
  }

  /** The steps of a backup run: the chunks of each file and its end. */
  function StepsOf(files: seq<seq<seq<Byte>>>): seq<Step> {
    if files == [] then [] else StepsOf(files[..|files| - 1]) + (Takes(files[|files| - 1]) + [EndOfFile])
  }

  function Ends(steps: seq<Step>): nat {
    if steps == [] then 0 else Ends(steps[..|steps| - 1]) + if steps[|steps| - 1].EndOfFile? then 1 else 0
  }

  // ----- when a run keeps everything -----------------------------------------------------------

  /** The chunk is known, or the lookup meets no emptied bucket and the base it finds, if any, gives a
      delta that is not empty. */
  ghost predicate StepFits(codec: Codec, sf: Extract, k: Known, s: Step) {
    match s
    case EndOfFile => true
    case Take(chunk) =>
      chunk in k.contents ||
      (&& !MeetsEmptiedFirst(k.indexes, sf(chunk))
       && (forall b :: LookupOf(k.indexes, sf(chunk)) == Found(b) ==> codec.encode(chunk, At(k.contents, b)) != []))
  }

  lemma StepFitsIff(codec: Codec, sf: Extract, k: Known, s: Step)
    ensures StepOutcome(codec, sf, k, s) == Kept <==> StepFits(codec, sf, k, s)
  {
    hide LookupOf, MeetsEmptiedFirst;
    if s.Take? {
      EmptyIff(k.indexes, sf(s.chunk));
    }
  }

  /** A run keeps every chunk exactly if at each of its chunks the lookup meets no emptied bucket,
      and finds no base for which the delta is empty. */
  lemma {:induction false} KeptIff(codec: Codec, sf: Extract, k: Known, steps: seq<Step>)
    ensures RunOf(codec, sf, k, steps) == Kept
       <==> forall i :: 0 <= i < |steps| ==> StepFits(codec, sf, KnownAfter(codec, sf, k, steps[..i]), steps[i])
  {
    hide StepOutcome, StepNext, StepFits;
    if steps != [] {
      var n := |steps| - 1;
      KeptIff(codec, sf, k, steps[..n]);
      StepFitsIff(codec, sf, KnownAfter(codec, sf, k, steps[..n]), steps[n]);
      forall i | 0 <= i < n ensures steps[..n][..i] == steps[..i] && steps[..n][i] == steps[i] {
      }
    }
  }

  /** A run that never makes an empty delta can only fail for want of an entry. */
  lemma {:induction false} NeverOverruns(codec: Codec, sf: Extract, k: Known, steps: seq<Step>)
    ensures RunOf(codec, sf, k, steps) != Overrun
    ensures (forall t, b :: |codec.encode(t, b)| > 0) ==> RunOf(codec, sf, k, steps) != DeltaError
  {
    hide StepNext;
    if steps != [] {
      NeverOverruns(codec, sf, k, steps[..|steps| - 1]);
    }
  }

  /** No bucket was emptied, and no entry is older than version 0. */
  ghost predicate Fresh(x: Indexes) {
    && x.version >= 0
    && (forall k :: k in x.m1 ==> x.m1[k] != [])
    && FreshTier(x.m2) && FreshTier(x.m3)
  }

  ghost predicate FreshTier(m: Tier) {
    forall k :: k in m ==> m[k] != [] && m[k][0].version >= 0
  }

  lemma {:induction false} PutFresh(m: Tier, sfs: SuperFeatures, lo: nat, hi: nat, v: Versioned)
    requires lo <= hi <= SF_NUM && FreshTier(m) && v.version >= 0
    ensures FreshTier(PutAll(m, sfs, lo, hi, v))
    decreases hi - lo
  {
    if lo < hi {
      PutFresh(m, sfs, lo, hi - 1, v);
    }
  }

  lemma {:induction false} PutFilled(m: Tier1, sfs: SuperFeatures, lo: nat, hi: nat, id: nat)
    requires lo <= hi <= SF_NUM && forall k :: k in m ==> m[k] != []
    ensures forall k :: k in PutAll(m, sfs, lo, hi, id) ==> PutAll(m, sfs, lo, hi, id)[k] != []
    decreases hi - lo
  {
    if lo < hi {
      PutFilled(m, sfs, lo, hi - 1, id);
    }
  }

  lemma AllPutFresh(x: Indexes, sfs: SuperFeatures, id: nat)
    requires Fresh(x)
    ensures Fresh(AllPut(x, sfs, id))
  {
    hide PutAll, FreshTier;
    PutFilled(x.m1, sfs, 0, 3, id);
    PutFresh(x.m2, sfs, 3, 7, Versioned(id, x.version));
    PutFresh(x.m3, sfs, 7, SF_NUM, Versioned(id, x.version));
  }

  lemma FreshAnswers(x: Indexes, sfs: seq<Sf>)
    requires Fresh(x)
    ensures LookupOf(x, sfs) != EmptyBucket
  {
    EmptyBucketIff(x, sfs);
  }

  /** Until the fourth file ends nothing is old enough to be removed. */
  lemma {:induction false} FirstFiles(codec: Codec, sf: Extract, steps: seq<Step>)
    requires Ends(steps) <= 3
    ensures var k := KnownAfter(codec, sf, Nothing, steps);
            Fresh(k.indexes) && k.indexes.version == Ends(steps)
    ensures RunOf(codec, sf, Nothing, steps) != NoEntry
  {
    hide Fresh, AllPut, AllCleaned, LookupOf;
    if steps == [] {
      NothingIsFresh();
    } else {
      var n := |steps| - 1;
      FirstFiles(codec, sf, steps[..n]);
      var k := KnownAfter(codec, sf, Nothing, steps[..n]);
      match steps[n]
      case Take(chunk) =>
        FreshAnswers(k.indexes, sf(chunk));
        AllPutFresh(k.indexes, sf(chunk), |k.contents|);
        AllPutFresh(k.indexes, sf(chunk), Position(k.contents, chunk));
        SameVersion(k.indexes, sf(chunk), |k.contents|);
        SameVersion(k.indexes, sf(chunk), Position(k.contents, chunk));
      case EndOfFile =>
        EarlyClean(k.indexes);
    }
  }

  lemma NothingIsFresh()
    ensures Fresh(Nothing.indexes) && Nothing.indexes.version == 0
  {
  }

  lemma SameVersion(x: Indexes, sfs: SuperFeatures, id: nat)
    ensures AllPut(x, sfs, id).version == x.version
  {
  }

  lemma EarlyClean(x: Indexes)
    requires Fresh(x) && x.version <= 2
    ensures Fresh(AllCleaned(x)) && AllCleaned(x).version == x.version + 1
  {
  }

  /** In a run of at most four files every lookup answers. */
  lemma FourFilesAnswer(codec: Codec, sf: Extract, files: seq<seq<seq<Byte>>>)
    requires |files| <= 4
    ensures RunOf(codec, sf, Nothing, StepsOf(files)) != NoEntry
  {
    if files != [] {
      var n := |files| - 1;
      var steps := StepsOf(files[..n]) + Takes(files[n]);
      assert StepsOf(files) == steps + [EndOfFile];
      EndsOfSteps(files[..n]);
      EndsConcat(StepsOf(files[..n]), Takes(files[n]));
      NoEnds(files[n]);
      FirstFiles(codec, sf, steps);
      RunPush(codec, sf, Nothing, steps, EndOfFile);
    }
  }

  lemma {:induction false} EndsConcat(a: seq<Step>, b: seq<Step>)
    ensures Ends(a + b) == Ends(a) + Ends(b)
    decreases |b|
  {
    if b == [] {
      assert a + b == a;
    } else {
      assert (a + b)[..|a| + |b| - 1] == a + b[..|b| - 1];
      EndsConcat(a, b[..|b| - 1]);
    }
  }

  lemma {:induction false} NoEnds(chunks: seq<seq<Byte>>)
    ensures Ends(Takes(chunks)) == 0
  {
    if chunks != [] {
      assert Takes(chunks)[..|chunks| - 1] == Takes(chunks[..|chunks| - 1]);
      NoEnds(chunks[..|chunks| - 1]);
    }
  }

  lemma {:induction false} EndsOfSteps(files: seq<seq<seq<Byte>>>)
    ensures Ends(StepsOf(files)) == |files|
  {
    if files != [] {
      var n := |files| - 1;
      EndsOfSteps(files[..n]);
      EndsConcat(StepsOf(files[..n]), Takes(files[n]) + [EndOfFile]);
      EndsConcat(Takes(files[n]), [EndOfFile]);
      NoEnds(files[n]);
      assert [EndOfFile][..0] == [];
    }
  }

  // ----- a lookup without an entry -------------------------------------------------------------

  /** A base in the first file and, four files later, another chunk: the lookup reads a missing entry
      if and only if the chunk shares none of the features of tiers 1 and 2 with the base, and one of
      tier 3. That bucket was emptied at the end of the fourth file. */
  lemma FifthFileIff(codec: Codec, sf: Extract, c: seq<Byte>, d: seq<Byte>)
    requires c != d
    ensures RunOf(codec, sf, Nothing, [Take(c), EndOfFile, EndOfFile, EndOfFile, EndOfFile, Take(d)]) == NoEntry
       <==> SharesNone(sf(d), sf(c)[..7]) && !SharesNone(sf(d), sf(c)[7..])
  {
    hide AllPut, AllCleaned, LookupOf, RunOf, KnownAfter, SharesNone;
    var k := AsBase(sf, Nothing, c);
    FirstBase(codec, sf, c);
    TierThreeEmptied(sf(c), sf(d));
    FourEnds(codec, sf, k, [Take(c)]);
    var steps := [Take(c)] + [EndOfFile] + [EndOfFile] + [EndOfFile] + [EndOfFile];
    RunPush(codec, sf, Nothing, steps, Take(d));
    assert steps + [Take(d)] == [Take(c), EndOfFile, EndOfFile, EndOfFile, EndOfFile, Take(d)];
    assert k.contents == [c];
  }

  ghost predicate SharesNone(sfs: seq<Sf>, others: seq<Sf>) {
    forall j :: 0 <= j < |sfs| ==> sfs[j] !in others
  }

  /** For instance when of all features only the first of tier 3 is the same. */
  lemma FifthFileCanFail(codec: Codec, sf: Extract, c: seq<Byte>, d: seq<Byte>)
    requires c != d && sf(d)[7] == sf(c)[7] && sf(c)[7] !in sf(c)[..7]
    requires forall j :: 0 <= j < SF_NUM && j != 7 ==> sf(d)[j] !in sf(c)
    ensures RunOf(codec, sf, Nothing, [Take(c), EndOfFile, EndOfFile, EndOfFile, EndOfFile, Take(d)]) == NoEntry
  {
    hide RunOf;
    FifthFileIff(codec, sf, c, d);
    var x, y := sf(c), sf(d);
    forall j | 0 <= j < SF_NUM ensures y[j] !in x[..7] {
      assert forall i :: 0 <= i < 7 ==> x[..7][i] == x[i] && x[i] in x;
    }
    assert x[7..][0] == x[7] == y[7];
  }

  lemma FirstBase(codec: Codec, sf: Extract, c: seq<Byte>)
    ensures RunOf(codec, sf, Nothing, [Take(c)]) == Kept
    ensures KnownAfter(codec, sf, Nothing, [Take(c)]) == AsBase(sf, Nothing, c)
  {
    hide AllPut;
    NoBucket(Nothing.indexes.m1, sf(c));
    NoBucket(Nothing.indexes.m2, sf(c));
    NoBucket(Nothing.indexes.m3, sf(c));
    RunPush(codec, sf, Nothing, [], Take(c));
    assert [] + [Take(c)] == [Take(c)];
  }

  lemma FourEnds(codec: Codec, sf: Extract, k: Known, steps: seq<Step>)
    requires RunOf(codec, sf, Nothing, steps) == Kept && KnownAfter(codec, sf, Nothing, steps) == k
    ensures var more := steps + [EndOfFile] + [EndOfFile] + [EndOfFile] + [EndOfFile];
            && RunOf(codec, sf, Nothing, more) == Kept
            && KnownAfter(codec, sf, Nothing, more)
               == k.(indexes := AllCleaned(AllCleaned(AllCleaned(AllCleaned(k.indexes)))))
  {
    hide AllCleaned;
    RunPush(codec, sf, Nothing, steps, EndOfFile);
    RunPush(codec, sf, Nothing, steps + [EndOfFile], EndOfFile);
    RunPush(codec, sf, Nothing, steps + [EndOfFile] + [EndOfFile], EndOfFile);
    RunPush(codec, sf, Nothing, steps + [EndOfFile] + [EndOfFile] + [EndOfFile], EndOfFile);
  }

  lemma TierThreeEmptied(first: SuperFeatures, sfs: SuperFeatures)
    ensures var x := AllPut(Nothing.indexes, first, 0);
            var y := AllCleaned(AllCleaned(AllCleaned(AllCleaned(x))));
            LookupOf(y, sfs) == EmptyBucket <==> SharesNone(sfs, first[..7]) && !SharesNone(sfs, first[7..])
  {
    hide AllPut, LookupOf, First, Misses, MeetsEmptied, CleanedTier, SharesNone;
    var x := AllPut(Nothing.indexes, first, 0);
    OneBase(x, first);
    CleaningKeeps(x.m2, -5);
    CleaningKeeps(x.m2, -4);
    CleaningKeeps(x.m2, -3);
    CleaningKeeps(x.m2, -2);
    CleaningKeeps(x.m3, -2);
    CleaningKeeps(x.m3, -1);
    CleaningKeeps(x.m3, 0);
    CleaningEmpties(x.m3, 1);
    var y := AllCleaned(AllCleaned(AllCleaned(AllCleaned(x))));
    assert y == Indexes(x.m1, x.m2, CleanedTier(x.m3, 1), 4);
    OnlyTierThree(y, first, sfs);
  }

  /** The indexes hold one base, of version 0. */
  lemma OneBase(x: Indexes, first: SuperFeatures)
    requires x == AllPut(Nothing.indexes, first, 0)
    ensures x.version == 0
    ensures forall k :: k in x.m1 ==> x.m1[k] != []
    ensures forall k :: k in x.m1 <==> k in first[..3]
    ensures forall k :: k in x.m2 ==> x.m2[k] == [Versioned(0, 0)]
    ensures forall k :: k in x.m2 <==> k in first[3..7]
    ensures forall k :: k in x.m3 ==> x.m3[k] == [Versioned(0, 0)]
    ensures forall k :: k in x.m3 <==> k in first[7..]
  {
    hide PutAll;
    PutAllHolds(Nothing.indexes.m1, first, 0, 3, 0);
    PutAllHolds(Nothing.indexes.m2, first, 3, 7, Versioned(0, 0));
    PutAllHolds(Nothing.indexes.m3, first, 7, SF_NUM, Versioned(0, 0));
    assert first[0..3] == first[..3] && first[7..SF_NUM] == first[7..];
  }

  lemma CleaningKeeps(m: Tier, limit: int)
    requires limit <= 0 && forall k :: k in m ==> m[k] == [Versioned(0, 0)]
    ensures CleanedTier(m, limit) == m
  {
  }

  lemma CleaningEmpties(m: Tier, limit: int)
    requires limit > 0 && forall k :: k in m ==> m[k] == [Versioned(0, 0)]
    ensures CleanedTier(m, limit).Keys == m.Keys && forall k :: k in m ==> CleanedTier(m, limit)[k] == []
  {
  }

  lemma OnlyTierThree(y: Indexes, first: SuperFeatures, sfs: SuperFeatures)
    requires forall k :: k in y.m1 ==> y.m1[k] != []
    requires forall k :: k in y.m2 ==> y.m2[k] != []
    requires forall k :: k in y.m3 ==> y.m3[k] == []
    requires forall k :: k in y.m1 <==> k in first[..3]
    requires forall k :: k in y.m2 <==> k in first[3..7]
    requires forall k :: k in y.m3 <==> k in first[7..]
    ensures LookupOf(y, sfs) == EmptyBucket <==> SharesNone(sfs, first[..7]) && !SharesNone(sfs, first[7..])
  {
    hide LookupOf;
    assert first[..7] == first[..3] + first[3..7];
    assert (Misses(y.m1, sfs) && Misses(y.m2, sfs)) <==> SharesNone(sfs, first[..7]);
    assert Misses(y.m3, sfs) <==> SharesNone(sfs, first[7..]);
    NoBucket(y.m3, sfs);
    EmptyBucketIff(y, sfs);
  }
}
