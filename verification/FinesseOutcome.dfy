/**
 What Finesse does with a chunk, as a function of the stored contents and the super-feature index
 (src/method/Finesse.cc, src/method/absMethod.cc): which base it takes, and whether the run goes on.
 */
module FinesseOutcome {
  import opened Bytes
  import opened ChunkStore
  import opened AbsMethod
  import opened FinesseFeatures
  import opened RollingHash

  /** The three super-features of a chunk, 32 bytes each. */
  type Features = f: seq<Hash> | |f| == 3 witness [[], [], []]

  type SfIndex = f: seq<map<Hash, seq<nat>>> | |f| == 3 witness [map[], map[], map[]]

  const MIN_FEATURE_SIZE := 576

  /** The newest chunk of a bucket; buckets are never empty. */
  function Newest(bucket: seq<nat>): nat {
    if bucket == [] then 0 else bucket[|bucket| - 1]
  }

  /** The base of the first super-feature that has a bucket. */
  function BaseFor(index: SfIndex, keys: Features): Option<nat> {
    if keys[0] in index[0] then Some(Newest(index[0][keys[0]]))
    else if keys[1] in index[1] then Some(Newest(index[1][keys[1]]))
    else if keys[2] in index[2] then Some(Newest(index[2][keys[2]]))
    else None
  }

  /** A base is found exactly if one of the three buckets exists, and it is the newest of the first. */
  lemma BaseForIff(index: SfIndex, keys: Features, b: nat)
    ensures BaseFor(index, keys) == Some(b) <==>
            exists i :: 0 <= i < 3 && keys[i] in index[i] && b == Newest(index[i][keys[i]])
                        && forall j :: 0 <= j < i ==> keys[j] !in index[j]
    ensures BaseFor(index, keys) == None <==> forall i :: 0 <= i < 3 ==> keys[i] !in index[i]
  {
    if BaseFor(index, keys) == Some(b) {
      var i := if keys[0] in index[0] then 0 else if keys[1] in index[1] then 1 else 2;
      assert keys[i] in index[i] && b == Newest(index[i][keys[i]]);
    }
  }

  function Joined(index: map<Hash, seq<nat>>, key: Hash, id: nat): map<Hash, seq<nat>> {
    index[key := (if key in index then index[key] else []) + [id]]
  }

  function AllJoined(index: SfIndex, keys: Features, id: nat): SfIndex {
    [Joined(index[0], keys[0], id), Joined(index[1], keys[1], id), Joined(index[2], keys[2], id)]
  }

  datatype Known = Known(contents: seq<seq<Byte>>, index: SfIndex)

  const Nothing := Known([], [map[], map[], map[]])

  /** The id of the chunk a new chunk is encoded against, if any. */
  function BaseOf(sf: seq<Byte> -> Features, k: Known, chunk: seq<Byte>): Option<nat> {
    if |chunk| <= MIN_FEATURE_SIZE then None else BaseFor(k.index, sf(chunk))
  }

  /** The content a new chunk is encoded against, if any. */
  function Partner(sf: seq<Byte> -> Features, k: Known, chunk: seq<Byte>): Option<seq<Byte>> {
    if chunk in k.contents || |chunk| <= MIN_FEATURE_SIZE then None
    else
      match BaseFor(k.index, sf(chunk))
      case None => None
      case Some(b) => Some(if b < |k.contents| then k.contents[b] else [])
  }

  /** The fate of a pair: the length of its delta decides. */
  function PairOutcome(codec: Codec, chunk: seq<Byte>, base: seq<Byte>): Outcome {
    var n := |codec.encode(chunk, base)|;
    if n > |chunk| then Overrun else if n == 0 then DeltaError else Kept
  }

  function OutcomeOf(codec: Codec, sf: seq<Byte> -> Features, k: Known, chunk: seq<Byte>): Outcome {
    match Partner(sf, k, chunk)
    case None => Kept
    case Some(base) => PairOutcome(codec, chunk, base)
  }

  /** What is known after a chunk was kept. */
  function KnownNext(sf: seq<Byte> -> Features, k: Known, chunk: seq<Byte>): Known {
    if chunk in k.contents then k
    else
      Known(k.contents + [chunk],
            if |chunk| > MIN_FEATURE_SIZE && BaseFor(k.index, sf(chunk)) == None
            then AllJoined(k.index, sf(chunk), |k.contents|) else k.index)
  }

  function KnownAfter(sf: seq<Byte> -> Features, k: Known, chunks: seq<seq<Byte>>): Known {
    if chunks == [] then k else KnownNext(sf, KnownAfter(sf, k, chunks[..|chunks| - 1]), chunks[|chunks| - 1])
  }

  /** The outcome of a run: that of its first chunk that is not kept. */
  function RunOf(codec: Codec, sf: seq<Byte> -> Features, k: Known, chunks: seq<seq<Byte>>): Outcome {
    if chunks == [] then Kept
    else
      var n := |chunks| - 1;
      var before := RunOf(codec, sf, k, chunks[..n]);
      if before != Kept then before else OutcomeOf(codec, sf, KnownAfter(sf, k, chunks[..n]), chunks[n])
  }

  lemma ContentsPush(pieces: seq<Piece>, i: nat)
    requires i < |pieces|
    ensures PieceBytes(pieces[..i + 1])[..i] == PieceBytes(pieces[..i]) == PieceBytes(pieces)[..i]
    ensures PieceBytes(pieces[..i + 1])[i] == pieces[i].bytes
    ensures PieceBytes(pieces[..i + 1]) == PieceBytes(pieces)[..i + 1]
  {
  }

  /** A run that stops keeps its outcome, whatever follows. */
  lemma {:induction false} RunStops(codec: Codec, sf: seq<Byte> -> Features, k: Known, chunks: seq<seq<Byte>>, i: nat)
    requires i <= |chunks|
    ensures RunOf(codec, sf, k, chunks[..i]) != Kept ==> RunOf(codec, sf, k, chunks) == RunOf(codec, sf, k, chunks[..i])
    decreases |chunks|
  {
    if i == |chunks| {
      assert chunks[..i] == chunks;
    } else {
      var n := |chunks| - 1;
      RunStops(codec, sf, k, chunks[..n], i);
      assert chunks[..n][..i] == chunks[..i];
    }
  }

  lemma {:induction false} RunConcat(codec: Codec, sf: seq<Byte> -> Features, k: Known, a: seq<seq<Byte>>, b: seq<seq<Byte>>)
    ensures KnownAfter(sf, k, a + b) == KnownAfter(sf, KnownAfter(sf, k, a), b)
    ensures RunOf(codec, sf, k, a + b)
         == if RunOf(codec, sf, k, a) != Kept then RunOf(codec, sf, k, a) else RunOf(codec, sf, KnownAfter(sf, k, a), b)
    decreases |b|
  {
    hide OutcomeOf, KnownNext;
    if b == [] {
      assert a + b == a;
    } else {
      var n := |b| - 1;
      assert (a + b)[..|a| + n] == a + b[..n];
      RunConcat(codec, sf, k, a, b[..n]);
    }
  }

  // ----- the pairs a run encodes ---------------------------------------------------------------

  datatype Pair = Pair(target: seq<Byte>, base: seq<Byte>)

  /** Every new chunk with its base, in the order in which a run comes to encode them. */
  function Pairs(sf: seq<Byte> -> Features, k: Known, chunks: seq<seq<Byte>>): seq<Pair> {
    if chunks == [] then []
    else
      var n := |chunks| - 1;
      var front := Pairs(sf, k, chunks[..n]);
      match Partner(sf, KnownAfter(sf, k, chunks[..n]), chunks[n])
      case None => front
      case Some(base) => front + [Pair(chunks[n], base)]
  }

  /** The new chunks without a base, in order. */
  function Bases(sf: seq<Byte> -> Features, k: Known, chunks: seq<seq<Byte>>): seq<seq<Byte>> {
    if chunks == [] then []
    else
      var n := |chunks| - 1;
      var l := KnownAfter(sf, k, chunks[..n]);
      var front := Bases(sf, k, chunks[..n]);
      if chunks[n] in l.contents || Partner(sf, l, chunks[n]).Some? then front else front + [chunks[n]]
  }

  function DeltaSize(codec: Codec, pairs: seq<Pair>): nat {
    if pairs == [] then 0
    else
      var p := pairs[|pairs| - 1];
      DeltaSize(codec, pairs[..|pairs| - 1]) + |codec.encode(p.target, p.base)|
  }

  ghost function BaseSize(bases: seq<seq<Byte>>): nat {
    if bases == [] then 0 else BaseSize(bases[..|bases| - 1]) + Lz4Size(bases[|bases| - 1])
  }

  /** The counters after a chunk: one delta or one base more, or neither. */
  ghost predicate Counted(codec: Codec, sf: seq<Byte> -> Features, k: Known, chunk: seq<Byte>, s: Stats, t: Stats) {
    match Partner(sf, k, chunk)
    case Some(base) =>
      && t.deltachunkNum == s.deltachunkNum + 1 && t.deltachunkSize == s.deltachunkSize + |codec.encode(chunk, base)|
      && t.basechunkNum == s.basechunkNum && t.basechunkSize == s.basechunkSize
    case None =>
      var n, m := if chunk in k.contents then 0 else 1, if chunk in k.contents then 0 else Lz4Size(chunk);
      && t.deltachunkNum == s.deltachunkNum && t.deltachunkSize == s.deltachunkSize
      && t.basechunkNum == s.basechunkNum + n && t.basechunkSize == s.basechunkSize + m
  }

  /** The counters after a run: its pairs are stored as deltas, its new chunks without a base as bases. */
  ghost predicate Booked(codec: Codec, sf: seq<Byte> -> Features, k: Known, chunks: seq<seq<Byte>>, s: Stats, t: Stats) {
    var pairs, bases := Pairs(sf, k, chunks), Bases(sf, k, chunks);
    && t.deltachunkNum == s.deltachunkNum + |pairs| && t.deltachunkSize == s.deltachunkSize + DeltaSize(codec, pairs)
    && t.basechunkNum == s.basechunkNum + |bases| && t.basechunkSize == s.basechunkSize + BaseSize(bases)
  }

  lemma NothingBooked(codec: Codec, sf: seq<Byte> -> Features, k: Known, s: Stats)
    ensures Booked(codec, sf, k, [], s, s)
  {
  }

  lemma BookedPush(codec: Codec, sf: seq<Byte> -> Features, k: Known, chunks: seq<seq<Byte>>, s: Stats, t: Stats, u: Stats)
    requires chunks != []
    requires var n := |chunks| - 1;
             Booked(codec, sf, k, chunks[..n], s, t) && Counted(codec, sf, KnownAfter(sf, k, chunks[..n]), chunks[n], t, u)
    ensures Booked(codec, sf, k, chunks, s, u)
  {
    hide KnownNext, Lz4Size;
    var n := |chunks| - 1;
    var l, c := KnownAfter(sf, k, chunks[..n]), chunks[n];
    var pairs, bases := Pairs(sf, k, chunks[..n]), Bases(sf, k, chunks[..n]);
    PartnerIsNew(sf, l, c);
    hide Partner;
    match Partner(sf, l, c)
    case Some(base) => assert (pairs + [Pair(c, base)])[..|pairs|] == pairs;
    case None => assert (bases + [c])[..|bases|] == bases;
  }

  lemma {:induction false} PairsConcat(codec: Codec, sf: seq<Byte> -> Features, k: Known, a: seq<seq<Byte>>, b: seq<seq<Byte>>)
    ensures var l := KnownAfter(sf, k, a);
            Pairs(sf, k, a + b) == Pairs(sf, k, a) + Pairs(sf, l, b) && Bases(sf, k, a + b) == Bases(sf, k, a) + Bases(sf, l, b)
    decreases |b|
  {
    hide KnownNext, Partner;
    if b == [] {
      assert a + b == a;
    } else {
      var n := |b| - 1;
      assert (a + b)[..|a| + n] == a + b[..n];
      RunConcat(codec, sf, k, a, b[..n]);
      PairsConcat(codec, sf, k, a, b[..n]);
    }
  }

  lemma {:induction false} DeltaSizeConcat(codec: Codec, a: seq<Pair>, b: seq<Pair>)
    ensures DeltaSize(codec, a + b) == DeltaSize(codec, a) + DeltaSize(codec, b)
    decreases |b|
  {
    if b == [] {
      assert a + b == a;
    } else {
      assert (a + b)[..|a| + |b| - 1] == a + b[..|b| - 1];
      DeltaSizeConcat(codec, a, b[..|b| - 1]);
    }
  }

  lemma {:induction false} BaseSizeConcat(a: seq<seq<Byte>>, b: seq<seq<Byte>>)
    ensures BaseSize(a + b) == BaseSize(a) + BaseSize(b)
    decreases |b|
  {
    hide Lz4Size;
    if b == [] {
      assert a + b == a;
    } else {
      assert (a + b)[..|a| + |b| - 1] == a + b[..|b| - 1];
      BaseSizeConcat(a, b[..|b| - 1]);
    }
  }

  /** The counters after two traces in a row. */
  lemma BookedConcat(codec: Codec, sf: seq<Byte> -> Features, k: Known, a: seq<seq<Byte>>, b: seq<seq<Byte>>, s: Stats, t: Stats, u: Stats)
    requires Booked(codec, sf, k, a, s, t) && Booked(codec, sf, KnownAfter(sf, k, a), b, t, u)
    ensures Booked(codec, sf, k, a + b, s, u)
  {
    hide Pairs, Bases, DeltaSize, BaseSize, KnownAfter;
    var l := KnownAfter(sf, k, a);
    PairsConcat(codec, sf, k, a, b);
    DeltaSizeConcat(codec, Pairs(sf, k, a), Pairs(sf, l, b));
    BaseSizeConcat(Bases(sf, k, a), Bases(sf, l, b));
  }

  lemma PartnerIsNew(sf: seq<Byte> -> Features, k: Known, chunk: seq<Byte>)
    ensures Partner(sf, k, chunk).Some? ==> chunk !in k.contents
  {
  }

  /** The delta has a byte and fits the buffer of its target. */
  predicate PairFits(codec: Codec, p: Pair) { 0 < |codec.encode(p.target, p.base)| <= |p.target| }

  ghost predicate AllFit(codec: Codec, pairs: seq<Pair>) {
    forall i :: 0 <= i < |pairs| ==> PairFits(codec, pairs[i])
  }

  /** Exactly when a run keeps every chunk: each delta it makes has a byte and fits its target. */
  lemma {:induction false} KeptIff(codec: Codec, sf: seq<Byte> -> Features, k: Known, chunks: seq<seq<Byte>>)
    ensures RunOf(codec, sf, k, chunks) == Kept <==> AllFit(codec, Pairs(sf, k, chunks))
  {
    hide Partner, KnownNext, PairOutcome, PairFits, AllFit;
    NoneToFit(codec);
    if chunks != [] {
      var n := |chunks| - 1;
      KeptIff(codec, sf, k, chunks[..n]);
      match Partner(sf, KnownAfter(sf, k, chunks[..n]), chunks[n])
      case None =>
      case Some(base) =>
        FitPush(codec, Pairs(sf, k, chunks[..n]), Pair(chunks[n], base));
    }
  }

  lemma NoneToFit(codec: Codec)
    ensures AllFit(codec, [])
  {
  }

  lemma FitPush(codec: Codec, pairs: seq<Pair>, p: Pair)
    ensures AllFit(codec, pairs + [p]) <==> AllFit(codec, pairs) && PairFits(codec, p)
    ensures PairFits(codec, p) <==> PairOutcome(codec, p.target, p.base) == Kept
  {
    var more := pairs + [p];
    assert forall i :: 0 <= i < |pairs| ==> more[i] == pairs[i];
    assert more[|pairs|] == p;
    if AllFit(codec, more) {
      forall i | 0 <= i < |pairs| ensures PairFits(codec, pairs[i]) {
        assert PairFits(codec, more[i]);
      }
    }
  }

  // ----- an overrun ----------------------------------------------------------------------------

  predicate ShareFeature(x: Features, y: Features) { x[0] == y[0] || x[1] == y[1] || x[2] == y[2] }

  /** Two new chunks in a row: the second is encoded against the first exactly if they share a
      super-feature, and then it overruns its buffer exactly if the delta is longer than it. */
  lemma TwoChunks(codec: Codec, sf: seq<Byte> -> Features, c: seq<Byte>, d: seq<Byte>)
    requires c != d && |c| > MIN_FEATURE_SIZE && |d| > MIN_FEATURE_SIZE
    ensures RunOf(codec, sf, Nothing, [c, d]) == if ShareFeature(sf(c), sf(d)) then PairOutcome(codec, d, c) else Kept
    ensures RunOf(codec, sf, Nothing, [c, d]) == Overrun <==> ShareFeature(sf(c), sf(d)) && |codec.encode(d, c)| > |d|
  {
    var first, both := [c], [c, d];
    assert first[..0] == [] && both[..1] == first;
    var l := KnownNext(sf, Nothing, c);
    FirstChunk(sf, c);
    SecondChunk(sf, c, d);
    hide Partner, KnownNext;
    assert KnownAfter(sf, Nothing, first) == l;
    assert RunOf(codec, sf, Nothing, first) == Kept;
    assert OutcomeOf(codec, sf, l, d) == if ShareFeature(sf(c), sf(d)) then PairOutcome(codec, d, c) else Kept;
  }

  lemma FirstChunk(sf: seq<Byte> -> Features, c: seq<Byte>)
    requires |c| > MIN_FEATURE_SIZE
    ensures Partner(sf, Nothing, c) == None
    ensures var keys := sf(c);
            KnownNext(sf, Nothing, c) == Known([c], [map[keys[0] := [0]], map[keys[1] := [0]], map[keys[2] := [0]]])
  {
    assert [] + [c] == [c];
    var none: seq<nat> := [];
    assert none + [0] == [0];
  }

  lemma SecondChunk(sf: seq<Byte> -> Features, c: seq<Byte>, d: seq<Byte>)
    requires c != d && |c| > MIN_FEATURE_SIZE && |d| > MIN_FEATURE_SIZE
    ensures Partner(sf, KnownNext(sf, Nothing, c), d) == if ShareFeature(sf(c), sf(d)) then Some(c) else None
  {
    FirstChunk(sf, c);
    hide KnownNext;
    var x, y := sf(c), sf(d);
    var index := [map[x[0] := [0]], map[x[1] := [0]], map[x[2] := [0]]];
    assert BaseFor(index, y) == if ShareFeature(x, y) then Some(0) else None;
  }

  /** Three new chunks in a row, the first two without a common super-feature: the third is encoded
      against the one that shares its first super-feature, else its second, else its third. */
  lemma ThreeChunks(sf: seq<Byte> -> Features, c: seq<Byte>, d: seq<Byte>, e: seq<Byte>)
    requires c != d && d != e && c != e && |c| > MIN_FEATURE_SIZE && |d| > MIN_FEATURE_SIZE && |e| > MIN_FEATURE_SIZE
    requires !ShareFeature(sf(c), sf(d))
    ensures var x, y, z := sf(c), sf(d), sf(e);
            Partner(sf, KnownAfter(sf, Nothing, [c, d]), e)
            == if z[0] == x[0] then Some(c) else if z[0] == y[0] then Some(d)
               else if z[1] == x[1] then Some(c) else if z[1] == y[1] then Some(d)
               else if z[2] == x[2] then Some(c) else if z[2] == y[2] then Some(d) else None
  {
    var both := [c, d];
    assert both[..1] == [c] && [c][..0] == [];
    BothKept(sf, c, d);
    hide KnownNext;
    assert KnownAfter(sf, Nothing, [c]) == KnownNext(sf, Nothing, c);
    assert KnownAfter(sf, Nothing, both) == KnownNext(sf, KnownNext(sf, Nothing, c), d);
  }

  lemma BothKept(sf: seq<Byte> -> Features, c: seq<Byte>, d: seq<Byte>)
    requires c != d && |c| > MIN_FEATURE_SIZE && |d| > MIN_FEATURE_SIZE && !ShareFeature(sf(c), sf(d))
    ensures var x, y := sf(c), sf(d);
            KnownNext(sf, KnownNext(sf, Nothing, c), d)
            == Known([c, d], [map[x[0] := [0], y[0] := [1]], map[x[1] := [0], y[1] := [1]], map[x[2] := [0], y[2] := [1]]])
  {
    FirstChunk(sf, c);
    var l := KnownNext(sf, Nothing, c);
    hide KnownNext;
    var y := sf(d);
    assert BaseFor(l.index, y) == None;
    assert KnownNext(sf, l, d) == Known([c] + [d], AllJoined(l.index, y, 1)) by {
      KeptAsBase(sf, l, d);
    }
    var none: seq<nat> := [];
    assert none + [1] == [1];
    assert [c] + [d] == [c, d];
  }

  lemma KeptAsBase(sf: seq<Byte> -> Features, k: Known, d: seq<Byte>)
    requires d !in k.contents && |d| > MIN_FEATURE_SIZE && BaseFor(k.index, sf(d)) == None
    ensures KnownNext(sf, k, d) == Known(k.contents + [d], AllJoined(k.index, sf(d), |k.contents|))
  {
  }

  /** A lossless codec whose deltas have a header byte and then the target itself. */
  function Verbatim(): Codec {
    Codec((t, b) => [0] + t, (d: seq<Byte>, b) => if d == [] then [] else d[1..])
  }

  /** Super-features come from the features of GetSF. */
  ghost predicate FromFeatures(sf: seq<Byte> -> Features) {
    forall s, t :: SameFeatures(s, t) ==> sf(s) == sf(t)
  }

  ghost predicate SameFeatures(s: seq<Byte>, t: seq<Byte>) {
    |s| == |t| && forall i: nat, f: nat :: i < FEATURE_NUM ==> (FeatureOf(s, i, f) <==> FeatureOf(t, i, f))
  }

  /** 577 bytes, the last twelfth of which begins with 1 and ends with `x`. */
  function Marked(x: Byte): (r: seq<Byte>)
    ensures |r| == 577
  {
    seq(577, i => if i == 528 then 1 else if i == 576 then x else 0)
  }

  /** Two chunks of 577 bytes with the same features, whatever hashes are made of these: the delta of
      the second has 578 bytes, one more than the buffer it is copied to. */
  lemma DeltaCanOverrun(sf: seq<Byte> -> Features)
    requires FromFeatures(sf)
    ensures Lossless(Verbatim()) && RunOf(Verbatim(), sf, Nothing, [Marked(0), Marked(1)]) == Overrun
  {
    hide RunOf, Marked, SameFeatures;
    forall t: seq<Byte>, b: seq<Byte> ensures Verbatim().decode(Verbatim().encode(t, b), b) == t {
      assert ([0] + t)[1..] == t;
    }
    MarkedAlike();
    MarkedDiffer();
    TwoChunks(Verbatim(), sf, Marked(0), Marked(1));
  }

  lemma MarkedDiffer()
    ensures Marked(0) != Marked(1)
  {
    assert Marked(0)[576] != Marked(1)[576];
  }

  lemma MarkedAlike()
    ensures SameFeatures(Marked(0), Marked(1))
  {
    hide IsFeature, Marked;
    forall i: nat, f: nat | i < FEATURE_NUM ensures FeatureOf(Marked(0), i, f) <==> FeatureOf(Marked(1), i, f) {
      if i < 11 {
        MarkedFront(Twelfth(577, i), Twelfth(577, i + 1), f);
      } else {
        MarkedLast(0, f);
        MarkedLast(1, f);
      }
    }
  }

  /** All windows before the last byte are the same. */
  lemma MarkedFront(lo: nat, hi: nat, f: nat)
    requires hi <= 576
    ensures IsFeature(Marked(0), lo, hi, f) <==> IsFeature(Marked(1), lo, hi, f)
  {
    var s, t := Marked(0), Marked(1);
    forall j | lo <= j && j + WINDOW <= hi ensures WindowHash(s, j) == WindowHash(t, j) {
      assert s[j..j + WINDOW] == t[j..j + WINDOW];
    }
  }

  const TOP := 524824056

  /** The last twelfth has two windows, and the one without the last byte has the larger hash. */
  lemma MarkedLast(x: Byte, f: nat)
    requires x <= 1
    ensures IsFeature(Marked(x), 528, 577, f) <==> f == TOP
  {
    hide WindowHash, Marked;
    var s := Marked(x);
    MarkedHashes(x);
    if f == TOP {
      assert WindowHash(s, 528) == f;
    }
  }

  lemma MarkedHashes(x: Byte)
    requires x <= 1
    ensures WindowHash(Marked(x), 528) == TOP && WindowHash(Marked(x), 529) == x
  {
    hide Poly, Power;
    var s := Marked(x);
    var u, v := s[528..576], s[529..577];
    PolyFirst(A, u);
    ZeroPoly(u[1..]);
    assert u[0] == 1 && Poly(A, u) == Power(A, 47);
    TopPower();
    LastOnly(v, x);
  }

  lemma LastOnly(v: seq<Byte>, x: Byte)
    requires |v| > 0 && v[|v| - 1] == x && forall i :: 0 <= i < |v| - 1 ==> v[i] == 0
    ensures Poly(A, v) == x
  {
    ZeroPoly(v[..|v| - 1]);
  }

  lemma {:induction false} ZeroPoly(s: seq<Byte>)
    requires forall i :: 0 <= i < |s| ==> s[i] == 0
    ensures Poly(A, s) == 0
  {
    if s != [] {
      ZeroPoly(s[..|s| - 1]);
    }
  }

  lemma {:induction false} PowerSum(m: nat, n: nat, x: nat, y: nat)
    requires Power(A, m) % MOD == x && Power(A, n) % MOD == y
    ensures Power(A, m + n) % MOD == x * y % MOD
  {
    PowersAdd(m, n);
    hide Power, Cong;
    var p, q := Power(A, m), Power(A, n);
    CongMod(MOD, p);
    CongMod(MOD, q);
    CongMul(MOD, x, p, y);
    CongMul(MOD, y, q, p);
    CongTrans(MOD, x * y, p * y, p * q);
    CongMod(MOD, x * y);
    CongTrans(MOD, x * y % MOD, x * y, p * q);
    CongUnique(MOD, x * y % MOD, p * q);
  }

  lemma {:induction false} PowersAdd(m: nat, n: nat)
    ensures Power(A, m + n) == Power(A, m) * Power(A, n)
  {
    if m > 0 {
      PowersAdd(m - 1, n);
      Regroup(A, Power(A, m - 1), Power(A, n));
    }
  }

  lemma Regroup(x: int, y: int, z: int)
    ensures x * (y * z) == x * y * z
  {
  }

  /** 37^47 modulo 1000000007, by squaring. */
  lemma TopPower()
    ensures Power(A, 47) % MOD == TOP
  {
    hide Power;
    FirstPowers();
    HighPowers();
    PowerSum(32, 8, 544722856, 479429337);
    PowerSum(40, 4, 872733667, 1874161);
    PowerSum(44, 2, 390628886, 1369);
    PowerSum(46, 1, 770941196, 37);
  }

  lemma FirstPowers()
    ensures Power(A, 1) % MOD == 37 && Power(A, 2) % MOD == 1369 && Power(A, 4) % MOD == 1874161 && Power(A, 8) % MOD == 479429337
  {
    assert Power(A, 1) == 37 by { assert Power(A, 0) == 1; }
    hide Power;
    PowerSum(1, 1, 37, 37);
    PowerSum(2, 2, 1369, 1369);
    PowerSum(4, 4, 1874161, 1874161);
  }

  lemma HighPowers()
    ensures Power(A, 32) % MOD == 544722856
  {
    hide Power;
    FirstPowers();
    PowerSum(8, 8, 479429337, 479429337);
    PowerSum(16, 16, 567292160, 567292160);
  }
}
