/**
 The three-tier similarity index of src/method/palantir.cc: a bucket per super-feature holding at
 most one chunk, with version stamps on tiers 2 and 3 that CleanIndex uses to drop old chunks.
 */
module PalantirIndex {
  import opened Bytes
  import opened ChunkStore

  type Sf = nat

  const SF_NUM := 13

  type SuperFeatures = s: seq<Sf> | |s| == SF_NUM witness [0, 0, 0, 0, 0, 0, 0, 0, 0, 0, 0, 0, 0]

  /** chunkid_version */
  datatype Versioned = Versioned(chunkid: nat, version: int)

  type Tier1 = map<Sf, seq<nat>>
  type Tier = map<Sf, seq<Versioned>>

  /** operator[] and then push_back on an empty bucket, or overwriting its first element. */
  function Put<T>(m: map<Sf, seq<T>>, k: Sf, v: T): map<Sf, seq<T>> {
    if k in m && m[k] != [] then m[k := m[k][0 := v]] else m[k := [v]]
  }

  predicate Filled<T>(m: map<Sf, seq<T>>, k: Sf) { k in m && |m[k]| > 0 }

  function NonEmpty<T>(m: map<Sf, seq<T>>): set<Sf> {
    set k | k in m && Filled(m, k)
  }

  lemma PutCounts<T>(m: map<Sf, seq<T>>, k: Sf, v: T)
    ensures |NonEmpty(Put(m, k, v))| == |NonEmpty(m)| + if Filled(m, k) then 0 else 1
  {
    hide Put, Filled, NonEmpty;
    PutFills(m, k, v);
    if Filled(m, k) {
      assert NonEmpty(Put(m, k, v)) == NonEmpty(m);
    } else {
      assert NonEmpty(Put(m, k, v)) == NonEmpty(m) + {k};
    }
  }

  lemma PutFills<T>(m: map<Sf, seq<T>>, k: Sf, v: T)
    ensures forall x :: x in NonEmpty(Put(m, k, v)) <==> x in NonEmpty(m) || x == k
    ensures k in NonEmpty(m) <==> Filled(m, k)
  {
  }

  // ----- invariants ----------------------------------------------------------------------------

  ghost predicate IsBaseId(id: nat, entries: seq<Entry>) {
    id < |entries| && IsBase(entries[id].deltaFlag)
  }

  /** Tier 1 is never cleaned: every bucket holds one base. */
  ghost predicate Tier1Ok(m: Tier1, entries: seq<Entry>) {
    forall k :: k in m ==> |m[k]| == 1 && IsBaseId(m[k][0], entries)
  }

  /** A bucket of tier 2 or 3 holds one base, not newer than the current version, or nothing. */
  ghost predicate TierOk(m: Tier, entries: seq<Entry>, version: int) {
    forall k :: k in m ==> |m[k]| <= 1 && (m[k] != [] ==> IsBaseId(m[k][0].chunkid, entries) && m[k][0].version <= version)
  }

  ghost predicate NoneEmptied(m: Tier) { forall k :: k in m ==> m[k] != [] }

  /** The three indexes with their counters. */
  datatype Tiers = Tiers(sfIndex1: Tier1, sfIndex2: Tier, sfIndex3: Tier, sfNew: nat, sfDelete: nat, version: int)

  /** SFNew - SFDelete is the number of buckets in use. */
  ghost predicate TiersOk(t: Tiers, entries: seq<Entry>) {
    && Tier1Ok(t.sfIndex1, entries) && TierOk(t.sfIndex2, entries, t.version) && TierOk(t.sfIndex3, entries, t.version)
    && t.sfNew - t.sfDelete == |NonEmpty(t.sfIndex1)| + |NonEmpty(t.sfIndex2)| + |NonEmpty(t.sfIndex3)|
    && (t.sfDelete == 0 ==> NoneEmptied(t.sfIndex2) && NoneEmptied(t.sfIndex3))
  }

  lemma NoTiers(t: Tiers, entries: seq<Entry>)
    requires t == Tiers(map[], map[], map[], 0, 0, 0)
    ensures TiersOk(t, entries)
  {
    assert NonEmpty(t.sfIndex1) == {} && NonEmpty(t.sfIndex2) == {} && NonEmpty(t.sfIndex3) == {};
  }

  lemma TiersGrow(t: Tiers, entries: seq<Entry>, more: seq<Entry>)
    requires TiersOk(t, entries)
    requires |entries| <= |more| && more[..|entries|] == entries
    ensures TiersOk(t, more)
  {
    hide NonEmpty, NoneEmptied;
    assert forall j :: 0 <= j < |entries| ==> more[j] == more[..|entries|][j];
  }

  // ----- insertion -----------------------------------------------------------------------------

  /** The buckets of super-features `lo` to `hi` now hold `v`. */
  function PutAll<T>(m: map<Sf, seq<T>>, sfs: SuperFeatures, lo: nat, hi: nat, v: T): map<Sf, seq<T>>
    requires lo <= hi <= SF_NUM
    decreases hi - lo
  {
    if lo == hi then m else Put(PutAll(m, sfs, lo, hi - 1, v), sfs[hi - 1], v)
  }

  /** One loop of SF_Insert; `added` is what it contributes to SFNew. */
  method InsertTier<T>(m: map<Sf, seq<T>>, sfs: SuperFeatures, lo: nat, hi: nat, v: T) returns (r: map<Sf, seq<T>>, added: nat)
    requires lo <= hi <= SF_NUM
    ensures r == PutAll(m, sfs, lo, hi, v)
    ensures |NonEmpty(r)| == |NonEmpty(m)| + added
  {
    hide NonEmpty, Put;
    r, added := m, 0;
    for i := lo to hi
      invariant r == PutAll(m, sfs, lo, i, v)
      invariant |NonEmpty(r)| == |NonEmpty(m)| + added
    {
      PutCounts(r, sfs[i], v);
      if !Filled(r, sfs[i]) {
        added := added + 1;
      }
      r := Put(r, sfs[i], v);
    }
  }

  /** Where buckets hold at most one chunk, the inserted one replaces it, and no other bucket changes. */
  lemma {:induction false} PutAllHolds<T>(m: map<Sf, seq<T>>, sfs: SuperFeatures, lo: nat, hi: nat, v: T)
    requires lo <= hi <= SF_NUM && forall k :: k in m ==> |m[k]| <= 1
    ensures forall k :: k in PutAll(m, sfs, lo, hi, v) ==> PutAll(m, sfs, lo, hi, v)[k] == if k in sfs[lo..hi] then [v] else if k in m then m[k] else []
    ensures forall k :: k in PutAll(m, sfs, lo, hi, v) <==> k in m || k in sfs[lo..hi]
    decreases hi - lo
  {
    if lo < hi {
      PutAllHolds(m, sfs, lo, hi - 1, v);
      assert sfs[lo..hi] == sfs[lo..hi - 1] + [sfs[hi - 1]];
    }
  }

  lemma TiersInsert(m1: Tier1, m2: Tier, m3: Tier, sfs: SuperFeatures, id: nat, version: int, entries: seq<Entry>)
    requires Tier1Ok(m1, entries) && TierOk(m2, entries, version) && TierOk(m3, entries, version) && IsBaseId(id, entries)
    ensures Tier1Ok(PutAll(m1, sfs, 0, 3, id), entries)
    ensures TierOk(PutAll(m2, sfs, 3, 7, Versioned(id, version)), entries, version)
    ensures TierOk(PutAll(m3, sfs, 7, SF_NUM, Versioned(id, version)), entries, version)
  {
    hide PutAll;
    PutAllHolds(m1, sfs, 0, 3, id);
    PutAllHolds(m2, sfs, 3, 7, Versioned(id, version));
    PutAllHolds(m3, sfs, 7, SF_NUM, Versioned(id, version));
  }

  lemma {:induction false} PutAllFills(m: Tier, sfs: SuperFeatures, lo: nat, hi: nat, v: Versioned)
    requires lo <= hi <= SF_NUM
    ensures NoneEmptied(m) ==> NoneEmptied(PutAll(m, sfs, lo, hi, v))
    decreases hi - lo
  {
    if lo < hi {
      PutAllFills(m, sfs, lo, hi - 1, v);
    }
  }

  /** SF_Insert: three super-features for tier 1, four for tier 2, six for tier 3. */
  function Inserted(t: Tiers, sfs: SuperFeatures, id: nat, added: nat): Tiers {
    t.(sfIndex1 := PutAll(t.sfIndex1, sfs, 0, 3, id),
       sfIndex2 := PutAll(t.sfIndex2, sfs, 3, 7, Versioned(id, t.version)),
       sfIndex3 := PutAll(t.sfIndex3, sfs, 7, SF_NUM, Versioned(id, t.version)),
       sfNew := t.sfNew + added)
  }

  method SfInsert(t: Tiers, sfs: SuperFeatures, chunkid: nat, ghost entries: seq<Entry>) returns (r: Tiers)
    requires TiersOk(t, entries) && IsBaseId(chunkid, entries)
    ensures TiersOk(r, entries) && r.version == t.version && r.sfNew >= t.sfNew && r == Inserted(t, sfs, chunkid, r.sfNew - t.sfNew)
    ensures IndexesOf(r) == AllPut(IndexesOf(t), sfs, chunkid)
  {
    hide PutAll, NonEmpty, Tier1Ok, TierOk, NoneEmptied;
    TiersInsert(t.sfIndex1, t.sfIndex2, t.sfIndex3, sfs, chunkid, t.version, entries);
    PutAllFills(t.sfIndex2, sfs, 3, 7, Versioned(chunkid, t.version));
    PutAllFills(t.sfIndex3, sfs, 7, SF_NUM, Versioned(chunkid, t.version));
    var m1, added1 := InsertTier(t.sfIndex1, sfs, 0, 3, chunkid);
    var m2, added2 := InsertTier(t.sfIndex2, sfs, 3, 7, Versioned(chunkid, t.version));
    var m3, added3 := InsertTier(t.sfIndex3, sfs, 7, SF_NUM, Versioned(chunkid, t.version));
    r := t.(sfIndex1 := m1, sfIndex2 := m2, sfIndex3 := m3, sfNew := t.sfNew + added1 + added2 + added3);
  }

  // ----- lookup --------------------------------------------------------------------------------

  datatype Lookup = NotFound | Found(id: nat) | EmptyBucket

  /** `i` is the first super-feature with a bucket in the tier. */
  predicate First<T>(m: map<Sf, T>, sfs: seq<Sf>, i: nat) {
    i < |sfs| && sfs[i] in m && forall j :: 0 <= j < i ==> sfs[j] !in m
  }

  predicate Misses<T>(m: map<Sf, T>, sfs: seq<Sf>) {
    forall j :: 0 <= j < |sfs| ==> sfs[j] !in m
  }

  method FirstIn<T>(m: map<Sf, T>, sfs: SuperFeatures) returns (i: nat)
    ensures i < |sfs| ==> First(m, sfs, i)
    ensures i >= |sfs| ==> Misses(m, sfs)
  {
    i := 0;
    while i < |sfs| && sfs[i] !in m
      invariant forall j :: 0 <= j < i ==> j < |sfs| && sfs[j] !in m
    {
      i := i + 1;
    }
  }

  /** What a bucket yields: its first element, which an emptied bucket does not have. */
  function BucketValue(bucket: seq<Versioned>): Lookup {
    if bucket == [] then EmptyBucket else Found(bucket[0].chunkid)
  }

  /** The bucket of the first super-feature that has one. */
  function FirstBucket<T>(m: map<Sf, seq<T>>, sfs: seq<Sf>): Option<seq<T>> {
    if sfs == [] then None else if sfs[0] in m then Some(m[sfs[0]]) else FirstBucket(m, sfs[1..])
  }

  lemma {:induction false} FirstBucketIs<T>(m: map<Sf, seq<T>>, sfs: seq<Sf>, i: nat)
    requires First(m, sfs, i)
    ensures FirstBucket(m, sfs) == Some(m[sfs[i]])
    decreases i
  {
    if i > 0 {
      assert sfs[0] !in m;
      assert forall j :: 0 <= j < i - 1 ==> sfs[1..][j] == sfs[j + 1];
      FirstBucketIs(m, sfs[1..], i - 1);
    }
  }

  lemma {:induction false} NoBucket<T>(m: map<Sf, seq<T>>, sfs: seq<Sf>)
    ensures FirstBucket(m, sfs) == None <==> Misses(m, sfs)
    ensures FirstBucket(m, sfs) != None ==> exists i: nat :: First(m, sfs, i)
  {
    if sfs != [] && sfs[0] !in m {
      NoBucket(m, sfs[1..]);
      assert sfs == [sfs[0]] + sfs[1..];
      if FirstBucket(m, sfs[1..]) != None {
        var i: nat :| First(m, sfs[1..], i);
        assert First(m, sfs, i + 1);
      }
    } else if sfs != [] {
      assert First(m, sfs, 0);
    }
  }

  /** The indexes without their counters. */
  datatype Indexes = Indexes(m1: Tier1, m2: Tier, m3: Tier, version: int)

  function IndexesOf(t: Tiers): Indexes { Indexes(t.sfIndex1, t.sfIndex2, t.sfIndex3, t.version) }

  /** The tiers are searched in order, each with all thirteen super-features. */
  function LookupOf(x: Indexes, sfs: seq<Sf>): Lookup {
    match FirstBucket(x.m1, sfs)
    case Some(b) => if b == [] then EmptyBucket else Found(b[0])
    case None =>
      match FirstBucket(x.m2, sfs)
      case Some(b) => BucketValue(b)
      case None =>
        match FirstBucket(x.m3, sfs)
        case Some(b) => BucketValue(b)
        case None => NotFound
  }

  /** SF_Find */
  method SfFind(t: Tiers, sfs: SuperFeatures, ghost entries: seq<Entry>) returns (r: Lookup)
    requires TiersOk(t, entries)
    ensures r == LookupOf(IndexesOf(t), sfs)
    ensures r.Found? ==> IsBaseId(r.id, entries)
  {
    hide NonEmpty, NoneEmptied;
    var i := FirstIn(t.sfIndex1, sfs);
    if i < |sfs| {
      FirstBucketIs(t.sfIndex1, sfs, i);
      return Found(t.sfIndex1[sfs[i]][0]);
    }
    NoBucket(t.sfIndex1, sfs);
    i := FirstIn(t.sfIndex2, sfs);
    if i < |sfs| {
      FirstBucketIs(t.sfIndex2, sfs, i);
      return BucketValue(t.sfIndex2[sfs[i]]);
    }
    NoBucket(t.sfIndex2, sfs);
    i := FirstIn(t.sfIndex3, sfs);
    if i < |sfs| {
      FirstBucketIs(t.sfIndex3, sfs, i);
      return BucketValue(t.sfIndex3[sfs[i]]);
    }
    NoBucket(t.sfIndex3, sfs);
    return NotFound;
  }

  /** The first bucket that a tier has for the super-features is an emptied one. */
  ghost predicate MeetsEmptied<T>(m: map<Sf, seq<T>>, sfs: seq<Sf>) {
    exists i: nat :: First(m, sfs, i) && m[sfs[i]] == []
  }

  /** The first bucket of all three tiers, in order, is an emptied one. */
  ghost predicate MeetsEmptiedFirst(x: Indexes, sfs: seq<Sf>) {
    || MeetsEmptied(x.m1, sfs)
    || (Misses(x.m1, sfs) && MeetsEmptied(x.m2, sfs))
    || (Misses(x.m1, sfs) && Misses(x.m2, sfs) && MeetsEmptied(x.m3, sfs))
  }

  lemma EmptyIff(x: Indexes, sfs: seq<Sf>)
    ensures LookupOf(x, sfs) == EmptyBucket <==> MeetsEmptiedFirst(x, sfs)
  {
    hide First;
    NoBucket(x.m1, sfs);
    NoBucket(x.m2, sfs);
    NoBucket(x.m3, sfs);
    FirstDecides(x.m1, sfs);
    FirstDecides(x.m2, sfs);
    FirstDecides(x.m3, sfs);
  }

  /** Exactly when a lookup reads an entry that is not there: tier 1, which is never cleaned, has no
      bucket, and the first bucket found in tier 2, or in tier 3 if tier 2 has none, was emptied. */
  lemma EmptyBucketIff(x: Indexes, sfs: seq<Sf>)
    requires forall k :: k in x.m1 ==> x.m1[k] != []
    ensures LookupOf(x, sfs) == EmptyBucket
       <==> Misses(x.m1, sfs) && (MeetsEmptied(x.m2, sfs) || (Misses(x.m2, sfs) && MeetsEmptied(x.m3, sfs)))
  {
    EmptyIff(x, sfs);
  }

  /** Nothing is emptied before CleanIndex removes something. */
  lemma EmptiedWasDeleted(t: Tiers, sfs: seq<Sf>, entries: seq<Entry>)
    requires TiersOk(t, entries) && LookupOf(IndexesOf(t), sfs) == EmptyBucket
    ensures t.sfDelete > 0
  {
    hide NonEmpty;
    EmptyBucketIff(IndexesOf(t), sfs);
  }

  lemma FirstDecides<T>(m: map<Sf, seq<T>>, sfs: seq<Sf>)
    ensures forall i: nat :: First(m, sfs, i) ==> i < |sfs| && sfs[i] in m && FirstBucket(m, sfs) == Some(m[sfs[i]])
  {
    forall i: nat | First(m, sfs, i) ensures i < |sfs| && sfs[i] in m && FirstBucket(m, sfs) == Some(m[sfs[i]]) {
      FirstBucketIs(m, sfs, i);
    }
  }

  // ----- the indexes of a run ------------------------------------------------------------------

  function AllPut(x: Indexes, sfs: SuperFeatures, id: nat): Indexes {
    Indexes(PutAll(x.m1, sfs, 0, 3, id), PutAll(x.m2, sfs, 3, 7, Versioned(id, x.version)),
            PutAll(x.m3, sfs, 7, SF_NUM, Versioned(id, x.version)), x.version)
  }

  function CleanedTier(m: Tier, limit: int): Tier {
    map k | k in m :: if Expired(m[k], limit) then [] else m[k]
  }

  function AllCleaned(x: Indexes): Indexes {
    Indexes(x.m1, CleanedTier(x.m2, x.version - 5), CleanedTier(x.m3, x.version - 2), x.version + 1)
  }

  // ----- CleanIndex ----------------------------------------------------------------------------

  predicate Expired(bucket: seq<Versioned>, limit: int) { bucket != [] && bucket[0].version < limit }

  /** Expired buckets are empty now, the others as they were. */
  ghost predicate CleanedOf(m: Tier, r: Tier, limit: int) {
    r.Keys == m.Keys && forall k :: k in m ==> r[k] == if Expired(m[k], limit) then [] else m[k]
  }

  lemma CleanedIs(m: Tier, r: Tier, limit: int)
    requires CleanedOf(m, r, limit)
    ensures r == CleanedTier(m, limit)
  {
  }

  /** One loop of CleanIndex: the first element of every expired bucket goes. */
  method CleanTier(m: Tier, limit: int) returns (r: Tier, deleted: nat)
    requires forall k :: k in m ==> |m[k]| <= 1
    ensures CleanedOf(m, r, limit)
    ensures |NonEmpty(r)| + deleted == |NonEmpty(m)|
  {
    r, deleted := m, 0;
    var rest := m.Keys;
    while rest != {}
      invariant rest <= m.Keys && r.Keys == m.Keys
      invariant forall k :: k in rest ==> r[k] == m[k]
      invariant forall k :: k in m && k !in rest ==> r[k] == if Expired(m[k], limit) then [] else m[k]
      invariant |NonEmpty(r)| + deleted == |NonEmpty(m)|
      decreases |rest|
    {
      var k :| k in rest;
      rest := rest - {k};
      if Expired(r[k], limit) {
        ghost var was := NonEmpty(r);
        r := r[k := r[k][1..]];
        deleted := deleted + 1;
        assert NonEmpty(r) == was - {k};
      }
    }
  }

  /** After cleaning, what is left in the tier is at most `age` versions old. */
  lemma CleanedIsRecent(m: Tier, r: Tier, entries: seq<Entry>, version: int, age: nat)
    requires TierOk(m, entries, version) && CleanedOf(m, r, version - age)
    ensures TierOk(r, entries, version)
    ensures forall k :: k in r && r[k] != [] ==> version - age <= r[k][0].version <= version
    ensures forall k :: k in m && m[k] != [] && version - age <= m[k][0].version ==> r[k] == m[k]
  {
  }

  lemma NextVersion(m: Tier, entries: seq<Entry>, version: int)
    requires TierOk(m, entries, version)
    ensures TierOk(m, entries, version + 1) && forall k :: k in m ==> |m[k]| <= 1
  {
  }

  lemma Cleaned(m: Tier, r: Tier, entries: seq<Entry>, version: int, age: nat, deleted: nat)
    requires TierOk(m, entries, version) && CleanedOf(m, r, version - age) && |NonEmpty(r)| + deleted == |NonEmpty(m)|
    ensures TierOk(r, entries, version + 1)
    ensures forall k :: k in r && r[k] != [] ==> version - age <= r[k][0].version <= version
    ensures deleted == 0 && NoneEmptied(m) ==> NoneEmptied(r)
  {
    hide NonEmpty, NoneEmptied;
    CleanedIsRecent(m, r, entries, version, age);
    CleanedNone(m, r, version - age, deleted);
    NextVersion(r, entries, version);
  }

  lemma CleanedNone(m: Tier, r: Tier, limit: int, deleted: nat)
    requires CleanedOf(m, r, limit) && |NonEmpty(r)| + deleted == |NonEmpty(m)|
    ensures deleted == 0 && NoneEmptied(m) ==> NoneEmptied(r)
  {
    if deleted == 0 && NoneEmptied(m) {
      assert NonEmpty(m) == m.Keys;
      assert NonEmpty(r) <= m.Keys;
      SameSize(NonEmpty(r), m.Keys);
      forall k | k in r ensures r[k] != [] {
        assert k in NonEmpty(r);
      }
    }
  }

  lemma {:induction false} SameSize<T>(a: set<T>, b: set<T>)
    requires a <= b && |a| == |b|
    ensures a == b
  {
    if a != b {
      var x :| x in b && x !in a;
      Smaller(a, b - {x});
    }
  }

  lemma {:induction false} Smaller<T>(a: set<T>, b: set<T>)
    requires a <= b
    ensures |a| <= |b|
  {
    assert b == a + (b - a);
  }

  /** CleanIndex and the version step after it: what is left is recent. */
  method CleanIndex(t: Tiers, ghost entries: seq<Entry>) returns (r: Tiers)
    requires TiersOk(t, entries)
    ensures TiersOk(r, entries) && r.version == t.version + 1 && r.sfIndex1 == t.sfIndex1 && r.sfNew == t.sfNew
    ensures IndexesOf(r) == AllCleaned(IndexesOf(t))
    ensures forall k :: k in r.sfIndex2 && r.sfIndex2[k] != [] ==> t.version - 5 <= r.sfIndex2[k][0].version <= t.version
    ensures forall k :: k in r.sfIndex3 && r.sfIndex3[k] != [] ==> t.version - 2 <= r.sfIndex3[k][0].version <= t.version
  {
    hide NonEmpty, Tier1Ok, TierOk, NoneEmptied, Expired, CleanedOf, CleanedTier;
    NextVersion(t.sfIndex2, entries, t.version);
    NextVersion(t.sfIndex3, entries, t.version);
    var m2, deleted2 := CleanTier(t.sfIndex2, t.version - 5);
    var m3, deleted3 := CleanTier(t.sfIndex3, t.version - 2);
    Cleaned(t.sfIndex2, m2, entries, t.version, 5, deleted2);
    Cleaned(t.sfIndex3, m3, entries, t.version, 2, deleted3);
    CleanedIs(t.sfIndex2, m2, t.version - 5);
    CleanedIs(t.sfIndex3, m3, t.version - 2);
    r := t.(sfIndex2 := m2, sfIndex3 := m3, sfDelete := t.sfDelete + deleted2 + deleted3, version := t.version + 1);
  }
}
