/**
 What LZ4_compress_fast looks for (src/util/lz4.c, LZ4_compress_generic_validated), without its
 table and its output buffer. The table is a log of the positions put into it; a position is tried
 against the last one in the log with the same hash. `Block` is the block this search gives.
 */
module Lz4Greedy {
  import opened Bytes
  import opened Lz4Format
  import opened Words

  const LZ4_64K_LIMIT := 0x1_0000 + MFLIMIT - 1
  const SKIP_STEPS := 64    // 1 << LZ4_skipTrigger

  datatype TableType = ByU16 | ByU32

  function TableSize(tt: TableType): nat {
    if tt.ByU16? then 0x2000 else 0x1000
  }

  // ----- hashes ----------------------------------------------------------------------------------

  /** LZ4_hashPosition on a 64-bit little-endian machine: hash4 for byU16, hash5 for byU32. */
  function HashOf(src: seq<Byte>, p: nat, tt: TableType): (h: nat)
    requires p + 8 <= |src|
    ensures h < TableSize(tt)
  {
    if tt.ByU16? then Le(src[p..p + 4]) * 2654435761 % 0x1_0000_0000 / 0x8_0000
    else
      Le(src[p..p + 8]) * 0x100_0000 % 0x1_0000_0000_0000_0000 * 889523592379 % 0x1_0000_0000_0000_0000
      / 0x10_0000_0000_0000
  }

  /** Equal bytes have equal hashes: a repetition of the hashed bytes is always looked at. */
  lemma EqualBytesEqualHash(src: seq<Byte>, p: nat, q: nat, tt: TableType)
    requires p + 8 <= |src| && q + 8 <= |src| && src[p..p + 8] == src[q..q + 8]
    ensures HashOf(src, p, tt) == HashOf(src, q, tt)
  {
    assert src[p..p + 4] == src[p..p + 8][..4] && src[q..q + 4] == src[q..q + 8][..4];
  }

  // ----- the log of stored positions -------------------------------------------------------------

  ghost predicate Stored(src: seq<Byte>, ins: seq<nat>) {
    forall i :: 0 <= i < |ins| ==> ins[i] + 8 <= |src|
  }

  ghost predicate Below(ins: seq<nat>, p: nat) {
    forall i :: 0 <= i < |ins| ==> ins[i] < p
  }

  /** The position stored last under the hash `h`; 0 if there is none. */
  ghost function Latest(src: seq<Byte>, tt: TableType, ins: seq<nat>, h: nat): nat
    requires Stored(src, ins)
  {
    if ins == [] then 0
    else if HashOf(src, Last(ins), tt) == h then Last(ins)
    else Latest(src, tt, Init(ins), h)
  }

  lemma {:induction false} LatestBelow(src: seq<Byte>, tt: TableType, ins: seq<nat>, h: nat, p: nat)
    requires Stored(src, ins) && Below(ins, p) && p > 0
    ensures Latest(src, tt, ins, h) < p
  {
    if ins != [] {
      LatestBelow(src, tt, Init(ins), h, p);
    }
  }

  predicate Read32Equal(src: seq<Byte>, m: nat, p: nat)
    requires m < p && p + 4 <= |src|
    ensures Read32Equal(src, m, p) ==> Repeats(src, p, p + 4, p - m)
  {
    src[p] == src[m] && src[p + 1] == src[m + 1] && src[p + 2] == src[m + 2] && src[p + 3] == src[m + 3]
  }

  /** The latest stored position with the hash of `p` is a match for `p`. */
  ghost predicate Hit(src: seq<Byte>, tt: TableType, ins: seq<nat>, p: nat)
    requires Stored(src, ins) && p + 8 <= |src|
  {
    var m := Latest(src, tt, ins, HashOf(src, p, tt));
    m < p <= m + DISTANCE_MAX && Read32Equal(src, m, p)
  }

  // ----- the search ------------------------------------------------------------------------------

  /** How far probe `k` is from the next one. */
  function Step(acc: nat, k: nat): (r: nat)
    requires acc >= 1
    ensures r >= 1
  {
    if k == 0 then 1 else (acc * SKIP_STEPS + k - 1) / SKIP_STEPS
  }

  /** Where probe `k` of a search from `p` is. */
  function Probe(p: nat, acc: nat, k: nat): (r: nat)
    requires acc >= 1
    ensures r >= p + k
  {
    if k == 0 then p else Probe(p, acc, k - 1) + Step(acc, k - 1)
  }

  /** The first probes leave nothing out. */
  lemma {:induction false} ProbesStart(p: nat, k: nat)
    requires k <= SKIP_STEPS + 1
    ensures Probe(p, 1, k) == p + k
  {
    if k > 0 {
      ProbesStart(p, k - 1);
    }
  }

  /** Probe `k` is made: there is room for one more after it. */
  predicate Probed(src: seq<Byte>, p: nat, acc: nat, k: nat)
    requires acc >= 1
  {
    Probe(p, acc, k + 1) + MFLIMIT - 1 <= |src|
  }

  /** The log when probe `k` is made. */
  function LogAt(ins: seq<nat>, p: nat, acc: nat, k: nat): seq<nat>
    requires acc >= 1
  {
    if k == 0 then ins else LogAt(ins, p, acc, k - 1) + [Probe(p, acc, k - 1)]
  }

  lemma {:induction false} LogAtStored(src: seq<Byte>, ins: seq<nat>, p: nat, acc: nat, k: nat)
    requires acc >= 1 && Stored(src, ins) && Probe(p, acc, k) + MFLIMIT - 1 <= |src|
    ensures Stored(src, LogAt(ins, p, acc, k))
  {
    if k > 0 {
      LogAtStored(src, ins, p, acc, k - 1);
    }
  }

  /** Probe `k` is made and hits. */
  ghost predicate HitAt(src: seq<Byte>, tt: TableType, acc: nat, ins: seq<nat>, p: nat, k: nat)
    requires acc >= 1 && Stored(src, ins)
  {
    Probed(src, p, acc, k) &&
    (LogAtStored(src, ins, p, acc, k);
     Hit(src, tt, LogAt(ins, p, acc, k), Probe(p, acc, k)))
  }

  lemma HitIsMatch(src: seq<Byte>, tt: TableType, acc: nat, ins: seq<nat>, p: nat, k: nat)
    requires acc >= 1 && Stored(src, ins) && HitAt(src, tt, acc, ins, p, k)
    ensures var at := Probe(p, acc, k);
            && p <= at && at + MFLIMIT <= |src|
            && Stored(src, LogAt(ins, p, acc, k)) && Stored(src, LogAt(ins, p, acc, k + 1))
            && var m := Latest(src, tt, LogAt(ins, p, acc, k), HashOf(src, at, tt));
               m < at <= m + DISTANCE_MAX && Repeats(src, at, at + MINMATCH, at - m)
  {
    hide Step, Latest, HashOf;
    ProbesRise(p, acc, 0, k);
    LogAtStored(src, ins, p, acc, k);
    LogAtStored(src, ins, p, acc, k + 1);
  }

  /** The number of the first probe that hits, from probe `k` on. */
  ghost function Search(src: seq<Byte>, tt: TableType, acc: nat, ins: seq<nat>, p: nat, k: nat): (r: Option<nat>)
    requires acc >= 1 && Stored(src, ins)
    ensures r.Some? ==> HitAt(src, tt, acc, ins, p, r.value)
    decreases |src| - Probe(p, acc, k)
  {
    if !Probed(src, p, acc, k) then None
    else if HitAt(src, tt, acc, ins, p, k) then Some(k)
    else Search(src, tt, acc, ins, p, k + 1)
  }

  lemma {:induction false} ProbesRise(p: nat, acc: nat, j: nat, k: nat)
    requires acc >= 1 && j <= k
    ensures Probe(p, acc, j) <= Probe(p, acc, k)
    decreases k - j
  {
    if j < k {
      ProbesRise(p, acc, j, k - 1);
    }
  }

  /** A search that finds something stops at the first probe that hits; one that finds nothing has
      made every probe there is room for, and none hits. */
  lemma {:induction false} SearchIsFirst(src: seq<Byte>, tt: TableType, acc: nat, ins: seq<nat>, p: nat, k: nat, j: nat)
    requires acc >= 1 && Stored(src, ins) && k <= j && HitAt(src, tt, acc, ins, p, j)
    requires forall i: nat :: k <= i < j ==> !HitAt(src, tt, acc, ins, p, i)
    ensures Search(src, tt, acc, ins, p, k) == Some(j)
    decreases j - k
  {
    hide Step, Hit;
    ProbesRise(p, acc, k + 1, j + 1);
    if k < j {
      SearchIsFirst(src, tt, acc, ins, p, k + 1, j);
    }
  }

  // ----- the parse -------------------------------------------------------------------------------

  /** Catch up: how far the match of `p` with `m` extends backwards, over the literals from `anchor`. */
  function Back(src: seq<Byte>, anchor: nat, p: nat, m: nat): (b: nat)
    requires anchor <= p <= |src| && m < p
    ensures b <= m && anchor + b <= p && Repeats(src, p - b, p, p - m)
    ensures p - b == anchor || b == m || src[p - b - 1] != src[m - b - 1]
  {
    if p > anchor && m > 0 && src[p - 1] == src[m - 1] then 1 + Back(src, anchor, p - 1, m - 1) else 0
  }

  /** Where the repetition at distance `d` from `p` ends, or the last literals begin. */
  function Extent(src: seq<Byte>, d: nat, p: nat): (r: nat)
    requires 1 <= d <= p && p + LASTLITERALS <= |src|
    ensures p <= r && r + LASTLITERALS <= |src| && Repeats(src, p, r, d)
    ensures r + LASTLITERALS == |src| || src[r] != src[r - d]
    decreases |src| - p
  {
    if p + LASTLITERALS < |src| && src[p] == src[p - d] then Extent(src, d, p + 1) else p
  }

  lemma {:induction false} ExtentIs(src: seq<Byte>, d: nat, p: nat, r: nat)
    requires 1 <= d <= p && r + LASTLITERALS <= |src| && Repeats(src, p, r, d)
    requires r + LASTLITERALS == |src| || src[r] != src[r - d]
    ensures Extent(src, d, p) == r
    decreases r - p
  {
    if p < r {
      assert src[p] == src[p - d];
      ExtentIs(src, d, p + 1, r);
    }
  }

  lemma {:induction false} ExtentCovers(src: seq<Byte>, d: nat, p: nat, q: nat)
    requires 1 <= d <= p && q + LASTLITERALS <= |src| && Repeats(src, p, q, d)
    ensures Extent(src, d, p) >= q
    decreases q - p
  {
    if p < q {
      assert src[p] == src[p - d];
      ExtentCovers(src, d, p + 1, q);
    }
  }

  function Length(s: Sequence): nat {
    |s.lits| + s.mlen
  }

  /** Sequences of the format that leave at least the last literals of `room` bytes. */
  predicate Fits(seqs: seq<Sequence>, room: nat) {
    seqs == [] ||
    (&& Encodable(seqs[0]) && Length(seqs[0]) + LASTLITERALS <= room
     && Fits(seqs[1..], room - Length(seqs[0])))
  }

  /** The sequences from a search at `ip` on, with the literals from `anchor` pending. */
  ghost function Greedy(src: seq<Byte>, tt: TableType, acc: nat, ins: seq<nat>, anchor: nat, ip: nat): (r: seq<Sequence>)
    requires acc >= 1 && Stored(src, ins) && anchor <= ip && anchor + LASTLITERALS <= |src|
    ensures Fits(r, |src| - anchor)
    decreases |src| - ip, 1
  {
    match Search(src, tt, acc, ins, ip, 0)
    case None => []
    case Some(k) =>
      hide Step, HitAt, Latest, HashOf, Back, Probe, LogAt, Stored;
      var at := Probe(ip, acc, k);
      HitIsMatch(src, tt, acc, ins, ip, k);
      var m := Latest(src, tt, LogAt(ins, ip, acc, k), HashOf(src, at, tt));
      var start := at - Back(src, anchor, at, m);
      Matched(src, tt, acc, LogAt(ins, ip, acc, k + 1), anchor, start, at - m, at)
  }

  /** The sequences from a match on whose four bytes at `seen` are known to repeat. */
  ghost function Matched(src: seq<Byte>, tt: TableType, acc: nat, ins: seq<nat>, anchor: nat, start: nat, d: nat, seen: nat): (r: seq<Sequence>)
    requires acc >= 1 && Stored(src, ins) && anchor <= start <= seen && seen + MFLIMIT <= |src|
    requires 1 <= d <= DISTANCE_MAX && d <= start && Repeats(src, seen, seen + MINMATCH, d)
    ensures r != [] && Fits(r, |src| - anchor)
    decreases |src| - seen, 0
  {
    hide Extent, Hit, Stored;
    var end := Extent(src, d, seen);
    ExtentCovers(src, d, seen, seen + MINMATCH);
    var s := Sequence(src[anchor..start], d, end - start);
    var rest := After(src, tt, acc, ins, end);
    assert ([s] + rest)[1..] == rest;
    [s] + rest
  }

  /** The sequences after a match that ends at `end`: the position is tried at once. */
  ghost function After(src: seq<Byte>, tt: TableType, acc: nat, ins: seq<nat>, end: nat): (r: seq<Sequence>)
    requires acc >= 1 && Stored(src, ins) && 2 <= end && end + LASTLITERALS <= |src|
    ensures Fits(r, |src| - end)
    decreases |src| - end, 1
  {
    if end + MFLIMIT - 1 >= |src| then []
    else
      var log := ins + [end - 2];
      if Hit(src, tt, log, end) then
        var m := Latest(src, tt, log, HashOf(src, end, tt));
        Matched(src, tt, acc, log + [end], end, end, end - m, end)
      else Greedy(src, tt, acc, log + [end], end, end + 1)
  }

  // ----- the block -------------------------------------------------------------------------------

  /** The bytes of a parse of the source from `anchor` on, the last literals included. */
  function Coded(src: seq<Byte>, seqs: seq<Sequence>, anchor: nat): (r: seq<Byte>)
    requires anchor <= |src| && Fits(seqs, |src| - anchor)
    ensures anchor + LASTLITERALS <= |src| ==> |r| >= 1 + LASTLITERALS
    decreases |seqs|
  {
    if seqs == [] then EncodeLast(src[anchor..])
    else EncodeSequence(seqs[0]) + Coded(src, seqs[1..], anchor + Length(seqs[0]))
  }

  ghost function Parse(src: seq<Byte>, tt: TableType, acc: nat): (r: seq<Sequence>)
    requires acc >= 1
    ensures Fits(r, |src|)
  {
    if |src| < MFLIMIT + 1 then [] else Greedy(src, tt, acc, [0], 0, 1)
  }

  function TableFor(n: nat): TableType {
    if n < LZ4_64K_LIMIT then ByU16 else ByU32
  }

  ghost function BlockOf(src: seq<Byte>, tt: TableType, acc: nat): seq<Byte>
    requires acc >= 1
  {
    hide Greedy, Coded;
    Coded(src, Parse(src, tt, acc), 0)
  }

  ghost function Block(src: seq<Byte>, acc: nat): seq<Byte>
    requires acc >= 1
  {
    BlockOf(src, TableFor(|src|), acc)
  }

  // ----- inputs that compress --------------------------------------------------------------------

  ghost predicate Uniform(src: seq<Byte>) {
    forall i, j :: 0 <= i < j < |src| ==> src[i] == src[j]
  }

  /** The second byte is found to repeat the first, at the first probe. */
  lemma UniformHit(src: seq<Byte>, tt: TableType, acc: nat)
    requires |src| >= MFLIMIT + 1 && acc >= 1 && Uniform(src)
    ensures Stored(src, [0]) && HitAt(src, tt, acc, [0], 1, 0) && Latest(src, tt, [0], HashOf(src, 1, tt)) == 0
  {
    hide HashOf;
    var ins: seq<nat> := [0];
    assert Init(ins) == [];
    assert Step(acc, 0) == 1 && Probe(1, acc, 0) == 1 && Probe(1, acc, 1) == 2;
    assert LogAt(ins, 1, acc, 0) == ins;
    assert Latest(src, tt, Init(ins), HashOf(src, 1, tt)) == 0;
    assert Read32Equal(src, 0, 1);
    assert Hit(src, tt, ins, 1);
    assert Probed(src, 1, acc, 0);
  }

  lemma UniformParse(src: seq<Byte>, tt: TableType, acc: nat)
    requires |src| >= MFLIMIT + 1 && acc >= 1 && Uniform(src)
    ensures Parse(src, tt, acc) == [Sequence([src[0]], 1, |src| - 6)]
  {
    hide HashOf, Step, Latest, HitAt;
    UniformHit(src, tt, acc);
    SearchIsFirst(src, tt, acc, [0], 1, 0, 0);
    ExtentIs(src, 1, 1, |src| - 5);
    assert src[0..1] == [src[0]];
    assert Extent(src, 1, 1) == |src| - 5;
    assert Search(src, tt, acc, [0], 1, 0) == Some(0);
    assert Probe(1, acc, 0) == 1;
    assert Back(src, 0, 1, 0) == 0;
    var log := LogAt([0], 1, acc, 1);
    LogAtStored(src, [0], 1, acc, 1);
    assert After(src, tt, acc, log, |src| - 5) == [];
    assert Greedy(src, tt, acc, [0], 0, 1) == Matched(src, tt, acc, log, 0, 1, 1, 1);
  }

  /** An input of one repeated byte is one literal, one match and the last literals, whatever the
      acceleration. */
  lemma UniformBlock(src: seq<Byte>, acc: nat)
    requires |src| >= MFLIMIT + 1 && acc >= 1 && Uniform(src)
    ensures Block(src, acc) == EncodeSequence(Sequence([src[0]], 1, |src| - 6)) + EncodeLast(src[|src| - 5..])
    ensures |Block(src, acc)| == 10 + (|src| + 230) / 255
  {
    hide Parse, LengthBytes;
    UniformParse(src, TableFor(|src|), acc);
    var s := Sequence([src[0]], 1, |src| - 6);
    assert [s][1..] == [];
    assert Coded(src, [s], 0) == EncodeSequence(s) + Coded(src, [], |src| - 5);
  }
}
