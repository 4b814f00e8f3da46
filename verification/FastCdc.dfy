/**
 CutPointFastCDC of src/chunking/chunker.cc: a gear hash is run over the bytes after the minimum
 size and the chunk ends where its low bits are all zero, or at the maximum size.
 */
module FastCdc {
  import opened Bytes
  import opened Words

  /** GEAR and the sizes. The masks are 2^k - 1, so testing `fp & mask` is testing a remainder. */
  datatype Params = Params(gear: seq<nat>, minChunkSize: nat, avgChunkSize: nat, maxChunkSize: nat,
                           normalSize: nat, strict: nat, loose: nat)

  predicate ParamsOk(p: Params) {
    && |p.gear| == 256 && (forall b :: 0 <= b < 256 ==> p.gear[b] < TWO32)
    && 0 < p.minChunkSize <= p.maxChunkSize && p.normalSize <= p.maxChunkSize
    && 0 < p.strict && 0 < p.loose && 0 < p.avgChunkSize <= p.maxChunkSize
  }

  function Min(a: nat, b: nat): nat { if a <= b then a else b }

  function Max(a: nat, b: nat): nat { if a >= b then a else b }

  function DivCeil(a: nat, b: nat): nat
    requires b > 0
  {
    if a % b == 0 then a / b else a / b + 1
  }

  function CalNormalSize(min: nat, av: nat, max: nat): nat {
    var off := min + DivCeil(min, 2);
    var diff := if off > av then 0 else av - off;
    if diff > max then max else diff
  }

  /** The settings of the chunker: 13 bits on average, so 14 and 12 low bits. */
  function Defaults(gear: seq<nat>): Params {
    Params(gear, 4096, 8192, 16384, CalNormalSize(4096, 8192, 16384), 16384, 4096)
  }

  /** The first loop of the cut never runs under the default settings. */
  lemma DefaultsHaveNoNormalPhase(gear: seq<nat>)
    ensures Defaults(gear).normalSize == 2048 < Defaults(gear).minChunkSize
  {
  }

  function Roll(p: Params, fp: nat, b: Byte): (r: nat)
    requires ParamsOk(p)
    ensures r < TWO32
  {
    (fp / 2 + p.gear[b]) % TWO32
  }

  /** The gear hash of `s[i..k]`. */
  function Gear(p: Params, s: seq<Byte>, i: nat, k: nat): nat
    requires ParamsOk(p) && i <= k <= |s|
    decreases k
  {
    if i == k then 0 else Roll(p, Gear(p, s, i, k - 1), s[k - 1])
  }

  /** `x` after `n` shifts to the right. */
  function Shifted(x: nat, n: nat): nat { if n == 0 then x else Shifted(x, n - 1) / 2 }

  /** Bytes whose gear is 0 only shift the hash: what a byte puts in moves right by one bit a byte, and
      after 32 bytes nothing of it is left. */
  lemma {:induction false} GearFades(p: Params, s: seq<Byte>, i: nat, j: nat, k: nat)
    requires ParamsOk(p) && i <= j <= k <= |s| && forall m :: j <= m < k ==> p.gear[s[m]] == 0
    ensures Gear(p, s, i, k) == Shifted(Gear(p, s, i, j), k - j)
    ensures k - j >= 32 ==> Gear(p, s, i, k) == 0
    decreases k - j
  {
    if j < k {
      GearFades(p, s, i, j, k - 1);
      GearBelow(p, s, i, k - 1);
    }
    GearBelow(p, s, i, j);
    if k - j >= 32 {
      ShiftedOut(Gear(p, s, i, j), k - j);
    }
  }

  lemma GearBelow(p: Params, s: seq<Byte>, i: nat, k: nat)
    requires ParamsOk(p) && i <= k <= |s|
    ensures Gear(p, s, i, k) < TWO32
  {
  }

  lemma {:induction false} ShiftedBelow(x: nat, n: nat, bits: nat)
    requires x < Pow2(bits) && n <= bits
    ensures Shifted(x, n) < Pow2(bits - n)
  {
    hide Pow2;
    if n > 0 {
      ShiftedBelow(x, n - 1, bits);
      Pow2Next(bits - n);
    }
  }

  lemma {:induction false} ShiftedOut(x: nat, n: nat)
    requires x < TWO32 && n >= 32
    ensures Shifted(x, n) == 0
    decreases n
  {
    if n > 32 {
      ShiftedOut(x, n - 1);
    } else {
      assert Pow2(32) == TWO32 && Pow2(0) == 1;
      hide Pow2, Shifted;
      ShiftedBelow(x, 32, 32);
    }
  }

  function Start(p: Params, len: nat): nat { Min(len, p.minChunkSize) }

  /** A chunk may end after `k` bytes: the hash has enough zero bits, more of them up to the normal size. */
  predicate Fires(p: Params, s: seq<Byte>, k: nat)
    requires ParamsOk(p) && Start(p, |s|) < k <= |s|
  {
    Gear(p, s, Start(p, |s|), k) % (if k <= Min(p.normalSize, |s|) then p.strict else p.loose) == 0
  }

  /** The place of the cut: the first that fires, or the end of the longest chunk. */
  ghost predicate IsCut(p: Params, s: seq<Byte>, r: nat)
    requires ParamsOk(p)
  {
    && Start(p, |s|) <= r <= Min(p.maxChunkSize, |s|)
    && (forall k :: Start(p, |s|) < k < r ==> !Fires(p, s, k))
    && ((r > Start(p, |s|) && Fires(p, s, r)) || r == Min(p.maxChunkSize, |s|))
  }

  lemma CutIsUnique(p: Params, s: seq<Byte>, a: nat, b: nat)
    requires ParamsOk(p) && IsCut(p, s, a) && IsCut(p, s, b)
    ensures a == b
  {
  }

  /** CutPointFastCDC on the bytes `src[at..at + len]`. */
  method CutPointFastCDC(p: Params, src: seq<Byte>, at: nat, len: nat) returns (r: nat)
    requires ParamsOk(p) && at + len <= |src|
    ensures IsCut(p, src[at..at + len], r)
  {
    ghost var s := src[at..at + len];
    var fp, i := 0, Min(len, p.minChunkSize);
    var n := Min(p.normalSize, len);
    ghost var start := i;
    while i < n
      invariant start <= i <= Max(start, n) && fp == Gear(p, s, start, i)
      invariant forall k :: start < k <= i ==> !Fires(p, s, k)
    {
      assert src[at + i] == s[i];
      fp := Roll(p, fp, src[at + i]);
      if fp % p.strict == 0 {
        return i + 1;
      }
      i := i + 1;
    }
    n := Min(p.maxChunkSize, len);
    while i < n
      invariant start <= i <= n && i >= Min(p.normalSize, len) && fp == Gear(p, s, start, i)
      invariant forall k :: start < k <= i ==> !Fires(p, s, k)
    {
      assert src[at + i] == s[i];
      fp := Roll(p, fp, src[at + i]);
      if fp % p.loose == 0 {
        return i + 1;
      }
      i := i + 1;
    }
    return i;
  }

  // ----- a cut depends on the first maxChunkSize bytes only ------------------------------------

  lemma {:induction false} GearPrefix(p: Params, s: seq<Byte>, t: seq<Byte>, i: nat, k: nat)
    requires ParamsOk(p) && i <= k <= |s| && k <= |t| && s[..k] == t[..k]
    ensures Gear(p, s, i, k) == Gear(p, t, i, k)
    decreases k
  {
    if i < k {
      assert s[..k - 1] == s[..k][..k - 1] == t[..k - 1];
      assert s[k - 1] == s[..k][k - 1] == t[k - 1];
      GearPrefix(p, s, t, i, k - 1);
    }
  }

  /** What is seen of the file beyond the longest chunk does not matter. */
  lemma CutIsLocal(p: Params, s: seq<Byte>, w: nat, r: nat)
    requires ParamsOk(p) && w <= |s| && (w >= p.maxChunkSize || w == |s|)
    ensures IsCut(p, s[..w], r) <==> IsCut(p, s, r)
  {
    var t := s[..w];
    assert w == |s| ==> t == s;
    forall k: nat | Start(p, |s|) < k <= Min(p.maxChunkSize, |s|)
      ensures k <= w && Start(p, w) == Start(p, |s|) && Fires(p, t, k) == Fires(p, s, k)
    {
      assert t[..k] == s[..k];
      GearPrefix(p, t, s, Start(p, |s|), k);
    }
  }
}
