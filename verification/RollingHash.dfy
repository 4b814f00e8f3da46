/**
 The two rolling hashes: the 64-byte window of src/method/Ntrans_similarity.cc with its lookup
 tables, modulo 2^64, and the 48-byte window of GetSF in src/method/absMethod.cc, modulo a prime.
 Both are shown to give, for every window, the polynomial of its bytes.
 */
module RollingHash {
  import opened Bytes

  function Power(b: nat, n: nat): nat {
    if n == 0 then 1 else b * Power(b, n - 1)
  }

  /** The polynomial of a window, first byte at the highest power. */
  function Poly(b: nat, s: seq<Byte>): nat {
    if s == [] then 0 else Poly(b, s[..|s| - 1]) * b + s[|s| - 1]
  }

  lemma {:induction false} PolyFirst(b: nat, s: seq<Byte>)
    requires s != []
    ensures Poly(b, s) == s[0] * Power(b, |s| - 1) + Poly(b, s[1..])
    decreases |s|
  {
    var n := |s| - 1;
    if n == 0 {
      assert s[..0] == [] && s[1..] == [];
    } else {
      PolyFirst(b, s[..n]);
      assert s[..n][1..] == s[1..][..n - 1];
      Spread(s[0], Power(b, n - 1), Poly(b, s[1..n]), b);
      assert s[1..][..n - 1] == s[1..n];
    }
  }

  lemma Spread(x: int, p: int, q: int, b: int)
    ensures (x * p + q) * b == x * (b * p) + q * b
  {
  }

  // ----- congruence ----------------------------------------------------------------------------

  ghost predicate Cong(m: nat, a: int, b: int) {
    exists k: int :: a == b + k * m
  }

  lemma CongAdd(m: nat, a: int, b: int, c: int, d: int)
    requires Cong(m, a, b) && Cong(m, c, d)
    ensures Cong(m, a + c, b + d)
  {
    var k :| a == b + k * m;
    var l :| c == d + l * m;
    assert a + c == b + d + (k + l) * m;
  }

  lemma CongMul(m: nat, a: int, b: int, c: int)
    requires Cong(m, a, b)
    ensures Cong(m, a * c, b * c)
  {
    var k :| a == b + k * m;
    assert a * c == b * c + (k * c) * m;
  }

  lemma CongTrans(m: nat, a: int, b: int, c: int)
    requires Cong(m, a, b) && Cong(m, b, c)
    ensures Cong(m, a, c)
  {
    var k :| a == b + k * m;
    var l :| b == c + l * m;
    assert a == c + (k + l) * m;
  }

  lemma CongSelf(m: nat, a: int)
    ensures Cong(m, a, a)
  {
    assert a == a + 0 * m;
  }

  lemma CongMod(m: nat, a: int)
    requires m > 0
    ensures Cong(m, a % m, a)
  {
    assert a % m == a + (-(a / m)) * m;
  }

  /** Congruent to `b` and in range means the remainder of `b`. */
  lemma CongUnique(m: nat, a: int, b: int)
    requires m > 0 && 0 <= a < m && Cong(m, a, b)
    ensures a == b % m
  {
    var k :| a == b + k * m;
    var q := b / m;
    assert b == q * m + b % m;
    var d := q + k;
    assert a == d * m + b % m;
    AtLeastOneApart(d, m);
  }

  lemma AtLeastOneApart(d: int, m: nat)
    ensures d >= 1 ==> d * m >= m
    ensures d <= -1 ==> d * m <= -(m as int)
  {
  }

  // ----- one step of a window ------------------------------------------------------------------

  /** Taking out the first byte of a window and appending the next one. */
  lemma Slide(b: nat, s: seq<Byte>, j: nat, w: nat)
    requires 0 < w && j + w < |s|
    ensures Poly(b, s[j + 1..j + 1 + w]) == (Poly(b, s[j..j + w]) - s[j] * Power(b, w - 1)) * b + s[j + w]
  {
    PolyFirst(b, s[j..j + w]);
    assert s[j..j + w][1..] == s[j + 1..j + w];
    var t := s[j + 1..j + 1 + w];
    assert t[..w - 1] == s[j + 1..j + w];
  }

  /** A value that stands for the window, rolled forward, stands for the next window. */
  lemma SlideCong(m: nat, b: nat, s: seq<Byte>, j: nat, w: nat, fp: int, out: int)
    requires 0 < w && j + w < |s|
    requires Cong(m, fp, Poly(b, s[j..j + w])) && Cong(m, out, -(s[j] * Power(b, w - 1)))
    ensures Cong(m, (fp + out) * b + s[j + w], Poly(b, s[j + 1..j + 1 + w]))
  {
    hide Poly, Power, Cong;
    Slide(b, s, j, w);
    CongAdd(m, fp, Poly(b, s[j..j + w]), out, -(s[j] * Power(b, w - 1)));
    CongMul(m, fp + out, Poly(b, s[j..j + w]) - s[j] * Power(b, w - 1), b);
    CongSelf(m, s[j + w]);
    CongAdd(m, (fp + out) * b, (Poly(b, s[j..j + w]) - s[j] * Power(b, w - 1)) * b, s[j + w], s[j + w]);
  }
}

/** Windows of 64 bytes, base 257, modulo 2^64. */
module NTransform {
  import opened Bytes
  import opened Words
  import opened RollingHash

  const WINDOW := 64
  const BASE := 257

  /** The constructor's tables: powers of the base, and for each byte what removes it. */
  class FeatureGen {
    const powerLUT: array<nat>
    const removeLUT: array<nat>

    ghost predicate Valid()
      reads powerLUT, removeLUT
    {
      && powerLUT.Length == WINDOW && removeLUT.Length == 256
      && (forall i :: 0 <= i < WINDOW ==> powerLUT[i] == Power(BASE, i) % TWO64)
      && (forall v :: 0 <= v < 256 ==> removeLUT[v] < TWO64 && Cong(TWO64, removeLUT[v], -(v * Power(BASE, WINDOW - 1))))
    }

    constructor ()
      ensures Valid()
    {
      powerLUT := new nat[WINDOW];
      removeLUT := new nat[256];
      new;
      FillPowers();
      FillRemoves();
    }

    method FillPowers()
      requires powerLUT.Length == WINDOW
      modifies powerLUT
      ensures forall i :: 0 <= i < WINDOW ==> powerLUT[i] == Power(BASE, i) % TWO64
    {
      hide Power;
      powerLUT[0] := 1;
      ZerothPower(BASE);
      for i := 1 to WINDOW
        invariant forall j :: 0 <= j < i ==> powerLUT[j] == Power(BASE, j) % TWO64
      {
        NextPower(BASE, i);
        powerLUT[i] := powerLUT[i - 1] * BASE % TWO64;
      }
    }

    method FillRemoves()
      requires powerLUT.Length == WINDOW && removeLUT.Length == 256 && powerLUT != removeLUT
      requires powerLUT[WINDOW - 1] == Power(BASE, WINDOW - 1) % TWO64
      modifies removeLUT
      ensures forall v :: 0 <= v < 256 ==> removeLUT[v] < TWO64 && Cong(TWO64, removeLUT[v], -(v * Power(BASE, WINDOW - 1)))
    {
      hide Power, Cong;
      for i := 0 to 256
        invariant forall v :: 0 <= v < i ==> removeLUT[v] < TWO64 && Cong(TWO64, removeLUT[v], -(v * Power(BASE, WINDOW - 1)))
      {
        var r := i * powerLUT[WINDOW - 1] % TWO64;
        if r != 0 {
          r := (TWO64 - 1 - r + 1) % TWO64;
        }
        RemoveIsNegative(i, Power(BASE, WINDOW - 1), r);
        removeLUT[i] := r;
      }
    }

    /** The fingerprint loop of getFeatureList. The window that ends at the end of the chunk is
        never recorded. */
    method Fingerprints(chunk: seq<Byte>) returns (fpList: seq<nat>)
      requires Valid()
      ensures |fpList| == if |chunk| < WINDOW then 0 else |chunk| - WINDOW
      ensures forall j :: 0 <= j < |fpList| ==> fpList[j] == Poly(BASE, chunk[j..j + WINDOW]) % TWO64
    {
      hide Power, Cong, Poly;
      fpList := [];
      var cnt: nat, winFp: nat := 0, 0;
      StartsEmpty(chunk);
      while cnt < |chunk|
        invariant 0 <= cnt <= |chunk| && winFp < TWO64
        invariant cnt <= WINDOW ==> fpList == [] && Filling(chunk, cnt, winFp)
        invariant cnt >= WINDOW ==> |fpList| == cnt - WINDOW && Cong(TWO64, winFp, Poly(BASE, chunk[cnt - WINDOW..cnt]))
        invariant forall j :: 0 <= j < |fpList| ==> fpList[j] == Poly(BASE, chunk[j..j + WINDOW]) % TWO64
      {
        if cnt < WINDOW {
          FillStep(chunk, cnt, winFp);
          winFp := (winFp + chunk[cnt] * powerLUT[WINDOW - cnt - 1]) % TWO64;
          cnt := cnt + 1;
          Filled(chunk, cnt, winFp);
          continue;
        }
        var j := cnt - WINDOW;
        CongUnique(TWO64, winFp, Poly(BASE, chunk[j..j + WINDOW]));
        fpList := fpList + [winFp];
        var v := chunk[j];
        var rolled := (winFp + removeLUT[v]) * BASE + chunk[cnt];
        SlideCong(TWO64, BASE, chunk, j, WINDOW, winFp, removeLUT[v]);
        CongMod(TWO64, rolled);
        CongTrans(TWO64, rolled % TWO64, rolled, Poly(BASE, chunk[j + 1..j + 1 + WINDOW]));
        winFp := rolled % TWO64;
        cnt := cnt + 1;
      }
    }

    /** The selection loop for one feature: the fingerprint whose linear image is largest, the
        first one of several, or 0 if no image is above 0. */
    method Select(fpList: seq<nat>, m: nat, a: nat) returns (targetFp: nat)
      ensures Selected(fpList, m, a, targetFp)
    {
      var maxPi := 0;
      targetFp := 0;
      ghost var at := 0;
      for j := 0 to |fpList|
        invariant forall i :: 0 <= i < j ==> Image(fpList[i], m, a) <= maxPi
        invariant maxPi == 0 ==> targetFp == 0
        invariant maxPi > 0 ==> at < j && fpList[at] == targetFp && Image(targetFp, m, a) == maxPi
        invariant maxPi > 0 ==> forall i :: 0 <= i < at ==> Image(fpList[i], m, a) < maxPi
      {
        var pi := Image(fpList[j], m, a);
        if maxPi < pi {
          maxPi, targetFp := pi, fpList[j];
          at := j;
        }
      }
    }
  }

  /** (m * fp + a) in 64 bits, masked to 32. */
  function Image(fp: nat, m: nat, a: nat): nat { (m * fp + a) % TWO64 % 0x1_0000_0000 }

  ghost predicate Selected(fpList: seq<nat>, m: nat, a: nat, targetFp: nat) {
    || (targetFp == 0 && forall i :: 0 <= i < |fpList| ==> Image(fpList[i], m, a) == 0)
    || exists at :: (0 <= at < |fpList| && fpList[at] == targetFp && Image(targetFp, m, a) > 0
         && (forall i :: 0 <= i < at ==> Image(fpList[i], m, a) < Image(targetFp, m, a))
         && (forall i :: 0 <= i < |fpList| ==> Image(fpList[i], m, a) <= Image(targetFp, m, a)))
  }

  lemma ZerothPower(b: nat)
    ensures Power(b, 0) == 1
  {
  }

  lemma NextPower(b: nat, i: nat)
    requires i > 0
    ensures Power(b, i) % TWO64 == (Power(b, i - 1) % TWO64) * b % TWO64
  {
    hide Power;
    var p := Power(b, i - 1);
    PowerStep(b, i);
    CongMod(TWO64, p);
    CongMul(TWO64, p % TWO64, p, b);
    var q := (p % TWO64) * b;
    CongMod(TWO64, q);
    CongTrans(TWO64, q % TWO64, q, p * b);
    CongUnique(TWO64, q % TWO64, p * b);
  }

  lemma PowerStep(b: nat, i: nat)
    requires i > 0
    ensures Power(b, i) == Power(b, i - 1) * b
  {
  }

  /** The entry of the remove table is minus the byte's contribution, modulo 2^64. */
  lemma RemoveIsNegative(v: nat, power: nat, r: nat)
    requires var t := v * (power % TWO64) % TWO64;
             r == if t == 0 then 0 else (TWO64 - 1 - t + 1) % TWO64
    ensures r < TWO64 && Cong(TWO64, r, -(v * power))
  {
    hide Cong;
    var t := v * (power % TWO64) % TWO64;
    Negated(t, r);
    CongMod(TWO64, power);
    CongMul(TWO64, power % TWO64, power, v);
    CongMod(TWO64, v * (power % TWO64));
    CongTrans(TWO64, t, (power % TWO64) * v, power * v);
    var x: int, y: int := t, power * v;
    CongMul(TWO64, x, y, -1);
    CongTrans(TWO64, r, x * -1, y * -1);
  }

  lemma Negated(t: nat, r: nat)
    requires t < TWO64 && r == if t == 0 then 0 else (TWO64 - 1 - t + 1) % TWO64
    ensures r < TWO64 && Cong(TWO64, r, (t as int) * -1)
  {
    var x: int := t;
    assert t > 0 ==> r == x * -1 + 1 * TWO64;
    assert t == 0 ==> r == x * -1 + 0 * TWO64;
  }

  /** While the window fills, its bytes already stand at their final powers. */
  ghost predicate Filling(chunk: seq<Byte>, cnt: nat, winFp: nat)
    requires cnt <= |chunk| && cnt <= WINDOW
  {
    Cong(TWO64, winFp, Poly(BASE, chunk[..cnt]) * Power(BASE, WINDOW - cnt))
  }

  lemma StartsEmpty(chunk: seq<Byte>)
    ensures Filling(chunk, 0, 0)
  {
    CongSelf(TWO64, 0);
    hide Cong;
    assert chunk[..0] == [];
  }

  lemma FillStep(chunk: seq<Byte>, cnt: nat, winFp: nat)
    requires cnt < |chunk| && cnt < WINDOW && Filling(chunk, cnt, winFp)
    ensures Filling(chunk, cnt + 1, (winFp + chunk[cnt] * (Power(BASE, WINDOW - cnt - 1) % TWO64)) % TWO64)
  {
    hide Cong, Poly, Power;
    var p := Power(BASE, WINDOW - cnt - 1);
    var add := chunk[cnt] * (p % TWO64);
    var w := winFp + add;
    CongMod(TWO64, p);
    CongMul(TWO64, p % TWO64, p, chunk[cnt]);
    assert add == (p % TWO64) * chunk[cnt];
    CongAdd(TWO64, winFp, Poly(BASE, chunk[..cnt]) * Power(BASE, WINDOW - cnt), add, p * chunk[cnt]);
    PolyPush(BASE, chunk, cnt);
    PowerStep(BASE, WINDOW - cnt);
    Regroup(Poly(BASE, chunk[..cnt]), BASE, p, chunk[cnt]);
    CongMod(TWO64, w);
    CongTrans(TWO64, w % TWO64, w, Poly(BASE, chunk[..cnt + 1]) * p);
  }

  lemma Regroup(q: int, b: int, p: int, c: int)
    ensures q * (p * b) + p * c == (q * b + c) * p
  {
  }

  lemma PolyPush(b: nat, s: seq<Byte>, k: nat)
    requires k < |s|
    ensures Poly(b, s[..k + 1]) == Poly(b, s[..k]) * b + s[k]
  {
    assert s[..k + 1][..k] == s[..k];
  }

  lemma Filled(chunk: seq<Byte>, cnt: nat, winFp: nat)
    requires cnt <= |chunk| && cnt <= WINDOW && Filling(chunk, cnt, winFp)
    ensures cnt == WINDOW ==> Cong(TWO64, winFp, Poly(BASE, chunk[0..cnt]))
  {
    hide Cong, Poly;
    ZerothPower(BASE);
  }
}

/** GetSF: twelve features of a chunk, each the largest window hash of its twelfth. */
module FinesseFeatures {
  import opened Bytes
  import opened RollingHash

  const WINDOW := 48
  const A := 37
  const MOD := 1000000007
  const FEATURE_NUM := 12

  /** subchunkIndex: where the twelfths begin. */
  function Twelfth(size: nat, i: nat): nat { size * i / FEATURE_NUM }

  /** The first window of every twelfth lies in the chunk exactly if there are more than 564 bytes. */
  lemma ReadsInRange(size: nat)
    ensures (forall i :: 0 <= i < FEATURE_NUM ==> Twelfth(size, i) + WINDOW <= size) <==> size > 564
  {
    if size <= 564 {
      assert Twelfth(size, 11) + WINDOW > size;
    }
  }

  /** Above 575 bytes every twelfth holds a whole window. */
  lemma TwelfthsHoldWindows(size: nat, i: nat)
    requires size >= 576 && i < FEATURE_NUM
    ensures Twelfth(size, i) + WINDOW <= Twelfth(size, i + 1)
  {
  }

  function WindowHash(s: seq<Byte>, j: nat): nat
    requires j + WINDOW <= |s|
  {
    Poly(A, s[j..j + WINDOW]) % MOD
  }

  /** `f` is the largest hash of the windows that begin at `lo` to `hi - 48`, or 0 if there are none. */
  ghost predicate IsFeature(s: seq<Byte>, lo: nat, hi: nat, f: nat)
    requires hi <= |s|
  {
    && (forall j :: lo <= j && j + WINDOW <= hi ==> WindowHash(s, j) <= f)
    && (f == 0 || exists j :: lo <= j && j + WINDOW <= hi && WindowHash(s, j) == f)
  }

  /** Apower: 37^47 by repeated multiplication. */
  method PowerMod() returns (p: nat)
    ensures p == Power(A, WINDOW - 1) % MOD
  {
    hide Power;
    p := 1;
    PowerZero();
    for i := 0 to WINDOW - 1
      invariant p == Power(A, i) % MOD
    {
      PowerNext(i, p);
      p := p * A % MOD;
    }
  }

  lemma PowerZero()
    ensures Power(A, 0) % MOD == 1
  {
  }

  lemma PowerNext(i: nat, p: nat)
    requires p == Power(A, i) % MOD
    ensures p * A % MOD == Power(A, i + 1) % MOD
  {
    hide Power;
    PowerUp(i);
    CongMod(MOD, Power(A, i));
    CongMul(MOD, p, Power(A, i), A);
    CongMod(MOD, p * A);
    CongTrans(MOD, p * A % MOD, p * A, Power(A, i) * A);
    CongUnique(MOD, p * A % MOD, Power(A, i) * A);
  }

  lemma PowerUp(i: nat)
    ensures Power(A, i + 1) == Power(A, i) * A
  {
  }

  /** The hash of the first window of a twelfth. */
  method FirstWindow(ptr: seq<Byte>, at: nat) returns (fp: nat)
    requires at + WINDOW <= |ptr|
    ensures fp == WindowHash(ptr, at)
  {
    hide Poly;
    fp := 0;
    EmptyPoly(ptr, at);
    for j := at to at + WINDOW
      invariant fp == Poly(A, ptr[at..j]) % MOD
    {
      PushMod(ptr, at, j, fp);
      fp := (fp * A + ptr[j]) % MOD;
    }
  }

  lemma EmptyPoly(ptr: seq<Byte>, at: nat)
    requires at <= |ptr|
    ensures Poly(A, ptr[at..at]) % MOD == 0
  {
  }

  lemma PushMod(ptr: seq<Byte>, at: nat, j: nat, fp: nat)
    requires at <= j < |ptr| && fp == Poly(A, ptr[at..j]) % MOD
    ensures (fp * A + ptr[j]) % MOD == Poly(A, ptr[at..j + 1]) % MOD
  {
    PolyGrows(ptr, at, j);
    hide Poly, Cong;
    var q, next := Poly(A, ptr[at..j]), fp * A + ptr[j];
    CongMod(MOD, q);
    CongMul(MOD, fp, q, A);
    CongSelf(MOD, ptr[j]);
    CongAdd(MOD, fp * A, q * A, ptr[j], ptr[j]);
    CongMod(MOD, next);
    CongTrans(MOD, next % MOD, next, q * A + ptr[j]);
    CongUnique(MOD, next % MOD, q * A + ptr[j]);
  }

  lemma PolyGrows(ptr: seq<Byte>, at: nat, j: nat)
    requires at <= j < |ptr|
    ensures Poly(A, ptr[at..j + 1]) == Poly(A, ptr[at..j]) * A + ptr[j]
  {
    assert ptr[at..j + 1][..j - at] == ptr[at..j];
  }

  /** Removing the first byte and adding the next gives the hash of the next window. */
  method RollOn(ptr: seq<Byte>, j: nat, fp0: nat, apower: nat) returns (fp: nat)
    requires j + WINDOW < |ptr| && fp0 == WindowHash(ptr, j) && apower == Power(A, WINDOW - 1) % MOD
    ensures fp == WindowHash(ptr, j + 1)
  {
    hide Power, Poly, Cong;
    var rest := TakeOut(ptr[j], fp0, apower);
    fp := (rest * A + ptr[j + WINDOW]) % MOD;
    Rolled(ptr, j, fp0, rest, fp);
  }

  /** `fp -= (byte * Apower) % MOD`, and then MOD is added until the result is not negative. */
  method TakeOut(b: Byte, fp0: nat, apower: nat) returns (rest: nat)
    requires fp0 < MOD && apower == Power(A, WINDOW - 1) % MOD
    ensures rest < MOD && Cong(MOD, rest - fp0, -(b * Power(A, WINDOW - 1)))
  {
    hide Power;
    var fp: int := fp0 - b * apower % MOD;
    ghost var first, n := fp, 0;
    while fp < 0
      invariant fp == first + n * MOD && fp < MOD
      decreases -fp
    {
      fp := fp + MOD;
      n := n + 1;
    }
    Removed(b, fp0, fp, apower, n);
    rest := fp;
  }

  lemma Removed(b: Byte, fp0: nat, fp: int, apower: nat, n: int)
    requires apower == Power(A, WINDOW - 1) % MOD && fp == fp0 - b * apower % MOD + n * MOD
    ensures Cong(MOD, fp - fp0, -(b * Power(A, WINDOW - 1)))
  {
    hide Power;
    var p := Power(A, WINDOW - 1);
    var k := p / MOD;
    var l := b * apower / MOD;
    assert p == k * MOD + apower;
    assert b * apower == l * MOD + b * apower % MOD;
    assert b * p == (b * k) * MOD + b * apower;
    assert fp - fp0 == -(b * p) + (b * k + l + n) * MOD;
  }

  lemma Rolled(ptr: seq<Byte>, j: nat, fp0: nat, rest: nat, fp: nat)
    requires j + WINDOW < |ptr| && fp0 == WindowHash(ptr, j)
    requires Cong(MOD, rest - fp0, -(ptr[j] * Power(A, WINDOW - 1)))
    requires fp == (rest * A + ptr[j + WINDOW]) % MOD
    ensures fp == WindowHash(ptr, j + 1)
  {
    hide Power, Poly, Cong;
    var q := Poly(A, ptr[j..j + WINDOW]);
    CongMod(MOD, q);
    SlideCong(MOD, A, ptr, j, WINDOW, fp0, rest - fp0);
    var next := rest * A + ptr[j + WINDOW];
    assert (fp0 + (rest - fp0)) * A + ptr[j + WINDOW] == next;
    CongMod(MOD, next);
    CongTrans(MOD, fp, next, Poly(A, ptr[j + 1..j + 1 + WINDOW]));
    CongUnique(MOD, fp, Poly(A, ptr[j + 1..j + 1 + WINDOW]));
  }

  /** One twelfth: every window in it is hashed, and the largest hash kept. */
  method Feature(ptr: seq<Byte>, lo: nat, hi: nat, apower: nat) returns (feature: nat)
    requires lo + WINDOW <= |ptr| && lo <= hi <= |ptr| && apower == Power(A, WINDOW - 1) % MOD
    ensures IsFeature(ptr, lo, hi, feature)
  {
    hide Power, WindowHash;
    feature := 0;
    var fp := FirstWindow(ptr, lo);
    var j := lo;
    while j + WINDOW < hi + 1
      invariant lo <= j && (j == lo || j + WINDOW <= hi + 1)
      invariant j + WINDOW <= hi ==> fp == WindowHash(ptr, j)
      invariant forall i :: lo <= i < j && i + WINDOW <= hi ==> WindowHash(ptr, i) <= feature
      invariant feature == 0 || exists i :: lo <= i < j && i + WINDOW <= hi && WindowHash(ptr, i) == feature
      decreases hi + 1 - j
    {
      if fp > feature {
        feature := fp;
      }
      if j != hi - WINDOW {
        fp := RollOn(ptr, j, fp, apower);
      }
      j := j + 1;
    }
  }

  ghost predicate FeatureOf(ptr: seq<Byte>, i: nat, f: nat) {
    Twelfth(|ptr|, i + 1) <= |ptr| && IsFeature(ptr, Twelfth(|ptr|, i), Twelfth(|ptr|, i + 1), f)
  }

  /** The features of GetSF. A chunk of more than 564 bytes keeps all reads in range; the caller
      asks for more than 576. */
  method Features(ptr: seq<Byte>) returns (feature: array<nat>)
    requires |ptr| > 564
    ensures fresh(feature) && feature.Length == FEATURE_NUM
    ensures forall i :: 0 <= i < FEATURE_NUM ==> FeatureOf(ptr, i, feature[i])
  {
    hide IsFeature, Power;
    ReadsInRange(|ptr|);
    feature := new nat[FEATURE_NUM];
    var apower := PowerMod();
    for i := 0 to FEATURE_NUM
      invariant forall k :: 0 <= k < i ==> FeatureOf(ptr, k, feature[k])
    {
      TwelfthsInOrder(|ptr|, i);
      feature[i] := Feature(ptr, Twelfth(|ptr|, i), Twelfth(|ptr|, i + 1), apower);
    }
  }

  lemma TwelfthsInOrder(size: nat, i: nat)
    requires i < FEATURE_NUM
    ensures Twelfth(size, i) <= Twelfth(size, i + 1) <= size
  {
  }
}
