/**
 The copy routines of src/util/lz4.c. Positions are indices; every method carries the bounds its
 C counterpart relies on, so that a caller's proof also shows that no read or write leaves a
 buffer and that no `memcpy` is given overlapping regions.
 */
module Lz4Copy {
  import opened Bytes
  import opened Lz4Format

  /** Positions below `n` are as before. */
  twostate predicate KeepsBelow(dst: array<Byte>, n: int)
    reads dst
  {
    forall j :: 0 <= j < n && j < dst.Length ==> dst[j] == old(dst[j])
  }

  /** Positions from `n` on are as before. */
  twostate predicate KeepsFrom(dst: array<Byte>, n: int)
    reads dst
  {
    forall j :: n <= j < dst.Length && 0 <= j ==> dst[j] == old(dst[j])
  }

  /** `memcpy` from the input block. */
  method CopyIn(dst: array<Byte>, op: nat, src: seq<Byte>, ip: nat, n: nat)
    requires op + n <= dst.Length && ip + n <= |src|
    modifies dst
    ensures KeepsBelow(dst, op)
    ensures forall j :: op <= j < op + n ==> dst[j] == src[ip + j - op]
    ensures KeepsFrom(dst, op + n)
  {
    forall i | 0 <= i < n {
      dst[op + i] := src[ip + i];
    }
  }

  /** `memcpy` within the output buffer; the regions do not overlap. */
  method CopyWithin(dst: array<Byte>, d: nat, s: nat, n: nat)
    requires s + n <= d && d + n <= dst.Length
    modifies dst
    ensures KeepsBelow(dst, d)
    ensures forall j, k :: d <= j < d + n && k == j - (d - s) ==> dst[j] == dst[k]
    ensures KeepsFrom(dst, d + n)
  {
    forall i | 0 <= i < n {
      dst[d + i] := dst[s + i];
    }
  }

  /** LZ4_wildCopy8 and LZ4_wildCopy32 from the input: whole stripes until `e` is reached. */
  method WildCopyIn(dst: array<Byte>, op: nat, src: seq<Byte>, ip: nat, e: nat, stripe: nat)
    requires stripe == 8 || stripe == 32
    requires op <= e && op + stripe <= dst.Length && e + stripe - 1 <= dst.Length
    requires ip + stripe <= |src| && ip + (e - op) + stripe - 1 <= |src|
    modifies dst
    ensures KeepsBelow(dst, op)
    ensures KeepsFrom(dst, if e == op then op + stripe else e + stripe - 1)
    ensures forall j :: op <= j < e ==> dst[j] == src[ip + j - op]
  {
    CopyIn(dst, op, src, ip, stripe);
    var d, s := op + stripe, ip + stripe;
    while d < e
      invariant d - op == s - ip >= stripe && d <= dst.Length && s <= |src|
      invariant d <= if e == op then op + stripe else e + stripe - 1
      invariant KeepsBelow(dst, op)
      invariant KeepsFrom(dst, if e == op then op + stripe else e + stripe - 1)
      invariant forall j :: op <= j < d ==> dst[j] == src[ip + j - op]
    {
      CopyIn(dst, d, src, s, stripe);
      d, s := d + stripe, s + stripe;
    }
  }

  /** LZ4_wildCopy8 within the output. */
  method WildCopy8(dst: array<Byte>, d0: nat, s0: nat, e: nat)
    requires s0 + 8 <= d0 <= e + 8 && d0 + 8 <= dst.Length && e + 7 <= dst.Length
    modifies dst
    ensures KeepsBelow(dst, d0)
    ensures forall j, k :: d0 <= j < e && k == j - (d0 - s0) ==> dst[j] == dst[k]
  {
    CopyWithin(dst, d0, s0, 8);
    var d, s := d0 + 8, s0 + 8;
    while d < e
      invariant d - s == d0 - s0 && d0 + 8 <= d <= dst.Length
      invariant d <= e + 7 || d == d0 + 8
      invariant KeepsBelow(dst, d0)
      invariant forall j, k :: d0 <= j < d && k == j - (d0 - s0) ==> dst[j] == dst[k]
    {
      CopyWithin(dst, d, s, 8);
      d, s := d + 8, s + 8;
    }
  }

  /** LZ4_wildCopy32 within the output: two 16-byte copies per stripe, so a distance of 16 is enough. */
  method WildCopy32(dst: array<Byte>, d0: nat, s0: nat, e: nat)
    requires s0 + 16 <= d0 <= e && d0 + 32 <= dst.Length && e + 31 <= dst.Length
    modifies dst
    ensures KeepsBelow(dst, d0)
    ensures forall j, k :: d0 <= j < e && k == j - (d0 - s0) ==> dst[j] == dst[k]
  {
    CopyWithin(dst, d0, s0, 16);
    CopyWithin(dst, d0 + 16, s0 + 16, 16);
    var d, s := d0 + 32, s0 + 32;
    while d < e
      invariant d - s == d0 - s0 && d0 + 32 <= d <= dst.Length
      invariant d <= e + 31 || d == d0 + 32
      invariant KeepsBelow(dst, d0)
      invariant forall j, k :: d0 <= j < d && k == j - (d0 - s0) ==> dst[j] == dst[k]
    {
      CopyWithin(dst, d, s, 16);
      CopyWithin(dst, d + 16, s + 16, 16);
      d, s := d + 32, s + 32;
    }
  }

  const INC32: seq<int> := [0, 1, 2, 1, 0, 4, 4, 4]
  const DEC64: seq<int> := [0, 0, 0, -1, -4, 1, 2, 3]

  /** The distance from which an offset below 8 goes on after its first eight bytes:
      a multiple of the offset that is at least 8. */
  function Stride(offset: nat): (d: nat)
    requires offset < 8
    ensures 8 <= d <= 14
  {
    match offset
    case 3 => 9
    case 5 => 10
    case 6 => 12
    case 7 => 14
    case _ => 8
  }

  /** Copying at a multiple `k * offset` of the period goes on with the period. */
  lemma {:induction false} MultipleKeepsPeriod(s: seq<Byte>, lo: nat, mid: nat, hi: nat, offset: nat, k: nat, d: nat)
    requires lo <= mid <= hi <= |s| && k >= 1 && (offset > 0 ==> d == k * offset)
    requires lo + d <= mid + offset && (offset == 0 ==> d > 0)
    requires Repeats(s, lo, mid, offset)
    requires forall j, k :: mid <= j < hi && k == j - d ==> s[j] == s[k]
    ensures Repeats(s, lo, hi, offset)
    decreases hi
  {
    if hi > mid {
      var x := hi - 1;
      MultipleKeepsPeriod(s, lo, mid, x, offset, k, d);
      assert s[x] == s[x - d];
      if offset > 0 {
        assert (k - 1) * offset == d - offset;
        if k > 1 {
          assert (k - 2) * offset == d - offset - offset;
          RepeatsBack(s, lo, x, offset, x - offset, k - 1);
        }
      }
      assert s[x] == if offset == 0 then 0 else s[x - offset];
    }
  }

  /** Bytes 0..3 of a match whose offset is below 8, one at a time. */
  method FirstFour(dst: array<Byte>, op: nat, match0: nat)
    requires match0 <= op < match0 + 8 && op + 4 <= dst.Length
    modifies dst
    ensures KeepsBelow(dst, op)
    ensures Repeats(dst[..], op, op + 4, op - match0)
  {
    dst[op], dst[op + 1], dst[op + 2], dst[op + 3] := 0, 0, 0, 0;
    dst[op] := dst[match0];
    dst[op + 1] := dst[match0 + 1];
    dst[op + 2] := dst[match0 + 2];
    dst[op + 3] := dst[match0 + 3];
  }

  /** The first eight bytes of a match whose offset is below 8. */
  method FirstEight(dst: array<Byte>, op: nat, match0: nat) returns (m: nat)
    requires match0 <= op < match0 + 8 && op + 8 <= dst.Length
    modifies dst
    ensures KeepsBelow(dst, op)
    ensures Repeats(dst[..], op, op + 8, op - match0)
    ensures m + Stride(op - match0) == op + 8
  {
    var offset := op - match0;
    FirstFour(dst, op, match0);
    ghost var four := dst[..];
    var s := match0 + INC32[offset];
    CopyWithin(dst, op + 4, s, 4);
    m := s - DEC64[offset];
    assert Repeats(dst[..], op, op + 4, offset) by {
      assert Repeats(four, op, op + 4, offset);
    }
    MultipleKeepsPeriod(dst[..], op, op + 4, op + 8, offset,
                        if offset == 1 then 4 else if offset < 5 then 2 else 1, op + 4 - s);
  }

  /** The 8-byte pattern `v` of LZ4_memcpy_using_offset for offsets 1, 2 and 4. */
  method Pattern(dst: array<Byte>, match0: nat, offset: nat) returns (v: seq<Byte>)
    requires offset in {1, 2, 4} && match0 + offset <= dst.Length
    ensures |v| == 8
    ensures forall i :: 0 <= i < offset ==> v[i] == dst[match0 + i]
    ensures forall i, k :: offset <= i < 8 && k == i - offset ==> v[i] == v[k]
  {
    if offset == 1 {
      var x := dst[match0];
      v := [x, x, x, x, x, x, x, x];
    } else if offset == 2 {
      var p := [dst[match0], dst[match0 + 1]];
      v := p + p + p + p;
    } else {
      var p := [dst[match0], dst[match0 + 1], dst[match0 + 2], dst[match0 + 3]];
      v := p + p;
    }
  }

  /** Writes the pattern at `op` and again every eight bytes until `e` is reached. */
  method WritePattern(dst: array<Byte>, op: nat, v: seq<Byte>, e: nat)
    requires |v| == 8 && op <= e && op + 8 <= dst.Length && e + 7 <= dst.Length
    modifies dst
    ensures KeepsBelow(dst, op)
    ensures forall j :: op <= j < op + 8 ==> dst[j] == v[j - op]
    ensures forall j, k :: op + 8 <= j < e && k == j - 8 ==> dst[j] == dst[k]
  {
    CopyIn(dst, op, v, 0, 8);
    var d := op + 8;
    while d < e
      invariant op + 8 <= d <= dst.Length && (d <= e + 7 || d == op + 8)
      invariant KeepsBelow(dst, op)
      invariant forall j :: op <= j < op + 8 ==> dst[j] == v[j - op]
      invariant forall j :: d - 8 <= j < d ==> dst[j] == v[j - (d - 8)]
      invariant forall j, k :: op + 8 <= j < d && k == j - 8 ==> dst[j] == dst[k]
    {
      CopyIn(dst, d, v, 0, 8);
      d := d + 8;
    }
  }

  /** LZ4_memcpy_using_offset for offsets 1, 2 and 4: the pattern written over and over. */
  method CopyPattern(dst: array<Byte>, op: nat, match0: nat, e: nat)
    requires match0 < op && op - match0 in {1, 2, 4}
    requires op <= e && op + 8 <= dst.Length && e + 7 <= dst.Length
    modifies dst
    ensures KeepsBelow(dst, op)
    ensures Repeats(dst[..], op, e, op - match0)
  {
    var offset := op - match0;
    var v := Pattern(dst, match0, offset);
    WritePattern(dst, op, v, e);
    assert Repeats(dst[..], op, op + 8, offset);
    EightThenStride(dst[..], dst[..], op, op, e, offset);
  }

  /** LZ4_memcpy_using_offset: a match whose offset is below 16, in the fast loop. */
  method CopyUsingOffset(dst: array<Byte>, op: nat, match0: nat, e: nat)
    requires match0 <= op < match0 + 16
    requires op + MINMATCH <= e && op + 16 <= dst.Length && e + 8 <= dst.Length
    modifies dst
    ensures KeepsBelow(dst, op)
    ensures Repeats(dst[..], op, e, op - match0)
  {
    var offset := op - match0;
    if offset in {1, 2, 4} {
      CopyPattern(dst, op, match0, e);
      return;
    }
    var m;
    if offset < 8 {
      m := FirstEight(dst, op, match0);
    } else {
      CopyWithin(dst, op, match0, 8);
      m := match0 + 8;
    }
    ghost var eight := dst[..];
    assert Repeats(eight, op, op + 8, offset);
    WildCopy8(dst, op + 8, m, e);
    EightThenStride(eight, dst[..], op, m, e, offset);
  }

  /** Eight bytes of a match followed by copies at the stride make the whole match. */
  lemma EightThenStride(eight: seq<Byte>, s: seq<Byte>, op: nat, m: nat, e: nat, offset: nat)
    requires |eight| == |s| && op + 8 <= |s| && op <= e <= |s|
    requires forall j :: 0 <= j < op + 8 ==> s[j] == eight[j]
    requires Repeats(eight, op, op + 8, offset)
    requires if offset < 8 then m + Stride(offset) == op + 8 else m + offset == op + 8
    requires forall j, k :: op + 8 <= j < e && k == j - (op + 8 - m) ==> s[j] == s[k]
    ensures Repeats(s, op, e, offset)
  {
    assert Repeats(s, op, op + 8, offset);
    if e > op + 8 {
      MultipleKeepsPeriod(s, op, op + 8, e, offset,
                          if offset == 0 || offset >= 8 then 1 else Stride(offset) / offset, op + 8 - m);
    }
  }

  /** The rest of a match in the safe loop, from its ninth byte on: near the end of the buffer the
      last bytes are copied one at a time. Fails when the match would reach into the last
      LASTLITERALS bytes of the buffer. */
  method FinishMatch(dst: array<Byte>, o0: nat, m0: nat, cpy: nat, length: nat) returns (ok: bool)
    requires m0 + 8 <= o0 && o0 + 4 <= dst.Length && cpy + 8 == o0 + length && length >= MINMATCH
    modifies dst
    ensures KeepsBelow(dst, o0)
    ensures ok <==> cpy + LASTLITERALS <= dst.Length
    ensures ok ==> forall j, k :: o0 <= j < cpy && k == j - (o0 - m0) ==> dst[j] == dst[k]
  {
    if cpy + 12 > dst.Length {
      if cpy + LASTLITERALS > dst.Length {
        return false;
      }
      var o, m, limit := o0, m0, dst.Length - 7;
      if o < limit {
        WildCopy8(dst, o, m, limit);
        m := m + (limit - o);
        o := limit;
      }
      while o < cpy
        invariant o - m == o0 - m0 && o0 <= o && o <= dst.Length
        invariant KeepsBelow(dst, o0)
        invariant forall j, k :: o0 <= j < o && k == j - (o0 - m0) ==> dst[j] == dst[k]
      {
        dst[o] := dst[m];
        o, m := o + 1, m + 1;
      }
    } else {
      CopyWithin(dst, o0, m0, 8);
      if length > 16 {
        WildCopy8(dst, o0 + 8, m0 + 8, cpy);
      }
    }
    ok := true;
  }

  /** The match copy of the safe loop. */
  method SafeMatchCopy(dst: array<Byte>, op: nat, match0: nat, length: nat) returns (ok: bool)
    requires match0 <= op && op + 12 <= dst.Length && length >= MINMATCH
    modifies dst
    ensures KeepsBelow(dst, op)
    ensures ok <==> op + length + LASTLITERALS <= dst.Length
    ensures ok ==> Repeats(dst[..], op, op + length, op - match0)
  {
    var offset, m := op - match0, match0 + 8;
    if offset < 8 {
      m := FirstEight(dst, op, match0);
    } else {
      CopyWithin(dst, op, match0, 8);
    }
    ghost var eight := dst[..];
    assert Repeats(eight, op, op + 8, offset);
    ok := FinishMatch(dst, op + 8, m, op + length, length);
    if ok {
      EightThenStride(eight, dst[..], op, m, op + length, offset);
    }
  }
}
