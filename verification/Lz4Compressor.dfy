/**
 LZ4_compress_fast (src/util/lz4.c, LZ4_compress_generic_validated with noDict, byU16 or byU32,
 notLimited or limitedOutput). `cap` is the output budget: in limited mode the capacity the
 caller gave, otherwise LZ4_compressBound. Every write, the overshoot of wild copies included,
 is proved to stay below it.
 */
module Lz4Compressor {
  import opened Bytes
  import opened Lz4Format
  import opened Lz4Copy
  import opened Lz4Greedy
  import opened Words

  const LZ4_MAX_INPUT_SIZE := 0x7E00_0000
  const LZ4_ACCELERATION_MAX := 65537

  /** LZ4_COMPRESSBOUND */
  function CompressBound(n: nat): nat {
    if n > LZ4_MAX_INPUT_SIZE then 0 else n + n / 255 + 16
  }

  // ----- hash table ------------------------------------------------------------------------------

  /** LZ4_hashPosition */
  method HashPosition(src: seq<Byte>, p: nat, tt: TableType) returns (h: nat)
    requires p + 8 <= |src|
    ensures h == HashOf(src, p, tt) && h < TableSize(tt)
  {
    if tt.ByU16? {
      h := Le(src[p..p + 4]) * 2654435761 % 0x1_0000_0000 / 0x8_0000;
    } else {
      h := Le(src[p..p + 8]) * 0x100_0000 % 0x1_0000_0000_0000_0000 * 889523592379 % 0x1_0000_0000_0000_0000
           / 0x10_0000_0000_0000;
    }
  }

  /** The table holds, for every hash, the position before `p` that was stored last under it. */
  ghost predicate TableIs(table: seq<nat>, src: seq<Byte>, tt: TableType, ins: seq<nat>, p: nat) {
    && |table| == TableSize(tt) && Stored(src, ins) && Below(ins, p) && p > 0
    && forall h :: 0 <= h < |table| ==> table[h] == Latest(src, tt, ins, h)
  }

  lemma EntryBelow(table: seq<nat>, src: seq<Byte>, tt: TableType, ins: seq<nat>, p: nat, h: nat)
    requires TableIs(table, src, tt, ins, p) && h < |table|
    ensures Stored(src, ins) && table[h] == Latest(src, tt, ins, h) < p
  {
    LatestBelow(src, tt, ins, h, p);
  }

  lemma EntryStored(table: seq<nat>, src: seq<Byte>, tt: TableType, ins: seq<nat>, p: nat, q: nat, r: nat)
    requires TableIs(table, src, tt, ins, p) && q + 8 <= |src| && q < r && p <= r
    ensures Stored(src, ins + [q]) && TableIs(table[HashOf(src, q, tt) := q], src, tt, ins + [q], r)
  {
    hide HashOf;
    assert Init(ins + [q]) == ins && Last(ins + [q]) == q;
  }

  lemma LaterTable(table: seq<nat>, src: seq<Byte>, tt: TableType, ins: seq<nat>, p: nat, r: nat)
    requires TableIs(table, src, tt, ins, p) && p <= r
    ensures TableIs(table, src, tt, ins, r)
  {
  }

  /** LZ4_putIndexOnHash, with the truncation of the 16- and 32-bit tables. */
  method PutIndex(table: array<nat>, tt: TableType, idx: nat, h: nat)
    requires h < TableSize(tt) == table.Length
    requires idx < if tt.ByU16? then 0x1_0000 else 0x1_0000_0000
    modifies table
    ensures table[..] == old(table[..])[h := idx]
  {
    table[h] := if tt.ByU16? then idx % 0x1_0000 else idx % 0x1_0000_0000;
  }

  // ----- matches: Repeats(src, p, q, d) says that the bytes from p to q equal those d before --------

  /** LZ4_NbCommonBytes of the xor of two 8-byte words: how many leading bytes agree. */
  method CommonBytes(src: seq<Byte>, m: nat, p: nat) returns (c: nat)
    requires m < p && p + 8 <= |src|
    ensures c <= 8 && Repeats(src, p, p + c, p - m) && (c < 8 ==> src[m + c] != src[p + c])
  {
    c := 0;
    while c < 8 && src[m + c] == src[p + c]
      invariant c <= 8 && Repeats(src, p, p + c, p - m)
    {
      c := c + 1;
    }
  }

  /** LZ4_count: the longest common prefix of the bytes at `m0` and `p0`, up to `limit`. */
  method Count(src: seq<Byte>, m0: nat, p0: nat, limit: nat) returns (c: nat)
    requires m0 < p0 <= limit <= |src|
    ensures p0 + c <= limit && Repeats(src, p0, p0 + c, p0 - m0)
    ensures p0 + c < limit ==> src[m0 + c] != src[p0 + c]
  {
    var p, m := p0, m0;
    while p + 7 < limit
      invariant p - p0 == m - m0 >= 0 && p <= limit && Repeats(src, p0, p, p0 - m0)
    {
      var k := CommonBytes(src, m, p);
      if k < 8 {
        return p + k - p0;
      }
      p, m := p + 8, m + 8;
    }
    p := CountTail(src, m, p, limit);
    c := p - p0;
  }

  /** The last up to seven bytes of LZ4_count: four, two and one at a time. */
  method CountTail(src: seq<Byte>, m0: nat, p0: nat, limit: nat) returns (p: nat)
    requires m0 < p0 <= limit <= |src| && limit <= p0 + 7
    ensures p0 <= p <= limit && Repeats(src, p0, p, p0 - m0)
    ensures p < limit ==> src[p - (p0 - m0)] != src[p]
  {
    p := p0;
    var m := m0;
    if p + 3 < limit && Read32Equal(src, m, p) {
      p, m := p + 4, m + 4;
    }
    if p + 1 < limit && src[m] == src[p] && src[m + 1] == src[p + 1] {
      p, m := p + 2, m + 2;
    }
    if p < limit && src[m] == src[p] {
      p, m := p + 1, m + 1;
    }
  }

  /** The search of the main loop: `found` is false on the jump to the last literals. Then none of
      the probed positions has, as the latest stored position with its hash, one within reach that
      equals it in four bytes; otherwise `ip` is the first that has. */
  method FindMatch(src: seq<Byte>, table: array<nat>, tt: TableType, ip0: nat, acceleration: nat, ghost ins: seq<nat>)
    returns (found: bool, ip: nat, m: nat, ghost k: nat)
    requires MFLIMIT < |src| <= LZ4_MAX_INPUT_SIZE && (tt.ByU16? ==> |src| < LZ4_64K_LIMIT)
    requires 1 <= ip0 && ip0 + MFLIMIT - 1 <= |src| && acceleration >= 1
    requires table.Length == TableSize(tt) && Stored(src, ins) && TableIs(table[..], src, tt, ins, ip0)
    modifies table
    ensures !found ==> forall j: nat :: !HitAt(src, tt, acceleration, ins, ip0, j)
    ensures found ==> HitAt(src, tt, acceleration, ins, ip0, k)
                      && forall j: nat :: j < k ==> !HitAt(src, tt, acceleration, ins, ip0, j)
    ensures found ==>
              && ip == Probe(ip0, acceleration, k) && ip + MFLIMIT <= |src|
              && Stored(src, LogAt(ins, ip0, acceleration, k)) && Stored(src, LogAt(ins, ip0, acceleration, k + 1))
              && m == Latest(src, tt, LogAt(ins, ip0, acceleration, k), HashOf(src, ip, tt))
              && m < ip <= m + DISTANCE_MAX
              && Repeats(src, ip, ip + MINMATCH, ip - m)
              && TableIs(table[..], src, tt, LogAt(ins, ip0, acceleration, k + 1), ip + 1)
  {
    hide HashOf, Latest, TableIs;
    var forwardIp, step, searchMatchNb := ip0, 1, acceleration * SKIP_STEPS;
    var forwardH: nat := HashPosition(src, forwardIp, tt);
    k := 0;
    while true
      invariant ip0 <= forwardIp && forwardIp + MFLIMIT - 1 <= |src|
      invariant forwardIp == Probe(ip0, acceleration, k) && step == Step(acceleration, k) && searchMatchNb == acceleration * SKIP_STEPS + k
      invariant forwardH == HashOf(src, forwardIp, tt) && Stored(src, LogAt(ins, ip0, acceleration, k))
      invariant TableIs(table[..], src, tt, LogAt(ins, ip0, acceleration, k), forwardIp)
      invariant forall j: nat :: j < k ==> !HitAt(src, tt, acceleration, ins, ip0, j)
      decreases |src| - forwardIp
    {
      var h, current := forwardH, forwardIp;
      ghost var log := LogAt(ins, ip0, acceleration, k);
      EntryBelow(table[..], src, tt, log, current, h);
      m := table[h];
      ip := forwardIp;
      forwardIp := forwardIp + step;
      step := searchMatchNb / SKIP_STEPS;
      searchMatchNb := searchMatchNb + 1;
      if forwardIp + MFLIMIT - 1 > |src| {
        NoMoreProbes(src, tt, acceleration, ins, ip0, k);
        return false, ip, m, k;
      }
      forwardH := HashPosition(src, forwardIp, tt);
      EntryStored(table[..], src, tt, log, current, current, current + 1);
      PutIndex(table, tt, current, h);
      if (tt.ByU16? || m + DISTANCE_MAX >= current) && Read32Equal(src, m, ip) {
        return true, ip, m, k;
      }
      LaterTable(table[..], src, tt, log + [current], current + 1, forwardIp);
      k := k + 1;
    }
  }

  lemma NoMoreProbes(src: seq<Byte>, tt: TableType, acc: nat, ins: seq<nat>, p: nat, k: nat)
    requires acc >= 1 && Stored(src, ins) && !Probed(src, p, acc, k)
    ensures forall j: nat :: j >= k ==> !HitAt(src, tt, acc, ins, p, j)
  {
    hide Hit;
    forall j: nat | j >= k ensures !HitAt(src, tt, acc, ins, p, j) {
      ProbesRise(p, acc, k + 1, j + 1);
    }
  }

  /** Catch up: extend the match backwards over the pending literals. */
  method CatchUp(src: seq<Byte>, anchor: nat, ip0: nat, m0: nat) returns (ip: nat, m: nat)
    requires anchor <= ip0 && m0 < ip0 && Repeats(src, ip0, ip0 + MINMATCH, ip0 - m0)
    ensures anchor <= ip <= ip0 && m < ip && ip - m == ip0 - m0
    ensures Repeats(src, ip, ip0 + MINMATCH, ip - m)
    ensures ip == ip0 - Back(src, anchor, ip0, m0)
  {
    ip, m := ip0, m0;
    while ip > anchor && m > 0 && src[ip - 1] == src[m - 1]
      invariant anchor <= ip <= ip0 && m < ip && ip - m == ip0 - m0
      invariant Repeats(src, ip, ip0 + MINMATCH, ip - m)
      invariant ip - Back(src, anchor, ip, m) == ip0 - Back(src, anchor, ip0, m0)
    {
      ip, m := ip - 1, m - 1;
    }
  }

  // ----- output ----------------------------------------------------------------------------------

  /** `len` as a run of 255s and a closing byte, one byte at a time. */
  method WriteLength(dst: array<Byte>, op0: nat, len0: nat) returns (op: nat)
    requires op0 + len0 / 255 + 1 <= dst.Length
    modifies dst
    ensures op == op0 + len0 / 255 + 1
    ensures KeepsBelow(dst, op0) && KeepsFrom(dst, op)
    ensures dst[op0..op] == LengthBytes(len0)
  {
    var len := len0;
    op := op0;
    while len >= 255
      invariant op0 <= op && op + len / 255 == op0 + len0 / 255 && len >= 0 && len % 255 == len0 % 255
      invariant KeepsBelow(dst, op0) && KeepsFrom(dst, op)
      invariant forall j :: op0 <= j < op ==> dst[j] == 255
    {
      dst[op] := 255;
      op, len := op + 1, len - 255;
    }
    dst[op] := len;
    op := op + 1;
    FullThenRest(dst[op0..op], len0);
  }

  /** LZ4_write32(op, 0xFFFFFFFF) */
  method WriteFours(dst: array<Byte>, op: nat)
    requires op + 4 <= dst.Length
    modifies dst
    ensures KeepsBelow(dst, op) && KeepsFrom(dst, op + 4)
    ensures dst[op] == dst[op + 1] == dst[op + 2] == dst[op + 3] == 255
  {
    dst[op], dst[op + 1], dst[op + 2], dst[op + 3] := 255, 255, 255, 255;
  }

  /** The match length beyond its 4 bits: four 255s at a time, overshooting by up to four bytes. */
  method WriteMatchLength(dst: array<Byte>, op0: nat, len0: nat, ghost cap: nat) returns (op: nat)
    requires op0 + len0 / 255 + 4 <= cap <= dst.Length
    modifies dst
    ensures op == op0 + len0 / 255 + 1
    ensures KeepsBelow(dst, op0) && KeepsFrom(dst, cap)
    ensures dst[op0..op] == LengthBytes(len0)
  {
    var len := len0;
    op := op0;
    WriteFours(dst, op);
    while len >= 4 * 255
      invariant op0 <= op && op + len / 255 == op0 + len0 / 255 && len >= 0
      invariant KeepsBelow(dst, op0) && KeepsFrom(dst, cap)
      invariant forall j :: op0 <= j < op + 4 ==> dst[j] == 255
      invariant op - op0 + len / 255 == len0 / 255 && len % 255 == len0 % 255
    {
      op := op + 4;
      WriteFours(dst, op);
      len := len - 4 * 255;
    }
    op := op + len / 255;
    dst[op] := len % 255;
    op := op + 1;
    FullThenRest(dst[op0..op], len0);
  }

  lemma {:induction false} FullThenRest(s: seq<Byte>, n: nat)
    requires |s| == n / 255 + 1 && s[n / 255] == n % 255
    requires forall j :: 0 <= j < n / 255 ==> s[j] == 255
    ensures s == LengthBytes(n)
    decreases n
  {
    if n >= 255 {
      FullThenRest(s[1..], n - 255);
      assert s == [255] + s[1..];
    }
  }

  /** Token with its literal part written and its match part still zero, as between the two halves
      of a sequence; `t` is where the token is. */
  ghost predicate Pending(dst: array<Byte>, done: seq<Byte>, t: nat, lits: seq<Byte>, op: nat)
    reads dst
  {
    && t == |done| && t + 1 <= op <= dst.Length
    && dst[..t] == done
    && dst[t] == Nibble(|lits|) * 16
    && dst[t + 1..op] == Extension(|lits|) + lits
  }

  /** Room for a token, `litLen` literals with their length, the wild copy, and then an offset. */
  predicate LiteralRoom(op: nat, litLen: nat, cap: nat) {
    op + 1 + litLen + (2 + 1 + LASTLITERALS) + litLen / 255 <= cap
  }

  /** Token and literal length. */
  method EncodeHead(dst: array<Byte>, op0: nat, litLength: nat) returns (op: nat)
    requires op0 + 1 + |Extension(litLength)| <= dst.Length
    modifies dst
    ensures op == op0 + 1 + |Extension(litLength)|
    ensures KeepsBelow(dst, op0) && KeepsFrom(dst, op)
    ensures dst[op0] == Nibble(litLength) * 16 && dst[op0 + 1..op] == Extension(litLength)
  {
    op := op0 + 1;
    if litLength >= 15 {
      dst[op0] := 15 * 16;
      op := WriteLength(dst, op, litLength - 15);
    } else {
      dst[op0] := litLength * 16;
    }
  }

  /** Encode literals: token, length, and a wild copy from `anchor`. */
  method EncodeLiterals(dst: array<Byte>, op0: nat, src: seq<Byte>, anchor: nat, ip: nat, ghost cap: nat) returns (op: nat)
    requires anchor <= ip && ip + 8 <= |src| && LiteralRoom(op0, ip - anchor, cap) && cap <= dst.Length
    modifies dst
    ensures KeepsFrom(dst, cap)
    ensures Pending(dst, old(dst[..op0]), op0, src[anchor..ip], op)
    ensures op == op0 + 1 + |Extension(ip - anchor)| + (ip - anchor) && op + 2 <= cap
  {
    hide LengthBytes;
    var litLength := ip - anchor;
    op := EncodeHead(dst, op0, litLength);
    ghost var l, head := op, dst[..op];
    WildCopyIn(dst, op, src, anchor, op + litLength, 8);
    op := op + litLength;
    AssemblePending(dst[..op], head, op0, Extension(litLength), src[anchor..ip]);
    assert dst[op0 + 1..op] == dst[..op][op0 + 1..];
    assert dst[..op0] == old(dst[..op0]);
  }

  lemma AssemblePending(d: seq<Byte>, head: seq<Byte>, op0: nat, ext: seq<Byte>, lits: seq<Byte>)
    requires op0 + 1 <= |head| && |d| == |head| + |lits| && head[op0 + 1..] == ext
    requires forall j :: 0 <= j < |head| ==> d[j] == head[j]
    requires forall j :: |head| <= j < |d| ==> d[j] == lits[j - |head|]
    ensures d[op0 + 1..] == ext + lits
  {
    assert d[op0 + 1..] == d[op0 + 1..|head|] + d[|head|..];
    assert d[op0 + 1..|head|] == head[op0 + 1..];
  }

  lemma Regroup<T>(a: seq<T>, b: seq<T>, c: seq<T>, d: seq<T>, e: seq<T>)
    ensures a + ((b + c) + (d + e)) == (a + b) + ((c + d) + e)
  {
  }

  lemma Pieces<T>(d: seq<T>, t: nat, k: nat)
    requires t + 1 <= k && k + 2 <= |d|
    ensures d == d[..t] + ([d[t]] + (d[t + 1..k] + ([d[k], d[k + 1]] + d[k + 2..])))
  {
    assert d == d[..t] + d[t..];
    assert d[t..] == [d[t]] + d[t + 1..];
    assert d[t + 1..] == d[t + 1..k] + d[k..];
    assert d[k..] == [d[k], d[k + 1]] + d[k + 2..];
  }

  /** The bytes of a finished sequence. */
  lemma AssembleSequence(d: seq<Byte>, done: seq<Byte>, s: Sequence, op0: nat)
    requires Encodable(s)
    requires var t := |done|;
             && t + 1 <= op0 && op0 + 2 <= |d|
             && d[..t] == done
             && d[t] == Token(|s.lits|, s.mlen - MINMATCH)
             && d[t + 1..op0] == Extension(|s.lits|) + s.lits
             && d[op0] == s.offset % 256 && d[op0 + 1] == s.offset / 256
             && d[op0 + 2..] == Extension(s.mlen - MINMATCH)
    ensures d == done + EncodeSequence(s)
  {
    hide Token; hide Extension;
    var t := |done|;
    var x, y := Extension(|s.lits|), Extension(s.mlen - MINMATCH);
    var o: seq<Byte> := [s.offset % 256, s.offset / 256];
    Pieces(d, t, op0);
    Regroup([d[t]], x, s.lits, o, y);
  }

  /** Where the match starting at `ip0` ends: beyond every position `seen` by the search. */
  method MatchEnd(src: seq<Byte>, ip0: nat, m: nat, ghost seen: nat) returns (ip: nat)
    requires ip0 <= seen && seen + MFLIMIT <= |src| && m < ip0
    requires Repeats(src, ip0, seen + MINMATCH, ip0 - m)
    ensures seen + MINMATCH <= ip && ip + LASTLITERALS <= |src| && ip0 + MINMATCH <= ip
    ensures Repeats(src, ip0, ip, ip0 - m) && ip == Extent(src, ip0 - m, seen)
  {
    var matchCode := Count(src, m + MINMATCH, ip0 + MINMATCH, |src| - LASTLITERALS);
    ip := ip0 + MINMATCH + matchCode;
    assert ip < |src| - LASTLITERALS ==> src[ip - (ip0 - m)] != src[ip];
    ExtentIs(src, ip0 - m, seen, ip);
  }

  lemma SameParts<T>(d: seq<T>, e: seq<T>, t: nat, n: nat)
    requires t < n <= |d| && n <= |e|
    requires forall j :: 0 <= j < n && j != t ==> d[j] == e[j]
    ensures d[..t] == e[..t] && d[t + 1..n] == e[t + 1..n]
  {
  }

  /** The match length: into the token at `t`, and beyond it at `op0`. */
  method EncodeMatchLength(dst: array<Byte>, t: nat, op0: nat, matchCode: nat, ghost cap: nat) returns (op: nat)
    requires t < op0 && op0 + (matchCode + 240) / 255 + 4 <= cap <= dst.Length && dst[t] % 16 == 0
    modifies dst
    ensures op == op0 + |Extension(matchCode)|
    ensures KeepsBelow(dst, t) && KeepsFrom(dst, cap)
    ensures forall j :: t < j < op0 ==> dst[j] == old(dst[j])
    ensures dst[t] == old(dst[t]) + Nibble(matchCode) && dst[op0..op] == Extension(matchCode)
  {
    hide LengthBytes;
    op := op0;
    if matchCode >= 15 {
      dst[t] := dst[t] + 15;
      op := WriteMatchLength(dst, op, matchCode - 15, cap);
    } else {
      dst[t] := dst[t] + matchCode;
    }
  }

  /** Encode offset and match length. Fails only on the output check of limited mode. */
  method EncodeMatch(dst: array<Byte>, ghost done: seq<Byte>, t: nat, ghost lits: seq<Byte>, op0: nat,
                     offset: nat, matchCode: nat, limited: bool, cap: nat)
    returns (ok: bool, op: nat)
    requires 1 <= offset <= DISTANCE_MAX
    requires Pending(dst, done, t, lits, op0) && op0 + 2 <= cap <= dst.Length
    requires !limited ==> op0 + 2 + (1 + LASTLITERALS) + (matchCode + 240) / 255 <= cap
    modifies dst
    ensures KeepsFrom(dst, cap)
    ensures !ok ==> limited && op0 + 2 + (1 + LASTLITERALS) + (matchCode + 240) / 255 > cap
    ensures ok ==>
              && op == op0 + 2 + |Extension(matchCode)| && op <= cap
              && (limited ==> op + 1 + LASTLITERALS <= cap)
              && dst[..op] == done + EncodeSequence(Sequence(lits, offset, matchCode + MINMATCH))
  {
    hide EncodeSequence; hide LengthBytes; hide Extension; hide Nibble;
    ghost var pend := dst[..];
    dst[op0], dst[op0 + 1] := offset % 256, offset / 256;
    op := op0 + 2;
    if limited && op + (1 + LASTLITERALS) + (matchCode + 240) / 255 > cap {
      return false, op;
    }
    op := EncodeMatchLength(dst, t, op, matchCode, cap);
    ok := true;
    ghost var d := dst[..op];
    assert forall j :: 0 <= j < op0 && j != t ==> d[j] == pend[j];
    SameParts(d, pend, t, op0);
    assert d[op0 + 2..] == dst[op0 + 2..op];
    AssembleSequence(d, done, Sequence(lits, offset, matchCode + MINMATCH), op0);
  }

  // ----- what has been emitted -------------------------------------------------------------------

  /** `d` encodes `seqs`, and `seqs` stands for the source up to `anchor`. */
  ghost predicate Emitted(d: seq<Byte>, src: seq<Byte>, seqs: seq<Sequence>, anchor: nat) {
    && anchor <= |src| && WellFormed(seqs, |src|)
    && Expand(seqs, |src|) == src[..anchor]
    && d == EncodeAll(seqs, |src|)
    && (seqs != [] ==> anchor + LASTLITERALS <= |src|)
  }

  function SequenceFor(src: seq<Byte>, anchor: nat, ip0: nat, m: nat, ip: nat): Sequence
    requires anchor <= ip0 <= ip <= |src| && m <= ip0
  {
    Sequence(src[anchor..ip0], ip0 - m, ip - ip0)
  }

  lemma AddSequence(d: seq<Byte>, src: seq<Byte>, seqs: seq<Sequence>, anchor: nat, ip0: nat, m: nat, ip: nat)
    requires Emitted(d, src, seqs, anchor)
    requires anchor <= ip0 && m < ip0 <= m + DISTANCE_MAX && ip0 + MFLIMIT <= |src|
    requires ip0 + MINMATCH <= ip && ip + LASTLITERALS <= |src|
    requires Repeats(src, ip0, ip, ip0 - m)
    ensures var s := SequenceFor(src, anchor, ip0, m, ip);
            Emitted(d + EncodeSequence(s), src, seqs + [s], ip)
  {
    hide EncodeSequence; hide CopyMatch;
    var s := SequenceFor(src, anchor, ip0, m, ip);
    assert Init(seqs + [s]) == seqs && Last(seqs + [s]) == s;
    assert src[..anchor] + s.lits == src[..ip0];
    RepeatsIsCopy(src[..ip0], ip0 - m, ip - ip0, src);
  }

  lemma EmittedBlock(d: seq<Byte>, src: seq<Byte>, seqs: seq<Sequence>, anchor: nat)
    requires Emitted(d, src, seqs, anchor)
    ensures IsBlockOf(d + EncodeLast(src[anchor..]), src)
  {
    hide EncodeLast; hide EncodeAll; hide Expand; hide WellFormed;
    assert src == src[..anchor] + src[anchor..];
  }

  // ----- budget of unlimited mode ------------------------------------------------------------------

  /** Unlimited mode: what is out so far is at most what is in plus one byte in 255. */
  predicate WithinBound(op: nat, anchor: nat) {
    op <= anchor + anchor / 255
  }

  lemma BoundLiterals(op: nat, anchor: nat, ip: nat, n: nat)
    requires WithinBound(op, anchor) && anchor <= ip && ip + MFLIMIT <= n <= LZ4_MAX_INPUT_SIZE
    ensures LiteralRoom(op, ip - anchor, CompressBound(n))
  {
  }

  lemma BoundMatch(t: nat, anchor: nat, ip0: nat, ip: nat, n: nat)
    requires WithinBound(t, anchor) && anchor <= ip0 && ip0 + MINMATCH <= ip && ip + LASTLITERALS <= n <= LZ4_MAX_INPUT_SIZE
    ensures var op0 := t + 1 + |Extension(ip0 - anchor)| + (ip0 - anchor);
            var matchCode := ip - ip0 - MINMATCH;
            && op0 + 2 + (1 + LASTLITERALS) + (matchCode + 240) / 255 <= CompressBound(n)
            && WithinBound(op0 + 2 + |Extension(matchCode)|, ip)
  {
  }

  /** Fill table and test next position. */
  method TestNext(src: seq<Byte>, table: array<nat>, tt: TableType, ip: nat, ghost ins: seq<nat>) returns (found: bool, m: nat)
    requires MFLIMIT < |src| <= LZ4_MAX_INPUT_SIZE && (tt.ByU16? ==> |src| < LZ4_64K_LIMIT)
    requires MINMATCH <= ip && ip + MFLIMIT <= |src| && table.Length == TableSize(tt)
    requires Stored(src, ins) && TableIs(table[..], src, tt, ins, ip)
    modifies table
    ensures Stored(src, ins + [ip - 2]) && TableIs(table[..], src, tt, ins + [ip - 2] + [ip], ip + 1)
    ensures found <==> Hit(src, tt, ins + [ip - 2], ip)
    ensures m == Latest(src, tt, ins + [ip - 2], HashOf(src, ip, tt)) < ip
    ensures found ==> ip <= m + DISTANCE_MAX && Repeats(src, ip, ip + MINMATCH, ip - m)
  {
    hide HashOf, Latest, TableIs;
    var h: nat := HashPosition(src, ip - 2, tt);
    EntryStored(table[..], src, tt, ins, ip, ip - 2, ip);
    PutIndex(table, tt, ip - 2, h);
    h := HashPosition(src, ip, tt);
    EntryBelow(table[..], src, tt, ins + [ip - 2], ip, h);
    m := table[h];
    EntryStored(table[..], src, tt, ins + [ip - 2], ip, ip, ip + 1);
    PutIndex(table, tt, ip, h);
    found := (tt.ByU16? || m + DISTANCE_MAX >= ip) && Read32Equal(src, m, ip);
  }

  // ----- what is still to come ---------------------------------------------------------------------

  /** `block` is `done` and the bytes of `seqs` from `anchor` on. */
  ghost predicate Promised(block: seq<Byte>, done: seq<Byte>, src: seq<Byte>, seqs: seq<Sequence>, anchor: nat) {
    anchor <= |src| && Fits(seqs, |src| - anchor) && block == done + Coded(src, seqs, anchor)
  }

  lemma SequenceSize(s: Sequence)
    requires Encodable(s)
    ensures |EncodeSequence(s)| == 1 + |Extension(|s.lits|)| + |s.lits| + 2 + |Extension(s.mlen - MINMATCH)|
  {
  }

  /** One sequence on: it is in the block, and at least the last literals follow. */
  lemma PromisedNext(block: seq<Byte>, done: seq<Byte>, src: seq<Byte>, s: Sequence, rest: seq<Sequence>, anchor: nat)
    requires Promised(block, done, src, [s] + rest, anchor)
    ensures Encodable(s) && Promised(block, done + EncodeSequence(s), src, rest, anchor + Length(s))
    ensures |block| >= |done| + |EncodeSequence(s)| + 1 + LASTLITERALS
  {
    hide EncodeSequence, EncodeLast;
    assert ([s] + rest)[1..] == rest;
    var tail := Coded(src, rest, anchor + Length(s));
    assert done + (EncodeSequence(s) + tail) == (done + EncodeSequence(s)) + tail;
  }

  /** The budget checks of limited mode refuse only what does not fit in the end. */
  lemma RefusedIsLonger(block: seq<Byte>, done: seq<Byte>, src: seq<Byte>, s: Sequence, rest: seq<Sequence>, anchor: nat, cap: nat)
    requires Promised(block, done, src, [s] + rest, anchor) && Encodable(s)
    requires var op := |done| + 1 + |s.lits|;
             op + (2 + 1 + LASTLITERALS) + |s.lits| / 255 > cap
             || op + |Extension(|s.lits|)| + 2 + (1 + LASTLITERALS) + |Extension(s.mlen - MINMATCH)| > cap
    ensures |block| > cap
  {
    hide EncodeSequence, Promised;
    PromisedNext(block, done, src, s, rest, anchor);
    SequenceSize(s);
  }

  lemma MatchedStep(src: seq<Byte>, tt: TableType, acc: nat, ins: seq<nat>, anchor: nat, start: nat, m: nat, seen: nat)
    requires acc >= 1 && Stored(src, ins) && anchor <= start <= seen && seen + MFLIMIT <= |src|
    requires m < start <= m + DISTANCE_MAX && Repeats(src, seen, seen + MINMATCH, start - m)
    ensures var end := Extent(src, start - m, seen);
            && seen + MINMATCH <= end && Length(SequenceFor(src, anchor, start, m, end)) == end - anchor
            && Matched(src, tt, acc, ins, anchor, start, start - m, seen)
            == [SequenceFor(src, anchor, start, m, end)] + After(src, tt, acc, ins, end)
  {
    hide Stored, Hit, Extent, Repeats;
    ExtentCovers(src, start - m, seen, seen + MINMATCH);
  }

  lemma AfterStep(src: seq<Byte>, tt: TableType, acc: nat, ins: seq<nat>, end: nat)
    requires acc >= 1 && MINMATCH <= end && end + LASTLITERALS <= |src| && Stored(src, ins)
    ensures end + MFLIMIT - 1 >= |src| ==> After(src, tt, acc, ins, end) == []
    ensures end + MFLIMIT - 1 < |src| ==>
              var log := ins + [end - 2];
              && Stored(src, log) && Stored(src, log + [end])
              && var m := Latest(src, tt, log, HashOf(src, end, tt));
              && (Hit(src, tt, log, end) ==>
                    && m < end <= m + DISTANCE_MAX && Repeats(src, end, end + MINMATCH, end - m)
                    && After(src, tt, acc, ins, end) == Matched(src, tt, acc, log + [end], end, end, end - m, end))
              && (!Hit(src, tt, log, end) ==> After(src, tt, acc, ins, end) == Greedy(src, tt, acc, log + [end], end, end + 1))
  {
    hide Latest, HashOf, Repeats;
  }

  lemma GreedyFound(src: seq<Byte>, tt: TableType, acc: nat, ins: seq<nat>, anchor: nat, ip: nat, k: nat)
    requires acc >= 1 && anchor <= ip && anchor + LASTLITERALS <= |src| && Stored(src, ins)
    requires Search(src, tt, acc, ins, ip, 0) == Some(k)
    ensures Stored(src, LogAt(ins, ip, acc, k)) && Stored(src, LogAt(ins, ip, acc, k + 1))
    ensures var at := Probe(ip, acc, k);
            && ip <= at && at + MFLIMIT <= |src|
            && var m := Latest(src, tt, LogAt(ins, ip, acc, k), HashOf(src, at, tt));
            && m < at <= m + DISTANCE_MAX && Repeats(src, at, at + MINMATCH, at - m)
            && var b := Back(src, anchor, at, m);
            && b <= m && anchor + b <= at && Repeats(src, at - b, at, at - m)
            && Greedy(src, tt, acc, ins, anchor, ip)
            == Matched(src, tt, acc, LogAt(ins, ip, acc, k + 1), anchor, at - b, at - m, at)
  {
    hide Step, HitAt, Latest, HashOf, Back, Probe, LogAt, Stored, Repeats;
    HitIsMatch(src, tt, acc, ins, ip, k);
  }

  lemma GreedyStep(src: seq<Byte>, tt: TableType, acc: nat, ins: seq<nat>, anchor: nat, ip: nat, k: nat, m: nat)
    requires acc >= 1 && anchor <= ip && anchor + LASTLITERALS <= |src| && Stored(src, ins)
    requires HitAt(src, tt, acc, ins, ip, k) && (forall j: nat :: j < k ==> !HitAt(src, tt, acc, ins, ip, j))
    requires Stored(src, LogAt(ins, ip, acc, k)) && m == Latest(src, tt, LogAt(ins, ip, acc, k), HashOf(src, Probe(ip, acc, k), tt))
    ensures var at := Probe(ip, acc, k);
            && Stored(src, LogAt(ins, ip, acc, k + 1)) && ip <= at && m < at <= m + DISTANCE_MAX && at + MFLIMIT <= |src|
            && Repeats(src, at, at + MINMATCH, at - m)
            && Greedy(src, tt, acc, ins, anchor, ip)
            == Matched(src, tt, acc, LogAt(ins, ip, acc, k + 1), anchor, at - Back(src, anchor, at, m), at - m, at)
  {
    hide Step, HitAt, Latest, HashOf, Back, Probe, LogAt, Stored, Repeats, Greedy, Matched;
    SearchIsFirst(src, tt, acc, ins, ip, 0, k);
    GreedyFound(src, tt, acc, ins, anchor, ip, k);
  }

  lemma GreedyEnds(src: seq<Byte>, tt: TableType, acc: nat, ins: seq<nat>, anchor: nat, ip: nat)
    requires acc >= 1 && anchor <= ip && anchor + LASTLITERALS <= |src| && Stored(src, ins)
    requires forall j: nat :: !HitAt(src, tt, acc, ins, ip, j)
    ensures Greedy(src, tt, acc, ins, anchor, ip) == []
  {
  }

  // ----- the greedy block is a block ---------------------------------------------------------------

  lemma CodedNext(d: seq<Byte>, src: seq<Byte>, s: Sequence, rest: seq<Sequence>, anchor: nat)
    requires anchor <= |src| && Fits([s] + rest, |src| - anchor)
    ensures anchor + Length(s) <= |src| && Fits(rest, |src| - anchor - Length(s)) && Encodable(s)
    ensures d + Coded(src, [s] + rest, anchor) == (d + EncodeSequence(s)) + Coded(src, rest, anchor + Length(s))
  {
    hide EncodeSequence, EncodeLast;
    assert ([s] + rest)[1..] == rest;
  }

  lemma {:induction false} MatchedIsBlock(d: seq<Byte>, src: seq<Byte>, seqs: seq<Sequence>, tt: TableType, acc: nat, ins: seq<nat>,
                                          anchor: nat, start: nat, m: nat, seen: nat)
    requires acc >= 1 && Stored(src, ins) && anchor <= start <= seen && seen + MFLIMIT <= |src|
    requires m < start <= m + DISTANCE_MAX && Repeats(src, seen, seen + MINMATCH, start - m) && Repeats(src, start, seen, start - m)
    requires Emitted(d, src, seqs, anchor)
    ensures IsBlockOf(d + Coded(src, Matched(src, tt, acc, ins, anchor, start, start - m, seen), anchor), src)
    decreases |src| - seen, 0
  {
    hide Stored, Hit, Emitted, IsBlockOf, EncodeSequence, Coded, Matched, After;
    MatchedStep(src, tt, acc, ins, anchor, start, m, seen);
    var end := Extent(src, start - m, seen);
    hide Extent;
    var s := SequenceFor(src, anchor, start, m, end);
    AddSequence(d, src, seqs, anchor, start, m, end);
    hide Repeats;
    CodedNext(d, src, s, After(src, tt, acc, ins, end), anchor);
    AfterIsBlock(d + EncodeSequence(s), src, seqs + [s], tt, acc, ins, end);
  }

  lemma {:induction false} AfterIsBlock(d: seq<Byte>, src: seq<Byte>, seqs: seq<Sequence>, tt: TableType, acc: nat, ins: seq<nat>, end: nat)
    requires acc >= 1 && MINMATCH <= end && end + LASTLITERALS <= |src| && Stored(src, ins) && Emitted(d, src, seqs, end)
    ensures IsBlockOf(d + Coded(src, After(src, tt, acc, ins, end), end), src)
    decreases |src| - end, 1
  {
    hide Stored, Hit, Emitted, IsBlockOf, After, Matched, Greedy, Latest, HashOf;
    AfterStep(src, tt, acc, ins, end);
    if end + MFLIMIT - 1 >= |src| {
      EmittedBlock(d, src, seqs, end);
    } else {
      var log := ins + [end - 2];
      if Hit(src, tt, log, end) {
        MatchedIsBlock(d, src, seqs, tt, acc, log + [end], end, end, Latest(src, tt, log, HashOf(src, end, tt)), end);
      } else {
        GreedyIsBlock(d, src, seqs, tt, acc, log + [end], end, end + 1);
      }
    }
  }

  lemma {:induction false} GreedyIsBlock(d: seq<Byte>, src: seq<Byte>, seqs: seq<Sequence>, tt: TableType, acc: nat, ins: seq<nat>,
                                         anchor: nat, ip: nat)
    requires acc >= 1 && Stored(src, ins) && anchor <= ip && anchor + LASTLITERALS <= |src| && Emitted(d, src, seqs, anchor)
    ensures IsBlockOf(d + Coded(src, Greedy(src, tt, acc, ins, anchor, ip), anchor), src)
    decreases |src| - ip, 1
  {
    hide Stored, HitAt, Emitted, IsBlockOf, Matched, Latest, HashOf, Probe, LogAt, Search, Back, Repeats, Step;
    match Search(src, tt, acc, ins, ip, 0)
    case None =>
      EmittedBlock(d, src, seqs, anchor);
    case Some(k) =>
      GreedyFound(src, tt, acc, ins, anchor, ip, k);
      hide Coded, Greedy;
      var at := Probe(ip, acc, k);
      var m := Latest(src, tt, LogAt(ins, ip, acc, k), HashOf(src, at, tt));
      var b := Back(src, anchor, at, m);
      MatchedIsBlock(d, src, seqs, tt, acc, LogAt(ins, ip, acc, k + 1), anchor, at - b, m - b, at);
  }

  /** Whatever the acceleration, the greedy block of a source is a block for it. */
  lemma BlockIsBlock(src: seq<Byte>, acc: nat)
    requires acc >= 1
    ensures IsBlockOf(Block(src, acc), src)
  {
    hide Emitted, IsBlockOf, Greedy, Coded;
    NothingEmitted(src);
    if |src| <= MFLIMIT {
      EmittedBlock([], src, [], 0);
      ShortBlock(src, TableFor(|src|), acc);
      AllPromised(Block(src, acc), [], src, 0);
    } else {
      var tt, ins: seq<nat> := TableFor(|src|), [0];
      GreedyIsBlock([], src, [], tt, acc, ins, 0, 1);
      StartPromised(Block(src, acc), src, tt, acc);
      assert [] + Block(src, acc) == Block(src, acc);
    }
  }

  // ----- the compressor ---------------------------------------------------------------------------

  /** One pending match: offset and length are written, and the search goes on where it ends. */
  method EmitMatch(src: seq<Byte>, dst: array<Byte>, ghost tt: TableType, limited: bool, cap: nat,
                   ghost acc: nat, ghost block: seq<Byte>, ghost ins: seq<nat>, ghost seqs: seq<Sequence>, ghost done: seq<Byte>,
                   anchor: nat, t: nat, op0: nat, start: nat, m: nat, ghost seen: nat)
    returns (ok: bool, ip: nat, op: nat, ghost s: Sequence)
    requires MFLIMIT < |src| <= LZ4_MAX_INPUT_SIZE && cap <= dst.Length && (!limited ==> cap == CompressBound(|src|)) && acc >= 1
    requires anchor <= start <= seen && seen + MFLIMIT <= |src| && m < start <= m + DISTANCE_MAX
    requires Repeats(src, start, seen + MINMATCH, start - m) && Repeats(src, seen, seen + MINMATCH, start - m)
    requires Emitted(done, src, seqs, anchor) && Pending(dst, done, t, src[anchor..start], op0)
    requires op0 == t + 1 + |Extension(start - anchor)| + (start - anchor) && op0 + 2 <= cap
    requires t == |done| && (!limited ==> WithinBound(t, anchor))
    requires Stored(src, ins) && Promised(block, done, src, Matched(src, tt, acc, ins, anchor, start, start - m, seen), anchor)
    modifies dst
    ensures KeepsFrom(dst, cap)
    ensures !ok ==> limited && |block| > cap
    ensures ok ==>
              && seen + MINMATCH <= ip && ip + LASTLITERALS <= |src| && op + 1 + LASTLITERALS <= cap
              && Emitted(dst[..op], src, seqs + [s], ip) && (!limited ==> WithinBound(op, ip))
              && Promised(block, dst[..op], src, After(src, tt, acc, ins, ip), ip)
  {
    hide Emitted; hide Repeats; hide EncodeSequence; hide CopyMatch; hide Pending; hide WithinBound; hide Extension;
    hide Stored, Promised, Matched, After, Extent;
    ip := MatchEnd(src, start, m, seen);
    BoundMatchUnless(limited, t, anchor, start, ip, |src|);
    s := SequenceFor(src, anchor, start, m, ip);
    MatchedStep(src, tt, acc, ins, anchor, start, m, seen);
    ok, op := EncodeMatch(dst, done, t, s.lits, op0, start - m, ip - start - MINMATCH, limited, cap);
    if ok {
      PromisedNext(block, done, src, s, After(src, tt, acc, ins, ip), anchor);
      AddSequence(done, src, seqs, anchor, start, m, ip);
    } else {
      RefusedMatch(block, done, src, s, After(src, tt, acc, ins, ip), anchor, t, cap);
    }
  }

  /** From _next_match on: emits the match whose literals are pending, then as many immediate
      further matches as there are. `end` is the exit to the last literals. What is out and what the
      search will still give make up `block`, and a refusal means that `block` does not fit. */
  method EncodeMatches(src: seq<Byte>, dst: array<Byte>, table: array<nat>, tt: TableType, limited: bool, cap: nat,
                       ghost acc: nat, ghost block: seq<Byte>, ghost ins0: seq<nat>,
                       ghost seqs0: seq<Sequence>, ghost done0: seq<Byte>,
                       anchor0: nat, t0: nat, op0: nat, ip0: nat, m0: nat, ghost seen0: nat)
    returns (ok: bool, end: bool, ip: nat, anchor: nat, op: nat, ghost seqs: seq<Sequence>, ghost ins: seq<nat>)
    requires MFLIMIT < |src| <= LZ4_MAX_INPUT_SIZE && (tt.ByU16? ==> |src| < LZ4_64K_LIMIT)
    requires cap <= dst.Length && (!limited ==> cap == CompressBound(|src|)) && acc >= 1 && table.Length == TableSize(tt)
    requires anchor0 <= ip0 <= seen0 && seen0 + MFLIMIT <= |src| && m0 < ip0 <= m0 + DISTANCE_MAX
    requires Repeats(src, ip0, seen0 + MINMATCH, ip0 - m0) && Repeats(src, seen0, seen0 + MINMATCH, ip0 - m0)
    requires Emitted(done0, src, seqs0, anchor0) && Pending(dst, done0, t0, src[anchor0..ip0], op0)
    requires op0 == t0 + 1 + |Extension(ip0 - anchor0)| + (ip0 - anchor0) && op0 + 2 <= cap
    requires t0 == |done0| && (!limited ==> WithinBound(t0, anchor0))
    requires Stored(src, ins0) && TableIs(table[..], src, tt, ins0, seen0 + 1)
    requires Promised(block, done0, src, Matched(src, tt, acc, ins0, anchor0, ip0, ip0 - m0, seen0), anchor0)
    modifies dst, table
    ensures KeepsFrom(dst, cap)
    ensures !ok ==> limited && |block| > cap
    ensures ok ==> op <= cap && Emitted(dst[..op], src, seqs, anchor) && (!limited ==> WithinBound(op, anchor))
    ensures ok && end ==> Promised(block, dst[..op], src, [], anchor)
    ensures ok && !end ==>
              && ip == anchor + 1 && ip > seen0 && ip + MFLIMIT - 1 <= |src|
              && Stored(src, ins) && TableIs(table[..], src, tt, ins, ip)
              && Promised(block, dst[..op], src, Greedy(src, tt, acc, ins, anchor, ip), anchor)
  {
    hide Emitted; hide Repeats; hide EncodeSequence; hide CopyMatch; hide Pending; hide WithinBound; hide Extension;
    hide Stored, TableIs, Promised, Matched, After, Greedy, Hit, Latest, HashOf, Extent;
    var m: nat, t: nat := m0, t0;
    ghost var done: seq<Byte>, seen: nat := done0, seen0;
    ip, anchor, op, seqs, ins := ip0, anchor0, op0, seqs0, ins0;
    while true
      invariant anchor <= ip <= seen && seen0 <= seen && seen + MFLIMIT <= |src| && m < ip <= m + DISTANCE_MAX
      invariant Repeats(src, ip, seen + MINMATCH, ip - m) && Repeats(src, seen, seen + MINMATCH, ip - m)
      invariant Emitted(done, src, seqs, anchor) && Pending(dst, done, t, src[anchor..ip], op)
      invariant op == t + 1 + |Extension(ip - anchor)| + (ip - anchor) && op + 2 <= cap
      invariant t == |done| && (!limited ==> WithinBound(t, anchor))
      invariant Stored(src, ins) && TableIs(table[..], src, tt, ins, seen + 1) && KeepsFrom(dst, cap)
      invariant Promised(block, done, src, Matched(src, tt, acc, ins, anchor, ip, ip - m, seen), anchor)
      decreases |src| - seen
    {
      ghost var s;
      ok, ip, op, s := EmitMatch(src, dst, tt, limited, cap, acc, block, ins, seqs, done, anchor, t, op, ip, m, seen);
      if !ok {
        return false, true, ip, anchor, op, seqs, ins;
      }
      seqs := seqs + [s];
      anchor := ip;
      AfterStep(src, tt, acc, ins, ip);
      if ip + MFLIMIT - 1 >= |src| {
        return true, true, ip, anchor, op, seqs, ins;
      }
      LaterTable(table[..], src, tt, ins, seen + 1, ip);
      var found;
      found, m := TestNext(src, table, tt, ip, ins);
      ins := ins + [ip - 2] + [ip];
      if found {
        done, seen, t := dst[..op], ip, op;
        dst[t] := 0;
        op := op + 1;
        assert src[anchor..ip] == [];
        EmptyPending(dst, done, t, src[anchor..ip]);
      } else {
        return true, false, ip + 1, anchor, op, seqs, ins;
      }
    }
  }

  lemma RefusedMatch(block: seq<Byte>, done: seq<Byte>, src: seq<Byte>, s: Sequence, rest: seq<Sequence>, anchor: nat, t: nat, cap: nat)
    requires Promised(block, done, src, [s] + rest, anchor) && s.mlen >= MINMATCH && t == |done|
    requires t + 1 + |Extension(|s.lits|)| + |s.lits| + 2 + (1 + LASTLITERALS) + (s.mlen - MINMATCH + 240) / 255 > cap
    ensures |block| > cap
  {
    hide EncodeSequence, Coded;
    assert ([s] + rest)[0] == s;
    RefusedIsLonger(block, done, src, s, rest, anchor, cap);
  }

  lemma BoundMatchUnless(limited: bool, t: nat, anchor: nat, ip0: nat, ip: nat, n: nat)
    requires anchor <= ip0 && ip0 + MINMATCH <= ip && ip + LASTLITERALS <= n <= LZ4_MAX_INPUT_SIZE
    requires !limited ==> WithinBound(t, anchor)
    ensures !limited ==>
              var op0 := t + 1 + |Extension(ip0 - anchor)| + (ip0 - anchor);
              var matchCode := ip - ip0 - MINMATCH;
              && op0 + 2 + (1 + LASTLITERALS) + (matchCode + 240) / 255 <= CompressBound(n)
              && WithinBound(op0 + 2 + |Extension(matchCode)|, ip)
  {
    if !limited {
      BoundMatch(t, anchor, ip0, ip, n);
    }
  }

  lemma EmptyPending(dst: array<Byte>, done: seq<Byte>, t: nat, lits: seq<Byte>)
    requires t + 1 <= dst.Length && |done| == t && dst[..t] == done && dst[t] == 0 && lits == []
    ensures Pending(dst, done, t, lits, t + 1) && |Extension(0)| == 0
  {
  }

  /** The literals of a searched match, unless the output check of limited mode refuses them. */
  method PutLiterals(dst: array<Byte>, t: nat, src: seq<Byte>, anchor: nat, ip: nat, limited: bool, cap: nat)
    returns (ok: bool, op: nat)
    requires anchor <= ip && ip + MFLIMIT <= |src| <= LZ4_MAX_INPUT_SIZE && t <= cap <= dst.Length
    requires !limited ==> WithinBound(t, anchor) && cap == CompressBound(|src|)
    modifies dst
    ensures KeepsFrom(dst, cap)
    ensures !ok ==> limited && t + 1 + (ip - anchor) + (2 + 1 + LASTLITERALS) + (ip - anchor) / 255 > cap
    ensures ok ==> Pending(dst, old(dst[..t]), t, src[anchor..ip], op)
                   && op == t + 1 + |Extension(ip - anchor)| + (ip - anchor) && op + 2 <= cap
  {
    hide Pending, Extension;
    if limited {
      if t + 1 + (ip - anchor) + (2 + 1 + LASTLITERALS) + (ip - anchor) / 255 > cap {
        return false, t;
      }
    } else {
      BoundLiterals(t, anchor, ip, |src|);
    }
    ok := true;
    op := EncodeLiterals(dst, t, src, anchor, ip, cap);
  }

  /** The main loop: everything up to _last_literals. */
  method CompressBody(src: seq<Byte>, dst: array<Byte>, table: array<nat>, tt: TableType, limited: bool, cap: nat, acceleration: nat,
                      ghost block: seq<Byte>)
    returns (ok: bool, anchor: nat, op: nat, ghost seqs: seq<Sequence>)
    requires MFLIMIT < |src| <= LZ4_MAX_INPUT_SIZE && (tt.ByU16? ==> |src| < LZ4_64K_LIMIT)
    requires cap <= dst.Length && (!limited ==> cap == CompressBound(|src|))
    requires table.Length == TableSize(tt) && TableIs(table[..], src, tt, [], 1) && acceleration >= 1
    requires block == BlockOf(src, tt, acceleration)
    modifies dst, table
    ensures KeepsFrom(dst, cap)
    ensures !ok ==> limited && |block| > cap
    ensures ok ==> op <= cap && Emitted(dst[..op], src, seqs, anchor) && (!limited ==> WithinBound(op, anchor))
    ensures ok ==> Promised(block, dst[..op], src, [], anchor)
  {
    hide Repeats; hide Pending; hide Emitted;
    hide TableIs, Promised, Matched, After, Greedy, Hit, HitAt, Latest, HashOf, Extent, Back, LogAt, Probe, Step, Extension;
    hide Stored, WithinBound, LiteralRoom;
    anchor, op, seqs := 0, 0, [];
    NothingEmitted(src);
    assert dst[..0] == [];
    var h: nat := HashPosition(src, 0, tt);
    EntryStored(table[..], src, tt, [], 1, 0, 1);
    PutIndex(table, tt, 0, h);
    var ip: nat := 1;
    ghost var ins: seq<nat> := [0];
    assert [] + [0] == ins;
    StartPromised(block, src, tt, acceleration);
    while true
      invariant anchor <= ip && 1 <= ip && ip + MFLIMIT - 1 <= |src| && op <= cap
      invariant Emitted(dst[..op], src, seqs, anchor) && KeepsFrom(dst, cap)
      invariant !limited ==> WithinBound(op, anchor)
      invariant Stored(src, ins) && TableIs(table[..], src, tt, ins, ip)
      invariant Promised(block, dst[..op], src, Greedy(src, tt, acceleration, ins, anchor, ip), anchor)
      decreases |src| - ip
    {
      var found, at, m0; ghost var k;
      found, at, m0, k := FindMatch(src, table, tt, ip, acceleration, ins);
      if !found {
        GreedyEnds(src, tt, acceleration, ins, anchor, ip);
        return true, anchor, op, seqs;
      }
      GreedyStep(src, tt, acceleration, ins, anchor, ip, k, m0);
      ins := LogAt(ins, ip, acceleration, k + 1);
      var start, m := CatchUp(src, anchor, at, m0);
      var t: nat := op;
      ghost var done := dst[..t];
      ok, op := PutLiterals(dst, t, src, anchor, start, limited, cap);
      if !ok {
        RefusedLiterals(block, done, src, tt, acceleration, ins, anchor, start, m, at, cap);
        return false, anchor, op, seqs;
      }
      var end;
      ok, end, ip, anchor, op, seqs, ins :=
        EncodeMatches(src, dst, table, tt, limited, cap, acceleration, block, ins, seqs, done, anchor, t, op, start, m, at);
      if !ok || end {
        return;
      }
    }
  }

  lemma StartPromised(block: seq<Byte>, src: seq<Byte>, tt: TableType, acc: nat)
    requires MFLIMIT < |src| && acc >= 1 && block == BlockOf(src, tt, acc)
    ensures Stored(src, [0]) && Promised(block, [], src, Greedy(src, tt, acc, [0], 0, 1), 0) && WithinBound(0, 0)
  {
    hide Greedy, Coded;
    assert [] + block == block;
  }

  lemma RefusedLiterals(block: seq<Byte>, done: seq<Byte>, src: seq<Byte>, tt: TableType, acc: nat, ins: seq<nat>,
                        anchor: nat, start: nat, m: nat, seen: nat, cap: nat)
    requires acc >= 1 && Stored(src, ins) && anchor <= start <= seen && seen + MFLIMIT <= |src|
    requires m < start <= m + DISTANCE_MAX && Repeats(src, seen, seen + MINMATCH, start - m)
    requires Promised(block, done, src, Matched(src, tt, acc, ins, anchor, start, start - m, seen), anchor)
    requires |done| + 1 + (start - anchor) + (2 + 1 + LASTLITERALS) + (start - anchor) / 255 > cap
    ensures |block| > cap
  {
    hide Matched, After, Stored, Repeats, Promised, Extent;
    MatchedStep(src, tt, acc, ins, anchor, start, m, seen);
    var end := Extent(src, start - m, seen);
    var s := SequenceFor(src, anchor, start, m, end);
    RefusedIsLonger(block, done, src, s, After(src, tt, acc, ins, end), anchor, cap);
  }

  lemma NothingEmitted(src: seq<Byte>)
    ensures Emitted([], src, [], 0) && WithinBound(0, 0)
  {
    assert src[..0] == [];
  }

  /** _last_literals */
  method EncodeLastLiterals(src: seq<Byte>, dst: array<Byte>, anchor: nat, op0: nat, limited: bool, cap: nat, ghost seqs: seq<Sequence>)
    returns (r: nat)
    requires |src| <= LZ4_MAX_INPUT_SIZE && cap <= dst.Length && (!limited ==> cap == CompressBound(|src|))
    requires op0 <= cap && Emitted(dst[..op0], src, seqs, anchor) && (!limited ==> WithinBound(op0, anchor))
    modifies dst
    ensures KeepsFrom(dst, cap)
    ensures r == 0 ==> limited && op0 + |EncodeLast(src[anchor..])| > cap
    ensures r != 0 ==> r <= cap && IsBlockOf(dst[..r], src) && dst[..r] == old(dst[..op0]) + EncodeLast(src[anchor..])
  {
    hide IsBlockOf; hide Extension; hide EncodeLast;
    LastSize(src[anchor..]);
    ghost var done := dst[..op0];
    var lastRun := |src| - anchor;
    if limited && op0 + lastRun + 1 + (lastRun + 255 - 15) / 255 > cap {
      return 0;
    }
    r := EncodeHead(dst, op0, lastRun);
    ghost var head := dst[..r];
    CopyIn(dst, r, src, anchor, lastRun);
    r := r + lastRun;
    AssemblePending(dst[..r], head, op0, Extension(lastRun), src[anchor..]);
    AssembleLast(dst[..r], done, src[anchor..]);
    EmittedBlock(done, src, seqs, anchor);
  }

  lemma LastSize(lits: seq<Byte>)
    ensures |EncodeLast(lits)| == 1 + (|lits| + 240) / 255 + |lits| && |EncodeLast(lits)| == 1 + |Extension(|lits|)| + |lits|
  {
  }

  lemma AssembleLast(d: seq<Byte>, done: seq<Byte>, lits: seq<Byte>)
    requires |done| < |d| && d[..|done|] == done && d[|done|] == Token(|lits|, 0)
    requires d[|done| + 1..] == Extension(|lits|) + lits
    ensures d == done + EncodeLast(lits)
  {
    hide Extension; hide Token;
    var t := |done|;
    assert d == d[..t] + ([d[t]] + d[t + 1..]);
    assert [d[t]] + (Extension(|lits|) + lits) == ([d[t]] + Extension(|lits|)) + lits;
  }

  lemma AllPromised(block: seq<Byte>, done: seq<Byte>, src: seq<Byte>, anchor: nat)
    requires Promised(block, done, src, [], anchor)
    ensures block == done + EncodeLast(src[anchor..])
  {
  }

  /** LZ4_compress_generic: `cap` is the capacity in limited mode, else LZ4_compressBound. The result
      is the block of the greedy parse if that fits, and 0 otherwise. */
  method CompressGeneric(src: seq<Byte>, dst: array<Byte>, tt: TableType, limited: bool, cap: nat, acceleration: nat)
    returns (r: nat)
    requires tt.ByU16? ==> |src| < LZ4_64K_LIMIT
    requires cap <= dst.Length && (!limited ==> cap == CompressBound(|src|)) && acceleration >= 1
    modifies dst
    ensures KeepsFrom(dst, cap)
    ensures r == 0 ==> limited || |src| > LZ4_MAX_INPUT_SIZE
    ensures r != 0 ==> r <= cap && |src| <= LZ4_MAX_INPUT_SIZE && IsBlockOf(dst[..r], src)
    ensures var block := BlockOf(src, tt, acceleration);
            && (r != 0 ==> dst[..r] == block)
            && (r == 0 ==> |src| > LZ4_MAX_INPUT_SIZE || |block| > cap)
  {
    hide IsBlockOf, Emitted, BlockOf, Promised, TableIs, EncodeLast, WithinBound, Latest, HashOf;
    if |src| > LZ4_MAX_INPUT_SIZE {
      return 0;
    }
    ghost var block := BlockOf(src, tt, acceleration);
    if |src| <= MFLIMIT {
      ShortBlock(src, tt, acceleration);
    }
    if |src| == 0 {
      if limited && cap <= 0 {
        return 0;
      }
      dst[0] := 0;
      EmptyBlock(dst[..1], src);
      return 1;
    }
    var anchor: nat, op: nat := 0, 0;
    ghost var seqs: seq<Sequence> := [];
    NothingEmitted(src);
    assert dst[..0] == [];
    if |src| >= MFLIMIT + 1 {
      var table := new nat[TableSize(tt)](_ => 0);
      EmptyTable(table[..], src, tt);
      var ok;
      ok, anchor, op, seqs := CompressBody(src, dst, table, tt, limited, cap, acceleration, block);
      if !ok {
        return 0;
      }
    }
    AllPromised(block, dst[..op], src, anchor);
    r := EncodeLastLiterals(src, dst, anchor, op, limited, cap, seqs);
  }

  /** An input too short to search is all literals. */
  lemma ShortBlock(src: seq<Byte>, tt: TableType, acc: nat)
    requires |src| <= MFLIMIT && acc >= 1
    ensures Promised(BlockOf(src, tt, acc), [], src, [], 0)
    ensures src == [] ==> BlockOf(src, tt, acc) == [0]
  {
    hide Greedy, Extension;
    assert [] + Coded(src, [], 0) == Coded(src, [], 0);
    if src == [] {
      assert src[0..] == [];
      NoLiterals();
    }
  }

  lemma NoLiterals()
    ensures EncodeLast([]) == [0]
  {
  }

  lemma EmptyTable(table: seq<nat>, src: seq<Byte>, tt: TableType)
    requires |table| == TableSize(tt) && forall h :: 0 <= h < |table| ==> table[h] == 0
    ensures TableIs(table, src, tt, [], 1)
  {
  }

  lemma EmptyBlock(block: seq<Byte>, src: seq<Byte>)
    requires block == [0] && src == []
    ensures IsBlockOf(block, src)
  {
    NothingEmitted(src);
    EmittedBlock([], src, [], 0);
    assert src[0..] == [];
    NoLiterals();
    assert [] + EncodeLast(src[0..]) == [0];
  }

  function Min(a: int, b: int): int {
    if a <= b then a else b
  }

  function Acceleration(a: int): nat {
    if a < 1 then 1 else if a > LZ4_ACCELERATION_MAX then LZ4_ACCELERATION_MAX else a
  }

  /** LZ4_compress_fast. The result is the length of the greedy block for `src`, which is what stands
      in the buffer, or 0 if that block is longer than the budget; nothing is written at or beyond the
      capacity nor beyond LZ4_compressBound; with that much capacity it succeeds. */
  method CompressFast(src: seq<Byte>, dst: array<Byte>, maxOutputSize: nat, acceleration: int) returns (r: nat)
    requires maxOutputSize <= dst.Length
    modifies dst
    ensures KeepsFrom(dst, Min(maxOutputSize, CompressBound(|src|)))
    ensures r > 0 ==> |src| <= LZ4_MAX_INPUT_SIZE && r <= maxOutputSize && r <= CompressBound(|src|)
    ensures r > 0 ==> IsBlockOf(dst[..r], src) && dst[..r] == Block(src, Acceleration(acceleration))
    ensures r == 0 ==> |src| > LZ4_MAX_INPUT_SIZE || |Block(src, Acceleration(acceleration))| > maxOutputSize
    ensures |src| <= LZ4_MAX_INPUT_SIZE && maxOutputSize >= CompressBound(|src|) ==> r > 0
    ensures MFLIMIT < |src| <= LZ4_MAX_INPUT_SIZE && Uniform(src) && maxOutputSize >= 10 + (|src| + 230) / 255 ==>
              r == 10 + (|src| + 230) / 255
  {
    hide IsBlockOf, BlockOf;
    var acc := if acceleration < 1 then 1 else if acceleration > LZ4_ACCELERATION_MAX then LZ4_ACCELERATION_MAX else acceleration;
    var tt := if |src| < LZ4_64K_LIMIT then ByU16 else ByU32;
    if |src| > MFLIMIT && Uniform(src) {
      UniformBlock(src, acc);
    }
    if maxOutputSize >= CompressBound(|src|) {
      r := CompressGeneric(src, dst, tt, false, CompressBound(|src|), acc);
    } else {
      r := CompressGeneric(src, dst, tt, true, maxOutputSize, acc);
    }
  }
}
