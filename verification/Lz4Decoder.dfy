/**
 LZ4_decompress_safe (src/util/lz4.c, LZ4_decompress_generic with endOnInputSize,
 decode_full_block and noDict) as a machine over an input position, an output position and a
 control state for the label the C code is at. Every step is proved to leave the result of the
 reference decoder unchanged, every conforming block to be accepted, and every access to be
 within its buffer.
 */
module Lz4Decoder {
  import opened Bytes
  import opened Lz4Format
  import opened Words
  import opened Lz4Copy

  const FASTLOOP_SAFE_DISTANCE := 64

  datatype LengthError = Fine | InitialError | LoopError

  /** The labels of LZ4_decompress_generic, with the locals that are live there. */
  datatype Control =
    | AtToken
    | AtLiterals(mcode: nat, len: nat)     // safe_literal_copy
    | AtMatch(mcode: nat, offset: nat)     // offset read, match length not yet (_copy_match)
    | AtCopy(offset: nat, mlen: nat)       // safe_match_copy
    | Failed                               // _output_error
    | Finished

  /** What the reference decoder makes of the rest. */
  ghost function Rest(src: seq<Byte>, c: Control, ip: nat, out: seq<Byte>): Option<seq<Byte>>
    requires ip <= |src|
  {
    match c
    case AtToken => Decode(src, ip, out)
    case AtLiterals(mcode, len) => DecodeLiterals(src, mcode, len, ip, out)
    case AtMatch(mcode, offset) => DecodeMatch(src, mcode, offset, ip, out)
    case AtCopy(offset, mlen) => DecodeCopy(src, mlen, offset, ip, out)
    case Failed => None
    case Finished => Some(out)
  }

  ghost predicate RestConforms(src: seq<Byte>, c: Control, ip: nat, o: nat, cap: nat)
    requires ip <= |src|
  {
    match c
    case AtToken => Conforms(src, ip, o, cap)
    case AtLiterals(mcode, len) => ConformsLiterals(src, mcode, len, ip, o, cap)
    case AtMatch(mcode, offset) => ConformsMatch(src, mcode, offset, ip, o, cap)
    case AtCopy(offset, mlen) => ConformsCopy(src, mlen, offset, ip, o, cap)
    case Failed => false
    case Finished => true
  }

  /** A step from (c, ip, out) to (c', ip', out') that the reference decoder also makes, and that
      does not lose a conforming rest. */
  ghost predicate Follows(src: seq<Byte>, cap: nat, c: Control, ip: nat, out: seq<Byte>,
                          c': Control, ip': nat, out': seq<Byte>)
    requires ip <= |src|
  {
    && ip' <= |src|
    && (c' != Failed ==> Rest(src, c, ip, out) == Rest(src, c', ip', out'))
    && (RestConforms(src, c, ip, |out|, cap) ==> RestConforms(src, c', ip', |out'|, cap))
  }

  // ----- single steps of the reference decoder -------------------------------------------------

  lemma ShortLiteralLength(src: seq<Byte>, ip: nat, out: seq<Byte>, cap: nat)
    requires ip < |src| && src[ip] / 16 < 15
    ensures Follows(src, cap, AtToken, ip, out, AtLiterals(src[ip] % 16, src[ip] / 16), ip + 1, out)
  {
    hide DecodeLiterals; hide ConformsLiterals;
  }

  /** A literal length field that ends within the last 14 bytes leaves no room for its literals. */
  lemma LengthTooLate(src: seq<Byte>, ip: nat, out: seq<Byte>, cap: nat)
    requires ip < |src| && src[ip] / 16 == 15
    requires ReadLength32(src, ip + 1).Some? ==> ReadLength32(src, ip + 1).value.1 + 15 > |src|
    ensures Decode(src, ip, out) == None && !Conforms(src, ip, |out|, cap)
  {
    match ReadLength32(src, ip + 1)
    case None =>
    case Some((n, j)) =>
      assert DecodeLiterals(src, src[ip] % 16, 15 + n, j, out) == None;
      assert !ConformsLiterals(src, src[ip] % 16, 15 + n, j, |out|, cap);
  }

  /** The literal length field has been read, perhaps stopped early by the loop check. */
  lemma LongLiteralLength(src: seq<Byte>, ip: nat, out: seq<Byte>, cap: nat, n: nat, j: nat)
    requires ip < |src| && src[ip] / 16 == 15 && ip + 1 < j <= |src|
    requires || ReadLength32(src, ip + 1) == Some((n, j))
             || (&& j + 15 + n > |src| && j + 15 >= |src|
                 && (ReadLength32(src, ip + 1).Some? ==> ReadLength32(src, ip + 1).value.1 > j))
    ensures Follows(src, cap, AtToken, ip, out, AtLiterals(src[ip] % 16, 15 + n), j, out)
  {
    hide DecodeMatch; hide ConformsMatch;
    if ReadLength32(src, ip + 1) != Some((n, j)) {
      assert DecodeLiterals(src, src[ip] % 16, 15 + n, j, out) == None;
      LengthTooLate(src, ip, out, cap);
    }
  }

  lemma NoRoomForLength(src: seq<Byte>, ip: nat, out: seq<Byte>, cap: nat, ip': nat, out': seq<Byte>)
    requires ip < |src| && src[ip] / 16 == 15 && ip + 1 + 15 >= |src| && ip' <= |src|
    ensures Follows(src, cap, AtToken, ip, out, Failed, ip', out')
  {
    LengthTooLate(src, ip, out, cap);
  }

  lemma LiteralsThenOffset(src: seq<Byte>, mcode: nat, len: nat, ip: nat, out: seq<Byte>, cap: nat)
    requires ip + len + 2 <= |src|
    ensures Follows(src, cap, AtLiterals(mcode, len), ip, out,
                    AtMatch(mcode, Offset(src, ip + len)), ip + len + 2, out + src[ip..ip + len])
  {
    hide DecodeMatch; hide ConformsMatch;
  }

  lemma LastLiterals(src: seq<Byte>, mcode: nat, len: nat, ip: nat, out: seq<Byte>, cap: nat)
    requires ip + len == |src|
    ensures Follows(src, cap, AtLiterals(mcode, len), ip, out, Finished, |src|, out + src[ip..ip + len])
  {
    assert src[ip..ip + len] == src[ip..];
  }

  lemma ShortMatchLength(src: seq<Byte>, mcode: nat, offset: nat, ip: nat, out: seq<Byte>, cap: nat)
    requires ip <= |src| && mcode < 15
    ensures Follows(src, cap, AtMatch(mcode, offset), ip, out, AtCopy(offset, mcode + MINMATCH), ip, out)
  {
    hide DecodeCopy; hide ConformsCopy;
  }

  lemma LongMatchLength(src: seq<Byte>, offset: nat, ip: nat, out: seq<Byte>, cap: nat, n: nat, j: nat)
    requires ip <= |src| && ReadLength32(src, ip) == Some((n, j))
    ensures Follows(src, cap, AtMatch(15, offset), ip, out, AtCopy(offset, 15 + n + MINMATCH), j, out)
  {
    hide DecodeCopy; hide ConformsCopy;
  }

  lemma BadMatch(src: seq<Byte>, mcode: nat, offset: nat, ip: nat, out: seq<Byte>, cap: nat, ip': nat, out': seq<Byte>)
    requires ip <= |src| && ip' <= |src| && mcode <= 15
    requires || offset > |out|
             || (mcode == 15 && ReadLength32(src, ip).None?)
             || (mcode == 15 && ReadLength32(src, ip).value.1 + LASTLITERALS > |src|)
    ensures Follows(src, cap, AtMatch(mcode, offset), ip, out, Failed, ip', out')
  {
    if mcode < 15 {
      ShortMatchLength(src, mcode, offset, ip, out, cap);
    } else if ReadLength32(src, ip).Some? {
      var (n, j) := ReadLength32(src, ip).value;
      LongMatchLength(src, offset, ip, out, cap, n, j);
    }
  }

  lemma BadCopy(src: seq<Byte>, mlen: nat, offset: nat, ip: nat, out: seq<Byte>, cap: nat, ip': nat, out': seq<Byte>)
    requires ip <= |src| && ip' <= |src|
    requires offset > |out| || |out| + mlen + LASTLITERALS > cap
    ensures Follows(src, cap, AtCopy(offset, mlen), ip, out, Failed, ip', out')
  {
    hide Conforms;
  }

  /** A buffer that keeps `out` and repeats after it holds what the match produces. */
  lemma Copied(src: seq<Byte>, mlen: nat, offset: nat, ip: nat, out: seq<Byte>, cap: nat, r: seq<Byte>)
    requires ip <= |src| && |out| + mlen <= |r| && r[..|out|] == out
    requires Repeats(r, |out|, |out| + mlen, offset)
    ensures Follows(src, cap, AtCopy(offset, mlen), ip, out, AtToken, ip, r[..|out| + mlen])
  {
    hide Decode; hide Conforms;
    RepeatsIsCopy(out, offset, mlen, r);
  }

  lemma Compose(src: seq<Byte>, cap: nat, c0: Control, ip0: nat, out0: seq<Byte>,
                c1: Control, ip1: nat, out1: seq<Byte>, c2: Control, ip2: nat, out2: seq<Byte>)
    requires ip0 <= |src| && ip1 <= |src| && c1 != Failed
    requires Follows(src, cap, c0, ip0, out0, c1, ip1, out1)
    requires Follows(src, cap, c1, ip1, out1, c2, ip2, out2)
    ensures Follows(src, cap, c0, ip0, out0, c2, ip2, out2)
  {
    hide Rest; hide RestConforms;
  }

  // ----- lengths ------------------------------------------------------------------------------

  lemma NoZeroWrap(k: nat)
    requires 0 < k <= INT_MAX
    ensures 255 * k % TWO32 != 0
  {
  }

  /** One byte of a length field has been read after `k` bytes of 255. */
  lemma LengthStep(src: seq<Byte>, ip0: nat, ip: nat)
    requires ip0 <= ip < |src| && AllFull(src, ip0, ip)
    ensures src[ip] < 255 ==> ReadLength(src, ip0) == Some((255 * (ip - ip0) + src[ip], ip + 1))
    ensures src[ip] == 255 ==> AllFull(src, ip0, ip + 1)
    decreases ip - ip0
  {
    if ip > ip0 {
      LengthStep(src, ip0 + 1, ip);
    }
  }

  ghost predicate AllFull(src: seq<Byte>, lo: nat, hi: nat) {
    hi <= |src| && forall j :: lo <= j < hi ==> src[j] == 255
  }

  lemma {:induction false} LengthGoesOn(src: seq<Byte>, ip0: nat, ip: nat)
    requires ip0 < ip && AllFull(src, ip0, ip)
    ensures ReadLength(src, ip0).Some? ==> ReadLength(src, ip0).value.1 > ip
    decreases ip - ip0
  {
    if ip > ip0 + 1 {
      LengthGoesOn(src, ip0 + 1, ip);
    }
  }

  /** read_variable_length with loop_check: 32-bit accumulation, stopping at `lencheck`. */
  method ReadVariableLength(src: seq<Byte>, ip0: nat, lencheck: int, initialCheck: bool)
    returns (length: nat, ip: nat, error: LengthError)
    requires |src| <= INT_MAX && lencheck <= |src| && ip0 <= |src|
    requires initialCheck || ip0 < |src|
    ensures error == InitialError <==> initialCheck && ip0 >= lencheck
    ensures error != InitialError ==> ip0 < ip <= |src|
    ensures error == Fine ==> ip < lencheck && ReadLength32(src, ip0) == Some((length, ip))
    ensures error == LoopError ==>
              && ip >= lencheck
              && (ReadLength32(src, ip0) == Some((length, ip)) ||
                  (length > 0 && (ReadLength32(src, ip0).Some? ==> ReadLength32(src, ip0).value.1 > ip)))
  {
    hide ReadLength;
    length, ip := 0, ip0;
    if initialCheck && ip >= lencheck {
      return length, ip, InitialError;
    }
    while true
      invariant ip0 <= ip < |src| && (ip == ip0 || ip < lencheck)
      invariant length == 255 * (ip - ip0) % TWO32
      invariant AllFull(src, ip0, ip)
      decreases |src| - ip
    {
      LengthStep(src, ip0, ip);
      var s := src[ip];
      ip := ip + 1;
      length := (length + s) % TWO32;
      assert length == (255 * (ip - 1 - ip0) + s) % TWO32;
      if ip >= lencheck {
        if s == 255 {
          NoZeroWrap(ip - ip0);
          LengthGoesOn(src, ip0, ip);
        }
        return length, ip, LoopError;
      }
      if s != 255 {
        return length, ip, Fine;
      }
    }
  }

  /** Token and literal length; `Failed` is the initial_error exit. */
  method LiteralLength(src: seq<Byte>, ip0: nat, ghost out: seq<Byte>, ghost cap: nat) returns (c: Control, ip: nat)
    requires ip0 < |src| <= INT_MAX
    ensures c.AtLiterals? || c.Failed?
    ensures ip0 < ip <= |src|
    ensures src[ip0] / 16 < 15 ==> c.AtLiterals?
    ensures c.AtLiterals? ==> c.mcode == src[ip0] % 16 && (src[ip0] / 16 < 15 ==> c.len == src[ip0] / 16 && ip == ip0 + 1)
    ensures c.AtLiterals? && src[ip0] / 16 == 15 ==> c.len >= 15
    ensures Follows(src, cap, AtToken, ip0, out, c, ip, out)
  {
    hide Follows; hide ReadLength32;
    ip := ip0 + 1;
    var len := src[ip0] / 16;
    if len == 15 {
      var n, j, error := ReadVariableLength(src, ip, |src| - 15, true);
      if error == InitialError {
        NoRoomForLength(src, ip0, out, cap, ip, out);
        return Failed, ip;
      }
      ip := j;
      LongLiteralLength(src, ip0, out, cap, n, j);
      len := 15 + n;
    } else {
      ShortLiteralLength(src, ip0, out, cap);
    }
    c := AtLiterals(src[ip0] % 16, len);
  }

  // ----- the steps of the decoder --------------------------------------------------------------

  /** Where the machine may be between two steps, and what room that guarantees. */
  predicate InBounds(src: seq<Byte>, cap: nat, c: Control, ip: nat, op: nat) {
    && ip <= |src| && op <= cap
    && (c.AtToken? ==> ip < |src|)
    && (c.AtLiterals? ==> c.mcode <= 15)
    && (c.AtMatch? ==> ip < |src| && op + MFLIMIT <= cap && c.mcode <= 15)
    && (c.AtCopy? ==> ip < |src| && op + MFLIMIT <= cap && c.mlen >= MINMATCH)
  }

  /** Token and literals of the fast loop. */
  method FastLiterals(src: seq<Byte>, dst: array<Byte>, ip0: nat, op0: nat) returns (c: Control, ip: nat, op: nat)
    requires ip0 < |src| <= INT_MAX && op0 + FASTLOOP_SAFE_DISTANCE <= dst.Length
    modifies dst
    ensures c.AtLiterals? || c.AtMatch? || c.Failed?
    ensures InBounds(src, dst.Length, c, ip, op) && ip > ip0
    ensures c.AtMatch? ==> op + 32 <= dst.Length
    ensures Follows(src, dst.Length, AtToken, ip0, old(dst[..op0]), c, ip, dst[..op])
  {
    hide Follows;
    ghost var out := dst[..op0];
    c, ip := LiteralLength(src, ip0, out, dst.Length);
    op := op0;
    if c.Failed? {
      return;
    }
    var len := c.len;
    if src[ip0] / 16 == 15 {
      if op + len + 32 > dst.Length || ip + len + 32 > |src| {
        return;
      }
      WildCopyIn(dst, op, src, ip, op + len, 32);
    } else {
      if ip + 17 > |src| {
        return;
      }
      CopyIn(dst, op, src, ip, 16);
    }
    assert dst[..op + len] == out + src[ip..ip + len];
    LiteralsThenOffset(src, c.mcode, len, ip, out, dst.Length);
    Compose(src, dst.Length, AtToken, ip0, out, c, ip, out,
            AtMatch(c.mcode, Offset(src, ip + len)), ip + len + 2, out + src[ip..ip + len]);
    c, ip, op := AtMatch(c.mcode, Offset(src, ip + len)), ip + len + 2, op + len;
  }

  /** Match length of either loop: `Failed` is the error exit of read_variable_length. */
  method MatchLength(src: seq<Byte>, mcode: nat, offset: nat, ip0: nat, ghost out: seq<Byte>, ghost cap: nat)
    returns (c: Control, ip: nat)
    requires ip0 < |src| <= INT_MAX && mcode <= 15
    ensures c.Failed? || (c.AtCopy? && c.offset == offset && c.mlen >= MINMATCH)
    ensures ip0 <= ip <= |src| && (c.AtCopy? ==> ip < |src|)
    ensures c.AtCopy? && mcode < 15 ==> c.mlen == mcode + MINMATCH
    ensures Follows(src, cap, AtMatch(mcode, offset), ip0, out, c, ip, out)
  {
    hide Follows;
    ip := ip0;
    var len := mcode;
    if mcode == 15 {
      var n, j, error := ReadVariableLength(src, ip, |src| - LASTLITERALS + 1, false);
      ip := j;
      if error != Fine {
        BadMatch(src, mcode, offset, ip0, out, cap, ip, out);
        return Failed, ip;
      }
      LongMatchLength(src, offset, ip0, out, cap, n, j);
      len := 15 + n;
    } else {
      ShortMatchLength(src, mcode, offset, ip0, out, cap);
    }
    c := AtCopy(offset, len + MINMATCH);
  }

  /** Match of 4 to 18 bytes at an offset of at least 8: copies 8, 8 and 2 bytes whatever the length. */
  method EighteenBytes(dst: array<Byte>, op: nat, offset: nat)
    requires 8 <= offset <= op && op + 18 <= dst.Length
    modifies dst
    ensures KeepsBelow(dst, op)
    ensures Repeats(dst[..], op, op + 18, offset)
  {
    var m := op - offset;
    CopyWithin(dst, op, m, 8);
    CopyWithin(dst, op + 8, m + 8, 8);
    CopyWithin(dst, op + 16, m + 16, 2);
  }

  /** The buffer after a copy, as a step of the reference decoder. */
  lemma CopiedTo(src: seq<Byte>, c: Control, ip: nat, out: seq<Byte>, r: seq<Byte>, hi: nat)
    requires ip <= |src| && c.AtCopy? && |out| + c.mlen <= hi <= |r| && r[..|out|] == out
    requires Repeats(r, |out|, hi, c.offset)
    ensures Follows(src, |r|, c, ip, out, AtToken, ip, r[..|out| + c.mlen])
  {
    hide Follows;
    assert Repeats(r, |out|, |out| + c.mlen, c.offset);
    Copied(src, c.mlen, c.offset, ip, out, |r|, r);
  }

  /** Match of the fast loop. */
  method FastMatch(src: seq<Byte>, dst: array<Byte>, mcode: nat, offset: nat, ip0: nat, op0: nat)
    returns (c: Control, ip: nat, op: nat)
    requires ip0 < |src| <= INT_MAX && op0 + 32 <= dst.Length && mcode <= 15
    modifies dst
    ensures c.AtToken? || c.AtCopy? || c.Failed?
    ensures InBounds(src, dst.Length, c, ip, op) && ip >= ip0
    ensures c.AtToken? ==> op + FASTLOOP_SAFE_DISTANCE <= dst.Length
    ensures Follows(src, dst.Length, AtMatch(mcode, offset), ip0, old(dst[..op0]), c, ip, dst[..op])
  {
    hide Follows; hide Repeats;
    ghost var out := dst[..op0];
    op := op0;
    if mcode == 15 && offset > op {
      BadMatch(src, mcode, offset, ip0, out, dst.Length, ip0, out);
      return Failed, ip0, op;
    }
    c, ip := MatchLength(src, mcode, offset, ip0, out, dst.Length);
    if c.Failed? || op + c.mlen + FASTLOOP_SAFE_DISTANCE >= dst.Length {
      return;
    }
    if offset > op {
      BadCopy(src, c.mlen, offset, ip, out, dst.Length, ip, out);
      Compose(src, dst.Length, AtMatch(mcode, offset), ip0, out, c, ip, out, Failed, ip, out);
      return Failed, ip, op;
    }
    ghost var hi := op + c.mlen;
    if mcode < 15 && offset >= 8 {
      EighteenBytes(dst, op, offset);
      hi := op + 18;
    } else if offset < 16 {
      CopyUsingOffset(dst, op, op - offset, op + c.mlen);
    } else {
      WildCopy32(dst, op, op - offset, op + c.mlen);
      assert Repeats(dst[..], op, op + c.mlen, offset) by { MakesRepeat(dst[..], op, op + c.mlen, offset); }
    }
    assert dst[..][..op] == out;
    CopiedTo(src, c, ip, out, dst[..], hi);
    assert dst[..][..op + c.mlen] == dst[..op + c.mlen];
    Compose(src, dst.Length, AtMatch(mcode, offset), ip0, out, c, ip, out, AtToken, ip, dst[..op + c.mlen]);
    c, op := AtToken, op + c.mlen;
  }

  lemma MakesRepeat(s: seq<Byte>, lo: nat, hi: nat, offset: nat)
    requires 0 < offset <= lo <= hi <= |s|
    requires forall j, k :: lo <= j < hi && k == j - offset ==> s[j] == s[k]
    ensures Repeats(s, lo, hi, offset)
  {
  }

  /** Token of the safe loop, with the two-stage shortcut. */
  method SafeToken(src: seq<Byte>, dst: array<Byte>, ip0: nat, op0: nat) returns (c: Control, ip: nat, op: nat)
    requires ip0 < |src| <= INT_MAX && op0 <= dst.Length
    modifies dst
    ensures !c.AtCopy? && c != Finished
    ensures InBounds(src, dst.Length, c, ip, op) && ip > ip0
    ensures Follows(src, dst.Length, AtToken, ip0, old(dst[..op0]), c, ip, dst[..op])
  {
    hide Follows; hide Repeats;
    ghost var out := dst[..op0];
    c, ip := LiteralLength(src, ip0, out, dst.Length);
    op := op0;
    if src[ip0] / 16 == 15 || ip0 + 1 + 16 >= |src| || op + 32 > dst.Length {
      return;
    }
    var len, offset := c.len, Offset(src, ip + c.len);
    CopyIn(dst, op, src, ip, 16);
    ghost var lits := out + src[ip..ip + len];
    assert dst[..op + len] == lits;
    LiteralsThenOffset(src, c.mcode, len, ip, out, dst.Length);
    Compose(src, dst.Length, AtToken, ip0, out, c, ip, out, AtMatch(c.mcode, offset), ip + len + 2, lits);
    c, ip, op := AtMatch(c.mcode, offset), ip + len + 2, op + len;
    if c.mcode != 15 && 8 <= offset <= op {
      var d := AtCopy(offset, c.mcode + MINMATCH);
      ShortMatchLength(src, c.mcode, offset, ip, lits, dst.Length);
      Compose(src, dst.Length, AtToken, ip0, out, c, ip, lits, d, ip, lits);
      EighteenBytes(dst, op, offset);
      assert dst[..][..op] == lits;
      CopiedTo(src, d, ip, lits, dst[..], op + 18);
      assert dst[..][..op + d.mlen] == dst[..op + d.mlen];
      Compose(src, dst.Length, AtToken, ip0, out, d, ip, lits, AtToken, ip, dst[..op + d.mlen]);
      c, op := AtToken, op + d.mlen;
    }
  }

  /** Literals of the safe loop: the last run must end exactly with the input. */
  method SafeLiterals(src: seq<Byte>, dst: array<Byte>, mcode: nat, len: nat, ip0: nat, op0: nat)
    returns (c: Control, ip: nat, op: nat)
    requires ip0 <= |src| <= INT_MAX && op0 <= dst.Length && mcode <= 15
    modifies dst
    ensures c.Finished? || c.Failed? || c.AtMatch?
    ensures InBounds(src, dst.Length, c, ip, op) && ip >= ip0 && (c.AtMatch? ==> ip > ip0)
    ensures Follows(src, dst.Length, AtLiterals(mcode, len), ip0, old(dst[..op0]), c, ip, dst[..op])
  {
    hide DecodeMatch; hide ConformsMatch;
    ghost var out := dst[..op0];
    ip, op := ip0, op0;
    if op + len + MFLIMIT > dst.Length || ip + len + 3 + LASTLITERALS > |src| {
      if ip + len != |src| || op + len > dst.Length {
        return Failed, ip, op;
      }
      CopyIn(dst, op, src, ip, len);
      assert dst[..op + len] == out + src[ip..ip + len];
      LastLiterals(src, mcode, len, ip, out, dst.Length);
      c, ip, op := Finished, ip + len, op + len;
    } else {
      WildCopyIn(dst, op, src, ip, op + len, 8);
      assert dst[..op + len] == out + src[ip..ip + len];
      LiteralsThenOffset(src, mcode, len, ip, out, dst.Length);
      c, ip, op := AtMatch(mcode, Offset(src, ip + len)), ip + len + 2, op + len;
    }
  }

  /** Match copy of the safe loop. */
  method SafeCopy(src: seq<Byte>, dst: array<Byte>, offset: nat, mlen: nat, ip: nat, op0: nat)
    returns (c: Control, op: nat)
    requires ip < |src| && op0 + MFLIMIT <= dst.Length && mlen >= MINMATCH
    modifies dst
    ensures c.AtToken? || c.Failed?
    ensures op <= dst.Length
    ensures Follows(src, dst.Length, AtCopy(offset, mlen), ip, old(dst[..op0]), c, ip, dst[..op])
  {
    hide Follows; hide Repeats;
    ghost var out := dst[..op0];
    op := op0;
    if offset > op {
      BadCopy(src, mlen, offset, ip, out, dst.Length, ip, out);
      return Failed, op;
    }
    var ok := SafeMatchCopy(dst, op, op - offset, mlen);
    if !ok {
      BadCopy(src, mlen, offset, ip, out, dst.Length, ip, dst[..op]);
      return Failed, op;
    }
    assert dst[..][..op] == out;
    CopiedTo(src, AtCopy(offset, mlen), ip, out, dst[..], op + mlen);
    assert dst[..][..op + mlen] == dst[..op + mlen];
    c, op := AtToken, op + mlen;
  }

  function Rank(c: Control): nat {
    match c
    case AtLiterals(_, _) => 3
    case AtMatch(_, _) => 2
    case AtCopy(_, _) => 1
    case _ => 0
  }

  /** LZ4_decompress_safe. A non-negative result is the number of bytes written, and those bytes
      are what the reference decoder produces; every conforming block is accepted. */
  method DecompressSafe(src: seq<Byte>, dst: array<Byte>) returns (r: int)
    requires |src| <= INT_MAX && dst.Length <= INT_MAX
    modifies dst
    ensures r >= 0 ==> r <= dst.Length && Decode(src, 0, []) == Some(dst[..r])
    ensures Conforms(src, 0, 0, dst.Length) ==> r >= 0
  {
    hide Follows; hide Decode; hide Conforms;
    if dst.Length == 0 {
      r := if |src| == 1 && src[0] == 0 then 0 else -1;
      EmptyOutput(src);
      assert dst[..0] == [];
      return;
    }
    if |src| == 0 {
      EmptyInput(src, dst.Length);
      return -1;
    }
    var c, ip, op := AtToken, 0, 0;
    var fast := dst.Length >= FASTLOOP_SAFE_DISTANCE;
    assert dst[..0] == [];
    Stays(src, dst.Length, c, ip, []);
    while c != Failed && c != Finished
      invariant InBounds(src, dst.Length, c, ip, op)
      invariant fast ==> c.AtToken? && op + FASTLOOP_SAFE_DISTANCE <= dst.Length
      invariant Follows(src, dst.Length, AtToken, 0, [], c, ip, dst[..op])
      decreases |src| - ip, c != Failed && c != Finished, Rank(c)
    {
      ghost var c0, ip0, out0 := c, ip, dst[..op];
      match c {
        case AtToken =>
          if fast {
            c, ip, op := FastLiterals(src, dst, ip, op);
            if c.AtMatch? {
              Compose(src, dst.Length, AtToken, 0, [], c0, ip0, out0, c, ip, dst[..op]);
              c0, ip0, out0 := c, ip, dst[..op];
              c, ip, op := FastMatch(src, dst, c.mcode, c.offset, ip, op);
            }
            fast := c.AtToken?;
          } else {
            c, ip, op := SafeToken(src, dst, ip, op);
          }
        case AtLiterals(mcode, len) => c, ip, op := SafeLiterals(src, dst, mcode, len, ip, op);
        case AtMatch(mcode, offset) => c, ip := MatchLength(src, mcode, offset, ip, out0, dst.Length);
        case AtCopy(offset, mlen) => c, op := SafeCopy(src, dst, offset, mlen, ip, op);
      }
      Compose(src, dst.Length, AtToken, 0, [], c0, ip0, out0, c, ip, dst[..op]);
    }
    Outcome(src, dst.Length, c, ip, dst[..op]);
    if c == Finished {
      r := op;
    } else {
      r := -1 - (ip as int);
    }
  }

  lemma EmptyOutput(src: seq<Byte>)
    ensures src == [0] ==> Decode(src, 0, []) == Some([])
    ensures Conforms(src, 0, 0, 0) ==> src == [0]
  {
    if |src| > 0 {
      var mcode := src[0] % 16;
      if src[0] / 16 < 15 {
        ShortLiteralLength(src, 0, [], 0);
        assert |src| == 1 ==> src == [src[0]];
        assert src[0] / 16 == 0 && mcode == 0 ==> src[0] == 0;
        var len: nat := src[0] / 16;
        if ConformsLiterals(src, mcode, len, 1, 0, 0) {
          assert 1 + len >= |src|;
        }
        if src == [0] {
          assert [] + src[1..] == [];
          assert DecodeLiterals(src, 0, 0, 1, []) == Some([]);
        }
      } else if ReadLength32(src, 1).Some? {
        var (n, j) := ReadLength32(src, 1).value;
        assert !ConformsLiterals(src, mcode, 15 + n, j, 0, 0);
      }
    }
  }

  lemma EmptyInput(src: seq<Byte>, cap: nat)
    requires src == []
    ensures !Conforms(src, 0, 0, cap)
  {
  }

  lemma Stays(src: seq<Byte>, cap: nat, c: Control, ip: nat, out: seq<Byte>)
    requires ip <= |src|
    ensures Follows(src, cap, c, ip, out, c, ip, out)
  {
    hide Rest; hide RestConforms;
  }

  lemma Outcome(src: seq<Byte>, cap: nat, c: Control, ip: nat, out: seq<Byte>)
    requires c == Finished || c == Failed
    requires Follows(src, cap, AtToken, 0, [], c, ip, out)
    ensures c == Finished ==> Decode(src, 0, []) == Some(out)
    ensures Conforms(src, 0, 0, cap) ==> c == Finished
  {
    hide Decode; hide Conforms;
  }

  /** The decoder undoes every block of the grammar, for every sufficient output capacity. */
  method DecompressBlock(block: seq<Byte>, ghost data: seq<Byte>, dst: array<Byte>) returns (r: int)
    requires |block| <= INT_MAX && dst.Length <= INT_MAX
    requires IsBlockOf(block, data) && |data| <= dst.Length
    modifies dst
    ensures r == |data| && dst[..r] == data
  {
    hide Decode; hide Conforms; hide IsBlockOf;
    BlockDecodes(block, data, dst.Length);
    r := DecompressSafe(block, dst);
  }
}
