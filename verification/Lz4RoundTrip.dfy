/** Compressor and decoder together. */
module Lz4RoundTrip {
  import opened Bytes
  import opened Lz4Format
  import opened Words
  import Lz4Compressor
  import Lz4Greedy
  import Lz4Decoder

  /** Whatever LZ4_compress_fast accepts, LZ4_decompress_safe gives back exactly, for every
      acceleration, every compression budget and every output capacity that holds the source. */
  method RoundTrip(src: seq<Byte>, acceleration: int, budget: nat, capacity: nat)
    returns (k: nat, n: int, out: array<Byte>)
    requires |src| <= capacity <= INT_MAX && budget <= INT_MAX
    ensures fresh(out) && out.Length == capacity
    ensures k > 0 ==> n == |src| && out[..n] == src
    ensures budget >= Lz4Compressor.CompressBound(|src|) && |src| <= Lz4Compressor.LZ4_MAX_INPUT_SIZE ==> k > 0
  {
    hide IsBlockOf;
    var dst := new Byte[budget];
    out := new Byte[capacity];
    n := 0;
    k := Lz4Compressor.CompressFast(src, dst, budget, acceleration);
    if k > 0 {
      n := Lz4Decoder.DecompressBlock(dst[..k], src, out);
    }
  }

  /** The block that the search gives reads back as its source, and every conforming decoder accepts it. */
  lemma GreedyReadsBack(src: seq<Byte>, acc: nat, cap: nat)
    requires acc >= 1 && |src| < TWO32 && |src| <= cap
    ensures Decode(Lz4Greedy.Block(src, acc), 0, []) == Some(src) && Conforms(Lz4Greedy.Block(src, acc), 0, 0, cap)
  {
    hide IsBlockOf, Decode, Conforms, Lz4Greedy.Block;
    Lz4Compressor.BlockIsBlock(src, acc);
    BlockDecodes(Lz4Greedy.Block(src, acc), src, cap);
  }

  // ----- length fields and their 32 bits ---------------------------------------------------------

  /** The decoder reads the field at `ip` to its end before `lencheck`. */
  predicate Finished(src: seq<Byte>, ip: nat, lencheck: int) {
    ReadLength(src, ip).Some? && ReadLength(src, ip).value.1 < lencheck
  }

  /** A literal length stands after a token, and literals and an end of block have to follow. */
  predicate LiteralField(src: seq<Byte>, ip: nat) { ip >= 1 && Finished(src, ip, |src| - 15) }

  /** A match length stands after a token and an offset, and the last literals have to follow. */
  predicate MatchField(src: seq<Byte>, ip: nat) { ip >= 3 && Finished(src, ip, |src| - LASTLITERALS + 1) }

  const LONGEST_EXACT := 16843017

  /** In a block of at most 16,843,017 bytes no length field that the decoder finishes reaches 32 bits. */
  lemma LengthsAreExact(src: seq<Byte>, ip: nat)
    requires |src| <= LONGEST_EXACT && (LiteralField(src, ip) || MatchField(src, ip))
    ensures ReadLength32(src, ip) == ReadLength(src, ip)
  {
    hide ReadLength, ReadLength32;
    BoundIsExact(src, ip);
  }

  lemma {:induction false} LengthBound(src: seq<Byte>, ip: nat)
    ensures ReadLength(src, ip).Some? ==> ReadLength(src, ip).value.0 <= 255 * (ReadLength(src, ip).value.1 - ip) - 1
    decreases |src| - ip
  {
    if ip < |src| && src[ip] == 255 {
      LengthBound(src, ip + 1);
    }
  }

  /** A token, literals, an offset, and a match length of 2^32 and 19 bytes. */
  function LongMatch(lits: seq<Byte>, offset: Byte): (r: seq<Byte>)
    requires |lits| < 15
    ensures |r| == |lits| + LONGEST_EXACT - 4
  {
    [|lits| * 16 + 15] + (lits + [offset, 0]) + (seq(16843009, _ => 255) + [1])
  }

  lemma LongMatchReads(lits: seq<Byte>, offset: Byte, tail: seq<Byte>)
    requires |lits| < 15
    ensures var src, j := LongMatch(lits, offset) + tail, |LongMatch(lits, offset)|;
            ReadLength(src, |lits| + 3) == Some((TWO32, j)) && ReadLength32(src, |lits| + 3) == Some((0, j))
  {
    hide ReadLength;
    var src := LongMatch(lits, offset) + tail;
    Lz4Decoder.LengthStep(src, |lits| + 3, |lits| + 3 + 16843009);
  }

  /** One byte more and a match length can wrap: the block announces a match of 2^32 and 19 bytes, and
      what it decodes to, in every buffer that holds it, is 19 bytes with its literals. */
  lemma LengthWraps(lits: seq<Byte>, offset: Byte, last: seq<Byte>, cap: nat)
    requires |lits| < 15 && offset <= |lits| && 4 <= |last| < TWO32
    requires |lits| + 24 <= cap && |lits| + 19 + |last| <= cap
    ensures var src := LongMatch(lits, offset) + EncodeLast(last);
            && MatchField(src, |lits| + 3) && ReadLength(src, |lits| + 3).value.0 + 15 + MINMATCH == TWO32 + 19
            && Decode(src, 0, []) == Some(CopyMatch(lits, offset, 19) + last)
            && Conforms(src, 0, 0, cap)
            && (|last| == 4 ==> |src| == LONGEST_EXACT + |lits| + 1)
  {
    hide LongMatch, ReadLength, ReadLength32, Conforms, Decode, CopyMatch;
    var src, j := LongMatch(lits, offset) + EncodeLast(last), |LongMatch(lits, offset)|;
    LongMatchReads(lits, offset, EncodeLast(last));
    LongMatchStarts(src, lits, offset, cap);
    assert At(src, j, EncodeLast(last));
    DecodeLast(src, j, last, CopyMatch(lits, offset, 19), cap);
  }

  lemma LongMatchStarts(src: seq<Byte>, lits: seq<Byte>, offset: Byte, cap: nat)
    requires |lits| < 15 && offset <= |lits| && |lits| + 24 <= cap
    requires At(src, 0, LongMatch(lits, offset)) && |src| >= |LongMatch(lits, offset)| + LASTLITERALS
    requires ReadLength32(src, |lits| + 3) == Some((0, |LongMatch(lits, offset)|))
    ensures var j := |LongMatch(lits, offset)|;
            && Decode(src, 0, []) == Decode(src, j, CopyMatch(lits, offset, 19))
            && Conforms(src, 0, 0, cap) == Conforms(src, j, |lits| + 19, cap)
  {
    hide ReadLength32, CopyMatch, Decode, Conforms, DecodeLiterals, DecodeMatch, ConformsLiterals, ConformsMatch;
    var full := seq(16843009, _ => 255 as Byte) + [1];
    AtParts(src, 0, [|lits| * 16 + 15] + (lits + [offset, 0]), full);
    AtParts(src, 0, [|lits| * 16 + 15], lits + [offset, 0]);
    AtIndex(src, 0, [|lits| * 16 + 15], 0);
    FirstToken(src, |lits|, cap);
    DecodeRun(src, 1, 15, lits, offset, [], 0, cap);
    assert [] + lits == lits;
    WrappedMatch(src, lits, offset, |LongMatch(lits, offset)|, cap);
  }

  lemma FirstToken(src: seq<Byte>, n: nat, cap: nat)
    requires n < 15 && |src| >= 4 && src[0] == n * 16 + 15
    ensures Decode(src, 0, []) == DecodeLiterals(src, 15, n, 1, []) && Conforms(src, 0, 0, cap) == ConformsLiterals(src, 15, n, 1, 0, cap)
  {
    hide DecodeLiterals, ConformsLiterals;
  }

  lemma WrappedMatch(src: seq<Byte>, lits: seq<Byte>, offset: nat, j: nat, cap: nat)
    requires offset <= |lits| && |src| >= j + LASTLITERALS && |lits| + 24 <= cap && |lits| + 3 <= |src|
    requires ReadLength32(src, |lits| + 3) == Some((0, j))
    ensures DecodeMatch(src, 15, offset, |lits| + 3, lits) == Decode(src, j, CopyMatch(lits, offset, 19))
    ensures ConformsMatch(src, 15, offset, |lits| + 3, |lits|, cap) == Conforms(src, j, |lits| + 19, cap)
  {
    hide ReadLength32, CopyMatch, Decode, Conforms;
  }

  /** 32 bits are enough for all length fields that the decoder finishes in blocks of `n` bytes exactly
      up to 16,843,017, or one byte more for every literal that has to stand before a match. An offset
      of the format, which is at least 1, needs a literal before the first match; the decoder also takes
      offset 0. */
  lemma LengthsExactIff(lits: nat, n: nat)
    requires lits <= 9
    ensures (forall src: seq<Byte>, ip: nat :: |src| == n && (LiteralField(src, ip) || (ip >= lits + 3 && MatchField(src, ip))) ==>
               ReadLength32(src, ip) == ReadLength(src, ip)) <==> n <= LONGEST_EXACT + lits
  {
    hide ReadLength, ReadLength32, LongMatch;
    if n <= LONGEST_EXACT + lits {
      forall src: seq<Byte>, ip: nat | |src| == n && (LiteralField(src, ip) || (ip >= lits + 3 && MatchField(src, ip)))
        ensures ReadLength32(src, ip) == ReadLength(src, ip)
      {
        BoundIsExact(src, ip);
      }
    } else {
      var before, tail := seq(lits, _ => 0), seq(n - LONGEST_EXACT - lits + 4, _ => 0);
      var src := LongMatch(before, 0) + tail;
      LongMatchReads(before, 0, tail);
      assert MatchField(src, lits + 3) && ReadLength32(src, lits + 3) != ReadLength(src, lits + 3);
    }
  }

  /** A field of at most 16,843,009 bytes is exact. */
  lemma BoundIsExact(src: seq<Byte>, ip: nat)
    requires ReadLength(src, ip).Some? ==> ReadLength(src, ip).value.1 - ip <= 16843009
    ensures ReadLength32(src, ip) == ReadLength(src, ip)
  {
    LengthBound(src, ip);
  }
}
