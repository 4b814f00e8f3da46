/**
 The LZ4 block format, stated twice and independently of the codec in src/util/lz4.c:

 - a grammar: a block is a list of sequences (literals followed by a match) and a final literal
   run, with the function `EncodeAll` giving its bytes and `Expand` giving its meaning;
 - a byte-at-a-time reference decoder `Decode` that reads a byte string and knows nothing about
   stripes, shortcuts, over-copying or output margins.

 `BlockDecodes` connects the two. The compressor is proved against the grammar, the optimised
 decoder against the reference decoder.
 */
module Lz4Format {
  import opened Bytes
  import opened Words

  const MINMATCH := 4
  const LASTLITERALS := 5
  const MFLIMIT := 12
  const DISTANCE_MAX := 65535
  const INT_MAX := 0x7FFF_FFFF

  // ----- grammar ---------------------------------------------------------------------------

  /** Literals, then a copy of `mlen` bytes starting `offset` bytes back. */
  datatype Sequence = Sequence(lits: seq<Byte>, offset: nat, mlen: nat)

  /** A length beyond the 4-bit field: a run of 255s closed by a smaller byte. */
  function LengthBytes(n: nat): (r: seq<Byte>)
    ensures |r| == n / 255 + 1
  {
    if n < 255 then [n] else [255] + LengthBytes(n - 255)
  }

  function Nibble(n: nat): (r: nat)
    ensures r <= 15
  {
    if n < 15 then n else 15
  }

  function Extension(n: nat): (r: seq<Byte>)
    ensures |r| == (n + 240) / 255
  {
    if n < 15 then [] else LengthBytes(n - 15)
  }

  function Token(litLen: nat, matchCode: nat): Byte {
    Nibble(litLen) * 16 + Nibble(matchCode)
  }

  predicate Encodable(s: Sequence) {
    s.mlen >= MINMATCH && 1 <= s.offset <= DISTANCE_MAX
  }

  /** Token and literal-length bytes. */
  function Head(litLen: nat, matchCode: nat): seq<Byte> {
    [Token(litLen, matchCode)] + Extension(litLen)
  }

  /** Literals and little-endian offset. */
  function Run(s: Sequence): seq<Byte>
    requires Encodable(s)
  {
    s.lits + [s.offset % 256, s.offset / 256]
  }

  function EncodeSequence(s: Sequence): seq<Byte>
    requires Encodable(s)
  {
    Head(|s.lits|, s.mlen - MINMATCH) + (Run(s) + Extension(s.mlen - MINMATCH))
  }

  function EncodeLast(lits: seq<Byte>): seq<Byte> {
    Head(|lits|, 0) + lits
  }

  function Last<T>(s: seq<T>): T
    requires |s| > 0
  {
    s[|s| - 1]
  }

  function Init<T>(s: seq<T>): seq<T>
    requires |s| > 0
  {
    s[..|s| - 1]
  }

  /** Appends `len` bytes, each a copy of the byte `offset` back; the copy may overlap itself.
      Offset 0 is outside the format; the decoder of this repository produces zeros for it. */
  function CopyMatch(out: seq<Byte>, offset: nat, len: nat): (r: seq<Byte>)
    requires offset <= |out|
    ensures |r| == |out| + len
    ensures r[..|out|] == out
    decreases len
  {
    if len == 0 then out
    else CopyMatch(out + [if offset == 0 then 0 else out[|out| - offset]], offset, len - 1)
  }

  /** The number of bytes a list of sequences stands for. */
  function OutputLength(seqs: seq<Sequence>): nat {
    if seqs == [] then 0 else OutputLength(Init(seqs)) + |Last(seqs).lits| + Last(seqs).mlen
  }

  /** Every match reaches back into output that exists, starts at least MFLIMIT before the end
      of the `n` output bytes and stops at least LASTLITERALS before it. */
  predicate WellFormed(seqs: seq<Sequence>, n: nat) {
    seqs == [] ||
    (var s := Last(seqs);
     var start := OutputLength(Init(seqs)) + |s.lits|;
     && WellFormed(Init(seqs), n)
     && Encodable(s)
     && s.offset <= start
     && start + MFLIMIT <= n
     && start + s.mlen + LASTLITERALS <= n)
  }

  /** The bytes a list of sequences stands for. */
  function Expand(seqs: seq<Sequence>, n: nat): (r: seq<Byte>)
    requires WellFormed(seqs, n)
    ensures |r| == OutputLength(seqs) <= n
  {
    if seqs == [] then []
    else
      var s := Last(seqs);
      CopyMatch(Expand(Init(seqs), n) + s.lits, s.offset, s.mlen)
  }

  function EncodeAll(seqs: seq<Sequence>, n: nat): seq<Byte>
    requires WellFormed(seqs, n)
  {
    if seqs == [] then [] else EncodeAll(Init(seqs), n) + EncodeSequence(Last(seqs))
  }

  /** `block` is an LZ4 block for `data` that keeps the end-of-block restrictions. */
  ghost predicate IsBlockOf(block: seq<Byte>, data: seq<Byte>) {
    exists seqs: seq<Sequence>, last: seq<Byte> ::
      && WellFormed(seqs, |data|)
      && block == EncodeAll(seqs, |data|) + EncodeLast(last)
      && data == Expand(seqs, |data|) + last
  }

  // ----- reference decoder -------------------------------------------------------------------

  /** The value of a length field at `ip` and the position after it. */
  function ReadLength(src: seq<Byte>, ip: nat): (r: Option<(nat, nat)>)
    ensures r.Some? ==> ip < r.value.1 <= |src|
    decreases |src| - ip
  {
    if ip >= |src| then None
    else if src[ip] < 255 then Some((src[ip], ip + 1))
    else
      match ReadLength(src, ip + 1)
      case None => None
      case Some((n, j)) => Some((n + 255, j))
  }

  /** Lengths are accumulated in 32 bits (U32 in read_variable_length). */
  function ReadLength32(src: seq<Byte>, ip: nat): (r: Option<(nat, nat)>)
    ensures r.Some? ==> ip < r.value.1 <= |src|
  {
    match ReadLength(src, ip)
    case None => None
    case Some((n, j)) => Some((n % TWO32, j))
  }

  /** Decodes from a token at `ip`, `out` having been produced so far. */
  function Decode(src: seq<Byte>, ip: nat, out: seq<Byte>): Option<seq<Byte>>
    requires ip <= |src|
    decreases |src| - ip, 0
  {
    if ip == |src| then None
    else if src[ip] / 16 == 15 then
      match ReadLength32(src, ip + 1)
      case None => None
      case Some((n, j)) => DecodeLiterals(src, src[ip] % 16, 15 + n, j, out)
    else DecodeLiterals(src, src[ip] % 16, src[ip] / 16, ip + 1, out)
  }

  function DecodeLiterals(src: seq<Byte>, mcode: nat, len: nat, ip: nat, out: seq<Byte>): Option<seq<Byte>>
    requires ip <= |src|
    decreases |src| - ip, 3
  {
    if ip + len > |src| then None
    else if ip + len == |src| then Some(out + src[ip..])
    else if ip + len + 2 > |src| then None
    else DecodeMatch(src, mcode, Offset(src, ip + len), ip + len + 2, out + src[ip..ip + len])
  }

  function Offset(src: seq<Byte>, ip: nat): nat
    requires ip + 2 <= |src|
  {
    var low: int, high: int := src[ip], src[ip + 1];
    low + 256 * high
  }

  function DecodeMatch(src: seq<Byte>, mcode: nat, offset: nat, ip: nat, out: seq<Byte>): Option<seq<Byte>>
    requires ip <= |src|
    decreases |src| - ip, 2
  {
    if mcode == 15 then
      match ReadLength32(src, ip)
      case None => None
      case Some((n, j)) => DecodeCopy(src, 15 + n + MINMATCH, offset, j, out)
    else DecodeCopy(src, mcode + MINMATCH, offset, ip, out)
  }

  function DecodeCopy(src: seq<Byte>, len: nat, offset: nat, ip: nat, out: seq<Byte>): Option<seq<Byte>>
    requires ip <= |src|
    decreases |src| - ip, 1
  {
    if offset > |out| then None else Decode(src, ip, CopyMatch(out, offset, len))
  }

  // ----- blocks that every capacity-respecting decoder must accept ------------------------------

  /** From a token at `ip` with `o` bytes out, `src` keeps the end-of-block restrictions with
      respect to an output buffer of `cap` bytes. */
  predicate Conforms(src: seq<Byte>, ip: nat, o: nat, cap: nat)
    requires ip <= |src|
    decreases |src| - ip, 0
  {
    if ip == |src| then false
    else if src[ip] / 16 == 15 then
      match ReadLength32(src, ip + 1)
      case None => false
      case Some((n, j)) => ConformsLiterals(src, src[ip] % 16, 15 + n, j, o, cap)
    else ConformsLiterals(src, src[ip] % 16, src[ip] / 16, ip + 1, o, cap)
  }

  predicate ConformsLiterals(src: seq<Byte>, mcode: nat, len: nat, ip: nat, o: nat, cap: nat)
    requires ip <= |src|
    decreases |src| - ip, 3
  {
    if ip + len >= |src| then ip + len == |src| && mcode == 0 && o + len <= cap
    else
      && ip + len + 3 + LASTLITERALS <= |src|
      && o + len + MFLIMIT <= cap
      && ConformsMatch(src, mcode, Offset(src, ip + len), ip + len + 2, o + len, cap)
  }

  predicate ConformsMatch(src: seq<Byte>, mcode: nat, offset: nat, ip: nat, o: nat, cap: nat)
    requires ip <= |src|
    decreases |src| - ip, 2
  {
    if mcode == 15 then
      match ReadLength32(src, ip)
      case None => false
      case Some((n, j)) => j + LASTLITERALS <= |src| && ConformsCopy(src, 15 + n + MINMATCH, offset, j, o, cap)
    else ConformsCopy(src, mcode + MINMATCH, offset, ip, o, cap)
  }

  predicate ConformsCopy(src: seq<Byte>, len: nat, offset: nat, ip: nat, o: nat, cap: nat)
    requires ip <= |src|
    decreases |src| - ip, 1
  {
    offset <= o && o + len + LASTLITERALS <= cap && Conforms(src, ip, o + len, cap)
  }

  // ----- the grammar and the reference decoder agree --------------------------------------------

  /** `part` stands at position `ip` of `src`. */
  ghost predicate At<T>(src: seq<T>, ip: nat, part: seq<T>) {
    ip + |part| <= |src| && src[ip..ip + |part|] == part
  }

  lemma AtParts<T>(src: seq<T>, ip: nat, x: seq<T>, y: seq<T>)
    requires At(src, ip, x + y)
    ensures At(src, ip, x) && At(src, ip + |x|, y)
  {
    var k := |x| + |y|;
    assert src[ip..ip + |x|] == src[ip..ip + k][..|x|] == (x + y)[..|x|] == x;
    assert src[ip + |x|..ip + k] == src[ip..ip + k][|x|..] == (x + y)[|x|..] == y;
  }

  lemma AtIndex<T>(src: seq<T>, ip: nat, part: seq<T>, k: nat)
    requires At(src, ip, part) && k < |part|
    ensures src[ip + k] == part[k]
  {
    assert src[ip..ip + |part|][k] == src[ip + k];
  }

  lemma {:induction false} ReadLengthBytes(src: seq<Byte>, ip: nat, n: nat)
    requires At(src, ip, LengthBytes(n))
    ensures ReadLength(src, ip) == Some((n, ip + |LengthBytes(n)|))
    decreases n
  {
    AtIndex(src, ip, LengthBytes(n), 0);
    if n >= 255 {
      AtParts(src, ip, [255], LengthBytes(n - 255));
      ReadLengthBytes(src, ip + 1, n - 255);
    }
  }

  lemma ReadExtension(src: seq<Byte>, ip: nat, n: nat)
    requires At(src, ip, Extension(n)) && 15 <= n < TWO32
    ensures ReadLength32(src, ip) == Some((n - 15, ip + |Extension(n)|))
  {
    ReadLengthBytes(src, ip, n - 15);
  }

  lemma TokenFields(litLen: nat, matchCode: nat)
    ensures Token(litLen, matchCode) / 16 == Nibble(litLen)
    ensures Token(litLen, matchCode) % 16 == Nibble(matchCode)
  {
  }

  /** The reference decoder reads a token with its literal length. */
  lemma DecodeToken(src: seq<Byte>, ip: nat, litLen: nat, matchCode: nat, out: seq<Byte>, o: nat, cap: nat)
    requires At(src, ip, Head(litLen, matchCode)) && litLen < TWO32
    ensures var l := ip + 1 + |Extension(litLen)|;
            && Decode(src, ip, out) == DecodeLiterals(src, Nibble(matchCode), litLen, l, out)
            && Conforms(src, ip, o, cap) == ConformsLiterals(src, Nibble(matchCode), litLen, l, o, cap)
  {
    hide DecodeLiterals; hide ConformsLiterals;
    AtParts(src, ip, [Token(litLen, matchCode)], Extension(litLen));
    AtIndex(src, ip, [Token(litLen, matchCode)], 0);
    TokenFields(litLen, matchCode);
    if litLen >= 15 {
      ReadExtension(src, ip + 1, litLen);
    }
  }

  /** The reference decoder reads literals and an offset. */
  lemma DecodeRun(src: seq<Byte>, ip: nat, mcode: nat, lits: seq<Byte>, offset: nat, out: seq<Byte>, o: nat, cap: nat)
    requires At(src, ip, lits + [offset % 256, offset / 256]) && offset <= DISTANCE_MAX
    requires ip + |lits| + 3 + LASTLITERALS <= |src| && o + |lits| + MFLIMIT <= cap
    ensures var m := ip + |lits| + 2;
            && DecodeLiterals(src, mcode, |lits|, ip, out) == DecodeMatch(src, mcode, offset, m, out + lits)
            && ConformsLiterals(src, mcode, |lits|, ip, o, cap) == ConformsMatch(src, mcode, offset, m, o + |lits|, cap)
  {
    hide DecodeMatch; hide ConformsMatch; hide Decode; hide Conforms;
    AtParts(src, ip, lits, [offset % 256, offset / 256]);
    AtIndex(src, ip + |lits|, [offset % 256, offset / 256], 0);
    AtIndex(src, ip + |lits|, [offset % 256, offset / 256], 1);
    assert Offset(src, ip + |lits|) == offset;
  }

  /** The reference decoder reads a match length. */
  lemma DecodeMatchLength(src: seq<Byte>, ip: nat, mlen: nat, offset: nat, out: seq<Byte>, cap: nat)
    requires MINMATCH <= mlen < TWO32 && At(src, ip, Extension(mlen - MINMATCH))
    requires ip + |Extension(mlen - MINMATCH)| + LASTLITERALS <= |src|
    ensures var m, j := Nibble(mlen - MINMATCH), ip + |Extension(mlen - MINMATCH)|;
            && DecodeMatch(src, m, offset, ip, out) == DecodeCopy(src, mlen, offset, j, out)
            && ConformsMatch(src, m, offset, ip, |out|, cap) == ConformsCopy(src, mlen, offset, j, |out|, cap)
  {
    hide DecodeCopy; hide ConformsCopy; hide Decode; hide Conforms;
    if mlen - MINMATCH >= 15 {
      ReadExtension(src, ip, mlen - MINMATCH);
    }
  }

  /** The reference decoder reads the literals and the match of a sequence whose token is read. */
  lemma DecodeBody(src: seq<Byte>, ip: nat, s: Sequence, out: seq<Byte>, cap: nat)
    requires Encodable(s) && s.mlen < TWO32
    requires && At(src, ip, Run(s)) && At(src, ip + |Run(s)|, Extension(s.mlen - MINMATCH))
             && ip + |Run(s)| + |Extension(s.mlen - MINMATCH)| + 1 + LASTLITERALS <= |src|
    requires |out| + |s.lits| + MFLIMIT <= cap
    ensures var m, j := Nibble(s.mlen - MINMATCH), ip + |s.lits| + 2 + |Extension(s.mlen - MINMATCH)|;
            && DecodeLiterals(src, m, |s.lits|, ip, out) == DecodeCopy(src, s.mlen, s.offset, j, out + s.lits)
            && ConformsLiterals(src, m, |s.lits|, ip, |out|, cap) == ConformsCopy(src, s.mlen, s.offset, j, |out + s.lits|, cap)
  {
    hide DecodeLiterals; hide ConformsLiterals; hide DecodeMatch; hide ConformsMatch; hide DecodeCopy; hide ConformsCopy;
    DecodeRun(src, ip, Nibble(s.mlen - MINMATCH), s.lits, s.offset, out, |out|, cap);
    DecodeMatchLength(src, ip + |s.lits| + 2, s.mlen, s.offset, out + s.lits, cap);
  }

  /** The reference decoder reads one encoded sequence and performs it. */
  lemma DecodeSequence(src: seq<Byte>, ip: nat, s: Sequence, out: seq<Byte>, cap: nat)
    requires Encodable(s) && |s.lits| < TWO32 && s.mlen < TWO32
    requires At(src, ip, EncodeSequence(s))
    requires ip + |EncodeSequence(s)| + 1 + LASTLITERALS <= |src|
    requires s.offset <= |out| + |s.lits|
    requires |out| + |s.lits| + MFLIMIT <= cap && |out| + |s.lits| + s.mlen + LASTLITERALS <= cap
    ensures var j := ip + |EncodeSequence(s)|;
            && Decode(src, ip, out) == DecodeCopy(src, s.mlen, s.offset, j, out + s.lits)
            && Conforms(src, ip, |out|, cap) == ConformsCopy(src, s.mlen, s.offset, j, |out + s.lits|, cap)
  {
    hide Decode; hide Conforms; hide DecodeLiterals; hide ConformsLiterals; hide DecodeCopy; hide ConformsCopy;
    hide Token; hide Extension; hide LengthBytes; hide Nibble;
    var head := Head(|s.lits|, s.mlen - MINMATCH);
    var ext := Extension(s.mlen - MINMATCH);
    AtParts(src, ip, head, Run(s) + ext);
    AtParts(src, ip + |head|, Run(s), ext);
    var l := ip + 1 + |Extension(|s.lits|)|;
    assert l == ip + |head| && ip + |EncodeSequence(s)| == l + |s.lits| + 2 + |ext|;
    DecodeToken(src, ip, |s.lits|, s.mlen - MINMATCH, out, |out|, cap);
    DecodeBody(src, l, s, out, cap);
  }

  lemma DecodeLast(src: seq<Byte>, ip: nat, lits: seq<Byte>, out: seq<Byte>, cap: nat)
    requires |lits| < TWO32
    requires At(src, ip, EncodeLast(lits)) && |src| == ip + |EncodeLast(lits)|
    requires |out| + |lits| <= cap
    ensures Decode(src, ip, out) == Some(out + lits)
    ensures Conforms(src, ip, |out|, cap)
  {
    var head := Head(|lits|, 0);
    AtParts(src, ip, head, lits);
    DecodeToken(src, ip, |lits|, 0, out, |out|, cap);
    assert src[ip + |head|..] == lits;
  }

  lemma {:induction false} DecodeAll(seqs: seq<Sequence>, n: nat, tail: seq<Byte>, cap: nat)
    requires WellFormed(seqs, n) && n < TWO32 && n <= cap
    requires |tail| >= 1 + LASTLITERALS || seqs == []
    ensures var e := EncodeAll(seqs, n);
            && Decode(e + tail, 0, []) == Decode(e + tail, |e|, Expand(seqs, n))
            && Conforms(e + tail, 0, 0, cap) == Conforms(e + tail, |e|, |Expand(seqs, n)|, cap)
    decreases |seqs|
  {
    hide Decode; hide Conforms; hide CopyMatch; hide EncodeSequence; hide Encodable;
    if seqs != [] {
      var s := Last(seqs);
      var p := EncodeAll(Init(seqs), n);
      var src := p + EncodeSequence(s) + tail;
      assert src == p + (EncodeSequence(s) + tail);
      DecodeAll(Init(seqs), n, EncodeSequence(s) + tail, cap);
      assert At(src, |p|, EncodeSequence(s));
      DecodeSequence(src, |p|, s, Expand(Init(seqs), n), cap);
    }
  }

  lemma BlockPartsDecode(seqs: seq<Sequence>, last: seq<Byte>, n: nat, cap: nat)
    requires WellFormed(seqs, n) && OutputLength(seqs) + |last| == n && n < TWO32 && n <= cap
    requires seqs != [] ==> |last| >= LASTLITERALS
    ensures var block := EncodeAll(seqs, n) + EncodeLast(last);
            Decode(block, 0, []) == Some(Expand(seqs, n) + last) && Conforms(block, 0, 0, cap)
  {
    hide Decode; hide Conforms; hide EncodeAll; hide Expand; hide CopyMatch; hide WellFormed; hide Token;
    var e := EncodeAll(seqs, n);
    assert At(e + EncodeLast(last), |e|, EncodeLast(last));
    DecodeAll(seqs, n, EncodeLast(last), cap);
    DecodeLast(e + EncodeLast(last), |e|, last, Expand(seqs, n), cap);
  }

  /** A block in the grammar is read back by the reference decoder, and conforms for every
      output buffer at least as long as the data. */
  lemma BlockDecodes(block: seq<Byte>, data: seq<Byte>, cap: nat)
    requires IsBlockOf(block, data) && |data| < TWO32 && |data| <= cap
    ensures Decode(block, 0, []) == Some(data)
    ensures Conforms(block, 0, 0, cap)
  {
    hide Decode; hide Conforms; hide EncodeAll; hide EncodeLast; hide CopyMatch;
    var n := |data|;
    var seqs, last :|
      && WellFormed(seqs, n)
      && block == EncodeAll(seqs, n) + EncodeLast(last)
      && data == Expand(seqs, n) + last;
    BlockPartsDecode(seqs, last, n, cap);
  }

  // ----- overlapping copies ------------------------------------------------------------------

  /** From `lo` to `hi` each byte of `s` equals the one `p` before it (zero when `p` is 0). */
  ghost predicate Repeats(s: seq<Byte>, lo: nat, hi: nat, p: nat) {
    && p <= lo <= hi <= |s|
    && forall j, k :: lo <= j < hi && k == j - p ==> s[j] == if p == 0 then 0 else s[k]
  }

  /** A buffer that repeats with period `offset` after `out` holds the match copy. */
  lemma {:induction false} RepeatsIsCopy(out: seq<Byte>, offset: nat, len: nat, r: seq<Byte>)
    requires |out| + len <= |r| && r[..|out|] == out
    requires Repeats(r, |out|, |out| + len, offset)
    ensures r[..|out| + len] == CopyMatch(out, offset, len)
    decreases len
  {
    if len > 0 {
      var next: Byte := if offset == 0 then 0 else out[|out| - offset];
      assert r[|out|] == if offset == 0 then 0 else r[|out| - offset];
      assert r[..|out| + 1] == out + [next];
      RepeatsIsCopy(out + [next], offset, len - 1, r);
    }
  }

  /** `k` steps of a repetition at once. */
  lemma {:induction false} RepeatsBack(s: seq<Byte>, lo: nat, hi: nat, p: nat, x: int, k: nat)
    requires Repeats(s, lo, hi, p) && p > 0
    requires k >= 1 && lo + (k - 1) * p <= x < hi
    ensures x - k * p >= 0 && s[x] == s[x - k * p]
    decreases k
  {
    assert k * p == (k - 1) * p + p;
    assert s[x] == s[x - p];
    if k > 1 {
      assert (k - 1) * p == (k - 2) * p + p;
      RepeatsBack(s, lo, hi, p, x - p, k - 1);
    }
  }
}
