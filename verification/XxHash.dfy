/**
 Streaming and one-shot xxHash (src/util/xxhash.cc). XXH32 and XXH64 differ only in their word
 arithmetic, so the buffering logic is written once over an `Algorithm`; Xxh32 and Xxh64 below are
 its two instances, with the arithmetic of the source on 32- and 64-bit words.
 */
module XxHash {

  import opened Bytes
  import opened Words

  /** `stripe` bytes are consumed per round; `init`, `round`, `merge` work on the accumulators v1..v4;
      `short` starts the hash of an input below one stripe; `finish` absorbs length and tail. */
  datatype Algorithm<!Seed, !Acc, !Word> = Algorithm(
    stripe: nat,
    init: Seed -> Acc,
    round: (Acc, seq<Byte>) -> Acc,
    merge: Acc -> Word,
    short: Seed -> Word,
    finish: (Word, nat, seq<Byte>) -> Word)

  /** The accumulators after all whole stripes of `data`. */
  function Stripes<Seed, Acc, Word>(alg: Algorithm<Seed, Acc, Word>, acc: Acc, data: seq<Byte>): Acc
    requires alg.stripe > 0
    decreases |data|
  {
    if |data| < alg.stripe then acc
    else Stripes(alg, alg.round(acc, data[..alg.stripe]), data[alg.stripe..])
  }

  /** The bytes after the last whole stripe. */
  function Rest(stripe: nat, data: seq<Byte>): (r: seq<Byte>)
    requires stripe > 0
    ensures |r| < stripe && |r| <= |data|
    decreases |data|
  {
    if |data| < stripe then data else Rest(stripe, data[stripe..])
  }

  /** The hash of `data` as one piece. */
  function Hash<Seed, Acc, Word>(alg: Algorithm<Seed, Acc, Word>, seed: Seed, data: seq<Byte>): Word
    requires alg.stripe > 0
  {
    alg.finish(if |data| >= alg.stripe then alg.merge(Stripes(alg, alg.init(seed), data)) else alg.short(seed),
               |data|, Rest(alg.stripe, data))
  }

  /** Whole stripes can be taken off the front. */
  lemma {:induction false} StripesConcat<Seed, Acc, Word>(alg: Algorithm<Seed, Acc, Word>, acc: Acc, a: seq<Byte>, b: seq<Byte>)
    requires alg.stripe > 0 && Rest(alg.stripe, a) == []
    ensures Stripes(alg, acc, a + b) == Stripes(alg, Stripes(alg, acc, a), b)
    ensures Rest(alg.stripe, a + b) == Rest(alg.stripe, b)
    decreases |a|
  {
    if a == [] {
      assert a + b == b;
    } else {
      var n := alg.stripe;
      assert (a + b)[..n] == a[..n] && (a + b)[n..] == a[n..] + b;
      StripesConcat(alg, alg.round(acc, a[..n]), a[n..], b);
    }
  }

  lemma OneStripe<Seed, Acc, Word>(alg: Algorithm<Seed, Acc, Word>, acc: Acc, s: seq<Byte>)
    requires alg.stripe > 0 && |s| == alg.stripe
    ensures Stripes(alg, acc, s) == alg.round(acc, s) && Rest(alg.stripe, s) == []
  {
    assert s[..alg.stripe] == s && s[alg.stripe..] == [];
  }

  lemma ShortRest(stripe: nat, data: seq<Byte>)
    requires stripe > 0 && |data| < stripe
    ensures Rest(stripe, data) == data
  {
  }

  /** XXH_endian_align: the stripe loop of the one-shot functions. */
  method OneShot<Seed, Acc, Word>(alg: Algorithm<Seed, Acc, Word>, seed: Seed, input: seq<Byte>) returns (h: Word)
    requires alg.stripe > 0
    ensures h == Hash(alg, seed, input)
  {
    var p := 0;
    if |input| >= alg.stripe {
      var acc := alg.init(seed);
      assert input[0..] == input;
      while p + alg.stripe <= |input|
        invariant 0 <= p <= |input|
        invariant Stripes(alg, acc, input[p..]) == Stripes(alg, alg.init(seed), input)
        invariant Rest(alg.stripe, input[p..]) == Rest(alg.stripe, input)
      {
        assert input[p..][..alg.stripe] == input[p..p + alg.stripe];
        assert input[p..][alg.stripe..] == input[p + alg.stripe..];
        acc := alg.round(acc, input[p..p + alg.stripe]);
        p := p + alg.stripe;
      }
      h := alg.merge(acc);
    } else {
      assert input[0..] == input;
      h := alg.short(seed);
    }
    h := alg.finish(h, |input|, input[p..]);
  }

  /** XXH32_state_t / XXH64_state_t. `fed` is everything given to Update since the reset. */
  class Stream<Seed, Acc, Word> {
    const alg: Algorithm<Seed, Acc, Word>
    var seed: Seed
    var totalLen: nat
    var acc: Acc
    const mem: array<Byte>
    var memsize: nat
    ghost var fed: seq<Byte>
    ghost var whole: seq<Byte>    // the part of `fed` already in the accumulators

    ghost predicate Valid()
      reads this, mem
    {
      Absorbed() && totalLen == |fed| < TWO64 && fed == whole + mem[..memsize]
    }

    /** XXH_createState and XXH_reset */
    constructor (alg: Algorithm<Seed, Acc, Word>, seed: Seed)
      requires alg.stripe > 0
      ensures Valid() && fed == [] && this.alg == alg && this.seed == seed && fresh(mem)
    {
      this.alg, this.seed, totalLen, acc := alg, seed, 0, alg.init(seed);
      mem, memsize := new Byte[alg.stripe], 0;
      fed, whole := [], [];
    }

    /** XXH_reset */
    method Reset(seed: Seed)
      requires Valid()
      modifies this
      ensures Valid() && fed == [] && this.seed == seed
    {
      this.seed, totalLen, acc, memsize := seed, 0, alg.init(seed), 0;
      fed, whole := [], [];
    }

    /** Copies `input[from..from + n]` to the buffer at `memsize`. */
    method Buffer(input: seq<Byte>, from: nat, n: nat)
      requires memsize + n <= mem.Length && from + n <= |input|
      modifies mem
      ensures mem[..memsize + n] == old(mem[..memsize]) + input[from..from + n]
    {
      var m := memsize;
      forall i | 0 <= i < n {
        mem[m + i] := input[from + i];
      }
    }

    /** The accumulators hold exactly the whole stripes. */
    ghost predicate Absorbed()
      reads this
    {
      && alg.stripe > 0 && mem.Length == alg.stripe && memsize < alg.stripe
      && Rest(alg.stripe, whole) == []
      && acc == Stripes(alg, alg.init(seed), whole)
    }

    /** One round on a stripe. */
    method Absorb(s: seq<Byte>)
      requires Absorbed() && |s| == alg.stripe
      modifies this`acc, this`whole
      ensures Absorbed() && whole == old(whole) + s
    {
      acc := alg.round(acc, s);
      OneStripe(alg, Stripes(alg, alg.init(seed), whole), s);
      StripesConcat(alg, alg.init(seed), whole, s);
      whole := whole + s;
    }

    /** The part of XXH_update for data left from a previous update. */
    method RunBuffer(input: seq<Byte>) returns (p: nat)
      requires Absorbed() && memsize + |input| >= alg.stripe
      modifies this`acc, this`whole, this`memsize, mem
      ensures Absorbed() && memsize == 0 && p <= |input|
      ensures whole + input[p..] == old(whole + mem[..memsize]) + input
    {
      p := 0;
      if memsize > 0 {
        p := alg.stripe - memsize;
        ghost var pending := mem[..memsize];
        Buffer(input, 0, p);
        assert mem[..] == mem[..alg.stripe] == pending + input[..p];
        Absorb(mem[..]);
        memsize := 0;
        assert input == input[..p] + input[p..];
      }
    }

    /** The stripe loop of XXH_update. */
    method RunStripes(input: seq<Byte>, p0: nat) returns (p: nat)
      requires Absorbed() && p0 <= |input|
      modifies this`acc, this`whole
      ensures Absorbed() && p0 <= p <= |input| < p + alg.stripe
      ensures whole + input[p..] == old(whole) + input[p0..]
    {
      p := p0;
      while p + alg.stripe <= |input|
        invariant p0 <= p <= |input| && Absorbed()
        invariant whole + input[p..] == old(whole) + input[p0..]
      {
        assert input[p..] == input[p..p + alg.stripe] + input[p + alg.stripe..];
        Absorb(input[p..p + alg.stripe]);
        p := p + alg.stripe;
      }
    }

    /** The end of XXH_update: the bytes below one stripe wait in the empty buffer. */
    method KeepRest(input: seq<Byte>, p: nat)
      requires Absorbed() && memsize == 0 && p <= |input| < p + alg.stripe
      modifies this`memsize, mem
      ensures Absorbed() && mem[..memsize] == input[p..]
    {
      hide Stripes, Rest;
      if p < |input| {
        Buffer(input, p, |input| - p);
        memsize := |input| - p;
        assert input[p..p + (|input| - p)] == input[p..];
      }
    }

    /** XXH_update: fill the buffer, run it when full, run whole stripes, keep the rest. */
    method Update(input: seq<Byte>)
      requires Valid() && |fed| + |input| < TWO64
      modifies this, mem
      ensures Valid() && fed == old(fed) + input && seed == old(seed)
    {
      hide Stripes, Rest;
      totalLen := totalLen + |input|;
      fed := fed + input;
      if memsize + |input| < alg.stripe {
        Buffer(input, 0, |input|);
        memsize := memsize + |input|;
        assert input[0..|input|] == input;
      } else {
        var p := RunBuffer(input);
        p := RunStripes(input, p);
        KeepRest(input, p);
      }
    }

    /** XXH_digest: the hash of everything fed, and the state stays usable. */
    method Digest() returns (h: Word)
      requires Valid()
      ensures h == Hash(alg, seed, fed)
    {
      h := if totalLen >= alg.stripe then alg.merge(acc) else alg.short(seed);
      h := alg.finish(h, totalLen, mem[..memsize]);
      StripesConcat(alg, alg.init(seed), whole, mem[..memsize]);
      ShortRest(alg.stripe, mem[..memsize]);
    }
  }

  /** However an input is cut into updates, the digest is the one-shot hash of the whole. */
  method Streamed<Seed, Acc, Word>(alg: Algorithm<Seed, Acc, Word>, seed: Seed, pieces: seq<seq<Byte>>) returns (h: Word)
    requires alg.stripe > 0 && |Flatten(pieces)| < TWO64
    ensures h == Hash(alg, seed, Flatten(pieces))
  {
    var st := new Stream(alg, seed);
    for i := 0 to |pieces|
      invariant st.Valid() && st.alg == alg && st.seed == seed && fresh(st) && fresh(st.mem)
      invariant st.fed == Flatten(pieces[..i])
    {
      FlattenNext(pieces, i);
      FlattenPrefix(pieces, i + 1);
      st.Update(pieces[i]);
    }
    assert pieces[..|pieces|] == pieces;
    h := st.Digest();
  }
}

/** The word arithmetic of XXH32 and XXH64 and the two instances of the hash. */
module XxHashWords {
  import opened Bytes
  import opened Words
  import opened MachineWords
  import opened XxHash

  datatype Lanes<T> = Lanes(v1: T, v2: T, v3: T, v4: T)

  const P32_1: U32 := 2654435761
  const P32_2: U32 := 2246822519
  const P32_3: U32 := 3266489917
  const P32_4: U32 := 668265263
  const P32_5: U32 := 374761393
  const P64_1: U64 := 11400714785074694791
  const P64_2: U64 := 14029467366897019727
  const P64_3: U64 := 1609587929392839161
  const P64_4: U64 := 9650029242287828579
  const P64_5: U64 := 2870177450012600261

  /** `s[i..j]` cut to what there is. */
  function Slice(s: seq<Byte>, i: nat, j: nat): seq<Byte> {
    if i <= j <= |s| then s[i..j] else []
  }

  // XXH32

  function Init32(seed: U32): Lanes<U32> {
    Lanes((seed + P32_1 + P32_2) % TWO32, (seed + P32_2) % TWO32, seed, (seed - P32_1) % TWO32)
  }

  function Lane32(v: U32, word: nat): U32 { Rotl32((v + word * P32_2) % TWO32, 13) * P32_1 % TWO32 }

  function Round32(a: Lanes<U32>, s: seq<Byte>): Lanes<U32> {
    Lanes(Lane32(a.v1, Le(Slice(s, 0, 4))), Lane32(a.v2, Le(Slice(s, 4, 8))),
          Lane32(a.v3, Le(Slice(s, 8, 12))), Lane32(a.v4, Le(Slice(s, 12, 16))))
  }

  function Merge32(a: Lanes<U32>): U32 {
    (Rotl32(a.v1, 1) + Rotl32(a.v2, 7) + Rotl32(a.v3, 12) + Rotl32(a.v4, 18)) % TWO32
  }

  function Word32(h: U32, word: nat): U32 { Rotl32((h + word * P32_3) % TWO32, 17) * P32_4 % TWO32 }

  function Byte32(h: U32, b: Byte): U32 { Rotl32((h + b * P32_5) % TWO32, 11) * P32_1 % TWO32 }

  function Tail32(h: U32, s: seq<Byte>): U32
    decreases |s|
  {
    if |s| >= 4 then Tail32(Word32(h, Le(s[..4])), s[4..])
    else if |s| > 0 then Tail32(Byte32(h, s[0]), s[1..])
    else h
  }

  function Avalanche32(h: U32): U32 {
    var h1 := Xor32(h, Shr32(h, 15)) * P32_2 % TWO32;
    var h2 := Xor32(h1, Shr32(h1, 13)) * P32_3 % TWO32;
    Xor32(h2, Shr32(h2, 16))
  }

  function Finish32(h: U32, len: nat, tail: seq<Byte>): U32 {
    Avalanche32(Tail32((h + len) % TWO32, tail))
  }

  function Short32(seed: U32): U32 { (seed + P32_5) % TWO32 }

  const Xxh32: Algorithm<U32, Lanes<U32>, U32> := Algorithm(16, Init32, Round32, Merge32, Short32, Finish32)

  /** The two tail loops of XXH32 take words and then bytes off the front. */
  method TailLoops32(h0: U32, s: seq<Byte>) returns (h: U32)
    ensures h == Tail32(h0, s)
  {
    hide Word32, Byte32, Le;
    h := h0;
    var p := 0;
    assert s[0..] == s;
    while p + 4 <= |s|
      invariant 0 <= p <= |s| && Tail32(h, s[p..]) == Tail32(h0, s)
    {
      assert s[p..][..4] == s[p..p + 4] && s[p..][4..] == s[p + 4..];
      h := Word32(h, Le(s[p..p + 4]));
      p := p + 4;
    }
    while p < |s|
      invariant |s| < p + 4 && 0 <= p <= |s| && Tail32(h, s[p..]) == Tail32(h0, s)
    {
      assert s[p..][1..] == s[p + 1..];
      h := Byte32(h, s[p]);
      p := p + 1;
    }
  }

  // XXH64

  function Init64(seed: U64): Lanes<U64> {
    Lanes((seed + P64_1 + P64_2) % TWO64, (seed + P64_2) % TWO64, seed, (seed - P64_1) % TWO64)
  }

  function Lane64(v: U64, word: nat): U64 { Rotl64((v + word * P64_2) % TWO64, 31) * P64_1 % TWO64 }

  function Round64(a: Lanes<U64>, s: seq<Byte>): Lanes<U64> {
    Lanes(Lane64(a.v1, Le(Slice(s, 0, 8))), Lane64(a.v2, Le(Slice(s, 8, 16))),
          Lane64(a.v3, Le(Slice(s, 16, 24))), Lane64(a.v4, Le(Slice(s, 24, 32))))
  }

  function MergeLane(h: U64, v: U64): U64 { (Xor64(h, Lane64(0, v)) * P64_1 + P64_4) % TWO64 }

  function Merge64(a: Lanes<U64>): U64 {
    var h := (Rotl64(a.v1, 1) + Rotl64(a.v2, 7) + Rotl64(a.v3, 12) + Rotl64(a.v4, 18)) % TWO64;
    MergeLane(MergeLane(MergeLane(MergeLane(h, a.v1), a.v2), a.v3), a.v4)
  }

  function Long64(h: U64, word: nat): U64 { (Rotl64(Xor64(h, Lane64(0, word)), 27) * P64_1 + P64_4) % TWO64 }

  function Word64(h: U64, word: nat): U64 { (Rotl64(Xor64(h, word * P64_1 % TWO64), 23) * P64_2 + P64_3) % TWO64 }

  function Byte64(h: U64, b: Byte): U64 { Rotl64(Xor64(h, b * P64_5 % TWO64), 11) * P64_1 % TWO64 }

  function Tail64(h: U64, s: seq<Byte>): U64
    decreases |s|
  {
    if |s| >= 8 then Tail64(Long64(h, Le(s[..8])), s[8..])
    else if |s| >= 4 then Tail64(Word64(h, Le(s[..4])), s[4..])
    else if |s| > 0 then Tail64(Byte64(h, s[0]), s[1..])
    else h
  }

  function Avalanche64(h: U64): U64 {
    var h1 := Xor64(h, Shr64(h, 33)) * P64_2 % TWO64;
    var h2 := Xor64(h1, Shr64(h1, 29)) * P64_3 % TWO64;
    Xor64(h2, Shr64(h2, 32))
  }

  function Finish64(h: U64, len: nat, tail: seq<Byte>): U64 {
    Avalanche64(Tail64((h + len) % TWO64, tail))
  }

  function Short64(seed: U64): U64 { (seed + P64_5) % TWO64 }

  const Xxh64: Algorithm<U64, Lanes<U64>, U64> := Algorithm(32, Init64, Round64, Merge64, Short64, Finish64)

  /** The three tail steps of XXH64: long words in a loop, at most one word, bytes in a loop. */
  method TailLoops64(h0: U64, s: seq<Byte>) returns (h: U64)
    ensures h == Tail64(h0, s)
  {
    hide Long64, Word64, Byte64, Le;
    h := h0;
    var p := 0;
    assert s[0..] == s;
    while p + 8 <= |s|
      invariant 0 <= p <= |s| && Tail64(h, s[p..]) == Tail64(h0, s)
    {
      assert s[p..][..8] == s[p..p + 8] && s[p..][8..] == s[p + 8..];
      h := Long64(h, Le(s[p..p + 8]));
      p := p + 8;
    }
    if p + 4 <= |s| {
      assert s[p..][..4] == s[p..p + 4] && s[p..][4..] == s[p + 4..];
      h := Word64(h, Le(s[p..p + 4]));
      p := p + 4;
    }
    while p < |s|
      invariant |s| < p + 4 && 0 <= p <= |s| && Tail64(h, s[p..]) == Tail64(h0, s)
    {
      assert s[p..][1..] == s[p + 1..];
      h := Byte64(h, s[p]);
      p := p + 1;
    }
  }

  /** However the input is cut into updates, streaming XXH64 and one-shot XXH64 agree. */
  method Stream64(seed: U64, pieces: seq<seq<Byte>>) returns (streamed: U64, oneShot: U64)
    requires |Flatten(pieces)| < TWO64
    ensures streamed == oneShot == Hash(Xxh64, seed, Flatten(pieces))
  {
    hide Round64, Merge64, Finish64, Init64;
    streamed := Streamed(Xxh64, seed, pieces);
    oneShot := OneShot(Xxh64, seed, Flatten(pieces));
  }

  /** The same for XXH32. */
  method Stream32(seed: U32, pieces: seq<seq<Byte>>) returns (streamed: U32, oneShot: U32)
    requires |Flatten(pieces)| < TWO64
    ensures streamed == oneShot == Hash(Xxh32, seed, Flatten(pieces))
  {
    hide Round32, Merge32, Finish32, Init32;
    streamed := Streamed(Xxh32, seed, pieces);
    oneShot := OneShot(Xxh32, seed, Flatten(pieces));
  }
}
