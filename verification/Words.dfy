/** Powers of two and little-endian numbers. */
module Words {
  import opened Bytes

  const TWO32 := 0x1_0000_0000
  const TWO64 := 0x1_0000_0000_0000_0000

  function Pow2(k: nat): (r: nat)
    ensures r >= 1
  {
    if k == 0 then 1 else if k < 8 then 2 * Pow2(k - 1) else 256 * Pow2(k - 8)
  }

  lemma {:induction false} Pow2Next(k: nat)
    ensures Pow2(k + 1) == 2 * Pow2(k)
  {
    if k >= 8 {
      Pow2Next(k - 8);
    } else if k == 7 {
      assert Pow2(8) == 256 && Pow2(7) == 128;
    }
  }

  /** The number with the little-endian bytes `s`. */
  function Le(s: seq<Byte>): nat {
    if s == [] then 0 else s[0] + 256 * Le(s[1..])
  }
}

/** Unsigned words of 32 and 64 bits as numbers; sums and products are reduced where they are used. */
module MachineWords {
  import opened Words

  type U32 = x: int | 0 <= x < 0x1_0000_0000
  type U64 = x: int | 0 <= x < 0x1_0000_0000_0000_0000

  function Rotl32(x: U32, r: nat): U32
    requires r <= 32
  {
    (x * Pow2(r) + x / Pow2(32 - r)) % TWO32
  }

  function Rotl64(x: U64, r: nat): U64
    requires r <= 64
  {
    (x * Pow2(r) + x / Pow2(64 - r)) % TWO64
  }

  function Shr32(x: U32, r: nat): U32 { Quotient(x, Pow2(r)) }

  function Shr64(x: U64, r: nat): U64 { Quotient(x, Pow2(r)) }

  function Quotient(x: nat, d: nat): (q: nat)
    requires d >= 1
    ensures q <= x
  {
    assert x == x / d * d + x % d;
    assert (d - 1) * (x / d) >= 0;
    x / d
  }

  /** Exclusive or, bit by bit. */
  function BitXor32(x: U32, y: U32): nat { ((x as bv32) ^ (y as bv32)) as nat }

  function BitXor64(x: U64, y: U64): nat { ((x as bv64) ^ (y as bv64)) as nat }

  function Xor32(x: U32, y: U32): U32 { BitXor32(x, y) % TWO32 }

  function Xor64(x: U64, y: U64): U64 { BitXor64(x, y) % TWO64 }
}
