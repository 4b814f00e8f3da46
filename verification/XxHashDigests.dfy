/**
 Digests worked out from the definitions: what the hashes make of nothing and of zero bytes. The general
 lemmas say how one step follows from its parts; the others put the numbers in.
 */
module XxHashDigests {
  import opened Bytes
  import opened Words
  import opened MachineWords
  import opened XxHash
  import opened XxHashWords
  import opened XxHashColumns

  ghost predicate AllZero(s: seq<Byte>) {
    forall i :: 0 <= i < |s| ==> s[i] == 0
  }

  lemma {:induction false} ZeroLe(s: seq<Byte>)
    requires AllZero(s)
    ensures Le(s) == 0
  {
    if s != [] {
      ZeroLe(s[1..]);
    }
  }

  lemma Powers()
    ensures Pow2(1) == 0x2 && Pow2(7) == 0x80 && Pow2(11) == 0x800 && Pow2(12) == 0x1000
    ensures Pow2(13) == 0x2000 && Pow2(14) == 0x4000 && Pow2(15) == 0x8000 && Pow2(16) == 0x10000
    ensures Pow2(17) == 0x20000 && Pow2(18) == 0x40000 && Pow2(19) == 0x80000 && Pow2(20) == 0x100000
    ensures Pow2(21) == 0x200000 && Pow2(23) == 0x800000 && Pow2(25) == 0x2000000 && Pow2(27) == 0x8000000
    ensures Pow2(29) == 0x20000000 && Pow2(31) == 0x80000000 && Pow2(32) == 0x100000000 && Pow2(33) == 0x200000000
    ensures Pow2(37) == 0x2000000000 && Pow2(41) == 0x20000000000 && Pow2(46) == 0x400000000000 && Pow2(52) == 0x10000000000000
    ensures Pow2(53) == 0x20000000000000 && Pow2(57) == 0x200000000000000 && Pow2(63) == 0x8000000000000000
  {
  }

  lemma Turn64(x: U64, r: nat, up: nat, down: nat, y: U64)
    requires r <= 64 && up == Pow2(r) && down == Pow2(64 - r) && down > 0 && y == (x * up + x / down) % TWO64
    ensures Rotl64(x, r) == y
  {
    hide Pow2;
  }

  lemma Down64(x: U64, r: nat, d: nat, y: U64)
    requires d == Pow2(r) && d > 0 && y == x / d
    ensures Shr64(x, r) == y
  {
    hide Pow2;
  }

  lemma SumIs64(v1: U64, v2: U64, v3: U64, v4: U64, y1: U64, y2: U64, y3: U64, y4: U64, m: U64)
    requires Rotl64(v1, 1) == y1 && Rotl64(v2, 7) == y2 && Rotl64(v3, 12) == y3 && Rotl64(v4, 18) == y4
    requires m == (y1 + y2 + y3 + y4) % TWO64
    ensures (Rotl64(v1, 1) + Rotl64(v2, 7) + Rotl64(v3, 12) + Rotl64(v4, 18)) % TWO64 == m
  {
    hide Rotl64;
  }

  lemma MixedIs64(h: U64, s1: U64, x1: U64, h1: U64, s2: U64, x2: U64, h2: U64, s3: U64, r: U64)
    requires Shr64(h, 33) == s1 && BitXor64(h, s1) == x1 && h1 == x1 * P64_2 % TWO64
    requires Shr64(h1, 29) == s2 && BitXor64(h1, s2) == x2 && h2 == x2 * P64_3 % TWO64
    requires Shr64(h2, 32) == s3 && BitXor64(h2, s3) == r
    ensures Mixed64(h) == r
  {
    hide Shr64, BitXor64;
    assert Xor64(h, s1) == x1 && Xor64(h1, s2) == x2 && Xor64(h2, s3) == r;
    hide Xor64;
  }

  /** One step of a column of zeros. */
  lemma ZeroColumn64(v: U64, data: seq<Byte>, at: nat, y: U64, z: U64)
    requires AllZero(data) && at + 8 <= |data| && Rotl64(v, 31) == y && z == y * P64_1 % TWO64
    ensures Column64(v, data, at, 1) == z
  {
    hide Rotl64, Le;
    ZeroLe(data[at..at + 8]);
  }

  lemma LaneIs64(v: U64, w: U64, y: U64, z: U64)
    requires w == v * P64_2 % TWO64 && Rotl64(w, 31) == y && z == y * P64_1 % TWO64
    ensures Lane64(0, v) == z
  {
    hide Rotl64;
  }

  lemma MergeLaneIs(h: U64, v: U64, l: U64, x: U64, r: U64)
    requires Lane64(0, v) == l && BitXor64(h, l) == x && r == (x * P64_1 + P64_4) % TWO64
    ensures MergeLane(h, v) == r
  {
    hide Lane64, BitXor64;
  }

  lemma TurnZero()
    ensures Rotl64(0, 31) == 0
  {
    hide Pow2;
    Powers();
    Turn64(0, 31, 0x80000000, 0x200000000, 0);
  }

  lemma ZeroLong64(h: U64, data: seq<Byte>, at: nat, y: U64, z: U64)
    requires AllZero(data) && at + 8 <= |data| && BitXor64(h, 0) == h && Rotl64(h, 27) == y && z == (y * P64_1 + P64_4) % TWO64
    ensures Longs64(h, data, at, 1) == z
  {
    hide Rotl64, Le, BitXor64;
    ZeroLe(data[at..at + 8]);
    TurnZero();
    assert Xor64(h, 0) == h;
  }

  lemma ZeroByte64(h: U64, data: seq<Byte>, at: nat, y: U64, z: U64)
    requires AllZero(data) && at + 1 == |data| && BitXor64(h, 0) == h && Rotl64(h, 11) == y && z == y * P64_1 % TWO64
    ensures Bytes64(h, data, at) == z
  {
    hide Rotl64, BitXor64;
    assert Xor64(h, 0) == h;
    assert Bytes64(z, data, at + 1) == z;
  }

  /** A tail of thirteen zeros, put together. */
  lemma ZeroEnd64(h: U64, data: seq<Byte>, h1: U64, y: U64, h2: U64)
    requires AllZero(data) && |data| == 45 && Longs64(h, data, 32, 1) == h1
    requires BitXor64(h1, 0) == h1 && Rotl64(h1, 23) == y && h2 == (y * P64_2 + P64_3) % TWO64
    ensures Ending64(h, data, 32) == Bytes64(h2, data, 44)
  {
    hide Rotl64, Le, BitXor64, Longs64, Bytes64;
    ZeroLe(data[40..44]);
    assert Xor64(h1, 0) == h1;
  }

  lemma Turn32(x: U32, r: nat, up: nat, down: nat, y: U32)
    requires r <= 32 && up == Pow2(r) && down == Pow2(32 - r) && down > 0 && y == (x * up + x / down) % TWO32
    ensures Rotl32(x, r) == y
  {
    hide Pow2;
  }

  lemma Down32(x: U32, r: nat, d: nat, y: U32)
    requires d == Pow2(r) && d > 0 && y == x / d
    ensures Shr32(x, r) == y
  {
    hide Pow2;
  }

  lemma SumIs32(v1: U32, v2: U32, v3: U32, v4: U32, y1: U32, y2: U32, y3: U32, y4: U32, m: U32)
    requires Rotl32(v1, 1) == y1 && Rotl32(v2, 7) == y2 && Rotl32(v3, 12) == y3 && Rotl32(v4, 18) == y4
    requires m == (y1 + y2 + y3 + y4) % TWO32
    ensures (Rotl32(v1, 1) + Rotl32(v2, 7) + Rotl32(v3, 12) + Rotl32(v4, 18)) % TWO32 == m
  {
    hide Rotl32;
  }

  lemma MixedIs32(h: U32, s1: U32, x1: U32, h1: U32, s2: U32, x2: U32, h2: U32, s3: U32, r: U32)
    requires Shr32(h, 15) == s1 && BitXor32(h, s1) == x1 && h1 == x1 * P32_2 % TWO32
    requires Shr32(h1, 13) == s2 && BitXor32(h1, s2) == x2 && h2 == x2 * P32_3 % TWO32
    requires Shr32(h2, 16) == s3 && BitXor32(h2, s3) == r
    ensures Mixed32(h) == r
  {
    hide Shr32, BitXor32;
    assert Xor32(h, s1) == x1 && Xor32(h1, s2) == x2 && Xor32(h2, s3) == r;
    hide Xor32;
  }

  /** One step of a column of zeros. */
  lemma ZeroColumn32(v: U32, data: seq<Byte>, at: nat, y: U32, z: U32)
    requires AllZero(data) && at + 4 <= |data| && Rotl32(v, 13) == y && z == y * P32_1 % TWO32
    ensures Column32(v, data, at, 1) == z
  {
    hide Rotl32, Le;
    ZeroLe(data[at..at + 4]);
  }

  lemma ZeroWord32(h: U32, data: seq<Byte>, at: nat, y: U32, z: U32)
    requires AllZero(data) && at + 4 <= |data| && Rotl32(h, 17) == y && z == y * P32_4 % TWO32
    ensures Words32(h, data, at, 1) == z
  {
    hide Rotl32, Le;
    ZeroLe(data[at..at + 4]);
  }

  lemma ZeroByte32(h: U32, data: seq<Byte>, at: nat, y: U32, z: U32)
    requires AllZero(data) && at + 1 == |data| && Rotl32(h, 11) == y && z == y * P32_1 % TWO32
    ensures Bytes32(h, data, at) == z
  {
    hide Rotl32;
    assert Bytes32(z, data, at + 1) == z;
  }

  // ----- XXH64 -----------------------------------------------------------------------------------

  lemma MixedEmpty64Xors()
    ensures BitXor64(0x27D4EB2F165667C5, 0x13EA7597) == 0x27D4EB2F05BC1252
    ensures BitXor64(0xBEB13DDA13C2ED4E, 0x5F589EED0) == 0xBEB13DDFE64B039E
    ensures BitXor64(0xEF46DB37BE9E32AE, 0xEF46DB37) == 0xEF46DB3751D8E999
  {
  }

  lemma MixedEmpty64()
    ensures Mixed64(0x27D4EB2F165667C5) == 0xEF46DB3751D8E999
  {
    hide BitXor64, Mixed64, Shr64, Pow2;
    MixedEmpty64Xors();
    Powers();
    Down64(0x27D4EB2F165667C5, 33, 0x200000000, 0x13EA7597);
    Down64(0xBEB13DDA13C2ED4E, 29, 0x20000000, 0x5F589EED0);
    Down64(0xEF46DB37BE9E32AE, 32, 0x100000000, 0xEF46DB37);
    MixedIs64(0x27D4EB2F165667C5, 0x13EA7597, 0x27D4EB2F05BC1252, 0xBEB13DDA13C2ED4E, 0x5F589EED0, 0xBEB13DDFE64B039E,
              0xEF46DB37BE9E32AE, 0xEF46DB37, 0xEF46DB3751D8E999);
  }

  /** XXH64 of the empty input. */
  lemma Empty64()
    ensures Hash(Xxh64, 0, []) == 0xEF46DB3751D8E999
  {
    hide Hash, Mixed64;
    Xxh64Is(0, []);
    MixedEmpty64();
    assert Start64(0, []) == P64_5 && Ending64(P64_5, [], 0) == P64_5;
  }

  /** The columns of one stripe of zeros. */
  lemma ZeroColumns64(data: seq<Byte>)
    requires AllZero(data) && |data| >= 32
    ensures Column64(0x60EA27EEADC0B5D6, data, 0, 1) == 0x119361E2963B6D41
    ensures Column64(0xC2B2AE3D27D4EB4F, data, 8, 1) == 0x7F0E345BE3649CD2
    ensures Column64(0x0, data, 16, 1) == 0x0
    ensures Column64(0x61C8864E7A143579, data, 24, 1) == 0x6D7AD2794D292F91
  {
    hide Pow2, Rotl64, Column64, AllZero;
    Powers();
    Turn64(0x60EA27EEADC0B5D6, 31, 0x80000000, 0x200000000, 0x56E05AEB307513F7);
    Turn64(0xC2B2AE3D27D4EB4F, 31, 0x80000000, 0x200000000, 0x93EA75A7E159571E);
    Turn64(0x0, 31, 0x80000000, 0x200000000, 0x0);
    Turn64(0x61C8864E7A143579, 31, 0x80000000, 0x200000000, 0x3D0A1ABCB0E44327);
    ZeroColumn64(0x60EA27EEADC0B5D6, data, 0, 0x56E05AEB307513F7, 0x119361E2963B6D41);
    ZeroColumn64(0xC2B2AE3D27D4EB4F, data, 8, 0x93EA75A7E159571E, 0x7F0E345BE3649CD2);
    ZeroColumn64(0x0, data, 16, 0x0, 0x0);
    ZeroColumn64(0x61C8864E7A143579, data, 24, 0x3D0A1ABCB0E44327, 0x6D7AD2794D292F91);
  }

  lemma ZeroSum64()
    ensures (Rotl64(0x119361E2963B6D41, 1) + Rotl64(0x7F0E345BE3649CD2, 7)
             + Rotl64(0x0, 12) + Rotl64(0x6D7AD2794D292F91, 18)) % TWO64 == 0xF426265B9D0AF9AC
  {
    hide Pow2, Rotl64;
    Powers();
    Turn64(0x119361E2963B6D41, 1, 0x2, 0x8000000000000000, 0x2326C3C52C76DA82);
    Turn64(0x7F0E345BE3649CD2, 7, 0x80, 0x200000000000000, 0x871A2DF1B24E693F);
    Turn64(0x0, 12, 0x1000, 0x10000000000000, 0x0);
    Turn64(0x6D7AD2794D292F91, 18, 0x40000, 0x400000000000, 0x49E534A4BE45B5EB);
    SumIs64(0x119361E2963B6D41, 0x7F0E345BE3649CD2, 0x0, 0x6D7AD2794D292F91,
            0x2326C3C52C76DA82, 0x871A2DF1B24E693F, 0x0, 0x49E534A4BE45B5EB, 0xF426265B9D0AF9AC);
  }

  lemma ZeroRounds64()
    ensures Lane64(0, 0x119361E2963B6D41) == 0xAFA65B9B1253FE9A
    ensures Lane64(0, 0x7F0E345BE3649CD2) == 0x111445B5E55CEBB4
    ensures Lane64(0, 0x0) == 0x0
    ensures Lane64(0, 0x6D7AD2794D292F91) == 0x862C55ACCD1D2293
  {
    hide Pow2, Rotl64, Lane64;
    Powers();
    Turn64(0xB57AE22D4A75620F, 31, 0x80000000, 0x200000000, 0xA53AB107DABD7116);
    Turn64(0x5AC33F5863E92ACE, 31, 0x80000000, 0x200000000, 0x31F495672D619FAC);
    Turn64(0x0, 31, 0x80000000, 0x200000000, 0x0);
    Turn64(0xA5485D2B1973C8BF, 31, 0x80000000, 0x200000000, 0x8CB9E45FD2A42E95);
    LaneIs64(0x119361E2963B6D41, 0xB57AE22D4A75620F, 0xA53AB107DABD7116, 0xAFA65B9B1253FE9A);
    LaneIs64(0x7F0E345BE3649CD2, 0x5AC33F5863E92ACE, 0x31F495672D619FAC, 0x111445B5E55CEBB4);
    LaneIs64(0x0, 0x0, 0x0, 0x0);
    LaneIs64(0x6D7AD2794D292F91, 0xA5485D2B1973C8BF, 0x8CB9E45FD2A42E95, 0x862C55ACCD1D2293);
  }

  lemma ZeroMergeXors()
    ensures BitXor64(0xF426265B9D0AF9AC, 0xAFA65B9B1253FE9A) == 0x5B807DC08F590736
    ensures BitXor64(0xB5B565EE46E817DD, 0x111445B5E55CEBB4) == 0xA4A1205BA3B4FC69
    ensures BitXor64(0x8E979DD727B1A3C2, 0x0) == 0x8E979DD727B1A3C2
    ensures BitXor64(0x59737186F9AD1DB1, 0x862C55ACCD1D2293) == 0xDF5F242A34B03F22
  {
  }

  lemma ZeroMerge64()
    ensures Merge64(Lanes(0x119361E2963B6D41, 0x7F0E345BE3649CD2, 0x0, 0x6D7AD2794D292F91)) == 0xCBBFD1653BAACD51
  {
    ZeroSum64();
    ZeroRounds64();
    ZeroMergeXors();
    hide Rotl64, Lane64, BitXor64, MergeLane;
    MergeLaneIs(0xF426265B9D0AF9AC, 0x119361E2963B6D41, 0xAFA65B9B1253FE9A, 0x5B807DC08F590736, 0xB5B565EE46E817DD);
    MergeLaneIs(0xB5B565EE46E817DD, 0x7F0E345BE3649CD2, 0x111445B5E55CEBB4, 0xA4A1205BA3B4FC69, 0x8E979DD727B1A3C2);
    MergeLaneIs(0x8E979DD727B1A3C2, 0x0, 0x0, 0x8E979DD727B1A3C2, 0x59737186F9AD1DB1);
    MergeLaneIs(0x59737186F9AD1DB1, 0x6D7AD2794D292F91, 0x862C55ACCD1D2293, 0xDF5F242A34B03F22, 0xCBBFD1653BAACD51);
  }

  lemma ZeroStart64(data: seq<Byte>)
    requires AllZero(data) && 32 <= |data| < 64
    ensures Start64(0, data) == 0xCBBFD1653BAACD51
  {
    hide Merge64, Start64, Column64, AllZero, MergeLane, Rotl64;
    ZeroColumns64(data);
    ZeroMerge64();
    Folds64(0, data);
    assert |data| / 32 == 1;
    assert Init64(0) == Lanes(0x60EA27EEADC0B5D6, 0xC2B2AE3D27D4EB4F, 0x0, 0x61C8864E7A143579);
  }

  lemma MixedStripe64Xors()
    ensures BitXor64(0xCBBFD1653BAACD71, 0x65DFE8B2) == 0xCBBFD1655E7525C3
    ensures BitXor64(0xF7EA4738AA4CA82D, 0x7BF5239C5) == 0xF7EA473F151E91E8
    ensures BitXor64(0xF6E9BE5D868A92A8, 0xF6E9BE5D) == 0xF6E9BE5D70632CF5
  {
  }

  lemma MixedStripe64()
    ensures Mixed64(0xCBBFD1653BAACD71) == 0xF6E9BE5D70632CF5
  {
    hide BitXor64, Mixed64, Shr64, Pow2;
    MixedStripe64Xors();
    Powers();
    Down64(0xCBBFD1653BAACD71, 33, 0x200000000, 0x65DFE8B2);
    Down64(0xF7EA4738AA4CA82D, 29, 0x20000000, 0x7BF5239C5);
    Down64(0xF6E9BE5D868A92A8, 32, 0x100000000, 0xF6E9BE5D);
    MixedIs64(0xCBBFD1653BAACD71, 0x65DFE8B2, 0xCBBFD1655E7525C3, 0xF7EA4738AA4CA82D, 0x7BF5239C5, 0xF7EA473F151E91E8,
              0xF6E9BE5D868A92A8, 0xF6E9BE5D, 0xF6E9BE5D70632CF5);
  }

  /** XXH64 of 32 zero bytes: one stripe and no tail. */
  lemma ZeroStripe64(data: seq<Byte>)
    requires AllZero(data) && |data| == 32
    ensures Hash(Xxh64, 0, data) == 0xF6E9BE5D70632CF5
  {
    hide Hash, Mixed64, Start64, Rotl64, Le;
    Xxh64Is(0, data);
    ZeroStart64(data);
    MixedStripe64();
    assert Ending64(0xCBBFD1653BAACD71, data, 32) == 0xCBBFD1653BAACD71;
  }

  lemma MixedTail64Xors()
    ensures BitXor64(0x10CC08F155EE0B65, 0x8660478) == 0x10CC08F15D880F1D
    ensures BitXor64(0xE828D23AB1E048F3, 0x7414691D5) == 0xE828D23DF0A6D926
    ensures BitXor64(0x3C67E0220A162BF6, 0x3C67E022) == 0x3C67E0223671CBD4
  {
  }

  lemma MixedTail64()
    ensures Mixed64(0x10CC08F155EE0B65) == 0x3C67E0223671CBD4
  {
    hide BitXor64, Mixed64, Shr64, Pow2;
    MixedTail64Xors();
    Powers();
    Down64(0x10CC08F155EE0B65, 33, 0x200000000, 0x8660478);
    Down64(0xE828D23AB1E048F3, 29, 0x20000000, 0x7414691D5);
    Down64(0x3C67E0220A162BF6, 32, 0x100000000, 0x3C67E022);
    MixedIs64(0x10CC08F155EE0B65, 0x8660478, 0x10CC08F15D880F1D, 0xE828D23AB1E048F3, 0x7414691D5, 0xE828D23DF0A6D926,
              0x3C67E0220A162BF6, 0x3C67E022, 0x3C67E0223671CBD4);
  }

  lemma ZeroTailXors()
    ensures BitXor64(0xCBBFD1653BAACD7E, 0) == 0xCBBFD1653BAACD7E
    ensures BitXor64(0xEA193C6EB9B697B0, 0) == 0xEA193C6EB9B697B0
    ensures BitXor64(0x36692F4D61C368BB, 0) == 0x36692F4D61C368BB
  {
  }

  lemma ZeroEnding64(data: seq<Byte>)
    requires AllZero(data) && |data| == 45
    ensures Ending64(0xCBBFD1653BAACD7E, data, 32) == 0x10CC08F155EE0B65
  {
    ZeroTailXors();
    Powers();
    hide Rotl64, BitXor64, Le, Pow2, Longs64, Bytes64, AllZero;
    Turn64(0xCBBFD1653BAACD7E, 27, 0x8000000, 0x2000000000, 0x29DD566BF65DFE8B);
    Turn64(0xEA193C6EB9B697B0, 23, 0x800000, 0x20000000000, 0x375CDB4BD8750C9E);
    Turn64(0x36692F4D61C368BB, 11, 0x800, 0x20000000000000, 0x497A6B0E1B45D9B3);
    ZeroLong64(0xCBBFD1653BAACD7E, data, 32, 0x29DD566BF65DFE8B, 0xEA193C6EB9B697B0);
    ZeroByte64(0x36692F4D61C368BB, data, 44, 0x497A6B0E1B45D9B3, 0x10CC08F155EE0B65);
    ZeroEnd64(0xCBBFD1653BAACD7E, data, 0xEA193C6EB9B697B0, 0x375CDB4BD8750C9E, 0x36692F4D61C368BB);
  }

  /** XXH64 of 45 zero bytes: a stripe, then a long word, a word and a byte. */
  lemma ZeroBytes64(data: seq<Byte>)
    requires AllZero(data) && |data| == 45
    ensures Hash(Xxh64, 0, data) == 0x3C67E0223671CBD4
  {
    hide Hash, Mixed64, Start64, Ending64;
    Xxh64Is(0, data);
    ZeroStart64(data);
    ZeroEnding64(data);
    MixedTail64();
  }

  // ----- XXH32 -----------------------------------------------------------------------------------

  lemma MixedEmpty32Xors()
    ensures BitXor32(0x165667B1, 0x2CAC) == 0x16564B1D
    ensures BitXor32(0x7E00CC7B, 0x3F006) == 0x7E033C7D
    ensures BitXor32(0x2CC5FC9, 0x2CC) == 0x2CC5D05
  {
  }

  lemma MixedEmpty32()
    ensures Mixed32(0x165667B1) == 0x2CC5D05
  {
    hide BitXor32, Mixed32, Shr32, Pow2;
    MixedEmpty32Xors();
    Powers();
    Down32(0x165667B1, 15, 0x8000, 0x2CAC);
    Down32(0x7E00CC7B, 13, 0x2000, 0x3F006);
    Down32(0x2CC5FC9, 16, 0x10000, 0x2CC);
    MixedIs32(0x165667B1, 0x2CAC, 0x16564B1D, 0x7E00CC7B, 0x3F006, 0x7E033C7D,
              0x2CC5FC9, 0x2CC, 0x2CC5D05);
  }

  /** XXH32 of the empty input. */
  lemma Empty32()
    ensures Hash(Xxh32, 0, []) == 0x2CC5D05
  {
    hide Hash, Mixed32;
    Xxh32Is(0, []);
    MixedEmpty32();
    assert Start32(0, []) == P32_5 && Ending32(P32_5, [], 0) == P32_5;
  }

  lemma MixedTail32Xors()
    ensures BitXor32(0xC01451AF, 0x18028) == 0xC015D187
    ensures BitXor32(0xFB65EBC1, 0x7DB2F) == 0xFB6230EE
    ensures BitXor32(0x5236CB6, 0x523) == 0x5236995
  {
  }

  lemma MixedTail32()
    ensures Mixed32(0xC01451AF) == 0x5236995
  {
    hide BitXor32, Mixed32, Shr32, Pow2;
    MixedTail32Xors();
    Powers();
    Down32(0xC01451AF, 15, 0x8000, 0x18028);
    Down32(0xFB65EBC1, 13, 0x2000, 0x7DB2F);
    Down32(0x5236CB6, 16, 0x10000, 0x523);
    MixedIs32(0xC01451AF, 0x18028, 0xC015D187, 0xFB65EBC1, 0x7DB2F, 0xFB6230EE,
              0x5236CB6, 0x523, 0x5236995);
  }

  lemma ZeroColumns32(data: seq<Byte>)
    requires AllZero(data) && |data| >= 16
    ensures Column32(0x24234428, data, 0, 1) == 0x93768344 && Column32(0x85EBCA77, data, 4, 1) == 0x8DF8C7AD
    ensures Column32(0x0, data, 8, 1) == 0x0 && Column32(0x61C8864F, data, 12, 1) == 0xFA824469
  {
    hide Pow2, Rotl32, Column32, AllZero;
    Powers();
    Turn32(0x24234428, 13, 0x2000, 0x80000, 0x68850484);
    Turn32(0x85EBCA77, 13, 0x2000, 0x80000, 0x794EF0BD);
    Turn32(0x0, 13, 0x2000, 0x80000, 0x0);
    Turn32(0x61C8864F, 13, 0x2000, 0x80000, 0x10C9EC39);
    ZeroColumn32(0x24234428, data, 0, 0x68850484, 0x93768344);
    ZeroColumn32(0x85EBCA77, data, 4, 0x794EF0BD, 0x8DF8C7AD);
    ZeroColumn32(0x0, data, 8, 0x0, 0x0);
    ZeroColumn32(0x61C8864F, data, 12, 0x10C9EC39, 0xFA824469);
  }

  lemma ZeroSum32()
    ensures (Rotl32(0x93768344, 1) + Rotl32(0x8DF8C7AD, 7) + Rotl32(0x0, 12) + Rotl32(0xFA824469, 18)) % TWO32 == 0x34F8C758
  {
    hide Pow2, Rotl32;
    Powers();
    Turn32(0x93768344, 1, 0x2, 0x80000000, 0x26ED0689);
    Turn32(0x8DF8C7AD, 7, 0x80, 0x2000000, 0xFC63D6C6);
    Turn32(0x0, 12, 0x1000, 0x100000, 0x0);
    Turn32(0xFA824469, 18, 0x40000, 0x4000, 0x11A7EA09);
    SumIs32(0x93768344, 0x8DF8C7AD, 0x0, 0xFA824469, 0x26ED0689, 0xFC63D6C6, 0x0, 0x11A7EA09, 0x34F8C758);
  }

  lemma ZeroStart32(data: seq<Byte>)
    requires AllZero(data) && |data| == 21
    ensures Start32(0, data) == 0x34F8C758
  {
    ZeroColumns32(data);
    ZeroSum32();
    hide Rotl32, Column32, AllZero;
  }

  lemma ZeroEnding32(data: seq<Byte>)
    requires AllZero(data) && |data| == 21
    ensures Ending32(0x34F8C76D, data, 16) == 0xC01451AF
  {
    Powers();
    hide Rotl32, Le, Pow2, Words32, Bytes32, AllZero;
    Turn32(0x34F8C76D, 17, 0x20000, 0x8000, 0x8EDA69F1);
    Turn32(0x2BEDAE3F, 11, 0x800, 0x200000, 0x6D71F95F);
    ZeroWord32(0x34F8C76D, data, 16, 0x8EDA69F1, 0x2BEDAE3F);
    ZeroByte32(0x2BEDAE3F, data, 20, 0x6D71F95F, 0xC01451AF);
  }

  /** XXH32 of 21 zero bytes: a stripe, a word and a byte. */
  lemma ZeroBytes32(data: seq<Byte>)
    requires AllZero(data) && |data| == 21
    ensures Hash(Xxh32, 0, data) == 0x5236995
  {
    hide Hash, Mixed32, Start32, Ending32;
    Xxh32Is(0, data);
    ZeroStart32(data);
    ZeroEnding32(data);
    MixedTail32();
  }
}
