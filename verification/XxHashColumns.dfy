/**
 XXH32 and XXH64 a second time, without stripes and buffers: each accumulator runs down its own column
 of the input, the accumulators are folded in as a list, and the tail is read by positions
 (src/util/xxhash.cc). `Xxh64Is` and `Xxh32Is` say that this is the hash; a few digests are worked out.
 */
module XxHashColumns {
  import opened Bytes
  import opened Words
  import opened MachineWords
  import opened XxHash
  import opened XxHashWords

  lemma Part(data: seq<Byte>, from: nat, to: nat, i: nat, j: nat)
    requires from <= to <= |data| && i <= j <= to - from
    ensures data[from..to][i..j] == data[from + i..from + j]
  {
    var a, b := data[from..to][i..j], data[from + i..from + j];
    assert forall k :: 0 <= k < j - i ==> a[k] == data[from..to][i + k] && b[k] == data[from + i + k];
    assert a == b;
  }

  // ----- XXH64 -----------------------------------------------------------------------------------

  /** An accumulator after the next `n` words of its column, 32 bytes apart. */
  function Column64(v: U64, data: seq<Byte>, at: nat, n: nat): U64
    requires n > 0 ==> at + 32 * (n - 1) + 8 <= |data|
    decreases n
  {
    if n == 0 then v
    else Column64(Rotl64((v + Le(data[at..at + 8]) * 14029467366897019727) % TWO64, 31) * 11400714785074694791 % TWO64, data, at + 32, n - 1)
  }

  /** Accumulators folded into the hash, first to last. */
  function Folded64(h: U64, vs: seq<U64>): U64
    decreases |vs|
  {
    hide Rotl64, BitXor64;
    if vs == [] then h
    else
      var v := Rotl64(vs[0] * 14029467366897019727 % TWO64, 31) * 11400714785074694791 % TWO64;
      Folded64((Xor64(h, v) * 11400714785074694791 + 9650029242287828579) % TWO64, vs[1..])
  }

  /** Words of eight bytes at `at`, `at + 8`, ... */
  function Longs64(h: U64, data: seq<Byte>, at: nat, n: nat): U64
    requires at + 8 * n <= |data|
    decreases n
  {
    if n == 0 then h
    else
      var v := Rotl64(Le(data[at..at + 8]) * 14029467366897019727 % TWO64, 31) * 11400714785074694791 % TWO64;
      Longs64((Rotl64(Xor64(h, v), 27) * 11400714785074694791 + 9650029242287828579) % TWO64, data, at + 8, n - 1)
  }

  function Bytes64(h: U64, data: seq<Byte>, at: nat): U64
    requires at <= |data|
    decreases |data| - at
  {
    if at == |data| then h
    else Bytes64(Rotl64(Xor64(h, data[at] * 2870177450012600261 % TWO64), 11) * 11400714785074694791 % TWO64, data, at + 1)
  }

  function Start64(seed: U64, data: seq<Byte>): U64 {
    var n := |data| / 32;
    if n == 0 then (seed + 2870177450012600261) % TWO64
    else
      var v1 := Column64((seed + 11400714785074694791 + 14029467366897019727) % TWO64, data, 0, n);
      var v2 := Column64((seed + 14029467366897019727) % TWO64, data, 8, n);
      var v3 := Column64(seed, data, 16, n);
      var v4 := Column64((seed - 11400714785074694791) % TWO64, data, 24, n);
      Folded64((Rotl64(v1, 1) + Rotl64(v2, 7) + Rotl64(v3, 12) + Rotl64(v4, 18)) % TWO64, [v1, v2, v3, v4])
  }

  function Ending64(h: U64, data: seq<Byte>, at: nat): U64
    requires at <= |data|
  {
    var n := (|data| - at) / 8;
    var from := at + 8 * n;
    var h1 := Longs64(h, data, at, n);
    if from + 4 <= |data| then
      Bytes64((Rotl64(Xor64(h1, Le(data[from..from + 4]) * 11400714785074694791 % TWO64), 23) * 14029467366897019727
               + 1609587929392839161) % TWO64, data, from + 4)
    else Bytes64(h1, data, from)
  }

  function Mixed64(h: U64): U64 {
    var h1 := Xor64(h, Shr64(h, 33)) * 14029467366897019727 % TWO64;
    var h2 := Xor64(h1, Shr64(h1, 29)) * 1609587929392839161 % TWO64;
    Xor64(h2, Shr64(h2, 32))
  }

  function Digest64(seed: U64, data: seq<Byte>): U64 {
    Mixed64(Ending64((Start64(seed, data) + |data|) % TWO64, data, |data| / 32 * 32))
  }

  lemma StripesNext64(a: Lanes<U64>, data: seq<Byte>, at: nat)
    requires at <= |data|
    ensures |data| - at < 32 ==> Stripes(Xxh64, a, data[at..]) == a && Rest(32, data[at..]) == data[at..]
    ensures |data| - at >= 32 ==>
              && Stripes(Xxh64, a, data[at..]) == Stripes(Xxh64, Round64(a, data[at..at + 32]), data[at + 32..])
              && Rest(32, data[at..]) == Rest(32, data[at + 32..])
  {
    hide Round64, Finish64, Merge64;
    if |data| - at >= 32 {
      assert data[at..][..32] == data[at..at + 32] && data[at..][32..] == data[at + 32..];
    }
  }

  lemma {:induction false} Columns64(a: Lanes<U64>, data: seq<Byte>, at: nat, n: nat)
    requires at + 32 * n <= |data| < at + 32 * n + 32
    ensures Stripes(Xxh64, a, data[at..])
         == Lanes(Column64(a.v1, data, at, n), Column64(a.v2, data, at + 8, n),
                  Column64(a.v3, data, at + 16, n), Column64(a.v4, data, at + 24, n))
    ensures Rest(32, data[at..]) == data[at + 32 * n..]
    decreases n
  {
    hide Le, Lane64, Round64, Stripes, Rest, Finish64, Merge64;
    StripesNext64(a, data, at);
    if n > 0 {
      RoundIs64(a, data, at);
      var b := Round64(a, data[at..at + 32]);
      ColumnsNext64(a, b, data, at, n);
      hide Column64;
      Columns64(b, data, at + 32, n - 1);
    }
  }

  lemma ColumnsNext64(a: Lanes<U64>, b: Lanes<U64>, data: seq<Byte>, at: nat, n: nat)
    requires n > 0 && at + 32 * n <= |data|
    requires b == Lanes(Lane64(a.v1, Le(data[at..at + 8])), Lane64(a.v2, Le(data[at + 8..at + 16])),
                        Lane64(a.v3, Le(data[at + 16..at + 24])), Lane64(a.v4, Le(data[at + 24..at + 32])))
    ensures Column64(a.v1, data, at, n) == Column64(b.v1, data, at + 32, n - 1)
    ensures Column64(a.v2, data, at + 8, n) == Column64(b.v2, data, at + 32 + 8, n - 1)
    ensures Column64(a.v3, data, at + 16, n) == Column64(b.v3, data, at + 32 + 16, n - 1)
    ensures Column64(a.v4, data, at + 24, n) == Column64(b.v4, data, at + 32 + 24, n - 1)
  {
    hide Le, Lane64, Column64;
    ColumnNext64(a.v1, data, at, n);
    ColumnNext64(a.v2, data, at + 8, n);
    ColumnNext64(a.v3, data, at + 16, n);
    ColumnNext64(a.v4, data, at + 24, n);
  }

  lemma ColumnNext64(v: U64, data: seq<Byte>, at: nat, n: nat)
    requires n > 0 && at + 32 * (n - 1) + 8 <= |data|
    ensures Column64(v, data, at, n) == Column64(Lane64(v, Le(data[at..at + 8])), data, at + 32, n - 1)
  {
    hide Rotl64, Le;
  }

  lemma RoundIs64(a: Lanes<U64>, data: seq<Byte>, at: nat)
    requires at + 32 <= |data|
    ensures Round64(a, data[at..at + 32])
         == Lanes(Lane64(a.v1, Le(data[at..at + 8])), Lane64(a.v2, Le(data[at + 8..at + 16])),
                  Lane64(a.v3, Le(data[at + 16..at + 24])), Lane64(a.v4, Le(data[at + 24..at + 32])))
  {
    hide Le, Lane64;
    Part(data, at, at + 32, 0, 8);
    Part(data, at, at + 32, 8, 16);
    Part(data, at, at + 32, 16, 24);
    Part(data, at, at + 32, 24, 32);
  }

  lemma {:induction false} TailLongs64(h: U64, data: seq<Byte>, at: nat)
    requires at <= |data|
    ensures Tail64(h, data[at..]) == Ending64(h, data, at)
    decreases |data| - at
  {
    hide Rotl64, Le, Xor64, Bytes64;
    var rest := data[at..];
    if |rest| >= 8 {
      assert rest[..8] == data[at..at + 8] && rest[8..] == data[at + 8..];
      TailLongs64(Long64(h, Le(rest[..8])), data, at + 8);
    } else if |rest| >= 4 {
      assert rest[..4] == data[at..at + 4] && rest[4..] == data[at + 4..];
      TailBytes64(Word64(h, Le(rest[..4])), data, at + 4);
    } else {
      TailBytes64(h, data, at);
    }
  }

  lemma {:induction false} TailBytes64(h: U64, data: seq<Byte>, at: nat)
    requires at <= |data| < at + 4
    ensures Tail64(h, data[at..]) == Bytes64(h, data, at)
    decreases |data| - at
  {
    hide Rotl64, Le, Xor64;
    if at < |data| {
      assert data[at..][1..] == data[at + 1..];
      TailBytes64(Byte64(h, data[at]), data, at + 1);
    }
  }

  /** The two definitions of XXH64 agree. */
  lemma Xxh64Is(seed: U64, data: seq<Byte>)
    ensures Hash(Xxh64, seed, data) == Digest64(seed, data)
  {
    hide Rotl64, Le, Xor64, Shr64, Tail64, Ending64, Column64, Stripes, Rest, Start64, Mixed64, Avalanche64, Merge64, Short64, Round64;
    Columns64(Init64(seed), data, 0, |data| / 32);
    assert data[0..] == data;
    Folds64(seed, data);
    var at := |data| / 32 * 32;
    var h := (Start64(seed, data) + |data|) % TWO64;
    TailLongs64(h, data, at);
    MixedIs64(Ending64(h, data, at));
  }

  lemma MixedIs64(h: U64)
    ensures Mixed64(h) == Avalanche64(h)
  {
    hide Xor64, Shr64;
  }

  lemma FoldedNext(h: U64, v: U64, vs: seq<U64>)
    ensures Folded64(h, [v] + vs) == Folded64(MergeLane(h, v), vs)
    ensures vs == [] ==> Folded64(h, [v] + vs) == MergeLane(h, v)
  {
    hide Rotl64, Xor64;
    assert ([v] + vs)[1..] == vs;
  }

  lemma Folds64(seed: U64, data: seq<Byte>)
    ensures Start64(seed, data) == if |data| >= 32 then
              var n := |data| / 32;
              var a := Init64(seed);
              Merge64(Lanes(Column64(a.v1, data, 0, n), Column64(a.v2, data, 8, n), Column64(a.v3, data, 16, n), Column64(a.v4, data, 24, n)))
            else Short64(seed)
  {
    hide Rotl64, Le, Xor64, Column64, MergeLane, Folded64;
    if |data| >= 32 {
      var n := |data| / 32;
      var a := Init64(seed);
      var v1, v2 := Column64(a.v1, data, 0, n), Column64(a.v2, data, 8, n);
      var v3, v4 := Column64(a.v3, data, 16, n), Column64(a.v4, data, 24, n);
      var h := (Rotl64(v1, 1) + Rotl64(v2, 7) + Rotl64(v3, 12) + Rotl64(v4, 18)) % TWO64;
      FoldedNext(h, v1, [v2, v3, v4]);
      FoldedNext(MergeLane(h, v1), v2, [v3, v4]);
      FoldedNext(MergeLane(MergeLane(h, v1), v2), v3, [v4]);
      FoldedNext(MergeLane(MergeLane(MergeLane(h, v1), v2), v3), v4, []);
      assert [v1] + [v2, v3, v4] == [v1, v2, v3, v4] && [v2] + [v3, v4] == [v2, v3, v4];
      assert [v3] + [v4] == [v3, v4] && [v4] + [] == [v4];
    }
  }

  // ----- XXH32 -----------------------------------------------------------------------------------

  /** An accumulator after the next `n` words of its column, 16 bytes apart. */
  function Column32(v: U32, data: seq<Byte>, at: nat, n: nat): U32
    requires n > 0 ==> at + 16 * (n - 1) + 4 <= |data|
    decreases n
  {
    if n == 0 then v
    else Column32(Rotl32((v + Le(data[at..at + 4]) * 2246822519) % TWO32, 13) * 2654435761 % TWO32, data, at + 16, n - 1)
  }

  /** Words of four bytes at `at`, `at + 4`, ... */
  function Words32(h: U32, data: seq<Byte>, at: nat, n: nat): U32
    requires at + 4 * n <= |data|
    decreases n
  {
    if n == 0 then h
    else Words32(Rotl32((h + Le(data[at..at + 4]) * 3266489917) % TWO32, 17) * 668265263 % TWO32, data, at + 4, n - 1)
  }

  function Bytes32(h: U32, data: seq<Byte>, at: nat): U32
    requires at <= |data|
    decreases |data| - at
  {
    if at == |data| then h
    else
      var b: nat := data[at];
      Bytes32(Rotl32((h + b * 374761393) % TWO32, 11) * 2654435761 % TWO32, data, at + 1)
  }

  function Start32(seed: U32, data: seq<Byte>): U32 {
    var n := |data| / 16;
    if n == 0 then (seed + 374761393) % TWO32
    else
      (Rotl32(Column32((seed + 2654435761 + 2246822519) % TWO32, data, 0, n), 1)
       + Rotl32(Column32((seed + 2246822519) % TWO32, data, 4, n), 7)
       + Rotl32(Column32(seed, data, 8, n), 12)
       + Rotl32(Column32((seed - 2654435761) % TWO32, data, 12, n), 18)) % TWO32
  }

  function Ending32(h: U32, data: seq<Byte>, at: nat): U32
    requires at <= |data|
  {
    var n := (|data| - at) / 4;
    Bytes32(Words32(h, data, at, n), data, at + 4 * n)
  }

  function Mixed32(h: U32): U32 {
    var h1 := Xor32(h, Shr32(h, 15)) * 2246822519 % TWO32;
    var h2 := Xor32(h1, Shr32(h1, 13)) * 3266489917 % TWO32;
    Xor32(h2, Shr32(h2, 16))
  }

  function Digest32(seed: U32, data: seq<Byte>): U32 {
    Mixed32(Ending32((Start32(seed, data) + |data|) % TWO32, data, |data| / 16 * 16))
  }

  lemma StripesNext32(a: Lanes<U32>, data: seq<Byte>, at: nat)
    requires at <= |data|
    ensures |data| - at < 16 ==> Stripes(Xxh32, a, data[at..]) == a && Rest(16, data[at..]) == data[at..]
    ensures |data| - at >= 16 ==>
              && Stripes(Xxh32, a, data[at..]) == Stripes(Xxh32, Round32(a, data[at..at + 16]), data[at + 16..])
              && Rest(16, data[at..]) == Rest(16, data[at + 16..])
  {
    hide Round32, Finish32, Merge32;
    if |data| - at >= 16 {
      assert data[at..][..16] == data[at..at + 16] && data[at..][16..] == data[at + 16..];
    }
  }

  lemma {:induction false} Columns32(a: Lanes<U32>, data: seq<Byte>, at: nat, n: nat)
    requires at + 16 * n <= |data| < at + 16 * n + 16
    ensures Stripes(Xxh32, a, data[at..])
         == Lanes(Column32(a.v1, data, at, n), Column32(a.v2, data, at + 4, n),
                  Column32(a.v3, data, at + 8, n), Column32(a.v4, data, at + 12, n))
    ensures Rest(16, data[at..]) == data[at + 16 * n..]
    decreases n
  {
    hide Le, Lane32, Round32, Stripes, Rest, Finish32, Merge32;
    StripesNext32(a, data, at);
    if n > 0 {
      RoundIs32(a, data, at);
      var b := Round32(a, data[at..at + 16]);
      ColumnsNext32(a, b, data, at, n);
      hide Column32;
      Columns32(b, data, at + 16, n - 1);
    }
  }

  lemma ColumnsNext32(a: Lanes<U32>, b: Lanes<U32>, data: seq<Byte>, at: nat, n: nat)
    requires n > 0 && at + 16 * n <= |data|
    requires b == Lanes(Lane32(a.v1, Le(data[at..at + 4])), Lane32(a.v2, Le(data[at + 4..at + 8])),
                        Lane32(a.v3, Le(data[at + 8..at + 12])), Lane32(a.v4, Le(data[at + 12..at + 16])))
    ensures Column32(a.v1, data, at, n) == Column32(b.v1, data, at + 16, n - 1)
    ensures Column32(a.v2, data, at + 4, n) == Column32(b.v2, data, at + 16 + 4, n - 1)
    ensures Column32(a.v3, data, at + 8, n) == Column32(b.v3, data, at + 16 + 8, n - 1)
    ensures Column32(a.v4, data, at + 12, n) == Column32(b.v4, data, at + 16 + 12, n - 1)
  {
    hide Le, Lane32, Column32;
    ColumnNext32(a.v1, data, at, n);
    ColumnNext32(a.v2, data, at + 4, n);
    ColumnNext32(a.v3, data, at + 8, n);
    ColumnNext32(a.v4, data, at + 12, n);
  }

  lemma ColumnNext32(v: U32, data: seq<Byte>, at: nat, n: nat)
    requires n > 0 && at + 16 * (n - 1) + 4 <= |data|
    ensures Column32(v, data, at, n) == Column32(Lane32(v, Le(data[at..at + 4])), data, at + 16, n - 1)
  {
    hide Rotl32, Le;
  }

  lemma RoundIs32(a: Lanes<U32>, data: seq<Byte>, at: nat)
    requires at + 16 <= |data|
    ensures Round32(a, data[at..at + 16])
         == Lanes(Lane32(a.v1, Le(data[at..at + 4])), Lane32(a.v2, Le(data[at + 4..at + 8])),
                  Lane32(a.v3, Le(data[at + 8..at + 12])), Lane32(a.v4, Le(data[at + 12..at + 16])))
  {
    hide Le, Lane32;
    Part(data, at, at + 16, 0, 4);
    Part(data, at, at + 16, 4, 8);
    Part(data, at, at + 16, 8, 12);
    Part(data, at, at + 16, 12, 16);
  }

  lemma {:induction false} TailWords32(h: U32, data: seq<Byte>, at: nat)
    requires at <= |data|
    ensures Tail32(h, data[at..]) == Ending32(h, data, at)
    decreases |data| - at
  {
    hide Rotl32, Le, Bytes32;
    var rest := data[at..];
    if |rest| >= 4 {
      assert rest[..4] == data[at..at + 4] && rest[4..] == data[at + 4..];
      TailWords32(Word32(h, Le(rest[..4])), data, at + 4);
    } else {
      TailBytes32(h, data, at);
    }
  }

  lemma {:induction false} TailBytes32(h: U32, data: seq<Byte>, at: nat)
    requires at <= |data| < at + 4
    ensures Tail32(h, data[at..]) == Bytes32(h, data, at)
    decreases |data| - at
  {
    hide Rotl32, Le;
    if at < |data| {
      assert data[at..][1..] == data[at + 1..];
      TailBytes32(Byte32(h, data[at]), data, at + 1);
    }
  }

  /** The two definitions of XXH32 agree. */
  lemma Xxh32Is(seed: U32, data: seq<Byte>)
    ensures Hash(Xxh32, seed, data) == Digest32(seed, data)
  {
    hide Rotl32, Le, Xor32, Shr32, Tail32, Ending32, Column32, Stripes, Rest;
    Columns32(Init32(seed), data, 0, |data| / 16);
    assert data[0..] == data;
    var at := |data| / 16 * 16;
    TailWords32((Start32(seed, data) + |data|) % TWO32, data, at);
  }
}
