/**
 ceilToPow2 of include/readerwriterqueue.h on naturals: `|` and `>>` are defined bit by bit.
 */
module PowerOfTwo {
  import Words

  const TWO63 := 0x8000_0000_0000_0000

  /** a | b */
  function Or(a: nat, b: nat): nat
    decreases a + b
  {
    if a == 0 && b == 0 then 0 else 2 * Or(a / 2, b / 2) + if a % 2 == 1 || b % 2 == 1 then 1 else 0
  }

  /** a >> k */
  function Shift(a: nat, k: nat): nat
    decreases k
  {
    if k == 0 then a else Shift(a / 2, k - 1)
  }

  /** The smearing of the highest bit over all lower ones. */
  function Smear(a: nat): nat {
    var b := Or(a, Shift(a, 1));
    var c := Or(b, Shift(b, 2));
    var d := Or(c, Shift(c, 4));
    var e := Or(d, Shift(d, 8));
    var f := Or(e, Shift(e, 16));
    Or(f, Shift(f, 32))
  }

  /** With the wrap-around of size_t. */
  function CeilToPow2(x: nat): nat
    requires x > 0
  {
    (Smear(x - 1) + 1) % Words.TWO64
  }

  function Pow2(k: nat): nat { if k == 0 then 1 else 2 * Pow2(k - 1) }

  function Bits(a: nat): nat { if a == 0 then 0 else 1 + Bits(a / 2) }

  predicate Bit(a: nat, i: nat) { Shift(a, i) % 2 == 1 }

  lemma {:induction false} ShiftTwice(a: nat, k: nat, i: nat)
    ensures Shift(Shift(a, k), i) == Shift(a, k + i)
    decreases k
  {
    if k > 0 {
      ShiftTwice(a / 2, k - 1, i);
    }
  }

  lemma {:induction false} OrBit(a: nat, b: nat, i: nat)
    ensures Bit(Or(a, b), i) <==> Bit(a, i) || Bit(b, i)
    decreases i
  {
    if i > 0 {
      assert Or(a, b) / 2 == Or(a / 2, b / 2);
      OrBit(a / 2, b / 2, i - 1);
    }
  }

  lemma {:induction false} OrBits(a: nat, b: nat)
    requires Bits(b) <= Bits(a)
    ensures Bits(Or(a, b)) == Bits(a)
    decreases a
  {
    if a > 0 {
      assert Or(a, b) / 2 == Or(a / 2, b / 2);
      OrBits(a / 2, b / 2);
    }
  }

  lemma {:induction false} ShiftBits(a: nat, k: nat)
    ensures Bits(Shift(a, k)) <= Bits(a)
    decreases k
  {
    if k > 0 {
      ShiftBits(a / 2, k - 1);
    }
  }

  /** The highest `m` bits are set. */
  ghost predicate TopSet(a: nat, m: nat) {
    forall i: nat :: Bits(a) <= i + m && i < Bits(a) ==> Bit(a, i)
  }

  lemma {:induction false} HighestBit(a: nat)
    requires a > 0
    ensures Bits(a) > 0 && Bit(a, Bits(a) - 1)
  {
    if a > 1 {
      HighestBit(a / 2);
    }
  }

  /** One step doubles the run of ones at the top and keeps the highest bit where it is. */
  lemma Doubles(a: nat, m: nat)
    requires TopSet(a, m)
    ensures Bits(Or(a, Shift(a, m))) == Bits(a) && TopSet(Or(a, Shift(a, m)), 2 * m)
  {
    var b := Or(a, Shift(a, m));
    ShiftBits(a, m);
    OrBits(a, Shift(a, m));
    forall i: nat | Bits(b) <= i + 2 * m && i < Bits(b) ensures Bit(b, i) {
      OrBit(a, Shift(a, m), i);
      ShiftTwice(a, m, i);
      if i + m < Bits(a) {
        assert Bit(a, i + m);
      } else {
        NoBitAbove(a, i + m);
        assert Bit(a, i);
      }
    }
  }

  lemma {:induction false} NoBitAbove(a: nat, i: nat)
    requires i >= Bits(a)
    ensures Shift(a, i) == 0
    decreases i
  {
    if i > 0 {
      NoBitAbove(a / 2, i - 1);
    }
  }

  /** All bits set: one below a power of two. */
  lemma {:induction false} AllOnes(a: nat)
    requires forall i: nat :: i < Bits(a) ==> Bit(a, i)
    ensures a + 1 == Pow2(Bits(a))
    decreases a
  {
    if a > 0 {
      forall i: nat | i < Bits(a / 2) ensures Bit(a / 2, i) {
        assert Bit(a, i + 1);
      }
      AllOnes(a / 2);
      assert Bit(a, 0);
    }
  }

  lemma {:induction false} Between(a: nat)
    ensures a < Pow2(Bits(a)) && (a > 0 ==> Pow2(Bits(a)) <= 2 * a)
  {
    if a > 0 {
      Between(a / 2);
    }
  }

  lemma SmearIsMask(a: nat)
    requires Bits(a) <= 64
    ensures Smear(a) + 1 == Pow2(Bits(a))
  {
    hide Or, Shift, Bits, Pow2, Bit;
    var b := Or(a, Shift(a, 1));
    var c := Or(b, Shift(b, 2));
    var d := Or(c, Shift(c, 4));
    var e := Or(d, Shift(d, 8));
    var f := Or(e, Shift(e, 16));
    if a > 0 {
      HighestBit(a);
    }
    TopBit(a);
    Doubles(a, 1);
    Doubles(b, 2);
    Doubles(c, 4);
    Doubles(d, 8);
    Doubles(e, 16);
    Doubles(f, 32);
    AllOnes(Or(f, Shift(f, 32)));
  }

  lemma TopBit(a: nat)
    requires a > 0 ==> Bits(a) > 0 && Bit(a, Bits(a) - 1)
    ensures TopSet(a, 1)
  {
  }

  lemma {:induction false} FewBits(a: nat, k: nat)
    requires a < Pow2(k)
    ensures Bits(a) <= k
    decreases k
  {
    if a > 0 {
      FewBits(a / 2, k - 1);
    }
  }

  lemma {:induction false} PowersOfTwo(k: nat)
    requires k <= 63
    ensures Pow2(k) <= TWO63
    ensures k == 63 ==> Pow2(k) == TWO63
    decreases 63 - k
  {
    if k < 63 {
      PowersOfTwo(k + 1);
    } else {
      Power63();
    }
  }

  lemma Power7()
    ensures Pow2(7) == 128
  {
  }

  lemma Power63()
    ensures Pow2(63) == TWO63
  {
    hide Pow2;
    Power7();
    PowerAdd(7, 7);
    PowerAdd(14, 14);
    PowerAdd(28, 28);
    PowerAdd(56, 7);
  }

  lemma {:induction false} PowerAdd(j: nat, k: nat)
    ensures Pow2(j + k) == Pow2(j) * Pow2(k)
    decreases k
  {
    if k > 0 {
      PowerAdd(j, k - 1);
      Twice(Pow2(j), Pow2(k - 1));
    }
  }

  lemma Twice(x: nat, y: nat)
    ensures 2 * (x * y) == x * (2 * y)
  {
  }

  /** ceilToPow2 gives the least power of two that is not below its argument, up to 2^63. */
  lemma CeilIsLeast(x: nat)
    requires 0 < x <= TWO63
    ensures var c := CeilToPow2(x);
            c == Pow2(Bits(x - 1)) && x <= c && (x > 1 ==> c < 2 * x)
  {
    hide Smear, Bits, Pow2;
    PowersOfTwo(63);
    FewBits(x - 1, 63);
    SmearIsMask(x - 1);
    Between(x - 1);
    PowersOfTwo(Bits(x - 1));
  }

  lemma CeilOfOne()
    ensures CeilToPow2(1) == 1
  {
    hide Smear, Pow2, Bits;
    CeilIsLeast(1);
    NoBits();
  }

  lemma NoBits()
    ensures Pow2(Bits(0)) == 1
  {
  }
}
