/**
 The Galois field GF(256) of the QR encoder.  Addition is exclusive or; the
 encoder multiplies through tables of powers and logarithms of alpha = 2 modulo
 the polynomial 0x11D.  This module proves that the tables give a field, and that
 the table product is polynomial multiplication modulo 0x11D.
 */
module Gf256 {
  import Finite

  type Byte = bv8

  /** Addition in GF(256). */
  function Add(x: Byte, y: Byte): Byte {
    x ^ y
  }

  /** Multiplication by alpha: shift left, and reduce by 0x11D when bit 8 comes out set. */
  function Double(x: Byte): Byte {
    if x & 0x80 != 0 then (x << 1) ^ 0x1d else x << 1
  }

  /** Doubling as the table loop does it, in more than eight bits. */
  lemma DoubleReduces(x: Byte)
    ensures var y: bv16 := (x as bv16) << 1;
            Double(x) as bv16 == if y & 0x100 != 0 then y ^ 0x11d else y
  {
  }

  lemma AddLaws(x: Byte, y: Byte, z: Byte)
    ensures Add(x, y) == Add(y, x)
    ensures Add(Add(x, y), z) == Add(x, Add(y, z))
    ensures Add(x, 0) == x == Add(0, x)
    ensures Add(x, y) == 0 <==> x == y
  {
  }

  lemma AddSwap(x: Byte, y: Byte, z: Byte, w: Byte)
    ensures Add(Add(x, y), Add(z, w)) == Add(Add(x, z), Add(y, w))
  {
    hide Add;
    calc {
      Add(Add(x, y), Add(z, w));
      { AddLaws(x, y, Add(z, w)); AddLaws(y, z, w); }
      Add(x, Add(Add(y, z), w));
      { AddLaws(y, z, w); }
      Add(x, Add(Add(z, y), w));
      { AddLaws(z, y, w); AddLaws(x, z, Add(y, w)); }
      Add(Add(x, z), Add(y, w));
    }
  }

  lemma ShiftLinear(x: Byte, y: Byte)
    ensures (x ^ y) << 1 == (x << 1) ^ (y << 1)
    ensures (x ^ y) & 0x80 == (x & 0x80) ^ (y & 0x80)
    ensures x & 0x80 == 0x80 || x & 0x80 == 0
    ensures y & 0x80 == 0x80 || y & 0x80 == 0
  {
  }

  lemma ReduceLinear(a: Byte, b: Byte)
    ensures (a ^ 0x1d) ^ b == (a ^ b) ^ 0x1d
    ensures a ^ (b ^ 0x1d) == (a ^ b) ^ 0x1d
    ensures (a ^ 0x1d) ^ (b ^ 0x1d) == a ^ b
  {
  }

  lemma DoubleXor(x: Byte, y: Byte)
    ensures Double(x ^ y) == Double(x) ^ Double(y)
  {
    ShiftLinear(x, y);
    ReduceLinear(x << 1, y << 1);
  }

  lemma DoubleLinear(x: Byte, y: Byte)
    ensures Double(Add(x, y)) == Add(Double(x), Double(y))
  {
    hide Double;
    DoubleXor(x, y);
  }

  lemma DoubleInjective(x: Byte, y: Byte)
    requires Double(x) == Double(y)
    ensures x == y
  {
  }

  // ---- a reference definition: polynomial multiplication modulo 0x11D

  function Term(a: Byte, bit: Byte, y: Byte): Byte {
    if a & bit != 0 then y else 0
  }

  /** The product of two polynomials over GF(2) modulo 0x11D, one bit of `a` at a time. */
  function PolyMul(a: Byte, y: Byte): Byte {
    var y1 := Double(y);
    var y2 := Double(y1);
    var y3 := Double(y2);
    var y4 := Double(y3);
    var y5 := Double(y4);
    var y6 := Double(y5);
    var y7 := Double(y6);
    Add(Add(Add(Term(a, 0x01, y), Term(a, 0x02, y1)), Add(Term(a, 0x04, y2), Term(a, 0x08, y3))),
        Add(Add(Term(a, 0x10, y4), Term(a, 0x20, y5)), Add(Term(a, 0x40, y6), Term(a, 0x80, y7))))
  }

  // ---- powers of alpha

  /** Multiplication by alpha, `k` times. */
  function DoubleTimes(k: nat, x: Byte): Byte {
    if k == 0 then x else Double(DoubleTimes(k - 1, x))
  }

  /** The power alpha^k. */
  function Power(k: nat): Byte {
    DoubleTimes(k, 1)
  }

  lemma {:induction false} DoubleTimesLinear(k: nat, x: Byte, y: Byte)
    ensures DoubleTimes(k, Add(x, y)) == Add(DoubleTimes(k, x), DoubleTimes(k, y))
  {
    hide Add, Double;
    if k != 0 {
      DoubleTimesLinear(k - 1, x, y);
      DoubleLinear(DoubleTimes(k - 1, x), DoubleTimes(k - 1, y));
    }
  }

  lemma {:induction false} DoubleTimesAdd(j: nat, k: nat, x: Byte)
    ensures DoubleTimes(j + k, x) == DoubleTimes(j, DoubleTimes(k, x))
  {
    hide Double;
    if j != 0 {
      DoubleTimesAdd(j - 1, k, x);
    }
  }

  lemma {:induction false} DoubleTimesInjective(k: nat, x: Byte, y: Byte)
    requires DoubleTimes(k, x) == DoubleTimes(k, y)
    ensures x == y
  {
    hide Double;
    if k != 0 {
      DoubleInjective(DoubleTimes(k - 1, x), DoubleTimes(k - 1, y));
      DoubleTimesInjective(k - 1, x, y);
    }
  }

  lemma {:induction false} DoubleTimesZero(k: nat)
    ensures DoubleTimes(k, 0) == 0
  {
    if k != 0 {
      DoubleTimesZero(k - 1);
    }
  }

  /** A byte is the sum of its bits, bit i being alpha^i. */
  lemma BitsOfByteAdd(a: Byte)
    ensures a == Add(Add(Add(Term(a, 0x01, 0x01), Term(a, 0x02, 0x02)), Add(Term(a, 0x04, 0x04), Term(a, 0x08, 0x08))),
                     Add(Add(Term(a, 0x10, 0x10), Term(a, 0x20, 0x20)), Add(Term(a, 0x40, 0x40), Term(a, 0x80, 0x80))))
  {
  }

  lemma DoubleTimesTerm(k: nat, i: nat, a: Byte, bit: Byte)
    requires bit == Power(i)
    ensures DoubleTimes(k, Term(a, bit, bit)) == Term(a, bit, DoubleTimes(i, Power(k)))
  {
    hide Double, DoubleTimes;
    DoubleTimesZero(k);
    DoubleTimesAdd(k, i, 1);
    DoubleTimesAdd(i, k, 1);
  }

  lemma DoubleTimesSum4(k: nat, p: Byte, q: Byte, r: Byte, s: Byte)
    ensures DoubleTimes(k, Add(Add(p, q), Add(r, s))) ==
            Add(Add(DoubleTimes(k, p), DoubleTimes(k, q)), Add(DoubleTimes(k, r), DoubleTimes(k, s)))
  {
    hide Add, DoubleTimes;
    DoubleTimesLinear(k, Add(p, q), Add(r, s));
    DoubleTimesLinear(k, p, q);
    DoubleTimesLinear(k, r, s);
  }

  lemma LowPowers()
    ensures Power(0) == 0x01 && Power(1) == 0x02 && Power(2) == 0x04 && Power(3) == 0x08
    ensures Power(4) == 0x10 && Power(5) == 0x20 && Power(6) == 0x40 && Power(7) == 0x80
  {
  }

  lemma LowDoubles(y: Byte)
    ensures DoubleTimes(0, y) == y && DoubleTimes(1, y) == Double(y)
    ensures DoubleTimes(2, y) == Double(Double(y)) && DoubleTimes(3, y) == Double(Double(Double(y)))
  {
    hide Double;
    assert DoubleTimes(2, y) == Double(DoubleTimes(1, y));
  }

  /** Multiplying `a` by alpha `k` times is the polynomial product of `a` and alpha^k. */
  lemma DoubleTimesIsPolyMul(k: nat, a: Byte)
    ensures DoubleTimes(k, a) == PolyMul(a, Power(k))
  {
    hide Add, Double, DoubleTimes, Power, Term;
    var y := Power(k);
    LowPowers();
    LowDoubles(y);
    LowDoubles(DoubleTimes(4, y));
    DoubleTimesAdd(1, 3, y);
    LowDoubles(DoubleTimes(3, y));
    DoubleTimesAdd(1, 4, y);
    DoubleTimesAdd(2, 4, y);
    DoubleTimesAdd(3, 4, y);
    var lo := Add(Add(Term(a, 0x01, 0x01), Term(a, 0x02, 0x02)), Add(Term(a, 0x04, 0x04), Term(a, 0x08, 0x08)));
    var hi := Add(Add(Term(a, 0x10, 0x10), Term(a, 0x20, 0x20)), Add(Term(a, 0x40, 0x40), Term(a, 0x80, 0x80)));
    BitsOfByteAdd(a);
    DoubleTimesLinear(k, lo, hi);
    DoubleTimesSum4(k, Term(a, 0x01, 0x01), Term(a, 0x02, 0x02), Term(a, 0x04, 0x04), Term(a, 0x08, 0x08));
    DoubleTimesSum4(k, Term(a, 0x10, 0x10), Term(a, 0x20, 0x20), Term(a, 0x40, 0x40), Term(a, 0x80, 0x80));
    DoubleTimesTerm(k, 0, a, 0x01);
    DoubleTimesTerm(k, 1, a, 0x02);
    DoubleTimesTerm(k, 2, a, 0x04);
    DoubleTimesTerm(k, 3, a, 0x08);
    DoubleTimesTerm(k, 4, a, 0x10);
    DoubleTimesTerm(k, 5, a, 0x20);
    DoubleTimesTerm(k, 6, a, 0x40);
    DoubleTimesTerm(k, 7, a, 0x80);
  }

  // ---- alpha has order 255, so its powers are exactly the non-zero bytes

  lemma Products()
    ensures PolyMul(0x10, 0x10) == 0x1d
    ensures PolyMul(0x1d, 0x1d) == 0x4c
    ensures PolyMul(0x4c, 0x02) == 0x98
    ensures PolyMul(0x98, 0x98) == 0x4e
    ensures PolyMul(0x4e, 0x98) == 0x0a
    ensures PolyMul(0x0a, 0x4e) == 0xd6
    ensures PolyMul(0xd6, 0xd6) == 0xd7
    ensures PolyMul(0xd7, 0xd6) == 0x01
  {
  }

  lemma PowerAdd(j: nat, k: nat)
    ensures Power(j + k) == DoubleTimes(j, Power(k)) == PolyMul(Power(k), Power(j))
  {
    hide PolyMul, DoubleTimes;
    DoubleTimesAdd(j, k, 1);
    DoubleTimesIsPolyMul(j, Power(k));
  }

  lemma KnownPowers()
    ensures Power(15) != 1 && Power(51) != 1 && Power(85) != 1 && Power(255) == 1
  {
    hide PolyMul, DoubleTimes, Power;
    LowPowers();
    Products();
    PowerAdd(4, 4);
    PowerAdd(8, 8);
    PowerAdd(1, 16);
    PowerAdd(17, 17);
    PowerAdd(17, 34);
    PowerAdd(34, 51);
    PowerAdd(85, 85);
    PowerAdd(85, 170);
    PowerAdd(2, 15);
    if Power(15) == 1 {
      PowerOne(2);
    }
  }

  lemma PowerOne(k: nat)
    requires k == 2
    ensures DoubleTimes(k, 1) == 4
  {
    LowPowers();
  }

  lemma {:induction false} PowerMultiple(d: nat, m: nat, r: nat)
    requires Power(d) == 1
    ensures Power(d * m + r) == Power(r)
    decreases m
  {
    hide DoubleTimes;
    if m != 0 {
      PowerMultiple(d, m - 1, r);
      var k := d * (m - 1) + r;
      assert d * m + r == k + d;
      DoubleTimesAdd(k, d, 1);
    }
  }

  lemma SmallFactor(d: nat, m: nat)
    requires d * m == 255 && m <= 15
    ensures m == 1 || m == 3 || m == 5 || m == 15
  {
    if m == 0 {} else if m == 2 {} else if m == 4 {} else if m == 6 {}
    else if m == 7 {} else if m == 8 {} else if m == 9 {} else if m == 10 {}
    else if m == 11 {} else if m == 12 {} else if m == 13 {} else if m == 14 {}
  }

  lemma {:induction false} OrderAtLeast255(d: nat)
    requires 0 < d < 255
    ensures Power(d) != 1
  {
    hide DoubleTimes, Power;
    if Power(d) == 1 {
      KnownPowers();
      var (m, r) := (255 / d, 255 % d);
      PowerMultiple(d, m, r);
      if r != 0 {
        OrderAtLeast255(r);
      } else {
        PowerMultiple(d, 0, 0);
        if d <= 15 {
          SmallFactor(m, d);
          PowerMultiple(d, 15 / d, 0);
        } else {
          assert m <= 15;
          SmallFactor(d, m);
          PowerMultiple(d, if d == 17 then 3 else 1, 0);
        }
      }
    }
  }

  lemma PowersDistinct(i: nat, j: nat)
    requires i < j < 255
    ensures Power(i) != Power(j)
  {
    hide DoubleTimes;
    if Power(i) == Power(j) {
      DoubleTimesAdd(i, j - i, 1);
      DoubleTimesZeroTimes(1);
      DoubleTimesInjective(i, 1, Power(j - i));
      OrderAtLeast255(j - i);
    }
  }

  lemma DoubleTimesZeroTimes(x: Byte)
    ensures DoubleTimes(0, x) == x
  {
  }

  lemma NumberInjective(x: Byte, y: Byte)
    ensures x as int == y as int ==> x == y
    ensures 0 <= x as int < 256
    ensures x as int == 0 <==> x == 0
  {
  }

  /** Every non-zero byte is a power of alpha: 255 distinct non-zero bytes are all of them. */
  lemma PowersCover(x: Byte)
    requires x != 0
    ensures exists k: nat :: k < 255 && Power(k) == x
  {
    hide DoubleTimes, Power;
    var s := seq(255, (i: nat) => Power(i) as int);
    forall i, j | 0 <= i < j < 255
      ensures s[i] != s[j]
    {
      PowersDistinct(i, j);
      NumberInjective(Power(i), Power(j));
    }
    forall v | v in s
      ensures 1 <= v < 256
    {
      var i: nat :| i < 255 && v == s[i];
      PowerNonZero(i);
      NumberInjective(Power(i), 0);
    }
    Finite.Pigeonhole(s, 1, 256);
    NumberInjective(x, 0);
    assert x as int in s;
    var k: nat :| k < 255 && s[k] == x as int;
    NumberInjective(x, Power(k));
  }

  lemma PowerNonZero(k: nat)
    ensures Power(k) != 0
  {
    hide DoubleTimes;
    if Power(k) == 0 {
      DoubleTimesZero(k);
      DoubleTimesInjective(k, 1, 0);
    }
  }

  // ---- logarithms and the product

  /** The discrete logarithm, base alpha, of a non-zero byte. */
  ghost function Log(x: Byte): (k: nat)
    requires x != 0
    ensures k < 255 && Power(k) == x
  {
    PowersCover(x);
    var k: nat :| k < 255 && Power(k) == x;
    k
  }

  /** The product the encoder computes: add the logarithms, look up the power. */
  ghost function Mul(a: Byte, b: Byte): Byte {
    if a == 0 || b == 0 then 0 else Power(Log(a) + Log(b))
  }

  /** The table product is polynomial multiplication modulo 0x11D. */
  lemma MulIsPolyMul(a: Byte, b: Byte)
    ensures Mul(a, b) == PolyMul(a, b)
  {
    hide PolyMul, DoubleTimes, Power, Log;
    if a == 0 || b == 0 {
      PolyMulZero(a);
      PolyMulZero(b);
    } else {
      PowerAdd(Log(b), Log(a));
    }
  }

  lemma PolyMulZero(y: Byte)
    ensures PolyMul(0, y) == 0 && PolyMul(y, 0) == 0
  {
  }

  /** Multiplying by alpha^k is doubling k times, so it distributes over addition. */
  lemma MulPower(k: nat, a: Byte)
    ensures Mul(Power(k), a) == Mul(a, Power(k)) == DoubleTimes(k, a)
  {
    hide PolyMul, DoubleTimes, Power, Log, Mul;
    DoubleTimesIsPolyMul(k, a);
    MulIsPolyMul(a, Power(k));
    MulComm(a, Power(k));
  }

  lemma MulComm(a: Byte, b: Byte)
    ensures Mul(a, b) == Mul(b, a)
  {
    hide DoubleTimes, Power, Log;
  }

  lemma MulDistributes(a: Byte, b: Byte, c: Byte)
    ensures Mul(a, Add(b, c)) == Add(Mul(a, b), Mul(a, c))
    ensures Mul(Add(b, c), a) == Add(Mul(b, a), Mul(c, a))
  {
    hide DoubleTimes, Power, Log, Mul, Add;
    if a == 0 {
      MulZero(Add(b, c));
      MulZero(b);
      MulZero(c);
      AddLaws(0, 0, 0);
    } else {
      var k := Log(a);
      MulPower(k, Add(b, c));
      MulPower(k, b);
      MulPower(k, c);
      DoubleTimesLinear(k, b, c);
    }
  }

  lemma MulZero(a: Byte)
    ensures Mul(a, 0) == 0 == Mul(0, a)
  {
  }

  lemma MulOne(a: Byte)
    ensures Mul(1, a) == a == Mul(a, 1)
  {
    hide DoubleTimes, Log, Mul;
    DoubleTimesZeroTimes(1);
    DoubleTimesZeroTimes(a);
    MulPower(0, a);
  }

  lemma MulAssoc(a: Byte, b: Byte, c: Byte)
    ensures Mul(Mul(a, b), c) == Mul(a, Mul(b, c))
  {
    hide DoubleTimes, Power, Log, Mul;
    if a == 0 || b == 0 || c == 0 {
      MulZero(a);
      MulZero(b);
      MulZero(c);
      MulZero(Mul(a, b));
      MulZero(Mul(b, c));
    } else {
      var (i, k) := (Log(a), Log(c));
      MulPower(i, b);
      MulPower(k, b);
      MulPower(i, DoubleTimes(k, b));
      MulPower(k, DoubleTimes(i, b));
      DoubleTimesAdd(i, k, b);
      DoubleTimesAdd(k, i, b);
    }
  }

  /** There are no zero divisors. */
  lemma MulNonZero(a: Byte, b: Byte)
    ensures Mul(a, b) == 0 <==> a == 0 || b == 0
  {
    hide DoubleTimes, Power, Log;
    if a != 0 && b != 0 {
      PowerNonZero(Log(a) + Log(b));
    }
  }

  // ---- the tables

  lemma PowerWraps(k: nat)
    ensures Power(k + 255) == Power(k)
  {
    hide DoubleTimes, Power;
    KnownPowers();
    PowerMultiple(255, 1, k);
  }

  /** The EXP and LOG tables, filled once when the encoder is loaded. */
  class Tables {
    const exp: array<Byte>
    const log: array<nat>

    ghost predicate Valid()
      reads exp, log
    {
      && exp.Length == 512 && log.Length == 256
      && (forall i :: 0 <= i < 512 ==> exp[i] == Power(i))
      && (forall k :: 0 <= k < 255 ==> log[Power(k) as int] == k)
    }

    constructor ()
      ensures Valid() && fresh(exp) && fresh(log)
    {
      exp := new Byte[512];
      log := new nat[256];
      new;
      hide DoubleTimes, Double;
      var x: Byte := 1;
      DoubleTimesZeroTimes(1);
      for i := 0 to 255
        invariant x == Power(i)
        invariant forall j :: 0 <= j < i ==> exp[j] == Power(j)
        invariant forall k :: 0 <= k < i ==> log[Power(k) as int] == k
      {
        NumberInjective(x, x);
        forall k | 0 <= k < i
          ensures Power(k) as int != x as int
        {
          PowersDistinct(k, i);
          NumberInjective(Power(k), x);
        }
        exp[i] := x;
        log[x as int] := i;
        x := Double(x);
        DoubleTimesStep(i, 1);
      }
      for i := 255 to 512
        invariant forall j :: 0 <= j < i ==> exp[j] == Power(j)
        invariant forall k :: 0 <= k < 255 ==> log[Power(k) as int] == k
      {
        PowerWraps(i - 255);
        exp[i] := exp[i - 255];
      }
    }

    /** Multiplies two field elements by table lookup. */
    method GfMul(a: Byte, b: Byte) returns (r: Byte)
      requires Valid()
      ensures r == Mul(a, b)
    {
      hide DoubleTimes, Power, Log;
      if a == 0 || b == 0 {
        return 0;
      }
      NumberInjective(a, b);
      NumberInjective(b, a);
      assert log[Power(Log(a)) as int] == Log(a) && log[Power(Log(b)) as int] == Log(b);
      r := exp[log[a as int] + log[b as int]];
    }
  }

  lemma DoubleTimesStep(k: nat, x: Byte)
    ensures DoubleTimes(k + 1, x) == Double(DoubleTimes(k, x))
  {
  }
}
