/**
 Reed-Solomon error-correction codewords of the QR encoder, as in section 7.5 of
 ISO/IEC 18004:2015.  A polynomial is the sequence of its coefficients, highest
 degree first.
 */
module ReedSolomon {
  import opened Gf256
  import opened Sequences

  type Poly = seq<Byte>

  // ---- polynomials over GF(256)

  /** The value of `p` at `x`, by Horner's rule. */
  ghost function Eval(p: Poly, x: Byte): Byte {
    if p == [] then 0 else Add(Mul(Eval(p[..|p| - 1], x), x), p[|p| - 1])
  }

  ghost function Sum(p: Poly, q: Poly): Poly
    requires |p| == |q|
  {
    seq(|p|, i requires 0 <= i < |p| => Add(p[i], q[i]))
  }

  ghost function Scale(p: Poly, c: Byte): Poly {
    seq(|p|, i requires 0 <= i < |p| => Mul(p[i], c))
  }

  function Zeros(n: nat): Poly {
    seq(n, i => 0)
  }

  lemma EvalSnoc(p: Poly, c: Byte, x: Byte)
    ensures Eval(p + [c], x) == Add(Mul(Eval(p, x), x), c)
  {
    hide Mul, Add;
    assert (p + [c])[..|p|] == p;
  }

  lemma {:induction false} EvalSum(p: Poly, q: Poly, x: Byte)
    requires |p| == |q|
    ensures Eval(Sum(p, q), x) == Add(Eval(p, x), Eval(q, x))
  {
    hide Mul, Add;
    if p == [] {
      AddLaws(0, 0, 0);
    } else {
      var n := |p| - 1;
      var (p', q') := (p[..n], q[..n]);
      assert Sum(p, q)[..n] == Sum(p', q');
      EvalSum(p', q', x);
      MulDistributes(x, Eval(p', x), Eval(q', x));
      AddSwap(Mul(Eval(p', x), x), Mul(Eval(q', x), x), p[n], q[n]);
    }
  }

  lemma {:induction false} EvalScale(p: Poly, c: Byte, x: Byte)
    ensures Eval(Scale(p, c), x) == Mul(Eval(p, x), c)
  {
    hide Mul, Add;
    if p == [] {
      MulZero(c);
    } else {
      var n := |p| - 1;
      assert Scale(p, c)[..n] == Scale(p[..n], c);
      EvalScale(p[..n], c, x);
      var e := Eval(p[..n], x);
      MulDistributes(c, Mul(e, x), p[n]);
      MulAssoc(e, c, x);
      MulComm(c, x);
      MulAssoc(e, x, c);
    }
  }

  lemma {:induction false} EvalLeadingZeros(n: nat, p: Poly, x: Byte)
    ensures Eval(Zeros(n) + p, x) == Eval(p, x)
    decreases |p|, n
  {
    hide Mul, Add;
    if p != [] {
      var k := |p| - 1;
      assert (Zeros(n) + p)[..n + k] == Zeros(n) + p[..k];
      EvalLeadingZeros(n, p[..k], x);
    } else if n != 0 {
      assert (Zeros(n) + p)[..n - 1] == Zeros(n - 1) + [];
      EvalLeadingZeros(n - 1, [], x);
      MulZero(x);
      AddLaws(0, 0, 0);
    }
  }

  // ---- the generator polynomial

  /** The product of (x + alpha^i) for i below `degree`. */
  ghost function Generator(degree: nat): (g: Poly)
    ensures |g| == degree + 1 && g[0] == 1
  {
    if degree == 0 then [1] else
      var g := Generator(degree - 1);
      AddOneZero(g[0]);
      Sum(g + [0], [0] + Scale(g, Power(degree - 1)))
  }

  lemma AddOneZero(b: Byte)
    ensures Add(b, 0) == b
  {
  }

  /** One more factor multiplies the value by (x + alpha^degree). */
  lemma GeneratorFactor(degree: nat, x: Byte)
    ensures Eval(Generator(degree + 1), x) == Mul(Eval(Generator(degree), x), Add(x, Power(degree)))
  {
    hide Mul, Add, Power;
    var (g, r) := (Generator(degree), Power(degree));
    EvalSum(g + [0], [0] + Scale(g, r), x);
    EvalSnoc(g, 0, x);
    AddOneZero(Mul(Eval(g, x), x));
    assert [0] + Scale(g, r) == Zeros(1) + Scale(g, r);
    EvalLeadingZeros(1, Scale(g, r), x);
    EvalScale(g, r, x);
    MulDistributes(Eval(g, x), x, r);
  }

  ghost predicate IsRoot(degree: nat, x: Byte) {
    exists i: nat :: i < degree && x == Power(i)
  }

  lemma GeneratorOne(x: Byte)
    ensures Eval(Generator(0), x) == 1
  {
    hide Mul, Add;
    EvalSnoc([], 1, x);
    assert Generator(0) == [] + [1];
    MulZero(x);
    AddLaws(1, 0, 0);
  }

  /** The roots of the generator are exactly alpha^0 .. alpha^(degree - 1). */
  lemma {:induction false} GeneratorRoots(degree: nat, x: Byte)
    ensures Eval(Generator(degree), x) == 0 <==> IsRoot(degree, x)
  {
    hide Mul, Add, Power, DoubleTimes, Eval, Generator;
    if degree == 0 {
      GeneratorOne(x);
    } else {
      GeneratorRoots(degree - 1, x);
      GeneratorFactor(degree - 1, x);
      MulNonZero(Eval(Generator(degree - 1), x), Add(x, Power(degree - 1)));
      AddLaws(x, Power(degree - 1), 0);
    }
  }

  // ---- the shift register

  /** One step of the division register `res` on data byte `b`. */
  ghost function Shift(res: Poly, b: Byte): (r: Poly)
    requires |res| > 0
    ensures |r| == |res|
  {
    var factor := Add(b, res[0]);
    Sum(res[1..] + [0], Scale(Generator(|res|)[1..], factor))
  }

  /** The error-correction codewords of `data`. */
  ghost function Encode(data: Poly, ecLen: nat): (r: Poly)
    requires ecLen > 0
    ensures |r| == ecLen
  {
    if data == [] then Zeros(ecLen) else Shift(Encode(data[..|data| - 1], ecLen), data[|data| - 1])
  }

  lemma LeadingCoefficient(b: Byte, c: Byte)
    ensures Add(c, Mul(1, Add(b, c))) == b
  {
    hide Mul;
    MulOne(Add(b, c));
  }

  lemma SumConcat(p: Poly, p': Poly, q: Poly, q': Poly)
    requires |p| == |q| && |p'| == |q'|
    ensures Sum(p + p', q + q') == Sum(p, q) + Sum(p', q')
  {
    hide Add;
  }

  lemma SumZeros(p: Poly)
    ensures Sum(p, Zeros(|p|)) == p
  {
    forall i | 0 <= i < |p|
      ensures Add(p[i], 0) == p[i]
    {
      AddOneZero(p[i]);
    }
  }

  lemma ScaleHead(c: Byte, p: Poly, f: Byte)
    ensures Scale([c] + p, f) == [Mul(c, f)] + Scale(p, f)
  {
    hide Mul;
  }

  lemma SumHead(c: Byte, p: Poly, c': Byte, q: Poly)
    requires |p| == |q|
    ensures Sum([c] + p, [c'] + q) == [Add(c, c')] + Sum(p, q)
  {
    hide Add;
  }

  lemma ShiftedSum(res: Poly, b: Byte)
    requires |res| > 0
    ensures Sum(res + [0], Scale(Generator(|res|), Add(b, res[0]))) == [b] + Shift(res, b)
  {
    hide Mul, Add, Generator, Sum, Scale;
    var (g, f) := (Generator(|res|), Add(b, res[0]));
    var (r, h) := (res[1..] + [0], g[1..]);
    Uncons(g, [0]);
    Uncons(res, [0]);
    ScaleHead(1, h, f);
    ScaleLength(h, f);
    SumHead(res[0], r, Mul(1, f), Scale(h, f));
    LeadingCoefficient(b, res[0]);
  }

  lemma ScaleLength(p: Poly, f: Byte)
    ensures |Scale(p, f)| == |p|
  {
  }

  /** Appending a byte multiplies the codeword by x and adds a multiple of the generator. */
  lemma ShiftIsDivisionStep(d: Poly, res: Poly, b: Byte)
    requires |res| > 0
    ensures d + [b] + Shift(res, b) ==
            Sum(d + res + [0], Zeros(|d|) + Scale(Generator(|res|), Add(b, res[0])))
  {
    hide *;
    var (r, factors, tail) := (res + [0], Scale(Generator(|res|), Add(b, res[0])), Shift(res, b));
    ScaleLength(Generator(|res|), Add(b, res[0]));
    ZerosLength(|d|);
    ShiftedSum(res, b);
    SumZeros(d);
    SumConcat(d, r, Zeros(|d|), factors);
    Concat(d, res, [0]);
    Concat(d, [b], tail);
  }

  lemma ZerosLength(n: nat)
    ensures |Zeros(n)| == n
  {
  }

  /** `message` is zero at alpha^0 .. alpha^(ecLen - 1). */
  ghost predicate ZeroSyndromes(message: Poly, ecLen: nat) {
    forall i: nat :: i < ecLen ==> Eval(message, Power(i)) == 0
  }

  lemma {:induction false} EncodeSyndrome(data: Poly, ecLen: nat, i: nat)
    requires i < ecLen
    ensures Eval(data + Encode(data, ecLen), Power(i)) == 0
  {
    hide Mul, Add, Power, DoubleTimes, Generator, Shift;
    var x := Power(i);
    if data == [] {
      assert [] + Zeros(ecLen) == Zeros(ecLen) + [];
      EvalLeadingZeros(ecLen, [], x);
    } else {
      var n := |data| - 1;
      var (d, b) := (data[..n], data[n]);
      var res := Encode(d, ecLen);
      var (g, f) := (Generator(ecLen), Add(b, res[0]));
      EncodeSyndrome(d, ecLen, i);
      ShiftIsDivisionStep(d, res, b);
      assert data + Encode(data, ecLen) == d + [b] + Shift(res, b);
      EvalSum(d + res + [0], Zeros(n) + Scale(g, f), x);
      EvalSnoc(d + res, 0, x);
      MulZero(x);
      EvalLeadingZeros(n, Scale(g, f), x);
      EvalScale(g, f, x);
      assert IsRoot(ecLen, x);
      GeneratorRoots(ecLen, x);
      MulZero(f);
      AddLaws(0, 0, 0);
    }
  }

  /** Data followed by its error-correction codewords has only zero syndromes. */
  lemma EncodeHasZeroSyndromes(data: Poly, ecLen: nat)
    requires ecLen > 0
    ensures ZeroSyndromes(data + Encode(data, ecLen), ecLen)
  {
    forall i: nat | i < ecLen
      ensures Eval(data + Encode(data, ecLen), Power(i)) == 0
    {
      EncodeSyndrome(data, ecLen, i);
    }
  }

  // ---- the codewords are determined by the syndromes

  /** The quotient of `p` by (x + r): Horner's partial values at `r`. */
  ghost function Quotient(p: Poly, r: Byte): Poly
    requires p != []
  {
    seq(|p| - 1, i requires 0 <= i < |p| - 1 => Eval(p[..i + 1], r))
  }

  lemma {:induction false} DivideByRoot(p: Poly, r: Byte, x: Byte)
    requires p != []
    ensures Eval(p, x) == Add(Mul(Eval(Quotient(p, r), x), Add(x, r)), Eval(p, r))
  {
    hide Mul, Add, Eval;
    var n := |p| - 1;
    if n == 0 {
      EvalConstant(p[0], x);
      EvalConstant(p[0], r);
      EvalConstant(p[0], 0);
      assert Quotient(p, r) == [] && p == [p[0]];
      EvalEmpty(x);
      MulZero(Add(x, r));
      AddLaws(p[0], 0, 0);
    } else {
      var (p', c) := (p[..n], p[n]);
      DivideByRoot(p', r, x);
      assert p == p' + [c];
      EvalSnoc(p', c, x);
      EvalSnoc(p', c, r);
      var (q', e) := (Quotient(p', r), Eval(p', r));
      assert Quotient(p, r) == q' + [e] by {
        assert p[..n] == p';
        forall i | 0 <= i < n - 1
          ensures Quotient(p, r)[i] == q'[i]
        {
          assert p[..i + 1] == p'[..i + 1];
        }
      }
      EvalSnoc(q', e, x);
      HornerStep(Eval(q', x), e, c, x, r);
    }
  }

  lemma EvalEmpty(x: Byte)
    ensures Eval([], x) == 0
  {
  }

  lemma EvalConstant(c: Byte, x: Byte)
    ensures Eval([c], x) == c
  {
    hide Mul, Add;
    EvalSnoc([], c, x);
    assert [] + [c] == [c];
    MulZero(x);
    AddLaws(c, 0, 0);
  }

  /** ((q (x + r) + e) x) + c  =  (q x + e) (x + r) + (e r + c). */
  lemma HornerStep(q: Byte, e: Byte, c: Byte, x: Byte, r: Byte)
    ensures Add(Mul(Add(Mul(q, Add(x, r)), e), x), c) ==
            Add(Mul(Add(Mul(q, x), e), Add(x, r)), Add(Mul(e, r), c))
  {
    hide Mul, Add;
    var s := Add(x, r);
    MulDistributes(x, Mul(q, s), e);
    MulAssoc(q, s, x);
    MulComm(s, x);
    MulAssoc(q, x, s);
    var (a, ex, er) := (Mul(Mul(q, x), s), Mul(e, x), Mul(e, r));
    MulDistributes(s, Mul(q, x), e);
    MulDistributes(e, x, r);
    CancelMiddle(a, ex, er, c);
  }

  lemma CancelMiddle(a: Byte, ex: Byte, er: Byte, c: Byte)
    ensures Add(Add(a, ex), c) == Add(Add(a, Add(ex, er)), Add(er, c))
  {
    hide Add;
    AddLaws(a, ex, er);
    AddLaws(Add(a, ex), er, Add(er, c));
    AddLaws(er, er, c);
    AddLaws(er, er, 0);
    AddLaws(c, 0, 0);
  }

  /** A polynomial with at least as many distinct roots as coefficients is zero. */
  lemma {:induction false} TooManyRoots(p: Poly, first: nat)
    requires first + |p| <= 255
    requires forall i: nat :: first <= i < first + |p| ==> Eval(p, Power(i)) == 0
    ensures p == Zeros(|p|)
    decreases |p|
  {
    hide Mul, Add, Eval, Power, DoubleTimes;
    if p != [] {
      var r := Power(first);
      var q := Quotient(p, r);
      forall i: nat | first + 1 <= i < first + 1 + |q|
        ensures Eval(q, Power(i)) == 0
      {
        var x := Power(i);
        DivideByRoot(p, r, x);
        AddLaws(Mul(Eval(q, x), Add(x, r)), 0, 0);
        PowersDistinct(first, i);
        AddLaws(x, r, 0);
        MulNonZero(Eval(q, x), Add(x, r));
      }
      TooManyRoots(q, first + 1);
      var n := |p| - 1;
      forall i | 0 <= i <= n
        ensures p[i] == 0
      {
        PartialValue(p, r, i);
      }
    }
  }

  /** A coefficient is recovered from the partial values before and after it. */
  lemma PartialValue(p: Poly, r: Byte, i: nat)
    requires i < |p|
    requires Eval(p, r) == 0 && Quotient(p, r) == Zeros(|p| - 1)
    ensures p[i] == 0
  {
    hide Mul, Add, Eval;
    assert p[..i + 1] == p[..i] + [p[i]];
    EvalSnoc(p[..i], p[i], r);
    assert Eval(p[..i + 1], r) == 0 by {
      if i + 1 == |p| {
        assert p[..i + 1] == p;
      } else {
        assert Quotient(p, r)[i] == 0;
      }
    }
    assert Eval(p[..i], r) == 0 by {
      if i == 0 {
        EvalEmpty(r);
        assert p[..0] == [];
      } else {
        assert Quotient(p, r)[i - 1] == 0;
      }
    }
    MulZero(r);
    AddLaws(p[i], 0, 0);
  }

  /**
   The codewords the encoder appends are the only ones with zero syndromes: for
   up to 255 of them, `ec` equals them if and only if data + ec is zero at
   alpha^0 .. alpha^(|ec| - 1).
   */
  lemma EncodeIsUnique(data: Poly, ec: Poly)
    requires 0 < |ec| <= 255
    ensures ZeroSyndromes(data + ec, |ec|) <==> ec == Encode(data, |ec|)
  {
    hide Mul, Add, Eval, Power, DoubleTimes, Encode;
    var n := |ec|;
    var own := Encode(data, n);
    EncodeHasZeroSyndromes(data, n);
    if ZeroSyndromes(data + ec, n) {
      var diff := Sum(ec, own);
      forall i: nat | i < n
        ensures Eval(diff, Power(i)) == 0
      {
        var x := Power(i);
        assert Sum(data + ec, data + own) == Zeros(|data|) + diff by {
          forall k | 0 <= k < |data|
            ensures Add(data[k], data[k]) == 0
          {
            AddLaws(data[k], data[k], 0);
          }
        }
        EvalSum(data + ec, data + own, x);
        EvalLeadingZeros(|data|, diff, x);
        AddLaws(0, 0, 0);
      }
      TooManyRoots(diff, 0);
      forall k | 0 <= k < n
        ensures ec[k] == own[k]
      {
        assert diff[k] == 0;
        AddLaws(ec[k], own[k], 0);
      }
    }
  }

  // ---- the encoder's loops

  /** Multiplies a polynomial by (x + root). */
  method TimesFactor(tables: Tables, poly: Poly, root: Byte) returns (product: Poly)
    requires tables.Valid()
    ensures product == Sum(poly + [0], [0] + Scale(poly, root))
  {
    hide Mul, Add, Power, DoubleTimes, Sum, Scale;
    var next := new Byte[|poly| + 1](_ => 0);
    for j := 0 to |poly|
      invariant forall k :: 0 <= k < j ==>
        next[k] == Add(poly[k], if k > 0 then Mul(poly[k - 1], root) else 0)
      invariant next[j] == if j > 0 then Mul(poly[j - 1], root) else 0
      invariant forall k :: j < k <= |poly| ==> next[k] == 0
    {
      AddLaws(next[j], poly[j], 0);
      next[j] := Add(next[j], poly[j]);
      var m := tables.GfMul(poly[j], root);
      AddLaws(m, 0, 0);
      next[j + 1] := Add(next[j + 1], m);
    }
    AddLaws(next[|poly|], 0, 0);
    product := next[..];
    FactorProduct(product, poly, root);
  }

  lemma FactorProduct(product: Poly, poly: Poly, root: Byte)
    requires |product| == |poly| + 1
    requires forall k :: 0 <= k < |poly| ==> product[k] == Add(poly[k], if k > 0 then Mul(poly[k - 1], root) else 0)
    requires product[|poly|] == Add(0, if poly != [] then Mul(poly[|poly| - 1], root) else 0)
    ensures product == Sum(poly + [0], [0] + Scale(poly, root))
  {
    hide Mul, Add;
    var expected := Sum(poly + [0], [0] + Scale(poly, root));
    forall k | 0 <= k < |product|
      ensures product[k] == expected[k]
    {
      assert ([0] + Scale(poly, root))[k] == if k > 0 then Mul(poly[k - 1], root) else 0;
      assert (poly + [0])[k] == if k < |poly| then poly[k] else 0;
    }
  }

  /** Builds the generator polynomial factor by factor. */
  method RsGenerator(tables: Tables, degree: nat) returns (poly: Poly)
    requires tables.Valid() && degree <= 512
    ensures poly == Generator(degree)
  {
    hide Mul, Add, Power, DoubleTimes, Sum, Scale;
    poly := [1];
    for i := 0 to degree
      invariant poly == Generator(i)
    {
      poly := TimesFactor(tables, poly, tables.exp[i]);
    }
  }

  /** Drops the first coefficient of the register and puts a zero at its end. */
  method ShiftLeft(res: array<Byte>)
    requires res.Length > 0
    modifies res
    ensures res[..] == old(res[1..]) + [0]
  {
    for i := 0 to res.Length - 1
      invariant forall k :: 0 <= k < i ==> res[k] == old(res[k + 1])
      invariant forall k :: i <= k < res.Length ==> res[k] == old(res[k])
    {
      res[i] := res[i + 1];
    }
    res[res.Length - 1] := 0;
  }

  /** Adds the generator, without its leading coefficient, times `factor`. */
  method AddScaled(tables: Tables, gen: Poly, res: array<Byte>, factor: Byte)
    requires tables.Valid() && |gen| == res.Length + 1
    requires res != tables.exp && tables.log as object != res
    modifies res
    ensures res[..] == Sum(old(res[..]), Scale(gen[1..], factor))
  {
    hide Mul, Add, Power, DoubleTimes;
    ghost var shifted := res[..];
    for i := 0 to res.Length
      invariant forall k :: 0 <= k < i ==> res[k] == Add(shifted[k], Mul(gen[k + 1], factor))
      invariant forall k :: i <= k < res.Length ==> res[k] == shifted[k]
    {
      var m := tables.GfMul(gen[i + 1], factor);
      res[i] := Add(res[i], m);
    }
  }

  lemma SumScaledByZero(p: Poly, q: Poly)
    requires |p| == |q|
    ensures Sum(p, Scale(q, 0)) == p
  {
    hide Mul, Add;
    forall k | 0 <= k < |p|
      ensures Add(p[k], Mul(q[k], 0)) == p[k]
    {
      MulZero(q[k]);
      AddOneZero(p[k]);
    }
  }

  /** Runs the register over the data bytes. */
  method RsEncode(tables: Tables, data: seq<Byte>, ecLen: nat) returns (ec: seq<Byte>)
    requires tables.Valid() && 0 < ecLen <= 512
    ensures ec == Encode(data, ecLen)
    ensures ZeroSyndromes(data + ec, ecLen)
  {
    hide Mul, Add, Power, DoubleTimes, Generator, Sum, Scale, Eval;
    var gen := RsGenerator(tables, ecLen);
    var res := new Byte[ecLen](_ => 0);
    assert res[..] == Zeros(ecLen);
    for n := 0 to |data|
      invariant res[..] == Encode(data[..n], ecLen)
    {
      assert data[..n + 1][..n] == data[..n];
      var factor := Add(data[n], res[0]);
      ShiftLeft(res);
      if factor != 0 {
        AddScaled(tables, gen, res, factor);
      } else {
        SumScaledByZero(res[..], gen[1..]);
      }
    }
    assert data[..|data|] == data;
    ec := res[..];
    EncodeHasZeroSyndromes(data, ecLen);
  }
}
