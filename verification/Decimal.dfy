/** Decimal numerals: the digit sequences behind printed and parsed numbers. */
module Decimal {

  type Digit = d: nat | d < 10

  function Pow10(k: nat): (p: nat)
    ensures p > 0
  {
    if k == 0 then 1 else 10 * Pow10(k - 1)
  }

  /** The numeral of `n`, most significant digit first, without leading zeros. */
  function Digits(n: nat): (ds: seq<Digit>)
    ensures ds != []
  {
    if n < 10 then [n] else Digits(n / 10) + [n % 10]
  }

  /** The number a digit sequence stands for. */
  function Value(ds: seq<Digit>): nat {
    if ds == [] then 0 else 10 * Value(ds[..|ds| - 1]) + ds[|ds| - 1]
  }

  function Zeros(k: nat): seq<Digit> {
    seq(k, i => 0)
  }

  /** Zeros in front, up to `width` digits; longer numerals are left alone. */
  function PadStart(ds: seq<Digit>, width: nat): seq<Digit> {
    if |ds| >= width then ds else Zeros(width - |ds|) + ds
  }

  /** Zeros behind, up to `width` digits. */
  function PadEnd(ds: seq<Digit>, width: nat): seq<Digit> {
    if |ds| >= width then ds else ds + Zeros(width - |ds|)
  }

  /** The numeral without its leading zeros, but never empty. */
  function StripZeros(ds: seq<Digit>): seq<Digit>
    requires ds != []
  {
    if |ds| > 1 && ds[0] == 0 then StripZeros(ds[1..]) else ds
  }

  lemma {:induction false} ValueOfDigits(n: nat)
    ensures Value(Digits(n)) == n
  {
    if n >= 10 {
      ValueOfDigits(n / 10);
      assert Digits(n)[..|Digits(n)| - 1] == Digits(n / 10);
    }
  }

  lemma ValueSnoc(ds: seq<Digit>, d: Digit)
    ensures Value(ds + [d]) == 10 * Value(ds) + d
  {
    assert (ds + [d])[..|ds|] == ds;
  }

  lemma {:induction false} ValueConcat(ds: seq<Digit>, es: seq<Digit>)
    ensures Value(ds + es) == Value(ds) * Pow10(|es|) + Value(es)
  {
    if es == [] {
      assert ds + es == ds;
    } else {
      var n := |es| - 1;
      ValueConcat(ds, es[..n]);
      assert ds + es == (ds + es[..n]) + [es[n]];
      ValueSnoc(ds + es[..n], es[n]);
      MulTen(Value(ds), Pow10(n));
    }
  }

  lemma MulTen(v: nat, p: nat)
    ensures 10 * (v * p) == v * (10 * p)
  {
  }

  lemma {:induction false} ValueOfZeros(k: nat)
    ensures Value(Zeros(k)) == 0
  {
    if k != 0 {
      ValueOfZeros(k - 1);
      assert Zeros(k)[..k - 1] == Zeros(k - 1);
    }
  }

  lemma ValueOfPadStart(ds: seq<Digit>, width: nat)
    ensures Value(PadStart(ds, width)) == Value(ds)
  {
    if |ds| < width {
      ValueConcat(Zeros(width - |ds|), ds);
      ValueOfZeros(width - |ds|);
    }
  }

  lemma {:induction false} ValueBound(ds: seq<Digit>)
    ensures Value(ds) < Pow10(|ds|)
  {
    if ds != [] {
      ValueBound(ds[..|ds| - 1]);
    }
  }

  lemma {:induction false} DigitsLength(n: nat, width: nat)
    requires n < Pow10(width) && width > 0
    ensures |Digits(n)| <= width
  {
    if n >= 10 {
      DigitsLength(n / 10, width - 1);
    }
  }

  /** Two digit sequences of the same length with the same value are equal. */
  lemma {:induction false} ValueInjective(ds: seq<Digit>, es: seq<Digit>)
    requires |ds| == |es| && Value(ds) == Value(es)
    ensures ds == es
  {
    if ds != [] {
      var n := |ds| - 1;
      ValueInjective(ds[..n], es[..n]);
      assert ds == ds[..n] + [ds[n]] && es == es[..n] + [es[n]];
    }
  }

  /** Printing a value with padding gives back the digits it was read from. */
  lemma PadStartOfValue(ds: seq<Digit>)
    requires ds != []
    ensures PadStart(Digits(Value(ds)), |ds|) == ds
  {
    var v := Value(ds);
    ValueBound(ds);
    DigitsLength(v, |ds|);
    ValueOfDigits(v);
    ValueOfPadStart(Digits(v), |ds|);
    ValueInjective(PadStart(Digits(v), |ds|), ds);
  }

  /** Printing a value without padding gives the digits without leading zeros. */
  lemma {:induction false} DigitsOfValue(ds: seq<Digit>)
    requires ds != []
    ensures Digits(Value(ds)) == StripZeros(ds)
  {
    if |ds| == 1 {
      assert ds[..0] == [];
    } else if ds[0] == 0 {
      DigitsOfValue(ds[1..]);
      assert ds == [0] + ds[1..];
      ValueConcat([0], ds[1..]);
      assert Value([0]) == 0 by {
        ValueOfZeros(1);
        assert Zeros(1) == [0];
      }
    } else {
      DigitsOfNonZero(ds);
    }
  }

  lemma {:induction false} DigitsOfNonZero(ds: seq<Digit>)
    requires ds != [] && ds[0] != 0
    ensures Digits(Value(ds)) == ds
    ensures Value(ds) > 0
  {
    var n := |ds| - 1;
    assert ds == ds[..n] + [ds[n]];
    if n > 0 {
      DigitsOfNonZero(ds[..n]);
    } else {
      assert ds[..0] == [];
    }
  }
}
