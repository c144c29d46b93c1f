/**
 Conversion between integer minor units and decimal strings, at the boundary where
 amounts are printed for a payment provider and parsed back from it.
 */
module Money {
  import opened Decimal
  import opened Wrappers

  datatype Currency = CNY | USDT

  const MAX_SAFE_INTEGER: nat := 9007199254740991

  function Decimals(c: Currency): nat {
    match c
    case CNY => 2
    case USDT => 6
  }

  // ---- characters

  function DigitChar(d: Digit): char {
    '0' + d as char
  }

  predicate IsDigitChar(c: char) {
    '0' <= c <= '9'
  }

  function CharDigit(c: char): Digit
    requires IsDigitChar(c)
  {
    (c - '0') as int
  }

  predicate AllDigits(s: string) {
    forall i :: 0 <= i < |s| ==> IsDigitChar(s[i])
  }

  function Print(ds: seq<Digit>): (s: string)
    ensures |s| == |ds|
  {
    seq(|ds|, i requires 0 <= i < |ds| => DigitChar(ds[i]))
  }

  function Read(s: string): (ds: seq<Digit>)
    requires AllDigits(s)
    ensures |ds| == |s|
  {
    seq(|s|, i requires 0 <= i < |s| => CharDigit(s[i]))
  }

  lemma PrintRead(ds: seq<Digit>)
    ensures AllDigits(Print(ds)) && Read(Print(ds)) == ds
  {
  }

  lemma ReadPrint(s: string)
    requires AllDigits(s)
    ensures Print(Read(s)) == s
  {
  }

  /** White space and line terminators, as the string method `trim` knows them. */
  predicate IsSpace(c: char) {
    || '\U{0009}' <= c <= '\U{000d}' || c == ' ' || c == '\U{00a0}' || c == '\U{1680}' || '\U{2000}' <= c <= '\U{200a}'
    || c == '\U{2028}' || c == '\U{2029}' || c == '\U{202f}' || c == '\U{205f}' || c == '\U{3000}' || c == '\U{feff}'
  }

  function Trim(s: string): string {
    if s != [] && IsSpace(s[0]) then Trim(s[1..])
    else if s != [] && IsSpace(s[|s| - 1]) then Trim(s[..|s| - 1])
    else s
  }

  /** The white space of the language by code points. */
  lemma SpaceCodes(c: char)
    ensures IsSpace(c) <==>
            (c as int) in {9, 10, 11, 12, 13, 32, 160, 5760, 8192, 8193, 8194, 8195, 8196, 8197, 8198, 8199, 8200, 8201, 8202,
                           8232, 8233, 8239, 8287, 12288, 65279}
  {
  }

  predicate AllSpace(s: string) {
    forall i :: 0 <= i < |s| ==> IsSpace(s[i])
  }

  /** Text that neither begins nor ends with white space. */
  predicate Bare(s: string) {
    s != "" ==> !IsSpace(s[0]) && !IsSpace(s[|s| - 1])
  }

  /** Trimming takes off all the white space around a text, and only that. */
  lemma {:induction false} TrimTakesOff(a: string, s: string, b: string)
    requires AllSpace(a) && Bare(s) && AllSpace(b)
    ensures Trim(a + s + b) == s
    decreases |a| + |b|
  {
    hide IsSpace;
    var text := a + s + b;
    if a != "" {
      TrimTakesOff(a[1..], s, b);
      assert text[1..] == a[1..] + s + b && text[0] == a[0];
    } else if b != "" {
      TrimTakesOff(a, s, b[..|b| - 1]);
      assert text[..|text| - 1] == a + s + b[..|b| - 1] && text[|text| - 1] == b[|b| - 1];
      if s == "" {
        TrimTakesOff("", "", b[1..]);
        assert text[1..] == "" + "" + b[1..];
      }
    } else {
      assert text == s;
    }
  }

  /** One yuan is a hundred fen, one USDT a million micro units, and safe integers have 53 bits. */
  lemma UnitScale()
    ensures Pow10(Decimals(CNY)) == 100 && Pow10(Decimals(USDT)) == 1_000_000
    ensures MAX_SAFE_INTEGER == 0x1f_ffff_ffff_ffff
  {
    assert Pow10(1) == 10 && Pow10(2) == 100 && Pow10(3) == 1000 && Pow10(4) == 10_000 && Pow10(5) == 100_000;
  }

  // ---- splitting at the decimal point

  /** The text before the first point, and the text after it if there is a point. */
  datatype Split = Split(whole: string, point: bool, fraction: string)

  function SplitAtPoint(s: string): Split {
    if s == [] then Split("", false, "")
    else if s[0] == '.' then Split("", true, s[1..])
    else
      var rest := SplitAtPoint(s[1..]);
      Split([s[0]] + rest.whole, rest.point, rest.fraction)
  }

  lemma {:induction false} SplitRecovers(s: string)
    ensures var p := SplitAtPoint(s);
            s == p.whole + (if p.point then "." + p.fraction else "") && (!p.point ==> p.fraction == "")
  {
    if s != [] && s[0] != '.' {
      SplitRecovers(s[1..]);
    }
  }

  lemma {:induction false} SplitOfParts(whole: string, fraction: string)
    requires AllDigits(whole)
    ensures SplitAtPoint(whole + "." + fraction) == Split(whole, true, fraction)
  {
    var s := whole + "." + fraction;
    if whole != [] {
      SplitOfParts(whole[1..], fraction);
      assert s[1..] == whole[1..] + "." + fraction;
      assert whole == [whole[0]] + whole[1..];
    } else {
      assert s[1..] == fraction;
    }
  }

  /** One or more digits, then optionally a point and one or more digits. */
  predicate WellFormed(s: string) {
    var p := SplitAtPoint(s);
    p.whole != "" && AllDigits(p.whole) && AllDigits(p.fraction) && (p.point ==> p.fraction != "")
  }

  function Quotient(n: nat, factor: nat): nat
    requires factor > 0
  {
    n / factor
  }

  function Remainder(n: nat, factor: nat): (r: nat)
    requires factor > 0
    ensures r < factor
  {
    n % factor
  }

  lemma Division(n: nat, factor: nat)
    requires factor > 0
    ensures n == Quotient(n, factor) * factor + Remainder(n, factor)
  {
  }

  lemma Gap(hi: nat, lo: nat, factor: nat)
    requires lo < hi
    ensures lo * factor + factor <= hi * factor
  {
    assert hi * factor == lo * factor + factor + (hi - lo - 1) * factor;
  }

  lemma DivisionUnique(q: nat, r: nat, factor: nat)
    requires r < factor
    ensures Quotient(q * factor + r, factor) == q && Remainder(q * factor + r, factor) == r
  {
    hide Quotient, Remainder;
    var n := q * factor + r;
    var q' := Quotient(n, factor);
    Division(n, factor);
    if q' < q {
      Gap(q, q', factor);
    } else if q < q' {
      Gap(q', q, factor);
    }
  }

  // ---- the two conversions

  /** Minor units from a decimal string; too much precision or too large a value is rejected. */
  function ToMinorUnits(value: string, c: Currency): Option<nat> {
    var s := Trim(value);
    if !WellFormed(s) then None else
      var p := SplitAtPoint(s);
      if |p.fraction| > Decimals(c) then None else
        var fraction := PadEnd(Read(p.fraction), Decimals(c));
        var minor := Value(Read(p.whole)) * Pow10(Decimals(c)) + Value(fraction);
        if minor > MAX_SAFE_INTEGER then None else Some(minor)
  }

  /** The decimal string of an amount in minor units, always with all decimals. */
  function FromMinorUnits(minor: int, c: Currency): Option<string> {
    if minor < 0 then None else
      var factor := Pow10(Decimals(c));
      var whole := Digits(Quotient(minor, factor));
      var fraction := PadStart(Digits(Remainder(minor, factor)), Decimals(c));
      Some(Print(whole) + "." + Print(fraction))
  }

  // ---- what is accepted

  /** The decimal numeral of these digits; without a fraction there is no point. */
  ghost predicate IsNumeral(s: string, whole: seq<Digit>, fraction: seq<Digit>) {
    whole != [] && s == Print(whole) + if fraction == [] then "" else "." + Print(fraction)
  }

  function Amount(whole: seq<Digit>, fraction: seq<Digit>, c: Currency): nat {
    Value(whole) * Pow10(Decimals(c)) + Value(PadEnd(fraction, Decimals(c)))
  }

  predicate IsExact(whole: seq<Digit>, fraction: seq<Digit>, c: Currency) {
    |fraction| <= Decimals(c) && Amount(whole, fraction, c) <= MAX_SAFE_INTEGER
  }

  lemma {:induction false} SplitOfWhole(whole: string)
    requires AllDigits(whole)
    ensures SplitAtPoint(whole) == Split(whole, false, "")
  {
    if whole != [] {
      SplitOfWhole(whole[1..]);
      assert whole == [whole[0]] + whole[1..];
    }
  }

  lemma SplitOfNumeral(s: string, whole: seq<Digit>, fraction: seq<Digit>)
    requires IsNumeral(s, whole, fraction)
    ensures SplitAtPoint(s) == Split(Print(whole), fraction != [], Print(fraction))
  {
    PrintRead(whole);
    if fraction == [] {
      SplitOfWhole(Print(whole));
      assert s == Print(whole);
    } else {
      SplitOfParts(Print(whole), Print(fraction));
      assert s == Print(whole) + "." + Print(fraction);
    }
  }

  /** A numeral parses to its amount, unless it is too precise or too large. */
  lemma NumeralParses(value: string, c: Currency, whole: seq<Digit>, fraction: seq<Digit>)
    requires IsNumeral(Trim(value), whole, fraction)
    ensures ToMinorUnits(value, c) == if IsExact(whole, fraction, c) then Some(Amount(whole, fraction, c)) else None
  {
    hide Value, Pow10, PadEnd, Trim;
    SplitOfNumeral(Trim(value), whole, fraction);
    PrintRead(whole);
    PrintRead(fraction);
  }

  lemma WellFormedIsNumeral(s: string)
    requires WellFormed(s)
    ensures var p := SplitAtPoint(s); IsNumeral(s, Read(p.whole), Read(p.fraction))
  {
    var p := SplitAtPoint(s);
    SplitRecovers(s);
    ReadPrint(p.whole);
    ReadPrint(p.fraction);
  }

  /** Exactly the exact numerals are accepted, with white space around them, and each has one amount. */
  lemma AcceptsExactNumerals(value: string, c: Currency)
    ensures ToMinorUnits(value, c).Some? <==>
            exists whole, fraction :: IsNumeral(Trim(value), whole, fraction) && IsExact(whole, fraction, c)
  {
    hide IsNumeral, IsExact, Trim;
    if ToMinorUnits(value, c).Some? {
      var p := SplitAtPoint(Trim(value));
      WellFormedIsNumeral(Trim(value));
      NumeralParses(value, c, Read(p.whole), Read(p.fraction));
    } else if whole, fraction :| IsNumeral(Trim(value), whole, fraction) && IsExact(whole, fraction, c) {
      NumeralParses(value, c, whole, fraction);
    }
  }

  // ---- round trips

  lemma TrimNumeral(s: string)
    requires s != [] && !IsSpace(s[0]) && !IsSpace(s[|s| - 1])
    ensures Trim(s) == s
  {
  }

  lemma FractionDigits(r: nat, width: nat)
    requires width > 0 && r < Pow10(width)
    ensures var fraction := PadStart(Digits(r), width);
            |fraction| == width && Value(fraction) == r
  {
    DigitsLength(r, width);
    ValueOfDigits(r);
    ValueOfPadStart(Digits(r), width);
  }

  lemma ParsePrintedParts(whole: seq<Digit>, fraction: seq<Digit>, c: Currency)
    requires whole != [] && |fraction| == Decimals(c)
    requires Value(whole) * Pow10(Decimals(c)) + Value(fraction) <= MAX_SAFE_INTEGER
    ensures ToMinorUnits(Print(whole) + "." + Print(fraction), c) ==
            Some(Value(whole) * Pow10(Decimals(c)) + Value(fraction))
  {
    hide Value, Pow10;
    PrintRead(whole);
    PrintRead(fraction);
    var s := Print(whole) + "." + Print(fraction);
    assert s[0] == Print(whole)[0];
    assert s[|s| - 1] == Print(fraction)[|fraction| - 1];
    TrimNumeral(s);
    SplitOfParts(Print(whole), Print(fraction));
  }

  /** Every representable amount survives printing and parsing. */
  lemma ParsePrinted(minor: nat, c: Currency)
    requires minor <= MAX_SAFE_INTEGER
    ensures ToMinorUnits(FromMinorUnits(minor, c).value, c) == Some(minor)
  {
    hide Value, Pow10, PadStart, ToMinorUnits, Quotient, Remainder;
    var width := Decimals(c);
    var factor := Pow10(width);
    var (q, r) := (Quotient(minor, factor), Remainder(minor, factor));
    FractionDigits(r, width);
    ValueOfDigits(q);
    Division(minor, factor);
    ParsePrintedParts(Digits(q), PadStart(Digits(r), width), c);
  }

  /** Whole part without leading zeros, then a point, then all decimals. */
  function Canonical(s: string, c: Currency): string
    requires WellFormed(s)
  {
    var p := SplitAtPoint(s);
    Print(StripZeros(Read(p.whole))) + "." + Print(PadEnd(Read(p.fraction), Decimals(c)))
  }

  lemma PrintParsedParts(whole: seq<Digit>, fraction: seq<Digit>, c: Currency)
    requires whole != [] && |fraction| == Decimals(c)
    ensures FromMinorUnits(Value(whole) * Pow10(Decimals(c)) + Value(fraction), c) ==
            Some(Print(StripZeros(whole)) + "." + Print(fraction))
  {
    hide Value, Pow10, Quotient, Remainder, Digits, PadStart, StripZeros;
    ValueBound(fraction);
    DivisionUnique(Value(whole), Value(fraction), Pow10(Decimals(c)));
    DigitsOfValue(whole);
    PadStartOfValue(fraction);
  }

  /** Printing a parsed string gives its canonical decimal form. */
  lemma PrintParsed(value: string, c: Currency)
    requires ToMinorUnits(value, c).Some?
    ensures FromMinorUnits(ToMinorUnits(value, c).value, c) == Some(Canonical(Trim(value), c))
  {
    hide Value, Pow10, FromMinorUnits, StripZeros;
    var p := SplitAtPoint(Trim(value));
    PrintParsedParts(Read(p.whole), PadEnd(Read(p.fraction), Decimals(c)), c);
  }

  /** Two strings parse to the same amount exactly when they have the same canonical form. */
  lemma SameAmountIffSameCanonical(v: string, w: string, c: Currency)
    requires ToMinorUnits(v, c).Some? && ToMinorUnits(w, c).Some?
    ensures ToMinorUnits(v, c) == ToMinorUnits(w, c) <==> Canonical(Trim(v), c) == Canonical(Trim(w), c)
  {
    PrintParsed(v, c);
    PrintParsed(w, c);
    ParsePrinted(ToMinorUnits(v, c).value, c);
    ParsePrinted(ToMinorUnits(w, c).value, c);
  }

  /** No rounding: the parsed amount is exactly the decimal number written, scaled by the currency. */
  lemma ParsedValueIsExact(value: string, c: Currency)
    requires ToMinorUnits(value, c).Some?
    ensures var p := SplitAtPoint(Trim(value));
            ToMinorUnits(value, c).value * Pow10(|p.fraction|) ==
            Value(Read(p.whole) + Read(p.fraction)) * Pow10(Decimals(c))
  {
    hide Value, Pow10, PadEnd;
    var p := SplitAtPoint(Trim(value));
    var (n, k) := (Decimals(c), |p.fraction|);
    var (whole, fraction) := (Read(p.whole), Read(p.fraction));
    ValueConcat(whole, fraction);
    ValueOfPadEnd(fraction, n);
    Pow10Add(k, n - k);
    Rearrange(Value(whole), Value(fraction), Pow10(n), Pow10(k), Pow10(n - k));
  }

  lemma ValueOfPadEnd(ds: seq<Digit>, width: nat)
    requires |ds| <= width
    ensures Value(PadEnd(ds, width)) == Value(ds) * Pow10(width - |ds|)
  {
    hide Value;
    ValueConcat(ds, Zeros(width - |ds|));
    ValueOfZeros(width - |ds|);
  }

  lemma {:induction false} Pow10Add(j: nat, k: nat)
    ensures Pow10(j + k) == Pow10(j) * Pow10(k)
  {
    if j != 0 {
      Pow10Add(j - 1, k);
      MulTen(Pow10(k), Pow10(j - 1));
    }
  }

  lemma Rearrange(w: nat, f: nat, pn: nat, pk: nat, pd: nat)
    requires pn == pk * pd
    ensures (w * pn + f * pd) * pk == (w * pk + f) * pn
  {
    assert (w * pn + f * pd) * pk == w * pn * pk + f * pd * pk;
    assert (w * pk + f) * pn == w * pk * pn + f * pn;
    assert f * pd * pk == f * (pk * pd);
    assert w * pn * pk == w * pk * pn;
  }
}
