/**
 The bit stream of a QR symbol: mode, character count, payload and padding, and
 the decoder's reading of it (section 7.4 of ISO/IEC 18004:2015).  Text is its
 UTF-8 byte sequence.
 */
module QrBits {
  import opened Decimal

  type Code = x: int | 0 <= x < 256
  type Bits = seq<bool>

  // ---- fixed-width binary numbers, most significant bit first

  function Pow2(n: nat): (p: nat)
    ensures p > 0
  {
    if n == 0 then 1 else 2 * Pow2(n - 1)
  }

  /** The `n` low bits of `v`. */
  function ToBits(v: nat, n: nat): (bs: Bits)
    ensures |bs| == n
  {
    if n == 0 then [] else ToBits(v / 2, n - 1) + [v % 2 == 1]
  }

  function FromBits(bs: Bits): nat {
    if bs == [] then 0 else 2 * FromBits(bs[..|bs| - 1]) + (if bs[|bs| - 1] then 1 else 0)
  }

  lemma {:induction false} FromToBits(v: nat, n: nat)
    requires v < Pow2(n)
    ensures FromBits(ToBits(v, n)) == v
  {
    if n != 0 {
      FromToBits(v / 2, n - 1);
      assert ToBits(v, n)[..n - 1] == ToBits(v / 2, n - 1);
    }
  }

  lemma {:induction false} ToFromBits(bs: Bits)
    ensures FromBits(bs) < Pow2(|bs|) && ToBits(FromBits(bs), |bs|) == bs
  {
    if bs != [] {
      var n := |bs| - 1;
      ToFromBits(bs[..n]);
      assert bs == bs[..n] + [bs[n]];
    }
  }

  /** The shift `v >>> k`. */
  function ShiftRight(v: nat, k: nat): nat {
    if k == 0 then v else ShiftRight(v, k - 1) / 2
  }

  lemma {:induction false} BitOfNumber(x: nat, n: nat, j: nat)
    requires j < n
    ensures ToBits(x, n)[j] == (ShiftRight(x, n - 1 - j) % 2 == 1)
  {
    if j < n - 1 {
      BitOfNumber(x / 2, n - 1, j);
      ShiftHalf(x, n - 2 - j);
    }
  }

  lemma {:induction false} ShiftHalf(x: nat, k: nat)
    ensures ShiftRight(x / 2, k) == ShiftRight(x, k + 1)
  {
    if k != 0 {
      ShiftHalf(x, k - 1);
    }
  }

  class BitBuffer {
    var bits: Bits

    constructor ()
      ensures bits == []
    {
      bits := [];
    }

    /** Appends the `length` low bits of `value`, most significant first. */
    method Put(value: nat, length: nat)
      modifies this
      ensures bits == old(bits) + ToBits(value, length)
    {
      var i: nat := length;
      assert bits + [] == bits;
      while i > 0
        invariant i <= length
        invariant bits == old(bits) + ToBits(ShiftRight(value, i), length - i)
      {
        i := i - 1;
        assert ToBits(ShiftRight(value, i), length - i) ==
               ToBits(ShiftRight(value, i + 1), length - i - 1) + [ShiftRight(value, i) % 2 == 1];
        bits := bits + [ShiftRight(value, i) % 2 == 1];
      }
    }
  }

  // ---- bits and bytes

  function BytesToBits(codes: seq<Code>): (bs: Bits)
    ensures |bs| == 8 * |codes|
  {
    if codes == [] then [] else ToBits(codes[0], 8) + BytesToBits(codes[1..])
  }

  function BitsToBytes(bs: Bits): (codes: seq<Code>)
    requires |bs| % 8 == 0
    ensures 8 * |codes| == |bs|
  {
    if bs == [] then [] else
      ToFromBits(bs[..8]);
      [FromBits(bs[..8])] + BitsToBytes(bs[8..])
  }

  lemma {:induction false} BytesOfBits(bs: Bits)
    requires |bs| % 8 == 0
    ensures BytesToBits(BitsToBytes(bs)) == bs
  {
    if bs != [] {
      BytesOfBits(bs[8..]);
      ToFromBits(bs[..8]);
      assert bs == bs[..8] + bs[8..];
    }
  }

  lemma {:induction false} BitsOfBytes(codes: seq<Code>)
    ensures BitsToBytes(BytesToBits(codes)) == codes
  {
    if codes != [] {
      var bs := BytesToBits(codes);
      BitsOfBytes(codes[1..]);
      assert bs[..8] == ToBits(codes[0], 8) && bs[8..] == BytesToBits(codes[1..]);
      assert Pow2(8) == 256;
      FromToBits(codes[0], 8);
    }
  }

  lemma {:induction false} BytesToBitsConcat(a: seq<Code>, b: seq<Code>)
    ensures BytesToBits(a + b) == BytesToBits(a) + BytesToBits(b)
  {
    if a == [] {
      assert a + b == b;
    } else {
      BytesToBitsConcat(a[1..], b);
      assert (a + b)[1..] == a[1..] + b;
    }
  }

  /** The value of bit `j` of a codeword, counted from the most significant. */
  function Weight(j: nat): (w: nat)
    requires j < 8
    ensures w > 0
  {
    [128, 64, 32, 16, 8, 4, 2, 1][j]
  }

  lemma ShiftWeight(x: nat, j: nat)
    requires j < 8
    ensures ShiftRight(x, 7 - j) == x / Weight(j)
  {
    assert ShiftRight(x, 1) == x / 2;
    assert ShiftRight(x, 2) == x / 4;
    assert ShiftRight(x, 3) == x / 8;
    assert ShiftRight(x, 4) == x / 16;
    assert ShiftRight(x, 5) == x / 32;
    assert ShiftRight(x, 6) == x / 64;
    assert ShiftRight(x, 7) == x / 128;
  }

  /** Codewords are laid out one after the other, most significant bit first. */
  lemma {:induction false} BitOfCodes(codes: seq<Code>, i: nat, j: nat)
    requires i < |codes| && j < 8
    ensures BytesToBits(codes)[8 * i + j] == (codes[i] / Weight(j) % 2 == 1)
  {
    hide ToBits, ShiftRight, Weight;
    if i == 0 {
      BitOfNumber(codes[0], 8, j);
      ShiftWeight(codes[0], j);
    } else {
      BitOfCodes(codes[1..], i - 1, j);
    }
  }

  // ---- encoding

  datatype Mode = Numeric | ByteMode

  predicate IsDigit(c: Code) {
    48 <= c <= 57
  }

  predicate AllDigits(text: seq<Code>) {
    forall i :: 0 <= i < |text| ==> IsDigit(text[i])
  }

  function DetectMode(text: seq<Code>): Mode {
    if AllDigits(text) then Numeric else ByteMode
  }

  function ModeIndicator(mode: Mode): nat {
    if mode == Numeric then 1 else 4
  }

  /** Length of the character count, by mode and version group. */
  function CountBits(mode: Mode, version: nat): nat {
    if version <= 9 then (if mode == Numeric then 10 else 8)
    else (if mode == Numeric then 12 else 16)
  }

  function DigitsOf(text: seq<Code>): (ds: seq<Digit>)
    requires AllDigits(text)
    ensures |ds| == |text|
  {
    seq(|text|, i requires 0 <= i < |text| => text[i] - 48)
  }

  function TextOf(ds: seq<Digit>): (text: seq<Code>)
    ensures |text| == |ds|
  {
    seq(|ds|, i requires 0 <= i < |ds| => var d: int := ds[i]; d + 48)
  }

  /** Bits for a group of one, two or three digits. */
  function GroupBits(n: nat): nat {
    if n >= 3 then 10 else if n == 2 then 7 else if n == 1 then 4 else 0
  }

  function NumericBits(ds: seq<Digit>): Bits {
    if ds == [] then []
    else if |ds| <= 3 then ToBits(Value(ds), GroupBits(|ds|))
    else ToBits(Value(ds[..3]), 10) + NumericBits(ds[3..])
  }

  function PayloadBits(text: seq<Code>): Bits {
    if AllDigits(text) then NumericBits(DigitsOf(text)) else BytesToBits(text)
  }

  /** Mode indicator, character count and payload. */
  function DataBits(text: seq<Code>, version: nat): Bits {
    var mode := DetectMode(text);
    ToBits(ModeIndicator(mode), 4) + ToBits(|text|, CountBits(mode, version)) + PayloadBits(text)
  }

  /** The encoder's size formula. */
  function Need(text: seq<Code>, version: nat): nat {
    var mode := DetectMode(text);
    4 + CountBits(mode, version) +
    (if mode == Numeric then |text| / 3 * 10 + [0, 4, 7][|text| % 3] else |text| * 8)
  }

  lemma {:induction false} NumericBitsLength(ds: seq<Digit>)
    ensures |NumericBits(ds)| == |ds| / 3 * 10 + [0, 4, 7][|ds| % 3]
  {
    if |ds| > 3 {
      NumericBitsLength(ds[3..]);
    }
  }

  /** The size formula is exactly the number of bits emitted. */
  lemma NeedIsLength(text: seq<Code>, version: nat)
    ensures |DataBits(text, version)| == Need(text, version)
  {
    if AllDigits(text) {
      NumericBitsLength(DigitsOf(text));
    }
  }

  // ---- decoding

  /** Bit `p` of the stream; reading past the end yields 0. */
  function BitAt(bs: Bits, p: nat): bool {
    p < |bs| && bs[p]
  }

  function Window(bs: Bits, p: nat, n: nat): (w: Bits)
    ensures |w| == n
  {
    seq(n, i requires 0 <= i < n => BitAt(bs, p + i))
  }

  function Take(bs: Bits, p: nat, n: nat): nat {
    FromBits(Window(bs, p, n))
  }

  function ReadNumeric(bs: Bits, p: nat, count: nat): seq<Digit>
    decreases count
  {
    if count >= 3 then PadStart(Digits(Take(bs, p, 10)), 3) + ReadNumeric(bs, p + 10, count - 3)
    else if count == 2 then PadStart(Digits(Take(bs, p, 7)), 2)
    else if count == 1 then Digits(Take(bs, p, 4))
    else []
  }

  lemma TakeByte(bs: Bits, p: nat)
    ensures Take(bs, p, 8) < 256
  {
    ToFromBits(Window(bs, p, 8));
    PowersOfTwo();
  }

  function ReadBytes(bs: Bits, p: nat, count: nat): seq<Code>
    decreases count
  {
    if count == 0 then [] else
      TakeByte(bs, p);
      [Take(bs, p, 8)] + ReadBytes(bs, p + 8, count - 1)
  }

  /** The text a data bit stream decodes to. */
  function ReadText(bs: Bits, version: nat): seq<Code> {
    var mode := if Take(bs, 0, 4) == 1 then Numeric else ByteMode;
    var count := Take(bs, 4, CountBits(mode, version));
    var p := 4 + CountBits(mode, version);
    if mode == Numeric then TextOf(ReadNumeric(bs, p, count)) else ReadBytes(bs, p, count)
  }

  // ---- the reader inverts the writer

  /** `part` is in the stream at position `p`. */
  ghost predicate Holds(bs: Bits, p: nat, part: Bits) {
    p + |part| <= |bs| && bs[p..p + |part|] == part
  }

  lemma WindowIsSlice(bs: Bits, p: nat, n: nat)
    requires p + n <= |bs|
    ensures Window(bs, p, n) == bs[p..p + n]
  {
    var (w, slice) := (Window(bs, p, n), bs[p..p + n]);
    forall i | 0 <= i < n
      ensures w[i] == slice[i]
    {
      assert slice[i] == bs[p + i];
    }
  }

  lemma TakeHeld(bs: Bits, p: nat, v: nat, n: nat)
    requires Holds(bs, p, ToBits(v, n)) && v < Pow2(n)
    ensures Take(bs, p, n) == v
  {
    FromToBits(v, n);
    WindowIsSlice(bs, p, n);
  }

  lemma HoldsSplit(bs: Bits, p: nat, a: Bits, b: Bits)
    requires Holds(bs, p, a + b)
    ensures Holds(bs, p, a) && Holds(bs, p + |a|, b)
  {
    var part := bs[p..p + |a| + |b|];
    assert bs[p..p + |a|] == part[..|a|] == a;
    assert bs[p + |a|..p + |a| + |b|] == part[|a|..] == b;
  }

  lemma PowersOfTwo()
    ensures Pow2(4) == 16 && Pow2(7) == 128 && Pow2(8) == 256 && Pow2(10) == 1024
  {
  }

  lemma PowersOfTen()
    ensures Pow10(1) == 10 && Pow10(2) == 100 && Pow10(3) == 1000
  {
  }

  lemma GroupRoundTrip(bs: Bits, p: nat, ds: seq<Digit>)
    requires 1 <= |ds| <= 3 && Holds(bs, p, ToBits(Value(ds), GroupBits(|ds|)))
    ensures PadStart(Digits(Take(bs, p, GroupBits(|ds|))), |ds|) == ds
  {
    hide Value, Digits, PadStart, Pow2, Pow10, Take, ToBits, Holds;
    ValueBound(ds);
    PowersOfTwo();
    PowersOfTen();
    TakeHeld(bs, p, Value(ds), GroupBits(|ds|));
    PadStartOfValue(ds);
  }

  lemma {:induction false} ReadNumericWritten(bs: Bits, p: nat, ds: seq<Digit>)
    requires Holds(bs, p, NumericBits(ds))
    ensures ReadNumeric(bs, p, |ds|) == ds
    decreases |ds|
  {
    if |ds| > 3 {
      HoldsSplit(bs, p, ToBits(Value(ds[..3]), 10), NumericBits(ds[3..]));
      GroupRoundTrip(bs, p, ds[..3]);
      ReadNumericWritten(bs, p + 10, ds[3..]);
      assert ds == ds[..3] + ds[3..];
    } else if ds != [] {
      GroupRoundTrip(bs, p, ds);
      assert |ds| == 3 ==> ds + [] == ds;
    }
  }

  lemma {:induction false} ReadBytesWritten(bs: Bits, p: nat, text: seq<Code>)
    requires Holds(bs, p, BytesToBits(text))
    ensures ReadBytes(bs, p, |text|) == text
    decreases |text|
  {
    if text != [] {
      HoldsSplit(bs, p, ToBits(text[0], 8), BytesToBits(text[1..]));
      assert Pow2(8) == 256;
      TakeHeld(bs, p, text[0], 8);
      ReadBytesWritten(bs, p + 8, text[1..]);
    }
  }

  lemma ReadPayload(bs: Bits, p: nat, text: seq<Code>)
    requires Holds(bs, p, PayloadBits(text))
    ensures AllDigits(text) ==> TextOf(ReadNumeric(bs, p, |text|)) == text
    ensures !AllDigits(text) ==> ReadBytes(bs, p, |text|) == text
  {
    hide ReadNumeric, ReadBytes, NumericBits, BytesToBits;
    if AllDigits(text) {
      ReadNumericWritten(bs, p, DigitsOf(text));
      assert TextOf(DigitsOf(text)) == text;
    } else {
      ReadBytesWritten(bs, p, text);
    }
  }

  /** Whatever follows the data bits, the reader recovers the text. */
  lemma ReadWritten(bs: Bits, text: seq<Code>, version: nat)
    requires Holds(bs, 0, DataBits(text, version))
    requires |text| < Pow2(CountBits(DetectMode(text), version))
    ensures ReadText(bs, version) == text
  {
    hide Pow2, Take, ToBits, Holds, PayloadBits, ReadNumeric, ReadBytes;
    var mode := DetectMode(text);
    var (m, n) := (ModeIndicator(mode), CountBits(mode, version));
    HoldsSplit(bs, 0, ToBits(m, 4) + ToBits(|text|, n), PayloadBits(text));
    HoldsSplit(bs, 0, ToBits(m, 4), ToBits(|text|, n));
    PowersOfTwo();
    TakeHeld(bs, 0, m, 4);
    TakeHeld(bs, 4, |text|, n);
    ReadPayload(bs, 4 + n, text);
  }
}
