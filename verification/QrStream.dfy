/**
 What a symbol's bit stream looks like, place by place: the header, the digits and
 bytes of the text, the padding, and where the codewords of each block lie.
 */
module QrStream {
  import opened Decimal
  import opened QrBits
  import opened QrBlocks
  import opened QrCodewords
  import opened QrCapacity
  import ReedSolomon

  // ---- the text's own bits

  lemma AnyTextIsDigits(ds: seq<Digit>)
    ensures AllDigits(TextOf(ds))
  {
  }

  /** Numeric mode is for the texts that are digits, and for no others. */
  lemma DigitsAreNumeric(text: seq<Code>)
    ensures DetectMode(text) == Numeric <==> exists ds: seq<Digit> :: TextOf(ds) == text
  {
    if AllDigits(text) {
      assert TextOf(DigitsOf(text)) == text;
    } else {
      forall ds: seq<Digit>
        ensures TextOf(ds) != text
      {
        AnyTextIsDigits(ds);
      }
    }
  }

  /** A numeric text starts with 0001 and any other with 0100; then comes its length. */
  lemma HeaderBits(text: seq<Code>, v: Version)
    requires Fits(text, v)
    ensures var width := if AllDigits(text) then (if v < 10 then 10 else 12) else (if v < 10 then 8 else 16);
            var bs := DataBits(text, v);
            && |bs| >= 4 + width
            && bs[..4] == (if AllDigits(text) then [false, false, false, true] else [false, true, false, false])
            && FromBits(bs[4..4 + width]) == |text|
            && bs[4 + width..] == PayloadBits(text)
  {
    hide ToBits, Pow2, PayloadBits, Fits;
    var mode := DetectMode(text);
    var width := CountBits(mode, v);
    CountFits(text, v);
    FromToBits(|text|, width);
    FourBits();
    var bs := DataBits(text, v);
    assert bs[..4] == ToBits(ModeIndicator(mode), 4);
    assert bs[4..4 + width] == ToBits(|text|, width);
    assert bs[4 + width..] == PayloadBits(text);
  }

  lemma FourBits()
    ensures ToBits(1, 4) == [false, false, false, true] && ToBits(4, 4) == [false, true, false, false]
  {
    assert ToBits(1, 1) == [true] && ToBits(0, 0) == [] && ToBits(0, 1) == [false];
    assert ToBits(0, 2) == [false, false] && ToBits(0, 3) == [false, false, false];
    assert ToBits(2, 3) == [false, true, false];
  }

  function Number(ds: seq<Digit>, i: nat): int
    requires i < |ds|
  {
    ds[i]
  }

  lemma {:induction false} SkipGroups(ds: seq<Digit>, g: nat)
    requires 3 * g < |ds|
    ensures 10 * g <= |NumericBits(ds)| && NumericBits(ds)[10 * g..] == NumericBits(ds[3 * g..])
    decreases g
  {
    hide ToBits, Value;
    if g == 0 {
      assert ds[0..] == ds;
    } else {
      SkipGroups(ds[3..], g - 1);
      assert ds[3..][3 * g - 3..] == ds[3 * g..];
      assert NumericBits(ds)[10..] == NumericBits(ds[3..]);
      assert NumericBits(ds)[10 * g..] == NumericBits(ds)[10..][10 * g - 10..];
    }
  }

  /** Digits are packed three to ten bits; what remains takes seven bits for two and four for one. */
  lemma BitsOfDigits(ds: seq<Digit>, g: nat)
    requires 3 * g < |ds|
    ensures 10 * g <= |NumericBits(ds)|
    ensures var bs := NumericBits(ds)[10 * g..];
            if |ds| - 3 * g >= 3 then
              |bs| >= 10 && FromBits(bs[..10]) == 100 * Number(ds, 3 * g) + 10 * Number(ds, 3 * g + 1) + Number(ds, 3 * g + 2)
            else if |ds| - 3 * g == 2 then |bs| == 7 && FromBits(bs) == 10 * Number(ds, 3 * g) + Number(ds, 3 * g + 1)
            else |bs| == 4 && FromBits(bs) == Number(ds, 3 * g)
  {
    hide FromBits, NumericBits;
    SkipGroups(ds, g);
    FirstGroup(ds[3 * g..]);
  }

  lemma FirstGroup(ds: seq<Digit>)
    requires ds != []
    ensures var bs := NumericBits(ds);
            if |ds| >= 3 then |bs| >= 10 && FromBits(bs[..10]) == 100 * Number(ds, 0) + 10 * Number(ds, 1) + ds[2]
            else if |ds| == 2 then |bs| == 7 && FromBits(bs) == 10 * Number(ds, 0) + ds[1]
            else |bs| == 4 && FromBits(bs) == ds[0]
  {
    hide ToBits, FromBits, Value, Pow2, Pow10;
    PowersOfTwo();
    PowersOfTen();
    var n := if |ds| < 3 then |ds| else 3;
    GroupValue(ds[..n]);
    ValueBound(ds[..n]);
    FromToBits(Value(ds[..n]), GroupBits(n));
    assert |ds| <= 3 ==> ds[..n] == ds;
    assert NumericBits(ds)[..GroupBits(n)] == ToBits(Value(ds[..n]), GroupBits(n));
  }

  lemma GroupValue(ds: seq<Digit>)
    requires 1 <= |ds| <= 3
    ensures Value(ds) == if |ds| == 3 then 100 * Number(ds, 0) + 10 * Number(ds, 1) + ds[2] else if |ds| == 2 then 10 * Number(ds, 0) + ds[1] else ds[0]
  {
    assert ds[..1] == [ds[0]] && Value(ds[..1]) == ds[0];
    if |ds| > 1 {
      assert ds[..2][..1] == ds[..1];
      assert Value(ds[..2]) == 10 * Number(ds, 0) + ds[1];
    }
    if |ds| == 3 {
      assert ds[..3] == ds && ds[..3][..2] == ds[..2];
    } else if |ds| == 2 {
      assert ds[..2] == ds;
    } else {
      assert ds[..1] == ds;
    }
  }

  // ---- padding

  /** Codewords that hold the text's bits and their terminator. */
  function UsedCodewords(text: seq<Code>, v: Version): nat {
    var n := (|DataBits(text, v)| + 4 + 7) / 8;
    if n < TotalData(v) then n else TotalData(v)
  }

  /** After the text come zeros up to a whole codeword, and then 0xEC and 0x11 in turn. */
  lemma PaddingIs(text: seq<Code>, v: Version)
    requires Fits(text, v)
    ensures var n := UsedCodewords(text, v);
            var codes := DataCodewords(text, v);
            && |DataBits(text, v)| <= 8 * n <= 8 * |codes|
            && (forall k :: |DataBits(text, v)| <= k < 8 * n ==> !BytesToBits(codes)[k])
            && (forall k :: n <= k < |codes| ==> codes[k] == if (k - n) % 2 == 0 then 0xec else 0x11)
  {
    hide EcM, TotalData, DataBits, Need, BitsToBytes, BytesToBits;
    NeedIsLength(text, v);
    DataCodewordsFill(text, v);
    var padded := Terminated(DataBits(text, v), TotalData(v) * 8);
    BytesOfBits(padded);
    var codes := BitsToBytes(padded);
    var pads := Pads(TotalData(v) - |codes|);
    BytesToBitsConcat(codes, pads);
  }

  // ---- where the codewords of each block lie

  /** From block `k` on the blocks have a codeword `i`, and before that none has. */
  lemma {:induction false} RoundFrom(sizes: seq<nat>, i: nat, k: nat)
    requires forall b :: 0 <= b < |sizes| ==> (i < sizes[b] <==> k <= b)
    ensures RoundLength(sizes, i) == if |sizes| < k then 0 else |sizes| - k
  {
    if sizes != [] {
      RoundFrom(sizes[..|sizes| - 1], i, k);
    }
  }

  lemma {:induction false} RoundsFull(sizes: seq<nat>, i: nat)
    requires forall b :: 0 <= b < |sizes| ==> i <= sizes[b]
    ensures RoundStart(sizes, i) == Product(i, |sizes|)
  {
    hide RoundLength, Product;
    if i == 0 {
      assert Product(0, |sizes|) == 0 by { ProductStep(1, |sizes|); }
    } else {
      RoundsFull(sizes, i - 1);
      RoundFrom(sizes, i - 1, 0);
      ProductStep(i, |sizes|);
    }
  }

  /** The codewords that every block has go round by round; those that only the longer ones have come last. */
  function DataPlace(v: Version, b: nat, i: nat): int
    requires BlockCount(v) > 0
  {
    Product(i, BlockCount(v)) + b - if i < Shared(v) then 0 else BlockCount(v) - Longer(v)
  }

  function EcPlace(v: Version, b: nat, i: nat): nat {
    TotalData(v) + Product(i, BlockCount(v)) + b
  }

  lemma DataPosition(v: Version, b: nat, i: nat)
    requires b < |BlockSizes(v)| && i < BlockSizes(v)[b]
    ensures BlockCount(v) > 0 && Position(BlockSizes(v), b, i) == DataPlace(v, b, i)
  {
    hide EcM, TotalData, Product, RoundLength, RoundStart, BlockSizes, BlockCount, Shared, Longer;
    BlocksAreEven(v);
    var sizes := BlockSizes(v);
    var k := BlockCount(v) - Longer(v);
    var row := sizes[..b];
    LongerFew(v);
    RoundsFull(sizes, i);
    RoundFrom(row, i, if i < Shared(v) then 0 else k);
  }

  lemma LongerFew(v: Version)
    requires BlockCount(v) > 0
    ensures Longer(v) < BlockCount(v)
  {
  }

  lemma EcPosition(n: nat, ec: nat, b: nat, i: nat)
    requires b < n && i < ec
    ensures Position(Repeat(n, ec), b, i) == Product(i, n) + b
  {
    hide RoundLength, RoundStart, Product;
    var sizes := Repeat(n, ec);
    RoundsFull(sizes, i);
    RoundFrom(sizes[..b], i, 0);
  }

  /** Each codeword of each block lies at its place in the stream. */
  lemma DataAt(text: seq<Code>, v: Version, b: nat, i: nat)
    requires Fits(text, v) && b < |DataBlocks(text, v)| && i < |DataBlocks(text, v)[b]|
    ensures BlockCount(v) > 0
    ensures 0 <= DataPlace(v, b, i) < |Codewords(text, v)|
    ensures Codewords(text, v)[DataPlace(v, b, i)] == DataBlocks(text, v)[b][i]
  {
    hide Fits, DataBlocks, EcBlocks, EcM, TotalData, Interleave, Position, DataPlace, BlockSizes, BlockCount;
    var blocks := DataBlocks(text, v);
    DataBlocksShape(text, v);
    assert Sizes(blocks)[b] == |blocks[b]|;
    DataPosition(v, b, i);
    InterleaveAt(blocks, MaxData(v), b, i);
  }

  lemma EcAt(text: seq<Code>, v: Version, b: nat, i: nat)
    requires Fits(text, v) && b < |DataBlocks(text, v)| && i < EcM(v).ec
    ensures EcPlace(v, b, i) < |Codewords(text, v)|
    ensures Codewords(text, v)[EcPlace(v, b, i)] == EcBlock(DataBlocks(text, v)[b], EcM(v).ec)[i]
  {
    hide Fits, DataBlocks, EcBlock, EcM, Interleave, Position, BlockSizes, BlockCount, MaxData;
    var blocks := DataBlocks(text, v);
    var ec := EcM(v).ec;
    var ecBlocks := EcBlocks(blocks, ec);
    DataBlocksShape(text, v);
    InterleaveTotal(blocks, MaxData(v));
    BlockSizesTotal(v);
    BlocksAreEven(v);
    assert Sizes(ecBlocks) == Repeat(|blocks|, ec);
    EcPosition(|blocks|, ec, b, i);
    InterleaveAt(ecBlocks, ec, b, i);
  }

  /** The codewords of block `b` as a scanner collects them, data first. */
  ghost function Collected(stream: seq<Code>, v: Version, b: nat): (word: Block)
    requires b < |BlockSizes(v)|
  {
    BlocksAreEven(v);
    seq(BlockSizes(v)[b], i requires 0 <= i => At(stream, DataPlace(v, b, i))) +
    seq(EcM(v).ec, i requires 0 <= i => At(stream, EcPlace(v, b, i)))
  }

  function At(stream: seq<Code>, k: int): Code {
    if 0 <= k < |stream| then stream[k] else 0
  }

  /** Every block that a scanner collects has only zero syndromes, at level M's number of roots. */
  lemma CollectedIsProtected(text: seq<Code>, v: Version, b: nat)
    requires Fits(text, v) && b < |BlockSizes(v)|
    ensures ReedSolomon.ZeroSyndromes(ToField(Collected(Codewords(text, v), v, b)), EcM(v).ec)
  {
    hide Fits, DataBlocks, EcM, BlockSizes, DataPlace, EcPlace, Codewords, ReedSolomon.ZeroSyndromes, ReedSolomon.Encode, BlockCount;
    DataBlocksShape(text, v);
    BlocksAreEven(v);
    var block := DataBlocks(text, v)[b];
    var ec := EcM(v).ec;
    assert Sizes(DataBlocks(text, v))[b] == |block|;
    forall i | 0 <= i < |block|
      ensures At(Codewords(text, v), DataPlace(v, b, i)) == block[i]
    {
      DataAt(text, v, b, i);
    }
    forall i | 0 <= i < ec
      ensures At(Codewords(text, v), EcPlace(v, b, i)) == EcBlock(block, ec)[i]
    {
      EcAt(text, v, b, i);
    }
    assert Collected(Codewords(text, v), v, b) == block + EcBlock(block, ec);
    var parity := ReedSolomon.Encode(ToField(block), ec);
    FieldRoundTrip(parity);
    assert ToField(block + EcBlock(block, ec)) == ToField(block) + parity;
    ReedSolomon.EncodeHasZeroSyndromes(ToField(block), ec);
  }
}
