/**
 A whole QR symbol: placing the codeword bits on the grid, masking them, and the
 companion decoder that reads them back (sections 7.7 and 7.8 of ISO/IEC
 18004:2015).  The mask is an arbitrary one of the eight, because the encoder's
 penalty score only chooses among them.
 */
module QrCode {
  import opened Sequences
  import opened QrBits
  import opened QrBlocks
  import opened QrLayout
  import opened QrCodewords

  type Mask = m: nat | m < 8

  function MaskFn(mask: Mask, x: Cell): bool
    requires x.r >= 0 && x.c >= 0
  {
    var (r, c) := (x.r, x.c);
    match mask
    case 0 => (r + c) % 2 == 0
    case 1 => r % 2 == 0
    case 2 => c % 3 == 0
    case 3 => (r + c) % 3 == 0
    case 4 => (r / 2 + c / 3) % 2 == 0
    case 5 => Times(r, c) % 2 + Times(r, c) % 3 == 0
    case 6 => (Times(r, c) % 2 + Times(r, c) % 3) % 2 == 0
    case _ => ((r + c) % 2 + Times(r, c) % 3) % 2 == 0
  }

  lemma ProductNat(r: nat, c: nat)
    ensures Times(r, c) >= 0
  {
  }

  lemma EvenPart(p: nat, e: nat)
    ensures (2 * p + e) % 2 == e % 2
  {
  }

  lemma TriplePart(p: nat, e: nat)
    ensures (3 * p + e) % 3 == e % 3
  {
  }

  lemma ResiduesOf(a: nat, b: nat, e: nat)
    requires e < 6 && a == e % 2 && b == e % 3
    ensures a + b == 0 <==> e == 0
    ensures (a + b) % 2 == 0 <==> e < 3
    ensures b == 1 <==> e == 1 || e == 4
  {
    assert e == 0 || e == 1 || e == 2 || e == 3 || e == 4 || e == 5;
  }

  lemma Residues(k: nat)
    ensures k % 2 + k % 3 == 0 <==> k % 6 == 0
    ensures (k % 2 + k % 3) % 2 == 0 <==> k % 6 < 3
    ensures k % 3 == 1 <==> k % 6 == 1 || k % 6 == 4
  {
    EvenPart(3 * (k / 6), k % 6);
    TriplePart(2 * (k / 6), k % 6);
    assert k == 6 * (k / 6) + k % 6;
    ResiduesOf(k % 2, k % 3, k % 6);
  }

  lemma Halves(k: nat)
    ensures k / 2 % 2 == 0 <==> k % 4 < 2
  {
    var (q, e) := (k / 4, k % 4);
    assert k / 2 == 2 * q + e / 2;
  }

  lemma Thirds(k: nat)
    ensures k / 3 % 2 == 0 <==> k % 6 < 3
  {
    var (q, e) := (k / 6, k % 6);
    assert k / 3 == 2 * q + e / 3;
  }

  lemma SameParity(a: nat, b: nat)
    ensures (a + b) % 2 == 0 <==> a % 2 == b % 2
  {
  }

  lemma SumModuloThree(a: nat, b: nat)
    ensures (a + b) % 3 == 0 <==> (a % 3, b % 3) in {(0, 0), (1, 2), (2, 1)}
  {
  }

  /** The simple masks by residues: a chessboard, stripes, diagonals, and blocks of two by three. */
  lemma MaskStripes(x: Cell)
    requires x.r >= 0 && x.c >= 0
    ensures MaskFn(0, x) <==> x.r % 2 == x.c % 2
    ensures MaskFn(1, x) <==> x.r % 2 == 0
    ensures MaskFn(2, x) <==> x.c % 3 == 0
    ensures MaskFn(3, x) <==> (x.r % 3, x.c % 3) in {(0, 0), (1, 2), (2, 1)}
    ensures MaskFn(4, x) <==> (x.r % 4 < 2 <==> x.c % 6 < 3)
  {
    hide Times;
    Halves(x.r);
    Thirds(x.c);
    SameParity(x.r, x.c);
    SumModuloThree(x.r, x.c);
    assert MaskFn(4, x) <==> (x.r / 2 % 2 == x.c / 3 % 2) by { SameParity(x.r / 2, x.c / 3); }
  }

  /** The others by the product of row and column modulo 6. */
  lemma MaskProducts(x: Cell)
    requires x.r >= 0 && x.c >= 0
    ensures var k := Times(x.r, x.c) % 6;
            && (MaskFn(5, x) <==> k == 0)
            && (MaskFn(6, x) <==> k < 3)
            && (MaskFn(7, x) <==> ((x.r + x.c) % 2 == 1 <==> k == 1 || k == 4))
  {
    ProductNat(x.r, x.c);
    hide Times;
    Residues(Times(x.r, x.c));
    SameParity(x.r + x.c, Times(x.r, x.c) % 3);
  }

  // ---- the bits of a symbol, in placement order

  /** Every data cell has a place for the whole codeword stream. */
  lemma CodewordsFitCells(v: Version)
    ensures TotalCodewords(v) * 8 <= |DataCells(v)|
  {
    hide DataCells;
    DataCellCount(v);
    assert v == 1 || v == 2 || v == 3 || v == 4 || v == 5 || v == 6 || v == 7 || v == 8 || v == 9 || v == 10;
  }

  /** The bit for each data cell: the codeword stream, then light cells. */
  ghost function SymbolBits(text: seq<Code>, v: Version): (bs: Bits)
    requires Fits(text, v)
    ensures |bs| == |DataCells(v)|
  {
    var stream := BytesToBits(Codewords(text, v));
    seq(|DataCells(v)|, k requires 0 <= k < |DataCells(v)| => BitAt(stream, k))
  }

  /** The text read from the bits of the data cells. */
  function DecodeBits(bs: Bits, v: Version): seq<Code> {
    ReadCodewords(BitsToBytes(bs[..|bs| / 8 * 8]), v)
  }

  lemma FirstEight(bs: Bits)
    requires |bs| % 8 == 0 && bs != []
    ensures BitsToBytes(bs) == BitsToBytes(bs[..8]) + BitsToBytes(bs[8..])
  {
    assert bs[..8][..8] == bs[..8] && bs[..8][8..] == [];
  }

  lemma SplitEight(a: Bits, b: Bits)
    requires |a| >= 8
    ensures (a + b)[..8] == a[..8] && (a + b)[8..] == a[8..] + b
  {
  }

  lemma {:induction false} BitsToBytesConcat(a: Bits, b: Bits)
    requires |a| % 8 == 0 && |b| % 8 == 0
    ensures BitsToBytes(a + b) == BitsToBytes(a) + BitsToBytes(b)
  {
    if a == [] {
      assert a + b == b;
    } else {
      hide BitsToBytes;
      BitsToBytesConcat(a[8..], b);
      FirstEight(a);
      FirstEight(a + b);
      SplitEight(a, b);
      Concat(BitsToBytes(a[..8]), BitsToBytes(a[8..]), BitsToBytes(b));
    }
  }

  /** Decoding the bits of a symbol gives back its text. */
  lemma DecodeSymbolBits(text: seq<Code>, v: Version)
    requires Fits(text, v)
    ensures DecodeBits(SymbolBits(text, v), v) == text
  {
    hide DataCells, Fits, Codewords, ReadCodewords, TotalCodewords, BytesToBits, BitsToBytes;
    var codes := Codewords(text, v);
    var stream := BytesToBits(codes);
    CodewordsLength(text, v);
    CodewordsFitCells(v);
    var bs := SymbolBits(text, v);
    var n := |bs| / 8 * 8;
    var tail := bs[|stream|..n];
    assert bs[..n] == stream + tail by {
      forall k | 0 <= k < |stream|
        ensures bs[k] == stream[k]
      {
      }
    }
    BitsToBytesConcat(stream, tail);
    BitsOfBytes(codes);
    ReadBuilt(text, v, BitsToBytes(tail));
  }

  lemma LightBeyond(j: nat)
    requires j < 8
    ensures 0 / Weight(j) == 0
  {
  }

  /** The data cells carry the codewords, most significant bit first, and are light beyond them. */
  lemma SymbolBitsAre(text: seq<Code>, v: Version, k: nat)
    requires Fits(text, v) && k < |DataCells(v)|
    ensures SymbolBits(text, v)[k] == (CodeAt(Codewords(text, v), k / 8) / Weight(k % 8) % 2 == 1)
  {
    hide DataCells, Fits, Codewords, BytesToBits, Weight;
    LightBeyond(k % 8);
    if k < 8 * |Codewords(text, v)| {
      BitOfCodes(Codewords(text, v), k / 8, k % 8);
    }
  }

  /** No two texts of one version share a symbol. */
  lemma SymbolsDistinct(text: seq<Code>, other: seq<Code>, v: Version)
    requires Fits(text, v) && Fits(other, v) && SymbolBits(text, v) == SymbolBits(other, v)
    ensures text == other
  {
    hide Fits, SymbolBits, DecodeBits;
    DecodeSymbolBits(text, v);
    DecodeSymbolBits(other, v);
  }
}
