/**
 The codeword stream of a QR symbol at error-correction level M, versions 1 to 10:
 version choice, padding to capacity, error correction per block and interleaving
 (sections 7.4 to 7.6 of ISO/IEC 18004:2015).
 */
module QrCodewords {
  import opened Wrappers
  import opened QrBits
  import opened QrBlocks
  import QrLayout
  import Gf256
  import ReedSolomon

  const MAX_VERSION: nat := 10

  type Version = QrLayout.Version

  /** Error-correction codewords per block, and two groups of equally long data blocks. */
  datatype BlockSpec = BlockSpec(ec: nat, blocks1: nat, data1: nat, blocks2: nat, data2: nat)

  function EcM(v: Version): (s: BlockSpec)
    ensures 0 < s.ec <= 26
  {
    match v
    case 1 => BlockSpec(10, 1, 16, 0, 0)
    case 2 => BlockSpec(16, 1, 28, 0, 0)
    case 3 => BlockSpec(26, 1, 44, 0, 0)
    case 4 => BlockSpec(18, 2, 32, 0, 0)
    case 5 => BlockSpec(24, 2, 43, 0, 0)
    case 6 => BlockSpec(16, 4, 27, 0, 0)
    case 7 => BlockSpec(18, 4, 31, 0, 0)
    case 8 => BlockSpec(22, 2, 38, 2, 39)
    case 9 => BlockSpec(22, 3, 36, 2, 37)
    case _ => BlockSpec(26, 4, 43, 1, 44)
  }

  function TotalData(v: Version): nat {
    var s := EcM(v);
    s.blocks1 * s.data1 + s.blocks2 * s.data2
  }

  function MaxData(v: Version): nat {
    var s := EcM(v);
    if s.data1 < s.data2 then s.data2 else s.data1
  }

  function Repeat(n: nat, size: nat): (s: seq<nat>)
    ensures |s| == n
  {
    seq(n, i => size)
  }

  function BlockSizes(v: Version): seq<nat> {
    var s := EcM(v);
    Repeat(s.blocks1, s.data1) + Repeat(s.blocks2, s.data2)
  }

  function Product(n: nat, size: nat): nat {
    n * size
  }

  lemma ProductStep(n: nat, size: nat)
    requires n > 0
    ensures Product(0, size) == 0 && Product(n, size) == Product(n - 1, size) + size
  {
  }

  lemma TotalSnoc(sizes: seq<nat>, size: nat)
    ensures Total(sizes + [size]) == Total(sizes) + size
  {
    assert (sizes + [size])[..|sizes|] == sizes;
  }

  lemma {:induction false} TotalRepeat(sizes: seq<nat>, n: nat, size: nat)
    ensures Total(sizes + Repeat(n, size)) == Total(sizes) + Product(n, size)
  {
    var all := sizes + Repeat(n, size);
    if n == 0 {
      assert all == sizes;
    } else {
      hide Product, Total;
      ProductStep(n, size);
      TotalRepeat(sizes, n - 1, size);
      TotalSnoc(sizes + Repeat(n - 1, size), size);
      assert all == sizes + Repeat(n - 1, size) + [size];
    }
  }

  lemma BlockSizesTotal(v: Version)
    ensures Total(BlockSizes(v)) == TotalData(v)
    ensures forall b :: 0 <= b < |BlockSizes(v)| ==> BlockSizes(v)[b] <= MaxData(v)
  {
    var s := EcM(v);
    TotalRepeat([], s.blocks1, s.data1);
    assert [] + Repeat(s.blocks1, s.data1) == Repeat(s.blocks1, s.data1);
    TotalRepeat(Repeat(s.blocks1, s.data1), s.blocks2, s.data2);
  }

  // ---- choice of version

  predicate Fits(text: seq<Code>, v: Version) {
    Need(text, v) <= TotalData(v) * 8
  }

  /** The smallest version whose capacity fits the text; none if version 10 is too small. */
  method ChooseVersion(text: seq<Code>) returns (r: Option<Version>)
    ensures r.Some? ==> Fits(text, r.value) && forall u: Version :: u < r.value ==> !Fits(text, u)
    ensures r.None? ==> forall u: Version :: !Fits(text, u)
  {
    hide Fits;
    for v := 1 to MAX_VERSION + 1
      invariant forall u: Version :: u < v ==> !Fits(text, u)
    {
      if Fits(text, v) {
        return Some(v);
      }
    }
    return None;
  }

  lemma CapacityBound(v: Version)
    ensures TotalData(v) <= 216 && (v <= 9 ==> TotalData(v) <= 182)
  {
  }

  /** A text that fits has a length that the character count can hold. */
  lemma CountFits(text: seq<Code>, v: Version)
    requires Fits(text, v)
    ensures |text| < Pow2(CountBits(DetectMode(text), v))
  {
    hide EcM, TotalData;
    CapacityBound(v);
    assert Pow2(8) == 256;
    assert Pow2(10) == 1024;
    assert Pow2(12) == 4096;
    assert Pow2(16) == 65536;
  }

  // ---- padding to capacity

  function ZeroBits(n: nat): (bs: Bits)
    ensures |bs| == n
  {
    seq(n, i => false)
  }

  function Terminator(length: nat, capacity: nat): nat
    requires length <= capacity
  {
    if capacity - length < 4 then capacity - length else 4
  }

  function ToBoundary(length: nat): (k: nat)
    ensures k < 8 && (length + k) % 8 == 0
  {
    (8 - length % 8) % 8
  }

  /** Terminator of up to four zero bits, then zero bits up to a byte boundary. */
  function Terminated(bs: Bits, capacity: nat): (r: Bits)
    requires |bs| <= capacity
    ensures |r| % 8 == 0
  {
    var t := bs + ZeroBits(Terminator(|bs|, capacity));
    t + ZeroBits(ToBoundary(|t|))
  }

  lemma TerminatedFits(bs: Bits, capacity: nat)
    requires |bs| <= capacity && capacity % 8 == 0
    ensures |Terminated(bs, capacity)| <= capacity
  {
  }

  /** Alternating pad codewords. */
  function Pads(n: nat): (r: seq<Code>)
    ensures |r| == n
  {
    seq(n, i => if i % 2 == 0 then 0xec else 0x11)
  }

  function DataCodewords(text: seq<Code>, v: Version): seq<Code>
    requires Fits(text, v)
  {
    NeedIsLength(text, v);
    var codes := BitsToBytes(Terminated(DataBits(text, v), TotalData(v) * 8));
    codes + Pads(if |codes| <= TotalData(v) then TotalData(v) - |codes| else 0)
  }

  /** Padding fills the capacity exactly and keeps the data bits in front. */
  lemma DataCodewordsFill(text: seq<Code>, v: Version)
    requires Fits(text, v)
    ensures |DataCodewords(text, v)| == TotalData(v)
    ensures Holds(BytesToBits(DataCodewords(text, v)), 0, DataBits(text, v))
  {
    hide EcM, TotalData, DataBits, Need, BitsToBytes, BytesToBits;
    NeedIsLength(text, v);
    var bs := DataBits(text, v);
    var padded := Terminated(bs, TotalData(v) * 8);
    TerminatedFits(bs, TotalData(v) * 8);
    var codes := BitsToBytes(padded);
    var pads := Pads(TotalData(v) - |codes|);
    BytesOfBits(padded);
    BytesToBitsConcat(codes, pads);
    PrefixHolds(bs, ZeroBits(Terminator(|bs|, TotalData(v) * 8)), padded[|bs| + Terminator(|bs|, TotalData(v) * 8)..], BytesToBits(pads));
  }

  lemma PrefixHolds(bs: Bits, a: Bits, b: Bits, c: Bits)
    ensures Holds(bs + a + b + c, 0, bs)
  {
  }

  // ---- error correction per block

  function ToField(block: Block): (p: seq<Gf256.Byte>)
    ensures |p| == |block|
  {
    seq(|block|, i requires 0 <= i < |block| => block[i] as Gf256.Byte)
  }

  function FieldCode(x: Gf256.Byte): Code {
    Gf256.NumberInjective(x, x);
    x as int
  }

  function FromField(p: seq<Gf256.Byte>): (block: Block)
    ensures |block| == |p|
  {
    seq(|p|, i requires 0 <= i < |p| => FieldCode(p[i]))
  }

  /** The error-correction codewords of a data block. */
  ghost function EcBlock(block: Block, ec: nat): (r: Block)
    requires ec > 0
    ensures |r| == ec
  {
    FromField(ReedSolomon.Encode(ToField(block), ec))
  }

  ghost function EcBlocks(blocks: seq<Block>, ec: nat): (r: seq<Block>)
    requires ec > 0
    ensures |r| == |blocks|
  {
    seq(|blocks|, b requires 0 <= b < |blocks| => EcBlock(blocks[b], ec))
  }

  function DataBlocks(text: seq<Code>, v: Version): seq<Block>
    requires Fits(text, v)
  {
    DataCodewordsFill(text, v);
    BlockSizesTotal(v);
    Split(DataCodewords(text, v), BlockSizes(v))
  }

  /** The symbol's codeword stream: interleaved data blocks, then interleaved error correction. */
  ghost function Codewords(text: seq<Code>, v: Version): seq<Code>
    requires Fits(text, v)
  {
    var blocks := DataBlocks(text, v);
    Interleave(blocks, MaxData(v)) + Interleave(EcBlocks(blocks, EcM(v).ec), EcM(v).ec)
  }

  function TotalCodewords(v: Version): nat {
    var s := EcM(v);
    TotalData(v) + (s.blocks1 + s.blocks2) * s.ec
  }

  lemma DataBlocksShape(text: seq<Code>, v: Version)
    requires Fits(text, v)
    ensures Sizes(DataBlocks(text, v)) == BlockSizes(v)
    ensures forall b :: 0 <= b < |DataBlocks(text, v)| ==> |DataBlocks(text, v)[b]| <= MaxData(v)
  {
    hide EcM, TotalData, Fits, Split, DataCodewords, MaxData;
    DataCodewordsFill(text, v);
    BlockSizesTotal(v);
    SplitSizes(DataCodewords(text, v), BlockSizes(v));
    var blocks := DataBlocks(text, v);
    forall b | 0 <= b < |blocks|
      ensures |blocks[b]| <= MaxData(v)
    {
      assert |blocks[b]| == Sizes(blocks)[b];
    }
  }

  lemma CodewordsLength(text: seq<Code>, v: Version)
    requires Fits(text, v)
    ensures |Codewords(text, v)| == TotalCodewords(v)
  {
    hide Fits, DataBlocks, EcBlock, Interleave, Total, Need;
    var blocks := DataBlocks(text, v);
    DataBlocksShape(text, v);
    InterleaveTotal(blocks, MaxData(v));
    BlockSizesTotal(v);
    var (n, ec) := (|blocks|, EcM(v).ec);
    var ecBlocks := EcBlocks(blocks, ec);
    assert Sizes(ecBlocks) == [] + Repeat(n, ec);
    TotalRepeat([], n, ec);
    TotalNone();
    InterleaveTotal(ecBlocks, ec);
    assert n == |BlockSizes(v)|;
  }

  lemma TotalNone()
    ensures Total([]) == 0
  {
  }

  // ---- the decoder's side

  /** The text read from a codeword stream: de-interleave the data blocks, then read their bits. */
  function ReadCodewords(stream: seq<Code>, v: Version): seq<Code> {
    ReadText(BytesToBits(Flatten(Deinterleave(stream, BlockSizes(v)))), v)
  }

  /** Whatever follows the codewords in the stream, the text is recovered. */
  lemma ReadBuilt(text: seq<Code>, v: Version, rest: seq<Code>)
    requires Fits(text, v)
    ensures ReadCodewords(Codewords(text, v) + rest, v) == text
  {
    hide Interleave, Deinterleave, Flatten, ReadText, DataCodewords, EcM, TotalData, Fits, BytesToBits, EcBlocks, Split;
    var blocks := DataBlocks(text, v);
    var ec := Interleave(EcBlocks(blocks, EcM(v).ec), EcM(v).ec);
    var data := Interleave(blocks, MaxData(v));
    DataBlocksShape(text, v);
    assert data + ec + rest == data + (ec + rest);
    DeinterleaveInterleaved(blocks, MaxData(v), ec + rest);
    DataCodewordsFill(text, v);
    BlockSizesTotal(v);
    FlattenSplit(DataCodewords(text, v), BlockSizes(v));
    CountFits(text, v);
    ReadWritten(BytesToBits(DataCodewords(text, v)), text, v);
  }

  // ---- the encoder's loops

  /** Writes mode, character count and payload into a bit buffer. */
  method EncodeData(text: seq<Code>, v: Version) returns (buf: BitBuffer)
    ensures fresh(buf) && buf.bits == DataBits(text, v)
  {
    hide ToBits, NumericBits, BytesToBits;
    buf := new BitBuffer();
    var mode := DetectMode(text);
    buf.Put(ModeIndicator(mode), 4);
    buf.Put(|text|, CountBits(mode, v));
    ghost var head := buf.bits;
    assert head == ToBits(ModeIndicator(mode), 4) + ToBits(|text|, CountBits(mode, v));
    if mode == Numeric {
      PutNumeric(buf, DigitsOf(text));
    } else {
      PutBytes(buf, text);
    }
  }

  method PutNumeric(buf: BitBuffer, digits: seq<Decimal.Digit>)
    modifies buf
    ensures buf.bits == old(buf.bits) + NumericBits(digits)
  {
    hide ToBits;
    var i := 0;
    ghost var head := buf.bits;
    assert digits[0..] == digits;
    while i < |digits|
      invariant 0 <= i <= |digits|
      invariant buf.bits + NumericBits(digits[i..]) == head + NumericBits(digits)
    {
      var group := if |digits| - i < 3 then digits[i..] else digits[i..i + 3];
      ghost var rest := digits[i..];
      assert |rest| > 3 ==> rest[..3] == group && rest[3..] == digits[i + 3..];
      assert |rest| <= 3 ==> rest == group;
      ghost var before := buf.bits;
      buf.Put(Decimal.Value(group), GroupBits(|group|));
      assert |rest| > 3 ==> before + NumericBits(rest) == buf.bits + NumericBits(digits[i + 3..]);
      i := i + |group|;
      assert i == |digits| ==> buf.bits + [] == buf.bits;
    }
    assert digits[|digits|..] == [];
    assert buf.bits + [] == buf.bits;
  }

  method PutBytes(buf: BitBuffer, bytes: seq<Code>)
    modifies buf
    ensures buf.bits == old(buf.bits) + BytesToBits(bytes)
  {
    hide ToBits;
    ghost var head := buf.bits;
    assert bytes[0..] == bytes;
    for i := 0 to |bytes|
      invariant buf.bits + BytesToBits(bytes[i..]) == head + BytesToBits(bytes)
    {
      assert bytes[i..][1..] == bytes[i + 1..];
      buf.Put(bytes[i], 8);
    }
    assert bytes[|bytes|..] == [];
    assert buf.bits + [] == buf.bits;
  }

  /** Appends the terminator, then zero bits up to a byte boundary. */
  method Terminate(buf: BitBuffer, capacityBits: nat)
    requires |buf.bits| <= capacityBits
    modifies buf
    ensures buf.bits == Terminated(old(buf.bits), capacityBits)
  {
    ghost var bs := buf.bits;
    var i := 0;
    while i < 4 && |buf.bits| < capacityBits
      invariant 0 <= i <= 4 && |bs| + i <= capacityBits && buf.bits == bs + ZeroBits(i)
    {
      buf.bits := buf.bits + [false];
      i := i + 1;
    }
    assert buf.bits == bs + ZeroBits(Terminator(|bs|, capacityBits));
    Align(buf);
  }

  method Align(buf: BitBuffer)
    modifies buf
    ensures buf.bits == old(buf.bits) + ZeroBits(ToBoundary(|old(buf.bits)|))
  {
    ghost var t := buf.bits;
    hide ToBoundary;
    ghost var k := 0;
    while |buf.bits| % 8 != 0
      invariant 0 <= k <= ToBoundary(|t|) && buf.bits == t + ZeroBits(k)
      decreases ToBoundary(|t|) - k
    {
      NotYetAligned(|t|, k);
      buf.bits := buf.bits + [false];
      k := k + 1;
    }
    FirstBoundary(|t|, k);
  }

  lemma NotYetAligned(length: nat, k: nat)
    requires k <= ToBoundary(length) && (length + k) % 8 != 0
    ensures k < ToBoundary(length)
  {
  }

  lemma FirstBoundary(length: nat, k: nat)
    requires k <= ToBoundary(length) && (length + k) % 8 == 0
    ensures k == ToBoundary(length)
  {
    var e := length % 8;
    assert (e + k) % 8 == 0;
  }

  /** Terminates and pads the bit stream, and packs it into the symbol's data codewords. */
  method PackData(buf: BitBuffer, text: seq<Code>, v: Version) returns (data: seq<Code>)
    requires Fits(text, v) && buf.bits == DataBits(text, v)
    modifies buf
    ensures data == DataCodewords(text, v)
  {
    hide EcM, TotalData, DataBits, Need, Fits, Terminated, Pads;
    NeedIsLength(text, v);
    FitsMeans(text, v);
    Terminate(buf, TotalData(v) * 8);
    data := PackBits(buf.bits);
    data := PadData(data, TotalData(v));
  }

  lemma FitsMeans(text: seq<Code>, v: Version)
    requires Fits(text, v)
    ensures Need(text, v) <= TotalData(v) * 8
  {
  }

  method PackByte(eight: Bits) returns (byte: nat)
    ensures byte == FromBits(eight)
  {
    byte := 0;
    for j := 0 to |eight|
      invariant byte == FromBits(eight[..j])
    {
      assert eight[..j + 1][..j] == eight[..j];
      byte := 2 * byte + (if eight[j] then 1 else 0);
    }
    assert eight[..|eight|] == eight;
  }

  method PackBits(bits: Bits) returns (data: seq<Code>)
    requires |bits| % 8 == 0
    ensures data == BitsToBytes(bits)
  {
    hide Pow2, FromBits;
    data := [];
    var i := 0;
    assert bits[0..] == bits;
    while i < |bits|
      invariant 0 <= i <= |bits| && i % 8 == 0
      invariant data + BitsToBytes(bits[i..]) == BitsToBytes(bits)
    {
      var byte := PackByte(bits[i..i + 8]);
      assert bits[i..][..8] == bits[i..i + 8] && bits[i..][8..] == bits[i + 8..];
      EightBits(bits[i..i + 8]);
      data := data + [byte];
      i := i + 8;
    }
    assert bits[|bits|..] == [];
  }

  lemma EightBits(eight: Bits)
    requires |eight| == 8
    ensures FromBits(eight) < 256
  {
    ToFromBits(eight);
    PowersOfTwo();
  }

  method PadData(codes: seq<Code>, totalData: nat) returns (data: seq<Code>)
    ensures data == codes + Pads(if |codes| <= totalData then totalData - |codes| else 0)
  {
    data := codes;
    var i := 0;
    assert codes + Pads(0) == codes;
    while |data| < totalData
      invariant 0 <= i && data == codes + Pads(i) && (i > 0 ==> |data| <= totalData)
      decreases totalData - |data|
    {
      data := data + [if i % 2 == 0 then 0xec else 0x11];
      i := i + 1;
    }
  }

  method Protect(tables: Gf256.Tables, block: Block, ec: nat) returns (ecBlock: Block)
    requires tables.Valid() && 0 < ec <= 512
    ensures ecBlock == EcBlock(block, ec)
    ensures ReedSolomon.ZeroSyndromes(ToField(block + ecBlock), ec)
  {
    hide ReedSolomon.Encode, ReedSolomon.ZeroSyndromes, Gf256.Power;
    var parity := ReedSolomon.RsEncode(tables, ToField(block), ec);
    ecBlock := FromField(parity);
    FieldRoundTrip(parity);
    assert ToField(block + ecBlock) == ToField(block) + ToField(ecBlock);
  }

  /** Splits the data into blocks and computes their error-correction codewords. */
  method SplitAndProtect(tables: Gf256.Tables, data: seq<Code>, sizes: seq<nat>, ec: nat)
    returns (blocks: seq<Block>, ecBlocks: seq<Block>)
    requires tables.Valid() && |data| == Total(sizes) && 0 < ec <= 512
    ensures blocks == Split(data, sizes) && ecBlocks == EcBlocks(blocks, ec)
    ensures forall b :: 0 <= b < |blocks| ==> ReedSolomon.ZeroSyndromes(ToField(blocks[b] + ecBlocks[b]), ec)
  {
    hide ReedSolomon.ZeroSyndromes, Gf256.Power, EcBlock, ToField;
    blocks, ecBlocks := [], [];
    var offset := 0;
    TotalNone();
    assert data[..0] == [];
    for b := 0 to |sizes|
      invariant offset == Total(sizes[..b]) <= |data|
      invariant blocks == Split(data[..offset], sizes[..b])
      invariant ecBlocks == EcBlocks(blocks, ec)
      invariant forall c :: 0 <= c < b ==> ReedSolomon.ZeroSyndromes(ToField(blocks[c] + ecBlocks[c]), ec)
    {
      TotalPrefix(sizes, b);
      var size := sizes[b];
      var block := data[offset..offset + size];
      SplitNext(data[..offset + size], sizes[..b + 1]);
      var prefix := data[..offset + size];
      assert prefix[..offset] == data[..offset] && prefix[offset..] == block;
      assert sizes[..b + 1][..b] == sizes[..b];
      offset := offset + size;
      blocks := blocks + [block];
      var ecBlock := Protect(tables, block, ec);
      ecBlocks := ecBlocks + [ecBlock];
    }
    assert sizes[..|sizes|] == sizes && data[..|data|] == data;
  }

  lemma FieldRoundTrip(p: seq<Gf256.Byte>)
    ensures ToField(FromField(p)) == p
  {
    forall i | 0 <= i < |p|
      ensures FieldCode(p[i]) as Gf256.Byte == p[i]
    {
    }
  }

  lemma {:induction false} TotalPrefix(sizes: seq<nat>, b: nat)
    requires b < |sizes|
    ensures Total(sizes[..b + 1]) == Total(sizes[..b]) + sizes[b] <= Total(sizes)
    decreases |sizes|
  {
    var n := |sizes| - 1;
    if b < n {
      TotalPrefix(sizes[..n], b);
      assert sizes[..n][..b] == sizes[..b] && sizes[..n][..b + 1] == sizes[..b + 1];
    } else {
      assert sizes[..b + 1] == sizes;
    }
  }

  lemma SplitNext(data: seq<Code>, sizes: seq<nat>)
    requires |data| == Total(sizes) && sizes != []
    ensures var n := |sizes| - 1; var k := |data| - sizes[n];
            k == Total(sizes[..n]) && Split(data, sizes) == Split(data[..k], sizes[..n]) + [data[k..]]
  {
  }

  /** Builds the interleaved codeword stream of the symbol. */
  method BuildCodewords(tables: Gf256.Tables, text: seq<Code>, v: Version) returns (out: seq<Code>)
    requires tables.Valid() && Fits(text, v)
    ensures out == Codewords(text, v)
  {
    hide EcM, TotalData, Fits, MaxData, Split, EcBlocks, DataCodewords, Gf256.Power;
    var buf := EncodeData(text, v);
    var data := PackData(buf, text, v);
    DataCodewordsFill(text, v);
    BlockSizesTotal(v);
    var blocks, ecBlocks := SplitAndProtect(tables, data, BlockSizes(v), EcM(v).ec);
    out := InterleaveBlocks(blocks, MaxData(v));
    var ec := InterleaveBlocks(ecBlocks, EcM(v).ec);
    out := out + ec;
  }
}
