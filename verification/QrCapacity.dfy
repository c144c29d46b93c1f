/**
 What the block table means: the blocks of a version use up its grid, protect it at
 level M, and are as equal as they can be (sections 7.5 and 7.6 of ISO/IEC
 18004:2015).
 */
module QrCapacity {
  import opened QrBits
  import opened QrLayout
  import opened QrCodewords

  function BlockCount(v: Version): nat {
    EcM(v).blocks1 + EcM(v).blocks2
  }

  lemma AnyVersion(v: Version)
    ensures v == 1 || v == 2 || v == 3 || v == 4 || v == 5 || v == 6 || v == 7 || v == 8 || v == 9 || v == 10
  {
  }

  /**
   The codewords take up every whole byte of the grid.  From version 7 on five are
   spare: the two alignment patterns that the timing lines displace would have hidden
   twenty cells more each.
   */
  lemma CodewordsFillGrid(v: Version)
    ensures TotalCodewords(v) == |DataCells(v)| / 8 - (if v <= 6 then 0 else 5)
  {
    hide DataCells;
    DataCellCount(v);
    AnyVersion(v);
  }

  /**
   Level M: each block can correct `ec / 2` of its codewords, which over the symbol is
   at least 15 % and less than 25 %, the share of the next level.
   */
  lemma CorrectsLevelM(v: Version)
    ensures EcM(v).ec % 2 == 0
    ensures 15 * TotalCodewords(v) <= 100 * (BlockCount(v) * (EcM(v).ec / 2)) < 25 * TotalCodewords(v)
  {
    AnyVersion(v);
  }

  /** The data codewords that every block has, and how many blocks have one more. */
  function Shared(v: Version): nat
    requires BlockCount(v) > 0
  {
    TotalData(v) / BlockCount(v)
  }

  function Longer(v: Version): nat
    requires BlockCount(v) > 0
  {
    TotalData(v) % BlockCount(v)
  }

  /** The data is divided as evenly as it can be, and the longer blocks come last. */
  lemma BlocksAreEven(v: Version)
    ensures |BlockSizes(v)| == BlockCount(v) > 0
    ensures forall b :: 0 <= b < |BlockSizes(v)| ==>
      BlockSizes(v)[b] == if b < BlockCount(v) - Longer(v) then Shared(v) else Shared(v) + 1
  {
    AnyVersion(v);
  }

  /** The number of blocks, by version. */
  function Blocks(v: Version): nat {
    [1, 1, 1, 2, 2, 4, 4, 4, 5, 5][v - 1]
  }

  /** How many bytes a symbol can hold, by version. */
  function ByteCapacity(v: Version): nat {
    [14, 26, 42, 62, 84, 106, 122, 152, 180, 213][v - 1]
  }

  /** How many digits a symbol can hold, by version. */
  function DigitCapacity(v: Version): nat {
    [34, 63, 101, 149, 202, 255, 293, 365, 432, 513][v - 1]
  }

  lemma BlockCounts(v: Version)
    ensures BlockCount(v) == Blocks(v)
  {
    AnyVersion(v);
  }

  /** A text fits a version exactly up to the published capacities of level M (table 7 of the standard). */
  lemma FitsUpToCapacity(text: seq<Code>, v: Version)
    ensures Fits(text, v) <==> |text| <= if AllDigits(text) then DigitCapacity(v) else ByteCapacity(v)
  {
    AnyVersion(v);
  }
}
