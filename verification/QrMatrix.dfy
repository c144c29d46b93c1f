/**
 The encoder and the companion decoder as they work on module grids: layout of
 the reserved cells, zig-zag placement, masking, format and version areas, and
 reading back.
 */
module QrMatrix {
  import opened Wrappers
  import opened Finite
  import opened QrBits
  import opened QrLayout
  import opened QrBlocks
  import opened QrCodewords
  import opened QrCode
  import Gf256

  type Grid = array2<bool>

  ghost predicate Square(g: Grid, n: nat) {
    g.Length0 == n && g.Length1 == n
  }

  // ---- the reserved-cell map

  /** Reserves the part of a rectangle that lies inside the grid. */
  method Reserve(reserved: Grid, a: Area)
    modifies reserved
    ensures forall r, c :: 0 <= r < reserved.Length0 && 0 <= c < reserved.Length1 ==>
      reserved[r, c] == (old(reserved[r, c]) || a.Has(Cell(r, c)))
  {
    var i := a.r1;
    while i < a.r2
      invariant a.r1 <= i && (i <= a.r2 || a.r2 < a.r1)
      invariant forall r, c :: 0 <= r < reserved.Length0 && 0 <= c < reserved.Length1 ==>
        reserved[r, c] == (old(reserved[r, c]) || (a.Has(Cell(r, c)) && r < i))
    {
      var j := a.c1;
      while j < a.c2
        invariant a.c1 <= j && (j <= a.c2 || a.c2 < a.c1)
        invariant forall r, c :: 0 <= r < reserved.Length0 && 0 <= c < reserved.Length1 ==>
          reserved[r, c] == (old(reserved[r, c]) || (a.Has(Cell(r, c)) && (r < i || (r == i && c < j))))
      {
        if 0 <= i < reserved.Length0 && 0 <= j < reserved.Length1 {
          reserved[i, j] := true;
        }
        j := j + 1;
      }
      i := i + 1;
    }
  }

  ghost predicate Before(i: int, j: int, p: int, q: int) {
    p < i || (p == i && q < j)
  }

  function CentreAt(v: Version, i: int, j: int): Cell
    requires 0 <= i < |Centres(v)| && 0 <= j < |Centres(v)|
  {
    Cell(Centres(v)[i], Centres(v)[j])
  }

  /** `x` lies in an alignment pattern drawn before centre (i, j). */
  ghost predicate InAlignmentBefore(v: Version, i: int, j: int, x: Cell) {
    exists p, q :: 0 <= p < |Centres(v)| && 0 <= q < |Centres(v)| && Before(i, j, p, q) &&
                   IsCentre(v, CentreAt(v, p, q)) && Around(x, CentreAt(v, p, q))
  }

  /** Alignment centres are too far apart for one pattern to cover another centre. */
  lemma CentresApart(v: Version, i: int, j: int, p: int, q: int)
    requires 0 <= i < |Centres(v)| && 0 <= j < |Centres(v)| && 0 <= p < |Centres(v)| && 0 <= q < |Centres(v)|
    requires (i, j) != (p, q)
    ensures !Around(CentreAt(v, i, j), CentreAt(v, p, q))
  {
    hide Centres;
    CentresAre(v);
  }

  lemma CentreFree(v: Version, i: int, j: int)
    requires 0 <= i < |Centres(v)| && 0 <= j < |Centres(v)|
    ensures !InAlignmentBefore(v, i, j, CentreAt(v, i, j))
  {
    hide IsCentre, Around, Centres;
    forall p, q | 0 <= p < |Centres(v)| && 0 <= q < |Centres(v)| && Before(i, j, p, q)
      ensures !Around(CentreAt(v, i, j), CentreAt(v, p, q))
    {
      CentresApart(v, i, j, p, q);
    }
  }

  lemma AlignmentNext(v: Version, i: int, j: int, x: Cell)
    requires 0 <= i < |Centres(v)| && 0 <= j < |Centres(v)|
    ensures InAlignmentBefore(v, i, j + 1, x) <==>
            InAlignmentBefore(v, i, j, x) || (IsCentre(v, CentreAt(v, i, j)) && Around(x, CentreAt(v, i, j)))
  {
    hide IsCentre, Around, Centres;
    if IsCentre(v, CentreAt(v, i, j)) && Around(x, CentreAt(v, i, j)) {
      assert Before(i, j + 1, i, j);
    }
    if InAlignmentBefore(v, i, j, x) {
      var p, q :| 0 <= p < |Centres(v)| && 0 <= q < |Centres(v)| && Before(i, j, p, q) &&
                  IsCentre(v, CentreAt(v, p, q)) && Around(x, CentreAt(v, p, q));
      assert Before(i, j + 1, p, q);
    }
  }

  lemma AlignmentRowDone(v: Version, i: int, x: Cell)
    ensures InAlignmentBefore(v, i, |Centres(v)|, x) <==> InAlignmentBefore(v, i + 1, 0, x)
    ensures !InAlignmentBefore(v, 0, 0, x)
    ensures InAlignmentBefore(v, |Centres(v)|, 0, x) <==> InAlignment(v, x)
  {
    hide IsCentre, Around, Centres;
    if InAlignmentBefore(v, i + 1, 0, x) {
      var p, q :| 0 <= p < |Centres(v)| && 0 <= q < |Centres(v)| && Before(i + 1, 0, p, q) &&
                  IsCentre(v, CentreAt(v, p, q)) && Around(x, CentreAt(v, p, q));
      assert Before(i, |Centres(v)|, p, q);
    }
    if InAlignmentBefore(v, i, |Centres(v)|, x) {
      var p, q :| 0 <= p < |Centres(v)| && 0 <= q < |Centres(v)| && Before(i, |Centres(v)|, p, q) &&
                  IsCentre(v, CentreAt(v, p, q)) && Around(x, CentreAt(v, p, q));
      assert Before(i + 1, 0, p, q);
    }
    if InAlignment(v, x) {
      var p, q :| 0 <= p < |Centres(v)| && 0 <= q < |Centres(v)| &&
                  IsCentre(v, Cell(Centres(v)[p], Centres(v)[q])) && Around(x, Cell(Centres(v)[p], Centres(v)[q]));
      assert CentreAt(v, p, q) == Cell(Centres(v)[p], Centres(v)[q]);
      assert Before(|Centres(v)|, 0, p, q);
    }
  }

  /** Reserves a pattern around every alignment centre that is still free. */
  method ReserveAlignment(v: Version, reserved: Grid)
    requires Square(reserved, Size(v))
    requires forall r, c :: 0 <= r < Size(v) && 0 <= c < Size(v) ==>
      reserved[r, c] == (InFinder(Size(v), Cell(r, c)) || InTiming(Size(v), Cell(r, c)))
    modifies reserved
    ensures forall r, c :: 0 <= r < Size(v) && 0 <= c < Size(v) ==>
      reserved[r, c] == (old(reserved[r, c]) || InAlignment(v, Cell(r, c)))
  {
    hide InFinder, InTiming, Centres, InAlignment, InAlignmentBefore;
    var n := Size(v);
    var centres := Centres(v);
    forall x: Cell
      ensures !InAlignmentBefore(v, 0, 0, x)
    {
      AlignmentRowDone(v, 0, x);
    }
    for i := 0 to |centres|
      invariant forall r, c :: 0 <= r < n && 0 <= c < n ==>
        reserved[r, c] == (old(reserved[r, c]) || InAlignmentBefore(v, i, 0, Cell(r, c)))
    {
      for j := 0 to |centres|
        invariant forall r, c :: 0 <= r < n && 0 <= c < n ==>
          reserved[r, c] == (old(reserved[r, c]) || InAlignmentBefore(v, i, j, Cell(r, c)))
      {
        CentreInGrid(v, i, j);
        CentreFree(v, i, j);
        var centre := CentreAt(v, i, j);
        CentreMember(v, i, j);
        forall x: Cell
          ensures InAlignmentBefore(v, i, j + 1, x) <==>
                  InAlignmentBefore(v, i, j, x) || (IsCentre(v, centre) && Around(x, centre))
        {
          AlignmentNext(v, i, j, x);
        }
        if !reserved[centre.r, centre.c] {
          Reserve(reserved, AlignmentArea(centre.r, centre.c));
        }
      }
      forall x: Cell
        ensures InAlignmentBefore(v, i, |centres|, x) <==> InAlignmentBefore(v, i + 1, 0, x)
      {
        AlignmentRowDone(v, i, x);
      }
    }
    forall x: Cell
      ensures InAlignmentBefore(v, |centres|, 0, x) <==> InAlignment(v, x)
    {
      AlignmentRowDone(v, 0, x);
    }
  }

  lemma CentreInGrid(v: Version, i: int, j: int)
    requires 0 <= i < |Centres(v)| && 0 <= j < |Centres(v)|
    ensures InGrid(Size(v), CentreAt(v, i, j))
  {
    hide Centres;
    CentresAre(v);
  }

  lemma CentreMember(v: Version, i: int, j: int)
    requires 0 <= i < |Centres(v)| && 0 <= j < |Centres(v)|
    ensures CentreAt(v, i, j).r in Centres(v) && CentreAt(v, i, j).c in Centres(v)
  {
    hide Centres;
  }

  ghost predicate IsLayout(v: Version, reserved: Grid)
    reads reserved
  {
    Square(reserved, Size(v)) &&
    forall r, c :: 0 <= r < Size(v) && 0 <= c < Size(v) ==> reserved[r, c] == Reserved(v, Cell(r, c))
  }

  /** Builds the reserved-cell map of a version. */
  method FunctionLayout(v: Version) returns (reserved: Grid)
    ensures fresh(reserved) && IsLayout(v, reserved)
  {
    hide InAlignment, Centres;
    var n := Size(v);
    reserved := new bool[n, n]((i, j) => false);
    Reserve(reserved, Area(-1, 8, -1, 8));
    Reserve(reserved, Area(-1, 8, n - 8, n + 1));
    Reserve(reserved, Area(n - 8, n + 1, -1, 8));
    Reserve(reserved, Area(6, 7, 8, n - 8));
    Reserve(reserved, Area(8, n - 8, 6, 7));
    ReserveAlignment(v, reserved);
    Reserve(reserved, Area(8, 9, 0, 9));
    Reserve(reserved, Area(0, 9, 8, 9));
    Reserve(reserved, Area(8, 9, n - 8, n));
    Reserve(reserved, Area(n - 8, n, 8, 9));
    if v >= 7 {
      Reserve(reserved, Area(0, 6, n - 11, n - 8));
      Reserve(reserved, Area(n - 11, n - 8, 0, 6));
    }
  }

  // ---- placement

  /** Bit `k` of a codeword stream, by the encoder's shifts. */
  function StreamBit(codewords: seq<Code>, k: nat): bool
    requires k < |codewords| * 8
  {
    ShiftRight(codewords[k / 8], 7 - k % 8) % 2 == 1
  }

  lemma {:induction false} StreamBitIs(codewords: seq<Code>, k: nat)
    requires k < |codewords| * 8
    ensures BytesToBits(codewords)[k] == StreamBit(codewords, k)
  {
    if k < 8 {
      BitOfNumber(codewords[0], 8, k);
    } else {
      StreamBitIs(codewords[1..], k - 8);
    }
  }

  /** The first `count` cells of the placement order hold the first bits of the stream. */
  ghost predicate Placed(modules: Grid, cells: seq<Cell>, count: nat, stream: Bits)
    reads modules
  {
    count <= |cells| && modules.Length0 == modules.Length1 &&
    forall k :: 0 <= k < count ==>
      InGrid(modules.Length0, cells[k]) && modules[cells[k].r, cells[k].c] == BitAt(stream, k)
  }

  /** How many of the stream's bits are placed once `count` cells are filled. */
  function BitsUsed(count: nat, codewords: seq<Code>): nat {
    if count < |codewords| * 8 then count else |codewords| * 8
  }

  /** The reservation predicate that a layout array tabulates. */
  function ReservedFn(v: Version): Reservation {
    (x: Cell) => Reserved(v, x)
  }

  /** State of the placement: `done` cells are behind, and `rest` follows in the zig-zag order. */
  ghost predicate Progress(v: Version, done: seq<Cell>, rest: seq<Cell>) {
    done + rest == DataCells(v)
  }

  lemma ProgressKeep(v: Version, done: seq<Cell>, x: Cell, rest: seq<Cell>)
    requires Progress(v, done, Keep(ReservedFn(v), x) + rest)
    ensures Progress(v, done + Keep(ReservedFn(v), x), rest)
    ensures !Reserved(v, x) ==> |done| < |DataCells(v)| && DataCells(v)[|done|] == x
  {
    hide DataCells, Reserved;
    assert done + (Keep(ReservedFn(v), x) + rest) == done + Keep(ReservedFn(v), x) + rest;
  }

  /** Places the next bit on `x` unless the cell is reserved. */
  method PlaceCell(v: Version, modules: Grid, reserved: Grid, codewords: seq<Code>, x: Cell,
                   bitIndex: nat, ghost done: seq<Cell>, ghost rest: seq<Cell>)
    returns (next: nat, ghost now: seq<Cell>)
    requires IsLayout(v, reserved) && Square(modules, Size(v)) && modules != reserved
    requires InGrid(Size(v), x) && Progress(v, done, Keep(ReservedFn(v), x) + rest)
    requires Placed(modules, DataCells(v), |done|, BytesToBits(codewords))
    requires bitIndex == BitsUsed(|done|, codewords)
    modifies modules
    ensures now == done + Keep(ReservedFn(v), x) && Progress(v, now, rest)
    ensures Placed(modules, DataCells(v), |now|, BytesToBits(codewords))
    ensures next == BitsUsed(|now|, codewords)
    ensures forall r, c :: 0 <= r < Size(v) && 0 <= c < Size(v) && Reserved(v, Cell(r, c)) ==>
      modules[r, c] == old(modules[r, c])
  {
    hide DataCells, Reserved, BytesToBits, StreamBit;
    DataCellsInGrid(v);
    ProgressKeep(v, done, x, rest);
    now := done + Keep(ReservedFn(v), x);
    next := bitIndex;
    if !reserved[x.r, x.c] {
      var dark := false;
      if bitIndex < |codewords| * 8 {
        StreamBitIs(codewords, bitIndex);
        dark := StreamBit(codewords, bitIndex);
        next := bitIndex + 1;
      }
      modules[x.r, x.c] := dark;
    }
  }

  /** Lays bits along one two-column strip. */
  method PlaceStrip(v: Version, modules: Grid, reserved: Grid, codewords: seq<Code>, col: int, upward: bool,
                    start: nat, ghost before: seq<Cell>, ghost after: seq<Cell>)
    returns (bitIndex: nat, ghost done: seq<Cell>)
    requires IsLayout(v, reserved) && Square(modules, Size(v)) && modules != reserved
    requires 1 <= col < Size(v)
    requires Progress(v, before, Strip(ReservedFn(v), Size(v), col, upward, 0) + after)
    requires Placed(modules, DataCells(v), |before|, BytesToBits(codewords))
    requires start == BitsUsed(|before|, codewords)
    modifies modules
    ensures Progress(v, done, after)
    ensures Placed(modules, DataCells(v), |done|, BytesToBits(codewords))
    ensures bitIndex == BitsUsed(|done|, codewords)
    ensures forall r, c :: 0 <= r < Size(v) && 0 <= c < Size(v) && Reserved(v, Cell(r, c)) ==>
      modules[r, c] == old(modules[r, c])
  {
    hide DataCells, Reserved, BytesToBits, Placed, Strip, Keep, IsLayout, Progress, BitsUsed;
    var n := Size(v);
    bitIndex, done := start, before;
    for i := 0 to n
      invariant Progress(v, done, Strip(ReservedFn(v), n, col, upward, i) + after)
      invariant Placed(modules, DataCells(v), |done|, BytesToBits(codewords))
      invariant bitIndex == BitsUsed(|done|, codewords)
      invariant forall r, c :: 0 <= r < n && 0 <= c < n && Reserved(v, Cell(r, c)) ==> modules[r, c] == old(modules[r, c])
    {
      var row := if upward then n - 1 - i else i;
      ghost var rest := Strip(ReservedFn(v), n, col, upward, i + 1) + after;
      StripUnfold(v, n, col, upward, i, after);
      bitIndex, done := PlaceCell(v, modules, reserved, codewords, Cell(row, col), bitIndex, done,
                                  Keep(ReservedFn(v), Cell(row, col - 1)) + rest);
      bitIndex, done := PlaceCell(v, modules, reserved, codewords, Cell(row, col - 1), bitIndex, done, rest);
    }
    StripEnd(v, n, col, upward, after);
  }

  /** Lays the codeword bits on the free cells in zig-zag order. */
  method PlaceBits(v: Version, modules: Grid, reserved: Grid, codewords: seq<Code>)
    requires IsLayout(v, reserved) && Square(modules, Size(v)) && modules != reserved
    modifies modules
    ensures Placed(modules, DataCells(v), |DataCells(v)|, BytesToBits(codewords))
    ensures forall r, c :: 0 <= r < Size(v) && 0 <= c < Size(v) && Reserved(v, Cell(r, c)) ==>
      modules[r, c] == old(modules[r, c])
  {
    hide DataCells, Reserved, BytesToBits, Placed, Strip, ZigZagFrom, IsLayout, Progress, BitsUsed;
    PlacementStart(v, modules, codewords);
    var n := Size(v);
    var bitIndex := 0;
    var upward := true;
    var col: int := n - 1;
    ghost var done := [];
    while col > 0
      invariant col < n && Progress(v, done, ZigZagFrom(ReservedFn(v), n, col, upward))
      invariant Placed(modules, DataCells(v), |done|, BytesToBits(codewords))
      invariant bitIndex == BitsUsed(|done|, codewords)
      invariant forall r, c :: 0 <= r < n && 0 <= c < n && Reserved(v, Cell(r, c)) ==> modules[r, c] == old(modules[r, c])
    {
      ZigZagUnfold(v, n, col, upward);
      if col == 6 {
        col := col - 1;
      }
      ghost var after := ZigZagFrom(ReservedFn(v), n, col - 2, !upward);
      bitIndex, done := PlaceStrip(v, modules, reserved, codewords, col, upward, bitIndex, done, after);
      upward := !upward;
      col := col - 2;
    }
    ZigZagEnd(v, n, col, upward);
    ProgressEnd(v, done);
  }

  lemma PlacementStart(v: Version, modules: Grid, codewords: seq<Code>)
    requires Square(modules, Size(v))
    ensures Progress(v, [], ZigZagFrom(ReservedFn(v), Size(v), Size(v) - 1, true))
    ensures Placed(modules, DataCells(v), 0, BytesToBits(codewords))
    ensures BitsUsed(0, codewords) == 0
  {
    hide Reserved, ZigZagFrom;
  }

  lemma ProgressEnd(v: Version, done: seq<Cell>)
    requires Progress(v, done, [])
    ensures done == DataCells(v)
  {
    hide DataCells;
    assert done + [] == done;
  }

  lemma DataCellsInGrid(v: Version)
    ensures forall k :: 0 <= k < |DataCells(v)| ==> InGrid(Size(v), DataCells(v)[k])
    ensures Distinct(DataCells(v))
  {
    hide DataCells, Reserved, InGrid;
    DataCellsAreFree(v);
    forall k | 0 <= k < |DataCells(v)|
      ensures InGrid(Size(v), DataCells(v)[k])
    {
      assert DataCells(v)[k] in DataCells(v);
    }
  }

  lemma ZigZagUnfold(v: Version, n: nat, col: int, upward: bool)
    requires col > 0
    ensures ZigZagFrom(ReservedFn(v), n, col, upward) ==
            Strip(ReservedFn(v), n, SkipTiming(col), upward, 0) + ZigZagFrom(ReservedFn(v), n, SkipTiming(col) - 2, !upward)
  {
    hide Reserved, Strip;
  }

  lemma ZigZagEnd(v: Version, n: nat, col: int, upward: bool)
    requires col <= 0
    ensures ZigZagFrom(ReservedFn(v), n, col, upward) == []
  {
    hide Reserved, Strip;
  }

  lemma StripUnfold(v: Version, n: nat, col: int, upward: bool, i: nat, after: seq<Cell>)
    requires i < n
    ensures var row := if upward then n - 1 - i else i;
            Strip(ReservedFn(v), n, col, upward, i) + after ==
            Keep(ReservedFn(v), Cell(row, col)) +
            (Keep(ReservedFn(v), Cell(row, col - 1)) + (Strip(ReservedFn(v), n, col, upward, i + 1) + after))
  {
    hide Reserved, Keep;
  }

  lemma StripEnd(v: Version, n: nat, col: int, upward: bool, after: seq<Cell>)
    ensures Strip(ReservedFn(v), n, col, upward, n) + after == after
  {
    hide Reserved;
  }

  // ---- masking, format and version areas

  /** The data bits a grid shows: the modules of the data cells with the mask undone. */
  function ModuleBits(modules: Grid, mask: Mask, cells: seq<Cell>): (bs: Bits)
    requires forall k :: 0 <= k < |cells| ==> InGrid(modules.Length0, cells[k])
    requires modules.Length0 == modules.Length1
    reads modules
    ensures |bs| == |cells|
  {
    seq(|cells|, k requires 0 <= k < |cells| reads modules =>
      assert InGrid(modules.Length0, cells[k]);
      modules[cells[k].r, cells[k].c] != MaskFn(mask, cells[k]))
  }

  /** Inverts the data cells that the mask selects; reserved cells are copied. */
  method ApplyMask(v: Version, modules: Grid, reserved: Grid, mask: Mask) returns (grid: Grid)
    requires IsLayout(v, reserved) && Square(modules, Size(v))
    ensures fresh(grid) && Square(grid, Size(v))
    ensures forall r, c :: 0 <= r < Size(v) && 0 <= c < Size(v) ==>
      grid[r, c] == if Reserved(v, Cell(r, c)) then modules[r, c] else modules[r, c] != MaskFn(mask, Cell(r, c))
  {
    hide Reserved, MaskFn;
    var n := Size(v);
    grid := new bool[n, n]((i, j) => false);
    for r := 0 to n
      invariant forall i, c :: 0 <= i < r && 0 <= c < n ==>
        grid[i, c] == if Reserved(v, Cell(i, c)) then modules[i, c] else modules[i, c] != MaskFn(mask, Cell(i, c))
    {
      for c := 0 to n
        invariant forall i, j :: 0 <= i < n && 0 <= j < n && (i < r || (i == r && j < c)) ==>
          grid[i, j] == if Reserved(v, Cell(i, j)) then modules[i, j] else modules[i, j] != MaskFn(mask, Cell(i, j))
      {
        grid[r, c] := if reserved[r, c] then modules[r, c] else modules[r, c] != MaskFn(mask, Cell(r, c));
      }
    }
  }

  /** Where bit `i` of the format information goes, around the top-left finder. */
  function FormatCell(i: nat): Cell {
    if i <= 5 then Cell(8, i) else if i == 6 then Cell(8, 7) else if i == 7 then Cell(8, 8)
    else if i == 8 then Cell(7, 8) else Cell(14 - i, 8)
  }

  /** Where its second copy goes, split across the other two finders. */
  function FormatCopy(n: nat, i: nat): Cell {
    if i <= 7 then Cell(n - 1 - i, 8) else Cell(8, n - 15 + i)
  }

  /** The first copy goes along row 8 and up column 8, past both timing lines; the second up column 8 and along row 8. */
  lemma FormatCellsAre(n: nat, i: nat)
    requires n >= 21 && i < 15
    ensures var path := [(8, 0), (8, 1), (8, 2), (8, 3), (8, 4), (8, 5), (8, 7), (8, 8), (7, 8), (5, 8), (4, 8), (3, 8), (2, 8), (1, 8), (0, 8)];
            FormatCell(i) == Cell(path[i].0, path[i].1)
    ensures if i < 8 then FormatCopy(n, i).c == 8 && FormatCopy(n, i).r + i == n - 1
            else FormatCopy(n, i).r == 8 && n - FormatCopy(n, i).c == 15 - i
  {
  }

  ghost predicate Shown(grid: Grid, x: Cell, bit: bool)
    reads grid
  {
    0 <= x.r < grid.Length0 && 0 <= x.c < grid.Length1 && grid[x.r, x.c] == bit
  }

  /** Both copies of the format information can be read. */
  ghost predicate FormatShown(v: Version, grid: Grid, format: seq<bool>)
    requires |format| == 15
    reads grid
  {
    forall i :: 0 <= i < 15 ==> Shown(grid, FormatCell(i), format[i]) && Shown(grid, FormatCopy(Size(v), i), format[i])
  }

  /** Writes both copies of the format information, and nothing outside the format cells. */
  method WriteFormat(v: Version, grid: Grid, format: seq<bool>)
    requires Square(grid, Size(v)) && |format| == 15
    modifies grid
    ensures forall r, c :: 0 <= r < Size(v) && 0 <= c < Size(v) && !InFormat(Size(v), Cell(r, c)) ==>
      grid[r, c] == old(grid[r, c])
    ensures FormatShown(v, grid, format)
  {
    hide InFormat, FirstCopy, SecondCopy, FormatCell, FormatCopy, Shown;
    WriteFirstCopy(Size(v), grid, format);
    WriteSecondCopy(Size(v), grid, format);
    CopiesShown(Size(v), grid, format);
    OnlyFormatCells(Size(v));
  }

  ghost predicate FirstCopy(n: nat, grid: Grid, format: seq<bool>)
    requires n >= 21 && Square(grid, n) && |format| == 15
    reads grid
  {
    && (forall k :: 0 <= k < 6 ==> grid[8, k] == format[k])
    && grid[8, 7] == format[6] && grid[8, 8] == format[7] && grid[7, 8] == format[8]
    && (forall k :: 0 <= k < 6 ==> grid[k, 8] == format[14 - k])
  }

  ghost predicate SecondCopy(n: nat, grid: Grid, format: seq<bool>)
    requires n >= 21 && Square(grid, n) && |format| == 15
    reads grid
  {
    && (forall k :: n - 8 <= k < n ==> grid[k, 8] == format[n - 1 - k])
    && (forall k :: n - 7 <= k < n ==> grid[8, k] == format[k - n + 15])
  }

  lemma CopiesShown(n: nat, grid: Grid, format: seq<bool>)
    requires n >= 21 && Square(grid, n) && |format| == 15
    requires FirstCopy(n, grid, format) && SecondCopy(n, grid, format)
    ensures forall i :: 0 <= i < 15 ==> Shown(grid, FormatCell(i), format[i]) && Shown(grid, FormatCopy(n, i), format[i])
  {
    forall i | 0 <= i < 15
      ensures Shown(grid, FormatCell(i), format[i]) && Shown(grid, FormatCopy(n, i), format[i])
    {
      FirstShown(n, grid, format, i);
      SecondShown(n, grid, format, i);
    }
  }

  lemma FirstShown(n: nat, grid: Grid, format: seq<bool>, i: nat)
    requires n >= 21 && Square(grid, n) && |format| == 15 && i < 15 && FirstCopy(n, grid, format)
    ensures Shown(grid, FormatCell(i), format[i])
  {
    if i >= 9 {
      assert grid[14 - i, 8] == format[14 - (14 - i)];
    }
  }

  lemma SecondShown(n: nat, grid: Grid, format: seq<bool>, i: nat)
    requires n >= 21 && Square(grid, n) && |format| == 15 && i < 15 && SecondCopy(n, grid, format)
    ensures Shown(grid, FormatCopy(n, i), format[i])
  {
    if i <= 7 {
      assert grid[n - 1 - i, 8] == format[n - 1 - (n - 1 - i)];
    } else {
      assert grid[8, n - 15 + i] == format[n - 15 + i - n + 15];
    }
  }

  lemma OnlyFormatCells(n: nat)
    requires n >= 21
    ensures forall r, c :: (r == 8 && 0 <= c <= 8) || (c == 8 && 0 <= r <= 8) || (c == 8 && n - 8 <= r < n) || (r == 8 && n - 8 <= c < n) ==>
              InFormat(n, Cell(r, c))
  {
  }

  /** The first copy, in row 8 and column 8 near the top-left finder. */
  method WriteFirstCopy(n: nat, grid: Grid, format: seq<bool>)
    requires n >= 21 && Square(grid, n) && |format| == 15
    modifies grid
    ensures forall r, c :: 0 <= r < n && 0 <= c < n && !(r == 8 && c <= 8) && !(c == 8 && r <= 8) ==> grid[r, c] == old(grid[r, c])
    ensures FirstCopy(n, grid, format)
  {
    for i := 0 to 6
      invariant forall r, c :: 0 <= r < n && 0 <= c < n && !(r == 8 && c <= 8) ==> grid[r, c] == old(grid[r, c])
      invariant forall k :: 0 <= k < i ==> grid[8, k] == format[k]
    {
      grid[8, i] := format[i];
    }
    grid[8, 7] := format[6];
    grid[8, 8] := format[7];
    grid[7, 8] := format[8];
    for i := 9 to 15
      invariant forall r, c :: 0 <= r < n && 0 <= c < n && !(r == 8 && c <= 8) && !(c == 8 && r <= 8) ==> grid[r, c] == old(grid[r, c])
      invariant forall k :: 0 <= k < 6 ==> grid[8, k] == format[k]
      invariant grid[8, 7] == format[6] && grid[8, 8] == format[7] && grid[7, 8] == format[8]
      invariant forall k :: 14 - i < k < 6 ==> grid[k, 8] == format[14 - k]
    {
      grid[14 - i, 8] := format[i];
    }
  }

  /** The second copy, in column 8 at the bottom and in row 8 on the right. */
  method WriteSecondCopy(n: nat, grid: Grid, format: seq<bool>)
    requires n >= 21 && Square(grid, n) && |format| == 15 && FirstCopy(n, grid, format)
    modifies grid
    ensures forall r, c :: 0 <= r < n && 0 <= c < n && !(c == 8 && r >= n - 8) && !(r == 8 && c >= n - 8) ==> grid[r, c] == old(grid[r, c])
    ensures FirstCopy(n, grid, format) && SecondCopy(n, grid, format)
  {
    for i := 0 to 8
      invariant forall r, c :: 0 <= r < n && 0 <= c < n && !(c == 8 && r >= n - 8) ==> grid[r, c] == old(grid[r, c])
      invariant forall k :: n - 1 - i < k < n ==> grid[k, 8] == format[n - 1 - k]
    {
      grid[n - 1 - i, 8] := format[i];
    }
    for i := 8 to 15
      invariant forall r, c :: 0 <= r < n && 0 <= c < n && !(c == 8 && r >= n - 8) && !(r == 8 && c >= n - 8) ==> grid[r, c] == old(grid[r, c])
      invariant forall k :: n - 8 <= k < n ==> grid[k, 8] == format[n - 1 - k]
      invariant forall k :: n - 7 <= k < n - 15 + i ==> grid[8, k] == format[k - n + 15]
    {
      grid[8, n - 15 + i] := format[i];
    }
  }

  /** Where bit `i` of the version information goes, in the top-right block. */
  function VersionCell(n: nat, i: nat): Cell {
    Cell(i / 3, n - 11 + i % 3)
  }

  /** The block of version information is filled row by row, three bits a row. */
  lemma VersionCellsAre(n: nat, r: nat, c: nat)
    requires r < 6 && c < 3
    ensures VersionCell(n, 3 * r + c) == Cell(r, n - 11 + c)
  {
  }

  /** Both copies of the version information can be read, the second one mirrored. */
  ghost predicate VersionShown(v: Version, grid: Grid, info: seq<bool>)
    requires |info| == 18
    reads grid
  {
    forall i :: 0 <= i < 18 ==>
      var x := VersionCell(Size(v), i); Shown(grid, x, info[i]) && Shown(grid, Cell(x.c, x.r), info[i])
  }

  /** Writes both copies of the version information, mirrored, and nothing outside the version cells. */
  method WriteVersion(v: Version, grid: Grid, info: seq<bool>)
    requires Square(grid, Size(v)) && |info| == 18 && v >= 7
    modifies grid
    ensures forall r, c :: 0 <= r < Size(v) && 0 <= c < Size(v) && !InVersion(v, Cell(r, c)) ==>
      grid[r, c] == old(grid[r, c])
    ensures VersionShown(v, grid, info)
  {
    var n := Size(v);
    for i := 0 to 18
      invariant forall r, c :: 0 <= r < n && 0 <= c < n && !InVersion(v, Cell(r, c)) ==> grid[r, c] == old(grid[r, c])
      invariant forall k :: 0 <= k < i ==>
        var x := VersionCell(n, k); Shown(grid, x, info[k]) && Shown(grid, Cell(x.c, x.r), info[k])
    {
      var (r, c) := (i / 3, i % 3);
      grid[r, n - 11 + c] := info[i];
      grid[n - 11 + c, r] := info[i];
    }
  }

  // ---- encoding and decoding a symbol

  class QrSymbol {
    const version: Version
    const mask: Mask
    const modules: Grid

    /** The symbol's data cells carry the bits of `text`. */
    ghost predicate Shows(text: seq<Code>)
      reads modules
    {
      && Square(modules, Size(version)) && Fits(text, version)
      && (forall k :: 0 <= k < |DataCells(version)| ==> InGrid(Size(version), DataCells(version)[k]))
      && ModuleBits(modules, mask, DataCells(version)) == SymbolBits(text, version)
    }

    constructor (version: Version, mask: Mask, modules: Grid)
      ensures this.version == version && this.mask == mask && this.modules == modules
    {
      this.version, this.mask, this.modules := version, mask, modules;
    }
  }

  lemma MaskedBits(v: Version, mask: Mask, text: seq<Code>, modules: Grid, grid: Grid)
    requires Fits(text, v) && Square(modules, Size(v)) && Square(grid, Size(v))
    requires Placed(modules, DataCells(v), |DataCells(v)|, BytesToBits(Codewords(text, v)))
    requires forall r, c :: 0 <= r < Size(v) && 0 <= c < Size(v) && !Reserved(v, Cell(r, c)) ==>
      grid[r, c] == (modules[r, c] != MaskFn(mask, Cell(r, c)))
    ensures forall k :: 0 <= k < |DataCells(v)| ==> InGrid(Size(v), DataCells(v)[k])
    ensures ModuleBits(grid, mask, DataCells(v)) == SymbolBits(text, v)
  {
    hide DataCells, Reserved, MaskFn, BytesToBits, Codewords, Fits;
    DataCellsAreFree(v);
    var cells := DataCells(v);
    forall k | 0 <= k < |cells|
      ensures InGrid(Size(v), cells[k]) && !Reserved(v, cells[k])
    {
      assert cells[k] in cells;
    }
    var (left, right) := (ModuleBits(grid, mask, cells), SymbolBits(text, v));
    forall k | 0 <= k < |cells|
      ensures left[k] == right[k]
    {
      assert cells[k] == Cell(cells[k].r, cells[k].c);
    }
  }

  ghost predicate InPattern(v: Version, x: Cell) {
    Reserved(v, x) && !InFormat(Size(v), x) && !InVersion(v, x)
  }

  /** The reserved cells of a symbol: both areas of information, and elsewhere the function patterns. */
  ghost predicate Framed(v: Version, grid: Grid, patterns: (Version, Cell) -> bool, format: seq<bool>, info: seq<bool>)
    requires Square(grid, Size(v)) && |format| == 15 && |info| == 18
    reads grid
  {
    && FormatShown(v, grid, format) && (v >= 7 ==> VersionShown(v, grid, info))
    && forall r, c :: 0 <= r < Size(v) && 0 <= c < Size(v) && InPattern(v, Cell(r, c)) ==> grid[r, c] == patterns(v, Cell(r, c))
  }

  lemma FormatApart(v: Version)
    ensures forall i :: 0 <= i < 15 ==> FormatApartAt(v, FormatCell(i)) && FormatApartAt(v, FormatCopy(Size(v), i))
  {
  }

  ghost predicate FormatApartAt(v: Version, x: Cell) {
    InGrid(Size(v), x) && !InVersion(v, x)
  }

  /** Writes the format information, and from version 7 on the version information. */
  method WriteInformation(v: Version, grid: Grid, format: seq<bool>, info: seq<bool>)
    requires Square(grid, Size(v)) && |format| == 15 && |info| == 18
    modifies grid
    ensures forall r, c :: 0 <= r < Size(v) && 0 <= c < Size(v) && !InFormat(Size(v), Cell(r, c)) && !InVersion(v, Cell(r, c)) ==>
      grid[r, c] == old(grid[r, c])
    ensures FormatShown(v, grid, format) && (v >= 7 ==> VersionShown(v, grid, info))
  {
    hide VersionShown, InVersion, InFormat, FormatCell, FormatCopy;
    FormatApart(v);
    WriteFormat(v, grid, format);
    if v >= 7 {
      WriteVersion(v, grid, info);
    }
  }

  /**
   Encodes `text` under the given mask.  The colours of the function patterns and
   the format and version bits are arbitrary here.
   */
  method EncodeToMatrix(tables: Gf256.Tables, text: seq<Code>, mask: Mask,
                        patterns: (Version, Cell) -> bool, format: seq<bool>, info: seq<bool>)
    returns (qr: Option<QrSymbol>)
    requires tables.Valid() && |format| == 15 && |info| == 18
    ensures qr.None? <==> forall v: Version :: !Fits(text, v)
    ensures qr.Some? ==> fresh(qr.value) && qr.value.Shows(text) && qr.value.mask == mask
    ensures qr.Some? ==> forall u: Version :: u < qr.value.version ==> !Fits(text, u)
    ensures qr.Some? ==> Framed(qr.value.version, qr.value.modules, patterns, format, info)
  {
    hide FormatShown, VersionShown, Fits, Reserved, DataCells, MaskFn, Placed, Codewords, SymbolBits, InFormat, InVersion, Gf256.Power;
    var chosen := ChooseVersion(text);
    if chosen.None? {
      return None;
    }
    var v := chosen.value;
    var codewords := BuildCodewords(tables, text, v);
    var reserved := FunctionLayout(v);
    var n := Size(v);
    var modules := new bool[n, n]((i, j) => patterns(v, Cell(i, j)));
    PlaceBits(v, modules, reserved, codewords);
    var grid := ApplyMask(v, modules, reserved, mask);
    AreasReserved(v);
    WriteInformation(v, grid, format, info);
    MaskedBits(v, mask, text, modules, grid);
    var symbol := new QrSymbol(v, mask, grid);
    qr := Some(symbol);
  }

  lemma AreasReserved(v: Version)
    ensures forall x :: InFormat(Size(v), x) || InVersion(v, x) ==> Reserved(v, x)
  {
    hide InFinder, InTiming, InAlignment, InFormat, InVersion;
  }

  /** Reads the data cells in zig-zag order, undoing the mask. */
  method ReadModules(v: Version, modules: Grid, reserved: Grid, mask: Mask) returns (bits: Bits)
    requires IsLayout(v, reserved) && Square(modules, Size(v))
    requires forall k :: 0 <= k < |DataCells(v)| ==> InGrid(Size(v), DataCells(v)[k])
    ensures bits == ModuleBits(modules, mask, DataCells(v))
  {
    hide DataCells, Reserved, MaskFn, ZigZagFrom;
    var n := Size(v);
    bits := [];
    ghost var done: seq<Cell> := [];
    ZigZagBegin(v);
    var upward := true;
    var col: int := n - 1;
    while col > 0
      invariant col < n && Progress(v, done, ZigZagFrom(ReservedFn(v), n, col, upward))
      invariant AllInGrid(n, done) && bits == ModuleBits(modules, mask, done)
    {
      ZigZagUnfold(v, n, col, upward);
      if col == 6 {
        col := col - 1;
      }
      ghost var after := ZigZagFrom(ReservedFn(v), n, col - 2, !upward);
      bits, done := ReadStrip(v, modules, reserved, mask, col, upward, bits, done, after);
      upward := !upward;
      col := col - 2;
    }
    ZigZagEnd(v, n, col, upward);
    ProgressEnd(v, done);
  }

  ghost predicate AllInGrid(n: nat, cells: seq<Cell>) {
    forall k :: 0 <= k < |cells| ==> InGrid(n, cells[k])
  }

  lemma ZigZagBegin(v: Version)
    ensures Progress(v, [], ZigZagFrom(ReservedFn(v), Size(v), Size(v) - 1, true))
  {
    hide Reserved, ZigZagFrom;
  }

  method ReadStrip(v: Version, modules: Grid, reserved: Grid, mask: Mask, col: int, upward: bool,
                   start: Bits, ghost before: seq<Cell>, ghost after: seq<Cell>)
    returns (bits: Bits, ghost done: seq<Cell>)
    requires IsLayout(v, reserved) && Square(modules, Size(v))
    requires 1 <= col < Size(v)
    requires Progress(v, before, Strip(ReservedFn(v), Size(v), col, upward, 0) + after)
    requires AllInGrid(Size(v), before) && start == ModuleBits(modules, mask, before)
    ensures Progress(v, done, after)
    ensures AllInGrid(Size(v), done) && bits == ModuleBits(modules, mask, done)
  {
    hide DataCells, Reserved, MaskFn, Strip, Progress, Keep, ModuleBits, IsLayout;
    var n := Size(v);
    bits, done := start, before;
    for i := 0 to n
      invariant Progress(v, done, Strip(ReservedFn(v), n, col, upward, i) + after)
      invariant AllInGrid(n, done) && bits == ModuleBits(modules, mask, done)
    {
      var row := if upward then n - 1 - i else i;
      ghost var rest := Strip(ReservedFn(v), n, col, upward, i + 1) + after;
      StripUnfold(v, n, col, upward, i, after);
      bits, done := ReadCell(v, modules, reserved, mask, Cell(row, col), bits, done,
                             Keep(ReservedFn(v), Cell(row, col - 1)) + rest);
      bits, done := ReadCell(v, modules, reserved, mask, Cell(row, col - 1), bits, done, rest);
    }
    StripEnd(v, n, col, upward, after);
  }

  method ReadCell(v: Version, modules: Grid, reserved: Grid, mask: Mask, x: Cell,
                  start: Bits, ghost done: seq<Cell>, ghost rest: seq<Cell>)
    returns (bits: Bits, ghost now: seq<Cell>)
    requires IsLayout(v, reserved) && Square(modules, Size(v)) && InGrid(Size(v), x)
    requires Progress(v, done, Keep(ReservedFn(v), x) + rest)
    requires AllInGrid(Size(v), done) && start == ModuleBits(modules, mask, done)
    ensures Progress(v, now, rest)
    ensures AllInGrid(Size(v), now) && bits == ModuleBits(modules, mask, now)
  {
    hide DataCells, Reserved, MaskFn;
    ProgressKeep(v, done, x, rest);
    bits, now := start, done + Keep(ReservedFn(v), x);
    if !reserved[x.r, x.c] {
      bits := bits + [modules[x.r, x.c] != MaskFn(mask, x)];
      assert bits == ModuleBits(modules, mask, now);
    } else {
      assert now == done;
    }
  }

  // ---- parsing the bits back

  method FlattenBlocks(blocks: seq<Block>) returns (data: seq<Code>)
    ensures data == Flatten(blocks)
  {
    data := [];
    for b := 0 to |blocks|
      invariant data == Flatten(blocks[..b])
    {
      assert blocks[..b + 1][..b] == blocks[..b];
      data := data + blocks[b];
    }
    assert blocks[..|blocks|] == blocks;
  }

  method UnpackBytes(data: seq<Code>) returns (bits: Bits)
    ensures bits == BytesToBits(data)
  {
    hide ToBits;
    bits := [];
    assert data[0..] == data;
    for i := 0 to |data|
      invariant bits + BytesToBits(data[i..]) == BytesToBits(data)
    {
      assert data[i..][1..] == data[i + 1..];
      var eight := UnpackByte(data[i]);
      bits := bits + eight;
    }
    assert data[|data|..] == [];
    assert bits + [] == bits;
  }

  method UnpackByte(byte: Code) returns (bits: Bits)
    ensures bits == ToBits(byte, 8)
  {
    hide ToBits;
    bits := [];
    for k := 0 to 8
      invariant bits == ToBits(byte, 8)[..k]
    {
      BitOfNumber(byte, 8, k);
      bits := bits + [ShiftRight(byte, 7 - k) % 2 == 1];
    }
  }

  method TakeBits(bits: Bits, p: nat, n: nat) returns (value: nat)
    ensures value == Take(bits, p, n)
  {
    value := 0;
    for k := 0 to n
      invariant value == FromBits(Window(bits, p, k))
    {
      assert Window(bits, p, k + 1)[..k] == Window(bits, p, k);
      value := 2 * value + (if BitAt(bits, p + k) then 1 else 0);
    }
  }

  method ParseNumeric(bits: Bits, start: nat, total: nat) returns (out: seq<Code>)
    ensures out == TextOf(ReadNumeric(bits, start, total))
  {
    hide Take, Decimal.PadStart, Decimal.Digits;
    var (count, p) := (total, start);
    out := [];
    while count >= 3
      invariant out + TextOf(ReadNumeric(bits, p, count)) == TextOf(ReadNumeric(bits, start, total))
    {
      var group := TakeBits(bits, p, 10);
      TextOfConcat(Decimal.PadStart(Decimal.Digits(group), 3), ReadNumeric(bits, p + 10, count - 3));
      out := out + TextOf(Decimal.PadStart(Decimal.Digits(group), 3));
      count, p := count - 3, p + 10;
    }
    if count == 2 {
      var group := TakeBits(bits, p, 7);
      out := out + TextOf(Decimal.PadStart(Decimal.Digits(group), 2));
    } else if count == 1 {
      var group := TakeBits(bits, p, 4);
      out := out + TextOf(Decimal.Digits(group));
    }
  }

  lemma TextOfConcat(a: seq<Decimal.Digit>, b: seq<Decimal.Digit>)
    ensures TextOf(a + b) == TextOf(a) + TextOf(b)
  {
  }

  method ParseBytes(bits: Bits, start: nat, count: nat) returns (out: seq<Code>)
    ensures out == ReadBytes(bits, start, count)
  {
    hide Take;
    out := [];
    var p := start;
    for i := 0 to count
      invariant out + ReadBytes(bits, p, count - i) == ReadBytes(bits, start, count)
    {
      TakeByte(bits, p);
      var byte := TakeBits(bits, p, 8);
      ReadBytesNext(out, bits, p, count - i);
      out := out + [byte];
      p := p + 8;
    }
    assert out + [] == out;
  }

  lemma ReadBytesNext(out: seq<Code>, bits: Bits, p: nat, count: nat)
    requires count > 0 && Take(bits, p, 8) < 256
    ensures out + ReadBytes(bits, p, count) == (out + [Take(bits, p, 8)]) + ReadBytes(bits, p + 8, count - 1)
  {
    hide Take;
  }

  method ParseText(bits: Bits, v: Version) returns (text: seq<Code>)
    ensures text == ReadText(bits, v)
  {
    hide Take, ReadNumeric, ReadBytes;
    var mode := TakeBits(bits, 0, 4);
    if mode == 1 {
      var count := TakeBits(bits, 4, CountBits(Numeric, v));
      text := ParseNumeric(bits, 4 + CountBits(Numeric, v), count);
    } else {
      var count := TakeBits(bits, 4, CountBits(ByteMode, v));
      text := ParseBytes(bits, 4 + CountBits(ByteMode, v), count);
    }
  }

  /** Decodes a symbol: whatever text it shows is the text returned. */
  method DecodeForTest(qr: QrSymbol) returns (text: seq<Code>)
    requires Square(qr.modules, Size(qr.version))
    ensures forall t :: qr.Shows(t) ==> text == t
  {
    hide DataCells, Fits, ModuleBits, SymbolBits, EcM, Deinterleave, ReadText, MaxData, MaskFn, IsLayout;
    var v := qr.version;
    DataCellsInGrid(v);
    var reserved := FunctionLayout(v);
    var bits := ReadModules(v, qr.modules, reserved, qr.mask);
    var stream := PackBits(bits[..|bits| / 8 * 8]);
    BlockSizesTotal(v);
    var blocks := DeinterleaveStream(stream, BlockSizes(v), MaxData(v));
    var data := FlattenBlocks(blocks);
    var unpacked := UnpackBytes(data);
    text := ParseText(unpacked, v);
    forall t | qr.Shows(t)
      ensures text == t
    {
      DecodeSymbolBits(t, v);
    }
  }

  /** Encoding and decoding any text that fits some version gives the text back, under every mask. */
  method EncodeThenDecode(tables: Gf256.Tables, text: seq<Code>, mask: Mask,
                          patterns: (Version, Cell) -> bool, format: seq<bool>, info: seq<bool>)
    returns (result: Option<seq<Code>>)
    requires tables.Valid() && |format| == 15 && |info| == 18
    ensures result == if exists v: Version :: Fits(text, v) then Some(text) else None
  {
    hide Fits, DataCells, ModuleBits, SymbolBits, Gf256.Power;
    var qr := EncodeToMatrix(tables, text, mask, patterns, format, info);
    if qr.None? {
      return None;
    }
    var decoded := DecodeForTest(qr.value);
    assert qr.value.Shows(text) && Fits(text, qr.value.version);
    result := Some(decoded);
  }
}
