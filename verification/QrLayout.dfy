/**
 The module grid of a QR symbol: which cells are reserved for function patterns,
 and the zig-zag order in which the remaining cells carry data bits (sections 6.3
 and 7.7 of ISO/IEC 18004:2015).
 */
module QrLayout {
  import opened Finite

  type Version = v: nat | 1 <= v <= 10 witness 1

  datatype Cell = Cell(r: int, c: int)

  function Size(v: Version): nat {
    17 + v * 4
  }

  // ---- zig-zag order over any grid with an even last column

  type Reservation = Cell -> bool

  function Row(n: nat, upward: bool, i: nat): int {
    if upward then n - 1 - i else i
  }

  function Keep(reserved: Reservation, cell: Cell): seq<Cell> {
    if reserved(cell) then [] else [cell]
  }

  /** The free cells of a two-column strip from its step `i` on, right column first. */
  function Strip(reserved: Reservation, n: nat, col: int, upward: bool, i: nat): seq<Cell>
    decreases n - i
  {
    if i >= n then [] else
      Keep(reserved, Cell(Row(n, upward, i), col)) + Keep(reserved, Cell(Row(n, upward, i), col - 1)) +
      Strip(reserved, n, col, upward, i + 1)
  }

  /** The strip to the left of `col`: column 6, the vertical timing pattern, is skipped. */
  function SkipTiming(col: int): int {
    if col == 6 then 5 else col
  }

  function ZigZagFrom(reserved: Reservation, n: nat, col: int, upward: bool): seq<Cell>
    decreases col
  {
    if col <= 0 then [] else
      Strip(reserved, n, SkipTiming(col), upward, 0) + ZigZagFrom(reserved, n, SkipTiming(col) - 2, !upward)
  }

  /** Every free cell in placement order, starting upwards from the right edge. */
  function ZigZag(reserved: Reservation, n: nat): seq<Cell> {
    ZigZagFrom(reserved, n, n - 1, true)
  }

  ghost predicate InStrip(reserved: Reservation, n: nat, col: int, upward: bool, i: nat, x: Cell) {
    !reserved(x) && (x.c == col || x.c == col - 1) && 0 <= x.r < n &&
    (if upward then n - 1 - x.r else x.r) >= i
  }

  lemma {:induction false} StripCells(reserved: Reservation, n: nat, col: int, upward: bool, i: nat)
    ensures forall x :: x in Strip(reserved, n, col, upward, i) <==> InStrip(reserved, n, col, upward, i, x)
    ensures Distinct(Strip(reserved, n, col, upward, i))
    decreases n - i
  {
    if i < n {
      StripCells(reserved, n, col, upward, i + 1);
      var r := Row(n, upward, i);
      var (a, b) := (Keep(reserved, Cell(r, col)), Keep(reserved, Cell(r, col - 1)));
      var rest := Strip(reserved, n, col, upward, i + 1);
      DistinctConcat(a, b);
      DistinctConcat(a + b, rest);
    }
  }

  /** Strips to the left of an even column, or of an odd column left of the timing column. */
  ghost predicate Aligned(col: int) {
    if col >= 6 then col % 2 == 0 else col % 2 == 1
  }

  ghost predicate InZigZag(reserved: Reservation, n: nat, col: int, x: Cell) {
    !reserved(x) && 0 <= x.r < n && 0 <= x.c <= col && x.c != 6
  }

  /** The order visits every free cell outside column 6, and visits it once. */
  lemma {:induction false} ZigZagCells(reserved: Reservation, n: nat, col: int, upward: bool)
    requires Aligned(col)
    ensures forall x :: x in ZigZagFrom(reserved, n, col, upward) <==> InZigZag(reserved, n, col, x)
    ensures Distinct(ZigZagFrom(reserved, n, col, upward))
    decreases col
  {
    if col > 0 {
      hide Distinct, Strip, InStrip;
      var c := SkipTiming(col);
      var a, b := Strip(reserved, n, c, upward, 0), ZigZagFrom(reserved, n, c - 2, !upward);
      StripCells(reserved, n, c, upward, 0);
      ZigZagCells(reserved, n, c - 2, !upward);
      assert ZigZagFrom(reserved, n, col, upward) == a + b;
      hide ZigZagFrom, InZigZag, Aligned;
      ZigZagSplit(reserved, n, col, upward);
      DistinctConcat(a, b);
    }
  }

  /** A free cell up to a column is in the strip there or further left, not both. */
  lemma ZigZagSplit(reserved: Reservation, n: nat, col: int, upward: bool)
    requires Aligned(col) && col > 0
    ensures var c := SkipTiming(col);
            forall x :: (InZigZag(reserved, n, col, x) <==> InStrip(reserved, n, c, upward, 0, x) || InZigZag(reserved, n, c - 2, x)) &&
                        !(InStrip(reserved, n, c, upward, 0, x) && InZigZag(reserved, n, c - 2, x))
  {
  }

  // ---- the order of the cells

  /** Columns to the right of a cell, not counting column 6. */
  function FromRight(n: nat, x: Cell): int {
    if x.c > 6 then n - 1 - x.c else n - 2 - x.c
  }

  /** Rows passed in the cell's strip before its own: every other strip runs upwards, beginning with the first. */
  function RowsBefore(n: nat, x: Cell): int {
    if FromRight(n, x) / 2 % 2 == 0 then n - 1 - x.r else x.r
  }

  /** Strips of two columns from the right, in each strip row by row, and in each row right before left. */
  predicate Earlier(n: nat, x: Cell, y: Cell) {
    var (a, b) := (FromRight(n, x), FromRight(n, y));
    a / 2 < b / 2 || (a / 2 == b / 2 &&
      (RowsBefore(n, x) < RowsBefore(n, y) || (RowsBefore(n, x) == RowsBefore(n, y) && a < b)))
  }

  ghost predicate InOrder(n: nat, cells: seq<Cell>) {
    forall i, j :: 0 <= i < j < |cells| ==> Earlier(n, cells[i], cells[j])
  }

  lemma OrderConcat(n: nat, a: seq<Cell>, b: seq<Cell>)
    requires InOrder(n, a) && InOrder(n, b)
    requires forall x, y :: x in a && y in b ==> Earlier(n, x, y)
    ensures InOrder(n, a + b)
  {
    hide Earlier;
    var c := a + b;
    forall i, j | 0 <= i < j < |c|
      ensures Earlier(n, c[i], c[j])
    {
      if i < |a| <= j {
        assert c[i] == a[i] && c[j] == b[j - |a|] && a[i] in a && b[j - |a|] in b;
      }
    }
  }

  /** Where a strip lies: its right column is an even number of columns from the right edge. */
  ghost predicate StripAt(n: nat, col: int, upward: bool) {
    var d := FromRight(n, Cell(0, col));
    col != 6 && d >= 0 && d % 2 == 0 && (upward <==> d / 2 % 2 == 0)
  }

  /** The two cells of a row, as far as they are free, come in order. */
  lemma RowOrder(reserved: Reservation, n: nat, col: int, upward: bool, r: int)
    requires StripAt(n, col, upward) && col != 7
    ensures InOrder(n, Keep(reserved, Cell(r, col)) + Keep(reserved, Cell(r, col - 1)))
  {
    assert Earlier(n, Cell(r, col), Cell(r, col - 1));
  }

  lemma RowBefore(n: nat, col: int, upward: bool, i: nat, x: Cell, y: Cell)
    requires StripAt(n, col, upward) && col != 7
    requires (x.c == col || x.c == col - 1) && (y.c == col || y.c == col - 1)
    requires x.r == Row(n, upward, i) && (if upward then n - 1 - y.r else y.r) >= i + 1
    ensures Earlier(n, x, y)
  {
    var d := FromRight(n, Cell(0, col));
    assert FromRight(n, x) == d || FromRight(n, x) == d + 1;
    assert FromRight(n, y) == d || FromRight(n, y) == d + 1;
    assert (d + 1) / 2 == d / 2;
  }

  lemma {:induction false} StripOrder(reserved: Reservation, n: nat, col: int, upward: bool, i: nat)
    requires StripAt(n, col, upward) && col != 7
    ensures InOrder(n, Strip(reserved, n, col, upward, i))
    decreases n - i
  {
    if i < n {
      hide InOrder, Earlier, StripAt, Distinct;
      StripOrder(reserved, n, col, upward, i + 1);
      var r := Row(n, upward, i);
      var row := Keep(reserved, Cell(r, col)) + Keep(reserved, Cell(r, col - 1));
      var rest := Strip(reserved, n, col, upward, i + 1);
      RowOrder(reserved, n, col, upward, r);
      StripCells(reserved, n, col, upward, i + 1);
      StripStep(reserved, n, col, upward, i);
      hide Strip;
      forall x, y | x in row && y in rest
        ensures Earlier(n, x, y)
      {
        assert InStrip(reserved, n, col, upward, i + 1, y);
        RowBefore(n, col, upward, i, x, y);
      }
      OrderConcat(n, row, rest);
    } else {
      assert Strip(reserved, n, col, upward, i) == [];
    }
  }

  lemma StripStep(reserved: Reservation, n: nat, col: int, upward: bool, i: nat)
    requires i < n
    ensures Strip(reserved, n, col, upward, i) ==
            Keep(reserved, Cell(Row(n, upward, i), col)) + Keep(reserved, Cell(Row(n, upward, i), col - 1)) +
            Strip(reserved, n, col, upward, i + 1)
  {
  }

  lemma TwoFurther(d: int)
    requires d % 2 == 0
    ensures (d + 2) % 2 == 0 && ((d + 2) / 2 % 2 == 0 <==> d / 2 % 2 != 0)
  {
    assert (d + 2) / 2 == d / 2 + 1;
  }

  /** The next strip runs the other way. */
  lemma NextStrip(n: nat, c: int, upward: bool)
    requires StripAt(n, c, upward) && n % 2 == 1 && c > 0
    ensures c != 7 && Aligned(c - 2) && (c > 2 ==> StripAt(n, SkipTiming(c - 2), !upward))
  {
    var d := FromRight(n, Cell(0, c));
    assert c != 7;
    TwoFurther(d);
    assert c > 2 ==> FromRight(n, Cell(0, SkipTiming(c - 2))) == d + 2;
    assert Aligned(c - 2) by { EvenApart(n, c, d); }
  }

  lemma EvenApart(n: nat, c: int, d: int)
    requires n % 2 == 1 && d % 2 == 0 && c != 6 && c != 7 && c > 0
    requires d == if c > 6 then n - 1 - c else n - 2 - c
    ensures Aligned(c - 2)
  {
  }

  lemma HalvesApart(d: int, a: int, b: int)
    requires d % 2 == 0 && (a == d || a == d + 1) && b >= d + 2
    ensures a / 2 < b / 2
  {
    assert b / 2 >= (d + 2) / 2;
  }

  lemma LeftIsLater(n: nat, c: int, upward: bool, x: Cell, y: Cell)
    requires StripAt(n, c, upward) && c != 7 && (x.c == c || x.c == c - 1) && y.c <= c - 2 && y.c != 6
    ensures Earlier(n, x, y)
  {
    hide RowsBefore;
    var (d, a, b) := (FromRight(n, Cell(0, c)), FromRight(n, x), FromRight(n, y));
    assert a == d || a == d + 1;
    assert b >= d + 2;
    hide FromRight;
    HalvesApart(d, a, b);
  }

  lemma {:induction false} ZigZagOrder(reserved: Reservation, n: nat, col: int, upward: bool)
    requires col > 0 ==> StripAt(n, SkipTiming(col), upward)
    requires n % 2 == 1
    ensures InOrder(n, ZigZagFrom(reserved, n, col, upward))
    decreases col
  {
    if col > 0 {
      hide StripAt, Earlier, Strip, Distinct, InOrder, Aligned;
      var c := SkipTiming(col);
      var a, b := Strip(reserved, n, c, upward, 0), ZigZagFrom(reserved, n, c - 2, !upward);
      NextStrip(n, c, upward);
      StripOrder(reserved, n, c, upward, 0);
      StripCells(reserved, n, c, upward, 0);
      ZigZagOrder(reserved, n, c - 2, !upward);
      ZigZagCells(reserved, n, c - 2, !upward);
      forall x, y | x in a && y in b
        ensures Earlier(n, x, y)
      {
        assert x.c == c || x.c == c - 1 by { assert InStrip(reserved, n, c, upward, 0, x); }
        assert y.c <= c - 2 && y.c != 6 by { assert InZigZag(reserved, n, c - 2, y); }
        LeftIsLater(n, c, upward, x, y);
      }
      OrderConcat(n, a, b);
    } else {
      assert ZigZagFrom(reserved, n, col, upward) == [];
    }
  }

  // ---- reserved cells

  predicate Within(x: Cell, r1: int, r2: int, c1: int, c2: int) {
    r1 <= x.r < r2 && c1 <= x.c < c2
  }

  /** Finder patterns with their separators, in three corners. */
  predicate InFinder(n: nat, x: Cell) {
    Within(x, 0, 8, 0, 8) || Within(x, 0, 8, n - 8, n) || Within(x, n - 8, n, 0, 8)
  }

  predicate InTiming(n: nat, x: Cell) {
    Within(x, 6, 7, 8, n - 8) || Within(x, 8, n - 8, 6, 7)
  }

  /** Alignment-pattern centre coordinates. */
  function Centres(v: Version): seq<int> {
    match v
    case 1 => []
    case 2 => [6, 18]
    case 3 => [6, 22]
    case 4 => [6, 26]
    case 5 => [6, 30]
    case 6 => [6, 34]
    case 7 => [6, 22, 38]
    case 8 => [6, 24, 42]
    case 9 => [6, 26, 46]
    case _ => [6, 28, 50]
  }

  /** A pattern is drawn around every centre that finder and timing patterns leave free. */
  predicate IsCentre(v: Version, x: Cell) {
    x.r in Centres(v) && x.c in Centres(v) && !InFinder(Size(v), x) && !InTiming(Size(v), x)
  }

  predicate Around(x: Cell, centre: Cell) {
    Within(x, centre.r - 2, centre.r + 3, centre.c - 2, centre.c + 3)
  }

  predicate InAlignment(v: Version, x: Cell) {
    exists i, j :: 0 <= i < |Centres(v)| && 0 <= j < |Centres(v)| &&
                   IsCentre(v, Cell(Centres(v)[i], Centres(v)[j])) && Around(x, Cell(Centres(v)[i], Centres(v)[j]))
  }

  /** Format information, and the dark module at (n - 8, 8). */
  predicate InFormat(n: nat, x: Cell) {
    Within(x, 8, 9, 0, 9) || Within(x, 0, 9, 8, 9) || Within(x, 8, 9, n - 8, n) || Within(x, n - 8, n, 8, 9)
  }

  predicate InVersion(v: Version, x: Cell) {
    var n := Size(v);
    v >= 7 && (Within(x, 0, 6, n - 11, n - 8) || Within(x, n - 11, n - 8, 0, 6))
  }

  predicate Reserved(v: Version, x: Cell) {
    InFinder(Size(v), x) || InTiming(Size(v), x) || InAlignment(v, x) || InFormat(Size(v), x) || InVersion(v, x)
  }

  /** The data cells of a version, in placement order. */
  function DataCells(v: Version): seq<Cell> {
    ZigZag((x: Cell) => Reserved(v, x), Size(v))
  }

  ghost predicate InGrid(n: nat, x: Cell) {
    Within(x, 0, n, 0, n)
  }

  /** The vertical timing column carries no data. */
  lemma TimingColumnReserved(v: Version, x: Cell)
    requires InGrid(Size(v), x) && x.c == 6
    ensures Reserved(v, x)
  {
    hide InAlignment;
  }

  /** The data cells are exactly the unreserved cells of the grid, each once. */
  lemma DataCellsAreFree(v: Version)
    ensures forall x :: x in DataCells(v) <==> InGrid(Size(v), x) && !Reserved(v, x)
    ensures Distinct(DataCells(v))
  {
    hide Reserved, ZigZagFrom;
    ZigZagCells((x: Cell) => Reserved(v, x), Size(v), Size(v) - 1, true);
    forall x | InGrid(Size(v), x) && !Reserved(v, x)
      ensures x.c != 6
    {
      if x.c == 6 {
        TimingColumnReserved(v, x);
      }
    }
  }

  /** The data cells come strip by strip from the right, alternately upwards and downwards, right before left. */
  lemma DataCellsInOrder(v: Version)
    ensures InOrder(Size(v), DataCells(v))
  {
    hide Reserved, ZigZagFrom;
    ZigZagOrder((x: Cell) => Reserved(v, x), Size(v), Size(v) - 1, true);
  }

  // ---- counting

  function Times(x: int, y: int): int {
    x * y
  }

  /** A rectangle of cells, rows r1 .. r2 - 1 and columns c1 .. c2 - 1. */
  datatype Area = Area(r1: int, r2: int, c1: int, c2: int) {
    ghost predicate Has(x: Cell) {
      Within(x, r1, r2, c1, c2)
    }

    function Count(): int {
      Times(r2 - r1, c2 - c1)
    }
  }

  ghost function RowSet(r: int, c1: int, c2: int): (s: set<Cell>)
    ensures forall x :: x in s <==> x.r == r && c1 <= x.c < c2
    decreases c2 - c1
  {
    if c2 <= c1 then {} else RowSet(r, c1, c2 - 1) + {Cell(r, c2 - 1)}
  }

  lemma {:induction false} RowSize(s: set<Cell>, r: int, c1: int, c2: int)
    requires c1 <= c2
    requires forall x :: x in s <==> x.r == r && c1 <= x.c < c2
    ensures |s| == c2 - c1
    decreases c2 - c1
  {
    if c1 == c2 {
      assert s == {};
    } else {
      RowSize(s - {Cell(r, c2 - 1)}, r, c1, c2 - 1);
    }
  }

  ghost function AreaSet(a: Area): (s: set<Cell>)
    ensures forall x :: x in s <==> a.Has(x)
    decreases a.r2 - a.r1
  {
    if a.r2 <= a.r1 then {} else AreaSet(a.(r2 := a.r2 - 1)) + RowSet(a.r2 - 1, a.c1, a.c2)
  }

  lemma {:induction false} AreaSize(s: set<Cell>, a: Area)
    requires a.r1 <= a.r2 && a.c1 <= a.c2
    requires forall x :: x in s <==> a.Has(x)
    ensures |s| == a.Count()
    decreases a.r2 - a.r1
  {
    hide Times;
    OneMoreRow(a.r2 - a.r1, a.c2 - a.c1);
    if a.r1 == a.r2 {
      assert s == {};
    } else {
      var last := set x | x in s && x.r == a.r2 - 1;
      AreaSize(s - last, a.(r2 := a.r2 - 1));
      RowSize(last, a.r2 - 1, a.c1, a.c2);
      SplitSize(s, last);
    }
  }

  lemma OneMoreRow(rows: int, width: int)
    ensures Times(rows, width) == Times(rows - 1, width) + width
    ensures Times(0, width) == 0
  {
  }

  ghost function Union(areas: seq<Area>): set<Cell> {
    if areas == [] then {} else Union(areas[..|areas| - 1]) + AreaSet(areas[|areas| - 1])
  }

  function TotalCount(areas: seq<Area>): int {
    if areas == [] then 0 else TotalCount(areas[..|areas| - 1]) + areas[|areas| - 1].Count()
  }

  ghost predicate Proper(areas: seq<Area>) {
    forall i :: 0 <= i < |areas| ==> areas[i].r1 <= areas[i].r2 && areas[i].c1 <= areas[i].c2
  }

  /** Two rectangles without a common cell. */
  ghost predicate Apart(a: Area, b: Area) {
    a.r2 <= b.r1 || b.r2 <= a.r1 || a.c2 <= b.c1 || b.c2 <= a.c1
  }

  ghost predicate AllApart(areas: seq<Area>) {
    forall i, j :: 0 <= i < j < |areas| ==> Apart(areas[i], areas[j])
  }

  lemma {:induction false} UnionApart(areas: seq<Area>, a: Area)
    requires forall i :: 0 <= i < |areas| ==> Apart(areas[i], a)
    ensures Union(areas) !! AreaSet(a)
  {
    if areas != [] {
      UnionApart(areas[..|areas| - 1], a);
    }
  }

  lemma {:induction false} UnionSize(areas: seq<Area>)
    requires Proper(areas) && AllApart(areas)
    ensures |Union(areas)| == TotalCount(areas)
  {
    if areas != [] {
      hide Union, TotalCount, AreaSet, Apart;
      var n := |areas| - 1;
      UnionSize(areas[..n]);
      AreaSize(AreaSet(areas[n]), areas[n]);
      UnionApart(areas[..n], areas[n]);
      UnionStep(areas);
    }
  }

  lemma UnionStep(areas: seq<Area>)
    requires areas != []
    ensures var n := |areas| - 1;
            && Union(areas) == Union(areas[..n]) + AreaSet(areas[n])
            && TotalCount(areas) == TotalCount(areas[..n]) + areas[n].Count()
            && (Union(areas[..n]) !! AreaSet(areas[n]) ==> |Union(areas)| == |Union(areas[..n])| + |AreaSet(areas[n])|)
  {
    hide AreaSet;
  }

  ghost predicate Covered(areas: seq<Area>, x: Cell) {
    exists i :: 0 <= i < |areas| && areas[i].Has(x)
  }

  lemma {:induction false} UnionIsCovered(areas: seq<Area>, x: Cell)
    ensures x in Union(areas) <==> Covered(areas, x)
  {
    if areas != [] {
      var n := |areas| - 1;
      UnionIsCovered(areas[..n], x);
      assert areas == areas[..n] + [areas[n]];
      CoveredConcat(areas[..n], [areas[n]], x);
      if x in AreaSet(areas[n]) {
        assert areas[n].Has(x);
      }
      if Covered(areas, x) && !areas[n].Has(x) {
        var i :| 0 <= i < |areas| && areas[i].Has(x);
        assert areas[..n][i].Has(x);
      }
    }
  }

  /** If disjoint `areas` make up the reserved cells, the rest of the grid carries data. */
  lemma FreeCells(v: Version, areas: seq<Area>)
    requires Proper(areas) && AllApart(areas)
    requires forall x :: Covered(areas, x) <==> InGrid(Size(v), x) && Reserved(v, x)
    ensures |DataCells(v)| == Size(v) * Size(v) - TotalCount(areas)
  {
    hide Reserved, TotalCount, DataCells, Union, AreaSet, Covered, AllApart, Apart, InGrid;
    var n := Size(v);
    var grid := Area(0, n, 0, n);
    AreaSize(AreaSet(grid), grid);
    UnionSize(areas);
    DataCellsAreFree(v);
    DistinctSize(DataCells(v));
    var free := Elements(DataCells(v));
    forall x
      ensures x in AreaSet(grid) <==> InGrid(n, x)
      ensures x in Union(areas) <==> InGrid(n, x) && Reserved(v, x)
      ensures x in free <==> InGrid(n, x) && !Reserved(v, x)
    {
      GridHas(n, x);
      UnionIsCovered(areas, x);
      assert x in free <==> x in DataCells(v);
    }
    SplitSize(AreaSet(grid), free);
    assert AreaSet(grid) - free == Union(areas);
  }

  lemma GridHas(n: nat, x: Cell)
    ensures Area(0, n, 0, n).Has(x) <==> InGrid(n, x)
  {
  }

  /** Disjoint rectangles that make up the reserved cells common to all versions. */
  function CommonAreas(n: nat): seq<Area> {
    [Area(0, 8, 0, 8), Area(0, 8, n - 8, n), Area(n - 8, n, 0, 8),
     Area(6, 7, 8, n - 8), Area(8, n - 8, 6, 7),
     Area(8, 9, 0, 6), Area(8, 9, 7, 9), Area(0, 6, 8, 9), Area(7, 8, 8, 9),
     Area(8, 9, n - 8, n), Area(n - 8, n, 8, 9)]
  }

  function AlignmentArea(r: int, c: int): Area {
    Area(r - 2, r + 3, c - 2, c + 3)
  }

  /** The alignment patterns that are drawn: one in versions 2 to 6, four from version 7 on. */
  function AlignmentAreas(v: Version): seq<Area> {
    var (m, a) := (8 + 2 * v, Size(v) - 7);
    if v == 1 then []
    else if v <= 6 then [AlignmentArea(a, a)]
    else [AlignmentArea(m, m), AlignmentArea(m, a), AlignmentArea(a, m), AlignmentArea(a, a)]
  }

  function VersionAreas(v: Version): seq<Area> {
    var n := Size(v);
    if v < 7 then [] else [Area(0, 6, n - 11, n - 8), Area(n - 11, n - 8, 0, 6)]
  }

  function ReservedAreas(v: Version): seq<Area> {
    CommonAreas(Size(v)) + AlignmentAreas(v) + VersionAreas(v)
  }

  lemma CommonCovered(n: nat, x: Cell)
    requires n >= 21 && (InFinder(n, x) || InTiming(n, x) || InFormat(n, x))
    ensures Covered(CommonAreas(n), x)
  {
    var areas := CommonAreas(n);
    assert areas[0].Has(x) || areas[1].Has(x) || areas[2].Has(x) || areas[3].Has(x) || areas[4].Has(x) ||
           areas[5].Has(x) || areas[6].Has(x) || areas[7].Has(x) || areas[8].Has(x) || areas[9].Has(x) ||
           areas[10].Has(x);
  }

  lemma CentresAre(v: Version)
    ensures v == 1 ==> Centres(v) == []
    ensures 2 <= v <= 6 ==> Centres(v) == [6, Size(v) - 7]
    ensures 7 <= v ==> Centres(v) == [6, 8 + 2 * v, Size(v) - 7]
  {
  }

  /** A centre on a timing line or in a finder is skipped, so no drawn pattern has coordinate 6. */
  lemma CentresDrawn(v: Version, x: Cell)
    requires IsCentre(v, x)
    ensures x.r != 6 && x.c != 6
  {
    hide Centres;
    CentresAre(v);
  }

  lemma AlignmentCovered(v: Version, x: Cell)
    requires InAlignment(v, x)
    ensures Covered(AlignmentAreas(v), x)
  {
    hide Centres, InFinder, InTiming;
    CentresAre(v);
    var i, j :| 0 <= i < |Centres(v)| && 0 <= j < |Centres(v)| &&
                IsCentre(v, Cell(Centres(v)[i], Centres(v)[j])) && Around(x, Cell(Centres(v)[i], Centres(v)[j]));
    CentresDrawn(v, Cell(Centres(v)[i], Centres(v)[j]));
    var areas := AlignmentAreas(v);
    if v <= 6 {
      assert areas[0].Has(x);
    } else {
      assert areas[0].Has(x) || areas[1].Has(x) || areas[2].Has(x) || areas[3].Has(x);
    }
  }

  lemma CoveredConcat(a: seq<Area>, b: seq<Area>, x: Cell)
    ensures Covered(a, x) ==> Covered(a + b, x)
    ensures Covered(b, x) ==> Covered(a + b, x)
  {
    if Covered(a, x) {
      var i :| 0 <= i < |a| && a[i].Has(x);
      assert (a + b)[i].Has(x);
    }
    if Covered(b, x) {
      var i :| 0 <= i < |b| && b[i].Has(x);
      assert (a + b)[|a| + i].Has(x);
    }
  }

  lemma ReservedCovered(v: Version, x: Cell)
    requires Reserved(v, x)
    ensures Covered(ReservedAreas(v), x)
  {
    hide InAlignment, Covered, CommonAreas, AlignmentAreas, InFinder, InTiming, InFormat;
    var (c, a, w) := (CommonAreas(Size(v)), AlignmentAreas(v), VersionAreas(v));
    CoveredConcat(c, a, x);
    CoveredConcat(c + a, w, x);
    if InAlignment(v, x) {
      AlignmentCovered(v, x);
    } else if InVersion(v, x) {
      VersionCovered(v, x);
    } else {
      CommonCovered(Size(v), x);
    }
  }

  lemma VersionCovered(v: Version, x: Cell)
    requires InVersion(v, x)
    ensures Covered(VersionAreas(v), x)
  {
    var areas := VersionAreas(v);
    assert areas[0].Has(x) || areas[1].Has(x);
  }

  // ---- the rectangles are reserved, and apart from each other

  lemma CommonReserved(v: Version, x: Cell)
    requires Covered(CommonAreas(Size(v)), x)
    ensures InGrid(Size(v), x) && Reserved(v, x)
  {
    hide InAlignment, InVersion;
  }

  lemma AlignmentReserved(v: Version, x: Cell)
    requires Covered(AlignmentAreas(v), x)
    ensures InGrid(Size(v), x) && InAlignment(v, x)
  {
    hide Centres, Covered;
    CentresAre(v);
    var (m, a) := (8 + 2 * v, Size(v) - 7);
    if v <= 6 {
      OnlyArea(v, x);
      assert Centres(v)[1] == a;
      assert IsCentre(v, Cell(Centres(v)[1], Centres(v)[1]));
    } else {
      OneOfFour(v, x);
      assert Centres(v)[1] == m && Centres(v)[2] == a;
      assert IsCentre(v, Cell(Centres(v)[1], Centres(v)[1])) && IsCentre(v, Cell(Centres(v)[1], Centres(v)[2]));
      assert IsCentre(v, Cell(Centres(v)[2], Centres(v)[1])) && IsCentre(v, Cell(Centres(v)[2], Centres(v)[2]));
    }
  }

  lemma OnlyArea(v: Version, x: Cell)
    requires v <= 6 && Covered(AlignmentAreas(v), x)
    ensures v > 1 && Around(x, Cell(Size(v) - 7, Size(v) - 7))
  {
  }

  lemma OneOfFour(v: Version, x: Cell)
    requires v >= 7 && Covered(AlignmentAreas(v), x)
    ensures var (m, a) := (8 + 2 * v, Size(v) - 7);
            Around(x, Cell(m, m)) || Around(x, Cell(m, a)) || Around(x, Cell(a, m)) || Around(x, Cell(a, a))
  {
  }

  lemma VersionReserved(v: Version, x: Cell)
    requires Covered(VersionAreas(v), x)
    ensures InGrid(Size(v), x) && InVersion(v, x)
  {
  }

  lemma CoveredSplit(a: seq<Area>, b: seq<Area>, x: Cell)
    requires Covered(a + b, x)
    ensures Covered(a, x) || Covered(b, x)
  {
    var i :| 0 <= i < |a + b| && (a + b)[i].Has(x);
    if i < |a| {
      assert a[i].Has(x);
    } else {
      assert b[i - |a|].Has(x);
    }
  }

  lemma CoveredIsReserved(v: Version, x: Cell)
    requires Covered(ReservedAreas(v), x)
    ensures InGrid(Size(v), x) && Reserved(v, x)
  {
    hide InAlignment, Covered, CommonAreas, AlignmentAreas, VersionAreas, InFinder, InTiming, InFormat, InVersion;
    var (c, a, w) := (CommonAreas(Size(v)), AlignmentAreas(v), VersionAreas(v));
    CoveredSplit(c + a, w, x);
    if Covered(w, x) {
      VersionReserved(v, x);
    } else {
      CoveredSplit(c, a, x);
      if Covered(a, x) {
        AlignmentReserved(v, x);
      } else {
        CommonReserved(v, x);
      }
    }
  }

  ghost predicate Separate(a: seq<Area>, b: seq<Area>) {
    forall i, j :: 0 <= i < |a| && 0 <= j < |b| ==> Apart(a[i], b[j])
  }

  lemma ApartConcat(a: seq<Area>, b: seq<Area>)
    requires AllApart(a) && AllApart(b) && Separate(a, b)
    ensures AllApart(a + b)
  {
    hide Apart;
  }

  lemma SeparateConcat(a: seq<Area>, b: seq<Area>, c: seq<Area>)
    requires Separate(a, c) && Separate(b, c)
    ensures Separate(a + b, c)
  {
    hide Apart;
  }

  lemma CommonApart(n: nat)
    requires n >= 21
    ensures AllApart(CommonAreas(n))
  {
  }

  lemma AlignmentApart(v: Version)
    ensures AllApart(AlignmentAreas(v)) && Separate(CommonAreas(Size(v)), AlignmentAreas(v))
  {
  }

  lemma VersionApart(v: Version)
    ensures AllApart(VersionAreas(v)) && Separate(CommonAreas(Size(v)), VersionAreas(v))
    ensures Separate(AlignmentAreas(v), VersionAreas(v))
  {
  }

  lemma ReservedApart(v: Version)
    ensures AllApart(ReservedAreas(v))
  {
    hide CommonAreas, AlignmentAreas, VersionAreas, AllApart, Separate;
    var (c, a, w) := (CommonAreas(Size(v)), AlignmentAreas(v), VersionAreas(v));
    CommonApart(Size(v));
    AlignmentApart(v);
    VersionApart(v);
    ApartConcat(c, a);
    SeparateConcat(c, a, w);
    ApartConcat(c + a, w);
  }

  lemma {:induction false} CountConcat(a: seq<Area>, b: seq<Area>)
    ensures TotalCount(a + b) == TotalCount(a) + TotalCount(b)
  {
    if b == [] {
      assert a + b == a;
    } else {
      var n := |b| - 1;
      CountConcat(a, b[..n]);
      assert (a + b)[..|a| + n] == a + b[..n];
    }
  }

  lemma CountSteps(s: seq<Area>)
    ensures forall i :: 0 <= i < |s| ==> TotalCount(s[..i + 1]) == TotalCount(s[..i]) + s[i].Count()
    ensures s[..|s|] == s && TotalCount(s[..0]) == 0
  {
    forall i | 0 <= i < |s|
      ensures TotalCount(s[..i + 1]) == TotalCount(s[..i]) + s[i].Count()
    {
      assert s[..i + 1][..i] == s[..i];
    }
  }

  lemma CommonCount(n: nat)
    requires n >= 21
    ensures TotalCount(CommonAreas(n)) == 191 + 2 * n
    ensures Proper(CommonAreas(n))
  {
    hide TotalCount;
    var s := CommonAreas(n);
    CountSteps(s);
    assert TotalCount(s[..1]) == 64;
    assert TotalCount(s[..2]) == 128;
    assert TotalCount(s[..3]) == 192;
    assert TotalCount(s[..4]) == 192 + (n - 16);
    assert TotalCount(s[..5]) == 192 + 2 * (n - 16);
    assert TotalCount(s[..6]) == 198 + 2 * (n - 16);
    assert TotalCount(s[..7]) == 200 + 2 * (n - 16);
    assert TotalCount(s[..8]) == 206 + 2 * (n - 16);
    assert TotalCount(s[..9]) == 207 + 2 * (n - 16);
    assert TotalCount(s[..10]) == 215 + 2 * (n - 16);
    assert TotalCount(s[..11]) == 223 + 2 * (n - 16);
  }

  lemma AlignmentCount(v: Version)
    ensures TotalCount(AlignmentAreas(v)) == if v == 1 then 0 else if v <= 6 then 25 else 100
    ensures Proper(AlignmentAreas(v))
  {
    hide TotalCount;
    var s := AlignmentAreas(v);
    CountSteps(s);
    if v >= 2 {
      assert TotalCount(s[..1]) == 25;
    }
    if v >= 7 {
      assert TotalCount(s[..2]) == 50;
      assert TotalCount(s[..3]) == 75;
      assert TotalCount(s[..4]) == 100;
    }
  }

  lemma VersionCount(v: Version)
    ensures TotalCount(VersionAreas(v)) == if v < 7 then 0 else 36
    ensures Proper(VersionAreas(v))
  {
    hide TotalCount;
    var s := VersionAreas(v);
    CountSteps(s);
    if v >= 7 {
      assert TotalCount(s[..1]) == 18;
      assert TotalCount(s[..2]) == 36;
    }
  }

  /** How many cells of each version carry data. */
  lemma DataCellCount(v: Version)
    ensures |DataCells(v)| == Size(v) * Size(v) - (191 + 2 * Size(v)) -
                              (if v == 1 then 0 else if v <= 6 then 25 else 136)
  {
    hide TotalCount, CommonAreas, AlignmentAreas, VersionAreas, Reserved, DataCells, AllApart, Covered, InGrid;
    var (c, a, w) := (CommonAreas(Size(v)), AlignmentAreas(v), VersionAreas(v));
    CommonCount(Size(v));
    AlignmentCount(v);
    VersionCount(v);
    CountConcat(c, a);
    CountConcat(c + a, w);
    ReservedApart(v);
    forall x
      ensures Covered(ReservedAreas(v), x) <==> InGrid(Size(v), x) && Reserved(v, x)
    {
      if Covered(ReservedAreas(v), x) {
        CoveredIsReserved(v, x);
      } else if Reserved(v, x) {
        ReservedCovered(v, x);
      }
    }
    FreeCells(v, ReservedAreas(v));
  }
}
