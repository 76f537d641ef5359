/** Every symbol of versions 1 to 10 has room for its message: the reserved modules are counted by
    covering them with boxes, and the free ones by the walk that visits each exactly once. */
module SymbolCapacity {
  import opened Wrappers
  import opened Codewords
  import opened Walk
  import opened FunctionPatterns

  predicate Reserved(version: nat, r: int, c: int) {
    WithVersion(version, 0, 0, r, c).Some?
  }

  function ReservedCells(version: nat): set<Cell> {
    var n := Size(version);
    set r, c | 0 <= r < n && 0 <= c < n && Reserved(version, r, c) :: (r, c)
  }

  /** What is reserved does not depend on the information drawn there. */
  lemma ReservedAlways(version: nat, f: nat, v: nat, r: int, c: int)
    ensures WithVersion(version, f, v, r, c).Some? == Reserved(version, r, c)
  {
    hide WithDark;
  }

  lemma ColumnSixReserved(version: nat, r: int)
    requires 1 <= version <= 10 && 0 <= r < Size(version)
    ensures Reserved(version, r, 6)
  {
    hide AlignmentRows;
  }

  // ---------- boxes ----------

  datatype Box = Box(top: int, left: int, height: nat, width: nat)

  predicate Inside(x: Cell, b: Box) {
    b.top <= x.0 < b.top + b.height && b.left <= x.1 < b.left + b.width
  }

  /** The modules in the first k boxes, counted box by box. */
  function Area(boxes: seq<Box>, k: nat): nat
    requires k <= |boxes|
  {
    if k == 0 then 0 else Area(boxes, k - 1) + boxes[k - 1].height * boxes[k - 1].width
  }

  ghost predicate InSome(x: Cell, boxes: seq<Box>, k: nat)
    requires k <= |boxes|
  {
    exists i :: 0 <= i < k && Inside(x, boxes[i])
  }

  function BoxCells(b: Box): set<Cell> {
    set r, c | b.top <= r < b.top + b.height && b.left <= c < b.left + b.width :: (r, c)
  }

  lemma {:induction false} RowSize(b: Box)
    requires b.height == 1
    ensures |BoxCells(b)| == b.width
    decreases b.width
  {
    if b.width == 0 {
      assert BoxCells(b) == {};
    } else {
      var first, rest := (b.top, b.left), b.(left := b.left + 1, width := b.width - 1);
      RowSize(rest);
      assert BoxCells(b) == {first} + BoxCells(rest);
    }
  }

  lemma Stacked(b: Box, first: Box, rest: Box)
    requires b.height > 0 && first == b.(height := 1)
    requires rest == b.(top := b.top + 1, height := b.height - 1)
    ensures |BoxCells(b)| == |BoxCells(first)| + |BoxCells(rest)|
    ensures b.height * b.width == b.width + rest.height * rest.width
  {
    var h, w := rest.height, b.width;
    assert (h + 1) * w == w + h * w;
    assert BoxCells(b) == BoxCells(first) + BoxCells(rest);
    assert BoxCells(first) !! BoxCells(rest);
  }

  lemma {:induction false} BoxSize(b: Box)
    ensures |BoxCells(b)| == b.height * b.width
    decreases b.height
  {
    if b.height == 0 {
      assert BoxCells(b) == {};
    } else {
      var first, rest := b.(height := 1), b.(top := b.top + 1, height := b.height - 1);
      RowSize(first);
      BoxSize(rest);
      Stacked(b, first, rest);
    }
  }

  /** Cells that lie in some box are at most as many as the boxes have together. */
  lemma {:induction false} CoverSize(cells: set<Cell>, boxes: seq<Box>, k: nat)
    requires k <= |boxes| && forall x: Cell :: x in cells ==> InSome(x, boxes, k)
    ensures |cells| <= Area(boxes, k)
  {
    if k == 0 {
      assert cells == {};
    } else {
      var last := set x | x in cells && Inside(x, boxes[k - 1]);
      forall x: Cell | x in cells - last
        ensures InSome(x, boxes, k - 1)
      {
        assert InSome(x, boxes, k);
      }
      CoverSize(cells - last, boxes, k - 1);
      BoxSize(boxes[k - 1]);
      Subset(last, BoxCells(boxes[k - 1]));
      assert cells == (cells - last) + last;
    }
  }

  lemma {:induction false} Subset<T>(a: set<T>, b: set<T>)
    requires a <= b
    ensures |a| <= |b|
  {
    assert b == a + (b - a);
  }

  // ---------- the boxes of a symbol ----------

  function FinderAndFormatBoxes(n: int): seq<Box> {
    [Box(0, 0, 8, 8), Box(0, n - 8, 8, 8), Box(n - 8, 0, 8, 8),
     Box(0, 8, 6, 1), Box(7, 8, 2, 1), Box(n - 8, 8, 8, 1),
     Box(8, 0, 1, 6), Box(8, 7, 1, 1), Box(8, n - 8, 1, 8)]
  }

  function OtherBoxes(version: nat): seq<Box>
    requires 1 <= version <= 10
  {
    var n := Size(version);
    var p := AlignmentPositions(version);
    if version == 1 then [Box(8, 6, n - 16, 1), Box(6, 8, 1, n - 16)]
    else if version <= 6 then
      [Box(8, 6, n - 16, 1), Box(6, 8, 1, n - 16), Box(p[1] - 2, p[1] - 2, 5, 5)]
    else
      var (m, l) := (p[1], p[2]);
      [Box(8, 6, m - 10, 1), Box(m + 3, 6, n - 11 - m, 1), Box(6, 8, 1, m - 10), Box(6, m + 3, 1, n - 11 - m),
       Box(4, m - 2, 5, 5), Box(m - 2, 4, 5, 5), Box(m - 2, m - 2, 5, 5),
       Box(m - 2, l - 2, 5, 5), Box(l - 2, m - 2, 5, 5), Box(l - 2, l - 2, 5, 5),
       Box(0, n - 11, 6, 3), Box(n - 11, 0, 3, 6)]
  }

  ghost predicate Fixed(n: int, x: Cell) {
    InSome(x, FinderAndFormatBoxes(n), 9)
  }

  ghost predicate Other(version: nat, x: Cell)
    requires 1 <= version <= 10
  {
    InSome(x, OtherBoxes(version), |OtherBoxes(version)|)
  }

  /** An alignment module lies in the box of one of the centres that no finder occupies. */
  lemma {:induction false} AlignmentCovered(version: nat, i: nat, r: int, c: int)
    requires 1 <= version <= 10
    requires i <= |AlignmentPositions(version)| && AlignmentRows(version, i, r, c).Some?
    ensures Other(version, (r, c))
  {
    hide Other, AlignmentPositions;
    if AlignmentRow(version, i - 1, |AlignmentPositions(version)|, r, c).Some? {
      AlignmentRowCovered(version, i - 1, |AlignmentPositions(version)|, r, c);
    } else {
      AlignmentCovered(version, i - 1, r, c);
    }
  }

  lemma {:induction false} AlignmentRowCovered(version: nat, i: nat, j: nat, r: int, c: int)
    requires 1 <= version <= 10
    requires i < |AlignmentPositions(version)| && j <= |AlignmentPositions(version)|
    requires AlignmentRow(version, i, j, r, c).Some?
    ensures Other(version, (r, c))
  {
    hide Other, AlignmentPositions;
    var p := AlignmentPositions(version);
    if AlignmentBox(Size(version), p[i], p[j - 1], r, c).Some? {
      AlignmentBoxCovered(version, i, j - 1, r, c);
    } else {
      AlignmentRowCovered(version, i, j - 1, r, c);
    }
  }

  lemma AlignmentBoxCovered(version: nat, i: nat, j: nat, r: int, c: int)
    requires 1 <= version <= 10
    requires i < |AlignmentPositions(version)| && j < |AlignmentPositions(version)|
    requires var p := AlignmentPositions(version); AlignmentBox(Size(version), p[i], p[j], r, c).Some?
    ensures Other(version, (r, c))
  {
    CentreOfBox(version, i, j);
    hide FinderModule;
    var boxes := OtherBoxes(version);
    var k := if version <= 6 then 2
             else if i == 0 then 4
             else if i == 1 then (if j == 0 then 5 else if j == 1 then 6 else 7)
             else (if j == 1 then 8 else 9);
    assert Inside((r, c), boxes[k]);
  }

  /** The three corners belong to the finders. */
  lemma CentreOfBox(version: nat, i: nat, j: nat)
    requires 1 <= version <= 10
    requires i < |AlignmentPositions(version)| && j < |AlignmentPositions(version)|
    requires var p := AlignmentPositions(version); FinderModule(Size(version), p[i], p[j]) == None
    ensures version >= 2
    ensures version <= 6 ==> i == 1 && j == 1
    ensures version >= 7 ==> (i, j) !in {(0, 0), (0, 2), (2, 0)}
  {
    hide FinderDark;
  }

  lemma TimingCovered(version: nat, r: int, c: int)
    requires 1 <= version <= 10
    requires WithAlignment(version, r, c) == None && TimingModule(Size(version), r, c).Some?
    ensures Other(version, (r, c))
  {
    var boxes := OtherBoxes(version);
    if version <= 6 {
      assert Inside((r, c), boxes[if c == 6 then 0 else 1]);
    } else {
      TimingBetween(version, r, c);
      var m := AlignmentPositions(version)[1];
      assert Inside((r, c), boxes[if c == 6 then (if r < m then 0 else 1) else (if c < m then 2 else 3)]);
    }
  }

  /** The timing patterns stop at the alignment patterns that sit on them. */
  lemma TimingBetween(version: nat, r: int, c: int)
    requires 7 <= version <= 10
    requires WithAlignment(version, r, c) == None && TimingModule(Size(version), r, c).Some?
    ensures var m := AlignmentPositions(version)[1];
      (c == 6 ==> !(m - 2 <= r < m + 3)) && (r == 6 ==> !(m - 2 <= c < m + 3))
  {
    hide AlignmentDark;
    var p := AlignmentPositions(version);
    var n := Size(version);
    assert AlignmentRows(version, 3, r, c) == None;
    assert AlignmentRows(version, 2, r, c) == None && AlignmentRows(version, 1, r, c) == None;
    assert AlignmentRow(version, 0, 3, r, c) == None && AlignmentRow(version, 1, 3, r, c) == None;
    assert AlignmentRow(version, 0, 2, r, c) == None;
    assert AlignmentRow(version, 1, 2, r, c) == None && AlignmentRow(version, 1, 1, r, c) == None;
    assert AlignmentBox(n, p[0], p[1], r, c) == None && AlignmentBox(n, p[1], p[0], r, c) == None;
    assert FinderModule(n, p[0], p[1]) == None && FinderModule(n, p[1], p[0]) == None;
  }

  lemma ReservedCovered(version: nat, r: int, c: int)
    requires 1 <= version <= 10 && 0 <= r < Size(version) && 0 <= c < Size(version)
    requires Reserved(version, r, c)
    ensures Fixed(Size(version), (r, c)) || Other(version, (r, c))
  {
    hide Fixed, Other;
    var n := Size(version);
    if FinderModule(n, r, c).Some? || FormatModule(n, 0, r, c).Some? || (r == n - 8 && c == 8) {
      FixedCovered(n, r, c);
    } else {
      hide FinderModule, FormatModule, AlignmentPositions;
      if version >= 7 && VersionModule(n, 0, r, c).Some? {
        VersionCovered(version, r, c);
      } else if WithAlignment(version, r, c).Some? {
        AlignmentCovered(version, |AlignmentPositions(version)|, r, c);
      } else {
        TimingCovered(version, r, c);
      }
    }
  }

  lemma FixedCovered(n: nat, r: int, c: int)
    requires n >= 21 && 0 <= r < n && 0 <= c < n
    requires FinderModule(n, r, c).Some? || FormatModule(n, 0, r, c).Some? || (r == n - 8 && c == 8)
    ensures Fixed(n, (r, c))
  {
    hide FinderDark;
    var boxes := FinderAndFormatBoxes(n);
    var k :=
      if FinderModule(n, r, c).Some? then (if r < 8 then (if c < 8 then 0 else 1) else 2)
      else if c == 8 then (if r < 6 then 3 else if r < 9 then 4 else 5)
      else (if c < 6 then 6 else if c < 8 then 7 else 8);
    assert Inside((r, c), boxes[k]);
  }

  lemma VersionCovered(version: nat, r: int, c: int)
    requires 7 <= version <= 10 && VersionModule(Size(version), 0, r, c).Some?
    ensures Other(version, (r, c))
  {
    var boxes := OtherBoxes(version);
    var k := if r < 6 then 10 else 11;
    assert Inside((r, c), boxes[k]);
  }

  // ---------- free cells ----------

  function TotalCodewords(groups: seq<Group>): nat {
    if groups == [] then 0 else groups[0].count * groups[0].total + TotalCodewords(groups[1..])
  }

  function Elements<T>(s: seq<T>): set<T> {
    set x | x in s
  }

  lemma {:induction false} DistinctSize<T(!new)>(s: seq<T>)
    requires Distinct(s)
    ensures |Elements(s)| == |s|
  {
    if s != [] {
      var k := |s| - 1;
      DistinctSize(s[..k]);
      assert Elements(s) == Elements(s[..k]) + {s[k]};
    }
  }

  /** The free cells along the walk are all the cells that are not reserved. */
  lemma FreeCount(version: nat)
    requires 1 <= version <= 10
    ensures |FreeOf(Path(Size(version)), ReservedCells(version))|
         == Size(version) * Size(version) - |ReservedCells(version)|
  {
    hide WithVersion;
    var n, cells := Size(version), ReservedCells(version);
    var free := FreeOf(Path(n), cells);
    var grid := Box(0, 0, n, n);
    PathVisitsOnce(n);
    FreeOfMembers(Path(n), cells);
    DistinctSize(free);
    BoxSize(grid);
    forall x: Cell
      ensures x in Elements(free) <==> x in BoxCells(grid) - cells
    {
      if x in BoxCells(grid) && x.1 == 6 {
        ColumnSixReserved(version, x.0);
      }
    }
    assert Elements(free) == BoxCells(grid) - cells;
    assert cells <= BoxCells(grid);
    assert BoxCells(grid) == (BoxCells(grid) - cells) + cells;
  }

  lemma ReservedBound(version: nat)
    requires 1 <= version <= 10
    ensures |ReservedCells(version)| <= Area(FinderAndFormatBoxes(Size(version)), 9)
                                        + Area(OtherBoxes(version), |OtherBoxes(version)|)
  {
    hide Reserved, FinderAndFormatBoxes, OtherBoxes, InSome;
    var n, cells := Size(version), ReservedCells(version);
    assert |FinderAndFormatBoxes(n)| == 9 by {
      NineBoxes(n);
    }
    var fixed := set x | x in cells && Fixed(n, x);
    forall x: Cell | x in cells - fixed
      ensures Other(version, x)
    {
      ReservedCovered(version, x.0, x.1);
    }
    CoverSize(fixed, FinderAndFormatBoxes(n), 9);
    CoverSize(cells - fixed, OtherBoxes(version), |OtherBoxes(version)|);
    assert cells == fixed + (cells - fixed);
  }

  lemma FixedArea(n: nat)
    ensures Area(FinderAndFormatBoxes(n), 9) == 223
  {
    var b := FinderAndFormatBoxes(n);
    assert Area(b, 1) == 64;
    assert Area(b, 3) == 192;
    assert Area(b, 4) == 198;
    assert Area(b, 6) == 208;
    assert Area(b, 8) == 215;
  }

  lemma OtherArea(version: nat)
    requires 1 <= version <= 10
    ensures Area(OtherBoxes(version), |OtherBoxes(version)|) ==
      if version == 1 then 10
      else if version <= 6 then 2 * (Size(version) - 16) + 25
      else 2 * (Size(version) - 21) + 150 + 36
  {
    var b := OtherBoxes(version);
    if version <= 6 {
      assert Area(b, 1) == Size(version) - 16;
      assert Area(b, 2) == 2 * (Size(version) - 16);
    } else {
      assert Area(b, 1) == AlignmentPositions(version)[1] - 10;
      assert Area(b, 2) == Size(version) - 21;
      assert Area(b, 4) == 2 * (Size(version) - 21);
      assert Area(b, 6) == Area(b, 4) + 50;
      assert Area(b, 8) == Area(b, 6) + 50;
      assert Area(b, 10) == Area(b, 8) + 50;
    }
  }

  lemma Totals()
    ensures TotalCodewords(RsBlocks(M, 1)) == TotalCodewords(RsBlocks(L, 1)) == 26
    ensures TotalCodewords(RsBlocks(M, 2)) == TotalCodewords(RsBlocks(L, 2)) == 44
    ensures TotalCodewords(RsBlocks(M, 3)) == TotalCodewords(RsBlocks(L, 3)) == 70
    ensures TotalCodewords(RsBlocks(M, 4)) == TotalCodewords(RsBlocks(L, 4)) == 100
    ensures TotalCodewords(RsBlocks(M, 5)) == TotalCodewords(RsBlocks(L, 5)) == 134
    ensures TotalCodewords(RsBlocks(M, 6)) == TotalCodewords(RsBlocks(L, 6)) == 172
    ensures TotalCodewords(RsBlocks(M, 7)) == TotalCodewords(RsBlocks(L, 7)) == 196
    ensures TotalCodewords(RsBlocks(M, 8)) == TotalCodewords(RsBlocks(L, 8)) == 242
    ensures TotalCodewords(RsBlocks(M, 9)) == TotalCodewords(RsBlocks(L, 9)) == 292
    ensures TotalCodewords(RsBlocks(M, 10)) == TotalCodewords(RsBlocks(L, 10)) == 346
  {
  }

  /** Room for every bit of the message. */
  lemma MessageFits(version: nat, level: EcLevel)
    requires 1 <= version <= 10
    ensures 8 * TotalCodewords(RsBlocks(level, version))
         <= |FreeOf(Path(Size(version)), ReservedCells(version))|
  {
    hide ReservedCells, RsBlocks, OtherBoxes, FinderAndFormatBoxes, Area, TotalCodewords, Path, FreeOf;
    FreeCount(version);
    ReservedBound(version);
    FixedArea(Size(version));
    OtherArea(version);
    Totals();
    SquareOf(version);
  }

  lemma SquareOf(version: nat)
    requires 1 <= version <= 10
    ensures Size(version) * Size(version) == 16 * version * version + 136 * version + 289
  {
  }

  lemma NineBoxes(n: int)
    ensures |FinderAndFormatBoxes(n)| == 9
  {
  }
}
