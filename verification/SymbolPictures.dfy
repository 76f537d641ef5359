/** What the function patterns of a symbol look like, told by distances from their centres (sections 6.3.3 to 6.3.6
    of ISO/IEC 18004:2015), whichever way they were drawn. */
module SymbolPictures {
  import opened Wrappers
  import opened Codewords
  import opened Walk
  import opened DataPlacement
  import opened FunctionPatterns
  import opened SymbolCapacity
  import opened QrCode

  function ModuleAt(rows: Rows, r: int, c: int): Module {
    if 0 <= r < |rows| && 0 <= c < |rows[r]| then rows[r][c] else Unset
  }

  /** How many squares a module lies away from a centre. */
  function Ring(r: int, c: int, row: int, col: int): nat {
    var (x, y) := (if r < row then row - r else r - row, if c < col then col - c else c - col);
    if x < y then y else x
  }

  /** Concentric squares about (row, col), dark but for the light ones, as far as they are inside the symbol. */
  ghost predicate Concentric(rows: Rows, row: int, col: int, radius: nat, light: set<nat>) {
    forall r, c :: InGrid(|rows|, (r, c)) && Ring(r, c, row, col) <= radius ==>
      ModuleAt(rows, r, c) == Set(Ring(r, c, row, col) !in light)
  }

  /** Rows and columns of alignment patterns: from 6 to the seventh from the end, at equal distances. */
  function Centres(version: nat): set<int> {
    var last := 4 * version + 10;
    if version == 1 then {} else if version <= 6 then {6, last} else {6, (6 + last) / 2, last}
  }

  ghost predicate ShowsPatterns(rows: Rows, version: nat) {
    var n := 4 * version + 17;
    && |rows| == n
    && (forall row, col :: (row, col) in {(3, 3), (3, n - 4), (n - 4, 3)} ==> Concentric(rows, row, col, 4, {2, 4}))
    && (forall row, col :: row in Centres(version) && col in Centres(version) && (row, col) !in {(6, 6), (6, n - 7), (n - 7, 6)} ==>
         Concentric(rows, row, col, 2, {1}))
    && (forall k :: 8 <= k < n - 8 ==> ModuleAt(rows, 6, k) == ModuleAt(rows, k, 6) == Set(k % 2 == 0))
    && ModuleAt(rows, n - 8, 8) == Set(true)
  }

  /** Every symbol shows finders, alignment patterns, timing patterns and the dark module. */
  lemma PatternsShown(matrix: array2<Module>, version: nat, level: EcLevel, codewords: seq<nat>, f: nat, v: nat)
    requires 1 <= version <= 10 && IsSymbol(matrix, version, level, codewords, f, v)
    ensures ShowsPatterns(RowsOf(matrix), version)
  {
    hide Holds, IsFormatWord, IsVersionWord, FreeOf, ReservedCells, Reserved, WithVersion, Path, RowsOf, Concentric, ModuleAt;
    SymbolModules(matrix, version, level, codewords, f, v);
    var rows, n := RowsOf(matrix), Size(version);
    hide IsSymbol;
    forall row, col | (row, col) in {(3, 3), (3, n - 4), (n - 4, 3)}
      ensures Concentric(rows, row, col, 4, {2, 4})
    {
      FinderShown(rows, version, f, v, row, col);
    }
    forall row, col | row in Centres(version) && col in Centres(version) && (row, col) !in {(6, 6), (6, n - 7), (n - 7, 6)}
      ensures Concentric(rows, row, col, 2, {1})
    {
      AlignmentShown(rows, version, f, v, row, col);
    }
    forall k | 8 <= k < n - 8
      ensures ModuleAt(rows, 6, k) == ModuleAt(rows, k, 6) == Set(k % 2 == 0)
    {
      TimingShown(version, f, v, 6, k);
      TimingShown(version, f, v, k, 6);
    }
    DarkShown(version, f, v);
  }

  /** What is drawn is in the rows. */
  ghost predicate AreDrawn(rows: Rows, version: nat, f: nat, v: nat) {
    && |rows| == Size(version)
    && forall r, c :: 0 <= r < Size(version) && 0 <= c < Size(version) && WithVersion(version, f, v, r, c).Some? ==>
         ModuleAt(rows, r, c) == AsModule(WithVersion(version, f, v, r, c))
  }

  lemma SymbolModules(matrix: array2<Module>, version: nat, level: EcLevel, codewords: seq<nat>, f: nat, v: nat)
    requires 1 <= version <= 10 && IsSymbol(matrix, version, level, codewords, f, v)
    ensures AreDrawn(RowsOf(matrix), version, f, v)
  {
    hide Holds, IsFormatWord, IsVersionWord, FreeOf, ReservedCells, Reserved, WithVersion, Path;
    forall r, c | 0 <= r < Size(version) && 0 <= c < Size(version) && WithVersion(version, f, v, r, c).Some?
      ensures ModuleAt(RowsOf(matrix), r, c) == AsModule(WithVersion(version, f, v, r, c))
    {
      ReservedAlways(version, f, v, r, c);
    }
  }

  lemma FinderShown(rows: Rows, version: nat, f: nat, v: nat, row: int, col: int)
    requires 1 <= version <= 10 && AreDrawn(rows, version, f, v)
    requires (row, col) in {(3, 3), (3, Size(version) - 4), (Size(version) - 4, 3)}
    ensures Concentric(rows, row, col, 4, {2, 4})
  {
    hide WithVersion, ModuleAt, Ring;
    forall r, c | InGrid(|rows|, (r, c)) && Ring(r, c, row, col) <= 4
      ensures ModuleAt(rows, r, c) == Set(Ring(r, c, row, col) !in {2, 4})
    {
      FinderDrawn(version, f, v, row, col, r, c);
    }
  }

  lemma FinderDrawn(version: nat, f: nat, v: nat, row: int, col: int, r: int, c: int)
    requires 1 <= version <= 10 && (row, col) in {(3, 3), (3, Size(version) - 4), (Size(version) - 4, 3)}
    requires InGrid(Size(version), (r, c)) && Ring(r, c, row, col) <= 4
    ensures WithVersion(version, f, v, r, c) == Some(Ring(r, c, row, col) !in {2, 4})
  {
    hide AlignmentRows, AlignmentPositions, TimingModule;
    var n := Size(version);
    FinderRings(n, row, col, r, c);
    hide FinderModule, Ring;
    assert WithDark(version, r, c) == FinderModule(n, r, c);
  }

  lemma FinderRings(n: int, row: int, col: int, r: int, c: int)
    requires n >= 21 && (row, col) in {(3, 3), (3, n - 4), (n - 4, 3)}
    requires 0 <= r < n && 0 <= c < n && Ring(r, c, row, col) <= 4
    ensures FinderModule(n, r, c) == Some(Ring(r, c, row, col) !in {2, 4})
    ensures (r < 8 || n - 8 <= r) && (c < 8 || n - 8 <= c) && !(n - 8 <= r && n - 8 <= c)
  {
  }

  // ---------- alignment patterns ----------

  lemma AlignmentShown(rows: Rows, version: nat, f: nat, v: nat, row: int, col: int)
    requires 1 <= version <= 10 && AreDrawn(rows, version, f, v)
    requires row in Centres(version) && col in Centres(version)
    requires (row, col) !in {(6, 6), (6, Size(version) - 7), (Size(version) - 7, 6)}
    ensures Concentric(rows, row, col, 2, {1})
  {
    hide WithVersion, ModuleAt, Centres, Ring;
    forall r, c | InGrid(|rows|, (r, c)) && Ring(r, c, row, col) <= 2
      ensures ModuleAt(rows, r, c) == Set(Ring(r, c, row, col) !in {1})
    {
      AlignmentDrawn(version, f, v, row, col, r, c);
    }
  }

  lemma CentreIndices(version: nat, row: int, col: int) returns (i: nat, j: nat)
    requires 1 <= version <= 10 && row in Centres(version) && col in Centres(version)
    requires (row, col) !in {(6, 6), (6, Size(version) - 7), (Size(version) - 7, 6)}
    ensures i < |AlignmentPositions(version)| && j < |AlignmentPositions(version)|
    ensures AlignmentPositions(version)[i] == row && AlignmentPositions(version)[j] == col
    ensures FinderModule(Size(version), row, col) == None
  {
    i := if row == 6 then 0 else if row == Size(version) - 7 && version >= 7 then 2 else 1;
    j := if col == 6 then 0 else if col == Size(version) - 7 && version >= 7 then 2 else 1;
  }

  lemma AlignmentDrawn(version: nat, f: nat, v: nat, row: int, col: int, r: int, c: int)
    requires 1 <= version <= 10 && row in Centres(version) && col in Centres(version)
    requires (row, col) !in {(6, 6), (6, Size(version) - 7), (Size(version) - 7, 6)}
    requires Ring(r, c, row, col) <= 2
    ensures WithVersion(version, f, v, r, c) == Some(Ring(r, c, row, col) !in {1})
  {
    hide FinderModule, AlignmentRows, AlignmentRow, FinderDark;
    var n := Size(version);
    var i, j := CentreIndices(version, row, col);
    AlignmentRings(n, row, col, r, c);
    AlignmentClearOfFinders(version, i, j, r, c);
    RowsReach(version, |AlignmentPositions(version)|, i, j, r, c);
    ClearOfWords(version, f, v, row, col, r, c);
  }

  lemma AlignmentRings(n: int, row: int, col: int, r: int, c: int)
    requires FinderModule(n, row, col) == None && Ring(r, c, row, col) <= 2
    ensures AlignmentBox(n, row, col, r, c) == Some(Ring(r, c, row, col) !in {1})
  {
    hide FinderModule;
  }

  /** Neither format nor version word is drawn over an alignment pattern. */
  lemma ClearOfWords(version: nat, f: nat, v: nat, row: int, col: int, r: int, c: int)
    requires 1 <= version <= 10 && row in Centres(version) && col in Centres(version)
    requires (row, col) !in {(6, 6), (6, Size(version) - 7), (Size(version) - 7, 6)}
    requires Ring(r, c, row, col) <= 2
    ensures FormatModule(Size(version), f, r, c) == None && !(r == Size(version) - 8 && c == 8)
    ensures version >= 7 ==> VersionModule(Size(version), v, r, c) == None
  {
  }

  lemma {:induction false} RowReach(version: nat, i: nat, k: nat, j: nat, r: int, c: int)
    requires i < |AlignmentPositions(version)| && j < k <= |AlignmentPositions(version)|
    requires AlignmentBox(Size(version), AlignmentPositions(version)[i], AlignmentPositions(version)[j], r, c).Some?
    ensures AlignmentRow(version, i, k, r, c)
         == AlignmentBox(Size(version), AlignmentPositions(version)[i], AlignmentPositions(version)[j], r, c)
  {
    hide AlignmentPositions, FinderModule, AlignmentDark;
    if j < k - 1 {
      RowReach(version, i, k - 1, j, r, c);
    }
  }

  lemma {:induction false} RowMisses(version: nat, i: nat, k: nat, r: int, c: int)
    requires i < |AlignmentPositions(version)| && k <= |AlignmentPositions(version)|
    requires !(AlignmentPositions(version)[i] - 2 <= r <= AlignmentPositions(version)[i] + 2)
    ensures AlignmentRow(version, i, k, r, c) == None
  {
    hide AlignmentPositions, FinderModule, AlignmentDark;
    if k > 0 {
      RowMisses(version, i, k - 1, r, c);
    }
  }

  lemma {:induction false} RowsReach(version: nat, k: nat, i: nat, j: nat, r: int, c: int)
    requires i < k <= |AlignmentPositions(version)| && j < |AlignmentPositions(version)|
    requires AlignmentBox(Size(version), AlignmentPositions(version)[i], AlignmentPositions(version)[j], r, c).Some?
    ensures AlignmentRows(version, k, r, c)
         == AlignmentBox(Size(version), AlignmentPositions(version)[i], AlignmentPositions(version)[j], r, c)
  {
    hide AlignmentPositions, FinderModule, AlignmentDark, AlignmentRow;
    if i < k - 1 {
      RowMisses(version, k - 1, |AlignmentPositions(version)|, r, c);
      RowsReach(version, k - 1, i, j, r, c);
    } else {
      RowReach(version, i, |AlignmentPositions(version)|, j, r, c);
    }
  }

  // ---------- timing patterns and the dark module ----------

  /** Where an alignment pattern lies on a timing pattern, it shows the same modules. */
  lemma {:induction false} RowTimed(version: nat, i: nat, k: nat, r: int, c: int)
    requires 1 <= version <= 10 && i < |AlignmentPositions(version)| && k <= |AlignmentPositions(version)|
    requires (r == 6 && 8 <= c < Size(version) - 8) || (c == 6 && 8 <= r < Size(version) - 8)
    ensures AlignmentRow(version, i, k, r, c).Some? ==> AlignmentRow(version, i, k, r, c) == Some((r + c) % 2 == 0)
  {
    hide AlignmentPositions, FinderModule;
    if k > 0 {
      RowTimed(version, i, k - 1, r, c);
      BoxTimed(version, i, k - 1, r, c);
      hide AlignmentBox;
    }
  }

  lemma BoxTimed(version: nat, i: nat, j: nat, r: int, c: int)
    requires 1 <= version <= 10 && i < |AlignmentPositions(version)| && j < |AlignmentPositions(version)|
    requires (r == 6 && 8 <= c < Size(version) - 8) || (c == 6 && 8 <= r < Size(version) - 8)
    ensures var box := AlignmentBox(Size(version), AlignmentPositions(version)[i], AlignmentPositions(version)[j], r, c);
      box.Some? ==> box == Some((r + c) % 2 == 0)
  {
    hide FinderModule;
  }

  lemma {:induction false} RowsTimed(version: nat, k: nat, r: int, c: int)
    requires 1 <= version <= 10 && k <= |AlignmentPositions(version)|
    requires (r == 6 && 8 <= c < Size(version) - 8) || (c == 6 && 8 <= r < Size(version) - 8)
    ensures AlignmentRows(version, k, r, c).Some? ==> AlignmentRows(version, k, r, c) == Some((r + c) % 2 == 0)
  {
    hide AlignmentPositions, AlignmentRow;
    if k > 0 {
      RowsTimed(version, k - 1, r, c);
      RowTimed(version, k - 1, |AlignmentPositions(version)|, r, c);
    }
  }

  lemma TimingShown(version: nat, f: nat, v: nat, r: int, c: int)
    requires 1 <= version <= 10
    requires (r == 6 && 8 <= c < Size(version) - 8) || (c == 6 && 8 <= r < Size(version) - 8)
    ensures WithVersion(version, f, v, r, c) == Some((r + c) % 2 == 0)
  {
    hide AlignmentRows, AlignmentPositions;
    RowsTimed(version, |AlignmentPositions(version)|, r, c);
  }

  lemma DarkShown(version: nat, f: nat, v: nat)
    requires 1 <= version <= 10
    ensures WithVersion(version, f, v, Size(version) - 8, 8) == Some(true)
  {
    hide WithTiming;
  }
}
