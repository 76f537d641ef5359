/** Writing the message along the walk and reading it back (sections 7.7.3 and 7.8 of
    ISO/IEC 18004:2015, mask pattern 0), for any odd symbol size and any map of reserved modules. */
module DataPlacement {
  import opened Bits
  import opened Codewords
  import opened Walk

  datatype Module = Unset | Set(dark: bool)

  /** Mask pattern 0. */
  predicate Masked(x: Cell) {
    (x.0 + x.1) % 2 == 0
  }

  /** Bit j of the message; light past its end. */
  predicate MessageBit(codewords: seq<nat>, j: nat) {
    j / 8 < |codewords| && Bit(codewords[j / 8], 7 - j % 8)
  }

  ghost predicate Square<T>(a: array2<T>, n: nat) {
    a.Length0 == n && a.Length1 == n
  }

  /** The reserved map as a set of cells. */
  ghost predicate Reserves(reserved: array2<bool>, n: nat, cells: set<Cell>)
    requires Square(reserved, n)
    reads reserved
  {
    forall r, c :: 0 <= r < n && 0 <= c < n ==> (reserved[r, c] <==> (r, c) in cells)
  }

  /** The free cells hold the masked message in order. */
  ghost predicate Holds(matrix: array2<Module>, n: nat, free: seq<Cell>, codewords: seq<nat>)
    requires Square(matrix, n)
    reads matrix
  {
    forall i :: 0 <= i < |free| ==>
      InGrid(n, free[i]) &&
      matrix[free[i].0, free[i].1] == Set(MessageBit(codewords, i) != Masked(free[i]))
  }

  /** The modules of a symbol at one moment. */
  ghost function Snapshot(matrix: array2<Module>, n: nat): (base: map<Cell, Module>)
    requires Square(matrix, n)
    reads matrix
    ensures forall r, c :: 0 <= r < n && 0 <= c < n ==> (r, c) in base && base[(r, c)] == matrix[r, c]
  {
    map r, c | 0 <= r < n && 0 <= c < n :: (r, c) := matrix[r, c]
  }

  /** Outside the given cells the symbol is as it was. */
  ghost predicate Kept(matrix: array2<Module>, n: nat, base: map<Cell, Module>, written: seq<Cell>)
    requires Square(matrix, n)
    reads matrix
  {
    forall r, c :: 0 <= r < n && 0 <= c < n && (r, c) !in written ==>
      (r, c) in base && matrix[r, c] == base[(r, c)]
  }

  /** What has been written once the cells in visited are behind the walk. */
  ghost predicate Progress(matrix: array2<Module>, n: nat, base: map<Cell, Module>, codewords: seq<nat>,
                           cells: set<Cell>, visited: seq<Cell>, byteIndex: int, bitIndex: int)
    requires Square(matrix, n)
    reads matrix
  {
    var free := FreeOf(visited, cells);
    && 0 <= bitIndex < 8 && 0 <= byteIndex
    && 8 * byteIndex + 7 - bitIndex == |free|
    && Holds(matrix, n, free, codewords)
    && Kept(matrix, n, base, free)
  }

  /** One step of the walk: an unreserved cell takes the next message bit. */
  method VisitCell(matrix: array2<Module>, reserved: array2<bool>, n: nat, codewords: seq<nat>,
                   row: int, col: int, byteIndex: int, bitIndex: int,
                   ghost base: map<Cell, Module>, ghost cells: set<Cell>, ghost visited: seq<Cell>)
    returns (byteIndex': int, bitIndex': int)
    requires Square(matrix, n) && Square(reserved, n) && Reserves(reserved, n, cells)
    requires InGrid(n, (row, col)) && (row, col) !in visited
    requires Progress(matrix, n, base, codewords, cells, visited, byteIndex, bitIndex)
    modifies matrix
    ensures Progress(matrix, n, base, codewords, cells, visited + [(row, col)], byteIndex', bitIndex')
  {
    hide Bit, FreeOf;
    ghost var free := FreeOf(visited, cells);
    FreeOfSnoc(visited, (row, col), cells);
    FreeOfMembers(visited, cells);
    byteIndex', bitIndex' := byteIndex, bitIndex;
    if !reserved[row, col] {
      var dark := byteIndex < |codewords| && Bit(codewords[byteIndex], bitIndex);
      assert MessageBit(codewords, |free|) == dark;
      if (row + col) % 2 == 0 {
        dark := !dark;
      }
      assert forall i :: 0 <= i < |free| ==> free[i] in visited;
      matrix[row, col] := Set(dark);
      if bitIndex == 0 {
        byteIndex', bitIndex' := byteIndex + 1, 7;
      } else {
        bitIndex' := bitIndex - 1;
      }
    }
  }

  /** One row of a column pair: the right cell, then the left one. */
  method VisitRow(matrix: array2<Module>, reserved: array2<bool>, n: nat, codewords: seq<nat>,
                  row: int, col: int, byteIndex: int, bitIndex: int,
                  ghost base: map<Cell, Module>, ghost cells: set<Cell>, ghost visited: seq<Cell>)
    returns (byteIndex': int, bitIndex': int)
    requires Square(matrix, n) && Square(reserved, n) && Reserves(reserved, n, cells)
    requires InGrid(n, (row, col)) && InGrid(n, (row, col - 1))
    requires (row, col) !in visited && (row, col - 1) !in visited
    requires Progress(matrix, n, base, codewords, cells, visited, byteIndex, bitIndex)
    modifies matrix
    ensures Progress(matrix, n, base, codewords, cells, visited + [(row, col), (row, col - 1)], byteIndex', bitIndex')
  {
    hide FreeOf, MessageBit, Progress;
    byteIndex', bitIndex' := byteIndex, bitIndex;
    ghost var pair := [(row, col), (row, col - 1)];
    assert visited + pair[..0] == visited;
    for c := 0 to 2
      invariant Progress(matrix, n, base, codewords, cells, visited + pair[..c], byteIndex', bitIndex')
    {
      ghost var seen := visited + pair[..c];
      byteIndex', bitIndex' := VisitCell(matrix, reserved, n, codewords, row, col - c,
                                         byteIndex', bitIndex', base, cells, seen);
      assert seen + [(row, col - c)] == visited + pair[..c + 1];
    }
    assert pair[..2] == pair;
  }

  /** One column pair, in the direction of inc; leaves row where the next pair starts. */
  method VisitPair(matrix: array2<Module>, reserved: array2<bool>, n: nat, codewords: seq<nat>,
                   col: int, row: int, inc: int, byteIndex: int, bitIndex: int,
                   ghost base: map<Cell, Module>, ghost cells: set<Cell>, ghost p: nat)
    returns (row': int, inc': int, byteIndex': int, bitIndex': int)
    requires Square(matrix, n) && Square(reserved, n) && Reserves(reserved, n, cells)
    requires n % 2 == 1 && n >= 9 && p < n / 2
    requires col == RightColumn(n, p) && row == RowAt(n, p, 0) && inc == (if p % 2 == 0 then -1 else 1)
    requires Progress(matrix, n, base, codewords, cells, Pairs(n, p), byteIndex, bitIndex)
    modifies matrix
    ensures row' == RowAt(n, p + 1, 0) && inc' == -inc
    ensures Progress(matrix, n, base, codewords, cells, Pairs(n, p + 1), byteIndex', bitIndex')
  {
    hide FreeOf, MessageBit, Progress;
    row', inc', byteIndex', bitIndex' := row, inc, byteIndex, bitIndex;
    ghost var t: nat := 0;
    ghost var before := Pairs(n, p);
    assert before + PairRows(n, p, 0) == before;
    while true
      invariant t < n && row' == RowAt(n, p, t)
      invariant Progress(matrix, n, base, codewords, cells, before + PairRows(n, p, t), byteIndex', bitIndex')
      decreases n - t
    {
      NextIsNew(n, p, t);
      PairBounds(n, p, col);
      PairBounds(n, p, col - 1);
      ghost var seen := before + PairRows(n, p, t);
      byteIndex', bitIndex' := VisitRow(matrix, reserved, n, codewords, row', col, byteIndex', bitIndex',
                                        base, cells, seen);
      assert seen + [(row', col), (row', col - 1)] == before + PairRows(n, p, t + 1);
      t := t + 1;
      row' := row' + inc;
      if row' < 0 || n <= row' {
        row' := row' - inc;
        inc' := -inc;
        break;
      }
    }
  }

  /** The walk over the whole symbol. */
  method PlaceData(matrix: array2<Module>, reserved: array2<bool>, n: nat, codewords: seq<nat>,
                   ghost cells: set<Cell>)
    requires Square(matrix, n) && Square(reserved, n) && Reserves(reserved, n, cells)
    requires n % 2 == 1 && n >= 9
    modifies matrix
    ensures Holds(matrix, n, FreeOf(Path(n), cells), codewords)
    ensures Kept(matrix, n, old(Snapshot(matrix, n)), FreeOf(Path(n), cells))
  {
    hide Snapshot, FreeOf, MessageBit, Progress, Holds, Kept, Reserves;
    ghost var base := Snapshot(matrix, n);
    var inc, row, bitIndex, byteIndex := -1, n - 1, 7, 0;
    var col: int := n - 1;
    ghost var p: nat := 0;
    ProgressStarts(matrix, n, codewords, cells);
    while col > 0
      invariant p <= n / 2
      invariant col == if p == 0 then n - 1 else RightColumn(n, p - 1) - 2
      invariant row == RowAt(n, p, 0) && inc == (if p % 2 == 0 then -1 else 1)
      invariant Progress(matrix, n, base, codewords, cells, Pairs(n, p), byteIndex, bitIndex)
      decreases n / 2 - p
    {
      if col == 6 {
        col := col - 1;
      }
      row, inc, byteIndex, bitIndex :=
        VisitPair(matrix, reserved, n, codewords, col, row, inc, byteIndex, bitIndex, base, cells, p);
      p := p + 1;
      col := col - 2;
    }
    ProgressEnds(matrix, n, base, codewords, cells, Path(n), byteIndex, bitIndex);
  }

  lemma ProgressStarts(matrix: array2<Module>, n: nat, codewords: seq<nat>, cells: set<Cell>)
    requires Square(matrix, n)
    ensures Progress(matrix, n, Snapshot(matrix, n), codewords, cells, Pairs(n, 0), 0, 7)
  {
  }

  lemma ProgressEnds(matrix: array2<Module>, n: nat, base: map<Cell, Module>, codewords: seq<nat>,
                     cells: set<Cell>, visited: seq<Cell>, byteIndex: int, bitIndex: int)
    requires Square(matrix, n)
    requires Progress(matrix, n, base, codewords, cells, visited, byteIndex, bitIndex)
    ensures Holds(matrix, n, FreeOf(visited, cells), codewords)
    ensures Kept(matrix, n, base, FreeOf(visited, cells))
  {
  }

  /** Neither cell of the next row has been visited. */
  lemma NextIsNew(n: nat, p: nat, t: nat)
    requires n % 2 == 1 && n >= 9 && p < n / 2 && t < n
    ensures (RowAt(n, p, t), RightColumn(n, p)) !in Pairs(n, p) + PairRows(n, p, t)
    ensures (RowAt(n, p, t), RightColumn(n, p) - 1) !in Pairs(n, p) + PairRows(n, p, t)
  {
    PairsCover(n, p);
    PairRowsCover(n, p, t);
    var row, col := RowAt(n, p, t), RightColumn(n, p);
    if (row, col) in Pairs(n, p) {
      PairsDisjoint(n, p, col);
    }
    if (row, col - 1) in Pairs(n, p) {
      PairsDisjoint(n, p, col - 1);
    }
  }
}
