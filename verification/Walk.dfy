/** The placement walk of section 7.7.3 of ISO/IEC 18004:2015: pairs of columns from right to left,
    alternately upwards and downwards, jumping over column 6. */
module Walk {

  type Cell = (int, int)

  /** The right column of pair p in a symbol of n columns. */
  function RightColumn(n: nat, p: nat): int {
    var c := n - 1 - 2 * p;
    if c > 6 then c else c - 1
  }

  /** Row visited at step t of pair p. */
  function RowAt(n: nat, p: nat, t: nat): int {
    if p % 2 == 0 then n - 1 - t else t
  }

  /** The first t rows of column pair p, two cells a row. */
  function PairRows(n: nat, p: nat, t: nat): seq<Cell> {
    if t == 0 then []
    else
      var row, col := RowAt(n, p, t - 1), RightColumn(n, p);
      PairRows(n, p, t - 1) + [(row, col), (row, col - 1)]
  }

  /** The first p column pairs. */
  function Pairs(n: nat, p: nat): seq<Cell> {
    if p == 0 then [] else Pairs(n, p - 1) + PairRows(n, p - 1, n)
  }

  function Path(n: nat): seq<Cell> {
    Pairs(n, n / 2)
  }

  predicate InGrid(n: nat, x: Cell) {
    0 <= x.0 < n && 0 <= x.1 < n
  }

  ghost predicate Distinct<T(!new)>(s: seq<T>) {
    forall i, j :: 0 <= i < j < |s| ==> s[i] != s[j]
  }

  // ---------- the walk visits every cell outside column 6 exactly once ----------

  /** Whether column c belongs to pair p. */
  predicate InPair(n: nat, p: nat, c: int) {
    c == RightColumn(n, p) || c == RightColumn(n, p) - 1
  }

  /** Step t of pair p reaches row r. */
  predicate RowDone(n: nat, p: nat, t: nat, r: int) {
    if p % 2 == 0 then n - t <= r < n else 0 <= r < t
  }

  lemma {:induction false} PairRowsCover(n: nat, p: nat, t: nat)
    requires t <= n
    ensures forall x: Cell :: x in PairRows(n, p, t) <==> InPair(n, p, x.1) && RowDone(n, p, t, x.0)
    ensures Distinct(PairRows(n, p, t))
  {
    if t > 0 {
      PairRowsCover(n, p, t - 1);
      var before := PairRows(n, p, t - 1);
      var row, col := RowAt(n, p, t - 1), RightColumn(n, p);
      assert (row, col) !in before && (row, col - 1) !in before;
      assert forall x: Cell :: x in PairRows(n, p, t) <==> x in before || x == (row, col) || x == (row, col - 1);
    }
  }

  lemma {:induction false} PairsCover(n: nat, p: nat)
    requires n % 2 == 1 && n >= 9 && p <= n / 2
    ensures forall x: Cell :: x in Pairs(n, p) <==>
      0 <= x.0 < n && exists q: nat :: q < p && InPair(n, q, x.1)
    ensures Distinct(Pairs(n, p))
  {
    if p > 0 {
      PairsCover(n, p - 1);
      PairRowsCover(n, p - 1, n);
      var before, last := Pairs(n, p - 1), PairRows(n, p - 1, n);
      forall x: Cell | x in before
        ensures x !in last
      {
        PairsDisjoint(n, p - 1, x.1);
      }
      assert forall x: Cell :: x in Pairs(n, p) <==> x in before || x in last;
      forall i, j | 0 <= i < j < |before + last|
        ensures (before + last)[i] != (before + last)[j]
      {
        if i < |before| <= j {
          assert before[i] in before && last[j - |before|] in last;
        }
      }
    }
  }

  lemma PairsDisjoint(n: nat, p: nat, c: int)
    requires n % 2 == 1 && n >= 9 && p < n / 2
    requires exists q: nat :: q < p && InPair(n, q, c)
    ensures !InPair(n, p, c)
  {
    var q: nat :| q < p && InPair(n, q, c);
    assert n - 1 - 2 * p <= n - 3 - 2 * q;
  }

  /** The pair a column belongs to. */
  lemma PairOf(n: nat, c: int) returns (p: nat)
    requires n % 2 == 1 && n >= 9 && 0 <= c < n && c != 6
    ensures p < n / 2 && InPair(n, p, c)
  {
    var even := if c > 6 then c + c % 2 else c + 2 - c % 2;
    p := (n - 1 - even) / 2;
    assert n - 1 - 2 * p == even;
  }

  lemma PairBounds(n: nat, p: nat, c: int)
    requires n % 2 == 1 && n >= 9 && p < n / 2 && InPair(n, p, c)
    ensures 0 <= c < n && c != 6
  {
  }

  lemma PathVisitsOnce(n: nat)
    requires n % 2 == 1 && n >= 9
    ensures Distinct(Path(n))
    ensures forall x: Cell :: x in Path(n) <==> InGrid(n, x) && x.1 != 6
  {
    PairsCover(n, n / 2);
    forall x: Cell
      ensures x in Path(n) <==> InGrid(n, x) && x.1 != 6
    {
      if InGrid(n, x) && x.1 != 6 {
        var p := PairOf(n, x.1);
      } else if x in Path(n) {
        var q: nat :| q < n / 2 && InPair(n, q, x.1);
        PairBounds(n, q, x.1);
      }
    }
  }

  function PairStart(n: nat, pair: int): int {
    2 * n * pair
  }

  /** The turn of a cell in the walk, counted: a pair of columns takes 2 * n turns, and column 6 is not counted.
      In every other pair the walk goes upwards; in each row the right one of the two cells is first. */
  function Turn(n: nat, x: Cell): int {
    var column := if x.1 > 6 then x.1 else x.1 + 1;
    var pair := (n - 1 - column) / 2;
    var down := if pair % 2 == 0 then n - 1 - x.0 else x.0;
    PairStart(n, pair) + 2 * down + (if column % 2 == n % 2 then 1 else 0)
  }

  lemma {:induction false} PairRowsTurn(n: nat, p: nat, t: nat, r: int, left: bool)
    requires t <= n && RowDone(n, p, t, r)
    ensures var k := 2 * (if p % 2 == 0 then n - 1 - r else r) + (if left then 1 else 0);
      |PairRows(n, p, t)| == 2 * t && 0 <= k < 2 * t
      && PairRows(n, p, t)[k] == (r, if left then RightColumn(n, p) - 1 else RightColumn(n, p))
  {
    PairRowsLength(n, p, t - 1);
    if r != RowAt(n, p, t - 1) {
      PairRowsTurn(n, p, t - 1, r, left);
    }
  }

  lemma {:induction false} PairRowsLength(n: nat, p: nat, t: nat)
    ensures |PairRows(n, p, t)| == 2 * t
  {
    if t > 0 {
      PairRowsLength(n, p, t - 1);
    }
  }

  lemma NextPair(n: nat, p: nat)
    ensures PairStart(n, p + 1) == PairStart(n, p) + 2 * n
  {
  }

  lemma NoPair(n: nat)
    ensures PairStart(n, 0) == 0
  {
  }

  lemma {:induction false} PairsLength(n: nat, p: nat)
    ensures |Pairs(n, p)| == PairStart(n, p)
  {
    hide PairStart;
    if p > 0 {
      PairsLength(n, p - 1);
      PairRowsLength(n, p - 1, n);
      NextPair(n, p - 1);
    } else {
      NoPair(n);
    }
  }

  lemma {:induction false} PairsTurn(n: nat, p: nat, q: nat, k: nat)
    requires p < q && k < 2 * n
    ensures 0 <= PairStart(n, p) + k < |Pairs(n, q)| && |PairRows(n, p, n)| == 2 * n
    ensures Pairs(n, q)[PairStart(n, p) + k] == PairRows(n, p, n)[k]
  {
    hide PairStart;
    PairsLength(n, p);
    PairRowsLength(n, p, n);
    PairsLength(n, q - 1);
    PairsLength(n, q);
    if p < q - 1 {
      PairsTurn(n, p, q - 1, k);
    }
  }

  /** The walk passes each cell in its turn. */
  lemma PathOrder(n: nat, x: Cell)
    requires n % 2 == 1 && n >= 9 && InGrid(n, x) && x.1 != 6
    ensures 0 <= Turn(n, x) < |Path(n)| && Path(n)[Turn(n, x)] == x
  {
    hide PairRows, Pairs, PairStart;
    var p, left := TurnOf(n, x);
    PairRowsTurn(n, p, n, x.0, left);
    PairsTurn(n, p, n / 2, 2 * (if p % 2 == 0 then n - 1 - x.0 else x.0) + (if left then 1 else 0));
  }

  lemma TurnOf(n: nat, x: Cell) returns (p: nat, left: bool)
    requires n % 2 == 1 && n >= 9 && InGrid(n, x) && x.1 != 6
    ensures p < n / 2 && x.1 == (if left then RightColumn(n, p) - 1 else RightColumn(n, p))
    ensures Turn(n, x) == PairStart(n, p) + 2 * (if p % 2 == 0 then n - 1 - x.0 else x.0) + (if left then 1 else 0)
  {
    hide PairStart;
    var column := if x.1 > 6 then x.1 else x.1 + 1;
    p, left := (n - 1 - column) / 2, column % 2 == n % 2;
  }

  // ---------- the free cells among them ----------

  function FreeOf(cells: seq<Cell>, reserved: set<Cell>): (free: seq<Cell>)
    ensures |free| <= |cells|
  {
    if cells == [] then []
    else
      var k := |cells| - 1;
      FreeOf(cells[..k], reserved) + (if cells[k] in reserved then [] else [cells[k]])
  }

  lemma FreeOfSnoc(cells: seq<Cell>, x: Cell, reserved: set<Cell>)
    ensures FreeOf(cells + [x], reserved) == FreeOf(cells, reserved) + (if x in reserved then [] else [x])
  {
    assert (cells + [x])[..|cells|] == cells;
  }

  lemma {:induction false} FreeOfMembers(cells: seq<Cell>, reserved: set<Cell>)
    ensures forall x: Cell :: x in FreeOf(cells, reserved) <==> x in cells && x !in reserved
    ensures Distinct(cells) ==> Distinct(FreeOf(cells, reserved))
  {
    if cells != [] {
      var k := |cells| - 1;
      FreeOfMembers(cells[..k], reserved);
      assert cells == cells[..k] + [cells[k]];
      if Distinct(cells) {
        assert Distinct(cells[..k]) && cells[k] !in cells[..k];
      }
    }
  }

}
