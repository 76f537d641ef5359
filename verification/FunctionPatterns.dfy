/** The function patterns of a symbol and the map of reserved modules (sections 6.3, 7.9 and 7.10 of
    ISO/IEC 18004:2015), as the matrix builder draws them. */
module FunctionPatterns {
  import opened Wrappers
  import opened Bits
  import opened Codewords
  import opened DataPlacement

  function Size(version: nat): nat {
    4 * version + 17
  }

  // ---------- what each pattern looks like ----------

  predicate InBox(r: int, c: int, top: int, left: int, size: int) {
    top <= r < top + size && left <= c < left + size
  }

  /** A finder and its separator, by the distance from the finder's top left module. */
  predicate FinderDark(r: int, c: int) {
    || (0 <= r <= 6 && (c == 0 || c == 6))
    || (0 <= c <= 6 && (r == 0 || r == 6))
    || (2 <= r <= 4 && 2 <= c <= 4)
  }

  function FinderModule(n: int, r: int, c: int): Option<bool> {
    if InBox(r, c, -1, -1, 9) then Some(FinderDark(r, c))
    else if InBox(r, c, -1, n - 8, 9) then Some(FinderDark(r, c - (n - 7)))
    else if InBox(r, c, n - 8, -1, 9) then Some(FinderDark(r - (n - 7), c))
    else None
  }

  function AlignmentPositions(version: nat): (p: seq<int>)
    ensures forall i :: 0 <= i < |p| ==> 6 <= p[i] <= Size(version) - 7
    ensures forall i, j :: 0 <= i < j < |p| ==> p[i] + 12 <= p[j]
  {
    if version == 2 then [6, 18]
    else if version == 3 then [6, 22]
    else if version == 4 then [6, 26]
    else if version == 5 then [6, 30]
    else if version == 6 then [6, 34]
    else if version == 7 then [6, 22, 38]
    else if version == 8 then [6, 24, 42]
    else if version == 9 then [6, 26, 46]
    else if version == 10 then [6, 28, 50]
    else []
  }

  predicate AlignmentDark(r: int, c: int) {
    r == -2 || r == 2 || c == -2 || c == 2 || (r == 0 && c == 0)
  }

  /** The pattern centred at (row, col), unless a finder occupies that place. */
  function AlignmentBox(n: int, row: int, col: int, r: int, c: int): Option<bool> {
    if FinderModule(n, row, col) == None && InBox(r, c, row - 2, col - 2, 5)
    then Some(AlignmentDark(r - row, c - col))
    else None
  }

  /** The patterns centred in row i at the first j positions. */
  function AlignmentRow(version: nat, i: nat, j: nat, r: int, c: int): Option<bool>
    requires i < |AlignmentPositions(version)| && j <= |AlignmentPositions(version)|
  {
    if j == 0 then None
    else
      var p := AlignmentPositions(version);
      var box := AlignmentBox(Size(version), p[i], p[j - 1], r, c);
      if box.Some? then box else AlignmentRow(version, i, j - 1, r, c)
  }

  /** The patterns centred in the first i rows. */
  function AlignmentRows(version: nat, i: nat, r: int, c: int): Option<bool>
    requires i <= |AlignmentPositions(version)|
  {
    if i == 0 then None
    else
      var row := AlignmentRow(version, i - 1, |AlignmentPositions(version)|, r, c);
      if row.Some? then row else AlignmentRows(version, i - 1, r, c)
  }

  function TimingModule(n: int, r: int, c: int): Option<bool> {
    if c == 6 && 8 <= r < n - 8 then Some(r % 2 == 0)
    else if r == 6 && 8 <= c < n - 8 then Some(c % 2 == 0)
    else None
  }

  /** Both copies of the format word; the first one runs down column 8, the second along row 8. */
  function FormatModule(n: int, f: nat, r: int, c: int): Option<bool> {
    if c == 8 then
      if 0 <= r < 6 then Some(Bit(f, r))
      else if 7 <= r < 9 then Some(Bit(f, r - 1))
      else if 9 <= n - 7 <= r < n then Some(Bit(f, r - n + 15))
      else None
    else if r == 8 then
      if 0 <= c < 6 then Some(Bit(f, 14 - c))
      else if c == 7 then Some(Bit(f, 8))
      else if 9 <= n - 8 <= c < n then Some(Bit(f, n - 1 - c))
      else None
    else None
  }

  /** Both copies of the version word. */
  function VersionModule(n: int, v: nat, r: int, c: int): Option<bool> {
    if 0 <= r < 6 && n - 11 <= c < n - 8 then Some(Bit(v, 3 * r + c - (n - 11)))
    else if 0 <= c < 6 && n - 11 <= r < n - 8 then Some(Bit(v, 3 * c + r - (n - 11)))
    else None
  }

  // ---------- the drawing, layer upon layer ----------

  function Upon(above: Option<bool>, below: Option<bool>): Option<bool> {
    if above.Some? then above else below
  }

  function WithFinders(version: nat, r: int, c: int): Option<bool> {
    FinderModule(Size(version), r, c)
  }

  function WithAlignment(version: nat, r: int, c: int): Option<bool> {
    Upon(WithFinders(version, r, c), AlignmentRows(version, |AlignmentPositions(version)|, r, c))
  }

  function WithTiming(version: nat, r: int, c: int): Option<bool> {
    Upon(WithAlignment(version, r, c), TimingModule(Size(version), r, c))
  }

  function WithDark(version: nat, r: int, c: int): Option<bool> {
    if r == Size(version) - 8 && c == 8 then Some(true) else WithTiming(version, r, c)
  }

  function WithFormat(version: nat, f: nat, r: int, c: int): Option<bool> {
    Upon(FormatModule(Size(version), f, r, c), WithDark(version, r, c))
  }

  function WithVersion(version: nat, f: nat, v: nat, r: int, c: int): Option<bool> {
    Upon(if version >= 7 then VersionModule(Size(version), v, r, c) else None, WithFormat(version, f, r, c))
  }

  datatype Stage =
    | Finders
    | AlignmentTo(i: nat, j: nat)
    | Aligned
    | Timed
    | Darkened
    | Formatted(f: nat)
    | Versioned(f': nat, v: nat)

  /** What a stage of the drawing has put at (r, c), if anything. */
  function Pattern(stage: Stage, version: nat, r: int, c: int): Option<bool> {
    match stage
    case Finders => WithFinders(version, r, c)
    case AlignmentTo(i, j) =>
      var p := |AlignmentPositions(version)|;
      if i >= p || j > p then WithAlignment(version, r, c)
      else Upon(WithFinders(version, r, c),
                Upon(AlignmentRow(version, i, j, r, c), AlignmentRows(version, i, r, c)))
    case Aligned => WithAlignment(version, r, c)
    case Timed => WithTiming(version, r, c)
    case Darkened => WithDark(version, r, c)
    case Formatted(f) => WithFormat(version, f, r, c)
    case Versioned(f, v) => WithVersion(version, f, v, r, c)
  }

  function AsModule(p: Option<bool>): Module {
    if p.Some? then Set(p.value) else Unset
  }

  ghost predicate Drawn(matrix: array2<Module>, reserved: array2<bool>, stage: Stage, version: nat)
    reads matrix, reserved
  {
    var n := Size(version);
    && Square(matrix, n) && Square(reserved, n)
    && forall r, c :: 0 <= r < n && 0 <= c < n ==>
         && matrix[r, c] == AsModule(Pattern(stage, version, r, c))
         && reserved[r, c] == Pattern(stage, version, r, c).Some?
  }

  // ---------- finders ----------

  method PlaceFinder(matrix: array2<Module>, reserved: array2<bool>, n: nat, row: int, col: int)
    requires Square(matrix, n) && Square(reserved, n)
    modifies matrix, reserved
    ensures forall r, c :: 0 <= r < n && 0 <= c < n ==>
      if InBox(r, c, row - 1, col - 1, 9)
      then matrix[r, c] == Set(FinderDark(r - row, c - col)) && reserved[r, c]
      else matrix[r, c] == old(matrix[r, c]) && reserved[r, c] == old(reserved[r, c])
  {
    for r := -1 to 8
      invariant forall x, y :: 0 <= x < n && 0 <= y < n ==>
        if x < row + r && InBox(x, y, row - 1, col - 1, 9)
        then matrix[x, y] == Set(FinderDark(x - row, y - col)) && reserved[x, y]
        else matrix[x, y] == old(matrix[x, y]) && reserved[x, y] == old(reserved[x, y])
    {
      for c := -1 to 8
        invariant forall x, y :: 0 <= x < n && 0 <= y < n ==>
          if (x < row + r || (x == row + r && y < col + c)) && InBox(x, y, row - 1, col - 1, 9)
          then matrix[x, y] == Set(FinderDark(x - row, y - col)) && reserved[x, y]
          else matrix[x, y] == old(matrix[x, y]) && reserved[x, y] == old(reserved[x, y])
      {
        var rr, cc := row + r, col + c;
        if rr <= -1 || n <= rr || cc <= -1 || n <= cc {
          continue;
        }
        var dark := FinderDark(r, c);
        matrix[rr, cc] := Set(dark);
        reserved[rr, cc] := true;
      }
    }
  }

  method PlaceFinders(matrix: array2<Module>, reserved: array2<bool>, version: nat)
    requires version >= 1
    requires var n := Size(version); Square(matrix, n) && Square(reserved, n)
    requires forall r, c :: 0 <= r < Size(version) && 0 <= c < Size(version) ==>
      matrix[r, c] == Unset && !reserved[r, c]
    modifies matrix, reserved
    ensures Drawn(matrix, reserved, Finders, version)
  {
    var n := Size(version);
    PlaceFinder(matrix, reserved, n, 0, 0);
    PlaceFinder(matrix, reserved, n, 0, n - 7);
    PlaceFinder(matrix, reserved, n, n - 7, 0);
  }

  // ---------- alignment patterns ----------

  method PlaceAlignment(matrix: array2<Module>, reserved: array2<bool>, n: nat, row: int, col: int)
    requires Square(matrix, n) && Square(reserved, n)
    requires 2 <= row < n - 2 && 2 <= col < n - 2
    modifies matrix, reserved
    ensures forall r, c :: 0 <= r < n && 0 <= c < n ==>
      if InBox(r, c, row - 2, col - 2, 5)
      then matrix[r, c] == Set(AlignmentDark(r - row, c - col)) && reserved[r, c]
      else matrix[r, c] == old(matrix[r, c]) && reserved[r, c] == old(reserved[r, c])
  {
    for r := -2 to 3
      invariant forall x, y :: 0 <= x < n && 0 <= y < n ==>
        if x < row + r && InBox(x, y, row - 2, col - 2, 5)
        then matrix[x, y] == Set(AlignmentDark(x - row, y - col)) && reserved[x, y]
        else matrix[x, y] == old(matrix[x, y]) && reserved[x, y] == old(reserved[x, y])
    {
      for c := -2 to 3
        invariant forall x, y :: 0 <= x < n && 0 <= y < n ==>
          if (x < row + r || (x == row + r && y < col + c)) && InBox(x, y, row - 2, col - 2, 5)
          then matrix[x, y] == Set(AlignmentDark(x - row, y - col)) && reserved[x, y]
          else matrix[x, y] == old(matrix[x, y]) && reserved[x, y] == old(reserved[x, y])
      {
        var dark := AlignmentDark(r, c);
        matrix[row + r, col + c] := Set(dark);
        reserved[row + r, col + c] := true;
      }
    }
  }

  /** No pattern placed so far reaches another centre. */
  lemma {:induction false} CentreFreeInRow(version: nat, i: nat, j: nat, row: int, col: int)
    requires i < |AlignmentPositions(version)| && j <= |AlignmentPositions(version)|
    requires var p := AlignmentPositions(version);
      row >= p[i] + 12 || (row == p[i] && forall k :: 0 <= k < j ==> col >= p[k] + 12)
    ensures AlignmentRow(version, i, j, row, col) == None
  {
    if j > 0 {
      CentreFreeInRow(version, i, j - 1, row, col);
    }
  }

  lemma {:induction false} CentreFreeAbove(version: nat, i: nat, row: int, col: int)
    requires i <= |AlignmentPositions(version)|
    requires forall k :: 0 <= k < i ==> row >= AlignmentPositions(version)[k] + 12
    ensures AlignmentRows(version, i, row, col) == None
  {
    if i > 0 {
      CentreFreeInRow(version, i - 1, |AlignmentPositions(version)|, row, col);
      CentreFreeAbove(version, i - 1, row, col);
    }
  }

  /** A pattern that is placed does not touch a finder. */
  lemma AlignmentClearOfFinders(version: nat, i: nat, j: nat, r: int, c: int)
    requires 1 <= version <= 10
    requires i < |AlignmentPositions(version)| && j < |AlignmentPositions(version)|
    requires var p := AlignmentPositions(version); AlignmentBox(Size(version), p[i], p[j], r, c).Some?
    ensures WithFinders(version, r, c) == None
  {
  }

  /** One round of the alignment loops: skipped when the centre is already drawn. */
  method PlaceCentre(matrix: array2<Module>, reserved: array2<bool>, version: nat, i: nat, j: nat)
    requires 1 <= version <= 10
    requires i < |AlignmentPositions(version)| && j < |AlignmentPositions(version)|
    requires Drawn(matrix, reserved, AlignmentTo(i, j), version)
    modifies matrix, reserved
    ensures Drawn(matrix, reserved, AlignmentTo(i, j + 1), version)
  {
    hide AlignmentPositions, FinderModule, AlignmentDark;
    var n := Size(version);
    var row, col := AlignmentPositions(version)[i], AlignmentPositions(version)[j];
    CentreFreeAbove(version, i, row, col);
    CentreFreeInRow(version, i, j, row, col);
    if matrix[row, col] != Unset {
      return;
    }
    forall r, c | AlignmentBox(n, row, col, r, c).Some?
      ensures WithFinders(version, r, c) == None
    {
      AlignmentClearOfFinders(version, i, j, r, c);
    }
    PlaceAlignment(matrix, reserved, n, row, col);
  }

  method PlaceAlignments(matrix: array2<Module>, reserved: array2<bool>, version: nat)
    requires 1 <= version <= 10
    requires Drawn(matrix, reserved, Finders, version)
    modifies matrix, reserved
    ensures Drawn(matrix, reserved, Aligned, version)
  {
    hide AlignmentPositions, FinderModule, AlignmentDark;
    var count := |AlignmentPositions(version)|;
    for i := 0 to count
      invariant Drawn(matrix, reserved, if i < count then AlignmentTo(i, 0) else Aligned, version)
    {
      for j := 0 to count
        invariant Drawn(matrix, reserved, AlignmentTo(i, j), version)
      {
        PlaceCentre(matrix, reserved, version, i, j);
      }
    }
  }

  // ---------- timing patterns and the dark module ----------

  method PlaceTiming(matrix: array2<Module>, reserved: array2<bool>, version: nat)
    requires version >= 1
    requires Drawn(matrix, reserved, Aligned, version)
    modifies matrix, reserved
    ensures Drawn(matrix, reserved, Timed, version)
  {
    hide AlignmentRows, AlignmentPositions, FinderModule;
    var n := Size(version);
    for r := 8 to n - 8
      invariant forall x, y :: 0 <= x < n && 0 <= y < n ==>
        if y == 6 && 8 <= x < r && old(matrix[x, y]) == Unset
        then matrix[x, y] == Set(x % 2 == 0) && reserved[x, y]
        else matrix[x, y] == old(matrix[x, y]) && reserved[x, y] == old(reserved[x, y])
    {
      if matrix[r, 6] != Unset {
        continue;
      }
      matrix[r, 6] := Set(r % 2 == 0);
      reserved[r, 6] := true;
    }
    for c := 8 to n - 8
      invariant forall x, y :: 0 <= x < n && 0 <= y < n ==>
        if old(matrix[x, y]) == Unset && ((y == 6 && 8 <= x < n - 8) || (x == 6 && 8 <= y < c))
        then matrix[x, y] == Set(if y == 6 then x % 2 == 0 else y % 2 == 0) && reserved[x, y]
        else matrix[x, y] == old(matrix[x, y]) && reserved[x, y] == old(reserved[x, y])
    {
      if matrix[6, c] != Unset {
        continue;
      }
      matrix[6, c] := Set(c % 2 == 0);
      reserved[6, c] := true;
    }
  }

  method PlaceDark(matrix: array2<Module>, reserved: array2<bool>, version: nat)
    requires version >= 1
    requires Drawn(matrix, reserved, Timed, version)
    modifies matrix, reserved
    ensures Drawn(matrix, reserved, Darkened, version)
  {
    hide WithTiming;
    var n := Size(version);
    matrix[n - 8, 8] := Set(true);
    reserved[n - 8, 8] := true;
  }

  // ---------- format and version information ----------

  method PlaceFormat(matrix: array2<Module>, reserved: array2<bool>, version: nat, f: nat)
    requires version >= 1
    requires Drawn(matrix, reserved, Darkened, version)
    modifies matrix, reserved
    ensures Drawn(matrix, reserved, Formatted(f), version)
  {
    hide WithDark, Bit;
    var n := Size(version);
    for i := 0 to 15
      invariant forall x, y :: 0 <= x < n && 0 <= y < n ==>
        if y == 8 && ((x < 6 && x < i) || (7 <= x < 9 && x - 1 < i) || (n - 7 <= x && x - n + 15 < i))
        then matrix[x, y] == AsModule(FormatModule(n, f, x, y)) && reserved[x, y]
        else matrix[x, y] == old(matrix[x, y]) && reserved[x, y] == old(reserved[x, y])
    {
      var mod := Bit(f, i);
      if i < 6 {
        matrix[i, 8] := Set(mod);
        reserved[i, 8] := true;
      } else if i < 8 {
        matrix[i + 1, 8] := Set(mod);
        reserved[i + 1, 8] := true;
      } else {
        matrix[n - 15 + i, 8] := Set(mod);
        reserved[n - 15 + i, 8] := true;
      }
    }
    for i := 0 to 15
      invariant forall x, y :: 0 <= x < n && 0 <= y < n ==>
        if (y == 8 && FormatModule(n, f, x, y).Some?)
           || (x == 8 && ((n - 8 <= y && n - 1 - y < i) || (y == 7 && 8 < i) || (y < 6 && 14 - y < i)))
        then matrix[x, y] == AsModule(FormatModule(n, f, x, y)) && reserved[x, y]
        else matrix[x, y] == old(matrix[x, y]) && reserved[x, y] == old(reserved[x, y])
    {
      var mod := Bit(f, i);
      if i < 8 {
        matrix[8, n - i - 1] := Set(mod);
        reserved[8, n - i - 1] := true;
      } else if i < 9 {
        matrix[8, 15 - i - 1 + 1] := Set(mod);
        reserved[8, 15 - i - 1 + 1] := true;
      } else {
        matrix[8, 15 - i - 1] := Set(mod);
        reserved[8, 15 - i - 1] := true;
      }
    }
  }

  method PlaceVersion(matrix: array2<Module>, reserved: array2<bool>, version: nat, f: nat, v: nat)
    requires version >= 1
    requires Drawn(matrix, reserved, Formatted(f), version)
    modifies matrix, reserved
    ensures Drawn(matrix, reserved, Versioned(f, v), version)
  {
    hide WithFormat, Bit;
    var n := Size(version);
    if version >= 7 {
      for i := 0 to 18
        invariant forall x, y :: 0 <= x < n && 0 <= y < n ==>
          if (x < 6 && n - 11 <= y < n - 8 && 3 * x + y - (n - 11) < i)
             || (y < 6 && n - 11 <= x < n - 8 && 3 * y + x - (n - 11) < i)
          then matrix[x, y] == AsModule(VersionModule(n, v, x, y)) && reserved[x, y]
          else matrix[x, y] == old(matrix[x, y]) && reserved[x, y] == old(reserved[x, y])
      {
        var mod := Bit(v, i);
        var r, c := i / 3, i % 3 + n - 8 - 3;
        matrix[r, c] := Set(mod);
        reserved[r, c] := true;
        matrix[c, r] := Set(mod);
        reserved[c, r] := true;
      }
    }
  }
}
