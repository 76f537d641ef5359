/** The encoder as a whole, and a scanner that reads a symbol back: size, format word, walk,
    de-interleaving, byte mode. */
module QrCode {
  import opened Wrappers
  import opened Bits
  import opened Bch
  import opened Codewords
  import opened Walk
  import opened DataPlacement
  import opened FunctionPatterns
  import opened SymbolCapacity
  import Interleave
  import Gf256
  import ReedSolomon

  // ---------- Reed-Solomon over byte values ----------

  function ToElems(s: seq<nat>): seq<Gf256.Elem>
    requires AreBytes(s)
  {
    seq(|s|, k requires 0 <= k < |s| => s[k] as bv8)
  }

  function ToBytes(s: seq<Gf256.Elem>): (r: seq<nat>)
    ensures AreBytes(r)
  {
    seq(|s|, k requires 0 <= k < |s| => Gf256.ByteRoundTrip(s[k]); s[k] as int)
  }

  lemma ElemsOfBytes(s: seq<Gf256.Elem>)
    ensures ToElems(ToBytes(s)) == s
  {
    forall k | 0 <= k < |s|
      ensures ToElems(ToBytes(s))[k] == s[k]
    {
      Gf256.ByteRoundTrip(s[k]);
    }
  }

  /** A data block and its check block form a codeword with |ec| check symbols. */
  ghost predicate IsRsBlock(data: seq<nat>, ec: seq<nat>) {
    && AreBytes(data) && AreBytes(ec)
    && ReedSolomon.Vanishes(ToElems(data) + ToElems(ec), |ec|)
  }

  // ---------- blocks ----------

  ghost predicate WellFormed(groups: seq<Group>) {
    forall g :: g in groups ==> g.data < g.total <= 255
  }

  lemma TableWellFormed(level: EcLevel, version: nat)
    requires 1 <= version <= 10
    ensures WellFormed(RsBlocks(level, version))
  {
  }

  function DataLengths(groups: seq<Group>): seq<nat> {
    if groups == [] then []
    else
      var k := |groups| - 1;
      DataLengths(groups[..k]) + Repeat(groups[k].count, groups[k].data)
  }

  function Repeat(count: nat, x: nat): seq<nat> {
    seq(count, _ => x)
  }

  function CheckLength(g: Group): nat {
    if g.data <= g.total then g.total - g.data else 0
  }

  function CheckLengths(groups: seq<Group>): seq<nat> {
    if groups == [] then []
    else
      var k := |groups| - 1;
      CheckLengths(groups[..k]) + Repeat(groups[k].count, CheckLength(groups[k]))
  }

  function Flatten<T>(blocks: seq<seq<T>>): seq<T> {
    if blocks == [] then [] else Flatten(blocks[..|blocks| - 1]) + blocks[|blocks| - 1]
  }

  lemma FlattenSnoc<T>(blocks: seq<seq<T>>, b: seq<T>)
    ensures Flatten(blocks + [b]) == Flatten(blocks) + b
  {
    assert (blocks + [b])[..|blocks|] == blocks;
  }

  lemma {:induction false} SumAppend(a: seq<nat>, b: seq<nat>)
    ensures Interleave.Sum(a + b) == Interleave.Sum(a) + Interleave.Sum(b)
  {
    if b == [] {
      assert a + b == a;
    } else {
      SumAppend(a, b[..|b| - 1]);
      assert (a + b)[..|a + b| - 1] == a + b[..|b| - 1];
    }
  }

  lemma {:induction false} SumConstant(count: nat, x: nat)
    ensures Interleave.Sum(seq(count, _ => x)) == count * x
  {
    if count > 0 {
      SumConstant(count - 1, x);
      assert seq(count, _ => x)[..count - 1] == seq(count - 1, _ => x);
      assert count * x == (count - 1) * x + x;
    }
  }

  /** The lengths of the groups one after another. */
  lemma {:induction false} DataAppend(a: seq<Group>, b: seq<Group>)
    ensures DataLengths(a + b) == DataLengths(a) + DataLengths(b)
  {
    hide Repeat;
    if b == [] {
      assert a + b == a;
    } else {
      DataAppend(a, b[..|b| - 1]);
      assert (a + b)[..|a + b| - 1] == a + b[..|b| - 1];
    }
  }

  lemma {:induction false} CheckAppend(a: seq<Group>, b: seq<Group>)
    ensures CheckLengths(a + b) == CheckLengths(a) + CheckLengths(b)
  {
    hide Repeat, CheckLength;
    if b == [] {
      assert a + b == a;
    } else {
      CheckAppend(a, b[..|b| - 1]);
      assert (a + b)[..|a + b| - 1] == a + b[..|b| - 1];
    }
  }

  lemma {:induction false} LengthTotals(groups: seq<Group>)
    requires WellFormed(groups)
    ensures Interleave.Sum(DataLengths(groups)) == DataBytes(groups)
    ensures Interleave.Sum(DataLengths(groups)) + Interleave.Sum(CheckLengths(groups)) == TotalCodewords(groups)
  {
    if groups != [] {
      var g, rest := groups[0], groups[1..];
      LengthTotals(rest);
      assert groups == [g] + rest;
      DataAppend([g], rest);
      CheckAppend([g], rest);
      SumAppend(DataLengths([g]), DataLengths(rest));
      SumAppend(CheckLengths([g]), CheckLengths(rest));
      SingleGroup(g);
      hide DataLengths, CheckLengths, Interleave.Sum;
    }
  }

  lemma SingleGroup(g: Group)
    requires g.data < g.total
    ensures Interleave.Sum(DataLengths([g])) == g.count * g.data
    ensures Interleave.Sum(DataLengths([g])) + Interleave.Sum(CheckLengths([g])) == g.count * g.total
  {
    SumConstant(g.count, g.data);
    SumConstant(g.count, CheckLength(g));
    assert [g][..0] == [];
    assert DataLengths([g]) == seq(g.count, _ => g.data);
    assert CheckLengths([g]) == seq(g.count, _ => CheckLength(g));
    assert g.count * g.data + g.count * CheckLength(g) == g.count * g.total;
  }

  ghost predicate AreRsBlocks(dataBlocks: seq<seq<nat>>, ecBlocks: seq<seq<nat>>) {
    && |dataBlocks| == |ecBlocks|
    && forall b :: 0 <= b < |dataBlocks| ==> IsRsBlock(dataBlocks[b], ecBlocks[b])
  }

  /** The data codewords cut into blocks, each with its check symbols. */
  method SplitBlocks(exp: seq<Gf256.Elem>, log: seq<nat>, codewords: seq<nat>, groups: seq<Group>)
    returns (dataBlocks: seq<seq<nat>>, ecBlocks: seq<seq<nat>>)
    requires Gf256.ValidTables(exp, log)
    requires WellFormed(groups) && AreBytes(codewords) && |codewords| == DataBytes(groups)
    ensures Interleave.Lengths(dataBlocks) == DataLengths(groups)
    ensures Interleave.Lengths(ecBlocks) == CheckLengths(groups)
    ensures Flatten(dataBlocks) == codewords
    ensures AreRsBlocks(dataBlocks, ecBlocks)
  {
    dataBlocks, ecBlocks := [], [];
    var offset := 0;
    LengthTotals(groups);
    for k := 0 to |groups|
      invariant Interleave.Lengths(dataBlocks) == DataLengths(groups[..k])
      invariant Interleave.Lengths(ecBlocks) == CheckLengths(groups[..k])
      invariant offset == Interleave.Sum(DataLengths(groups[..k])) <= |codewords|
      invariant Flatten(dataBlocks) == codewords[..offset]
      invariant AreRsBlocks(dataBlocks, ecBlocks)
    {
      OffsetsInRange(groups, k);
      dataBlocks, ecBlocks, offset := SplitGroup(exp, log, codewords, groups[k], dataBlocks, ecBlocks, offset);
      assert groups[..k + 1][..k] == groups[..k];
    }
    assert groups[..|groups|] == groups;
  }

  /** Where group k starts and ends among the data codewords. */
  lemma OffsetsInRange(groups: seq<Group>, k: nat)
    requires WellFormed(groups) && k < |groups|
    ensures Interleave.Sum(DataLengths(groups[..k + 1]))
         == Interleave.Sum(DataLengths(groups[..k])) + groups[k].count * groups[k].data
    ensures Interleave.Sum(DataLengths(groups[..k])) + groups[k].count * groups[k].data <= DataBytes(groups)
  {
    hide WellFormed, DataBytes, Interleave.Sum;
    DataLengthsSnoc(groups, k);
    hide DataLengths;
    SumAppend(DataLengths(groups[..k]), seq(groups[k].count, _ => groups[k].data));
    SumConstant(groups[k].count, groups[k].data);
    assert groups == groups[..k + 1] + groups[k + 1..];
    DataAppend(groups[..k + 1], groups[k + 1..]);
    SumAppend(DataLengths(groups[..k + 1]), DataLengths(groups[k + 1..]));
    LengthTotals(groups);
  }

  lemma DataLengthsSnoc(groups: seq<Group>, k: nat)
    requires k < |groups|
    ensures DataLengths(groups[..k + 1]) == DataLengths(groups[..k]) + seq(groups[k].count, _ => groups[k].data)
  {
    assert groups[..k + 1][..k] == groups[..k];
  }

  method SplitGroup(exp: seq<Gf256.Elem>, log: seq<nat>, codewords: seq<nat>, g: Group,
                    dataBlocks0: seq<seq<nat>>, ecBlocks0: seq<seq<nat>>, offset0: nat)
    returns (dataBlocks: seq<seq<nat>>, ecBlocks: seq<seq<nat>>, offset: nat)
    requires Gf256.ValidTables(exp, log) && AreBytes(codewords)
    requires g.data < g.total <= 255 && offset0 + g.count * g.data <= |codewords|
    requires Flatten(dataBlocks0) == codewords[..offset0] && AreRsBlocks(dataBlocks0, ecBlocks0)
    ensures offset == offset0 + g.count * g.data
    ensures Interleave.Lengths(dataBlocks) == Interleave.Lengths(dataBlocks0) + seq(g.count, _ => g.data)
    ensures Interleave.Lengths(ecBlocks) == Interleave.Lengths(ecBlocks0) + seq(g.count, _ => CheckLength(g))
    ensures Flatten(dataBlocks) == codewords[..offset]
    ensures AreRsBlocks(dataBlocks, ecBlocks)
  {
    hide Gf256.ValidTables, Flatten, Interleave.Lengths, IsRsBlock;
    dataBlocks, ecBlocks, offset := dataBlocks0, ecBlocks0, offset0;
    var ecCount := g.total - g.data;
    for i := 0 to g.count
      invariant offset == offset0 + i * g.data <= |codewords|
      invariant Interleave.Lengths(dataBlocks) == Interleave.Lengths(dataBlocks0) + seq(i, _ => g.data)
      invariant Interleave.Lengths(ecBlocks) == Interleave.Lengths(ecBlocks0) + seq(i, _ => CheckLength(g))
      invariant Flatten(dataBlocks) == codewords[..offset]
      invariant AreRsBlocks(dataBlocks, ecBlocks)
    {
      RoomForBlock(i, g.count, g.data);
      var block := codewords[offset..offset + g.data];
      var parity := EncodeBlock(exp, log, block, ecCount);
      FlattenSnoc(dataBlocks, block);
      assert codewords[..offset + g.data] == codewords[..offset] + block;
      offset := offset + g.data;
      LengthsSnoc(dataBlocks, block, i, Interleave.Lengths(dataBlocks0));
      LengthsSnoc(ecBlocks, parity, i, Interleave.Lengths(ecBlocks0));
      dataBlocks := dataBlocks + [block];
      ecBlocks := ecBlocks + [parity];
    }
  }

  method EncodeBlock(exp: seq<Gf256.Elem>, log: seq<nat>, block: seq<nat>, ecCount: nat) returns (ec: seq<nat>)
    requires Gf256.ValidTables(exp, log) && AreBytes(block) && ecCount <= 255
    ensures |ec| == ecCount && IsRsBlock(block, ec)
  {
    var parity := ReedSolomon.RsEncode(exp, log, ToElems(block), ecCount);
    ElemsOfBytes(parity);
    ec := ToBytes(parity);
  }

  lemma LengthsSnoc<T>(blocks: seq<seq<T>>, b: seq<T>, i: nat, before: seq<nat>)
    requires Interleave.Lengths(blocks) == before + seq(i, _ => |b|)
    ensures Interleave.Lengths(blocks + [b]) == before + seq(i + 1, _ => |b|)
  {
    assert Interleave.Lengths(blocks + [b]) == Interleave.Lengths(blocks) + [|b|];
    assert seq(i + 1, _ => |b|) == seq(i, _ => |b|) + [|b|];
  }

  lemma RoomForBlock(i: nat, count: nat, data: nat)
    requires i < count
    ensures i * data + data <= count * data
    ensures (i + 1) * data == i * data + data
  {
  }

  // ---------- the matrix ----------

  function LevelBits(level: EcLevel): nat {
    if level == L then 1 else 0
  }

  /** The format word of a level with mask pattern 0. */
  ghost predicate IsFormatWord(f: nat, level: EcLevel) {
    f < 0x8000 && IsCodeword(Xor(f, G15_MASK), 8 * LevelBits(level), G15, 10)
  }

  ghost predicate IsVersionWord(v: nat, version: nat) {
    v < 0x40000 && IsCodeword(v, version, G18, 12)
  }

  /** Function patterns everywhere they belong, the masked message on all other modules. */
  ghost predicate IsSymbol(matrix: array2<Module>, version: nat, level: EcLevel, codewords: seq<nat>,
                           f: nat, v: nat)
    requires version >= 1
    reads matrix
  {
    var n := Size(version);
    && Square(matrix, n)
    && IsFormatWord(f, level) && (version >= 7 ==> IsVersionWord(v, version))
    && (forall r, c :: 0 <= r < n && 0 <= c < n && Reserved(version, r, c) ==>
         matrix[r, c] == AsModule(WithVersion(version, f, v, r, c)))
    && Holds(matrix, n, FreeOf(Path(n), ReservedCells(version)), codewords)
  }

  method BuildMatrix(version: nat, level: EcLevel, codewords: seq<nat>)
    returns (matrix: array2<Module>)
    requires 1 <= version <= 10
    ensures exists f, v :: IsSymbol(matrix, version, level, codewords, f, v)
  {
    hide WithVersion, IsCodeword, Holds, ReservedCells, FreeOf, Drawn, Path, Reserved, Kept, Reserves, Snapshot;
    var n := Size(version);
    matrix := new Module[n, n]((_, _) => Unset);
    var reserved := new bool[n, n]((_, _) => false);
    PlaceFinders(matrix, reserved, version);
    PlaceAlignments(matrix, reserved, version);
    PlaceTiming(matrix, reserved, version);
    PlaceDark(matrix, reserved, version);
    var fBits := FormatBits(LevelBits(level), 0);
    PlaceFormat(matrix, reserved, version, fBits);
    var vBits := 0;
    if version >= 7 {
      vBits := VersionBits(version);
    }
    PlaceVersion(matrix, reserved, version, fBits, vBits);
    DrawnReserves(matrix, reserved, version, fBits, vBits);
    ghost var base := Snapshot(matrix, n);
    PlaceData(matrix, reserved, n, codewords, ReservedCells(version));
    KeptFunctionPatterns(matrix, version, base, fBits, vBits);
    assert IsSymbol(matrix, version, level, codewords, fBits, vBits);
  }

  lemma DrawnReserves(matrix: array2<Module>, reserved: array2<bool>, version: nat, f: nat, v: nat)
    requires Drawn(matrix, reserved, Versioned(f, v), version)
    ensures Reserves(reserved, Size(version), ReservedCells(version))
    ensures forall r, c :: 0 <= r < Size(version) && 0 <= c < Size(version) ==>
      matrix[r, c] == AsModule(WithVersion(version, f, v, r, c))
  {
    hide WithVersion;
    var n := Size(version);
    forall r, c | 0 <= r < n && 0 <= c < n
      ensures reserved[r, c] <==> (r, c) in ReservedCells(version)
    {
      ReservedAlways(version, f, v, r, c);
    }
  }

  lemma KeptFunctionPatterns(matrix: array2<Module>, version: nat, base: map<Cell, Module>, f: nat, v: nat)
    requires version >= 1 && Square(matrix, Size(version))
    requires forall r, c :: 0 <= r < Size(version) && 0 <= c < Size(version) ==>
      (r, c) in base && base[(r, c)] == AsModule(WithVersion(version, f, v, r, c))
    requires Kept(matrix, Size(version), base, FreeOf(Path(Size(version)), ReservedCells(version)))
    ensures forall r, c :: 0 <= r < Size(version) && 0 <= c < Size(version) && Reserved(version, r, c) ==>
      matrix[r, c] == AsModule(WithVersion(version, f, v, r, c))
  {
    hide WithVersion, Reserved;
    FreeOfMembers(Path(Size(version)), ReservedCells(version));
  }

  /** No module is left undecided. */
  lemma EveryModuleSet(matrix: array2<Module>, version: nat, level: EcLevel, codewords: seq<nat>, f: nat, v: nat)
    requires 1 <= version <= 10 && IsSymbol(matrix, version, level, codewords, f, v)
    ensures forall r, c :: 0 <= r < Size(version) && 0 <= c < Size(version) ==> matrix[r, c].Set?
  {
    hide WithVersion;
    var n, cells := Size(version), ReservedCells(version);
    PathVisitsOnce(n);
    FreeOfMembers(Path(n), cells);
    forall r, c | 0 <= r < n && 0 <= c < n
      ensures matrix[r, c].Set?
    {
      if Reserved(version, r, c) {
        ReservedAlways(version, f, v, r, c);
      } else {
        if c == 6 {
          ColumnSixReserved(version, r);
        }
        assert (r, c) in FreeOf(Path(n), cells);
      }
    }
  }

  // ---------- the scanner ----------

  type Rows = seq<seq<Module>>

  function RowsOf(matrix: array2<Module>): Rows
    reads matrix
  {
    seq(matrix.Length0, r requires 0 <= r < matrix.Length0 reads matrix =>
      seq(matrix.Length1, c requires 0 <= c < matrix.Length1 reads matrix => matrix[r, c]))
  }

  predicate IsDark(rows: Rows, x: Cell) {
    0 <= x.0 < |rows| && 0 <= x.1 < |rows[x.0]| && rows[x.0][x.1] == Set(true)
  }

  /** Where bit i of the format word is found next to the top left and bottom left finders. */
  function FormatCell(n: int, i: int): Cell {
    if i < 6 then (i, 8) else if i < 8 then (i + 1, 8) else (n - 15 + i, 8)
  }

  /** Where its copy is found along row 8. */
  function FormatCellCopy(n: int, i: int): Cell {
    if i < 8 then (8, n - i - 1) else if i < 9 then (8, 7) else (8, 14 - i)
  }

  function FormatModulesOf(rows: Rows): seq<bool> {
    seq(15, k requires 0 <= k < 15 => IsDark(rows, FormatCell(|rows|, 14 - k)))
  }

  function FormatCopyOf(rows: Rows): seq<bool> {
    seq(15, k requires 0 <= k < 15 => IsDark(rows, FormatCellCopy(|rows|, 14 - k)))
  }

  function ReadFormat(rows: Rows): nat {
    Value(FormatModulesOf(rows))
  }

  function ReadFormatCopy(rows: Rows): nat {
    Value(FormatCopyOf(rows))
  }

  /** Where bit i of the version word is found next to the top right finder, three bits to a row; its copy, above
      the bottom left finder, is the transpose. */
  function VersionCell(n: int, i: int): Cell {
    (i / 3, n - 11 + i % 3)
  }

  function VersionCellCopy(n: int, i: int): Cell {
    (n - 11 + i % 3, i / 3)
  }

  function VersionModulesOf(rows: Rows): seq<bool> {
    seq(18, k requires 0 <= k < 18 => IsDark(rows, VersionCell(|rows|, 17 - k)))
  }

  function VersionCopyOf(rows: Rows): seq<bool> {
    seq(18, k requires 0 <= k < 18 => IsDark(rows, VersionCellCopy(|rows|, 17 - k)))
  }

  function ReadVersion(rows: Rows): nat {
    Value(VersionModulesOf(rows))
  }

  function ReadVersionCopy(rows: Rows): nat {
    Value(VersionCopyOf(rows))
  }

  /** From version 7 on both copies of the version word are there, as a codeword of the version that the size says. */
  ghost predicate SaysVersion(rows: Rows, version: nat) {
    && VersionOf(rows) == Some(version)
    && (version >= 7 ==>
         && ReadVersion(rows) == ReadVersionCopy(rows) && IsVersionWord(ReadVersion(rows), version)
         && ReadVersion(rows) / 4096 == version)
  }

  /** Level and mask pattern of a format word, for the levels that are used here. */
  function FormatOf(f: nat): Option<(EcLevel, nat)> {
    var w := Xor(f, G15_MASK) / 1024;
    if w / 8 == 1 then Some((L, w % 8)) else if w / 8 == 0 then Some((M, w % 8)) else None
  }

  /** The modules that a mask pattern inverts (table 10 of ISO/IEC 18004:2015). */
  predicate Inverts(mask: nat, x: Cell) {
    var (i, j) := x;
    match mask
    case 0 => (i + j) % 2 == 0
    case 1 => i % 2 == 0
    case 2 => j % 3 == 0
    case 3 => (i + j) % 3 == 0
    case 4 => (i / 2 + j / 3) % 2 == 0
    case 5 => (i * j) % 2 + (i * j) % 3 == 0
    case 6 => ((i * j) % 2 + (i * j) % 3) % 2 == 0
    case _ => ((i + j) % 2 + (i * j) % 3) % 2 == 0
  }

  /** The bits on the unreserved modules in walk order, unmasked. */
  function ReadBits(rows: Rows, version: nat, mask: nat): (bits: seq<bool>) {
    var free := FreeOf(Path(|rows|), ReservedCells(version));
    seq(|free|, j requires 0 <= j < |free| => IsDark(rows, free[j]) != Inverts(mask, free[j]))
  }

  function ReadCodewords(bits: seq<bool>, count: nat): (r: seq<nat>)
    requires 8 * count <= |bits|
  {
    seq(count, k requires 0 <= k < count => ReadByte(bits, 8 * k))
  }

  /** The codewords of a symbol of known version, level and mask pattern. */
  function ScanCodewords(rows: Rows, version: nat, level: EcLevel, mask: nat): Option<seq<nat>>
    requires 1 <= version <= 10
  {
    var bits := ReadBits(rows, version, mask);
    var total := TotalCodewords(RsBlocks(level, version));
    if |bits| < 8 * total then None else Some(ReadCodewords(bits, total))
  }

  function DataBlocksOf(codewords: seq<nat>, groups: seq<Group>): seq<seq<nat>> {
    var lens := DataLengths(groups);
    var split := Interleave.Sum(lens);
    Interleave.Deinterleave(lens, if split <= |codewords| then codewords[..split] else codewords, 0)
  }

  function CheckBlocksOf(codewords: seq<nat>, groups: seq<Group>): seq<seq<nat>> {
    var split := Interleave.Sum(DataLengths(groups));
    Interleave.Deinterleave(CheckLengths(groups), if split <= |codewords| then codewords[split..] else [], 0)
  }

  function VersionOf(rows: Rows): Option<nat> {
    var n := |rows|;
    if 21 <= n <= 57 && (n - 17) % 4 == 0 then Some((n - 17) / 4) else None
  }

  /** What a reader that needs no error correction makes of a symbol. */
  function Scan(rows: Rows): Option<seq<nat>> {
    var version := VersionOf(rows);
    var format := FormatOf(ReadFormat(rows));
    if version == None || format == None then None
    else
      var (level, mask) := format.value;
      var codewords := ScanCodewords(rows, version.value, level, mask);
      if codewords == None then None
      else
        var blocks := DataBlocksOf(codewords.value, RsBlocks(level, version.value));
        DecodeData(Flatten(blocks), version.value)
  }

  // ---------- scanning inverts building ----------

  lemma FormatReadBack(matrix: array2<Module>, version: nat, level: EcLevel, codewords: seq<nat>, f: nat, v: nat)
    requires 1 <= version <= 10 && IsSymbol(matrix, version, level, codewords, f, v)
    ensures ReadFormat(RowsOf(matrix)) == f && ReadFormatCopy(RowsOf(matrix)) == f
    ensures FormatOf(f) == Some((level, 0))
  {
    hide FormatModulesOf, FormatCopyOf, Value, Bit, FormatOf, Holds, FreeOf, ReservedCells, Reserved, WithVersion, RowsOf;
    FormatBitsReadBack(matrix, version, level, codewords, f, v);
    ValueOfWord(f, FormatModulesOf(RowsOf(matrix)));
    ValueOfWord(f, FormatCopyOf(RowsOf(matrix)));
    LevelAndMask(f, level);
  }

  lemma FormatBitsReadBack(matrix: array2<Module>, version: nat, level: EcLevel, codewords: seq<nat>, f: nat, v: nat)
    requires 1 <= version <= 10 && IsSymbol(matrix, version, level, codewords, f, v)
    ensures f < 0x8000 && IsFormatWord(f, level)
    ensures var bits := FormatModulesOf(RowsOf(matrix));
      |bits| == 15 && forall k :: 0 <= k < 15 ==> bits[k] == Bit(f, 14 - k)
    ensures var copy := FormatCopyOf(RowsOf(matrix));
      |copy| == 15 && forall k :: 0 <= k < 15 ==> copy[k] == Bit(f, 14 - k)
  {
    hide Holds, FreeOf, ReservedCells, Value, Bit, IsDark, Reserved, WithVersion, FormatCell, FormatCellCopy, IsFormatWord,
         IsVersionWord, RowsOf, IsSymbol, Size;
    SymbolWord(matrix, version, level, codewords, f, v);
    var bits, copy := FormatModulesOf(RowsOf(matrix)), FormatCopyOf(RowsOf(matrix));
    forall k | 0 <= k < 15
      ensures bits[k] == copy[k] == Bit(f, 14 - k)
    {
      FormatBitReadBack(matrix, version, level, codewords, f, v, 14 - k);
    }
  }

  lemma SymbolWord(matrix: array2<Module>, version: nat, level: EcLevel, codewords: seq<nat>, f: nat, v: nat)
    requires 1 <= version <= 10 && IsSymbol(matrix, version, level, codewords, f, v)
    ensures f < 0x8000 && IsFormatWord(f, level) && |RowsOf(matrix)| == Size(version)
  {
    hide Holds, IsCodeword, FreeOf, ReservedCells, WithVersion, Reserved, IsVersionWord;
  }

  lemma FormatBitReadBack(matrix: array2<Module>, version: nat, level: EcLevel, codewords: seq<nat>,
                          f: nat, v: nat, i: nat)
    requires 1 <= version <= 10 && IsSymbol(matrix, version, level, codewords, f, v) && i < 15
    ensures IsDark(RowsOf(matrix), FormatCell(Size(version), i)) == Bit(f, i)
    ensures IsDark(RowsOf(matrix), FormatCellCopy(Size(version), i)) == Bit(f, i)
  {
    hide Holds, IsFormatWord, IsVersionWord, FreeOf, ReservedCells, Bit, WithVersion, FormatCell, FormatCellCopy, Reserved;
    FormatModules(version, f, v, i);
  }

  /** The version word that was drawn is read back from both places. */
  lemma VersionWordReadBack(matrix: array2<Module>, version: nat, level: EcLevel, codewords: seq<nat>, f: nat, v: nat)
    requires 1 <= version <= 10 && IsSymbol(matrix, version, level, codewords, f, v)
    ensures SaysVersion(RowsOf(matrix), version)
    ensures version >= 7 ==> ReadVersion(RowsOf(matrix)) == v
  {
    hide VersionModulesOf, VersionCopyOf, Value, Holds, FreeOf, ReservedCells, Reserved, WithVersion, RowsOf, IsFormatWord,
         IsVersionWord;
    VersionReadBack(matrix, version);
    if version >= 7 {
      VersionBitsReadBack(matrix, version, level, codewords, f, v);
      ValueOfVersion(v, VersionModulesOf(RowsOf(matrix)));
      ValueOfVersion(v, VersionCopyOf(RowsOf(matrix)));
      VersionData(v, version);
    }
  }

  lemma VersionBitsReadBack(matrix: array2<Module>, version: nat, level: EcLevel, codewords: seq<nat>, f: nat, v: nat)
    requires 7 <= version <= 10 && IsSymbol(matrix, version, level, codewords, f, v)
    ensures v < 0x40000
    ensures var bits := VersionModulesOf(RowsOf(matrix)); |bits| == 18 && forall k :: 0 <= k < 18 ==> bits[k] == Bit(v, 17 - k)
    ensures var copy := VersionCopyOf(RowsOf(matrix)); |copy| == 18 && forall k :: 0 <= k < 18 ==> copy[k] == Bit(v, 17 - k)
  {
    hide Holds, FreeOf, ReservedCells, Bit, IsDark, Reserved, WithVersion, VersionCell, VersionCellCopy, IsFormatWord, IsCodeword,
         Size;
    assert |RowsOf(matrix)| == Size(version);
    var bits, copy := VersionModulesOf(RowsOf(matrix)), VersionCopyOf(RowsOf(matrix));
    hide RowsOf, IsSymbol;
    forall k | 0 <= k < 18
      ensures bits[k] == copy[k] == Bit(v, 17 - k)
    {
      VersionBitReadBack(matrix, version, level, codewords, f, v, 17 - k);
    }
  }

  lemma VersionBitReadBack(matrix: array2<Module>, version: nat, level: EcLevel, codewords: seq<nat>, f: nat, v: nat, i: nat)
    requires 7 <= version <= 10 && IsSymbol(matrix, version, level, codewords, f, v) && i < 18
    ensures IsDark(RowsOf(matrix), VersionCell(Size(version), i)) == Bit(v, i)
    ensures IsDark(RowsOf(matrix), VersionCellCopy(Size(version), i)) == Bit(v, i)
  {
    hide Holds, IsFormatWord, IsVersionWord, FreeOf, ReservedCells, Bit, WithVersion, VersionCell, VersionCellCopy, Reserved;
    VersionModules(version, f, v, i);
  }

  lemma VersionModules(version: nat, f: nat, v: nat, i: nat)
    requires 7 <= version <= 10 && i < 18
    ensures var x := VersionCell(Size(version), i);
      InGrid(Size(version), x) && Reserved(version, x.0, x.1) && WithVersion(version, f, v, x.0, x.1) == Some(Bit(v, i))
    ensures var x := VersionCellCopy(Size(version), i);
      InGrid(Size(version), x) && Reserved(version, x.0, x.1) && WithVersion(version, f, v, x.0, x.1) == Some(Bit(v, i))
  {
    hide WithVersion, Reserved, Bit;
    VersionModuleAt(version, f, v, i / 3, i % 3);
  }

  lemma VersionModuleAt(version: nat, f: nat, v: nat, a: nat, b: nat)
    requires 7 <= version <= 10 && a < 6 && b < 3
    ensures var x := (a, Size(version) - 11 + b);
      InGrid(Size(version), x) && Reserved(version, x.0, x.1) && WithVersion(version, f, v, x.0, x.1) == Some(Bit(v, 3 * a + b))
    ensures var x := (Size(version) - 11 + b, a);
      InGrid(Size(version), x) && Reserved(version, x.0, x.1) && WithVersion(version, f, v, x.0, x.1) == Some(Bit(v, 3 * a + b))
  {
    hide WithFormat, Bit;
  }

  lemma ValueOfVersion(v: nat, bits: seq<bool>)
    requires v < 0x40000 && |bits| == 18 && forall k :: 0 <= k < 18 ==> bits[k] == Bit(v, 17 - k)
    ensures Value(bits) == v
  {
    assert bits == BitsOf(v, 18);
    PowersOfTwo();
    ValueOfBits(v, 18);
  }

  lemma VersionData(v: nat, version: nat)
    requires IsVersionWord(v, version)
    ensures v / 4096 == version
  {
    hide IsMultiple, Digits;
    Generators(version);
    Generators(version + 1);
  }

  lemma ValueOfWord(f: nat, bits: seq<bool>)
    requires f < 0x8000 && |bits| == 15 && forall k :: 0 <= k < 15 ==> bits[k] == Bit(f, 14 - k)
    ensures Value(bits) == f
  {
    assert bits == BitsOf(f, 15);
    PowersOfTwo();
    ValueOfBits(f, 15);
  }

  /** The version drawing, where there is one, leaves both copies of the format word alone. */
  lemma FormatModules(version: nat, f: nat, v: nat, i: nat)
    requires 1 <= version <= 10 && i < 15
    ensures var x := FormatCell(Size(version), i);
      InGrid(Size(version), x) && Reserved(version, x.0, x.1) && WithVersion(version, f, v, x.0, x.1) == Some(Bit(f, i))
    ensures var x := FormatCellCopy(Size(version), i);
      InGrid(Size(version), x) && Reserved(version, x.0, x.1) && WithVersion(version, f, v, x.0, x.1) == Some(Bit(f, i))
  {
    hide WithDark, Bit;
  }

  lemma LevelAndMask(f: nat, level: EcLevel)
    requires IsFormatWord(f, level)
    ensures FormatOf(f) == Some((level, 0))
  {
    hide Xor, IsMultiple, Digits;
    Generators(8 * LevelBits(level));
    Generators(8 * LevelBits(level) + 1);
  }

  lemma MessageReadBack(matrix: array2<Module>, version: nat, level: EcLevel, codewords: seq<nat>, f: nat, v: nat)
    requires 1 <= version <= 10 && IsSymbol(matrix, version, level, codewords, f, v)
    requires AreBytes(codewords) && |codewords| == TotalCodewords(RsBlocks(level, version))
    ensures ScanCodewords(RowsOf(matrix), version, level, 0) == Some(codewords)
  {
    hide IsFormatWord, IsVersionWord, WithVersion, RsBlocks, TotalCodewords, Path, FreeOf, ReservedCells, Bit;
    var n, rows := Size(version), RowsOf(matrix);
    var bits := ReadBits(rows, version, 0);
    MessageFits(version, level);
    forall j | 0 <= j < 8 * |codewords|
      ensures bits[j] == ByteBits(codewords)[j]
    {
    }
    forall k | 0 <= k < |codewords|
      ensures ReadByte(bits, 8 * k) == codewords[k]
    {
      ByteBitsAt(codewords, k);
      assert bits[8 * k..8 * k + 8] == ByteBits(codewords)[8 * k..8 * k + 8];
      assert ShiftLeft(1, 8) == 256;
      ValueOfBits(codewords[k], 8);
    }
    assert ReadCodewords(bits, |codewords|) == codewords;
  }

  lemma BlocksReadBack(codewords: seq<nat>, dataBlocks: seq<seq<nat>>, ecBlocks: seq<seq<nat>>, groups: seq<Group>)
    requires Interleave.Lengths(dataBlocks) == DataLengths(groups)
    requires Interleave.Lengths(ecBlocks) == CheckLengths(groups)
    requires var split := Interleave.Sum(DataLengths(groups));
      && split <= |codewords|
      && Interleave.Deinterleave(DataLengths(groups), codewords[..split], 0) == dataBlocks
      && Interleave.Deinterleave(CheckLengths(groups), codewords[split..], 0) == ecBlocks
    ensures DataBlocksOf(codewords, groups) == dataBlocks
    ensures CheckBlocksOf(codewords, groups) == ecBlocks
  {
  }

  lemma MessageBytes(message: seq<nat>, dataBlocks: seq<seq<nat>>, ecBlocks: seq<seq<nat>>)
    requires Interleave.Drawn(message, dataBlocks + ecBlocks) && AreRsBlocks(dataBlocks, ecBlocks)
    ensures AreBytes(message)
  {
    hide ReedSolomon.Vanishes;
    var both := dataBlocks + ecBlocks;
    forall k | 0 <= k < |message|
      ensures message[k] < 256
    {
      assert Interleave.InBlock(message[k], both);
      var b :| 0 <= b < |both| && message[k] in both[b];
      assert IsRsBlock(dataBlocks[if b < |dataBlocks| then b else b - |dataBlocks|],
                       ecBlocks[if b < |dataBlocks| then b else b - |dataBlocks|]);
    }
  }

  /** The message of a text at a given version and level: data codewords, blocks, check symbols,
      interleaving. */
  method BuildMessage(exp: seq<Gf256.Elem>, log: seq<nat>, bytes: seq<nat>, version: nat, level: EcLevel)
    returns (message: seq<nat>)
    requires Gf256.ValidTables(exp, log) && AreBytes(bytes)
    requires 1 <= version <= 10 && Fits(|bytes|, version, level)
    ensures AreBytes(message) && |message| == TotalCodewords(RsBlocks(level, version))
    ensures DecodeData(Flatten(DataBlocksOf(message, RsBlocks(level, version))), version) == Some(bytes)
    ensures AreRsBlocks(DataBlocksOf(message, RsBlocks(level, version)),
                        CheckBlocksOf(message, RsBlocks(level, version)))
  {
    hide AreRsBlocks, RsBlocks, DataBlocksOf, CheckBlocksOf, DecodeData, DataStream, Gf256.ValidTables,
      Interleave.Deinterleave, Interleave.Drawn, Flatten, AreBytes, Fits, DataLengths, CheckLengths;
    var data := BuildDataCodewords(bytes, version, level);
    var groups := RsBlocks(level, version);
    TableWellFormed(level, version);
    var dataBlocks, ecBlocks := SplitBlocks(exp, log, data, groups);
    message := Interleave.InterleaveBlocks(dataBlocks, ecBlocks);
    LengthTotals(groups);
    MessageBytes(message, dataBlocks, ecBlocks);
    BlocksReadBack(message, dataBlocks, ecBlocks, groups);
    CountFits(|bytes|, version, level);
    DecodeBuilt(bytes, version, data);
  }

  /** A symbol of the smallest version, whose blocks carry their Reed-Solomon check symbols. */
  ghost predicate IsSymbolFor(matrix: array2<Module>, bytes: seq<nat>)
    reads matrix
  {
    exists version, level, codewords, f, v ::
      && IsPicked(|bytes|, version, level) && IsSymbol(matrix, version, level, codewords, f, v)
      && AreRsBlocks(DataBlocksOf(codewords, RsBlocks(level, version)), CheckBlocksOf(codewords, RsBlocks(level, version)))
  }

  /** Encoding: None exactly when the text is too long; otherwise a symbol for it, from which the scanner
      recovers the text. */
  method Encode(exp: seq<Gf256.Elem>, log: seq<nat>, bytes: seq<nat>) returns (symbol: Option<array2<Module>>)
    requires Gf256.ValidTables(exp, log) && AreBytes(bytes)
    ensures symbol == None <==> |bytes| > 271
    ensures symbol.Some? ==> IsSymbolFor(symbol.value, bytes) && Scan(RowsOf(symbol.value)) == Some(bytes)
    ensures symbol.Some? ==> exists version, level ::
      IsPicked(|bytes|, version, level) && SaysVersion(RowsOf(symbol.value), version)
  {
    hide SaysVersion, AreRsBlocks, RsBlocks, DataBlocksOf, CheckBlocksOf, DecodeData, Gf256.ValidTables, Flatten, Fits,
      ScanCodewords, FormatOf, RowsOf, ReadFormat, AreBytes, TotalCodewords, IsSymbol, Scan;
    var picked := PickVersion(|bytes|);
    if picked == None {
      return None;
    }
    var (version, level) := picked.value;
    var message := BuildMessage(exp, log, bytes, version, level);
    var matrix := BuildMatrix(version, level, message);
    ghost var f, v :| IsSymbol(matrix, version, level, message, f, v);
    ScanBuilt(matrix, version, level, message, f, v);
    VersionWordReadBack(matrix, version, level, message, f, v);
    symbol := Some(matrix);
  }

  /** The scanner finds version, level, mask pattern and message of a symbol. */
  lemma ScanBuilt(matrix: array2<Module>, version: nat, level: EcLevel, codewords: seq<nat>, f: nat, v: nat)
    requires 1 <= version <= 10 && IsSymbol(matrix, version, level, codewords, f, v)
    requires AreBytes(codewords) && |codewords| == TotalCodewords(RsBlocks(level, version))
    ensures ScanCodewords(RowsOf(matrix), version, level, 0) == Some(codewords)
    ensures Scan(RowsOf(matrix)) == DecodeData(Flatten(DataBlocksOf(codewords, RsBlocks(level, version))), version)
  {
    hide RsBlocks, DataBlocksOf, DecodeData, Flatten, ScanCodewords, FormatOf, ReadFormat, TotalCodewords, Holds,
      WithVersion, IsFormatWord, IsVersionWord;
    FormatReadBack(matrix, version, level, codewords, f, v);
    MessageReadBack(matrix, version, level, codewords, f, v);
    hide RowsOf, VersionOf, FreeOf, ReservedCells, Reserved, Path;
    VersionReadBack(matrix, version);
  }

  lemma VersionReadBack(matrix: array2<Module>, version: nat)
    requires 1 <= version <= 10 && Square(matrix, Size(version))
    ensures VersionOf(RowsOf(matrix)) == Some(version)
  {
  }
}
