/** Data encodation (section 7.4 of ISO/IEC 18004:2015) in byte mode: version choice, the bit buffer,
    and the data codewords, together with the reader that takes them apart again. */
module Codewords {
  import opened Wrappers
  import opened Bits

  datatype EcLevel = L | M

  /** One group of equal Reed-Solomon blocks. */
  datatype Group = Group(count: nat, total: nat, data: nat)

  /** The block table of versions 1 to 10. */
  function RsBlocks(level: EcLevel, version: nat): (groups: seq<Group>)
    requires 1 <= version <= 10
  {
    match level
    case L =>
      if version == 1 then [Group(1, 26, 19)]
      else if version == 2 then [Group(1, 44, 34)]
      else if version == 3 then [Group(1, 70, 55)]
      else if version == 4 then [Group(1, 100, 80)]
      else if version == 5 then [Group(1, 134, 108)]
      else if version == 6 then [Group(2, 86, 68)]
      else if version == 7 then [Group(2, 98, 78)]
      else if version == 8 then [Group(2, 121, 97)]
      else if version == 9 then [Group(2, 146, 116)]
      else [Group(2, 86, 68), Group(2, 87, 69)]
    case M =>
      if version == 1 then [Group(1, 26, 16)]
      else if version == 2 then [Group(1, 44, 28)]
      else if version == 3 then [Group(1, 70, 44)]
      else if version == 4 then [Group(2, 50, 32)]
      else if version == 5 then [Group(2, 67, 43)]
      else if version == 6 then [Group(4, 43, 27)]
      else if version == 7 then [Group(4, 49, 31)]
      else if version == 8 then [Group(2, 60, 38), Group(2, 61, 39)]
      else if version == 9 then [Group(3, 58, 36), Group(2, 59, 37)]
      else [Group(4, 69, 43), Group(1, 70, 44)]
  }

  function DataBytes(groups: seq<Group>): nat {
    if groups == [] then 0 else groups[0].count * groups[0].data + DataBytes(groups[1..])
  }

  function CapacityBytes(version: nat, level: EcLevel): nat
    requires 1 <= version <= 10
  {
    DataBytes(RsBlocks(level, version))
  }

  function CountBits(version: nat): nat {
    if version <= 9 then 8 else 16
  }

  /** Header, payload and terminator fit the data capacity. */
  predicate Fits(byteLength: nat, version: nat, level: EcLevel)
    requires 1 <= version <= 10
  {
    4 + CountBits(version) + 8 * byteLength + 4 <= 8 * CapacityBytes(version, level)
  }

  lemma Capacities()
    ensures CapacityBytes(1, M) == 16 && CapacityBytes(2, M) == 28 && CapacityBytes(3, M) == 44
    ensures CapacityBytes(4, M) == 64 && CapacityBytes(5, M) == 86 && CapacityBytes(6, M) == 108
    ensures CapacityBytes(7, M) == 124 && CapacityBytes(8, M) == 154 && CapacityBytes(9, M) == 182
    ensures CapacityBytes(10, M) == 216
    ensures CapacityBytes(1, L) == 19 && CapacityBytes(2, L) == 34 && CapacityBytes(3, L) == 55
    ensures CapacityBytes(4, L) == 80 && CapacityBytes(5, L) == 108 && CapacityBytes(6, L) == 136
    ensures CapacityBytes(7, L) == 156 && CapacityBytes(8, L) == 194 && CapacityBytes(9, L) == 232
    ensures CapacityBytes(10, L) == 274
  {
  }

  /** The first version that fits at level M, else the first that fits at level L. */
  ghost predicate IsPicked(byteLength: nat, version: nat, level: EcLevel) {
    && 1 <= version <= 10 && Fits(byteLength, version, level)
    && (forall v :: 1 <= v < version ==> !Fits(byteLength, v, level))
    && (level == L ==> forall v :: 1 <= v <= 10 ==> !Fits(byteLength, v, M))
  }

  method PickVersion(byteLength: nat) returns (picked: Option<(nat, EcLevel)>)
    ensures picked.Some? ==> IsPicked(byteLength, picked.value.0, picked.value.1)
    ensures picked == None <==> byteLength > 271
  {
    Capacities();
    var levels := [M, L];
    assert levels[0] == M && levels[1] == L;
    for l := 0 to |levels|
      invariant forall k, v :: 0 <= k < l && 1 <= v <= 10 ==> !Fits(byteLength, v, levels[k])
    {
      for version := 1 to 11
        invariant forall v :: 1 <= v < version ==> !Fits(byteLength, v, levels[l])
      {
        if Fits(byteLength, version, levels[l]) {
          return Some((version, levels[l]));
        }
      }
    }
    assert !Fits(byteLength, 10, levels[1]);
    picked := None;
  }

  // ---------- bytes as bits ----------

  predicate AreBytes(s: seq<nat>) {
    forall k :: 0 <= k < |s| ==> s[k] < 256
  }

  /** The bits of a byte string, most significant bit of each byte first. */
  function ByteBits(s: seq<nat>): (r: seq<bool>)
    ensures |r| == 8 * |s|
  {
    seq(8 * |s|, i requires 0 <= i < 8 * |s| => Bit(s[i / 8], 7 - i % 8))
  }

  lemma ByteBitsAt(s: seq<nat>, k: nat)
    requires k < |s|
    ensures ByteBits(s)[8 * k..8 * k + 8] == BitsOf(s[k], 8)
  {
    forall i | 0 <= i < 8
      ensures ByteBits(s)[8 * k + i] == BitsOf(s[k], 8)[i]
    {
      assert (8 * k + i) / 8 == k && (8 * k + i) % 8 == i;
    }
  }

  lemma ByteBitsSnoc(s: seq<nat>, b: nat)
    ensures ByteBits(s + [b]) == ByteBits(s) + BitsOf(b, 8)
  {
    var r := ByteBits(s + [b]);
    forall i | 0 <= i < |r|
      ensures r[i] == (ByteBits(s) + BitsOf(b, 8))[i]
    {
      if i >= 8 * |s| {
        assert i / 8 == |s| && i % 8 == i - 8 * |s|;
      }
    }
  }

  class BitBuffer {
    var bytes: seq<nat>
    var length: nat

    /** The bytes are just enough for the bits, and the unused low digits of the last one are clear. */
    ghost predicate Valid()
      reads this
    {
      && |bytes| == (length + 7) / 8
      && AreBytes(bytes)
      && (forall i :: length <= i < 8 * |bytes| ==> !ByteBits(bytes)[i])
    }

    ghost function Contents(): seq<bool>
      reads this
      requires Valid()
    {
      ByteBits(bytes)[..length]
    }

    constructor ()
      ensures Valid() && Contents() == []
    {
      bytes, length := [], 0;
    }

    method PutBit(bit: bool)
      requires Valid()
      modifies this
      ensures Valid() && Contents() == old(Contents()) + [bit]
    {
      hide Or, ShiftLeft, Bit, ByteBits;
      var idx := length / 8;
      if |bytes| <= idx {
        AppendZeroByte(bytes);
        bytes := bytes + [0];
      }
      NextDigit(bytes, length, bit);
      if bit {
        bytes := bytes[idx := Or(bytes[idx], ShiftLeft(1, 7 - length % 8))];
      }
      length := length + 1;
    }

    /** Appends the len low digits of num. */
    method Put(num: nat, len: nat)
      requires Valid()
      modifies this
      ensures Valid() && Contents() == old(Contents()) + BitsOf(num, len)
    {
      for i := 0 to len
        invariant Valid() && Contents() == old(Contents()) + BitsOf(num, len)[..i]
      {
        PutBit(Bit(num, len - i - 1));
      }
    }
  }

  lemma AppendZeroByte(s: seq<nat>)
    ensures ByteBits(s + [0])[..8 * |s|] == ByteBits(s)
    ensures forall i :: 8 * |s| <= i < 8 * |s| + 8 ==> !ByteBits(s + [0])[i]
  {
    ByteBitsSnoc(s, 0);
    forall i | 8 * |s| <= i < 8 * |s| + 8
      ensures !ByteBits(s + [0])[i]
    {
      BitOfZero(8 * |s| + 7 - i);
    }
  }

  /** Setting digit 7 - n % 8 of byte n / 8 sets bit n of the string and no other. */
  lemma SetDigit(s: seq<nat>, n: nat)
    requires AreBytes(s) && n < 8 * |s|
    ensures var t := s[n / 8 := Or(s[n / 8], ShiftLeft(1, 7 - n % 8))];
            AreBytes(t) && ByteBits(t) == ByteBits(s)[n := true]
  {
    var m := 7 - n % 8;
    var t := s[n / 8 := Or(s[n / 8], ShiftLeft(1, m))];
    assert ShiftLeft(1, 8) == 256;
    PowerMonotone(m, 7);
    OrBelow(s[n / 8], ShiftLeft(1, m), 8);
    forall i | 0 <= i < 8 * |s|
      ensures ByteBits(t)[i] == ByteBits(s)[n := true][i]
    {
      if i / 8 == n / 8 {
        BitOr(s[n / 8], ShiftLeft(1, m), 7 - i % 8);
        BitOfPower(m, 7 - i % 8);
      }
    }
  }

  /** One more bit, where the digits from n on are still clear. */
  lemma NextDigit(s: seq<nat>, n: nat, bit: bool)
    requires AreBytes(s) && n < 8 * |s| && forall i :: n <= i < 8 * |s| ==> !ByteBits(s)[i]
    ensures var t := if bit then s[n / 8 := Or(s[n / 8], ShiftLeft(1, 7 - n % 8))] else s;
            && AreBytes(t)
            && ByteBits(t)[..n + 1] == ByteBits(s)[..n] + [bit]
            && forall i :: n < i < 8 * |t| ==> !ByteBits(t)[i]
  {
    SetDigit(s, n);
    assert ByteBits(s) == ByteBits(s)[n := false];
  }

  lemma {:induction k} PowerMonotone(m: nat, k: nat)
    requires m <= k
    ensures ShiftLeft(1, m) <= ShiftLeft(1, k)
  {
  }

  // ---------- the data codewords ----------

  function Padding(n: nat): seq<nat> {
    seq(n, i => if i % 2 == 0 then 0xec else 0x11)
  }

  function Header(n: nat, version: nat): seq<bool> {
    BitsOf(4, 4) + BitsOf(n, CountBits(version))
  }

  /** Bytes that header, payload and terminator fill; the three together end on a byte boundary. */
  function UsedBytes(n: nat, version: nat): nat {
    n + (if version <= 9 then 2 else 3)
  }

  /** The bit string the standard prescribes: mode and count, payload, terminator, pad codewords. */
  function DataStream(bytes: seq<nat>, version: nat, capacity: nat): seq<bool>
    requires UsedBytes(|bytes|, version) <= capacity
  {
    Header(|bytes|, version) + ByteBits(bytes) + BitsOf(0, 4)
    + ByteBits(Padding(capacity - UsedBytes(|bytes|, version)))
  }

  method BuildDataCodewords(bytes: seq<nat>, version: nat, level: EcLevel) returns (codewords: seq<nat>)
    requires AreBytes(bytes) && 1 <= version <= 10 && Fits(|bytes|, version, level)
    ensures |codewords| == CapacityBytes(version, level) && AreBytes(codewords)
    ensures ByteBits(codewords) == DataStream(bytes, version, CapacityBytes(version, level))
  {
    hide Bit, ByteBits, BitsOf, CapacityBytes;
    var n, count := |bytes|, CountBits(version);
    var buf := new BitBuffer();
    buf.Put(4, 4);
    buf.Put(n, count);
    BitsOfLength(4, 4);
    BitsOfLength(n, count);
    BitsOfLength(0, 4);
    assert buf.Contents() == Header(n, version);
    PutBytes(buf, bytes);
    var capBytes := CapacityBytes(version, level);
    var capBits := capBytes * 8;
    assert buf.Contents() == Header(n, version) + ByteBits(bytes);
    if buf.length + 4 <= capBits {
      buf.Put(0, 4);
    }
    ghost var stream := Header(n, version) + ByteBits(bytes) + BitsOf(0, 4);
    assert |stream| == 8 * UsedBytes(n, version);
    AlignToByte(buf);
    assert buf.Contents() == stream;
    PutPadding(buf, capBytes);
    codewords := buf.bytes;
  }

  /** The payload loop: eight bits for every byte. */
  method PutBytes(buf: BitBuffer, bytes: seq<nat>)
    requires buf.Valid()
    modifies buf
    ensures buf.Valid() && buf.Contents() == old(buf.Contents()) + ByteBits(bytes)
  {
    hide Bit, ByteBits, BitsOf;
    EmptyBits();
    for k := 0 to |bytes|
      invariant buf.Valid() && buf.Contents() == old(buf.Contents()) + ByteBits(bytes[..k])
    {
      buf.Put(bytes[k], 8);
      ByteBitsSnoc(bytes[..k], bytes[k]);
      assert bytes[..k + 1] == bytes[..k] + [bytes[k]];
    }
    assert bytes[..|bytes|] == bytes;
  }

  /** Zero bits up to the next byte boundary. */
  method AlignToByte(buf: BitBuffer)
    requires buf.Valid()
    modifies buf
    ensures buf.Valid() && buf.length == 8 * |buf.bytes|
    ensures buf.Contents() == old(buf.Contents()) + seq((8 - old(buf.length) % 8) % 8, _ => false)
  {
    hide Bit, ByteBits, BitsOf;
    ghost var k: nat := 0;
    ghost var gap: nat := (8 - buf.length % 8) % 8;
    ghost var end := buf.length + gap;
    assert gap < 8 && end % 8 == 0;
    while buf.length % 8 != 0
      invariant buf.Valid() && k <= gap && buf.length == end - gap + k
      invariant buf.Contents() == old(buf.Contents()) + seq(k, _ => false)
      decreases gap - k
    {
      buf.PutBit(false);
      k := k + 1;
    }
    assert k == gap;
  }

  /** The padding loop: the two pad codewords in turn until the capacity is reached. */
  method PutPadding(buf: BitBuffer, capBytes: nat)
    requires buf.Valid() && buf.length % 8 == 0 && |buf.bytes| <= capBytes
    modifies buf
    ensures buf.Valid() && buf.length == 8 * capBytes
    ensures buf.Contents() == old(buf.Contents()) + ByteBits(Padding(capBytes - |old(buf.bytes)|))
  {
    hide Bit, ByteBits, BitsOf;
    var pad := [0xec, 0x11];
    var i := 0;
    EmptyBits();
    assert Padding(0) == [];
    ghost var used := |buf.bytes|;
    while |buf.bytes| < capBytes
      invariant buf.Valid() && used + i <= capBytes && buf.length == 8 * (used + i)
      invariant buf.Contents() == old(buf.Contents()) + ByteBits(Padding(i))
      decreases capBytes - |buf.bytes|
    {
      buf.Put(pad[i % 2], 8);
      ByteBitsSnoc(Padding(i), pad[i % 2]);
      BitsOfLength(pad[i % 2], 8);
      assert Padding(i + 1) == Padding(i) + [pad[i % 2]];
      i := i + 1;
    }
  }

  lemma EmptyBits()
    ensures ByteBits([]) == []
  {
  }

  lemma BitsOfLength(n: nat, len: nat)
    ensures |BitsOf(n, len)| == len
  {
  }

  // ---------- reading the data codewords back ----------

  function ReadByte(bits: seq<bool>, at: nat): nat
    requires at + 8 <= |bits|
  {
    Value(bits[at..at + 8])
  }

  /** Byte-mode reader: mode 4, a count, and as many bytes as the count says. */
  function DecodeData(codewords: seq<nat>, version: nat): Option<seq<nat>> {
    var bits := ByteBits(codewords);
    var start := 4 + CountBits(version);
    if |bits| < start || Value(bits[..4]) != 4 then None
    else
      var n := Value(bits[4..start]);
      if |bits| < start + 8 * n then None
      else Some(seq(n, k requires 0 <= k < n => ReadByte(bits, start + 8 * k)))
  }

  lemma CountFits(n: nat, version: nat, level: EcLevel)
    requires 1 <= version <= 10 && Fits(n, version, level)
    ensures n < ShiftLeft(1, CountBits(version))
    ensures UsedBytes(n, version) <= CapacityBytes(version, level)
  {
    Capacities();
    assert ShiftLeft(1, 8) == 256;
    assert ShiftLeft(1, 16) == 0x10000;
  }

  /** Reading inverts building. */
  lemma DecodeBuilt(bytes: seq<nat>, version: nat, codewords: seq<nat>)
    requires AreBytes(bytes) && |bytes| < ShiftLeft(1, CountBits(version))
    requires UsedBytes(|bytes|, version) <= |codewords|
    requires ByteBits(codewords) == DataStream(bytes, version, |codewords|)
    ensures DecodeData(codewords, version) == Some(bytes)
  {
    hide Bit, ByteBits, Value, BitsOf;
    var bits := ByteBits(codewords);
    var count := CountBits(version);
    var start := 4 + count;
    ModeBits();
    BitsOfLength(|bytes|, count);
    HeaderParts(BitsOf(4, 4), BitsOf(|bytes|, count), bits[start..]);
    assert bits == Header(|bytes|, version) + bits[start..];
    ValueOfBits(|bytes|, count);
    var header, tail := Header(|bytes|, version), bits[start + 8 * |bytes|..];
    assert bits == header + ByteBits(bytes) + tail;
    forall k | 0 <= k < |bytes|
      ensures ReadByte(bits, start + 8 * k) == bytes[k]
    {
      SliceMiddle(header, ByteBits(bytes), tail, 8 * k, 8 * k + 8);
      ByteBitsAt(bytes, k);
      assert ShiftLeft(1, 8) == 256;
      ValueOfBits(bytes[k], 8);
    }
    assert seq(|bytes|, k requires 0 <= k < |bytes| => ReadByte(bits, start + 8 * k)) == bytes;
  }

  lemma HeaderParts<T>(a: seq<T>, b: seq<T>, c: seq<T>)
    ensures (a + b + c)[..|a|] == a && (a + b + c)[|a|..|a| + |b|] == b
  {
  }

  lemma SliceMiddle<T>(a: seq<T>, b: seq<T>, c: seq<T>, i: nat, j: nat)
    requires i <= j <= |b|
    ensures (a + b + c)[|a| + i..|a| + j] == b[i..j]
  {
  }

  lemma ModeBits()
    ensures |BitsOf(4, 4)| == 4 && Value(BitsOf(4, 4)) == 4
  {
    assert ShiftLeft(1, 4) == 16;
    ValueOfBits(4, 4);
  }

  /** Behind header, payload and terminator the codewords alternate between 11101100 and 00010001. */
  lemma PadBytes(bytes: seq<nat>, version: nat, codewords: seq<nat>, j: nat)
    requires AreBytes(bytes) && AreBytes(codewords) && UsedBytes(|bytes|, version) + j < |codewords|
    requires ByteBits(codewords) == DataStream(bytes, version, |codewords|)
    ensures codewords[UsedBytes(|bytes|, version) + j] == if j % 2 == 0 then 236 else 17
  {
    hide Bit, ByteBits, Value, BitsOf;
    var used := UsedBytes(|bytes|, version);
    var pads := Padding(|codewords| - used);
    BitsOfLength(4, 4);
    BitsOfLength(|bytes|, CountBits(version));
    BitsOfLength(0, 4);
    var stream := Header(|bytes|, version) + ByteBits(bytes) + BitsOf(0, 4);
    ByteBitsLength(bytes);
    assert |stream| == 8 * used;
    ByteBitsLength(pads);
    SliceMiddle(stream, ByteBits(pads), [], 8 * j, 8 * j + 8);
    assert stream + ByteBits(pads) + [] == ByteBits(codewords);
    ByteBitsAt(codewords, used + j);
    ByteBitsAt(pads, j);
    assert BitsOf(codewords[used + j], 8) == BitsOf(pads[j], 8);
    assert ShiftLeft(1, 8) == 256;
    ValueOfBits(codewords[used + j], 8);
    ValueOfBits(pads[j], 8);
  }

  lemma ByteBitsLength(s: seq<nat>)
    ensures |ByteBits(s)| == 8 * |s|
  {
  }
}
