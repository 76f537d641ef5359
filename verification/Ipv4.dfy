/** IPv4 texts, netmasks and networks: three ways to recognise a netmask agree, and the printed network is
    the address with its low bits cleared. */
module Ipv4 {
  import opened Wrappers
  import opened Text
  import opened Bits
  import opened Prefix

  // ---------- single bits ----------

  lemma {:induction false} BitParts(x: nat, y: nat, w: nat, k: nat)
    requires y < Power(w)
    ensures Bit(Power(w) * x + y, k) == if k < w then Bit(y, k) else Bit(x, k - w)
    decreases w
  {
    if w > 0 {
      Regroup(Power(w - 1), x, y);
      var rest := Power(w - 1) * x + y / 2;
      assert Power(w) * x + y == 2 * rest + y % 2;
      if k > 0 {
        BitParts(x, y / 2, w - 1, k - 1);
      }
    }
  }

  lemma {:induction false} BitsEqual(a: nat, b: nat, w: nat)
    requires a < Power(w) && b < Power(w) && forall k :: 0 <= k < w ==> Bit(a, k) == Bit(b, k)
    ensures a == b
  {
    if w > 0 {
      assert Bit(a, 0) == Bit(b, 0);
      forall k | 0 <= k < w - 1
        ensures Bit(a / 2, k) == Bit(b / 2, k)
      {
        assert Bit(a, k + 1) == Bit(b, k + 1);
      }
      BitsEqual(a / 2, b / 2, w - 1);
    }
  }

  /** value & (1 << k). */
  lemma {:induction false} AndPower(n: nat, k: nat)
    ensures And(n, Power(k)) != 0 <==> Bit(n, k)
  {
    if k > 0 {
      AndPower(n / 2, k - 1);
      AndEven(n, Power(k - 1));
    } else {
      AndOdd(n, 0);
    }
  }

  lemma {:induction false} OnesBits(w: nat, s: nat, k: nat)
    requires s <= w
    ensures Power(s) <= Power(w) && Bit(Power(w) - Power(s), k) == (s <= k < w)
    decreases w, k
  {
    PowerGrows(s, w);
    if w == 0 {
      BitOfZero(k);
    } else if s > 0 {
      assert Power(w) - Power(s) == 2 * (Power(w - 1) - Power(s - 1));
      PowerGrows(s - 1, w - 1);
      if k > 0 {
        OnesBits(w - 1, s - 1, k - 1);
      }
    } else {
      assert Power(w) - 1 == 2 * (Power(w - 1) - 1) + 1;
      if k > 0 {
        OnesBits(w - 1, 0, k - 1);
      }
    }
  }

  lemma MaskBits(prefix: nat, k: nat)
    requires prefix <= 32
    ensures Bit(Mask32(prefix), k) == (32 - prefix <= k < 32)
    ensures IsWord(Mask32(prefix))
  {
    hide Power, Bit;
    OnesBits(32, 32 - prefix, k);
    if prefix > 0 {
      MaskValue(32, 32 - prefix);
    } else {
      BitOfZero(k);
    }
  }

  ghost predicate HighBits(value: nat, prefix: nat) {
    forall k :: 0 <= k < 32 ==> Bit(value, k) == (32 - prefix <= k)
  }

  /** A word is the mask of a prefix when its bits from some place on are set and the others are not. */
  lemma MaskFromBits(value: nat, prefix: nat)
    requires IsWord(value) && prefix <= 32
    ensures value == Mask32(prefix) <==> HighBits(value, prefix)
  {
    hide Mask32, Power;
    MaskBits(prefix, 0);
    if value == Mask32(prefix) {
      forall k | 0 <= k < 32
        ensures Bit(value, k) == (32 - prefix <= k)
      {
        MaskBits(prefix, k);
      }
    } else if HighBits(value, prefix) {
      forall k | 0 <= k < 32
        ensures Bit(value, k) == Bit(Mask32(prefix), k)
      {
        MaskBits(prefix, k);
      }
      BitsEqual(value, Mask32(prefix), 32);
    }
  }

  lemma MaskInjective(p: nat, q: nat)
    requires p <= 32 && q <= 32 && Mask32(p) == Mask32(q)
    ensures p == q
  {
    hide Mask32, Bit;
    MaskBits(p, if p < q then 32 - q else 32 - p);
    MaskBits(q, if p < q then 32 - q else 32 - p);
  }

  // ---------- the length of a netmask ----------

  /** prefixFromNetmask: no set bit may follow a clear one. */
  method PrefixFromNetmask(value: nat) returns (prefix: Option<nat>)
    requires IsWord(value)
    ensures forall p: nat :: p <= 32 ==> (prefix == Some(p) <==> value == Mask32(p))
    ensures prefix.Some? ==> prefix.value <= 32
  {
    hide And, Bit, Mask32, Power;
    var ones, zeroSeen := 0, false;
    for bit := 32 downto 0
      invariant ones <= 32 - bit && (zeroSeen <==> ones < 32 - bit)
      invariant forall k :: bit <= k < 32 ==> Bit(value, k) == (32 - ones <= k)
    {
      var set1 := And(value, Power(bit)) != 0;
      AndPower(value, bit);
      if set1 && zeroSeen {
        NoMask(value, bit, 31 - ones);
        return None;
      }
      if set1 {
        ones := ones + 1;
      } else {
        zeroSeen := true;
      }
    }
    MaskFromBits(value, ones);
    forall p: nat | p <= 32 && value == Mask32(p)
      ensures p == ones
    {
      MaskInjective(p, ones);
    }
    prefix := Some(ones);
  }

  lemma NoMask(value: nat, low: nat, high: nat)
    requires IsWord(value) && low < high < 32 && Bit(value, low) && !Bit(value, high)
    ensures forall p: nat :: p <= 32 ==> value != Mask32(p)
  {
    hide Mask32, Bit;
    forall p: nat | p <= 32
      ensures value != Mask32(p)
    {
      MaskBits(p, low);
      MaskBits(p, high);
    }
  }

  /** netmaskPrefix: count the leading ones, and compare with the mask of that length. */
  method NetmaskPrefix(value: nat) returns (prefix: Option<nat>)
    requires IsWord(value)
    ensures forall p: nat :: p <= 32 ==> (prefix == Some(p) <==> value == Mask32(p))
    ensures prefix.Some? ==> prefix.value <= 32
  {
    hide And, Bit, Mask32, Power;
    var bits := 0;
    while bits < 32 && And(value, Power(31 - bits)) != 0
      invariant bits <= 32
      invariant forall k :: 32 - bits <= k < 32 ==> Bit(value, k)
    {
      AndPower(value, 31 - bits);
      bits := bits + 1;
    }
    if bits < 32 {
      AndPower(value, 31 - bits);
    }
    forall p: nat | p <= 32 && value == Mask32(p)
      ensures p == bits
    {
      if p > bits {
        MaskBits(p, 31 - bits);
      } else if p < bits {
        MaskBits(p, 32 - bits);
      }
    }
    prefix := if value == Mask32(bits) then Some(bits) else None;
  }

  // ---------- texts ----------

  predicate IsOctet(s: string) {
    1 <= |s| <= 3 && AllDigits(s) && ParseDecimal(s) <= 255
  }

  predicate ValidIpv4(address: string) {
    var octets := Split(address, '.');
    |octets| == 4 && IsOctet(octets[0]) && IsOctet(octets[1]) && IsOctet(octets[2]) && IsOctet(octets[3])
  }

  function OctetsOf(address: string): (o: seq<nat>)
    requires ValidIpv4(address)
    ensures AreBytes(o)
  {
    var octets := Split(address, '.');
    [ParseDecimal(octets[0]), ParseDecimal(octets[1]), ParseDecimal(octets[2]), ParseDecimal(octets[3])]
  }

  /** Number.prototype.toString(2). */
  function BinaryText(n: nat): (s: string)
    ensures s != ""
  {
    if n < 2 then [Digit(n)] else BinaryText(n / 2) + [Digit(n % 2)]
  }

  function PadStart(s: string, width: nat): string
    decreases width - |s|
  {
    if |s| >= width then s else PadStart("0" + s, width)
  }

  lemma {:induction false} PadSnoc(s: string, c: char, width: nat)
    requires width > 0
    ensures PadStart(s + [c], width) == PadStart(s, width - 1) + [c]
    decreases width - |s|
  {
    if |s| + 1 < width {
      assert "0" + (s + [c]) == ("0" + s) + [c];
      PadSnoc("0" + s, c, width);
    }
  }

  lemma {:induction false} PadZeros(width: nat)
    requires width > 0
    ensures PadStart("", width) == PadStart("0", width)
  {
    assert "0" + "" == "0";
  }

  /** Binary digits, padded to a width, are the bits from the highest to the lowest. */
  lemma {:induction false} PaddedBits(n: nat, width: nat)
    requires n < Power(width) && width > 0
    ensures var s := PadStart(BinaryText(n), width);
      |s| == width && forall i :: 0 <= i < width ==> s[i] == if Bit(n, width - 1 - i) then '1' else '0'
  {
    var s := PadStart(BinaryText(n), width);
    if width == 1 {
      assert s == [Digit(n)];
    } else {
      PaddedBits(n / 2, width - 1);
      if n < 2 {
        assert "" + [Digit(n)] == BinaryText(n);
        PadSnoc("", Digit(n), width);
        PadZeros(width - 1);
        assert BinaryText(n / 2) == "0";
      } else {
        PadSnoc(BinaryText(n / 2), Digit(n % 2), width);
      }
      var t := PadStart(BinaryText(n / 2), width - 1);
      assert s == t + [Digit(n % 2)];
      forall i | 0 <= i < width
        ensures s[i] == if Bit(n, width - 1 - i) then '1' else '0'
      {
        if i < width - 1 {
          assert Bit(n, width - 1 - i) == Bit(n / 2, width - 2 - i);
        }
      }
    }
  }

  function NetmaskBits(o: seq<nat>): string
    requires AreBytes(o)
  {
    PadStart(BinaryText(o[0]), 8) + PadStart(BinaryText(o[1]), 8) + PadStart(BinaryText(o[2]), 8) + PadStart(BinaryText(o[3]), 8)
  }

  /** /^1+0*$/ */
  predicate OnesThenZeros(s: string) {
    exists p :: 1 <= p <= |s| && IsOnes(s, p)
  }

  predicate IsOnes(s: string, p: nat) {
    forall i :: 0 <= i < |s| ==> s[i] == if i < p then '1' else '0'
  }

  /** validIPv4Netmask. */
  predicate ValidNetmask(mask: string) {
    ValidIpv4(mask) && OnesThenZeros(NetmaskBits(OctetsOf(mask)))
  }

  lemma AddressBit(o: seq<nat>, k: nat)
    requires AreBytes(o) && k < 32
    ensures Bit(Address(o), k) == Bit(o[3 - k / 8], k % 8)
  {
    Power8();
    hide Bit, Power;
    BitParts(256 * (256 * o[0] + o[1]) + o[2], o[3], 8, k);
    if k >= 8 {
      BitParts(256 * o[0] + o[1], o[2], 8, k - 8);
      if k >= 16 {
        BitParts(o[0], o[1], 8, k - 16);
      }
    }
  }

  lemma NetmaskBitsAre(o: seq<nat>)
    requires AreBytes(o)
    ensures |NetmaskBits(o)| == 32
    ensures forall i :: 0 <= i < 32 ==> NetmaskBits(o)[i] == if Bit(Address(o), 31 - i) then '1' else '0'
  {
    Power8();
    hide Bit, Power, BinaryText, PadStart, Address;
    PaddedBits(o[0], 8);
    PaddedBits(o[1], 8);
    PaddedBits(o[2], 8);
    PaddedBits(o[3], 8);
    forall i | 0 <= i < 32
      ensures NetmaskBits(o)[i] == if Bit(Address(o), 31 - i) then '1' else '0'
    {
      AddressBit(o, 31 - i);
      assert (31 - i) % 8 == 7 - i % 8;
    }
  }

  /** A text is accepted as a netmask exactly when it is the mask of a prefix other than 0. */
  lemma NetmaskAccepted(mask: string)
    ensures ValidNetmask(mask) <==>
      ValidIpv4(mask) && exists p :: 1 <= p <= 32 && Address(OctetsOf(mask)) == Mask32(p)
  {
    if ValidIpv4(mask) {
      var o := OctetsOf(mask);
      hide ValidIpv4, OctetsOf, IsOnes, Mask32, Address, NetmaskBits;
      NetmaskBitsAre(o);
      forall p | 1 <= p <= 32
        ensures IsOnes(NetmaskBits(o), p) <==> Address(o) == Mask32(p)
      {
        OnesAreMask(o, p);
      }
    }
  }

  lemma OnesAreMask(o: seq<nat>, p: nat)
    requires AreBytes(o) && 1 <= p <= 32
    ensures IsOnes(NetmaskBits(o), p) <==> Address(o) == Mask32(p)
  {
    hide Mask32, Address, NetmaskBits;
    NetmaskBitsAre(o);
    AddressIsWord(o);
    MaskFromBits(Address(o), p);
    var s := NetmaskBits(o);
    if IsOnes(s, p) {
      forall k | 0 <= k < 32
        ensures Bit(Address(o), k) == (32 - p <= k)
      {
        assert s[31 - k] == if 31 - k < p then '1' else '0';
      }
    } else if Address(o) == Mask32(p) {
      forall i | 0 <= i < 32
        ensures s[i] == if i < p then '1' else '0'
      {
        MaskBits(p, 31 - i);
      }
    }
  }

  // ---------- ipv4NetworkCidr ----------

  lemma {:induction false} OrParts(x: nat, b: nat, k: nat)
    requires b < Power(k)
    ensures Or(Power(k) * x, b) == Power(k) * x + b
  {
    if k == 0 {
      OrZero(x, 0);
    } else {
      OrParts(x, b / 2, k - 1);
      Regroup(Power(k - 1), x, 0);
      var y := Power(k - 1) * x;
      assert Power(k) * x == 2 * y;
      OrStep(2 * y, b);
    }
  }

  lemma OrStep(a: nat, b: nat)
    ensures Or(a, b) == 2 * Or(a / 2, b / 2) + (if a % 2 == 0 && b % 2 == 0 then 0 else 1)
  {
  }

  /** The address by shifts and ors. */
  function Packed(o: seq<nat>): nat
    requires |o| == 4
  {
    Or(Or(Or(ShiftLeft32(o[0], 24), ShiftLeft32(o[1], 16)), ShiftLeft32(o[2], 8)), o[3])
  }

  lemma ShiftByte(b: nat, s: nat)
    requires b < 256 && s <= 24
    ensures ShiftLeft32(b, s) == Power(s) * b
  {
    hide Power, ShiftLeft32;
    var p := Power(s);
    ShiftIs(b, s);
    EightMore(s);
    PowerGrows(8 + s, 32);
    SmallProduct(b, p);
    Unchanged(b * p, Power(32));
  }

  lemma Unchanged(n: nat, d: nat)
    requires n < d
    ensures n % d == n
  {
  }

  lemma EightMore(s: nat)
    ensures Power(8 + s) == 256 * Power(s)
  {
    Power8();
    PowerAdd(8, s);
  }

  lemma ShiftIs(x: nat, s: nat)
    requires s < 32
    ensures ShiftLeft32(x, s) == (x * Power(s)) % Power(32)
  {
    hide Power;
    FactorIs(s);
    hide ShiftFactor;
  }

  lemma FactorIs(s: nat)
    requires s < 32
    ensures ShiftFactor(s) == Power(s)
  {
    assert s % 32 == s;
  }

  lemma SmallProduct(b: nat, p: nat)
    requires b < 256 && p > 0
    ensures b * p < 256 * p && b * p == p * b
  {
  }

  lemma PackedIsAddress(o: seq<nat>)
    requires AreBytes(o)
    ensures Packed(o) == Address(o)
  {
    hide Power, Or, ShiftLeft32;
    Power8();
    Power32();
    ShiftByte(o[0], 24);
    ShiftByte(o[1], 16);
    ShiftByte(o[2], 8);
    OrParts(o[0], 65536 * o[1], 24);
    OrParts(256 * o[0] + o[1], 256 * o[2], 16);
    OrParts(256 * (256 * o[0] + o[1]) + o[2], o[3], 8);
  }

  /** The bytes of a 32-bit number, by shifts and masks. */
  function Unpacked(n: nat): seq<nat> {
    [ShiftRight32(n, 24), And(ShiftRight32(n, 16), 255), And(ShiftRight32(n, 8), 255), And(n, 255)]
  }

  lemma ShiftRightIs(n: nat, s: nat)
    requires s < 32
    ensures ShiftRight32(n, s) == n / Power(s)
  {
    assert s % 32 == s;
  }

  lemma UnpackedIsAddress(n: nat)
    requires IsWord(n)
    ensures AreBytes(Unpacked(n)) && Address(Unpacked(n)) == n
  {
    hide Power, And, ShiftRight32;
    Power8();
    Power32();
    ShiftRightIs(n, 8);
    ShiftRightIs(n, 16);
    ShiftRightIs(n, 24);
    AndLow(n, 8);
    AndLow(ShiftRight32(n, 8), 8);
    AndLow(ShiftRight32(n, 16), 8);
    Requotient(n, 256);
    Requotient(n, 65536);
    ByteParts(n);
  }

  lemma ByteParts(n: nat)
    requires n < 0x1_0000_0000
    ensures n == 256 * (n / 256) + n % 256
    ensures n / 256 == 256 * (n / 256 / 256) + n / 256 % 256
    ensures n / 256 / 256 == 256 * (n / 256 / 256 / 256) + n / 256 / 256 % 256
    ensures n / 256 / 256 / 256 < 256
  {
  }

  lemma Requotient(n: nat, d: nat)
    requires d > 0
    ensures n / (d * 256) == (n / d) / 256
  {
    ModBelow(n, d);
    var q := n / d;
    ModBelow(q, 256);
    assert d * q == d * (256 * (q / 256)) + d * (q % 256);
    assert d * (256 * (q / 256)) == (d * 256) * (q / 256);
    assert d * (q % 256) + n % d < d * 256 by {
      Ahead(d, q % 256, 256);
    }
    DivisionUnique(n, d * 256, q / 256, d * (q % 256) + n % d);
  }

  function NetworkBytes(o: seq<nat>, prefix: nat): seq<nat>
    requires |o| == 4 && prefix <= 32
  {
    Unpacked(And(Packed(o), Mask32(prefix)))
  }

  /** The network of an address: the address with the bits behind the prefix cleared. */
  lemma NetworkIsCleared(o: seq<nat>, prefix: nat)
    requires AreBytes(o) && prefix <= 32
    ensures AreBytes(NetworkBytes(o, prefix)) && Address(NetworkBytes(o, prefix)) == Clear(Address(o), 32 - prefix)
  {
    PackedIsAddress(o);
    AddressIsWord(o);
    MaskClears(Address(o), prefix);
    UnpackedIsAddress(Clear(Address(o), 32 - prefix));
  }

  /** The network of a network is that of the shorter prefix. */
  lemma NetworkTwice(o: seq<nat>, p: nat, q: nat)
    requires AreBytes(o) && p <= 32 && q <= 32
    ensures |NetworkBytes(o, p)| == 4
    ensures NetworkBytes(NetworkBytes(o, p), q) == NetworkBytes(o, if p < q then p else q)
  {
    hide Address, NetworkBytes, Clear;
    NetworkIsCleared(o, p);
    NetworkIsCleared(NetworkBytes(o, p), q);
    NetworkIsCleared(o, if p < q then p else q);
    ClearTwice(Address(o), 32 - p, 32 - q);
    AddressInjective(NetworkBytes(NetworkBytes(o, p), q), NetworkBytes(o, if p < q then p else q));
  }

  function Dotted(o: seq<nat>): string
    requires |o| == 4
  {
    Join([Decimal(o[0]), Decimal(o[1]), Decimal(o[2]), Decimal(o[3])], ".")
  }

  lemma {:induction false} DecimalLength(n: nat)
    ensures n < 10 ==> |Decimal(n)| == 1
    ensures n < 100 ==> |Decimal(n)| <= 2
    ensures n < 1000 ==> |Decimal(n)| <= 3
  {
    if n >= 10 {
      DecimalLength(n / 10);
    }
  }

  lemma OctetText(n: nat)
    requires n < 256
    ensures IsOctet(Decimal(n)) && ParseDecimal(Decimal(n)) == n && '.' !in Decimal(n)
  {
    DecimalLength(n);
    ParseOfDecimal(n);
    assert forall k :: 0 <= k < |Decimal(n)| ==> IsDigit(Decimal(n)[k]);
  }

  /** A printed address is valid and is read back. */
  lemma DottedRoundTrip(o: seq<nat>)
    requires AreBytes(o)
    ensures ValidIpv4(Dotted(o)) && OctetsOf(Dotted(o)) == o
  {
    OctetText(o[0]);
    OctetText(o[1]);
    OctetText(o[2]);
    OctetText(o[3]);
    hide IsOctet, ParseDecimal, Decimal;
    SplitJoin([Decimal(o[0]), Decimal(o[1]), Decimal(o[2]), Decimal(o[3])], '.');
  }

  predicate IsByte(n: int) {
    0 <= n <= 255
  }

  /** What Number makes of texts, None for what is no integer: decimal digits are read as their number. */
  ghost predicate ReadsDecimals(number: string -> Option<int>) {
    forall s :: s != "" && AllDigits(s) ==> number(s) == Some(ParseDecimal(s))
  }

  function ByteOf(s: string, number: string -> Option<int>): Option<nat> {
    var n := number(s);
    if n.Some? && IsByte(n.value) then Some(n.value) else None
  }

  /** The four bytes that an address is taken to have, in any notation of numbers that Number reads. */
  function BytesOf(address: string, number: string -> Option<int>): (o: Option<seq<nat>>)
    ensures o.Some? ==> AreBytes(o.value)
  {
    var parts := Split(address, '.');
    if |parts| != 4 then None
    else
      var a, b, c, d := ByteOf(parts[0], number), ByteOf(parts[1], number), ByteOf(parts[2], number), ByteOf(parts[3], number);
      if a == None || b == None || c == None || d == None then None else Some([a.value, b.value, c.value, d.value])
  }

  function Ipv4NetworkCidr(address: string, mask: string, number: string -> Option<int>): Option<string> {
    var o, prefix := BytesOf(address, number), number(mask);
    if o == None || prefix == None || !(0 <= prefix.value <= 32) then None
    else Some(Dotted(NetworkBytes(o.value, prefix.value)) + "/" + Decimal(prefix.value))
  }

  lemma ValidBytes(address: string, number: string -> Option<int>)
    requires ReadsDecimals(number) && ValidIpv4(address)
    ensures BytesOf(address, number) == Some(OctetsOf(address))
  {
    hide ParseDecimal, AllDigits, Split;
  }

  /** A text that reads as the network of an address: its address, the low bits cleared, and its prefix. */
  ghost predicate ReadsAsNetwork(cidr: string, o: seq<nat>, prefix: nat)
    requires |o| == 4 && prefix <= 32
  {
    exists text: string ::
      ValidIpv4(text) && cidr == text + ("/" + Decimal(prefix)) && Address(OctetsOf(text)) == Clear(Address(o), 32 - prefix)
  }

  /** A network is printed for valid addresses and for prefixes up to 32, and any network that is printed is read as
      the cleared address and the prefix. */
  lemma CidrRead(address: string, mask: string, number: string -> Option<int>)
    requires ReadsDecimals(number)
    ensures ValidIpv4(address) ==> BytesOf(address, number) == Some(OctetsOf(address))
    ensures ValidIpv4(address) && number(mask).Some? && 0 <= number(mask).value <= 32 ==>
      Ipv4NetworkCidr(address, mask, number).Some?
    ensures Ipv4NetworkCidr(address, mask, number).Some? ==>
      && BytesOf(address, number).Some? && number(mask).Some? && 0 <= number(mask).value <= 32
      && ReadsAsNetwork(Ipv4NetworkCidr(address, mask, number).value, BytesOf(address, number).value, number(mask).value)
  {
    hide ValidIpv4, OctetsOf, BytesOf, NetworkBytes, Dotted, Decimal, Clear, Address, ReadsDecimals;
    if ValidIpv4(address) {
      ValidBytes(address, number);
    }
    if Ipv4NetworkCidr(address, mask, number).Some? {
      var o, prefix: nat := BytesOf(address, number).value, number(mask).value;
      NetworkIsCleared(o, prefix);
      DottedRoundTrip(NetworkBytes(o, prefix));
      Associate(Dotted(NetworkBytes(o, prefix)), "/", Decimal(prefix));
    }
  }

  /** The network, with a prefix q, of the printed network with a prefix p: the network with the shorter prefix. */
  lemma CidrTwice(address: string, number: string -> Option<int>, p: nat, q: nat, once: string)
    requires ReadsDecimals(number) && BytesOf(address, number).Some? && p <= 32 && q <= 32
    requires Ipv4NetworkCidr(address, Decimal(p), number) == Some(once + ("/" + Decimal(p)))
    ensures exists text ::
      && Ipv4NetworkCidr(once, Decimal(q), number) == Some(text + ("/" + Decimal(q)))
      && Ipv4NetworkCidr(address, Decimal(if p < q then p else q), number)
         == Some(text + ("/" + Decimal(if p < q then p else q)))
  {
    hide ValidIpv4, OctetsOf, BytesOf, NetworkBytes, Dotted, Decimal, Clear, Address, ReadsDecimals, Ipv4NetworkCidr;
    var o, least := BytesOf(address, number).value, if p < q then p else q;
    NetworkIsCleared(o, p);
    var network := NetworkBytes(o, p);
    CidrText(address, number, p);
    SamePrefix(once, Dotted(network), "/" + Decimal(p));
    DottedRoundTrip(network);
    ValidBytes(once, number);
    NetworkTwice(o, p, q);
    CidrText(once, number, q);
    CidrText(address, number, least);
  }

  lemma CidrText(address: string, number: string -> Option<int>, p: nat)
    requires ReadsDecimals(number) && BytesOf(address, number).Some? && p <= 32
    ensures Ipv4NetworkCidr(address, Decimal(p), number)
      == Some(Dotted(NetworkBytes(BytesOf(address, number).value, p)) + ("/" + Decimal(p)))
  {
    hide BytesOf, NetworkBytes, Dotted, Decimal, ReadsDecimals, Address, Clear;
    NetworkIsCleared(BytesOf(address, number).value, p);
    DecimalNumber(number, p);
    Associate(Dotted(NetworkBytes(BytesOf(address, number).value, p)), "/", Decimal(p));
  }

  lemma SamePrefix(a: string, b: string, rest: string)
    requires a + rest == b + rest
    ensures a == b
  {
    assert a == (a + rest)[..|a|] && b == (b + rest)[..|b|];
  }

  lemma DecimalNumber(number: string -> Option<int>, n: nat)
    requires ReadsDecimals(number)
    ensures number(Decimal(n)) == Some(n)
  {
    ParseOfDecimal(n);
  }
}
