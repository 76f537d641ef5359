/** Network prefixes: masks, shifts, divisions and ranges over addresses, and what they have in common. */
module Prefix {
  import opened Bits

  function Power(k: nat): (p: nat)
    ensures p > 0
  {
    if k == 0 then 1 else 2 * Power(k - 1)
  }

  function And(a: nat, b: nat): nat {
    if a == 0 || b == 0 then 0 else 2 * And(a / 2, b / 2) + (if a % 2 == 1 && b % 2 == 1 then 1 else 0)
  }

  lemma ModBelow(n: nat, d: nat)
    requires d > 0
    ensures 0 <= n % d <= n && n % d < d && n == d * (n / d) + n % d
  {
  }

  /** The number with its k lowest bits cleared. */
  function Clear(n: nat, k: nat): nat {
    ModBelow(n, Power(k));
    n - n % Power(k)
  }

  // ---------- clearing bits ----------

  lemma ModDouble(a: nat, b: nat, m: nat)
    requires b < 2 && m > 0
    ensures (2 * a + b) % (2 * m) == 2 * (a % m) + b
    ensures (2 * a + b) / (2 * m) == a / m
  {
    var q, r := a / m, a % m;
    assert 2 * a + b == (2 * m) * q + (2 * r + b) by {
      assert a == m * q + r;
      assert (2 * m) * q == 2 * (m * q);
    }
    DivisionUnique(2 * a + b, 2 * m, q, 2 * r + b);
  }

  lemma DivisionUnique(n: nat, d: nat, q: nat, r: nat)
    requires r < d && n == d * q + r
    ensures n / d == q && n % d == r
  {
    ModBelow(n, d);
    var q' := n / d;
    if q' < q {
      Ahead(d, q', q);
    } else if q < q' {
      Ahead(d, q, q');
    }
  }

  lemma Ahead(d: nat, x: nat, y: nat)
    requires x < y
    ensures d * x + d <= d * y
  {
    assert d * y == d * x + d * (y - x);
    assert d * (y - x) == d + d * (y - x - 1);
  }

  lemma ClearDouble(a: nat, b: nat, k: nat)
    requires b < 2 && k > 0
    ensures Clear(2 * a + b, k) == 2 * Clear(a, k - 1)
  {
    ModDouble(a, b, Power(k - 1));
  }

  /** Clearing low bits of a word is masking it with the remaining high bits. */
  lemma {:induction false} AndHigh(v: nat, w: nat, k: nat)
    requires v < Power(w) && k <= w
    ensures Power(w) >= Power(k) && And(v, Power(w) - Power(k)) == Clear(v, k)
  {
    hide And, Clear, Power;
    if w == 0 {
      PowerZero();
      ClearNothing(v);
      AndZero(v);
    } else {
      PowerStep(w);
      AndHigh(v / 2, w - 1, if k == 0 then 0 else k - 1);
      if k == 0 {
        PowerZero();
        ClearNothing(v / 2);
        ClearNothing(v);
        AndOdd(v, Power(w - 1) - 1);
      } else {
        PowerStep(k);
        ClearDouble(v / 2, v % 2, k);
        AndEven(v, Power(w - 1) - Power(k - 1));
      }
    }
  }

  lemma PowerZero()
    ensures Power(0) == 1
  {
  }

  lemma PowerStep(k: nat)
    requires k > 0
    ensures Power(k) == 2 * Power(k - 1)
  {
  }

  lemma AndZero(v: nat)
    ensures And(v, 0) == 0
  {
  }

  lemma ClearNothing(n: nat)
    ensures Clear(n, 0) == n
  {
    ModOne(n);
  }

  lemma ModOne(n: nat)
    ensures n % 1 == 0
  {
  }

  lemma AndEven(v: nat, m: nat)
    ensures And(v, 2 * m) == 2 * And(v / 2, m)
  {
    assert (2 * m) / 2 == m && (2 * m) % 2 == 0;
  }

  lemma AndOdd(v: nat, m: nat)
    ensures And(v, 2 * m + 1) == 2 * And(v / 2, m) + v % 2
  {
    assert (2 * m + 1) / 2 == m && (2 * m + 1) % 2 == 1;
  }

  /** Masking with low bits is taking the remainder. */
  lemma {:induction false} AndLow(v: nat, w: nat)
    ensures And(v, Power(w) - 1) == v % Power(w)
  {
    if w > 0 {
      AndLow(v / 2, w - 1);
      ModDouble(v / 2, v % 2, Power(w - 1));
      var m := Power(w - 1) - 1;
      assert Power(w) - 1 == 2 * m + 1;
      AndOdd(v, m);
    }
  }

  /** Two masks are one: the shorter prefix wins. */
  lemma {:induction false} ClearTwice(n: nat, i: nat, j: nat)
    ensures Clear(Clear(n, i), j) == Clear(n, if i < j then j else i)
  {
    if i == 0 || j == 0 {
    } else {
      var a, b := n / 2, n % 2;
      ClearTwice(a, i - 1, j - 1);
      ClearDouble(a, b, i);
      ClearDouble(Clear(a, i - 1), 0, j);
      ClearDouble(a, b, if i < j then j else i);
    }
  }

  lemma ClearIsMultiple(n: nat, k: nat)
    ensures Clear(n, k) == Power(k) * (n / Power(k))
  {
    hide Power;
    ModBelow(n, Power(k));
  }

  /** Equal after clearing exactly when the quotients are equal. */
  lemma SameCleared(a: nat, b: nat, k: nat)
    ensures Clear(a, k) == Clear(b, k) <==> a / Power(k) == b / Power(k)
  {
    ClearIsMultiple(a, k);
    ClearIsMultiple(b, k);
    var p, x, y := Power(k), a / Power(k), b / Power(k);
    hide Power, Clear;
    if x < y {
      Ahead(p, x, y);
    } else if y < x {
      Ahead(p, y, x);
    }
  }

  // ---------- 32-bit operators ----------

  /** x << s followed by >>> 0: only the five low bits of the shift count, only 32 bits of the result. */
  function ShiftLeft32(x: nat, s: nat): nat {
    (x * ShiftFactor(s)) % Power(32)
  }

  /** x >>> s of a 32-bit number. */
  function ShiftRight32(x: nat, s: nat): nat {
    Quotient(x, ShiftFactor(s))
  }

  function Quotient(x: nat, d: nat): nat
    requires d > 0
  {
    x / d
  }

  /** A shift counts modulo 32. */
  function ShiftFactor(s: nat): (d: nat)
    ensures d > 0
  {
    Power(s % 32)
  }

  predicate IsWord(x: nat) {
    x < Power(32)
  }

  lemma {:induction false} PowerGrows(i: nat, j: nat)
    requires i <= j
    ensures Power(i) <= Power(j)
    ensures i < j ==> Power(i) < Power(j)
  {
    if i < j {
      PowerGrows(i, j - 1);
    }
  }

  /** All ones, shifted left: the ones that remain. */
  lemma MaskValue(w: nat, s: nat)
    requires s < w
    ensures ((Power(w) - 1) * Power(s)) % Power(w) == Power(w) - Power(s)
  {
    PowerGrows(s, w);
    MaskArithmetic(Power(w), Power(s));
  }

  lemma MaskArithmetic(p: nat, q: nat)
    requires 0 < q <= p
    ensures ((p - 1) * q) % p == p - q
  {
    assert (p - 1) * q == p * q - q;
    assert p * (q - 1) == p * q - p;
    DivisionUnique((p - 1) * q, p, q - 1, p - q);
  }

  /** The mask of a prefix; the case 0 is apart because a shift by 32 would shift by nothing. */
  function Mask32(prefix: nat): nat
    requires prefix <= 32
  {
    if prefix == 0 then 0 else ShiftLeft32(Power(32) - 1, 32 - prefix)
  }

  lemma MaskClears(a: nat, prefix: nat)
    requires IsWord(a) && prefix <= 32
    ensures And(a, Mask32(prefix)) == Clear(a, 32 - prefix)
  {
    hide Power, Clear, And;
    AndHigh(a, 32, 32 - prefix);
    if prefix > 0 {
      MaskValue(32, 32 - prefix);
    }
  }

  // ---------- which addresses a network contains ----------

  /** The definition the tests are measured against. */
  predicate SameNetwork(a: nat, b: nat, prefix: nat)
    requires prefix <= 32
  {
    a / Power(32 - prefix) == b / Power(32 - prefix)
  }

  /** cidrContains. */
  predicate ContainsByMask(base: nat, ip: nat, prefix: nat)
    requires prefix <= 32
  {
    And(base, Mask32(prefix)) == And(ip, Mask32(prefix))
  }

  lemma MaskDecides(base: nat, ip: nat, prefix: nat)
    requires IsWord(base) && IsWord(ip) && prefix <= 32
    ensures ContainsByMask(base, ip, prefix) <==> SameNetwork(base, ip, prefix)
  {
    MaskClears(base, prefix);
    MaskClears(ip, prefix);
    SameCleared(base, ip, 32 - prefix);
  }

  /** ipInLan: a mask of 0 counts as not given, and means 24. */
  predicate ContainsByShift(a: nat, b: nat, mask: nat) {
    var bits := if mask == 0 then 24 else mask;
    var shift := if bits >= 32 then 0 else 32 - bits;
    ShiftRight32(a, shift) == ShiftRight32(b, shift)
  }

  lemma ShiftDecides(a: nat, b: nat, mask: nat)
    requires mask <= 32
    ensures ContainsByShift(a, b, mask) <==> SameNetwork(a, b, if mask == 0 then 24 else mask)
  {
  }

  /** So the shift test is the right one exactly for prefixes other than 0. */
  lemma ShiftIsRightUnlessZero(mask: nat)
    requires mask <= 32
    ensures (forall a, b :: IsWord(a) && IsWord(b) ==> (ContainsByShift(a, b, mask) <==> SameNetwork(a, b, mask))) <==> mask != 0
  {
    if mask == 0 {
      PowerGrows(8, 32);
      var a, b := 0, Power(8);
      DivisionUnique(a, Power(8), 0, 0);
      DivisionUnique(b, Power(8), 1, 0);
      assert Power(8) < Power(32);
      DivisionUnique(a, Power(32), 0, 0);
      DivisionUnique(b, Power(32), 0, Power(8));
      assert IsWord(a) && IsWord(b);
      ShiftDecides(a, b, 0);
      assert SameNetwork(a, b, 0) && !SameNetwork(a, b, 24);
    } else {
      forall a, b | IsWord(a) && IsWord(b)
        ensures ContainsByShift(a, b, mask) <==> SameNetwork(a, b, mask)
      {
        ShiftDecides(a, b, mask);
      }
    }
  }

  // ---------- ranges ----------

  datatype Range = Range(start: nat, end: int)

  /** ipv4Range. */
  function Ipv4Range(ip: nat, prefix: nat): Range
    requires prefix <= 32
  {
    var size := Power(32 - prefix);
    var start := (ip / size) * size;
    Range(start, start + size - 1)
  }

  predicate Overlap(left: Range, right: Range) {
    left.start <= right.end && right.start <= left.end
  }

  /** The range of a network is its addresses. */
  lemma RangeDecides(ip: nat, a: nat, prefix: nat)
    requires prefix <= 32
    ensures Ipv4Range(ip, prefix).start <= a <= Ipv4Range(ip, prefix).end <==> SameNetwork(ip, a, prefix)
  {
    var size := Power(32 - prefix);
    var q := ip / size;
    ModBelow(a, size);
    assert size * q == q * size;
    if q * size <= a <= q * size + size - 1 {
      DivisionUnique(a, size, q, a - q * size);
    }
  }

  /** Two networks overlap exactly when they agree on the shorter prefix. */
  lemma OverlapDecides(a: nat, p: nat, b: nat, q: nat)
    requires p <= 32 && q <= 32
    ensures Overlap(Ipv4Range(a, p), Ipv4Range(b, q)) <==> SameNetwork(a, b, if p < q then p else q)
  {
    if p <= q {
      Nested(a, p, b, q);
    } else {
      Nested(b, q, a, p);
    }
  }

  lemma Nested(a: nat, p: nat, b: nat, q: nat)
    requires p <= q <= 32
    ensures Overlap(Ipv4Range(a, p), Ipv4Range(b, q)) <==> SameNetwork(a, b, p)
  {
    var small := Ipv4Range(b, q);
    RangeDecides(b, b, q);
    RangeDecides(a, b, p);
    if Overlap(Ipv4Range(a, p), small) {
      // some address lies in both ranges
      var c := if Ipv4Range(a, p).start >= small.start then Ipv4Range(a, p).start else small.start;
      RangeDecides(b, c, q);
      RangeDecides(a, c, p);
      Coarser(b, c, q, p);
    }
  }

  /** Addresses of one network are in one network for every shorter prefix. */
  lemma Coarser(a: nat, b: nat, q: nat, p: nat)
    requires p <= q <= 32 && SameNetwork(a, b, q)
    ensures SameNetwork(a, b, p)
  {
    SameCleared(a, b, 32 - q);
    SameCleared(a, b, 32 - p);
    ClearTwice(a, 32 - q, 32 - p);
    ClearTwice(b, 32 - q, 32 - p);
  }

  // ---------- addresses as bytes ----------

  /** Four bytes in network order, as the 32-bit number they are. */
  function Address(o: seq<nat>): nat
    requires |o| == 4
  {
    256 * (256 * (256 * o[0] + o[1]) + o[2]) + o[3]
  }

  predicate AreBytes(o: seq<nat>) {
    |o| == 4 && o[0] < 256 && o[1] < 256 && o[2] < 256 && o[3] < 256
  }

  /** The word that a machine holds for bytes in network order: the same number, or the bytes reversed. */
  function HostWord(o: seq<nat>, littleEndian: bool): nat
    requires |o| == 4
  {
    if littleEndian then Address([o[3], o[2], o[1], o[0]]) else Address(o)
  }

  function AndBytes(a: seq<nat>, b: seq<nat>): seq<nat>
    requires |a| == 4 && |b| == 4
  {
    [And(a[0], b[0]), And(a[1], b[1]), And(a[2], b[2]), And(a[3], b[3])]
  }

  /** Masks work digit by digit: on a high part and a low part of k bits alone. */
  lemma {:induction false} AndParts(x: nat, y: nat, a: nat, b: nat, k: nat)
    requires a < Power(k) && b < Power(k)
    ensures And(Power(k) * x + a, Power(k) * y + b) == Power(k) * And(x, y) + And(a, b)
    ensures And(a, b) < Power(k)
  {
    hide And;
    AndStep(a, b);
    if k > 0 {
      var p := Power(k - 1);
      AndParts(x, y, a / 2, b / 2, k - 1);
      Regroup(p, x, a);
      Regroup(p, y, b);
      Regroup(p, And(x, y), And(a, b));
      hide Power;
      AndTwice(p * x + a / 2, p * y + b / 2, a % 2, b % 2);
    }
  }

  lemma Regroup(p: nat, x: nat, a: nat)
    ensures (2 * p) * x + a == 2 * (p * x + a / 2) + a % 2
  {
    assert (2 * p) * x == 2 * (p * x);
  }

  lemma AndTwice(x: nat, y: nat, a: nat, b: nat)
    requires a < 2 && b < 2
    ensures And(2 * x + a, 2 * y + b) == 2 * And(x, y) + (if a == 1 && b == 1 then 1 else 0)
  {
    AndStep(2 * x + a, 2 * y + b);
  }

  lemma AndStep(a: nat, b: nat)
    ensures And(a, b) == 2 * And(a / 2, b / 2) + (if a % 2 == 1 && b % 2 == 1 then 1 else 0)
  {
  }

  lemma AndAddress(a: seq<nat>, b: seq<nat>)
    requires AreBytes(a) && AreBytes(b)
    ensures And(Address(a), Address(b)) == Address(AndBytes(a, b)) && AreBytes(AndBytes(a, b))
  {
    Power8();
    hide And, Power;
    AndParts(256 * (256 * a[0] + a[1]) + a[2], 256 * (256 * b[0] + b[1]) + b[2], a[3], b[3], 8);
    AndParts(256 * a[0] + a[1], 256 * b[0] + b[1], a[2], b[2], 8);
    AndParts(a[0], b[0], a[1], b[1], 8);
    AndParts(0, 0, a[0], b[0], 8);
  }

  lemma Power8()
    ensures Power(8) == 256
  {
  }

  lemma AddressInjective(a: seq<nat>, b: seq<nat>)
    requires AreBytes(a) && AreBytes(b) && Address(a) == Address(b)
    ensures a == b
  {
    LastByte(256 * (256 * a[0] + a[1]) + a[2], a[3], 256 * (256 * b[0] + b[1]) + b[2], b[3]);
    LastByte(256 * a[0] + a[1], a[2], 256 * b[0] + b[1], b[2]);
    LastByte(a[0], a[1], b[0], b[1]);
  }

  lemma LastByte(x: nat, a: nat, y: nat, b: nat)
    requires a < 256 && b < 256 && 256 * x + a == 256 * y + b
    ensures x == y && a == b
  {
  }

  /** addr_covers compares words as the machine holds them, mask included: of either byte order, it decides
      whether the addresses are in one network. */
  lemma HostOrderDecides(net: seq<nat>, gw: seq<nat>, mask: seq<nat>, prefix: nat, littleEndian: bool)
    requires AreBytes(net) && AreBytes(gw) && AreBytes(mask) && prefix <= 32 && Address(mask) == Mask32(prefix)
    ensures And(HostWord(net, littleEndian), HostWord(mask, littleEndian)) == And(HostWord(gw, littleEndian), HostWord(mask, littleEndian))
       <==> SameNetwork(Address(net), Address(gw), prefix)
  {
    AndAddress(net, mask);
    AndAddress(gw, mask);
    var n, g, m := [net[3], net[2], net[1], net[0]], [gw[3], gw[2], gw[1], gw[0]], [mask[3], mask[2], mask[1], mask[0]];
    AndAddress(n, m);
    AndAddress(g, m);
    AddressIsWord(net);
    AddressIsWord(gw);
    MaskDecides(Address(net), Address(gw), prefix);
    hide Address, And, SameNetwork, Mask32, IsWord;
    var x, y := AndBytes(net, mask), AndBytes(gw, mask);
    if Address(x) == Address(y) {
      AddressInjective(x, y);
    }
    if Address(AndBytes(n, m)) == Address(AndBytes(g, m)) {
      AddressInjective(AndBytes(n, m), AndBytes(g, m));
      assert x == y;
    }
  }

  lemma AddressIsWord(o: seq<nat>)
    requires AreBytes(o)
    ensures IsWord(Address(o))
  {
    hide Power;
    Power32();
  }

  lemma Power32()
    ensures Power(16) == 65536 && Power(24) == 0x100_0000 && Power(32) == 0x1_0000_0000
  {
    Power8();
    hide Power;
    PowerAdd(8, 8);
    PowerAdd(8, 16);
    PowerAdd(16, 16);
  }

  lemma {:induction false} PowerAdd(i: nat, j: nat)
    ensures Power(i + j) == Power(i) * Power(j)
  {
    if i > 0 {
      PowerAdd(i - 1, j);
    }
  }
}
