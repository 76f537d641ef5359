/** The field GF(2^8) modulo x^8 + x^4 + x^3 + x^2 + 1 (0x11d): shift-and-reduce arithmetic as the
    reference, and the log/antilog tables that the encoder multiplies with. */
module Gf256 {

  type Elem = bv8

  function Add(a: Elem, b: Elem): Elem {
    a ^ b
  }

  /** Multiplication by x: shift left and reduce when the bit that falls out was set. */
  function Double(a: Elem): Elem {
    (a << 1) ^ ((a >> 7) * 0x1d)
  }

  /** Shift-and-reduce multiplication, the reference for the table-driven one. */
  function Mul(a: Elem, b: Elem): Elem
    decreases b
  {
    if b == 0 then 0
    else
      var rest := Mul(Double(a), b >> 1);
      if b & 1 == 1 then Add(a, rest) else rest
  }

  /** The i-th power of the generator alpha = x. */
  function Exp(i: nat): Elem {
    if i == 0 then 1 else Double(Exp(i - 1))
  }

  // ---------- the ring laws ----------

  lemma AddLaws(a: Elem, b: Elem, c: Elem)
    ensures Add(Add(a, b), c) == Add(a, Add(b, c))
    ensures Add(a, b) == Add(b, a)
    ensures Add(a, a) == 0 && Add(a, 0) == a
  {
  }

  lemma DoubleLinear(a: Elem, b: Elem)
    ensures Double(Add(a, b)) == Add(Double(a), Double(b))
  {
  }

  lemma DoubleInjective(a: Elem, b: Elem)
    ensures Double(a) == Double(b) ==> a == b
  {
    assert ((a << 1) ^ ((a >> 7) * 0x1d)) & 1 == a >> 7;
    assert ((b << 1) ^ ((b >> 7) * 0x1d)) & 1 == b >> 7;
    if Double(a) == Double(b) {
      assert a >> 7 == b >> 7;
      assert a << 1 == b << 1;
    }
  }

  /** The summand that the low bit of b contributes to a * b. */
  function Low(a: Elem, b: Elem): Elem {
    if b & 1 == 1 then a else 0
  }

  lemma LowAdd(a: Elem, c: Elem, b: Elem)
    ensures Low(Add(a, c), b) == Add(Low(a, b), Low(c, b))
  {
  }

  lemma AddInterchange(a: Elem, b: Elem, c: Elem, d: Elem)
    ensures Add(Add(a, b), Add(c, d)) == Add(Add(a, c), Add(b, d))
  {
    AddLaws(a, b, Add(c, d));
    AddLaws(b, c, d);
    AddLaws(c, b, d);
    AddLaws(a, c, Add(b, d));
  }

  /** One step of the recursion, with the low bit as a summand. */
  lemma MulStep(a: Elem, b: Elem)
    ensures Mul(a, b) == Add(Low(a, b), Mul(Double(a), b >> 1))
  {
  }

  lemma {:induction false} MulZero(b: Elem)
    ensures Mul(0, b) == 0
    decreases b
  {
    if b != 0 {
      MulZero(b >> 1);
      assert Double(0) == 0;
    }
  }

  lemma {:induction false} MulDouble(a: Elem, b: Elem)
    ensures Mul(Double(a), b) == Double(Mul(a, b))
    decreases b
  {
    if b != 0 {
      MulDouble(Double(a), b >> 1);
      DoubleLinear(a, Mul(Double(a), b >> 1));
    }
  }

  lemma {:induction false} MulAddLeft(a: Elem, c: Elem, b: Elem)
    ensures Mul(Add(a, c), b) == Add(Mul(a, b), Mul(c, b))
    decreases b
  {
    if b == 0 {
      assert Add(0, 0) == 0;
    } else {
      var h := b >> 1;
      calc {
        Mul(Add(a, c), b);
        { MulStep(Add(a, c), b); }
        Add(Low(Add(a, c), b), Mul(Double(Add(a, c)), h));
        { DoubleLinear(a, c); MulAddLeft(Double(a), Double(c), h); }
        Add(Low(Add(a, c), b), Add(Mul(Double(a), h), Mul(Double(c), h)));
        { LowAdd(a, c, b); }
        Add(Add(Low(a, b), Low(c, b)), Add(Mul(Double(a), h), Mul(Double(c), h)));
        { AddInterchange(Low(a, b), Low(c, b), Mul(Double(a), h), Mul(Double(c), h)); }
        Add(Add(Low(a, b), Mul(Double(a), h)), Add(Low(c, b), Mul(Double(c), h)));
        { MulStep(a, b); MulStep(c, b); }
        Add(Mul(a, b), Mul(c, b));
      }
    }
  }

  lemma {:induction false} MulOne(b: Elem)
    ensures Mul(1, b) == b
    decreases b
  {
    if b != 0 {
      MulOne(b >> 1);
      MulDouble(1, b >> 1);
      assert Mul(1, b) == Add(if b & 1 == 1 then 1 else 0, Double(b >> 1)) by { MulStep(1, b); }
      assert Add(if b & 1 == 1 then 1 else 0, Double(b >> 1)) == b by {
        assert (b >> 1) >> 7 == 0;
        assert ((b >> 1) << 1) ^ (b & 1) == b;
        assert b & 1 == 1 || b & 1 == 0;
      }
    }
  }

  lemma {:induction false} MulComm(a: Elem, b: Elem)
    ensures Mul(a, b) == Mul(b, a)
    decreases b
  {
    if b == 0 {
      MulZero(a);
    } else {
      var h := b >> 1;
      var low: Elem := if b & 1 == 1 then 1 else 0;
      MulStep(a, b);
      MulDouble(a, h);
      MulComm(a, h);
      MulDouble(h, a);
      assert Add(low, Double(h)) == b by {
        assert h >> 7 == 0;
        assert (h << 1) ^ (b & 1) == b;
        assert b & 1 == 1 || b & 1 == 0;
      }
      MulAddLeft(low, Double(h), a);
      MulOne(a);
      MulZero(a);
    }
  }

  lemma MulAddRight(a: Elem, b: Elem, c: Elem)
    ensures Mul(a, Add(b, c)) == Add(Mul(a, b), Mul(a, c))
  {
    MulComm(a, Add(b, c));
    MulAddLeft(b, c, a);
    MulComm(a, b);
    MulComm(a, c);
  }

  lemma {:induction false} MulAssoc(a: Elem, b: Elem, c: Elem)
    ensures Mul(Mul(a, b), c) == Mul(a, Mul(b, c))
    decreases c
  {
    if c != 0 {
      var h := c >> 1;
      var low := if c & 1 == 1 then b else 0;
      MulStep(Mul(a, b), c);
      MulDouble(Mul(a, b), h);
      MulAssoc(a, b, h);
      MulStep(b, c);
      MulDouble(b, h);
      MulAddRight(a, low, Double(Mul(b, h)));
      MulComm(a, Double(Mul(b, h)));
      MulDouble(Mul(b, h), a);
      MulComm(Mul(b, h), a);
    }
  }

  // ---------- powers of alpha ----------

  lemma {:induction false} ExpAdd(i: nat, j: nat)
    ensures Exp(i + j) == Mul(Exp(i), Exp(j))
    decreases i
  {
    if i == 0 {
      MulOne(Exp(j));
    } else {
      ExpAdd(i - 1, j);
      MulDouble(Exp(i - 1), Exp(j));
    }
  }

  lemma {:induction false} ExpNonZero(i: nat)
    ensures Exp(i) != 0
  {
    if i > 0 {
      ExpNonZero(i - 1);
      DoubleInjective(Exp(i - 1), 0);
    }
  }

  function Double4(a: Elem): Elem {
    Double(Double(Double(Double(a))))
  }

  function Double17(a: Elem): Elem {
    Double(Double4(Double4(Double4(Double4(a)))))
  }

  function Double51(a: Elem): Elem {
    Double17(Double17(Double17(a)))
  }

  lemma ExpPlus4(i: nat)
    ensures Exp(i + 4) == Double4(Exp(i))
  {
    assert Exp(i + 4) == Double(Exp(i + 3));
    assert Exp(i + 3) == Double(Exp(i + 2));
    assert Exp(i + 2) == Double(Exp(i + 1));
  }

  lemma ExpPlus17(i: nat)
    ensures Exp(i + 17) == Double17(Exp(i))
  {
    ExpPlus4(i);
    ExpPlus4(i + 4);
    ExpPlus4(i + 8);
    ExpPlus4(i + 12);
    assert Exp(i + 17) == Double(Exp(i + 16));
  }

  lemma ExpPlus51(i: nat)
    ensures Exp(i + 51) == Double51(Exp(i))
  {
    ExpPlus17(i);
    ExpPlus17(i + 17);
    ExpPlus17(i + 34);
  }

  /** 255 is a period of the powers of alpha, and no maximal proper divisor of 255 is one. */
  lemma ExpValues()
    ensures Exp(15) != 1 && Exp(51) != 1 && Exp(85) != 1 && Exp(255) == 1
  {
    ExpPlus4(0);
    ExpPlus4(4);
    ExpPlus4(8);
    assert Exp(15) == Double(Exp(14)) && Exp(14) == Double(Exp(13)) && Exp(13) == Double(Exp(12));
    assert Exp(15) == 0x26;
    ExpPlus51(0);
    assert Exp(51) == 0x0a;
    ExpPlus17(51);
    ExpPlus17(68);
    assert Exp(85) == 0xd6;
    ExpPlus51(51);
    assert Exp(102) == 0x44;
    ExpPlus51(102);
    assert Exp(153) == 0x92;
    ExpPlus51(153);
    assert Exp(204) == 0xdd;
    ExpPlus51(204);
  }

  lemma ExpPeriodic(i: nat)
    ensures Exp(i + 255) == Exp(i)
  {
    ExpValues();
    ExpAdd(255, i);
    MulOne(Exp(i));
  }

  lemma {:induction false} ExpMultiple(d: nat, k: nat)
    requires Exp(d) == 1
    ensures Exp(d * k) == 1
  {
    if k > 0 {
      ExpMultiple(d, k - 1);
      assert d * k == d * (k - 1) + d;
      ExpAdd(d * (k - 1), d);
      MulOne(1);
    }
  }

  lemma PeriodDivides(d: nat, m: nat)
    requires 0 < d && m % d == 0 && Exp(d) == 1
    ensures Exp(m) == 1
  {
    ExpMultiple(d, m / d);
    assert d * (m / d) == m;
  }

  /** What a period leaves of a number is a period when the number is one. */
  lemma PeriodRemainder(d: nat, n: nat)
    requires 0 < d && Exp(d) == 1
    ensures Exp(n) == Exp(n % d)
  {
    ExpMultiple(d, n / d);
    assert d * (n / d) + n % d == n;
    ExpAdd(d * (n / d), n % d);
    MulOne(Exp(n % d));
  }

  /** A period shorter than 255 would lead, by remainders, to one that divides 15, 51 or 85. */
  lemma {:induction false} ExpOrder(d: nat)
    requires 0 < d < 255
    ensures Exp(d) != 1
    decreases d
  {
    if Exp(d) == 1 {
      ExpValues();
      PeriodRemainder(d, 255);
      if 255 % d > 0 {
        ExpOrder(255 % d);
      } else {
        ProperDivisor(d, 255 / d);
        if 15 % d == 0 {
          PeriodDivides(d, 15);
        } else if 51 % d == 0 {
          PeriodDivides(d, 51);
        } else {
          PeriodDivides(d, 85);
        }
      }
    }
  }

  lemma ProperDivisor(d: nat, q: nat)
    requires 0 < d < 255 && d * q == 255
    ensures 15 % d == 0 || 51 % d == 0 || 85 % d == 0
  {
    if d > 15 {
      assert q < 16;
      assert q == 3 || q == 5 || q == 15;
    }
  }

  lemma ExpInjective(i: nat, j: nat)
    requires i < j < i + 255
    ensures Exp(i) != Exp(j)
  {
    ExpOrder(j - i);
    ExpCancel(i, j - i);
  }

  lemma {:induction false} ExpCancel(i: nat, d: nat)
    ensures Exp(i) == Exp(i + d) ==> Exp(d) == 1
  {
    if i > 0 {
      ExpCancel(i - 1, d);
      DoubleInjective(Exp(i - 1), Exp(i - 1 + d));
    }
  }

  // ---------- every non-zero element is a power of alpha ----------

  ghost function Powers(n: nat): set<Elem> {
    if n == 0 then {} else Powers(n - 1) + {Exp(n - 1)}
  }

  ghost function Bytes(n: nat): set<Elem>
    requires n <= 255
  {
    if n == 0 then {} else Bytes(n - 1) + {n as bv8}
  }

  lemma {:induction false} PowersSize(n: nat)
    requires n <= 255
    ensures |Powers(n)| == n
  {
    if n > 0 {
      PowersSize(n - 1);
      if Exp(n - 1) in Powers(n - 1) {
        var i := PowersLog(n - 1, Exp(n - 1));
        ExpInjective(i, n - 1);
      }
    }
  }

  lemma {:induction false} PowersLog(n: nat, a: Elem) returns (i: nat)
    requires a in Powers(n)
    ensures i < n && Exp(i) == a && a != 0
  {
    if a == Exp(n - 1) {
      i := n - 1;
      ExpNonZero(i);
    } else {
      i := PowersLog(n - 1, a);
    }
  }

  lemma ByteRoundTrip(a: Elem)
    ensures 0 <= a as int < 256 && (a as int) as bv8 == a
  {
  }

  lemma {:induction false} BytesSize(n: nat)
    requires n <= 255
    ensures |Bytes(n)| <= n
  {
    if n > 0 {
      BytesSize(n - 1);
    }
  }

  lemma {:induction false} BytesContain(n: nat, k: nat)
    requires 0 < k <= n <= 255
    ensures k as bv8 in Bytes(n)
  {
    if k < n {
      BytesContain(n - 1, k);
    }
  }

  lemma SubsetOfSameSize<T>(s: set<T>, t: set<T>)
    requires s <= t && |t| <= |s|
    ensures s == t
  {
    assert t == s + (t - s);
    assert |t| == |s| + |t - s|;
  }

  /** The discrete logarithm exists: 255 distinct powers fill the 255 non-zero bytes. */
  lemma LogExists(a: Elem) returns (i: nat)
    requires a != 0
    ensures i < 255 && Exp(i) == a
  {
    PowersSize(255);
    BytesSize(255);
    forall b: Elem | b in Powers(255)
      ensures b in Bytes(255)
    {
      var _ := PowersLog(255, b);
      ByteRoundTrip(b);
      BytesContain(255, b as int);
    }
    SubsetOfSameSize(Powers(255), Bytes(255));
    ByteRoundTrip(a);
    BytesContain(255, a as int);
    i := PowersLog(255, a);
  }

  lemma NoZeroDivisors(a: Elem, b: Elem)
    requires a != 0 && b != 0
    ensures Mul(a, b) != 0
  {
    var i := LogExists(a);
    var j := LogExists(b);
    ExpAdd(i, j);
    ExpNonZero(i + j);
  }

  // ---------- the tables ----------

  /** Antilog and log table, as the encoder fills them once when it is loaded. */
  ghost predicate ValidTables(exp: seq<Elem>, log: seq<nat>) {
    && |exp| == 512
    && |log| == 256
    && (forall i: nat :: i < 512 ==> exp[i] == Exp(i))
    && (forall i: nat :: i < 255 ==> log[Exp(i) as int] == i)
  }

  /** The nine-bit step of the table loop is multiplication by alpha. */
  lemma TableStep(g: bv16)
    requires g < 0x100
    ensures var h := g << 1; var k := if h & 0x100 != 0 then h ^ 0x11d else h;
            k < 0x100 && k as bv8 == Double(g as bv8)
  {
  }

  lemma PowersDistinct(i: nat)
    requires i < 255
    ensures forall k: nat :: k < i ==> Exp(k) as int != Exp(i) as int
  {
    forall k: nat | k < i
      ensures Exp(k) as int != Exp(i) as int
    {
      ExpInjective(k, i);
      ByteRoundTrip(Exp(k));
      ByteRoundTrip(Exp(i));
    }
  }

  /** Enters one power and its logarithm; no earlier logarithm is overwritten. */
  method Record(exp: array<Elem>, log: array<nat>, i: nat, power: Elem)
    requires exp.Length == 512 && log.Length == 256 && i < 255 && power == Exp(i)
    requires forall k: nat :: k < i ==> exp[k] == Exp(k) && log[Exp(k) as int] == k
    modifies exp, log
    ensures forall k: nat :: k <= i ==> exp[k] == Exp(k) && log[Exp(k) as int] == k
  {
    PowersDistinct(i);
    exp[i] := power;
    log[power as int] := i;
  }

  method InitTables() returns (exp: array<Elem>, log: array<nat>)
    ensures fresh(exp) && fresh(log)
    ensures ValidTables(exp[..], log[..])
  {
    exp := new Elem[512];
    log := new nat[256];
    var g: bv16 := 1;
    for i := 0 to 255
      invariant g < 0x100 && g as bv8 == Exp(i)
      invariant forall k: nat :: k < i ==> exp[k] == Exp(k) && log[Exp(k) as int] == k
    {
      TableStep(g);
      Record(exp, log, i, g as bv8);
      g := g << 1;
      if g & 0x100 != 0 {
        g := g ^ 0x11d;
      }
    }
    RepeatPeriod(exp);
  }

  /** The second loop of the table set-up: the sum of two logarithms needs no reduction modulo 255. */
  method RepeatPeriod(exp: array<Elem>)
    requires exp.Length == 512
    requires forall k: nat :: k < 255 ==> exp[k] == Exp(k)
    modifies exp
    ensures forall k: nat :: k < 512 ==> exp[k] == Exp(k)
  {
    for i := 255 to 512
      invariant forall k: nat :: k < i ==> exp[k] == Exp(k)
    {
      ExpPeriodic(i - 255);
      assert exp[i - 255] == Exp(i);
      exp[i] := exp[i - 255];
    }
  }

  function Gmul(exp: seq<Elem>, log: seq<nat>, a: Elem, b: Elem): Elem
    requires ValidTables(exp, log)
  {
    if a == 0 || b == 0 then 0
    else
      LogInRange(exp, log, a);
      LogInRange(exp, log, b);
      exp[log[a as int] + log[b as int]]
  }

  lemma LogInRange(exp: seq<Elem>, log: seq<nat>, a: Elem)
    requires ValidTables(exp, log) && a != 0
    ensures 0 <= a as int < 256 && log[a as int] < 255 && Exp(log[a as int]) == a
  {
    var i := LogExists(a);
  }

  /** The table-driven product is multiplication modulo 0x11d. */
  lemma GmulIsMul(exp: seq<Elem>, log: seq<nat>, a: Elem, b: Elem)
    requires ValidTables(exp, log)
    ensures Gmul(exp, log, a, b) == Mul(a, b)
  {
    if a == 0 || b == 0 {
      MulZero(b);
    } else {
      LogInRange(exp, log, a);
      LogInRange(exp, log, b);
      ExpAdd(log[a as int], log[b as int]);
    }
  }
}
