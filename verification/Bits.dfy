/** Unsigned integers as bit strings: the bitwise operators of the source, defined digit by digit. */
module Bits {

  /** Exclusive or, bit by bit. */
  function Xor(a: nat, b: nat): nat {
    if a == 0 && b == 0 then 0 else 2 * Xor(a / 2, b / 2) + (if a % 2 == b % 2 then 0 else 1)
  }

  /** The number of binary digits; 0 for zero. */
  function Digits(n: nat): nat {
    if n == 0 then 0 else 1 + Digits(n / 2)
  }

  function ShiftLeft(n: nat, k: nat): nat {
    if k == 0 then n else 2 * ShiftLeft(n, k - 1)
  }

  // ---------- shifts ----------

  lemma {:induction k} ShiftLeftAdd(a: nat, b: nat, k: nat)
    ensures ShiftLeft(a + b, k) == ShiftLeft(a, k) + ShiftLeft(b, k)
  {
  }

  lemma {:induction k} ShiftLeftTimes(a: nat, k: nat)
    ensures ShiftLeft(a, k) == ShiftLeft(1, k) * a
  {
  }

  lemma PowersOfTwo()
    ensures ShiftLeft(1, 10) == 1024 && ShiftLeft(1, 12) == 4096
    ensures ShiftLeft(1, 15) == 0x8000 && ShiftLeft(1, 18) == 0x40000
  {
    assert ShiftLeft(1, 4) == 16;
    assert ShiftLeft(1, 8) == 256;
    assert ShiftLeft(1, 12) == 4096;
    assert ShiftLeft(1, 16) == 0x10000;
  }

  // ---------- exclusive or ----------

  lemma {:induction a, b} XorComm(a: nat, b: nat)
    ensures Xor(a, b) == Xor(b, a)
  {
  }

  lemma {:induction a} XorZero(a: nat)
    ensures Xor(a, 0) == a && Xor(0, a) == a
  {
  }

  lemma {:induction a} XorSelf(a: nat)
    ensures Xor(a, a) == 0
  {
  }

  lemma XorBits(a: nat, b: nat)
    ensures Xor(a, b) / 2 == Xor(a / 2, b / 2)
    ensures Xor(a, b) % 2 == if a % 2 == b % 2 then 0 else 1
  {
  }

  lemma {:induction false} XorAssoc(a: nat, b: nat, c: nat)
    ensures Xor(Xor(a, b), c) == Xor(a, Xor(b, c))
    decreases a + b + c
  {
    if a + b + c > 0 {
      XorAssoc(a / 2, b / 2, c / 2);
      XorBits(a, b);
      XorBits(b, c);
      XorBits(Xor(a, b), c);
      XorBits(a, Xor(b, c));
    }
  }

  lemma XorDouble(a: nat, b: nat)
    ensures Xor(2 * a, 2 * b) == 2 * Xor(a, b)
  {
  }

  lemma XorInterchange(a: nat, b: nat, c: nat, d: nat)
    ensures Xor(Xor(a, b), Xor(c, d)) == Xor(Xor(a, c), Xor(b, d))
  {
    XorAssoc(a, b, Xor(c, d));
    XorAssoc(b, c, d);
    XorComm(b, c);
    XorAssoc(c, b, d);
    XorAssoc(a, c, Xor(b, d));
  }

  /** When the low k bits of a are clear and b is below 2^k, the two do not meet. */
  lemma {:induction false} XorDisjoint(a: nat, b: nat, k: nat)
    requires b < ShiftLeft(1, k)
    ensures Xor(ShiftLeft(a, k), b) == ShiftLeft(a, k) + b
    decreases k
  {
    if k == 0 {
      XorZero(a);
    } else {
      XorDisjoint(a, b / 2, k - 1);
    }
  }

  // ---------- digits ----------

  lemma {:induction k} DigitsShift(n: nat, k: nat)
    requires n > 0
    ensures Digits(ShiftLeft(n, k)) == Digits(n) + k && ShiftLeft(n, k) > 0
  {
  }

  lemma {:induction false} DigitsBound(n: nat, k: nat)
    ensures Digits(n) <= k <==> n < ShiftLeft(1, k)
    decreases k
  {
    if k > 0 {
      DigitsBound(n / 2, k - 1);
      if n == 0 {
        DigitsBound(0, k - 1);
      }
    }
  }

  /** Equal leading digits cancel. */
  lemma {:induction a, b} LeadingDigitsCancel(a: nat, b: nat)
    requires a > 0 && Digits(a) == Digits(b)
    ensures Digits(Xor(a, b)) < Digits(a)
  {
  }

  /** The longer operand decides the length of an exclusive or. */
  lemma {:induction false} LongerWins(a: nat, b: nat)
    requires Digits(a) < Digits(b)
    ensures Digits(Xor(a, b)) == Digits(b)
  {
    XorBits(a, b);
    if a == 0 {
      XorZero(b);
    } else {
      LongerWins(a / 2, b / 2);
    }
    hide Xor;
  }

  lemma SharedOperand(s: nat, a: nat, b: nat)
    ensures Xor(Xor(s, a), Xor(s, b)) == Xor(a, b)
  {
    XorInterchange(s, a, s, b);
    XorSelf(s);
    XorZero(Xor(a, b));
  }

  lemma {:induction a, b} XorIsZero(a: nat, b: nat)
    requires Xor(a, b) == 0
    ensures a == b
  {
  }

  lemma {:induction false} ShorterStays(a: nat, b: nat, k: nat)
    requires Digits(a) <= k && Digits(b) <= k
    ensures Digits(Xor(a, b)) <= k
  {
    if k > 0 {
      ShorterStays(a / 2, b / 2, k - 1);
    }
  }

  lemma {:induction a, b} XorBelow(a: nat, b: nat, k: nat)
    requires a < ShiftLeft(1, k) && b < ShiftLeft(1, k)
    ensures Xor(a, b) < ShiftLeft(1, k)
  {
    DigitsBound(a, k);
    DigitsBound(b, k);
    ShorterStays(a, b, k);
    DigitsBound(Xor(a, b), k);
  }

  // ---------- inclusive or ----------

  /** Inclusive or, bit by bit. */
  function Or(a: nat, b: nat): nat {
    if a == 0 && b == 0 then 0 else 2 * Or(a / 2, b / 2) + (if a % 2 == 0 && b % 2 == 0 then 0 else 1)
  }

  lemma {:induction a, b} OrZero(a: nat, b: nat)
    ensures Or(a, 0) == a && Or(0, b) == b
  {
  }

  /** Or and exclusive or agree where the operands have no common digit. */
  lemma {:induction false} OrIsXor(a: nat, b: nat, k: nat)
    requires Digits(b) <= k
    ensures Or(ShiftLeft(a, k), b) == Xor(ShiftLeft(a, k), b)
    decreases k
  {
    if k == 0 {
      OrZero(a, 0);
      XorZero(a);
    } else {
      OrIsXor(a, b / 2, k - 1);
    }
  }
  lemma {:induction false} OrBelow(a: nat, b: nat, k: nat)
    requires a < ShiftLeft(1, k) && b < ShiftLeft(1, k)
    ensures Or(a, b) < ShiftLeft(1, k)
  {
    if k > 0 {
      OrBelow(a / 2, b / 2, k - 1);
    }
  }

  // ---------- single digits ----------

  /** Digit k, counted from the least significant one: (n >>> k) & 1. */
  function Bit(n: nat, k: nat): bool {
    if k == 0 then n % 2 == 1 else Bit(n / 2, k - 1)
  }

  lemma {:induction k} BitOfZero(k: nat)
    ensures !Bit(0, k)
  {
  }

  lemma {:induction false} BitOr(a: nat, b: nat, k: nat)
    ensures Bit(Or(a, b), k) == (Bit(a, k) || Bit(b, k))
    decreases k
  {
    if a == 0 && b == 0 {
      BitOfZero(k);
    } else if k > 0 {
      BitOr(a / 2, b / 2, k - 1);
    }
  }

  lemma {:induction false} BitOfPower(m: nat, k: nat)
    ensures Bit(ShiftLeft(1, m), k) == (k == m)
    decreases m
  {
    if m == 0 {
      if k > 0 {
        BitOfZero(k - 1);
      }
    } else if k > 0 {
      BitOfPower(m - 1, k - 1);
    }
  }

  /** The len low digits, most significant first. */
  function BitsOf(n: nat, len: nat): seq<bool> {
    seq(len, i requires 0 <= i < len => Bit(n, len - 1 - i))
  }

  /** The number a bit string denotes, most significant bit first. */
  function Value(bits: seq<bool>): nat {
    if bits == [] then 0 else 2 * Value(bits[..|bits| - 1]) + (if bits[|bits| - 1] then 1 else 0)
  }

  lemma {:induction false} ValueOfBits(n: nat, len: nat)
    requires n < ShiftLeft(1, len)
    ensures Value(BitsOf(n, len)) == n
    decreases len
  {
    if len > 0 {
      ValueOfBits(n / 2, len - 1);
      var init := BitsOf(n, len)[..len - 1];
      forall i | 0 <= i < len - 1
        ensures init[i] == BitsOf(n / 2, len - 1)[i]
      {
        assert Bit(n, len - 1 - i) == Bit(n / 2, len - 2 - i);
      }
      assert init == BitsOf(n / 2, len - 1);
      assert BitsOf(n, len)[len - 1] == Bit(n, 0);
    }
  }
}
