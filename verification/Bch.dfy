/** The BCH check digits of format and version information (Annexes C and D of ISO/IEC 18004):
    remainders of polynomials over GF(2), held as unsigned 32-bit integers. */
module Bch {
  import opened Bits

  const WORD: nat := 0x1_0000_0000
  const G15: nat := 0x537
  const G18: nat := 0x1f25
  const G15_MASK: nat := 0x5412

  /** The product of two polynomials over GF(2). */
  function Times(q: nat, g: nat): nat {
    if q == 0 then 0 else Xor(Low(q, g), Times(q / 2, 2 * g))
  }

  ghost predicate IsMultiple(w: nat, g: nat) {
    exists q: nat :: Times(q, g) == w
  }

  // ---------- products ----------

  lemma {:induction false} TimesDouble(q: nat, g: nat)
    ensures Times(q, 2 * g) == 2 * Times(q, g)
  {
    if q > 0 {
      TimesDouble(q / 2, 2 * g);
    }
    XorDouble(Low(q, g), Times(q / 2, 2 * g));
  }

  lemma {:induction false} TimesXor(p: nat, q: nat, g: nat)
    ensures Times(Xor(p, q), g) == Xor(Times(p, g), Times(q, g))
  {
    if p + q > 0 {
      var h := 2 * g;
      TimesXor(p / 2, q / 2, h);
      XorBits(p, q);
      TimesStep(p, g);
      TimesStep(q, g);
      TimesStep(Xor(p, q), g);
      XorSelf(g);
      XorZero(g);
      XorInterchange(Low(p, g), Times(p / 2, h), Low(q, g), Times(q / 2, h));
    }
  }

  function Low(q: nat, g: nat): nat {
    if q % 2 == 1 then g else 0
  }

  lemma TimesStep(q: nat, g: nat)
    ensures Times(q, g) == Xor(Low(q, g), Times(q / 2, 2 * g))
  {
  }

  lemma {:induction k} TimesPower(k: nat, g: nat)
    ensures Times(ShiftLeft(1, k), g) == ShiftLeft(g, k)
  {
    if k == 0 {
      XorZero(g);
    } else {
      TimesPower(k - 1, g);
      XorZero(Times(ShiftLeft(1, k - 1), 2 * g));
      TimesDouble(ShiftLeft(1, k - 1), g);
    }
  }

  // ---------- the encoder ----------

  method BchDigitCount(n: nat) returns (bits: nat)
    ensures bits == Digits(n)
  {
    bits := 0;
    var m := n;
    while m != 0
      invariant bits + Digits(m) == Digits(n)
    {
      bits := bits + 1;
      m := m / 2;
    }
  }

  /** The loop of the encoder: subtract the generator, aligned with the leading digit, until what is
      left is shorter than the generator. */
  method BchEncode(data: nat, generator: nat) returns (d: nat)
    requires 0 < generator < WORD
    ensures Digits(d) < Digits(generator)
    ensures IsMultiple(Xor(ShiftLeft(data, Digits(generator) - 1) % WORD, d), generator)
  {
    var g := BchDigitCount(generator);
    d := ShiftLeft(data, g - 1) % WORD;
    ghost var start, quotient := d, 0;
    XorSelf(d);
    var n := BchDigitCount(d);
    while n >= g
      invariant n == Digits(d)
      invariant Times(quotient, generator) == Xor(start, d)
      decreases n
    {
      SubtractAligned(start, d, quotient, generator, n - g);
      quotient := Xor(quotient, ShiftLeft(1, n - g));
      d := Xor(d, ShiftLeft(generator, n - g));
      n := BchDigitCount(d);
    }
  }

  lemma SubtractAligned(start: nat, d: nat, quotient: nat, g: nat, k: nat)
    requires g > 0 && Digits(d) == Digits(g) + k
    requires Times(quotient, g) == Xor(start, d)
    ensures Times(Xor(quotient, ShiftLeft(1, k)), g) == Xor(start, Xor(d, ShiftLeft(g, k)))
    ensures Digits(Xor(d, ShiftLeft(g, k))) < Digits(d)
  {
    TimesXor(quotient, ShiftLeft(1, k), g);
    TimesPower(k, g);
    XorAssoc(start, d, ShiftLeft(g, k));
    DigitsShift(g, k);
    LeadingDigitsCancel(d, ShiftLeft(g, k));
  }

  // ---------- the check digits determine a code ----------

  lemma {:induction false} DigitsOfProduct(q: nat, g: nat)
    requires q > 0 && g > 0
    ensures Digits(Times(q, g)) == Digits(q) + Digits(g) - 1 && Times(q, g) > 0
  {
    if q == 1 {
      XorZero(g);
      assert Times(0, 2 * g) == 0;
    } else {
      DigitsOfProduct(q / 2, 2 * g);
      var rest := Times(q / 2, 2 * g);
      XorZero(rest);
      if q % 2 == 1 {
        LongerWins(g, rest);
      }
    }
  }

  /** A remainder shorter than the generator is the only one that completes the data to a multiple. */
  lemma RemainderUnique(start: nat, d: nat, d': nat, g: nat)
    requires g > 0 && Digits(d) < Digits(g) && Digits(d') < Digits(g)
    requires IsMultiple(Xor(start, d), g) && IsMultiple(Xor(start, d'), g)
    ensures d == d'
  {
    var q: nat :| Times(q, g) == Xor(start, d);
    var q': nat :| Times(q', g) == Xor(start, d');
    TimesXor(q, q', g);
    SharedOperand(start, d, d');
    if Xor(q, q') > 0 {
      DigitsOfProduct(Xor(q, q'), g);
      ShorterStays(d, d', Digits(g) - 1);
    } else {
      XorIsZero(d, d');
    }
  }

  // ---------- format and version information ----------

  /** w is the codeword of the given data: its leading digits are the data, and the generator of
      degree k divides it. */
  ghost predicate IsCodeword(w: nat, data: nat, generator: nat, k: nat) {
    ShiftLeft(data, k) <= w < ShiftLeft(data + 1, k) && IsMultiple(w, generator)
  }

  lemma CodewordOf(data: nat, r: nat, generator: nat, k: nat)
    requires Digits(generator) == k + 1 && Digits(r) <= k
    requires ShiftLeft(data, k) < WORD
    requires IsMultiple(Xor(ShiftLeft(data, k) % WORD, r), generator)
    ensures IsCodeword(Or(ShiftLeft(data, k), r), data, generator, k)
  {
    hide Xor, Or, ShiftLeft, Digits, Times;
    var s := ShiftLeft(data, k);
    assert s % WORD == s;
    DigitsBound(r, k);
    OrIsXor(data, r, k);
    XorDisjoint(data, r, k);
    ShiftLeftAdd(data, 1, k);
  }

  lemma Generators(data: nat)
    ensures Digits(G15) == 11 && Digits(G18) == 13
    ensures ShiftLeft(data, 10) == 1024 * data && ShiftLeft(data, 12) == 4096 * data
    ensures ShiftLeft(1, 15) == 0x8000 && ShiftLeft(1, 18) == 0x40000
  {
    assert Digits(0x537) == 11;
    assert Digits(0x1f25) == 13;
    PowersOfTwo();
    ShiftLeftTimes(data, 10);
    ShiftLeftTimes(data, 12);
  }

  /** Fifteen format bits: level and mask pattern, ten check digits, and the fixed mask over all. */
  method FormatBits(levelBits: nat, maskPattern: nat) returns (f: nat)
    requires levelBits < 4 && maskPattern < 8
    ensures f < 0x8000
    ensures IsCodeword(Xor(f, G15_MASK), 8 * levelBits + maskPattern, G15, 10)
  {
    hide Xor, Or, ShiftLeft, Digits, Times;
    var data := 8 * levelBits + maskPattern;
    Generators(data);
    Generators(data + 1);
    var r := BchEncode(data, G15);
    CodewordOf(data, r, G15, 10);
    var w := Or(ShiftLeft(data, 10), r);
    f := Xor(w, G15_MASK);
    XorBelow(w, G15_MASK, 15);
    XorAssoc(w, G15_MASK, G15_MASK);
    XorSelf(G15_MASK);
    XorZero(w);
  }

  /** Eighteen version bits: the version and twelve check digits. */
  method VersionBits(version: nat) returns (v: nat)
    requires version < 64
    ensures v < 0x40000
    ensures IsCodeword(v, version, G18, 12)
  {
    Generators(version);
    Generators(version + 1);
    var r := BchEncode(version, G18);
    CodewordOf(version, r, G18, 12);
    v := Or(ShiftLeft(version, 12), r);
  }

  /** Data and generator determine the codeword. */
  lemma CodewordUnique(w: nat, w': nat, data: nat, generator: nat, k: nat)
    requires Digits(generator) == k + 1
    requires IsCodeword(w, data, generator, k) && IsCodeword(w', data, generator, k)
    ensures w == w'
  {
    var r := CheckDigits(w, data, k);
    var r' := CheckDigits(w', data, k);
    RemainderUnique(ShiftLeft(data, k), r, r', generator);
  }

  lemma CheckDigits(w: nat, data: nat, k: nat) returns (r: nat)
    requires ShiftLeft(data, k) <= w < ShiftLeft(data + 1, k)
    ensures Digits(r) <= k && w == Xor(ShiftLeft(data, k), r)
  {
    r := w - ShiftLeft(data, k);
    ShiftLeftAdd(data, 1, k);
    XorDisjoint(data, r, k);
    DigitsBound(r, k);
  }
}
