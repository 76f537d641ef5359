/** Reed-Solomon encoding over GF(2^8): generator polynomials, systematic encoding by in-place
    synthetic division, and the minimum distance of the resulting code. */
module ReedSolomon {
  import opened Gf256

  // ---------- polynomials, highest coefficient first ----------

  function Eval(p: seq<Elem>, x: Elem): Elem {
    if p == [] then 0 else Add(Mul(Eval(p[..|p| - 1], x), x), p[|p| - 1])
  }

  function Xor(p: seq<Elem>, q: seq<Elem>): (r: seq<Elem>)
    requires |p| == |q|
  {
    seq(|p|, i requires 0 <= i < |p| => Add(p[i], q[i]))
  }

  function Scale(p: seq<Elem>, c: Elem): seq<Elem> {
    seq(|p|, i requires 0 <= i < |p| => Mul(c, p[i]))
  }

  function Zeros(n: nat): seq<Elem> {
    seq(n, _ => 0)
  }

  lemma EvalSnoc(p: seq<Elem>, b: Elem, x: Elem)
    ensures Eval(p + [b], x) == Add(Mul(Eval(p, x), x), b)
  {
    assert (p + [b])[..|p|] == p;
  }

  lemma {:induction false} EvalXor(p: seq<Elem>, q: seq<Elem>, x: Elem)
    requires |p| == |q|
    ensures Eval(Xor(p, q), x) == Add(Eval(p, x), Eval(q, x))
  {
    if p != [] {
      var n := |p| - 1;
      var u, v := Eval(p[..n], x), Eval(q[..n], x);
      EvalXor(p[..n], q[..n], x);
      assert Xor(p, q) == Xor(p[..n], q[..n]) + [Add(p[n], q[n])];
      EvalSnoc(Xor(p[..n], q[..n]), Add(p[n], q[n]), x);
      MulAddLeft(u, v, x);
      AddInterchange(Mul(u, x), Mul(v, x), p[n], q[n]);
    }
  }

  lemma {:induction false} EvalScale(p: seq<Elem>, c: Elem, x: Elem)
    ensures Eval(Scale(p, c), x) == Mul(c, Eval(p, x))
  {
    if p == [] {
      MulComm(c, 0);
      MulZero(c);
    } else {
      var n := |p| - 1;
      EvalScale(p[..n], c, x);
      assert Scale(p, c) == Scale(p[..n], c) + [Mul(c, p[n])];
      EvalSnoc(Scale(p[..n], c), Mul(c, p[n]), x);
      MulAssoc(c, Eval(p[..n], x), x);
      MulAddRight(c, Mul(Eval(p[..n], x), x), p[n]);
    }
  }

  /** Leading zeros do not matter. */
  lemma {:induction false} EvalLeadingZeros(n: nat, p: seq<Elem>, x: Elem)
    ensures Eval(Zeros(n) + p, x) == Eval(p, x)
    decreases n + |p|
  {
    if p == [] {
      assert Zeros(n) + p == Zeros(n);
      if n > 0 {
        assert Zeros(n) == Zeros(n - 1) + [0] && Zeros(n - 1) + [] == Zeros(n - 1);
        EvalLeadingZeros(n - 1, [], x);
        EvalSnoc(Zeros(n - 1), 0, x);
        MulZero(x);
      }
    } else {
      var k := |p| - 1;
      assert Zeros(n) + p == (Zeros(n) + p[..k]) + [p[k]];
      EvalLeadingZeros(n, p[..k], x);
      EvalSnoc(Zeros(n) + p[..k], p[k], x);
    }
  }

  /** A root stays a root when trailing zeros are appended. */
  lemma {:induction false} EvalTrailingZeros(p: seq<Elem>, n: nat, x: Elem)
    requires Eval(p, x) == 0
    ensures Eval(p + Zeros(n), x) == 0
  {
    if n == 0 {
      assert p + Zeros(0) == p;
    } else {
      EvalTrailingZeros(p, n - 1, x);
      assert p + Zeros(n) == (p + Zeros(n - 1)) + [0];
      EvalSnoc(p + Zeros(n - 1), 0, x);
      MulZero(x);
    }
  }

  // ---------- the generator polynomial ----------

  /** p * (x + r), coefficient by coefficient. */
  function TimesLinear(p: seq<Elem>, r: Elem): seq<Elem> {
    Xor(p + [0], [0] + Scale(p, r))
  }

  lemma EvalTimesLinear(p: seq<Elem>, r: Elem, x: Elem)
    ensures Eval(TimesLinear(p, r), x) == Mul(Eval(p, x), Add(x, r))
  {
    EvalXor(p + [0], [0] + Scale(p, r), x);
    EvalSnoc(p, 0, x);
    assert [0] + Scale(p, r) == Zeros(1) + Scale(p, r);
    EvalLeadingZeros(1, Scale(p, r), x);
    EvalScale(p, r, x);
    MulComm(r, Eval(p, x));
    MulAddRight(Eval(p, x), x, r);
  }

  ghost predicate Vanishes(p: seq<Elem>, n: nat) {
    forall i: nat :: i < n ==> Eval(p, Exp(i)) == 0
  }

  lemma VanishesExtend(p: seq<Elem>, n: nat)
    requires Vanishes(p, n)
    ensures Vanishes(TimesLinear(p, Exp(n)), n + 1)
  {
    forall i: nat | i < n + 1
      ensures Eval(TimesLinear(p, Exp(n)), Exp(i)) == 0
    {
      EvalTimesLinear(p, Exp(n), Exp(i));
      if i == n {
        MulComm(Eval(p, Exp(n)), 0);
      }
      MulZero(Add(Exp(i), Exp(n)));
      MulZero(Eval(p, Exp(i)));
    }
  }

  /** The coefficients of p * (x + r) that j rounds of the inner loop have settled. */
  ghost predicate PartialProduct(next: seq<Elem>, p: seq<Elem>, r: Elem, j: nat)
    requires j <= |p|
  {
    && |next| == |p| + 1
    && (forall k :: 0 <= k < j ==> next[k] == TimesLinear(p, r)[k])
    && next[j] == (if j == 0 then 0 else Mul(r, p[j - 1]))
    && (forall k :: j < k <= |p| ==> next[k] == 0)
  }

  lemma PartialProductStep(next: seq<Elem>, p: seq<Elem>, r: Elem, j: nat)
    requires j < |p| && PartialProduct(next, p, r, j)
    ensures PartialProduct(next[j := Add(next[j], p[j])][j + 1 := Add(next[j + 1], Mul(r, p[j]))], p, r, j + 1)
  {
    hide Mul, Double, TimesLinear, Add;
    AddLaws(next[j], p[j], 0);
    AddLaws(Mul(r, p[j]), 0, 0);
    TimesLinearAt(p, r, j);
  }

  lemma TimesLinearAt(p: seq<Elem>, r: Elem, j: nat)
    requires j < |p|
    ensures |TimesLinear(p, r)| == |p| + 1
    ensures TimesLinear(p, r)[j] == Add(p[j], if j == 0 then 0 else Mul(r, p[j - 1]))
  {
    hide Mul, Add;
  }

  lemma PartialProductDone(next: seq<Elem>, p: seq<Elem>, r: Elem)
    requires p != [] && PartialProduct(next, p, r, |p|)
    ensures next == TimesLinear(p, r)
  {
    hide Mul, Double;
    AddLaws(next[|p|], 0, 0);
    assert TimesLinear(p, r)[|p|] == Add(0, next[|p|]);
  }

  method GeneratorPolynomial(exp: seq<Elem>, log: seq<nat>, ecCount: nat) returns (poly: seq<Elem>)
    requires ValidTables(exp, log) && ecCount <= 512
    ensures |poly| == ecCount + 1
    ensures poly[0] == 1
    ensures Vanishes(poly, ecCount)
  {
    poly := [1];
    for i := 0 to ecCount
      invariant |poly| == i + 1 && poly[0] == 1
      invariant Vanishes(poly, i)
    {
      poly := NextFactor(exp, log, poly, i);
    }
  }

  /** One round of the outer loop: multiply by the factor whose root is the i-th power of alpha. */
  method NextFactor(exp: seq<Elem>, log: seq<nat>, poly: seq<Elem>, i: nat) returns (next: seq<Elem>)
    requires ValidTables(exp, log) && i < 512
    requires |poly| == i + 1 && poly[0] == 1 && Vanishes(poly, i)
    ensures |next| == i + 2 && next[0] == 1 && Vanishes(next, i + 1)
  {
    hide Mul, Double;
    next := Zeros(|poly| + 1);
    for j := 0 to |poly|
      invariant PartialProduct(next, poly, Exp(i), j)
    {
      GmulIsMul(exp, log, poly[j], 1);
      MulComm(poly[j], 1);
      MulOne(poly[j]);
      GmulIsMul(exp, log, poly[j], exp[i]);
      MulComm(poly[j], exp[i]);
      PartialProductStep(next, poly, Exp(i), j);
      next := next[j := Add(next[j], Gmul(exp, log, poly[j], 1))];
      next := next[j + 1 := Add(next[j + 1], Gmul(exp, log, poly[j], exp[i]))];
    }
    PartialProductDone(next, poly, Exp(i));
    VanishesExtend(poly, i);
    AddLaws(poly[0], 0, 0);
  }

  // ---------- systematic encoding ----------

  /** gen scaled by coef, aligned with position i of a message of n data and |gen| - 1 check symbols. */
  function Aligned(gen: seq<Elem>, coef: Elem, i: nat, n: nat): seq<Elem>
    requires i < n
  {
    Zeros(i) + Scale(gen, coef) + Zeros(n - 1 - i)
  }

  /** Subtracting an aligned multiple of the generator changes no syndrome. */
  lemma SubtractionKeepsSyndromes(msg: seq<Elem>, gen: seq<Elem>, coef: Elem, i: nat, n: nat, ecCount: nat)
    requires i < n && |gen| == ecCount + 1 && |msg| == n + ecCount && Vanishes(gen, ecCount)
    ensures forall r: nat :: r < ecCount ==>
      Eval(Xor(msg, Aligned(gen, coef, i, n)), Exp(r)) == Eval(msg, Exp(r))
  {
    hide Mul, Double, Add;
    forall r: nat | r < ecCount
      ensures Eval(Xor(msg, Aligned(gen, coef, i, n)), Exp(r)) == Eval(msg, Exp(r))
    {
      var x := Exp(r);
      var scaled := Scale(gen, coef);
      EvalScale(gen, coef, x);
      MulComm(coef, 0);
      MulZero(coef);
      EvalTrailingZeros(scaled, n - 1 - i, x);
      assert Aligned(gen, coef, i, n) == Zeros(i) + (scaled + Zeros(n - 1 - i));
      EvalLeadingZeros(i, scaled + Zeros(n - 1 - i), x);
      EvalXor(msg, Aligned(gen, coef, i, n), x);
      AddLaws(Eval(msg, x), 0, 0);
    }
  }

  /** One step of the synthetic division, in place. */
  method Subtract(exp: seq<Elem>, log: seq<nat>, msg: array<Elem>, gen: seq<Elem>, i: nat, n: nat)
    requires ValidTables(exp, log)
    requires i < n && gen != [] && msg.Length == n + |gen| - 1
    modifies msg
    ensures msg[..] == Xor(old(msg[..]), Aligned(gen, old(msg[i]), i, n))
  {
    hide Mul, Double, Add;
    ghost var before := msg[..];
    var coef := msg[i];
    for j := 0 to |gen|
      invariant forall k :: 0 <= k < msg.Length ==>
        msg[k] == if i <= k < i + j then Add(before[k], Mul(coef, gen[k - i])) else before[k]
    {
      GmulIsMul(exp, log, coef, gen[j]);
      msg[i + j] := Add(msg[i + j], Gmul(exp, log, coef, gen[j]));
    }
    ghost var after := Xor(before, Aligned(gen, coef, i, n));
    forall k | 0 <= k < msg.Length
      ensures msg[k] == after[k]
    {
      AddLaws(before[k], 0, 0);
    }
  }

  /** The check symbols of a data block: what synthetic division by the generator leaves. */
  method RsEncode(exp: seq<Elem>, log: seq<nat>, data: seq<Elem>, ecCount: nat) returns (parity: seq<Elem>)
    requires ValidTables(exp, log) && ecCount <= 512
    ensures |parity| == ecCount
    ensures Vanishes(data + parity, ecCount)
  {
    var gen := GeneratorPolynomial(exp, log, ecCount);
    var n := |data|;
    var msg := new Elem[n + ecCount](k => if 0 <= k < n then data[k] else 0);
    ghost var padded := data + Zeros(ecCount);
    assert msg[..] == padded;
    for i := 0 to n
      invariant forall k :: 0 <= k < i ==> msg[k] == 0
      invariant forall r: nat :: r < ecCount ==> Eval(msg[..], Exp(r)) == Eval(padded, Exp(r))
    {
      ghost var before := msg[..];
      var coef := msg[i];
      if coef == 0 {
        continue;
      }
      SubtractionKeepsSyndromes(before, gen, coef, i, n, ecCount);
      Subtract(exp, log, msg, gen, i, n);
      LeadingTermCancels(before, gen, i, n);
    }
    parity := msg[n..];
    assert msg[..] == Zeros(n) + parity;
    RemainderCompletes(data, parity, ecCount);
  }

  /** A monic divisor clears position i and leaves the positions before it alone. */
  lemma LeadingTermCancels(msg: seq<Elem>, gen: seq<Elem>, i: nat, n: nat)
    requires i < n && gen != [] && gen[0] == 1 && |msg| == n + |gen| - 1
    ensures Xor(msg, Aligned(gen, msg[i], i, n))[i] == 0
    ensures forall k :: 0 <= k < i ==> Xor(msg, Aligned(gen, msg[i], i, n))[k] == msg[k]
  {
    hide Mul, Double;
    MulComm(msg[i], 1);
    MulOne(msg[i]);
    AddLaws(msg[i], 0, 0);
  }

  lemma RemainderCompletes(data: seq<Elem>, parity: seq<Elem>, ecCount: nat)
    requires |parity| == ecCount
    requires forall r: nat :: r < ecCount ==>
      Eval(Zeros(|data|) + parity, Exp(r)) == Eval(data + Zeros(ecCount), Exp(r))
    ensures Vanishes(data + parity, ecCount)
  {
    hide Mul, Double;
    forall r: nat | r < ecCount
      ensures Eval(data + parity, Exp(r)) == 0
    {
      var p, q := Zeros(|data|) + parity, data + Zeros(ecCount);
      EvalXor(p, q, Exp(r));
      forall k | 0 <= k < |p|
        ensures Xor(p, q)[k] == (data + parity)[k]
      {
        AddLaws(q[k], p[k], 0);
      }
      assert Xor(p, q) == data + parity;
      AddLaws(Eval(p, Exp(r)), 0, 0);
    }
  }
}
