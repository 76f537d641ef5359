/** The minimum distance of the code: two different codewords of at most 255 symbols with ec check
    symbols differ in at least ec + 1 positions, so the check symbols are unique and ec / 2 wrong
    symbols can be corrected. */
module ReedSolomonDistance {
  import opened Gf256
  import opened ReedSolomon

  /** The number of non-zero symbols. */
  function Weight(y: seq<Elem>): nat {
    if y == [] then 0 else Weight(y[..|y| - 1]) + (if y[|y| - 1] == 0 then 0 else 1)
  }

  /** The number of positions in which two words differ. */
  function Distance(a: seq<Elem>, b: seq<Elem>): nat
    requires |a| == |b|
  {
    if a == [] then 0
    else Distance(a[..|a| - 1], b[..|b| - 1]) + (if a[|a| - 1] == b[|b| - 1] then 0 else 1)
  }

  lemma {:induction false} DistanceIsWeight(a: seq<Elem>, b: seq<Elem>)
    requires |a| == |b|
    ensures Distance(a, b) == Weight(Xor(a, b))
  {
    if a != [] {
      var n := |a| - 1;
      DistanceIsWeight(a[..n], b[..n]);
      assert Xor(a, b)[..n] == Xor(a[..n], b[..n]);
      AddIsZero(a[n], b[n]);
    }
  }

  lemma AddIsZero(a: Elem, b: Elem)
    ensures Add(a, b) == 0 <==> a == b
  {
  }

  // ---------- power sums ----------

  /** The sum of y[j] * X_j^i over a prefix y of a word of n symbols, where X_j = alpha^(n-1-j). */
  function PowerSum(y: seq<Elem>, n: nat, i: nat): Elem
    requires |y| <= n
  {
    if y == [] then 0
    else
      var k := |y| - 1;
      Add(PowerSum(y[..k], n, i), Mul(y[k], Exp((n - |y|) * i)))
  }

  /** Evaluation at alpha^i is the power sum over all positions. */
  lemma {:induction false} PowerSumIsEval(y: seq<Elem>, n: nat, i: nat)
    requires |y| <= n
    ensures PowerSum(y, n, i) == Mul(Eval(y, Exp(i)), Exp((n - |y|) * i))
  {
    hide Mul, Double, Add, Exp;
    if y == [] {
      MulZero(Exp(n * i));
    } else {
      var k, m := |y| - 1, n - |y|;
      var e := Eval(y[..k], Exp(i));
      PowerSumIsEval(y[..k], n, i);
      assert (m + 1) * i == i + m * i;
      ExpAdd(i, m * i);
      MulAssoc(e, Exp(i), Exp(m * i));
      MulAddLeft(Mul(e, Exp(i)), y[k], Exp(m * i));
    }
  }

  /** Every symbol multiplied by the difference between its locator and the locator of position p. */
  function Eliminate(y: seq<Elem>, n: nat, p: nat): seq<Elem>
    requires |y| <= n && p < n
  {
    seq(|y|, j requires 0 <= j < |y| => Mul(y[j], Add(Exp(n - 1 - j), Exp(n - 1 - p))))
  }

  lemma {:induction false} EliminateSum(y: seq<Elem>, n: nat, p: nat, i: nat)
    requires |y| <= n && p < n
    ensures PowerSum(Eliminate(y, n, p), n, i)
         == Add(PowerSum(y, n, i + 1), Mul(Exp(n - 1 - p), PowerSum(y, n, i)))
  {
    hide Mul, Double, Add, Exp;
    var q := Exp(n - 1 - p);
    if y == [] {
      MulComm(q, 0);
      MulZero(q);
      AddLaws(0, 0, 0);
    } else {
      var k, m := |y| - 1, n - |y|;
      EliminateSum(y[..k], n, p, i);
      assert Eliminate(y, n, p)[..k] == Eliminate(y[..k], n, p);
      EliminateTerm(y[k], Exp(m), q, Exp(m * i));
      assert m * (i + 1) == m + m * i;
      ExpAdd(m, m * i);
      var s, t := PowerSum(y[..k], n, i + 1), PowerSum(y[..k], n, i);
      MulAddRight(q, t, Mul(y[k], Exp(m * i)));
      AddInterchange(s, Mul(q, t), Mul(y[k], Exp(m * (i + 1))), Mul(q, Mul(y[k], Exp(m * i))));
    }
  }

  /** y (x + q) z = y (x z) + q (y z) */
  lemma EliminateTerm(y: Elem, x: Elem, q: Elem, z: Elem)
    ensures Mul(Mul(y, Add(x, q)), z) == Add(Mul(y, Mul(x, z)), Mul(q, Mul(y, z)))
  {
    hide Mul, Double, Add;
    MulAddRight(y, x, q);
    MulAddLeft(Mul(y, x), Mul(y, q), z);
    MulAssoc(y, x, z);
    MulComm(y, q);
    MulAssoc(q, y, z);
  }

  /** Elimination keeps zero symbols zero, clears position p, and nothing else when n <= 255. */
  lemma EliminateZeros(y: seq<Elem>, p: nat)
    requires p < |y| <= 255
    ensures forall j :: 0 <= j < |y| ==> (Eliminate(y, |y|, p)[j] == 0 <==> y[j] == 0 || j == p)
  {
    hide Mul, Double, Add, Exp;
    var n := |y|;
    forall j | 0 <= j < n
      ensures Eliminate(y, n, p)[j] == 0 <==> y[j] == 0 || j == p
    {
      var d := Add(Exp(n - 1 - j), Exp(n - 1 - p));
      AddIsZero(Exp(n - 1 - j), Exp(n - 1 - p));
      if j < p {
        ExpInjective(n - 1 - p, n - 1 - j);
      } else if p < j {
        ExpInjective(n - 1 - j, n - 1 - p);
      }
      MulZero(d);
      MulComm(y[j], 0);
      MulZero(y[j]);
      if y[j] != 0 && d != 0 {
        NoZeroDivisors(y[j], d);
      }
    }
  }

  lemma {:induction false} WeightMonotone(y: seq<Elem>, z: seq<Elem>)
    requires |y| == |z|
    requires forall j :: 0 <= j < |y| && y[j] == 0 ==> z[j] == 0
    ensures Weight(z) <= Weight(y)
    ensures (exists j :: 0 <= j < |y| && y[j] != 0 && z[j] == 0) ==> Weight(z) < Weight(y)
  {
    if y != [] {
      WeightMonotone(y[..|y| - 1], z[..|y| - 1]);
    }
  }

  /** A word with one non-zero symbol has that symbol as its sum. */
  lemma {:induction false} SingleSum(y: seq<Elem>, n: nat, p: nat)
    requires |y| <= n
    requires forall j :: 0 <= j < |y| && j != p ==> y[j] == 0
    ensures PowerSum(y, n, 0) == if p < |y| then y[p] else 0
  {
    hide Mul, Double, Add;
    if y != [] {
      var k := |y| - 1;
      SingleSum(y[..k], n, p);
      assert (n - |y|) * 0 == 0;
      MulComm(y[k], 1);
      MulOne(y[k]);
      AddLaws(PowerSum(y[..k], n, 0), 0, 0);
      AddLaws(0, y[k], 0);
      AddLaws(y[k], 0, 0);
    }
  }

  // ---------- the distance theorem ----------

  /** A word of weight at most k whose first k power sums vanish is zero. */
  lemma {:induction false} LightWordIsZero(y: seq<Elem>, k: nat)
    requires |y| <= 255 && Weight(y) <= k
    requires forall i: nat :: i < k ==> PowerSum(y, |y|, i) == 0
    ensures forall j :: 0 <= j < |y| ==> y[j] == 0
    decreases k
  {
    hide Mul, Double, Add, Exp;
    if p: nat :| p < |y| && y[p] != 0 {
      var n := |y|;
      var z := Eliminate(y, n, p);
      EliminateZeros(y, p);
      WeightMonotone(y, z);
      forall i: nat | i < k - 1
        ensures PowerSum(z, n, i) == 0
      {
        EliminateSum(y, n, p, i);
        MulComm(Exp(n - 1 - p), 0);
        MulZero(Exp(n - 1 - p));
        AddLaws(0, 0, 0);
      }
      LightWordIsZero(z, k - 1);
      SingleSum(y, n, p);
    }
  }

  /** A non-zero word that vanishes at ec consecutive powers of alpha has more than ec symbols. */
  lemma VanishingWeight(y: seq<Elem>, ec: nat)
    requires |y| <= 255 && Vanishes(y, ec)
    requires exists j :: 0 <= j < |y| && y[j] != 0
    ensures Weight(y) >= ec + 1
  {
    hide Mul, Double, Add, Exp;
    if Weight(y) <= ec {
      forall i: nat | i < ec
        ensures PowerSum(y, |y|, i) == 0
      {
        PowerSumIsEval(y, |y|, i);
        MulZero(Exp((|y| - |y|) * i));
      }
      LightWordIsZero(y, ec);
    }
  }

  lemma MinimumDistance(c: seq<Elem>, d: seq<Elem>, ec: nat)
    requires |c| == |d| <= 255 && Vanishes(c, ec) && Vanishes(d, ec)
    requires c != d
    ensures Distance(c, d) >= ec + 1
  {
    hide Mul, Double, Exp;
    var y := Xor(c, d);
    forall i: nat | i < ec
      ensures Eval(y, Exp(i)) == 0
    {
      EvalXor(c, d, Exp(i));
      AddLaws(0, 0, 0);
    }
    var j :| 0 <= j < |c| && c[j] != d[j];
    AddIsZero(c[j], d[j]);
    assert y[j] != 0;
    VanishingWeight(y, ec);
    DistanceIsWeight(c, d);
  }

  /** Codewords of different data blocks are more than ec symbols apart. */
  lemma CodewordDistance(data: seq<Elem>, parity: seq<Elem>, data': seq<Elem>, parity': seq<Elem>, ec: nat)
    requires |data| == |data'| && |parity| == |parity'| == ec && |data| + ec <= 255
    requires Vanishes(data + parity, ec) && Vanishes(data' + parity', ec)
    requires data != data'
    ensures Distance(data + parity, data' + parity') >= ec + 1
  {
    assert (data + parity)[..|data|] == data && (data' + parity')[..|data|] == data';
    MinimumDistance(data + parity, data' + parity', ec);
  }

  /** Only one choice of check symbols completes a data block, so the encoder computes a function. */
  lemma ParityUnique(data: seq<Elem>, parity: seq<Elem>, parity': seq<Elem>, ec: nat)
    requires |parity| == |parity'| == ec && |data| + ec <= 255
    requires Vanishes(data + parity, ec) && Vanishes(data + parity', ec)
    ensures parity == parity'
  {
    var c, d := data + parity, data + parity';
    if parity != parity' {
      assert c[|data|..] == parity && d[|data|..] == parity';
      MinimumDistance(c, d, ec);
      DistanceOfTails(data, parity, parity');
    }
  }

  lemma {:induction false} DistanceOfTails(data: seq<Elem>, p: seq<Elem>, q: seq<Elem>)
    requires |p| == |q|
    ensures Distance(data + p, data + q) <= |p|
  {
    var a, b := data + p, data + q;
    if p == [] {
      assert a == b;
      DistanceToSelf(a);
    } else {
      var k := |p| - 1;
      DistanceOfTails(data, p[..k], q[..k]);
      assert a[..|a| - 1] == data + p[..k] && b[..|b| - 1] == data + q[..k];
    }
  }

  lemma {:induction false} DistanceToSelf(a: seq<Elem>)
    ensures Distance(a, a) == 0
  {
    if a != [] {
      DistanceToSelf(a[..|a| - 1]);
    }
  }

  lemma {:induction false} DistanceTriangle(a: seq<Elem>, b: seq<Elem>, w: seq<Elem>)
    requires |a| == |b| == |w|
    ensures Distance(a, b) <= Distance(w, a) + Distance(w, b)
  {
    if a != [] {
      var k := |a| - 1;
      DistanceTriangle(a[..k], b[..k], w[..k]);
    }
  }

  /** A received word is within ec / 2 symbols of at most one codeword. */
  lemma CorrectionUnique(word: seq<Elem>, c: seq<Elem>, d: seq<Elem>, ec: nat)
    requires |word| == |c| == |d| <= 255
    requires Vanishes(c, ec) && Vanishes(d, ec)
    requires 2 * Distance(word, c) <= ec && 2 * Distance(word, d) <= ec
    ensures c == d
  {
    if c != d {
      MinimumDistance(c, d, ec);
      DistanceTriangle(c, d, word);
    }
  }
}
