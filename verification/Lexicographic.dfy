/** The order of sequences by their first difference. */
module Lexicographic {

  /** The first i elements agree; then one sequence ends first, or its next element comes before. */
  predicate DiffersAt<T(==)>(a: seq<T>, b: seq<T>, less: (T, T) -> bool, i: nat) {
    && i <= |a| && i <= |b| && a[..i] == b[..i]
    && ((i == |a| && i < |b|) || (i < |a| && i < |b| && less(a[i], b[i])))
  }

  predicate Before<T(==)>(a: seq<T>, b: seq<T>, less: (T, T) -> bool) {
    exists i :: 0 <= i <= |a| && DiffersAt(a, b, less, i)
  }

  ghost predicate IsStrict<T(!new)>(less: (T, T) -> bool) {
    && (forall x, y, z :: less(x, y) && less(y, z) ==> less(x, z))
    && (forall x :: !less(x, x))
  }

  ghost predicate IsTotal<T(!new)>(less: (T, T) -> bool) {
    forall x, y :: x != y ==> less(x, y) || less(y, x)
  }

  lemma BeforeTransitive<T(!new)>(a: seq<T>, b: seq<T>, c: seq<T>, less: (T, T) -> bool)
    requires IsStrict(less) && Before(a, b, less) && Before(b, c, less)
    ensures Before(a, c, less)
  {
    var i :| 0 <= i <= |a| && DiffersAt(a, b, less, i);
    var j :| 0 <= j <= |b| && DiffersAt(b, c, less, j);
    var k := if i < j then i else j;
    assert a[..k] == a[..i][..k] == b[..i][..k] == b[..j][..k] == c[..j][..k] == c[..k];
    if i < j {
      assert b[..j][i] == c[..j][i];
    } else if j < i {
      assert a[..i][j] == b[..i][j];
    }
    assert DiffersAt(a, c, less, k);
  }

  lemma BeforeIrreflexive<T(!new)>(a: seq<T>, less: (T, T) -> bool)
    requires IsStrict(less)
    ensures !Before(a, a, less)
  {
  }

  lemma {:induction false} FirstDifference<T>(a: seq<T>, b: seq<T>, n: nat) returns (i: nat)
    requires n <= |a| && n <= |b| && a[..n] == b[..n] && a != b
    ensures i <= |a| && i <= |b| && a[..i] == b[..i] && n <= i
    ensures i == |a| || i == |b| || a[i] != b[i]
    decreases |a| - n
  {
    if n < |a| && n < |b| && a[n] == b[n] {
      assert a[..n + 1] == a[..n] + [a[n]];
      assert b[..n + 1] == b[..n] + [b[n]];
      i := FirstDifference(a, b, n + 1);
    } else {
      i := n;
    }
  }

  lemma WholeTaken<T>(s: seq<T>, i: nat)
    requires i <= |s|
    ensures i == |s| ==> s[..i] == s
  {
  }

  lemma BeforeTotal<T(!new)>(a: seq<T>, b: seq<T>, less: (T, T) -> bool)
    requires IsTotal(less) && a != b
    ensures Before(a, b, less) || Before(b, a, less)
  {
    var i := FirstDifference(a, b, 0);
    WholeTaken(a, i);
    WholeTaken(b, i);
    if i == |a| || (i < |b| && less(a[i], b[i])) {
      assert DiffersAt(a, b, less, i);
    } else {
      assert DiffersAt(b, a, less, i);
    }
  }

  /** The order is strict and total where that of the elements is. */
  lemma BeforeStrict<T(!new)>(less: (T, T) -> bool)
    requires IsStrict(less)
    ensures forall a: seq<T>, b: seq<T>, c: seq<T> :: Before(a, b, less) && Before(b, c, less) ==> Before(a, c, less)
    ensures forall a: seq<T> :: !Before(a, a, less)
  {
    forall a: seq<T>, b: seq<T>, c: seq<T> | Before(a, b, less) && Before(b, c, less)
      ensures Before(a, c, less)
    {
      BeforeTransitive(a, b, c, less);
    }
    forall a: seq<T>
      ensures !Before(a, a, less)
    {
      BeforeIrreflexive(a, less);
    }
  }
}
