/** Forward and backward substitution on the stored factors, and the inverse. */
module Solve {
  import opened FiniteSums
  import opened Lup

  ghost function LowerTerm(m: Matrix, y: Vector, i: int): int -> real {
    (t: int) => Elem(y, t) * Lower(m, i, t)
  }

  ghost function UpperTerm(m: Matrix, x: Vector, i: int): int -> real {
    (t: int) => Elem(x, t) * Upper(m, i, t)
  }

  ghost function RowTerm(m: Matrix, x: Vector, i: int): int -> real {
    (t: int) => At(m, i, t) * Elem(x, t)
  }

  /** L y = P b */
  ghost predicate Forward(m: Matrix, p: seq<int>, b: Vector, y: Vector, n: nat) {
    |p| == n && forall i :: 0 <= i < n ==> Sum(n, LowerTerm(m, y, i)) == Elem(b, p[i])
  }

  /** U x = y */
  ghost predicate Backward(m: Matrix, y: Vector, x: Vector, n: nat) {
    forall i :: 0 <= i < n ==> Sum(n, UpperTerm(m, x, i)) == Elem(y, i)
  }

  /** A x = b */
  ghost predicate Solves(a: Matrix, x: Vector, b: Vector, n: nat) {
    forall i :: 0 <= i < n ==> Sum(n, RowTerm(a, x, i)) == Elem(b, i)
  }

  ghost predicate Regular(m: Matrix, n: nat) {
    forall i :: 0 <= i < n ==> At(m, i, i) != 0.0
  }

  /** ---------------- why the two substitutions solve the system ---------------- */

  ghost function Mixed(m: Matrix, x: Vector, i: int): (int, int) -> real {
    (j: int, t: int) => Lower(m, i, t) * Upper(m, t, j) * Elem(x, j)
  }

  lemma Reorder(l: real, u: real, e: real)
    ensures l * u * e == e * (l * u) && l * u * e == l * (e * u)
  {
  }

  lemma MixedRow(a0: Matrix, m: Matrix, q: int, x: Vector, n: nat, i: nat, j: nat)
    requires Product(m, i, j, n) == At(a0, q, j)
    ensures RowTerm(a0, x, q)(j) == Sum(n, RowOf(Mixed(m, x, i), j))
  {
    forall t | 0 <= t < n ensures RowOf(Mixed(m, x, i), j)(t) == Elem(x, j) * Term(m, i, j)(t) {
      Reorder(Lower(m, i, t), Upper(m, t, j), Elem(x, j));
    }
    SumScale(n, Elem(x, j), Term(m, i, j), RowOf(Mixed(m, x, i), j));
  }

  lemma MixedTerm(m: Matrix, x: Vector, i: nat, t: nat, j: int)
    ensures ColumnOf(Mixed(m, x, i), t)(j) == Lower(m, i, t) * UpperTerm(m, x, t)(j)
  {
    Reorder(Lower(m, i, t), Upper(m, t, j), Elem(x, j));
  }

  lemma MixedColumn(m: Matrix, y: Vector, x: Vector, n: nat, i: nat, t: nat)
    requires Sum(n, UpperTerm(m, x, t)) == Elem(y, t)
    ensures LowerTerm(m, y, i)(t) == Sum(n, ColumnOf(Mixed(m, x, i), t))
  {
    var l := Lower(m, i, t);
    forall j | 0 <= j < n ensures ColumnOf(Mixed(m, x, i), t)(j) == l * UpperTerm(m, x, t)(j) {
      MixedTerm(m, x, i, t, j);
    }
    SumScale(n, l, UpperTerm(m, x, t), ColumnOf(Mixed(m, x, i), t));
    assert LowerTerm(m, y, i)(t) == Elem(y, t) * l;
  }

  lemma SolveRow(a0: Matrix, m: Matrix, p: seq<int>, b: Vector, y: Vector, x: Vector, n: nat, i: nat)
    requires Decomposed(a0, m, p, n) && Forward(m, p, b, y, n) && Backward(m, y, x, n) && i < n
    ensures Sum(n, RowTerm(a0, x, p[i])) == Elem(b, p[i])
  {
    forall j | 0 <= j < n ensures RowTerm(a0, x, p[i])(j) == Sum(n, RowOf(Mixed(m, x, i), j)) {
      assert Product(m, i, j, n) == At(a0, p[i], j);
      MixedRow(a0, m, p[i], x, n, i, j);
    }
    forall t | 0 <= t < n ensures LowerTerm(m, y, i)(t) == Sum(n, ColumnOf(Mixed(m, x, i), t)) {
      MixedColumn(m, y, x, n, i, t);
    }
    SumSwap(n, n, Mixed(m, x, i), RowTerm(a0, x, p[i]), LowerTerm(m, y, i));
  }

  lemma {:induction false} Onto(p: seq<int>, n: nat, values: set<int>, k: nat)
    requires Permutation(p, n) && k <= n && values == set i | 0 <= i < k :: p[i]
    ensures |values| == k
  {
    if k > 0 {
      var less := set i | 0 <= i < k - 1 :: p[i];
      Onto(p, n, less, k - 1);
      assert p[k - 1] !in less;
      assert values == less + {p[k - 1]};
      assert |less + {p[k - 1]}| == |less| + 1;
    }
  }

  ghost function Below(n: nat): (s: set<int>)
    ensures |s| == n && forall i :: i in s <==> 0 <= i < n
  {
    if n == 0 then {} else Below(n - 1) + {n - 1}
  }

  /** A permutation meets every row. */
  lemma Preimage(p: seq<int>, n: nat, r: int) returns (i: nat)
    requires Permutation(p, n) && 0 <= r < n
    ensures i < n && p[i] == r
  {
    var values := set i | 0 <= i < n :: p[i];
    Onto(p, n, values, n);
    var all := Below(n);
    assert values <= all;
    assert all == values + (all - values);
    assert |all| == |values| + |all - values|;
    assert r in values;
    i :| 0 <= i < n && p[i] == r;
  }

  /** lusolve answers the original system. */
  lemma SubstitutionSolves(a0: Matrix, m: Matrix, p: seq<int>, b: Vector, y: Vector, x: Vector, n: nat)
    requires Decomposed(a0, m, p, n) && Forward(m, p, b, y, n) && Backward(m, y, x, n)
    ensures Solves(a0, x, b, n)
  {
    forall r | 0 <= r < n ensures Sum(n, RowTerm(a0, x, r)) == Elem(b, r) {
      var i := Preimage(p, n, r);
      SolveRow(a0, m, p, b, y, x, n, i);
    }
  }

  /** ---------------- the program ---------------- */

  /** A division the code does not guard; C yields an infinity or a NaN at zero. */
  function Quot(x: real, y: real): (r: real)
    ensures y != 0.0 ==> r * y == x
  {
    if y == 0.0 then 0.0 else x / y
  }

  lemma LowerLocal(m: Matrix, y: Vector, y': Vector, i: nat, k: nat)
    requires k <= |y| && k <= |y'| && forall t :: 0 <= t < k ==> y[t] == y'[t]
    ensures Sum(k, LowerTerm(m, y, i)) == Sum(k, LowerTerm(m, y', i))
  {
    SumEq(k, LowerTerm(m, y, i), LowerTerm(m, y', i));
  }

  lemma ForwardRow(m: Matrix, y: Vector, n: nat, i: nat)
    requires i < n && |y| == n
    ensures Sum(n, LowerTerm(m, y, i)) == Sum(i, LowerTerm(m, y, i)) + y[i]
  {
    var f := LowerTerm(m, y, i);
    forall t | i + 1 <= t < n ensures f(t) == 0.0 { assert Lower(m, i, t) == 0.0; }
    SumPrefix(n, f, i + 1);
    assert f(i) == y[i] * 1.0;
  }

  ghost predicate ForwardAt(m: Matrix, p: seq<int>, b: Vector, y: Vector, t: nat)
    requires t < |p| && t < |y|
  {
    y[t] == Elem(b, p[t]) - Sum(t, LowerTerm(m, y, t))
  }

  /** The recurrence of the forward loop. */
  ghost predicate ForwardUpTo(m: Matrix, p: seq<int>, b: Vector, y: Vector, k: nat) {
    && k <= |p| && k <= |y|
    && forall t: nat :: t < k ==> ForwardAt(m, p, b, y, t)
  }

  /** It gives L y = P b. */
  lemma ForwardDone(m: Matrix, p: seq<int>, b: Vector, y: Vector, n: nat)
    requires |p| == n && |y| == n && ForwardUpTo(m, p, b, y, n)
    ensures Forward(m, p, b, y, n)
  {
    forall i | 0 <= i < n ensures Sum(n, LowerTerm(m, y, i)) == Elem(b, p[i]) {
      ForwardRow(m, y, n, i);
      assert ForwardAt(m, p, b, y, i);
    }
  }

  lemma ForwardNext(m: Matrix, p: seq<int>, b: Vector, y: Vector, y': Vector, k: nat)
    requires ForwardUpTo(m, p, b, y, k) && k < |p| && k < |y| && |y'| == |y|
    requires y' == y[k := Elem(b, p[k]) - Sum(k, LowerTerm(m, y, k))]
    ensures ForwardUpTo(m, p, b, y', k + 1)
  {
    forall t: nat | t < k + 1 ensures ForwardAt(m, p, b, y', t) {
      LowerLocal(m, y, y', t, t);
      assert t < k ==> ForwardAt(m, p, b, y, t);
    }
  }

  method LowerDot(a: array2<real>, n: nat, y: array<real>, i: nat) returns (sum: real)
    requires a.Length0 == n && a.Length1 == n && y.Length == n && i < n
    ensures sum == Sum(i, LowerTerm(Mat(a), y[..], i))
  {
    sum := 0.0;
    ghost var f := LowerTerm(Mat(a), y[..], i);
    for j := 0 to i
      invariant sum == Sum(j, f)
    {
      assert f(j) == y[j] * a[i, j];
      sum := sum + y[j] * a[i, j];
    }
  }

  method ForwardSubstitution(a: array2<real>, n: nat, p: array<int>, b: array<real>) returns (y: array<real>)
    requires a.Length0 == n && a.Length1 == n && p.Length == n && b.Length == n && Permutation(p[..], n)
    ensures fresh(y) && y.Length == n && Forward(Mat(a), p[..], b[..], y[..], n)
  {
    y := new real[n](_ => 0.0);
    ghost var m := Mat(a);
    for i := 0 to n
      invariant ForwardUpTo(m, p[..], b[..], y[..], i)
    {
      var sum := LowerDot(a, n, y, i);
      ghost var before := y[..];
      y[i] := b[p[i]] - sum;
      ForwardNext(m, p[..], b[..], before, y[..], i);
    }
    ForwardDone(m, p[..], b[..], y[..], n);
  }

  /** The part of row i of U x to the right of the diagonal. */
  ghost function Tail(m: Matrix, x: Vector, i: nat, n: nat): real
    requires i < n
  {
    Sum(n, UpperTerm(m, x, i)) - Sum(i + 1, UpperTerm(m, x, i))
  }

  lemma TailSame(f: int -> real, g: int -> real, k: nat, n: nat)
    requires k <= n && forall t :: k <= t < n ==> f(t) == g(t)
    ensures Sum(n, f) - Sum(k, f) == Sum(n, g) - Sum(k, g)
  {
    if k < n { TailSame(f, g, k, n - 1); }
  }

  lemma TailLocal(m: Matrix, x: Vector, x': Vector, i: nat, n: nat)
    requires i < n <= |x| && n <= |x'| && forall t :: i < t < n ==> x[t] == x'[t]
    ensures Tail(m, x, i, n) == Tail(m, x', i, n)
  {
    TailSame(UpperTerm(m, x, i), UpperTerm(m, x', i), i + 1, n);
  }

  lemma BackwardRow(m: Matrix, x: Vector, n: nat, i: nat)
    requires i < n && |x| == n && Square(m, n)
    ensures Sum(n, UpperTerm(m, x, i)) == x[i] * m[i][i] + Tail(m, x, i, n)
  {
    var f := UpperTerm(m, x, i);
    SumZero(i, f);
    assert f(i) == x[i] * m[i][i];
  }

  ghost predicate BackwardAt(m: Matrix, y: Vector, x: Vector, n: nat, t: nat)
    requires |x| == n && |y| == n && t < n
  {
    x[t] == Quot(y[t] - Tail(m, x, t, n), At(m, t, t))
  }

  /** The recurrence of the backward loop, for the rows from k on. */
  ghost predicate BackwardFrom(m: Matrix, y: Vector, x: Vector, n: nat, k: nat) {
    && |x| == n && |y| == n
    && forall t: nat :: k <= t < n ==> BackwardAt(m, y, x, n, t)
  }

  lemma BackwardDone(m: Matrix, y: Vector, x: Vector, n: nat)
    requires Square(m, n) && Regular(m, n) && BackwardFrom(m, y, x, n, 0)
    ensures Backward(m, y, x, n)
  {
    forall i | 0 <= i < n ensures Sum(n, UpperTerm(m, x, i)) == Elem(y, i) {
      BackwardRow(m, x, n, i);
      assert At(m, i, i) != 0.0;
      assert BackwardAt(m, y, x, n, i);
    }
  }

  lemma BackwardNext(m: Matrix, y: Vector, x: Vector, x': Vector, n: nat, k: nat)
    requires BackwardFrom(m, y, x, n, k + 1) && k < n
    requires x' == x[k := Quot(y[k] - Tail(m, x, k, n), At(m, k, k))]
    ensures BackwardFrom(m, y, x', n, k)
  {
    forall t: nat | k <= t < n ensures BackwardAt(m, y, x', n, t) {
      TailLocal(m, x, x', t, n);
      assert t > k ==> BackwardAt(m, y, x, n, t);
    }
  }

  method UpperDot(a: array2<real>, n: nat, x: array<real>, i: nat) returns (sum: real)
    requires a.Length0 == n && a.Length1 == n && x.Length == n && i < n
    ensures sum == Tail(Mat(a), x[..], i, n)
  {
    sum := 0.0;
    ghost var f := UpperTerm(Mat(a), x[..], i);
    for j := i + 1 to n
      invariant sum == Sum(j, f) - Sum(i + 1, f)
    {
      assert f(j) == x[j] * a[i, j];
      sum := sum + x[j] * a[i, j];
    }
  }

  method BackwardSubstitution(a: array2<real>, n: nat, y: array<real>, x: array<real>)
    requires a.Length0 == n && a.Length1 == n && y.Length == n && x.Length == n && x != y
    modifies x
    ensures Regular(Mat(a), n) ==> Backward(Mat(a), y[..], x[..], n)
  {
    ghost var m, ys := Mat(a), y[..];
    var i := n;
    while i > 0
      invariant 0 <= i <= n
      invariant BackwardFrom(m, ys, x[..], n, i)
    {
      i := i - 1;
      var sum := UpperDot(a, n, x, i);
      ghost var before := x[..];
      x[i] := Quot(y[i] - sum, a[i, i]);
      BackwardNext(m, ys, before, x[..], n, i);
    }
    if Regular(m, n) { BackwardDone(m, ys, x[..], n); }
  }

  /** lusolve. When the factors came from a0, x solves a0 x = b. */
  method Lusolve(a: array2<real>, n: nat, p: array<int>, b: array<real>, x: array<real>, ghost a0: Matrix)
    requires a.Length0 == n && a.Length1 == n && p.Length == n && b.Length == n && x.Length == n
    requires Permutation(p[..], n)
    modifies x
    ensures Decomposed(a0, Mat(a), p[..], n) && Regular(Mat(a), n) ==> Solves(a0, x[..], old(b[..]), n)
  {
    ghost var bs := b[..];
    var y := ForwardSubstitution(a, n, p, b);
    ghost var ys := y[..];
    BackwardSubstitution(a, n, y, x);
    if Decomposed(a0, Mat(a), p[..], n) && Regular(Mat(a), n) {
      assert y[..] == ys;
      SubstitutionSolves(a0, Mat(a), p[..], bs, ys, x[..], n);
    }
  }
}
