/** matinv: the inverse column by column, and exactly when it is one. */
module Inverse {
  import opened FiniteSums
  import opened Lup
  import opened Solve

  ghost function Unit(n: nat, j: int): (u: Vector)
    ensures |u| == n && forall i :: 0 <= i < n ==> u[i] == if i == j then 1.0 else 0.0
  {
    seq(n, i requires 0 <= i < n => if i == j then 1.0 else 0.0)
  }

  ghost function Column(m: Matrix, j: int): (c: Vector)
    ensures |c| == |m| && forall i :: 0 <= i < |m| ==> c[i] == At(m, i, j)
  {
    seq(|m|, i requires 0 <= i < |m| => At(m, i, j))
  }

  /** A INV = I */
  ghost predicate RightInverse(a: Matrix, inv: Matrix, n: nat) {
    && Square(inv, n)
    && forall j :: 0 <= j < n ==> Solves(a, Column(inv, j), Unit(n, j), n)
  }

  /** The pivot the decomposition does not look at. */
  ghost predicate LastPivotGood(m: Matrix, n: nat) { n == 0 || At(m, n - 1, n - 1) != 0.0 }

  lemma PivotsRegular(a0: Matrix, m: Matrix, p: seq<int>, n: nat)
    requires Decomposed(a0, m, p, n)
    ensures Regular(m, n) <==> LastPivotGood(m, n)
  {
    forall i | 0 <= i < n - 1 ensures At(m, i, i) != 0.0 {
      assert Abs(At(m, i, i)) >= DELTA;
    }
  }

  /** ---------------- a zero last pivot means a singular matrix ---------------- */

  ghost function LeftTerm(m: Matrix, v: Vector, t: int): int -> real {
    (i: int) => Elem(v, i) * Lower(m, i, t)
  }

  lemma {:induction false} SumUpdate(n: nat, f: int -> real, g: int -> real, k: nat)
    requires k < n && forall i :: 0 <= i < n && i != k ==> f(i) == g(i)
    ensures Sum(n, g) == Sum(n, f) + g(k) - f(k)
  {
    if k == n - 1 { SumEq(n - 1, f, g); } else { SumUpdate(n - 1, f, g, k); }
  }

  /** A vector v with v L = (0 .. 0 1), built from the last row upwards. */
  lemma {:induction false} LeftNull(m: Matrix, n: nat, k: nat) returns (v: Vector)
    requires k < n
    ensures |v| == n && v[n-1] == 1.0 && forall i :: 0 <= i < k ==> v[i] == 0.0
    ensures forall t :: k <= t < n ==> Sum(n, LeftTerm(m, v, t)) == if t == n - 1 then 1.0 else 0.0
    decreases n - k
  {
    if k == n - 1 {
      v := Unit(n, n - 1);
      SumSingle(n, LeftTerm(m, v, n - 1), n - 1);
    } else {
      var w := LeftNull(m, n, k + 1);
      v := w[k := 0.0 - Sum(n, LeftTerm(m, w, k))];
      forall t | k <= t < n ensures Sum(n, LeftTerm(m, v, t)) == if t == n - 1 then 1.0 else 0.0 {
        SumUpdate(n, LeftTerm(m, w, t), LeftTerm(m, v, t), k);
        if t == k { assert LeftTerm(m, v, t)(k) == v[k] * 1.0; }
        else { assert Lower(m, k, t) == 0.0; }
      }
    }
  }

  ghost function LeftMixed(m: Matrix, v: Vector, j: int): (int, int) -> real {
    (i: int, t: int) => Elem(v, i) * Lower(m, i, t) * Upper(m, t, j)
  }

  ghost function LeftRow(a: Matrix, p: seq<int>, v: Vector, j: int): int -> real {
    (i: int) => if 0 <= i < |p| then Elem(v, i) * At(a, p[i], j) else 0.0
  }

  ghost function PivotTerm(m: Matrix, n: nat, j: int): int -> real {
    (t: int) => if t == n - 1 then Upper(m, t, j) else 0.0
  }

  lemma LeftMixedRow(a0: Matrix, m: Matrix, p: seq<int>, v: Vector, n: nat, i: nat, j: nat)
    requires i < |p| && Product(m, i, j, n) == At(a0, p[i], j)
    ensures LeftRow(a0, p, v, j)(i) == Sum(n, RowOf(LeftMixed(m, v, j), i))
  {
    forall t | 0 <= t < n ensures RowOf(LeftMixed(m, v, j), i)(t) == Elem(v, i) * Term(m, i, j)(t) {
      Associate(Elem(v, i), Lower(m, i, t), Upper(m, t, j));
    }
    SumScale(n, Elem(v, i), Term(m, i, j), RowOf(LeftMixed(m, v, j), i));
  }

  lemma LeftMixedTerm(m: Matrix, v: Vector, i: int, j: nat, t: nat)
    ensures ColumnOf(LeftMixed(m, v, j), t)(i) == Upper(m, t, j) * LeftTerm(m, v, t)(i)
  {
    Reorder(Elem(v, i), Lower(m, i, t), Upper(m, t, j));
  }

  lemma LeftMixedColumn(m: Matrix, v: Vector, n: nat, j: nat, t: nat)
    requires Sum(n, LeftTerm(m, v, t)) == if t == n - 1 then 1.0 else 0.0
    ensures PivotTerm(m, n, j)(t) == Sum(n, ColumnOf(LeftMixed(m, v, j), t))
  {
    var u := Upper(m, t, j);
    forall i | 0 <= i < n ensures ColumnOf(LeftMixed(m, v, j), t)(i) == u * LeftTerm(m, v, t)(i) {
      LeftMixedTerm(m, v, i, j, t);
    }
    SumScale(n, u, LeftTerm(m, v, t), ColumnOf(LeftMixed(m, v, j), t));
    assert u * Sum(n, LeftTerm(m, v, t)) == if t == n - 1 then u else 0.0;
  }

  /** v (P A0) vanishes when the last pivot does. */
  lemma LeftRowZero(a0: Matrix, m: Matrix, p: seq<int>, v: Vector, n: nat, j: nat)
    requires Decomposed(a0, m, p, n) && n > 0 && At(m, n - 1, n - 1) == 0.0 && j < n
    requires forall t :: 0 <= t < n ==> Sum(n, LeftTerm(m, v, t)) == if t == n - 1 then 1.0 else 0.0
    ensures Sum(n, LeftRow(a0, p, v, j)) == 0.0
  {
    forall i | 0 <= i < n ensures LeftRow(a0, p, v, j)(i) == Sum(n, RowOf(LeftMixed(m, v, j), i)) {
      LeftMixedRow(a0, m, p, v, n, i, j);
    }
    forall t | 0 <= t < n ensures PivotTerm(m, n, j)(t) == Sum(n, ColumnOf(LeftMixed(m, v, j), t)) {
      LeftMixedColumn(m, v, n, j, t);
    }
    SumSwap(n, n, LeftMixed(m, v, j), LeftRow(a0, p, v, j), PivotTerm(m, n, j));
    SumZero(n, PivotTerm(m, n, j));
  }

  ghost function InvMixed(a: Matrix, p: seq<int>, v: Vector, x: Vector): (int, int) -> real {
    (i: int, j: int) => LeftRow(a, p, v, j)(i) * Elem(x, j)
  }

  ghost function Picked(p: seq<int>, v: Vector, c: int): int -> real {
    (i: int) => if 0 <= i < |p| && p[i] == c then Elem(v, i) else 0.0
  }

  lemma PickedRow(a0: Matrix, p: seq<int>, v: Vector, x: Vector, n: nat, c: int, i: nat)
    requires Permutation(p, n) && i < n && Solves(a0, x, Unit(n, c), n)
    ensures Picked(p, v, c)(i) == Sum(n, RowOf(InvMixed(a0, p, v, x), i))
  {
    var q := p[i];
    assert Sum(n, RowTerm(a0, x, q)) == Elem(Unit(n, c), q);
    forall j | 0 <= j < n ensures RowOf(InvMixed(a0, p, v, x), i)(j) == Elem(v, i) * RowTerm(a0, x, q)(j) {
      assert LeftRow(a0, p, v, j)(i) == Elem(v, i) * At(a0, q, j);
      Associate(Elem(v, i), At(a0, q, j), Elem(x, j));
    }
    SumScale(n, Elem(v, i), RowTerm(a0, x, q), RowOf(InvMixed(a0, p, v, x), i));
  }

  lemma Associate(a: real, b: real, c: real)
    ensures a * b * c == a * (b * c)
  {
  }

  /** A vector other than zero that the permuted rows of A0 take to zero rules out a right inverse. */
  lemma LeftNullNoInverse(a0: Matrix, p: seq<int>, v: Vector, n: nat, k: nat, inv: Matrix)
    requires Permutation(p, n) && k < n && Elem(v, k) != 0.0
    requires forall j :: 0 <= j < n ==> Sum(n, LeftRow(a0, p, v, j)) == 0.0
    ensures !RightInverse(a0, inv, n)
  {
    if RightInverse(a0, inv, n) {
      var c := p[k];
      var x := Column(inv, c);
      var zero := (j: int) => 0.0;
      forall i | 0 <= i < n ensures Picked(p, v, c)(i) == Sum(n, RowOf(InvMixed(a0, p, v, x), i)) {
        PickedRow(a0, p, v, x, n, c, i);
      }
      forall j | 0 <= j < n ensures zero(j) == Sum(n, ColumnOf(InvMixed(a0, p, v, x), j)) {
        SumScale(n, Elem(x, j), LeftRow(a0, p, v, j), ColumnOf(InvMixed(a0, p, v, x), j));
      }
      SumSwap(n, n, InvMixed(a0, p, v, x), Picked(p, v, c), zero);
      SumZero(n, zero);
      SumSingle(n, Picked(p, v, c), k);
    }
  }

  lemma SingularHasNoInverse(a0: Matrix, m: Matrix, p: seq<int>, inv: Matrix, n: nat)
    requires Decomposed(a0, m, p, n) && n > 0 && At(m, n - 1, n - 1) == 0.0
    ensures !RightInverse(a0, inv, n)
  {
    var v := LeftNull(m, n, 0);
    forall j | 0 <= j < n ensures Sum(n, LeftRow(a0, p, v, j)) == 0.0 { LeftRowZero(a0, m, p, v, n, j); }
    LeftNullNoInverse(a0, p, v, n, n - 1, inv);
  }

  /** ---------------- the program ---------------- */

  method FillUnit(n: nat, j: nat, col: array<real>)
    requires col.Length == n && j < n
    modifies col
    ensures col[..] == Unit(n, j)
  {
    for i := 0 to n
      invariant forall t :: 0 <= t < i ==> col[t] == 0.0
    {
      col[i] := 0.0;
    }
    col[j] := 1.0;
  }

  method StoreColumn(inv: array2<real>, n: nat, j: nat, x: array<real>)
    requires inv.Length0 == n && inv.Length1 == n && x.Length == n && j < n
    modifies inv
    ensures Column(Mat(inv), j) == x[..]
    ensures forall c :: 0 <= c < n && c != j ==> Column(Mat(inv), c) == old(Column(Mat(inv), c))
  {
    for i := 0 to n
      invariant forall t :: 0 <= t < i ==> inv[t, j] == x[t]
      invariant forall t, c :: 0 <= t < n && 0 <= c < n && c != j ==> inv[t, c] == old(inv[t, c])
    {
      inv[i, j] := x[i];
    }
    forall c | 0 <= c < n && c != j ensures Column(Mat(inv), c) == old(Column(Mat(inv), c)) {
      assert forall t :: 0 <= t < n ==> Column(Mat(inv), c)[t] == inv[t, c] && old(Column(Mat(inv), c))[t] == old(inv[t, c]);
    }
    assert forall t :: 0 <= t < n ==> Column(Mat(inv), j)[t] == inv[t, j];
  }

  /** matinv: M is overwritten by its factors. Unless it ends in the fatal error,
      INV is a right inverse exactly when the unchecked last pivot is not zero,
      and when it is zero there is none. */
  method Matinv(inv: array2<real>, m: array2<real>, n: nat) returns (ok: bool)
    requires inv.Length0 == n && inv.Length1 == n && m.Length0 == n && m.Length1 == n && inv != m
    modifies inv, m
    ensures Square(old(Mat(m)), n) && (ok <==> Accepted(old(Mat(m)), n))
    ensures ok ==> (RightInverse(old(Mat(m)), Mat(inv), n) <==> LastPivotGood(Mat(m), n))
    ensures ok && !LastPivotGood(Mat(m), n) ==> forall x: Matrix :: !RightInverse(old(Mat(m)), x, n)
  {
    ghost var a0 := Mat(m);
    var p := new int[n](_ => 0);
    var col := new real[n](_ => 0.0);
    var x := new real[n](_ => 0.0);
    ok := Lupdcmp(m, n, p);
    if !ok { return; }
    ghost var f := Mat(m);
    ghost var perm := p[..];
    for j := 0 to n
      invariant Mat(m) == f && p[..] == perm
      invariant Regular(f, n) ==> forall c :: 0 <= c < j ==> Solves(a0, Column(Mat(inv), c), Unit(n, c), n)
    {
      FillUnit(n, j, col);
      Lusolve(m, n, p, col, x, a0);
      ghost var before := Mat(inv);
      StoreColumn(inv, n, j, x);
    }
    PivotsRegular(a0, f, perm, n);
    if !LastPivotGood(f, n) {
      forall y: Matrix ensures !RightInverse(a0, y, n) { SingularHasNoInverse(a0, f, perm, y, n); }
    }
  }
}
