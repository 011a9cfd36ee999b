/** matmult, and how it fits with matvectmult and matinv. */
module MatrixProduct {
  import opened FiniteSums
  import opened Inverse
  import opened Lup
  import opened RungeKutta
  import opened Solve

  ghost function Entry(a: Matrix, b: Matrix, n: nat, i: int, j: int): real { Sum(n, RowTerm(a, Column(b, j), i)) }

  /** A B, for n by n matrices. */
  ghost function TimesRow(a: Matrix, b: Matrix, n: nat, i: nat): (r: seq<real>)
    ensures |r| == n && forall j :: 0 <= j < n ==> r[j] == Entry(a, b, n, i, j)
  {
    seq(n, j requires 0 <= j < n => Entry(a, b, n, i, j))
  }

  ghost function Times(a: Matrix, b: Matrix, n: nat): (c: Matrix)
    ensures |c| == n && forall i: nat :: i < n ==> c[i] == TimesRow(a, b, n, i)
  {
    seq(n, i requires 0 <= i < n => TimesRow(a, b, n, i))
  }

  ghost function Identity(n: nat): (m: Matrix)
    ensures |m| == n && forall i: nat :: i < n ==> m[i] == Unit(n, i)
  {
    seq(n, i requires 0 <= i < n => Unit(n, i))
  }

  /** A right inverse is a matrix that multiplies to the identity. */
  lemma InverseIsProduct(a: Matrix, inv: Matrix, n: nat)
    requires Square(inv, n)
    ensures RightInverse(a, inv, n) <==> Times(a, inv, n) == Identity(n)
  {
    var c := Times(a, inv, n);
    if RightInverse(a, inv, n) {
      forall i: nat | i < n ensures c[i] == Identity(n)[i] {
        forall j | 0 <= j < n ensures c[i][j] == Unit(n, i)[j] {
          assert Solves(a, Column(inv, j), Unit(n, j), n);
          assert c[i][j] == Elem(Unit(n, j), i);
        }
      }
    }
    if c == Identity(n) {
      forall j | 0 <= j < n ensures Solves(a, Column(inv, j), Unit(n, j), n) {
        forall i | 0 <= i < n ensures Sum(n, RowTerm(a, Column(inv, j), i)) == Elem(Unit(n, j), i) {
          assert c[i] == Unit(n, i);
          assert c[i][j] == Entry(a, inv, n, i, j);
        }
      }
    }
  }

  /** a[i][k] b[k][j] v[j] */
  ghost function Triple(a: Matrix, b: Matrix, v: Vector, i: int): (int, int) -> real {
    (j: int, k: int) => At(a, i, k) * At(b, k, j) * Elem(v, j)
  }

  lemma Regrouped(x: real, y: real, z: real)
    ensures x * y * z == z * (x * y) && x * y * z == x * (y * z)
  {
  }

  lemma TripleRow(a: Matrix, b: Matrix, v: Vector, n: nat, i: nat, j: nat)
    requires i < n && j < n && |b| == n && |v| == n
    ensures RowTerm(Times(a, b, n), v, i)(j) == Sum(n, RowOf(Triple(a, b, v, i), j))
  {
    var e := Elem(v, j);
    forall k | 0 <= k < n ensures RowOf(Triple(a, b, v, i), j)(k) == e * RowTerm(a, Column(b, j), i)(k) {
      Regrouped(At(a, i, k), At(b, k, j), e);
    }
    SumScale(n, e, RowTerm(a, Column(b, j), i), RowOf(Triple(a, b, v, i), j));
    assert Times(a, b, n)[i][j] == Entry(a, b, n, i, j);
    assert At(Times(a, b, n), i, j) == Entry(a, b, n, i, j);
  }

  lemma TripleColumn(a: Matrix, b: Matrix, v: Vector, n: nat, i: nat, k: nat)
    requires k < n
    ensures RowTerm(a, Apply(b, v, n), i)(k) == Sum(n, ColumnOf(Triple(a, b, v, i), k))
  {
    var x := At(a, i, k);
    forall j | 0 <= j < n ensures ColumnOf(Triple(a, b, v, i), k)(j) == x * RowTerm(b, v, k)(j) {
      Regrouped(x, At(b, k, j), Elem(v, j));
    }
    SumScale(n, x, RowTerm(b, v, k), ColumnOf(Triple(a, b, v, i), k));
  }

  /** (A B) v = A (B v): multiplying matrices first and vectors first comes to the same. */
  lemma ProductApplies(a: Matrix, b: Matrix, v: Vector, n: nat)
    requires |b| == n && |v| == n
    ensures Apply(Times(a, b, n), v, n) == Apply(a, Apply(b, v, n), n)
  {
    var l, r := Apply(Times(a, b, n), v, n), Apply(a, Apply(b, v, n), n);
    forall i | 0 <= i < n ensures l[i] == r[i] {
      forall j | 0 <= j < n ensures RowTerm(Times(a, b, n), v, i)(j) == Sum(n, RowOf(Triple(a, b, v, i), j)) {
        TripleRow(a, b, v, n, i, j);
      }
      forall k | 0 <= k < n ensures RowTerm(a, Apply(b, v, n), i)(k) == Sum(n, ColumnOf(Triple(a, b, v, i), k)) {
        TripleColumn(a, b, v, n, i, k);
      }
      SumSwap(n, n, Triple(a, b, v, i), RowTerm(Times(a, b, n), v, i), RowTerm(a, Apply(b, v, n), i));
    }
  }

  /** ---------------- the program ---------------- */

  /** c[i][j] := row i of a times column j of b */
  method Cell(c: array2<real>, a: array2<real>, b: array2<real>, n: nat, i: nat, j: nat)
    requires a.Length0 == n && a.Length1 == n && b.Length0 == n && b.Length1 == n && c.Length0 == n && c.Length1 == n
    requires c != a && c != b && i < n && j < n
    modifies c
    ensures c[i, j] == Entry(Mat(a), Mat(b), n, i, j)
    ensures forall s, t :: 0 <= s < n && 0 <= t < n && (s != i || t != j) ==> c[s, t] == old(c[s, t])
  {
    ghost var f := RowTerm(Mat(a), Column(Mat(b), j), i);
    c[i, j] := 0.0;
    for k := 0 to n
      invariant c[i, j] == Sum(k, f)
      invariant forall s, t :: 0 <= s < n && 0 <= t < n && (s != i || t != j) ==> c[s, t] == old(c[s, t])
    {
      assert f(k) == a[i, k] * b[k, j];
      c[i, j] := c[i, j] + a[i, k] * b[k, j];
    }
  }

  method MatMult(c: array2<real>, a: array2<real>, b: array2<real>, n: nat)
    requires a.Length0 == n && a.Length1 == n && b.Length0 == n && b.Length1 == n && c.Length0 == n && c.Length1 == n
    requires c != a && c != b
    modifies c
    ensures Mat(c) == Times(Mat(a), Mat(b), n)
  {
    ghost var x, y := Mat(a), Mat(b);
    for i := 0 to n
      invariant forall s, t :: 0 <= s < i && 0 <= t < n ==> c[s, t] == Entry(x, y, n, s, t)
    {
      for j := 0 to n
        invariant forall s, t :: 0 <= s < i && 0 <= t < n ==> c[s, t] == Entry(x, y, n, s, t)
        invariant forall t :: 0 <= t < j ==> c[i, t] == Entry(x, y, n, i, t)
      {
        Cell(c, a, b, n, i, j);
      }
    }
    SameMatrix(Mat(c), Times(x, y, n));
  }
}
