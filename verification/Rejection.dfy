/** What a rejection by the decomposition says of the matrix: a column without any non-zero pivot means that
    it is singular, but a column of small pivots does not. */
module Rejection {
  import opened FiniteSums
  import opened Lup
  import opened Solve
  import opened Inverse

  /** ---------------- more rows than columns are dependent ---------------- */

  ghost function Weighted(y: int -> real, r: (int, int) -> real, j: int): int -> real {
    (i: int) => y(i) * r(i, j)
  }

  /** y is a dependency of the rows in `rows`. */
  ghost predicate Dependency(y: int -> real, r: (int, int) -> real, rows: set<nat>, n: nat, columns: nat) {
    && (forall i: nat :: i !in rows ==> y(i) == 0.0)
    && (exists i: nat :: i in rows && y(i) != 0.0)
    && (forall j :: 0 <= j < columns ==> Sum(n, Weighted(y, r, j)) == 0.0)
  }

  /** Row q taken off every other, to clear column c. */
  ghost function Cleared(r: (int, int) -> real, q: int, c: int): (int, int) -> real
    requires r(q, c) != 0.0
  {
    (i: int, j: int) => r(i, j) - r(i, c) / r(q, c) * r(q, j)
  }

  ghost function Shares(y: int -> real, r: (int, int) -> real, q: int, c: int): int -> real
    requires r(q, c) != 0.0
  {
    (i: int) => y(i) * (r(i, c) / r(q, c))
  }

  /** y with the weight of row q that makes up for what was taken off. */
  ghost function With(y: int -> real, q: int, w: real): int -> real {
    (i: int) => if i == q then w else y(i)
  }

  lemma ClearedTerm(y: real, a: real, s: real, b: real)
    ensures y * a == y * (a - s * b) + b * (y * s)
  {
  }

  lemma ClearedAt(y: int -> real, r: (int, int) -> real, q: int, c: int, i: int, j: int, s: real)
    requires r(q, c) != 0.0 && s == r(i, c) / r(q, c)
    ensures Weighted(y, r, j)(i) == Weighted(y, Cleared(r, q, c), j)(i) + r(q, j) * Shares(y, r, q, c)(i)
  {
    ClearedTerm(y(i), r(i, j), s, r(q, j));
    assert Cleared(r, q, c)(i, j) == r(i, j) - s * r(q, j);
    assert Shares(y, r, q, c)(i) == y(i) * s;
  }

  /** A column of the weighted rows before and after the clearing. */
  lemma ClearedColumn(y: int -> real, r: (int, int) -> real, q: int, c: int, n: nat, j: int)
    requires r(q, c) != 0.0
    ensures Sum(n, Weighted(y, r, j)) == Sum(n, Weighted(y, Cleared(r, q, c), j)) + r(q, j) * Sum(n, Shares(y, r, q, c))
  {
    var scaled := (i: int) => r(q, j) * Shares(y, r, q, c)(i);
    forall i | 0 <= i < n ensures Weighted(y, r, j)(i) == Weighted(y, Cleared(r, q, c), j)(i) + scaled(i) {
      ClearedAt(y, r, q, c, i, j, r(i, c) / r(q, c));
      assert scaled(i) == r(q, j) * Shares(y, r, q, c)(i);
    }
    SumAdd(n, Weighted(y, Cleared(r, q, c), j), scaled, Weighted(y, r, j));
    SumScale(n, r(q, j), Shares(y, r, q, c), scaled);
  }

  lemma WithColumn(y: int -> real, r: (int, int) -> real, q: nat, w: real, n: nat, j: int)
    requires q < n && y(q) == 0.0
    ensures Sum(n, Weighted(With(y, q, w), r, j)) == Sum(n, Weighted(y, r, j)) + w * r(q, j)
  {
    SumUpdate(n, Weighted(y, r, j), Weighted(With(y, q, w), r, j), q);
  }

  lemma ClearedIsZero(y: int -> real, r: (int, int) -> real, q: int, c: int, n: nat)
    requires r(q, c) != 0.0
    ensures Sum(n, Weighted(y, Cleared(r, q, c), c)) == 0.0
  {
    forall i | 0 <= i < n ensures Weighted(y, Cleared(r, q, c), c)(i) == 0.0 {
      assert r(i, c) / r(q, c) * r(q, c) == r(i, c);
    }
    SumZero(n, Weighted(y, Cleared(r, q, c), c));
  }

  lemma RestoredColumn(y: int -> real, r: (int, int) -> real, q: nat, n: nat, columns: nat, j: nat)
    requires q < n && r(q, columns) != 0.0 && y(q) == 0.0 && j <= columns
    requires j < columns ==> Sum(n, Weighted(y, Cleared(r, q, columns), j)) == 0.0
    ensures Sum(n, Weighted(With(y, q, 0.0 - Sum(n, Shares(y, r, q, columns))), r, j)) == 0.0
  {
    var s := Sum(n, Shares(y, r, q, columns));
    WithColumn(y, r, q, 0.0 - s, n, j);
    ClearedColumn(y, r, q, columns, n, j);
    if j == columns { ClearedIsZero(y, r, q, columns, n); }
    Cancels(Sum(n, Weighted(y, r, j)), r(q, j), s);
  }

  lemma Restored(y: int -> real, r: (int, int) -> real, rows: set<nat>, q: nat, n: nat, columns: nat)
    requires q < n && q in rows && r(q, columns) != 0.0
    requires Dependency(y, Cleared(r, q, columns), rows - {q}, n, columns)
    ensures Dependency(With(y, q, 0.0 - Sum(n, Shares(y, r, q, columns))), r, rows, n, columns + 1)
  {
    var z := With(y, q, 0.0 - Sum(n, Shares(y, r, q, columns)));
    assert y(q) == 0.0;
    forall j | 0 <= j < columns + 1 ensures Sum(n, Weighted(z, r, j)) == 0.0 {
      RestoredColumn(y, r, q, n, columns, j);
    }
    var i: nat :| i in rows - {q} && y(i) != 0.0;
    assert z(i) != 0.0;
  }

  lemma Cancels(x: real, r: real, s: real)
    ensures x == r * s ==> x + (0.0 - s) * r == 0.0
  {
  }

  lemma {:induction false} RowsDepend(r: (int, int) -> real, rows: set<nat>, n: nat, columns: nat) returns (y: int -> real)
    requires |rows| > columns && forall i: nat :: i in rows ==> i < n
    ensures Dependency(y, r, rows, n, columns)
    decreases columns
  {
    if columns == 0 {
      assert rows != {};
      var q :| q in rows;
      y := (i: int) => if i == q then 1.0 else 0.0;
      assert y(q) != 0.0;
    } else {
      var c := columns - 1;
      if q: nat :| q in rows && r(q, c) != 0.0 {
        var x := RowsDepend(Cleared(r, q, c), rows - {q}, n, c);
        Restored(x, r, rows, q, n, c);
        y := With(x, q, 0.0 - Sum(n, Shares(x, r, q, c)));
      } else {
        y := RowsDepend(r, rows, n, c);
        forall i | 0 <= i < n ensures Weighted(y, r, c)(i) == 0.0 {}
        SumZero(n, Weighted(y, r, c));
      }
    }
  }

  /** ---------------- a stage without a pivot ---------------- */

  /** The columns of L that are done, and the rest of the matrix without column k. */
  ghost function Parts(m: Matrix, k: nat): (int, int) -> real {
    (i: int, t: int) => if t < k then Lower(m, i, t) else Rest(m, i, t + 1, k)
  }

  ghost function AllRows(n: nat): (s: set<nat>)
    ensures forall i: nat :: i in s <==> i < n
    ensures |s| == n
  {
    if n == 0 then {} else AllRows(n - 1) + {n - 1}
  }

  ghost function AsVector(y: int -> real, n: nat): (v: Vector)
    ensures |v| == n && forall i :: 0 <= i < n ==> v[i] == y(i)
  {
    seq(n, i => y(i))
  }

  ghost function DoneMixed(m: Matrix, v: Vector, j: int): (int, int) -> real {
    (i: int, t: int) => Elem(v, i) * Lower(m, i, t) * Upper(m, t, j)
  }

  ghost function RestTerm(m: Matrix, v: Vector, j: int, k: nat): int -> real {
    (i: int) => Elem(v, i) * Rest(m, i, j, k)
  }

  ghost function DoneTerm(m: Matrix, v: Vector, j: int, k: nat): int -> real {
    (i: int) => Elem(v, i) * Product(m, i, j, k)
  }

  lemma DoneVanishes(m: Matrix, v: Vector, n: nat, k: nat, j: int)
    requires forall t :: 0 <= t < k ==> Sum(n, LeftTerm(m, v, t)) == 0.0
    ensures Sum(n, DoneTerm(m, v, j, k)) == 0.0
  {
    var zero := (t: int) => 0.0;
    forall i | 0 <= i < n ensures DoneTerm(m, v, j, k)(i) == Sum(k, RowOf(DoneMixed(m, v, j), i)) {
      forall t | 0 <= t < k ensures RowOf(DoneMixed(m, v, j), i)(t) == Elem(v, i) * Term(m, i, j)(t) {
        Associate(Elem(v, i), Lower(m, i, t), Upper(m, t, j));
      }
      SumScale(k, Elem(v, i), Term(m, i, j), RowOf(DoneMixed(m, v, j), i));
    }
    forall t | 0 <= t < k ensures zero(t) == Sum(n, ColumnOf(DoneMixed(m, v, j), t)) {
      forall i | 0 <= i < n ensures ColumnOf(DoneMixed(m, v, j), t)(i) == Upper(m, t, j) * LeftTerm(m, v, t)(i) {
        Reorder(Elem(v, i), Lower(m, i, t), Upper(m, t, j));
      }
      SumScale(n, Upper(m, t, j), LeftTerm(m, v, t), ColumnOf(DoneMixed(m, v, j), t));
    }
    SumSwap(n, k, DoneMixed(m, v, j), DoneTerm(m, v, j, k), zero);
    SumZero(k, zero);
  }

  lemma RowSplits(a0: Matrix, m: Matrix, p: seq<int>, v: Vector, k: nat, i: nat, j: nat)
    requires i < |p| && At(a0, p[i], j) == Product(m, i, j, k) + Rest(m, i, j, k)
    ensures LeftRow(a0, p, v, j)(i) == DoneTerm(m, v, j, k)(i) + RestTerm(m, v, j, k)(i)
  {
    Distributes(Elem(v, i), Product(m, i, j, k), Rest(m, i, j, k));
  }

  /** The input's columns are those of the finished part and of the rest. */
  lemma ColumnVanishes(a0: Matrix, m: Matrix, p: seq<int>, v: Vector, n: nat, k: nat, j: nat)
    requires Stage(a0, m, p, n, k) && j < n
    requires forall t :: 0 <= t < k ==> Sum(n, LeftTerm(m, v, t)) == 0.0
    requires Sum(n, RestTerm(m, v, j, k)) == 0.0
    ensures Sum(n, LeftRow(a0, p, v, j)) == 0.0
  {
    DoneVanishes(m, v, n, k, j);
    forall i | 0 <= i < n ensures LeftRow(a0, p, v, j)(i) == DoneTerm(m, v, j, k)(i) + RestTerm(m, v, j, k)(i) {
      RowSplits(a0, m, p, v, k, i, j);
    }
    SumAdd(n, DoneTerm(m, v, j, k), RestTerm(m, v, j, k), LeftRow(a0, p, v, j));
  }

  lemma Distributes(a: real, b: real, c: real)
    ensures a * (b + c) == a * b + a * c
  {
  }

  lemma LeftPart(m: Matrix, y: int -> real, n: nat, k: nat, t: nat)
    requires t < k && Sum(n, Weighted(y, Parts(m, k), t)) == 0.0
    ensures Sum(n, LeftTerm(m, AsVector(y, n), t)) == 0.0
  {
    SumEq(n, LeftTerm(m, AsVector(y, n), t), Weighted(y, Parts(m, k), t));
  }

  lemma RestPart(m: Matrix, y: int -> real, n: nat, k: nat, j: nat)
    requires k < n && j < n && (j > k ==> Sum(n, Weighted(y, Parts(m, k), j - 1)) == 0.0)
    requires forall i :: k <= i < n ==> At(m, i, k) == 0.0
    ensures Sum(n, RestTerm(m, AsVector(y, n), j, k)) == 0.0
  {
    if j > k {
      SumEq(n, RestTerm(m, AsVector(y, n), j, k), Weighted(y, Parts(m, k), j - 1));
    } else {
      forall i | 0 <= i < n ensures RestTerm(m, AsVector(y, n), j, k)(i) == 0.0 {}
      SumZero(n, RestTerm(m, AsVector(y, n), j, k));
    }
  }

  /** A stage that finds its whole column zero: the input has no right inverse. */
  lemma NoPivotNoInverse(a0: Matrix, m: Matrix, p: seq<int>, n: nat, k: nat, inv: Matrix)
    requires Stage(a0, m, p, n, k) && k < n && forall i :: k <= i < n ==> At(m, i, k) == 0.0
    ensures !RightInverse(a0, inv, n)
  {
    var y := RowsDepend(Parts(m, k), AllRows(n), n, n - 1);
    var v := AsVector(y, n);
    forall t | 0 <= t < k ensures Sum(n, LeftTerm(m, v, t)) == 0.0 { LeftPart(m, y, n, k, t); }
    forall j | 0 <= j < n ensures Sum(n, LeftRow(a0, p, v, j)) == 0.0 {
      RestPart(m, y, n, k, j);
      ColumnVanishes(a0, m, p, v, n, k, j);
    }
    var i: nat :| i in AllRows(n) && y(i) != 0.0;
    LeftNullNoInverse(a0, p, v, n, i, inv);
  }

  lemma NextStage(a0: Matrix, n: nat, k: nat, p: seq<int>)
    requires Square(a0, n) && k < n && Stage(a0, Found(a0, n, k), p, n, k) && HasPivot(Found(a0, n, k), n, k)
    ensures Stage(a0, Found(a0, n, k + 1), Swapped(p, k, Largest(Found(a0, n, k), k, n)), n, k + 1)
  {
    var m := Found(a0, n, k);
    var q := Largest(m, k, n);
    assert Abs(At(m, q, k)) >= DELTA;
    PivotStage(a0, m, p, n, k, q);
  }

  lemma {:induction false} FoundStage(a0: Matrix, n: nat, k: nat) returns (p: seq<int>)
    requires Square(a0, n) && k <= n && AcceptedTo(a0, n, k)
    ensures Stage(a0, Found(a0, n, k), p, n, k)
  {
    if k == 0 {
      p := seq(n, i => i);
      StageStart(a0, p, n);
    } else {
      var before := FoundStage(a0, n, k - 1);
      NextStage(a0, n, k - 1, before);
      p := Swapped(before, k - 1, Largest(Found(a0, n, k - 1), k - 1, n));
    }
  }

  /** So a matrix rejected for a column of zeros is singular. */
  lemma ZeroColumnIsSingular(a0: Matrix, n: nat, k: nat, inv: Matrix)
    requires Square(a0, n) && k < n && AcceptedTo(a0, n, k)
    requires forall i :: k <= i < n ==> At(Found(a0, n, k), i, k) == 0.0
    ensures !RightInverse(a0, inv, n)
  {
    var p := FoundStage(a0, n, k);
    NoPivotNoInverse(a0, Found(a0, n, k), p, n, k, inv);
  }

  /** ---------------- a stage whose pivots are small ---------------- */

  ghost function Diagonal(n: nat, d: real): (m: Matrix)
    ensures Square(m, n) && forall i, j :: 0 <= i < n && 0 <= j < n ==> m[i][j] == if i == j then d else 0.0
  {
    seq(n, i requires 0 <= i < n => seq(n, j requires 0 <= j < n => if i == j then d else 0.0))
  }

  lemma DiagonalInverse(n: nat, d: real)
    requires d != 0.0
    ensures RightInverse(Diagonal(n, d), Diagonal(n, 1.0 / d), n)
  {
    var a, x := Diagonal(n, d), Diagonal(n, 1.0 / d);
    forall j | 0 <= j < n ensures Solves(a, Column(x, j), Unit(n, j), n) {
      forall i | 0 <= i < n ensures Sum(n, RowTerm(a, Column(x, j), i)) == Elem(Unit(n, j), i) {
        SumSingle(n, RowTerm(a, Column(x, j), i), i);
        assert d * (1.0 / d) == 1.0;
      }
    }
  }

  /** The input: at every size from two on, a diagonal below DELTA is rejected although it has an inverse. */
  lemma InvertibleRejected(n: nat, d: real)
    requires n >= 2 && 0.0 < d < DELTA
    ensures !Accepted(Diagonal(n, d), n) && RightInverse(Diagonal(n, d), Diagonal(n, 1.0 / d), n)
  {
    DiagonalInverse(n, d);
    assert Found(Diagonal(n, d), n, 0) == Diagonal(n, d);
    forall i | 0 <= i < n ensures Abs(At(Diagonal(n, d), i, 0)) < DELTA {}
    assert !HasPivot(Found(Diagonal(n, d), n, 0), n, 0);
  }
}
