/** Finite sums of reals, and matrices and vectors as sequences. */
module FiniteSums {

  type Vector = seq<real>

  type Matrix = seq<seq<real>>

  ghost function At(m: Matrix, i: int, j: int): real {
    if 0 <= i < |m| && 0 <= j < |m[i]| then m[i][j] else 0.0
  }

  ghost function Elem(v: Vector, i: int): real {
    if 0 <= i < |v| then v[i] else 0.0
  }

  ghost predicate Square(m: Matrix, n: nat) {
    |m| == n && forall i :: 0 <= i < n ==> |m[i]| == n
  }

  ghost function Sum(n: nat, f: int -> real): real {
    if n == 0 then 0.0 else Sum(n - 1, f) + f(n - 1)
  }

  lemma {:induction false} SumEq(n: nat, f: int -> real, g: int -> real)
    requires forall i :: 0 <= i < n ==> f(i) == g(i)
    ensures Sum(n, f) == Sum(n, g)
  {
    if n > 0 { SumEq(n - 1, f, g); }
  }

  lemma {:induction false} SumAdd(n: nat, f: int -> real, g: int -> real, h: int -> real)
    requires forall i :: 0 <= i < n ==> h(i) == f(i) + g(i)
    ensures Sum(n, h) == Sum(n, f) + Sum(n, g)
  {
    if n > 0 { SumAdd(n - 1, f, g, h); }
  }

  lemma {:induction false} SumScale(n: nat, c: real, f: int -> real, h: int -> real)
    requires forall i :: 0 <= i < n ==> h(i) == c * f(i)
    ensures Sum(n, h) == c * Sum(n, f)
  {
    if n > 0 { SumScale(n - 1, c, f, h); }
  }

  lemma {:induction false} SumZero(n: nat, f: int -> real)
    requires forall i :: 0 <= i < n ==> f(i) == 0.0
    ensures Sum(n, f) == 0.0
  {
    if n > 0 { SumZero(n - 1, f); }
  }

  /** All terms but one vanish. */
  lemma {:induction false} SumSingle(n: nat, f: int -> real, k: nat)
    requires k < n && forall i :: 0 <= i < n && i != k ==> f(i) == 0.0
    ensures Sum(n, f) == f(k)
  {
    if k == n - 1 { SumZero(n - 1, f); } else { SumSingle(n - 1, f, k); }
  }

  /** Terms from k on vanish. */
  lemma {:induction false} SumPrefix(n: nat, f: int -> real, k: nat)
    requires k <= n && forall i :: k <= i < n ==> f(i) == 0.0
    ensures Sum(n, f) == Sum(k, f)
  {
    if k < n { SumPrefix(n - 1, f, k); }
  }

  ghost function RowOf(f: (int, int) -> real, i: int): int -> real { (j: int) => f(i, j) }

  ghost function ColumnOf(f: (int, int) -> real, j: int): int -> real { (i: int) => f(i, j) }

  /** Exchange of the order of summation: r holds the row sums of f, c its column sums. */
  lemma {:induction false} SumSwap(n: nat, k: nat, f: (int, int) -> real, r: int -> real, c: int -> real)
    requires forall i :: 0 <= i < n ==> r(i) == Sum(k, RowOf(f, i))
    requires forall j :: 0 <= j < k ==> c(j) == Sum(n, ColumnOf(f, j))
    ensures Sum(n, r) == Sum(k, c)
  {
    if n == 0 {
      SumZero(k, c);
    } else {
      var c' := (j: int) => Sum(n - 1, ColumnOf(f, j));
      SumSwap(n - 1, k, f, r, c');
      SumAdd(k, c', RowOf(f, n - 1), c);
    }
  }
}
