/** In-place pivoted LUP decomposition, the triangular solves and the inverse
    (doubles as reals). */
module Lup {
  import opened FiniteSums

  const DELTA := 1.0e-10

  function Abs(x: real): (r: real)
    ensures r >= 0.0 && (r == x || r == -x)
  {
    if x < 0.0 then -x else x
  }

  /** The factors stored in one matrix; L has an implicit unit diagonal. */
  ghost function Lower(m: Matrix, i: int, k: int): real {
    if i > k then At(m, i, k) else if i == k then 1.0 else 0.0
  }

  ghost function Upper(m: Matrix, k: int, j: int): real {
    if k <= j then At(m, k, j) else 0.0
  }

  ghost function Term(m: Matrix, i: int, j: int): int -> real {
    (k: int) => Lower(m, i, k) * Upper(m, k, j)
  }

  /** The (i,j) element of the product of the first k columns of L and rows of U. */
  ghost function Product(m: Matrix, i: int, j: int, k: nat): real { Sum(k, Term(m, i, j)) }

  /** What is left of the Schur complement at (i,j) before step k. */
  ghost function Rest(m: Matrix, i: int, j: int, k: nat): real {
    if i >= k && j >= k then At(m, i, j) else 0.0
  }

  ghost predicate Permutation(p: seq<int>, n: nat) {
    && |p| == n
    && (forall i :: 0 <= i < n ==> 0 <= p[i] < n)
    && (forall i, j :: 0 <= i < j < n ==> p[i] != p[j])
  }

  /** Before elimination step k: the first k columns of L and rows of U are done,
      and the rest of the matrix holds the Schur complement of the permuted input. */
  ghost predicate Stage(a0: Matrix, m: Matrix, p: seq<int>, n: nat, k: nat) {
    && Square(a0, n) && Square(m, n) && Permutation(p, n)
    && (forall i, j :: 0 <= i < n && 0 <= j < n ==>
          At(a0, p[i], j) == Product(m, i, j, k) + Rest(m, i, j, k))
    && (forall i, t :: 0 <= t < k && t < i < n ==> Abs(At(m, i, t)) <= 1.0)
    && (forall t :: 0 <= t < k && t < n ==> Abs(At(m, t, t)) >= DELTA)
  }

  /** The finished decomposition: P A0 = L U, with small multipliers. */
  ghost predicate Decomposed(a0: Matrix, m: Matrix, p: seq<int>, n: nat) {
    && Square(a0, n) && Square(m, n) && Permutation(p, n)
    && (forall i, j :: 0 <= i < n && 0 <= j < n ==> Product(m, i, j, n) == At(a0, p[i], j))
    && (forall i, t :: 0 <= t < i < n ==> Abs(At(m, i, t)) <= 1.0)
    && (forall t :: 0 <= t < n - 1 ==> Abs(At(m, t, t)) >= DELTA)
  }

  ghost function Swapped<T>(s: seq<T>, i: nat, j: nat): seq<T>
    requires i < |s| && j < |s|
  {
    s[i := s[j]][j := s[i]]
  }

  /** One elimination step below and right of the pivot (k,k). */
  ghost function Eliminated(m: Matrix, k: nat): (r: Matrix)
    requires k < |m| && Square(m, |m|) && m[k][k] != 0.0
    ensures Square(r, |m|)
    ensures forall i, j :: 0 <= i <= k && 0 <= j < |m| ==> r[i][j] == m[i][j]
    ensures forall i, j :: k < i < |m| && 0 <= j < k ==> r[i][j] == m[i][j]
    ensures forall i :: k < i < |m| ==> r[i][k] == m[i][k] / m[k][k]
    ensures forall i, j :: k < i < |m| && k < j < |m| ==> r[i][j] == m[i][j] - r[i][k] * m[k][j]
  {
    seq(|m|, i requires 0 <= i < |m| => if i <= k then m[i] else EliminatedRowOf(m, k, i))
  }

  ghost function EliminatedRowOf(m: Matrix, k: nat, i: nat): (r: seq<real>)
    requires k < |m| && i < |m| && Square(m, |m|) && m[k][k] != 0.0
    ensures |r| == |m| && r[k] == m[i][k] / m[k][k]
    ensures forall j :: 0 <= j < k ==> r[j] == m[i][j]
    ensures forall j :: k < j < |m| ==> r[j] == m[i][j] - r[k] * m[k][j]
  {
    seq(|m|, j requires 0 <= j < |m| =>
      if j < k then m[i][j]
      else if j == k then m[i][k] / m[k][k]
      else m[i][j] - m[i][k] / m[k][k] * m[k][j])
  }

  lemma StageStart(a0: Matrix, p: seq<int>, n: nat)
    requires Square(a0, n) && |p| == n && forall i :: 0 <= i < n ==> p[i] == i
    ensures Stage(a0, a0, p, n, 0)
  {
  }

  /** Where row i of the swapped matrix came from. */
  function Source(i: int, k: int, q: int): int { if i == k then q else if i == q then k else i }

  lemma SwapElement(m: Matrix, n: nat, k: nat, q: nat, i: nat, j: nat)
    requires Square(m, n) && k <= q < n && i < n && j < n
    ensures Product(Swapped(m, k, q), i, j, k) == Product(m, Source(i, k, q), j, k)
    ensures At(Swapped(m, k, q), i, j) == At(m, Source(i, k, q), j)
    ensures i >= k <==> Source(i, k, q) >= k
  {
    var m' := Swapped(m, k, q);
    var i0 := Source(i, k, q);
    assert m'[i] == m[i0];
    forall t | 0 <= t < k ensures Term(m', i, j)(t) == Term(m, i0, j)(t) {
      assert m'[t] == m[t];
      assert Lower(m', i, t) == Lower(m, i0, t);
    }
    SumEq(k, Term(m', i, j), Term(m, i0, j));
  }

  lemma SwappedPermutation(p: seq<int>, n: nat, k: nat, q: nat)
    requires Permutation(p, n) && k < n && q < n
    ensures Permutation(Swapped(p, k, q), n)
    ensures forall i :: 0 <= i < n ==> Swapped(p, k, q)[i] == p[Source(i, k, q)]
  {
  }

  lemma SwapStage(a0: Matrix, m: Matrix, p: seq<int>, n: nat, k: nat, q: nat)
    requires Stage(a0, m, p, n, k) && k <= q < n
    ensures Stage(a0, Swapped(m, k, q), Swapped(p, k, q), n, k)
  {
    var m' := Swapped(m, k, q);
    var p' := Swapped(p, k, q);
    SwappedPermutation(p, n, k, q);
    forall i, j | 0 <= i < n && 0 <= j < n
      ensures At(a0, p'[i], j) == Product(m', i, j, k) + Rest(m', i, j, k)
    {
      SwapElement(m, n, k, q, i, j);
    }
    forall i, t | 0 <= t < k && t < i < n ensures Abs(At(m', i, t)) <= 1.0 {
      assert At(m', i, t) == At(m, Source(i, k, q), t);
    }
    forall t | 0 <= t < k && t < n ensures Abs(At(m', t, t)) >= DELTA {
      assert At(m', t, t) == At(m, t, t);
    }
  }

  lemma EliminatedPrefix(m: Matrix, n: nat, k: nat, i: nat, j: nat)
    requires Square(m, n) && k < n && m[k][k] != 0.0 && i < n && j < n
    ensures Product(m, i, j, k) == Product(Eliminated(m, k), i, j, k)
  {
    var r := Eliminated(m, k);
    forall t | 0 <= t < k ensures Term(m, i, j)(t) == Term(r, i, j)(t) { SameTerm(m, r, i, j, t); }
    SumEq(k, Term(m, i, j), Term(r, i, j));
  }

  lemma SameTerm(m: Matrix, r: Matrix, i: int, j: int, t: int)
    requires Lower(m, i, t) == Lower(r, i, t) && Upper(m, t, j) == Upper(r, t, j)
    ensures Term(m, i, j)(t) == Term(r, i, j)(t)
  {
  }

  lemma EliminatedBelow(m: Matrix, n: nat, k: nat, i: nat, j: nat)
    requires Square(m, n) && k < n && m[k][k] != 0.0 && k < i < n && k <= j < n
    ensures var r := Eliminated(m, k);
            m[i][j] == r[i][k] * m[k][j] + (if j > k then r[i][j] else 0.0)
  {
    var q := m[i][k] / m[k][k];
    if j == k { assert q * m[k][k] == m[i][k]; }
  }

  lemma EliminatedParts(m: Matrix, n: nat, k: nat, i: nat, j: nat)
    requires Square(m, n) && k < n && m[k][k] != 0.0 && i < n && j < n
    ensures var r := Eliminated(m, k);
            && Lower(r, i, k) == (if i > k then r[i][k] else if i == k then 1.0 else 0.0)
            && Upper(r, k, j) == (if j >= k then m[k][j] else 0.0)
            && Rest(m, i, j, k) == (if i >= k && j >= k then m[i][j] else 0.0)
            && Rest(r, i, j, k + 1) == (if i > k && j > k then r[i][j] else 0.0)
  {
  }

  lemma Moved(i: int, j: int, k: int, x: real, rx: real, ri: real, mk: real, l: real, u: real, rest: real, left: real)
    requires l == if i > k then ri else if i == k then 1.0 else 0.0
    requires u == if j >= k then mk else 0.0
    requires rest == if i >= k && j >= k then x else 0.0
    requires left == if i > k && j > k then rx else 0.0
    requires i == k ==> x == mk
    requires i > k && j >= k ==> x == ri * mk + (if j > k then rx else 0.0)
    ensures rest == l * u + left
  {
    if i < k { assert l * u == 0.0; } else if j < k { assert l * u == 0.0; }
  }

  /** What step k moves from the Schur complement into the product. */
  lemma EliminatedTerm(m: Matrix, n: nat, k: nat, i: nat, j: nat, l: real, u: real)
    requires Square(m, n) && k < n && m[k][k] != 0.0 && i < n && j < n
    requires l == Lower(Eliminated(m, k), i, k) && u == Upper(Eliminated(m, k), k, j)
    ensures Rest(m, i, j, k) == l * u + Rest(Eliminated(m, k), i, j, k + 1)
  {
    var r := Eliminated(m, k);
    EliminatedParts(m, n, k, i, j);
    if i > k && j >= k { EliminatedBelow(m, n, k, i, j); }
    Moved(i, j, k, m[i][j], r[i][j], r[i][k], m[k][j], l, u, Rest(m, i, j, k), Rest(r, i, j, k + 1));
  }

  lemma ProductStep(m: Matrix, i: int, j: int, k: nat, l: real, u: real)
    requires l == Lower(m, i, k) && u == Upper(m, k, j)
    ensures Product(m, i, j, k + 1) == Product(m, i, j, k) + l * u
  {
    assert Product(m, i, j, k + 1) == Product(m, i, j, k) + Term(m, i, j)(k);
  }

  lemma Regroup(p: real, rest: real, l: real, u: real, left: real, p': real)
    requires rest == l * u + left && p' == p + l * u
    ensures p + rest == p' + left
  {
  }

  lemma EliminatedRow(m: Matrix, r: Matrix, n: nat, k: nat, i: nat, j: nat)
    requires Square(m, n) && k < n && m[k][k] != 0.0 && i < n && j < n && r == Eliminated(m, k)
    ensures Product(m, i, j, k) + Rest(m, i, j, k) == Product(r, i, j, k + 1) + Rest(r, i, j, k + 1)
  {
    var l, u := Lower(r, i, k), Upper(r, k, j);
    EliminatedPrefix(m, n, k, i, j);
    EliminatedTerm(m, n, k, i, j, l, u);
    ProductStep(r, i, j, k, l, u);
    Regroup(Product(m, i, j, k), Rest(m, i, j, k), l, u, Rest(r, i, j, k + 1), Product(r, i, j, k + 1));
  }

  lemma EliminateStage(a0: Matrix, m: Matrix, p: seq<int>, n: nat, k: nat)
    requires Stage(a0, m, p, n, k) && k < n && Abs(m[k][k]) >= DELTA
    requires forall i :: k <= i < n ==> Abs(m[i][k]) <= Abs(m[k][k])
    ensures Stage(a0, Eliminated(m, k), p, n, k + 1)
  {
    var r := Eliminated(m, k);
    forall i, j | 0 <= i < n && 0 <= j < n
      ensures At(a0, p[i], j) == Product(r, i, j, k + 1) + Rest(r, i, j, k + 1)
    {
      EliminatedRow(m, r, n, k, i, j);
    }
    forall i, t | 0 <= t < k + 1 && t < i < n ensures Abs(At(r, i, t)) <= 1.0 {
      if t == k { Quotient(m[i][k], m[k][k]); } else { assert At(r, i, t) == At(m, i, t); }
    }
    forall t | 0 <= t < k + 1 && t < n ensures Abs(At(r, t, t)) >= DELTA {
      assert At(r, t, t) == At(m, t, t);
    }
  }

  lemma Quotient(x: real, y: real)
    requires y != 0.0 && Abs(x) <= Abs(y)
    ensures Abs(x / y) <= 1.0
  {
    var z := x / y;
    AbsTimes(z, y);
    AtMostOne(Abs(z), Abs(y), Abs(z * y));
  }

  lemma AtMostOne(z: real, y: real, w: real)
    requires y > 0.0 && z * y == w && w <= y
    ensures z <= 1.0
  {
    assert (1.0 - z) * y == y - w;
  }

  lemma AbsTimes(x: real, y: real)
    ensures Abs(x) * Abs(y) == Abs(x * y)
  {
    if x < 0.0 && y < 0.0 { assert x * y > 0.0; }
    else if x < 0.0 { assert x * y <= 0.0; }
    else if y < 0.0 { assert x * y <= 0.0; }
    else { assert x * y >= 0.0; }
  }

  lemma StageEnd(a0: Matrix, m: Matrix, p: seq<int>, n: nat)
    requires Stage(a0, m, p, n, if n == 0 then 0 else n - 1)
    ensures Decomposed(a0, m, p, n)
  {
    if n > 0 {
      forall i, j | 0 <= i < n && 0 <= j < n ensures Product(m, i, j, n) == At(a0, p[i], j) {
        assert Product(m, i, j, n) == Product(m, i, j, n - 1) + Lower(m, i, n - 1) * Upper(m, n - 1, j);
      }
    }
  }

  /** ---------------- which matrices are rejected ---------------- */

  /** The first of the rows k .. hi-1 whose element in column k is largest. */
  ghost function Largest(m: Matrix, k: nat, hi: nat): (q: nat)
    requires k < hi <= |m|
    ensures k <= q < hi
    ensures forall i :: k <= i < hi ==> Abs(At(m, i, k)) <= Abs(At(m, q, k))
    ensures forall i :: k <= i < q ==> Abs(At(m, i, k)) < Abs(At(m, q, k))
  {
    if hi == k + 1 then k
    else
      var q := Largest(m, k, hi - 1);
      if Abs(At(m, hi - 1, k)) > Abs(At(m, q, k)) then hi - 1 else q
  }

  lemma LargestIs(m: Matrix, k: nat, hi: nat, q: nat)
    requires k <= q < hi <= |m|
    requires forall i :: k <= i < hi ==> Abs(At(m, i, k)) <= Abs(At(m, q, k))
    requires forall i :: k <= i < q ==> Abs(At(m, i, k)) < Abs(At(m, q, k))
    ensures q == Largest(m, k, hi)
  {
  }

  /** The matrix that stage k finds, if no stage before it rejects. */
  ghost function Found(a0: Matrix, n: nat, k: nat): (m: Matrix)
    requires Square(a0, n) && k <= n
    ensures Square(m, n)
  {
    if k == 0 then a0
    else
      var m := Found(a0, n, k - 1);
      var m' := Swapped(m, k - 1, Largest(m, k - 1, n));
      if m'[k - 1][k - 1] == 0.0 then m' else Eliminated(m', k - 1)
  }

  /** Some element of column k, from row k down, is not below DELTA. */
  ghost predicate HasPivot(m: Matrix, n: nat, k: nat) {
    exists i :: k <= i < n && Abs(At(m, i, k)) >= DELTA
  }

  ghost predicate AcceptedTo(a0: Matrix, n: nat, k: int)
    requires Square(a0, n) && k <= n
  {
    forall t: nat :: t < k ==> HasPivot(Found(a0, n, t), n, t)
  }

  /** Every stage finds a pivot. */
  ghost predicate Accepted(a0: Matrix, n: nat)
    requires Square(a0, n)
  {
    AcceptedTo(a0, n, n - 1)
  }

  lemma NextAccepted(a0: Matrix, n: nat, k: nat, ok: bool)
    requires Square(a0, n) && k < n - 1 && AcceptedTo(a0, n, k) && ok == HasPivot(Found(a0, n, k), n, k)
    ensures if ok then AcceptedTo(a0, n, k + 1) else !Accepted(a0, n)
  {
  }

  lemma FoundNext(a0: Matrix, n: nat, k: nat, m': Matrix)
    requires Square(a0, n) && k < n && m' == Swapped(Found(a0, n, k), k, Largest(Found(a0, n, k), k, n)) && m'[k][k] != 0.0
    ensures Found(a0, n, k + 1) == Eliminated(m', k)
  {
  }

  /** ---------------- the program ---------------- */

  ghost function Mat(a: array2<real>): (m: Matrix)
    reads a
    ensures |m| == a.Length0
    ensures forall i :: 0 <= i < |m| ==> |m[i]| == a.Length1
    ensures forall i, j :: 0 <= i < |m| && 0 <= j < a.Length1 ==> m[i][j] == a[i, j]
  {
    seq(a.Length0, i requires 0 <= i < a.Length0 reads a =>
      seq(a.Length1, j requires 0 <= j < a.Length1 reads a => a[i, j]))
  }

  lemma SameMatrix(x: Matrix, y: Matrix)
    requires |x| == |y| && forall i :: 0 <= i < |x| ==> |x[i]| == |y[i]|
    requires forall i, j :: 0 <= i < |x| && 0 <= j < |x[i]| ==> x[i][j] == y[i][j]
    ensures x == y
  {
    forall i | 0 <= i < |x| ensures x[i] == y[i] {}
  }

  method FindPivot(a: array2<real>, n: nat, k: nat) returns (max: real, pivot: nat)
    requires a.Length0 == n && a.Length1 == n && k < n
    ensures max >= 0.0 && forall i :: k <= i < n ==> Abs(a[i, k]) <= max
    ensures max > 0.0 ==> k <= pivot < n && Abs(a[pivot, k]) == max && forall i :: k <= i < pivot ==> Abs(a[i, k]) < max
    ensures max >= DELTA <==> HasPivot(Mat(a), n, k)
    ensures max > 0.0 ==> pivot == Largest(Mat(a), k, n)
  {
    max, pivot := 0.0, 0;
    for i := k to n
      invariant max >= 0.0 && forall t :: k <= t < i ==> Abs(a[t, k]) <= max
      invariant max > 0.0 ==> k <= pivot < i && Abs(a[pivot, k]) == max && forall t :: k <= t < pivot ==> Abs(a[t, k]) < max
    {
      if Abs(a[i, k]) > max {
        max := Abs(a[i, k]);
        pivot := i;
      }
    }
    if max > 0.0 {
      assert Abs(At(Mat(a), pivot, k)) == max;
      LargestIs(Mat(a), k, n, pivot);
    }
  }

  method SwapRows(a: array2<real>, n: nat, k: nat, q: nat)
    requires a.Length0 == n && a.Length1 == n && k < n && q < n
    modifies a
    ensures Mat(a) == Swapped(old(Mat(a)), k, q)
  {
    ghost var m := Mat(a);
    for i := 0 to n
      invariant forall r, c :: 0 <= r < n && i <= c < n ==> a[r, c] == m[r][c]
      invariant forall r, c :: 0 <= r < n && 0 <= c < i ==> a[r, c] == Swapped(m, k, q)[r][c]
    {
      a[k, i], a[q, i] := a[q, i], a[k, i];
    }
    SameMatrix(Mat(a), Swapped(m, k, q));
  }

  /** The inner loops of one step, row i. */
  method EliminateRow(a: array2<real>, n: nat, k: nat, i: nat, ghost m: Matrix)
    requires a.Length0 == n && a.Length1 == n && k < i < n && a[k, k] != 0.0
    requires Square(m, n) && m[k][k] == a[k, k]
    requires forall y :: 0 <= y < n ==> a[k, y] == m[k][y] && a[i, y] == m[i][y]
    modifies a
    ensures forall y :: 0 <= y < n ==> a[i, y] == Eliminated(m, k)[i][y]
    ensures forall x, y :: 0 <= x < n && x != i && 0 <= y < n ==> a[x, y] == old(a[x, y])
  {
    ghost var r := Eliminated(m, k);
    a[i, k] := a[i, k] / a[k, k];
    for j := k + 1 to n
      invariant forall x, y :: 0 <= x < n && x != i && 0 <= y < n ==> a[x, y] == old(a[x, y])
      invariant forall y :: 0 <= y < j ==> a[i, y] == r[i][y]
      invariant forall y :: j <= y < n ==> a[i, y] == m[i][y]
    {
      assert a[k, j] == m[k][j];
      a[i, j] := a[i, j] - a[i, k] * a[k, j];
    }
  }

  method Eliminate(a: array2<real>, n: nat, k: nat)
    requires a.Length0 == n && a.Length1 == n && k < n && a[k, k] != 0.0
    modifies a
    ensures Mat(a) == Eliminated(old(Mat(a)), k)
  {
    ghost var m := Mat(a);
    ghost var r := Eliminated(m, k);
    for i := k + 1 to n
      invariant forall x, y :: 0 <= x < i && 0 <= y < n ==> a[x, y] == r[x][y]
      invariant forall x, y :: i <= x < n && 0 <= y < n ==> a[x, y] == m[x][y]
    {
      assert forall y :: 0 <= y < n ==> a[k, y] == r[k][y] && r[k][y] == m[k][y];
      EliminateRow(a, n, k, i, m);
    }
    SameMatrix(Mat(a), r);
  }

  /** What the search for the pivot gives the exchange and the elimination. */
  lemma PivotStage(a0: Matrix, m: Matrix, p: seq<int>, n: nat, k: nat, q: nat)
    requires Stage(a0, m, p, n, k) && k < n && m == Found(a0, n, k) && q == Largest(m, k, n) && Abs(m[q][k]) >= DELTA
    ensures var m' := Swapped(m, k, q);
            && m'[k][k] != 0.0 && Eliminated(m', k) == Found(a0, n, k + 1)
            && Stage(a0, Eliminated(m', k), Swapped(p, k, q), n, k + 1)
  {
    var m' := Swapped(m, k, q);
    SwapStage(a0, m, p, n, k, q);
    forall i | k <= i < n ensures Abs(m'[i][k]) <= Abs(m'[k][k]) {
      assert m'[i] == m[Source(i, k, q)];
      assert Abs(At(m, Source(i, k, q), k)) <= Abs(At(m, q, k));
    }
    FoundNext(a0, n, k, m');
    EliminateStage(a0, m', Swapped(p, k, q), n, k);
  }

  /** One pass of the outer loop: pivot to its place, then eliminate. */
  method Step(a: array2<real>, n: nat, p: array<int>, k: nat, ghost a0: Matrix) returns (ok: bool)
    requires a.Length0 == n && a.Length1 == n && p.Length == n && k < n
    requires Stage(a0, Mat(a), p[..], n, k) && Mat(a) == Found(a0, n, k)
    modifies a, p
    ensures ok <==> HasPivot(Found(a0, n, k), n, k)
    ensures ok ==> Stage(a0, Mat(a), p[..], n, k + 1) && Mat(a) == Found(a0, n, k + 1)
  {
    ghost var m, p0 := Mat(a), p[..];
    var max, pivot := FindPivot(a, n, k);
    if max < DELTA { return false; }
    PivotStage(a0, m, p0, n, k, pivot);
    p[k], p[pivot] := p[pivot], p[k];
    assert p[..] == Swapped(p0, k, pivot);
    SwapRows(a, n, k, pivot);
    Eliminate(a, n, k);
    ok := true;
  }

  method StartIdentity(n: nat, p: array<int>)
    requires p.Length == n
    modifies p
    ensures forall t :: 0 <= t < n ==> p[t] == t
  {
    for i := 0 to n
      invariant forall t :: 0 <= t < i ==> p[t] == t
    {
      p[i] := i;
    }
  }

  /** lupdcmp: false stands for the fatal "singular matrix", which comes exactly when some stage finds its
      whole column below DELTA. */
  method Lupdcmp(a: array2<real>, n: nat, p: array<int>) returns (ok: bool)
    requires a.Length0 == n && a.Length1 == n && p.Length == n
    modifies a, p
    ensures ok ==> Decomposed(old(Mat(a)), Mat(a), p[..], n)
    ensures Square(old(Mat(a)), n) && (ok <==> Accepted(old(Mat(a)), n))
  {
    ghost var a0 := Mat(a);
    StartIdentity(n, p);
    assert Mat(a) == a0;
    StageStart(a0, p[..], n);
    for k := 0 to if n == 0 then 0 else n - 1
      invariant Stage(a0, Mat(a), p[..], n, k) && Mat(a) == Found(a0, n, k)
      invariant AcceptedTo(a0, n, k)
    {
      ok := Step(a, n, p, k, a0);
      NextAccepted(a0, n, k, ok);
      if !ok { return; }
    }
    StageEnd(a0, Mat(a), p[..], n);
    ok := true;
  }
}
