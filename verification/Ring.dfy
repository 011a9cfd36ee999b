/** Positions on a ring of n slots. */
module Ring {

  function Wrap(x: int, n: nat): (w: nat)
    requires n > 0
    ensures w < n
    decreases x < 0, if x < 0 then -x else x
  {
    if x < 0 then Wrap(x + n, n) else if x < n then x else Wrap(x - n, n)
  }

  lemma WrapRound(x: int, n: nat)
    requires n > 0
    ensures Wrap(x + n, n) == Wrap(x, n)
  {
  }

  lemma {:induction false} WrapShift(x: int, y: int, n: nat)
    requires n > 0
    ensures Wrap(Wrap(x, n) + y, n) == Wrap(x + y, n)
    decreases x < 0, if x < 0 then -x else x
  {
    if x < 0 {
      WrapShift(x + n, y, n);
      WrapRound(x + y, n);
    } else if x >= n {
      WrapShift(x - n, y, n);
      WrapRound(x - n + y, n);
    }
  }

  /** Positions less than a turn apart are different slots. */
  lemma {:induction false} WrapApart(x: int, y: int, n: nat)
    requires n > 0 && x < y < x + n
    ensures Wrap(x, n) != Wrap(y, n)
    decreases x < 0, if x < 0 then -x else x
  {
    if x < 0 {
      WrapRound(x, n);
      WrapRound(y, n);
      WrapApart(x + n, y + n, n);
    } else if x >= n {
      WrapRound(x - n, n);
      WrapRound(y - n, n);
      WrapApart(x - n, y - n, n);
    }
  }

  /** A step is back in the same slot exactly if it is a whole number of turns. */
  lemma WrapSame(x: int, d: int, n: nat)
    requires n > 0
    ensures Wrap(x + d, n) == Wrap(x, n) <==> Wrap(d, n) == 0
  {
    WrapShift(d, x, n);
    if Wrap(d, n) != 0 { WrapApart(x, x + Wrap(d, n), n); }
  }

  lemma {:induction false} WrapBelow(x: nat, n: nat)
    requires n > 0
    ensures Wrap(x, n) <= x
  {
    if x >= n { WrapBelow(x - n, n); }
  }

  /** Going back by y or by y less whole turns ends in the same slot. */
  lemma {:induction false} WrapBack(x: int, y: int, n: nat)
    requires n > 0
    ensures Wrap(x - Wrap(y, n), n) == Wrap(x - y, n)
    decreases y < 0, if y < 0 then -y else y
  {
    if y < 0 {
      WrapBack(x, y + n, n);
      WrapRound(x - y - n, n);
    } else if y >= n {
      WrapBack(x, y - n, n);
      WrapRound(x - y, n);
    }
  }

  /** The remainder operator the source wraps with. */
  lemma {:induction false} WrapIsMod(x: nat, n: nat)
    requires n > 0
    ensures Wrap(x, n) == x % n
  {
    if x >= n {
      WrapIsMod(x - n, n);
      assert x == ((x - n) / n + 1) * n + (x - n) % n;
      ModUnique(x, n, (x - n) / n + 1, (x - n) % n);
    } else {
      ModUnique(x, n, 0, x);
    }
  }

  lemma ModUnique(x: nat, n: nat, q: nat, r: nat)
    requires n > 0 && x == q * n + r && r < n
    ensures x % n == r
  {
    var d := x / n - q;
    assert x == (x / n) * n + x % n;
    assert d * n == r - x % n;
    if d > 0 { Scale(d - 1, n); } else if d < 0 { Scale(-d - 1, n); }
  }

  lemma Scale(d: nat, n: nat)
    ensures (d + 1) * n >= n
  {
  }
}
