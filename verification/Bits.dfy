/** Shifts and masks on words of any width. */
module Bits {

  function Pow2(n: nat): (p: nat)
    ensures p > 0
  {
    if n == 0 then 1 else 2 * Pow2(n - 1)
  }

  /** x >> k */
  function Shr(x: nat, k: nat): nat { if k == 0 then x else Shr(x / 2, k - 1) }

  /** x << k */
  function Shl(x: nat, k: nat): nat { if k == 0 then x else 2 * Shl(x, k - 1) }

  /** x & (2^k - 1) */
  function LowBits(x: nat, k: nat): (r: nat)
    ensures r < Pow2(k)
  {
    if k == 0 then 0 else 2 * LowBits(x / 2, k - 1) + x % 2
  }

  /** A word is its high part, shifted back, and its low part. */
  lemma {:induction false} Split(x: nat, k: nat)
    ensures x == Shl(Shr(x, k), k) + LowBits(x, k)
  {
    if k > 0 { Split(x / 2, k - 1); }
  }

  /** And two parts put together come apart again. */
  lemma {:induction false} Join(t: nat, r: nat, k: nat)
    requires r < Pow2(k)
    ensures Shr(Shl(t, k) + r, k) == t && LowBits(Shl(t, k) + r, k) == r
  {
    if k > 0 {
      assert (Shl(t, k) + r) / 2 == Shl(t, k - 1) + r / 2 && (Shl(t, k) + r) % 2 == r % 2;
      Join(t, r / 2, k - 1);
    }
  }

  lemma {:induction false} ShrShr(x: nat, a: nat, b: nat)
    ensures Shr(Shr(x, a), b) == Shr(x, a + b)
  {
    if a > 0 { ShrShr(x / 2, a - 1, b); }
  }

  lemma {:induction false} ShlShl(x: nat, a: nat, b: nat)
    ensures Shl(Shl(x, a), b) == Shl(x, a + b)
  {
    if b > 0 { ShlShl(x, a, b - 1); }
  }

  lemma {:induction false} ShlPlus(x: nat, y: nat, k: nat)
    ensures Shl(x + y, k) == Shl(x, k) + Shl(y, k)
  {
    if k > 0 { ShlPlus(x, y, k - 1); }
  }

  /** x | y */
  function Or(x: nat, y: nat): nat {
    if x == 0 && y == 0 then 0 else 2 * Or(x / 2, y / 2) + if x % 2 == 1 || y % 2 == 1 then 1 else 0
  }

  lemma {:induction false} OrZero(x: nat)
    ensures Or(x, 0) == x
  {
    if x > 0 { OrZero(x / 2); }
  }

  /** Below the shifted part, or-ing is adding. */
  lemma {:induction false} OrBelow(x: nat, y: nat, k: nat)
    requires y < Pow2(k)
    ensures Or(Shl(x, k), y) == Shl(x, k) + y
  {
    if k == 0 {
      OrZero(x);
    } else if x > 0 || y > 0 {
      assert Shl(x, k) / 2 == Shl(x, k - 1) && Shl(x, k) % 2 == 0;
      OrBelow(x, y / 2, k - 1);
    } else {
      OrBelow(0, 0, k - 1);
    }
  }

  lemma {:induction false} ShlBelow(x: nat, a: nat, b: nat)
    requires x < Pow2(a)
    ensures Shl(x, b) < Pow2(a + b)
  {
    if b > 0 { ShlBelow(x, a, b - 1); }
  }
}
