/** The skewing hashes of the 2Bc-gskew predictor, at any width. A word of n bits is a number below
    2 to the n; shifts and masks are division, multiplication and remainder by powers of two. */
module SkewHash {
  import opened Bits

  function XorBit(a: nat, b: nat): (c: nat)
    requires a < 2 && b < 2
    ensures c < 2
  {
    if a == b then 0 else 1
  }

  /** Bit t in place k. */
  function Place(t: nat, k: nat): nat
    requires t < 2
  {
    if t == 1 then Pow2(k) else 0
  }

  function Xor(a: nat, b: nat): nat {
    if a == 0 && b == 0 then 0 else 2 * Xor(a / 2, b / 2) + XorBit(a % 2, b % 2)
  }

  /** y >> (n - 1) */
  function Highest(y: nat, n: nat): (t: nat)
    requires n > 0 && y < Pow2(n)
    ensures t < 2
  {
    if y >= Pow2(n - 1) then 1 else 0
  }

  /** H_func: shift left by one and drop the highest bit; the bit coming in is the exclusive or of
      the lowest and the highest. */
  function H(y: nat, n: nat): (h: nat)
    requires n > 0 && y < Pow2(n)
    ensures h < Pow2(n)
  {
    2 * (y - Place(Highest(y, n), n - 1)) + XorBit(y % 2, Highest(y, n))
  }

  /** Hbar_func: shift right by one; the bit coming in is the exclusive or of the two lowest. */
  function Hbar(y: nat, n: nat): (h: nat)
    requires n > 0 && y < Pow2(n)
    ensures h < Pow2(n)
  {
    y / 2 + Place(XorBit(y / 2 % 2, y % 2), n - 1)
  }

  lemma TopBit(y: nat, n: nat)
    requires n > 0 && y < Pow2(n)
    ensures Place(Highest(y, n), n - 1) <= y && y - Place(Highest(y, n), n - 1) < Pow2(n - 1)
  {
  }

  lemma Times(a: nat, b: nat, p: nat)
    requires a >= b
    ensures a * p >= b * p
  {
    assert a * p == b * p + (a - b) * p;
  }

  lemma Divide(x: nat, p: nat, q: nat, r: nat)
    requires p > 0 && x == q * p + r && r < p
    ensures x / p == q && x % p == r
  {
    assert x == (x / p) * p + x % p;
    if x / p > q { Times(x / p, q + 1, p); } else if x / p < q { Times(q, x / p + 1, p); }
  }

  /** ---------------- exclusive or ---------------- */

  lemma {:induction false} XorSplit(a: nat, b: nat, s: nat, t: nat)
    requires s < 2 && t < 2
    ensures Xor(2 * a + s, 2 * b + t) == 2 * Xor(a, b) + XorBit(s, t)
  {
    assert (2 * a + s) / 2 == a && (2 * a + s) % 2 == s;
    assert (2 * b + t) / 2 == b && (2 * b + t) % 2 == t;
  }

  lemma {:induction false} XorSelf(a: nat)
    ensures Xor(a, a) == 0
  {
    if a > 0 { XorSelf(a / 2); }
  }

  lemma {:induction false} XorZero(a: nat)
    ensures Xor(a, 0) == a && Xor(0, a) == a
  {
    if a > 0 { XorZero(a / 2); }
  }

  lemma {:induction false} XorCommutes(a: nat, b: nat)
    ensures Xor(a, b) == Xor(b, a)
  {
    if a > 0 || b > 0 { XorCommutes(a / 2, b / 2); }
  }

  lemma {:induction false} XorAssoc(a: nat, b: nat, c: nat)
    ensures Xor(Xor(a, b), c) == Xor(a, Xor(b, c))
    decreases a + b + c
  {
    if a > 0 || b > 0 || c > 0 {
      XorAssoc(a / 2, b / 2, c / 2);
      XorSplit(Xor(a / 2, b / 2), c / 2, XorBit(a % 2, b % 2), c % 2);
      XorSplit(a / 2, Xor(b / 2, c / 2), a % 2, XorBit(b % 2, c % 2));
    }
  }

  lemma {:induction false} XorBound(a: nat, b: nat, n: nat)
    requires a < Pow2(n) && b < Pow2(n)
    ensures Xor(a, b) < Pow2(n)
  {
    if n > 0 { XorBound(a / 2, b / 2, n - 1); }
  }

  lemma XorIsZero(a: nat, b: nat)
    requires Xor(a, b) == 0
    ensures a == b
  {
    XorAssoc(a, b, b);
    XorSelf(b);
    XorZero(a);
    XorZero(b);
  }

  lemma XorCancel(a: nat, b: nat, c: nat)
    ensures Xor(a, c) == Xor(b, c) <==> a == b
  {
    XorAssoc(a, c, c);
    XorAssoc(b, c, c);
    XorSelf(c);
    XorZero(a);
    XorZero(b);
  }

  /** (a ^ b) ^ (c ^ d) regrouped. */
  lemma XorMiddle(a: nat, b: nat, c: nat, d: nat)
    ensures Xor(Xor(a, b), Xor(c, d)) == Xor(Xor(a, c), Xor(b, d))
  {
    XorAssoc(a, b, Xor(c, d));
    XorAssoc(b, c, d);
    XorCommutes(b, c);
    XorAssoc(c, b, d);
    XorAssoc(a, c, Xor(b, d));
  }

  lemma Half(x: nat, a: nat, s: nat)
    requires x == 2 * a + s && s < 2
    ensures x / 2 == a && x % 2 == s
  {
  }

  lemma XorStep(x: nat, y: nat, a: nat, b: nat, s: nat, t: nat)
    requires x == 2 * a + s && y == 2 * b + t && s < 2 && t < 2
    ensures Xor(x, y) == 2 * Xor(a, b) + XorBit(s, t)
  {
    XorSplit(a, b, s, t);
  }

  /** Exclusive or works on the top bit and on the rest separately. */
  lemma {:induction false} XorTop(s: nat, a: nat, t: nat, b: nat, k: nat)
    requires s < 2 && t < 2 && a < Pow2(k) && b < Pow2(k)
    ensures Xor(Place(s, k) + a, Place(t, k) + b) == Place(XorBit(s, t), k) + Xor(a, b)
  {
    if k > 0 {
      XorTop(s, a / 2, t, b / 2, k - 1);
      XorStep(Place(s, k) + a, Place(t, k) + b, Place(s, k - 1) + a / 2, Place(t, k - 1) + b / 2, a % 2, b % 2);
      XorStep(a, b, a / 2, b / 2, a % 2, b % 2);
    } else {
      XorStep(Place(s, 0), Place(t, 0), 0, 0, s, t);
      assert Xor(0, 0) == 0;
    }
  }

  /** ---------------- the two hashes ---------------- */

  lemma LowBit(t: nat, m: nat, n: nat)
    requires n >= 2 && t < 2
    ensures (Place(t, n - 1) + m) % 2 == m % 2
  {
    assert Place(t, n - 1) == 2 * Place(t, n - 2);
  }

  lemma PlaceTimes(t: nat, k: nat)
    requires t < 2
    ensures Place(t, k) == t * Pow2(k)
  {
  }

  /** H on a top bit t and the n - 1 bits m below it. */
  lemma HOf(y: nat, t: nat, m: nat, n: nat)
    requires n >= 2 && t < 2 && m < Pow2(n - 1) && y == Place(t, n - 1) + m
    ensures y < Pow2(n) && Highest(y, n) == t
    ensures H(y, n) == 2 * m + XorBit(m % 2, t)
  {
    LowBit(t, m, n);
  }

  /** The shifts and the mask as the code writes them. */
  lemma HShiftsAndMasks(y: nat, n: nat)
    requires n >= 1 && y < Pow2(n)
    ensures y / Pow2(n - 1) < 2
    ensures H(y, n) == (2 * y + XorBit(y % 2, y / Pow2(n - 1))) % Pow2(n)
    ensures Hbar(y, n) == y / 2 + XorBit(y / 2 % 2, y % 2) * Pow2(n - 1)
  {
    TopBit(y, n);
    var t, m := Highest(y, n), y - Place(Highest(y, n), n - 1);
    PlaceTimes(t, n - 1);
    PlaceTimes(t, n);
    Divide(y, Pow2(n - 1), t, m);
    var v := 2 * y + XorBit(y % 2, t);
    Divide(v, Pow2(n), t, 2 * m + XorBit(y % 2, t));
    PlaceTimes(XorBit(y / 2 % 2, y % 2), n - 1);
  }

  /** Hbar on a lowest bit b and the n - 1 bits m above it. */
  lemma HbarOf(y: nat, m: nat, b: nat, n: nat)
    requires n >= 1 && b < 2 && m < Pow2(n - 1) && y == 2 * m + b
    ensures y < Pow2(n) && Hbar(y, n) == Place(XorBit(m % 2, b), n - 1) + m
  {
    Half(y, m, b);
  }

  lemma HbarAfterH(y: nat, n: nat)
    requires n >= 2 && y < Pow2(n)
    ensures Hbar(H(y, n), n) == y
  {
    TopBit(y, n);
    var t := Highest(y, n);
    var m := y - Place(t, n - 1);
    HOf(y, t, m, n);
    HbarOf(H(y, n), m, XorBit(m % 2, t), n);
  }

  lemma HAfterHbar(y: nat, n: nat)
    requires n >= 2 && y < Pow2(n)
    ensures H(Hbar(y, n), n) == y
  {
    var m, b := y / 2, y % 2;
    HbarOf(y, m, b, n);
    HOf(Hbar(y, n), XorBit(m % 2, b), m, n);
  }

  /** The two hashes undo each other at every width of at least two bits. */
  lemma Inverses(y: nat, n: nat)
    requires n >= 2 && y < Pow2(n)
    ensures Hbar(H(y, n), n) == y && H(Hbar(y, n), n) == y
  {
    HbarAfterH(y, n);
    HAfterHbar(y, n);
  }

  /** At width one they do not: the width condition is exact. */
  lemma InversesExactly(n: nat)
    requires n >= 1
    ensures (forall y: nat :: y < Pow2(n) ==> Hbar(H(y, n), n) == y) <==> n >= 2
  {
    if n >= 2 {
      forall y: nat | y < Pow2(n) ensures Hbar(H(y, n), n) == y { Inverses(y, n); }
    } else {
      assert Pow2(0) == 1 && Pow2(1) == 2;
      assert H(1, 1) == 0;
      assert Hbar(H(1, 1), 1) == 0;
    }
  }

  lemma HInjective(y: nat, z: nat, n: nat)
    requires n >= 2 && y < Pow2(n) && z < Pow2(n)
    ensures H(y, n) == H(z, n) <==> y == z
    ensures Hbar(y, n) == Hbar(z, n) <==> y == z
  {
    Inverses(y, n);
    Inverses(z, n);
  }

  lemma XorBitMiddle(a: nat, b: nat, c: nat, d: nat)
    requires a < 2 && b < 2 && c < 2 && d < 2
    ensures XorBit(XorBit(a, b), XorBit(c, d)) == XorBit(XorBit(a, c), XorBit(b, d))
  {
  }

  lemma XorParity(a: nat, b: nat)
    ensures Xor(a, b) % 2 == XorBit(a % 2, b % 2)
  {
    XorStep(a, b, a / 2, b / 2, a % 2, b % 2);
    Half(Xor(a, b), Xor(a / 2, b / 2), XorBit(a % 2, b % 2));
  }

  lemma HLinearParts(t: nat, m: nat, u: nat, l: nat, n: nat)
    requires n >= 2 && t < 2 && u < 2 && m < Pow2(n - 1) && l < Pow2(n - 1)
    ensures Xor(2 * m + XorBit(m % 2, t), 2 * l + XorBit(l % 2, u))
         == 2 * Xor(m, l) + XorBit(Xor(m, l) % 2, XorBit(t, u))
  {
    XorParity(m, l);
    XorSplit(m, l, XorBit(m % 2, t), XorBit(l % 2, u));
    XorBitMiddle(m % 2, t, l % 2, u);
  }

  lemma HLinear(y: nat, z: nat, n: nat)
    requires n >= 2 && y < Pow2(n) && z < Pow2(n)
    ensures Xor(y, z) < Pow2(n) && H(Xor(y, z), n) == Xor(H(y, n), H(z, n))
  {
    XorBound(y, z, n);
    TopBit(y, n);
    TopBit(z, n);
    var t, u := Highest(y, n), Highest(z, n);
    var m, l := y - Place(t, n - 1), z - Place(u, n - 1);
    XorTop(t, m, u, l, n - 1);
    XorBound(m, l, n - 1);
    HOf(y, t, m, n);
    HOf(z, u, l, n);
    HOf(Xor(y, z), XorBit(t, u), Xor(m, l), n);
    HLinearParts(t, m, u, l, n);
  }

  lemma HbarLinear(y: nat, z: nat, n: nat)
    requires n >= 2 && y < Pow2(n) && z < Pow2(n)
    ensures Xor(y, z) < Pow2(n) && Hbar(Xor(y, z), n) == Xor(Hbar(y, n), Hbar(z, n))
  {
    XorBound(y, z, n);
    var m, b, l, c := y / 2, y % 2, z / 2, z % 2;
    XorStep(y, z, m, l, b, c);
    XorBound(m, l, n - 1);
    HbarOf(y, m, b, n);
    HbarOf(z, l, c, n);
    HbarOf(Xor(y, z), Xor(m, l), XorBit(b, c), n);
    XorParity(m, l);
    XorTop(XorBit(m % 2, b), m, XorBit(l % 2, c), l, n - 1);
    XorBitMiddle(m % 2, b, l % 2, c);
  }

  /** ---------------- the four bank indices ---------------- */

  ghost predicate Word(v: nat, n: nat) { n >= 2 && v < Pow2(n) }

  function F0(hi: nat, lo: nat, n: nat): (f: nat)
    requires n >= 1 && hi < Pow2(n) && lo < Pow2(n)
  {
    Xor(Xor(H(hi, n), Hbar(lo, n)), lo)
  }

  function F1(hi: nat, lo: nat, n: nat): (f: nat)
    requires n >= 1 && hi < Pow2(n) && lo < Pow2(n)
  {
    Xor(Xor(H(hi, n), Hbar(lo, n)), hi)
  }

  function F2(hi: nat, lo: nat, n: nat): (f: nat)
    requires n >= 1 && hi < Pow2(n) && lo < Pow2(n)
  {
    Xor(Xor(Hbar(hi, n), H(lo, n)), lo)
  }

  function F3(hi: nat, lo: nat, n: nat): (f: nat)
    requires n >= 1 && hi < Pow2(n) && lo < Pow2(n)
  {
    Xor(Xor(Hbar(hi, n), H(lo, n)), hi)
  }

  /** Every index is inside its bank, so the final mask changes nothing. */
  lemma IndicesInside(hi: nat, lo: nat, n: nat)
    requires n >= 1 && hi < Pow2(n) && lo < Pow2(n)
    ensures F0(hi, lo, n) < Pow2(n) && F1(hi, lo, n) < Pow2(n) && F2(hi, lo, n) < Pow2(n) && F3(hi, lo, n) < Pow2(n)
  {
    XorBound(H(hi, n), Hbar(lo, n), n);
    XorBound(Hbar(hi, n), H(lo, n), n);
    XorBound(Xor(H(hi, n), Hbar(lo, n)), lo, n);
    XorBound(Xor(H(hi, n), Hbar(lo, n)), hi, n);
    XorBound(Xor(Hbar(hi, n), H(lo, n)), lo, n);
    XorBound(Xor(Hbar(hi, n), H(lo, n)), hi, n);
  }

  /** For a fixed low half, f0 and f2 tell all high halves apart; for a fixed high half, f1 and f3
      tell all low halves apart. */
  lemma HalvesApart(v: nat, w: nat, fixed_: nat, n: nat)
    requires Word(v, n) && Word(w, n) && Word(fixed_, n)
    ensures F0(v, fixed_, n) == F0(w, fixed_, n) <==> v == w
    ensures F2(v, fixed_, n) == F2(w, fixed_, n) <==> v == w
    ensures F1(fixed_, v, n) == F1(fixed_, w, n) <==> v == w
    ensures F3(fixed_, v, n) == F3(fixed_, w, n) <==> v == w
  {
    HInjective(v, w, n);
    var a, b := Hbar(fixed_, n), H(fixed_, n);
    XorCancel(Xor(H(v, n), a), Xor(H(w, n), a), fixed_);
    XorCancel(H(v, n), H(w, n), a);
    XorCancel(Xor(Hbar(v, n), b), Xor(Hbar(w, n), b), fixed_);
    XorCancel(Hbar(v, n), Hbar(w, n), b);
    XorCancel(Xor(b, Hbar(v, n)), Xor(b, Hbar(w, n)), fixed_);
    XorCommutes(b, Hbar(v, n));
    XorCommutes(b, Hbar(w, n));
    XorCancel(Xor(a, H(v, n)), Xor(a, H(w, n)), fixed_);
    XorCommutes(a, H(v, n));
    XorCommutes(a, H(w, n));
    XorCancel(H(v, n), H(w, n), a);
    XorCancel(Hbar(v, n), Hbar(w, n), b);
  }

  /** Every index is reached from every fixed half. */
  lemma HighHalfFor(f: nat, lo: nat, n: nat) returns (hi: nat)
    requires Word(f, n) && Word(lo, n)
    ensures Word(hi, n) && F0(hi, lo, n) == f
  {
    var x := Xor(f, Xor(Hbar(lo, n), lo));
    XorBound(Hbar(lo, n), lo, n);
    XorBound(f, Xor(Hbar(lo, n), lo), n);
    hi := Hbar(x, n);
    Inverses(x, n);
    XorAssoc(x, Hbar(lo, n), lo);
    XorCancelRight(f, Xor(Hbar(lo, n), lo));
  }

  lemma LowHalfFor(f: nat, hi: nat, n: nat) returns (lo: nat)
    requires Word(f, n) && Word(hi, n)
    ensures Word(lo, n) && F1(hi, lo, n) == f
  {
    var x := Xor(f, Xor(H(hi, n), hi));
    XorBound(H(hi, n), hi, n);
    XorBound(f, Xor(H(hi, n), hi), n);
    lo := H(x, n);
    Inverses(x, n);
    XorCommutes(H(hi, n), x);
    XorAssoc(x, H(hi, n), hi);
    XorCancelRight(f, Xor(H(hi, n), hi));
  }

  lemma HighHalfForF2(f: nat, lo: nat, n: nat) returns (hi: nat)
    requires Word(f, n) && Word(lo, n)
    ensures Word(hi, n) && F2(hi, lo, n) == f
  {
    var x := Xor(f, Xor(H(lo, n), lo));
    XorBound(H(lo, n), lo, n);
    XorBound(f, Xor(H(lo, n), lo), n);
    hi := H(x, n);
    Inverses(x, n);
    XorAssoc(x, H(lo, n), lo);
    XorCancelRight(f, Xor(H(lo, n), lo));
  }

  lemma LowHalfForF3(f: nat, hi: nat, n: nat) returns (lo: nat)
    requires Word(f, n) && Word(hi, n)
    ensures Word(lo, n) && F3(hi, lo, n) == f
  {
    var x := Xor(f, Xor(Hbar(hi, n), hi));
    XorBound(Hbar(hi, n), hi, n);
    XorBound(f, Xor(Hbar(hi, n), hi), n);
    lo := Hbar(x, n);
    Inverses(x, n);
    XorCommutes(Hbar(hi, n), x);
    XorAssoc(x, Hbar(hi, n), hi);
    XorCancelRight(f, Xor(Hbar(hi, n), hi));
  }

  lemma XorCancelRight(a: nat, b: nat)
    ensures Xor(Xor(a, b), b) == a
  {
    XorAssoc(a, b, b);
    XorSelf(b);
    XorZero(a);
  }

  /** The first two indices differ by the exclusive or of the halves, and so do the last two. */
  lemma IndexDifference(hi: nat, lo: nat, n: nat)
    requires Word(hi, n) && Word(lo, n)
    ensures Xor(F0(hi, lo, n), F1(hi, lo, n)) == Xor(lo, hi)
    ensures Xor(F2(hi, lo, n), F3(hi, lo, n)) == Xor(lo, hi)
  {
    var x, y := Xor(H(hi, n), Hbar(lo, n)), Xor(Hbar(hi, n), H(lo, n));
    XorMiddle(x, lo, x, hi);
    XorSelf(x);
    XorMiddle(y, lo, y, hi);
    XorSelf(y);
    XorZero(Xor(lo, hi));
  }

  /** Two branches that collide in both f0 and f1, or in both f2 and f3, have equal exclusive or of halves. */
  lemma DoubleCollision(hi: nat, lo: nat, hi': nat, lo': nat, n: nat)
    requires Word(hi, n) && Word(lo, n) && Word(hi', n) && Word(lo', n)
    ensures F0(hi, lo, n) == F0(hi', lo', n) && F1(hi, lo, n) == F1(hi', lo', n) ==> Xor(lo, hi) == Xor(lo', hi')
    ensures F2(hi, lo, n) == F2(hi', lo', n) && F3(hi, lo, n) == F3(hi', lo', n) ==> Xor(lo, hi) == Xor(lo', hi')
  {
    IndexDifference(hi, lo, n);
    IndexDifference(hi', lo', n);
  }

  /** f0 is linear in both halves together. */
  lemma F0Linear(hi: nat, lo: nat, hi': nat, lo': nat, n: nat)
    requires Word(hi, n) && Word(lo, n) && Word(hi', n) && Word(lo', n)
    ensures Word(Xor(hi, hi'), n) && Word(Xor(lo, lo'), n)
    ensures Xor(F0(hi, lo, n), F0(hi', lo', n)) == F0(Xor(hi, hi'), Xor(lo, lo'), n)
  {
    HLinear(hi, hi', n);
    HbarLinear(lo, lo', n);
    XorBound(lo, lo', n);
    XorMiddle(Xor(H(hi, n), Hbar(lo, n)), lo, Xor(H(hi', n), Hbar(lo', n)), lo');
    XorMiddle(H(hi, n), Hbar(lo, n), H(hi', n), Hbar(lo', n));
  }

  /** Exactly when two branches collide in both f0 and f1: their halves differ by one and the same
      word d, and d is one that the two hashes split. */
  lemma DoubleCollisionExactly(hi: nat, lo: nat, hi': nat, lo': nat, n: nat)
    requires Word(hi, n) && Word(lo, n) && Word(hi', n) && Word(lo', n)
    ensures Word(Xor(hi, hi'), n)
    ensures F0(hi, lo, n) == F0(hi', lo', n) && F1(hi, lo, n) == F1(hi', lo', n) <==>
            Xor(hi, hi') == Xor(lo, lo') && Xor(H(Xor(hi, hi'), n), Hbar(Xor(hi, hi'), n)) == Xor(hi, hi')
  {
    var d, e := Xor(hi, hi'), Xor(lo, lo');
    F0Linear(hi, lo, hi', lo', n);
    DoubleCollision(hi, lo, hi', lo', n);
    XorMiddle(lo, hi, lo', hi');
    IndexDifference(hi, lo, n);
    IndexDifference(hi', lo', n);
    var f, f' := F0(hi, lo, n), F0(hi', lo', n);
    var g, g' := F1(hi, lo, n), F1(hi', lo', n);
    if f == f' && g == g' {
      XorSelf(f);
      XorSelf(Xor(lo, hi));
      XorCommutes(e, d);
      XorIsZero(d, e);
      XorIsZero(Xor(H(d, n), Hbar(d, n)), d);
    }
    if d == e && Xor(H(d, n), Hbar(d, n)) == d {
      XorSelf(d);
      XorIsZero(f, f');
      XorIsZero(Xor(lo, hi), Xor(lo', hi'));
      XorSame(f, g, g');
    }
  }

  lemma XorSame(f: nat, g: nat, g': nat)
    requires Xor(f, g) == Xor(f, g')
    ensures g == g'
  {
    XorCommutes(f, g);
    XorCommutes(f, g');
    XorCancel(g, g', f);
  }
}
