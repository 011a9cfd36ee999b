/** rk4: one step of y' = pow - C y equals the Taylor polynomial of degree four. */
module RungeKutta {
  import opened FiniteSums
  import opened Lup
  import opened Solve

  ghost function Apply(c: Matrix, v: Vector, n: nat): (r: Vector)
    ensures |r| == n && forall i :: 0 <= i < n ==> r[i] == Sum(n, RowTerm(c, v, i))
  {
    seq(n, i requires 0 <= i < n => Sum(n, RowTerm(c, v, i)))
  }

  /** r = pow - C y */
  ghost function Residual(c: Matrix, y: Vector, pow: Vector, n: nat): (r: Vector)
    requires |pow| == n
    ensures |r| == n && forall i :: 0 <= i < n ==> r[i] == pow[i] - Apply(c, y, n)[i]
  {
    seq(n, i requires 0 <= i < n => pow[i] - Apply(c, y, n)[i])
  }

  /** u + s w */
  ghost function Along(u: Vector, s: real, w: Vector): (r: Vector)
    requires |u| == |w|
    ensures |r| == |u| && forall i :: 0 <= i < |u| ==> r[i] == u[i] + s * w[i]
  {
    seq(|u|, i requires 0 <= i < |u| => u[i] + s * w[i])
  }

  /** h (pow - C v) */
  ghost function Slope(c: Matrix, v: Vector, pow: Vector, n: nat, h: real): (k: Vector)
    requires |pow| == n
    ensures |k| == n && forall i :: 0 <= i < n ==> k[i] == h * (pow[i] - Apply(c, v, n)[i])
  {
    seq(n, i requires 0 <= i < n => h * (pow[i] - Apply(c, v, n)[i]))
  }

  lemma Spread(m: real, u: real, s: real, w: real)
    ensures m * (u + s * w) == m * u + s * (m * w)
  {
    assert m * (s * w) == s * (m * w);
  }

  lemma ApplyAlong(c: Matrix, u: Vector, s: real, w: Vector, n: nat)
    requires |u| == n && |w| == n
    ensures Apply(c, Along(u, s, w), n) == Along(Apply(c, u, n), s, Apply(c, w, n))
  {
    var v := Along(u, s, w);
    forall i | 0 <= i < n ensures Apply(c, v, n)[i] == Along(Apply(c, u, n), s, Apply(c, w, n))[i] {
      var scaled := (t: int) => s * RowTerm(c, w, i)(t);
      forall t | 0 <= t < n ensures RowTerm(c, v, i)(t) == RowTerm(c, u, i)(t) + scaled(t) {
        Spread(At(c, i, t), u[t], s, w[t]);
        assert Elem(v, t) == u[t] + s * w[t];
      }
      SumAdd(n, RowTerm(c, u, i), scaled, RowTerm(c, v, i));
      SumScale(n, s, RowTerm(c, w, i), scaled);
    }
  }

  /** C^k r */
  ghost function Power(c: Matrix, r: Vector, n: nat, k: nat): (v: Vector)
    requires |r| == n
    ensures |v| == n
  {
    if k == 0 then r else Apply(c, Power(c, r, n, k - 1), n)
  }

  ghost function PolyAt(c: Matrix, r: Vector, n: nat, a0: real, a1: real, a2: real, a3: real, i: nat): real
    requires |r| == n && i < n
  {
    a0 * r[i] + a1 * Power(c, r, n, 1)[i] + a2 * Power(c, r, n, 2)[i] + a3 * Power(c, r, n, 3)[i]
  }

  /** a0 r + a1 C r + a2 C^2 r + a3 C^3 r */
  ghost function Poly(c: Matrix, r: Vector, n: nat, a0: real, a1: real, a2: real, a3: real): (v: Vector)
    requires |r| == n
    ensures |v| == n
    ensures forall i :: 0 <= i < n ==> v[i] == PolyAt(c, r, n, a0, a1, a2, a3, i)
  {
    seq(n, i requires 0 <= i < n => PolyAt(c, r, n, a0, a1, a2, a3, i))
  }

  ghost function Scaled(s: real, w: Vector): (r: Vector)
    ensures |r| == |w| && forall i :: 0 <= i < |w| ==> r[i] == s * w[i]
  {
    seq(|w|, i requires 0 <= i < |w| => s * w[i])
  }

  lemma Commute(m: real, s: real, w: real)
    ensures m * (s * w) == s * (m * w)
  {
  }

  lemma ScaledTerm(c: Matrix, s: real, w: Vector, i: int, t: nat)
    requires t < |w|
    ensures RowTerm(c, Scaled(s, w), i)(t) == s * RowTerm(c, w, i)(t)
  {
    Commute(At(c, i, t), s, w[t]);
    assert Elem(Scaled(s, w), t) == s * w[t];
  }

  lemma ApplyScaled(c: Matrix, s: real, w: Vector, n: nat)
    requires |w| == n
    ensures Apply(c, Scaled(s, w), n) == Scaled(s, Apply(c, w, n))
  {
    var v := Scaled(s, w);
    forall i | 0 <= i < n ensures Apply(c, v, n)[i] == Scaled(s, Apply(c, w, n))[i] {
      forall t | 0 <= t < n ensures RowTerm(c, v, i)(t) == s * RowTerm(c, w, i)(t) {
        ScaledTerm(c, s, w, i, t);
      }
      SumScale(n, s, RowTerm(c, w, i), RowTerm(c, v, i));
    }
  }

  lemma PowerSteps(c: Matrix, r: Vector, n: nat)
    requires |r| == n
    ensures Power(c, r, n, 1) == Apply(c, r, n)
    ensures Power(c, r, n, 2) == Apply(c, Power(c, r, n, 1), n)
    ensures Power(c, r, n, 3) == Apply(c, Power(c, r, n, 2), n)
  {
    assert Power(c, r, n, 0) == r;
  }

  lemma PolyIsAlong(c: Matrix, r: Vector, n: nat, a0: real, a1: real, a2: real)
    requires |r| == n
    ensures Poly(c, r, n, a0, a1, a2, 0.0) == Along(Along(Scaled(a0, r), a1, Power(c, r, n, 1)), a2, Power(c, r, n, 2))
  {
    var x, y := Poly(c, r, n, a0, a1, a2, 0.0),
                Along(Along(Scaled(a0, r), a1, Power(c, r, n, 1)), a2, Power(c, r, n, 2));
    forall i | 0 <= i < n ensures x[i] == y[i] {
      assert x[i] == PolyAt(c, r, n, a0, a1, a2, 0.0, i);
    }
  }

  lemma PolyUpIsAlong(c: Matrix, r: Vector, n: nat, a0: real, a1: real, a2: real)
    requires |r| == n
    ensures Poly(c, r, n, 0.0, a0, a1, a2) ==
            Along(Along(Scaled(a0, Power(c, r, n, 1)), a1, Power(c, r, n, 2)), a2, Power(c, r, n, 3))
  {
    var x, y := Poly(c, r, n, 0.0, a0, a1, a2),
                Along(Along(Scaled(a0, Power(c, r, n, 1)), a1, Power(c, r, n, 2)), a2, Power(c, r, n, 3));
    forall i | 0 <= i < n ensures x[i] == y[i] {
      assert x[i] == PolyAt(c, r, n, 0.0, a0, a1, a2, i);
    }
  }

  /** C maps a polynomial without a cubic term to the polynomial one degree up. */
  lemma ApplyPoly(c: Matrix, r: Vector, n: nat, a0: real, a1: real, a2: real)
    requires |r| == n
    ensures Apply(c, Poly(c, r, n, a0, a1, a2, 0.0), n) == Poly(c, r, n, 0.0, a0, a1, a2)
  {
    var p1, p2, p3 := Power(c, r, n, 1), Power(c, r, n, 2), Power(c, r, n, 3);
    PowerSteps(c, r, n);
    var q0 := Scaled(a0, r);
    var q1 := Along(q0, a1, p1);
    var q2 := Along(q1, a2, p2);
    PolyIsAlong(c, r, n, a0, a1, a2);
    ApplyScaled(c, a0, r, n);
    ApplyAlong(c, q0, a1, p1, n);
    ApplyAlong(c, q1, a2, p2, n);
    PolyUpIsAlong(c, r, n, a0, a1, a2);
  }

  lemma Distribute(h: real, p: real, q: real, s: real, a0: real, a1: real, a2: real,
                   b1: real, b2: real, b3: real, x: real, y: real, z: real, a: real)
    requires b1 == 0.0 - h * s * a0 && b2 == 0.0 - h * s * a1 && b3 == 0.0 - h * s * a2
    requires a == q + s * (a0 * x + a1 * y + a2 * z)
    ensures h * (p - a) == h * (p - q) + b1 * x + b2 * y + b3 * z
  {
    assert h * s * a0 * x == h * (s * (a0 * x));
    assert h * s * a1 * y == h * (s * (a1 * y));
    assert h * s * a2 * z == h * (s * (a2 * z));
    assert s * (a0 * x + a1 * y + a2 * z) == s * (a0 * x) + s * (a1 * y) + s * (a2 * z);
    assert h * (p - (q + s * (a0 * x + a1 * y + a2 * z)))
        == h * (p - q) - h * (s * (a0 * x)) - h * (s * (a1 * y)) - h * (s * (a2 * z));
  }

  lemma SlopeValue(c: Matrix, v: Vector, pow: Vector, n: nat, h: real, i: nat, a: real)
    requires |pow| == n && i < n && Apply(c, v, n)[i] == a
    ensures Slope(c, v, pow, n, h)[i] == h * (pow[i] - a)
  {
  }

  /** The slope at y + s k, for a k that is a polynomial in C of the residual. */
  lemma SlopeAt(c: Matrix, y: Vector, pow: Vector, n: nat, h: real, s: real, a0: real, a1: real, a2: real,
                b1: real, b2: real, b3: real)
    requires |y| == n && |pow| == n
    requires b1 == 0.0 - h * s * a0 && b2 == 0.0 - h * s * a1 && b3 == 0.0 - h * s * a2
    ensures var r := Residual(c, y, pow, n);
            Slope(c, Along(y, s, Poly(c, r, n, a0, a1, a2, 0.0)), pow, n, h) == Poly(c, r, n, h, b1, b2, b3)
  {
    var r := Residual(c, y, pow, n);
    var k := Poly(c, r, n, a0, a1, a2, 0.0);
    ApplyAlong(c, y, s, k, n);
    ApplyPoly(c, r, n, a0, a1, a2);
    var lhs, rhs := Slope(c, Along(y, s, k), pow, n, h), Poly(c, r, n, h, b1, b2, b3);
    forall i | 0 <= i < n ensures lhs[i] == rhs[i] {
      var x, y', z := Power(c, r, n, 1)[i], Power(c, r, n, 2)[i], Power(c, r, n, 3)[i];
      var p, q := pow[i], Apply(c, y, n)[i];
      assert Apply(c, k, n)[i] == PolyAt(c, r, n, 0.0, a0, a1, a2, i) == a0 * x + a1 * y' + a2 * z;
      var a := q + s * (a0 * x + a1 * y' + a2 * z);
      SlopeValue(c, Along(y, s, k), pow, n, h, i, a);
      Distribute(h, p, q, s, a0, a1, a2, b1, b2, b3, x, y', z, a);
      assert rhs[i] == PolyAt(c, r, n, h, b1, b2, b3, i) == h * (p - q) + b1 * x + b2 * y' + b3 * z;
    }
  }

  /** The four slopes of the method. */
  ghost predicate FourSlopes(c: Matrix, y: Vector, pow: Vector, n: nat, h: real,
                             k1: Vector, k2: Vector, k3: Vector, k4: Vector) {
    && |y| == n && |pow| == n && |k1| == n && |k2| == n && |k3| == n && |k4| == n
    && k1 == Slope(c, y, pow, n, h)
    && k2 == Slope(c, Along(y, 0.5, k1), pow, n, h)
    && k3 == Slope(c, Along(y, 0.5, k2), pow, n, h)
    && k4 == Slope(c, Along(y, 1.0, k3), pow, n, h)
  }

  lemma FirstSlopePoly(c: Matrix, y: Vector, pow: Vector, n: nat, h: real)
    requires |y| == n && |pow| == n
    ensures Slope(c, y, pow, n, h) == Poly(c, Residual(c, y, pow, n), n, h, 0.0, 0.0, 0.0)
  {
    var r := Residual(c, y, pow, n);
    var k, p := Slope(c, y, pow, n, h), Poly(c, r, n, h, 0.0, 0.0, 0.0);
    forall i | 0 <= i < n ensures k[i] == p[i] {
      assert k[i] == h * r[i];
    }
  }

  lemma Coefficients(h: real)
    ensures 0.0 - h * 0.5 * h == 0.0 - h * h / 2.0
    ensures 0.0 - h * 0.5 * (0.0 - h * h / 2.0) == h * h * h / 4.0
    ensures 0.0 - h * 1.0 * h == 0.0 - h * h
    ensures 0.0 - h * 1.0 * (0.0 - h * h / 2.0) == h * h * h / 2.0
    ensures 0.0 - h * 1.0 * (h * h * h / 4.0) == 0.0 - h * h * h * h / 4.0
    ensures 0.0 - h * 0.5 * 0.0 == 0.0
  {
  }

  lemma SecondSlopePoly(c: Matrix, y: Vector, pow: Vector, n: nat, h: real, k1: Vector, k2: Vector)
    requires |y| == n && |pow| == n && |k1| == n
    requires k1 == Poly(c, Residual(c, y, pow, n), n, h, 0.0, 0.0, 0.0)
    requires k2 == Slope(c, Along(y, 0.5, k1), pow, n, h)
    ensures k2 == Poly(c, Residual(c, y, pow, n), n, h, 0.0 - h * h / 2.0, 0.0, 0.0)
  {
    Coefficients(h);
    SlopeAt(c, y, pow, n, h, 0.5, h, 0.0, 0.0, 0.0 - h * h / 2.0, 0.0, 0.0);
  }

  lemma ThirdSlopePoly(c: Matrix, y: Vector, pow: Vector, n: nat, h: real, k2: Vector, k3: Vector)
    requires |y| == n && |pow| == n && |k2| == n
    requires k2 == Poly(c, Residual(c, y, pow, n), n, h, 0.0 - h * h / 2.0, 0.0, 0.0)
    requires k3 == Slope(c, Along(y, 0.5, k2), pow, n, h)
    ensures k3 == Poly(c, Residual(c, y, pow, n), n, h, 0.0 - h * h / 2.0, h * h * h / 4.0, 0.0)
  {
    Coefficients(h);
    SlopeAt(c, y, pow, n, h, 0.5, h, 0.0 - h * h / 2.0, 0.0, 0.0 - h * h / 2.0, h * h * h / 4.0, 0.0);
  }

  lemma FourthSlopePoly(c: Matrix, y: Vector, pow: Vector, n: nat, h: real, k3: Vector, k4: Vector)
    requires |y| == n && |pow| == n && |k3| == n
    requires k3 == Poly(c, Residual(c, y, pow, n), n, h, 0.0 - h * h / 2.0, h * h * h / 4.0, 0.0)
    requires k4 == Slope(c, Along(y, 1.0, k3), pow, n, h)
    ensures k4 == Poly(c, Residual(c, y, pow, n), n, h, 0.0 - h * h, h * h * h / 2.0, 0.0 - h * h * h * h / 4.0)
  {
    Coefficients(h);
    SlopeAt(c, y, pow, n, h, 1.0, h, 0.0 - h * h / 2.0, h * h * h / 4.0,
            0.0 - h * h, h * h * h / 2.0, 0.0 - h * h * h * h / 4.0);
  }

  lemma SlopesArePolynomials(c: Matrix, y: Vector, pow: Vector, n: nat, h: real,
                             k1: Vector, k2: Vector, k3: Vector, k4: Vector)
    requires FourSlopes(c, y, pow, n, h, k1, k2, k3, k4)
    ensures var r := Residual(c, y, pow, n);
            && k1 == Poly(c, r, n, h, 0.0, 0.0, 0.0)
            && k2 == Poly(c, r, n, h, 0.0 - h * h / 2.0, 0.0, 0.0)
            && k3 == Poly(c, r, n, h, 0.0 - h * h / 2.0, h * h * h / 4.0, 0.0)
            && k4 == Poly(c, r, n, h, 0.0 - h * h, h * h * h / 2.0, 0.0 - h * h * h * h / 4.0)
  {
    FirstSlopePoly(c, y, pow, n, h);
    SecondSlopePoly(c, y, pow, n, h, k1, k2);
    ThirdSlopePoly(c, y, pow, n, h, k2, k3);
    FourthSlopePoly(c, y, pow, n, h, k3, k4);
  }

  /** The Taylor polynomial: y + h r - h^2/2 C r + h^3/6 C^2 r - h^4/24 C^3 r. */
  ghost function Taylor(c: Matrix, y: Vector, pow: Vector, n: nat, h: real): (v: Vector)
    requires |y| == n && |pow| == n
    ensures |v| == n
  {
    var r := Residual(c, y, pow, n);
    Along(y, 1.0, Poly(c, r, n, h, 0.0 - h * h / 2.0, h * h * h / 6.0, 0.0 - h * h * h * h / 24.0))
  }

  lemma Weigh(y: real, h: real, h2: real, h3: real, h4: real, r: real, p: real, q: real, s: real)
    ensures y + ((h * r) + 2.0 * (h * r + (0.0 - h2 / 2.0) * p)
                 + 2.0 * (h * r + (0.0 - h2 / 2.0) * p + (h3 / 4.0) * q)
                 + (h * r + (0.0 - h2) * p + (h3 / 2.0) * q + (0.0 - h4 / 4.0) * s)) / 6.0
            == y + 1.0 * (h * r + (0.0 - h2 / 2.0) * p + (h3 / 6.0) * q + (0.0 - h4 / 24.0) * s)
  {
    assert (0.0 - h2 / 2.0) * p == 0.0 - (h2 * p) / 2.0;
    assert (h3 / 4.0) * q == (h3 * q) / 4.0;
    assert (0.0 - h2) * p == 0.0 - h2 * p;
    assert (h3 / 2.0) * q == (h3 * q) / 2.0;
    assert (0.0 - h4 / 4.0) * s == 0.0 - (h4 * s) / 4.0;
    assert (h3 / 6.0) * q == (h3 * q) / 6.0;
    assert (0.0 - h4 / 24.0) * s == 0.0 - (h4 * s) / 24.0;
  }

  lemma WeighedIsTaylor(c: Matrix, y: Vector, pow: Vector, n: nat, h: real,
                        k1: Vector, k2: Vector, k3: Vector, k4: Vector, i: nat)
    requires FourSlopes(c, y, pow, n, h, k1, k2, k3, k4) && i < n
    ensures y[i] + (k1[i] + 2.0 * k2[i] + 2.0 * k3[i] + k4[i]) / 6.0 == Taylor(c, y, pow, n, h)[i]
  {
    SlopesArePolynomials(c, y, pow, n, h, k1, k2, k3, k4);
    var r := Residual(c, y, pow, n);
    Weigh(y[i], h, h * h, h * h * h, h * h * h * h, r[i], Power(c, r, n, 1)[i], Power(c, r, n, 2)[i], Power(c, r, n, 3)[i]);
  }

  /** A state with C y = pow is left where it is. */
  lemma SteadyState(c: Matrix, y: Vector, pow: Vector, n: nat, h: real)
    requires |y| == n && |pow| == n && Apply(c, y, n) == pow
    ensures Taylor(c, y, pow, n, h) == y
  {
    var r := Residual(c, y, pow, n);
    var zero := Scaled(0.0, r);
    assert r == zero;
    ApplyScaled(c, 0.0, r, n);
    assert Apply(c, r, n) == Scaled(0.0, Apply(c, r, n));
    assert Apply(c, r, n) == zero;
    PowerSteps(c, r, n);
  }

  /** ---------------- the loops ---------------- */

  method MatVecMult(vout: array<real>, m: array2<real>, vin: array<real>, n: nat)
    requires m.Length0 == n && m.Length1 == n && vin.Length == n && vout.Length == n && vout != vin
    modifies vout
    ensures vout[..] == Apply(Mat(m), vin[..], n)
  {
    ghost var a := Mat(m);
    for i := 0 to n
      invariant forall t :: 0 <= t < i ==> vout[t] == Sum(n, RowTerm(a, vin[..], t))
    {
      ghost var f := RowTerm(a, vin[..], i);
      vout[i] := 0.0;
      for j := 0 to n
        invariant vout[i] == Sum(j, f)
        invariant forall t :: 0 <= t < i ==> vout[t] == Sum(n, RowTerm(a, vin[..], t))
      {
        assert f(j) == m[i, j] * vin[j];
        vout[i] := vout[i] + m[i, j] * vin[j];
      }
    }
  }

  /** yt[i] := row i of C y */
  method RowDot(c: array2<real>, y: array<real>, n: nat, yt: array<real>, i: nat)
    requires c.Length0 == n && c.Length1 == n && y.Length == n && yt.Length == n && yt != y && i < n
    modifies yt
    ensures yt[i] == Apply(Mat(c), y[..], n)[i]
  {
    ghost var f := RowTerm(Mat(c), y[..], i);
    yt[i] := 0.0;
    for j := 0 to n
      invariant yt[i] == Sum(j, f)
    {
      assert f(j) == c[i, j] * y[j];
      yt[i] := yt[i] + c[i, j] * y[j];
    }
  }

  /** k := h (pow - C y) */
  method FirstSlope(c: array2<real>, y: array<real>, pow: array<real>, n: nat, h: real,
                    yt: array<real>, k: array<real>)
    requires c.Length0 == n && c.Length1 == n
    requires y.Length == n && pow.Length == n && yt.Length == n && k.Length == n
    requires yt != y && yt != pow && yt != k && k != y && k != pow
    modifies yt, k
    ensures k[..] == Slope(Mat(c), y[..], pow[..], n, h)
  {
    ghost var goal := Slope(Mat(c), y[..], pow[..], n, h);
    for i := 0 to n
      invariant k[..i] == goal[..i]
    {
      RowDot(c, y, n, yt, i);
      k[i] := h * (pow[i] - yt[i]);
      assert k[i] == goal[i];
      assert k[..i + 1] == k[..i] + [k[i]];
    }
  }

  /** yt[i] := row i of C (y + s prev) */
  method RowDotAlong(c: array2<real>, y: array<real>, s: real, prev: array<real>, n: nat, yt: array<real>, i: nat)
    requires c.Length0 == n && c.Length1 == n && y.Length == n && prev.Length == n && yt.Length == n
    requires yt != y && yt != prev && i < n
    modifies yt
    ensures yt[i] == Apply(Mat(c), Along(y[..], s, prev[..]), n)[i]
  {
    ghost var v := Along(y[..], s, prev[..]);
    ghost var f := RowTerm(Mat(c), v, i);
    yt[i] := 0.0;
    for j := 0 to n
      invariant yt[i] == Sum(j, f)
    {
      assert v[j] == y[j] + s * prev[j];
      assert f(j) == c[i, j] * v[j];
      yt[i] := yt[i] + c[i, j] * (y[j] + s * prev[j]);
    }
  }

  /** k := h (pow - C (y + s prev)) */
  method NextSlope(c: array2<real>, y: array<real>, s: real, prev: array<real>, pow: array<real>, n: nat, h: real,
                   yt: array<real>, k: array<real>)
    requires c.Length0 == n && c.Length1 == n
    requires y.Length == n && prev.Length == n && pow.Length == n && yt.Length == n && k.Length == n
    requires yt != y && yt != pow && yt != k && yt != prev && k != y && k != pow && k != prev
    modifies yt, k
    ensures k[..] == Slope(Mat(c), Along(y[..], s, prev[..]), pow[..], n, h)
  {
    ghost var goal := Slope(Mat(c), Along(y[..], s, prev[..]), pow[..], n, h);
    for i := 0 to n
      invariant k[..i] == goal[..i]
    {
      RowDotAlong(c, y, s, prev, n, yt, i);
      k[i] := h * (pow[i] - yt[i]);
      assert k[i] == goal[i];
      assert k[..i + 1] == k[..i] + [k[i]];
    }
  }

  /** yout may be y or pow itself. */
  method Combine(y: array<real>, n: nat, yout: array<real>, k1: array<real>, k2: array<real>, k3: array<real>,
                 k4: array<real>, ghost c: Matrix, ghost pow: Vector, ghost h: real)
    requires y.Length == n && yout.Length == n && |pow| == n
    requires k1.Length == n && k2.Length == n && k3.Length == n && k4.Length == n
    requires yout !in {k1, k2, k3, k4}
    requires FourSlopes(c, y[..], pow, n, h, k1[..], k2[..], k3[..], k4[..])
    modifies yout
    ensures yout[..] == Taylor(c, old(y[..]), pow, n, h)
  {
    ghost var y0 := y[..];
    ghost var goal := Taylor(c, y0, pow, n, h);
    ghost var s1, s2, s3, s4 := k1[..], k2[..], k3[..], k4[..];
    for i := 0 to n
      invariant yout[..i] == goal[..i]
      invariant y[i..] == y0[i..]
      invariant k1[..] == s1 && k2[..] == s2 && k3[..] == s3 && k4[..] == s4
    {
      WeighedIsTaylor(c, y0, pow, n, h, s1, s2, s3, s4, i);
      assert y[i] == y0[i] && k1[i] == s1[i] && k2[i] == s2[i] && k3[i] == s3[i] && k4[i] == s4[i];
      yout[i] := y[i] + (k1[i] + 2.0 * k2[i] + 2.0 * k3[i] + k4[i]) / 6.0;
    }
  }

  method Rk4(c: array2<real>, y: array<real>, pow: array<real>, n: nat, h: real, yout: array<real>)
    requires c.Length0 == n && c.Length1 == n && y.Length == n && pow.Length == n && yout.Length == n
    modifies yout
    ensures yout[..] == Taylor(Mat(c), old(y[..]), old(pow[..]), n, h)
  {
    var yt, k1, k2, k3, k4 := new real[n], new real[n], new real[n], new real[n], new real[n];
    FirstSlope(c, y, pow, n, h, yt, k1);
    NextSlope(c, y, 0.5, k1, pow, n, h, yt, k2);
    NextSlope(c, y, 0.5, k2, pow, n, h, yt, k3);
    NextSlope(c, y, 1.0, k3, pow, n, h, yt, k4);
    Combine(y, n, yout, k1, k2, k3, k4, Mat(c), pow[..], h);
  }
}
