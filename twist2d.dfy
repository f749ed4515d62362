/** Twist2d.kt: a motion along an arc of constant curvature, (dx, dy, dtheta). */
module Twists {
  import opened KMath
  import Util

  datatype Twist2d = Twist2d(dx: real, dy: real, dtheta: real) {

    /** scaled(scale): every component times scale. */
    function Scaled(scale: real): Twist2d
    {
      Twist2d(dx * scale, dy * scale, dtheta * scale)
    }

    /** norm(): |dx| when dy is exactly 0, hypot(dx, dy) otherwise. */
    function Norm(m: Math): real
    {
      if dy == 0.0 then Abs(dx) else m.hypot(dx, dy)
    }

    /**
     * curvature(): 0 when both |dtheta| and norm() are below kEpsilon,
     * otherwise dtheta / norm(), which is infinite for a pure rotation.
     */
    function Curvature(m: Math): (r: Double)
      ensures Abs(dtheta) < Util.kEpsilon && Norm(m) < Util.kEpsilon ==> r == Finite(0.0)
      ensures !(Abs(dtheta) < Util.kEpsilon && Norm(m) < Util.kEpsilon) && Norm(m) != 0.0 ==>
                r.Finite? && r.value * Norm(m) == dtheta
      ensures !(Abs(dtheta) < Util.kEpsilon && Norm(m) < Util.kEpsilon) && Norm(m) == 0.0 ==>
                (if dtheta > 0.0 then r == PositiveInfinity else r == NegativeInfinity)
    {
      if Abs(dtheta) < Util.kEpsilon && Norm(m) < Util.kEpsilon then Finite(0.0)
      else Divide(dtheta, Norm(m))
    }
  }

  /** identity(): the zero twist. */
  function Identity(): Twist2d
  {
    Twist2d(0.0, 0.0, 0.0)
  }

  /** norm() is the Euclidean length of (dx, dy) in both of its branches. */
  lemma NormIsEuclidean(m: Math, t: Twist2d)
    requires HypotIsEuclidean(m)
    ensures 0.0 <= t.Norm(m)
    ensures t.Norm(m) * t.Norm(m) == t.dx * t.dx + t.dy * t.dy
  {
    if t.dy == 0.0 {
      assert Abs(t.dx) * Abs(t.dx) == t.dx * t.dx;
    } else {
      HypotFacts(m, t.dx, t.dy);
    }
  }

  /** Scaling a twist scales its norm by |scale|. */
  lemma NormScaled(m: Math, t: Twist2d, scale: real)
    requires HypotIsEuclidean(m)
    ensures t.Scaled(scale).Norm(m) == Abs(scale) * t.Norm(m)
  {
    var n, un := NormPair(m, t, scale);
  }

  /** The norms of t and of t scaled, the second |scale| times the first. */
  lemma NormPair(m: Math, t: Twist2d, scale: real) returns (n: real, un: real)
    requires HypotIsEuclidean(m)
    ensures n == t.Norm(m) && un == t.Scaled(scale).Norm(m)
    ensures un == Abs(scale) * n
  {
    n, un := t.Norm(m), t.Scaled(scale).Norm(m);
    NormIsEuclidean(m, t);
    NormIsEuclidean(m, t.Scaled(scale));
    ScaledRoot(t.dx, t.dy, scale, n, un);
  }

  /** The root of (a k)^2 + (b k)^2 is |k| times the root of a^2 + b^2. */
  lemma ScaledRoot(a: real, b: real, k: real, n: real, un: real)
    requires 0.0 <= n && n * n == a * a + b * b
    requires 0.0 <= un && un * un == (a * k) * (a * k) + (b * k) * (b * k)
    ensures un == Abs(k) * n
  {
    MulNonNegative(Abs(k), n);
    ScaledSquares(a, b, k, n);
    SquareRootUnique(un, Abs(k) * n);
  }

  /** (a k)^2 + (b k)^2 is (|k| n)^2 when n^2 = a^2 + b^2. */
  lemma ScaledSquares(a: real, b: real, k: real, n: real)
    requires n * n == a * a + b * b
    ensures (a * k) * (a * k) + (b * k) * (b * k) == (Abs(k) * n) * (Abs(k) * n)
  {
    assert Abs(k) * Abs(k) == k * k;
    calc {
      (a * k) * (a * k) + (b * k) * (b * k);
      (a * a + b * b) * (k * k);
      (n * n) * (Abs(k) * Abs(k));
      (Abs(k) * n) * (Abs(k) * n);
    }
  }

  /** Outside the near-zero region, scaling by a positive factor keeps the curvature. */
  lemma CurvatureScaled(m: Math, t: Twist2d, scale: real)
    requires HypotIsEuclidean(m) && 0.0 < scale
    requires !(Abs(t.dtheta) < Util.kEpsilon && t.Norm(m) < Util.kEpsilon)
    requires !(Abs(t.Scaled(scale).dtheta) < Util.kEpsilon && t.Scaled(scale).Norm(m) < Util.kEpsilon)
    ensures t.Scaled(scale).Curvature(m) == t.Curvature(m)
  {
    var u := t.Scaled(scale);
    NormScaled(m, t, scale);
    NormIsEuclidean(m, t);
    ScaledQuotient(t.dtheta, scale, t.Norm(m), u.Norm(m), u.Curvature(m), t.Curvature(m));
  }

  /** The IEEE quotients a k / un and a / n agree when un = k n with k > 0. */
  lemma ScaledQuotient(a: real, k: real, n: real, un: real, cu: Double, ct: Double)
    requires 0.0 < k && 0.0 <= n && un == Abs(k) * n
    requires cu == Divide(a * k, un) && ct == Divide(a, n)
    ensures cu == ct
  {
    DivideScaled(a, k, n);
  }

  /** Dividing a k by k n, for k > 0, is dividing a by n, in every IEEE case. */
  lemma DivideScaled(a: real, k: real, n: real)
    requires 0.0 < k && 0.0 <= n
    ensures Divide(a * k, Abs(k) * n) == Divide(a, n)
  {
    if n != 0.0 {
      MulNonNegative(k, n);
      assert k * n != 0.0;
      CancelScale(a, k, n);
    } else {
      assert a * k > 0.0 <==> a > 0.0;
      assert a * k < 0.0 <==> a < 0.0;
    }
  }

  /** A common non-zero factor cancels from a quotient. */
  lemma CancelScale(a: real, k: real, n: real)
    requires k != 0.0 && n != 0.0
    ensures a * k / (k * n) == a / n
  {
    var q := a / n;
    assert q * n == a;
    assert a * k == q * (k * n);
  }

  /** scaled(1) changes nothing, and two scalings compose into one by the product. */
  lemma ScaledLaws(t: Twist2d, a: real, b: real)
    ensures t.Scaled(1.0) == t
    ensures t.Scaled(a).Scaled(b) == t.Scaled(a * b)
  {
  }

  /** The identity twist has zero norm and zero curvature. */
  lemma IdentityIsStill(m: Math)
    ensures Identity().Norm(m) == 0.0
    ensures Identity().Curvature(m) == Finite(0.0)
  {
  }

  /** A twist along a straight line (dtheta = 0) with some length has curvature 0. */
  lemma StraightTwistCurvature(m: Math, t: Twist2d)
    requires t.dtheta == 0.0 && t.Norm(m) != 0.0
    ensures t.Curvature(m) == Finite(0.0)
  {
  }
}
