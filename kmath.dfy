/**
 * What the geometry and spline code takes from kotlin.math and from IEEE-754
 * doubles. Every Double is a real here. The transcendental functions cannot be
 * defined over the reals, so they travel as a record of function values, and
 * the few facts a proof needs about them are predicates on that record, which
 * the lemmas that need them require.
 */
module KMath {

  /** kotlin.math.sin, cos, atan2, hypot, sqrt and acos, left uninterpreted. */
  datatype Math = Math(
    sin: real -> real,
    cos: real -> real,
    atan2: (real, real) -> real,
    hypot: (real, real) -> real,
    sqrt: real -> real,
    acos: real -> real)

  /** hypot(x, y) is the non-negative square root of x^2 + y^2 at this one point. */
  ghost predicate HypotAt(m: Math, x: real, y: real) {
    0.0 <= m.hypot(x, y) && m.hypot(x, y) * m.hypot(x, y) == x * x + y * y
  }

  /**
   * hypot is Euclidean everywhere. The quantifier fires on HypotAt only, so a
   * proof takes the instances it needs through HypotFacts.
   */
  ghost predicate HypotIsEuclidean(m: Math) {
    forall x: real, y: real :: HypotAt(m, x, y)
  }

  /** sqrt(x) is the non-negative square root of x, for this one x if it is non-negative. */
  ghost predicate SqrtAt(m: Math, x: real) {
    0.0 <= x ==> 0.0 <= m.sqrt(x) && m.sqrt(x) * m.sqrt(x) == x
  }

  /** sqrt is the non-negative square root on the non-negative reals; instances come from SqrtFacts. */
  ghost predicate SqrtIsRoot(m: Math) {
    forall x: real :: SqrtAt(m, x)
  }

  /** sin 0 = 0, cos 0 = 1 and atan2(0, 1) = 0. */
  ghost predicate TrigAtZero(m: Math) {
    m.sin(0.0) == 0.0 && m.cos(0.0) == 1.0 && m.atan2(0.0, 1.0) == 0.0
  }

  /** A Double as IEEE-754 sees it: finite, an infinity, or NaN (rounding is not modelled). */
  datatype Double = Finite(value: real) | PositiveInfinity | NegativeInfinity | NaN

  /** n / d in IEEE-754 for a denominator that is a non-negative zero or any non-zero value. */
  function Divide(n: real, d: real): (r: Double)
    ensures d != 0.0 ==> r == Finite(n / d)
    ensures d == 0.0 ==> (r == NaN <==> n == 0.0)
    ensures d == 0.0 && n > 0.0 ==> r == PositiveInfinity
    ensures d == 0.0 && n < 0.0 ==> r == NegativeInfinity
  {
    if d != 0.0 then Finite(n / d)
    else if n > 0.0 then PositiveInfinity
    else if n < 0.0 then NegativeInfinity
    else NaN
  }

  /** IEEE-754 addition. */
  function Plus(a: Double, b: Double): (r: Double)
    ensures r.Finite? <==> a.Finite? && b.Finite?
    ensures r.Finite? ==> r.value == a.value + b.value
    ensures a.NaN? || b.NaN? ==> r.NaN?
  {
    match (a, b)
    case (Finite(x), Finite(y)) => Finite(x + y)
    case (NaN, _) => NaN
    case (_, NaN) => NaN
    case (PositiveInfinity, NegativeInfinity) => NaN
    case (NegativeInfinity, PositiveInfinity) => NaN
    case (PositiveInfinity, _) => PositiveInfinity
    case (_, PositiveInfinity) => PositiveInfinity
    case (NegativeInfinity, _) => NegativeInfinity
    case (_, NegativeInfinity) => NegativeInfinity
  }

  /** IEEE-754 product of a finite k and a Double. */
  function Times(k: real, a: Double): (r: Double)
    ensures r.Finite? <==> a.Finite?
    ensures r.Finite? ==> r.value == k * a.value
    ensures a.NaN? ==> r.NaN?
  {
    match a
    case Finite(x) => Finite(k * x)
    case NaN => NaN
    case PositiveInfinity => if k > 0.0 then PositiveInfinity else if k < 0.0 then NegativeInfinity else NaN
    case NegativeInfinity => if k > 0.0 then NegativeInfinity else if k < 0.0 then PositiveInfinity else NaN
  }

  /** IEEE-754 negation. */
  function Negate(a: Double): (r: Double)
    ensures r.Finite? <==> a.Finite?
    ensures r.Finite? ==> r.value == -a.value
    ensures r.NaN? <==> a.NaN?
    ensures r.PositiveInfinity? <==> a.NegativeInfinity?
    ensures r.NegativeInfinity? <==> a.PositiveInfinity?
  {
    match a
    case Finite(x) => Finite(-x)
    case PositiveInfinity => NegativeInfinity
    case NegativeInfinity => PositiveInfinity
    case NaN => NaN
  }

  /** IEEE-754 division of a Double by a finite d (a zero d taken as +0). */
  function DivideBy(a: Double, d: real): (r: Double)
    ensures a.Finite? ==> r == Divide(a.value, d)
    ensures a.NaN? ==> r.NaN?
    ensures r.Finite? ==> a.Finite? && d != 0.0 && r.value * d == a.value
  {
    match a
    case Finite(x) => Divide(x, d)
    case NaN => NaN
    case PositiveInfinity => if d < 0.0 then NegativeInfinity else PositiveInfinity
    case NegativeInfinity => if d < 0.0 then PositiveInfinity else NegativeInfinity
  }

  /** kotlin.math.abs */
  function Abs(x: real): (r: real)
    ensures 0.0 <= r && (r == x || r == -x)
  {
    if x < 0.0 then -x else x
  }

  /** kotlin.math.sign for a number: -1, 0 or 1. */
  function Sign(x: real): (r: real)
    ensures r * Abs(x) == x
    ensures x != 0.0 ==> Abs(r) == 1.0
    ensures x == 0.0 ==> r == 0.0
  {
    if x > 0.0 then 1.0 else if x < 0.0 then -1.0 else 0.0
  }

  /** kotlin.math.min */
  function Min(a: real, b: real): (r: real)
    ensures r <= a && r <= b && (r == a || r == b)
  {
    if a <= b then a else b
  }

  /** kotlin.math.max */
  function Max(a: real, b: real): (r: real)
    ensures a <= r && b <= r && (r == a || r == b)
  {
    if a >= b then a else b
  }

  /** The product of two non-negative reals is non-negative. */
  lemma MulNonNegative(x: real, y: real)
    requires 0.0 <= x && 0.0 <= y
    ensures 0.0 <= x * y
  {
  }

  /** Squaring is strictly increasing on the non-negative reals. */
  lemma SquareStrictlyIncreasing(a: real, b: real)
    requires 0.0 <= a < b
    ensures a * a < b * b
  {
    calc {
      a * a;
    <= a * b;
    < b * b;
    }
  }

  /** A sum of two squares is zero only when both terms are. */
  lemma SumOfSquaresZero(x: real, y: real)
    ensures x * x + y * y == 0.0 <==> x == 0.0 && y == 0.0
  {
    if x != 0.0 {
      SquareStrictlyIncreasing(0.0, Abs(x));
      assert x * x == Abs(x) * Abs(x);
    }
    if y != 0.0 {
      SquareStrictlyIncreasing(0.0, Abs(y));
      assert y * y == Abs(y) * Abs(y);
    }
  }

  /** The instance of HypotIsEuclidean at (x, y). */
  lemma HypotFacts(m: Math, x: real, y: real)
    requires HypotIsEuclidean(m)
    ensures 0.0 <= m.hypot(x, y) && m.hypot(x, y) * m.hypot(x, y) == x * x + y * y
  {
    assert HypotAt(m, x, y);
  }

  /** The instance of SqrtIsRoot at a non-negative x. */
  lemma SqrtFacts(m: Math, x: real)
    requires SqrtIsRoot(m) && 0.0 <= x
    ensures 0.0 <= m.sqrt(x) && m.sqrt(x) * m.sqrt(x) == x
  {
    assert SqrtAt(m, x);
  }

  /** hypot is zero exactly at the origin. */
  lemma HypotZero(m: Math, x: real, y: real)
    requires HypotIsEuclidean(m)
    ensures m.hypot(x, y) == 0.0 <==> x == 0.0 && y == 0.0
  {
    var h := m.hypot(x, y);
    HypotFacts(m, x, y);
    SumOfSquaresZero(x, y);
    if h != 0.0 {
      SquareStrictlyIncreasing(0.0, h);
    }
  }

  /** hypot of (c k, s k) is k when (c, s) is a unit pair and k is non-negative. */
  lemma HypotOfScaledUnit(m: Math, c: real, s: real, k: real)
    requires HypotIsEuclidean(m)
    requires c * c + s * s == 1.0 && 0.0 <= k
    ensures m.hypot(c * k, s * k) == k
  {
    var h := m.hypot(c * k, s * k);
    HypotFacts(m, c * k, s * k);
    assert (c * k) * (c * k) + (s * k) * (s * k) == (c * c + s * s) * (k * k);
    assert h * h == k * k;
    if h < k {
      SquareStrictlyIncreasing(h, k);
    } else if h > k {
      SquareStrictlyIncreasing(k, h);
    }
  }

  /** Two non-negative reals with equal squares are equal. */
  lemma SquareRootUnique(a: real, b: real)
    requires 0.0 <= a && 0.0 <= b && a * a == b * b
    ensures a == b
  {
    if a < b {
      SquareStrictlyIncreasing(a, b);
    } else if b < a {
      SquareStrictlyIncreasing(b, a);
    }
  }
}
