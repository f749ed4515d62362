/**
 * com.team254.lib.util.Util: clamping, clamped linear interpolation, epsilon
 * comparison and two list helpers. The Kotlin object declares Doubles (reals
 * here) and one overload on Kotlin's 32-bit Int.
 */
module Util {
  import opened KMath
  import opened Wrappers

  /** Util.kEpsilon, 1e-12. */
  const kEpsilon: real := 0.000000000001

  /** limit(v, min, max) = min(max, max(min, v)). */
  function Limit(v: real, min: real, max: real): (r: real)
    ensures min <= max ==> min <= r <= max
    ensures min <= v <= max ==> r == v
    ensures min <= max && v < min ==> r == min
    ensures v > max ==> r == max
    ensures max < min ==> r == max
  {
    Min(max, Max(min, v))
  }

  /** limit(v, maxMagnitude) clamps v to [-maxMagnitude, maxMagnitude]. */
  function LimitMagnitude(v: real, maxMagnitude: real): (r: real)
    ensures 0.0 <= maxMagnitude ==> -maxMagnitude <= r <= maxMagnitude
    ensures Abs(v) <= maxMagnitude ==> r == v
    ensures 0.0 <= maxMagnitude && v < -maxMagnitude ==> r == -maxMagnitude
    ensures v > maxMagnitude ==> r == maxMagnitude
  {
    Limit(v, -maxMagnitude, maxMagnitude)
  }

  /** interpolate(a, b, x) moves from a to b as x goes from 0 to 1, clamping x first. */
  function Interpolate(a: real, b: real, x: real): (r: real)
    ensures x <= 0.0 ==> r == a
    ensures x >= 1.0 ==> r == b
    ensures 0.0 <= x <= 1.0 ==> r == a + (b - a) * x
    ensures Min(a, b) <= r <= Max(a, b)
  {
    var x := Limit(x, 0.0, 1.0);
    LerpBetween(a, b, x);
    a + (b - a) * x
  }

  /**
   * interpolate(a, b, x) evaluated in IEEE-754 arithmetic: a + (b - a) * x
   * with x clamped to [0, 1]. Finite inputs give the real interpolation; a
   * NaN or an infinite a gives NaN.
   */
  function InterpolateDouble(a: Double, b: Double, x: real): (r: Double)
    ensures a.Finite? && b.Finite? ==> r == Finite(Interpolate(a.value, b.value, x))
    ensures a.NaN? || b.NaN? ==> r.NaN?
    ensures !a.Finite? ==> r.NaN?
  {
    Plus(a, Times(Limit(x, 0.0, 1.0), Plus(b, Negate(a))))
  }

  /** A point of the segment from a to b lies between a and b. */
  lemma LerpBetween(a: real, b: real, c: real)
    requires 0.0 <= c <= 1.0
    ensures Min(a, b) <= a + (b - a) * c <= Max(a, b)
  {
    assert (b - a) * (1.0 - c) == (b - a) - (b - a) * c;
    if a <= b {
      MulNonNegative(b - a, c);
      MulNonNegative(b - a, 1.0 - c);
    } else {
      MulNonNegative(a - b, c);
      MulNonNegative(a - b, 1.0 - c);
      assert (a - b) * c == -((b - a) * c);
      assert (a - b) * (1.0 - c) == -((b - a) * (1.0 - c));
    }
  }

  /** Interpolating from b back to a with 1 - x gives the same value. */
  lemma InterpolateReversed(a: real, b: real, x: real)
    ensures Interpolate(a, b, x) == Interpolate(b, a, 1.0 - x)
  {
    var c := Limit(x, 0.0, 1.0);
    assert Limit(1.0 - x, 0.0, 1.0) == 1.0 - c;
    calc {
      b + (a - b) * (1.0 - c);
      b + (a - b) - (a - b) * c;
      a + (b - a) * c;
    }
  }

  /** epsilonEquals(a, b, epsilon) on Doubles; epsilon defaults to kEpsilon as in the @JvmOverloads form. */
  function EpsilonEquals(a: real, b: real, epsilon: real := kEpsilon): (r: bool)
    ensures r <==> Abs(a - b) <= epsilon
  {
    a - epsilon <= b && a + epsilon >= b
  }

  /** epsilonEquals on Doubles is reflexive for a non-negative epsilon and symmetric. */
  lemma EpsilonEqualsReflexiveSymmetric(a: real, b: real, epsilon: real)
    ensures 0.0 <= epsilon ==> EpsilonEquals(a, a, epsilon)
    ensures EpsilonEquals(a, b, epsilon) == EpsilonEquals(b, a, epsilon)
  {
  }

  /** Kotlin's Int: 32-bit two's complement. */
  newtype Int32 = x: int | -0x8000_0000 <= x < 0x8000_0000

  /** The Int result of a Kotlin Int addition or subtraction whose exact value is x. */
  function Wrap32(x: int): (r: Int32)
    ensures -0x8000_0000 <= x < 0x8000_0000 ==> r as int == x
    ensures (r as int - x) % 0x1_0000_0000 == 0
  {
    ((x + 0x8000_0000) % 0x1_0000_0000 - 0x8000_0000) as Int32
  }

  /** The Int overload as written: a - epsilon and a + epsilon are Int operations and wrap. */
  function EpsilonEqualsIntAsWritten(a: Int32, b: Int32, epsilon: Int32): (r: bool)
    ensures -0x8000_0000 <= a as int - epsilon as int < 0x8000_0000 &&
            -0x8000_0000 <= a as int + epsilon as int < 0x8000_0000 ==>
              (r <==> a as int - epsilon as int <= b as int <= a as int + epsilon as int)
  {
    var lo := Wrap32(a as int - epsilon as int);
    var hi := Wrap32(a as int + epsilon as int);
    lo <= b && hi >= b
  }

  /** The written Int overload is not reflexive: Int.MIN_VALUE is not within 1 of itself. */
  lemma EpsilonEqualsIntWrapCounterexample()
    ensures !EpsilonEqualsIntAsWritten(-0x8000_0000, -0x8000_0000, 1)
  {
    assert Wrap32(-0x8000_0000 - 1) == 0x7fff_ffff;
  }

  /** The Int overload as evidently intended: compare without wrap-around (as if in Long). */
  function EpsilonEqualsInt(a: Int32, b: Int32, epsilon: Int32): (r: bool)
    ensures r <==> a as int - epsilon as int <= b as int <= a as int + epsilon as int
  {
    a as int - epsilon as int <= b as int && a as int + epsilon as int >= b as int
  }

  /** The intended Int overload is reflexive for a non-negative epsilon and symmetric. */
  lemma EpsilonEqualsIntReflexiveSymmetric(a: Int32, b: Int32, epsilon: Int32)
    ensures 0 <= epsilon ==> EpsilonEqualsInt(a, a, epsilon)
    ensures EpsilonEqualsInt(a, b, epsilon) == EpsilonEqualsInt(b, a, epsilon)
  {
  }

  /** allCloseTo: true when every element is epsilon-equal to value (so true on an empty list). */
  method AllCloseTo(list: seq<real>, value: real, epsilon: real) returns (result: bool)
    ensures result <==> forall i :: 0 <= i < |list| ==> EpsilonEquals(list[i], value, epsilon)
  {
    result := true;
    for i := 0 to |list|
      invariant result <==> forall j :: 0 <= j < i ==> EpsilonEquals(list[j], value, epsilon)
    {
      result := result && EpsilonEquals(list[i], value, epsilon);
    }
  }

  /** The text StringBuilder.append gives a nullable String: "null" for null. */
  function AppendedText(s: Option<string>): (r: string)
    ensures s.Some? ==> r == s.value
    ensures s.None? ==> r == "null"
  {
    match s
    case Some(text) => text
    case None => "null"
  }

  /** The elements of strings with delim between consecutive ones. */
  function Joined(delim: string, strings: seq<string>): string
  {
    if |strings| == 0 then ""
    else if |strings| == 1 then strings[0]
    else Joined(delim, strings[..|strings| - 1]) + delim + strings[|strings| - 1]
  }

  /**
   * joinStrings(delim, strings): appends each element's text and, after every
   * element but the last, the delimiter. Elements are given as their toString() text.
   */
  method JoinStrings(delim: Option<string>, strings: seq<string>) returns (s: string)
    ensures s == Joined(AppendedText(delim), strings)
  {
    var d := AppendedText(delim);
    var sb := "";
    for i := 0 to |strings|
      invariant i == 0 ==> sb == ""
      invariant 0 < i ==> sb == Joined(d, strings[..i]) + (if i < |strings| then d else "")
    {
      assert strings[..i + 1][..i] == strings[..i];
      sb := sb + strings[i];
      if i < |strings| - 1 {
        sb := sb + d;
      }
    }
    assert strings[..|strings|] == strings;
    s := sb;
  }

  /** The total length of a list of strings. */
  function TotalLength(strings: seq<string>): nat
  {
    if |strings| == 0 then 0 else TotalLength(strings[..|strings| - 1]) + |strings[|strings| - 1]|
  }

  /** A joined list of n > 0 strings holds their characters plus n - 1 delimiters. */
  lemma {:induction false} JoinedLength(delim: string, strings: seq<string>)
    requires |strings| > 0
    ensures |Joined(delim, strings)| == TotalLength(strings) + (|strings| - 1) * |delim|
  {
    if |strings| > 1 {
      var init := strings[..|strings| - 1];
      JoinedLength(delim, init);
      assert init[..|init| - 1] == strings[..|strings| - 2];
      TotalLengthInit(strings);
    } else {
      assert TotalLength(strings) == TotalLength(strings[..0]) + |strings[0]|;
    }
  }

  lemma TotalLengthInit(strings: seq<string>)
    requires |strings| > 0
    ensures TotalLength(strings) == TotalLength(strings[..|strings| - 1]) + |strings[|strings| - 1]|
  {
  }

  /** Joining two non-empty lists is joining each and putting one delimiter between them. */
  lemma {:induction false} JoinedConcat(delim: string, a: seq<string>, b: seq<string>)
    requires |a| > 0 && |b| > 0
    ensures Joined(delim, a + b) == Joined(delim, a) + delim + Joined(delim, b)
  {
    var ab := a + b;
    if |b| == 1 {
      assert ab[..|ab| - 1] == a;
    } else {
      var b' := b[..|b| - 1];
      assert ab[..|ab| - 1] == a + b';
      JoinedConcat(delim, a, b');
    }
  }
}
