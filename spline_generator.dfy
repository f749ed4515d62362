/**
 * SplineGenerator.kt: turns splines into lists of poses with curvature.
 * getSegmentArc halves a parameter interval until the twist from the
 * pose at its start to the pose at its end is within the bounds, and
 * appends the pose at the end of every interval it keeps;
 * parameterizeSpline sweeps one spline, parameterizeSplines a list of
 * them.
 *
 * The source has no bound on the depth of getSegmentArc's recursion, so
 * the model carries a fuel parameter: the number of halvings allowed
 * below the interval it is given. A run that would need more reports
 * failure.
 */
module SplineGenerator {
  import opened KMath
  import opened Wrappers
  import opened Vectors
  import opened Twists
  import opened Poses
  import opened CurvaturePoses
  import opened Splines

  /** The default bounds: inches, inches and radians. */
  const kMaxDX: real := 2.0
  const kMaxDY: real := 0.05
  const kMaxDTheta: real := 0.1
  const kMinSampleSize: int := 1

  /** The bounds a sampled segment must keep to. */
  datatype Bounds = Bounds(maxDx: real, maxDy: real, maxDTheta: real)

  function Defaults(): (b: Bounds)
    ensures b.maxDx == 2.0 && b.maxDy == 0.05 && b.maxDTheta == 0.1
  {
    Bounds(kMaxDX, kMaxDY, kMaxDTheta)
  }

  // ---------------------------------------------------------------------
  // The sampler as functions

  /**
   * The twist from the pose at t0 to the pose at t1, seen from the pose at
   * t0: the translation between the two points and the second heading,
   * both rotated by the inverse of the first heading, through log.
   */
  function SegmentTwist(m: Math, s: Spline, t0: real, t1: real): Twist2d
  {
    var r0 := s.heading(t0);
    Log(m, Pose2d(Delta(s.point(t0), s.point(t1)).RotateBy(r0.Inverse()), s.heading(t1).RotateBy(m, r0.Inverse())))
  }

  /** The segment is too coarse: a signed component of its twist is above its bound. */
  predicate Exceeds(w: Twist2d, b: Bounds)
  {
    w.dy > b.maxDy || w.dx > b.maxDx || w.dtheta > b.maxDTheta
  }

  /** a followed by the list o holds, when there is one. */
  function Prepend<T>(a: seq<T>, o: Option<seq<T>>): (r: Option<seq<T>>)
    ensures r.Some? <==> o.Some?
    ensures r.Some? ==> r.value == a + o.value
  {
    match o
    case None => None
    case Some(v) => Some(a + v)
  }
  /** getSegmentArc's test: the segment of s from t0 to t1 is too coarse. */
  predicate Coarse(m: Math, s: Spline, b: Bounds, t0: real, t1: real)
  {
    Exceeds(SegmentTwist(m, s, t0, t1), b)
  }

  /** The test getSegmentArc applies, as a value. */
  ghost function CoarseTest(m: Math, b: Bounds): iset<(real, real, Spline)>
  {
    iset t0: real, t1: real, s: Spline | Coarse(m, s, b, t0, t1) :: (t0, t1, s)
  }

  /** coarse agrees with getSegmentArc's test on the segment of s from t0 to t1. */
  ghost predicate TestsAt(coarse: iset<(real, real, Spline)>, m: Math, b: Bounds, s: Spline, t0: real, t1: real)
  {
    ((t0, t1, s) in coarse) == Coarse(m, s, b, t0, t1)
  }

  /**
   * coarse is getSegmentArc's test. The sampler's definitions below take
   * the test as a parameter, so that reasoning about the halving and the
   * sweep does not depend on the geometry behind it.
   */
  ghost predicate Tests(coarse: iset<(real, real, Spline)>, m: Math, b: Bounds)
  {
    forall s, t0, t1 {:trigger TestsAt(coarse, m, b, s, t0, t1)} :: TestsAt(coarse, m, b, s, t0, t1)
  }

  /** CoarseTest(m, b) is getSegmentArc's test. */
  lemma CoarseTestTests(m: Math, b: Bounds)
    ensures Tests(CoarseTest(m, b), m, b)
  {
    forall s, t0, t1
      ensures TestsAt(CoarseTest(m, b), m, b, s, t0, t1)
    {
    }
  }

  /**
   * The parameters whose poses getSegmentArc appends for [t0, t1], in
   * order, with at most fuel halvings; None when more would be needed.
   * The last one is always t1.
   */
  ghost function ArcTimes(coarse: iset<(real, real, Spline)>, s: Spline, t0: real, t1: real, fuel: nat): (r: Option<seq<real>>)
    ensures r.Some? ==> |r.value| >= 1 && r.value[|r.value| - 1] == t1
    decreases fuel
  {
    if (t0, t1, s) !in coarse then Some([t1])
    else if fuel == 0 then None
    else
      var mid := (t0 + t1) / 2.0;
      match ArcTimes(coarse, s, t0, mid, fuel - 1)
      case None => None
      case Some(left) => Prepend(left, ArcTimes(coarse, s, mid, t1, fuel - 1))
  }

  /** The poses at the given parameters, in order. */
  function Samples(s: Spline, times: seq<real>): (r: seq<Pose2dWithCurvature>)
    ensures |r| == |times|
  {
    seq(|times|, i requires 0 <= i < |times| => s.GetPose2dWithCurvature(times[i]))
  }

  /**
   * The parameters appended by parameterizeSpline's loop from t on, one
   * getSegmentArc call on [t, t + step] while t < t1.
   */
  ghost function SweepTimes(coarse: iset<(real, real, Spline)>, s: Spline, t: real, step: real, t1: real, fuel: nat): (r: Option<seq<real>>)
    requires step > 0.0 || t >= t1
    decreases if t < t1 then ((t1 - t) / step).Floor + 1 else 0
  {
    if t >= t1 then Some([])
    else
      StepShrinks(t, step, t1);
      match ArcTimes(coarse, s, t, t + step, fuel)
      case None => None
      case Some(arc) => Prepend(arc, SweepTimes(coarse, s, t + step, step, t1, fuel))
  }

  /**
   * The parameters parameterizeSpline(s, maxDx, maxDy, maxDTheta, t0, t1)
   * samples at: t = 0, whatever t0 is, then the sweep from 0 in steps of
   * t1 - t0. None when the sweep needs more fuel, and when it would never
   * end (t1 > 0 but the step is not positive).
   */
  ghost function SplineTimes(coarse: iset<(real, real, Spline)>, s: Spline, t0: real, t1: real, fuel: nat): (r: Option<seq<real>>)
    ensures r.Some? ==> |r.value| >= 1 && r.value[0] == 0.0
    ensures t1 <= 0.0 ==> r == Some([0.0])
    ensures 0.0 < t1 <= t0 ==> r.None?
  {
    var step := (t1 - t0) / kMinSampleSize as real;
    if 0.0 < t1 && step <= 0.0 then None
    else
      assert [0.0] + [] == [0.0];
      Prepend([0.0], SweepTimes(coarse, s, 0.0, step, t1, fuel))
  }

  /** parameterizeSpline(s, maxDx, maxDy, maxDTheta, t0, t1): the poses at SplineTimes. */
  ghost function SplineSamples(coarse: iset<(real, real, Spline)>, s: Spline, t0: real, t1: real, fuel: nat): (r: Option<seq<Pose2dWithCurvature>>)
    ensures r.Some? ==> |r.value| >= 1 && r.value[0] == s.GetPose2dWithCurvature(0.0)
  {
    match SplineTimes(coarse, s, t0, t1, fuel)
    case None => None
    case Some(times) => Some(Samples(s, times))
  }

  /**
   * What parameterizeSplines appends after its first sample, given each
   * spline's own samples: every list without its first element (the
   * pose at t = 0, which repeats the end of the spline before), in order;
   * None once one of them is missing.
   */
  function Tails(outs: seq<Option<seq<Pose2dWithCurvature>>>): (r: Option<seq<Pose2dWithCurvature>>)
  {
    if |outs| == 0 then Some([])
    else
      match Tails(outs[..|outs| - 1])
      case None => None
      case Some(acc) =>
        match outs[|outs| - 1]
        case None => None
        case Some(out) => Some(acc + (if |out| == 0 then out else out[1..]))
  }

  /** Each spline's samples on the default range 0 to 1. */
  ghost function EachSpline(coarse: iset<(real, real, Spline)>, splines: seq<Spline>, fuel: nat): (r: seq<Option<seq<Pose2dWithCurvature>>>)
    ensures |r| == |splines|
  {
    seq(|splines|, i requires 0 <= i < |splines| => SplineSamples(coarse, splines[i], 0.0, 1.0, fuel))
  }

  /** parameterizeSplines(splines, maxDx, maxDy, maxDTheta). */
  ghost function SplinesSamples(coarse: iset<(real, real, Spline)>, splines: seq<Spline>, fuel: nat): (r: Option<seq<Pose2dWithCurvature>>)
    ensures |splines| == 0 ==> r == Some([])
    ensures |splines| > 0 && r.Some? ==> |r.value| >= 1 && r.value[0] == splines[0].GetPose2dWithCurvature(0.0)
  {
    if |splines| == 0 then Some([])
    else Prepend([splines[0].GetPose2dWithCurvature(0.0)], Tails(EachSpline(coarse, splines, fuel)))
  }

  // ---------------------------------------------------------------------
  // Properties

  /** A step of the sweep brings t closer to t1 by a whole step. */
  lemma StepShrinks(t: real, step: real, t1: real)
    requires step > 0.0 && t < t1
    ensures (if t + step < t1 then ((t1 - (t + step)) / step).Floor + 1 else 0) < ((t1 - t) / step).Floor + 1
    ensures ((t1 - t) / step).Floor >= 0
  {
    var q := (t1 - t) / step;
    assert q > 0.0;
    DivideExactly(t1 - (t + step), step, q - 1.0);
  }

  /** a / d is k when a is k times d. */
  lemma DivideExactly(a: real, d: real, k: real)
    requires d != 0.0 && a == k * d
    ensures a / d == k
  {
  }

  /** A fine segment is sampled by its end alone; a coarse one by at least two. */
  lemma ArcTimesSingle(coarse: iset<(real, real, Spline)>, s: Spline, t0: real, t1: real, fuel: nat)
    requires ArcTimes(coarse, s, t0, t1, fuel).Some?
    ensures |ArcTimes(coarse, s, t0, t1, fuel).value| == 1 <==> (t0, t1, s) !in coarse
  {
  }

  /**
   * The parameters of one getSegmentArc call lie in (t0, t1] and strictly
   * increase.
   */
  lemma {:induction false} ArcTimesOrdered(coarse: iset<(real, real, Spline)>, s: Spline, t0: real, t1: real, fuel: nat)
    requires t0 < t1 && ArcTimes(coarse, s, t0, t1, fuel).Some?
    ensures var ts := ArcTimes(coarse, s, t0, t1, fuel).value;
            (forall i :: 0 <= i < |ts| ==> t0 < ts[i] <= t1) &&
            (forall i, j :: 0 <= i < j < |ts| ==> ts[i] < ts[j])
    decreases fuel
  {
    if (t0, t1, s) in coarse {
      var mid := (t0 + t1) / 2.0;
      ArcTimesOrdered(coarse, s, t0, mid, fuel - 1);
      ArcTimesOrdered(coarse, s, mid, t1, fuel - 1);
    }
  }

  /**
   * Each segment between consecutive parameters, starting from t0, passes
   * the test.
   */
  ghost predicate AllFine(coarse: iset<(real, real, Spline)>, s: Spline, t0: real, ts: seq<real>)
  {
    (|ts| > 0 ==> (t0, ts[0], s) !in coarse) &&
    forall i :: 0 < i < |ts| ==> (ts[i - 1], ts[i], s) !in coarse
  }

  /** getSegmentArc keeps only segments that pass the test. */
  lemma {:induction false} ArcTimesFine(coarse: iset<(real, real, Spline)>, s: Spline, t0: real, t1: real, fuel: nat)
    requires ArcTimes(coarse, s, t0, t1, fuel).Some?
    ensures AllFine(coarse, s, t0, ArcTimes(coarse, s, t0, t1, fuel).value)
    decreases fuel
  {
    if (t0, t1, s) in coarse {
      var mid := (t0 + t1) / 2.0;
      ArcTimesFine(coarse, s, t0, mid, fuel - 1);
      ArcTimesFine(coarse, s, mid, t1, fuel - 1);
      var left := ArcTimes(coarse, s, t0, mid, fuel - 1).value;
      var right := ArcTimes(coarse, s, mid, t1, fuel - 1).value;
      var ts := left + right;
      assert ts[0] == left[0];
      forall i | 0 < i < |ts|
        ensures (ts[i - 1], ts[i], s) !in coarse
      {
        if i < |left| {
          assert ts[i - 1] == left[i - 1] && ts[i] == left[i];
        } else if i == |left| {
          assert ts[i - 1] == left[|left| - 1] == mid && ts[i] == right[0];
        } else {
          var k := i - |left|;
          assert ts[i - 1] == right[k - 1] && ts[i] == right[k];
        }
      }
      assert ArcTimes(coarse, s, t0, t1, fuel).value == ts;
    }
  }

  /**
   * With getSegmentArc's own test, every sampled segment — from t0 to the
   * first parameter and between consecutive ones — is within the bounds.
   */
  lemma ArcTimesWithinBounds(m: Math, s: Spline, b: Bounds, t0: real, t1: real, fuel: nat)
    requires ArcTimes(CoarseTest(m, b), s, t0, t1, fuel).Some?
    ensures var ts := ArcTimes(CoarseTest(m, b), s, t0, t1, fuel).value;
            !Exceeds(SegmentTwist(m, s, t0, ts[0]), b) &&
            forall i :: 0 < i < |ts| ==> !Exceeds(SegmentTwist(m, s, ts[i - 1], ts[i]), b)
  {
    ArcTimesFine(CoarseTest(m, b), s, t0, t1, fuel);
  }

  /** The samples at a + c are those at a, then those at c. */
  lemma SamplesAppend(s: Spline, a: seq<real>, c: seq<real>)
    ensures Samples(s, a + c) == Samples(s, a) + Samples(s, c)
  {
    var r := Samples(s, a + c);
    assert forall i :: 0 <= i < |r| ==> r[i] == (Samples(s, a) + Samples(s, c))[i];
  }

  /** Each sample is the pose at its parameter. */
  lemma SamplesAt(s: Spline, times: seq<real>, i: int)
    requires 0 <= i < |times|
    ensures Samples(s, times)[i] == s.GetPose2dWithCurvature(times[i])
  {
  }

  /** Concatenation is associative. */
  lemma AppendAssoc<T>(a: seq<T>, c: seq<T>, d: seq<T>)
    ensures (a + c) + d == a + (c + d)
  {
  }

  /** Prepending twice is prepending the concatenation. */
  lemma PrependTwice<T>(a: seq<T>, c: seq<T>, o: Option<seq<T>>)
    ensures Prepend(a, Prepend(c, o)) == Prepend(a + c, o)
  {
    if o.Some? {
      AppendAssoc(a, c, o.value);
    }
  }

  /**
   * One turn of parameterizeSpline's loop: the samples of one
   * getSegmentArc call move from what is left of the sweep to what is
   * done.
   */
  lemma SweepStep(coarse: iset<(real, real, Spline)>, s: Spline, done: seq<real>, t: real, step: real, t1: real, fuel: nat)
    requires step > 0.0 && t < t1 && ArcTimes(coarse, s, t, t + step, fuel).Some?
    ensures var arcs := ArcTimes(coarse, s, t, t + step, fuel).value;
            Prepend(done, SweepTimes(coarse, s, t, step, t1, fuel)) ==
              Prepend(done + arcs, SweepTimes(coarse, s, t + step, step, t1, fuel)) &&
            Samples(s, done) + Samples(s, arcs) == Samples(s, done + arcs)
  {
    var arcs := ArcTimes(coarse, s, t, t + step, fuel).value;
    PrependTwice(done, arcs, SweepTimes(coarse, s, t + step, step, t1, fuel));
    SamplesAppend(s, done, arcs);
  }

  /** Once the sweep is over, what is done is all there is. */
  lemma SweepOver(coarse: iset<(real, real, Spline)>, s: Spline, done: seq<real>, t: real, step: real, t1: real, fuel: nat)
    requires t >= t1
    ensures Prepend(done, SweepTimes(coarse, s, t, step, t1, fuel)) == Some(done)
  {
    assert done + [] == done;
  }

  /**
   * With the default t0 = 0 and t1 = 1, parameterizeSpline makes a single
   * getSegmentArc call, on [0, 1].
   */
  lemma DefaultSweepIsOneArc(coarse: iset<(real, real, Spline)>, s: Spline, fuel: nat)
    ensures SweepTimes(coarse, s, 0.0, 1.0, 1.0, fuel) == ArcTimes(coarse, s, 0.0, 1.0, fuel)
  {
    var arc := ArcTimes(coarse, s, 0.0, 1.0, fuel);
    if arc.Some? {
      assert arc.value + [] == arc.value;
    }
  }

  /** The total length of Tails: one less than each list's own. */
  function TailLength(outs: seq<Option<seq<Pose2dWithCurvature>>>): int
  {
    if |outs| == 0 then 0
    else TailLength(outs[..|outs| - 1]) +
         match outs[|outs| - 1]
         case None => 0
         case Some(out) => if |out| == 0 then 0 else |out| - 1
  }

  /**
   * The tails are there exactly when every spline's samples are, and then
   * their length is the sum over the splines of each count less one.
   */
  lemma {:induction false} TailsLength(outs: seq<Option<seq<Pose2dWithCurvature>>>)
    ensures Tails(outs).Some? <==> forall i :: 0 <= i < |outs| ==> outs[i].Some?
    ensures Tails(outs).Some? ==> |Tails(outs).value| == TailLength(outs)
  {
    if |outs| > 0 {
      var init := outs[..|outs| - 1];
      TailsLength(init);
      assert forall i :: 0 <= i < |init| ==> init[i] == outs[i];
    }
  }

  /** parameterizeSplines of a non-empty list yields 1 + the sum of (count - 1) samples. */
  lemma SplinesSamplesLength(coarse: iset<(real, real, Spline)>, splines: seq<Spline>, fuel: nat)
    requires |splines| > 0
    ensures SplinesSamples(coarse, splines, fuel).Some? <==>
            forall i :: 0 <= i < |splines| ==> SplineSamples(coarse, splines[i], 0.0, 1.0, fuel).Some?
    ensures SplinesSamples(coarse, splines, fuel).Some? ==>
            |SplinesSamples(coarse, splines, fuel).value| == 1 + TailLength(EachSpline(coarse, splines, fuel))
  {
    var outs := EachSpline(coarse, splines, fuel);
    TailsLength(outs);
    assert forall i :: 0 <= i < |splines| ==> outs[i] == SplineSamples(coarse, splines[i], 0.0, 1.0, fuel);
  }

  // ---------------------------------------------------------------------
  // The sampler on a mutable list

  /** The MutableList the samples go into. */
  class SampleList {
    var items: seq<Pose2dWithCurvature>

    constructor ()
      ensures items == []
    {
      items := [];
    }

    /** add(p). */
    method Add(p: Pose2dWithCurvature)
      modifies this
      ensures items == old(items) + [p]
    {
      items := items + [p];
    }

    /** addAll(ps). */
    method AddAll(ps: seq<Pose2dWithCurvature>)
      modifies this
      ensures items == old(items) + ps
    {
      items := items + ps;
    }
  }

  /**
   * getSegmentArc(s, rv, t0, t1, maxDx, maxDy, maxDTheta): appends to rv
   * and changes nothing already in it. ok reports that fuel sufficed;
   * then what was appended is the samples at ArcTimes. coarse stands for
   * the test the method computes.
   */
  method GetSegmentArc(m: Math, s: Spline, rv: SampleList, t0: real, t1: real, b: Bounds, fuel: nat,
                       ghost coarse: iset<(real, real, Spline)>) returns (ok: bool)
    requires Tests(coarse, m, b)
    modifies rv
    ensures old(rv.items) <= rv.items
    ensures ok <==> ArcTimes(coarse, s, t0, t1, fuel).Some?
    ensures ok ==> rv.items == old(rv.items) + Samples(s, ArcTimes(coarse, s, t0, t1, fuel).value)
    decreases fuel
  {
    var p0 := s.point(t0);
    var p1 := s.point(t1);
    var r0 := s.heading(t0);
    var r1 := s.heading(t1);
    var transformation := Pose2d(Delta(p0, p1).RotateBy(r0.Inverse()), r1.RotateBy(m, r0.Inverse()));
    var twist := Log(m, transformation);
    assert TestsAt(coarse, m, b, s, t0, t1);
    if twist.dy > b.maxDy || twist.dx > b.maxDx || twist.dtheta > b.maxDTheta {
      if fuel == 0 {
        return false;
      }
      ghost var before := rv.items;
      var mid := (t0 + t1) / 2.0;
      ok := GetSegmentArc(m, s, rv, t0, mid, b, fuel - 1, coarse);
      if ok {
        ghost var left := ArcTimes(coarse, s, t0, mid, fuel - 1).value;
        ok := GetSegmentArc(m, s, rv, mid, t1, b, fuel - 1, coarse);
        if ok {
          ghost var right := ArcTimes(coarse, s, mid, t1, fuel - 1).value;
          SamplesAppend(s, left, right);
          AppendAssoc(before, Samples(s, left), Samples(s, right));
        }
      }
    } else {
      rv.Add(s.GetPose2dWithCurvature(t1));
      ok := true;
    }
  }

  /**
   * parameterizeSpline: the list of samples, and whether it is complete;
   * false also where the source's loop would never end.
   */
  method ParameterizeSpline(m: Math, s: Spline, b: Bounds, t0: real, t1: real, fuel: nat,
                            ghost coarse: iset<(real, real, Spline)>)
    returns (rv: seq<Pose2dWithCurvature>, ok: bool)
    requires Tests(coarse, m, b)
    ensures |rv| >= 1 && rv[0] == s.GetPose2dWithCurvature(0.0)
    ensures ok <==> SplineSamples(coarse, s, t0, t1, fuel).Some?
    ensures ok ==> rv == SplineSamples(coarse, s, t0, t1, fuel).value
  {
    var list := new SampleList();
    list.Add(s.GetPose2dWithCurvature(0.0));
    assert list.items == Samples(s, [0.0]);
    var dt := t1 - t0;
    var step := dt / kMinSampleSize as real;
    var t := 0.0;
    if t < t1 && step <= 0.0 {
      // the source's loop never ends
      return list.items, false;
    }
    ok := SampleSweep(m, s, list, t, step, t1, b, fuel, coarse, [0.0]);
    rv := list.items;
  }

  /**
   * parameterizeSpline's loop from t on, with the samples at the parameters
   * done already in the list: one getSegmentArc call on [t, t + step] while
   * t < t1.
   */
  method SampleSweep(m: Math, s: Spline, list: SampleList, t: real, step: real, t1: real, b: Bounds, fuel: nat,
                     ghost coarse: iset<(real, real, Spline)>, ghost done: seq<real>)
    returns (ok: bool)
    requires Tests(coarse, m, b) && (step > 0.0 || t >= t1)
    requires list.items == Samples(s, done)
    modifies list
    ensures old(list.items) <= list.items
    ensures ok <==> SweepTimes(coarse, s, t, step, t1, fuel).Some?
    ensures ok ==> list.items == Samples(s, done + SweepTimes(coarse, s, t, step, t1, fuel).value)
  {
    var u := t;
    ghost var sofar := done;
    while u < t1
      invariant step > 0.0 || u >= t1
      invariant list.items == Samples(s, sofar) && old(list.items) <= list.items
      invariant Prepend(done, SweepTimes(coarse, s, t, step, t1, fuel)) == Prepend(sofar, SweepTimes(coarse, s, u, step, t1, fuel))
      decreases if u < t1 then ((t1 - u) / step).Floor + 1 else 0
    {
      StepShrinks(u, step, t1);
      ghost var arcs := ArcTimes(coarse, s, u, u + step, fuel);
      var arcOk := GetSegmentArc(m, s, list, u, u + step, b, fuel, coarse);
      if !arcOk {
        return false;
      }
      SweepStep(coarse, s, sofar, u, step, t1, fuel);
      sofar := sofar + arcs.value;
      u := u + step;
    }
    SweepOver(coarse, s, sofar, u, step, t1, fuel);
    ok := true;
  }

  /**
   * parameterizeSplines(splines, maxDx, maxDy, maxDTheta): empty for no
   * splines; otherwise the first spline's pose at t = 0, then every
   * spline's samples without their first.
   */
  method ParameterizeSplines(m: Math, splines: seq<Spline>, b: Bounds, fuel: nat,
                             ghost coarse: iset<(real, real, Spline)>)
    returns (rv: seq<Pose2dWithCurvature>, ok: bool)
    requires Tests(coarse, m, b)
    ensures ok <==> SplinesSamples(coarse, splines, fuel).Some?
    ensures ok ==> rv == SplinesSamples(coarse, splines, fuel).value
  {
    rv := [];
    if |splines| == 0 {
      return rv, true;
    }
    ghost var outs := EachSpline(coarse, splines, fuel);
    rv := rv + [splines[0].GetPose2dWithCurvature(0.0)];
    for i := 0 to |splines|
      invariant Tails(outs[..i]).Some?
      invariant rv == [splines[0].GetPose2dWithCurvature(0.0)] + Tails(outs[..i]).value
    {
      assert outs[..i + 1][..i] == outs[..i];
      var samples, sampled := ParameterizeSpline(m, splines[i], b, 0.0, 1.0, fuel, coarse);
      if !sampled {
        assert outs[i].None?;
        TailsLength(outs);
        return rv, false;
      }
      AppendAssoc([splines[0].GetPose2dWithCurvature(0.0)], Tails(outs[..i]).value, samples[1..]);
      rv := rv + samples[1..];
    }
    assert outs[..|splines|] == outs;
    ok := true;
  }

  /**
   * parameterizeSplines(splines) with the default bounds: the samples
   * with getSegmentArc's own test.
   */
  method ParameterizeSplinesDefault(m: Math, splines: seq<Spline>, fuel: nat)
    returns (rv: seq<Pose2dWithCurvature>, ok: bool)
    ensures ok <==> SplinesSamples(CoarseTest(m, Defaults()), splines, fuel).Some?
    ensures ok ==> rv == SplinesSamples(CoarseTest(m, Defaults()), splines, fuel).value
  {
    CoarseTestTests(m, Defaults());
    rv, ok := ParameterizeSplines(m, splines, Defaults(), fuel, CoarseTest(m, Defaults()));
  }
}
