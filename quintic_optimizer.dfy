/**
 * The companion-object optimizer of QuinticHermiteSpline.kt: one
 * gradient-descent iteration over the second derivatives at the
 * junctions of a list of splines, the parabola fit that picks the step,
 * and the outer loop that repeats iterations until the objective stops
 * improving.
 *
 * The objective is a parameter: any real-valued per-spline cost of the
 * boundary values, summed over the list.
 */
module QuinticOptimizer {
  import opened KMath
  import opened Vectors
  import opened Poses
  import opened QuinticHermite
  import opened Wrappers

  /** The finite-difference step (kEpsilon of the companion object). */
  const kEpsilon: real := 0.00001
  const kStepSize: real := 1.0
  const kMinDelta: real := 0.001
  const kMaxIterations: int := 100

  /** The gradient of the objective at one junction, x and y. */
  datatype ControlPoint = ControlPoint(ddx: real, ddy: real)

  /** The list objective: per-spline costs added in list order. */
  function Objective(cost: Boundary -> real, bs: seq<Boundary>): real
  {
    if |bs| == 0 then 0.0 else Objective(cost, bs[..|bs| - 1]) + cost(bs[|bs| - 1])
  }

  /** No spline object occurs twice in the list. */
  predicate Distinct(objs: seq<QuinticHermiteSpline>)
  {
    forall i, j :: 0 <= i < j < |objs| ==> objs[i] != objs[j]
  }

  /** The objects hold the boundary values bs, with up-to-date coefficients. */
  predicate Models(objs: seq<QuinticHermiteSpline>, bs: seq<Boundary>)
    reads objs
  {
    |objs| == |bs| && forall i :: 0 <= i < |objs| ==> objs[i].Snapshot() == bs[i] && objs[i].Valid()
  }

  /**
   * The two lists agree on positions and first derivatives. The trigger
   * names the changed list only, so the fact is not applied to every
   * entry of the list it is compared with.
   */
  predicate SameFrozen(a: seq<Boundary>, b: seq<Boundary>)
  {
    |a| == |b| && forall j {:trigger a[j].Frozen()} :: 0 <= j < |a| ==> a[j].Frozen() == b[j].Frozen()
  }

  /** The junction between spline i and i + 1 is left alone when the start or the end poses are colinear. */
  predicate Skipped(m: Math, bs: seq<Boundary>, i: int)
    requires 0 <= i < |bs| - 1
  {
    bs[i].StartPose(m).IsColinear(m, bs[i + 1].StartPose(m)) || bs[i].EndPose(m).IsColinear(m, bs[i + 1].EndPose(m))
  }

  /** For each junction, whether the optimizer moves it. */
  function Active(m: Math, bs: seq<Boundary>): (r: seq<bool>)
    requires 1 <= |bs|
    ensures |r| == |bs| - 1
  {
    ActivePrefix(m, bs, |bs| - 1)
  }

  /** Whether each of the first k junctions is moved. */
  function ActivePrefix(m: Math, bs: seq<Boundary>, k: nat): (r: seq<bool>)
    requires k <= |bs| - 1
    ensures |r| == k
  {
    if k == 0 then [] else ActivePrefix(m, bs, k - 1) + [!Skipped(m, bs, k - 1)]
  }

  lemma {:induction false} ActivePrefixAt(m: Math, bs: seq<Boundary>, k: nat, i: int)
    requires k <= |bs| - 1 && 0 <= i < k
    ensures ActivePrefix(m, bs, k)[i] <==> !Skipped(m, bs, i)
  {
    if i < k - 1 {
      ActivePrefixAt(m, bs, k - 1, i);
    }
  }

  /**
   * act holds the skip tests of the junctions of bs. The trigger keeps the
   * skip test out of reasoning that does not ask for it.
   */
  predicate ActiveFlags(m: Math, bs: seq<Boundary>, act: seq<bool>)
  {
    |act| == |bs| - 1 && forall j {:trigger Skipped(m, bs, j)} :: 0 <= j < |bs| - 1 ==> (act[j] <==> !Skipped(m, bs, j))
  }

  /** A junction is active exactly when it is not skipped. */
  lemma ActiveHasFlags(m: Math, bs: seq<Boundary>)
    requires 1 <= |bs|
    ensures ActiveFlags(m, bs, Active(m, bs))
  {
    forall j | 0 <= j < |bs| - 1
      ensures Active(m, bs)[j] <==> !Skipped(m, bs, j)
    {
      ActivePrefixAt(m, bs, |bs| - 1, j);
    }
  }

  predicate HasActive(act: seq<bool>)
  {
    exists i :: 0 <= i < |act| && act[i]
  }

  /** The list with junction i's x second derivatives raised by kEpsilon. */
  function ProbeX(bs: seq<Boundary>, i: int): seq<Boundary>
    requires 0 <= i < |bs| - 1
  {
    bs[i := bs[i].(ddx1 := bs[i].ddx1 + kEpsilon)][i + 1 := bs[i + 1].(ddx0 := bs[i + 1].ddx0 + kEpsilon)]
  }

  /** The list with junction i's y second derivatives raised by kEpsilon. */
  function ProbeY(bs: seq<Boundary>, i: int): seq<Boundary>
    requires 0 <= i < |bs| - 1
  {
    bs[i := bs[i].(ddy1 := bs[i].ddy1 + kEpsilon)][i + 1 := bs[i + 1].(ddy0 := bs[i + 1].ddy0 + kEpsilon)]
  }

  /** The forward differences of the objective along junction i's second derivatives. */
  function Partial(cost: Boundary -> real, bs: seq<Boundary>, i: int): ControlPoint
    requires 0 <= i < |bs| - 1
  {
    ControlPoint(
      (Objective(cost, ProbeX(bs, i)) - Objective(cost, bs)) / kEpsilon,
      (Objective(cost, ProbeY(bs, i)) - Objective(cost, bs)) / kEpsilon)
  }

  /** The gradient at the first k junctions, 0 at one that is not active. */
  function Gradient(cost: Boundary -> real, bs: seq<Boundary>, act: seq<bool>, k: nat): (r: seq<ControlPoint>)
    requires |act| == |bs| - 1 && k <= |act|
    ensures |r| == k
  {
    if k == 0 then []
    else Gradient(cost, bs, act, k - 1) + [if act[k - 1] then Partial(cost, bs, k - 1) else ControlPoint(0.0, 0.0)]
  }

  /** The squared gradient length over the first k junctions. */
  function Magnitude2(g: seq<ControlPoint>, k: nat): real
    requires k <= |g|
  {
    if k == 0 then 0.0 else Magnitude2(g, k - 1) + g[k - 1].ddx * g[k - 1].ddx + g[k - 1].ddy * g[k - 1].ddy
  }

  /** The gradient length. */
  function Magnitude(m: Math, cost: Boundary -> real, bs: seq<Boundary>): real
    requires 2 <= |bs|
  {
    m.sqrt(Magnitude2(Gradient(cost, bs, Active(m, bs), |bs| - 1), |bs| - 1))
  }

  /** Every entry multiplied by k. */
  function Scale(v: seq<ControlPoint>, k: real): (r: seq<ControlPoint>)
    ensures |r| == |v| && forall i :: 0 <= i < |v| ==> r[i] == ControlPoint(v[i].ddx * k, v[i].ddy * k)
  {
    seq(|v|, i requires 0 <= i < |v| => ControlPoint(v[i].ddx * k, v[i].ddy * k))
  }

  /** The entries at active junctions multiplied by k, the others kept. */
  function ScaleActive(act: seq<bool>, v: seq<ControlPoint>, k: real): (r: seq<ControlPoint>)
    requires |act| == |v|
    ensures |r| == |v| && forall i :: 0 <= i < |v| ==> r[i] == if act[i] then ControlPoint(v[i].ddx * k, v[i].ddy * k) else v[i]
  {
    seq(|v|, i requires 0 <= i < |v| => if act[i] then ControlPoint(v[i].ddx * k, v[i].ddy * k) else v[i])
  }

  /** Junction i moved by d: the end of spline i and the start of spline i + 1. */
  function MoveJunction(bs: seq<Boundary>, i: int, d: ControlPoint): (r: seq<Boundary>)
    requires 0 <= i < |bs| - 1
    ensures |r| == |bs|
  {
    bs[i := bs[i].(ddx1 := bs[i].ddx1 + d.ddx, ddy1 := bs[i].ddy1 + d.ddy)]
      [i + 1 := bs[i + 1].(ddx0 := bs[i + 1].ddx0 + d.ddx, ddy0 := bs[i + 1].ddy0 + d.ddy)]
  }

  /**
   * The list after each of the first k junctions, where active, has had
   * its entry of d added to the end second derivatives of the spline
   * before it and the start second derivatives of the spline after it,
   * in junction order.
   */
  function Shifted(bs: seq<Boundary>, act: seq<bool>, d: seq<ControlPoint>, k: nat): (r: seq<Boundary>)
    requires |act| == |bs| - 1 && |d| == |bs| - 1 && k <= |act|
    ensures |r| == |bs|
  {
    if k == 0 then bs
    else
      var prev := Shifted(bs, act, d, k - 1);
      if act[k - 1] then MoveJunction(prev, k - 1, d[k - 1]) else prev
  }

  /** x coordinate of the vertex of the parabola through three points: -B / 2A, in IEEE-754 arithmetic. */
  function FitParabola(p1: Translation2d, p2: Translation2d, p3: Translation2d): Double
  {
    var a := p3.x * (p2.y - p1.y) + p2.x * (p1.y - p3.y) + p1.x * (p3.y - p2.y);
    var b := p3.x * p3.x * (p1.y - p2.y) + p2.x * p2.x * (p3.y - p1.y) + p1.x * p1.x * (p2.y - p3.y);
    Divide(-b, 2.0 * a)
  }

  /** The normalised gradient, the lists one step back and one step ahead along it, and the fitted step. */
  datatype Search = Search(normal: seq<ControlPoint>, back: seq<Boundary>, ahead: seq<Boundary>, step: Double)

  /** The line search of one iteration, before its final move. */
  function LineSearch(m: Math, cost: Boundary -> real, bs: seq<Boundary>): (r: Search)
    requires 2 <= |bs| && Magnitude(m, cost, bs) != 0.0
    ensures |r.normal| == |bs| - 1
  {
    var act := Active(m, bs);
    var n := ScaleActive(act, Gradient(cost, bs, act, |bs| - 1), kStepSize / Magnitude(m, cost, bs));
    var back := Shifted(bs, act, Scale(n, -1.0), |bs| - 1);
    var ahead := Shifted(back, act, Scale(n, 2.0), |bs| - 1);
    var step := FitParabola(
      Translation2d(-kStepSize, Objective(cost, back)),
      Translation2d(0.0, Objective(cost, bs)),
      Translation2d(kStepSize, Objective(cost, ahead)));
    Search(n, back, ahead, step)
  }

  /**
   * The iteration is well defined in real arithmetic: fewer than two
   * splines, no junction to move, or a non-zero gradient and a finite
   * parabola vertex (otherwise the source computes with NaN).
   */
  predicate Feasible(m: Math, cost: Boundary -> real, bs: seq<Boundary>)
  {
    |bs| <= 1 || !HasActive(Active(m, bs)) ||
    (Magnitude(m, cost, bs) != 0.0 && LineSearch(m, cost, bs).step.Finite?)
  }

  /**
   * runOptimizationIteration as a function of the boundary values: the
   * line search's step back and two steps ahead, then the move by 1 + s
   * steps, s the fitted vertex in units of kStepSize.
   */
  function Iterated(m: Math, cost: Boundary -> real, bs: seq<Boundary>): (r: seq<Boundary>)
    requires Feasible(m, cost, bs)
    ensures |r| == |bs|
  {
    if |bs| <= 1 || !HasActive(Active(m, bs)) then bs
    else
      var s := LineSearch(m, cost, bs);
      ThreeMoves(bs, Active(m, bs), s.normal, 1.0 + s.step.value / kStepSize)
  }

  // ---------------------------------------------------------------------
  // Properties of the specification

  /**
   * Shifted in closed form: spline j's end moves by junction j's delta and
   * its start by junction j - 1's, each when that junction is active and
   * among the first k.
   */
  lemma {:induction false} ShiftedAt(bs: seq<Boundary>, act: seq<bool>, d: seq<ControlPoint>, k: nat, j: int)
    requires |act| == |bs| - 1 && |d| == |bs| - 1 && k <= |act| && 0 <= j < |bs|
    ensures var moveEnd := j < k && act[j];
            var moveStart := 0 < j && j - 1 < k && act[j - 1];
            Shifted(bs, act, d, k)[j] == bs[j].(
              ddx0 := bs[j].ddx0 + (if moveStart then d[j - 1].ddx else 0.0),
              ddy0 := bs[j].ddy0 + (if moveStart then d[j - 1].ddy else 0.0),
              ddx1 := bs[j].ddx1 + (if moveEnd then d[j].ddx else 0.0),
              ddy1 := bs[j].ddy1 + (if moveEnd then d[j].ddy else 0.0))
  {
    if k > 0 {
      ShiftedAt(bs, act, d, k - 1, j);
    }
  }

  /** With no junction active, shifting changes nothing. */
  lemma {:induction false} ShiftedInactive(bs: seq<Boundary>, act: seq<bool>, d: seq<ControlPoint>, k: nat)
    requires |act| == |bs| - 1 && |d| == |bs| - 1 && k <= |act|
    requires !HasActive(act)
    ensures Shifted(bs, act, d, k) == bs
  {
    if k > 0 {
      ShiftedInactive(bs, act, d, k - 1);
      assert !act[k - 1];
    }
  }

  /** Shifting changes second derivatives only. */
  lemma {:induction false} ShiftedKeepsFrozen(bs: seq<Boundary>, act: seq<bool>, d: seq<ControlPoint>, k: nat)
    requires |act| == |bs| - 1 && |d| == |bs| - 1 && k <= |act|
    ensures SameFrozen(Shifted(bs, act, d, k), bs)
  {
    if k > 0 {
      ShiftedKeepsFrozen(bs, act, d, k - 1);
      var prev := Shifted(bs, act, d, k - 1);
      forall j | 0 <= j < |bs|
        ensures Shifted(bs, act, d, k)[j].Frozen() == bs[j].Frozen()
      {
        assert prev[j].Frozen() == bs[j].Frozen();
      }
    }
  }

  /** Shifted reads the entries of active junctions only. */
  lemma {:induction false} ShiftedActiveEntries(bs: seq<Boundary>, act: seq<bool>, d: seq<ControlPoint>, e: seq<ControlPoint>, k: nat)
    requires |act| == |bs| - 1 && |d| == |bs| - 1 && |e| == |bs| - 1 && k <= |act|
    requires forall j :: 0 <= j < |act| && act[j] ==> d[j] == e[j]
    ensures Shifted(bs, act, d, k) == Shifted(bs, act, e, k)
  {
    if k > 0 {
      ShiftedActiveEntries(bs, act, d, e, k - 1);
    }
  }

  /** The start and end poses depend on the frozen values only. */
  lemma FrozenPoses(m: Math, a: Boundary, b: Boundary)
    requires a.Frozen() == b.Frozen()
    ensures a.StartPose(m) == b.StartPose(m) && a.EndPose(m) == b.EndPose(m)
  {
    assert a.Frozen()[0] == b.Frozen()[0] && a.Frozen()[1] == b.Frozen()[1];
    assert a.Frozen()[2] == b.Frozen()[2] && a.Frozen()[3] == b.Frozen()[3];
    assert a.Frozen()[4] == b.Frozen()[4] && a.Frozen()[5] == b.Frozen()[5];
    assert a.Frozen()[6] == b.Frozen()[6] && a.Frozen()[7] == b.Frozen()[7];
  }

  /** Lists that agree on the frozen values skip the same junctions. */
  lemma FrozenSkips(m: Math, a: seq<Boundary>, b: seq<Boundary>)
    requires SameFrozen(a, b)
    ensures forall i :: 0 <= i < |a| - 1 ==> (Skipped(m, a, i) <==> Skipped(m, b, i))
  {
    forall i | 0 <= i < |a| - 1
      ensures Skipped(m, a, i) <==> Skipped(m, b, i)
    {
      FrozenPoses(m, a[i], b[i]);
      FrozenPoses(m, a[i + 1], b[i + 1]);
    }
  }

  /** Both sides of every junction changed their second derivatives by the same amount. */
  predicate MovedTogether(a: seq<Boundary>, b: seq<Boundary>)
  {
    |a| == |b| &&
    forall j :: 0 <= j < |a| - 1 ==>
      a[j].ddx1 - b[j].ddx1 == a[j + 1].ddx0 - b[j + 1].ddx0 && a[j].ddy1 - b[j].ddy1 == a[j + 1].ddy0 - b[j + 1].ddy0
  }

  /** The start of the first spline and the end of the last kept their second derivatives. */
  predicate EndsKept(a: seq<Boundary>, b: seq<Boundary>)
  {
    |a| == |b| &&
    (|a| > 0 ==>
       a[0].ddx0 == b[0].ddx0 && a[0].ddy0 == b[0].ddy0 &&
       a[|a| - 1].ddx1 == b[|a| - 1].ddx1 && a[|a| - 1].ddy1 == b[|a| - 1].ddy1)
  }

  /** Junction j kept its second derivatives on both sides. */
  predicate JunctionKept(a: seq<Boundary>, b: seq<Boundary>, j: int)
    requires |a| == |b| && 0 <= j < |a| - 1
  {
    a[j].ddx1 == b[j].ddx1 && a[j].ddy1 == b[j].ddy1 && a[j + 1].ddx0 == b[j + 1].ddx0 && a[j + 1].ddy0 == b[j + 1].ddy0
  }

  /** The three moves of an iteration at entry j. */
  lemma {:induction false} ThreeShiftsAt(bs: seq<Boundary>, act: seq<bool>, n: seq<ControlPoint>, k: real, j: int)
    requires |act| == |bs| - 1 && |n| == |bs| - 1 && 0 <= j < |bs|
    ensures var r := ThreeMoves(bs, act, n, k);
            var moveStart := 0 < j && act[j - 1];
            var moveEnd := j < |act| && act[j];
            r[j] == bs[j].(
              ddx0 := bs[j].ddx0 + (if moveStart then Scale(n, k + 1.0)[j - 1].ddx else 0.0),
              ddy0 := bs[j].ddy0 + (if moveStart then Scale(n, k + 1.0)[j - 1].ddy else 0.0),
              ddx1 := bs[j].ddx1 + (if moveEnd then Scale(n, k + 1.0)[j].ddx else 0.0),
              ddy1 := bs[j].ddy1 + (if moveEnd then Scale(n, k + 1.0)[j].ddy else 0.0))
  {
    var back := Shifted(bs, act, Scale(n, -1.0), |act|);
    var ahead := Shifted(back, act, Scale(n, 2.0), |act|);
    ShiftedAt(bs, act, Scale(n, -1.0), |act|, j);
    ShiftedAt(back, act, Scale(n, 2.0), |act|, j);
    ShiftedAt(ahead, act, ScaleActive(act, n, k), |act|, j);
  }

  /** The three moves of an iteration, in turn. */
  function ThreeMoves(bs: seq<Boundary>, act: seq<bool>, n: seq<ControlPoint>, k: real): (r: seq<Boundary>)
    requires |act| == |bs| - 1 && |n| == |bs| - 1
    ensures |r| == |bs|
  {
    Shifted(Shifted(Shifted(bs, act, Scale(n, -1.0), |act|), act, Scale(n, 2.0), |act|), act, ScaleActive(act, n, k), |act|)
  }

  /** The three moves keep positions and first derivatives. */
  lemma {:induction false} ThreeMovesFrozen(bs: seq<Boundary>, act: seq<bool>, n: seq<ControlPoint>, k: real)
    requires |act| == |bs| - 1 && |n| == |bs| - 1
    ensures SameFrozen(ThreeMoves(bs, act, n, k), bs)
  {
    forall j | 0 <= j < |bs|
      ensures ThreeMoves(bs, act, n, k)[j].Frozen() == bs[j].Frozen()
    {
      ThreeShiftsAt(bs, act, n, k, j);
    }
  }

  /** The three moves change both sides of a junction alike and leave the two ends of the path alone. */
  lemma {:induction false} ThreeMovesTogether(bs: seq<Boundary>, act: seq<bool>, n: seq<ControlPoint>, k: real)
    requires |act| == |bs| - 1 && |n| == |bs| - 1
    ensures MovedTogether(ThreeMoves(bs, act, n, k), bs) && EndsKept(ThreeMoves(bs, act, n, k), bs)
  {
    var r := ThreeMoves(bs, act, n, k);
    forall j | 0 <= j < |r| - 1
      ensures r[j].ddx1 - bs[j].ddx1 == r[j + 1].ddx0 - bs[j + 1].ddx0 && r[j].ddy1 - bs[j].ddy1 == r[j + 1].ddy0 - bs[j + 1].ddy0
    {
      ThreeShiftsAt(bs, act, n, k, j);
      ThreeShiftsAt(bs, act, n, k, j + 1);
    }
    ThreeShiftsAt(bs, act, n, k, 0);
    ThreeShiftsAt(bs, act, n, k, |act|);
  }

  /** The three moves leave an inactive junction alone. */
  lemma {:induction false} ThreeMovesKept(bs: seq<Boundary>, act: seq<bool>, n: seq<ControlPoint>, k: real)
    requires |act| == |bs| - 1 && |n| == |bs| - 1
    ensures forall j :: 0 <= j < |act| && !act[j] ==> JunctionKept(ThreeMoves(bs, act, n, k), bs, j)
  {
    forall j | 0 <= j < |act| && !act[j]
      ensures JunctionKept(ThreeMoves(bs, act, n, k), bs, j)
    {
      ThreeShiftsAt(bs, act, n, k, j);
      ThreeShiftsAt(bs, act, n, k, j + 1);
    }
  }

  /**
   * bs changed into r by moves of second derivatives only: alike on both
   * sides of a junction, never at the two ends of the path and never at a
   * junction whose flag in act is off.
   */
  predicate Reshaped(r: seq<Boundary>, bs: seq<Boundary>, act: seq<bool>)
  {
    SameFrozen(r, bs) && MovedTogether(r, bs) && EndsKept(r, bs) && |act| == |bs| - 1 &&
    forall j {:trigger act[j]} :: 0 <= j < |act| && !act[j] ==> JunctionKept(r, bs, j)
  }

  /** The three moves reshape the list. */
  lemma ThreeMovesShape(bs: seq<Boundary>, act: seq<bool>, n: seq<ControlPoint>, k: real)
    requires |act| == |bs| - 1 && |n| == |bs| - 1
    ensures Reshaped(ThreeMoves(bs, act, n, k), bs, act)
  {
    ThreeMovesFrozen(bs, act, n, k);
    ThreeMovesTogether(bs, act, n, k);
    ThreeMovesKept(bs, act, n, k);
  }

  /**
   * Both sides of every active junction j moved by d[j] from bs to r. The
   * trigger ties the fact to the junction's flag.
   */
  predicate ActiveMovedBy(r: seq<Boundary>, bs: seq<Boundary>, act: seq<bool>, d: seq<ControlPoint>)
  {
    |r| == |bs| && |act| == |bs| - 1 && |d| == |act| &&
    forall j {:trigger act[j]} :: 0 <= j < |act| && act[j] ==>
      r[j].ddx1 == bs[j].ddx1 + d[j].ddx && r[j].ddy1 == bs[j].ddy1 + d[j].ddy &&
      r[j + 1].ddx0 == bs[j + 1].ddx0 + d[j].ddx && r[j + 1].ddy0 == bs[j + 1].ddy0 + d[j].ddy
  }

  /** The three moves shift both sides of an active junction by c = k + 1 times n. */
  lemma {:induction false} ThreeMovesActive(bs: seq<Boundary>, act: seq<bool>, n: seq<ControlPoint>, k: real, c: real)
    requires |act| == |bs| - 1 && |n| == |bs| - 1 && c == k + 1.0
    ensures ActiveMovedBy(ThreeMoves(bs, act, n, k), bs, act, Scale(n, c))
  {
    var r := ThreeMoves(bs, act, n, k);
    var d := Scale(n, c);
    forall j | 0 <= j < |act| && act[j]
      ensures r[j].ddx1 == bs[j].ddx1 + d[j].ddx && r[j].ddy1 == bs[j].ddy1 + d[j].ddy &&
              r[j + 1].ddx0 == bs[j + 1].ddx0 + d[j].ddx && r[j + 1].ddy0 == bs[j + 1].ddy0 + d[j].ddy
    {
      ThreeShiftsAt(bs, act, n, k, j);
      ThreeShiftsAt(bs, act, n, k, j + 1);
    }
  }

  /**
   * Lists that agree on positions and first derivatives and whose second
   * derivatives moved alike on both sides of each junction skip the same
   * junctions, and a junction whose two sides agreed still agrees.
   */
  lemma MovesKeepAgreement(m: Math, r: seq<Boundary>, bs: seq<Boundary>)
    requires SameFrozen(r, bs) && MovedTogether(r, bs)
    ensures (forall j :: 0 <= j < |bs| - 1 ==> (Skipped(m, r, j) <==> Skipped(m, bs, j))) &&
            (forall j :: 0 <= j < |bs| - 1 && bs[j].ddx1 == bs[j + 1].ddx0 ==> r[j].ddx1 == r[j + 1].ddx0) &&
            (forall j :: 0 <= j < |bs| - 1 && bs[j].ddy1 == bs[j + 1].ddy0 ==> r[j].ddy1 == r[j + 1].ddy0)
  {
    FrozenSkips(m, r, bs);
  }

  /** One iteration reshapes the list, leaving alone every junction that is not active. */
  lemma {:induction false} IteratedShape(m: Math, cost: Boundary -> real, bs: seq<Boundary>)
    requires Feasible(m, cost, bs) && 1 <= |bs|
    ensures Reshaped(Iterated(m, cost, bs), bs, Active(m, bs))
  {
    if 2 <= |bs| && HasActive(Active(m, bs)) {
      IteratedUnfolds(m, cost, bs);
      ThreeMovesShape(bs, Active(m, bs), LineSearch(m, cost, bs).normal, 1.0 + LineSearch(m, cost, bs).step.value / kStepSize);
    }
  }

  /**
   * One iteration keeps every skip decision, and a junction whose two
   * sides agreed on their second derivatives still agrees.
   */
  lemma {:induction false} IteratedMoves(m: Math, cost: Boundary -> real, bs: seq<Boundary>)
    requires Feasible(m, cost, bs)
    ensures var r := Iterated(m, cost, bs);
            (forall j :: 0 <= j < |bs| - 1 ==> (Skipped(m, r, j) <==> Skipped(m, bs, j))) &&
            (forall j :: 0 <= j < |bs| - 1 && bs[j].ddx1 == bs[j + 1].ddx0 ==> r[j].ddx1 == r[j + 1].ddx0) &&
            (forall j :: 0 <= j < |bs| - 1 && bs[j].ddy1 == bs[j + 1].ddy0 ==> r[j].ddy1 == r[j + 1].ddy0)
  {
    if 1 <= |bs| {
      IteratedShape(m, cost, bs);
      MovesKeepAgreement(m, Iterated(m, cost, bs), bs);
    }
  }

  /**
   * At an active junction, one iteration moves both second derivatives
   * by the normalised gradient times 2 + s, s being the fitted step: back
   * by one step, ahead by two, then by 1 + s.
   */
  lemma {:induction false} IteratedNetMove(m: Math, cost: Boundary -> real, bs: seq<Boundary>)
    requires Feasible(m, cost, bs) && 2 <= |bs| && HasActive(Active(m, bs))
    ensures var s := LineSearch(m, cost, bs);
            ActiveMovedBy(Iterated(m, cost, bs), bs, Active(m, bs), Scale(s.normal, 2.0 + s.step.value / kStepSize))
  {
    var s := LineSearch(m, cost, bs);
    IteratedUnfolds(m, cost, bs);
    ThreeMovesActive(bs, Active(m, bs), s.normal, 1.0 + s.step.value / kStepSize, 2.0 + s.step.value / kStepSize);
  }

  /**
   * The evidently intended iteration: the last move goes from one step
   * ahead to the vertex of the fitted parabola, a factor s - 1 on the
   * normalised gradient where runOptimizationIteration uses 1 + s.
   */
  function IteratedAtVertex(m: Math, cost: Boundary -> real, bs: seq<Boundary>): (r: seq<Boundary>)
    requires Feasible(m, cost, bs)
    ensures |r| == |bs|
  {
    if |bs| <= 1 || !HasActive(Active(m, bs)) then bs
    else
      var s := LineSearch(m, cost, bs);
      ThreeMoves(bs, Active(m, bs), s.normal, s.step.value / kStepSize - 1.0)
  }

  /**
   * The intended iteration moves each active junction to the vertex: by
   * the normalised gradient times s, where x = s is the vertex of the
   * parabola through the objective at x = -1, 0 and 1 step along it.
   */
  lemma {:induction false} IteratedAtVertexMoves(m: Math, cost: Boundary -> real, bs: seq<Boundary>)
    requires Feasible(m, cost, bs) && 2 <= |bs| && HasActive(Active(m, bs))
    ensures var s := LineSearch(m, cost, bs);
            ActiveMovedBy(IteratedAtVertex(m, cost, bs), bs, Active(m, bs), Scale(s.normal, s.step.value / kStepSize))
  {
    var s := LineSearch(m, cost, bs);
    ThreeMovesActive(bs, Active(m, bs), s.normal, s.step.value / kStepSize - 1.0, s.step.value / kStepSize);
  }

  /** IteratedAtVertex on a list with an active junction is its three moves. */
  lemma IteratedAtVertexUnfolds(m: Math, cost: Boundary -> real, bs: seq<Boundary>)
    requires 2 <= |bs| && Feasible(m, cost, bs) && HasActive(Active(m, bs))
    ensures IteratedAtVertex(m, cost, bs) == ThreeMoves(bs, Active(m, bs), LineSearch(m, cost, bs).normal, LineSearch(m, cost, bs).step.value / kStepSize - 1.0)
  {
  }

  /** The intended iteration reshapes the list, too. */
  lemma {:induction false} IteratedAtVertexKeeps(m: Math, cost: Boundary -> real, bs: seq<Boundary>)
    requires Feasible(m, cost, bs) && 1 <= |bs|
    ensures Reshaped(IteratedAtVertex(m, cost, bs), bs, Active(m, bs))
  {
    if 2 <= |bs| && HasActive(Active(m, bs)) {
      IteratedAtVertexUnfolds(m, cost, bs);
      ThreeMovesShape(bs, Active(m, bs), LineSearch(m, cost, bs).normal, LineSearch(m, cost, bs).step.value / kStepSize - 1.0);
    }
  }

  /** Scaling by 2 + t and by t differ by twice the entry. */
  lemma ScaleGap(n: seq<ControlPoint>, t: real)
    ensures forall i :: 0 <= i < |n| ==>
      Scale(n, 2.0 + t)[i].ddx - Scale(n, t)[i].ddx == 2.0 * n[i].ddx &&
      Scale(n, 2.0 + t)[i].ddy - Scale(n, t)[i].ddy == 2.0 * n[i].ddy
  {
  }

  /** Both sides of every active junction of r lie 2 n[j] beyond those of v. */
  predicate Overshot(r: seq<Boundary>, v: seq<Boundary>, act: seq<bool>, n: seq<ControlPoint>)
  {
    |r| == |v| && |act| == |v| - 1 && |n| == |act| &&
    forall j {:trigger act[j]} :: 0 <= j < |act| && act[j] ==>
      r[j].ddx1 - v[j].ddx1 == 2.0 * n[j].ddx && r[j].ddy1 - v[j].ddy1 == 2.0 * n[j].ddy &&
      r[j + 1].ddx0 - v[j + 1].ddx0 == 2.0 * n[j].ddx && r[j + 1].ddy0 - v[j + 1].ddy0 == 2.0 * n[j].ddy
  }

  /** Moving with factor 1 + t instead of t - 1 ends twice the direction further along it. */
  lemma {:induction false} ThreeMovesGap(bs: seq<Boundary>, act: seq<bool>, n: seq<ControlPoint>, t: real)
    requires |act| == |bs| - 1 && |n| == |bs| - 1
    ensures Overshot(ThreeMoves(bs, act, n, 1.0 + t), ThreeMoves(bs, act, n, t - 1.0), act, n)
  {
    ThreeMovesActive(bs, act, n, 1.0 + t, 2.0 + t);
    ThreeMovesActive(bs, act, n, t - 1.0, t);
    ScaleGap(n, t);
  }

  /**
   * runOptimizationIteration as written overshoots the vertex: every
   * active junction ends two steps (twice the normalised gradient)
   * beyond it.
   */
  lemma {:induction false} IteratedOvershoots(m: Math, cost: Boundary -> real, bs: seq<Boundary>)
    requires Feasible(m, cost, bs) && 2 <= |bs| && HasActive(Active(m, bs))
    ensures Overshot(Iterated(m, cost, bs), IteratedAtVertex(m, cost, bs), Active(m, bs), LineSearch(m, cost, bs).normal)
  {
    var s := LineSearch(m, cost, bs);
    ThreeMovesGap(bs, Active(m, bs), s.normal, s.step.value / kStepSize);
  }

  /**
   * fitParabola through the points of y = a x^2 + b x + c at -kStepSize,
   * 0 and kStepSize: the vertex -b / 2a when the points are not on a
   * line, and no finite value when they are.
   */
  lemma FitParabolaVertex(a: real, b: real, c: real)
    ensures var r := FitParabola(
              Translation2d(-kStepSize, a * kStepSize * kStepSize - b * kStepSize + c),
              Translation2d(0.0, c),
              Translation2d(kStepSize, a * kStepSize * kStepSize + b * kStepSize + c));
            (a != 0.0 ==> r == Finite(-b / (2.0 * a))) && (a == 0.0 ==> !r.Finite?)
  {
    FitParabolaThrough(-kStepSize, 0.0, kStepSize, a, b, c,
      a * kStepSize * kStepSize - b * kStepSize + c, c, a * kStepSize * kStepSize + b * kStepSize + c);
  }

  /**
   * fitParabola through three points of y = a x^2 + b x + c with pairwise
   * distinct x: the vertex -b / 2a when a is not 0, and no finite value
   * when the points are on a line.
   */
  lemma FitParabolaThrough(x1: real, x2: real, x3: real, a: real, b: real, c: real, y1: real, y2: real, y3: real)
    requires x1 != x2 && x2 != x3 && x1 != x3
    requires y1 == a * x1 * x1 + b * x1 + c && y2 == a * x2 * x2 + b * x2 + c && y3 == a * x3 * x3 + b * x3 + c
    ensures var r := FitParabola(Translation2d(x1, y1), Translation2d(x2, y2), Translation2d(x3, y3));
            (a != 0.0 ==> r == Finite(-b / (2.0 * a))) && (a == 0.0 ==> !r.Finite?)
  {
    var d := (x1 - x2) * (x2 - x3) * (x1 - x3);
    MulNonZero3(x1 - x2, x2 - x3, x1 - x3, d);
    ParabolaDenominator(x1, x2, x3, a, b, c, y1, y2, y3, d);
    ParabolaNumerator(x1, x2, x3, a, b, c, y1, y2, y3, d);
    VertexFromCoefficients(
      x3 * (y2 - y1) + x2 * (y1 - y3) + x1 * (y3 - y2),
      x3 * x3 * (y1 - y2) + x2 * x2 * (y3 - y1) + x1 * x1 * (y2 - y3), a, b, d);
  }

  /** With A = a d and B = b d for non-zero d, -B / 2A is -b / 2a, or not finite when a is 0. */
  lemma VertexFromCoefficients(fa: real, fb: real, a: real, b: real, d: real)
    requires d != 0.0 && fa == a * d && fb == b * d
    ensures a != 0.0 ==> Divide(-fb, 2.0 * fa) == Finite(-b / (2.0 * a))
    ensures a == 0.0 ==> !Divide(-fb, 2.0 * fa).Finite?
  {
    if a != 0.0 {
      assert 2.0 * fa != 0.0 by { MulNonZero3(2.0, a, d, 2.0 * fa); }
      QuotientCancels(b, a, d);
    }
  }

  /** A product of three non-zero factors is not zero. */
  lemma MulNonZero3(u: real, v: real, w: real, p: real)
    requires u != 0.0 && v != 0.0 && w != 0.0 && p == u * v * w
    ensures p != 0.0
  {
    assert u * v != 0.0;
  }

  /** fitParabola's A for points on the parabola is a times the Vandermonde product d. */
  lemma ParabolaDenominator(x1: real, x2: real, x3: real, a: real, b: real, c: real, y1: real, y2: real, y3: real, d: real)
    requires y1 == a * x1 * x1 + b * x1 + c && y2 == a * x2 * x2 + b * x2 + c && y3 == a * x3 * x3 + b * x3 + c
    requires d == (x1 - x2) * (x2 - x3) * (x1 - x3)
    ensures x3 * (y2 - y1) + x2 * (y1 - y3) + x1 * (y3 - y2) == a * d
  {
    var p, q := a * (x1 + x2) + b, a * (x1 + x3) + b;
    ChordRise(x1, x2, a, b, c, y1, y2);
    ChordRise(x1, x3, a, b, c, y1, y3);
    Regroup(x1, x2, x3, y2 - y1, y3 - y1, x3 * (y2 - y1) + x2 * (y1 - y3) + x1 * (y3 - y2));
    CommonFactors(x3 - x1, x2 - x1, p, q);
    assert p - q == a * (x2 - x3);
    VandermondeOrder(x1, x2, x3, a, d);
  }

  /** The rise of the parabola between x1 and x2 factors through x2 - x1. */
  lemma ChordRise(x1: real, x2: real, a: real, b: real, c: real, y1: real, y2: real)
    requires y1 == a * x1 * x1 + b * x1 + c && y2 == a * x2 * x2 + b * x2 + c
    ensures y2 - y1 == (x2 - x1) * (a * (x1 + x2) + b)
  {
  }

  /** A written through the two rises u = y2 - y1 and v = y3 - y1. */
  lemma Regroup(x1: real, x2: real, x3: real, u: real, v: real, e: real)
    requires e == x3 * u + x2 * (-v) + x1 * (v - u)
    ensures e == (x3 - x1) * u - (x2 - x1) * v
  {
  }

  /** e (f p) - f (e q) = e f (p - q). */
  lemma CommonFactors(e: real, f: real, p: real, q: real)
    ensures e * (f * p) - f * (e * q) == e * f * (p - q)
  {
  }

  /** (x3 - x1) (x2 - x1) a (x2 - x3) is a times (x1 - x2) (x2 - x3) (x1 - x3). */
  lemma VandermondeOrder(x1: real, x2: real, x3: real, a: real, d: real)
    requires d == (x1 - x2) * (x2 - x3) * (x1 - x3)
    ensures (x3 - x1) * (x2 - x1) * (a * (x2 - x3)) == a * d
  {
  }

  /** fitParabola's B for points on the parabola is b times the Vandermonde product d. */
  lemma ParabolaNumerator(x1: real, x2: real, x3: real, a: real, b: real, c: real, y1: real, y2: real, y3: real, d: real)
    requires y1 == a * x1 * x1 + b * x1 + c && y2 == a * x2 * x2 + b * x2 + c && y3 == a * x3 * x3 + b * x3 + c
    requires d == (x1 - x2) * (x2 - x3) * (x1 - x3)
    ensures x3 * x3 * (y1 - y2) + x2 * x2 * (y3 - y1) + x1 * x1 * (y2 - y3) == b * d
  {
    var p, q := a * (x1 + x2) + b, a * (x1 + x3) + b;
    ChordRise(x1, x2, a, b, c, y1, y2);
    ChordRise(x1, x3, a, b, c, y1, y3);
    RegroupSquares(x1, x2, x3, y2 - y1, y3 - y1, x3 * x3 * (y1 - y2) + x2 * x2 * (y3 - y1) + x1 * x1 * (y2 - y3));
    DifferenceOfSquares(x3, x1);
    DifferenceOfSquares(x2, x1);
    SquareFactors(x3 - x1, x2 - x1, x3 + x1, x2 + x1, p, q);
    assert (x2 + x1) * q - (x3 + x1) * p == b * (x2 - x3);
    VandermondeOrder(x1, x2, x3, b, d);
  }

  /** B written through the two rises u = y2 - y1 and v = y3 - y1. */
  lemma RegroupSquares(x1: real, x2: real, x3: real, u: real, v: real, e: real)
    requires e == x3 * x3 * (-u) + x2 * x2 * v + x1 * x1 * (u - v)
    ensures e == -(x3 * x3 - x1 * x1) * u + (x2 * x2 - x1 * x1) * v
  {
  }

  /** s^2 - t^2 = (s - t) (s + t). */
  lemma DifferenceOfSquares(s: real, t: real)
    ensures s * s - t * t == (s - t) * (s + t)
  {
  }

  /** -(e g) (f p) + (f h) (e q) = e f (h q - g p). */
  lemma SquareFactors(e: real, f: real, g: real, h: real, p: real, q: real)
    ensures -(e * g) * (f * p) + (f * h) * (e * q) == e * f * (h * q - g * p)
  {
  }

  /** -(b d) / (2 (a d)) is -b / 2a for non-zero a and d. */
  lemma QuotientCancels(b: real, a: real, d: real)
    requires a != 0.0 && d != 0.0
    ensures -(b * d) / (2.0 * (a * d)) == -b / (2.0 * a)
  {
    assert -(b * d) / (2.0 * (a * d)) == (-b / (2.0 * a)) * (d / d);
  }

  // ---------------------------------------------------------------------
  // optimizeSpline as functions of the boundary values
  //
  // The loop is stated over any iteration step, a function that gives
  // the next boundary values or None where the step is undefined;
  // IterationStep is the one optimizeSpline uses.

  /** runOptimizationIteration as a step, defined exactly where it is feasible. */
  function IterationStep(m: Math, cost: Boundary -> real): (step: seq<Boundary> -> Option<seq<Boundary>>)
    ensures forall bs :: step(bs).Some? <==> Feasible(m, cost, bs)
    ensures forall bs :: Feasible(m, cost, bs) ==> step(bs).value == Iterated(m, cost, bs)
  {
    bs => if Feasible(m, cost, bs) then Some(Iterated(m, cost, bs)) else None
  }

  /** What optimizeSpline returns, the boundary values it leaves, and how many iterations it ran. */
  datatype Outcome = Outcome(value: real, state: seq<Boundary>, iterations: int)

  /**
   * Every iteration that the loop runs from this point (after count
   * iterations, with prev the last objective) is defined.
   */
  predicate RunFeasible(step: seq<Boundary> -> Option<seq<Boundary>>, cost: Boundary -> real, bs: seq<Boundary>, prev: real, count: int)
    decreases kMaxIterations - count
  {
    count >= kMaxIterations ||
    (Defined(step, bs) &&
     var next := step(bs).value;
     prev - Objective(cost, next) < kMinDelta || RunFeasible(step, cost, next, Objective(cost, next), count + 1))
  }

  /** The loop of optimizeSpline, entered after count iterations with prev the last objective. */
  function OptimizeFrom(step: seq<Boundary> -> Option<seq<Boundary>>, cost: Boundary -> real, bs: seq<Boundary>, prev: real, count: int): (r: Outcome)
    requires RunFeasible(step, cost, bs, prev, count)
    decreases kMaxIterations - count
    ensures count <= r.iterations
  {
    if count >= kMaxIterations then Outcome(prev, bs, count)
    else
      var next := step(bs).value;
      var current := Objective(cost, next);
      if prev - current < kMinDelta then Outcome(current, next, count + 1)
      else OptimizeFrom(step, cost, next, current, count + 1)
  }

  /** What step gives at bs, when it gives something, is one iteration from bs. */
  ghost predicate StepAt(m: Math, cost: Boundary -> real, step: seq<Boundary> -> Option<seq<Boundary>>, bs: seq<Boundary>)
  {
    step(bs).Some? ==> Feasible(m, cost, bs) && step(bs).value == Iterated(m, cost, bs)
  }

  /**
   * step stands for runOptimizationIteration on every list. The trigger
   * keeps the fact from being applied where no one asks for it.
   */
  ghost predicate Implements(m: Math, cost: Boundary -> real, step: seq<Boundary> -> Option<seq<Boundary>>)
  {
    forall bs {:trigger StepAt(m, cost, step, bs)} :: StepAt(m, cost, step, bs)
  }

  lemma IterationStepImplements(m: Math, cost: Boundary -> real)
    ensures Implements(m, cost, IterationStep(m, cost))
  {
    forall bs
      ensures StepAt(m, cost, IterationStep(m, cost), bs)
    {
    }
  }

  /** optimizeSpline: iterate from the objective of the given splines and no iterations yet. */
  function Optimize(m: Math, cost: Boundary -> real, bs: seq<Boundary>): (r: Outcome)
    requires RunFeasible(IterationStep(m, cost), cost, bs, Objective(cost, bs), 0)
    ensures 1 <= r.iterations <= kMaxIterations
    ensures r.value == Objective(cost, r.state)
  {
    OptimizeIterates(IterationStep(m, cost), cost, bs, Objective(cost, bs), 0);
    OptimizeValue(IterationStep(m, cost), cost, bs, Objective(cost, bs), 0);
    OptimizeFrom(IterationStep(m, cost), cost, bs, Objective(cost, bs), 0)
  }

  /** The step is defined at bs. */
  predicate Defined(step: seq<Boundary> -> Option<seq<Boundary>>, bs: seq<Boundary>)
  {
    step(bs).Some?
  }

  /** The evidently intended iteration as a step. */
  function IntendedStep(m: Math, cost: Boundary -> real): (step: seq<Boundary> -> Option<seq<Boundary>>)
    ensures forall bs :: step(bs).Some? <==> Feasible(m, cost, bs)
    ensures forall bs :: Feasible(m, cost, bs) ==> step(bs).value == IteratedAtVertex(m, cost, bs)
  {
    bs => if Feasible(m, cost, bs) then Some(IteratedAtVertex(m, cost, bs)) else None
  }

  /** The first k steps are defined. */
  predicate IterFeasible(step: seq<Boundary> -> Option<seq<Boundary>>, bs: seq<Boundary>, k: nat)
    decreases k, 0
  {
    k == 0 || (IterFeasible(step, bs, k - 1) && Defined(step, IterateN(step, bs, k - 1)))
  }

  /** The boundary values after k steps, an independent reference for the loop. */
  function IterateN(step: seq<Boundary> -> Option<seq<Boundary>>, bs: seq<Boundary>, k: nat): (r: seq<Boundary>)
    requires IterFeasible(step, bs, k)
    decreases k, 1
    ensures k == 0 ==> r == bs
  {
    if k == 0 then bs else step(IterateN(step, bs, k - 1)).value
  }

  /** Feasibility of k steps covers every shorter run. */
  lemma {:induction false} IterFeasibleShorter(step: seq<Boundary> -> Option<seq<Boundary>>, bs: seq<Boundary>, j: nat, k: nat)
    requires j <= k && IterFeasible(step, bs, k)
    ensures IterFeasible(step, bs, j)
    decreases k - j
  {
    if j < k {
      IterFeasibleShorter(step, bs, j, k - 1);
    }
  }

  /** k + 1 steps from bs are one step followed by k more. */
  lemma {:induction false} IterateFirst(step: seq<Boundary> -> Option<seq<Boundary>>, bs: seq<Boundary>, k: nat)
    requires Defined(step, bs)
    ensures IterFeasible(step, step(bs).value, k) <==> IterFeasible(step, bs, k + 1)
    ensures IterFeasible(step, bs, k + 1) ==> IterateN(step, step(bs).value, k) == IterateN(step, bs, k + 1)
  {
    if k > 0 {
      IterateFirst(step, bs, k - 1);
    }
  }

  /**
   * The loop runs at least one and at most kMaxIterations iterations,
   * and ends in the state those iterations reach.
   */
  lemma {:induction false} OptimizeIterates(step: seq<Boundary> -> Option<seq<Boundary>>, cost: Boundary -> real, bs: seq<Boundary>, prev: real, count: int)
    requires 0 <= count < kMaxIterations && RunFeasible(step, cost, bs, prev, count)
    decreases kMaxIterations - count
    ensures var r := OptimizeFrom(step, cost, bs, prev, count);
            count < r.iterations <= kMaxIterations &&
            IterFeasible(step, bs, r.iterations - count) &&
            r.state == IterateN(step, bs, r.iterations - count)
  {
    var next := step(bs).value;
    var current := Objective(cost, next);
    IterateFirst(step, bs, 0);
    if prev - current >= kMinDelta && count + 1 < kMaxIterations {
      OptimizeIterates(step, cost, next, current, count + 1);
      var r := OptimizeFrom(step, cost, next, current, count + 1);
      IterateFirst(step, bs, r.iterations - count - 1);
    }
  }

  /** The value the loop returns is the objective of the state it leaves. */
  lemma {:induction false} OptimizeValue(step: seq<Boundary> -> Option<seq<Boundary>>, cost: Boundary -> real, bs: seq<Boundary>, prev: real, count: int)
    requires RunFeasible(step, cost, bs, prev, count) && prev == Objective(cost, bs)
    decreases kMaxIterations - count
    ensures var r := OptimizeFrom(step, cost, bs, prev, count);
            r.value == Objective(cost, r.state)
  {
    if count < kMaxIterations {
      var next := step(bs).value;
      if prev - Objective(cost, next) >= kMinDelta {
        OptimizeValue(step, cost, next, Objective(cost, next), count + 1);
      }
    }
  }

  /** Every iteration of the loop but the last improved the objective by at least kMinDelta. */
  lemma {:induction false} OptimizeImproves(step: seq<Boundary> -> Option<seq<Boundary>>, cost: Boundary -> real, bs: seq<Boundary>, prev: real, count: int)
    requires 0 <= count < kMaxIterations && RunFeasible(step, cost, bs, prev, count) && prev == Objective(cost, bs)
    decreases kMaxIterations - count
    ensures var k := OptimizeFrom(step, cost, bs, prev, count).iterations - count;
            forall j :: 1 <= j < k ==>
              IterFeasible(step, bs, j) &&
              Objective(cost, IterateN(step, bs, j - 1)) - Objective(cost, IterateN(step, bs, j)) >= kMinDelta
  {
    var r := OptimizeFrom(step, cost, bs, prev, count);
    var k := r.iterations - count;
    OptimizeIterates(step, cost, bs, prev, count);
    var next := step(bs).value;
    var current := Objective(cost, next);
    IterateFirst(step, bs, 0);
    if prev - current >= kMinDelta && count + 1 < kMaxIterations {
      OptimizeImproves(step, cost, next, current, count + 1);
      forall j | 1 <= j < k
        ensures IterFeasible(step, bs, j) &&
                Objective(cost, IterateN(step, bs, j - 1)) - Objective(cost, IterateN(step, bs, j)) >= kMinDelta
      {
        IterFeasibleShorter(step, bs, j, k);
        if j > 1 {
          IterateFirst(step, bs, j - 1);
          IterateFirst(step, bs, j - 2);
        }
      }
    }
  }

  /** When the loop ran fewer than kMaxIterations iterations, the last one improved the objective by less than kMinDelta. */
  lemma {:induction false} OptimizeStops(step: seq<Boundary> -> Option<seq<Boundary>>, cost: Boundary -> real, bs: seq<Boundary>, prev: real, count: int)
    requires 0 <= count < kMaxIterations && RunFeasible(step, cost, bs, prev, count) && prev == Objective(cost, bs)
    decreases kMaxIterations - count
    ensures var r := OptimizeFrom(step, cost, bs, prev, count);
            var k := r.iterations - count;
            1 <= k && IterFeasible(step, bs, k) &&
            (r.iterations < kMaxIterations ==> Objective(cost, IterateN(step, bs, k - 1)) - r.value < kMinDelta)
  {
    var r := OptimizeFrom(step, cost, bs, prev, count);
    var k := r.iterations - count;
    OptimizeIterates(step, cost, bs, prev, count);
    OptimizeValue(step, cost, bs, prev, count);
    var next := step(bs).value;
    var current := Objective(cost, next);
    IterateFirst(step, bs, 0);
    if prev - current >= kMinDelta && count + 1 < kMaxIterations {
      OptimizeStops(step, cost, next, current, count + 1);
      IterateFirst(step, bs, k - 2);
    }
  }

  // ---------------------------------------------------------------------
  // The imperative code

  /** sumDCurvature2(splines) with the cost as the per-spline objective. */
  method SumObjective(cost: Boundary -> real, splines: seq<QuinticHermiteSpline>, ghost bs: seq<Boundary>) returns (sum: real)
    requires Models(splines, bs)
    ensures sum == Objective(cost, bs)
  {
    sum := 0.0;
    for i := 0 to |splines|
      invariant sum == Objective(cost, bs[..i])
    {
      assert bs[..i + 1][..i] == bs[..i];
      sum := sum + cost(splines[i].Snapshot());
    }
    assert bs[..|splines|] == bs;
  }

  /** Adds d to the second derivatives at junction i and recomputes both splines. */
  method ShiftJunction(splines: seq<QuinticHermiteSpline>, i: int, d: ControlPoint, ghost cur: seq<Boundary>)
    requires 0 <= i < |splines| - 1
    requires Distinct(splines) && Models(splines, cur)
    modifies splines[i], splines[i + 1]
    ensures Models(splines, MoveJunction(cur, i, d))
  {
    var s := splines[i];
    var t := splines[i + 1];
    assert forall j :: 0 <= j < |splines| && j != i ==> splines[j] != s;
    assert forall j :: 0 <= j < |splines| && j != i + 1 ==> splines[j] != t;
    s.AddToEnd(d.ddx, d.ddy);
    t.AddToStart(d.ddx, d.ddy);
  }

  /** The skip test on the objects is the skip test on their boundary values. */
  lemma SkipOnObjects(m: Math, splines: seq<QuinticHermiteSpline>, cur: seq<Boundary>, bs: seq<Boundary>, i: int)
    requires Models(splines, cur) && SameFrozen(cur, bs) && 0 <= i < |bs| - 1
    ensures (splines[i].StartPose(m).IsColinear(m, splines[i + 1].StartPose(m)) ||
             splines[i].EndPose(m).IsColinear(m, splines[i + 1].EndPose(m))) <==> Skipped(m, bs, i)
  {
    FrozenPoses(m, cur[i], bs[i]);
    FrozenPoses(m, cur[i + 1], bs[i + 1]);
  }

  /** The skip test of every loop of runOptimizationIteration, on the objects. */
  method JunctionSkipped(m: Math, splines: seq<QuinticHermiteSpline>, i: int, ghost cur: seq<Boundary>, ghost bs: seq<Boundary>)
    returns (skip: bool)
    requires Models(splines, cur) && SameFrozen(cur, bs) && 0 <= i < |bs| - 1
    ensures skip == Skipped(m, bs, i)
  {
    SkipOnObjects(m, splines, cur, bs, i);
    skip := splines[i].StartPose(m).IsColinear(m, splines[i + 1].StartPose(m)) ||
            splines[i].EndPose(m).IsColinear(m, splines[i + 1].EndPose(m));
  }

  /** Replacing one object by one holding b models the list with b in that place. */
  lemma ModelsUpdate(objs: seq<QuinticHermiteSpline>, bs: seq<Boundary>, i: int, o: QuinticHermiteSpline, b: Boundary)
    requires Models(objs, bs) && 0 <= i < |objs|
    requires o.Snapshot() == b && o.Valid()
    ensures Models(objs[i := o], bs[i := b])
  {
  }

  /**
   * sumDCurvature2(splines) after the objects a and b have taken the places
   * of splines i and i + 1.
   */
  method SumProbed(cost: Boundary -> real, splines: seq<QuinticHermiteSpline>, i: int, a: QuinticHermiteSpline, b: QuinticHermiteSpline,
                   ghost bs: seq<Boundary>, ghost probe: seq<Boundary>)
    returns (sum: real)
    requires 0 <= i < |splines| - 1 && Models(splines, bs)
    requires a.Valid() && b.Valid() && probe == bs[i := a.Snapshot()][i + 1 := b.Snapshot()]
    ensures sum == Objective(cost, probe)
  {
    ModelsUpdate(splines, bs, i, a, a.Snapshot());
    ModelsUpdate(splines[i := a], bs[i := a.Snapshot()], i + 1, b, b.Snapshot());
    sum := SumObjective(cost, splines[i := a][i + 1 := b], probe);
  }

  /**
   * The two forward differences at junction i: probe splines with one
   * second derivative raised by kEpsilon take the places of splines i and
   * i + 1 in the list, whose objective is compared with the original one.
   * The list itself is left as it was.
   */
  method ProbeJunction(cost: Boundary -> real, splines: seq<QuinticHermiteSpline>, i: int, original: real, ghost bs: seq<Boundary>)
    returns (c: ControlPoint)
    requires 0 <= i < |splines| - 1
    requires Models(splines, bs) && original == Objective(cost, bs)
    ensures c == Partial(cost, bs, i)
  {
    var temp := splines[i];
    var temp1 := splines[i + 1];
    var a := new QuinticHermiteSpline.FromBoundary(Boundary(
      temp.x0, temp.x1, temp.dx0, temp.dx1, temp.ddx0, temp.ddx1 + kEpsilon,
      temp.y0, temp.y1, temp.dy0, temp.dy1, temp.ddy0, temp.ddy1));
    var b := new QuinticHermiteSpline.FromBoundary(Boundary(
      temp1.x0, temp1.x1, temp1.dx0, temp1.dx1, temp1.ddx0 + kEpsilon, temp1.ddx1,
      temp1.y0, temp1.y1, temp1.dy0, temp1.dy1, temp1.ddy0, temp1.ddy1));
    var probedX := SumProbed(cost, splines, i, a, b, bs, ProbeX(bs, i));
    var e := new QuinticHermiteSpline.FromBoundary(Boundary(
      temp.x0, temp.x1, temp.dx0, temp.dx1, temp.ddx0, temp.ddx1,
      temp.y0, temp.y1, temp.dy0, temp.dy1, temp.ddy0, temp.ddy1 + kEpsilon));
    var f := new QuinticHermiteSpline.FromBoundary(Boundary(
      temp1.x0, temp1.x1, temp1.dx0, temp1.dx1, temp1.ddx0, temp1.ddx1,
      temp1.y0, temp1.y1, temp1.dy0, temp1.dy1, temp1.ddy0 + kEpsilon, temp1.ddy1));
    var probedY := SumProbed(cost, splines, i, e, f, bs, ProbeY(bs, i));
    c := ControlPoint((probedX - original) / kEpsilon, (probedY - original) / kEpsilon);
  }

  /** The squared length over a prefix depends on that prefix only. */
  lemma {:induction false} Magnitude2Prefix(g: seq<ControlPoint>, h: seq<ControlPoint>, k: nat)
    requires k <= |g| && k <= |h|
    requires forall j :: 0 <= j < k ==> g[j] == h[j]
    ensures Magnitude2(g, k) == Magnitude2(h, k)
  {
    if k > 0 {
      Magnitude2Prefix(g, h, k - 1);
    }
  }

  /** Appending c adds its squared length to the squared length. */
  lemma Magnitude2Appended(g: seq<ControlPoint>, mag: real, c: ControlPoint)
    requires mag == Magnitude2(g, |g|)
    ensures mag + c.ddx * c.ddx + c.ddy * c.ddy == Magnitude2(g + [c], |g| + 1)
  {
    Magnitude2Prefix(g, g + [c], |g|);
  }

  /** The body of the first loop: junction i's gradient entry, 0 when it is skipped. */
  method GradientEntry(m: Math, cost: Boundary -> real, splines: seq<QuinticHermiteSpline>, i: int,
                       ghost bs: seq<Boundary>, ghost act: seq<bool>)
    returns (c: ControlPoint)
    requires 0 <= i < |splines| - 1 && Models(splines, bs) && ActiveFlags(m, bs, act)
    ensures c == if act[i] then Partial(cost, bs, i) else ControlPoint(0.0, 0.0)
  {
    var skip := JunctionSkipped(m, splines, i, bs, bs);
    if skip {
      return ControlPoint(0.0, 0.0);
    }
    var original := SumObjective(cost, splines, bs);
    c := ProbeJunction(cost, splines, i, original, bs);
  }

  /**
   * The first loop of runOptimizationIteration: the forward-difference
   * gradient at every junction that is not skipped, and its squared
   * length. No object is modified.
   */
  method EstimateGradient(m: Math, cost: Boundary -> real, splines: seq<QuinticHermiteSpline>,
                          ghost bs: seq<Boundary>, ghost act: seq<bool>)
    returns (g: seq<ControlPoint>, magnitude: real)
    requires 2 <= |splines| && Models(splines, bs) && ActiveFlags(m, bs, act)
    ensures g == Gradient(cost, bs, act, |bs| - 1)
    ensures magnitude == Magnitude2(g, |g|)
  {
    g := [];
    magnitude := 0.0;
    for i := 0 to |splines| - 1
      invariant g == Gradient(cost, bs, act, i)
      invariant magnitude == Magnitude2(g, i)
    {
      var c := GradientEntry(m, cost, splines, i, bs, act);
      Magnitude2Appended(g, magnitude, c);
      g := g + [c];
      magnitude := magnitude + c.ddx * c.ddx + c.ddy * c.ddy;
    }
  }

  /**
   * The skip test of a step loop, in the middle of a shift: the list
   * modelled is the base list with the first i junctions moved, and the
   * base keeps the poses of bs.
   */
  method CheckJunction(m: Math, splines: seq<QuinticHermiteSpline>, i: int, ghost bs: seq<Boundary>, ghost base: seq<Boundary>,
                       ghost act: seq<bool>, ghost d: seq<ControlPoint>)
    returns (skip: bool)
    requires 0 <= i < |bs| - 1 && SameFrozen(base, bs) && ActiveFlags(m, bs, act) && |d| == |bs| - 1
    requires Models(splines, Shifted(base, act, d, i))
    ensures skip == !act[i]
  {
    ghost var cur := Shifted(base, act, d, i);
    ShiftedKeepsFrozen(base, act, d, i);
    skip := JunctionSkipped(m, splines, i, cur, bs);
  }

  /** One step of a shift loop: active junction i moves by e, its entry of d. */
  method ApplyShift(splines: seq<QuinticHermiteSpline>, i: int, e: ControlPoint, ghost base: seq<Boundary>,
                    ghost act: seq<bool>, ghost d: seq<ControlPoint>)
    requires 0 <= i < |base| - 1 && Distinct(splines)
    requires |act| == |base| - 1 && |d| == |base| - 1
    requires act[i] && e == d[i]
    requires Models(splines, Shifted(base, act, d, i))
    modifies splines
    ensures Models(splines, Shifted(base, act, d, i + 1))
  {
    ShiftJunction(splines, i, e, Shifted(base, act, d, i));
  }

  /** The body of the third loop: junction i, unless skipped, moves by e, its entry of d. */
  method MoveIfActive(m: Math, splines: seq<QuinticHermiteSpline>, i: int, e: ControlPoint, ghost bs: seq<Boundary>,
                      ghost base: seq<Boundary>, ghost act: seq<bool>, ghost d: seq<ControlPoint>)
    requires 0 <= i < |bs| - 1 && SameFrozen(base, bs) && ActiveFlags(m, bs, act) && |d| == |bs| - 1
    requires Distinct(splines) && Models(splines, Shifted(base, act, d, i))
    requires e == d[i]
    modifies splines
    ensures Models(splines, Shifted(base, act, d, i + 1))
  {
    var skip := CheckJunction(m, splines, i, bs, base, act, d);
    if !skip {
      ApplyShift(splines, i, e, base, act, d);
    }
  }

  /** a with its first i entries taken from t. */
  function Mix(t: seq<ControlPoint>, a: seq<ControlPoint>, i: nat): (r: seq<ControlPoint>)
    requires |t| == |a| && i <= |a|
    ensures |r| == |a| && forall j :: 0 <= j < |a| ==> r[j] == if j < i then t[j] else a[j]
  {
    seq(|a|, j requires 0 <= j < |a| => if j < i then t[j] else a[j])
  }

  lemma MixNone(t: seq<ControlPoint>, a: seq<ControlPoint>)
    requires |t| == |a|
    ensures Mix(t, a, 0) == a
  {
  }

  lemma MixAll(t: seq<ControlPoint>, a: seq<ControlPoint>)
    requires |t| == |a|
    ensures Mix(t, a, |a|) == t
  {
  }

  /** With no junction active, ScaleActive changes nothing. */
  lemma ScaleInactive(act: seq<bool>, v: seq<ControlPoint>, k: real)
    requires |act| == |v| && !HasActive(act)
    ensures ScaleActive(act, v, k) == v
  {
    assert forall j :: 0 <= j < |v| ==> !act[j];
  }

  /**
   * The body of the second and fourth loops: junction i, unless skipped,
   * has its gradient entry multiplied by k and then subtracted from
   * (subtract) or added to its second derivatives. The gradient v holds
   * the scaled entries t before i and the unscaled u from i on; d is the
   * list of deltas the whole loop applies.
   */
  method ScaleAndMove(m: Math, splines: seq<QuinticHermiteSpline>, i: int, v: seq<ControlPoint>, k: real, subtract: bool,
                      ghost bs: seq<Boundary>, ghost base: seq<Boundary>, ghost act: seq<bool>,
                      ghost u: seq<ControlPoint>, ghost t: seq<ControlPoint>, ghost d: seq<ControlPoint>)
    returns (w: seq<ControlPoint>)
    requires 0 <= i < |bs| - 1 && SameFrozen(base, bs) && ActiveFlags(m, bs, act) && |u| == |bs| - 1
    requires t == ScaleActive(act, u, k) && v == Mix(t, u, i)
    requires d == if subtract then Scale(t, -1.0) else t
    requires Distinct(splines) && Models(splines, Shifted(base, act, d, i))
    modifies splines
    ensures w == Mix(t, u, i + 1)
    ensures Models(splines, Shifted(base, act, d, i + 1))
  {
    var skip := CheckJunction(m, splines, i, bs, base, act, d);
    w := v;
    if !skip {
      w := w[i := ControlPoint(w[i].ddx * k, w[i].ddy * k)];
      if subtract {
        ApplyShift(splines, i, ControlPoint(-w[i].ddx, -w[i].ddy), base, act, d);
      } else {
        ApplyShift(splines, i, w[i], base, act, d);
      }
    }
    assert w == Mix(t, u, i + 1);
  }

  /**
   * The second loop: each active junction's gradient is scaled by
   * kStepSize / magnitude and subtracted from its second derivatives.
   */
  method StepBack(m: Math, splines: seq<QuinticHermiteSpline>, g: seq<ControlPoint>, magnitude: real,
                  ghost bs: seq<Boundary>, ghost act: seq<bool>)
    returns (n: seq<ControlPoint>)
    requires 2 <= |splines| && Distinct(splines) && Models(splines, bs) && ActiveFlags(m, bs, act)
    requires |g| == |splines| - 1
    requires HasActive(act) ==> magnitude != 0.0
    modifies splines
    ensures HasActive(act) ==> n == ScaleActive(act, g, kStepSize / magnitude)
    ensures !HasActive(act) ==> n == g
    ensures |n| == |g|
    ensures Models(splines, Shifted(bs, act, Scale(n, -1.0), |bs| - 1))
  {
    // only active junctions use the factor, and magnitude is non-zero
    // whenever there is one
    var k := if magnitude != 0.0 then kStepSize / magnitude else 0.0;
    ghost var t := ScaleActive(act, g, k);
    ghost var d := Scale(t, -1.0);
    n := g;
    MixNone(t, g);
    for i := 0 to |splines| - 1
      invariant n == Mix(t, g, i)
      invariant Models(splines, Shifted(bs, act, d, i))
    {
      n := ScaleAndMove(m, splines, i, n, k, true, bs, bs, act, g, t, d);
    }
    MixAll(t, g);
    if !HasActive(act) {
      ScaleInactive(act, g, k);
    }
  }

  /** The third loop: twice the scaled gradient is added at each active junction. */
  method StepAhead(m: Math, splines: seq<QuinticHermiteSpline>, n: seq<ControlPoint>,
                   ghost bs: seq<Boundary>, ghost act: seq<bool>, ghost back: seq<Boundary>)
    requires 2 <= |splines| && Distinct(splines) && Models(splines, back) && SameFrozen(back, bs) && ActiveFlags(m, bs, act)
    requires |n| == |splines| - 1
    modifies splines
    ensures Models(splines, Shifted(back, act, Scale(n, 2.0), |bs| - 1))
  {
    ghost var d := Scale(n, 2.0);
    for i := 0 to |splines| - 1
      invariant Models(splines, Shifted(back, act, d, i))
    {
      MoveIfActive(m, splines, i, ControlPoint(2.0 * n[i].ddx, 2.0 * n[i].ddy), bs, back, act, d);
    }
  }

  /**
   * The fourth loop: each active junction's scaled gradient is multiplied
   * by 1 + stepSize / kStepSize and added.
   */
  method StepToVertex(m: Math, splines: seq<QuinticHermiteSpline>, n: seq<ControlPoint>, stepSize: Double,
                      ghost bs: seq<Boundary>, ghost act: seq<bool>, ghost ahead: seq<Boundary>)
    returns (f: seq<ControlPoint>)
    requires 2 <= |splines| && Distinct(splines) && Models(splines, ahead) && SameFrozen(ahead, bs) && ActiveFlags(m, bs, act)
    requires |n| == |splines| - 1
    requires HasActive(act) ==> stepSize.Finite?
    modifies splines
    ensures HasActive(act) ==> f == ScaleActive(act, n, 1.0 + stepSize.value / kStepSize)
    ensures |f| == |n|
    ensures Models(splines, Shifted(ahead, act, f, |bs| - 1))
  {
    // only active junctions use the factor, and stepSize is finite
    // whenever there is one
    var k := if stepSize.Finite? then 1.0 + stepSize.value / kStepSize else 0.0;
    ghost var t := ScaleActive(act, n, k);
    f := n;
    MixNone(t, n);
    for i := 0 to |splines| - 1
      invariant f == Mix(t, n, i)
      invariant Models(splines, Shifted(ahead, act, t, i))
    {
      f := ScaleAndMove(m, splines, i, f, k, false, bs, ahead, act, n, t, t);
    }
    MixAll(t, n);
  }

  /**
   * What the iteration computes when some junction is active: a non-zero
   * gradient length, the line search's points, and its result.
   */
  lemma LineSearchSteps(m: Math, cost: Boundary -> real, bs: seq<Boundary>, g: seq<ControlPoint>, magnitude: real)
    requires 2 <= |bs| && Feasible(m, cost, bs) && HasActive(Active(m, bs))
    requires g == Gradient(cost, bs, Active(m, bs), |bs| - 1) && magnitude == m.sqrt(Magnitude2(g, |g|))
    ensures magnitude != 0.0 && magnitude == Magnitude(m, cost, bs)
    ensures var s := LineSearch(m, cost, bs);
            var act := Active(m, bs);
            s.normal == ScaleActive(act, g, kStepSize / magnitude) &&
            s.back == Shifted(bs, act, Scale(s.normal, -1.0), |bs| - 1) &&
            s.ahead == Shifted(s.back, act, Scale(s.normal, 2.0), |bs| - 1) &&
            s.step == FitParabola(
              Translation2d(-kStepSize, Objective(cost, s.back)),
              Translation2d(0.0, Objective(cost, bs)),
              Translation2d(kStepSize, Objective(cost, s.ahead))) &&
            s.step.Finite?
  {
  }

  /** The iterated list is the list one step ahead, moved by 1 + s times the normalised gradient. */
  lemma IteratedFromAhead(m: Math, cost: Boundary -> real, bs: seq<Boundary>)
    requires 2 <= |bs| && Feasible(m, cost, bs) && HasActive(Active(m, bs))
    ensures var s := LineSearch(m, cost, bs);
            var act := Active(m, bs);
            Iterated(m, cost, bs) == Shifted(s.ahead, act, ScaleActive(act, s.normal, 1.0 + s.step.value / kStepSize), |bs| - 1)
  {
    IteratedUnfolds(m, cost, bs);
  }

  /** Iterated on a list with an active junction is its three moves. */
  lemma IteratedUnfolds(m: Math, cost: Boundary -> real, bs: seq<Boundary>)
    requires 2 <= |bs| && Feasible(m, cost, bs) && HasActive(Active(m, bs))
    ensures Iterated(m, cost, bs) == ThreeMoves(bs, Active(m, bs), LineSearch(m, cost, bs).normal, 1.0 + LineSearch(m, cost, bs).step.value / kStepSize)
  {
  }

  /** Steps back along the normalised gradient and measures the objective there. */
  method MeasureBack(m: Math, cost: Boundary -> real, splines: seq<QuinticHermiteSpline>, g: seq<ControlPoint>, magnitude: real,
                     ghost bs: seq<Boundary>, ghost act: seq<bool>)
    returns (n: seq<ControlPoint>, behind: real)
    requires 2 <= |splines| && Distinct(splines) && Models(splines, bs) && ActiveFlags(m, bs, act)
    requires |g| == |splines| - 1
    requires HasActive(act) ==> magnitude != 0.0
    modifies splines
    ensures HasActive(act) ==> n == ScaleActive(act, g, kStepSize / magnitude)
    ensures !HasActive(act) ==> n == g
    ensures |n| == |g|
    ensures var back := Shifted(bs, act, Scale(n, -1.0), |bs| - 1);
            behind == Objective(cost, back) && Models(splines, back) && SameFrozen(back, bs)
  {
    n := StepBack(m, splines, g, magnitude, bs, act);
    ShiftedKeepsFrozen(bs, act, Scale(n, -1.0), |bs| - 1);
    behind := SumObjective(cost, splines, Shifted(bs, act, Scale(n, -1.0), |bs| - 1));
  }

  /** Steps two steps ahead from one step back and measures the objective there. */
  method MeasureAhead(m: Math, cost: Boundary -> real, splines: seq<QuinticHermiteSpline>, n: seq<ControlPoint>,
                      ghost bs: seq<Boundary>, ghost act: seq<bool>, ghost back: seq<Boundary>)
    returns (further: real)
    requires 2 <= |splines| && Distinct(splines) && Models(splines, back) && SameFrozen(back, bs) && ActiveFlags(m, bs, act)
    requires |n| == |splines| - 1
    modifies splines
    ensures var ahead := Shifted(back, act, Scale(n, 2.0), |bs| - 1);
            further == Objective(cost, ahead) && Models(splines, ahead) && SameFrozen(ahead, bs)
  {
    StepAhead(m, splines, n, bs, act, back);
    ShiftedKeepsFrozen(back, act, Scale(n, 2.0), |bs| - 1);
    further := SumObjective(cost, splines, Shifted(back, act, Scale(n, 2.0), |bs| - 1));
  }

  /** The two probes of the line search: one step back, then one step ahead of the start. */
  method StepBackAndAhead(m: Math, cost: Boundary -> real, splines: seq<QuinticHermiteSpline>, g: seq<ControlPoint>, magnitude: real,
                          ghost bs: seq<Boundary>, ghost act: seq<bool>)
    returns (n: seq<ControlPoint>, behind: real, further: real)
    requires 2 <= |splines| && Distinct(splines) && Models(splines, bs) && ActiveFlags(m, bs, act)
    requires |g| == |splines| - 1
    requires HasActive(act) ==> magnitude != 0.0
    modifies splines
    ensures HasActive(act) ==> n == ScaleActive(act, g, kStepSize / magnitude)
    ensures !HasActive(act) ==> n == g
    ensures |n| == |g|
    ensures var back := Shifted(bs, act, Scale(n, -1.0), |bs| - 1);
            var ahead := Shifted(back, act, Scale(n, 2.0), |bs| - 1);
            behind == Objective(cost, back) && further == Objective(cost, ahead) &&
            Models(splines, ahead) && SameFrozen(ahead, bs)
  {
    n, behind := MeasureBack(m, cost, splines, g, magnitude, bs, act);
    further := MeasureAhead(m, cost, splines, n, bs, act, Shifted(bs, act, Scale(n, -1.0), |bs| - 1));
  }

  /**
   * The values the iteration computes on the objects are those of the
   * line search: with some junction active, the parabola through the
   * three measured objective values has a finite vertex, and the final
   * move by the scaled normal gives the iterated list.
   */
  lemma IterationMatches(m: Math, cost: Boundary -> real, bs: seq<Boundary>, g: seq<ControlPoint>, magnitude: real,
                         n: seq<ControlPoint>, behind: real, middle: real, further: real)
    requires 2 <= |bs| && Feasible(m, cost, bs) && HasActive(Active(m, bs))
    requires g == Gradient(cost, bs, Active(m, bs), |bs| - 1) && magnitude == m.sqrt(Magnitude2(g, |g|))
    requires magnitude != 0.0 ==> n == ScaleActive(Active(m, bs), g, kStepSize / magnitude)
    requires |n| == |bs| - 1
    requires var act := Active(m, bs);
             var back := Shifted(bs, act, Scale(n, -1.0), |bs| - 1);
             middle == Objective(cost, bs) && behind == Objective(cost, back) &&
             further == Objective(cost, Shifted(back, act, Scale(n, 2.0), |bs| - 1))
    ensures var step := FitParabola(Translation2d(-kStepSize, behind), Translation2d(0.0, middle), Translation2d(kStepSize, further));
            var act := Active(m, bs);
            var ahead := Shifted(Shifted(bs, act, Scale(n, -1.0), |bs| - 1), act, Scale(n, 2.0), |bs| - 1);
            step.Finite? &&
            Iterated(m, cost, bs) == Shifted(ahead, act, ScaleActive(act, n, 1.0 + step.value / kStepSize), |bs| - 1)
  {
    LineSearchSteps(m, cost, bs, g, magnitude);
    IteratedFromAhead(m, cost, bs);
    var s := LineSearch(m, cost, bs);
    assert n == s.normal;
  }

  /**
   * The probes of one iteration determine its result: the step to the
   * vertex of the fitted parabola when a junction is active, and after
   * the two probes the splines are back where they started otherwise.
   */
  lemma IterationTarget(m: Math, cost: Boundary -> real, bs: seq<Boundary>, g: seq<ControlPoint>, magnitude: real,
                        n: seq<ControlPoint>, behind: real, middle: real, further: real)
    requires 2 <= |bs| && Feasible(m, cost, bs)
    requires g == Gradient(cost, bs, Active(m, bs), |bs| - 1) && magnitude == m.sqrt(Magnitude2(g, |g|))
    requires HasActive(Active(m, bs)) && magnitude != 0.0 ==> n == ScaleActive(Active(m, bs), g, kStepSize / magnitude)
    requires |n| == |bs| - 1
    requires var act := Active(m, bs);
             var back := Shifted(bs, act, Scale(n, -1.0), |bs| - 1);
             middle == Objective(cost, bs) && behind == Objective(cost, back) &&
             further == Objective(cost, Shifted(back, act, Scale(n, 2.0), |bs| - 1))
    ensures var step := FitParabola(Translation2d(-kStepSize, behind), Translation2d(0.0, middle), Translation2d(kStepSize, further));
            var act := Active(m, bs);
            var ahead := Shifted(Shifted(bs, act, Scale(n, -1.0), |bs| - 1), act, Scale(n, 2.0), |bs| - 1);
            (HasActive(act) ==>
               step.Finite? &&
               Iterated(m, cost, bs) == Shifted(ahead, act, ScaleActive(act, n, 1.0 + step.value / kStepSize), |bs| - 1)) &&
            (!HasActive(act) ==> Iterated(m, cost, bs) == ahead)
  {
    var act := Active(m, bs);
    ActiveHasFlags(m, bs);
    var back := Shifted(bs, act, Scale(n, -1.0), |bs| - 1);
    if HasActive(act) {
      IterationMatches(m, cost, bs, g, magnitude, n, behind, middle, further);
    } else {
      ShiftedInactive(bs, act, Scale(n, -1.0), |bs| - 1);
      ShiftedInactive(back, act, Scale(n, 2.0), |bs| - 1);
    }
  }

  /** The gradient has a nonzero norm whenever some junction is active. */
  lemma ActiveMagnitude(m: Math, cost: Boundary -> real, bs: seq<Boundary>, g: seq<ControlPoint>, magnitude: real)
    requires 2 <= |bs| && Feasible(m, cost, bs)
    requires g == Gradient(cost, bs, Active(m, bs), |bs| - 1) && magnitude == m.sqrt(Magnitude2(g, |g|))
    ensures HasActive(Active(m, bs)) ==> magnitude != 0.0
  {
    if HasActive(Active(m, bs)) {
      LineSearchSteps(m, cost, bs, g, magnitude);
    }
  }

  /** Fits the parabola through the three probes and moves every active junction to its vertex. */
  method MoveToVertex(m: Math, splines: seq<QuinticHermiteSpline>, n: seq<ControlPoint>, behind: real, middle: real, further: real,
                      ghost bs: seq<Boundary>, ghost act: seq<bool>, ghost ahead: seq<Boundary>, ghost target: seq<Boundary>)
    requires 2 <= |splines| && Distinct(splines) && Models(splines, ahead) && SameFrozen(ahead, bs) && ActiveFlags(m, bs, act)
    requires |n| == |splines| - 1
    requires var step := FitParabola(Translation2d(-kStepSize, behind), Translation2d(0.0, middle), Translation2d(kStepSize, further));
             HasActive(act) ==> step.Finite? && target == Shifted(ahead, act, ScaleActive(act, n, 1.0 + step.value / kStepSize), |bs| - 1)
    requires !HasActive(act) ==> target == ahead
    modifies splines
    ensures Models(splines, target)
  {
    var stepSize := FitParabola(Translation2d(-kStepSize, behind), Translation2d(0.0, middle), Translation2d(kStepSize, further));
    var f := StepToVertex(m, splines, n, stepSize, bs, act, ahead);
    if !HasActive(act) {
      ShiftedInactive(ahead, act, f, |bs| - 1);
    }
  }

  /**
   * runOptimizationIteration: estimates the gradient, moves the junctions
   * one step back along it and then one step ahead, fits a parabola
   * through the three objective values and moves to its vertex.
   */
  method RunOptimizationIteration(m: Math, cost: Boundary -> real, splines: seq<QuinticHermiteSpline>, ghost bs: seq<Boundary>)
    requires Distinct(splines) && Models(splines, bs) && Feasible(m, cost, bs)
    modifies splines
    ensures Models(splines, Iterated(m, cost, bs))
  {
    if |splines| <= 1 {
      return;
    }
    ghost var act := Active(m, bs);
    ActiveHasFlags(m, bs);
    var g, magnitude := EstimateGradient(m, cost, splines, bs, act);
    magnitude := m.sqrt(magnitude);
    ActiveMagnitude(m, cost, bs, g, magnitude);
    var middle := SumObjective(cost, splines, bs);
    var n, behind, further := StepBackAndAhead(m, cost, splines, g, magnitude, bs, act);
    IterationTarget(m, cost, bs, g, magnitude, n, behind, middle, further);
    ghost var ahead := Shifted(Shifted(bs, act, Scale(n, -1.0), |bs| - 1), act, Scale(n, 2.0), |bs| - 1);
    MoveToVertex(m, splines, n, behind, middle, further, bs, act, ahead, Iterated(m, cost, bs));
  }

  /** The run after kMaxIterations iterations: the state and value it has reached. */
  lemma OptimizeEnd(step: seq<Boundary> -> Option<seq<Boundary>>, cost: Boundary -> real, bs: seq<Boundary>, prev: real, count: int)
    requires count >= kMaxIterations && RunFeasible(step, cost, bs, prev, count)
    ensures OptimizeFrom(step, cost, bs, prev, count) == Outcome(prev, bs, count)
  {
  }

  /** One pass of the optimizeSpline loop, seen from the step function. */
  lemma OptimizeStep(m: Math, cost: Boundary -> real, step: seq<Boundary> -> Option<seq<Boundary>>, bs: seq<Boundary>,
                     prev: real, count: int)
    requires Implements(m, cost, step)
    requires 0 <= count < kMaxIterations && RunFeasible(step, cost, bs, prev, count)
    ensures Feasible(m, cost, bs)
    ensures var next := Iterated(m, cost, bs);
            var current := Objective(cost, next);
            (prev - current < kMinDelta ==> OptimizeFrom(step, cost, bs, prev, count) == Outcome(current, next, count + 1)) &&
            (prev - current >= kMinDelta ==>
               RunFeasible(step, cost, next, current, count + 1) &&
               OptimizeFrom(step, cost, bs, prev, count) == OptimizeFrom(step, cost, next, current, count + 1))
  {
    assert StepAt(m, cost, step, bs);
  }

  /**
   * One pass of the optimizeSpline loop on the objects: an iteration and
   * the objective after it, with what that means for the rest of the run.
   */
  method OptimizePass(m: Math, cost: Boundary -> real, splines: seq<QuinticHermiteSpline>,
                      ghost step: seq<Boundary> -> Option<seq<Boundary>>, ghost cur: seq<Boundary>, prev: real, ghost count: int)
    returns (current: real, ghost next: seq<Boundary>)
    requires Distinct(splines) && Models(splines, cur) && Implements(m, cost, step)
    requires 0 <= count < kMaxIterations && RunFeasible(step, cost, cur, prev, count)
    modifies splines
    ensures Models(splines, next) && current == Objective(cost, next)
    ensures prev - current < kMinDelta ==> OptimizeFrom(step, cost, cur, prev, count) == Outcome(current, next, count + 1)
    ensures prev - current >= kMinDelta ==>
              RunFeasible(step, cost, next, current, count + 1) &&
              OptimizeFrom(step, cost, cur, prev, count) == OptimizeFrom(step, cost, next, current, count + 1)
  {
    OptimizeStep(m, cost, step, cur, prev, count);
    RunOptimizationIteration(m, cost, splines, cur);
    next := Iterated(m, cost, cur);
    current := SumObjective(cost, splines, next);
  }

  /**
   * optimizeSpline: runs iterations until one improves the objective by
   * less than kMinDelta or kMaxIterations have run, and returns the last
   * objective. The run is stated over any step function that stands for
   * runOptimizationIteration, IterationStep among them, so that the
   * proof never unfolds an iteration it does not perform.
   */
  method OptimizeSpline(m: Math, cost: Boundary -> real, splines: seq<QuinticHermiteSpline>, ghost bs: seq<Boundary>,
                        ghost step: seq<Boundary> -> Option<seq<Boundary>>)
    returns (result: real)
    requires Distinct(splines) && Models(splines, bs) && Implements(m, cost, step)
    requires RunFeasible(step, cost, bs, Objective(cost, bs), 0)
    modifies splines
    ensures result == OptimizeFrom(step, cost, bs, Objective(cost, bs), 0).value
    ensures Models(splines, OptimizeFrom(step, cost, bs, Objective(cost, bs), 0).state)
  {
    ghost var goal := OptimizeFrom(step, cost, bs, Objective(cost, bs), 0);
    ghost var cur := bs;
    var count := 0;
    var prev := SumObjective(cost, splines, bs);
    while count < kMaxIterations
      invariant 0 <= count <= kMaxIterations
      invariant Models(splines, cur) && prev == Objective(cost, cur)
      invariant RunFeasible(step, cost, cur, prev, count)
      invariant OptimizeFrom(step, cost, cur, prev, count) == goal
      decreases kMaxIterations - count
    {
      var current;
      current, cur := OptimizePass(m, cost, splines, step, cur, prev, count);
      if prev - current < kMinDelta {
        return current;
      }
      prev := current;
      count := count + 1;
    }
    OptimizeEnd(step, cost, cur, prev, count);
    result := prev;
  }
}
