/**
  One trapezoidal move, seen along its direction of travel: how KrakenComms::TrapezoidalProfile::step
  solves it and samples it.

  Floats are modelled as reals.  The square root is a function parameter that is only assumed to be a
  square root (IsSqrt).  The main results: a solved plan is the unique trapezoid of its start
  (PlanIsShaped, ShapeIsUnique), stopping anywhere along it leaves a trapezoid (RestIsShaped), and
  following the rest continues the whole (RestContinues).
*/
module Trapezoid {
  import opened Arithmetic

  datatype State = State(pos: real, vel: real, acc: real)

  /** Cruise speed and acceleration; both are positive in any tuning the code accepts. */
  datatype Limits = Limits(cruise: real, accel: real) {
    predicate Accepted() { cruise > 0.0 && accel > 0.0 }
  }

  /** Below this peak speed the code does not divide by it and plans no cruise phase. */
  const MIN_PEAK := 0.000001

  function Abs(x: real): real { if x >= 0.0 then x else -x }
  function Min(x: real, y: real): real { if x <= y then x else y }
  function Max(x: real, y: real): real { if x >= y then x else y }

  // ------------------------------------------------------------------ the plan and its trajectory

  /** Three phases: to the peak speed at the signed acceleration a1, on at it, and to rest; durations and distances. */
  datatype Plan = Plan(peak: real, a1: real, t1: real, d1: real, t2: real, d2: real, t3: real, d3: real) {
    function Time(): real { t1 + t2 + t3 }
    function Distance(): real { d1 + d2 + d3 }
  }

  /** Square of the peak speed at which accelerating and braking would just meet. */
  function Radicand(dist: real, v0: real, a: real): real {
    Max(0.0, (2.0 * a * dist + v0 * v0) / 2.0)
  }

  function PeakSpeed(sqrt: real -> real, dist: real, v0: real, lim: Limits): real {
    Min(lim.cruise, sqrt(Radicand(dist, v0, lim.accel)))
  }

  /** Distance covered while changing speed from v0 to v1 at the signed acceleration a1. */
  function RampDistance(v0: real, v1: real, a1: real): real
    requires a1 != 0.0
  {
    (v1 * v1 - v0 * v0) / (2.0 * a1)
  }

  function BrakeDistance(peak: real, a: real): real
    requires a != 0.0
  {
    peak * peak / (2.0 * a)
  }

  function Ratio(x: real, y: real): real
    requires y != 0.0
  {
    x / y
  }

  function Solve(sqrt: real -> real, dist: real, v0: real, lim: Limits): Plan
    requires lim.Accepted()
  {
    var a := lim.accel;
    var peak := PeakSpeed(sqrt, dist, v0, lim);
    var a1 := if peak >= v0 then a else -a;
    var d1 := RampDistance(v0, peak, a1);
    var d3 := BrakeDistance(peak, a);
    var d2 := Max(0.0, dist - d1 - d3);
    var t2 := if peak > MIN_PEAK then Ratio(d2, peak) else 0.0;
    Plan(peak, a1, Ratio(Abs(peak - v0), a), d1, t2, d2, Ratio(peak, a), d3)
  }

  /** Position, velocity and acceleration along the plan, dt after its start. */
  function Sample(p: Plan, v0: real, a: real, dt: real): State {
    if dt <= p.t1 then
      State(v0 * dt + 0.5 * p.a1 * dt * dt, v0 + p.a1 * dt, p.a1)
    else if dt <= p.t1 + p.t2 then
      State(p.d1 + p.peak * (dt - p.t1), p.peak, 0.0)
    else
      var tau := dt - p.t1 - p.t2;
      State(p.d1 + p.d2 + p.peak * tau - 0.5 * a * tau * tau, p.peak - a * tau, -a)
  }

  // ------------------------------------------------------------------ shape of one plan

  /** In the travel frame the stopping point is never past the goal. */
  predicate Ahead(dist: real, v0: real, a: real) { Signed(v0) <= 2.0 * a * dist }

  /** v * |v| */
  function Signed(v: real): real { if v >= 0.0 then v * v else -(v * v) }

  lemma Quotient(x: real, y: real)
    requires y != 0.0
    ensures y * (x / y) == x
    ensures x >= 0.0 && y > 0.0 ==> x / y >= 0.0
  {
  }

  lemma SqrtMonotone(sqrt: real -> real, x: real, c: real)
    requires IsSqrt(sqrt) && x >= 0.0 && c >= 0.0
    ensures x >= c * c ==> sqrt(x) >= c
    ensures x <= c * c ==> sqrt(x) <= c
    ensures x == c * c ==> sqrt(x) == c
  {
    var r := sqrt(x);
    assert r >= 0.0 && r * r == x;
    if r < c { SquareOrder(r, c); }
    if r > c { SquareOrder(c, r); }
  }

  /** The peak speed: cruise, or lower exactly when accelerating and braking meet first. */
  ghost predicate PeakShape(peak: real, dist: real, v0: real, lim: Limits) {
    && 0.0 <= peak <= lim.cruise
    && 2.0 * peak * peak <= 2.0 * lim.accel * dist + v0 * v0
    && (peak < lim.cruise ==> 2.0 * peak * peak == 2.0 * lim.accel * dist + v0 * v0)
    && (peak < v0 ==> peak == lim.cruise)
  }

  /** Phase 1 leads from v0 to the peak at the acceleration limit. */
  ghost predicate RampShape(a: real, peak: real, v0: real, a1: real, t1: real, d1: real) {
    && a1 == (if peak >= v0 then a else -a)
    && t1 >= 0.0
    && a1 * t1 == peak - v0
    && 2.0 * a1 * d1 == peak * peak - v0 * v0
  }

  /**
    Phase 2 covers the spare distance at the peak; only a move that reaches cruise speed has any.
    At a peak of MIN_PEAK or less the code gives it no time.
  */
  ghost predicate CruiseShape(peak: real, cruise: real, t2: real, d2: real) {
    && t2 >= 0.0 && d2 >= 0.0
    && (if peak > MIN_PEAK then peak * t2 == d2 else t2 == 0.0)
    && (peak < cruise ==> t2 == 0.0 && d2 == 0.0)
  }

  /** Phase 3 leads from the peak to rest at the acceleration limit. */
  ghost predicate BrakeShape(a: real, peak: real, t3: real, d3: real) {
    && t3 >= 0.0
    && a * t3 == peak
    && 2.0 * a * d3 == peak * peak
  }

  /** A trapezoid from speed v0 to rest over the distance dist, described without square root or division. */
  ghost predicate Shaped(p: Plan, dist: real, v0: real, lim: Limits) {
    && PeakShape(p.peak, dist, v0, lim)
    && RampShape(lim.accel, p.peak, v0, p.a1, p.t1, p.d1)
    && CruiseShape(p.peak, lim.cruise, p.t2, p.d2)
    && BrakeShape(lim.accel, p.peak, p.t3, p.d3)
    && p.Distance() == dist
  }

  lemma PeakFacts(sqrt: real -> real, dist: real, v0: real, lim: Limits)
    requires IsSqrt(sqrt) && lim.Accepted() && Ahead(dist, v0, lim.accel)
    ensures PeakShape(PeakSpeed(sqrt, dist, v0, lim), dist, v0, lim) && PeakSpeed(sqrt, dist, v0, lim) >= 0.0
  {
    var x := Radicand(dist, v0, lim.accel);
    assert 2.0 * x == 2.0 * lim.accel * dist + v0 * v0 && (v0 >= 0.0 ==> x >= v0 * v0) by {
      Positive(Abs(v0), Abs(v0));
    }
    PeakOf(lim.cruise, sqrt(x), x);
    SqrtMonotone(sqrt, x, lim.cruise);
    if v0 >= 0.0 { SqrtMonotone(sqrt, x, v0); }
  }

  lemma PeakOf(cruise: real, root: real, x: real)
    requires cruise >= 0.0 && root >= 0.0 && root * root == x
    ensures var peak := Min(cruise, root); peak * peak <= x && (peak < cruise ==> peak * peak == x)
  {
    if cruise < root { SquareOrder(cruise, root); }
  }

  lemma RampFacts(a: real, peak: real, v0: real)
    requires a > 0.0
    ensures var a1 := if peak >= v0 then a else -a;
            RampShape(a, peak, v0, a1, Ratio(Abs(peak - v0), a), RampDistance(v0, peak, a1))
  {
    Quotient(peak - v0, a);
    Quotient(v0 - peak, a);
    if peak >= v0 { Quotient(peak * peak - v0 * v0, 2.0 * a); } else { Quotient(peak * peak - v0 * v0, 2.0 * -a); }
  }

  lemma BrakeFacts(a: real, peak: real)
    requires a > 0.0 && peak >= 0.0
    ensures BrakeShape(a, peak, Ratio(peak, a), BrakeDistance(peak, a))
  {
    Quotient(peak, a);
    Quotient(peak * peak, 2.0 * a);
  }

  /** The ramp and the brake fit; when the peak is below cruise they fill the whole distance. */
  lemma RoomToCruise(peak: real, v0: real, dist: real, lim: Limits, a1: real, t1: real, d1: real, t3: real, d3: real)
    requires lim.Accepted() && Ahead(dist, v0, lim.accel) && PeakShape(peak, dist, v0, lim)
    requires RampShape(lim.accel, peak, v0, a1, t1, d1) && BrakeShape(lim.accel, peak, t3, d3)
    ensures dist - d1 - d3 >= 0.0
    ensures peak < lim.cruise ==> dist - d1 - d3 == 0.0
  {
    var a := lim.accel;
    RampDistanceTwice(a, peak, v0, a1, t1, d1);
    hide RampShape;
    Distribute(a, dist, d1, d3);
    SignOfProduct(2.0 * a, dist - d1 - d3);
    assert 2.0 * peak * peak == 2.0 * (peak * peak);
  }

  lemma RampDistanceTwice(a: real, peak: real, v0: real, a1: real, t1: real, d1: real)
    requires RampShape(a, peak, v0, a1, t1, d1)
    ensures 2.0 * a * d1 == if peak >= v0 then peak * peak - v0 * v0 else v0 * v0 - peak * peak
  {
    assert 2.0 * -a * d1 == -(2.0 * a * d1);
  }

  lemma Distribute(a: real, x: real, y: real, z: real)
    ensures 2.0 * a * (x - y - z) == 2.0 * a * x - 2.0 * a * y - 2.0 * a * z
  {
  }

  lemma SignOfProduct(x: real, y: real)
    requires x > 0.0
    ensures x * y >= 0.0 ==> y >= 0.0
    ensures x * y == 0.0 ==> y == 0.0
  {
    if y < 0.0 { Positive(x, -y); }
    if y > 0.0 { Positive(x, y); }
  }

  lemma CruiseFacts(peak: real, cruise: real, room: real)
    requires room >= 0.0 && (peak < cruise ==> room == 0.0)
    ensures CruiseShape(peak, cruise, if peak > MIN_PEAK then Ratio(Max(0.0, room), peak) else 0.0, Max(0.0, room))
  {
    if peak > MIN_PEAK { Quotient(room, peak); }
  }

  lemma PlanIsShaped(sqrt: real -> real, dist: real, v0: real, lim: Limits)
    requires IsSqrt(sqrt) && lim.Accepted() && Ahead(dist, v0, lim.accel)
    ensures Shaped(Solve(sqrt, dist, v0, lim), dist, v0, lim)
  {
    hide PeakShape, RampShape, CruiseShape, BrakeShape, Ahead, PeakSpeed, RampDistance, BrakeDistance, Ratio, Abs;
    var p := Solve(sqrt, dist, v0, lim);
    PeakFacts(sqrt, dist, v0, lim);
    RampFacts(lim.accel, p.peak, v0);
    BrakeFacts(lim.accel, p.peak);
    RoomToCruise(p.peak, v0, dist, lim, p.a1, p.t1, p.d1, p.t3, p.d3);
    var room := dist - p.d1 - p.d3;
    CruiseFacts(p.peak, lim.cruise, room);
    assert p.d2 == Max(0.0, room) == room;
  }

  lemma PeakIsUnique(p: real, q: real, dist: real, v0: real, lim: Limits)
    requires PeakShape(p, dist, v0, lim) && PeakShape(q, dist, v0, lim)
    ensures p == q
  {
    if p < q { SquareOrder(p, q); }
    if q < p { SquareOrder(q, p); }
  }

  lemma RampIsUnique(a: real, peak: real, v0: real, a1: real, t: real, d: real, t': real, d': real)
    requires a > 0.0 && RampShape(a, peak, v0, a1, t, d) && RampShape(a, peak, v0, a1, t', d')
    ensures t == t' && d == d'
  {
    Cancel(a1, t, t');
    Cancel(2.0 * a1, d, d');
  }

  lemma BrakeIsUnique(a: real, peak: real, t: real, d: real, t': real, d': real)
    requires a > 0.0 && BrakeShape(a, peak, t, d) && BrakeShape(a, peak, t', d')
    ensures t == t' && d == d'
  {
    Cancel(a, t, t');
    Cancel(2.0 * a, d, d');
  }

  lemma CruiseIsUnique(peak: real, cruise: real, t: real, d: real, t': real)
    requires 0.0 <= peak && cruise > 0.0 && CruiseShape(peak, cruise, t, d) && CruiseShape(peak, cruise, t', d)
    ensures t == t'
  {
    if peak > MIN_PEAK {
      assert peak * t == d && peak * t' == d;
      Cancel(peak, t, t');
    }
  }

  /** A start has only one trapezoid. */
  lemma ShapeIsUnique(p: Plan, q: Plan, dist: real, v0: real, lim: Limits)
    requires lim.Accepted() && Shaped(p, dist, v0, lim) && Shaped(q, dist, v0, lim)
    ensures p == q
  {
    PeakIsUnique(p.peak, q.peak, dist, v0, lim);
    assert p.peak >= 0.0 && p.a1 == q.a1;
    hide PeakShape, RampShape, CruiseShape, BrakeShape;
    RampIsUnique(lim.accel, p.peak, v0, p.a1, p.t1, p.d1, q.t1, q.d1);
    BrakeIsUnique(lim.accel, p.peak, p.t3, p.d3, q.t3, q.d3);
    CruiseIsUnique(p.peak, lim.cruise, p.t2, p.d2, q.t2);
  }

  lemma ShapeBounds(p: Plan, dist: real, v0: real, lim: Limits)
    requires Shaped(p, dist, v0, lim)
    ensures p.t1 >= 0.0 && p.t2 >= 0.0 && p.t3 >= 0.0 && p.d2 >= 0.0 && 0.0 <= p.peak <= lim.cruise
  {
  }

  // ------------------------------------------------------------------ the rest of a plan is a plan

  /** The rest of a plan, t after its start. */
  function Rest(p: Plan, v0: real, a: real, t: real): Plan {
    var x := Sample(p, v0, a, t);
    if t <= p.t1 then
      p.(a1 := if p.peak >= x.vel then a else -a, t1 := p.t1 - t, d1 := p.d1 - x.pos)
    else if t <= p.t1 + p.t2 then
      Plan(p.peak, a, 0.0, 0.0, p.t1 + p.t2 - t, p.d1 + p.d2 - x.pos, p.t3, p.d3)
    else
      Plan(x.vel, a, 0.0, 0.0, 0.0, 0.0, p.Time() - t, p.Distance() - x.pos)
  }

  lemma SampleInRamp(p: Plan, v0: real, a: real, t: real, x: State)
    requires t <= p.t1 && x == Sample(p, v0, a, t)
    ensures x.vel == v0 + p.a1 * t
    ensures 2.0 * p.a1 * x.pos == x.vel * x.vel - v0 * v0
  {
    RampKinematics(v0, p.a1, t);
  }

  lemma RampKinematics(v0: real, a1: real, t: real)
    ensures 2.0 * a1 * (v0 * t + 0.5 * a1 * t * t) == (v0 + a1 * t) * (v0 + a1 * t) - v0 * v0
  {
  }

  lemma RestOfRamp(a: real, peak: real, v0: real, a1: real, t1: real, d1: real, t: real, v: real, x: real)
    requires a > 0.0 && RampShape(a, peak, v0, a1, t1, d1) && 0.0 <= t <= t1
    requires v == v0 + a1 * t && 2.0 * a1 * x == v * v - v0 * v0
    ensures RampShape(a, peak, v, if peak >= v then a else -a, t1 - t, d1 - x)
    ensures if peak >= v0 then v0 <= v <= peak && a1 == a else peak <= v <= v0 && a1 == -a
  {
    assert a1 * (t1 - t) == peak - v;
    assert 2.0 * a1 * (d1 - x) == 2.0 * a1 * d1 - 2.0 * a1 * x;
    Positive(a, t1 - t);
    Positive(a, t);
    if peak == v {
      Cancel(a, t1 - t, 0.0);
      Cancel(2.0 * a1, d1 - x, 0.0);
    }
  }

  lemma PeakInRamp(peak: real, dist: real, v0: real, lim: Limits, a1: real, v: real, x: real)
    requires lim.Accepted() && Ahead(dist, v0, lim.accel) && PeakShape(peak, dist, v0, lim)
    requires 2.0 * a1 * x == v * v - v0 * v0
    requires if peak >= v0 then v0 <= v <= peak && a1 == lim.accel else peak <= v <= v0 && a1 == -lim.accel
    ensures PeakShape(peak, dist - x, v, lim) && Ahead(dist - x, v, lim.accel)
  {
    var a := lim.accel;
    assert 2.0 * a * (dist - x) == 2.0 * a * dist - 2.0 * a * x;
    Positive(peak, peak);
    if peak >= v0 {
      assert 2.0 * a * (dist - x) + v * v == 2.0 * a * dist + v0 * v0;
      if 0.0 <= v < peak { SquareOrder(v, peak); }
    } else {
      if peak < v { SquareOrder(peak, v); }
    }
  }

  lemma RestInRamp(p: Plan, dist: real, v0: real, lim: Limits, t: real, x: State)
    requires lim.Accepted() && Ahead(dist, v0, lim.accel) && Shaped(p, dist, v0, lim) && 0.0 <= t <= p.t1
    requires x == Sample(p, v0, lim.accel, t)
    ensures Ahead(dist - x.pos, x.vel, lim.accel) && Shaped(Rest(p, v0, lim.accel, t), dist - x.pos, x.vel, lim)
  {
    hide Sample, PeakShape, RampShape, CruiseShape, BrakeShape, Ahead;
    SampleInRamp(p, v0, lim.accel, t, x);
    RestOfRamp(lim.accel, p.peak, v0, p.a1, p.t1, p.d1, t, x.vel, x.pos);
    PeakInRamp(p.peak, dist, v0, lim, p.a1, x.vel, x.pos);
  }

  lemma RestOfCruise(peak: real, lim: Limits, t2: real, d2: real, t3: real, d3: real, t: real, rest: real)
    requires lim.Accepted() && CruiseShape(peak, lim.cruise, t2, d2) && BrakeShape(lim.accel, peak, t3, d3)
    requires 0.0 < t <= t2 && peak <= lim.cruise && rest == d2 - peak * t
    ensures peak == lim.cruise
    ensures CruiseShape(peak, lim.cruise, t2 - t, rest)
    ensures PeakShape(peak, rest + d3, peak, lim) && Ahead(rest + d3, peak, lim.accel)
    ensures RampShape(lim.accel, peak, peak, lim.accel, 0.0, 0.0)
  {
    assert rest == peak * (t2 - t);
    Positive(peak, t2 - t);
    Positive(2.0 * lim.accel, rest);
    assert 2.0 * lim.accel * (rest + d3) == 2.0 * lim.accel * rest + peak * peak;
  }

  lemma SampleInCruise(p: Plan, v0: real, a: real, t: real, x: State)
    requires p.t1 < t <= p.t1 + p.t2 && x == Sample(p, v0, a, t)
    ensures x.vel == p.peak && p.d1 + p.d2 - x.pos == p.d2 - p.peak * (t - p.t1)
  {
  }

  lemma RestInCruise(p: Plan, dist: real, v0: real, lim: Limits, t: real, x: State)
    requires lim.Accepted() && Shaped(p, dist, v0, lim) && p.t1 < t <= p.t1 + p.t2
    requires x == Sample(p, v0, lim.accel, t)
    ensures Ahead(dist - x.pos, x.vel, lim.accel) && Shaped(Rest(p, v0, lim.accel, t), dist - x.pos, x.vel, lim)
  {
    ShapeBounds(p, dist, v0, lim);
    hide Sample, PeakShape, RampShape, CruiseShape, BrakeShape, Ahead;
    SampleInCruise(p, v0, lim.accel, t, x);
    RestOfCruise(p.peak, lim, p.t2, p.d2, p.t3, p.d3, t - p.t1, p.d1 + p.d2 - x.pos);
    assert dist - x.pos == p.d1 + p.d2 - x.pos + p.d3;
  }

  lemma BrakeKinematics(a: real, peak: real, tau: real, t3: real, d3: real, v: real, y: real)
    requires a * t3 == peak && 2.0 * a * d3 == peak * peak
    requires v == peak - a * tau && y == peak * tau - 0.5 * a * tau * tau
    ensures 2.0 * a * (d3 - y) == v * v && a * (t3 - tau) == v
    ensures a > 0.0 && tau >= 0.0 ==> v <= peak
  {
    Positive(a, tau);
    assert 2.0 * a * y == 2.0 * a * peak * tau - a * a * tau * tau;
    assert v * v == peak * peak - 2.0 * a * peak * tau + a * a * tau * tau;
    assert 2.0 * a * (d3 - y) == 2.0 * a * d3 - 2.0 * a * y;
  }

  lemma RestOfBraking(lim: Limits, v: real, left: real, room: real)
    requires lim.Accepted() && v <= lim.cruise && left >= 0.0
    requires 2.0 * lim.accel * room == v * v && lim.accel * left == v
    ensures BrakeShape(lim.accel, v, left, room)
    ensures PeakShape(v, room, v, lim) && Ahead(room, v, lim.accel)
    ensures RampShape(lim.accel, v, v, lim.accel, 0.0, 0.0) && CruiseShape(v, lim.cruise, 0.0, 0.0)
  {
    Positive(lim.accel, left);
  }

  lemma SampleInBraking(p: Plan, v0: real, lim: Limits, t: real, x: State)
    requires lim.Accepted() && BrakeShape(lim.accel, p.peak, p.t3, p.d3)
    requires p.t1 + p.t2 < t && p.t2 >= 0.0 && x == Sample(p, v0, lim.accel, t)
    ensures var left, room := p.Time() - t, p.Distance() - x.pos;
            x.vel <= p.peak && 2.0 * lim.accel * room == x.vel * x.vel && lim.accel * left == x.vel
  {
    var tau, y := t - p.t1 - p.t2, x.pos - p.d1 - p.d2;
    BrakeKinematics(lim.accel, p.peak, tau, p.t3, p.d3, x.vel, y);
  }

  lemma BrakingIsShaped(q: Plan, lim: Limits, v: real, left: real, room: real)
    requires lim.Accepted() && v <= lim.cruise && left >= 0.0
    requires 2.0 * lim.accel * room == v * v && lim.accel * left == v
    requires q == Plan(v, lim.accel, 0.0, 0.0, 0.0, 0.0, left, room)
    ensures Ahead(room, v, lim.accel) && Shaped(q, room, v, lim)
  {
    RestOfBraking(lim, v, left, room);
    hide PeakShape, RampShape, CruiseShape, BrakeShape, Ahead;
  }

  lemma RestInBraking(p: Plan, dist: real, v0: real, lim: Limits, t: real, x: State)
    requires lim.Accepted() && Shaped(p, dist, v0, lim) && p.t1 + p.t2 < t <= p.Time()
    requires x == Sample(p, v0, lim.accel, t)
    ensures Ahead(dist - x.pos, x.vel, lim.accel) && Shaped(Rest(p, v0, lim.accel, t), dist - x.pos, x.vel, lim)
  {
    hide Sample, PeakShape, RampShape, CruiseShape, BrakeShape, Ahead;
    ShapeBounds(p, dist, v0, lim);
    SampleInBraking(p, v0, lim, t, x);
    hide Shaped;
    assert p.Distance() == dist by { ShapeDistance(p, dist, v0, lim); }
    BrakingIsShaped(Rest(p, v0, lim.accel, t), lim, x.vel, p.Time() - t, dist - x.pos);
  }

  lemma ShapeDistance(p: Plan, dist: real, v0: real, lim: Limits)
    requires Shaped(p, dist, v0, lim)
    ensures p.Distance() == dist
  {
  }

  /** Stopping anywhere along a trapezoid leaves a trapezoid. */
  lemma RestIsShaped(p: Plan, dist: real, v0: real, lim: Limits, t: real)
    requires lim.Accepted() && Ahead(dist, v0, lim.accel) && Shaped(p, dist, v0, lim) && 0.0 <= t <= p.Time()
    ensures var x := Sample(p, v0, lim.accel, t);
            Ahead(dist - x.pos, x.vel, lim.accel) && Shaped(Rest(p, v0, lim.accel, t), dist - x.pos, x.vel, lim)
  {
    var x := Sample(p, v0, lim.accel, t);
    if t <= p.t1 { RestInRamp(p, dist, v0, lim, t, x); }
    else if t <= p.t1 + p.t2 { RestInCruise(p, dist, v0, lim, t, x); }
    else { RestInBraking(p, dist, v0, lim, t, x); }
  }

  // ------------------------------------------------------------------ two samples make one

  /** The state y, reached u after the state x. */
  function After(x: State, y: State): State { State(x.pos + y.pos, y.vel, y.acc) }

  /** Equal position and velocity, and equal acceleration unless no time has passed since the re-solve. */
  predicate Agree(x: State, y: State, u: real) { x.pos == y.pos && x.vel == y.vel && (u > 0.0 ==> x.acc == y.acc) }

  lemma RampSplits(v0: real, a1: real, t: real, u: real)
    ensures v0 * (t + u) + 0.5 * a1 * (t + u) * (t + u)
         == v0 * t + 0.5 * a1 * t * t + ((v0 + a1 * t) * u + 0.5 * a1 * u * u)
    ensures v0 + a1 * (t + u) == v0 + a1 * t + a1 * u
  {
  }

  ghost predicate Continues(p: Plan, v0: real, a: real, t: real, u: real) {
    var x := Sample(p, v0, a, t);
    Agree(Sample(p, v0, a, t + u), After(x, Sample(Rest(p, v0, a, t), x.vel, a, u)), u)
  }

  lemma RampEndsAtPeak(a: real, peak: real, v0: real, a1: real, t1: real, d1: real, t: real)
    requires a > 0.0 && RampShape(a, peak, v0, a1, t1, d1) && t <= t1
    ensures t < t1 ==> a1 == (if peak >= v0 + a1 * t then a else -a)
  {
    assert a1 * (t1 - t) == peak - (v0 + a1 * t);
    Positive(a, t1 - t);
  }

  /** pos and vel are reached in t from speed v0 at the acceleration a1. */
  predicate Ramps(v0: real, a1: real, t: real, pos: real, vel: real) {
    pos == v0 * t + 0.5 * a1 * t * t && vel == v0 + a1 * t
  }

  lemma RampSample(p: Plan, v0: real, a: real, t: real)
    requires t <= p.t1
    ensures var x := Sample(p, v0, a, t); Ramps(v0, p.a1, t, x.pos, x.vel) && x.acc == p.a1
  {
  }

  lemma RampsJoin(v0: real, a1: real, t: real, x: State, u: real, y: State, z: State)
    requires Ramps(v0, a1, t, x.pos, x.vel) && Ramps(x.vel, a1, u, y.pos, y.vel) && Ramps(v0, a1, t + u, z.pos, z.vel)
    ensures z.pos == x.pos + y.pos && z.vel == y.vel
  {
    RampSplits(v0, a1, t, u);
  }

  lemma NoTimeNoRamp(v0: real, a1: real, y: State)
    requires Ramps(v0, a1, 0.0, y.pos, y.vel)
    ensures y.pos == 0.0 && y.vel == v0
  {
  }

  lemma RampVelocity(v0: real, a1: real, t: real, x: State)
    requires Ramps(v0, a1, t, x.pos, x.vel)
    ensures x.vel == v0 + a1 * t
  {
  }

  lemma ContinuesInRamp(p: Plan, v0: real, a: real, t: real, u: real)
    requires 0.0 <= t && 0.0 <= u && t + u <= p.t1
    requires t < p.t1 ==> p.a1 == (if p.peak >= v0 + p.a1 * t then a else -a)
    ensures Continues(p, v0, a, t, u)
  {
    var x, q := Sample(p, v0, a, t), Rest(p, v0, a, t);
    assert q.t1 == p.t1 - t && q.a1 == (if p.peak >= x.vel then a else -a);
    hide Sample, Rest, Ramps;
    var y, z := Sample(q, x.vel, a, u), Sample(p, v0, a, t + u);
    RampSample(p, v0, a, t);
    RampSample(p, v0, a, t + u);
    RampSample(q, x.vel, a, u);
    if t < p.t1 {
      RampVelocity(v0, p.a1, t, x);
      RampsJoin(v0, p.a1, t, x, u, y, z);
    } else {
      NoTimeNoRamp(x.vel, q.a1, y);
    }
  }

  /** Cruise and brake, s after the end of the ramp. */
  function Late(peak: real, t2: real, d2: real, a: real, s: real): State {
    if s <= t2 then State(peak * s, peak, 0.0)
    else State(d2 + peak * (s - t2) - 0.5 * a * (s - t2) * (s - t2), peak - a * (s - t2), -a)
  }

  /** The sample s after the end of the ramp. */
  lemma SampleAfterRamp(p: Plan, v0: real, a: real, t: real, s: real)
    requires t > p.t1 && s == t - p.t1
    ensures var x, y := Sample(p, v0, a, t), Late(p.peak, p.t2, p.d2, a, s);
            x.pos == p.d1 + y.pos && x.vel == y.vel && x.acc == y.acc
  {
  }

  lemma LaterSample(p: Plan, q: Plan, v0: real, w0: real, a: real, t: real, u: real)
    requires t > p.t1 && t - p.t1 == u - q.t1 && q.t2 == p.t2 && q.peak == p.peak && q.d2 == p.d2
    ensures var x, y := Sample(p, v0, a, t), Sample(q, w0, a, u);
            x.pos - p.d1 == y.pos - q.d1 && x.vel == y.vel && x.acc == y.acc
  {
    hide Sample, Late;
    SampleAfterRamp(p, v0, a, t, t - p.t1);
    SampleAfterRamp(q, w0, a, u, t - p.t1);
  }

  lemma ContinuesFromRamp(p: Plan, v0: real, a: real, t: real, u: real)
    requires 0.0 <= t <= p.t1 < t + u && 0.0 <= u && p.t2 >= 0.0
    ensures Continues(p, v0, a, t, u)
  {
    hide Sample;
    var x, q := Sample(p, v0, a, t), Rest(p, v0, a, t);
    assert q.t1 == p.t1 - t && q.d1 == p.d1 - x.pos && q.d2 == p.d2 && q.t2 == p.t2 && q.peak == p.peak;
    LaterSample(p, q, v0, x.vel, a, t + u, u);
  }

  /** The rest of a cruise, s after the end of the ramp, continues it. */
  lemma LateContinues(peak: real, t2: real, d2: real, a: real, s: real, u: real, r2: real, e2: real)
    requires s <= t2 && r2 == t2 - s && e2 == d2 - Late(peak, t2, d2, a, s).pos
    ensures var x, y, z := Late(peak, t2, d2, a, s), Late(peak, r2, e2, a, u), Late(peak, t2, d2, a, s + u);
            z.pos == x.pos + y.pos && z.vel == y.vel && z.acc == y.acc
  {
    var late := u - r2;
    assert s + u - t2 == late;
    assert peak * (s + u) == peak * s + peak * u;
  }

  lemma ContinuesFromCruise(p: Plan, v0: real, a: real, t: real, u: real)
    requires 0.0 <= p.t1 < t <= p.t1 + p.t2 && 0.0 <= u
    ensures Continues(p, v0, a, t, u)
  {
    var x, q := Sample(p, v0, a, t), Rest(p, v0, a, t);
    assert q == Plan(p.peak, a, 0.0, 0.0, p.t1 + p.t2 - t, p.d1 + p.d2 - x.pos, p.t3, p.d3);
    if u > 0.0 {
      hide Sample, Rest, Late;
      var s := t - p.t1;
      SampleAfterRamp(p, v0, a, t, s);
      SampleAfterRamp(p, v0, a, t + u, s + u);
      SampleAfterRamp(q, x.vel, a, u, u);
      LateContinues(p.peak, p.t2, p.d2, a, s, u, q.t2, q.d2);
    }
  }

  lemma ContinuesInBraking(p: Plan, v0: real, a: real, t: real, u: real)
    requires 0.0 <= p.t1 && 0.0 <= p.t2 && p.t1 + p.t2 < t && 0.0 <= u
    ensures Continues(p, v0, a, t, u)
  {
    RampSplits(p.peak, -a, t - p.t1 - p.t2, u);
  }

  /** Following the plan for t and then its rest for u is following it for t + u. */
  lemma RestContinues(p: Plan, dist: real, v0: real, lim: Limits, t: real, u: real)
    requires lim.Accepted() && Shaped(p, dist, v0, lim) && 0.0 <= t && 0.0 <= u && t + u <= p.Time()
    ensures Continues(p, v0, lim.accel, t, u)
  {
    ShapeBounds(p, dist, v0, lim);
    hide Sample, PeakShape, RampShape, CruiseShape, BrakeShape, Continues;
    var a := lim.accel;
    if t + u <= p.t1 {
      RampEndsAtPeak(a, p.peak, v0, p.a1, p.t1, p.d1, t);
      ContinuesInRamp(p, v0, a, t, u);
    } else if t <= p.t1 {
      ContinuesFromRamp(p, v0, a, t, u);
    } else if t <= p.t1 + p.t2 {
      ContinuesFromCruise(p, v0, a, t, u);
    } else {
      ContinuesInBraking(p, v0, a, t, u);
    }
  }
}
