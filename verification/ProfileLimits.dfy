/** The limits the profile keeps on every step: acceleration, speed, travel and stopping point. */
module ProfileLimits {
  import opened Arithmetic
  import opened Profile
  import opened Trapezoid

  /** The speed no step exceeds. */
  function TopSpeed(v: real, lim: Limits): real { Max(Abs(v), lim.cruise) }

  lemma MeanSpeed(v: real, w: real, top: real, t: real, x: real)
    requires -top <= v <= top && -top <= w <= top && t >= 0.0 && x == 0.5 * (v + w) * t
    ensures -(top * t) <= x <= top * t
  {
    Positive(top - 0.5 * (v + w), t);
    Positive(top + 0.5 * (v + w), t);
  }

  /** x is reached within the limits, t after a start at speed v0. */
  ghost predicate Within(pos: real, vel: real, v0: real, a: real, top: real, t: real) {
    && -top <= vel <= top
    && -(a * t) <= vel - v0 <= a * t
    && -(top * t) <= pos <= top * t
  }

  lemma RampWithin(a: real, peak: real, v0: real, a1: real, t1: real, d1: real, t: real, v: real, x: real, top: real)
    requires a > 0.0 && RampShape(a, peak, v0, a1, t1, d1) && 0.0 <= t <= t1
    requires v == v0 + a1 * t && x == v0 * t + 0.5 * a1 * t * t
    requires -top <= v0 <= top && 0.0 <= peak <= top
    ensures Within(x, v, v0, a, top, t)
  {
    RampSigns(a, peak, v0, a1, t1, d1);
    hide RampShape;
    RampStaysBetween(a, peak, v0, a1, t1, t, v);
    RampMean(v0, a1, t, v, x);
    MeanSpeed(v0, v, top, t, x);
    RampSpeed(a, a1, t, v - v0);
  }

  lemma RampSigns(a: real, peak: real, v0: real, a1: real, t1: real, d1: real)
    requires RampShape(a, peak, v0, a1, t1, d1)
    ensures (a1 == a || a1 == -a) && a1 * t1 == peak - v0
  {
  }

  lemma RampStaysBetween(a: real, peak: real, v0: real, a1: real, t1: real, t: real, v: real)
    requires a > 0.0 && (a1 == a || a1 == -a) && a1 * t1 == peak - v0 && 0.0 <= t <= t1 && v == v0 + a1 * t
    ensures Min(v0, peak) <= v <= Max(v0, peak)
  {
    Positive(a, t);
    Positive(a, t1 - t);
    assert a * (t1 - t) == a * t1 - a * t;
  }

  lemma RampSpeed(a: real, a1: real, t: real, gain: real)
    requires a > 0.0 && (a1 == a || a1 == -a) && t >= 0.0 && gain == a1 * t
    ensures -(a * t) <= gain <= a * t
  {
    Positive(a, t);
  }

  lemma RampMean(v0: real, a1: real, t: real, v: real, x: real)
    requires v == v0 + a1 * t && x == v0 * t + 0.5 * a1 * t * t
    ensures x == 0.5 * (v0 + v) * t
  {
  }

  lemma WithinThenWithin(x: real, v: real, y: real, w: real, v0: real, a: real, top: real, t: real, u: real)
    requires Within(x, v, v0, a, top, t) && Within(y, w, v, a, top, u)
    ensures Within(x + y, w, v0, a, top, t + u)
  {
    assert a * (t + u) == a * t + a * u && top * (t + u) == top * t + top * u;
  }

  lemma CruiseWithin(peak: real, a: real, top: real, u: real)
    requires a > 0.0 && 0.0 <= peak <= top && u >= 0.0
    ensures Within(peak * u, peak, peak, a, top, u)
  {
    Positive(a, u);
    Positive(peak, u);
    Positive(top - peak, u);
    Positive(top, u);
  }

  lemma BrakeWithin(a: real, peak: real, t3: real, d3: real, top: real, u: real, v: real, y: real)
    requires a > 0.0 && BrakeShape(a, peak, t3, d3) && 0.0 <= peak <= top && 0.0 <= u <= t3
    requires v == peak - a * u && y == peak * u - 0.5 * a * u * u
    ensures Within(y, v, peak, a, top, u)
  {
    Positive(a, u);
    Positive(a, t3 - u);
    MeanSpeed(peak, v, top, u, y);
  }

  lemma BrakeEnds(a: real, peak: real, t3: real, d3: real)
    requires a > 0.0 && BrakeShape(a, peak, t3, d3)
    ensures d3 == peak * t3 - 0.5 * a * t3 * t3
  {
    BrakeKinematics(a, peak, t3, t3, d3, 0.0, peak * t3 - 0.5 * a * t3 * t3);
    Cancel(2.0 * a, d3 - (peak * t3 - 0.5 * a * t3 * t3), 0.0);
  }

  lemma RampEndsWithin(a: real, peak: real, v0: real, a1: real, t1: real, d1: real, top: real)
    requires a > 0.0 && RampShape(a, peak, v0, a1, t1, d1)
    requires -top <= v0 <= top && 0.0 <= peak <= top
    ensures Within(d1, peak, v0, a, top, t1)
  {
    RampCovers(v0, a1, t1, peak, d1);
    hide Within;
    RampWithin(a, peak, v0, a1, t1, d1, t1, peak, d1, top);
  }

  lemma BrakeEndsWithin(a: real, peak: real, t3: real, d3: real, top: real)
    requires a > 0.0 && BrakeShape(a, peak, t3, d3) && 0.0 <= peak <= top
    ensures Within(d3, 0.0, peak, a, top, t3)
  {
    BrakeEnds(a, peak, t3, d3);
    hide Within;
    BrakeWithin(a, peak, t3, d3, top, t3, 0.0, d3);
  }

  /** The phases of a plan follow each other at speeds of at most cruise, and the cruise covers what its time allows. */
  ghost predicate Glides(p: Plan, v0: real, lim: Limits) {
    && 0.0 <= p.peak <= lim.cruise && p.t2 >= 0.0 && p.d2 == p.peak * p.t2
    && RampShape(lim.accel, p.peak, v0, p.a1, p.t1, p.d1) && BrakeShape(lim.accel, p.peak, p.t3, p.d3)
  }

  /** The plan without the distance it jumps over. */
  function Glide(p: Plan): Plan { p.(d2 := p.peak * p.t2) }

  /** Only a cruise speed too small for the code to use makes a plan jump, and its speeds are those of its glide. */
  lemma ShapedGlides(p: Plan, dist: real, v0: real, lim: Limits)
    requires lim.Accepted() && Shaped(p, dist, v0, lim)
    ensures Glides(Glide(p), v0, lim) && Glide(p).Time() == p.Time()
    ensures lim.cruise > MIN_PEAK ==> Glide(p) == p
  {
    hide PeakShape, RampShape, CruiseShape, BrakeShape;
    ShapeBounds(p, dist, v0, lim);
    if lim.cruise > MIN_PEAK { CruiseCovers(p, dist, v0, lim); }
  }

  /** Cruise covers exactly the spare distance, unless the cruise speed is too small for the code to use. */
  lemma CruiseCovers(p: Plan, dist: real, v0: real, lim: Limits)
    requires Shaped(p, dist, v0, lim) && lim.cruise > MIN_PEAK
    ensures p.d2 == p.peak * p.t2
  {
  }

  lemma GlideKeepsSpeed(p: Plan, v0: real, a: real, t: real)
    ensures Sample(Glide(p), v0, a, t).vel == Sample(p, v0, a, t).vel
  {
  }

  lemma RampIsNotNegative(a: real, peak: real, v0: real, a1: real, t1: real, d1: real)
    requires RampShape(a, peak, v0, a1, t1, d1)
    ensures t1 >= 0.0
  {
  }

  /** The ends of the first two phases. */
  lemma PhasesWithin(p: Plan, v0: real, lim: Limits, top: real)
    requires lim.Accepted() && Glides(p, v0, lim) && -top <= v0 <= top && lim.cruise <= top
    ensures p.t1 >= 0.0 && Within(p.d1, p.peak, v0, lim.accel, top, p.t1)
    ensures Within(p.d1 + p.d2, p.peak, v0, lim.accel, top, p.t1 + p.t2)
  {
    hide Within, RampShape, BrakeShape;
    RampIsNotNegative(lim.accel, p.peak, v0, p.a1, p.t1, p.d1);
    RampEndsWithin(lim.accel, p.peak, v0, p.a1, p.t1, p.d1, top);
    CruiseWithin(p.peak, lim.accel, top, p.t2);
    WithinThenWithin(p.d1, p.peak, p.d2, p.peak, v0, lim.accel, top, p.t1, p.t2);
  }

  lemma RampSampleWithin(p: Plan, v0: real, a: real, top: real, t: real, x: State)
    requires a > 0.0 && RampShape(a, p.peak, v0, p.a1, p.t1, p.d1) && 0.0 <= t <= p.t1
    requires -top <= v0 <= top && 0.0 <= p.peak <= top && x == Sample(p, v0, a, t)
    ensures Within(x.pos, x.vel, v0, a, top, t)
  {
    hide Within, RampShape;
    RampWithin(a, p.peak, v0, p.a1, p.t1, p.d1, t, x.vel, x.pos, top);
  }

  lemma CruiseSampleWithin(p: Plan, v0: real, a: real, top: real, t: real, x: State)
    requires a > 0.0 && 0.0 <= p.peak <= top && p.t1 < t <= p.t1 + p.t2 && x == Sample(p, v0, a, t)
    requires Within(p.d1, p.peak, v0, a, top, p.t1)
    ensures Within(x.pos, x.vel, v0, a, top, t)
  {
    var u, y := t - p.t1, p.peak * (t - p.t1);
    hide Within, Sample;
    SampleInCruise(p, v0, a, t, x);
    assert x.pos == p.d1 + y && t == p.t1 + u;
    CruiseWithin(p.peak, a, top, u);
    WithinThenWithin(p.d1, p.peak, y, p.peak, v0, a, top, p.t1, u);
  }

  lemma BrakeSampleWithin(p: Plan, v0: real, a: real, top: real, t: real, x: State)
    requires a > 0.0 && BrakeShape(a, p.peak, p.t3, p.d3) && 0.0 <= p.peak <= top && p.t2 >= 0.0
    requires p.t1 + p.t2 < t <= p.Time() && x == Sample(p, v0, a, t)
    requires Within(p.d1 + p.d2, p.peak, v0, a, top, p.t1 + p.t2)
    ensures Within(x.pos, x.vel, v0, a, top, t)
  {
    hide Within, BrakeShape;
    var tau := t - p.t1 - p.t2;
    BrakeWithin(a, p.peak, p.t3, p.d3, top, tau, x.vel, x.pos - p.d1 - p.d2);
    WithinThenWithin(p.d1 + p.d2, p.peak, x.pos - p.d1 - p.d2, x.vel, v0, a, top, p.t1 + p.t2, tau);
  }

  lemma SampleWithin(p: Plan, v0: real, lim: Limits, top: real, t: real, x: State)
    requires lim.Accepted() && Glides(p, v0, lim) && -top <= v0 <= top && lim.cruise <= top
    requires 0.0 <= t <= p.Time() && x == Sample(p, v0, lim.accel, t)
    ensures Within(x.pos, x.vel, v0, lim.accel, top, t)
  {
    hide Within, RampShape, BrakeShape, Sample;
    PhasesWithin(p, v0, lim, top);
    if t <= p.t1 {
      RampSampleWithin(p, v0, lim.accel, top, t, x);
    } else if t <= p.t1 + p.t2 {
      CruiseSampleWithin(p, v0, lim.accel, top, t, x);
    } else {
      BrakeSampleWithin(p, v0, lim.accel, top, t, x);
    }
  }

  lemma ArrivalWithin(p: Plan, v0: real, lim: Limits, top: real)
    requires lim.Accepted() && Glides(p, v0, lim) && -top <= v0 <= top && lim.cruise <= top
    ensures Within(p.Distance(), 0.0, v0, lim.accel, top, p.Time())
  {
    hide Within, RampShape, BrakeShape;
    PhasesWithin(p, v0, lim, top);
    BrakeEndsWithin(lim.accel, p.peak, p.t3, p.d3, top);
    WithinThenWithin(p.d1 + p.d2, p.peak, p.d3, 0.0, v0, lim.accel, top, p.t1 + p.t2, p.t3);
  }

  /** x changes at a rate of at most c over t. */
  predicate Bounded(x: real, c: real, t: real) { Abs(x) <= c * t }

  /** The limits of one step from s to s' in dt; on travel only where the code can use the cruise speed. */
  predicate StepsWithin(s: State, s': State, lim: Limits, dt: real) {
    && Abs(s'.vel) <= TopSpeed(s.vel, lim)
    && Bounded(s'.vel - s.vel, lim.accel, dt)
    && (lim.cruise > MIN_PEAK ==> Bounded(s'.pos - s.pos, TopSpeed(s.vel, lim), dt))
  }

  lemma WithinInFrame(d: real, x: State, s: State, s': State, lim: Limits, t: real, dt: real)
    requires (d == 1.0 || d == -1.0) && lim.Accepted() && dt >= t
    requires Within(x.pos, x.vel, Speed(d, s), lim.accel, TopSpeed(s.vel, lim), t)
    requires s'.vel == d * x.vel && (lim.cruise > MIN_PEAK ==> s'.pos == s.pos + d * x.pos)
    ensures StepsWithin(s, s', lim, dt)
  {
    var top := TopSpeed(s.vel, lim);
    assert top >= 0.0;
    hide TopSpeed;
    WithinLonger(x, Speed(d, s), lim.accel, top, t, dt);
    if d == 1.0 { assert Speed(d, s) == s.vel; } else { assert Speed(d, s) == -s.vel; }
  }

  lemma WithinLonger(x: State, v0: real, a: real, top: real, t: real, dt: real)
    requires a > 0.0 && top >= 0.0 && dt >= t && Within(x.pos, x.vel, v0, a, top, t)
    ensures Within(x.pos, x.vel, v0, a, top, dt)
  {
    Positive(a, dt - t);
    Positive(top, dt - t);
  }

  lemma SpeedBelowTop(d: real, s: State, lim: Limits)
    requires (d == 1.0 || d == -1.0) && lim.Accepted()
    ensures var top := TopSpeed(s.vel, lim); -top <= Speed(d, s) <= top && lim.cruise <= top
  {
  }

  lemma ArrivalStepsWithin(d: real, p: Plan, s: State, goal: real, lim: Limits, dt: real)
    requires lim.Accepted() && PlanIn(d, p, s, goal, lim) && dt >= p.Time()
    ensures StepsWithin(s, State(goal, 0.0, 0.0), lim, dt)
  {
    SpeedBelowTop(d, s, lim);
    assert s.pos + d * Dist(d, s, goal) == goal && p.Distance() == Dist(d, s, goal);
    hide Shaped, Ahead, Within, Speed, TopSpeed, StepsWithin, Dist, Glides, Glide;
    ShapedGlides(p, Dist(d, s, goal), Speed(d, s), lim);
    var q := Glide(p);
    ArrivalWithin(q, Speed(d, s), lim, TopSpeed(s.vel, lim));
    WithinInFrame(d, State(q.Distance(), 0.0, 0.0), s, State(goal, 0.0, 0.0), lim, p.Time(), dt);
  }

  lemma SampleStepsWithin(d: real, p: Plan, s: State, goal: real, lim: Limits, dt: real)
    requires lim.Accepted() && PlanIn(d, p, s, goal, lim) && 0.0 <= dt < p.Time()
    ensures StepsWithin(s, Follow(d, p, s, goal, lim.accel, dt), lim, dt)
  {
    SpeedBelowTop(d, s, lim);
    hide Shaped, Ahead, Within, Speed, TopSpeed, Sample, StepsWithin, Dist, Glides, Glide;
    ShapedGlides(p, Dist(d, s, goal), Speed(d, s), lim);
    var x := Sample(Glide(p), Speed(d, s), lim.accel, dt);
    GlideKeepsSpeed(p, Speed(d, s), lim.accel, dt);
    SampleWithin(Glide(p), Speed(d, s), lim, TopSpeed(s.vel, lim), dt, x);
    WithinInFrame(d, x, s, Follow(d, p, s, goal, lim.accel, dt), lim, dt, dt);
  }

  /**
    A step changes speed by at most accel * dt and stays below the top speed, whatever the tuning; and it
    moves within the top speed where the code can use the cruise speed.
  */
  lemma StepWithinLimits(sqrt: real -> real, s: State, goal: real, lim: Limits, dt: real)
    requires IsSqrt(sqrt) && lim.Accepted() && dt >= 0.0
    ensures StepsWithin(s, Next(sqrt, s, goal, lim, dt), lim, dt)
  {
    var d, p := Direction(s, goal, lim.accel), PlanFrom(sqrt, s, goal, lim);
    hide IsSqrt, PlanIn, PlanFrom, StepsWithin, Sample, Speed;
    PlanFromIsPlan(sqrt, s, goal, lim);
    if dt >= p.Time() {
      ArrivalStepsWithin(d, p, s, goal, lim, dt);
    } else {
      SampleStepsWithin(d, p, s, goal, lim, dt);
      assert Next(sqrt, s, goal, lim, dt) == Follow(d, p, s, goal, lim.accel, dt);
    }
  }

  // ------------------------------------------------------------------ the bound on travel needs the cruise speed

  /** Every step travels at most the top speed times its duration. */
  ghost predicate TravelIsBounded(sqrt: real -> real, lim: Limits)
    requires lim.Accepted()
  {
    forall s: State, goal: real, dt: real :: dt >= 0.0 ==>
      Abs(Next(sqrt, s, goal, lim, dt).pos - s.pos) <= TopSpeed(s.vel, lim) * dt
  }

  /**
    The code plans no cruise time at a peak of MIN_PEAK or less, so with such a cruise speed (the tuning
    check accepts it) the reference jumps over the cruise distance; with any other it never does.
  */
  lemma TravelIsBoundedIffCruiseIsUsable(sqrt: real -> real, lim: Limits)
    requires IsSqrt(sqrt) && lim.Accepted()
    ensures TravelIsBounded(sqrt, lim) <==> lim.cruise > MIN_PEAK
  {
    hide IsSqrt, TravelIsBounded;
    if lim.cruise > MIN_PEAK { UsableCruiseIsBounded(sqrt, lim); } else { SlowCruiseJumps(sqrt, lim); }
  }

  lemma UsableCruiseIsBounded(sqrt: real -> real, lim: Limits)
    requires IsSqrt(sqrt) && lim.Accepted() && lim.cruise > MIN_PEAK
    ensures TravelIsBounded(sqrt, lim)
  {
    hide IsSqrt, Next, TopSpeed;
    forall s: State, goal: real, dt: real | dt >= 0.0
      ensures Abs(Next(sqrt, s, goal, lim, dt).pos - s.pos) <= TopSpeed(s.vel, lim) * dt
    {
      StepWithinLimits(sqrt, s, goal, lim, dt);
    }
  }

  /** With a smaller cruise speed there is a goal and a tick in which the travel from rest exceeds the limit. */
  lemma SlowCruiseJumps(sqrt: real -> real, lim: Limits)
    requires IsSqrt(sqrt) && lim.Accepted() && lim.cruise <= MIN_PEAK
    ensures !TravelIsBounded(sqrt, lim)
  {
    var far, dt := SlowJump(sqrt, lim);
    var s := State(0.0, 0.0, 0.0);
    assert TopSpeed(s.vel, lim) == lim.cruise;
    hide IsSqrt, Next, TopSpeed;
    assert Abs(Next(sqrt, s, far, lim, dt).pos - s.pos) > TopSpeed(s.vel, lim) * dt;
  }

  /** From rest, the last degree to a goal that far beyond ramp and brake is jumped over. */
  lemma SlowJump(sqrt: real -> real, lim: Limits) returns (far: real, dt: real)
    requires IsSqrt(sqrt) && lim.Accepted() && lim.cruise <= MIN_PEAK
    ensures dt > 0.0 && far > 0.0 && far == lim.cruise * dt + 1.0
    ensures Next(sqrt, State(0.0, 0.0, 0.0), far, lim, dt).pos == far
  {
    var c, a := lim.cruise, lim.accel;
    var ramp := Ratio(c, a);
    Quotient(c, a);
    far := 2.0 * c * ramp + 1.0;
    var s := State(0.0, 0.0, 0.0);
    var p := PlanFrom(sqrt, s, far, lim);
    Positive(c, ramp);
    FarGoalIsAhead(sqrt, s, far, lim);
    hide IsSqrt, PlanFrom, Direction, Ratio, Shaped;
    SlowPlan(p, far, lim, ramp);
    dt := p.Time();
    assert c * (2.0 * ramp) == 2.0 * c * ramp;
    if ramp == 0.0 { Cancel(a, ramp, 0.0); }
  }

  lemma FarGoalIsAhead(sqrt: real -> real, s: State, far: real, lim: Limits)
    requires IsSqrt(sqrt) && lim.Accepted() && s == State(0.0, 0.0, 0.0) && far > 0.0
    ensures Shaped(PlanFrom(sqrt, s, far, lim), far, 0.0, lim)
  {
    hide IsSqrt, PlanFrom, Direction, Shaped, Ahead;
    PlanFromIsPlan(sqrt, s, far, lim);
    DirectionIsSignOfGap(s, far, lim.accel);
    Positive(lim.accel, far);
    assert Gap(s, far, lim.accel) >= 0.0;
    assert Dist(1.0, s, far) == far && Speed(1.0, s) == 0.0;
  }

  lemma SlowPlan(p: Plan, far: real, lim: Limits, ramp: real)
    requires lim.Accepted() && Shaped(p, far, 0.0, lim) && lim.cruise <= MIN_PEAK
    requires lim.accel * ramp == lim.cruise && far == 2.0 * lim.cruise * ramp + 1.0
    ensures p.Time() == 2.0 * ramp
  {
    assert 2.0 * lim.accel * far == 4.0 * (lim.cruise * lim.cruise) + 2.0 * lim.accel by {
      assert 2.0 * lim.accel * far == 4.0 * lim.cruise * (lim.accel * ramp) + 2.0 * lim.accel;
    }
    if p.peak < lim.cruise { SquareOrder(p.peak, lim.cruise); }
    assert p.peak == lim.cruise && p.a1 == lim.accel && p.t2 == 0.0;
    Cancel(lim.accel, p.t1, ramp);
    Cancel(lim.accel, p.t3, ramp);
  }

  // ------------------------------------------------------------------ the stopping point

  /** Where the column would stop if it braked now. */
  function StopPoint(s: State, a: real): real
    requires a > 0.0
  {
    s.pos + StopOffset(s.vel, a)
  }

  lemma GapIsDistanceToStopPoint(s: State, goal: real, a: real)
    requires a > 0.0
    ensures Gap(s, goal, a) == 2.0 * a * (goal - StopPoint(s, a))
    ensures Gap(s, goal, a) >= 0.0 <==> StopPoint(s, a) <= goal
    ensures Gap(s, goal, a) <= 0.0 <==> StopPoint(s, a) >= goal
  {
    GapIs(s, goal, a);
    hide Gap, StopOffset;
    SignOfScaled(2.0 * a, goal - StopPoint(s, a), Gap(s, goal, a));
  }

  lemma ArrivalHasNoGap(goal: real, a: real)
    ensures Gap(State(goal, 0.0, 0.0), goal, a) == 0.0
  {
  }

  /** In the direction of travel the gap stays on its side. */
  lemma GapKeepsSide(sqrt: real -> real, s: State, goal: real, lim: Limits, dt: real)
    requires IsSqrt(sqrt) && lim.Accepted() && dt >= 0.0
    ensures Direction(s, goal, lim.accel) * Gap(Next(sqrt, s, goal, lim, dt), goal, lim.accel) >= 0.0
  {
    hide IsSqrt, Shaped, Sample, Rest, Speed, Direction, PlanFrom, Gap;
    var a, d, p := lim.accel, Direction(s, goal, lim.accel), PlanFrom(sqrt, s, goal, lim);
    var s' := Next(sqrt, s, goal, lim, dt);
    DirectionIsSignOfGap(s, goal, a);
    if dt < p.Time() {
      PlanFromIsPlan(sqrt, s, goal, lim);
      FollowLeavesRest(d, p, s, goal, lim, dt);
      FrameIsSignOfGap(d, s', goal, a);
    } else {
      ArrivalHasNoGap(goal, a);
    }
  }

  /** For a constant goal the stopping point reaches the goal but never crosses it. */
  lemma StopPointNeverCrosses(sqrt: real -> real, s: State, goal: real, lim: Limits, dt: real)
    requires IsSqrt(sqrt) && lim.Accepted() && dt >= 0.0
    ensures var s' := Next(sqrt, s, goal, lim, dt);
            if StopPoint(s, lim.accel) <= goal then StopPoint(s', lim.accel) <= goal
            else StopPoint(s', lim.accel) >= goal
  {
    var a, s' := lim.accel, Next(sqrt, s, goal, lim, dt);
    GapKeepsSide(sqrt, s, goal, lim, dt);
    hide IsSqrt, StopPoint, Next, Gap;
    GapIsDistanceToStopPoint(s, goal, a);
    GapIsDistanceToStopPoint(s', goal, a);
    DirectionIsSignOfGap(s, goal, a);
    SideOfGap(Direction(s, goal, a), Gap(s', goal, a));
  }

  lemma SideOfGap(d: real, gap: real)
    requires (d == 1.0 || d == -1.0) && d * gap >= 0.0
    ensures d == 1.0 ==> gap >= 0.0
    ensures d == -1.0 ==> gap <= 0.0
  {
  }

  // ------------------------------------------------------------------ any goals, any ticks

  /** One call of step: its goal and duration. */
  datatype Tick = Tick(goal: real, dt: real)

  function Steer(sqrt: real -> real, s: State, lim: Limits, ticks: seq<Tick>): State
    requires lim.Accepted()
    decreases |ticks|
  {
    if ticks == [] then s
    else Steer(sqrt, Next(sqrt, s, ticks[0].goal, lim, ticks[0].dt), lim, ticks[1..])
  }

  function Duration(ticks: seq<Tick>): real { if ticks == [] then 0.0 else ticks[0].dt + Duration(ticks[1..]) }

  lemma StepsCompose(s: State, s1: State, s2: State, lim: Limits, dt: real, rest: real)
    requires lim.Accepted() && dt >= 0.0 && rest >= 0.0
    requires StepsWithin(s, s1, lim, dt) && StepsWithin(s1, s2, lim, rest)
    ensures StepsWithin(s, s2, lim, dt + rest)
  {
    var top, top1 := TopSpeed(s.vel, lim), TopSpeed(s1.vel, lim);
    assert top1 <= top;
    hide TopSpeed, Bounded;
    if lim.cruise > MIN_PEAK { BoundsAdd(top, top1, dt, rest, s1.pos - s.pos, s2.pos - s1.pos, s2.pos - s.pos); }
    BoundsAdd(lim.accel, lim.accel, dt, rest, s1.vel - s.vel, s2.vel - s1.vel, s2.vel - s.vel);
  }

  lemma BoundsAdd(c: real, c1: real, t: real, u: real, x: real, y: real, z: real)
    requires c1 <= c && u >= 0.0 && Bounded(x, c, t) && Bounded(y, c1, u) && z == x + y
    ensures Bounded(z, c, t + u)
  {
    Positive(c - c1, u);
    assert c * (t + u) == c * t + c * u;
  }

  /** The limits hold over every run of the profile, whatever the goals and tick lengths. */
  lemma {:induction false} RunWithinLimits(sqrt: real -> real, s: State, lim: Limits, ticks: seq<Tick>)
    requires IsSqrt(sqrt) && lim.Accepted()
    requires forall i :: 0 <= i < |ticks| ==> ticks[i].dt >= 0.0
    ensures Duration(ticks) >= 0.0
    ensures StepsWithin(s, Steer(sqrt, s, lim, ticks), lim, Duration(ticks))
    decreases |ticks|
  {
    if ticks != [] {
      hide IsSqrt, Next;
      var s1 := Next(sqrt, s, ticks[0].goal, lim, ticks[0].dt);
      StepWithinLimits(sqrt, s, ticks[0].goal, lim, ticks[0].dt);
      RunWithinLimits(sqrt, s1, lim, ticks[1..]);
      hide StepsWithin;
      StepsCompose(s, s1, Steer(sqrt, s1, lim, ticks[1..]), lim, ticks[0].dt, Duration(ticks[1..]));
    }
  }
}
