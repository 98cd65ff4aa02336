/**
  KrakenComms::TrapezoidalProfile, the steering column's reference: Next is one tick of it, which plans the move
  anew from the last reference and takes the plan's state one tick on.  Main result: that re-planning is exact
  (StepThenStep).
*/
module Profile {
  import opened Arithmetic
  import opened Trapezoid

  /** Where the column would come to rest if it braked now, relative to the current position. */
  function StopOffset(vel: real, a: real): real
    requires a > 0.0
  {
    vel * Abs(vel) / (2.0 * a)
  }

  /** Which way the plan travels: 1 when the stopping point is not past the goal, else -1. */
  function Direction(s: State, goal: real, a: real): real
    requires a > 0.0
  {
    if goal - s.pos - StopOffset(s.vel, a) >= 0.0 then 1.0 else -1.0
  }

  /** Signed distance to the goal in the frame d. */
  function Dist(d: real, s: State, goal: real): real { d * (goal - s.pos) }

  /** Velocity in the frame d. */
  function Speed(d: real, s: State): real { d * s.vel }

  /** The plan from a state toward a goal. */
  function PlanFrom(sqrt: real -> real, s: State, goal: real, lim: Limits): Plan
    requires lim.Accepted()
  {
    var dir := Direction(s, goal, lim.accel);
    Solve(sqrt, Dist(dir, s, goal), Speed(dir, s), lim)
  }

  /** The reference one tick later. */
  function Next(sqrt: real -> real, s: State, goal: real, lim: Limits, dt: real): State
    requires lim.Accepted()
  {
    var dir := Direction(s, goal, lim.accel);
    var p := PlanFrom(sqrt, s, goal, lim);
    if dt >= p.Time() then State(goal, 0.0, 0.0)
    else
      var x := Sample(p, Speed(dir, s), lim.accel, dt);
      State(s.pos + dir * x.pos, dir * x.vel, dir * x.acc)
  }

  // ------------------------------------------------------------------ the travel frame

  /** Distance from the stopping point to the goal, scaled by twice the acceleration. */
  function Gap(s: State, goal: real, a: real): real { 2.0 * a * (goal - s.pos) - Signed(s.vel) }

  /** The gap is what is left from the stopping point to the goal, scaled. */
  lemma GapIs(s: State, goal: real, a: real)
    requires a > 0.0
    ensures Gap(s, goal, a) == 2.0 * a * (goal - s.pos - StopOffset(s.vel, a))
  {
    StopOffsetIs(s.vel, a);
    hide StopOffset, Signed;
    GapScales(a, goal - s.pos, StopOffset(s.vel, a));
  }

  lemma StopOffsetIs(vel: real, a: real)
    requires a > 0.0
    ensures 2.0 * a * StopOffset(vel, a) == Signed(vel)
  {
    Quotient(vel * Abs(vel), 2.0 * a);
    assert vel * Abs(vel) == Signed(vel);
  }

  lemma DirectionIsSignOfGap(s: State, goal: real, a: real)
    requires a > 0.0
    ensures Direction(s, goal, a) == 1.0 <==> Gap(s, goal, a) >= 0.0
  {
    hide StopOffset, Gap;
    GapIs(s, goal, a);
    SignOfScaled(2.0 * a, goal - s.pos - StopOffset(s.vel, a), Gap(s, goal, a));
  }

  lemma SignOfScaled(x: real, y: real, z: real)
    requires x > 0.0 && z == x * y
    ensures z >= 0.0 <==> y >= 0.0
    ensures z <= 0.0 <==> y <= 0.0
  {
    if y > 0.0 { Positive(x, y); }
    if y < 0.0 { Positive(x, -y); }
  }

  lemma GapScales(a: real, x: real, y: real)
    ensures 2.0 * a * (x - y) == 2.0 * a * x - 2.0 * a * y
  {
  }

  /** d is a frame in which the stopping point is not past the goal. */
  predicate IsFrame(d: real, s: State, goal: real, a: real) {
    (d == 1.0 || d == -1.0) && Ahead(Dist(d, s, goal), Speed(d, s), a)
  }

  lemma FrameIsSignOfGap(d: real, s: State, goal: real, a: real)
    requires d == 1.0 || d == -1.0
    ensures IsFrame(d, s, goal, a) <==> d * Gap(s, goal, a) >= 0.0
  {
  }

  lemma DirectionIsFrame(s: State, goal: real, a: real)
    requires a > 0.0
    ensures IsFrame(Direction(s, goal, a), s, goal, a)
  {
    DirectionIsSignOfGap(s, goal, a);
    FrameIsSignOfGap(Direction(s, goal, a), s, goal, a);
  }

  // ------------------------------------------------------------------ ties: only braking is left

  /** Constant braking from v0 to rest. */
  function Braking(v0: real, a: real, t: real): State {
    var b := if v0 >= 0.0 then -a else a;
    State(v0 * t + 0.5 * b * t * t, v0 + b * t, b)
  }

  /** The plan takes the time of braking from v0, and is where braking is at t. */
  ghost predicate Brakes(p: Plan, v0: real, a: real, t: real) {
    a * p.Time() == Abs(v0) && Agree(Sample(p, v0, a, t), Braking(v0, a, t), t)
  }

  lemma NoSquare(x: real, y: real)
    requires x >= 0.0 && 2.0 * x * x <= y && y == 0.0
    ensures x == 0.0
  {
    if x > 0.0 { SquareOrder(0.0, x); }
  }

  lemma TiePeak(peak: real, dist: real, v0: real, lim: Limits)
    requires lim.Accepted() && PeakShape(peak, dist, v0, lim) && 2.0 * lim.accel * dist == Signed(v0)
    ensures v0 < 0.0 ==> peak == 0.0
    ensures v0 >= 0.0 ==> peak == Min(lim.cruise, v0)
  {
    if v0 < 0.0 {
      assert 2.0 * lim.accel * dist + v0 * v0 == 0.0;
      NoSquare(peak, 2.0 * lim.accel * dist + v0 * v0);
    } else {
      assert peak * peak <= v0 * v0;
      if v0 < peak { SquareOrder(v0, peak); }
      if peak < v0 { SquareOrder(peak, v0); }
    }
  }

  lemma TieHasNoCruise(p: Plan, dist: real, v0: real, lim: Limits)
    requires lim.Accepted() && Shaped(p, dist, v0, lim) && 2.0 * lim.accel * dist == Signed(v0)
    ensures p.t2 == 0.0 && p.d2 == 0.0
  {
    hide CruiseShape;
    TiePeak(p.peak, dist, v0, lim);
    TieLeavesNoRoom(lim.accel, p.peak, v0, dist, p.a1, p.t1, p.d1, p.t3, p.d3);
    hide PeakShape, RampShape, BrakeShape;
    assert p.d2 == 0.0;
    NoRoomNoTime(p.peak, lim.cruise, p.t2);
  }

  lemma TieLeavesNoRoom(a: real, peak: real, v0: real, dist: real, a1: real, t1: real, d1: real, t3: real, d3: real)
    requires a > 0.0 && RampShape(a, peak, v0, a1, t1, d1) && BrakeShape(a, peak, t3, d3)
    requires 2.0 * a * dist == Signed(v0) && (v0 < 0.0 ==> peak == 0.0) && (v0 >= 0.0 ==> peak <= v0)
    ensures dist - d1 - d3 == 0.0
  {
    Distribute(a, dist, d1, d3);
    assert a1 == -a ==> 2.0 * a1 * d1 == -(2.0 * a * d1);
    SignOfProduct(2.0 * a, dist - d1 - d3);
  }

  lemma NoRoomNoTime(peak: real, cruise: real, t2: real)
    requires cruise > 0.0 && CruiseShape(peak, cruise, t2, 0.0)
    ensures t2 == 0.0
  {
    if peak > MIN_PEAK { Cancel(peak, t2, 0.0); }
  }

  /** When the stopping point is the goal, the plan only brakes, whatever its phases. */
  lemma TieBrakes(p: Plan, dist: real, v0: real, lim: Limits, t: real)
    requires lim.Accepted() && Shaped(p, dist, v0, lim) && 2.0 * lim.accel * dist == Signed(v0)
    requires 0.0 <= t <= p.Time()
    ensures Brakes(p, v0, lim.accel, t)
  {
    ShapeBounds(p, dist, v0, lim);
    TieHasNoCruise(p, dist, v0, lim);
    TiePeak(p.peak, dist, v0, lim);
    hide PeakShape, RampShape, CruiseShape, BrakeShape, Signed, Sample, Braking;
    if v0 < 0.0 {
      TieFromBehind(p, v0, lim.accel, t);
    } else if p.peak == v0 {
      TieBelowCruise(p, v0, lim.accel, t);
    } else {
      TieAboveCruise(p, v0, lim.accel, t);
    }
  }

  lemma TieFromBehind(p: Plan, v0: real, a: real, t: real)
    requires a > 0.0 && RampShape(a, p.peak, v0, p.a1, p.t1, p.d1) && BrakeShape(a, p.peak, p.t3, p.d3)
    requires v0 < 0.0 && p.peak == 0.0 && p.t2 == 0.0 && 0.0 <= t <= p.Time()
    ensures Brakes(p, v0, a, t)
  {
    Cancel(a, p.t3, 0.0);
  }

  lemma TieBelowCruise(p: Plan, v0: real, a: real, t: real)
    requires a > 0.0 && RampShape(a, p.peak, v0, p.a1, p.t1, p.d1) && BrakeShape(a, p.peak, p.t3, p.d3)
    requires v0 >= 0.0 && p.peak == v0 && p.t2 == 0.0 && p.d2 == 0.0 && 0.0 <= t <= p.Time()
    ensures Brakes(p, v0, a, t)
  {
    Cancel(a, p.t1, 0.0);
    Cancel(2.0 * a, p.d1, 0.0);
  }

  lemma TieAboveCruise(p: Plan, v0: real, a: real, t: real)
    requires a > 0.0 && RampShape(a, p.peak, v0, p.a1, p.t1, p.d1) && BrakeShape(a, p.peak, p.t3, p.d3)
    requires v0 > p.peak >= 0.0 && p.t2 == 0.0 && p.d2 == 0.0 && 0.0 <= t <= p.Time()
    ensures Brakes(p, v0, a, t)
  {
    FastRamp(a, p.peak, v0, p.a1, p.t1, p.d1, p.t3, p.d3);
    hide RampShape, BrakeShape, Sample, Braking, Agree;
    assert p.Time() == p.t1 + p.t3;
    TieIsBraking(p, v0, a, t);
  }

  lemma TieIsBraking(p: Plan, v0: real, a: real, t: real)
    requires v0 > 0.0 && p.t2 == 0.0 && p.d2 == 0.0
    requires p.a1 == -a && p.peak == v0 - a * p.t1 && p.d1 == v0 * p.t1 + 0.5 * -a * p.t1 * p.t1
    ensures Agree(Sample(p, v0, a, t), Braking(v0, a, t), t)
  {
    if t > p.t1 { BrakeJoinsRamp(v0, a, p.t1, p.peak, p.d1, t - p.t1); }
  }

  lemma FastRamp(a: real, peak: real, v0: real, a1: real, t1: real, d1: real, t3: real, d3: real)
    requires a > 0.0 && v0 > peak && RampShape(a, peak, v0, a1, t1, d1) && BrakeShape(a, peak, t3, d3)
    ensures a1 == -a && peak == v0 - a * t1 && d1 == v0 * t1 + 0.5 * -a * t1 * t1 && a * (t1 + t3) == v0
  {
    RampCovers(v0, a1, t1, peak, d1);
  }

  lemma BrakeJoinsRamp(v0: real, a: real, t1: real, peak: real, d1: real, tau: real)
    requires d1 == v0 * t1 + 0.5 * -a * t1 * t1 && peak == v0 - a * t1
    ensures d1 + peak * tau - 0.5 * a * tau * tau == v0 * (t1 + tau) + 0.5 * -a * (t1 + tau) * (t1 + tau)
    ensures peak - a * tau == v0 + -a * (t1 + tau)
  {
    RampSplits(v0, -a, t1, tau);
  }

  lemma RampCovers(v0: real, a1: real, t1: real, peak: real, d1: real)
    requires a1 != 0.0 && a1 * t1 == peak - v0 && 2.0 * a1 * d1 == peak * peak - v0 * v0
    ensures d1 == v0 * t1 + 0.5 * a1 * t1 * t1
  {
    RampKinematics(v0, a1, t1);
    Cancel(2.0 * a1, d1, v0 * t1 + 0.5 * a1 * t1 * t1);
  }

  // ------------------------------------------------------------------ one step, in any frame

  /** The step as seen in the frame d with the plan p. */
  function Follow(d: real, p: Plan, s: State, goal: real, a: real, dt: real): State {
    if dt >= p.Time() then State(goal, 0.0, 0.0)
    else
      var x := Sample(p, Speed(d, s), a, dt);
      State(s.pos + d * x.pos, d * x.vel, d * x.acc)
  }

  /** p is a trapezoid from s to the goal in the frame d. */
  ghost predicate PlanIn(d: real, p: Plan, s: State, goal: real, lim: Limits) {
    IsFrame(d, s, goal, lim.accel) && Shaped(p, Dist(d, s, goal), Speed(d, s), lim)
  }

  /** x in the frame d is the state y in the opposite frame. */
  predicate Mirrored(d: real, x: State, y: State, u: real) {
    d * x.pos == -d * y.pos && d * x.vel == -d * y.vel && (u > 0.0 ==> d * x.acc == -d * y.acc)
  }

  lemma BrakingMirrors(d: real, p: Plan, q: Plan, s: State, a: real, t: real)
    requires (d == 1.0 || d == -1.0) && s.vel != 0.0
    requires Brakes(p, Speed(d, s), a, t) && Brakes(q, Speed(-d, s), a, t)
    ensures Mirrored(d, Sample(p, Speed(d, s), a, t), Sample(q, Speed(-d, s), a, t), t)
  {
    hide Sample;
    if d == 1.0 { assert Speed(d, s) == s.vel && Speed(-d, s) == -s.vel; }
    else { assert Speed(d, s) == -s.vel && Speed(-d, s) == s.vel; }
  }

  lemma BothFramesTie(d: real, s: State, goal: real, a: real)
    requires a > 0.0 && IsFrame(d, s, goal, a) && IsFrame(-d, s, goal, a)
    ensures 2.0 * a * Dist(d, s, goal) == Signed(Speed(d, s)) && 2.0 * a * Dist(-d, s, goal) == Signed(Speed(-d, s))
    ensures Abs(Speed(d, s)) == Abs(s.vel) == Abs(Speed(-d, s))
  {
    FrameIsSignOfGap(d, s, goal, a);
    FrameIsSignOfGap(-d, s, goal, a);
  }

  lemma TieTakesBrakingTime(d: real, p: Plan, s: State, goal: real, lim: Limits)
    requires lim.Accepted() && PlanIn(d, p, s, goal, lim) && IsFrame(-d, s, goal, lim.accel)
    ensures lim.accel * p.Time() == Abs(s.vel) && p.Time() >= 0.0
  {
    hide Shaped, Ahead, Signed, Sample, Braking, Dist, Speed;
    BothFramesTie(d, s, goal, lim.accel);
    ShapeBounds(p, Dist(d, s, goal), Speed(d, s), lim);
    TieBrakes(p, Dist(d, s, goal), Speed(d, s), lim, 0.0);
  }

  lemma TieInFrame(d: real, p: Plan, s: State, goal: real, lim: Limits, t: real)
    requires lim.Accepted() && PlanIn(d, p, s, goal, lim) && IsFrame(-d, s, goal, lim.accel)
    requires 0.0 <= t <= p.Time()
    ensures Brakes(p, Speed(d, s), lim.accel, t)
  {
    hide Shaped, Ahead, Signed, Sample, Braking, Dist, Speed, Brakes;
    BothFramesTie(d, s, goal, lim.accel);
    TieBrakes(p, Dist(d, s, goal), Speed(d, s), lim, t);
  }

  lemma SameTime(a: real, t: real, t': real, v: real)
    requires a > 0.0 && a * t == Abs(v) && a * t' == Abs(v)
    ensures t == t' && (v == 0.0 ==> t == 0.0)
  {
    Cancel(a, t, t');
    if v == 0.0 { Cancel(a, t, 0.0); }
  }

  /** When both frames apply, only braking is left and both plans do it. */
  lemma FramesAgree(d: real, p: Plan, q: Plan, s: State, goal: real, lim: Limits, dt: real)
    requires lim.Accepted() && PlanIn(d, p, s, goal, lim) && PlanIn(-d, q, s, goal, lim) && dt >= 0.0
    ensures p.Time() == q.Time()
    ensures Agree(Follow(d, p, s, goal, lim.accel, dt), Follow(-d, q, s, goal, lim.accel, dt), dt)
  {
    hide Shaped, Ahead, Sample, Speed, Dist, Brakes;
    assert -(-d) == d;
    TieTakesBrakingTime(d, p, s, goal, lim);
    TieTakesBrakingTime(-d, q, s, goal, lim);
    SameTime(lim.accel, p.Time(), q.Time(), s.vel);
    if dt < p.Time() {
      TieInFrame(d, p, s, goal, lim, dt);
      TieInFrame(-d, q, s, goal, lim, dt);
      BrakingMirrors(d, p, q, s, lim.accel, dt);
    }
  }

  lemma PlanFromIsPlan(sqrt: real -> real, s: State, goal: real, lim: Limits)
    requires IsSqrt(sqrt) && lim.Accepted()
    ensures PlanIn(Direction(s, goal, lim.accel), PlanFrom(sqrt, s, goal, lim), s, goal, lim)
  {
    var d := Direction(s, goal, lim.accel);
    DirectionIsFrame(s, goal, lim.accel);
    PlanIsShaped(sqrt, Dist(d, s, goal), Speed(d, s), lim);
  }

  /** The code's step follows any plan of any frame. */
  lemma NextFollows(sqrt: real -> real, d: real, p: Plan, s: State, goal: real, lim: Limits, dt: real)
    requires IsSqrt(sqrt) && lim.Accepted() && dt >= 0.0 && PlanIn(d, p, s, goal, lim)
    ensures PlanFrom(sqrt, s, goal, lim).Time() == p.Time()
    ensures Agree(Next(sqrt, s, goal, lim, dt), Follow(d, p, s, goal, lim.accel, dt), dt)
  {
    var dir, q := Direction(s, goal, lim.accel), PlanFrom(sqrt, s, goal, lim);
    PlanFromIsPlan(sqrt, s, goal, lim);
    hide Shaped, Ahead, Sample, Solve, Dist, Speed;
    if dir == d {
      ShapeIsUnique(p, q, Dist(d, s, goal), Speed(d, s), lim);
    } else {
      FramesAgree(dir, q, p, s, goal, lim, dt);
    }
  }

  /** Following a plan leaves the rest of the plan, in the same frame. */
  lemma FollowLeavesRest(d: real, p: Plan, s: State, goal: real, lim: Limits, dt: real)
    requires lim.Accepted() && PlanIn(d, p, s, goal, lim) && 0.0 <= dt < p.Time()
    ensures var s', q := Follow(d, p, s, goal, lim.accel, dt), Rest(p, Speed(d, s), lim.accel, dt);
            PlanIn(d, q, s', goal, lim) && q.Time() == p.Time() - dt
            && Speed(d, s') == Sample(p, Speed(d, s), lim.accel, dt).vel
  {
    var x, s' := Sample(p, Speed(d, s), lim.accel, dt), Follow(d, p, s, goal, lim.accel, dt);
    RestIsShaped(p, Dist(d, s, goal), Speed(d, s), lim, dt);
    hide Shaped, Ahead, Sample;
    assert Speed(d, s') == x.vel;
    assert Dist(d, s', goal) == Dist(d, s, goal) - x.pos;
  }

  // ------------------------------------------------------------------ the profile is exact

  /** Time the plan from s needs to come to rest on the goal. */
  function RemainingTime(sqrt: real -> real, s: State, goal: real, lim: Limits): real
    requires lim.Accepted()
  {
    PlanFrom(sqrt, s, goal, lim).Time()
  }

  lemma AtGoalNoTimeIsLeft(sqrt: real -> real, s: State, goal: real, lim: Limits)
    requires IsSqrt(sqrt) && lim.Accepted() && s.pos == goal && s.vel == 0.0
    ensures RemainingTime(sqrt, s, goal, lim) == 0.0
  {
    var d, p := Direction(s, goal, lim.accel), PlanFrom(sqrt, s, goal, lim);
    PlanFromIsPlan(sqrt, s, goal, lim);
    FrameIsSignOfGap(d, s, goal, lim.accel);
    FrameIsSignOfGap(-d, s, goal, lim.accel);
    hide Shaped, Ahead, Dist, Speed, Solve;
    TieTakesBrakingTime(d, p, s, goal, lim);
    SameTime(lim.accel, p.Time(), p.Time(), 0.0);
  }

  /**
    Re-solving is exact: stepping by dt1 and then by dt2 is stepping by dt1 + dt2, in every phase and
    across phases; the acceleration agrees too unless the second step takes no time.
  */
  lemma StepThenStep(sqrt: real -> real, s: State, goal: real, lim: Limits, dt1: real, dt2: real)
    requires IsSqrt(sqrt) && lim.Accepted() && dt1 >= 0.0 && dt2 >= 0.0
    ensures var s1 := Next(sqrt, s, goal, lim, dt1);
            Agree(Next(sqrt, s1, goal, lim, dt2), Next(sqrt, s, goal, lim, dt1 + dt2), dt2)
  {
    var a, d, p := lim.accel, Direction(s, goal, lim.accel), PlanFrom(sqrt, s, goal, lim);
    var s1 := Next(sqrt, s, goal, lim, dt1);
    if dt1 >= p.Time() {
      AtGoalNoTimeIsLeft(sqrt, s1, goal, lim);
    } else {
      PlanFromIsPlan(sqrt, s, goal, lim);
      assert d == 1.0 || d == -1.0;
      hide IsSqrt, Shaped, Ahead, Dist, Sample, Rest, Speed, Solve, PlanFrom, Direction, Continues;
      assert s1 == Follow(d, p, s, goal, a, dt1);
      FollowLeavesRest(d, p, s, goal, lim, dt1);
      hide Follow, Next, PlanIn;
      var q := Rest(p, Speed(d, s), a, dt1);
      NextFollows(sqrt, d, q, s1, goal, lim, dt2);
      NextFollows(sqrt, d, p, s, goal, lim, dt1 + dt2);
      FollowTwice(d, p, q, s, s1, goal, lim, dt1, dt2);
    }
  }

  lemma FollowTwice(d: real, p: Plan, q: Plan, s: State, s1: State, goal: real, lim: Limits, dt1: real, dt2: real)
    requires lim.Accepted() && PlanIn(d, p, s, goal, lim)
    requires 0.0 <= dt1 && 0.0 <= dt2 && dt1 < p.Time() && q.Time() == p.Time() - dt1
    requires q == Rest(p, Speed(d, s), lim.accel, dt1)
    requires s1 == Follow(d, p, s, goal, lim.accel, dt1) && Speed(d, s1) == Sample(p, Speed(d, s), lim.accel, dt1).vel
    ensures Agree(Follow(d, q, s1, goal, lim.accel, dt2), Follow(d, p, s, goal, lim.accel, dt1 + dt2), dt2)
  {
    hide Shaped, Ahead, Dist, Sample, Rest, Speed, Continues;
    if dt1 + dt2 < p.Time() {
      RestContinues(p, Dist(d, s, goal), Speed(d, s), lim, dt1, dt2);
      FollowComposes(d, p, q, s, s1, goal, lim.accel, dt1, dt2);
    }
  }

  lemma FollowComposes(d: real, p: Plan, q: Plan, s: State, s1: State, goal: real, a: real, dt1: real, dt2: real)
    requires d == 1.0 || d == -1.0
    requires 0.0 <= dt1 && 0.0 <= dt2 && dt1 + dt2 < p.Time() && q.Time() == p.Time() - dt1
    requires q == Rest(p, Speed(d, s), a, dt1) && Continues(p, Speed(d, s), a, dt1, dt2)
    requires s1 == Follow(d, p, s, goal, a, dt1) && Speed(d, s1) == Sample(p, Speed(d, s), a, dt1).vel
    ensures Agree(Follow(d, q, s1, goal, a, dt2), Follow(d, p, s, goal, a, dt1 + dt2), dt2)
  {
    hide Sample, Rest, Speed;
    var x, y := Sample(p, Speed(d, s), a, dt1), Sample(q, Speed(d, s1), a, dt2);
    var z := Sample(p, Speed(d, s), a, dt1 + dt2);
    assert Agree(z, After(x, y), dt2);
    assert d * (x.pos + y.pos) == d * x.pos + d * y.pos;
  }

  /** Every step takes exactly its own time off the remaining time, down to zero. */
  lemma StepTakesItsTime(sqrt: real -> real, s: State, goal: real, lim: Limits, dt: real)
    requires IsSqrt(sqrt) && lim.Accepted() && dt >= 0.0
    ensures RemainingTime(sqrt, Next(sqrt, s, goal, lim, dt), goal, lim)
         == Max(0.0, RemainingTime(sqrt, s, goal, lim) - dt)
  {
    var d, p := Direction(s, goal, lim.accel), PlanFrom(sqrt, s, goal, lim);
    var s1 := Next(sqrt, s, goal, lim, dt);
    if dt >= p.Time() {
      AtGoalNoTimeIsLeft(sqrt, s1, goal, lim);
    } else {
      PlanFromIsPlan(sqrt, s, goal, lim);
      hide Shaped, Ahead, Dist, Sample, Rest, Speed, Solve;
      assert s1 == Follow(d, p, s, goal, lim.accel, dt);
      FollowLeavesRest(d, p, s, goal, lim, dt);
      NextFollows(sqrt, d, Rest(p, Speed(d, s), lim.accel, dt), s1, goal, lim, 0.0);
    }
  }

  /** Only a state at rest on the goal has no time left. */
  lemma ArrivedIffNoTimeIsLeft(sqrt: real -> real, s: State, goal: real, lim: Limits)
    requires IsSqrt(sqrt) && lim.Accepted()
    ensures RemainingTime(sqrt, s, goal, lim) >= 0.0
    ensures RemainingTime(sqrt, s, goal, lim) == 0.0 <==> s.pos == goal && s.vel == 0.0
  {
    var d, p := Direction(s, goal, lim.accel), PlanFrom(sqrt, s, goal, lim);
    PlanFromIsPlan(sqrt, s, goal, lim);
    ShapeBounds(p, Dist(d, s, goal), Speed(d, s), lim);
    if p.Time() == 0.0 {
      NoTimeNoMove(p, Dist(d, s, goal), Speed(d, s), lim);
    }
    if s.pos == goal && s.vel == 0.0 { AtGoalNoTimeIsLeft(sqrt, s, goal, lim); }
  }

  lemma NoTimeNoMove(p: Plan, dist: real, v0: real, lim: Limits)
    requires lim.Accepted() && Shaped(p, dist, v0, lim) && p.t1 == p.t2 == p.t3 == 0.0
    ensures dist == 0.0 && v0 == 0.0
  {
    assert p.peak == 0.0 && v0 == 0.0;
    Cancel(2.0 * p.a1, p.d1, 0.0);
    Cancel(2.0 * lim.accel, p.d3, 0.0);
  }

  // ------------------------------------------------------------------ the motion in between

  /** From x to y, dt later, the motion has y's constant acceleration. */
  predicate IsUniform(x: State, y: State, dt: real) {
    x.acc == y.acc && y.vel - x.vel == y.acc * dt && 2.0 * (y.pos - x.pos) == (x.vel + y.vel) * dt
  }

  /** The phase of a plan that ends at or after t begins here. */
  function PhaseStart(p: Plan, t: real): real {
    if t <= p.t1 then 0.0 else if t <= p.t1 + p.t2 then p.t1 else p.t1 + p.t2
  }

  function RampAt(v: real, a: real, t: real): State { State(v * t + 0.5 * a * t * t, v + a * t, a) }

  /** Where a ramp is that starts at d. */
  function ShiftedRampAt(d: real, v: real, a: real, t: real): State {
    State(d + RampAt(v, a, t).pos, RampAt(v, a, t).vel, a)
  }

  lemma RampIsUniform(d: real, v: real, a: real, u: real, t: real, dt: real)
    requires dt == t - u
    ensures IsUniform(ShiftedRampAt(d, v, a, u), ShiftedRampAt(d, v, a, t), dt)
  {
    RampSplits(v, a, u, dt);
    RampIsMean(v + a * u, a, dt);
  }

  lemma RampIsMean(v: real, a: real, dt: real)
    ensures 2.0 * (v * dt + 0.5 * a * dt * dt) == (v + (v + a * dt)) * dt
  {
  }

  /** Every phase of a plan is a ramp. */
  lemma SampleIsRamp(p: Plan, v0: real, a: real, t: real)
    ensures t <= p.t1 ==> Sample(p, v0, a, t) == ShiftedRampAt(0.0, v0, p.a1, t)
    ensures p.t1 < t <= p.t1 + p.t2 ==> Sample(p, v0, a, t) == ShiftedRampAt(p.d1, p.peak, 0.0, t - p.t1)
    ensures p.t1 + p.t2 < t && p.t1 < t ==>
              Sample(p, v0, a, t) == ShiftedRampAt(p.d1 + p.d2, p.peak, -a, t - p.t1 - p.t2)
  {
    NoRamp(p.peak, t - p.t1);
    if p.t1 + p.t2 < t { DownRamp(p.peak, a, t - p.t1 - p.t2); }
  }

  lemma NoRamp(v: real, t: real)
    ensures RampAt(v, 0.0, t) == State(v * t, v, 0.0)
  {
  }

  lemma DownRamp(v: real, a: real, t: real)
    ensures RampAt(v, -a, t) == State(v * t - 0.5 * a * t * t, v - a * t, -a)
  {
  }

  lemma SampleIsUniform(p: Plan, v0: real, a: real, u: real, t: real)
    requires PhaseStart(p, t) < u <= t && p.t1 >= 0.0 && p.t2 >= 0.0
    ensures IsUniform(Sample(p, v0, a, u), Sample(p, v0, a, t), t - u)
  {
    SampleIsRamp(p, v0, a, u);
    SampleIsRamp(p, v0, a, t);
    hide IsUniform, Sample, RampAt, ShiftedRampAt;
    if t <= p.t1 {
      RampIsUniform(0.0, v0, p.a1, u, t, t - u);
    } else if t <= p.t1 + p.t2 {
      RampIsUniform(p.d1, p.peak, 0.0, u - p.t1, t - p.t1, t - u);
    } else {
      RampIsUniform(p.d1 + p.d2, p.peak, -a, u - p.t1 - p.t2, t - p.t1 - p.t2, t - u);
    }
  }

  lemma TurnedIsUniform(d: real, pos: real, x: State, y: State, dt: real)
    requires (d == 1.0 || d == -1.0) && IsUniform(x, y, dt)
    ensures IsUniform(State(pos + d * x.pos, d * x.vel, d * x.acc), State(pos + d * y.pos, d * y.vel, d * y.acc), dt)
  {
  }

  /**
    Before the move is over, the reference has just been moving with the acceleration it gives: for some time its
    velocity has changed at that rate, and its position by the mean of the velocities.
  */
  lemma AccelerationIsRate(sqrt: real -> real, s: State, goal: real, lim: Limits, dt: real) returns (since: real)
    requires IsSqrt(sqrt) && lim.Accepted() && 0.0 < dt < RemainingTime(sqrt, s, goal, lim)
    ensures 0.0 <= since < dt
    ensures forall u :: since < u <= dt ==>
              IsUniform(Next(sqrt, s, goal, lim, u), Next(sqrt, s, goal, lim, dt), dt - u)
  {
    var d, p := Direction(s, goal, lim.accel), PlanFrom(sqrt, s, goal, lim);
    PlanFromIsPlan(sqrt, s, goal, lim);
    ShapeBounds(p, Dist(d, s, goal), Speed(d, s), lim);
    hide Shaped, Ahead, Sample, IsUniform, Solve, PlanFrom, Direction, Dist, Speed, IsSqrt;
    since := PhaseStart(p, dt);
    forall u | since < u <= dt
      ensures IsUniform(Next(sqrt, s, goal, lim, u), Next(sqrt, s, goal, lim, dt), dt - u)
    {
      NextIsFollow(sqrt, s, goal, lim, u);
      NextIsFollow(sqrt, s, goal, lim, dt);
      hide Next, PhaseStart, Follow;
      FollowIsUniform(d, p, s, goal, lim.accel, u, dt);
    }
  }

  lemma NextIsFollow(sqrt: real -> real, s: State, goal: real, lim: Limits, dt: real)
    requires lim.Accepted()
    ensures Next(sqrt, s, goal, lim, dt)
         == Follow(Direction(s, goal, lim.accel), PlanFrom(sqrt, s, goal, lim), s, goal, lim.accel, dt)
  {
    hide Sample, Solve;
  }

  lemma FollowIsUniform(d: real, p: Plan, s: State, goal: real, a: real, u: real, t: real)
    requires (d == 1.0 || d == -1.0) && PhaseStart(p, t) < u <= t < p.Time() && p.t1 >= 0.0 && p.t2 >= 0.0
    ensures IsUniform(Follow(d, p, s, goal, a, u), Follow(d, p, s, goal, a, t), t - u)
  {
    SampleIsUniform(p, Speed(d, s), a, u, t);
    hide Sample, IsUniform, PhaseStart;
    TurnedIsUniform(d, s.pos, Sample(p, Speed(d, s), a, u), Sample(p, Speed(d, s), a, t), t - u);
  }

  // ------------------------------------------------------------------ the stateful profile

  class TrapezoidalProfile {
    var state: State

    constructor ()
      ensures state == State(0.0, 0.0, 0.0)
    {
      state := State(0.0, 0.0, 0.0);
    }

    method Step(sqrt: real -> real, goal: real, maxVel: real, maxAcc: real, dt: real) returns (reference: State)
      requires maxVel > 0.0 && maxAcc > 0.0
      modifies this
      ensures reference == state == Next(sqrt, old(state), goal, Limits(maxVel, maxAcc), dt)
    {
      hide Radicand, RampDistance, BrakeDistance, Ratio, StopOffset, Dist, Speed;
      var dir := if goal - state.pos - StopOffset(state.vel, maxAcc) >= 0.0 then 1.0 else -1.0;
      var dist, v0, a := Dist(dir, state, goal), Speed(dir, state), maxAcc;
      var peak := Min(maxVel, sqrt(Radicand(dist, v0, a)));
      var a1 := if peak >= v0 then a else -a;
      var t1, d1 := Ratio(Abs(peak - v0), a), RampDistance(v0, peak, a1);
      var t3, d3 := Ratio(peak, a), BrakeDistance(peak, a);
      var d2 := Max(0.0, dist - d1 - d3);
      var t2 := if peak > MIN_PEAK then Ratio(d2, peak) else 0.0;
      assert dir == Direction(state, goal, maxAcc);
      assert PlanFrom(sqrt, state, goal, Limits(maxVel, maxAcc)) == Plan(peak, a1, t1, d1, t2, d2, t3, d3);

      hide PlanFrom, Direction;
      if dt >= t1 + t2 + t3 {
        state := State(goal, 0.0, 0.0);
      } else {
        var x := Trajectory(Plan(peak, a1, t1, d1, t2, d2, t3, d3), v0, a, dt);
        hide Sample;
        state := State(state.pos + dir * x.pos, dir * x.vel, dir * x.acc);
      }
      return state;
    }

    static method Trajectory(p: Plan, v0: real, a: real, dt: real) returns (x: State)
      ensures x == Sample(p, v0, a, dt)
    {
      var pos, vel, acc;
      if dt <= p.t1 {
        pos, vel, acc := v0 * dt + 0.5 * p.a1 * dt * dt, v0 + p.a1 * dt, p.a1;
      } else if dt <= p.t1 + p.t2 {
        pos, vel, acc := p.d1 + p.peak * (dt - p.t1), p.peak, 0.0;
      } else {
        var tau := dt - p.t1 - p.t2;
        pos, vel, acc := p.d1 + p.d2 + p.peak * tau - 0.5 * a * tau * tau, p.peak - a * tau, -a;
      }
      x := State(pos, vel, acc);
      assert x.pos == Sample(p, v0, a, dt).pos;
      assert x.vel == Sample(p, v0, a, dt).vel;
    }

    method Reset(pos: real, vel: real)
      modifies this
      ensures state == State(pos, vel, 0.0)
    {
      state := State(pos, vel, 0.0);
    }
  }
}
