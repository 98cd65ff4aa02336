/**
  What the reference of the steering loop does on the way to the target, over every run: each driving tick steps the
  profile toward the target it sends, so an engagement with one target is one move that starts from the column
  (TracksTarget); and when the loop attempts to seed, takes its clock and takes a tuning.
*/
module SteeringTracking {
  import opened Arithmetic
  import opened Profile
  import Runs = ProfileRuns
  import opened SteeringLoop
  import opened Trapezoid
  import opened Wrappers

  // ------------------------------------------------------------------ one driving tick

  /** A driving tick steps the profile toward the target it sends, which lies in the configured range. */
  lemma ReferenceStepsToTarget(sqrt: real -> real, cfg: Config, s: Loop, x: Input)
    requires Drives(s, x)
    ensures var out := Sent(sqrt, cfg, s, x);
            && out.Drive? && out.reference == Ticked(sqrt, cfg, s, x).reference && StepsTo(sqrt, cfg, s, x, out)
            && (cfg.Valid() ==> cfg.minAngle <= out.target <= cfg.maxAngle)
    ensures Ticked(sqrt, cfg, s, x).pidActive && Ticked(sqrt, cfg, s, x).lastPid == x.now
  {
    SentStepsTo(sqrt, cfg, s, x);
    hide Next, StepsTo;
  }

  /** A clamped angle is in the range, and no angle of the range is nearer to the one given. */
  lemma ClampIsNearest(cfg: Config, angle: real, other: real)
    requires cfg.Valid() && cfg.minAngle <= other <= cfg.maxAngle
    ensures cfg.minAngle <= cfg.Clamp(angle) <= cfg.maxAngle && Abs(angle - cfg.Clamp(angle)) <= Abs(angle - other)
    ensures Abs(angle - cfg.Clamp(angle)) == Abs(angle - other) ==> other == cfg.Clamp(angle)
  {
  }

  // ------------------------------------------------------------------ an engagement with one target

  /** If event m is a tick it drives toward goal, with these limits. */
  predicate AimsAt(sqrt: real -> real, cfg: Config, tuning: Tuning, run: seq<Event>, m: nat, goal: real, lim: Limits)
    requires m < |run|
  {
    var s := Before(sqrt, cfg, tuning, run, m);
    run[m].Tick? ==> DrivesTo(sqrt, cfg, s, run[m].input, goal) && s.tuning.limits == lim
  }

  predicate DrivesTo(sqrt: real -> real, cfg: Config, s: Loop, x: Input, goal: real) {
    Drives(s, x) && Sent(sqrt, cfg, s, x).target == goal
  }

  /** The reference is where one step from start, of the time t and what the clock reads, leads. */
  ghost predicate IsOnWay(sqrt: real -> real, s: Loop, start: State, goal: real, lim: Limits, t: real)
    requires lim.Accepted()
  {
    s.pidActive && Runs.SamePoint(s.reference, Next(sqrt, start, goal, lim, t + s.lastPid))
  }

  lemma NextIgnoresAcc(sqrt: real -> real, x: State, y: State, goal: real, lim: Limits, dt: real)
    requires lim.Accepted() && Runs.SamePoint(x, y)
    ensures Next(sqrt, x, goal, lim, dt) == Next(sqrt, y, goal, lim, dt)
  {
    hide Solve, Sample;
  }

  lemma StepsAdd(sqrt: real -> real, start: State, from: State, goal: real, lim: Limits, t: real, dt: real)
    requires IsSqrt(sqrt) && lim.Accepted() && t >= 0.0 && dt >= 0.0
    requires Runs.SamePoint(from, Next(sqrt, start, goal, lim, t))
    ensures Runs.SamePoint(Next(sqrt, from, goal, lim, dt), Next(sqrt, start, goal, lim, t + dt))
  {
    NextIgnoresAcc(sqrt, from, Next(sqrt, start, goal, lim, t), goal, lim, dt);
    StepThenStep(sqrt, start, goal, lim, t, dt);
    hide IsSqrt, Next;
  }

  /** The first tick of an engagement. */
  lemma Engages(sqrt: real -> real, cfg: Config, s: Loop, x: Input, start: State, goal: real, lim: Limits)
    requires DrivesTo(sqrt, cfg, s, x, goal) && s.tuning.limits == lim && !s.pidActive
    requires start == State(x.column, x.velocity, 0.0)
    ensures IsOnWay(sqrt, Ticked(sqrt, cfg, s, x), start, goal, lim, cfg.period - x.now)
  {
    ReferenceStepsToTarget(sqrt, cfg, s, x);
    hide Ticked, Next, Drives, Sent;
    assert cfg.period - x.now + x.now == cfg.period;
  }

  /** A later tick. */
  lemma GoesOn(sqrt: real -> real, cfg: Config, s: Loop, x: Input, start: State, goal: real, lim: Limits, t: real)
    requires IsSqrt(sqrt) && DrivesTo(sqrt, cfg, s, x, goal) && s.tuning.limits == lim
    requires IsOnWay(sqrt, s, start, goal, lim, t) && t + s.lastPid >= 0.0 && s.lastPid <= x.now
    ensures IsOnWay(sqrt, Ticked(sqrt, cfg, s, x), start, goal, lim, t)
  {
    ReferenceStepsToTarget(sqrt, cfg, s, x);
    hide Ticked, Next, Drives, Sent, IsSqrt;
    StepsAdd(sqrt, start, s.reference, goal, lim, t + s.lastPid, x.now - s.lastPid);
    assert t + s.lastPid + (x.now - s.lastPid) == t + x.now;
  }

  /** Commands and tunings leave the reference and its clock. */
  lemma Waits(sqrt: real -> real, cfg: Config, s: Loop, e: Event)
    requires !e.Tick?
    ensures var r := Step(sqrt, cfg, s, e);
            r.pidActive == s.pidActive && r.reference == s.reference && r.lastPid == s.lastPid
  {
    hide Ticked;
  }

  lemma {:induction false} StaysOnWay(sqrt: real -> real, cfg: Config, tuning: Tuning, run: seq<Event>, j: nat, k: nat,
                                      n: nat, start: State, goal: real, lim: Limits)
    requires IsSqrt(sqrt) && cfg.Valid() && lim.Accepted() && j < n <= k + 1 <= |run| && ClockAscends(run)
    requires Engagement(sqrt, cfg, tuning, run, j, k) && start == State(run[j].input.column, run[j].input.velocity, 0.0)
    requires forall m: nat :: j <= m <= k ==> AimsAt(sqrt, cfg, tuning, run, m, goal, lim)
    ensures var s := Before(sqrt, cfg, tuning, run, n);
            IsOnWay(sqrt, s, start, goal, lim, cfg.period - run[j].input.now) && DroveAt(s, run, j, n)
    decreases n
  {
    hide IsSqrt, Drives, DrivesTo, Before, Step, Engagement, ClockAscends, DroveAt, IsOnWay, Ticked;
    EngagementDrives(sqrt, cfg, tuning, run, j, k, n - 1);
    var s, e, t := Before(sqrt, cfg, tuning, run, n - 1), run[n - 1], cfg.period - run[j].input.now;
    BeforeIsStep(sqrt, cfg, tuning, run, n);
    assert AimsAt(sqrt, cfg, tuning, run, n - 1, goal, lim);
    if n == j + 1 {
      Engages(sqrt, cfg, s, e.input, start, goal, lim);
    } else {
      StaysOnWay(sqrt, cfg, tuning, run, j, k, n - 1, start, goal, lim);
      if e.Tick? {
        ClockIsBetween(s, run, j, n - 1);
        GoesOn(sqrt, cfg, s, e.input, start, goal, lim, t);
      } else {
        Waits(sqrt, cfg, s, e);
        StillOnWay(sqrt, s, Step(sqrt, cfg, s, e), start, goal, lim, t);
      }
    }
    DrovesOn(sqrt, cfg, s, run, j, n);
  }

  lemma BeforeIsStep(sqrt: real -> real, cfg: Config, tuning: Tuning, run: seq<Event>, n: nat)
    requires 0 < n <= |run|
    ensures var s := Before(sqrt, cfg, tuning, run, n - 1);
            && Before(sqrt, cfg, tuning, run, n) == Step(sqrt, cfg, s, run[n - 1])
            && (run[n - 1].Tick? ==> Step(sqrt, cfg, s, run[n - 1]) == Ticked(sqrt, cfg, s, run[n - 1].input))
  {
    hide Ticked;
  }

  lemma StillOnWay(sqrt: real -> real, s: Loop, r: Loop, start: State, goal: real, lim: Limits, t: real)
    requires lim.Accepted() && IsOnWay(sqrt, s, start, goal, lim, t)
    requires r.pidActive == s.pidActive && r.reference == s.reference && r.lastPid == s.lastPid
    ensures IsOnWay(sqrt, r, start, goal, lim, t)
  {
    hide Next;
  }

  lemma ClockIsBetween(s: Loop, run: seq<Event>, j: nat, n: nat)
    requires ClockAscends(run) && DroveAt(s, run, j, n) && n < |run| && run[j].Tick? && run[n].Tick?
    ensures run[j].input.now <= s.lastPid <= run[n].input.now
  {
    var i: nat :| j <= i < n <= |run| && run[i].Tick? && s.lastPid == run[i].input.now;
    assert i == j || run[j].input.now <= run[i].input.now;
  }

  lemma DrovesOn(sqrt: real -> real, cfg: Config, s: Loop, run: seq<Event>, j: nat, n: nat)
    requires j < n <= |run| && (n == j + 1 ==> run[n - 1].Tick?) && (n > j + 1 ==> DroveAt(s, run, j, n - 1))
    requires run[n - 1].Tick? ==> Drives(s, run[n - 1].input)
    ensures DroveAt(Step(sqrt, cfg, s, run[n - 1]), run, j, n)
  {
    if run[n - 1].Tick? {
      ReferenceStepsToTarget(sqrt, cfg, s, run[n - 1].input);
      hide Ticked, Drives;
    } else {
      Waits(sqrt, cfg, s, run[n - 1]);
      hide Step;
    }
  }

  /** The reference of a driving tick. */
  function ReferenceAt(sqrt: real -> real, cfg: Config, tuning: Tuning, run: seq<Event>, k: nat): State
    requires k < |run| && DrivesAt(sqrt, cfg, tuning, run, k)
  {
    Sent(sqrt, cfg, Before(sqrt, cfg, tuning, run, k), run[k].input).reference
  }

  /**
    From its engagement on, while target and limits stay the same, the loop makes one move from where the column was
    and how it moved: each tick's reference is where one step of the whole time leads, however the ticks divide it.
    So the time that remains to the target falls by the time elapsed, and the reference rests on the target exactly
    from when the time planned on engagement is over.
  */
  lemma TracksTarget(sqrt: real -> real, cfg: Config, tuning: Tuning, run: seq<Event>, j: nat, k: nat, goal: real,
                     lim: Limits)
    requires IsSqrt(sqrt) && cfg.Valid() && lim.Accepted() && ClockAscends(run)
    requires j <= k < |run| && Engagement(sqrt, cfg, tuning, run, j, k) && DrivesAt(sqrt, cfg, tuning, run, k)
    requires forall m: nat :: j <= m <= k ==> AimsAt(sqrt, cfg, tuning, run, m, goal, lim)
    ensures var start := State(run[j].input.column, run[j].input.velocity, 0.0);
            var t, r := cfg.period + run[k].input.now - run[j].input.now, ReferenceAt(sqrt, cfg, tuning, run, k);
            && Runs.SamePoint(r, Next(sqrt, start, goal, lim, t))
            && RemainingTime(sqrt, r, goal, lim) == Max(0.0, RemainingTime(sqrt, start, goal, lim) - t)
            && (Runs.SamePoint(r, State(goal, 0.0, 0.0)) <==> t >= RemainingTime(sqrt, start, goal, lim))
  {
    hide IsSqrt, Drives, Before, Next, Ticked, Sent, RemainingTime, Max;
    var start := State(run[j].input.column, run[j].input.velocity, 0.0);
    var t, s := cfg.period + run[k].input.now - run[j].input.now, Before(sqrt, cfg, tuning, run, k);
    StaysOnWay(sqrt, cfg, tuning, run, j, k, k + 1, start, goal, lim);
    assert Drives(s, run[k].input) by { DrivesAtDrives(sqrt, cfg, tuning, run, k); }
    ReferenceStepsToTarget(sqrt, cfg, s, run[k].input);
    BeforeIsStep(sqrt, cfg, tuning, run, k + 1);
    var r, one := ReferenceAt(sqrt, cfg, tuning, run, k), Next(sqrt, start, goal, lim, t);
    assert t >= 0.0 && cfg.period - run[j].input.now + run[k].input.now == t;
    assert Runs.SamePoint(r, one);
    StepTakesItsTime(sqrt, start, goal, lim, t);
    Runs.TimeIgnoresAcc(sqrt, r, one, goal, lim);
    ArrivedIffNoTimeIsLeft(sqrt, r, goal, lim);
    MaxIsZero(RemainingTime(sqrt, start, goal, lim) - t);
  }

  lemma DrivesAtDrives(sqrt: real -> real, cfg: Config, tuning: Tuning, run: seq<Event>, k: nat)
    requires k < |run| && DrivesAt(sqrt, cfg, tuning, run, k)
    ensures Drives(Before(sqrt, cfg, tuning, run, k), run[k].input)
  {
    hide Before, Ticked;
  }

  lemma MaxIsZero(x: real)
    ensures Max(0.0, x) == 0.0 <==> x <= 0.0
  {
  }

  // ------------------------------------------------------------------ engagement

  /** Tick k drives, and no tick among the events after it before n. */
  predicate LastTickDrives(sqrt: real -> real, cfg: Config, tuning: Tuning, run: seq<Event>, k: nat, n: nat)
    requires k < n <= |run|
  {
    DrivesAt(sqrt, cfg, tuning, run, k) && forall m: nat :: k < m < n ==> !run[m].Tick?
  }

  lemma PidActiveNext(sqrt: real -> real, cfg: Config, tuning: Tuning, run: seq<Event>, n: nat)
    requires n < |run|
    ensures Before(sqrt, cfg, tuning, run, n + 1).pidActive
       <==> if run[n].Tick? then DrivesAt(sqrt, cfg, tuning, run, n) else Before(sqrt, cfg, tuning, run, n).pidActive
    ensures DrivesAt(sqrt, cfg, tuning, run, n) ==> run[n].Tick?
  {
    hide Next, Latched, Ready;
  }

  /** A tick goes on with the last reference exactly when the tick before it drove; else it engages anew. */
  lemma {:induction false} GoesOnIff(sqrt: real -> real, cfg: Config, tuning: Tuning, run: seq<Event>, n: nat)
    requires n <= |run|
    ensures Before(sqrt, cfg, tuning, run, n).pidActive
       <==> exists k: nat :: k < n && LastTickDrives(sqrt, cfg, tuning, run, k, n)
  {
    hide Before, DrivesAt;
    if n == 0 {
      StartsNeutral(sqrt, cfg, tuning, run);
    } else {
      GoesOnIff(sqrt, cfg, tuning, run, n - 1);
      PidActiveNext(sqrt, cfg, tuning, run, n - 1);
      var last := n - 1;
      if Before(sqrt, cfg, tuning, run, n).pidActive {
        if run[last].Tick? {
          assert LastTickDrives(sqrt, cfg, tuning, run, last, n);
        } else {
          var k: nat :| k < last && LastTickDrives(sqrt, cfg, tuning, run, k, last);
          assert LastTickDrives(sqrt, cfg, tuning, run, k, n);
        }
      }
      if k: nat :| k < n && LastTickDrives(sqrt, cfg, tuning, run, k, n) {
        if k < last { assert LastTickDrives(sqrt, cfg, tuning, run, k, last); }
      }
    }
  }

  lemma StartsNeutral(sqrt: real -> real, cfg: Config, tuning: Tuning, run: seq<Event>)
    ensures !Before(sqrt, cfg, tuning, run, 0).pidActive && Before(sqrt, cfg, tuning, run, 0).lastSeed == 0.0
  {
  }

  // ------------------------------------------------------------------ seeding

  /** Event k is a tick that tries to seed the motor. */
  predicate AttemptsAt(sqrt: real -> real, cfg: Config, tuning: Tuning, run: seq<Event>, k: nat)
    requires k < |run|
  {
    var s := Before(sqrt, cfg, tuning, run, k);
    run[k].Tick? && !s.seeded && run[k].input.isFresh && Due(s, run[k].input)
  }

  /** last is 0 or the clock of an attempt before n, and no attempt before n has a later clock. */
  ghost predicate IsLatest(sqrt: real -> real, cfg: Config, tuning: Tuning, run: seq<Event>, n: nat, last: real)
    requires n <= |run|
  {
    && last >= 0.0
    && (forall i: nat :: i < n && AttemptsAt(sqrt, cfg, tuning, run, i) ==> run[i].input.seedClock <= last)
    && (last == 0.0
        || exists i: nat :: i < n && AttemptsAt(sqrt, cfg, tuning, run, i) && run[i].input.seedClock == last)
  }

  lemma AttemptStep(sqrt: real -> real, cfg: Config, tuning: Tuning, run: seq<Event>, n: nat)
    requires n < |run|
    ensures var s := Before(sqrt, cfg, tuning, run, n);
            Before(sqrt, cfg, tuning, run, n + 1).lastSeed
            == if AttemptsAt(sqrt, cfg, tuning, run, n) then run[n].input.seedClock else s.lastSeed
    ensures AttemptsAt(sqrt, cfg, tuning, run, n) ==>
              run[n].input.seedClock - Before(sqrt, cfg, tuning, run, n).lastSeed >= 0.5
    ensures SeedsAt(sqrt, cfg, tuning, run, n) <==> AttemptsAt(sqrt, cfg, tuning, run, n) && run[n].input.seedOk
  {
    hide Next;
  }

  lemma LatestNext(sqrt: real -> real, cfg: Config, tuning: Tuning, run: seq<Event>, n: nat, last: real, next: real)
    requires n < |run| && IsLatest(sqrt, cfg, tuning, run, n, last)
    requires if AttemptsAt(sqrt, cfg, tuning, run, n) then next == run[n].input.seedClock >= last else next == last
    ensures IsLatest(sqrt, cfg, tuning, run, n + 1, next)
  {
    hide AttemptsAt;
  }

  lemma {:induction false} LastSeedIsLatest(sqrt: real -> real, cfg: Config, tuning: Tuning, run: seq<Event>, n: nat)
    requires n <= |run|
    ensures IsLatest(sqrt, cfg, tuning, run, n, Before(sqrt, cfg, tuning, run, n).lastSeed)
  {
    hide Before, AttemptsAt, IsLatest;
    if n == 0 {
      StartsNeutral(sqrt, cfg, tuning, run);
      NoAttempts(sqrt, cfg, tuning, run);
    } else {
      LastSeedIsLatest(sqrt, cfg, tuning, run, n - 1);
      AttemptStep(sqrt, cfg, tuning, run, n - 1);
      LatestNext(sqrt, cfg, tuning, run, n - 1, Before(sqrt, cfg, tuning, run, n - 1).lastSeed,
                 Before(sqrt, cfg, tuning, run, n).lastSeed);
    }
  }

  lemma NoAttempts(sqrt: real -> real, cfg: Config, tuning: Tuning, run: seq<Event>)
    ensures IsLatest(sqrt, cfg, tuning, run, 0, 0.0)
  {
  }

  /** At event k the clock is at least half a second after 0 and after every earlier attempt. */
  ghost predicate HasWaited(sqrt: real -> real, cfg: Config, tuning: Tuning, run: seq<Event>, k: nat)
    requires k < |run| && run[k].Tick?
  {
    && run[k].input.seedClock >= 0.5
    && forall i: nat :: i < k && AttemptsAt(sqrt, cfg, tuning, run, i) ==>
         run[k].input.seedClock - run[i].input.seedClock >= 0.5
  }

  lemma DueIff(sqrt: real -> real, cfg: Config, tuning: Tuning, run: seq<Event>, k: nat)
    requires k < |run| && run[k].Tick?
    ensures AttemptsAt(sqrt, cfg, tuning, run, k) <==>
              && run[k].input.isFresh && !Before(sqrt, cfg, tuning, run, k).seeded
              && run[k].input.seedClock - Before(sqrt, cfg, tuning, run, k).lastSeed >= 0.5
  {
    hide Before;
  }

  /**
    The motor is asked to take its seed position exactly on the ticks with a fresh column angle, until it accepts
    one, that come at least half a second after every earlier attempt; it is seeded by an attempt that it accepts.
  */
  lemma AttemptsIff(sqrt: real -> real, cfg: Config, tuning: Tuning, run: seq<Event>, k: nat)
    requires k < |run|
    ensures AttemptsAt(sqrt, cfg, tuning, run, k) <==>
              && run[k].Tick? && run[k].input.isFresh && HasWaited(sqrt, cfg, tuning, run, k)
              && forall i: nat :: i < k ==> !SeedsAt(sqrt, cfg, tuning, run, i)
    ensures SeedsAt(sqrt, cfg, tuning, run, k) <==> AttemptsAt(sqrt, cfg, tuning, run, k) && run[k].input.seedOk
  {
    SeededIff(sqrt, cfg, tuning, run, k);
    AttemptStep(sqrt, cfg, tuning, run, k);
    LastSeedIsLatest(sqrt, cfg, tuning, run, k);
    if run[k].Tick? { DueIff(sqrt, cfg, tuning, run, k); }
    hide Before, AttemptsAt, SeedsAt;
  }

  // ------------------------------------------------------------------ tuning

  /** The parameters an update names take their values and the others stay, if the result is valid; else all stay. */
  lemma UpdateIsTakenWhole(s: Loop, u: Update)
    ensures var now := s.tuning;
            var cruise := if u.cruise.Some? then u.cruise.value else now.limits.cruise;
            var accel := if u.accel.Some? then u.accel.value else now.limits.accel;
            var deadband := if u.deadband.Some? then u.deadband.value else now.deadband;
            Retuned(s, u) == if cruise > 0.0 && accel > 0.0 && deadband >= 0.0
                             then s.(tuning := Parameters(Limits(cruise, accel), deadband)) else s
  {
  }
}
