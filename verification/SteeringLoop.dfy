/**
  The steering command loop (KrakenComms::_run): which ticks drive the motor, and with what reference.

  Main results, over every run of ticks, commands and tuning changes: a tick drives exactly when the motor
  was seeded and not reset since, the column angle is fresh and steering is armed (DrivesIff); while the
  loop drives, the reference stays within the top speed of where the column was on engagement, exactly for
  the tunings whose cruise speed the profile can use (StaysNearIffCruiseIsUsable); a driving tick targets the
  last command given since the loop last held the column, or else the column's angle then
  (DrivesToLastCommand).
*/
module SteeringLoop {
  import opened Arithmetic
  import opened Profile
  import opened ProfileLimits
  import opened Trapezoid
  import opened Wrappers

  /** The parameters the validity check looks at: the profile's limits and the static friction deadband. */
  datatype Parameters = Parameters(limits: Limits, deadband: real) {
    predicate IsValid() { limits.Accepted() && deadband >= 0.0 }
  }

  /** A parameter message; it names some of the parameters. */
  datatype Update = Update(cruise: Option<real>, accel: Option<real>, deadband: Option<real>) {
    /** The parameters p with those the message names replaced. */
    function Applied(p: Parameters): Parameters {
      Parameters(Limits(if cruise.Some? then cruise.value else p.limits.cruise,
                        if accel.Some? then accel.value else p.limits.accel),
                 if deadband.Some? then deadband.value else p.deadband)
    }
  }

  /** Tuning that passed the validity check. */
  type Tuning = p: Parameters | p.IsValid() witness Parameters(Limits(1.0, 1.0), 0.0)

  datatype Config = Config(minAngle: real, maxAngle: real, period: real) {
    /** What init demands. */
    predicate Valid() { minAngle < maxAngle && period > 0.0 }

    function Clamp(angle: real): real {
      if angle < minAngle then minAngle else if maxAngle < angle then maxAngle else angle
    }
  }

  const SEED_RETRY_S := 0.5

  /**
    What one tick reads: the motor, the steering estimator, the clocks and the parameters. A tick takes the lock
    of the commanded angle twice, to hold the column and to read the target; meanwhile is the last angle that
    another thread commands between the two.
  */
  datatype Input = Input(
    hasReset: bool, column: real, velocity: real, isFresh: bool, seedClock: real, seedOk: bool,
    now: real, armed: bool, meanwhile: Option<real>, useTest: bool, testAngle: real)

  /** What one tick sends to the motor. */
  datatype Output = Neutral | Drive(reference: State, target: real)

  datatype Loop = Loop(
    seeded: bool, faulted: bool, pidActive: bool, armedSeen: bool,
    commanded: real, lastSeed: real, lastPid: real, reference: State, tuning: Tuning)

  /** A tick of the loop, or one of the calls other threads make between ticks. */
  datatype Event = Tick(input: Input) | Command(angle: real) | Tune(update: Update)

  function Start(tuning: Tuning): Loop {
    Loop(false, false, false, false, 0.0, 0.0, 0.0, State(0.0, 0.0, 0.0), tuning)
  }

  // ------------------------------------------------------------------ one tick

  predicate Due(s: Loop, x: Input) { x.seedClock - s.lastSeed >= SEED_RETRY_S }

  /** Reset detection, then the seed attempt. */
  function Latched(s: Loop, x: Input): Loop {
    var t := s.(faulted := s.faulted || (s.seeded && x.hasReset));
    if !t.seeded && x.isFresh && Due(t, x) then t.(seeded := x.seedOk, lastSeed := x.seedClock) else t
  }

  predicate Gated(s: Loop, x: Input) { s.faulted || !s.seeded || !x.isFresh }

  /** Arming holds the column where it is. */
  function Held(cfg: Config, s: Loop, x: Input): Loop {
    s.(commanded := if x.armed && !s.armedSeen then cfg.Clamp(x.column) else s.commanded, armedSeen := x.armed)
  }

  /** The angle another thread commands during the tick. */
  function Overheard(cfg: Config, s: Loop, x: Input): Loop {
    if x.meanwhile.Some? then s.(commanded := cfg.Clamp(x.meanwhile.value)) else s
  }

  function Target(cfg: Config, s: Loop, x: Input): real {
    cfg.Clamp(if x.useTest then x.testAngle else s.commanded)
  }

  /** Where the profile steps from, and for how long. */
  function StepFrom(s: Loop, x: Input): State { if s.pidActive then s.reference else State(x.column, x.velocity, 0.0) }

  function StepTime(cfg: Config, s: Loop, x: Input): real { if s.pidActive then x.now - s.lastPid else cfg.period }

  function Driven(sqrt: real -> real, cfg: Config, s: Loop, x: Input): Loop {
    var next := Next(sqrt, StepFrom(s, x), Target(cfg, s, x), s.tuning.limits, StepTime(cfg, s, x));
    s.(reference := next, lastPid := x.now, pidActive := true)
  }

  predicate Drives(s: Loop, x: Input) { !Gated(Latched(s, x), x) && x.armed }

  /** The loop when the tick reads its target. */
  function Ready(cfg: Config, s: Loop, x: Input): Loop {
    var t := Latched(s, x);
    Overheard(cfg, if Gated(t, x) then t else Held(cfg, t, x), x)
  }

  function Ticked(sqrt: real -> real, cfg: Config, s: Loop, x: Input): Loop {
    if Drives(s, x) then Driven(sqrt, cfg, Ready(cfg, s, x), x) else Ready(cfg, s, x).(pidActive := false)
  }

  function Sent(sqrt: real -> real, cfg: Config, s: Loop, x: Input): Output {
    if Drives(s, x) then Drive(Ticked(sqrt, cfg, s, x).reference, Target(cfg, Ready(cfg, s, x), x)) else Neutral
  }

  /**
    The reference sent is one that the profile has stepped toward the target sent: from the last reference, for the
    time since; or, on engagement, from the column as it moves, for one period.
  */
  ghost predicate StepsTo(sqrt: real -> real, cfg: Config, s: Loop, x: Input, out: Output) {
    out.Drive? ==>
      var from := if s.pidActive then s.reference else State(x.column, x.velocity, 0.0);
      var dt := if s.pidActive then x.now - s.lastPid else cfg.period;
      out.reference == Next(sqrt, from, out.target, s.tuning.limits, dt)
  }

  lemma SentStepsTo(sqrt: real -> real, cfg: Config, s: Loop, x: Input)
    ensures StepsTo(sqrt, cfg, s, x, Sent(sqrt, cfg, s, x))
  {
    hide Next;
  }

  class KrakenComms {
    const cfg: Config
    const profile: TrapezoidalProfile
    var seeded: bool
    var faulted: bool
    var pidActive: bool
    var armedSeen: bool
    var commanded: real
    var lastSeed: real
    var lastPid: real
    var tuning: Tuning

    function Value(): Loop
      reads this, profile
    {
      Loop(seeded, faulted, pidActive, armedSeen, commanded, lastSeed, lastPid, profile.state, tuning)
    }

    constructor (config: Config, initial: Tuning)
      requires config.Valid()
      ensures cfg == config && fresh(profile) && Value() == Start(initial)
    {
      cfg := config;
      profile := new TrapezoidalProfile();
      seeded, faulted, pidActive, armedSeen := false, false, false, false;
      commanded, lastSeed, lastPid := 0.0, 0.0, 0.0;
      tuning := initial;
    }

    method SetAngle(angle: real)
      modifies this
      ensures Value() == old(Value()).(commanded := cfg.Clamp(angle))
    {
      commanded := cfg.Clamp(angle);
    }

    /** A message changes the parameters it names all together, or none of them. */
    method UpdateTuning(update: Update)
      modifies this
      ensures Value() == Retuned(old(Value()), update)
    {
      var cruise, accel, deadband := tuning.limits.cruise, tuning.limits.accel, tuning.deadband;
      if update.cruise.Some? {
        cruise := update.cruise.value;
      }
      if update.accel.Some? {
        accel := update.accel.value;
      }
      if update.deadband.Some? {
        deadband := update.deadband.value;
      }
      if cruise <= 0.0 || accel <= 0.0 || deadband < 0.0 {
        return;
      }
      tuning := Parameters(Limits(cruise, accel), deadband);
    }

    /** Looks for a motor reset, then tries to seed the motor's position. */
    method Latch(x: Input)
      modifies this
      ensures Value() == Latched(old(Value()), x)
    {
      if seeded && !faulted && x.hasReset {
        faulted := true;
      }
      if !seeded && x.isFresh && x.seedClock - lastSeed >= SEED_RETRY_S {
        lastSeed := x.seedClock;
        seeded := x.seedOk;
      }
    }

    /** Holds the column where it is when steering becomes armed. */
    method Hold(x: Input)
      modifies this
      ensures Value() == Held(cfg, old(Value()), x)
    {
      if x.armed && !armedSeen {
        SetAngle(x.column);
      }
      armedSeen := x.armed;
    }

    /** The calls of other threads that the lock of the commanded angle lets in. */
    method Overhear(x: Input)
      modifies this
      ensures Value() == Overheard(cfg, old(Value()), x)
    {
      if x.meanwhile.Some? {
        SetAngle(x.meanwhile.value);
      }
    }

    /** One pass of the loop. */
    method RunOnce(sqrt: real -> real, x: Input) returns (out: Output)
      modifies this, profile
      ensures Value() == Ticked(sqrt, cfg, old(Value()), x)
      ensures out == Sent(sqrt, cfg, old(Value()), x)
      ensures StepsTo(sqrt, cfg, old(Value()), x, out)
    {
      hide Next, Latched, Held, Overheard, StepsTo;
      ghost var before := Value();
      SentStepsTo(sqrt, cfg, before, x);
      Latch(x);

      var isPidActive := false;
      out := Neutral;
      if faulted || !seeded || !x.isFresh {
        Overhear(x);
      } else {
        Hold(x);
        Overhear(x);
        KeepsLatches(cfg, Latched(before, x), x);
        if x.armed {
          var input := if x.useTest then x.testAngle else commanded;
          var target := cfg.Clamp(input);
          if !pidActive {
            profile.Reset(x.column, x.velocity);
          }
          var dt := if pidActive then x.now - lastPid else cfg.period;
          lastPid := x.now;
          var reference := profile.Step(sqrt, target, tuning.limits.cruise, tuning.limits.accel, dt);
          out := Drive(reference, target);
          isPidActive := true;
        }
      }
      pidActive := isPidActive;
    }
  }

  /** Holding and commands change nothing but the commanded angle. */
  lemma KeepsLatches(cfg: Config, t: Loop, x: Input)
    ensures var u := Overheard(cfg, Held(cfg, t, x), x); u == t.(commanded := u.commanded, armedSeen := x.armed)
  {
  }

  // ------------------------------------------------------------------ runs

  /** An update is taken only if what it gives is valid. */
  function Retuned(s: Loop, update: Update): Loop {
    if update.Applied(s.tuning).IsValid() then s.(tuning := update.Applied(s.tuning)) else s
  }

  function Step(sqrt: real -> real, cfg: Config, s: Loop, e: Event): Loop {
    match e
    case Tick(x) => Ticked(sqrt, cfg, s, x)
    case Command(angle) => s.(commanded := cfg.Clamp(angle))
    case Tune(update) => Retuned(s, update)
  }

  /** The loop before event n. */
  function Before(sqrt: real -> real, cfg: Config, tuning: Tuning, run: seq<Event>, n: nat): Loop
    requires n <= |run|
  {
    if n == 0 then Start(tuning) else Step(sqrt, cfg, Before(sqrt, cfg, tuning, run, n - 1), run[n - 1])
  }

  /** Event k is a tick on which the motor accepts its seed position. */
  predicate SeedsAt(sqrt: real -> real, cfg: Config, tuning: Tuning, run: seq<Event>, k: nat)
    requires k < |run|
  {
    var s := Before(sqrt, cfg, tuning, run, k);
    run[k].Tick? && !s.seeded && run[k].input.isFresh && Due(s, run[k].input) && run[k].input.seedOk
  }

  predicate ResetsAt(run: seq<Event>, k: nat)
    requires k < |run|
  {
    run[k].Tick? && run[k].input.hasReset
  }

  predicate DrivesAt(sqrt: real -> real, cfg: Config, tuning: Tuning, run: seq<Event>, k: nat)
    requires k < |run|
  {
    run[k].Tick? && Sent(sqrt, cfg, Before(sqrt, cfg, tuning, run, k), run[k].input).Drive?
  }

  lemma {:induction false} SeededIff(sqrt: real -> real, cfg: Config, tuning: Tuning, run: seq<Event>, n: nat)
    requires n <= |run|
    ensures Before(sqrt, cfg, tuning, run, n).seeded <==> exists j: nat :: j < n && SeedsAt(sqrt, cfg, tuning, run, j)
  {
    if n > 0 {
      SeededIff(sqrt, cfg, tuning, run, n - 1);
      hide Next;
      SeededStep(sqrt, cfg, tuning, run, n);
    }
  }

  lemma SeededStep(sqrt: real -> real, cfg: Config, tuning: Tuning, run: seq<Event>, n: nat)
    requires 0 < n <= |run|
    ensures Before(sqrt, cfg, tuning, run, n).seeded
       <==> Before(sqrt, cfg, tuning, run, n - 1).seeded || SeedsAt(sqrt, cfg, tuning, run, n - 1)
  {
    hide Next;
  }

  /** The motor was seeded, and a later tick before n saw a reset. */
  ghost predicate ResetAfterSeed(sqrt: real -> real, cfg: Config, tuning: Tuning, run: seq<Event>, n: nat)
    requires n <= |run|
  {
    exists j: nat, m: nat :: j < m < n && SeedsAt(sqrt, cfg, tuning, run, j) && ResetsAt(run, m)
  }

  lemma ResetAfterSeedNext(sqrt: real -> real, cfg: Config, tuning: Tuning, run: seq<Event>, n: nat)
    requires n < |run|
    ensures ResetAfterSeed(sqrt, cfg, tuning, run, n + 1)
       <==> ResetAfterSeed(sqrt, cfg, tuning, run, n)
            || (ResetsAt(run, n) && exists j: nat :: j < n && SeedsAt(sqrt, cfg, tuning, run, j))
  {
    hide SeedsAt, ResetsAt;
  }

  lemma {:induction false} FaultedIff(sqrt: real -> real, cfg: Config, tuning: Tuning, run: seq<Event>, n: nat)
    requires n <= |run|
    ensures Before(sqrt, cfg, tuning, run, n).faulted <==> ResetAfterSeed(sqrt, cfg, tuning, run, n)
  {
    hide Before, SeedsAt, ResetsAt, ResetAfterSeed;
    if n > 0 {
      FaultedIff(sqrt, cfg, tuning, run, n - 1);
      SeededIff(sqrt, cfg, tuning, run, n - 1);
      FaultedStep(sqrt, cfg, tuning, run, n);
      ResetAfterSeedNext(sqrt, cfg, tuning, run, n - 1);
    } else {
      NothingBefore(sqrt, cfg, tuning, run);
    }
  }

  lemma NothingBefore(sqrt: real -> real, cfg: Config, tuning: Tuning, run: seq<Event>)
    ensures !Before(sqrt, cfg, tuning, run, 0).faulted && !ResetAfterSeed(sqrt, cfg, tuning, run, 0)
  {
    hide SeedsAt, ResetsAt;
  }

  lemma FaultedStep(sqrt: real -> real, cfg: Config, tuning: Tuning, run: seq<Event>, n: nat)
    requires 0 < n <= |run|
    ensures var s := Before(sqrt, cfg, tuning, run, n - 1);
            Before(sqrt, cfg, tuning, run, n).faulted <==> s.faulted || (s.seeded && ResetsAt(run, n - 1))
  {
    hide Next;
  }

  /** The motor was seeded at tick j, and no later tick up to k saw a reset. */
  predicate TrustedSince(sqrt: real -> real, cfg: Config, tuning: Tuning, run: seq<Event>, j: nat, k: nat)
    requires j <= k < |run|
  {
    SeedsAt(sqrt, cfg, tuning, run, j) && forall m: nat :: j < m <= k ==> !ResetsAt(run, m)
  }

  /** The motor is seeded at most once. */
  lemma SeedsOnce(sqrt: real -> real, cfg: Config, tuning: Tuning, run: seq<Event>, i: nat, j: nat)
    requires i < |run| && j < |run| && SeedsAt(sqrt, cfg, tuning, run, i) && SeedsAt(sqrt, cfg, tuning, run, j)
    ensures i == j
  {
    SeededIff(sqrt, cfg, tuning, run, i);
    SeededIff(sqrt, cfg, tuning, run, j);
    hide Next;
  }

  lemma TrustedIff(sqrt: real -> real, cfg: Config, tuning: Tuning, run: seq<Event>, k: nat)
    requires k < |run|
    ensures (exists j: nat :: j <= k && TrustedSince(sqrt, cfg, tuning, run, j, k))
      <==> (var s := Before(sqrt, cfg, tuning, run, k + 1); s.seeded && !s.faulted)
  {
    hide Before, SeedsAt, ResetsAt, ResetAfterSeed, TrustedSince;
    SeededIff(sqrt, cfg, tuning, run, k + 1);
    FaultedIff(sqrt, cfg, tuning, run, k + 1);
    if Before(sqrt, cfg, tuning, run, k + 1).seeded {
      var next := k + 1;
      var j: nat :| j < next && SeedsAt(sqrt, cfg, tuning, run, j);
      TrustedUnlessReset(sqrt, cfg, tuning, run, j, k);
      forall i: nat | i <= k && TrustedSince(sqrt, cfg, tuning, run, i, k)
        ensures i == j
      {
        TrustedIsSeeded(sqrt, cfg, tuning, run, i, k);
        SeedsOnce(sqrt, cfg, tuning, run, i, j);
      }
    } else {
      forall i: nat | i <= k
        ensures !TrustedSince(sqrt, cfg, tuning, run, i, k)
      {
        if TrustedSince(sqrt, cfg, tuning, run, i, k) { TrustedIsSeeded(sqrt, cfg, tuning, run, i, k); }
      }
    }
  }

  lemma TrustedIsSeeded(sqrt: real -> real, cfg: Config, tuning: Tuning, run: seq<Event>, j: nat, k: nat)
    requires j <= k < |run| && TrustedSince(sqrt, cfg, tuning, run, j, k)
    ensures SeedsAt(sqrt, cfg, tuning, run, j)
  {
    hide SeedsAt;
  }

  lemma TrustedUnlessReset(sqrt: real -> real, cfg: Config, tuning: Tuning, run: seq<Event>, j: nat, k: nat)
    requires j <= k < |run| && SeedsAt(sqrt, cfg, tuning, run, j)
    ensures TrustedSince(sqrt, cfg, tuning, run, j, k) <==> !ResetAfterSeed(sqrt, cfg, tuning, run, k + 1)
  {
    hide Before;
    if ResetAfterSeed(sqrt, cfg, tuning, run, k + 1) {
      var next := k + 1;
      var i: nat, m: nat :| i < m < next && SeedsAt(sqrt, cfg, tuning, run, i) && ResetsAt(run, m);
      hide SeedsAt, ResetsAt;
      SeedsOnce(sqrt, cfg, tuning, run, i, j);
    }
  }

  lemma LatchesDecide(sqrt: real -> real, cfg: Config, tuning: Tuning, run: seq<Event>, k: nat)
    requires k < |run| && run[k].Tick?
    ensures var s := Before(sqrt, cfg, tuning, run, k + 1);
            DrivesAt(sqrt, cfg, tuning, run, k) <==>
              s.seeded && !s.faulted && run[k].input.isFresh && run[k].input.armed
  {
    hide Next;
  }

  /**
    A tick drives the motor exactly when the motor has been seeded, no reset was seen since, the column
    angle is fresh and steering is armed. In particular a reset after the seed keeps every later output neutral.
  */
  lemma DrivesIff(sqrt: real -> real, cfg: Config, tuning: Tuning, run: seq<Event>, k: nat)
    requires k < |run| && run[k].Tick?
    ensures DrivesAt(sqrt, cfg, tuning, run, k)
      <==> (&& run[k].input.isFresh
            && run[k].input.armed
            && exists j: nat :: j <= k && TrustedSince(sqrt, cfg, tuning, run, j, k))
  {
    TrustedIff(sqrt, cfg, tuning, run, k);
    LatchesDecide(sqrt, cfg, tuning, run, k);
    hide Before, TrustedSince, Next, DrivesAt;
  }

  // ------------------------------------------------------------------ the reference stays near the column

  /** The cruise speed at event m is at most top. */
  predicate SlowerThan(sqrt: real -> real, cfg: Config, tuning: Tuning, run: seq<Event>, m: nat, top: real)
    requires m <= |run|
  {
    Before(sqrt, cfg, tuning, run, m).tuning.limits.cruise <= top
  }

  /** The profile can use the cruise speed it runs with at event m. */
  predicate UsableAt(sqrt: real -> real, cfg: Config, tuning: Tuning, run: seq<Event>, m: nat)
    requires m <= |run|
  {
    Before(sqrt, cfg, tuning, run, m).tuning.limits.cruise > MIN_PEAK
  }

  /** Events j to k are one engagement: tick j starts to drive, and every later tick drives as well. */
  ghost predicate Engagement(sqrt: real -> real, cfg: Config, tuning: Tuning, run: seq<Event>, j: nat, k: nat)
    requires j <= k < |run|
  {
    && run[j].Tick? && !Before(sqrt, cfg, tuning, run, j).pidActive
    && forall m: nat :: j <= m <= k && run[m].Tick? ==> DrivesAt(sqrt, cfg, tuning, run, m)
  }

  /** The clock read on driving ticks does not go back. */
  predicate ClockAscends(run: seq<Event>) {
    forall i, j :: 0 <= i < j < |run| && run[i].Tick? && run[j].Tick? ==> run[i].input.now <= run[j].input.now
  }

  /**
    The reference is no faster than top, and where the cruise speed is usable within top * t of the column at
    the engagement.
  */
  ghost predicate NearColumn(s: Loop, column: real, top: real, t: real, usable: bool) {
    s.pidActive && Abs(s.reference.vel) <= top && (usable ==> Bounded(s.reference.pos - column, top, t))
  }

  lemma DrivenStep(sqrt: real -> real, cfg: Config, s: Loop, x: Input, from: State, dt: real)
    requires Drives(s, x) && from == StepFrom(s, x) && dt == StepTime(cfg, s, x)
    ensures exists goal :: Ticked(sqrt, cfg, s, x).reference == Next(sqrt, from, goal, s.tuning.limits, dt)
    ensures Ticked(sqrt, cfg, s, x).pidActive && Ticked(sqrt, cfg, s, x).lastPid == x.now
  {
    hide Next;
    var u := Ready(cfg, s, x);
    assert StepFrom(u, x) == from && StepTime(cfg, u, x) == dt && u.tuning == s.tuning;
    assert Ticked(sqrt, cfg, s, x) == Driven(sqrt, cfg, u, x);
    assert Ticked(sqrt, cfg, s, x).reference == Next(sqrt, from, Target(cfg, u, x), s.tuning.limits, dt);
  }

  lemma StepWithinTop(sqrt: real -> real, from: State, goal: real, lim: Limits, dt: real, top: real)
    requires IsSqrt(sqrt) && lim.Accepted() && lim.cruise <= top && Abs(from.vel) <= top && dt >= 0.0
    ensures var r := Next(sqrt, from, goal, lim, dt);
            Abs(r.vel) <= top && (lim.cruise > MIN_PEAK ==> Bounded(r.pos - from.pos, top, dt))
  {
    hide IsSqrt, Next;
    StepWithinLimits(sqrt, from, goal, lim, dt);
    Positive(top - TopSpeed(from.vel, lim), dt);
  }

  lemma DriveWithin(sqrt: real -> real, cfg: Config, s: Loop, x: Input, top: real)
    requires IsSqrt(sqrt) && Drives(s, x) && s.tuning.limits.cruise <= top
    requires Abs(StepFrom(s, x).vel) <= top && StepTime(cfg, s, x) >= 0.0
    ensures var t := Ticked(sqrt, cfg, s, x);
            && t.pidActive && t.lastPid == x.now && Abs(t.reference.vel) <= top
            && (s.tuning.limits.cruise > MIN_PEAK ==>
                  Bounded(t.reference.pos - StepFrom(s, x).pos, top, StepTime(cfg, s, x)))
  {
    var from, dt := StepFrom(s, x), StepTime(cfg, s, x);
    DrivenStep(sqrt, cfg, s, x, from, dt);
    hide IsSqrt, Next, Ticked, StepFrom, StepTime, Drives, Bounded;
    var goal :| Ticked(sqrt, cfg, s, x).reference == Next(sqrt, from, goal, s.tuning.limits, dt);
    StepWithinTop(sqrt, from, goal, s.tuning.limits, dt, top);
  }

  /** The first tick of an engagement. */
  lemma EngageWithin(sqrt: real -> real, cfg: Config, s: Loop, x: Input, top: real, usable: bool)
    requires IsSqrt(sqrt) && cfg.Valid() && Drives(s, x) && !s.pidActive
    requires s.tuning.limits.cruise <= top && Abs(x.velocity) <= top && (usable ==> s.tuning.limits.cruise > MIN_PEAK)
    ensures NearColumn(Ticked(sqrt, cfg, s, x), x.column, top, cfg.period, usable)
            && Ticked(sqrt, cfg, s, x).lastPid == x.now
  {
    hide IsSqrt, Next, Ticked, Drives, Bounded;
    DriveWithin(sqrt, cfg, s, x, top);
  }

  /** A later tick of an engagement. */
  lemma KeepWithin(sqrt: real -> real, cfg: Config, s: Loop, x: Input, column: real, top: real, t: real, usable: bool)
    requires IsSqrt(sqrt) && Drives(s, x) && NearColumn(s, column, top, t, usable) && s.tuning.limits.cruise <= top
    requires s.lastPid <= x.now && (usable ==> s.tuning.limits.cruise > MIN_PEAK)
    ensures NearColumn(Ticked(sqrt, cfg, s, x), column, top, t + x.now - s.lastPid, usable)
    ensures Ticked(sqrt, cfg, s, x).lastPid == x.now
  {
    hide IsSqrt, Next, Ticked, Drives, Bounded;
    DriveWithin(sqrt, cfg, s, x, top);
    var r := Ticked(sqrt, cfg, s, x).reference;
    if usable {
      BoundsAdd(top, top, t, x.now - s.lastPid, s.reference.pos - column, r.pos - s.reference.pos, r.pos - column);
    }
  }

  /** The loop last drove at one of the ticks j to n - 1. */
  ghost predicate DroveAt(s: Loop, run: seq<Event>, j: nat, n: nat) {
    exists i: nat :: j <= i < n <= |run| && run[i].Tick? && s.lastPid == run[i].input.now
  }

  lemma BeforeNext(sqrt: real -> real, cfg: Config, tuning: Tuning, run: seq<Event>, n: nat, top: real)
    requires n < |run| && SlowerThan(sqrt, cfg, tuning, run, n, top)
    ensures Before(sqrt, cfg, tuning, run, n + 1) == Step(sqrt, cfg, Before(sqrt, cfg, tuning, run, n), run[n])
    ensures Before(sqrt, cfg, tuning, run, n).tuning.limits.cruise <= top
    ensures UsableAt(sqrt, cfg, tuning, run, n) <==> Before(sqrt, cfg, tuning, run, n).tuning.limits.cruise > MIN_PEAK
  {
    hide Step;
  }

  lemma EngagementDrives(sqrt: real -> real, cfg: Config, tuning: Tuning, run: seq<Event>, j: nat, k: nat, m: nat)
    requires j <= m <= k < |run| && Engagement(sqrt, cfg, tuning, run, j, k)
    ensures run[m].Tick? ==> Drives(Before(sqrt, cfg, tuning, run, m), run[m].input)
    ensures run[j].Tick? && !Before(sqrt, cfg, tuning, run, j).pidActive
  {
    assert run[m].Tick? ==> DrivesAt(sqrt, cfg, tuning, run, m);
    hide Before, Ticked, Drives;
  }

  lemma {:induction false} StaysNearColumn(sqrt: real -> real, cfg: Config, tuning: Tuning, run: seq<Event>,
                                           j: nat, k: nat, n: nat, column: real, top: real, t: real, usable: bool)
    requires IsSqrt(sqrt) && cfg.Valid() && j < n <= k + 1 <= |run| && Engagement(sqrt, cfg, tuning, run, j, k)
    requires ClockAscends(run) && Abs(run[j].input.velocity) <= top
    requires column == run[j].input.column && t == cfg.period - run[j].input.now
    requires forall m: nat :: j <= m <= k ==> SlowerThan(sqrt, cfg, tuning, run, m, top)
    requires usable ==> forall m: nat :: j <= m <= k ==> UsableAt(sqrt, cfg, tuning, run, m)
    ensures StayedNear(Before(sqrt, cfg, tuning, run, n), run, j, n, column, top, t, usable)
    decreases n
  {
    hide IsSqrt, Drives, Step, StayedNear, Before, Engagement, ClockAscends, SlowerThan, UsableAt;
    var s := Before(sqrt, cfg, tuning, run, n - 1);
    BeforeNext(sqrt, cfg, tuning, run, n - 1, top);
    EngagementDrives(sqrt, cfg, tuning, run, j, k, n - 1);
    if n == j + 1 {
      StayStart(sqrt, cfg, s, run, j, column, top, t, usable);
    } else {
      StaysNearColumn(sqrt, cfg, tuning, run, j, k, n - 1, column, top, t, usable);
      StayStep(sqrt, cfg, s, run, j, n, column, top, t, usable);
    }
  }

  /** t is the time of the engagement's first step less its clock. */
  ghost predicate StayedNear(s: Loop, run: seq<Event>, j: nat, n: nat, column: real, top: real, t: real, usable: bool) {
    NearColumn(s, column, top, t + s.lastPid, usable) && DroveAt(s, run, j, n)
  }

  lemma StayStart(sqrt: real -> real, cfg: Config, s: Loop, run: seq<Event>, j: nat, column: real, top: real, t: real,
                  usable: bool)
    requires IsSqrt(sqrt) && cfg.Valid() && j < |run| && run[j].Tick? && !s.pidActive && Drives(s, run[j].input)
    requires s.tuning.limits.cruise <= top && Abs(run[j].input.velocity) <= top
             && (usable ==> s.tuning.limits.cruise > MIN_PEAK)
    requires column == run[j].input.column && t == cfg.period - run[j].input.now
    ensures StayedNear(Step(sqrt, cfg, s, run[j]), run, j, j + 1, column, top, t, usable)
  {
    hide IsSqrt, Ticked, Drives, NearColumn;
    EngageWithin(sqrt, cfg, s, run[j].input, top, usable);
  }

  lemma StayStep(sqrt: real -> real, cfg: Config, s: Loop, run: seq<Event>, j: nat, n: nat, column: real, top: real,
                 t: real, usable: bool)
    requires IsSqrt(sqrt) && j + 1 < n <= |run| && ClockAscends(run)
    requires s.tuning.limits.cruise <= top && (usable ==> s.tuning.limits.cruise > MIN_PEAK)
    requires StayedNear(s, run, j, n - 1, column, top, t, usable)
    requires run[n - 1].Tick? ==> Drives(s, run[n - 1].input)
    ensures StayedNear(Step(sqrt, cfg, s, run[n - 1]), run, j, n, column, top, t, usable)
  {
    hide IsSqrt, Ticked, Drives, NearColumn;
    var e := run[n - 1];
    if e.Tick? {
      KeepWithin(sqrt, cfg, s, e.input, column, top, t + s.lastPid, usable);
    } else {
      ReferenceIsKept(sqrt, cfg, s, e, column, top, t + s.lastPid, usable);
    }
  }

  lemma ReferenceIsKept(sqrt: real -> real, cfg: Config, s: Loop, e: Event, column: real, top: real, t: real,
                        usable: bool)
    requires !e.Tick? && NearColumn(s, column, top, t, usable)
    ensures NearColumn(Step(sqrt, cfg, s, e), column, top, t, usable) && Step(sqrt, cfg, s, e).lastPid == s.lastPid
  {
  }

  /**
    While the loop drives, the reference is never faster than the top speed, and where the profile can use every
    cruise speed of the engagement it stays within the top speed of where the column was on engagement: it never
    jumps, on the first tick or later, whatever angles and tunings arrive meanwhile.
  */
  lemma ReferenceStaysNearColumn(sqrt: real -> real, cfg: Config, tuning: Tuning, run: seq<Event>, j: nat, k: nat,
                                 top: real)
    requires IsSqrt(sqrt) && cfg.Valid() && j <= k < |run| && run[k].Tick? && Engagement(sqrt, cfg, tuning, run, j, k)
    requires ClockAscends(run) && Abs(run[j].input.velocity) <= top
    requires forall m: nat :: j <= m <= k ==> SlowerThan(sqrt, cfg, tuning, run, m, top)
    ensures NearColumn(Before(sqrt, cfg, tuning, run, k + 1), run[j].input.column, top,
                       cfg.period + run[k].input.now - run[j].input.now,
                       forall m: nat :: j <= m <= k ==> UsableAt(sqrt, cfg, tuning, run, m))
  {
    hide Next, IsSqrt, Drives, NearColumn, Before, Engagement, ClockAscends, SlowerThan, UsableAt, Ticked;
    var usable := forall m: nat :: j <= m <= k ==> UsableAt(sqrt, cfg, tuning, run, m);
    EngagementDrives(sqrt, cfg, tuning, run, j, k, k);
    StaysNearColumn(sqrt, cfg, tuning, run, j, k, k + 1, run[j].input.column, top,
                    cfg.period - run[j].input.now, usable);
    BeforeNext(sqrt, cfg, tuning, run, k, top);
    var s, x := Before(sqrt, cfg, tuning, run, k), run[k].input;
    DrivenStep(sqrt, cfg, s, x, StepFrom(s, x), StepTime(cfg, s, x));
  }

  /** In every run with this tuning, the reference stays within the top speed of where the column was on engagement. */
  ghost predicate StaysNearInEveryRun(sqrt: real -> real, tuning: Tuning) {
    forall cfg: Config, run: seq<Event>, j: nat, k: nat ::
      cfg.Valid() && IsEngagementAt(sqrt, cfg, tuning, run, j, k) ==> StaysNearFrom(sqrt, cfg, tuning, run, j, k)
  }

  /** The run does not change the tuning, and engages at event j for at least until tick k. */
  ghost predicate IsEngagementAt(sqrt: real -> real, cfg: Config, tuning: Tuning, run: seq<Event>, j: nat, k: nat) {
    && (forall i :: 0 <= i < |run| ==> !run[i].Tune?) && ClockAscends(run)
    && j <= k < |run| && run[j].Tick? && run[k].Tick? && Engagement(sqrt, cfg, tuning, run, j, k)
  }

  predicate StaysNearFrom(sqrt: real -> real, cfg: Config, tuning: Tuning, run: seq<Event>, j: nat, k: nat)
    requires j <= k < |run| && run[j].Tick? && run[k].Tick?
  {
    Bounded(Before(sqrt, cfg, tuning, run, k + 1).reference.pos - run[j].input.column,
            TopSpeed(run[j].input.velocity, tuning.limits), cfg.period + run[k].input.now - run[j].input.now)
  }

  lemma {:induction false} TuningIsKept(sqrt: real -> real, cfg: Config, tuning: Tuning, run: seq<Event>, n: nat)
    requires n <= |run| && forall i :: 0 <= i < |run| ==> !run[i].Tune?
    ensures Before(sqrt, cfg, tuning, run, n).tuning == tuning
  {
    hide Step;
    if n > 0 {
      TuningIsKept(sqrt, cfg, tuning, run, n - 1);
      StepKeepsTuning(sqrt, cfg, Before(sqrt, cfg, tuning, run, n - 1), run[n - 1]);
    }
  }

  lemma StepKeepsTuning(sqrt: real -> real, cfg: Config, s: Loop, e: Event)
    requires !e.Tune?
    ensures Step(sqrt, cfg, s, e).tuning == s.tuning
  {
    hide Next;
  }

  lemma UsableCruiseStaysNear(sqrt: real -> real, cfg: Config, tuning: Tuning, run: seq<Event>, j: nat, k: nat)
    requires IsSqrt(sqrt) && cfg.Valid() && tuning.limits.cruise > MIN_PEAK
             && IsEngagementAt(sqrt, cfg, tuning, run, j, k)
    ensures StaysNearFrom(sqrt, cfg, tuning, run, j, k)
  {
    hide IsSqrt, Before, Engagement, ClockAscends, Bounded;
    forall m: nat | j <= m <= k
      ensures SlowerThan(sqrt, cfg, tuning, run, m, TopSpeed(run[j].input.velocity, tuning.limits))
      ensures UsableAt(sqrt, cfg, tuning, run, m)
    {
      TuningIsKept(sqrt, cfg, tuning, run, m);
    }
    ReferenceStaysNearColumn(sqrt, cfg, tuning, run, j, k, TopSpeed(run[j].input.velocity, tuning.limits));
  }

  /**
    The reference stays near the column in every run exactly when the profile can use the cruise speed; with a
    smaller one, which the tuning check accepts, the first tick of an engagement may already jump.
  */
  lemma StaysNearIffCruiseIsUsable(sqrt: real -> real, tuning: Tuning)
    requires IsSqrt(sqrt)
    ensures StaysNearInEveryRun(sqrt, tuning) <==> tuning.limits.cruise > MIN_PEAK
  {
    hide IsSqrt, Engagement, ClockAscends, StaysNearFrom;
    if tuning.limits.cruise > MIN_PEAK {
      forall cfg: Config, run: seq<Event>, j: nat, k: nat | cfg.Valid() && IsEngagementAt(sqrt, cfg, tuning, run, j, k)
        ensures StaysNearFrom(sqrt, cfg, tuning, run, j, k)
      {
        UsableCruiseStaysNear(sqrt, cfg, tuning, run, j, k);
      }
    } else {
      var cfg, run := SlowCruiseLeavesColumn(sqrt, tuning);
    }
  }

  /** One tick at rest, armed, driving to the test angle. */
  function TestTick(angle: real): Event {
    Event.Tick(Input(false, 0.0, 0.0, true, 1.0, true, 1.0, true, None, true, angle))
  }

  lemma SlowCruiseLeavesColumn(sqrt: real -> real, tuning: Tuning) returns (cfg: Config, run: seq<Event>)
    requires IsSqrt(sqrt) && tuning.limits.cruise <= MIN_PEAK
    ensures cfg.Valid() && IsEngagementAt(sqrt, cfg, tuning, run, 0, 0) && !StaysNearFrom(sqrt, cfg, tuning, run, 0, 0)
  {
    var far, dt := SlowJump(sqrt, tuning.limits);
    hide IsSqrt, Next;
    cfg := Config(-1.0, far, dt);
    run := [TestTick(far)];
    var s, x := Start(tuning), run[0].input;
    assert Before(sqrt, cfg, tuning, run, 0) == s;
    assert Drives(s, x) && DrivesAt(sqrt, cfg, tuning, run, 0);
    assert Before(sqrt, cfg, tuning, run, 1) == Ticked(sqrt, cfg, s, x);
    assert Ticked(sqrt, cfg, s, x).reference == Next(sqrt, State(0.0, 0.0, 0.0), far, tuning.limits, dt);
  }

  // ------------------------------------------------------------------ holding the column on arming

  predicate UngatedAt(sqrt: real -> real, cfg: Config, tuning: Tuning, run: seq<Event>, k: nat)
    requires k < |run|
  {
    run[k].Tick? && !Gated(Latched(Before(sqrt, cfg, tuning, run, k), run[k].input), run[k].input)
  }

  /** Tick u was armed and ungated, and every tick between u and n was gated. */
  predicate ArmedLast(sqrt: real -> real, cfg: Config, tuning: Tuning, run: seq<Event>, u: nat, n: nat)
    requires u < n <= |run|
  {
    UngatedAt(sqrt, cfg, tuning, run, u) && run[u].input.armed
    && forall v: nat :: u < v < n ==> !UngatedAt(sqrt, cfg, tuning, run, v)
  }

  lemma ArmedSeenStep(sqrt: real -> real, cfg: Config, tuning: Tuning, run: seq<Event>, n: nat)
    requires n < |run|
    ensures Before(sqrt, cfg, tuning, run, n + 1).armedSeen
      == if UngatedAt(sqrt, cfg, tuning, run, n) then run[n].input.armed
         else Before(sqrt, cfg, tuning, run, n).armedSeen
  {
    hide Next;
  }

  /** Some armed, ungated tick before n has only gated ones after it. */
  ghost predicate WasArmed(sqrt: real -> real, cfg: Config, tuning: Tuning, run: seq<Event>, n: nat)
    requires n <= |run|
  {
    exists u: nat :: u < n && ArmedLast(sqrt, cfg, tuning, run, u, n)
  }

  lemma WasArmedNext(sqrt: real -> real, cfg: Config, tuning: Tuning, run: seq<Event>, n: nat)
    requires n < |run|
    ensures WasArmed(sqrt, cfg, tuning, run, n + 1)
       <==> if UngatedAt(sqrt, cfg, tuning, run, n) then run[n].input.armed else WasArmed(sqrt, cfg, tuning, run, n)
  {
    hide Before;
    var isUngated := UngatedAt(sqrt, cfg, tuning, run, n);
    hide UngatedAt;
    if isUngated {
      if run[n].input.armed { assert ArmedLast(sqrt, cfg, tuning, run, n, n + 1); }
    } else {
      if WasArmed(sqrt, cfg, tuning, run, n) {
        var u: nat :| u < n && ArmedLast(sqrt, cfg, tuning, run, u, n);
        assert ArmedLast(sqrt, cfg, tuning, run, u, n + 1);
      }
      if WasArmed(sqrt, cfg, tuning, run, n + 1) {
        var next := n + 1;
        var u: nat :| u < next && ArmedLast(sqrt, cfg, tuning, run, u, next);
        assert ArmedLast(sqrt, cfg, tuning, run, u, n);
      }
    }
  }

  lemma {:induction false} ArmedSeenIff(sqrt: real -> real, cfg: Config, tuning: Tuning, run: seq<Event>, n: nat)
    requires n <= |run|
    ensures Before(sqrt, cfg, tuning, run, n).armedSeen <==> WasArmed(sqrt, cfg, tuning, run, n)
  {
    hide UngatedAt, WasArmed, Before;
    if n > 0 {
      ArmedSeenIff(sqrt, cfg, tuning, run, n - 1);
      ArmedSeenStep(sqrt, cfg, tuning, run, n - 1);
      WasArmedNext(sqrt, cfg, tuning, run, n - 1);
    } else {
      NotArmedAtStart(sqrt, cfg, tuning, run);
    }
  }

  lemma NotArmedAtStart(sqrt: real -> real, cfg: Config, tuning: Tuning, run: seq<Event>)
    ensures !Before(sqrt, cfg, tuning, run, 0).armedSeen && !WasArmed(sqrt, cfg, tuning, run, 0)
  {
    hide UngatedAt;
  }

  lemma HoldStep(sqrt: real -> real, cfg: Config, tuning: Tuning, run: seq<Event>, k: nat)
    requires k < |run| && DrivesAt(sqrt, cfg, tuning, run, k)
    ensures var s, x := Before(sqrt, cfg, tuning, run, k), run[k].input;
            var angle := Before(sqrt, cfg, tuning, run, k + 1).commanded;
            && angle == (if x.meanwhile.Some? then cfg.Clamp(x.meanwhile.value)
                         else if s.armedSeen then s.commanded else cfg.Clamp(x.column))
            && Sent(sqrt, cfg, s, x).target == cfg.Clamp(if x.useTest then x.testAngle else angle)
  {
    hide Next;
  }

  /**
    What a driving tick targets, unless a test angle is used: the angle commanded during the tick; else the
    column's angle, exactly when no earlier ungated tick leaves the loop armed; else the angle commanded before.
    The target never leaves the configured range.
  */
  lemma HoldsIff(sqrt: real -> real, cfg: Config, tuning: Tuning, run: seq<Event>, k: nat)
    requires cfg.Valid() && k < |run| && DrivesAt(sqrt, cfg, tuning, run, k)
    ensures var s, x := Before(sqrt, cfg, tuning, run, k), run[k].input;
            var angle := if x.meanwhile.Some? then cfg.Clamp(x.meanwhile.value)
                         else if WasArmed(sqrt, cfg, tuning, run, k) then s.commanded
                         else cfg.Clamp(x.column);
            && Before(sqrt, cfg, tuning, run, k + 1).commanded == angle
            && Sent(sqrt, cfg, s, x).target == cfg.Clamp(if x.useTest then x.testAngle else angle)
            && cfg.minAngle <= Sent(sqrt, cfg, s, x).target <= cfg.maxAngle
  {
    HoldStep(sqrt, cfg, tuning, run, k);
    ArmedSeenIff(sqrt, cfg, tuning, run, k);
    hide Before, Sent, WasArmed, DrivesAt;
  }

  // ------------------------------------------------------------------ the last command since the column was held

  /** A driving tick before which no ungated tick leaves the loop armed: it takes the column's angle. */
  ghost predicate HoldsAt(sqrt: real -> real, cfg: Config, tuning: Tuning, run: seq<Event>, k: nat)
    requires k < |run|
  {
    DrivesAt(sqrt, cfg, tuning, run, k) && !WasArmed(sqrt, cfg, tuning, run, k)
  }

  /** The last angle another thread commands during event k. */
  function CommandAt(run: seq<Event>, k: nat): Option<real>
    requires k < |run|
  {
    match run[k]
    case Command(angle) => Some(angle)
    case Tick(x) => x.meanwhile
    case Tune(_) => None
  }

  /** The last command among the events j to n - 1. */
  function LastCommand(run: seq<Event>, j: nat, n: nat): Option<real>
    requires j <= n <= |run|
  {
    if n == j then None
    else if CommandAt(run, n - 1).Some? then CommandAt(run, n - 1)
    else LastCommand(run, j, n - 1)
  }

  predicate IsLastCommand(run: seq<Event>, i: nat, n: nat)
    requires i < n <= |run|
  {
    CommandAt(run, i).Some? && forall m :: i < m < n ==> CommandAt(run, m).None?
  }

  /** c is the last command among the events j to n - 1, if there is any. */
  ghost predicate EndsWithCommand(run: seq<Event>, j: nat, n: nat, c: Option<real>)
    requires j <= n <= |run|
  {
    if c.Some? then exists i: nat :: j <= i < n && IsLastCommand(run, i, n) && CommandAt(run, i) == c
    else forall i :: j <= i < n ==> CommandAt(run, i).None?
  }

  lemma OneMoreEvent(run: seq<Event>, j: nat, n: nat, c: Option<real>)
    requires j <= n < |run| && EndsWithCommand(run, j, n, c)
    ensures EndsWithCommand(run, j, n + 1, if CommandAt(run, n).Some? then CommandAt(run, n) else c)
  {
    hide CommandAt;
    if CommandAt(run, n).Some? {
      assert IsLastCommand(run, n, n + 1);
    } else if c.Some? {
      var i: nat :| j <= i < n && IsLastCommand(run, i, n) && CommandAt(run, i) == c;
      assert IsLastCommand(run, i, n + 1);
    }
  }

  lemma {:induction false} LastCommandIs(run: seq<Event>, j: nat, n: nat)
    requires j <= n <= |run|
    ensures EndsWithCommand(run, j, n, LastCommand(run, j, n))
  {
    hide CommandAt, LastCommand, EndsWithCommand;
    if n > j {
      LastCommandIs(run, j, n - 1);
      LastCommandNext(run, j, n - 1);
      OneMoreEvent(run, j, n - 1, LastCommand(run, j, n - 1));
    } else {
      NoCommandYet(run, j);
      NothingEnds(run, j);
    }
  }

  lemma NothingEnds(run: seq<Event>, j: nat)
    requires j <= |run|
    ensures EndsWithCommand(run, j, j, None)
  {
  }

  lemma LastCommandNext(run: seq<Event>, j: nat, n: nat)
    requires j <= n < |run|
    ensures LastCommand(run, j, n + 1) == if CommandAt(run, n).Some? then CommandAt(run, n) else LastCommand(run, j, n)
  {
    hide CommandAt;
  }

  lemma NoCommandYet(run: seq<Event>, j: nat)
    requires j <= |run|
    ensures LastCommand(run, j, j) == None
  {
  }

  /** Tick j holds the column, and no later tick up to k does. */
  ghost predicate HeldLast(sqrt: real -> real, cfg: Config, tuning: Tuning, run: seq<Event>, j: nat, k: nat)
    requires j <= k < |run|
  {
    HoldsAt(sqrt, cfg, tuning, run, j) && forall m: nat :: j < m <= k ==> !HoldsAt(sqrt, cfg, tuning, run, m)
  }

  lemma DrivesIsUngated(sqrt: real -> real, cfg: Config, tuning: Tuning, run: seq<Event>, k: nat)
    requires k < |run|
    ensures DrivesAt(sqrt, cfg, tuning, run, k) <==> UngatedAt(sqrt, cfg, tuning, run, k) && run[k].input.armed
  {
    hide Next, Before;
  }

  /** Before every driving tick, or on it, the loop has held the column. */
  lemma {:induction false} SomeTickHolds(sqrt: real -> real, cfg: Config, tuning: Tuning, run: seq<Event>, k: nat)
    returns (j: nat)
    requires k < |run| && DrivesAt(sqrt, cfg, tuning, run, k)
    ensures j <= k && HeldLast(sqrt, cfg, tuning, run, j, k)
    decreases k
  {
    hide Before, DrivesAt, UngatedAt;
    if WasArmed(sqrt, cfg, tuning, run, k) {
      var u: nat :| u < k && ArmedLast(sqrt, cfg, tuning, run, u, k);
      DrivesIsUngated(sqrt, cfg, tuning, run, u);
      j := SomeTickHolds(sqrt, cfg, tuning, run, u);
      forall m: nat | u < m <= k
        ensures !HoldsAt(sqrt, cfg, tuning, run, m)
      {
        DrivesIsUngated(sqrt, cfg, tuning, run, m);
      }
    } else {
      j := k;
    }
  }

  /** How an event changes the commanded angle. */
  lemma CommandStep(sqrt: real -> real, cfg: Config, tuning: Tuning, run: seq<Event>, n: nat)
    requires n < |run|
    ensures Before(sqrt, cfg, tuning, run, n + 1).commanded
         == if CommandAt(run, n).Some? then cfg.Clamp(CommandAt(run, n).value)
            else if HoldsAt(sqrt, cfg, tuning, run, n) then cfg.Clamp(run[n].input.column)
            else Before(sqrt, cfg, tuning, run, n).commanded
  {
    ArmedSeenIff(sqrt, cfg, tuning, run, n);
    hide WasArmed, Next;
  }

  lemma HeldOnlyAt(sqrt: real -> real, cfg: Config, tuning: Tuning, run: seq<Event>, j: nat, k: nat, m: nat)
    requires j <= m <= k < |run| && HeldLast(sqrt, cfg, tuning, run, j, k)
    ensures HoldsAt(sqrt, cfg, tuning, run, m) <==> m == j
  {
    hide HoldsAt;
  }

  lemma {:induction false} CommandedSinceHold(sqrt: real -> real, cfg: Config, tuning: Tuning, run: seq<Event>, j: nat,
                                              k: nat, n: nat)
    requires j < n <= k + 1 <= |run| && HeldLast(sqrt, cfg, tuning, run, j, k)
    ensures Before(sqrt, cfg, tuning, run, n).commanded
         == cfg.Clamp(if LastCommand(run, j, n).Some? then LastCommand(run, j, n).value else run[j].input.column)
    decreases n
  {
    hide Before, HoldsAt, HeldLast, LastCommand, CommandAt, Config.Clamp;
    CommandStep(sqrt, cfg, tuning, run, n - 1);
    HeldOnlyAt(sqrt, cfg, tuning, run, j, k, n - 1);
    LastCommandNext(run, j, n - 1);
    if n == j + 1 {
      NoCommandYet(run, j);
    } else {
      CommandedSinceHold(sqrt, cfg, tuning, run, j, k, n - 1);
    }
  }

  /**
    A driving tick targets the last angle commanded since the last
    tick that held the column, that tick included, or else the column's angle on that tick.
  */
  lemma DrivesToLastCommand(sqrt: real -> real, cfg: Config, tuning: Tuning, run: seq<Event>, k: nat) returns (j: nat)
    requires cfg.Valid() && k < |run| && DrivesAt(sqrt, cfg, tuning, run, k) && !run[k].input.useTest
    ensures j <= k && HeldLast(sqrt, cfg, tuning, run, j, k)
    ensures var c := LastCommand(run, j, k + 1);
            var target := Sent(sqrt, cfg, Before(sqrt, cfg, tuning, run, k), run[k].input).target;
            target == cfg.Clamp(if c.Some? then c.value else run[j].input.column)
  {
    hide Before, Sent, HoldsAt, DrivesAt, LastCommand;
    j := SomeTickHolds(sqrt, cfg, tuning, run, k);
    CommandedSinceHold(sqrt, cfg, tuning, run, j, k, k + 1);
    HoldStep(sqrt, cfg, tuning, run, k);
  }

  function Reading(column: real, isFresh: bool, clock: real, armed: bool): Event {
    Event.Tick(Input(false, column, 0.0, isFresh, clock, true, clock, armed, None, false, 0.0))
  }

  /**
    Disarming and re-arming while the feedback is lost is not seen: the loop drives to the old angle, not the
    column's.
  */
  lemma RearmingWhileGatedDoesNotHold(sqrt: real -> real, tuning: Tuning)
    ensures var cfg := Config(-90.0, 90.0, 0.01);
            var run := [Reading(0.0, true, 1.0, true), Reading(5.0, false, 2.0, false), Reading(5.0, true, 3.0, true)];
            && DrivesAt(sqrt, cfg, tuning, run, 2)
            && Sent(sqrt, cfg, Before(sqrt, cfg, tuning, run, 2), run[2].input).target == 0.0
            && cfg.Clamp(run[2].input.column) == 5.0
  {
    var cfg := Config(-90.0, 90.0, 0.01);
    var run := [Reading(0.0, true, 1.0, true), Reading(5.0, false, 2.0, false), Reading(5.0, true, 3.0, true)];
    hide Next;
    assert Before(sqrt, cfg, tuning, run, 0) == Start(tuning);
    var s1 := Before(sqrt, cfg, tuning, run, 1);
    assert s1 == Ticked(sqrt, cfg, Start(tuning), run[0].input);
    assert s1.seeded && !s1.faulted && s1.armedSeen && s1.commanded == 0.0;
    var s2 := Before(sqrt, cfg, tuning, run, 2);
    assert s2 == Ticked(sqrt, cfg, s1, run[1].input);
    assert s2.seeded && !s2.faulted && s2.armedSeen && s2.commanded == 0.0;
    assert Drives(s2, run[2].input);
  }
}
