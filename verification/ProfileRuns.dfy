/** What the profile guarantees over runs of ticks toward a fixed goal: where and when it arrives. */
module ProfileRuns {
  import opened Arithmetic
  import opened Profile
  import opened Trapezoid

  // ------------------------------------------------------------------ a fixed goal

  function Sum(dts: seq<real>): real { if dts == [] then 0.0 else dts[0] + Sum(dts[1..]) }

  predicate Ticks(dts: seq<real>) { forall i :: 0 <= i < |dts| ==> dts[i] >= 0.0 }

  function Run(sqrt: real -> real, s: State, goal: real, lim: Limits, dts: seq<real>): State
    requires lim.Accepted()
    decreases |dts|
  {
    if dts == [] then s else Run(sqrt, Next(sqrt, s, goal, lim, dts[0]), goal, lim, dts[1..])
  }

  predicate SamePoint(x: State, y: State) { x.pos == y.pos && x.vel == y.vel }

  lemma SumIsNonNegative(dts: seq<real>)
    requires Ticks(dts)
    ensures Sum(dts) >= 0.0
  {
    if dts != [] { SumIsNonNegative(dts[1..]); }
  }

  lemma RunOfOne(sqrt: real -> real, s: State, goal: real, lim: Limits, dt: real)
    requires lim.Accepted()
    ensures Run(sqrt, s, goal, lim, [dt]) == Next(sqrt, s, goal, lim, dt) && Sum([dt]) == dt
  {
    hide Next;
    assert [dt][1..] == [];
  }

  /** However a duration is cut into ticks, the reference ends where one step of the whole duration ends. */
  lemma {:induction false} RunIsOneStep(sqrt: real -> real, s: State, goal: real, lim: Limits, dts: seq<real>)
    requires IsSqrt(sqrt) && lim.Accepted() && Ticks(dts) && dts != []
    ensures SamePoint(Run(sqrt, s, goal, lim, dts), Next(sqrt, s, goal, lim, Sum(dts)))
    decreases |dts|
  {
    hide IsSqrt, Next;
    if |dts| == 1 {
      RunOfOne(sqrt, s, goal, lim, dts[0]);
      assert dts == [dts[0]];
    } else {
      RunIsOneStep(sqrt, Next(sqrt, s, goal, lim, dts[0]), goal, lim, dts[1..]);
      SumIsNonNegative(dts[1..]);
      StepThenStep(sqrt, s, goal, lim, dts[0], Sum(dts[1..]));
    }
  }

  /** The remaining time falls by exactly the time run, so arrival is decided by the ticks' sum alone. */
  lemma ArrivesExactlyOnTime(sqrt: real -> real, s: State, goal: real, lim: Limits, dts: seq<real>)
    requires IsSqrt(sqrt) && lim.Accepted() && Ticks(dts) && dts != []
    ensures RemainingTime(sqrt, Run(sqrt, s, goal, lim, dts), goal, lim)
         == Max(0.0, RemainingTime(sqrt, s, goal, lim) - Sum(dts))
    ensures SamePoint(Run(sqrt, s, goal, lim, dts), State(goal, 0.0, 0.0))
       <==> Sum(dts) >= RemainingTime(sqrt, s, goal, lim)
  {
    var end, one := Run(sqrt, s, goal, lim, dts), Next(sqrt, s, goal, lim, Sum(dts));
    RunIsOneStep(sqrt, s, goal, lim, dts);
    SumIsNonNegative(dts);
    StepTakesItsTime(sqrt, s, goal, lim, Sum(dts));
    TimeIgnoresAcc(sqrt, end, one, goal, lim);
    ArrivedIffNoTimeIsLeft(sqrt, end, goal, lim);
  }

  lemma TimeIgnoresAcc(sqrt: real -> real, x: State, y: State, goal: real, lim: Limits)
    requires lim.Accepted() && SamePoint(x, y)
    ensures RemainingTime(sqrt, x, goal, lim) == RemainingTime(sqrt, y, goal, lim)
  {
  }
}
