/**
  What runs leave behind: the map of a solve reaches the frontend with each landmark's own estimate, and a
  landmark's age is the number of frames since it was last observed.
*/
module SlamHistory {
  import opened AssociationProtocol
  import Effects = FrontendEffects
  import opened Frontend
  import opened FrontendInvariants
  import opened GraphBackend
  import opened SlamTypes
  import opened Wrappers

  // ------------------------------------------------------------------ solved maps

  /** The scan is emitted, the backend still works, the frame is the fifth since the last solve, and is solved. */
  predicate IsSolved(s: Slam, o: Outcome, solve: Solve) {
    o.out.Some? && !s.back.failed && (s.back.poseCount + 1) % 5 == 0 && solve.Solved?
  }

  /** Every landmark handed out below next has a finite estimate, and none has the reserved id. */
  ghost predicate AllEstimated(points: map<nat, Option<Vec>>, next: nat) {
    forall id: nat :: IsIssued(id, next) ==> id in points && points[id].Some? && id != U64_MAX
  }

  /**
    A solve gives the one map, of the frame's time and the next sequence number, with the solver's pose and every
    landmark handed out so far at its own estimate; the frontend takes it exactly when the pose and every estimate
    are finite. Without a solve both maps stay.
  */
  lemma SolvedMapReachesFrontend(cfg: Config, s: Slam, input: Input)
    requires InStep(s)
    ensures var o := StepOf(cfg, s, input);
            if IsSolved(s, o, input.solve) then
              && o.slam.map_state.Some?
              && var m := o.slam.map_state.value;
                 && m.timestamp == input.frame.timestamp && m.sequence == s.back.nextSequence
                 && m.pose == input.solve.pose
                 && AreEstimates(Issued(o.slam.front.nextId), input.solve.points, m.landmarks)
                 && o.slam.front.map_state
                    == if m.pose.Some? && AllEstimated(input.solve.points, o.slam.front.nextId) then Some(m)
                       else s.front.map_state
            else o.slam.map_state == s.map_state && o.slam.front.map_state == s.front.map_state
  {
    hide Process, UpdateOf, Unmapped, NextAbove, AreEstimates, AllEstimated, AcceptsMap, AdmitFrame, Sound, WellFormed,
         Issued;
    assert MapIsFinite(s.front) by { InStepParts(s); }
    var p := Process(cfg, s.front, input.frame);
    Effects.AcceptedIff(cfg, s.front, input.frame);
    if p.out.Some? {
      var u := UpdateOf(s.back, p.out.value, input.solve);
      assert WellFormed(s.back) by { InStepParts(s); }
      UpdateKeepsWellFormed(s.back, p.out.value, input.solve);
      if !s.back.failed { UpdateIs(s.back, p.out.value, input.solve); }
      if u.map_state.Some? { SolvedMapIsOffered(cfg, s, input); }
    }
  }

  /** The map of a solve, when it is offered to the frontend. */
  lemma SolvedMapIsOffered(cfg: Config, s: Slam, input: Input)
    requires InStep(s) && Process(cfg, s.front, input.frame).out.Some? && !s.back.failed
    requires UpdateOf(s.back, Process(cfg, s.front, input.frame).out.value, input.solve).map_state.Some?
    ensures var p := Process(cfg, s.front, input.frame);
            var m, next := UpdateOf(s.back, p.out.value, input.solve).map_state.value, p.front.nextId;
            && input.solve.Solved? && StepOf(cfg, s, input).slam.front.nextId == next
            && m == MapState(s.back.nextSequence, input.frame.timestamp, input.solve.pose, m.landmarks)
            && AreEstimates(Issued(next), input.solve.points, m.landmarks)
            && (AcceptsMap(p.front, m) <==> m.pose.Some? && AllEstimated(input.solve.points, next))
  {
    hide Process, UpdateOf, WithMap, AreEstimates, AllEstimated, AcceptsMap, AdmitFrame, Sound, WellFormed, Issued,
         LandmarksOf;
    assert MapIsFinite(s.front) by { InStepParts(s); }
    var p := Process(cfg, s.front, input.frame);
    Effects.AcceptedIff(cfg, s.front, input.frame);
    EmittedIsAdmitted(cfg, s, input);
    SolvedMapIs(s.back, p.out.value, input.solve);
    LandmarksAreEstimates(Issued(p.front.nextId), input.solve.points);
    StepKeepsNext(cfg, s, input);
    SolvedMapIsTakenIff(cfg, s, input);
    FiniteIffEstimated(p.front.nextId, input.solve.points, LandmarksOf(Issued(p.front.nextId), input.solve.points));
  }

  lemma FiniteIffEstimated(next: nat, points: map<nat, Option<Vec>>, ls: seq<MapLandmark>)
    requires AreEstimates(Issued(next), points, ls)
    ensures (forall i :: 0 <= i < |ls| ==> ls[i].position.Some? && ls[i].id != U64_MAX) <==> AllEstimated(points, next)
  {
    forall id: nat | IsIssued(id, next)
      ensures exists i :: 0 <= i < |ls| && ls[i].id == id
    {
      assert id in Issued(next);
    }
    forall i | 0 <= i < |ls|
      ensures IsIssued(ls[i].id, next)
    {
      assert ls[i].id in Issued(next);
    }
  }

  // ------------------------------------------------------------------ ages

  /** The frames the frontend emits along a run, in order. */
  ghost function Emitted(cfg: Config, s: Slam, inputs: seq<Input>): seq<ObservationFrame>
    requires InStep(s)
    decreases |inputs|
  {
    if inputs == [] then []
    else
      StepKeepsInStep(cfg, s, inputs[0]);
      var o := StepOf(cfg, s, inputs[0]);
      (if o.out.None? then [] else [o.out.value]) + Emitted(cfg, o.slam, inputs[1..])
  }

  ghost predicate ObservesAt(frames: seq<ObservationFrame>, k: nat, id: nat)
    requires k < |frames|
  {
    Effects.Observes(frames[k].observations, id)
  }

  /** Counting on from start, last is the number of the last of the frames that observes id; before if none does. */
  ghost predicate IsLast(frames: seq<ObservationFrame>, id: nat, start: nat, before: nat, last: nat) {
    if forall k: nat :: k < |frames| ==> !ObservesAt(frames, k, id) then last == before
    else exists k: nat :: k < |frames| && last == start + k + 1 && ObservesLast(frames, k, id)
  }

  /** Frame k observes id, and no later one does. */
  ghost predicate ObservesLast(frames: seq<ObservationFrame>, k: nat, id: nat)
    requires k < |frames|
  {
    ObservesAt(frames, k, id) && forall j: nat :: k < j < |frames| ==> !ObservesAt(frames, j, id)
  }

  lemma LastOfMore(f: ObservationFrame, frames: seq<ObservationFrame>, id: nat, start: nat, before: nat, now: nat,
                   last: nat)
    requires now == if Effects.Observes(f.observations, id) then start + 1 else before
    requires IsLast(frames, id, start + 1, now, last)
    ensures IsLast([f] + frames, id, start, before, last)
  {
    hide Effects.Observes;
    var all := [f] + frames;
    forall k: nat | k < |frames|
      ensures ObservesAt(all, k + 1, id) <==> ObservesAt(frames, k, id)
    {
    }
    if forall k: nat :: k < |frames| ==> !ObservesAt(frames, k, id) {
      assert forall k: nat :: 0 < k < |all| ==> !ObservesAt(all, k, id) by {
        forall k: nat | 0 < k < |all| ensures !ObservesAt(all, k, id) { assert !ObservesAt(frames, k - 1, id); }
      }
      if ObservesAt(all, 0, id) { assert ObservesLast(all, 0, id); }
    } else {
      var k: nat :| k < |frames| && last == start + 1 + k + 1 && ObservesLast(frames, k, id);
      forall j: nat | k + 1 < j < |all|
        ensures !ObservesAt(all, j, id)
      {
        assert !ObservesAt(frames, j - 1, id);
      }
      assert ObservesLast(all, k + 1, id);
    }
  }

  lemma NoFrames(id: nat, start: nat, before: nat)
    ensures IsLast([], id, start, before, before)
  {
  }

  /** What one scan does to the frame count and the last observed frames. */
  lemma StepRecords(cfg: Config, s: Slam, input: Input, id: nat)
    requires InStep(s)
    ensures var o := StepOf(cfg, s, input);
            var before, after := s.front, o.slam.front;
            if o.out.None? then after == before
            else
              && after.frameCount == before.frameCount + 1
              && LastObserved(after.lastObserved, id)
                 == if Effects.Observes(o.out.value.observations, id) then before.frameCount + 1
                    else LastObserved(before.lastObserved, id)
  {
    hide Process, UpdateOf, AcceptsMap, Unmapped, NextAbove, WellFormed, Sound, LastObserved, Effects.Observes;
    assert MapIsFinite(s.front) by { InStepParts(s); }
    Effects.AcceptedIff(cfg, s.front, input.frame);
    if Process(cfg, s.front, input.frame).out.Some? { Effects.FrameRecords(cfg, s.front, input.frame, id); }
  }

  /**
    Over any run the frame count grows by the frames emitted, and the frame recorded for a landmark is the last of
    them that observes it.
  */
  lemma {:induction false} LastObservedIsLast(cfg: Config, s: Slam, inputs: seq<Input>, id: nat)
    requires InStep(s)
    ensures var end := Run(cfg, s, inputs).front;
            && end.frameCount == s.front.frameCount + |Emitted(cfg, s, inputs)|
            && IsLast(Emitted(cfg, s, inputs), id, s.front.frameCount, LastObserved(s.front.lastObserved, id),
                      LastObserved(end.lastObserved, id))
    decreases |inputs|
  {
    hide StepOf, InStep, LastObserved, IsLast, Effects.Observes;
    if inputs != [] {
      StepKeepsInStep(cfg, s, inputs[0]);
      StepRecords(cfg, s, inputs[0], id);
      assert MapIsFinite(s.front) by { InStepParts(s); }
      var o := StepOf(cfg, s, inputs[0]);
      LastObservedIsLast(cfg, o.slam, inputs[1..], id);
      var rest := Emitted(cfg, o.slam, inputs[1..]);
      if o.out.Some? {
        LastOfMore(o.out.value, rest, id, s.front.frameCount, LastObserved(s.front.lastObserved, id),
                   LastObserved(o.slam.front.lastObserved, id),
                   LastObserved(Run(cfg, s, inputs).front.lastObserved, id));
      } else {
        assert [] + rest == rest;
      }
    } else {
      NoFrames(id, s.front.frameCount, LastObserved(s.front.lastObserved, id));
    }
  }

  /**
    After any run that starts with a new frontend, the age that a scan's gate gives a landmark is the number of frames
    since the last one that observed it, and at least 1.
  */
  lemma AgeIsFramesSince(cfg: Config, s: Slam, inputs: seq<Input>, frame: ConeFrame, id: nat, k: nat)
    requires InStep(s) && s.front == INITIAL
    requires var frames := Emitted(cfg, s, inputs); k < |frames| < U64_MAX && ObservesLast(frames, k, id)
    ensures FramesSince(Entered(Run(cfg, s, inputs).front, frame), id)
         == (|Emitted(cfg, s, inputs)| - k) as real >= 1.0
  {
    hide InStep, ObservesAt, LastObserved;
    LastObservedIsLast(cfg, s, inputs, id);
    var frames, end := Emitted(cfg, s, inputs), Run(cfg, s, inputs).front;
    assert ObservesAt(frames, k, id);
    var j: nat :| j < |frames| && LastObserved(end.lastObserved, id) == j + 1 && ObservesLast(frames, j, id);
    assert !(j < k) && !(k < j);
    Effects.FramesSinceIs(Entered(end, frame), id);
    hide FramesSince;
  }
}
