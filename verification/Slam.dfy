/**
  Slam::update: the frontend and the backend together, over every run.

  Main results: before its first failure the backend admits every observation the frontend emits, and it
  knows exactly the ids the frontend has handed out; every id is announced as new exactly once, in order.
*/
module AssociationProtocol {
  import Evidence = CandidateEvidence
  import opened Frontend
  import opened FrontendInvariants
  import opened GraphBackend
  import opened SlamTypes
  import opened Wrappers

  datatype Slam = Slam(front: Front, back: Graph, map_state: Option<MapState>)

  const START := Slam(INITIAL, EMPTY, None)

  /** One scan: the detections, and what the solver does should the scan trigger it. */
  datatype Input = Input(frame: ConeFrame, solve: Solve)

  datatype Outcome = Outcome(slam: Slam, out: Option<ObservationFrame>, counts: Admission)

  /** Slam::update. */
  function StepOf(cfg: Config, s: Slam, input: Input): Outcome
    requires MapIsFinite(s.front)
  {
    var p := Process(cfg, s.front, input.frame);
    match p.out
    case None => Outcome(s.(front := p.front), None, NO_COUNTS)
    case Some(observed) =>
      var u := UpdateOf(s.back, observed, input.solve);
      if u.map_state.Some? then
        Outcome(Slam(WithMap(p.front, u.map_state.value), u.graph, u.map_state), p.out, u.counts)
      else
        Outcome(s.(front := p.front, back := u.graph), p.out, u.counts)
  }

  // ------------------------------------------------------------------ the invariant

  predicate IsIssued(id: nat, next: nat) { 1 <= id < next }

  /** The ids handed out when next is the next one. */
  ghost function Issued(next: nat): set<nat> { set id: nat | id < next && IsIssued(id, next) }

  /**
    Both sides are sound, and until the backend fails it knows exactly the ids handed out and
    has numbered its next map above the one in use.
  */
  ghost predicate InStep(s: Slam) {
    && Sound(s.front)
    && WellFormed(s.back)
    && (!s.back.failed ==>
          && s.back.landmarkIds == Issued(s.front.nextId)
          && (s.front.map_state.Some? ==> s.front.map_state.value.sequence < s.back.nextSequence))
  }

  lemma StartIsInStep()
    ensures InStep(START)
  {
  }

  // ------------------------------------------------------------------ the backend admits what the frontend emits

  /** Observations that name known landmarks, except for new ones that name unknown landmarks. */
  ghost predicate Admissible(obs: seq<Observation>, known: set<nat>) {
    Distinct(obs) && forall o :: o in obs ==> o.measurement.Some? && (o.status.New? <==> o.id !in known)
  }

  ghost function NewIds(obs: seq<Observation>): set<nat> { set o | o in obs && o.status.New? :: o.id }

  /** Nothing is rejected, and exactly the new ids are added. */
  ghost predicate TookAll(a: Admission, start: Admission, obs: seq<Observation>) {
    && a.admitted == start.admitted + |obs|
    && a.nonfinite == start.nonfinite && a.duplicate == start.duplicate && a.unconfirmed == start.unconfirmed
    && (forall id :: id in a.seen <==> exists o :: o in obs && o.id == id)
    && a.added == NewIds(obs)
  }

  lemma AdmitNextTakes(known: set<nat>, pose: Key, start: Admission, a: Admission, obs: seq<Observation>, n: nat)
    requires n < |obs| && Admissible(obs, known) && TookAll(a, start, obs[..n])
    ensures TookAll(AdmitOne(known, pose, a, obs[n]), start, obs[..n + 1])
  {
    var o := obs[n];
    assert obs[..n + 1] == obs[..n] + [o];
    assert o in obs && o.id !in a.seen;
    NewIdsNext(obs[..n], o);
    hide NewIds, Distinct;
  }

  lemma NewIdsNext(obs: seq<Observation>, o: Observation)
    ensures NewIds(obs + [o]) == if o.status.New? then NewIds(obs) + {o.id} else NewIds(obs)
  {
  }

  lemma {:induction false} AdmitTakesAll(known: set<nat>, pose: Key, start: Admission, obs: seq<Observation>, n: nat)
    requires n <= |obs| && Admissible(obs, known) && start.seen == {} && start.added == {}
    ensures TookAll(Admit(known, pose, start, obs, n), start, obs[..n])
  {
    hide Admissible, AdmitOne;
    if n > 0 {
      hide TookAll;
      AdmitTakesAll(known, pose, start, obs, n - 1);
      AdmitNextTakes(known, pose, start, Admit(known, pose, start, obs, n - 1), obs, n - 1);
    }
  }

  lemma StagesAreAdmissible(m: Matching3, mapIds: set<nat>, graphIds: set<nat>, next: nat)
    requires Names(m, mapIds, graphIds, next) && Distinct(m.Observations()) && next >= 1
    requires forall id :: id in mapIds + graphIds ==> 1 <= id < next
    ensures Admissible(m.Observations(), Issued(next))
    ensures Issued(next) + NewIds(m.Observations()) == Issued(next + |m.unconfirmed.observations|)
  {
    var a, b, c := m.mapped.observations, m.graph.observations, m.unconfirmed.observations;
    forall o | o in m.Observations()
      ensures o.measurement.Some? && (o.status.New? <==> o.id !in Issued(next))
    {
      if o in a { assert o.id in mapIds + graphIds; }
      else if o in b { assert o.id in mapIds + graphIds; }
      else { assert o in c; }
    }
    forall id | id in Issued(next + |c|)
      ensures id in Issued(next) + NewIds(m.Observations())
    {
      if id >= next {
        assert c[id - next].id == id && c[id - next] in c;
        assert c[id - next] in m.Observations();
      }
    }
    forall id | id in NewIds(m.Observations())
      ensures id in Issued(next + |c|)
    {
      var o :| o in m.Observations() && o.status.New? && o.id == id;
      assert o in c;
    }
  }

  // ------------------------------------------------------------------ the frontend takes the solved map

  lemma WithMapKeepsSound(st: Front, m: MapState)
    requires Sound(st) && st.lastFrame == Some(m.timestamp)
    requires forall i :: 0 <= i < |m.landmarks| ==> 1 <= m.landmarks[i].id < st.nextId
    ensures Sound(WithMap(st, m)) && WithMap(st, m).nextId == st.nextId && WithMap(st, m).lastFrame == st.lastFrame
  {
    if AcceptsMap(st, m) {
      NextAboveStays(st.nextId, m.landmarks, |m.landmarks|);
      UnmappedKeeps(st.candidates, MapIds(m.landmarks), |st.candidates|);
      var after := WithMap(st, m);
      assert IdsOf(after) == MapIds(m.landmarks);
      forall c | c in after.candidates
        ensures c.lastSeen <= m.timestamp && (c.id.Some? ==> 1 <= c.id.value < st.nextId && c.id.value !in IdsOf(after))
      {
        assert c in st.candidates;
      }
    }
  }

  lemma NextAboveStays(next: nat, ls: seq<MapLandmark>, n: nat)
    requires n <= |ls| && forall i :: 0 <= i < |ls| ==> ls[i].id < next
    ensures NextAbove(next, ls, n) == next
  {
  }

  /** The solved map lists every landmark of the graph once, in order of id. */
  lemma SolvedMapLists(known: set<nat>, points: map<nat, Option<Vec>>)
    ensures var ls := LandmarksOf(known, points);
            && IdsDistinct(ls) && MapIds(ls) == known
            && forall i :: 0 <= i < |ls| ==> ls[i].id in known
  {
    var ids, ls := Ascending(known), LandmarksOf(known, points);
    assert forall i :: 0 <= i < |ids| ==> ids[i] in ids && ls[i].id == ids[i];
    forall id | id in known
      ensures id in MapIds(ls)
    {
      var i :| 0 <= i < |ids| && ids[i] == id;
      assert ls[i] in ls;
    }
  }

  // ------------------------------------------------------------------ one step

  /** What a step guarantees: nothing the frontend emits is rejected, and new ids are announced in order. */
  ghost predicate Delivered(s: Slam, o: Outcome) {
    match o.out
    case None => o.slam == s
    case Some(observed) =>
      && Distinct(observed.observations)
      && (!s.back.failed ==>
            && o.counts.admitted == |observed.observations|
            && o.counts.nonfinite == 0 && o.counts.duplicate == 0 && o.counts.unconfirmed == 0)
      && (s.back.failed ==> o.slam.back == s.back && o.slam.map_state == s.map_state)
  }

  /** One scan keeps the two sides in step, and the backend admits every observation it receives. */
  lemma StepKeepsInStep(cfg: Config, s: Slam, input: Input)
    requires InStep(s)
    ensures InStep(StepOf(cfg, s, input).slam)
    ensures Delivered(s, StepOf(cfg, s, input))
  {
    hide Process, UpdateOf, Stages, Usable, Names, WithMap, WellFormed, AdmitFrame;
    var p := Process(cfg, s.front, input.frame);
    ProcessKeepsSound(cfg, s.front, input.frame);
    if p.out.Some? {
      var observed := p.out.value;
      UpdateKeepsWellFormed(s.back, observed, input.solve);
      if !s.back.failed {
        EmittedIsAdmitted(cfg, s, input);
        CountsAreAdmission(s.back, observed, input.solve);
        SolveKeepsInStep(cfg, s, input, p.front, observed);
      }
    }
  }

  /** The stages of a frame that is emitted. */
  ghost function EmittedStages(cfg: Config, st: Front, frame: ConeFrame): Matching3
    requires MapIsFinite(st) && frame.pose.Some?
  {
    Stages(cfg, Entered(st, frame), frame.pose.value, frame.timestamp,
           Usable(cfg, frame.pose.value, frame.detections, |frame.detections|))
  }

  /** What a frame emits is what its stages observe, and names landmarks by their status. */
  lemma EmittedNames(cfg: Config, st: Front, frame: ConeFrame)
    requires Sound(st) && Process(cfg, st, frame).out.Some?
    ensures frame.pose.Some?
    ensures var p, m := Process(cfg, st, frame), EmittedStages(cfg, st, frame);
            && p.out.value.observations == m.Observations() && Distinct(m.Observations())
            && Names(m, IdsOf(st), GraphIds(st.candidates), st.nextId)
            && p.front.nextId == st.nextId + |m.unconfirmed.observations|
  {
    AcceptedHasPose(cfg, st, frame);
    ProcessKeepsSound(cfg, st, frame);
    hide Process, Stages, Usable, Names, Distinct, Sound;
  }

  /** A frame of admissible observations is admitted in full. */
  lemma AdmissibleIsAdmitted(g: Graph, frame: ObservationFrame)
    requires Admissible(frame.observations, g.landmarkIds)
    ensures var a := AdmitFrame(g, frame);
            && a.admitted == |frame.observations|
            && a.nonfinite == 0 && a.duplicate == 0 && a.unconfirmed == 0
            && a.added == NewIds(frame.observations)
  {
    hide Admissible, NewIds, WithPose, Admit;
    var obs := frame.observations;
    NothingStarted(g);
    AdmitTakesAll(g.landmarkIds, X(g.poseCount), WithPose(g), obs, |obs|);
    assert obs[..|obs|] == obs;
  }

  /** The frame's observations, checked against the graph. */
  lemma EmittedIsAdmitted(cfg: Config, s: Slam, input: Input)
    requires InStep(s) && !s.back.failed && Process(cfg, s.front, input.frame).out.Some?
    ensures var p := Process(cfg, s.front, input.frame);
            var a := AdmitFrame(s.back, p.out.value);
            && a.admitted == |p.out.value.observations|
            && a.nonfinite == 0 && a.duplicate == 0 && a.unconfirmed == 0
            && s.back.landmarkIds + a.added == Issued(p.front.nextId)
  {
    hide Process, EmittedStages, Names, Distinct, WellFormed, Issued, NewIds, Admissible, AdmitFrame, MapIsSound,
         Tracked, PromotedDistinct, IdsOf, GraphIds;
    assert MapIsFinite(s.front) by { InStepParts(s); }
    EmittedNames(cfg, s.front, input.frame);
    var p, m := Process(cfg, s.front, input.frame), EmittedStages(cfg, s.front, input.frame);
    GraphIdsAreTracked(s.front);
    StagesAreAdmissible(m, IdsOf(s.front), GraphIds(s.front.candidates), s.front.nextId);
    AdmissibleIsAdmitted(s.back, p.out.value);
  }

  lemma NothingStarted(g: Graph)
    ensures var a := WithPose(g);
            && a.seen == {} && a.added == {} && a.admitted == 0
            && a.nonfinite == 0 && a.duplicate == 0 && a.unconfirmed == 0
  {
  }

  /** What happens after the observations are admitted. */
  lemma SolveKeepsInStep(cfg: Config, s: Slam, input: Input, front: Front, observed: ObservationFrame)
    requires InStep(s) && !s.back.failed && Sound(front)
    requires front.lastFrame == Some(observed.timestamp) && front.map_state == s.front.map_state
    requires s.back.landmarkIds + AdmitFrame(s.back, observed).added == Issued(front.nextId)
    requires WellFormed(UpdateOf(s.back, observed, input.solve).graph)
    ensures var u := UpdateOf(s.back, observed, input.solve);
            var after := if u.map_state.Some? then WithMap(front, u.map_state.value) else front;
            InStep(Slam(after, u.graph, if u.map_state.Some? then u.map_state else s.map_state))
  {
    var u := UpdateOf(s.back, observed, input.solve);
    hide AdmitFrame, WellFormed;
    if u.map_state.Some? {
      SolvedMapLists(Issued(front.nextId), input.solve.points);
      var m := u.map_state.value;
      assert m.landmarks == LandmarksOf(Issued(front.nextId), input.solve.points);
      WithMapKeepsSound(front, m);
    }
  }

  /**
    The frontend takes a solved map exactly when its numbers are finite (and no id is the reserved
    maximum); the order of timestamps and sequence numbers never makes it refuse one.
  */
  lemma SolvedMapIsTakenIff(cfg: Config, s: Slam, input: Input)
    requires InStep(s) && Process(cfg, s.front, input.frame).out.Some?
    requires UpdateOf(s.back, Process(cfg, s.front, input.frame).out.value, input.solve).map_state.Some?
    ensures var p := Process(cfg, s.front, input.frame);
            var m := UpdateOf(s.back, p.out.value, input.solve).map_state.value;
            AcceptsMap(p.front, m) <==>
              && m.pose.Some?
              && forall i :: 0 <= i < |m.landmarks| ==> m.landmarks[i].position.Some? && m.landmarks[i].id != U64_MAX
  {
    hide Process, Names, Stages, WellFormed, AdmitFrame, UpdateOf, LandmarksOf, IdsDistinct, MapIds;
    var p := Process(cfg, s.front, input.frame);
    ProcessKeepsSound(cfg, s.front, input.frame);
    SolvedMapIs(s.back, p.out.value, input.solve);
    SolvedMapLists(s.back.landmarkIds + AdmitFrame(s.back, p.out.value).added, input.solve.points);
    assert Sound(p.front) && InStep(s);
    BackendHasNotFailed(s, p.out.value, input.solve);
  }

  lemma BackendHasNotFailed(s: Slam, observed: ObservationFrame, solve: Solve)
    requires UpdateOf(s.back, observed, solve).map_state.Some?
    ensures !s.back.failed
  {
    hide AdmitFrame;
  }

  // ------------------------------------------------------------------ runs

  ghost function Run(cfg: Config, s: Slam, inputs: seq<Input>): (r: Slam)
    requires InStep(s)
    ensures InStep(r)
    decreases |inputs|
  {
    if inputs == [] then s
    else
      StepKeepsInStep(cfg, s, inputs[0]);
      Run(cfg, StepOf(cfg, s, inputs[0]).slam, inputs[1..])
  }

  /** Whatever the scans and the solver do, every scan of a run is delivered in full. */
  lemma {:induction false} EveryScanIsDelivered(cfg: Config, s: Slam, inputs: seq<Input>, k: nat)
    requires InStep(s) && k < |inputs|
    ensures var before := Run(cfg, s, inputs[..k]);
            Delivered(before, StepOf(cfg, before, inputs[k]))
  {
    StepKeepsInStep(cfg, Run(cfg, s, inputs[..k]), inputs[k]);
  }

  /** The ids of the new observations, in order. */
  ghost function NewIdList(obs: seq<Observation>): seq<nat> {
    if obs == [] then []
    else if obs[0].status.New? then [obs[0].id] + NewIdList(obs[1..])
    else NewIdList(obs[1..])
  }

  /** All ids announced as new along a run, in order. */
  ghost function Announced(cfg: Config, s: Slam, inputs: seq<Input>): seq<nat>
    requires InStep(s)
    decreases |inputs|
  {
    if inputs == [] then []
    else
      StepKeepsInStep(cfg, s, inputs[0]);
      var o := StepOf(cfg, s, inputs[0]);
      (if o.out.None? then [] else NewIdList(o.out.value.observations)) + Announced(cfg, o.slam, inputs[1..])
  }

  /** next, next + 1, ..., end - 1 */
  ghost predicate Counts(ids: seq<nat>, next: nat, end: nat) {
    end == next + |ids| && forall k :: 0 <= k < |ids| ==> ids[k] == next + k
  }

  lemma {:induction false} NewIdListOfStages(a: seq<Observation>, c: seq<Observation>, next: nat)
    requires Announces(c, next) && forall o :: o in a ==> !o.status.New?
    ensures Counts(NewIdList(a + c), next, next + |c|)
  {
    if a != [] {
      assert a[0] in a && (a + c)[1..] == a[1..] + c;
      NewIdListOfStages(a[1..], c, next);
    } else if c != [] {
      assert a + c == c && c[1..] == [] + c[1..];
      assert forall k :: 0 <= k < |c[1..]| ==> c[1..][k].id == next + 1 + k;
      NewIdListOfStages([], c[1..], next + 1);
    }
  }

  lemma AcceptedHasPose(cfg: Config, st: Front, frame: ConeFrame)
    requires MapIsFinite(st) && Process(cfg, st, frame).out.Some?
    ensures frame.pose.Some?
  {
    hide Stages, Usable, Finished;
  }

  lemma ProcessAnnounces(cfg: Config, st: Front, frame: ConeFrame)
    requires Sound(st)
    ensures var p := Process(cfg, st, frame);
            Counts(if p.out.None? then [] else NewIdList(p.out.value.observations), st.nextId, p.front.nextId)
  {
    hide Process, Stages, Usable, Names, NewIdList, Announces, Tracked, PromotedDistinct, IdsDistinct;
    ProcessKeepsSound(cfg, st, frame);
    var p := Process(cfg, st, frame);
    if p.out.Some? {
      AcceptedHasPose(cfg, st, frame);
      var m := Stages(cfg, Entered(st, frame), frame.pose.value, frame.timestamp,
                      Usable(cfg, frame.pose.value, frame.detections, |frame.detections|));
      StagesAnnounce(m, IdsOf(st), GraphIds(st.candidates), st.nextId);
    }
  }

  lemma StagesAnnounce(m: Matching3, mapIds: set<nat>, graphIds: set<nat>, next: nat)
    requires Names(m, mapIds, graphIds, next)
    ensures Counts(NewIdList(m.Observations()), next, next + |m.unconfirmed.observations|)
  {
    NewIdListOfStages(m.mapped.observations + m.graph.observations, m.unconfirmed.observations, next);
  }

  lemma StepAnnounces(cfg: Config, s: Slam, input: Input)
    requires InStep(s)
    ensures var o := StepOf(cfg, s, input);
            Counts(if o.out.None? then [] else NewIdList(o.out.value.observations), s.front.nextId, o.slam.front.nextId)
  {
    ProcessAnnounces(cfg, s.front, input.frame);
    StepKeepsNext(cfg, s, input);
    hide Process, UpdateOf, WithMap, Counts, Sound, WellFormed;
  }

  /** Taking a map does not change the next id. */
  lemma StepKeepsNext(cfg: Config, s: Slam, input: Input)
    requires InStep(s)
    ensures StepOf(cfg, s, input).slam.front.nextId == Process(cfg, s.front, input.frame).front.nextId
  {
    hide Process, UpdateOf, AdmitFrame, WellFormed, LandmarksOf, WithMap, IdsDistinct, MapIds;
    var p := Process(cfg, s.front, input.frame);
    if p.out.Some? {
      var u := UpdateOf(s.back, p.out.value, input.solve);
      if u.map_state.Some? {
        BackendHasNotFailed(s, p.out.value, input.solve);
        EmittedIsAdmitted(cfg, s, input);
        SolvedMapIs(s.back, p.out.value, input.solve);
        SolvedMapLists(Issued(p.front.nextId), input.solve.points);
        WithMapKeepsNext(p.front, u.map_state.value);
      }
    }
  }

  lemma WithMapKeepsNext(st: Front, m: MapState)
    requires forall i :: 0 <= i < |m.landmarks| ==> m.landmarks[i].id < st.nextId
    ensures WithMap(st, m).nextId == st.nextId
  {
    if AcceptsMap(st, m) { NextAboveStays(st.nextId, m.landmarks, |m.landmarks|); }
  }

  /** Over any run each id is announced as new exactly once, in increasing order without gaps. */
  lemma {:induction false} EachIdIsAnnouncedOnce(cfg: Config, s: Slam, inputs: seq<Input>)
    requires InStep(s)
    ensures Counts(Announced(cfg, s, inputs), s.front.nextId, Run(cfg, s, inputs).front.nextId)
    decreases |inputs|
  {
    hide StepOf, WellFormed, Counts, NewIdList;
    if inputs != [] {
      StepKeepsInStep(cfg, s, inputs[0]);
      StepAnnounces(cfg, s, inputs[0]);
      var o := StepOf(cfg, s, inputs[0]);
      EachIdIsAnnouncedOnce(cfg, o.slam, inputs[1..]);
      CountsOn(if o.out.None? then [] else NewIdList(o.out.value.observations), Announced(cfg, o.slam, inputs[1..]),
               s.front.nextId, o.slam.front.nextId, Run(cfg, o.slam, inputs[1..]).front.nextId);
    } else {
      NothingCounts(s.front.nextId);
    }
  }

  lemma NothingCounts(next: nat)
    ensures Counts([], next, next)
  {
  }

  lemma CountsOn(a: seq<nat>, b: seq<nat>, next: nat, middle: nat, end: nat)
    requires Counts(a, next, middle) && Counts(b, middle, end)
    ensures Counts(a + b, next, end)
  {
  }

  /** Every scan with a pose was taken at one of the places. */
  ghost predicate Visits(places: set<Vec>, inputs: seq<Input>) {
    forall k :: 0 <= k < |inputs| && inputs[k].frame.pose.Some? ==> inputs[k].frame.pose.value.Translation() in places
  }

  /**
    Over any run every candidate's position is the mean of its detections, and its evidence is in order and was
    gathered where the car has been.
  */
  lemma {:induction false} CandidatesStaySound(cfg: Config, places: set<Vec>, s: Slam, inputs: seq<Input>)
    requires InStep(s) && Evidence.AllSound(cfg, places, s.front.candidates) && Visits(places, inputs)
    ensures Evidence.AllSound(cfg, places, Run(cfg, s, inputs).front.candidates)
    decreases |inputs|
  {
    hide StepOf;
    if inputs != [] {
      StepKeepsInStep(cfg, s, inputs[0]);
      StepKeepsCandidatesSound(cfg, places, s, inputs[0]);
      CandidatesStaySound(cfg, places, StepOf(cfg, s, inputs[0]).slam, inputs[1..]);
    }
  }

  lemma StepKeepsCandidatesSound(cfg: Config, places: set<Vec>, s: Slam, input: Input)
    requires MapIsFinite(s.front) && Evidence.AllSound(cfg, places, s.front.candidates)
    requires input.frame.pose.Some? ==> input.frame.pose.value.Translation() in places
    ensures Evidence.AllSound(cfg, places, StepOf(cfg, s, input).slam.front.candidates)
  {
    var p := Process(cfg, s.front, input.frame);
    Evidence.ProcessKeepsCandidatesSound(cfg, places, s.front, input.frame);
    hide Process, UpdateOf;
    if p.out.Some? {
      var u := UpdateOf(s.back, p.out.value, input.solve);
      if u.map_state.Some? { Evidence.WithMapKeepsCandidatesSound(cfg, places, p.front, u.map_state.value); }
    }
  }

  // ------------------------------------------------------------------ cone_map

  ghost predicate Increasing(s: seq<Cone>) { forall i, j :: 0 <= i < j < |s| ==> s[i].id < s[j].id }

  ghost function ConeIds(s: seq<Cone>): set<nat> { set c | c in s :: c.id }

  ghost predicate ConesDistinct(s: seq<Cone>) { forall i, j :: 0 <= i < j < |s| ==> s[i].id != s[j].id }

  lemma {:induction false} InsertConeHas(x: Cone, s: seq<Cone>)
    ensures forall c :: c in InsertCone(x, s) <==> c in s || c == x
  {
    if s != [] && s[0].id < x.id {
      InsertConeHas(x, s[1..]);
      assert s == [s[0]] + s[1..];
    }
  }

  lemma TailIncreases(s: seq<Cone>)
    requires s != [] && Increasing(s)
    ensures Increasing(s[1..]) && forall c :: c in s[1..] ==> c in s && s[0].id < c.id
  {
  }

  lemma {:induction false} InsertConeKeepsOrder(x: Cone, s: seq<Cone>)
    requires Increasing(s) && forall c :: c in s ==> c.id != x.id
    ensures Increasing(InsertCone(x, s))
  {
    if s != [] {
      TailIncreases(s);
      hide Increasing;
      if s[0].id < x.id {
        InsertConeKeepsOrder(x, s[1..]);
        InsertConeHas(x, s[1..]);
        ConsIncreases(s[0], InsertCone(x, s[1..]));
      } else {
        assert forall c :: c in s ==> c == s[0] || c in s[1..];
        ConsIncreases(x, s);
      }
    }
  }

  lemma ConsIncreases(x: Cone, s: seq<Cone>)
    requires Increasing(s) && forall c :: c in s ==> x.id < c.id
    ensures Increasing([x] + s)
  {
    assert forall i :: 0 <= i < |s| ==> s[i] in s;
  }

  lemma {:induction false} SortedConesIncrease(s: seq<Cone>)
    requires ConesDistinct(s)
    ensures Increasing(SortedCones(s))
    ensures forall c :: c in SortedCones(s) <==> c in s
  {
    if s != [] {
      SortedConesIncrease(s[1..]);
      assert s == [s[0]] + s[1..];
      assert forall c :: c in s[1..] ==> c.id != s[0].id;
      InsertConeKeepsOrder(s[0], SortedCones(s[1..]));
      InsertConeHas(s[0], SortedCones(s[1..]));
    }
  }

  lemma MapConesAre(ls: seq<MapLandmark>, n: nat)
    requires n <= |ls| && forall i :: 0 <= i < |ls| ==> ls[i].position.Some?
    ensures |MapCones(ls, n)| == n && forall i :: 0 <= i < n ==> MapCones(ls, n)[i].id == ls[i].id
  {
  }

  lemma {:induction false} GraphConesAre(cs: seq<Candidate>, pose: Pose, n: nat)
    requires n <= |cs| && PromotedDistinct(cs)
    ensures var r := GraphCones(cs, pose, n);
            ConesDistinct(r) && forall id :: id in ConeIds(r) <==> exists i :: 0 <= i < n && cs[i].id == Some(id)
  {
    if n > 0 {
      GraphConesAre(cs, pose, n - 1);
      var before, r := GraphCones(cs, pose, n - 1), GraphCones(cs, pose, n);
      if cs[n - 1].id.Some? {
        var last := r[|r| - 1];
        assert r == before + [last] && last.id == cs[n - 1].id.value;
        hide GraphCones;
        ConeAppends(before, last);
      }
    }
  }

  lemma ConeAppends(s: seq<Cone>, x: Cone)
    requires ConesDistinct(s) && x.id !in ConeIds(s)
    ensures ConesDistinct(s + [x]) && ConeIds(s + [x]) == ConeIds(s) + {x.id}
  {
    assert forall i :: 0 <= i < |s| ==> s[i] in s && s[i].id in ConeIds(s);
    assert forall c :: c in s + [x] <==> c in s || c == x;
  }

  /** In every reachable state the cone map lists the map's and the graph's landmarks, each once, by increasing id. */
  lemma ConeMapIncreases(st: Front)
    requires Sound(st) && st.map_state.Some?
    ensures var cones := ConesOf(st).value;
            Increasing(cones) && ConeIds(cones) == IdsOf(st) + GraphIds(st.candidates)
  {
    var m := st.map_state.value;
    var a, b := MapCones(m.landmarks, |m.landmarks|), GraphCones(st.candidates, m.pose.value, |st.candidates|);
    MapConesAre(m.landmarks, |m.landmarks|);
    GraphConesAre(st.candidates, m.pose.value, |st.candidates|);
    GraphIdsAreTracked(st);
    ConesOfMap(m.landmarks, a);
    ConesOfGraph(st.candidates, b);
    ConesConcat(a, b);
    SortedConesIncrease(a + b);
    hide Sound;
    assert ConeIds(SortedCones(a + b)) == ConeIds(a + b);
  }

  lemma ConesOfMap(ls: seq<MapLandmark>, a: seq<Cone>)
    requires IdsDistinct(ls) && |a| == |ls| && forall i :: 0 <= i < |ls| ==> a[i].id == ls[i].id
    ensures ConesDistinct(a) && ConeIds(a) == MapIds(ls)
  {
    forall id | id in MapIds(ls) ensures id in ConeIds(a) {
      var i :| 0 <= i < |ls| && ls[i].id == id;
      assert a[i] in a;
    }
    forall id | id in ConeIds(a) ensures id in MapIds(ls) {
      var i :| 0 <= i < |a| && a[i].id == id;
      assert ls[i] in ls;
    }
  }

  lemma ConesOfGraph(cs: seq<Candidate>, b: seq<Cone>)
    requires forall id :: id in ConeIds(b) <==> exists i :: 0 <= i < |cs| && cs[i].id == Some(id)
    ensures ConeIds(b) == GraphIds(cs)
  {
    forall id | id in ConeIds(b) ensures id in GraphIds(cs) {
      var i :| 0 <= i < |cs| && cs[i].id == Some(id);
      assert cs[i] in cs;
    }
  }

  lemma ConesConcat(a: seq<Cone>, b: seq<Cone>)
    requires ConesDistinct(a) && ConesDistinct(b) && ConeIds(a) !! ConeIds(b)
    ensures ConesDistinct(a + b) && ConeIds(a + b) == ConeIds(a) + ConeIds(b)
  {
    var all := a + b;
    forall i, j | 0 <= i < j < |all|
      ensures all[i].id != all[j].id
    {
      if j < |a| { assert all[i] == a[i] && all[j] == a[j]; }
      else if i < |a| { assert all[i] in a && all[j] in b && all[i].id in ConeIds(a) && all[j].id in ConeIds(b); }
      else { assert all[i] == b[i - |a|] && all[j] == b[j - |a|]; }
    }
    assert forall c :: c in all <==> c in a || c in b;
  }

  // ------------------------------------------------------------------ the graph on its own, whatever it is fed

  function Feed(g: Graph, frames: seq<(ObservationFrame, Solve)>): Graph
    decreases |frames|
  {
    if frames == [] then g else Feed(UpdateOf(g, frames[0].0, frames[0].1).graph, frames[1..])
  }

  /**
    Every graph reachable from an empty one, by any observations and solver outcomes, is closed and
    conserved: one prior, one odometry factor between consecutive poses, one factor per admitted observation.
  */
  lemma {:induction false} ReachableGraphIsWellFormed(g: Graph, frames: seq<(ObservationFrame, Solve)>)
    requires WellFormed(g)
    ensures WellFormed(Feed(g, frames))
    ensures g.failed ==> Feed(g, frames) == g
    ensures var h := Feed(g, frames); |h.solvedFactors| + |h.pendingFactors| == h.poseCount + h.admittedTotal
    decreases |frames|
  {
    if frames == [] {
      FactorsAreOfThreeKinds(g.solvedFactors + g.pendingFactors);
    } else {
      UpdateKeepsWellFormed(g, frames[0].0, frames[0].1);
      hide WellFormed, UpdateOf;
      ReachableGraphIsWellFormed(UpdateOf(g, frames[0].0, frames[0].1).graph, frames[1..]);
    }
  }

  lemma FactorsAreOfThreeKinds(fs: seq<Factor>)
    ensures Priors(fs) + Betweens(fs) + Measurements(fs) == |fs|
  {
  }

  // ------------------------------------------------------------------ the stateful stack

  class SlamStack {
    const frontend: SlamFrontend
    const backend: GraphSlam
    var map_state: Option<MapState>

    constructor (cfg: Config)
      ensures State() == START && Valid() && frontend.cfg == cfg
      ensures fresh(frontend) && fresh(backend)
    {
      frontend := new SlamFrontend(cfg);
      backend := new GraphSlam();
      map_state := None;
      new;
      StartIsInStep();
    }

    function State(): Slam
      reads this, frontend, backend
    {
      Slam(frontend.State(), backend.State(), map_state)
    }

    ghost predicate Valid()
      reads this, frontend, backend
    {
      InStep(State())
    }

    /** One scan; the solver's outcome is the parameter solve. */
    method Update(frame: ConeFrame, solve: Solve) returns (cones: Option<seq<Cone>>)
      requires Valid()
      modifies this, frontend, backend
      ensures Valid()
      ensures State() == StepOf(frontend.cfg, old(State()), Input(frame, solve)).slam
      ensures MapIsFinite(State().front) && cones == ConesOf(State().front)
    {
      hide InStep, Process, UpdateOf, WithMap, WellFormed, Sound, ConesOf;
      ghost var s := State();
      StepKeepsInStep(frontend.cfg, s, Input(frame, solve));
      assert frontend.Valid() && backend.Valid() by { InStepParts(s); }
      var observations := frontend.ProcessFrame(frame);
      if observations.Some? {
        var solved, _ := backend.Update(observations.value, solve);
        if solved.Some? {
          var _ := frontend.SetMap(solved.value);
          map_state := solved;
        }
      }
      cones := frontend.ConeMap();
    }
  }

  lemma InStepParts(s: Slam)
    requires InStep(s)
    ensures MapIsFinite(s.front) && WellFormed(s.back)
  {
  }
}
