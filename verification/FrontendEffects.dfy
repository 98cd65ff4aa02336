/**
  What a scan and a map do to the frontend, in terms of detections, landmarks, distances and times: which frames
  are accepted, what each stage matches, what becomes of every candidate, what is recorded, which maps are taken,
  and where the cone map puts its cones.
*/
module FrontendEffects {
  import AssociationGate
  import DetectionPlaces
  import Evidence = CandidateEvidence
  import opened Frontend
  import opened FrontendInvariants
  import opened Matching
  import opened Sequences
  import opened SlamTypes
  import opened Wrappers

  // ------------------------------------------------------------------ accepting a frame

  /** A frame is accepted exactly when its pose is finite and it is newer than the last one accepted. */
  lemma AcceptedIff(cfg: Config, st: Front, frame: ConeFrame)
    requires MapIsFinite(st)
    ensures var p := Process(cfg, st, frame);
            && (p.out.Some? <==> frame.pose.Some? && (st.lastFrame.None? || frame.timestamp > st.lastFrame.value))
            && (p.out.None? ==> p.front == st)
            && (p.out.Some? ==>
                  && p.out.value.timestamp == frame.timestamp && Some(p.out.value.pose) == frame.pose
                  && p.front.lastFrame == Some(frame.timestamp) && p.front.frameCount == st.frameCount + 1
                  && p.front.map_state == st.map_state)
  {
    if Accepts(st, frame) {
      var ds := Usable(cfg, frame.pose.value, frame.detections, |frame.detections|);
      hide Usable;
      StagesKeepClock(cfg, Entered(st, frame), frame.pose.value, frame.timestamp, ds);
      hide Stages, Settled, Recorded;
    }
  }

  lemma StagesKeepClock(cfg: Config, st: Front, pose: Pose, now: nat, ds: seq<Detection>)
    requires MapIsFinite(st)
    ensures var after := Stages(cfg, st, pose, now, ds).unconfirmed.front;
            && after.lastFrame == st.lastFrame && after.frameCount == st.frameCount && after.map_state == st.map_state
  {
    hide MapTable, MapMatches, Matches, MapObservations, Touched, Marked, CandidateMatches, Absorbed, GraphObservations,
         ConfirmMatched, IsFinite;
  }

  // ------------------------------------------------------------------ what the stages match

  /**
    The first stage makes the one stable matching of unused detections to landmarks of the map at a distance
    within the gate, when there is a map that is not newer than the frame; else it matches nothing.
  */
  lemma MapMatchingIsStable(cfg: Config, st: Front, pose: Pose, now: nat, ds: seq<Detection>, used: seq<bool>,
                            m: set<Link>, es: set<Link>)
    requires MapIsFinite(st) && |used| == |ds|
    requires st.map_state.Some? && st.map_state.value.timestamp <= now ==>
               var ls := st.map_state.value.landmarks;
               forall p :: p in es <==>
                 && p.left < |ds| && !used[p.left] && p.right < |ls|
                 && p.dist == MapDistance(cfg, st, pose, ds[p.left], ls[p.right]) && p.dist <= cfg.mapGate
    ensures if st.map_state.Some? && st.map_state.value.timestamp <= now
            then Stable(m, es) <==> m == Elems(MapMatches(cfg, st, pose, now, ds, used))
            else MapMatches(cfg, st, pose, now, ds, used) == []
  {
    hide MapDistance, Matches, IsFinite;
    if MapApplies(st, now) {
      MatchesAreTheStableMatching(MapTable(cfg, st, pose, ds), used, UpTo(cfg.mapGate), m, es);
    }
  }

  /** The candidates a stage considers are exactly those with (or without) an id, in increasing order. */
  lemma {:induction false} IndicesAre(cs: seq<Candidate>, promoted: bool, n: nat)
    requires n <= |cs|
    ensures Ascends(Indices(cs, promoted, n))
    ensures forall k: nat :: k in Indices(cs, promoted, n) <==> k < n && cs[k].id.Some? == promoted
  {
    if n > 0 { IndicesAre(cs, promoted, n - 1); }
  }

  /**
    The second and the third stage make the one stable matching of unused detections to the candidates with, and
    then to those without, an id, by squared distance in odom, within the gate.
  */
  lemma CandidateMatchingIsStable(cfg: Config, cs: seq<Candidate>, promoted: bool, ds: seq<Detection>, used: seq<bool>,
                                  m: set<Link>, es: set<Link>)
    requires |used| == |ds|
    requires var idx := Indices(cs, promoted, |cs|);
             forall p :: p in es <==>
               && p.left < |ds| && !used[p.left] && p.right < |idx|
               && p.dist == SquaredDistance(ds[p.left].odom, cs[idx[p.right]].position)
               && p.dist <= SquaredGate(cfg.candidateGate)
    ensures Stable(m, es) <==> m == Elems(CandidateMatches(cfg, cs, promoted, ds, used))
  {
    hide SquaredDistance, SquaredGate, Matches, Indices;
    var idx := Indices(cs, promoted, |cs|);
    IndicesAre(cs, promoted, |cs|);
    MatchesAreTheStableMatching(CandidateTable(cs, idx, ds), used, UpTo(SquaredGate(cfg.candidateGate)), m, es);
  }

  /**
    The distance the first stage compares is the one from the detection in odom to where the landmark is in odom:
    the place that the map's pose takes to the landmark's. Drift is that of the frames since the landmark was last
    observed, and at least of one.
  */
  lemma MapDistanceIs(cfg: Config, st: Front, pose: Pose, d: Detection, l: MapLandmark, q: Vec)
    requires st.map_state.Some? && IsFinite(st.map_state.value) && l in st.map_state.value.landmarks
    requires LastObserved(st.lastObserved, l.id) <= st.frameCount <= U64_MAX
    requires IsRotation(st.map_state.value.pose.value) && st.map_state.value.pose.value.Apply(q) == l.position.value
    ensures var gap := st.frameCount - LastObserved(st.lastObserved, l.id);
            var noise := AssociationGate.Noise(cfg.driftXy * cfg.driftXy, cfg.driftYaw * cfg.driftYaw,
                                               cfg.measurementStd * cfg.measurementStd);
            MapDistance(cfg, st, pose, d, l)
            == AssociationGate.MahalanobisSquared(d.odom, q, Vec(pose.tx, pose.ty),
                                                  if gap <= 1 then 1.0 else gap as real, noise)
  {
    InverseUndoes(st.map_state.value.pose.value, q);
    FramesSinceIs(st, l.id);
    NoiseIs(cfg);
    hide AssociationGate.MahalanobisSquared, AssociationGate.NoiseFrom, Pose.Apply, Pose.Inverse, IsRotation,
         FramesSince;
  }

  lemma FramesSinceIs(st: Front, id: nat)
    requires LastObserved(st.lastObserved, id) <= st.frameCount <= U64_MAX
    ensures var gap := st.frameCount - LastObserved(st.lastObserved, id);
            FramesSince(st, id) == if gap <= 1 then 1.0 else gap as real
  {
    hide LastObserved;
  }

  lemma NoiseIs(cfg: Config)
    ensures cfg.Noise() == AssociationGate.Noise(cfg.driftXy * cfg.driftXy, cfg.driftYaw * cfg.driftYaw,
                                                 cfg.measurementStd * cfg.measurementStd)
  {
  }

  // ------------------------------------------------------------------ what the stages report

  /** The first stage reports each match, in order: the landmark's id, and where the car saw the detection. */
  lemma MapMatchesAreReported(cfg: Config, st: Front, pose: Pose, now: nat, ds: seq<Detection>, used: seq<bool>)
    requires MapIsFinite(st) && |used| == |ds| && MapApplies(st, now)
    ensures var ls, ms := st.map_state.value.landmarks, MapMatches(cfg, st, pose, now, ds, used);
            var obs := MappedStage(cfg, st, pose, now, ds, used).observations;
            |obs| == |ms| && forall k :: 0 <= k < |ms| ==>
              && ms[k].left < |ds| && ms[k].right < |ls|
              && obs[k] == Observation(ls[ms[k].right].id, Some(ds[ms[k].left].base), InMap)
  {
    hide MappedStage, MapMatches, Marked, IsFinite;
    DetectionPlaces.MappedStageIs(cfg, st, pose, now, ds, used);
    MapObservationsAre(st.map_state.value.landmarks, ds, MapMatches(cfg, st, pose, now, ds, used),
                       |MapMatches(cfg, st, pose, now, ds, used)|);
    hide MapObservations;
    assert forall k :: 0 <= k < |MapMatches(cfg, st, pose, now, ds, used)| ==>
        MapMatches(cfg, st, pose, now, ds, used)[k] in MapMatches(cfg, st, pose, now, ds, used);
  }

  /** The second stage reports each match: the id of the candidate in the graph, and where the car saw the detection. */
  lemma GraphMatchesAreReported(cfg: Config, st: Front, now: nat, ds: seq<Detection>, used: seq<bool>)
    requires |used| == |ds|
    ensures var cs := st.candidates;
            var idx, ms := Indices(cs, true, |cs|), CandidateMatches(cfg, cs, true, ds, used);
            var obs := GraphStage(cfg, st, now, ds, used).observations;
            |obs| == |ms| && forall k :: 0 <= k < |ms| ==>
              && ms[k].left < |ds| && ms[k].right < |idx| && idx[ms[k].right] < |cs| && cs[idx[ms[k].right]].id.Some?
              && obs[k] == Observation(cs[idx[ms[k].right]].id.value, Some(ds[ms[k].left].base), InGraph)
  {
    hide CandidateMatches, Marked, Absorbed, Disjoint, GraphObservations;
    var cs := st.candidates;
    var idx, ms := Indices(cs, true, |cs|), CandidateMatches(cfg, cs, true, ds, used);
    CandidateMatchesFit(cfg, cs, true, ds, used);
    var after := Absorbed(cs, idx, ms, ds, now, |ms|);
    AbsorbKeepsIds(cs, idx, ms, ds, now, |ms|);
    FitsAbsorbed(ms, idx, cs, after, ds);
    GraphObservationsAre(after, idx, ms, ds, |ms|);
    hide Indices;
    assert forall k :: 0 <= k < |ms| ==> ms[k] in ms;
  }

  /** A frame emits all that its three stages report, in this order, each stage going on from the one before. */
  lemma FrameReports(cfg: Config, st: Front, frame: ConeFrame)
    requires MapIsFinite(st) && Process(cfg, st, frame).out.Some?
    ensures frame.pose.Some?
    ensures var pose, now, entered := frame.pose.value, frame.timestamp, Entered(st, frame);
            var ds := Usable(cfg, pose, frame.detections, |frame.detections|);
            var a := MappedStage(cfg, entered, pose, now, ds, NoneUsed(|ds|));
            var b := GraphStage(cfg, a.front, now, ds, a.used);
            var c := UnconfirmedStage(cfg, b.front, pose, now, ds, b.used);
            Process(cfg, st, frame).out.value.observations == a.observations + b.observations + c.observations
  {
    hide MappedStage, GraphStage, UnconfirmedStage, Usable, Finished;
  }

  // ------------------------------------------------------------------ what becomes of the candidates

  /** r is the mean of x and of n values whose mean is m. */
  predicate IsNewMean(n: nat, m: real, x: real, r: real) { (n + 1) as real * r == n as real * m + x }

  /** c after a detection at z: seen now, with one more sighting, and at the mean of all of them. */
  predicate IsSighted(c: Candidate, after: Candidate, z: Vec, now: nat) {
    && after.sightings == c.sightings + [z] && after.count == c.count + 1 && after.lastSeen == now
    && IsNewMean(c.count, c.position.x, z.x, after.position.x)
    && IsNewMean(c.count, c.position.y, z.y, after.position.y)
  }

  predicate KeepsEvidence(c: Candidate, after: Candidate) {
    && after.id == c.id && after.evidence == c.evidence && after.evidencePosition == c.evidencePosition
    && after.vantages == c.vantages
  }

  /**
    If the car is at least the baseline from the last evidence, c gains the confidence as evidence from there; it is
    given an id exactly when its evidence reaches the threshold.
  */
  predicate GainsEvidence(cfg: Config, c: Candidate, after: Candidate, confidence: real, car: Vec) {
    && (if AtLeastApart(car, c.evidencePosition, cfg.baseline)
        then after.evidence == c.evidence + confidence && after.evidencePosition == car
             && after.vantages == c.vantages + [car]
        else after.evidence == c.evidence && after.evidencePosition == c.evidencePosition
             && after.vantages == c.vantages)
    && (after.id.Some? <==> after.evidence >= cfg.minEvidence)
  }

  /** What a match of d makes of c; with a place of the car, it may also count as evidence. */
  predicate Becomes(cfg: Config, c: Candidate, after: Candidate, d: Detection, car: Option<Vec>, now: nat) {
    && IsSighted(c, after, d.odom, now)
    && if car.None? then KeepsEvidence(c, after) else GainsEvidence(cfg, c, after, d.confidence, car.value)
  }

  lemma RunningMeanIs(n: nat, m: real, x: real)
    ensures IsNewMean(n, m, x, RunningMean(n as real, m, x))
  {
    var total, size := n as real * m + x, n as real + 1.0;
    Quotient(total, size);
    assert (n + 1) as real == size;
  }

  lemma Quotient(x: real, y: real)
    requires y != 0.0
    ensures y * (x / y) == x
  {
  }

  lemma SightedIs(cfg: Config, c: Candidate, d: Detection, now: nat)
    ensures Becomes(cfg, c, Sighted(c, d.odom, now), d, None, now)
  {
    RunningMeanIs(c.count, c.position.x, d.odom.x);
    RunningMeanIs(c.count, c.position.y, d.odom.y);
    hide IsNewMean, RunningMean;
  }

  lemma WeighedIsSighted(cfg: Config, c: Candidate, after: Candidate, d: Detection, car: Vec, now: nat)
    requires c.id.None? && Evidence.WeighsTo(cfg, Sighted(c, d.odom, now), after, d, car)
    ensures Becomes(cfg, c, after, d, Some(car), now)
  {
    SightedIs(cfg, c, d, now);
    var sighted := Sighted(c, d.odom, now);
    hide AtLeastApart, IsNewMean, Sighted;
    assert KeepsEvidence(c, sighted);
  }

  /** Link k of the stage joins detection ds[ms[k].left] to candidate i. */
  ghost predicate Joins(idx: seq<nat>, ms: seq<Link>, k: nat, i: nat) {
    k < |ms| && ms[k].right < |idx| && idx[ms[k].right] == i
  }

  /** Each link's detection makes of its candidate what it should, and no other candidate changes. */
  ghost predicate SeesMatched(cfg: Config, cs: seq<Candidate>, after: seq<Candidate>, idx: seq<nat>, ms: seq<Link>,
                              ds: seq<Detection>, car: Option<Vec>, now: nat) {
    && |after| == |cs| && (forall m :: m in ms ==> m.left < |ds| && m.right < |idx|)
    && (forall k, i :: 0 <= k < |ms| && 0 <= i < |cs| && Joins(idx, ms, k, i) ==>
          (assert ms[k] in ms; Becomes(cfg, cs[i], after[i], ds[ms[k].left], car, now)))
    && forall i :: 0 <= i < |cs| && (forall k :: 0 <= k < |ms| ==> !Joins(idx, ms, k, i)) ==> after[i] == cs[i]
  }

  /** The second stage adds each match's detection to its candidate, which keeps id and evidence; no other changes. */
  lemma GraphStageSees(cfg: Config, st: Front, now: nat, ds: seq<Detection>, used: seq<bool>)
    requires |used| == |ds|
    ensures var cs := st.candidates;
            SeesMatched(cfg, cs, GraphStage(cfg, st, now, ds, used).front.candidates, Indices(cs, true, |cs|),
                        CandidateMatches(cfg, cs, true, ds, used), ds, None, now)
  {
    var cs := st.candidates;
    var idx, ms := Indices(cs, true, |cs|), CandidateMatches(cfg, cs, true, ds, used);
    CandidateMatchesFit(cfg, cs, true, ds, used);
    hide CandidateMatches, Absorbed, SeesMatched;
    AbsorbedSee(cfg, cs, idx, ms, ds, now);
    hide Indices, Disjoint;
  }

  lemma AbsorbedSee(cfg: Config, cs: seq<Candidate>, idx: seq<nat>, ms: seq<Link>, ds: seq<Detection>, now: nat)
    requires Evidence.FitsOnce(ms, idx, cs, ds)
    ensures SeesMatched(cfg, cs, Absorbed(cs, idx, ms, ds, now, |ms|), idx, ms, ds, None, now)
  {
    Evidence.AbsorbedAre(cs, idx, ms, ds, now, |ms|);
    var after := Absorbed(cs, idx, ms, ds, now, |ms|);
    hide Absorbed, Sighted, Named, Disjoint, Becomes;
    forall k, i | 0 <= k < |ms| && 0 <= i < |cs| && Joins(idx, ms, k, i)
      ensures ms[k] in ms && Becomes(cfg, cs[i], after[i], ds[ms[k].left], None, now)
    {
      assert Evidence.Target(idx, ms, k) == i;
      SightedIs(cfg, cs[i], Evidence.Seen(ms, ds, k), now);
    }
    forall i | 0 <= i < |cs| && forall k :: 0 <= k < |ms| ==> !Joins(idx, ms, k, i)
      ensures after[i] == cs[i]
    {
      UnjoinedIsNotNamed(idx, ms, i);
    }
  }

  lemma UnjoinedIsNotNamed(idx: seq<nat>, ms: seq<Link>, i: nat)
    requires (forall m :: m in ms ==> m.right < |idx|) && forall k :: 0 <= k < |ms| ==> !Joins(idx, ms, k, i)
    ensures !Named(idx, ms, |ms|, i)
  {
    if Named(idx, ms, |ms|, i) {
      var k := Evidence.NamedBy(idx, ms, |ms|, i);
      assert Joins(idx, ms, k, i);
    }
  }

  /** The third stage adds detections as well, and counts them as evidence from where the car is. */
  lemma ThirdStageSees(cfg: Config, st: Front, pose: Pose, now: nat, ds: seq<Detection>, used: seq<bool>)
    requires |used| == |ds|
    ensures var cs := st.candidates;
            SeesMatched(cfg, cs, UnconfirmedStage(cfg, st, pose, now, ds, used).front.candidates,
                        Indices(cs, false, |cs|), CandidateMatches(cfg, cs, false, ds, used), ds,
                        Some(Vec(pose.tx, pose.ty)), now)
  {
    hide ConfirmMatched, SeesMatched, Marked;
    ConfirmedAreSeen(cfg, st.candidates, st.nextId, pose.Translation(), now, ds, used);
  }

  lemma ConfirmedAreSeen(cfg: Config, cs: seq<Candidate>, nextId: nat, car: Vec, now: nat, ds: seq<Detection>,
                         used: seq<bool>)
    requires |used| == |ds|
    ensures SeesMatched(cfg, cs, ConfirmMatched(cfg, cs, nextId, car, now, ds, used).candidates,
                        Indices(cs, false, |cs|), CandidateMatches(cfg, cs, false, ds, used), ds, Some(car), now)
  {
    hide Indices, CandidateMatches, ConfirmMatched, Evidence.WeighsTo, Sighted, Named, Evidence.AnnouncedBy, Becomes;
    var absorbed := Evidence.ConfirmMatchedIs(cfg, cs, nextId, car, now, ds, used);
    var idx, ms := Indices(cs, false, |cs|), CandidateMatches(cfg, cs, false, ds, used);
    var after := ConfirmMatched(cfg, cs, nextId, car, now, ds, used).candidates;
    forall k, i | 0 <= k < |ms| && 0 <= i < |cs| && Joins(idx, ms, k, i)
      ensures ms[k] in ms && Becomes(cfg, cs[i], after[i], ds[ms[k].left], Some(car), now)
    {
      Evidence.MatchedIsUnconfirmed(cs, idx, ms, k);
      assert Evidence.Target(idx, ms, k) == i;
      WeighedIsSighted(cfg, cs[i], after[i], Evidence.Seen(ms, ds, k), car, now);
    }
    forall i | 0 <= i < |cs| && forall k :: 0 <= k < |ms| ==> !Joins(idx, ms, k, i)
      ensures after[i] == cs[i]
    {
      UnjoinedIsNotNamed(idx, ms, i);
    }
  }

  /** The candidates cs followed by those of the unused detections u, and of these the recent ones v, in order. */
  ghost predicate Settles(cs: seq<Candidate>, ds: seq<Detection>, used: seq<bool>, car: Vec, now: nat,
                          after: seq<Candidate>)
    requires |used| == |ds|
  {
    exists spawned, u, v ::
      && DetectionPlaces.CandidatesOf(ds, car, now, u, spawned) && Ascends(u)
      && (forall d: nat :: d in u <==> d < |ds| && !used[d])
      && Picks(cs + spawned, v, after) && AreRecent(cs + spawned, now, v)
  }

  lemma SettledSettles(cs: seq<Candidate>, ds: seq<Detection>, used: seq<bool>, car: Vec, now: nat)
    requires |used| == |ds|
    ensures Settles(cs, ds, used, car, now, Settled(cs, ds, used, car, now))
  {
    hide DetectionPlaces.CandidatesOf, Picks, AreRecent;
    var spawned, u := Spawned(ds, used, car, now, |ds|), DetectionPlaces.UnusedIndices(used, |ds|);
    DetectionPlaces.SpawnedAreUnused(ds, used, car, now, |ds|);
    var v := PrunedAreRecent(cs + spawned, now);
  }

  /**
    The end of a frame: each detection that the stages leave unused starts a candidate, in order, and of all
    candidates those seen recently enough stay, in order.
  */
  lemma FrameSettles(cfg: Config, st: Front, frame: ConeFrame)
    requires MapIsFinite(st) && Process(cfg, st, frame).out.Some?
    ensures frame.pose.Some?
    ensures var pose, now := frame.pose.value, frame.timestamp;
            var ds := Usable(cfg, pose, frame.detections, |frame.detections|);
            var u := Stages(cfg, Entered(st, frame), pose, now, ds).unconfirmed;
            Settles(u.front.candidates, ds, u.used, Vec(pose.tx, pose.ty), now,
                    Process(cfg, st, frame).front.candidates)
  {
    AcceptedIff(cfg, st, frame);
    var pose, now := frame.pose.value, frame.timestamp;
    var ds := Usable(cfg, pose, frame.detections, |frame.detections|);
    hide Usable;
    var u := Stages(cfg, Entered(st, frame), pose, now, ds).unconfirmed;
    hide Stages, Settles, Settled, Recorded;
    SettledSettles(u.front.candidates, ds, u.used, pose.Translation(), now);
  }

  // ------------------------------------------------------------------ what is recorded

  ghost predicate Observes(obs: seq<Observation>, id: nat) { exists k :: 0 <= k < |obs| && obs[k].id == id }

  lemma {:induction false} RecordedIs(seen: map<nat, nat>, obs: seq<Observation>, frame: nat, n: nat, id: nat)
    requires n <= |obs|
    ensures LastObserved(Recorded(seen, obs, frame, n), id)
         == if Observes(obs[..n], id) then frame else LastObserved(seen, id)
  {
    if n > 0 {
      RecordedIs(seen, obs, frame, n - 1, id);
      assert forall k :: 0 <= k < n - 1 ==> obs[..n - 1][k] == obs[..n][k];
      assert obs[..n][n - 1] == obs[n - 1];
    }
  }

  /** Looking a landmark's last frame up changes no answer. */
  lemma {:induction false} TouchedIs(seen: map<nat, nat>, ls: seq<MapLandmark>, n: nat, id: nat)
    requires n <= |ls|
    ensures LastObserved(Touched(seen, ls, n), id) == LastObserved(seen, id)
  {
    if n > 0 { TouchedIs(seen, ls, n - 1, id); }
  }

  lemma StagesKeepSeen(cfg: Config, st: Front, pose: Pose, now: nat, ds: seq<Detection>, id: nat)
    requires MapIsFinite(st)
    ensures LastObserved(Stages(cfg, st, pose, now, ds).unconfirmed.front.lastObserved, id)
         == LastObserved(st.lastObserved, id)
  {
    hide MapTable, MapMatches, Matches, MapObservations, Touched, Marked, CandidateMatches, Absorbed, GraphObservations,
         ConfirmMatched, IsFinite, LastObserved;
    if st.map_state.Some? {
      TouchedIs(st.lastObserved, st.map_state.value.landmarks, |st.map_state.value.landmarks|, id);
    }
  }

  /** An accepted frame records its number for exactly the landmarks it observes. */
  lemma FrameRecords(cfg: Config, st: Front, frame: ConeFrame, id: nat)
    requires MapIsFinite(st) && Process(cfg, st, frame).out.Some?
    ensures var p := Process(cfg, st, frame);
            LastObserved(p.front.lastObserved, id)
            == if Observes(p.out.value.observations, id) then p.front.frameCount else LastObserved(st.lastObserved, id)
  {
    AcceptedIff(cfg, st, frame);
    var ds := Usable(cfg, frame.pose.value, frame.detections, |frame.detections|);
    hide Usable;
    var m := Stages(cfg, Entered(st, frame), frame.pose.value, frame.timestamp, ds);
    StagesKeepSeen(cfg, Entered(st, frame), frame.pose.value, frame.timestamp, ds, id);
    StagesKeepClock(cfg, Entered(st, frame), frame.pose.value, frame.timestamp, ds);
    hide Stages, Settled, Recorded, LastObserved, Observes;
    var obs := m.Observations();
    RecordedIs(m.unconfirmed.front.lastObserved, obs, m.unconfirmed.front.frameCount, |obs|, id);
    assert obs[..|obs|] == obs;
  }

  // ------------------------------------------------------------------ taking a map

  /**
    A map is taken exactly when its pose and landmarks are finite, no id is reserved or repeated, and it is newer
    than the map in use both by its time and by its sequence number.
  */
  lemma MapIsTakenIff(st: Front, m: MapState)
    ensures if && m.pose.Some?
               && (forall l :: l in m.landmarks ==> l.position.Some? && l.id != 0xFFFF_FFFF_FFFF_FFFF)
               && (forall i, j :: 0 <= i < j < |m.landmarks| ==> m.landmarks[i].id != m.landmarks[j].id)
               && (st.map_state.Some? ==>
                     st.map_state.value.timestamp < m.timestamp && st.map_state.value.sequence < m.sequence)
            then AcceptsMap(st, m) && TookMap(st, m, WithMap(st, m)) else !AcceptsMap(st, m) && WithMap(st, m) == st
  {
    hide TookMap;
    if AcceptsMap(st, m) { WithMapTook(st, m); }
  }

  /** Of the candidates a map that is taken removes exactly those it names; so the graph keeps all other ids. */
  lemma TakenMapKeepsRest(before: Front, m: MapState, after: Front)
    requires TookMap(before, m, after)
    ensures forall c :: c in after.candidates <==>
                          c in before.candidates && !(c.id.Some? && c.id.value in MapIds(m.landmarks))
    ensures GraphIds(after.candidates) == GraphIds(before.candidates) - MapIds(m.landmarks)
  {
    var cs, ls := before.candidates, m.landmarks;
    var u :| Picks(cs, u, after.candidates) && AreUnmapped(cs, ls, u);
    forall c: Candidate
      ensures c in after.candidates <==> c in cs && !(c.id.Some? && c.id.value in MapIds(ls))
    {
      PickedIff(cs, u, after.candidates, c);
      IsNamedIff(c, ls);
      hide Picks, MapIds;
    }
  }

  lemma IsNamedIff(c: Candidate, ls: seq<MapLandmark>)
    ensures c.id.Some? && c.id.value in MapIds(ls) <==>
              c.id.Some? && exists i :: 0 <= i < |ls| && ls[i].id == c.id.value
  {
  }

  // ------------------------------------------------------------------ the cone map

  lemma {:induction false} MapConesIff(ls: seq<MapLandmark>, n: nat, c: Cone)
    requires n <= |ls| && forall i :: 0 <= i < |ls| ==> ls[i].position.Some?
    ensures c in MapCones(ls, n) <==>
              c.optimized && exists i :: 0 <= i < n && ls[i].id == c.id && ls[i].position.value == c.position
  {
    if n > 0 { MapConesIff(ls, n - 1, c); }
  }

  lemma {:induction false} GraphConesIff(cs: seq<Candidate>, pose: Pose, n: nat, c: Cone)
    requires n <= |cs|
    ensures c in GraphCones(cs, pose, n) <==>
              && !c.optimized
              && exists i :: 0 <= i < n && cs[i].id == Some(c.id) && c.position == pose.Apply(cs[i].position)
  {
    hide Pose.Apply;
    if n > 0 { GraphConesIff(cs, pose, n - 1, c); }
  }

  /**
    The cone map has exactly these cones: each landmark of the map, where the map has it, marked as optimised; and
    each candidate in the graph, where the map's pose takes its position in odom, not so marked.
  */
  lemma ConeMapPlaces(st: Front, c: Cone)
    requires MapIsFinite(st) && st.map_state.Some?
    ensures var m := st.map_state.value;
            c in ConesOf(st).value <==>
              if c.optimized
              then exists i :: 0 <= i < |m.landmarks| && m.landmarks[i].id == c.id
                               && m.landmarks[i].position.value == c.position
              else exists i :: 0 <= i < |st.candidates| && st.candidates[i].id == Some(c.id)
                               && c.position == m.pose.value.Apply(st.candidates[i].position)
  {
    hide MapCones, GraphCones, SortedCones, Pose.Apply;
    var m := st.map_state.value;
    MapConesIff(m.landmarks, |m.landmarks|, c);
    GraphConesIff(st.candidates, m.pose.value, |st.candidates|, c);
    var all := MapCones(m.landmarks, |m.landmarks|) + GraphCones(st.candidates, m.pose.value, |st.candidates|);
    assert c in SortedCones(all) <==> c in multiset(SortedCones(all));
    assert c in all <==> c in multiset(all);
  }
}
