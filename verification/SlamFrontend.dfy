/**
  SlamFrontend: turns a frame's detections into observations that name landmarks.

  The first part gives each operation as a function of the frontend's state (Front): Process for a frame,
  made of MappedStage, GraphStage and UnconfirmedStage, then Settled; WithMap for a solved map; ConesOf for
  the cone list.  The class below does the same in place and is proved equal to them; what the operations
  promise is proved about the functions, in FrontendEffects, FrontendInvariants, DetectionPlaces,
  CandidateEvidence and Confirmation.  Colour voting and diagnostics are not modelled.
*/
module Frontend {
  import AssociationGate
  import opened Matching
  import opened Sequences
  import opened SlamTypes
  import opened Wrappers

  const UNCONFIRMED_MAX_AGE_NS: nat := 3_000_000_000
  const IN_GRAPH_MAX_AGE_NS: nat := 1_000_000_000

  /** The association parameters: gates, noise, and what confirming a candidate takes. */
  datatype Config = Config(mapGate: real, driftXy: real, driftYaw: real, measurementStd: real, candidateGate: real,
                           minEvidence: real, baseline: real, minConfidence: real) {
    function Noise(): (noise: AssociationGate.Noise)
      ensures noise.NonNegative()
    {
      AssociationGate.NoiseFrom(driftXy, driftYaw, measurementStd)
    }
  }

  /** What the confidence of a usable detection can be. */
  type Confidence = c: real | c <= 1.0

  datatype Detection = Detection(base: Vec, odom: Vec, confidence: Confidence)

  /**
    A tracked cone without a landmark in the map; one with an id is promoted. Two fields are history,
    which no operation reads: sightings, the positions of the detections absorbed so far, and vantages, the
    places of the car whose detections counted as evidence.
  */
  datatype Candidate = Candidate(id: Option<nat>, position: Vec, count: nat, evidence: real,
                                 evidencePosition: Vec, lastSeen: nat, sightings: seq<Vec>, vantages: seq<Vec>)

  datatype Front = Front(map_state: Option<MapState>, candidates: seq<Candidate>, nextId: nat,
                         lastFrame: Option<nat>, frameCount: nat, lastObserved: map<nat, nat>)

  const INITIAL := Front(None, [], 1, None, 0, map[])

  // ------------------------------------------------------------------ accepting a frame

  predicate Accepts(st: Front, frame: ConeFrame) {
    !(st.lastFrame.Some? && frame.timestamp <= st.lastFrame.value) && frame.pose.Some?
  }

  predicate IsUsable(cfg: Config, d: ConeDetection) {
    d.position.Some? && d.confidence.Some? && cfg.minConfidence <= d.confidence.value <= 1.0
  }

  /** The usable ones of the first n detections, placed in odom. */
  function Usable(cfg: Config, pose: Pose, ds: seq<ConeDetection>, n: nat): seq<Detection>
    requires n <= |ds|
  {
    if n == 0 then []
    else
      var d := ds[n - 1];
      var last := if IsUsable(cfg, d)
                  then [Detection(d.position.value, pose.Apply(d.position.value), d.confidence.value)] else [];
      Usable(cfg, pose, ds, n - 1) + last
  }

  /** d is seen where the car saw c, and lies where the pose takes that. */
  predicate IsPlaced(pose: Pose, c: ConeDetection, d: Detection) {
    c.position == Some(d.base) && d.odom == pose.Apply(d.base) && c.confidence == Some(d.confidence)
  }

  /**
    r are the detections at the indices u: in increasing order all with finite position and confidence and an
    admitted confidence, each where the car saw it and where that lies in odom.
  */
  ghost predicate ArePlaced(cfg: Config, pose: Pose, ds: seq<ConeDetection>, u: seq<nat>, r: seq<Detection>) {
    && Ascends(u) && |r| == |u|
    && (forall k: nat :: k in u <==>
          && k < |ds| && ds[k].position.Some? && ds[k].confidence.Some?
          && cfg.minConfidence <= ds[k].confidence.value <= 1.0)
    && forall i :: 0 <= i < |u| ==> u[i] < |ds| && IsPlaced(pose, ds[u[i]], r[i])
  }

  ghost predicate PlacesUsable(cfg: Config, pose: Pose, ds: seq<ConeDetection>, n: nat, u: seq<nat>, r: seq<Detection>)
    requires n <= |ds|
  {
    && Ascends(u) && |r| == |u| && (forall k: nat :: k in u <==> k < n && IsUsable(cfg, ds[k]))
    && forall i :: 0 <= i < |u| ==> u[i] < n && IsPlaced(pose, ds[u[i]], r[i])
  }

  lemma {:induction false} UsableArePlaced(cfg: Config, pose: Pose, ds: seq<ConeDetection>) returns (u: seq<nat>)
    ensures ArePlaced(cfg, pose, ds, u, Usable(cfg, pose, ds, |ds|))
  {
    u := FirstArePlaced(cfg, pose, ds, |ds|);
    hide IsPlaced, Usable, Ascends;
  }

  lemma {:induction false} FirstArePlaced(cfg: Config, pose: Pose, ds: seq<ConeDetection>, n: nat) returns (u: seq<nat>)
    requires n <= |ds|
    ensures PlacesUsable(cfg, pose, ds, n, u, Usable(cfg, pose, ds, n))
  {
    hide PlacesUsable, Pose.Apply;
    if n == 0 {
      u := [];
      NonePlaced(cfg, pose, ds);
    } else {
      var before := FirstArePlaced(cfg, pose, ds, n - 1);
      var r := Usable(cfg, pose, ds, n - 1);
      if IsUsable(cfg, ds[n - 1]) {
        u := before + [n - 1];
        OneMorePlaced(cfg, pose, ds, n - 1, before, r, Usable(cfg, pose, ds, n)[|r|]);
      } else {
        u := before;
        assert r + [] == r;
        OneLeftOut(cfg, pose, ds, n - 1, before, r);
      }
    }
  }

  lemma NonePlaced(cfg: Config, pose: Pose, ds: seq<ConeDetection>)
    ensures PlacesUsable(cfg, pose, ds, 0, [], [])
  {
  }

  lemma OneMorePlaced(cfg: Config, pose: Pose, ds: seq<ConeDetection>, n: nat, u: seq<nat>, r: seq<Detection>,
                      d: Detection)
    requires n < |ds| && PlacesUsable(cfg, pose, ds, n, u, r) && IsUsable(cfg, ds[n]) && IsPlaced(pose, ds[n], d)
    ensures PlacesUsable(cfg, pose, ds, n + 1, u + [n], r + [d])
  {
    AscendsNext(u, n);
    hide IsUsable, IsPlaced, Ascends;
  }

  lemma OneLeftOut(cfg: Config, pose: Pose, ds: seq<ConeDetection>, n: nat, u: seq<nat>, r: seq<Detection>)
    requires n < |ds| && PlacesUsable(cfg, pose, ds, n, u, r) && !IsUsable(cfg, ds[n])
    ensures PlacesUsable(cfg, pose, ds, n + 1, u, r)
  {
    hide IsUsable, IsPlaced, Ascends;
  }

  // ------------------------------------------------------------------ stage 1: the solved map

  /** A map set_map accepts: finite, ids distinct and below the maximum. */
  predicate IsFinite(m: MapState) {
    m.pose.Some? && forall i :: 0 <= i < |m.landmarks| ==> m.landmarks[i].position.Some?
  }

  predicate IdsDistinct(ls: seq<MapLandmark>) { forall i, j :: 0 <= i < j < |ls| ==> ls[i].id != ls[j].id }

  predicate MapIsFinite(st: Front) { st.map_state.Some? ==> IsFinite(st.map_state.value) }

  function LastObserved(seen: map<nat, nat>, id: nat): nat { if id in seen then seen[id] else 0 }

  /** The age of a landmark in frames, never below one; the subtraction is modulo 2^64. */
  function FramesSince(st: Front, id: nat): real {
    var gap := (st.frameCount - LastObserved(st.lastObserved, id)) % (U64_MAX + 1);
    if gap <= 1 then 1.0 else gap as real
  }

  function MapDistance(cfg: Config, st: Front, pose: Pose, d: Detection, l: MapLandmark): real
    requires st.map_state.Some? && IsFinite(st.map_state.value) && l in st.map_state.value.landmarks
  {
    var landmark := st.map_state.value.pose.value.Inverse().Apply(l.position.value);
    var frames := FramesSince(st, l.id);
    AssociationGate.MahalanobisSquared(d.odom, landmark, pose.Translation(), frames, cfg.Noise())
  }

  function MapTable(cfg: Config, st: Front, pose: Pose, ds: seq<Detection>): (t: seq<seq<real>>)
    requires st.map_state.Some? && IsFinite(st.map_state.value)
    ensures |t| == |ds| && forall d :: 0 <= d < |t| ==> |t[d]| == |st.map_state.value.landmarks|
  {
    var ls := st.map_state.value.landmarks;
    seq(|ds|, d requires 0 <= d < |ds| =>
      seq(|ls|, l requires 0 <= l < |ls| => MapDistance(cfg, st, pose, ds[d], ls[l])))
  }

  /** There is a map, and a frame at time now may be matched to it. */
  predicate MapApplies(st: Front, now: nat) { st.map_state.Some? && st.map_state.value.timestamp <= now }

  function MapMatches(cfg: Config, st: Front, pose: Pose, now: nat, ds: seq<Detection>, used: seq<bool>): seq<Link>
    requires MapIsFinite(st) && |used| == |ds|
  {
    if MapApplies(st, now) then Matches(MapTable(cfg, st, pose, ds), used, UpTo(cfg.mapGate)) else []
  }

  /** InMap observations of the first n matches. */
  function MapObservations(ls: seq<MapLandmark>, ds: seq<Detection>, ms: seq<Link>, n: nat): seq<Observation>
    requires n <= |ms| && forall m :: m in ms ==> m.left < |ds| && m.right < |ls|
  {
    if n == 0 then []
    else
      assert ms[n - 1] in ms;
      MapObservations(ls, ds, ms, n - 1)
      + [Observation(ls[ms[n - 1].right].id, Some(ds[ms[n - 1].left].base), InMap)]
  }

  /** Looking up a landmark's last frame creates an entry of 0 when there is none. */
  function Touched(seen: map<nat, nat>, ls: seq<MapLandmark>, n: nat): map<nat, nat>
    requires n <= |ls|
  {
    if n == 0 then seen
    else
      var before := Touched(seen, ls, n - 1);
      before[ls[n - 1].id := LastObserved(before, ls[n - 1].id)]
  }

  // ------------------------------------------------------------------ stages 2 and 3: candidates

  /** Indices of the promoted (or of the unpromoted) among the first n candidates. */
  function Indices(cs: seq<Candidate>, promoted: bool, n: nat): (r: seq<nat>)
    requires n <= |cs|
    ensures forall i :: 0 <= i < |r| ==> r[i] < n && cs[r[i]].id.Some? == promoted
    ensures forall i, j :: 0 <= i < j < |r| ==> r[i] < r[j]
  {
    if n == 0 then []
    else
      var last := if cs[n - 1].id.Some? == promoted then [n - 1] else [];
      Indices(cs, promoted, n - 1) + last
  }

  function CandidateTable(cs: seq<Candidate>, idx: seq<nat>, ds: seq<Detection>): (t: seq<seq<real>>)
    requires forall i :: 0 <= i < |idx| ==> idx[i] < |cs|
    ensures |t| == |ds| && forall d :: 0 <= d < |t| ==> |t[d]| == |idx|
  {
    seq(|ds|, d requires 0 <= d < |ds| =>
      seq(|idx|, t requires 0 <= t < |idx| => SquaredDistance(ds[d].odom, cs[idx[t]].position)))
  }

  /** A distance is at most g exactly when its square is at most this. */
  function SquaredGate(g: real): real { if g >= 0.0 then g * g else -1.0 }

  /** Matches to the promoted (or unpromoted) candidates, as (detection, candidate index). */
  function CandidateMatches(cfg: Config, cs: seq<Candidate>, promoted: bool, ds: seq<Detection>,
                            used: seq<bool>): seq<Link>
    requires |used| == |ds|
  {
    var idx := Indices(cs, promoted, |cs|);
    Matches(CandidateTable(cs, idx, ds), used, UpTo(SquaredGate(cfg.candidateGate)))
  }

  /** The mean of n values, after one more. */
  function RunningMean(n: real, mean: real, x: real): real
    requires n >= 0.0
  {
    (n * mean + x) / (n + 1.0)
  }

  /** A candidate after one more detection. */
  function Sighted(c: Candidate, z: Vec, now: nat): Candidate {
    var n := c.count as real;
    c.(position := Vec(RunningMean(n, c.position.x, z.x), RunningMean(n, c.position.y, z.y)),
       count := c.count + 1, lastSeen := now, sightings := c.sightings + [z])
  }

  /** The links refer to the indices idx and the detections. */
  ghost predicate Fits(ms: seq<Link>, idx: seq<nat>, cs: seq<Candidate>, ds: seq<Detection>) {
    && (forall m :: m in ms ==> m.left < |ds| && m.right < |idx|)
    && forall i :: 0 <= i < |idx| ==> idx[i] < |cs|
  }

  /** The candidates after the first n matches have updated their positions. */
  function Absorbed(cs: seq<Candidate>, idx: seq<nat>, ms: seq<Link>, ds: seq<Detection>, now: nat,
                    n: nat): (r: seq<Candidate>)
    requires Fits(ms, idx, cs, ds) && n <= |ms|
    ensures |r| == |cs|
  {
    if n == 0 then cs
    else
      assert ms[n - 1] in ms;
      var before := Absorbed(cs, idx, ms, ds, now, n - 1);
      var c := idx[ms[n - 1].right];
      before[c := Sighted(before[c], ds[ms[n - 1].left].odom, now)]
  }

  /** InGraph observations of the first n matches. */
  function GraphObservations(cs: seq<Candidate>, idx: seq<nat>, ms: seq<Link>, ds: seq<Detection>,
                             n: nat): seq<Observation>
    requires Fits(ms, idx, cs, ds) && n <= |ms|
    requires forall i :: 0 <= i < |idx| ==> cs[idx[i]].id.Some?
  {
    if n == 0 then []
    else
      assert ms[n - 1] in ms;
      GraphObservations(cs, idx, ms, ds, n - 1)
      + [Observation(cs[idx[ms[n - 1].right]].id.value, Some(ds[ms[n - 1].left].base), InGraph)]
  }

  /** The distance is at least b. */
  predicate AtLeastApart(p: Vec, q: Vec, b: real) { b <= 0.0 || SquaredDistance(p, q) >= b * b }

  /** The candidate after a match from position car: with more evidence if it is far enough from the last place. */
  function WithEvidence(cfg: Config, c: Candidate, confidence: real, car: Vec): Candidate {
    if AtLeastApart(car, c.evidencePosition, cfg.baseline)
    then c.(evidence := c.evidence + confidence, evidencePosition := car, vantages := c.vantages + [car]) else c
  }

  datatype Confirming = Confirming(candidates: seq<Candidate>, nextId: nat, observations: seq<Observation>)

  /** One matched unconfirmed candidate gathers evidence and is promoted once it has enough. */
  function ConfirmOne(cfg: Config, s: Confirming, c: nat, d: Detection, car: Vec): (r: Confirming)
    requires c < |s.candidates|
    ensures |r.candidates| == |s.candidates|
  {
    var candidate := WithEvidence(cfg, s.candidates[c], d.confidence, car);
    if candidate.evidence >= cfg.minEvidence then
      Confirming(s.candidates[c := candidate.(id := Some(s.nextId))], s.nextId + 1,
                 s.observations + [Observation(s.nextId, Some(d.base), New)])
    else
      s.(candidates := s.candidates[c := candidate])
  }

  /** The first n matches to unconfirmed candidates. */
  function Confirmed(cfg: Config, cs: seq<Candidate>, nextId: nat, idx: seq<nat>, ms: seq<Link>,
                     ds: seq<Detection>, car: Vec, n: nat): (r: Confirming)
    requires Fits(ms, idx, cs, ds) && n <= |ms|
    ensures |r.candidates| == |cs|
  {
    if n == 0 then Confirming(cs, nextId, [])
    else
      assert ms[n - 1] in ms;
      ConfirmOne(cfg, Confirmed(cfg, cs, nextId, idx, ms, ds, car, n - 1),
                 idx[ms[n - 1].right], ds[ms[n - 1].left], car)
  }

  lemma NoneConfirmed(cfg: Config, cs: seq<Candidate>, nextId: nat, idx: seq<nat>, ms: seq<Link>, ds: seq<Detection>,
                      car: Vec)
    requires Fits(ms, idx, cs, ds)
    ensures Confirmed(cfg, cs, nextId, idx, ms, ds, car, 0) == Confirming(cs, nextId, [])
  {
  }

  lemma ConfirmedNext(cfg: Config, cs: seq<Candidate>, nextId: nat, idx: seq<nat>, ms: seq<Link>,
                      ds: seq<Detection>, car: Vec, n: nat)
    requires Fits(ms, idx, cs, ds) && n < |ms|
    ensures ms[n].right < |idx| && idx[ms[n].right] < |cs| && ms[n].left < |ds|
    ensures Confirmed(cfg, cs, nextId, idx, ms, ds, car, n + 1)
         == ConfirmOne(cfg, Confirmed(cfg, cs, nextId, idx, ms, ds, car, n), idx[ms[n].right], ds[ms[n].left], car)
  {
    hide ConfirmOne;
    assert ms[n] in ms;
  }

  // ------------------------------------------------------------------ stages 4 and 5: spawn and prune

  /** A candidate seen once. */
  function CandidateOf(d: Detection, car: Vec, now: nat): Candidate {
    Candidate(None, d.odom, 1, d.confidence, car, now, [d.odom], [car])
  }

  /** The candidates of the unused ones of the first n detections. */
  function Spawned(ds: seq<Detection>, used: seq<bool>, car: Vec, now: nat, n: nat): seq<Candidate>
    requires n <= |ds| == |used|
  {
    if n == 0 then []
    else
      var last := if used[n - 1] then [] else [CandidateOf(ds[n - 1], car, now)];
      Spawned(ds, used, car, now, n - 1) + last
  }

  /** Nanoseconds since the candidate was seen, subtracted as uint64. */
  function Age(c: Candidate, now: nat): int { (now - c.lastSeen) % (U64_MAX + 1) }

  predicate IsStale(c: Candidate, now: nat) {
    Age(c, now) > (if c.id.Some? then IN_GRAPH_MAX_AGE_NS else UNCONFIRMED_MAX_AGE_NS)
  }

  /** The first n candidates without the stale ones. */
  function Pruned(cs: seq<Candidate>, now: nat, n: nat): seq<Candidate>
    requires n <= |cs|
  {
    if n == 0 then []
    else
      var last := if IsStale(cs[n - 1], now) then [] else [cs[n - 1]];
      Pruned(cs, now, n - 1) + last
  }

  /** The indices u are those of the candidates seen recently enough: within 3 s, or within 1 s once in the graph. */
  ghost predicate AreRecent(cs: seq<Candidate>, now: nat, u: seq<nat>) {
    forall k: nat :: k in u <==> k < |cs| && IsRecent(cs[k], now)
  }

  predicate IsRecent(c: Candidate, now: nat) {
    (now - c.lastSeen) % 0x1_0000_0000_0000_0000 <= if c.id.Some? then 1_000_000_000 else 3_000_000_000
  }

  lemma IsStaleIff(c: Candidate, now: nat)
    ensures IsStale(c, now) <==> !IsRecent(c, now)
  {
  }

  lemma {:induction false} PrunedAre(cs: seq<Candidate>, now: nat, n: nat, marks: seq<bool>) returns (u: seq<nat>)
    requires n <= |cs| == |marks| && forall k :: 0 <= k < |cs| ==> marks[k] == !IsStale(cs[k], now)
    ensures PicksMarked(cs, marks, n, u, Pruned(cs, now, n))
  {
    hide PicksMarked, IsStale;
    if n == 0 {
      u := [];
      PicksNoneMarked(cs, marks);
    } else {
      u := PrunedAre(cs, now, n - 1, marks);
      PicksMarkedNext(cs, marks, n - 1, u, Pruned(cs, now, n - 1));
      if marks[n - 1] { u := u + [n - 1]; }
    }
  }

  lemma PrunedAreRecent(cs: seq<Candidate>, now: nat) returns (u: seq<nat>)
    ensures Picks(cs, u, Pruned(cs, now, |cs|)) && AreRecent(cs, now, u)
  {
    var marks := seq(|cs|, k requires 0 <= k < |cs| => !IsStale(cs[k], now));
    u := PrunedAre(cs, now, |cs|, marks);
    hide Picks, Pruned;
    forall k: nat
      ensures k in u <==> k < |cs| && IsRecent(cs[k], now)
    {
      if k < |cs| { IsStaleIff(cs[k], now); }
    }
  }

  // ------------------------------------------------------------------ a whole frame

  function Recorded(seen: map<nat, nat>, obs: seq<Observation>, frame: nat, n: nat): map<nat, nat>
    requires n <= |obs|
  {
    if n == 0 then seen else Recorded(seen, obs, frame, n - 1)[obs[n - 1].id := frame]
  }

  /** The state after a matching stage, the detections in use, and the observations it emits. */
  datatype Matched = Matched(front: Front, used: seq<bool>, observations: seq<Observation>)

  function MappedStage(cfg: Config, st: Front, pose: Pose, now: nat, ds: seq<Detection>, used: seq<bool>): (r: Matched)
    requires MapIsFinite(st) && |used| == |ds|
    ensures |r.used| == |used|
  {
    if MapApplies(st, now) then
      var ls := st.map_state.value.landmarks;
      var table := MapTable(cfg, st, pose, ds);
      var ms := MapMatches(cfg, st, pose, now, ds, used);
      MatchesAreSound(table, used, UpTo(cfg.mapGate));
      Matched(st.(lastObserved := Touched(st.lastObserved, ls, |ls|)), Marked(used, ms),
              MapObservations(ls, ds, ms, |ms|))
    else Matched(st, used, [])
  }

  lemma CandidateMatchesFit(cfg: Config, cs: seq<Candidate>, promoted: bool, ds: seq<Detection>, used: seq<bool>)
    requires |used| == |ds|
    ensures var idx, ms := Indices(cs, promoted, |cs|), CandidateMatches(cfg, cs, promoted, ds, used);
            Fits(ms, idx, cs, ds) && Disjoint(ms) && forall m :: m in ms ==> !used[m.left]
  {
    var idx := Indices(cs, promoted, |cs|);
    MatchesAreSound(CandidateTable(cs, idx, ds), used, UpTo(SquaredGate(cfg.candidateGate)));
  }

  lemma AbsorbKeepsIds(cs: seq<Candidate>, idx: seq<nat>, ms: seq<Link>, ds: seq<Detection>, now: nat, n: nat)
    requires Fits(ms, idx, cs, ds) && n <= |ms|
    ensures forall i :: 0 <= i < |cs| ==> Absorbed(cs, idx, ms, ds, now, n)[i].id == cs[i].id
  {
  }

  lemma FitsAbsorbed(ms: seq<Link>, idx: seq<nat>, cs: seq<Candidate>, absorbed: seq<Candidate>, ds: seq<Detection>)
    requires Fits(ms, idx, cs, ds) && |absorbed| == |cs|
    ensures Fits(ms, idx, absorbed, ds)
  {
  }

  lemma MatchesAreInTable(table: seq<seq<real>>, used: seq<bool>, gate: Gate, cols: nat)
    requires |table| == |used| && forall d :: 0 <= d < |table| ==> |table[d]| == cols
    ensures forall m :: m in Matches(table, used, gate) ==> m.left < |table| && m.right < cols
  {
    MatchesAreSound(table, used, gate);
  }

  function GraphStage(cfg: Config, st: Front, now: nat, ds: seq<Detection>, used: seq<bool>): (r: Matched)
    requires |used| == |ds|
    ensures |r.used| == |used|
  {
    var idx, ms := Indices(st.candidates, true, |st.candidates|), CandidateMatches(cfg, st.candidates, true, ds, used);
    CandidateMatchesFit(cfg, st.candidates, true, ds, used);
    var cs := Absorbed(st.candidates, idx, ms, ds, now, |ms|);
    AbsorbKeepsIds(st.candidates, idx, ms, ds, now, |ms|);
    Matched(st.(candidates := cs), Marked(used, ms), GraphObservations(cs, idx, ms, ds, |ms|))
  }

  /** Matches to unconfirmed candidates: positions first, then evidence and promotions. */
  function ConfirmMatched(cfg: Config, cs: seq<Candidate>, nextId: nat, car: Vec, now: nat, ds: seq<Detection>,
                          used: seq<bool>)
    : Confirming
    requires |used| == |ds|
  {
    var idx, ms := Indices(cs, false, |cs|), CandidateMatches(cfg, cs, false, ds, used);
    CandidateMatchesFit(cfg, cs, false, ds, used);
    Confirmed(cfg, Absorbed(cs, idx, ms, ds, now, |ms|), nextId, idx, ms, ds, car, |ms|)
  }

  function UnconfirmedStage(cfg: Config, st: Front, pose: Pose, now: nat, ds: seq<Detection>,
                            used: seq<bool>): (r: Matched)
    requires |used| == |ds|
    ensures |r.used| == |used|
  {
    var confirmed := ConfirmMatched(cfg, st.candidates, st.nextId, pose.Translation(), now, ds, used);
    Matched(st.(candidates := confirmed.candidates, nextId := confirmed.nextId),
            Marked(used, CandidateMatches(cfg, st.candidates, false, ds, used)), confirmed.observations)
  }

  /** The candidates after spawning and pruning. */
  function Settled(cs: seq<Candidate>, ds: seq<Detection>, used: seq<bool>, car: Vec, now: nat): seq<Candidate>
    requires |ds| == |used|
  {
    var all := cs + Spawned(ds, used, car, now, |ds|);
    Pruned(all, now, |all|)
  }

  datatype Processed = Processed(front: Front, out: Option<ObservationFrame>)

  datatype Matching3 = Matching3(mapped: Matched, graph: Matched, unconfirmed: Matched) {
    function Observations(): seq<Observation> { mapped.observations + graph.observations + unconfirmed.observations }
  }

  /** The state once the frame is accepted, and its usable detections. */
  function Entered(st: Front, frame: ConeFrame): Front {
    st.(lastFrame := Some(frame.timestamp), frameCount := st.frameCount + 1)
  }

  /** The three matching stages, from a state that has accepted the frame. */
  function Stages(cfg: Config, st: Front, pose: Pose, now: nat, ds: seq<Detection>): (r: Matching3)
    requires MapIsFinite(st)
    ensures |r.unconfirmed.used| == |ds|
  {
    var m := MappedStage(cfg, st, pose, now, ds, NoneUsed(|ds|));
    var g := GraphStage(cfg, m.front, now, ds, m.used);
    var u := UnconfirmedStage(cfg, g.front, pose, now, ds, g.used);
    Matching3(m, g, u)
  }

  /** The end of a frame: spawn, prune, and record when landmarks were observed. */
  function Finished(m: Matching3, ds: seq<Detection>, car: Vec, now: nat): Front
    requires |m.unconfirmed.used| == |ds|
  {
    var front, obs := m.unconfirmed.front, m.Observations();
    front.(candidates := Settled(front.candidates, ds, m.unconfirmed.used, car, now),
           lastObserved := Recorded(front.lastObserved, obs, front.frameCount, |obs|))
  }

  /** A whole frame; a rejected one changes nothing. */
  function Process(cfg: Config, st: Front, frame: ConeFrame): Processed
    requires MapIsFinite(st)
  {
    if !Accepts(st, frame) then Processed(st, None)
    else
      var pose, now := frame.pose.value, frame.timestamp;
      var ds := Usable(cfg, pose, frame.detections, |frame.detections|);
      var m := Stages(cfg, Entered(st, frame), pose, now, ds);
      Processed(Finished(m, ds, pose.Translation(), now), Some(ObservationFrame(now, pose, m.Observations())))
  }

  // ------------------------------------------------------------------ set_map

  function MapIds(ls: seq<MapLandmark>): set<nat> { set l | l in ls :: l.id }

  predicate AcceptsMap(st: Front, m: MapState) {
    && m.pose.Some?
    && (st.map_state.Some? ==> m.timestamp > st.map_state.value.timestamp && m.sequence > st.map_state.value.sequence)
    && (forall i :: 0 <= i < |m.landmarks| ==> m.landmarks[i].position.Some? && m.landmarks[i].id != U64_MAX)
    && IdsDistinct(m.landmarks)
  }

  /** The next id, above the ids of the first n landmarks. */
  function NextAbove(next: nat, ls: seq<MapLandmark>, n: nat): (r: nat)
    requires n <= |ls|
    ensures r >= next && forall i :: 0 <= i < n ==> ls[i].id < r
  {
    if n == 0 then next
    else
      var before := NextAbove(next, ls, n - 1);
      if before >= ls[n - 1].id + 1 then before else ls[n - 1].id + 1
  }

  predicate IsMapped(c: Candidate, ids: set<nat>) { c.id.Some? && c.id.value in ids }

  /** The first n candidates without those now in the map. */
  function Unmapped(cs: seq<Candidate>, ids: set<nat>, n: nat): seq<Candidate>
    requires n <= |cs|
  {
    if n == 0 then []
    else
      var last := if IsMapped(cs[n - 1], ids) then [] else [cs[n - 1]];
      Unmapped(cs, ids, n - 1) + last
  }

  /** The indices u are those of the candidates that no landmark of ls names. */
  ghost predicate AreUnmapped(cs: seq<Candidate>, ls: seq<MapLandmark>, u: seq<nat>) {
    forall k: nat :: k in u <==>
      k < |cs| && (cs[k].id.None? || forall i :: 0 <= i < |ls| ==> ls[i].id != cs[k].id.value)
  }

  /** next was the next id and is now the least that is above the ids of ls as well. */
  ghost predicate IsRaised(next: nat, ls: seq<MapLandmark>, raised: nat) {
    && raised >= next && (forall i :: 0 <= i < |ls| ==> ls[i].id < raised)
    && (raised == next || exists i :: 0 <= i < |ls| && ls[i].id + 1 == raised)
  }

  /**
    Taking a map replaces the map, raises the next id above its ids, and drops the candidates it names; all
    others stay as they are, in order.
  */
  ghost predicate TookMap(before: Front, m: MapState, after: Front) {
    && after == before.(map_state := Some(m), nextId := after.nextId, candidates := after.candidates)
    && IsRaised(before.nextId, m.landmarks, after.nextId)
    && exists u :: Picks(before.candidates, u, after.candidates) && AreUnmapped(before.candidates, m.landmarks, u)
  }

  lemma {:induction false} UnmappedAre(cs: seq<Candidate>, ids: set<nat>, n: nat, marks: seq<bool>)
    returns (u: seq<nat>)
    requires n <= |cs| == |marks| && forall k :: 0 <= k < |cs| ==> marks[k] == !IsMapped(cs[k], ids)
    ensures PicksMarked(cs, marks, n, u, Unmapped(cs, ids, n))
  {
    hide PicksMarked, IsMapped;
    if n == 0 {
      u := [];
      PicksNoneMarked(cs, marks);
    } else {
      u := UnmappedAre(cs, ids, n - 1, marks);
      PicksMarkedNext(cs, marks, n - 1, u, Unmapped(cs, ids, n - 1));
      if marks[n - 1] { u := u + [n - 1]; }
    }
  }

  lemma {:induction false} NextIsRaised(next: nat, ls: seq<MapLandmark>, n: nat)
    requires n <= |ls|
    ensures IsRaised(next, ls[..n], NextAbove(next, ls, n))
  {
    if n > 0 {
      NextIsRaised(next, ls, n - 1);
      var before, r := NextAbove(next, ls, n - 1), NextAbove(next, ls, n);
      assert forall i :: 0 <= i < n - 1 ==> ls[..n - 1][i] == ls[..n][i];
      if r != before { assert ls[..n][n - 1].id + 1 == r; }
    }
  }

  lemma WithMapTook(st: Front, m: MapState)
    requires AcceptsMap(st, m)
    ensures TookMap(st, m, WithMap(st, m))
  {
    hide Picks, IsRaised, AcceptsMap;
    NextIsRaised(st.nextId, m.landmarks, |m.landmarks|);
    assert m.landmarks[..|m.landmarks|] == m.landmarks;
    var u := UnmappedAreKept(st.candidates, m.landmarks);
    hide AreUnmapped, Unmapped, NextAbove;
  }

  lemma UnmappedAreKept(cs: seq<Candidate>, ls: seq<MapLandmark>) returns (u: seq<nat>)
    ensures Picks(cs, u, Unmapped(cs, MapIds(ls), |cs|)) && AreUnmapped(cs, ls, u)
  {
    var ids := MapIds(ls);
    var marks := seq(|cs|, k requires 0 <= k < |cs| => !IsMapped(cs[k], ids));
    u := UnmappedAre(cs, ids, |cs|, marks);
    hide Picks, Unmapped;
    forall k: nat
      ensures k in u <==> k < |cs| && (cs[k].id.None? || forall i :: 0 <= i < |ls| ==> ls[i].id != cs[k].id.value)
    {
      if k < |cs| { IsMappedIff(cs[k], ls); }
    }
  }

  lemma IsMappedIff(c: Candidate, ls: seq<MapLandmark>)
    ensures !IsMapped(c, MapIds(ls)) <==> c.id.None? || forall i :: 0 <= i < |ls| ==> ls[i].id != c.id.value
  {
  }

  /** The state once a map is offered: unchanged when it is rejected. */
  function WithMap(st: Front, m: MapState): Front {
    if AcceptsMap(st, m) then
      st.(map_state := Some(m), nextId := NextAbove(st.nextId, m.landmarks, |m.landmarks|),
          candidates := Unmapped(st.candidates, MapIds(m.landmarks), |st.candidates|))
    else st
  }

  // ------------------------------------------------------------------ cone_map

  datatype Cone = Cone(id: nat, position: Vec, optimized: bool)

  function InsertCone(x: Cone, s: seq<Cone>): (r: seq<Cone>)
    ensures multiset(r) == multiset(s) + multiset{x}
  {
    if s == [] then [x]
    else if s[0].id < x.id then
      assert s == [s[0]] + s[1..];
      [s[0]] + InsertCone(x, s[1..])
    else [x] + s
  }

  /** The cones in order of id: what std::sort leaves when ids are distinct. */
  function SortedCones(s: seq<Cone>): (r: seq<Cone>)
    ensures multiset(r) == multiset(s)
  {
    if s == [] then []
    else
      assert s == [s[0]] + s[1..];
      InsertCone(s[0], SortedCones(s[1..]))
  }

  /** The cones of the first n landmarks. */
  function MapCones(ls: seq<MapLandmark>, n: nat): seq<Cone>
    requires n <= |ls| && forall i :: 0 <= i < |ls| ==> ls[i].position.Some?
  {
    if n == 0 then [] else MapCones(ls, n - 1) + [Cone(ls[n - 1].id, ls[n - 1].position.value, true)]
  }

  /** The cones of the promoted ones of the first n candidates. */
  function GraphCones(cs: seq<Candidate>, pose: Pose, n: nat): seq<Cone>
    requires n <= |cs|
  {
    if n == 0 then []
    else
      var last := if cs[n - 1].id.Some? then [Cone(cs[n - 1].id.value, pose.Apply(cs[n - 1].position), false)] else [];
      GraphCones(cs, pose, n - 1) + last
  }

  function ConesOf(st: Front): Option<seq<Cone>>
    requires MapIsFinite(st)
  {
    if st.map_state.None? then None
    else
      var m := st.map_state.value;
      Some(SortedCones(MapCones(m.landmarks, |m.landmarks|) + GraphCones(st.candidates, m.pose.value, |st.candidates|)))
  }

  // ------------------------------------------------------------------ the stateful frontend

  class SlamFrontend {
    const cfg: Config
    var map_state: Option<MapState>
    var candidates: seq<Candidate>
    var nextId: nat
    var lastFrame: Option<nat>
    var frameCount: nat
    var lastObserved: map<nat, nat>

    constructor (cfg: Config)
      ensures this.cfg == cfg && State() == INITIAL && Valid()
    {
      this.cfg := cfg;
      map_state, candidates, nextId, lastFrame, frameCount, lastObserved := None, [], 1, None, 0, map[];
    }

    function State(): Front
      reads this
    {
      Front(map_state, candidates, nextId, lastFrame, frameCount, lastObserved)
    }

    predicate Valid()
      reads this
    {
      MapIsFinite(State())
    }

    method ProcessFrame(frame: ConeFrame) returns (out: Option<ObservationFrame>)
      requires Valid()
      modifies this
      ensures Valid()
      ensures State() == Process(cfg, old(State()), frame).front && out == Process(cfg, old(State()), frame).out
    {
      hide Stages, Usable, Settled, Recorded, IsFinite;
      ghost var before := State();
      if (lastFrame.Some? && frame.timestamp <= lastFrame.value) || frame.pose.None? {
        return None;
      }
      lastFrame := Some(frame.timestamp);
      frameCount := frameCount + 1;

      var pose := frame.pose.value;
      var detections := UsableDetections(frame);
      assert State() == Entered(before, frame);
      var observations, used := RunStages(detections, pose, frame.timestamp);
      SpawnAndPrune(detections, used, pose.Translation(), frame.timestamp);
      RecordObservations(observations);
      out := Some(ObservationFrame(frame.timestamp, pose, observations));
    }

    /** Runs the stages on shared marks; returns the observations of all three, and the marks they leave. */
    method RunStages(detections: seq<Detection>, pose: Pose, now: nat)
      returns (observations: seq<Observation>, inUse: seq<bool>)
      requires Valid()
      modifies `candidates, `nextId, `lastObserved
      ensures Valid()
      ensures var m := Stages(cfg, old(State()), pose, now, detections);
              State() == m.unconfirmed.front && observations == m.Observations() && inUse == m.unconfirmed.used
    {
      var used := new bool[|detections|](_ => false);
      assert used[..] == NoneUsed(|detections|);
      hide MappedStage, GraphStage, UnconfirmedStage, IsFinite;
      var mapped := MatchMapped(detections, used, pose, now);
      var inGraph := MatchGraph(detections, used, now);
      var confirmed := MatchUnconfirmed(detections, used, pose, now);
      return mapped + inGraph + confirmed, used[..];
    }

    method UsableDetections(frame: ConeFrame) returns (detections: seq<Detection>)
      requires frame.pose.Some?
      ensures detections == Usable(cfg, frame.pose.value, frame.detections, |frame.detections|)
      ensures exists u :: ArePlaced(cfg, frame.pose.value, frame.detections, u, detections)
    {
      hide ArePlaced;
      detections := [];
      for i := 0 to |frame.detections|
        invariant detections == Usable(cfg, frame.pose.value, frame.detections, i)
      {
        var d := frame.detections[i];
        if d.position.Some? && d.confidence.Some? &&
           d.confidence.value <= 1.0 && d.confidence.value >= cfg.minConfidence {
          var odom := frame.pose.value.Apply(d.position.value);
          detections := detections + [Detection(d.position.value, odom, d.confidence.value)];
        }
      }
      ghost var u := UsableArePlaced(cfg, frame.pose.value, frame.detections);
    }

    method RecordObservations(observations: seq<Observation>)
      modifies `lastObserved
      ensures lastObserved == Recorded(old(lastObserved), observations, frameCount, |observations|)
    {
      ghost var seen := lastObserved;
      for i := 0 to |observations|
        invariant lastObserved == Recorded(seen, observations, frameCount, i)
      {
        lastObserved := lastObserved[observations[i].id := frameCount];
      }
    }

    method SetMap(state: MapState) returns (accepted: bool)
      requires Valid()
      modifies this
      ensures Valid()
      ensures accepted == AcceptsMap(old(State()), state) && State() == WithMap(old(State()), state)
      ensures if accepted then TookMap(old(State()), state, State()) else State() == old(State())
    {
      hide TookMap;
      if state.pose.None? ||
         (map_state.Some? &&
          (state.timestamp <= map_state.value.timestamp || state.sequence <= map_state.value.sequence)) {
        return false;
      }
      var usable, ids := CheckLandmarks(state.landmarks);
      if !usable {
        return false;
      }
      hide IdsDistinct, MapIds;

      ghost var next := nextId;
      for i := 0 to |state.landmarks|
        invariant nextId == NextAbove(next, state.landmarks, i)
        modifies `nextId
      {
        nextId := if nextId >= state.landmarks[i].id + 1 then nextId else state.landmarks[i].id + 1;
      }

      WithMapTook(State().(nextId := next), state);
      DropMapped(ids);
      map_state := Some(state);
      return true;
    }

    /** Removes the candidates whose id is one of the given ones. */
    method DropMapped(ids: set<nat>)
      modifies `candidates
      ensures candidates == Unmapped(old(candidates), ids, |old(candidates)|)
    {
      var kept := [];
      for i := 0 to |candidates|
        invariant kept == Unmapped(candidates, ids, i)
      {
        if !(candidates[i].id.Some? && candidates[i].id.value in ids) {
          kept := kept + [candidates[i]];
        }
      }
      candidates := kept;
    }

    /** Every landmark is finite and has an id of its own other than the reserved one. */
    static method CheckLandmarks(landmarks: seq<MapLandmark>) returns (usable: bool, ids: set<nat>)
      ensures usable <==>
        && IdsDistinct(landmarks)
        && forall i :: 0 <= i < |landmarks| ==> landmarks[i].position.Some? && landmarks[i].id != U64_MAX
      ensures usable ==> ids == MapIds(landmarks)
    {
      ids := {};
      for i := 0 to |landmarks|
        invariant ids == set j | 0 <= j < i :: landmarks[j].id
        invariant forall j :: 0 <= j < i ==> landmarks[j].position.Some? && landmarks[j].id != U64_MAX
        invariant forall j, k :: 0 <= j < k < i ==> landmarks[j].id != landmarks[k].id
      {
        var landmark := landmarks[i];
        if landmark.position.None? || landmark.id == U64_MAX || landmark.id in ids {
          return false, ids;
        }
        ids := ids + {landmark.id};
      }
      return true, ids;
    }

    method ConeMap() returns (cones: Option<seq<Cone>>)
      requires Valid()
      ensures cones == ConesOf(State())
    {
      if map_state.None? {
        return None;
      }
      var list := [];
      var landmarks := map_state.value.landmarks;
      for i := 0 to |landmarks|
        invariant list == MapCones(landmarks, i)
      {
        list := list + [Cone(landmarks[i].id, landmarks[i].position.value, true)];
      }
      ghost var mapped := list;
      for i := 0 to |candidates|
        invariant list == mapped + GraphCones(candidates, map_state.value.pose.value, i)
      {
        if candidates[i].id.Some? {
          var position := map_state.value.pose.value.Apply(candidates[i].position);
          list := list + [Cone(candidates[i].id.value, position, false)];
        }
      }
      return Some(SortedCones(list));
    }

    method MatchMapped(detections: seq<Detection>, used: array<bool>, pose: Pose, now: nat)
      returns (obs: seq<Observation>)
      requires Valid() && used.Length == |detections|
      modifies `lastObserved, used
      ensures Valid()
      ensures var r := MappedStage(cfg, old(State()), pose, now, detections, old(used[..]));
              State() == r.front && used[..] == r.used && obs == r.observations
    {
      obs := [];
      if map_state.None? || map_state.value.timestamp > now {
        return;
      }
      hide MapTable, Matches, Marked, Touched, MapObservations, IsFinite, IsCandidate, Disjoint;
      var landmarks := map_state.value.landmarks;
      var distance := MapTable(cfg, State(), pose, detections);
      TouchLandmarks(landmarks);
      MatchesAreInTable(distance, used[..], UpTo(cfg.mapGate), |landmarks|);
      var matches := NearestNeighbor(distance, |landmarks|, used, cfg.mapGate);
      obs := ObserveMapped(landmarks, detections, matches);
    }

    /** Reads every landmark's last frame, which creates the missing entries. */
    method TouchLandmarks(landmarks: seq<MapLandmark>)
      modifies `lastObserved
      ensures lastObserved == Touched(old(lastObserved), landmarks, |landmarks|)
    {
      ghost var seen := lastObserved;
      for l := 0 to |landmarks|
        invariant lastObserved == Touched(seen, landmarks, l)
      {
        var id := landmarks[l].id;
        lastObserved := lastObserved[id := if id in lastObserved then lastObserved[id] else 0];
      }
    }

    static method ObserveMapped(landmarks: seq<MapLandmark>, detections: seq<Detection>, matches: seq<Link>)
      returns (obs: seq<Observation>)
      requires forall m :: m in matches ==> m.left < |detections| && m.right < |landmarks|
      ensures obs == MapObservations(landmarks, detections, matches, |matches|)
    {
      obs := [];
      for i := 0 to |matches|
        invariant obs == MapObservations(landmarks, detections, matches, i)
      {
        assert matches[i] in matches;
        obs := obs + [Observation(landmarks[matches[i].right].id, Some(detections[matches[i].left].base), InMap)];
      }
    }

    /** Matches detections to the promoted (or unpromoted) candidates and updates their positions. */
    method MatchCandidates(promoted: bool, detections: seq<Detection>, used: array<bool>, now: nat)
      returns (indices: seq<nat>, matches: seq<Link>)
      requires used.Length == |detections|
      modifies `candidates, used
      ensures indices == Indices(old(candidates), promoted, |old(candidates)|)
      ensures matches == CandidateMatches(cfg, old(candidates), promoted, detections, old(used[..]))
      ensures Fits(matches, indices, old(candidates), detections)
      ensures candidates == Absorbed(old(candidates), indices, matches, detections, now, |matches|)
      ensures used[..] == Marked(old(used[..]), matches)
    {
      hide Matches, Marked, Absorbed, CandidateTable;
      indices := [];
      for i := 0 to |candidates|
        invariant indices == Indices(candidates, promoted, i)
      {
        if candidates[i].id.Some? == promoted {
          indices := indices + [i];
        }
      }
      hide Indices;
      CandidateMatchesFit(cfg, candidates, promoted, detections, used[..]);
      var distance := CandidateTable(candidates, indices, detections);
      matches := NearestNeighbor(distance, |indices|, used, SquaredGate(cfg.candidateGate));
      AbsorbMatches(indices, matches, detections, now);
    }

    method AbsorbMatches(indices: seq<nat>, matches: seq<Link>, detections: seq<Detection>, now: nat)
      requires Fits(matches, indices, candidates, detections)
      modifies `candidates
      ensures candidates == Absorbed(old(candidates), indices, matches, detections, now, |matches|)
    {
      ghost var before := candidates;
      for k := 0 to |matches|
        invariant candidates == Absorbed(before, indices, matches, detections, now, k)
      {
        assert matches[k] in matches;
        var c, z := indices[matches[k].right], detections[matches[k].left].odom;
        var candidate := candidates[c];
        var n := candidate.count as real;
        candidate := candidate.(
          position := Vec(RunningMean(n, candidate.position.x, z.x), RunningMean(n, candidate.position.y, z.y)),
          count := candidate.count + 1, lastSeen := now, sightings := candidate.sightings + [z]);
        assert candidate == Sighted(candidates[c], z, now);
        candidates := candidates[c := candidate];
      }
    }

    method MatchGraph(detections: seq<Detection>, used: array<bool>, now: nat) returns (obs: seq<Observation>)
      requires used.Length == |detections|
      modifies `candidates, used
      ensures var r := GraphStage(cfg, old(State()), now, detections, old(used[..]));
              State() == r.front && used[..] == r.used && obs == r.observations
    {
      hide Indices, CandidateMatches, Marked, Absorbed, GraphObservations, Fits;
      ghost var before := candidates;
      var indices, matches := MatchCandidates(true, detections, used, now);
      AbsorbKeepsIds(before, indices, matches, detections, now, |matches|);
      FitsAbsorbed(matches, indices, before, candidates, detections);
      obs := ObserveGraph(candidates, indices, matches, detections);
    }

    static method ObserveGraph(candidates: seq<Candidate>, indices: seq<nat>, matches: seq<Link>,
                               detections: seq<Detection>)
      returns (obs: seq<Observation>)
      requires Fits(matches, indices, candidates, detections)
      requires forall i :: 0 <= i < |indices| ==> candidates[indices[i]].id.Some?
      ensures obs == GraphObservations(candidates, indices, matches, detections, |matches|)
    {
      obs := [];
      for i := 0 to |matches|
        invariant obs == GraphObservations(candidates, indices, matches, detections, i)
      {
        assert matches[i] in matches;
        obs := obs + [Observation(candidates[indices[matches[i].right]].id.value,
                                  Some(detections[matches[i].left].base), InGraph)];
      }
    }

    method MatchUnconfirmed(detections: seq<Detection>, used: array<bool>, pose: Pose, now: nat)
      returns (obs: seq<Observation>)
      requires used.Length == |detections|
      modifies `candidates, `nextId, used
      ensures var r := UnconfirmedStage(cfg, old(State()), pose, now, detections, old(used[..]));
              State() == r.front && used[..] == r.used && obs == r.observations
    {
      hide Indices, CandidateMatches, Marked, Absorbed, Confirmed, Fits;
      ghost var before := candidates;
      var indices, matches := MatchCandidates(false, detections, used, now);
      FitsAbsorbed(matches, indices, before, candidates, detections);
      obs := ConfirmMatches(indices, matches, detections, pose.Translation());
    }

    method ConfirmMatches(indices: seq<nat>, matches: seq<Link>, detections: seq<Detection>, car: Vec)
      returns (obs: seq<Observation>)
      requires Fits(matches, indices, candidates, detections)
      modifies `candidates, `nextId
      ensures Confirming(candidates, nextId, obs)
           == Confirmed(cfg, old(candidates), old(nextId), indices, matches, detections, car, |matches|)
    {
      hide ConfirmOne, Confirmed;
      ghost var before, next := candidates, nextId;
      obs := [];
      NoneConfirmed(cfg, before, next, indices, matches, detections, car);
      for i := 0 to |matches|
        invariant Confirming(candidates, nextId, obs)
               == Confirmed(cfg, before, next, indices, matches, detections, car, i)
      {
        assert matches[i] in matches;
        ConfirmedNext(cfg, before, next, indices, matches, detections, car, i);
        obs := ConfirmMatch(indices[matches[i].right], detections[matches[i].left], car, obs);
      }
    }

    /** Updates candidate c for a match of detection; a promotion appends its observation to before. */
    method ConfirmMatch(c: nat, detection: Detection, car: Vec, before: seq<Observation>)
      returns (obs: seq<Observation>)
      requires c < |candidates|
      modifies `candidates, `nextId
      ensures Confirming(candidates, nextId, obs)
           == ConfirmOne(cfg, Confirming(old(candidates), old(nextId), before), c, detection, car)
    {
      hide AtLeastApart;
      obs := before;
      var candidate := candidates[c];
      if AtLeastApart(car, candidate.evidencePosition, cfg.baseline) {
        candidate := candidate.(evidence := candidate.evidence + detection.confidence, evidencePosition := car,
                                vantages := candidate.vantages + [car]);
      }
      if candidate.evidence >= cfg.minEvidence {
        candidate := candidate.(id := Some(nextId));
        obs := obs + [Observation(nextId, Some(detection.base), New)];
        nextId := nextId + 1;
      }
      candidates := candidates[c := candidate];
    }

    method SpawnAndPrune(detections: seq<Detection>, used: seq<bool>, car: Vec, now: nat)
      requires |used| == |detections|
      modifies `candidates
      ensures candidates == Settled(old(candidates), detections, used, car, now)
    {
      SpawnCandidates(detections, used, car, now);
      PruneCandidates(now);
    }

    method SpawnCandidates(detections: seq<Detection>, used: seq<bool>, car: Vec, now: nat)
      requires |used| == |detections|
      modifies `candidates
      ensures candidates == old(candidates) + Spawned(detections, used, car, now, |detections|)
    {
      ghost var before := candidates;
      for d := 0 to |detections|
        invariant candidates == before + Spawned(detections, used, car, now, d)
      {
        if used[d] { continue; }
        var z := detections[d];
        candidates := candidates + [Candidate(None, z.odom, 1, z.confidence, car, now, [z.odom], [car])];
      }
    }

    method PruneCandidates(now: nat)
      modifies `candidates
      ensures candidates == Pruned(old(candidates), now, |old(candidates)|)
      ensures exists u :: Picks(old(candidates), u, candidates) && AreRecent(old(candidates), now, u)
    {
      ghost var u := PrunedAreRecent(candidates, now);
      hide Picks, AreRecent;
      var kept := [];
      for i := 0 to |candidates|
        invariant kept == Pruned(candidates, now, i)
      {
        var maxAge := if candidates[i].id.Some? then IN_GRAPH_MAX_AGE_NS else UNCONFIRMED_MAX_AGE_NS;
        if Age(candidates[i], now) <= maxAge {
          kept := kept + [candidates[i]];
        }
      }
      candidates := kept;
    }
  }
}
