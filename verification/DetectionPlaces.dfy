/**
  Where a frame's detections go: each is matched in exactly one stage, the most trusted one that has room
  for it, or starts a candidate.
*/
module DetectionPlaces {
  import AssociationGate
  import opened Frontend
  import FrontendInvariants
  import opened Matching
  import Sequences
  import opened SlamTypes
  import opened Wrappers

  /** Detection d is on the left of one of the links. */
  ghost predicate Takes(ms: seq<Link>, d: nat) { exists m :: m in ms && m.left == d }

  // ------------------------------------------------------------------ one stage

  /** Links of detections that were unused, no two of the same detection, which the stage then marks. */
  ghost predicate MarksOwn(used: seq<bool>, ms: seq<Link>, after: seq<bool>) {
    && (forall m :: m in ms ==> m.left < |used| && !used[m.left])
    && Disjoint(ms) && after == Marked(used, ms)
  }

  /** Observation k is of the detection of link k. */
  ghost predicate ObservesInOrder(obs: seq<Observation>, ms: seq<Link>, ds: seq<Detection>, status: LandmarkStatus)
    requires forall m :: m in ms ==> m.left < |ds|
  {
    && |obs| == |ms|
    && forall k :: 0 <= k < |ms| ==> (assert ms[k] in ms;
         obs[k].measurement == Some(ds[ms[k].left].base) && obs[k].status == status)
  }

  lemma MapMatchesAreOwn(cfg: Config, st: Front, pose: Pose, now: nat, ds: seq<Detection>, used: seq<bool>)
    requires MapIsFinite(st) && |used| == |ds| && MapApplies(st, now)
    ensures var ms := MapMatches(cfg, st, pose, now, ds, used);
            MarksOwn(used, ms, Marked(used, ms)) && forall m :: m in ms ==> m.right < |st.map_state.value.landmarks|
  {
    var table := MapTable(cfg, st, pose, ds);
    MatchesAreSound(table, used, UpTo(cfg.mapGate));
    MatchesAreInTable(table, used, UpTo(cfg.mapGate), |st.map_state.value.landmarks|);
    hide MapTable, Matches, Disjoint, Marked;
  }

  /** What the first stage marks and observes when there is a map for it. */
  lemma MappedStageIs(cfg: Config, st: Front, pose: Pose, now: nat, ds: seq<Detection>, used: seq<bool>)
    requires MapIsFinite(st) && |used| == |ds| && MapApplies(st, now)
    ensures var r, ms := MappedStage(cfg, st, pose, now, ds, used), MapMatches(cfg, st, pose, now, ds, used);
            && (forall m :: m in ms ==> m.left < |ds| && m.right < |st.map_state.value.landmarks|)
            && r.used == Marked(used, ms)
            && r.observations == MapObservations(st.map_state.value.landmarks, ds, ms, |ms|)
  {
    MapMatchesAreOwn(cfg, st, pose, now, ds, used);
    hide MapMatches, Disjoint, Marked, MapObservations, Touched, IsFinite;
  }

  lemma MappedStageMarks(cfg: Config, st: Front, pose: Pose, now: nat, ds: seq<Detection>, used: seq<bool>)
    requires MapIsFinite(st) && |used| == |ds|
    ensures var r, ms := MappedStage(cfg, st, pose, now, ds, used), MapMatches(cfg, st, pose, now, ds, used);
            MarksOwn(used, ms, r.used) && ObservesInOrder(r.observations, ms, ds, InMap)
  {
    var ms := MapMatches(cfg, st, pose, now, ds, used);
    if MapApplies(st, now) {
      hide MappedStage, MapMatches, Marked, MapObservations, Disjoint, IsFinite, MapApplies;
      MapMatchesAreOwn(cfg, st, pose, now, ds, used);
      MappedStageIs(cfg, st, pose, now, ds, used);
      FrontendInvariants.MapObservationsAre(st.map_state.value.landmarks, ds, ms, |ms|);
    } else {
      assert Marked(used, []) == used;
    }
  }

  lemma GraphStageMarks(cfg: Config, st: Front, now: nat, ds: seq<Detection>, used: seq<bool>)
    requires |used| == |ds|
    ensures var r, ms := GraphStage(cfg, st, now, ds, used), CandidateMatches(cfg, st.candidates, true, ds, used);
            MarksOwn(used, ms, r.used) && ObservesInOrder(r.observations, ms, ds, InGraph)
  {
    hide CandidateMatches, Marked, Absorbed, Indices, Disjoint, GraphObservations;
    var idx, ms := Indices(st.candidates, true, |st.candidates|), CandidateMatches(cfg, st.candidates, true, ds, used);
    CandidateMatchesFit(cfg, st.candidates, true, ds, used);
    var cs := Absorbed(st.candidates, idx, ms, ds, now, |ms|);
    AbsorbKeepsIds(st.candidates, idx, ms, ds, now, |ms|);
    FrontendInvariants.GraphObservationsAre(cs, idx, ms, ds, |ms|);
  }

  lemma UnconfirmedStageMarks(cfg: Config, st: Front, pose: Pose, now: nat, ds: seq<Detection>, used: seq<bool>)
    requires |used| == |ds|
    ensures MarksOwn(used, CandidateMatches(cfg, st.candidates, false, ds, used),
                     UnconfirmedStage(cfg, st, pose, now, ds, used).used)
  {
    hide CandidateMatches, Marked, ConfirmMatched, Disjoint;
    CandidateMatchesFit(cfg, st.candidates, false, ds, used);
  }

  lemma MarkedIff(used: seq<bool>, ms: seq<Link>, after: seq<bool>, d: nat)
    requires MarksOwn(used, ms, after) && d < |used|
    ensures after[d] <==> used[d] || Takes(ms, d)
    ensures !(used[d] && Takes(ms, d))
  {
  }

  // ------------------------------------------------------------------ every detection has one place

  /** The links of the second stage. */
  function GraphMatches(cfg: Config, m: Matching3, ds: seq<Detection>): seq<Link>
    requires |m.mapped.used| == |ds|
  {
    CandidateMatches(cfg, m.mapped.front.candidates, true, ds, m.mapped.used)
  }

  /** The links of the third stage. */
  function ThirdMatches(cfg: Config, m: Matching3, ds: seq<Detection>): seq<Link>
    requires |m.graph.used| == |ds|
  {
    CandidateMatches(cfg, m.graph.front.candidates, false, ds, m.graph.used)
  }

  function One(b: bool): nat { if b then 1 else 0 }

  lemma StagesMark(cfg: Config, st: Front, pose: Pose, now: nat, ds: seq<Detection>)
    requires MapIsFinite(st)
    ensures var m, a := Stages(cfg, st, pose, now, ds), MapMatches(cfg, st, pose, now, ds, NoneUsed(|ds|));
            && |m.mapped.used| == |m.graph.used| == |ds|
            && MarksOwn(NoneUsed(|ds|), a, m.mapped.used)
            && MarksOwn(m.mapped.used, GraphMatches(cfg, m, ds), m.graph.used)
            && MarksOwn(m.graph.used, ThirdMatches(cfg, m, ds), m.unconfirmed.used)
            && ObservesInOrder(m.mapped.observations, a, ds, InMap)
            && ObservesInOrder(m.graph.observations, GraphMatches(cfg, m, ds), ds, InGraph)
  {
    hide MappedStage, GraphStage, UnconfirmedStage, MapMatches, CandidateMatches, NoneUsed, MarksOwn, ObservesInOrder;
    var m := MappedStage(cfg, st, pose, now, ds, NoneUsed(|ds|));
    var g := GraphStage(cfg, m.front, now, ds, m.used);
    MappedStageMarks(cfg, st, pose, now, ds, NoneUsed(|ds|));
    GraphStageMarks(cfg, m.front, now, ds, m.used);
    UnconfirmedStageMarks(cfg, g.front, pose, now, ds, g.used);
    OwnFits(NoneUsed(|ds|), MapMatches(cfg, st, pose, now, ds, NoneUsed(|ds|)), m.used);
    OwnFits(m.used, CandidateMatches(cfg, m.front.candidates, true, ds, m.used), g.used);
  }

  lemma OwnFits(used: seq<bool>, ms: seq<Link>, after: seq<bool>)
    requires MarksOwn(used, ms, after)
    ensures forall m :: m in ms ==> m.left < |used|
  {
  }

  /**
    Every usable detection of a frame ends in exactly one place: matched to a landmark of the map, matched to
    an in-graph candidate, matched to an unconfirmed one, or unused, which makes it a candidate of its own
    (SpawnedAreUnused). The stages that observe report each of their matches, in order.
  */
  lemma EachDetectionHasOnePlace(cfg: Config, st: Front, pose: Pose, now: nat, ds: seq<Detection>, d: nat)
    requires MapIsFinite(st) && d < |ds|
    ensures var m, a := Stages(cfg, st, pose, now, ds), MapMatches(cfg, st, pose, now, ds, NoneUsed(|ds|));
            && |m.mapped.used| == |m.graph.used| == |ds| && (forall l :: l in a ==> l.left < |ds|)
            && (forall l :: l in GraphMatches(cfg, m, ds) ==> l.left < |ds|)
            && One(Takes(a, d)) + One(Takes(GraphMatches(cfg, m, ds), d)) + One(Takes(ThirdMatches(cfg, m, ds), d))
               + One(!m.unconfirmed.used[d]) == 1
            && Disjoint(a) && Disjoint(GraphMatches(cfg, m, ds)) && Disjoint(ThirdMatches(cfg, m, ds))
            && ObservesInOrder(m.mapped.observations, a, ds, InMap)
            && ObservesInOrder(m.graph.observations, GraphMatches(cfg, m, ds), ds, InGraph)
  {
    hide Stages, MapMatches, GraphMatches, ThirdMatches, ObservesInOrder, Disjoint, Marked, Takes;
    StagesMark(cfg, st, pose, now, ds);
    var m := Stages(cfg, st, pose, now, ds);
    MarkedIff(NoneUsed(|ds|), MapMatches(cfg, st, pose, now, ds, NoneUsed(|ds|)), m.mapped.used, d);
    MarkedIff(m.mapped.used, GraphMatches(cfg, m, ds), m.graph.used, d);
    MarkedIff(m.graph.used, ThirdMatches(cfg, m, ds), m.unconfirmed.used, d);
  }

  /** The unused ones of the first n detections. */
  function UnusedIndices(used: seq<bool>, n: nat): (r: seq<nat>)
    requires n <= |used|
    ensures forall d: nat :: d in r <==> d < n && !used[d]
    ensures forall i, j :: 0 <= i < j < |r| ==> r[i] < r[j]
  {
    if n == 0 then []
    else
      var before := UnusedIndices(used, n - 1);
      assert forall i :: 0 <= i < |before| ==> before[i] in before;
      if used[n - 1] then before else before + [n - 1]
  }

  /** An unconfirmed candidate where d is in odom, with one sighting and d's confidence as evidence from this place. */
  predicate IsNewCandidate(d: Detection, car: Vec, now: nat, c: Candidate) {
    && c.id.None? && c.position == d.odom && c.count == 1 && c.sightings == [d.odom] && c.lastSeen == now
    && c.evidence == d.confidence && c.evidencePosition == car && c.vantages == [car]
  }

  /** r lists candidates of the detections u, one each, in order. */
  ghost predicate CandidatesOf(ds: seq<Detection>, car: Vec, now: nat, u: seq<nat>, r: seq<Candidate>) {
    |r| == |u| && forall k :: 0 <= k < |u| ==> u[k] < |ds| && IsNewCandidate(ds[u[k]], car, now, r[k])
  }

  lemma OneMoreCandidate(ds: seq<Detection>, car: Vec, now: nat, u: seq<nat>, r: seq<Candidate>, d: nat)
    requires CandidatesOf(ds, car, now, u, r) && d < |ds|
    ensures CandidatesOf(ds, car, now, u + [d], r + [CandidateOf(ds[d], car, now)])
  {
    assert IsNewCandidate(ds[d], car, now, CandidateOf(ds[d], car, now));
    hide CandidateOf, IsNewCandidate;
  }

  /** The candidates a frame starts are those of the unused detections, one each, in order. */
  lemma {:induction false} SpawnedAreUnused(ds: seq<Detection>, used: seq<bool>, car: Vec, now: nat, n: nat)
    requires n <= |ds| == |used|
    ensures CandidatesOf(ds, car, now, UnusedIndices(used, n), Spawned(ds, used, car, now, n))
  {
    hide CandidatesOf, CandidateOf;
    if n > 0 {
      SpawnedAreUnused(ds, used, car, now, n - 1);
      if used[n - 1] {
        assert Spawned(ds, used, car, now, n) == Spawned(ds, used, car, now, n - 1);
      } else {
        OneMoreCandidate(ds, car, now, UnusedIndices(used, n - 1), Spawned(ds, used, car, now, n - 1), n - 1);
      }
    } else {
      NoCandidates(ds, car, now);
    }
  }

  lemma NoCandidates(ds: seq<Detection>, car: Vec, now: nat)
    ensures CandidatesOf(ds, car, now, [], [])
  {
  }

  // ------------------------------------------------------------------ counting

  /** How many of the first n marks are set. */
  function Count(used: seq<bool>, n: nat): nat
    requires n <= |used|
  {
    if n == 0 then 0 else Count(used, n - 1) + One(used[n - 1])
  }

  lemma {:induction false} CountOneMore(used: seq<bool>, d: nat, n: nat)
    requires d < |used| && !used[d] && n <= |used|
    ensures Count(used[d := true], n) == Count(used, n) + One(d < n)
  {
    if n > 0 { CountOneMore(used, d, n - 1); }
  }

  lemma MarkedOneMore(used: seq<bool>, ms: seq<Link>, m: Link)
    requires m.left < |used|
    ensures Marked(used, ms + [m]) == Marked(used, ms)[m.left := true]
  {
    assert forall l :: l in ms + [m] <==> l in ms || l == m;
  }

  /** Matches of unused detections, each matched once, set one mark each. */
  lemma {:induction false} MarksCount(used: seq<bool>, ms: seq<Link>)
    requires Disjoint(ms) && forall m :: m in ms ==> m.left < |used| && !used[m.left]
    ensures Count(Marked(used, ms), |used|) == Count(used, |used|) + |ms|
    decreases |ms|
  {
    if ms == [] {
      assert Marked(used, ms) == used;
    } else {
      var init, last := ms[..|ms| - 1], ms[|ms| - 1];
      assert ms == init + [last] && last in ms;
      forall m | m in init
        ensures m in ms && !Shares(m, last)
      {
      }
      MarksCount(used, init);
      MarkedOneMore(used, init, last);
      CountOneMore(Marked(used, init), last.left, |used|);
    }
  }

  lemma {:induction false} SpawnsForUnused(ds: seq<Detection>, used: seq<bool>, car: Vec, now: nat, n: nat)
    requires n <= |ds| == |used|
    ensures |Spawned(ds, used, car, now, n)| + Count(used, n) == n
  {
    if n > 0 { SpawnsForUnused(ds, used, car, now, n - 1); }
  }

  lemma {:induction false} NoneCounted(n: nat, k: nat)
    requires k <= n
    ensures Count(NoneUsed(n), k) == 0
  {
    if k > 0 { NoneCounted(n, k - 1); }
  }

  /**
    A frame's InMap and InGraph observations, matches of unconfirmed candidates and new candidates add up to its
    usable detections.
  */
  lemma PlacesAddUp(cfg: Config, st: Front, pose: Pose, now: nat, ds: seq<Detection>)
    requires MapIsFinite(st)
    ensures var m := Stages(cfg, st, pose, now, ds);
            && |m.graph.used| == |ds|
            && |m.mapped.observations| + |m.graph.observations| + |ThirdMatches(cfg, m, ds)|
               + |Spawned(ds, m.unconfirmed.used, pose.Translation(), now, |ds|)| == |ds|
  {
    hide Stages, MapMatches, GraphMatches, ThirdMatches, Disjoint, Marked, Count, Spawned, NoneUsed;
    StagesMark(cfg, st, pose, now, ds);
    var m := Stages(cfg, st, pose, now, ds);
    NoneCounted(|ds|, |ds|);
    MarksCount(NoneUsed(|ds|), MapMatches(cfg, st, pose, now, ds, NoneUsed(|ds|)));
    MarksCount(m.mapped.used, GraphMatches(cfg, m, ds));
    MarksCount(m.graph.used, ThirdMatches(cfg, m, ds));
    SpawnsForUnused(ds, m.unconfirmed.used, pose.Translation(), now, |ds|);
  }

  // ------------------------------------------------------------------ the gate of the first stage

  /** The age of a landmark that is not seen grows with the frames. */
  lemma AgesWithFrames(st: Front, id: nat, later: nat)
    requires LastObserved(st.lastObserved, id) <= st.frameCount <= later <= U64_MAX
    ensures 1.0 <= FramesSince(st, id) <= FramesSince(st.(frameCount := later), id)
  {
  }

  /**
    In every configuration the squared distance of a detection to a landmark is not negative, and never increases
    as frames pass without the landmark being seen: once in the gate, it stays there.
  */
  lemma GateOnlyWidens(cfg: Config, st: Front, later: nat, pose: Pose, d: Detection, l: MapLandmark)
    requires st.map_state.Some? && IsFinite(st.map_state.value) && l in st.map_state.value.landmarks
    requires LastObserved(st.lastObserved, l.id) <= st.frameCount <= later <= U64_MAX
    ensures 0.0 <= MapDistance(cfg, st.(frameCount := later), pose, d, l) <= MapDistance(cfg, st, pose, d, l)
  {
    AgesWithFrames(st, l.id, later);
    var landmark := st.map_state.value.pose.value.Inverse().Apply(l.position.value);
    var m, n := FramesSince(st, l.id), FramesSince(st.(frameCount := later), l.id);
    hide FramesSince, AssociationGate.MahalanobisSquared, IsFinite;
    AssociationGate.DistanceIsNonNegative(d.odom, landmark, pose.Translation(), n, cfg.Noise());
    AssociationGate.DistanceShrinksWithAbsence(d.odom, landmark, pose.Translation(), m, n, cfg.Noise());
  }

  // ------------------------------------------------------------------ the most trusted stage comes first

  /** A detection within the gate of a target is taken, unless an earlier link took the target. */
  lemma LeftOutOnlyIfOutbid(table: seq<seq<real>>, used: seq<bool>, gate: Gate, p: Link)
    requires |table| == |used| && IsCandidate(table, used, gate, p)
    ensures var ms := Matches(table, used, gate);
            Marked(used, ms)[p.left] || exists q :: q in ms && q.right == p.right && Before(q, p)
  {
    var ps := TableLinks(table, used, |table|, gate);
    TableLinksAre(table, used, |table|, gate);
    hide IsCandidate, TableLinks;
    GreedyIsTheStableMatching(ps, UsedRows(used), Sequences.Elems(Matches(table, used, gate)));
    assert p in Sequences.Elems(ps);
  }

  /**
    A detection within the map gate of a landmark is never left to candidates, unless the landmark was
    taken by an earlier link of that stage.
  */
  lemma MapComesFirst(cfg: Config, st: Front, pose: Pose, now: nat, ds: seq<Detection>, used: seq<bool>, p: Link)
    requires MapIsFinite(st) && |used| == |ds| && MapApplies(st, now)
    requires IsCandidate(MapTable(cfg, st, pose, ds), used, UpTo(cfg.mapGate), p)
    ensures MappedStage(cfg, st, pose, now, ds, used).used[p.left]
         || exists q :: q in MapMatches(cfg, st, pose, now, ds, used) && q.right == p.right && Before(q, p)
  {
    LeftOutOnlyIfOutbid(MapTable(cfg, st, pose, ds), used, UpTo(cfg.mapGate), p);
    hide Matches, MapTable, Marked, MapObservations, Touched;
  }

  /** Nor is a detection within the gate of an in-graph candidate left to unconfirmed ones, unless that was taken. */
  lemma GraphComesBeforeUnconfirmed(cfg: Config, st: Front, now: nat, ds: seq<Detection>, used: seq<bool>, p: Link)
    requires |used| == |ds|
    requires IsCandidate(CandidateTable(st.candidates, Indices(st.candidates, true, |st.candidates|), ds), used,
                         UpTo(SquaredGate(cfg.candidateGate)), p)
    ensures GraphStage(cfg, st, now, ds, used).used[p.left]
         || exists q :: q in CandidateMatches(cfg, st.candidates, true, ds, used) && q.right == p.right && Before(q, p)
  {
    var idx := Indices(st.candidates, true, |st.candidates|);
    hide Absorbed, GraphObservations, CandidateTable;
    LeftOutOnlyIfOutbid(CandidateTable(st.candidates, idx, ds), used, UpTo(SquaredGate(cfg.candidateGate)), p);
    hide Matches, Marked;
  }
}
