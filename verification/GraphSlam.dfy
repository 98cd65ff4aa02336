/**
  GraphSlam: bookkeeping of the factor graph around the incremental solver.

  The solver is an oracle: the outcome of the solve that ends a frame is a parameter.  The graph it has
  taken over is kept as the keys and factors handed to it.  Initial guesses and noise models are left out.
*/
module GraphBackend {
  import opened Sequences
  import opened SlamTypes
  import opened Wrappers

  const SOLVE_PER_FRAME: nat := 5

  /** A variable of the graph: the pose of a frame, or a landmark. */
  datatype Key = X(frame: nat) | L(id: nat)

  datatype Factor = Prior(pose: Key) | Between(previous: Key, pose: Key) | BearingRange(pose: Key, landmark: Key) {
    function Keys(): set<Key> {
      match this
      case Prior(x) => {x}
      case Between(w, x) => {w, x}
      case BearingRange(x, l) => {x, l}
    }
  }

  /** What the solver does with a frame that is due: throw in one of its three calls, or solve. */
  datatype Solve = UpdateThrows | PoseThrows | LandmarkThrows
                 | Solved(pose: Option<Pose>, points: map<nat, Option<Vec>>)

  datatype Graph = Graph(failed: bool, poseCount: nat, nextSequence: nat,
                         pendingFactors: seq<Factor>, pendingKeys: seq<Key>, framesSinceSolve: nat,
                         landmarkIds: set<nat>, admittedTotal: nat,
                         solvedFactors: seq<Factor>, solvedKeys: seq<Key>)

  const EMPTY := Graph(false, 0, 0, [], [], 0, {}, 0, [], [])

  // ------------------------------------------------------------------ admitting observations

  /** The graph parts and counts while a frame's observations are checked one by one. */
  datatype Admission = Admission(factors: seq<Factor>, keys: seq<Key>, seen: set<nat>, added: set<nat>,
                                 admitted: nat, nonfinite: nat, duplicate: nat, unconfirmed: nat)

  /** One observation checked: counted under one of three reasons for rejecting it, or added to the graph parts. */
  function AdmitOne(known: set<nat>, pose: Key, a: Admission, o: Observation): Admission {
    if o.measurement.None? then a.(nonfinite := a.nonfinite + 1)
    else if o.id in a.seen then a.(duplicate := a.duplicate + 1)
    else
      var b := a.(seen := a.seen + {o.id});
      if o.status.New? == (o.id in known) then b.(unconfirmed := b.unconfirmed + 1)
      else
        var c := if o.status.New? then b.(keys := b.keys + [L(o.id)], added := b.added + {o.id}) else b;
        c.(factors := c.factors + [BearingRange(pose, L(o.id))], admitted := c.admitted + 1)
  }

  function Admit(known: set<nat>, pose: Key, start: Admission, obs: seq<Observation>, n: nat): Admission
    requires n <= |obs|
  {
    if n == 0 then start else AdmitOne(known, pose, Admit(known, pose, start, obs, n - 1), obs[n - 1])
  }

  /** The frame's pose key and its prior or odometry factor, before any observation. */
  function WithPose(g: Graph): Admission {
    var pose := X(g.poseCount);
    var factor := if g.poseCount == 0 then Prior(pose) else Between(X(g.poseCount - 1), pose);
    Admission(g.pendingFactors + [factor], g.pendingKeys + [pose], {}, {}, 0, 0, 0, 0)
  }

  function AdmitFrame(g: Graph, frame: ObservationFrame): Admission {
    Admit(g.landmarkIds, X(g.poseCount), WithPose(g), frame.observations, |frame.observations|)
  }

  // ------------------------------------------------------------------ which observations are admitted

  datatype Verdict = Nonfinite | Duplicate | Unconfirmed | Admitted

  /** An earlier finite observation has the id of observation k. */
  ghost predicate IsRepeated(obs: seq<Observation>, k: nat)
    requires k < |obs|
  {
    exists j :: 0 <= j < k && obs[j].measurement.Some? && obs[j].id == obs[k].id
  }

  /** A finite observation not yet made in the frame is admitted if it is new and unknown or known and not new. */
  ghost function VerdictOn(known: set<nat>, obs: seq<Observation>, k: nat): Verdict
    requires k < |obs|
  {
    if obs[k].measurement.None? then Nonfinite
    else if IsRepeated(obs, k) then Duplicate
    else if obs[k].status.New? <==> obs[k].id in known then Unconfirmed
    else Admitted
  }

  /** How many of the first n observations get verdict v. */
  ghost function Tally(known: set<nat>, obs: seq<Observation>, v: Verdict, n: nat): nat
    requires n <= |obs|
  {
    if n == 0 then 0 else Tally(known, obs, v, n - 1) + if VerdictOn(known, obs, n - 1) == v then 1 else 0
  }

  /** u lists the admitted ones of the first n observations, in order. */
  ghost predicate AreAdmitted(known: set<nat>, obs: seq<Observation>, n: nat, u: seq<nat>)
    requires n <= |obs|
  {
    Ascends(u) && forall k: nat :: k in u <==> k < n && VerdictOn(known, obs, k) == Admitted
  }

  /** Measurements, from the pose, of the landmarks that the observations u name. */
  ghost function Measuring(pose: Key, obs: seq<Observation>, u: seq<nat>): seq<Factor>
    requires forall k :: k in u ==> k < |obs|
  {
    seq(|u|, i requires 0 <= i < |u| =>
      assert u[i] in u;
      BearingRange(pose, L(obs[u[i]].id)))
  }

  lemma MeasuringNext(pose: Key, obs: seq<Observation>, u: seq<nat>, n: nat)
    requires n < |obs| && forall k :: k in u ==> k < |obs|
    ensures Measuring(pose, obs, u + [n]) == Measuring(pose, obs, u) + [BearingRange(pose, L(obs[n].id))]
  {
  }

  /** The factors are those of the start, and then one measurement for each admitted observation. */
  ghost predicate IsMeasured(known: set<nat>, pose: Key, start: Admission, obs: seq<Observation>, n: nat, u: seq<nat>,
                             a: Admission)
    requires n <= |obs|
  {
    AreAdmitted(known, obs, n, u) && a.factors == start.factors + Measuring(pose, obs, u)
  }

  /** The counts, and the landmarks added, of the first n observations. */
  ghost predicate IsTallied(known: set<nat>, obs: seq<Observation>, n: nat, a: Admission)
    requires n <= |obs|
  {
    && a.nonfinite == Tally(known, obs, Nonfinite, n) && a.duplicate == Tally(known, obs, Duplicate, n)
    && a.unconfirmed == Tally(known, obs, Unconfirmed, n) && a.admitted == Tally(known, obs, Admitted, n)
    && (forall id :: id in a.seen <==> exists j :: 0 <= j < n && obs[j].measurement.Some? && obs[j].id == id)
    && forall id :: id in a.added <==>
         exists k: nat :: k < n && obs[k].id == id && obs[k].status.New? && VerdictOn(known, obs, k) == Admitted
  }

  lemma AdmitOneIs(known: set<nat>, pose: Key, a: Admission, obs: seq<Observation>, n: nat)
    requires n < |obs| && IsTallied(known, obs, n, a)
    ensures var b := AdmitOne(known, pose, a, obs[n]);
            match VerdictOn(known, obs, n)
            case Nonfinite => b == a.(nonfinite := a.nonfinite + 1)
            case Duplicate => b == a.(duplicate := a.duplicate + 1)
            case Unconfirmed => b == a.(seen := a.seen + {obs[n].id}, unconfirmed := a.unconfirmed + 1)
            case Admitted =>
              && b.factors == a.factors + [BearingRange(pose, L(obs[n].id))]
              && b == a.(seen := a.seen + {obs[n].id}, admitted := a.admitted + 1, factors := b.factors, keys := b.keys,
                         added := if obs[n].status.New? then a.added + {obs[n].id} else a.added)
  {
    hide Tally;
    assert IsRepeated(obs, n) <==> obs[n].id in a.seen;
  }

  lemma TallyNext(known: set<nat>, obs: seq<Observation>, n: nat, a: Admission, b: Admission, pose: Key)
    requires n < |obs| && IsTallied(known, obs, n, a) && b == AdmitOne(known, pose, a, obs[n])
    ensures IsTallied(known, obs, n + 1, b)
  {
    AdmitOneIs(known, pose, a, obs, n);
    hide AdmitOne, IsRepeated;
  }

  lemma AdmittedNext(known: set<nat>, obs: seq<Observation>, n: nat, u: seq<nat>)
    requires n < |obs| && AreAdmitted(known, obs, n, u)
    ensures AreAdmitted(known, obs, n + 1, if VerdictOn(known, obs, n) == Admitted then u + [n] else u)
    ensures forall k :: k in u ==> k < |obs|
  {
    AscendsNext(u, n);
    hide VerdictOn, Ascends;
  }

  lemma AddLast(a: seq<Factor>, b: seq<Factor>, f: Factor)
    ensures a + b + [f] == a + (b + [f])
  {
  }

  lemma MeasuredNext(known: set<nat>, pose: Key, start: Admission, obs: seq<Observation>, n: nat, u: seq<nat>,
                     a: Admission)
    returns (more: seq<nat>)
    requires n < |obs| && IsTallied(known, obs, n, a) && IsMeasured(known, pose, start, obs, n, u, a)
    ensures IsMeasured(known, pose, start, obs, n + 1, more, AdmitOne(known, pose, a, obs[n]))
  {
    AdmitOneIs(known, pose, a, obs, n);
    AdmittedNext(known, obs, n, u);
    hide AdmitOne, VerdictOn, IsTallied, AreAdmitted, Measuring;
    more := if VerdictOn(known, obs, n) == Admitted then u + [n] else u;
    MeasuringNext(pose, obs, u, n);
    AddLast(start.factors, Measuring(pose, obs, u), BearingRange(pose, L(obs[n].id)));
  }

  /**
    Each observation of a frame is counted under its own verdict; the admitted ones, and no others, become
    measurements from the frame's pose, in order.
  */
  lemma {:induction false} AdmissionIs(known: set<nat>, pose: Key, start: Admission, obs: seq<Observation>, n: nat)
    returns (u: seq<nat>)
    requires n <= |obs| && start.seen == {} && start.added == {} && start.admitted == 0
    requires start.nonfinite == 0 && start.duplicate == 0 && start.unconfirmed == 0
    ensures var a := Admit(known, pose, start, obs, n);
            IsTallied(known, obs, n, a) && IsMeasured(known, pose, start, obs, n, u, a)
  {
    hide AdmitOne, IsTallied, IsMeasured;
    if n > 0 {
      var before := AdmissionIs(known, pose, start, obs, n - 1);
      var a := Admit(known, pose, start, obs, n - 1);
      TallyNext(known, obs, n - 1, a, AdmitOne(known, pose, a, obs[n - 1]), pose);
      u := MeasuredNext(known, pose, start, obs, n - 1, before, a);
    } else {
      u := [];
      NothingChecked(known, pose, start, obs);
    }
  }

  lemma NothingChecked(known: set<nat>, pose: Key, start: Admission, obs: seq<Observation>)
    requires start.seen == {} && start.added == {} && start.admitted == 0
    requires start.nonfinite == 0 && start.duplicate == 0 && start.unconfirmed == 0
    ensures IsTallied(known, obs, 0, start) && IsMeasured(known, pose, start, obs, 0, [], start)
  {
  }

  // ------------------------------------------------------------------ update

  predicate IsLeast(m: nat, s: set<nat>) { m in s && forall x :: x in s ==> m <= x }

  function Least(s: set<nat>): (m: nat)
    requires s != {}
    ensures IsLeast(m, s)
  {
    assert exists m :: IsLeast(m, s) by {
      var x :| x in s;
      var m := LeastExists(s, x);
      assert IsLeast(m, s);
    }
    var m :| IsLeast(m, s);
    m
  }

  /** The elements in increasing order, as std::set iterates. */
  function Ascending(s: set<nat>): (r: seq<nat>)
    ensures forall x :: x in r <==> x in s
    ensures forall i, j :: 0 <= i < j < |r| ==> r[i] < r[j]
  {
    if s == {} then []
    else
      var m := Least(s);
      var rest := Ascending(s - {m});
      assert forall i :: 0 <= i < |rest| ==> rest[i] in rest && m < rest[i];
      [m] + rest
  }

  /** The optimised position of every landmark. */
  function LandmarksOf(known: set<nat>, points: map<nat, Option<Vec>>): (r: seq<MapLandmark>)
    ensures |r| == |Ascending(known)|
  {
    var ids := Ascending(known);
    seq(|ids|, i requires 0 <= i < |ids| => MapLandmark(ids[i], if ids[i] in points then points[ids[i]] else None))
  }

  /** One landmark for each known id, in increasing order, each at the estimate of its own id. */
  ghost predicate AreEstimates(known: set<nat>, points: map<nat, Option<Vec>>, ls: seq<MapLandmark>) {
    && (forall i, j :: 0 <= i < j < |ls| ==> ls[i].id < ls[j].id)
    && (forall id :: id in known <==> exists i :: 0 <= i < |ls| && ls[i].id == id)
    && forall i :: 0 <= i < |ls| ==> ls[i].position == if ls[i].id in points then points[ls[i].id] else None
  }

  lemma LandmarksAreEstimates(known: set<nat>, points: map<nat, Option<Vec>>)
    ensures AreEstimates(known, points, LandmarksOf(known, points))
  {
    var ids, ls := Ascending(known), LandmarksOf(known, points);
    assert forall i :: 0 <= i < |ids| ==> ls[i].id == ids[i] && ids[i] in ids;
    forall id | id in known
      ensures exists i :: 0 <= i < |ls| && ls[i].id == id
    {
      var i :| 0 <= i < |ids| && ids[i] == id;
      assert ls[i].id == id;
    }
  }

  function MapOf(g: Graph, frame: ObservationFrame, solve: Solve): MapState
    requires solve.Solved?
  {
    MapState(g.nextSequence, frame.timestamp, solve.pose, LandmarksOf(g.landmarkIds, solve.points))
  }

  datatype Updated = Updated(graph: Graph, map_state: Option<MapState>, counts: Admission)

  const NO_COUNTS := Admission([], [], {}, {}, 0, 0, 0, 0)

  /** The graph with the frame added and not yet solved. */
  function Extended(g: Graph, a: Admission): Graph {
    g.(pendingFactors := a.factors, pendingKeys := a.keys, landmarkIds := g.landmarkIds + a.added,
       poseCount := g.poseCount + 1, admittedTotal := g.admittedTotal + a.admitted,
       framesSinceSolve := g.framesSinceSolve + 1)
  }

  /** The graph once the solver has taken the pending part. */
  function Flushed(g: Graph): Graph {
    g.(solvedFactors := g.solvedFactors + g.pendingFactors, solvedKeys := g.solvedKeys + g.pendingKeys,
       pendingFactors := [], pendingKeys := [])
  }

  /** The end of a frame that is due: the solver runs on the pending part. */
  function SolveOf(due: Graph, frame: ObservationFrame, solve: Solve): (Graph, Option<MapState>) {
    match solve
    case UpdateThrows => (due.(failed := true), None)
    case PoseThrows => (Flushed(due).(failed := true), None)
    case LandmarkThrows => (Flushed(due).(failed := true, nextSequence := due.nextSequence + 1), None)
    case Solved(_, _) =>
      (Flushed(due).(nextSequence := due.nextSequence + 1), Some(MapOf(Flushed(due), frame, solve)))
  }

  function UpdateOf(g: Graph, frame: ObservationFrame, solve: Solve): Updated {
    if g.failed then Updated(g, None, NO_COUNTS)
    else
      var a := AdmitFrame(g, frame);
      var h := Extended(g, a);
      if h.framesSinceSolve < SOLVE_PER_FRAME then Updated(h, None, a)
      else
        var (after, map_state) := SolveOf(h.(framesSinceSolve := 0), frame, solve);
        Updated(after, map_state, a)
  }

  // ------------------------------------------------------------------ the invariant of the graph

  ghost function AllKeys(g: Graph): seq<Key> { g.solvedKeys + g.pendingKeys }

  ghost predicate Closed(fs: seq<Factor>, keys: seq<Key>) { forall f, k :: f in fs && k in f.Keys() ==> k in keys }

  /** How many of the factors are priors, odometry and measurements. */
  function Priors(fs: seq<Factor>): nat {
    if fs == [] then 0 else Priors(fs[..|fs| - 1]) + (if fs[|fs| - 1].Prior? then 1 else 0)
  }
  function Betweens(fs: seq<Factor>): nat {
    if fs == [] then 0 else Betweens(fs[..|fs| - 1]) + (if fs[|fs| - 1].Between? then 1 else 0)
  }
  function Measurements(fs: seq<Factor>): nat {
    if fs == [] then 0 else Measurements(fs[..|fs| - 1]) + (if fs[|fs| - 1].BearingRange? then 1 else 0)
  }

  lemma {:induction false} CountsAppend(fs: seq<Factor>, gs: seq<Factor>)
    ensures Priors(fs + gs) == Priors(fs) + Priors(gs)
    ensures Betweens(fs + gs) == Betweens(fs) + Betweens(gs)
    ensures Measurements(fs + gs) == Measurements(fs) + Measurements(gs)
  {
    if gs == [] {
      assert fs + gs == fs;
    } else {
      CountsAppend(fs, gs[..|gs| - 1]);
      assert (fs + gs)[..|fs + gs| - 1] == fs + gs[..|gs| - 1];
    }
  }

  /** A prior on the first of n poses, odometry from each to the next, and measurements of landmarks from poses. */
  ghost predicate IsChain(fs: seq<Factor>, n: nat) {
    && (forall f :: f in fs ==> Links(f))
    && (n > 0 ==> Prior(X(0)) in fs)
    && forall i: nat :: 0 < i < n ==> Between(X(i - 1), X(i)) in fs
  }

  predicate Links(f: Factor) {
    match f
    case Prior(x) => x == X(0)
    case Between(w, x) => w.X? && x == X(w.frame + 1)
    case BearingRange(x, l) => x.X? && l.L?
  }

  /**
    Every key inserted once, every factor over inserted keys, the poses in a chain, and the exact number of
    factors of each kind, so that no link of the chain is there twice.
  */
  ghost predicate IsClosedGraph(g: Graph) {
    && NoRepeats(AllKeys(g))
    && (forall k :: k in AllKeys(g) <==> (if k.X? then k.frame < g.poseCount else k.id in g.landmarkIds))
    && Closed(g.solvedFactors, g.solvedKeys)
    && Closed(g.pendingFactors, AllKeys(g))
    && IsChain(g.solvedFactors + g.pendingFactors, g.poseCount)
    && Priors(g.solvedFactors + g.pendingFactors) == (if g.poseCount == 0 then 0 else 1)
    && Betweens(g.solvedFactors + g.pendingFactors) == (if g.poseCount == 0 then 0 else g.poseCount - 1)
    && Measurements(g.solvedFactors + g.pendingFactors) == g.admittedTotal
  }

  ghost predicate WellFormed(g: Graph) { IsClosedGraph(g) && (!g.failed ==> IsScheduled(g)) }

  /** Poses wait in groups of less than SOLVE_PER_FRAME; every full group has been solved into one map. */
  ghost predicate IsScheduled(g: Graph) {
    && g.framesSinceSolve == g.poseCount % SOLVE_PER_FRAME
    && g.nextSequence == g.poseCount / SOLVE_PER_FRAME
    && forall i: nat :: X(i) in g.pendingKeys <==> g.poseCount - g.framesSinceSolve <= i < g.poseCount
  }

  // ------------------------------------------------------------------ every update keeps it

  /** What checking observations has added to the start: measurement factors, and keys of unknown landmarks. */
  ghost predicate Grown(known: set<nat>, pose: Key, start: Admission, a: Admission) {
    && start.keys <= a.keys && start.factors <= a.factors
    && a.added <= a.seen && a.added !! known
    && NoRepeats(a.keys[|start.keys|..])
    && (forall k :: k in a.keys[|start.keys|..] <==> (k.L? && k.id in a.added))
    && |a.factors| == |start.factors| + a.admitted
    && forall f :: f in a.factors[|start.factors|..] ==>
         f.BearingRange? && f.pose == pose && f.landmark.L? && f.landmark.id in known + a.added
  }

  lemma AdmitOneGrows(known: set<nat>, pose: Key, start: Admission, a: Admission, o: Observation)
    requires Grown(known, pose, start, a)
    ensures Grown(known, pose, start, AdmitOne(known, pose, a, o))
  {
    var b := AdmitOne(known, pose, a, o);
    var ks, fs := |start.keys|, |start.factors|;
    if b.admitted > a.admitted {
      assert b.factors[fs..] == a.factors[fs..] + [BearingRange(pose, L(o.id))];
      if o.status.New? {
        assert b.keys[ks..] == a.keys[ks..] + [L(o.id)];
        assert L(o.id) !in a.keys[ks..];
      }
    }
  }

  lemma {:induction false} AdmitGrows(known: set<nat>, pose: Key, start: Admission, obs: seq<Observation>, n: nat)
    requires n <= |obs| && start.seen == {} && start.added == {} && start.admitted == 0
    ensures Grown(known, pose, start, Admit(known, pose, start, obs, n))
  {
    if n == 0 {
      assert start.keys[|start.keys|..] == [] && start.factors[|start.factors|..] == [];
    } else {
      AdmitGrows(known, pose, start, obs, n - 1);
      AdmitOneGrows(known, pose, start, Admit(known, pose, start, obs, n - 1), obs[n - 1]);
    }
  }

  lemma OnlyMeasurements(fs: seq<Factor>)
    requires forall f :: f in fs ==> f.BearingRange?
    ensures Priors(fs) == 0 && Betweens(fs) == 0 && Measurements(fs) == |fs|
  {
    if fs != [] {
      assert fs[|fs| - 1] in fs;
      OnlyMeasurements(fs[..|fs| - 1]);
    }
  }

  /** Adding a frame inserts its pose key and its new landmarks' keys, each for the first time. */
  lemma ExtendKeepsKeys(g: Graph, frame: ObservationFrame)
    requires WellFormed(g)
    ensures var h := Extended(g, AdmitFrame(g, frame));
            && NoRepeats(AllKeys(h))
            && (forall k :: k in AllKeys(h) <==> (if k.X? then k.frame < h.poseCount else k.id in h.landmarkIds))
            && (forall i: nat :: X(i) in h.pendingKeys <==> X(i) in g.pendingKeys || i == g.poseCount)
  {
    hide IsChain, Closed, IsScheduled;
    var start, a := WithPose(g), AdmitFrame(g, frame);
    AdmitGrows(g.landmarkIds, X(g.poseCount), start, frame.observations, |frame.observations|);
    var tail := a.keys[|start.keys|..];
    assert a.keys == g.pendingKeys + ([X(g.poseCount)] + tail);
    assert AllKeys(Extended(g, a)) == AllKeys(g) + ([X(g.poseCount)] + tail);
    NoRepeatsConcat([X(g.poseCount)], tail);
    NoRepeatsConcat(AllKeys(g), [X(g.poseCount)] + tail);
  }

  /** The factors of a frame: its pose factor, then one measurement for every admitted observation. */
  lemma FrameFactors(g: Graph, frame: ObservationFrame) returns (poseFactor: Factor, tail: seq<Factor>)
    ensures var a := AdmitFrame(g, frame);
            && a.factors == g.pendingFactors + ([poseFactor] + tail)
            && poseFactor == (if g.poseCount == 0 then Prior(X(0)) else Between(X(g.poseCount - 1), X(g.poseCount)))
            && |tail| == a.admitted
            && forall f :: f in tail ==> f.BearingRange? && f.pose == X(g.poseCount)
                                         && f.landmark.L? && f.landmark.id in g.landmarkIds + a.added
  {
    var start, a := WithPose(g), AdmitFrame(g, frame);
    AdmitGrows(g.landmarkIds, X(g.poseCount), start, frame.observations, |frame.observations|);
    poseFactor, tail := start.factors[|g.pendingFactors|], a.factors[|start.factors|..];
    assert a.factors == start.factors + tail;
  }

  lemma ExtendKeepsClosed(g: Graph, frame: ObservationFrame)
    requires WellFormed(g)
    ensures var h := Extended(g, AdmitFrame(g, frame)); Closed(h.pendingFactors, AllKeys(h))
  {
    var h := Extended(g, AdmitFrame(g, frame));
    ExtendKeepsKeys(g, frame);
    var poseFactor, tail := FrameFactors(g, frame);
    hide AdmitFrame;
    forall f, k | f in h.pendingFactors && k in f.Keys()
      ensures k in AllKeys(h)
    {
      if f in g.pendingFactors { assert k in AllKeys(g); } else if f != poseFactor { assert f in tail; }
    }
  }

  lemma ExtendKeepsChain(g: Graph, frame: ObservationFrame)
    requires WellFormed(g)
    ensures var h := Extended(g, AdmitFrame(g, frame)); IsChain(h.solvedFactors + h.pendingFactors, h.poseCount)
  {
    var h := Extended(g, AdmitFrame(g, frame));
    var poseFactor, tail := FrameFactors(g, frame);
    hide AdmitFrame, Closed, NoRepeats;
    var before := g.solvedFactors + g.pendingFactors;
    assert h.solvedFactors + h.pendingFactors == before + ([poseFactor] + tail);
    ChainGrows(before, g.poseCount, poseFactor, tail);
  }

  lemma ChainGrows(fs: seq<Factor>, n: nat, poseFactor: Factor, tail: seq<Factor>)
    requires IsChain(fs, n) && poseFactor == if n == 0 then Prior(X(0)) else Between(X(n - 1), X(n))
    requires forall f :: f in tail ==> f.BearingRange? && f.pose.X? && f.landmark.L?
    ensures IsChain(fs + ([poseFactor] + tail), n + 1)
  {
    var all := fs + ([poseFactor] + tail);
    assert forall f :: f in all <==> f in fs || f == poseFactor || f in tail;
  }

  lemma ExtendCounts(g: Graph, frame: ObservationFrame)
    requires WellFormed(g)
    ensures var h := Extended(g, AdmitFrame(g, frame));
            && Priors(h.solvedFactors + h.pendingFactors) == 1
            && Betweens(h.solvedFactors + h.pendingFactors) == h.poseCount - 1
            && Measurements(h.solvedFactors + h.pendingFactors) == h.admittedTotal
  {
    var h := Extended(g, AdmitFrame(g, frame));
    var poseFactor, tail := FrameFactors(g, frame);
    assert Priors(g.solvedFactors + g.pendingFactors) + Betweens(g.solvedFactors + g.pendingFactors) == g.poseCount;
    hide AdmitFrame, Closed, NoRepeats, Priors, Betweens, Measurements;
    assert h.solvedFactors + h.pendingFactors == (g.solvedFactors + g.pendingFactors) + ([poseFactor] + tail);
    CountsAppend(g.solvedFactors + g.pendingFactors, [poseFactor] + tail);
    CountsAppend([poseFactor], tail);
    CountOfOne(poseFactor);
    OnlyMeasurements(tail);
  }

  lemma CountOfOne(f: Factor)
    ensures Priors([f]) == (if f.Prior? then 1 else 0)
    ensures Betweens([f]) == (if f.Between? then 1 else 0)
    ensures Measurements([f]) == (if f.BearingRange? then 1 else 0)
  {
    assert [f][..0] == [];
  }

  lemma FlushKeepsGraph(g: Graph)
    requires NoRepeats(AllKeys(g)) && Closed(g.solvedFactors, g.solvedKeys) && Closed(g.pendingFactors, AllKeys(g))
    ensures var h := Flushed(g);
            && AllKeys(h) == AllKeys(g) && h.solvedFactors + h.pendingFactors == g.solvedFactors + g.pendingFactors
            && Closed(h.solvedFactors, h.solvedKeys) && Closed(h.pendingFactors, AllKeys(h))
  {
    var h := Flushed(g);
    assert AllKeys(h) == AllKeys(g);
    assert h.solvedFactors + h.pendingFactors == g.solvedFactors + g.pendingFactors;
  }

  lemma ExtendKeepsClosedGraph(g: Graph, frame: ObservationFrame)
    requires WellFormed(g)
    ensures IsClosedGraph(Extended(g, AdmitFrame(g, frame)))
  {
    ExtendKeepsKeys(g, frame);
    ExtendKeepsClosed(g, frame);
    ExtendKeepsChain(g, frame);
    ExtendCounts(g, frame);
    hide AdmitFrame, Closed, IsChain;
  }

  lemma FlushKeepsClosedGraph(g: Graph)
    requires IsClosedGraph(g)
    ensures IsClosedGraph(Flushed(g))
  {
    FlushKeepsGraph(g);
    hide Closed;
  }

  lemma SolveKeepsClosedGraph(g: Graph, frame: ObservationFrame, solve: Solve)
    requires IsClosedGraph(g)
    ensures IsClosedGraph(SolveOf(g, frame, solve).0)
  {
    FlushKeepsClosedGraph(g);
    hide Closed, LandmarksOf;
  }

  /** The schedule of a frame that is not yet due. */
  lemma ExtendKeepsSchedule(g: Graph, frame: ObservationFrame)
    requires WellFormed(g) && !g.failed
    ensures var h := Extended(g, AdmitFrame(g, frame));
            if h.framesSinceSolve < SOLVE_PER_FRAME then IsScheduled(h)
            else h.poseCount % SOLVE_PER_FRAME == 0 && h.nextSequence + 1 == h.poseCount / SOLVE_PER_FRAME
  {
    ExtendKeepsKeys(g, frame);
    hide AdmitFrame, Closed, NoRepeats, Priors, Betweens, Measurements;
  }

  lemma SolveKeepsSchedule(g: Graph, frame: ObservationFrame, solve: Solve)
    requires g.framesSinceSolve == 0
    requires g.poseCount % SOLVE_PER_FRAME == 0 && g.nextSequence + 1 == g.poseCount / SOLVE_PER_FRAME
    ensures var h := SolveOf(g, frame, solve).0; h.failed || IsScheduled(h)
  {
    hide LandmarksOf;
  }

  /**
    Every update keeps the graph well-formed, whatever the observations and the solver's outcome; a failure is
    absorbing.
  */
  lemma UpdateKeepsWellFormed(g: Graph, frame: ObservationFrame, solve: Solve)
    requires WellFormed(g)
    ensures WellFormed(UpdateOf(g, frame, solve).graph)
    ensures g.failed ==> UpdateOf(g, frame, solve).graph == g && UpdateOf(g, frame, solve).map_state.None?
  {
    hide AdmitFrame, SolveOf, IsScheduled, Closed, NoRepeats, Priors, Betweens, Measurements;
    if !g.failed {
      var h := Extended(g, AdmitFrame(g, frame));
      ExtendKeepsClosedGraph(g, frame);
      ExtendKeepsSchedule(g, frame);
      var due := h.(framesSinceSolve := 0);
      assert IsClosedGraph(due);
      SolveKeepsClosedGraph(due, frame, solve);
      if h.framesSinceSolve >= SOLVE_PER_FRAME { SolveKeepsSchedule(due, frame, solve); }
    }
  }

  /**
    What an update does to a graph that has not failed. The frame's parts join the others; on every fifth frame
    the solver runs, and takes over all that is pending unless its first call throws; a map comes out exactly when
    it solves, and any throw is a failure.
  */
  lemma UpdateIs(g: Graph, frame: ObservationFrame, solve: Solve)
    requires WellFormed(g) && !g.failed
    ensures var u, a, isDue := UpdateOf(g, frame, solve), AdmitFrame(g, frame), (g.poseCount + 1) % 5 == 0;
            var h := u.graph;
            && h.poseCount == g.poseCount + 1 && h.admittedTotal == g.admittedTotal + a.admitted
            && h.landmarkIds == g.landmarkIds + a.added
            && h.solvedFactors + h.pendingFactors == g.solvedFactors + a.factors
            && h.solvedKeys + h.pendingKeys == g.solvedKeys + a.keys
            && (if isDue && !solve.UpdateThrows? then h.pendingFactors == [] && h.pendingKeys == []
                else h.solvedFactors == g.solvedFactors && h.solvedKeys == g.solvedKeys)
            && (h.failed <==> isDue && !solve.Solved?)
            && (u.map_state.Some? <==> isDue && solve.Solved?)
  {
    hide AdmitFrame, IsClosedGraph, LandmarksOf;
  }

  lemma CountsAreAdmission(g: Graph, frame: ObservationFrame, solve: Solve)
    requires !g.failed
    ensures UpdateOf(g, frame, solve).counts == AdmitFrame(g, frame)
  {
    hide AdmitFrame, SolveOf;
  }

  /** The map a solve emits. */
  lemma SolvedMapIs(g: Graph, frame: ObservationFrame, solve: Solve)
    requires UpdateOf(g, frame, solve).map_state.Some?
    ensures solve.Solved?
            && UpdateOf(g, frame, solve).map_state.value
            == MapState(g.nextSequence, frame.timestamp, solve.pose,
                        LandmarksOf(g.landmarkIds + AdmitFrame(g, frame).added, solve.points))
  {
    hide AdmitFrame, LandmarksOf;
  }

  /** After a flush the solver has every landmark, so estimating them cannot throw. */
  lemma FlushedKnowsLandmarks(g: Graph, frame: ObservationFrame)
    requires WellFormed(g)
    ensures var h := Flushed(Extended(g, AdmitFrame(g, frame)));
            forall id :: id in h.landmarkIds ==> L(id) in h.solvedKeys
  {
    var h := Extended(g, AdmitFrame(g, frame));
    ExtendKeepsKeys(g, frame);
    forall id | id in h.landmarkIds
      ensures L(id) in Flushed(h).solvedKeys
    {
      assert L(id) in AllKeys(h);
    }
  }

  // ------------------------------------------------------------------ the stateful backend

  class GraphSlam {
    var failed: bool
    var poseCount: nat
    var nextSequence: nat
    var pendingFactors: seq<Factor>
    var pendingKeys: seq<Key>
    var framesSinceSolve: nat
    var landmarkIds: set<nat>
    var admittedTotal: nat
    // what the solver has taken over
    var solvedFactors: seq<Factor>
    var solvedKeys: seq<Key>

    constructor ()
      ensures State() == EMPTY && Valid()
    {
      failed, poseCount, nextSequence, pendingFactors, pendingKeys := false, 0, 0, [], [];
      framesSinceSolve, landmarkIds, admittedTotal, solvedFactors, solvedKeys := 0, {}, 0, [], [];
    }

    function State(): Graph
      reads this
    {
      Graph(failed, poseCount, nextSequence, pendingFactors, pendingKeys, framesSinceSolve, landmarkIds,
            admittedTotal, solvedFactors, solvedKeys)
    }

    ghost predicate Valid()
      reads this
    {
      WellFormed(State())
    }

    /** Values::insert, which throws when the key is already pending. */
    method InsertKey(key: Key)
      requires key !in pendingKeys
      modifies `pendingKeys
      ensures pendingKeys == old(pendingKeys) + [key]
    {
      pendingKeys := pendingKeys + [key];
    }

    method Update(frame: ObservationFrame, solve: Solve) returns (map_state: Option<MapState>, ghost counts: Admission)
      requires Valid()
      modifies this
      ensures Valid()
      ensures Updated(State(), map_state, counts) == UpdateOf(old(State()), frame, solve)
    {
      ghost var g := State();
      if failed {
        return None, NO_COUNTS;
      }
      UpdateKeepsWellFormed(g, frame, solve);
      hide WellFormed, AdmitFrame;
      counts := AddFrame(frame);
      framesSinceSolve := framesSinceSolve + 1;
      assert State() == Extended(g, counts);
      if framesSinceSolve < SOLVE_PER_FRAME {
        return None, counts;
      }
      FlushedKnowsLandmarks(g, frame);
      hide SolveOf;
      framesSinceSolve := 0;
      map_state := RunSolver(frame, solve);
    }

    method RunSolver(frame: ObservationFrame, solve: Solve) returns (map_state: Option<MapState>)
      requires forall id :: id in landmarkIds ==> L(id) in solvedKeys + pendingKeys
      modifies this
      ensures (State(), map_state) == SolveOf(old(State()), frame, solve)
    {
      hide AreEstimates, LandmarksOf;
      if solve.UpdateThrows? {
        failed := true;
        return None;
      }
      solvedFactors, solvedKeys := solvedFactors + pendingFactors, solvedKeys + pendingKeys;
      pendingFactors, pendingKeys := [], [];
      if solve.PoseThrows? {
        failed := true;
        return None;
      }
      var sequence := nextSequence;
      nextSequence := nextSequence + 1;
      if solve.LandmarkThrows? {
        failed := true;
        return None;
      }
      var landmarks := EstimateLandmarks(solve.points);
      map_state := Some(MapState(sequence, frame.timestamp, solve.pose, landmarks));
    }

    /** calculateEstimate of every landmark, which throws for a key the solver does not have. */
    method EstimateLandmarks(points: map<nat, Option<Vec>>) returns (landmarks: seq<MapLandmark>)
      requires forall id :: id in landmarkIds ==> L(id) in solvedKeys
      ensures landmarks == LandmarksOf(landmarkIds, points) && AreEstimates(landmarkIds, points, landmarks)
    {
      LandmarksAreEstimates(landmarkIds, points);
      hide AreEstimates;
      var ids := Ascending(landmarkIds);
      landmarks := [];
      for i := 0 to |ids|
        invariant landmarks == LandmarksOf(landmarkIds, points)[..i]
      {
        assert ids[i] in landmarkIds;
        landmarks := landmarks + [MapLandmark(ids[i], Estimate(ids[i], points))];
      }
    }

    function Estimate(id: nat, points: map<nat, Option<Vec>>): Option<Vec>
      requires L(id) in solvedKeys
      reads this
    {
      if id in points then points[id] else None
    }

    /** Adds the frame's pose and its admissible observations to the pending part of the graph. */
    method AddFrame(frame: ObservationFrame) returns (ghost counts: Admission)
      requires Valid() && !failed
      modifies `pendingFactors, `pendingKeys, `landmarkIds, `poseCount, `admittedTotal
      ensures counts == AdmitFrame(old(State()), frame)
      ensures State() == Extended(old(State()), counts).(framesSinceSolve := framesSinceSolve)
    {
      hide WellFormed, Admit, AdmitOne;
      ghost var g := State();
      var poseKey := X(poseCount);
      PoseKeyIsFresh(g);
      var poseFactor := if poseCount == 0 then Prior(poseKey) else Between(X(poseCount - 1), poseKey);
      pendingFactors := pendingFactors + [poseFactor];
      InsertKey(poseKey);

      var seen, added: set<nat> := {}, {};
      var admitted, nonfinite, duplicate, unconfirmed := 0, 0, 0, 0;
      NothingAdmitted(g.landmarkIds, poseKey, WithPose(g), frame.observations);
      for i := 0 to |frame.observations|
        invariant Admission(pendingFactors, pendingKeys, seen, added, admitted, nonfinite, duplicate, unconfirmed)
               == Admit(landmarkIds, poseKey, WithPose(g), frame.observations, i)
        invariant landmarkIds == g.landmarkIds && poseCount == g.poseCount && admittedTotal == g.admittedTotal
      {
        var o := frame.observations[i];
        ghost var a := Admit(landmarkIds, poseKey, WithPose(g), frame.observations, i);
        AdmitNext(landmarkIds, poseKey, WithPose(g), frame.observations, i);
        if o.measurement.None? {
          nonfinite := nonfinite + 1;
          continue;
        }
        if o.id in seen {
          duplicate := duplicate + 1;
          continue;
        }
        NewKeyIsFresh(g, poseKey, frame.observations, i, o.id);
        seen := seen + {o.id};
        var isNew, known := o.status.New?, o.id in landmarkIds;
        if isNew == known {
          unconfirmed := unconfirmed + 1;
          continue;
        }
        if isNew {
          InsertKey(L(o.id));
          added := added + {o.id};
        }
        pendingFactors := pendingFactors + [BearingRange(poseKey, L(o.id))];
        admitted := admitted + 1;
      }
      counts := Admission(pendingFactors, pendingKeys, seen, added, admitted, nonfinite, duplicate, unconfirmed);
      landmarkIds := landmarkIds + added;
      poseCount := poseCount + 1;
      admittedTotal := admittedTotal + admitted;
    }
  }

  lemma PoseKeyIsFresh(g: Graph)
    requires WellFormed(g)
    ensures X(g.poseCount) !in g.pendingKeys
  {
    assert X(g.poseCount) !in AllKeys(g);
  }

  lemma NothingAdmitted(known: set<nat>, pose: Key, start: Admission, obs: seq<Observation>)
    ensures Admit(known, pose, start, obs, 0) == start
  {
  }

  /** One more observation: rejected for one of three reasons, or admitted. */
  lemma AdmitNext(known: set<nat>, pose: Key, start: Admission, obs: seq<Observation>, n: nat)
    requires n < |obs|
    ensures var a, o, b := Admit(known, pose, start, obs, n), obs[n], Admit(known, pose, start, obs, n + 1);
            && (o.measurement.None? ==> b == a.(nonfinite := a.nonfinite + 1))
            && (o.measurement.Some? && o.id in a.seen ==> b == a.(duplicate := a.duplicate + 1))
            && (o.measurement.Some? && o.id !in a.seen && o.status.New? == (o.id in known) ==>
                  b == a.(seen := a.seen + {o.id}, unconfirmed := a.unconfirmed + 1))
            && (o.measurement.Some? && o.id !in a.seen && o.status.New? != (o.id in known) ==>
                  b == a.(seen := a.seen + {o.id}, admitted := a.admitted + 1,
                          keys := if o.status.New? then a.keys + [L(o.id)] else a.keys,
                          added := if o.status.New? then a.added + {o.id} else a.added,
                          factors := a.factors + [BearingRange(pose, L(o.id))]))
  {
  }

  /**
    A landmark id not yet seen in the frame and unknown to the graph has no pending key, so its insertion cannot
    throw.
  */
  lemma NewKeyIsFresh(g: Graph, pose: Key, obs: seq<Observation>, n: nat, id: nat)
    requires WellFormed(g) && pose == X(g.poseCount) && n <= |obs|
    requires id !in Admit(g.landmarkIds, pose, WithPose(g), obs, n).seen
    ensures id !in g.landmarkIds ==> L(id) !in Admit(g.landmarkIds, pose, WithPose(g), obs, n).keys + g.solvedKeys
  {
    var start, a := WithPose(g), Admit(g.landmarkIds, pose, WithPose(g), obs, n);
    AdmitGrows(g.landmarkIds, pose, start, obs, n);
    assert a.keys == start.keys + a.keys[|start.keys|..];
    if id !in g.landmarkIds { assert L(id) !in AllKeys(g); }
  }
}
