/**
  When a landmark is confirmed, over every run from the start.

  Main results: every new landmark is a candidate seen again either from at least the baseline away from its
  last evidence or after one detection that was already enough, with as many vantages as its threshold demands
  (NewIsEarned), and
  StandingCarConfirmsNothingIff: exactly which configurations keep a car that stands still from confirming
  anything.
*/
module Confirmation {
  import Arithmetic
  import AssociationGate
  import opened AssociationProtocol
  import Evidence = CandidateEvidence
  import opened Frontend
  import opened FrontendInvariants
  import opened GraphBackend
  import opened Matching
  import opened SlamTypes
  import opened Wrappers

  // ------------------------------------------------------------------ what a new landmark needs

  /** The usable detections of a frame. */
  function Detections(cfg: Config, frame: ConeFrame): seq<Detection>
    requires frame.pose.Some?
  {
    Usable(cfg, frame.pose.value, frame.detections, |frame.detections|)
  }

  /** What the third matching stage of a frame makes of the state it gets. */
  function ThirdStage(cfg: Config, st: Front, frame: ConeFrame): Matched
    requires MapIsFinite(st) && frame.pose.Some?
  {
    Stages(cfg, Entered(st, frame), frame.pose.value, frame.timestamp, Detections(cfg, frame)).unconfirmed
  }

  /** The candidates after the matching stages of a frame, in the places they had before it. */
  function Staged(cfg: Config, st: Front, frame: ConeFrame): seq<Candidate>
    requires MapIsFinite(st) && frame.pose.Some?
  {
    ThirdStage(cfg, st, frame).front.candidates
  }

  /** A detection of this confidence may confirm c: with a threshold above 1 only from a new vantage point. */
  predicate Earns(cfg: Config, c: Candidate, confidence: real, car: Vec) {
    if cfg.minEvidence > 1.0 then Evidence.FromNewVantage(cfg, c, confidence, car)
    else Evidence.FromNewVantage(cfg, c, confidence, car) || Evidence.OneWasEnough(cfg, c)
  }

  /** o announces candidate i, whose evidence is from one of the places, by detection l, which earns it. */
  ghost predicate EarnedBy(cfg: Config, places: set<Vec>, st: Front, frame: ConeFrame, o: Observation, i: nat, l: nat)
    requires MapIsFinite(st) && frame.pose.Some?
    requires i < |st.candidates| == |Staged(cfg, st, frame)| && l < |Detections(cfg, frame)|
  {
    var c, d, car := st.candidates[i], Detections(cfg, frame)[l], frame.pose.value.Translation();
    && Evidence.IsConfirmed(cfg, c, Staged(cfg, st, frame)[i], d, car, frame.timestamp, o)
    && c.evidencePosition in places && Earns(cfg, c, d.confidence, car)
    && IsWidelySeen(cfg, places + {car}, Staged(cfg, st, frame)[i])
  }

  /**
    The evidence reaches the threshold, and is from at least as many vantages, each the baseline from the one
    before.
  */
  ghost predicate IsWidelySeen(cfg: Config, places: set<Vec>, c: Candidate) {
    Evidence.IsGathered(cfg, places, c) && cfg.minEvidence <= c.evidence && cfg.minEvidence <= |c.vantages| as real
  }

  lemma ConfirmedIsWidelySeen(cfg: Config, places: set<Vec>, c: Candidate, after: Candidate, d: Detection, car: Vec,
                              now: nat, o: Observation)
    requires Evidence.IsConfirmed(cfg, c, after, d, car, now, o) && Evidence.IsSound(cfg, places, after)
    ensures IsWidelySeen(cfg, places, after)
  {
    hide AtLeastApart, Evidence.AreApart, Evidence.IsMean, Evidence.IsPending, Evidence.InGate;
  }

  ghost predicate IsEarned(cfg: Config, places: set<Vec>, st: Front, frame: ConeFrame, o: Observation)
    requires MapIsFinite(st) && frame.pose.Some?
  {
    && |Staged(cfg, st, frame)| == |st.candidates|
    && exists i, l ::
         0 <= i < |st.candidates| && 0 <= l < |Detections(cfg, frame)| && EarnedBy(cfg, places, st, frame, o, i, l)
  }

  lemma SoundInMorePlaces(cfg: Config, places: set<Vec>, more: set<Vec>, cs: seq<Candidate>)
    requires Evidence.AllSound(cfg, places, cs) && places <= more
    ensures Evidence.AllSound(cfg, more, cs)
  {
    hide Evidence.IsMean, Evidence.IsPending;
  }

  lemma ConfirmedIsEarned(cfg: Config, places: set<Vec>, c: Candidate, confidence: real, car: Vec)
    requires Evidence.IsSound(cfg, places, c) && c.id.None? && Evidence.Promotes(cfg, c, confidence, car)
    ensures c.evidencePosition in places && Earns(cfg, c, confidence, car)
  {
    Evidence.PromotesIff(cfg, c, confidence, car);
    hide AtLeastApart, Evidence.Promotes, Evidence.IsMean;
  }

  /** What the stages announce is earned. */
  lemma StagesEarn(cfg: Config, places: set<Vec>, st: Front, frame: ConeFrame, o: Observation)
    requires MapIsFinite(st) && frame.pose.Some? && Evidence.AllSound(cfg, places, st.candidates)
    requires o in ThirdStage(cfg, st, frame).observations
    ensures IsEarned(cfg, places, st, frame, o)
  {
    hide Stages, Usable, Earns, IsWidelySeen, Evidence.IsSound, Evidence.Promotes, Sighted, WithEvidence,
         Evidence.InGate;
    var car, ds := frame.pose.value.Translation(), Detections(cfg, frame);
    var cs, r := st.candidates, Staged(cfg, st, frame);
    SoundInMorePlaces(cfg, places, places + {car}, cs);
    Evidence.StagesKeepSound(cfg, places + {car}, Entered(st, frame), frame.pose.value, frame.timestamp, ds);
    var i, l :| 0 <= i < |cs| && 0 <= l < |ds|
                && Evidence.IsConfirmed(cfg, cs[i], r[i], ds[l], car, frame.timestamp, o);
    ConfirmedIsEarned(cfg, places, cs[i], ds[l].confidence, car);
    ConfirmedIsWidelySeen(cfg, places + {car}, cs[i], r[i], ds[l], car, frame.timestamp, o);
    assert EarnedBy(cfg, places, st, frame, o, i, l);
  }

  /** Among the observations of a frame, the new ones are those of the third stage. */
  lemma NewIsFromThirdStage(m: Matching3, mapIds: set<nat>, graphIds: set<nat>, next: nat, o: Observation)
    requires Names(m, mapIds, graphIds, next) && o in m.Observations() && o.status.New?
    ensures o in m.unconfirmed.observations
  {
  }

  lemma ProcessEarns(cfg: Config, places: set<Vec>, st: Front, frame: ConeFrame, o: Observation)
    requires Sound(st) && Evidence.AllSound(cfg, places, st.candidates)
    requires Process(cfg, st, frame).out.Some? && o in Process(cfg, st, frame).out.value.observations && o.status.New?
    ensures frame.pose.Some? && IsEarned(cfg, places, st, frame, o)
  {
    AcceptedHasPose(cfg, st, frame);
    ProcessKeepsSound(cfg, st, frame);
    hide Process, Stages, Usable, Names, Evidence.AllSound, IsEarned, PromotedDistinct, Tracked, Distinct;
    var m := Stages(cfg, Entered(st, frame), frame.pose.value, frame.timestamp, Detections(cfg, frame));
    NewIsFromThirdStage(m, IdsOf(st), GraphIds(st.candidates), st.nextId, o);
    StagesEarn(cfg, places, st, frame, o);
  }

  ghost function Reached(cfg: Config, inputs: seq<Input>): (s: Slam)
    ensures InStep(s)
  {
    StartIsInStep();
    Run(cfg, START, inputs)
  }

  /**
    After any run, every new landmark a scan announces is an unconfirmed candidate whose last evidence was
    gathered where the car has been; with a threshold above 1 the car is now at least the baseline away from
    there, and the evidence with this detection reaches the threshold.
  */
  lemma NewIsEarned(cfg: Config, places: set<Vec>, inputs: seq<Input>, input: Input, o: Observation)
    requires Visits(places, inputs)
    requires var out := StepOf(cfg, Reached(cfg, inputs), input).out;
             out.Some? && o in out.value.observations && o.status.New?
    ensures input.frame.pose.Some? && IsEarned(cfg, places, Reached(cfg, inputs).front, input.frame, o)
  {
    hide Process, UpdateOf, WithMap, IsEarned, WellFormed, Evidence.IsSound;
    StartIsInStep();
    CandidatesStaySound(cfg, places, START, inputs);
    ProcessEarns(cfg, places, Reached(cfg, inputs).front, input.frame, o);
  }

  // ------------------------------------------------------------------ a car that does not go far

  /** No two of the places are the baseline apart. */
  ghost predicate AreNear(cfg: Config, places: set<Vec>) {
    forall p, q :: p in places && q in places ==> !AtLeastApart(p, q, cfg.baseline)
  }

  lemma NothingNewNoIds(obs: seq<Observation>)
    requires forall o :: o in obs ==> !o.status.New?
    ensures NewIdList(obs) == []
  {
  }

  /** No detection is usable, or none is in the gate of a candidate. */
  predicate MatchesNothing(cfg: Config) { cfg.minConfidence > 1.0 || cfg.candidateGate < 0.0 }

  lemma NothingIsEarned(cfg: Config, places: set<Vec>, st: Front, frame: ConeFrame, o: Observation)
    requires MapIsFinite(st) && frame.pose.Some? && frame.pose.value.Translation() in places
    requires (cfg.minEvidence > 1.0 && AreNear(cfg, places)) || MatchesNothing(cfg)
    ensures !IsEarned(cfg, places, st, frame, o)
  {
    hide Staged, Usable, SquaredDistance, AtLeastApart, WithEvidence, Sighted, Evidence.Promotes, Evidence.OneWasEnough;
    var ds := Detections(cfg, frame);
    Evidence.UsableConfidence(cfg, frame.pose.value, frame.detections, |frame.detections|);
    if IsEarned(cfg, places, st, frame, o) {
      var i, l :| 0 <= i < |st.candidates| && 0 <= l < |ds| && EarnedBy(cfg, places, st, frame, o, i, l);
      assert ds[l] in ds;
      DistanceIsNotNegative(ds[l].odom, st.candidates[i].position);
    }
  }

  lemma DistanceIsNotNegative(p: Vec, q: Vec)
    ensures SquaredDistance(p, q) >= 0.0
  {
    AssociationGate.SumOfSquares(Sub(p, q));
    hide Sub, Dot;
  }

  lemma StepConfirmsNothing(cfg: Config, places: set<Vec>, s: Slam, input: Input)
    requires InStep(s) && Evidence.AllSound(cfg, places, s.front.candidates)
    requires input.frame.pose.Some? ==> input.frame.pose.value.Translation() in places
    requires (cfg.minEvidence > 1.0 && AreNear(cfg, places)) || MatchesNothing(cfg)
    ensures var o := StepOf(cfg, s, input); o.out.Some? ==> NewIdList(o.out.value.observations) == []
  {
    hide Process, UpdateOf, WithMap, IsEarned, WellFormed, Evidence.IsSound, NewIdList, AreNear, MatchesNothing;
    var out := StepOf(cfg, s, input).out;
    if out.Some? {
      forall o | o in out.value.observations
        ensures !o.status.New?
      {
        if o.status.New? {
          ProcessEarns(cfg, places, s.front, input.frame, o);
          NothingIsEarned(cfg, places, s.front, input.frame, o);
        }
      }
      NothingNewNoIds(out.value.observations);
    }
  }

  /**
    A car that stays among places less than the baseline apart confirms nothing, when one detection is not
    enough evidence; nor does any car where no detection is usable or matched.
  */
  lemma {:induction false} LingeringConfirmsNothing(cfg: Config, places: set<Vec>, s: Slam, inputs: seq<Input>)
    requires InStep(s) && Evidence.AllSound(cfg, places, s.front.candidates) && Visits(places, inputs)
    requires (cfg.minEvidence > 1.0 && AreNear(cfg, places)) || MatchesNothing(cfg)
    ensures Announced(cfg, s, inputs) == []
    decreases |inputs|
  {
    hide StepOf, InStep, Evidence.AllSound, AreNear, MatchesNothing, NewIdList;
    if inputs != [] {
      StepKeepsInStep(cfg, s, inputs[0]);
      assert MapIsFinite(s.front) by { InStepParts(s); }
      StepKeepsCandidatesSound(cfg, places, s, inputs[0]);
      StepConfirmsNothing(cfg, places, s, inputs[0]);
      LingeringConfirmsNothing(cfg, places, StepOf(cfg, s, inputs[0]).slam, inputs[1..]);
    }
  }

  // ------------------------------------------------------------------ a car that stands still

  const ORIGIN := Vec(0.0, 0.0)

  /** A scan, at time k and the origin, of one cone at the origin with full confidence; the solver fails if it runs. */
  function Look(k: nat): Input {
    Input(ConeFrame(k, Some(Pose(1.0, 0.0, 0.0, 0.0)), [ConeDetection(Some(ORIGIN), Some(1.0))]), UpdateThrows)
  }

  const LOOKED := Detection(ORIGIN, ORIGIN, 1.0)

  lemma LookIsUsable(cfg: Config, k: nat)
    requires cfg.minConfidence <= 1.0
    ensures Look(k).frame.pose.value.Translation() == ORIGIN && Detections(cfg, Look(k).frame) == [LOOKED]
  {
    var ds := Look(k).frame.detections;
    assert Usable(cfg, Look(k).frame.pose.value, ds, 0) == [];
  }

  lemma NoTargetsNoMatches(cfg: Config, cs: seq<Candidate>, promoted: bool, ds: seq<Detection>, used: seq<bool>)
    requires |used| == |ds| && Indices(cs, promoted, |cs|) == []
    ensures CandidateMatches(cfg, cs, promoted, ds, used) == []
  {
    CandidateMatchesFit(cfg, cs, promoted, ds, used);
    NoColumnNoLink(CandidateMatches(cfg, cs, promoted, ds, used), |ds|);
  }

  lemma NoColumnNoLink(ms: seq<Link>, rows: nat)
    requires LinksFit(ms, rows, 0)
    ensures ms == []
  {
    if ms != [] { LinkFits(ms, 0, rows, 0); }
  }

  lemma OneLink(gate: Gate)
    requires gate.Admits(0.0)
    ensures Matches([[0.0]], [false], gate) == [Link(0.0, 0, 0)]
  {
    var link := Link(0.0, 0, 0);
    assert RowLinks([0.0], 0, 0, gate) == [];
    assert RowLinks([0.0], 0, 1, gate) == [link];
    assert TableLinks([[0.0]], [false], 0, gate) == [];
    assert TableLinks([[0.0]], [false], 1, gate) == [link];
    assert [link][1..] == [];
    assert Sorted([]) == [];
    assert Sorted([link]) == [link];
    assert UsedRows([false]) == {};
    assert Greedy([], {0}, {0}) == [];
    assert Greedy([link], {}, {}) == [link];
  }

  /** Without a map and promoted candidates, only the third stage does anything. */
  lemma OnlyThirdStage(cfg: Config, st: Front, pose: Pose, now: nat, ds: seq<Detection>)
    requires st.map_state.None? && Indices(st.candidates, true, |st.candidates|) == []
    ensures Stages(cfg, st, pose, now, ds).unconfirmed == UnconfirmedStage(cfg, st, pose, now, ds, NoneUsed(|ds|))
  {
    hide CandidateMatches, UnconfirmedStage, Indices;
    NoTargetsNoMatches(cfg, st.candidates, true, ds, NoneUsed(|ds|));
    assert Marked(NoneUsed(|ds|), []) == NoneUsed(|ds|);
    hide NoneUsed, Marked;
    assert GraphStage(cfg, st, now, ds, NoneUsed(|ds|)).front == st;
  }

  lemma ThirdStageOfNone(cfg: Config, st: Front, pose: Pose, now: nat)
    requires st.candidates == []
    ensures UnconfirmedStage(cfg, st, pose, now, [LOOKED], NoneUsed(1)) == Matched(st, [false], [])
  {
    hide CandidateMatches;
    NoTargetsNoMatches(cfg, [], false, [LOOKED], NoneUsed(1));
    assert Marked(NoneUsed(1), []) == [false];
  }

  predicate HasEvidence(c: Candidate, e: real) {
    c.id.None? && c.position == ORIGIN && c.count >= 1 && c.evidence == e && c.evidencePosition == ORIGIN
  }

  /** One unconfirmed candidate at the origin, with evidence e gathered there. */
  predicate IsLone(st: Front, k: nat, e: real) {
    && st.map_state.None? && st.lastFrame == Some(k) && st.nextId == 1
    && |st.candidates| == 1 && HasEvidence(st.candidates[0], e)
  }

  /** What another look makes of the candidate. */
  function Weighed(cfg: Config, c: Candidate, now: nat): Confirming {
    ConfirmOne(cfg, Confirming([Sighted(c, ORIGIN, now)], 1, []), 0, LOOKED, ORIGIN)
  }

  lemma LoneIndices(c: Candidate)
    requires c.id.None?
    ensures Indices([c], false, 1) == [0] && Indices([c], true, 1) == []
  {
    assert Indices([c], true, 0) == [] && Indices([c], false, 0) == [];
  }

  lemma GateAdmitsZero(g: real)
    requires g >= 0.0
    ensures UpTo(SquaredGate(g)).Admits(0.0)
  {
    Arithmetic.SquareIsNonNegative(g);
  }

  lemma NoDistance(p: Vec)
    ensures SquaredDistance(p, p) == 0.0
  {
    assert Sub(p, p) == Vec(0.0, 0.0);
    hide Sub;
  }

  lemma LoneTable(c: Candidate, d: Detection)
    requires c.position == d.odom
    ensures CandidateTable([c], [0], [d]) == [[0.0]]
  {
    hide SquaredDistance;
    NoDistance(d.odom);
    assert CandidateTable([c], [0], [d])[0] == [0.0];
  }

  lemma LoneMatch(cfg: Config, c: Candidate)
    requires c.id.None? && c.position == ORIGIN && cfg.candidateGate >= 0.0
    ensures CandidateMatches(cfg, [c], false, [LOOKED], [false]) == [Link(0.0, 0, 0)]
  {
    hide Matches, Indices, CandidateTable, SquaredGate, SquaredDistance;
    LoneIndices(c);
    LoneTable(c, LOOKED);
    GateAdmitsZero(cfg.candidateGate);
    OneLink(UpTo(SquaredGate(cfg.candidateGate)));
  }

  lemma ThirdStageOfOne(cfg: Config, st: Front, pose: Pose, now: nat, k: nat, e: real)
    requires IsLone(st, k, e) && cfg.candidateGate >= 0.0 && pose.Translation() == ORIGIN
    ensures var u := UnconfirmedStage(cfg, st, pose, now, [LOOKED], NoneUsed(1));
            var w := Weighed(cfg, st.candidates[0], now);
            u.front == st.(candidates := w.candidates, nextId := w.nextId) && u.used == [true]
  {
    hide CandidateMatches, Indices, ConfirmOne, Sighted;
    var c := st.candidates[0];
    assert st.candidates == [c] && NoneUsed(1) == [false];
    LoneIndices(c);
    LoneMatch(cfg, c);
    var ms := [Link(0.0, 0, 0)];
    assert Marked([false], ms) == [true] by { assert ms[0] in ms; }
    assert Absorbed([c], [0], ms, [LOOKED], now, 0) == [c];
    assert Absorbed([c], [0], ms, [LOOKED], now, 1) == [Sighted(c, ORIGIN, now)];
    NoneConfirmed(cfg, [Sighted(c, ORIGIN, now)], 1, [0], ms, [LOOKED], ORIGIN);
    ConfirmedNext(cfg, [Sighted(c, ORIGIN, now)], 1, [0], ms, [LOOKED], ORIGIN, 0);
  }

  lemma NoneLeftToSpawn(cfg: Config, cs: seq<Candidate>, now: nat)
    ensures Spawned([LOOKED], [true], ORIGIN, now, 1) == []
    ensures Spawned([LOOKED], [false], ORIGIN, now, 1) == [CandidateOf(LOOKED, ORIGIN, now)]
  {
    assert Spawned([LOOKED], [true], ORIGIN, now, 0) == [] && Spawned([LOOKED], [false], ORIGIN, now, 0) == [];
  }

  lemma JustSeenStays(c: Candidate, now: nat)
    requires c.lastSeen == now
    ensures Pruned([c], now, 1) == [c]
  {
    assert Pruned([c], now, 0) == [];
  }

  lemma FirstLook(cfg: Config)
    requires cfg.minConfidence <= 1.0
    ensures IsLone(Process(cfg, INITIAL, Look(1).frame).front, 1, 1.0)
  {
    hide Usable, Stages, UnconfirmedStage, Pruned, Spawned, Recorded;
    var st, pose := Entered(INITIAL, Look(1).frame), Look(1).frame.pose.value;
    LookIsUsable(cfg, 1);
    assert Indices(st.candidates, true, 0) == [];
    OnlyThirdStage(cfg, st, pose, 1, [LOOKED]);
    ThirdStageOfNone(cfg, st, pose, 1);
    NoneLeftToSpawn(cfg, [], 1);
    var c := CandidateOf(LOOKED, ORIGIN, 1);
    assert [] + [c] == [c];
    JustSeenStays(c, 1);
  }

  /** The evidence after another look: only without a baseline does it count. */
  function LookAgain(cfg: Config, e: real): real { if cfg.baseline <= 0.0 then e + 1.0 else e }

  /** Another look either confirms the candidate or leaves it alone with its evidence. */
  lemma NextLook(cfg: Config, st: Front, k: nat, e: real)
    requires IsLone(st, k, e) && !MatchesNothing(cfg)
    ensures var p := Process(cfg, st, Look(k + 1).frame).front;
            if LookAgain(cfg, e) >= cfg.minEvidence then p.nextId == 2 else IsLone(p, k + 1, LookAgain(cfg, e))
  {
    hide Usable, Stages, UnconfirmedStage, Pruned, Spawned, Recorded, Sighted, Weighed, HasEvidence;
    var entered, pose, now := Entered(st, Look(k + 1).frame), Look(k + 1).frame.pose.value, k + 1;
    LookIsUsable(cfg, k + 1);
    assert st.candidates == [st.candidates[0]];
    assert st.candidates[0].id.None? by { OriginHasNoId(st.candidates[0], e); }
    LoneIndices(st.candidates[0]);
    OnlyThirdStage(cfg, entered, pose, now, [LOOKED]);
    ThirdStageOfOne(cfg, entered, pose, now, now, e);
    NoneLeftToSpawn(cfg, [], now);
    var w := Weighed(cfg, st.candidates[0], now);
    WeighedIs(cfg, st.candidates[0], now, e);
    assert w.candidates + [] == [w.candidates[0]];
    JustSeenStays(w.candidates[0], now);
  }

  lemma OriginHasNoId(c: Candidate, e: real)
    requires HasEvidence(c, e)
    ensures c.id.None?
  {
  }

  lemma WeighedIs(cfg: Config, c: Candidate, now: nat, e: real)
    requires HasEvidence(c, e)
    ensures var w := Weighed(cfg, c, now);
            && |w.candidates| == 1 && w.candidates[0].lastSeen == now
            && if LookAgain(cfg, e) >= cfg.minEvidence then w.nextId == 2
               else w.nextId == 1 && HasEvidence(w.candidates[0], LookAgain(cfg, e))
  {
    ZeroMean(c.count as real);
    FarIff(cfg.baseline);
    hide AtLeastApart, RunningMean;
  }

  lemma ZeroMean(n: real)
    requires n >= 0.0
    ensures RunningMean(n, 0.0, 0.0) == 0.0
  {
    assert n * 0.0 + 0.0 == 0.0;
  }

  lemma FarIff(b: real)
    ensures AtLeastApart(ORIGIN, ORIGIN, b) <==> b <= 0.0
  {
    hide SquaredDistance;
    NoDistance(ORIGIN);
    if b > 0.0 { NotFar(ORIGIN, ORIGIN, b, b * b); }
  }

  lemma NotFar(p: Vec, q: Vec, b: real, square: real)
    requires b > 0.0 && square == b * b && SquaredDistance(p, q) == 0.0
    ensures !AtLeastApart(p, q, b)
  {
    hide SquaredDistance;
    Arithmetic.SquareOrder(0.0, b);
  }

  lemma StepOfLook(cfg: Config, s: Slam, k: nat)
    requires MapIsFinite(s.front)
    ensures StepOf(cfg, s, Look(k)).slam.front == Process(cfg, s.front, Look(k).frame).front
  {
    hide Process, AdmitFrame;
  }

  lemma OneLookLeft(cfg: Config, s: Slam, k: nat)
    requires InStep(s)
    ensures Run(cfg, s, [Look(k)]) == StepOf(cfg, s, Look(k)).slam
  {
    hide StepOf, InStep;
    StepKeepsInStep(cfg, s, Look(k));
    assert [Look(k)][1..] == [];
  }

  lemma MoreLooks(cfg: Config, s: Slam, k: nat, rest: seq<Input>)
    requires InStep(s)
    ensures InStep(StepOf(cfg, s, Look(k)).slam)
    ensures Run(cfg, s, [Look(k)] + rest) == Run(cfg, StepOf(cfg, s, Look(k)).slam, rest)
  {
    hide StepOf, InStep;
    StepKeepsInStep(cfg, s, Look(k));
    assert ([Look(k)] + rest)[1..] == rest;
  }

  /** Looks from the origin until the candidate is confirmed, at most n more than one. */
  lemma {:induction false} LooksConfirm(cfg: Config, s: Slam, k: nat, e: real, n: nat) returns (inputs: seq<Input>)
    requires InStep(s) && IsLone(s.front, k, e) && !MatchesNothing(cfg)
    requires cfg.minEvidence <= if cfg.baseline <= 0.0 then e + n as real else e
    ensures Visits({ORIGIN}, inputs) && Run(cfg, s, inputs).front.nextId == 2
    decreases n
  {
    hide StepOf, InStep, IsLone, Process;
    var input := Look(k + 1);
    assert MapIsFinite(s.front) by { InStepParts(s); }
    NextLook(cfg, s.front, k, e);
    StepOfLook(cfg, s, k + 1);
    if LookAgain(cfg, e) >= cfg.minEvidence {
      inputs := [input];
      OneLookLeft(cfg, s, k + 1);
    } else {
      StepKeepsInStep(cfg, s, input);
      var rest := LooksConfirm(cfg, StepOf(cfg, s, input).slam, k + 1, LookAgain(cfg, e), n - 1);
      inputs := [input] + rest;
      MoreLooks(cfg, s, k + 1, rest);
    }
  }

  /** The ids announced along a run from the start. */
  ghost function AnnouncedFromStart(cfg: Config, inputs: seq<Input>): seq<nat> {
    StartIsInStep();
    Announced(cfg, START, inputs)
  }

  /** Where one detection is enough evidence, two looks from the same place confirm a cone. */
  lemma TwoLooksConfirm(cfg: Config)
    requires !MatchesNothing(cfg) && cfg.minEvidence <= 1.0
    ensures AnnouncedFromStart(cfg, [Look(1), Look(2)]) == [1]
  {
    hide StepOf, InStep, IsLone, Process, Announced;
    StartIsInStep();
    FirstLook(cfg);
    StepOfLook(cfg, START, 1);
    var s := StepOf(cfg, START, Look(1)).slam;
    assert [Look(1)] + [Look(2)] == [Look(1), Look(2)];
    MoreLooks(cfg, START, 1, [Look(2)]);
    OneLookLeft(cfg, s, 2);
    assert MapIsFinite(s.front) by { InStepParts(s); }
    NextLook(cfg, s.front, 1, 1.0);
    StepOfLook(cfg, s, 2);
    EachIdIsAnnouncedOnce(cfg, START, [Look(1), Look(2)]);
  }

  lemma LooksFromStartConfirm(cfg: Config) returns (inputs: seq<Input>)
    requires !MatchesNothing(cfg) && (cfg.baseline <= 0.0 || cfg.minEvidence <= 1.0)
    ensures Visits({ORIGIN}, inputs) && AnnouncedFromStart(cfg, inputs) != []
  {
    hide StepOf, InStep, IsLone, Process, Announced;
    StartIsInStep();
    FirstLook(cfg);
    StepOfLook(cfg, START, 1);
    StepKeepsInStep(cfg, START, Look(1));
    var n := if cfg.minEvidence <= 1.0 then 0 else cfg.minEvidence.Floor;
    var rest := LooksConfirm(cfg, StepOf(cfg, START, Look(1)).slam, 1, 1.0, n);
    inputs := [Look(1)] + rest;
    MoreLooks(cfg, START, 1, rest);
    EachIdIsAnnouncedOnce(cfg, START, inputs);
  }

  /** Whatever the scans and the solver do, no landmark is confirmed while every scan is taken at one place. */
  ghost predicate StandingCarConfirmsNothing(cfg: Config) {
    forall place: Vec, inputs: seq<Input> :: Visits({place}, inputs) ==> AnnouncedFromStart(cfg, inputs) == []
  }

  /**
    A car that stands still confirms nothing exactly when the baseline is positive and one detection is not
    enough evidence; or when no detection is usable or matched.
  */
  lemma StandingCarConfirmsNothingIff(cfg: Config)
    ensures StandingCarConfirmsNothing(cfg) <==> (cfg.baseline > 0.0 && cfg.minEvidence > 1.0) || MatchesNothing(cfg)
  {
    hide MatchesNothing, InStep, Visits, Announced;
    StartIsInStep();
    if (cfg.baseline > 0.0 && cfg.minEvidence > 1.0) || MatchesNothing(cfg) {
      forall place: Vec, inputs: seq<Input> | Visits({place}, inputs)
        ensures AnnouncedFromStart(cfg, inputs) == []
      {
        if cfg.baseline > 0.0 { OnePlaceIsNear(cfg, place); }
        NothingAtStart(cfg, {place});
        LingeringConfirmsNothing(cfg, {place}, START, inputs);
      }
    } else {
      var inputs := LooksFromStartConfirm(cfg);
    }
  }

  lemma OnePlaceIsNear(cfg: Config, place: Vec)
    requires cfg.baseline > 0.0
    ensures AreNear(cfg, {place})
  {
    hide AtLeastApart, SquaredDistance;
    NoDistance(place);
    NotFar(place, place, cfg.baseline, cfg.baseline * cfg.baseline);
  }

  lemma NothingAtStart(cfg: Config, places: set<Vec>)
    ensures Evidence.AllSound(cfg, places, START.front.candidates)
  {
  }
}
