/** What the frontend's stages keep: which ids candidates carry, and which ids observations name. */
module FrontendInvariants {
  import opened Frontend
  import opened Matching
  import opened SlamTypes
  import opened Wrappers

  // ------------------------------------------------------------------ candidates

  /** No two promoted candidates have the same id. */
  ghost predicate PromotedDistinct(cs: seq<Candidate>) {
    forall i, j :: 0 <= i < j < |cs| && cs[i].id.Some? && cs[j].id.Some? ==> cs[i].id != cs[j].id
  }

  /** Candidates were seen by time t; promoted ones have ids already handed out and not in the map. */
  ghost predicate Tracked(cs: seq<Candidate>, nextId: nat, mapIds: set<nat>, t: nat) {
    forall c :: c in cs ==> c.lastSeen <= t && (c.id.Some? ==> 1 <= c.id.value < nextId && c.id.value !in mapIds)
  }

  function IdsOf(st: Front): set<nat> { if st.map_state.Some? then MapIds(st.map_state.value.landmarks) else {} }

  ghost predicate MapIsSound(st: Front) {
    st.map_state.Some? ==>
      && IsFinite(st.map_state.value)
      && IdsDistinct(st.map_state.value.landmarks)
      && (forall id :: id in IdsOf(st) ==> 1 <= id < st.nextId)
      && st.lastFrame.Some? && st.map_state.value.timestamp <= st.lastFrame.value
  }

  ghost predicate Sound(st: Front) {
    && st.nextId >= 1
    && MapIsSound(st)
    && PromotedDistinct(st.candidates)
    && (if st.lastFrame.None? then st.candidates == []
        else Tracked(st.candidates, st.nextId, IdsOf(st), st.lastFrame.value))
    && forall id :: id in st.lastObserved ==> st.lastObserved[id] <= st.frameCount
  }

  lemma AbsorbKeeps(cs: seq<Candidate>, idx: seq<nat>, ms: seq<Link>, ds: seq<Detection>, now: nat, n: nat, nextId: nat,
                    mapIds: set<nat>)
    requires Fits(ms, idx, cs, ds) && n <= |ms| && Tracked(cs, nextId, mapIds, now) && PromotedDistinct(cs)
    ensures var r := Absorbed(cs, idx, ms, ds, now, n);
            Tracked(r, nextId, mapIds, now) && PromotedDistinct(r)
  {
    AbsorbKeepsIds(cs, idx, ms, ds, now, n);
    if n > 0 {
      AbsorbKeeps(cs, idx, ms, ds, now, n - 1, nextId, mapIds);
      var before := Absorbed(cs, idx, ms, ds, now, n - 1);
      assert ms[n - 1] in ms;
      assert before[idx[ms[n - 1].right]] in before;
    }
  }

  /** Which candidates the first n matches name. */
  ghost predicate Named(idx: seq<nat>, ms: seq<Link>, n: nat, c: nat)
    requires n <= |ms| && forall m :: m in ms ==> m.right < |idx|
  {
    exists k :: 0 <= k < n && (assert ms[k] in ms; idx[ms[k].right] == c)
  }

  lemma NamedOnce(idx: seq<nat>, ms: seq<Link>, k: nat)
    requires k < |ms| && Disjoint(ms) && forall m :: m in ms ==> m.right < |idx|
    requires forall i, j :: 0 <= i < j < |idx| ==> idx[i] < idx[j]
    ensures ms[k] in ms && !Named(idx, ms, k, idx[ms[k].right])
  {
    assert ms[k] in ms;
  }

  /** What the first n matches to unconfirmed candidates change: fresh consecutive ids, each on one candidate. */
  ghost predicate ConfirmedFrom(cs: seq<Candidate>, next: nat, idx: seq<nat>, ms: seq<Link>, n: nat, r: Confirming)
    requires n <= |ms| && forall m :: m in ms ==> m.right < |idx|
  {
    && |r.candidates| == |cs|
    && r.nextId == next + |r.observations|
    && (forall k :: 0 <= k < |r.observations| ==>
          r.observations[k].id == next + k && r.observations[k].status == New && r.observations[k].measurement.Some?)
    && (forall i :: 0 <= i < |cs| ==> r.candidates[i].lastSeen == cs[i].lastSeen)
    && (forall i :: 0 <= i < |cs| && !Named(idx, ms, n, i) ==> r.candidates[i] == cs[i])
    && (forall i :: 0 <= i < |cs| && r.candidates[i].id != cs[i].id ==>
          cs[i].id.None? && r.candidates[i].id.Some? && next <= r.candidates[i].id.value < r.nextId)
    && forall i, j :: 0 <= i < j < |cs| && r.candidates[i].id != cs[i].id && r.candidates[j].id != cs[j].id ==>
         r.candidates[i].id != r.candidates[j].id
  }

  lemma {:induction false} ConfirmKeeps(cfg: Config, cs: seq<Candidate>, next: nat, idx: seq<nat>, ms: seq<Link>,
                                        ds: seq<Detection>, car: Vec, n: nat)
    requires Fits(ms, idx, cs, ds) && n <= |ms| && Disjoint(ms)
    requires forall i, j :: 0 <= i < j < |idx| ==> idx[i] < idx[j]
    requires forall i :: 0 <= i < |idx| ==> cs[idx[i]].id.None?
    ensures ConfirmedFrom(cs, next, idx, ms, n, Confirmed(cfg, cs, next, idx, ms, ds, car, n))
  {
    if n > 0 {
      ConfirmKeeps(cfg, cs, next, idx, ms, ds, car, n - 1);
      NamedOnce(idx, ms, n - 1);
      var before := Confirmed(cfg, cs, next, idx, ms, ds, car, n - 1);
      var m := ms[n - 1];
      ConfirmOneKeeps(cfg, cs, next, idx, ms, before, n - 1, ds[m.left], car);
    }
  }

  lemma ConfirmOneKeeps(cfg: Config, cs: seq<Candidate>, next: nat, idx: seq<nat>, ms: seq<Link>,
                        s: Confirming, k: nat, d: Detection, car: Vec)
    requires k < |ms| && (forall m :: m in ms ==> m.right < |idx|) && ms[k] in ms
    requires idx[ms[k].right] < |cs| && cs[idx[ms[k].right]].id.None?
    requires ConfirmedFrom(cs, next, idx, ms, k, s) && !Named(idx, ms, k, idx[ms[k].right])
    ensures ConfirmedFrom(cs, next, idx, ms, k + 1, ConfirmOne(cfg, s, idx[ms[k].right], d, car))
  {
    var c := idx[ms[k].right];
    var r := ConfirmOne(cfg, s, c, d, car);
    assert Named(idx, ms, k + 1, c);
    forall i | 0 <= i < |cs| && !Named(idx, ms, k + 1, i)
      ensures r.candidates[i] == cs[i]
    {
      assert i != c;
      assert !Named(idx, ms, k, i);
    }
  }

  lemma ConfirmedKeepsTracked(cs: seq<Candidate>, next: nat, idx: seq<nat>, ms: seq<Link>, n: nat, r: Confirming,
                              mapIds: set<nat>, t: nat)
    requires n <= |ms| && forall m :: m in ms ==> m.right < |idx|
    requires ConfirmedFrom(cs, next, idx, ms, n, r) && next >= 1
    requires Tracked(cs, next, mapIds, t) && PromotedDistinct(cs) && forall id :: id in mapIds ==> id < next
    ensures Tracked(r.candidates, r.nextId, mapIds, t) && PromotedDistinct(r.candidates)
  {
    forall i | 0 <= i < |cs|
      ensures var c := r.candidates[i];
              c.lastSeen <= t && (c.id.Some? ==> 1 <= c.id.value < r.nextId && c.id.value !in mapIds)
    {
      assert cs[i] in cs;
    }
    forall i, j | 0 <= i < j < |cs| && r.candidates[i].id.Some? && r.candidates[j].id.Some?
      ensures r.candidates[i].id != r.candidates[j].id
    {
      assert cs[i] in cs && cs[j] in cs;
    }
  }

  lemma SpawnedAreNew(ds: seq<Detection>, used: seq<bool>, car: Vec, now: nat, n: nat)
    requires n <= |ds| == |used|
    ensures forall c :: c in Spawned(ds, used, car, now, n) ==> c.id.None? && c.lastSeen == now
  {
  }

  lemma {:induction false} PrunedKeeps(cs: seq<Candidate>, now: nat, n: nat)
    requires n <= |cs| && PromotedDistinct(cs)
    ensures forall c :: c in Pruned(cs, now, n) ==> c in cs[..n]
    ensures PromotedDistinct(Pruned(cs, now, n))
  {
    if n > 0 {
      PrunedKeeps(cs, now, n - 1);
      KeepsDistinct(cs, n, Pruned(cs, now, n - 1));
      assert cs[..n] == cs[..n - 1] + [cs[n - 1]];
    }
  }

  lemma KeepsDistinct(cs: seq<Candidate>, n: nat, kept: seq<Candidate>)
    requires 0 < n <= |cs| && PromotedDistinct(cs) && PromotedDistinct(kept)
    requires forall c :: c in kept ==> c in cs[..n - 1]
    ensures PromotedDistinct(kept + [cs[n - 1]])
  {
    var all := kept + [cs[n - 1]];
    forall i, j | 0 <= i < j < |all| && all[i].id.Some? && all[j].id.Some?
      ensures all[i].id != all[j].id
    {
      if j == |kept| {
        assert all[i] in kept;
        var k :| 0 <= k < n - 1 && cs[k] == all[i];
      }
    }
  }

  lemma {:induction false} UnmappedKeeps(cs: seq<Candidate>, ids: set<nat>, n: nat)
    requires n <= |cs| && PromotedDistinct(cs)
    ensures forall c :: c in Unmapped(cs, ids, n) ==> c in cs[..n] && !IsMapped(c, ids)
    ensures PromotedDistinct(Unmapped(cs, ids, n))
  {
    if n > 0 {
      UnmappedKeeps(cs, ids, n - 1);
      KeepsDistinct(cs, n, Unmapped(cs, ids, n - 1));
      assert cs[..n] == cs[..n - 1] + [cs[n - 1]];
    }
  }

  lemma InTail(a: seq<Candidate>, b: seq<Candidate>, j: nat)
    requires |a| <= j < |a| + |b|
    ensures (a + b)[j] in b
  {
  }

  lemma SettledKeeps(cs: seq<Candidate>, ds: seq<Detection>, used: seq<bool>, car: Vec, now: nat, nextId: nat,
                     mapIds: set<nat>)
    requires |ds| == |used| && Tracked(cs, nextId, mapIds, now) && PromotedDistinct(cs)
    ensures var r := Settled(cs, ds, used, car, now);
            Tracked(r, nextId, mapIds, now) && PromotedDistinct(r)
  {
    var all := cs + Spawned(ds, used, car, now, |ds|);
    SpawnedAreNew(ds, used, car, now, |ds|);
    forall i, j | 0 <= i < j < |all| && all[i].id.Some? && all[j].id.Some?
      ensures all[i].id != all[j].id
    {
      if j >= |cs| { InTail(cs, Spawned(ds, used, car, now, |ds|), j); }
    }
    PrunedKeeps(all, now, |all|);
    assert all[..|all|] == all;
  }

  // ------------------------------------------------------------------ observations

  /** Distinct landmarks, all of one status, with finite measurements. */
  ghost predicate Distinct(obs: seq<Observation>) { forall i, j :: 0 <= i < j < |obs| ==> obs[i].id != obs[j].id }

  ghost predicate AllOf(obs: seq<Observation>, status: LandmarkStatus, ids: set<nat>) {
    forall o :: o in obs ==> o.status == status && o.measurement.Some? && o.id in ids
  }

  lemma {:induction false} MapObservationsAre(ls: seq<MapLandmark>, ds: seq<Detection>, ms: seq<Link>, n: nat)
    requires n <= |ms| && forall m :: m in ms ==> m.left < |ds| && m.right < |ls|
    ensures var obs := MapObservations(ls, ds, ms, n);
            |obs| == n && forall k :: 0 <= k < n ==> (assert ms[k] in ms;
              obs[k] == Observation(ls[ms[k].right].id, Some(ds[ms[k].left].base), InMap))
  {
    if n > 0 { MapObservationsAre(ls, ds, ms, n - 1); }
  }

  lemma MapObservationsName(ls: seq<MapLandmark>, ds: seq<Detection>, ms: seq<Link>)
    requires (forall m :: m in ms ==> m.left < |ds| && m.right < |ls|) && Disjoint(ms) && IdsDistinct(ls)
    ensures var obs := MapObservations(ls, ds, ms, |ms|);
            AllOf(obs, InMap, MapIds(ls)) && Distinct(obs)
  {
    var obs := MapObservations(ls, ds, ms, |ms|);
    MapObservationsAre(ls, ds, ms, |ms|);
    forall o | o in obs
      ensures o.status == InMap && o.measurement.Some? && o.id in MapIds(ls)
    {
      var k :| 0 <= k < |obs| && obs[k] == o;
      assert ms[k] in ms;
      assert ls[ms[k].right] in ls;
    }
    forall i, j | 0 <= i < j < |obs|
      ensures obs[i].id != obs[j].id
    {
      assert ms[i] in ms && ms[j] in ms && !Shares(ms[i], ms[j]);
    }
  }

  ghost function GraphIds(cs: seq<Candidate>): set<nat> { set c | c in cs && c.id.Some? :: c.id.value }

  lemma {:induction false} GraphObservationsAre(cs: seq<Candidate>, idx: seq<nat>, ms: seq<Link>, ds: seq<Detection>,
                                                n: nat)
    requires Fits(ms, idx, cs, ds) && n <= |ms| && forall i :: 0 <= i < |idx| ==> cs[idx[i]].id.Some?
    ensures var obs := GraphObservations(cs, idx, ms, ds, n);
            |obs| == n && forall k :: 0 <= k < n ==> (assert ms[k] in ms;
              obs[k] == Observation(cs[idx[ms[k].right]].id.value, Some(ds[ms[k].left].base), InGraph))
  {
    if n > 0 { GraphObservationsAre(cs, idx, ms, ds, n - 1); }
  }

  lemma GraphObservationsName(cs: seq<Candidate>, idx: seq<nat>, ms: seq<Link>, ds: seq<Detection>)
    requires Fits(ms, idx, cs, ds) && (forall i :: 0 <= i < |idx| ==> cs[idx[i]].id.Some?)
    requires Disjoint(ms) && PromotedDistinct(cs) && forall i, j :: 0 <= i < j < |idx| ==> idx[i] < idx[j]
    ensures var obs := GraphObservations(cs, idx, ms, ds, |ms|);
            AllOf(obs, InGraph, GraphIds(cs)) && Distinct(obs)
  {
    var obs := GraphObservations(cs, idx, ms, ds, |ms|);
    GraphObservationsAre(cs, idx, ms, ds, |ms|);
    forall o | o in obs
      ensures o.status == InGraph && o.measurement.Some? && o.id in GraphIds(cs)
    {
      var k :| 0 <= k < |obs| && obs[k] == o;
      assert ms[k] in ms;
      assert cs[idx[ms[k].right]] in cs;
    }
    forall i, j | 0 <= i < j < |obs|
      ensures obs[i].id != obs[j].id
    {
      assert ms[i] in ms && ms[j] in ms && !Shares(ms[i], ms[j]);
      var a, b := idx[ms[i].right], idx[ms[j].right];
      assert a < b || b < a;
    }
  }

  // ------------------------------------------------------------------ a whole frame

  lemma TouchedKeeps(seen: map<nat, nat>, ls: seq<MapLandmark>, n: nat, limit: nat)
    requires n <= |ls| && forall id :: id in seen ==> seen[id] <= limit
    ensures var r := Touched(seen, ls, n); forall id :: id in r ==> r[id] <= limit
  {
  }

  lemma RecordedKeeps(seen: map<nat, nat>, obs: seq<Observation>, frame: nat, n: nat)
    requires n <= |obs| && forall id :: id in seen ==> seen[id] <= frame
    ensures var r := Recorded(seen, obs, frame, n); forall id :: id in r ==> r[id] <= frame
  {
  }

  /** The state is sound and its last accepted frame is at now. */
  ghost predicate SoundAt(st: Front, now: nat) { Sound(st) && st.lastFrame == Some(now) }

  lemma EnteredIsSound(cfg: Config, st: Front, frame: ConeFrame)
    requires Sound(st) && Accepts(st, frame)
    ensures SoundAt(Entered(st, frame), frame.timestamp)
  {
  }

  lemma SoundWithSeen(st: Front, now: nat, seen: map<nat, nat>)
    requires SoundAt(st, now) && forall id :: id in seen ==> seen[id] <= st.frameCount
    ensures SoundAt(st.(lastObserved := seen), now)
  {
    assert IdsOf(st.(lastObserved := seen)) == IdsOf(st);
  }

  lemma MappedStageTouches(cfg: Config, st: Front, pose: Pose, now: nat, ds: seq<Detection>, used: seq<bool>)
    requires MapIsFinite(st) && |used| == |ds|
    requires forall id :: id in st.lastObserved ==> st.lastObserved[id] <= st.frameCount
    ensures var front := MappedStage(cfg, st, pose, now, ds, used).front;
            && front == st.(lastObserved := front.lastObserved)
            && forall id :: id in front.lastObserved ==> front.lastObserved[id] <= st.frameCount
  {
    hide MapTable, MapMatches, Matches, Marked, MapObservations, Touched, IsFinite;
    if MapApplies(st, now) {
      var ls := st.map_state.value.landmarks;
      TouchedKeeps(st.lastObserved, ls, |ls|, st.frameCount);
      assert MappedStage(cfg, st, pose, now, ds, used).front.lastObserved == Touched(st.lastObserved, ls, |ls|);
    }
  }

  lemma MappedStageKeepsFront(cfg: Config, st: Front, pose: Pose, now: nat, ds: seq<Detection>, used: seq<bool>)
    requires SoundAt(st, now) && |used| == |ds|
    ensures var r := MappedStage(cfg, st, pose, now, ds, used);
            SoundAt(r.front, now) && r.front == st.(lastObserved := r.front.lastObserved)
  {
    MappedStageTouches(cfg, st, pose, now, ds, used);
    hide MappedStage;
    SoundWithSeen(st, now, MappedStage(cfg, st, pose, now, ds, used).front.lastObserved);
    hide Sound;
  }

  lemma MappedStageKeeps(cfg: Config, st: Front, pose: Pose, now: nat, ds: seq<Detection>, used: seq<bool>)
    requires SoundAt(st, now) && |used| == |ds|
    ensures var r := MappedStage(cfg, st, pose, now, ds, used);
            && SoundAt(r.front, now)
            && r.front == st.(lastObserved := r.front.lastObserved)
            && AllOf(r.observations, InMap, IdsOf(st)) && Distinct(r.observations)
  {
    MappedStageKeepsFront(cfg, st, pose, now, ds, used);
    var r := MappedStage(cfg, st, pose, now, ds, used);
    hide MapObservations, MapMatches, AllOf, Distinct, MapTable, Matches;
    if MapApplies(st, now) {
      MappedObservationsName(cfg, st, pose, now, ds, used);
    } else {
      NoObservations(r.observations, IdsOf(st));
    }
    hide MappedStage, SoundAt;
  }

  lemma NoObservations(obs: seq<Observation>, ids: set<nat>)
    requires obs == []
    ensures AllOf(obs, InMap, ids) && Distinct(obs)
  {
  }

  lemma MappedObservationsName(cfg: Config, st: Front, pose: Pose, now: nat, ds: seq<Detection>, used: seq<bool>)
    requires MapApplies(st, now) && IsFinite(st.map_state.value) && |used| == |ds|
    requires IdsDistinct(st.map_state.value.landmarks)
    ensures var ls, ms := st.map_state.value.landmarks, MapMatches(cfg, st, pose, now, ds, used);
            && (forall m :: m in ms ==> m.left < |ds| && m.right < |ls|)
            && AllOf(MapObservations(ls, ds, ms, |ms|), InMap, IdsOf(st))
            && Distinct(MapObservations(ls, ds, ms, |ms|))
  {
    var ls, table := st.map_state.value.landmarks, MapTable(cfg, st, pose, ds);
    MatchesAreSound(table, used, UpTo(cfg.mapGate));
    MatchesAreInTable(table, used, UpTo(cfg.mapGate), |ls|);
    hide MapTable, Matches, AllOf, Distinct, IsCandidate, Disjoint, IdsDistinct;
    MapObservationsName(ls, ds, MapMatches(cfg, st, pose, now, ds, used));
  }

  lemma GraphStageKeeps(cfg: Config, st: Front, now: nat, ds: seq<Detection>, used: seq<bool>)
    requires SoundAt(st, now) && |used| == |ds|
    ensures var r := GraphStage(cfg, st, now, ds, used);
            && SoundAt(r.front, now)
            && r.front == st.(candidates := r.front.candidates)
               && GraphIds(r.front.candidates) == GraphIds(st.candidates)
            && AllOf(r.observations, InGraph, GraphIds(st.candidates)) && Distinct(r.observations)
  {
    var cs := st.candidates;
    var idx, ms := Indices(cs, true, |cs|), CandidateMatches(cfg, cs, true, ds, used);
    CandidateMatchesFit(cfg, cs, true, ds, used);
    var after := Absorbed(cs, idx, ms, ds, now, |ms|);
    AbsorbKeepsIds(cs, idx, ms, ds, now, |ms|);
    AbsorbKeeps(cs, idx, ms, ds, now, |ms|, st.nextId, IdsOf(st));
    FitsAbsorbed(ms, idx, cs, after, ds);
    SameIdsSameGraph(cs, after);
    GraphObservationsName(after, idx, ms, ds);
  }

  lemma SameIdsSameGraph(cs: seq<Candidate>, after: seq<Candidate>)
    requires |cs| == |after| && forall i :: 0 <= i < |cs| ==> after[i].id == cs[i].id
    ensures GraphIds(after) == GraphIds(cs)
  {
    forall id | id in GraphIds(cs)
      ensures id in GraphIds(after)
    {
      var i :| 0 <= i < |cs| && cs[i].id == Some(id);
      assert after[i] in after;
    }
    forall id | id in GraphIds(after)
      ensures id in GraphIds(cs)
    {
      var i :| 0 <= i < |after| && after[i].id == Some(id);
      assert cs[i] in cs;
    }
  }

  /** The ids next, next + 1, ... in order, each announced as new. */
  ghost predicate Announces(obs: seq<Observation>, next: nat) {
    forall k :: 0 <= k < |obs| ==> obs[k].id == next + k && obs[k].status == New && obs[k].measurement.Some?
  }

  lemma ConfirmMatchedKeeps(cfg: Config, cs: seq<Candidate>, nextId: nat, car: Vec, now: nat, ds: seq<Detection>,
                            used: seq<bool>, mapIds: set<nat>)
    requires |used| == |ds| && nextId >= 1 && (forall id :: id in mapIds ==> id < nextId)
    requires Tracked(cs, nextId, mapIds, now) && PromotedDistinct(cs)
    ensures var r := ConfirmMatched(cfg, cs, nextId, car, now, ds, used);
            && Tracked(r.candidates, r.nextId, mapIds, now) && PromotedDistinct(r.candidates)
            && r.nextId == nextId + |r.observations| && Announces(r.observations, nextId)
  {
    var idx, ms := Indices(cs, false, |cs|), CandidateMatches(cfg, cs, false, ds, used);
    CandidateMatchesFit(cfg, cs, false, ds, used);
    var after := Absorbed(cs, idx, ms, ds, now, |ms|);
    AbsorbKeepsIds(cs, idx, ms, ds, now, |ms|);
    AbsorbKeeps(cs, idx, ms, ds, now, |ms|, nextId, mapIds);
    FitsAbsorbed(ms, idx, cs, after, ds);
    hide Indices, CandidateMatches, Absorbed, Confirmed, Tracked, PromotedDistinct;
    ConfirmKeeps(cfg, after, nextId, idx, ms, ds, car, |ms|);
    var r := Confirmed(cfg, after, nextId, idx, ms, ds, car, |ms|);
    ConfirmedKeepsTracked(after, nextId, idx, ms, |ms|, r, mapIds, now);
  }

  lemma UnconfirmedStageKeeps(cfg: Config, st: Front, pose: Pose, now: nat, ds: seq<Detection>, used: seq<bool>)
    requires SoundAt(st, now) && |used| == |ds|
    ensures var r := UnconfirmedStage(cfg, st, pose, now, ds, used);
            && SoundAt(r.front, now)
            && r.front == st.(candidates := r.front.candidates, nextId := st.nextId + |r.observations|)
            && Announces(r.observations, st.nextId)
  {
    hide ConfirmMatched, Announces;
    ConfirmMatchedKeeps(cfg, st.candidates, st.nextId, pose.Translation(), now, ds, used, IdsOf(st));
    var r := ConfirmMatched(cfg, st.candidates, st.nextId, pose.Translation(), now, ds, used);
    SoundWithCandidates(st, now, r.candidates, r.nextId);
    hide Sound;
  }

  lemma SoundWithCandidates(st: Front, now: nat, cs: seq<Candidate>, nextId: nat)
    requires SoundAt(st, now) && nextId >= st.nextId && Tracked(cs, nextId, IdsOf(st), now) && PromotedDistinct(cs)
    ensures SoundAt(st.(candidates := cs, nextId := nextId), now)
  {
    assert IdsOf(st.(candidates := cs, nextId := nextId)) == IdsOf(st);
  }

  /** What a frame's observations name: map landmarks, graph landmarks, then new ids, all distinct. */
  ghost predicate Names(m: Matching3, mapIds: set<nat>, graphIds: set<nat>, next: nat) {
    && AllOf(m.mapped.observations, InMap, mapIds) && Distinct(m.mapped.observations)
    && AllOf(m.graph.observations, InGraph, graphIds) && Distinct(m.graph.observations)
    && Announces(m.unconfirmed.observations, next)
  }

  lemma StagesKeep(cfg: Config, st: Front, pose: Pose, now: nat, ds: seq<Detection>)
    requires SoundAt(st, now)
    ensures var m := Stages(cfg, st, pose, now, ds);
            && SoundAt(m.unconfirmed.front, now)
            && m.unconfirmed.front.nextId == st.nextId + |m.unconfirmed.observations|
            && m.unconfirmed.front.map_state == st.map_state
            && m.unconfirmed.front.frameCount == st.frameCount
            && Names(m, IdsOf(st), GraphIds(st.candidates), st.nextId)
  {
    var m := MappedStage(cfg, st, pose, now, ds, NoneUsed(|ds|));
    MappedStageKeeps(cfg, st, pose, now, ds, NoneUsed(|ds|));
    var g := GraphStage(cfg, m.front, now, ds, m.used);
    hide MappedStage, SoundAt;
    GraphStageKeeps(cfg, m.front, now, ds, m.used);
    hide GraphStage;
    UnconfirmedStageKeeps(cfg, g.front, pose, now, ds, g.used);
  }

  lemma DistinctConcat(a: seq<Observation>, b: seq<Observation>)
    requires Distinct(a) && Distinct(b) && forall x, y :: x in a && y in b ==> x.id != y.id
    ensures Distinct(a + b)
  {
    var all := a + b;
    forall i, j | 0 <= i < j < |all|
      ensures all[i].id != all[j].id
    {
      if i < |a| <= j { assert all[i] in a && all[j] in b; }
    }
  }

  lemma AnnouncedAreDistinct(obs: seq<Observation>, next: nat)
    requires Announces(obs, next)
    ensures Distinct(obs) && forall o :: o in obs ==> o.id >= next
  {
  }

  lemma NamesAreDistinct(m: Matching3, mapIds: set<nat>, graphIds: set<nat>, next: nat)
    requires Names(m, mapIds, graphIds, next) && mapIds !! graphIds
    requires forall id :: id in mapIds + graphIds ==> id < next
    ensures Distinct(m.Observations())
  {
    var a, b, c := m.mapped.observations, m.graph.observations, m.unconfirmed.observations;
    AnnouncedAreDistinct(c, next);
    hide Distinct;
    DistinctConcat(a, b);
    forall x: Observation, y: Observation | x in a + b && y in c
      ensures x.id != y.id
    {
      assert x.id in mapIds + graphIds;
    }
    DistinctConcat(a + b, c);
  }

  /** Every frame keeps the frontend sound and numbers its new landmarks consecutively. */
  lemma ProcessKeepsSound(cfg: Config, st: Front, frame: ConeFrame)
    requires Sound(st)
    ensures Sound(Process(cfg, st, frame).front)
    ensures var p := Process(cfg, st, frame);
            if p.out.None? then p.front == st
            else
              var m := Stages(cfg, Entered(st, frame), frame.pose.value, frame.timestamp,
                              Usable(cfg, frame.pose.value, frame.detections, |frame.detections|));
              && p.out.value.observations == m.Observations() && Distinct(m.Observations())
              && p.out.value.timestamp == frame.timestamp
              && Names(m, IdsOf(st), GraphIds(st.candidates), st.nextId)
              && p.front.nextId == st.nextId + |m.unconfirmed.observations|
              && p.front.map_state == st.map_state && p.front.lastFrame == Some(frame.timestamp)
              && (st.lastFrame.Some? ==> frame.timestamp > st.lastFrame.value)
  {
    if Accepts(st, frame) {
      var pose, now := frame.pose.value, frame.timestamp;
      var ds := Usable(cfg, pose, frame.detections, |frame.detections|);
      EnteredIsSound(cfg, st, frame);
      StagesKeep(cfg, Entered(st, frame), pose, now, ds);
      var m := Stages(cfg, Entered(st, frame), pose, now, ds);
      GraphIdsAreTracked(st);
      NamesAreDistinct(m, IdsOf(st), GraphIds(st.candidates), st.nextId);
      hide Stages, Usable;
      FinishedIsSound(m, ds, pose.Translation(), now);
    }
  }

  lemma GraphIdsAreTracked(st: Front)
    requires Sound(st)
    ensures IdsOf(st) !! GraphIds(st.candidates)
    ensures forall id :: id in IdsOf(st) + GraphIds(st.candidates) ==> 1 <= id < st.nextId
  {
  }

  lemma FinishedIsSound(m: Matching3, ds: seq<Detection>, car: Vec, now: nat)
    requires |m.unconfirmed.used| == |ds| && SoundAt(m.unconfirmed.front, now)
    ensures SoundAt(Finished(m, ds, car, now), now)
  {
    var front := m.unconfirmed.front;
    SettledKeeps(front.candidates, ds, m.unconfirmed.used, car, now, front.nextId, IdsOf(front));
    var obs := m.Observations();
    RecordedKeeps(front.lastObserved, obs, front.frameCount, |obs|);
    hide Settled;
    var after := Finished(m, ds, car, now);
    assert after.lastObserved == Recorded(front.lastObserved, obs, front.frameCount, |obs|);
    hide Recorded;
  }
}
