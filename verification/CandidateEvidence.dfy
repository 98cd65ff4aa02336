/**
  What a candidate knows about the cone it stands for, over every run: its position is the mean of its
  detections, and it is confirmed only by evidence from separate vantage points.
*/
module CandidateEvidence {
  import Arithmetic
  import opened Frontend
  import opened FrontendInvariants
  import opened Matching
  import opened SlamTypes
  import opened Wrappers

  function SumX(zs: seq<Vec>): real { if zs == [] then 0.0 else SumX(zs[..|zs| - 1]) + zs[|zs| - 1].x }
  function SumY(zs: seq<Vec>): real { if zs == [] then 0.0 else SumY(zs[..|zs| - 1]) + zs[|zs| - 1].y }

  /** The position is exactly the mean of all detections matched to the candidate. */
  predicate IsMean(c: Candidate) {
    && c.count == |c.sightings| >= 1
    && c.position == Vec(SumX(c.sightings) / c.count as real, SumY(c.sightings) / c.count as real)
  }

  /** An unpromoted candidate is short of evidence, unless it has only just been created. */
  predicate IsPending(cfg: Config, c: Candidate) {
    c.id.None? ==> c.evidence < cfg.minEvidence || (c.count == 1 && c.evidence <= 1.0)
  }

  ghost predicate AreApart(baseline: real, vs: seq<Vec>) {
    forall i :: 0 < i < |vs| ==> AtLeastApart(vs[i], vs[i - 1], baseline)
  }

  /**
    The evidence was gathered from vantages among the places, each at least the baseline from the one before; the
    last is where the car was for the last evidence; and each gave at most 1.
  */
  ghost predicate IsGathered(cfg: Config, places: set<Vec>, c: Candidate) {
    && |c.vantages| >= 1 && c.vantages[|c.vantages| - 1] == c.evidencePosition
    && (forall v :: v in c.vantages ==> v in places)
    && AreApart(cfg.baseline, c.vantages)
    && c.evidence <= |c.vantages| as real
  }

  ghost predicate IsSound(cfg: Config, places: set<Vec>, c: Candidate) {
    IsMean(c) && IsPending(cfg, c) && IsGathered(cfg, places, c)
  }

  ghost predicate AllSound(cfg: Config, places: set<Vec>, cs: seq<Candidate>) {
    forall i :: 0 <= i < |cs| ==> IsSound(cfg, places, cs[i])
  }

  lemma MeanOfOneMore(n: real, x: real, sum: real, z: real)
    requires n > 0.0 && x == sum / n
    ensures (n * x + z) / (n + 1.0) == (sum + z) / (n + 1.0)
  {
  }

  lemma SightedIsMean(c: Candidate, z: Vec, now: nat)
    requires IsMean(c)
    ensures IsMean(Sighted(c, z, now))
  {
    var n, s := c.count as real, Sighted(c, z, now);
    assert s.sightings[..|s.sightings| - 1] == c.sightings;
    MeanOfOneMore(n, c.position.x, SumX(c.sightings), z.x);
    MeanOfOneMore(n, c.position.y, SumY(c.sightings), z.y);
    assert (c.count + 1) as real == n + 1.0;
  }

  lemma SightedIsGathered(cfg: Config, places: set<Vec>, c: Candidate, z: Vec, now: nat)
    requires IsGathered(cfg, places, c)
    ensures IsGathered(cfg, places, Sighted(c, z, now))
  {
    hide AreApart;
  }

  lemma OneMoreVantage(baseline: real, vs: seq<Vec>, v: Vec)
    requires AreApart(baseline, vs) && vs != [] && AtLeastApart(v, vs[|vs| - 1], baseline)
    ensures AreApart(baseline, vs + [v])
  {
    hide AtLeastApart;
  }

  lemma WithEvidenceIsGathered(cfg: Config, places: set<Vec>, c: Candidate, confidence: Confidence, car: Vec)
    requires IsGathered(cfg, places, c) && car in places
    ensures IsGathered(cfg, places, WithEvidence(cfg, c, confidence, car))
  {
    if AtLeastApart(car, c.evidencePosition, cfg.baseline) { OneMoreVantage(cfg.baseline, c.vantages, car); }
    hide AtLeastApart, AreApart;
    assert (|c.vantages| + 1) as real == |c.vantages| as real + 1.0;
  }

  // ------------------------------------------------------------------ confirmation

  /** A match promotes the candidate. */
  predicate Promotes(cfg: Config, c: Candidate, confidence: real, car: Vec) {
    WithEvidence(cfg, c, confidence, car).evidence >= cfg.minEvidence
  }

  /** The car is at least the baseline from the last evidence, and the evidence with this detection suffices. */
  predicate FromNewVantage(cfg: Config, c: Candidate, confidence: real, car: Vec) {
    AtLeastApart(car, c.evidencePosition, cfg.baseline) && c.evidence + confidence >= cfg.minEvidence
  }

  /** The detection that created the candidate was already enough. */
  predicate OneWasEnough(cfg: Config, c: Candidate) { c.count == 1 && cfg.minEvidence <= c.evidence <= 1.0 }

  /**
    Exactly when a match confirms a pending candidate: from a new vantage point, when the evidence with the
    detection's confidence suffices; otherwise only when the detection that created it already sufficed.
  */
  lemma PromotesIff(cfg: Config, c: Candidate, confidence: real, car: Vec)
    requires IsPending(cfg, c) && c.id.None?
    ensures Promotes(cfg, c, confidence, car) <==>
              if AtLeastApart(car, c.evidencePosition, cfg.baseline)
              then FromNewVantage(cfg, c, confidence, car) else OneWasEnough(cfg, c)
  {
  }

  predicate InGate(cfg: Config, d: Detection, c: Candidate) {
    SquaredDistance(d.odom, c.position) <= SquaredGate(cfg.candidateGate)
  }

  /** Detection d, in the gate of the unconfirmed candidate c, turns it into after, which o announces. */
  predicate IsConfirmed(cfg: Config, c: Candidate, after: Candidate, d: Detection, car: Vec, now: nat, o: Observation) {
    && c.id.None? && InGate(cfg, d, c) && Promotes(cfg, c, d.confidence, car)
    && after == WithEvidence(cfg, Sighted(c, d.odom, now), d.confidence, car).(id := Some(o.id))
    && o.measurement == Some(d.base)
  }

  /** o announces one of the candidates cs, which a detection of ds has turned into the one of r in its place. */
  ghost predicate ConfirmsOne(cfg: Config, cs: seq<Candidate>, r: seq<Candidate>, ds: seq<Detection>, car: Vec,
                              now: nat, o: Observation) {
    |r| == |cs| && exists i, l :: 0 <= i < |cs| && 0 <= l < |ds| && IsConfirmed(cfg, cs[i], r[i], ds[l], car, now, o)
  }

  // ------------------------------------------------------------------ one match after another

  /** The candidate and the detection of match k. */
  function Target(idx: seq<nat>, ms: seq<Link>, k: nat): nat
    requires k < |ms| && forall m :: m in ms ==> m.right < |idx|
  {
    assert ms[k] in ms;
    idx[ms[k].right]
  }

  function Seen(ms: seq<Link>, ds: seq<Detection>, k: nat): Detection
    requires k < |ms| && forall m :: m in ms ==> m.left < |ds|
  {
    assert ms[k] in ms;
    ds[ms[k].left]
  }

  /** The links fit, no two share a side, and idx lists each candidate once. */
  ghost predicate FitsOnce(ms: seq<Link>, idx: seq<nat>, cs: seq<Candidate>, ds: seq<Detection>) {
    Fits(ms, idx, cs, ds) && Disjoint(ms) && forall i, j :: 0 <= i < j < |idx| ==> idx[i] < idx[j]
  }

  lemma TargetsDiffer(ms: seq<Link>, idx: seq<nat>, cs: seq<Candidate>, ds: seq<Detection>, j: nat, k: nat)
    requires FitsOnce(ms, idx, cs, ds) && j < k < |ms|
    ensures Target(idx, ms, j) != Target(idx, ms, k) && Target(idx, ms, j) < |cs|
  {
    assert ms[j] in ms && ms[k] in ms && !Shares(ms[j], ms[k]);
    var a, b := ms[j].right, ms[k].right;
    assert a < b || b < a;
  }

  /** After n matches each matched candidate has absorbed its own detection, and no other has changed. */
  ghost predicate HaveAbsorbed(cs: seq<Candidate>, idx: seq<nat>, ms: seq<Link>, ds: seq<Detection>, now: nat, n: nat,
                               r: seq<Candidate>)
    requires Fits(ms, idx, cs, ds) && n <= |ms|
  {
    && |r| == |cs|
    && (forall k :: 0 <= k < n ==> r[Target(idx, ms, k)] == Sighted(cs[Target(idx, ms, k)], Seen(ms, ds, k).odom, now))
    && forall i :: 0 <= i < |cs| && !Named(idx, ms, n, i) ==> r[i] == cs[i]
  }

  lemma NamedNext(idx: seq<nat>, ms: seq<Link>, k: nat, i: nat)
    requires k < |ms| && forall m :: m in ms ==> m.right < |idx|
    ensures Named(idx, ms, k + 1, i) <==> Named(idx, ms, k, i) || i == Target(idx, ms, k)
  {
    if i == Target(idx, ms, k) { assert idx[ms[k].right] == i; }
  }

  lemma AbsorbNext(cs: seq<Candidate>, idx: seq<nat>, ms: seq<Link>, ds: seq<Detection>, now: nat, k: nat,
                   r: seq<Candidate>)
    requires FitsOnce(ms, idx, cs, ds) && k < |ms| && HaveAbsorbed(cs, idx, ms, ds, now, k, r)
    requires Target(idx, ms, k) < |cs| && !Named(idx, ms, k, Target(idx, ms, k))
    ensures var c := Target(idx, ms, k);
            HaveAbsorbed(cs, idx, ms, ds, now, k + 1, r[c := Sighted(r[c], Seen(ms, ds, k).odom, now)])
  {
    hide Sighted, Disjoint, Named;
    forall j | 0 <= j < k
      ensures Target(idx, ms, j) != Target(idx, ms, k) && Target(idx, ms, j) < |cs|
    {
      TargetsDiffer(ms, idx, cs, ds, j, k);
    }
    forall i | 0 <= i < |cs|
      ensures Named(idx, ms, k + 1, i) <==> Named(idx, ms, k, i) || i == Target(idx, ms, k)
    {
      NamedNext(idx, ms, k, i);
    }
  }

  lemma {:induction false} AbsorbedAre(cs: seq<Candidate>, idx: seq<nat>, ms: seq<Link>, ds: seq<Detection>, now: nat,
                                       n: nat)
    requires FitsOnce(ms, idx, cs, ds) && n <= |ms|
    ensures HaveAbsorbed(cs, idx, ms, ds, now, n, Absorbed(cs, idx, ms, ds, now, n))
  {
    hide HaveAbsorbed, Sighted;
    if n > 0 {
      AbsorbedAre(cs, idx, ms, ds, now, n - 1);
      NamedOnce(idx, ms, n - 1);
      AbsorbNext(cs, idx, ms, ds, now, n - 1, Absorbed(cs, idx, ms, ds, now, n - 1));
    } else {
      assert HaveAbsorbed(cs, idx, ms, ds, now, 0, cs) by { NothingAbsorbed(cs, idx, ms, ds, now); }
    }
  }

  lemma NothingAbsorbed(cs: seq<Candidate>, idx: seq<nat>, ms: seq<Link>, ds: seq<Detection>, now: nat)
    requires Fits(ms, idx, cs, ds)
    ensures HaveAbsorbed(cs, idx, ms, ds, now, 0, cs)
  {
  }

  /** A match weighs c to after: with the evidence it adds, and an id exactly when that is enough. */
  predicate WeighsTo(cfg: Config, c: Candidate, after: Candidate, d: Detection, car: Vec) {
    var w := WithEvidence(cfg, c, d.confidence, car);
    if w.evidence >= cfg.minEvidence then after.id.Some? && after == w.(id := after.id) else after == w
  }

  /** o announces the candidate of match k. */
  predicate AnnouncedBy(cfg: Config, cs: seq<Candidate>, idx: seq<nat>, ms: seq<Link>, ds: seq<Detection>, car: Vec,
                        k: nat, r: Confirming, o: Observation)
    requires k < |ms| && (forall m :: m in ms ==> m.left < |ds| && m.right < |idx|)
    requires Target(idx, ms, k) < |cs| == |r.candidates|
  {
    && Promotes(cfg, cs[Target(idx, ms, k)], Seen(ms, ds, k).confidence, car)
    && r.candidates[Target(idx, ms, k)].id == Some(o.id) && o.measurement == Some(Seen(ms, ds, k).base)
  }

  /**
    After n matches each matched candidate is weighed, no other has changed, and each observation announces one
    of them.
  */
  ghost predicate HaveWeighed(cfg: Config, cs: seq<Candidate>, idx: seq<nat>, ms: seq<Link>, ds: seq<Detection>,
                              car: Vec, n: nat, r: Confirming)
    requires Fits(ms, idx, cs, ds) && n <= |ms|
  {
    && |r.candidates| == |cs|
    && (forall k :: 0 <= k < n ==>
          WeighsTo(cfg, cs[Target(idx, ms, k)], r.candidates[Target(idx, ms, k)], Seen(ms, ds, k), car))
    && (forall i :: 0 <= i < |cs| && !Named(idx, ms, n, i) ==> r.candidates[i] == cs[i])
    && forall o :: o in r.observations ==> exists k :: 0 <= k < n && AnnouncedBy(cfg, cs, idx, ms, ds, car, k, r, o)
  }

  lemma WeighNext(cfg: Config, cs: seq<Candidate>, idx: seq<nat>, ms: seq<Link>, ds: seq<Detection>, car: Vec, k: nat,
                  s: Confirming)
    requires FitsOnce(ms, idx, cs, ds) && k < |ms| && HaveWeighed(cfg, cs, idx, ms, ds, car, k, s)
    requires Target(idx, ms, k) < |cs| && !Named(idx, ms, k, Target(idx, ms, k))
    ensures HaveWeighed(cfg, cs, idx, ms, ds, car, k + 1, ConfirmOne(cfg, s, Target(idx, ms, k), Seen(ms, ds, k), car))
  {
    hide Disjoint, Named, WithEvidence, Target, Seen;
    forall j | 0 <= j < k
      ensures Target(idx, ms, j) != Target(idx, ms, k) && Target(idx, ms, j) < |cs|
    {
      TargetsDiffer(ms, idx, cs, ds, j, k);
    }
    forall i | 0 <= i < |cs|
      ensures Named(idx, ms, k + 1, i) <==> Named(idx, ms, k, i) || i == Target(idx, ms, k)
    {
      NamedNext(idx, ms, k, i);
    }
    var r := ConfirmOne(cfg, s, Target(idx, ms, k), Seen(ms, ds, k), car);
    forall o | o in r.observations
      ensures exists j :: 0 <= j < k + 1 && AnnouncedBy(cfg, cs, idx, ms, ds, car, j, r, o)
    {
      if o in s.observations {
        var j :| 0 <= j < k && AnnouncedBy(cfg, cs, idx, ms, ds, car, j, s, o);
        assert AnnouncedBy(cfg, cs, idx, ms, ds, car, j, r, o);
      } else {
        assert AnnouncedBy(cfg, cs, idx, ms, ds, car, k, r, o);
      }
    }
  }

  lemma {:induction false} ConfirmedAre(cfg: Config, cs: seq<Candidate>, next: nat, idx: seq<nat>, ms: seq<Link>,
                                        ds: seq<Detection>, car: Vec, n: nat)
    requires FitsOnce(ms, idx, cs, ds) && n <= |ms|
    ensures HaveWeighed(cfg, cs, idx, ms, ds, car, n, Confirmed(cfg, cs, next, idx, ms, ds, car, n))
  {
    hide HaveWeighed, ConfirmOne;
    if n > 0 {
      ConfirmedAre(cfg, cs, next, idx, ms, ds, car, n - 1);
      NamedOnce(idx, ms, n - 1);
      WeighNext(cfg, cs, idx, ms, ds, car, n - 1, Confirmed(cfg, cs, next, idx, ms, ds, car, n - 1));
    } else {
      NothingWeighed(cfg, cs, next, idx, ms, ds, car);
    }
  }

  lemma NothingWeighed(cfg: Config, cs: seq<Candidate>, next: nat, idx: seq<nat>, ms: seq<Link>, ds: seq<Detection>,
                       car: Vec)
    requires Fits(ms, idx, cs, ds)
    ensures HaveWeighed(cfg, cs, idx, ms, ds, car, 0, Confirming(cs, next, []))
  {
  }

  // ------------------------------------------------------------------ the stages

  lemma NamedBy(idx: seq<nat>, ms: seq<Link>, n: nat, i: nat) returns (k: nat)
    requires n <= |ms| && (forall m :: m in ms ==> m.right < |idx|) && Named(idx, ms, n, i)
    ensures k < n && Target(idx, ms, k) == i
  {
    k :| 0 <= k < n && (assert ms[k] in ms; idx[ms[k].right] == i);
  }

  lemma SightedIsSound(cfg: Config, places: set<Vec>, c: Candidate, z: Vec, now: nat)
    requires IsSound(cfg, places, c) && c.id.Some?
    ensures IsSound(cfg, places, Sighted(c, z, now))
  {
    SightedIsMean(c, z, now);
    SightedIsGathered(cfg, places, c, z, now);
    hide IsMean, IsGathered;
  }

  lemma GraphStageKeepsSound(cfg: Config, places: set<Vec>, st: Front, now: nat, ds: seq<Detection>, used: seq<bool>)
    requires |used| == |ds| && AllSound(cfg, places, st.candidates)
    ensures var r := GraphStage(cfg, st, now, ds, used).front.candidates;
            && AllSound(cfg, places, r) && |r| == |st.candidates|
            && forall i :: 0 <= i < |r| && r[i].id.None? ==> r[i] == st.candidates[i]
  {
    var cs := st.candidates;
    var idx, ms := Indices(cs, true, |cs|), CandidateMatches(cfg, cs, true, ds, used);
    CandidateMatchesFit(cfg, cs, true, ds, used);
    AbsorbedAre(cs, idx, ms, ds, now, |ms|);
    var after := Absorbed(cs, idx, ms, ds, now, |ms|);
    hide Indices, CandidateMatches, Absorbed, IsSound, Sighted, Named, Disjoint;
    forall i | 0 <= i < |after|
      ensures IsSound(cfg, places, after[i])
      ensures after[i].id.None? ==> after[i] == cs[i]
    {
      if Named(idx, ms, |ms|, i) {
        var k := NamedBy(idx, ms, |ms|, i);
        MatchedIsPromoted(cs, idx, ms, k);
        SightedIsSound(cfg, places, cs[i], Seen(ms, ds, k).odom, now);
        SightedKeepsId(cs[i], Seen(ms, ds, k).odom, now);
      }
    }
  }

  lemma MatchedIsPromoted(cs: seq<Candidate>, idx: seq<nat>, ms: seq<Link>, k: nat)
    requires k < |ms| && (forall m :: m in ms ==> m.right < |idx|) && forall i :: 0 <= i < |idx| ==>
               idx[i] < |cs| && cs[idx[i]].id.Some?
    ensures Target(idx, ms, k) < |cs| && cs[Target(idx, ms, k)].id.Some?
  {
  }

  lemma MatchedIsUnconfirmed(cs: seq<Candidate>, idx: seq<nat>, ms: seq<Link>, k: nat)
    requires k < |ms| && (forall m :: m in ms ==> m.right < |idx|) && forall i :: 0 <= i < |idx| ==>
               idx[i] < |cs| && cs[idx[i]].id.None?
    ensures Target(idx, ms, k) < |cs| && cs[Target(idx, ms, k)].id.None?
  {
  }

  lemma SightedKeepsId(c: Candidate, z: Vec, now: nat)
    ensures Sighted(c, z, now).id == c.id
  {
  }

  lemma IdIsNoEvidence(cfg: Config, places: set<Vec>, c: Candidate, id: Option<nat>)
    requires IsGathered(cfg, places, c)
    ensures IsGathered(cfg, places, c.(id := id))
  {
    hide AreApart;
  }

  /** Weighing changes evidence and id only, and gives an id exactly when it promotes. */
  lemma WeighedIs(cfg: Config, c: Candidate, after: Candidate, d: Detection, car: Vec)
    requires WeighsTo(cfg, c, after, d, car) && c.id.None?
    ensures after == WithEvidence(cfg, c, d.confidence, car).(id := after.id)
    ensures after.position == c.position && after.count == c.count && after.sightings == c.sightings
    ensures after.id.Some? <==> Promotes(cfg, c, d.confidence, car)
    ensures IsPending(cfg, after)
  {
    hide AtLeastApart;
  }

  lemma SameMean(c: Candidate, d: Candidate)
    requires c.position == d.position && c.count == d.count && c.sightings == d.sightings && IsMean(c)
    ensures IsMean(d)
  {
  }

  lemma SightedPromotes(cfg: Config, c: Candidate, z: Vec, now: nat, confidence: real, car: Vec)
    ensures Promotes(cfg, Sighted(c, z, now), confidence, car) <==> Promotes(cfg, c, confidence, car)
  {
    hide AtLeastApart;
  }

  /** What a match makes of an unconfirmed candidate. */
  lemma WeighedIsSound(cfg: Config, places: set<Vec>, c: Candidate, after: Candidate, d: Detection, car: Vec, now: nat)
    requires IsSound(cfg, places, c) && c.id.None? && car in places
    requires WeighsTo(cfg, Sighted(c, d.odom, now), after, d, car)
    ensures IsSound(cfg, places, after)
    ensures after.id.Some? ==> FromNewVantage(cfg, c, d.confidence, car) || OneWasEnough(cfg, c)
  {
    hide IsMean, IsPending, IsGathered, WeighsTo, Sighted, WithEvidence, Promotes, FromNewVantage, OneWasEnough,
         AtLeastApart;
    var sighted := Sighted(c, d.odom, now);
    SightedKeepsId(c, d.odom, now);
    WeighedIs(cfg, sighted, after, d, car);
    SightedIsMean(c, d.odom, now);
    SameMean(sighted, after);
    SightedIsGathered(cfg, places, c, d.odom, now);
    WithEvidenceIsGathered(cfg, places, sighted, d.confidence, car);
    IdIsNoEvidence(cfg, places, WithEvidence(cfg, sighted, d.confidence, car), after.id);
    SightedPromotes(cfg, c, d.odom, now, d.confidence, car);
    PromotesIff(cfg, c, d.confidence, car);
  }

  lemma ConfirmsMatch(cfg: Config, c: Candidate, after: Candidate, d: Detection, car: Vec, now: nat, o: Observation)
    requires c.id.None? && InGate(cfg, d, c) && WeighsTo(cfg, Sighted(c, d.odom, now), after, d, car)
    requires Promotes(cfg, Sighted(c, d.odom, now), d.confidence, car) && after.id == Some(o.id)
             && o.measurement == Some(d.base)
    ensures IsConfirmed(cfg, c, after, d, car, now, o)
  {
    hide AtLeastApart, InGate;
  }

  lemma MatchIsInGate(cfg: Config, cs: seq<Candidate>, promoted: bool, ds: seq<Detection>, used: seq<bool>, k: nat)
    requires |used| == |ds| && k < |CandidateMatches(cfg, cs, promoted, ds, used)|
    ensures var m, idx := CandidateMatches(cfg, cs, promoted, ds, used)[k], Indices(cs, promoted, |cs|);
            m.left < |ds| && m.right < |idx| && InGate(cfg, ds[m.left], cs[idx[m.right]])
  {
    var idx := Indices(cs, promoted, |cs|);
    MatchesAreSound(CandidateTable(cs, idx, ds), used, UpTo(SquaredGate(cfg.candidateGate)));
    hide SquaredDistance, SquaredGate, Matches;
    assert CandidateMatches(cfg, cs, promoted, ds, used)[k] in CandidateMatches(cfg, cs, promoted, ds, used);
  }

  lemma ConfirmMatchedIs(cfg: Config, cs: seq<Candidate>, nextId: nat, car: Vec, now: nat, ds: seq<Detection>,
                         used: seq<bool>)
    returns (after: seq<Candidate>)
    requires |used| == |ds|
    ensures var idx, ms := Indices(cs, false, |cs|), CandidateMatches(cfg, cs, false, ds, used);
            && Fits(ms, idx, cs, ds) && HaveAbsorbed(cs, idx, ms, ds, now, |ms|, after)
            && Fits(ms, idx, after, ds)
            && HaveWeighed(cfg, after, idx, ms, ds, car, |ms|, ConfirmMatched(cfg, cs, nextId, car, now, ds, used))
  {
    hide CandidateMatches, HaveAbsorbed, HaveWeighed, Absorbed, Confirmed;
    var idx, ms := Indices(cs, false, |cs|), CandidateMatches(cfg, cs, false, ds, used);
    CandidateMatchesFit(cfg, cs, false, ds, used);
    hide Indices;
    AbsorbedAre(cs, idx, ms, ds, now, |ms|);
    after := Absorbed(cs, idx, ms, ds, now, |ms|);
    FitsAbsorbed(ms, idx, cs, after, ds);
    ConfirmedAre(cfg, after, nextId, idx, ms, ds, car, |ms|);
  }

  /**
    A frame's matches to unconfirmed candidates keep them sound, and promote one only from a new vantage
    point or when one detection was enough.
  */
  lemma ConfirmMatchedKeepsSound(cfg: Config, places: set<Vec>, cs: seq<Candidate>, nextId: nat, car: Vec, now: nat,
                                 ds: seq<Detection>, used: seq<bool>)
    requires |used| == |ds| && AllSound(cfg, places, cs) && car in places
    ensures var r := ConfirmMatched(cfg, cs, nextId, car, now, ds, used).candidates;
            && AllSound(cfg, places, r) && |r| == |cs|
            && forall i :: 0 <= i < |cs| && r[i].id != cs[i].id ==>
                 AtLeastApart(car, cs[i].evidencePosition, cfg.baseline) || OneWasEnough(cfg, cs[i])
  {
    hide Indices, CandidateMatches, ConfirmMatched, IsSound, AtLeastApart, WeighsTo, Sighted, Named, AnnouncedBy,
         OneWasEnough;
    var after := ConfirmMatchedIs(cfg, cs, nextId, car, now, ds, used);
    var idx, ms := Indices(cs, false, |cs|), CandidateMatches(cfg, cs, false, ds, used);
    var r := ConfirmMatched(cfg, cs, nextId, car, now, ds, used).candidates;
    forall i | 0 <= i < |cs|
      ensures IsSound(cfg, places, r[i])
      ensures r[i].id != cs[i].id ==>
                AtLeastApart(car, cs[i].evidencePosition, cfg.baseline) || OneWasEnough(cfg, cs[i])
    {
      if Named(idx, ms, |ms|, i) {
        var k := NamedBy(idx, ms, |ms|, i);
        MatchedIsUnconfirmed(cs, idx, ms, k);
        WeighedIsSound(cfg, places, cs[i], r[i], Seen(ms, ds, k), car, now);
      }
    }
  }

  /** Every observation of the stage announces a candidate that one of the detections has confirmed. */
  lemma ConfirmMatchedAnnounces(cfg: Config, cs: seq<Candidate>, nextId: nat, car: Vec, now: nat, ds: seq<Detection>,
                                used: seq<bool>, o: Observation)
    requires |used| == |ds| && o in ConfirmMatched(cfg, cs, nextId, car, now, ds, used).observations
    ensures ConfirmsOne(cfg, cs, ConfirmMatched(cfg, cs, nextId, car, now, ds, used).candidates, ds, car, now, o)
  {
    hide Indices, CandidateMatches, ConfirmMatched, WeighsTo, Sighted, Named, Promotes, IsConfirmed, InGate;
    var after := ConfirmMatchedIs(cfg, cs, nextId, car, now, ds, used);
    var idx, ms := Indices(cs, false, |cs|), CandidateMatches(cfg, cs, false, ds, used);
    var r := ConfirmMatched(cfg, cs, nextId, car, now, ds, used);
    var k :| 0 <= k < |ms| && AnnouncedBy(cfg, after, idx, ms, ds, car, k, r, o);
    MatchedIsUnconfirmed(cs, idx, ms, k);
    var i := Target(idx, ms, k);
    MatchIsInGate(cfg, cs, false, ds, used, k);
    ConfirmsMatch(cfg, cs[i], r.candidates[i], Seen(ms, ds, k), car, now, o);
    assert ms[k] in ms && IsConfirmed(cfg, cs[i], r.candidates[i], ds[ms[k].left], car, now, o);
  }

  // ------------------------------------------------------------------ whole frames

  lemma UsableConfidence(cfg: Config, pose: Pose, ds: seq<ConeDetection>, n: nat)
    requires n <= |ds|
    ensures forall d :: d in Usable(cfg, pose, ds, n) ==> cfg.minConfidence <= d.confidence
  {
  }

  lemma OneSightingIsMean(c: Candidate, p: Vec)
    requires c.position == p && c.count == 1 && c.sightings == [p]
    ensures IsMean(c)
  {
    assert [p][..0] == [];
    assert SumX([p]) == p.x && SumY([p]) == p.y;
  }

  lemma {:induction false} SpawnedAreSound(cfg: Config, places: set<Vec>, ds: seq<Detection>, used: seq<bool>, car: Vec,
                                           now: nat, n: nat)
    requires n <= |ds| == |used| && car in places
    ensures AllSound(cfg, places, Spawned(ds, used, car, now, n))
  {
    if n > 0 {
      SpawnedAreSound(cfg, places, ds, used, car, now, n - 1);
      OneSightingIsMean(CandidateOf(ds[n - 1], car, now), ds[n - 1].odom);
    }
  }

  lemma {:induction false} PrunedAreSound(cfg: Config, places: set<Vec>, cs: seq<Candidate>, now: nat, n: nat)
    requires n <= |cs| && AllSound(cfg, places, cs)
    ensures AllSound(cfg, places, Pruned(cs, now, n))
  {
    if n > 0 { PrunedAreSound(cfg, places, cs, now, n - 1); }
  }

  lemma {:induction false} UnmappedAreSound(cfg: Config, places: set<Vec>, cs: seq<Candidate>, ids: set<nat>, n: nat)
    requires n <= |cs| && AllSound(cfg, places, cs)
    ensures AllSound(cfg, places, Unmapped(cs, ids, n))
  {
    if n > 0 { UnmappedAreSound(cfg, places, cs, ids, n - 1); }
  }

  /**
    Every frame keeps every candidate's position the mean of its detections, its evidence in order, and gathered
    where the car was.
  */
  lemma ProcessKeepsCandidatesSound(cfg: Config, places: set<Vec>, st: Front, frame: ConeFrame)
    requires MapIsFinite(st) && AllSound(cfg, places, st.candidates)
    requires frame.pose.Some? ==> frame.pose.value.Translation() in places
    ensures AllSound(cfg, places, Process(cfg, st, frame).front.candidates)
  {
    if Accepts(st, frame) {
      var pose, now := frame.pose.value, frame.timestamp;
      var ds := Usable(cfg, pose, frame.detections, |frame.detections|);
      hide Usable;
      StagesKeepSound(cfg, places, Entered(st, frame), pose, now, ds);
      var m := Stages(cfg, Entered(st, frame), pose, now, ds);
      hide Stages;
      SettledAreSound(cfg, places, m.unconfirmed.front.candidates, ds, m.unconfirmed.used, pose.Translation(), now);
      hide Settled;
    }
  }

  /** The stages keep the candidates sound, and what they announce are unconfirmed candidates they were given. */
  lemma StagesKeepSound(cfg: Config, places: set<Vec>, st: Front, pose: Pose, now: nat, ds: seq<Detection>)
    requires MapIsFinite(st) && AllSound(cfg, places, st.candidates) && pose.Translation() in places
    ensures var u := Stages(cfg, st, pose, now, ds).unconfirmed;
            && AllSound(cfg, places, u.front.candidates)
            && forall o :: o in u.observations ==>
                 ConfirmsOne(cfg, st.candidates, u.front.candidates, ds, pose.Translation(), now, o)
  {
    var m := MappedStage(cfg, st, pose, now, ds, NoneUsed(|ds|));
    MappedStageKeepsCandidates(cfg, st, pose, now, ds, NoneUsed(|ds|));
    hide MappedStage, AllSound, ConfirmsOne;
    GraphStageKeepsSound(cfg, places, m.front, now, ds, m.used);
    var g := GraphStage(cfg, m.front, now, ds, m.used);
    hide GraphStage;
    ConfirmMatchedKeepsSound(cfg, places, g.front.candidates, g.front.nextId, pose.Translation(), now, ds, g.used);
    var r := ConfirmMatched(cfg, g.front.candidates, g.front.nextId, pose.Translation(), now, ds, g.used);
    hide ConfirmMatched;
    forall o | o in r.observations
      ensures ConfirmsOne(cfg, st.candidates, r.candidates, ds, pose.Translation(), now, o)
    {
      ConfirmMatchedAnnounces(cfg, g.front.candidates, g.front.nextId, pose.Translation(), now, ds, g.used, o);
      ConfirmsOneBefore(cfg, st.candidates, g.front.candidates, r.candidates, ds, pose.Translation(), now, o);
    }
  }

  lemma ConfirmsOneBefore(cfg: Config, before: seq<Candidate>, cs: seq<Candidate>, r: seq<Candidate>,
                          ds: seq<Detection>, car: Vec, now: nat, o: Observation)
    requires |before| == |cs| && forall i :: 0 <= i < |cs| && cs[i].id.None? ==> cs[i] == before[i]
    requires ConfirmsOne(cfg, cs, r, ds, car, now, o)
    ensures ConfirmsOne(cfg, before, r, ds, car, now, o)
  {
    var i, l :| 0 <= i < |cs| && 0 <= l < |ds| && IsConfirmed(cfg, cs[i], r[i], ds[l], car, now, o);
    assert cs[i] == before[i];
    hide Promotes, WithEvidence;
  }

  lemma MappedStageKeepsCandidates(cfg: Config, st: Front, pose: Pose, now: nat, ds: seq<Detection>, used: seq<bool>)
    requires MapIsFinite(st) && |used| == |ds|
    ensures MappedStage(cfg, st, pose, now, ds, used).front.candidates == st.candidates
  {
  }

  lemma SettledAreSound(cfg: Config, places: set<Vec>, cs: seq<Candidate>, ds: seq<Detection>, used: seq<bool>,
                        car: Vec, now: nat)
    requires |ds| == |used| && AllSound(cfg, places, cs) && car in places
    ensures AllSound(cfg, places, Settled(cs, ds, used, car, now))
  {
    var spawned := Spawned(ds, used, car, now, |ds|);
    SpawnedAreSound(cfg, places, ds, used, car, now, |ds|);
    hide IsSound;
    assert AllSound(cfg, places, cs + spawned);
    PrunedAreSound(cfg, places, cs + spawned, now, |cs + spawned|);
  }

  /** A map the frontend takes only removes candidates. */
  lemma WithMapKeepsCandidatesSound(cfg: Config, places: set<Vec>, st: Front, m: MapState)
    requires AllSound(cfg, places, st.candidates)
    ensures AllSound(cfg, places, WithMap(st, m).candidates)
  {
    if AcceptsMap(st, m) { UnmappedAreSound(cfg, places, st.candidates, MapIds(m.landmarks), |st.candidates|); }
  }

  // ------------------------------------------------------------------ ages and gates

  /** In a sound state no candidate is newer than the frame, so its age does not wrap around. */
  lemma AgesDoNotUnderflow(st: Front, c: Candidate, now: nat)
    requires Sound(st) && c in st.candidates && now >= st.lastFrame.value && now <= U64_MAX
    ensures Age(c, now) == now - c.lastSeen >= 0
  {
  }

  /** The longest a candidate of this kind may go unseen. */
  function MaxAge(c: Candidate): nat { if c.id.Some? then IN_GRAPH_MAX_AGE_NS else UNCONFIRMED_MAX_AGE_NS }

  /** Pruning keeps exactly the candidates seen recently enough: within 3 s, or within 1 s once in the graph. */
  lemma {:induction false} PrunedIff(cs: seq<Candidate>, now: nat, n: nat, c: Candidate)
    requires n <= |cs| && now <= U64_MAX && forall d :: d in cs ==> d.lastSeen <= now
    ensures c in Pruned(cs, now, n) <==> c in cs[..n] && now - c.lastSeen <= MaxAge(c)
  {
    hide IsStale, MaxAge;
    if n > 0 {
      PrunedIff(cs, now, n - 1, c);
      assert cs[n - 1] in cs;
      StaleIff(cs[n - 1], now);
      assert c in cs[..n] <==> c in cs[..n - 1] || c == cs[n - 1] by { assert cs[..n] == cs[..n - 1] + [cs[n - 1]]; }
    }
  }

  lemma StaleIff(c: Candidate, now: nat)
    requires c.lastSeen <= now <= U64_MAX
    ensures IsStale(c, now) <==> now - c.lastSeen > MaxAge(c)
  {
  }

  /** Comparing squares is comparing distances. */
  lemma SquaredGateIsGate(distance: real, p: Vec, q: Vec, g: real)
    requires distance >= 0.0 && distance * distance == SquaredDistance(p, q)
    ensures SquaredDistance(p, q) <= SquaredGate(g) <==> distance <= g
    ensures AtLeastApart(p, q, g) <==> distance >= g
  {
    hide SquaredDistance;
    CompareSquares(distance, g);
  }

  lemma CompareSquares(x: real, y: real)
    requires x >= 0.0
    ensures y >= 0.0 ==> (x * x <= y * y <==> x <= y)
    ensures y >= 0.0 ==> (x * x >= y * y <==> x >= y)
    ensures x * x >= 0.0
  {
    if 0.0 <= x < y { Arithmetic.SquareOrder(x, y); }
    if 0.0 <= y < x { Arithmetic.SquareOrder(y, x); }
  }
}
