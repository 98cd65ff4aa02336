/**
  The cone classifier: detections of each camera are matched one-to-one to cones, closest pairs first, and
  of all cameras that see a cone the most confident one colours it.

  Main results: per camera the matches are the unique stable matching of the pairs in the gate
  (CameraMatchingIsStable); a cone ends with the colour of its best-scored match, the first such in camera
  order, and keeps its own when no match scores above 0 (ConeTakesBestMatch).
*/
module ConeClassifier {
  import opened Matching
  import Sequences
  import opened Wrappers

  datatype Position = Position(x: real, y: real)

  datatype Cone = Cone(position: Position, color: nat, confidence: real)

  /** Where a camera's detection lies in the ground plane, with what the detector says of it. */
  datatype Detection = Detection(position: Position, color: nat, score: real)

  const MATCH_DISTANCE_M := 0.75

  /** The squared distances below the square of the limit. */
  const GATE := Below(MATCH_DISTANCE_M * MATCH_DISTANCE_M)

  function SquaredDistance(p: Position, q: Position): real { (q.x - p.x) * (q.x - p.x) + (q.y - p.y) * (q.y - p.y) }

  /** The distances of every cone to every detection. */
  function Table(cones: seq<Cone>, placed: seq<Detection>): (t: seq<seq<real>>)
    ensures |t| == |cones| && forall i :: 0 <= i < |t| ==> |t[i]| == |placed|
  {
    seq(|cones|, i requires 0 <= i < |cones| =>
      seq(|placed|, j requires 0 <= j < |placed| => SquaredDistance(cones[i].position, placed[j].position)))
  }

  /** The matches of one camera; left is the cone, right the detection. */
  function CameraMatches(cones: seq<Cone>, placed: seq<Detection>): seq<Link> {
    Matches(Table(cones, placed), NoneUsed(|cones|), GATE)
  }

  /** A cone and the score it was coloured with. */
  datatype Entry = Entry(cone: Cone, best: real)

  function Recolored(e: Entry, d: Detection): Entry {
    if d.score > e.best then Entry(e.cone.(color := d.color, confidence := d.score), d.score) else e
  }

  /** The entries after the given matches have been applied in order. */
  ghost function Applied(entries: seq<Entry>, placed: seq<Detection>, ms: seq<Link>): (r: seq<Entry>)
    requires LinksFit(ms, |entries|, |placed|)
    ensures |r| == |entries|
    decreases |ms|
  {
    if ms == [] then entries
    else
      var m := ms[|ms| - 1];
      assert m in ms;
      var r := Applied(entries, placed, ms[..|ms| - 1]);
      r[m.left := Recolored(r[m.left], placed[m.right])]
  }

  function ConesOf(entries: seq<Entry>): (cones: seq<Cone>)
    ensures |cones| == |entries|
  {
    seq(|entries|, i requires 0 <= i < |entries| => entries[i].cone)
  }

  lemma CameraMatchesFit(cones: seq<Cone>, placed: seq<Detection>)
    ensures LinksFit(CameraMatches(cones, placed), |cones|, |placed|) && Disjoint(CameraMatches(cones, placed))
  {
    MatchesAreSound(Table(cones, placed), NoneUsed(|cones|), GATE);
  }

  ghost function AfterCamera(entries: seq<Entry>, placed: seq<Detection>): (r: seq<Entry>)
    ensures |r| == |entries|
  {
    CameraMatchesFit(ConesOf(entries), placed);
    Applied(entries, placed, CameraMatches(ConesOf(entries), placed))
  }

  /** The entries after the first n cameras. */
  ghost function AfterCameras(entries: seq<Entry>, cameras: seq<seq<Detection>>, n: nat): (r: seq<Entry>)
    requires n <= |cameras|
    ensures |r| == |entries|
  {
    if n == 0 then entries else AfterCamera(AfterCameras(entries, cameras, n - 1), cameras[n - 1])
  }

  function Unscored(cones: seq<Cone>): (r: seq<Entry>)
    ensures |r| == |cones|
  {
    seq(|cones|, i requires 0 <= i < |cones| => Entry(cones[i], 0.0))
  }

  // ------------------------------------------------------------------ the loops

  ghost function Entries(cones: seq<Cone>, best: seq<real>): (r: seq<Entry>)
    requires |cones| == |best|
    ensures |r| == |cones|
  {
    seq(|cones|, i requires 0 <= i < |cones| => Entry(cones[i], best[i]))
  }

  method CollectPairs(cones: seq<Cone>, placed: seq<Detection>) returns (pairs: seq<Link>)
    ensures pairs == TableLinks(Table(cones, placed), NoneUsed(|cones|), |cones|, GATE)
  {
    hide SquaredDistance, NoneUsed, RowLinks;
    ghost var table := Table(cones, placed);
    pairs := [];
    for i := 0 to |cones|
      invariant pairs == TableLinks(table, NoneUsed(|cones|), i, GATE)
    {
      var row := CollectRow(cones[i].position, i, placed, table[i]);
      TableLinksNext(table, NoneUsed(|cones|), i, GATE);
      NoneUsedAt(|cones|, i);
      pairs := pairs + row;
    }
  }

  lemma NoneUsedAt(n: nat, i: nat)
    requires i < n
    ensures !NoneUsed(n)[i]
  {
  }

  /** The inner loop: the pairs of one cone. */
  method CollectRow(position: Position, i: nat, placed: seq<Detection>, ghost row: seq<real>) returns (pairs: seq<Link>)
    requires |row| == |placed| && forall j :: 0 <= j < |row| ==> row[j] == SquaredDistance(position, placed[j].position)
    ensures pairs == RowLinks(row, i, |row|, GATE)
  {
    hide SquaredDistance;
    pairs := [];
    for j := 0 to |placed|
      invariant pairs == RowLinks(row, i, j, GATE)
    {
      var dist := SquaredDistance(position, placed[j].position);
      if dist < MATCH_DISTANCE_M * MATCH_DISTANCE_M {
        pairs := pairs + [Link(dist, i, j)];
      }
    }
  }

  method ColorCone(cones: array<Cone>, best: array<real>, i: nat, d: Detection)
    requires i < cones.Length == best.Length
    modifies cones, best
    ensures Entries(cones[..], best[..])
      == var e := old(Entries(cones[..], best[..])); e[i := Recolored(e[i], d)]
  {
    if d.score > best[i] {
      best[i] := d.score;
      cones[i] := cones[i].(color := d.color, confidence := d.score);
    }
  }

  /** One camera: matches its detections, and colours each matched cone if the score is better. */
  method ClassifyCamera(cones: array<Cone>, best: array<real>, placed: seq<Detection>)
    requires cones.Length == best.Length
    modifies cones, best
    ensures Entries(cones[..], best[..]) == AfterCamera(Entries(old(cones[..]), old(best[..])), placed)
  {
    hide Table, TableLinks, Sorted, Greedy, Applied, AfterCamera, Entries, LinksFit, CameraMatches, NoneUsed, ConesOf;
    ghost var was, before := cones[..], Entries(cones[..], best[..]);
    var pairs := CollectPairs(cones[..], placed);
    PairsFit(was, placed);
    pairs := Sorted(pairs);
    ColorMatches(cones, best, placed, pairs);
    AreCameraMatches(was, placed, Greedy(pairs, {}, {}), pairs);
    EntriesHoldCones(was, old(best[..]));
    IsAfterCamera(was, before, placed, Greedy(pairs, {}, {}));
  }

  /** The pairs in order, each skipped if its cone or its detection is used; the others colour their cone. */
  method ColorMatches(cones: array<Cone>, best: array<real>, placed: seq<Detection>, pairs: seq<Link>)
    requires cones.Length == best.Length && LinksFit(pairs, cones.Length, |placed|)
    modifies cones, best
    ensures LinksFit(Greedy(pairs, {}, {}), cones.Length, |placed|)
    ensures Entries(cones[..], best[..])
         == Applied(Entries(old(cones[..]), old(best[..])), placed, Greedy(pairs, {}, {}))
  {
    hide Greedy, Applied, Marks, Entries, LinksFit, Recolored;
    ghost var before := Entries(cones[..], best[..]);
    var coneUsed := new bool[cones.Length](_ => false);
    var detUsed := new bool[|placed|](_ => false);
    ghost var matches: seq<Link> := [];
    ghost var lefts: set<nat>, rights: set<nat> := {}, {};
    NothingMarked(coneUsed[..]);
    NothingMarked(detUsed[..]);
    NothingApplied(before, placed);
    GreedyStarts(pairs, {});
    for k := 0 to |pairs|
      invariant Marks(coneUsed[..], lefts) && Marks(detUsed[..], rights)
      invariant matches + Greedy(pairs[k..], lefts, rights) == Greedy(pairs, {}, {})
      invariant LinksFit(matches, |before|, |placed|)
      invariant Entries(cones[..], best[..]) == Applied(before, placed, matches)
    {
      var pair := pairs[k];
      LinkFits(pairs, k, cones.Length, |placed|);
      GreedyStep(pairs, k, lefts, rights);
      MarksOneMore(coneUsed[..], lefts, pair.left);
      MarksOneMore(detUsed[..], rights, pair.right);
      if coneUsed[pair.left] || detUsed[pair.right] { continue; }
      coneUsed[pair.left], detUsed[pair.right] := true, true;
      AppliedNext(before, placed, matches, pair);
      lefts, rights := lefts + {pair.left}, rights + {pair.right};
      matches := matches + [pair];
      ColorCone(cones, best, pair.left, placed[pair.right]);
    }
    GreedyEnds(pairs, matches, lefts, rights, Greedy(pairs, {}, {}));
  }

  lemma PairsFit(cones: seq<Cone>, placed: seq<Detection>)
    ensures LinksFit(Sorted(TableLinks(Table(cones, placed), NoneUsed(|cones|), |cones|, GATE)), |cones|, |placed|)
  {
    SortedLinksFit(Table(cones, placed), |placed|, NoneUsed(|cones|), GATE);
  }

  lemma EntriesHoldCones(cones: seq<Cone>, best: seq<real>)
    requires |cones| == |best|
    ensures ConesOf(Entries(cones, best)) == cones
  {
  }

  lemma NothingApplied(entries: seq<Entry>, placed: seq<Detection>)
    ensures LinksFit([], |entries|, |placed|) && Applied(entries, placed, []) == entries
  {
  }

  lemma IsAfterCamera(cones: seq<Cone>, entries: seq<Entry>, placed: seq<Detection>, matches: seq<Link>)
    requires cones == ConesOf(entries) && matches == CameraMatches(cones, placed)
    ensures LinksFit(matches, |entries|, |placed|) && AfterCamera(entries, placed) == Applied(entries, placed, matches)
  {
    CameraMatchesFit(cones, placed);
    hide CameraMatches, Applied;
  }

  lemma AppliedNext(entries: seq<Entry>, placed: seq<Detection>, ms: seq<Link>, m: Link)
    requires LinksFit(ms, |entries|, |placed|) && m.left < |entries| && m.right < |placed|
    ensures LinksFit(ms + [m], |entries|, |placed|)
    ensures var r := Applied(entries, placed, ms);
            Applied(entries, placed, ms + [m]) == r[m.left := Recolored(r[m.left], placed[m.right])]
  {
    assert (ms + [m])[..|ms|] == ms;
  }

  lemma AreCameraMatches(cones: seq<Cone>, placed: seq<Detection>, matches: seq<Link>, pairs: seq<Link>)
    requires pairs == Sorted(TableLinks(Table(cones, placed), NoneUsed(|cones|), |cones|, GATE))
    requires matches == Greedy(pairs, {}, {})
    ensures matches == CameraMatches(cones, placed)
  {
    assert UsedRows(NoneUsed(|cones|)) == {};
  }

  /** Every camera that has a model and detections, in the order of their names. */
  method Classify(cones: array<Cone>, cameras: seq<seq<Detection>>)
    modifies cones
    ensures cones[..] == ConesOf(AfterCameras(Unscored(old(cones[..])), cameras, |cameras|))
  {
    hide AfterCamera;
    var best := new real[cones.Length](_ => 0.0);
    ghost var start := Unscored(cones[..]);
    assert Entries(cones[..], best[..]) == start;
    for n := 0 to |cameras|
      invariant Entries(cones[..], best[..]) == AfterCameras(start, cameras, n)
    {
      ClassifyCamera(cones, best, cameras[n]);
    }
    assert ConesOf(Entries(cones[..], best[..])) == cones[..];
  }

  // ------------------------------------------------------------------ what a cone ends with

  /** The detection matched to cone i. */
  function MatchedTo(ms: seq<Link>, i: nat): Option<nat> {
    if ms == [] then None
    else if ms[|ms| - 1].left == i then Some(ms[|ms| - 1].right)
    else MatchedTo(ms[..|ms| - 1], i)
  }

  lemma {:induction false} MatchedToIs(ms: seq<Link>, i: nat)
    ensures MatchedTo(ms, i).None? ==> forall m :: m in ms ==> m.left != i
    ensures MatchedTo(ms, i).Some? ==> exists m :: m in ms && m.left == i && m.right == MatchedTo(ms, i).value
    decreases |ms|
  {
    if ms != [] {
      MatchedToIs(ms[..|ms| - 1], i);
      assert ms == ms[..|ms| - 1] + [ms[|ms| - 1]];
    }
  }

  /** As no cone is matched twice, its entry changes by its one match. */
  lemma {:induction false} AppliedAt(entries: seq<Entry>, placed: seq<Detection>, ms: seq<Link>, i: nat)
    requires LinksFit(ms, |entries|, |placed|) && Disjoint(ms) && i < |entries|
    ensures MatchedTo(ms, i).Some? ==> MatchedTo(ms, i).value < |placed|
    ensures Applied(entries, placed, ms)[i]
      == if MatchedTo(ms, i).Some? then Recolored(entries[i], placed[MatchedTo(ms, i).value]) else entries[i]
    decreases |ms|
  {
    if ms != [] {
      var init, m := ms[..|ms| - 1], ms[|ms| - 1];
      assert m in ms;
      AppliedAt(entries, placed, init, i);
      if m.left == i {
        MatchedToIs(init, i);
        assert forall q :: q in init ==> !Shares(q, m);
      }
    }
  }

  /** The detection of camera k matched to cone i. */
  function MatchOf(cones: seq<Cone>, cameras: seq<seq<Detection>>, k: nat, i: nat): Option<Detection>
    requires k < |cameras|
  {
    var j := MatchedTo(CameraMatches(cones, cameras[k]), i);
    if j.Some? && j.value < |cameras[k]| then Some(cameras[k][j.value]) else None
  }

  lemma CameraKeepsPositions(entries: seq<Entry>, placed: seq<Detection>, i: nat)
    requires i < |entries|
    ensures AfterCamera(entries, placed)[i].cone.position == entries[i].cone.position
  {
    CameraMatchesFit(ConesOf(entries), placed);
    AppliedAt(entries, placed, CameraMatches(ConesOf(entries), placed), i);
  }

  lemma AfterCamerasNext(entries: seq<Entry>, cameras: seq<seq<Detection>>, n: nat)
    requires n < |cameras|
    ensures AfterCameras(entries, cameras, n + 1) == AfterCamera(AfterCameras(entries, cameras, n), cameras[n])
  {
    hide AfterCamera;
  }

  lemma {:induction false} CamerasKeepPositions(entries: seq<Entry>, cameras: seq<seq<Detection>>, n: nat, i: nat)
    requires n <= |cameras| && i < |entries|
    ensures AfterCameras(entries, cameras, n)[i].cone.position == entries[i].cone.position
  {
    hide AfterCamera;
    if n > 0 {
      CamerasKeepPositions(entries, cameras, n - 1, i);
      AfterCamerasNext(entries, cameras, n - 1);
      CameraKeepsPositions(AfterCameras(entries, cameras, n - 1), cameras[n - 1], i);
    }
  }

  /** Matches depend on the cones' positions only. */
  lemma SameMatches(cones: seq<Cone>, others: seq<Cone>, placed: seq<Detection>)
    requires |cones| == |others| && forall i :: 0 <= i < |cones| ==> cones[i].position == others[i].position
    ensures CameraMatches(cones, placed) == CameraMatches(others, placed)
  {
    assert Table(cones, placed) == Table(others, placed);
  }

  /** The entry of cone i after one more camera. */
  lemma CameraStep(entries: seq<Entry>, cameras: seq<seq<Detection>>, n: nat, i: nat)
    requires n < |cameras| && i < |entries|
    ensures var e, d := AfterCameras(entries, cameras, n)[i], MatchOf(ConesOf(entries), cameras, n, i);
            AfterCameras(entries, cameras, n + 1)[i] == if d.Some? then Recolored(e, d.value) else e
  {
    var now, cones, placed := AfterCameras(entries, cameras, n), ConesOf(entries), cameras[n];
    forall k: nat | k < |entries|
      ensures ConesOf(now)[k].position == cones[k].position
    {
      CamerasKeepPositions(entries, cameras, n, k);
    }
    SameMatches(cones, ConesOf(now), placed);
    CameraMatchesFit(cones, placed);
    AppliedAt(now, placed, CameraMatches(cones, placed), i);
    hide CameraMatches, Applied, MatchedTo;
  }

  /** e is cone i as its best match among the first n cameras colours it. */
  ghost predicate IsBest(cones: seq<Cone>, cameras: seq<seq<Detection>>, n: nat, i: nat, e: Entry)
    requires n <= |cameras| && i < |cones|
  {
    && (forall k: nat :: k < n && MatchOf(cones, cameras, k, i).Some? ==>
          MatchOf(cones, cameras, k, i).value.score <= e.best)
    && ((e.best == 0.0 && e.cone == cones[i])
        || (e.best > 0.0 && exists k: nat :: k < n && ColorsFirst(cones, cameras, k, i, e)))
  }

  /** Camera k gives cone i its colour and score, and no earlier camera scored as high. */
  ghost predicate ColorsFirst(cones: seq<Cone>, cameras: seq<seq<Detection>>, k: nat, i: nat, e: Entry)
    requires k < |cameras| && i < |cones|
  {
    var d := MatchOf(cones, cameras, k, i);
    && d.Some? && d.value.score == e.best
    && e.cone == cones[i].(color := d.value.color, confidence := d.value.score)
    && forall l: nat :: l < k && MatchOf(cones, cameras, l, i).Some? ==>
         MatchOf(cones, cameras, l, i).value.score < e.best
  }

  /**
    A cone ends with the colour and confidence of the best-scored detection matched to it over all cameras,
    the first such in camera order, and keeps its own when none scores above 0.
  */
  lemma {:induction false} ConeTakesBestMatch(cones: seq<Cone>, cameras: seq<seq<Detection>>, n: nat, i: nat)
    requires n <= |cameras| && i < |cones|
    ensures IsBest(cones, cameras, n, i, AfterCameras(Unscored(cones), cameras, n)[i])
  {
    hide AfterCamera, MatchOf, Recolored;
    assert ConesOf(Unscored(cones)) == cones;
    if n > 0 {
      hide IsBest;
      ConeTakesBestMatch(cones, cameras, n - 1, i);
      CameraStep(Unscored(cones), cameras, n - 1, i);
      BestStep(cones, cameras, n - 1, i, AfterCameras(Unscored(cones), cameras, n - 1)[i]);
    }
  }

  lemma BestStep(cones: seq<Cone>, cameras: seq<seq<Detection>>, n: nat, i: nat, e: Entry)
    requires n < |cameras| && i < |cones| && IsBest(cones, cameras, n, i, e)
    ensures var d := MatchOf(cones, cameras, n, i);
            IsBest(cones, cameras, n + 1, i, if d.Some? then Recolored(e, d.value) else e)
  {
    hide MatchOf;
    var d := MatchOf(cones, cameras, n, i);
    if d.Some? && d.value.score > e.best {
      assert ColorsFirst(cones, cameras, n, i, Recolored(e, d.value));
    }
  }

  /** d is the squared distance of p and q. */
  predicate IsApart(p: Position, q: Position, d: real) {
    d == (p.x - q.x) * (p.x - q.x) + (p.y - q.y) * (p.y - q.y)
  }

  lemma SquaredDistanceIs(p: Position, q: Position, d: real)
    ensures d == SquaredDistance(p, q) <==> IsApart(p, q, d)
  {
  }

  /** Per camera, the matches are the only stable one-to-one choice of the pairs within the match distance. */
  lemma CameraMatchingIsStable(cones: seq<Cone>, placed: seq<Detection>, m: set<Link>, es: set<Link>)
    requires forall p :: p in es <==>
               && p.left < |cones| && p.right < |placed|
               && IsApart(cones[p.left].position, placed[p.right].position, p.dist) && p.dist < 0.5625
    ensures Stable(m, es) <==> m == Sequences.Elems(CameraMatches(cones, placed))
  {
    hide SquaredDistance, IsApart;
    forall p: Link | p.left < |cones| && p.right < |placed|
      ensures p.dist == SquaredDistance(cones[p.left].position, placed[p.right].position)
         <==> IsApart(cones[p.left].position, placed[p.right].position, p.dist)
    {
      SquaredDistanceIs(cones[p.left].position, placed[p.right].position, p.dist);
    }
    MatchesAreTheStableMatching(Table(cones, placed), NoneUsed(|cones|), GATE, m, es);
  }
}
