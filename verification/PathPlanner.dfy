/**
  The path planner: midpoints of the track-crossing edges of a triangulation of the cones, put in driving
  order by a greedy selection that swaps them in place.

  Main results: every interior crossing edge of admitted length gives exactly one midpoint
  (EachEdgeGivesOneMidpoint); the path is a prefix of a rearrangement of the midpoints, starts at the
  nearest one ahead, and each next point is the cheapest feasible remaining one, until none is left or the
  path has 20 points (PlanIsGreedy).
*/
module PathPlanner {
  import opened Arithmetic
  import opened Sequences

  datatype Point = Point(x: real, y: real)

  datatype Color = Blue | Yellow | Other

  datatype Cone = Cone(position: Point, color: Color)

  const MAX_TRACK_WIDTH_SQ := 36.0
  const MIN_COS_TURN := -0.3
  const MIN_HOP_SQ := 0.000001
  const MAX_JUMP_SQ := 64.0
  const PATH_POINTS_AHEAD: nat := 20
  /** The greatest finite float. */
  const FLT_MAX := 340282346638528859811704183484516925440.0

  // ------------------------------------------------------------------ midpoints of crossing edges

  const BOUNDARY := -1

  /** A triangulation: half-edge i starts at point triangles[i]; its twin is halfedges[i], or BOUNDARY. */
  datatype Mesh = Mesh(triangles: seq<nat>, halfedges: seq<int>) {
    predicate Over(n: nat) {
      && |halfedges| == |triangles|
      && (forall i :: 0 <= i < |triangles| ==> triangles[i] < n)
      && forall i :: 0 <= i < |halfedges| ==> halfedges[i] == BOUNDARY || 0 <= halfedges[i] < |halfedges|
    }

    /** Twins come in pairs. */
    ghost predicate Paired() {
      forall i :: 0 <= i < |halfedges| && halfedges[i] != BOUNDARY ==>
        0 <= halfedges[i] < |halfedges| && halfedges[i] != i && halfedges[halfedges[i]] == i
    }
  }

  predicate IsCrossing(a: Cone, b: Cone) { (a.color.Blue? && b.color.Yellow?) || (a.color.Yellow? && b.color.Blue?) }

  function DistanceSq(p: Point, q: Point): real { (p.x - q.x) * (p.x - q.x) + (p.y - q.y) * (p.y - q.y) }

  function Midpoint(p: Point, q: Point): Point { Point((p.x + q.x) / 2.0, (p.y + q.y) / 2.0) }

  /** Half-edge i has a twin, joins a blue and a yellow cone, and is no longer than the track is wide. */
  predicate SpansTrack(cones: seq<Cone>, mesh: Mesh, i: nat)
    requires mesh.Over(|cones|) && i < |mesh.triangles|
  {
    && mesh.halfedges[i] != BOUNDARY
    && IsCrossing(Start(cones, mesh, i), Start(cones, mesh, mesh.halfedges[i]))
    && DistanceSq(Start(cones, mesh, i).position, Start(cones, mesh, mesh.halfedges[i]).position) <= MAX_TRACK_WIDTH_SQ
  }

  /** The cone a half-edge starts at. */
  function Start(cones: seq<Cone>, mesh: Mesh, i: int): Cone
    requires mesh.Over(|cones|) && 0 <= i < |mesh.triangles|
  {
    cones[mesh.triangles[i]]
  }

  /** The half-edges below n that give a midpoint: of each pair of twins, the lower. */
  function Kept(cones: seq<Cone>, mesh: Mesh, n: nat): seq<nat>
    requires mesh.Over(|cones|) && n <= |mesh.triangles|
  {
    if n == 0 then []
    else
      var last := if mesh.halfedges[n - 1] >= n - 1 && SpansTrack(cones, mesh, n - 1) then [n - 1] else [];
      Kept(cones, mesh, n - 1) + last
  }

  lemma {:induction false} KeptIff(cones: seq<Cone>, mesh: Mesh, n: nat, i: nat)
    requires mesh.Over(|cones|) && n <= |mesh.triangles|
    ensures i in Kept(cones, mesh, n) <==> i < n && mesh.halfedges[i] >= i && SpansTrack(cones, mesh, i)
  {
    if n > 0 {
      KeptIff(cones, mesh, n - 1, i);
      hide SpansTrack;
    }
  }

  lemma KeptNext(cones: seq<Cone>, mesh: Mesh, n: nat)
    requires mesh.Over(|cones|) && n < |mesh.triangles|
    ensures var before := Kept(cones, mesh, n);
            Kept(cones, mesh, n + 1) == before || Kept(cones, mesh, n + 1) == before + [n]
  {
    hide SpansTrack;
  }

  lemma {:induction false} KeptAscends(cones: seq<Cone>, mesh: Mesh, n: nat)
    requires mesh.Over(|cones|) && n <= |mesh.triangles|
    ensures Ascends(Kept(cones, mesh, n))
  {
    if n > 0 {
      KeptAscends(cones, mesh, n - 1);
      KeptNext(cones, mesh, n - 1);
      var before := Kept(cones, mesh, n - 1);
      hide SpansTrack, Kept, Ascends;
      forall i | i in before
        ensures i < n - 1
      {
        KeptIff(cones, mesh, n - 1, i);
      }
      AscendsNext(before, n - 1);
    }
  }

  /** The midpoints of the first n kept half-edges. */
  function Midpoints(cones: seq<Cone>, mesh: Mesh, kept: seq<nat>): (m: seq<Point>)
    requires mesh.Over(|cones|) && forall i :: i in kept ==> i < |mesh.triangles| && mesh.halfedges[i] != BOUNDARY
    ensures |m| == |kept|
  {
    seq(|kept|, k requires 0 <= k < |kept| =>
      assert kept[k] in kept;
      Midpoint(Start(cones, mesh, kept[k]).position, Start(cones, mesh, mesh.halfedges[kept[k]]).position))
  }

  lemma KeptHaveTwins(cones: seq<Cone>, mesh: Mesh, n: nat)
    requires mesh.Over(|cones|) && n <= |mesh.triangles|
    ensures forall i :: i in Kept(cones, mesh, n) ==> i < |mesh.triangles| && mesh.halfedges[i] != BOUNDARY
  {
    forall i | i in Kept(cones, mesh, n)
      ensures i < |mesh.triangles| && mesh.halfedges[i] != BOUNDARY
    {
      KeptIff(cones, mesh, n, i);
    }
  }

  ghost function TrackMidpoints(cones: seq<Cone>, mesh: Mesh): seq<Point>
    requires mesh.Over(|cones|)
  {
    KeptHaveTwins(cones, mesh, |mesh.triangles|);
    Midpoints(cones, mesh, Kept(cones, mesh, |mesh.triangles|))
  }

  method CollectMidpoints(cones: seq<Cone>, mesh: Mesh) returns (midpoints: seq<Point>)
    requires mesh.Over(|cones|)
    ensures midpoints == TrackMidpoints(cones, mesh)
  {
    midpoints := [];
    ghost var kept: seq<nat> := [];
    for i := 0 to |mesh.triangles|
      invariant kept == Kept(cones, mesh, i)
      invariant forall k :: k in kept ==> k < |mesh.triangles| && mesh.halfedges[k] != BOUNDARY
      invariant midpoints == Midpoints(cones, mesh, kept)
    {
      hide DistanceSq;
      if mesh.halfedges[i] == BOUNDARY || mesh.halfedges[i] < i {
        continue;
      }
      var a, b := Start(cones, mesh, i), Start(cones, mesh, mesh.halfedges[i]);
      if IsCrossing(a, b) {
        if DistanceSq(a.position, b.position) > MAX_TRACK_WIDTH_SQ { continue; }
        midpoints := midpoints + [Midpoint(a.position, b.position)];
        kept := kept + [i];
      }
    }
  }

  /** One of the cones is blue and the other yellow, and they are at most 6 m apart. */
  predicate AreAcross(a: Cone, b: Cone) {
    var dx, dy := a.position.x - b.position.x, a.position.y - b.position.y;
    {a.color, b.color} == {Blue, Yellow} && dx * dx + dy * dy <= 36.0
  }

  lemma AcrossIsSymmetric(a: Cone, b: Cone)
    ensures AreAcross(a, b) <==> AreAcross(b, a)
  {
  }

  lemma SpansTrackIff(cones: seq<Cone>, mesh: Mesh, i: nat)
    requires mesh.Over(|cones|) && i < |mesh.triangles|
    ensures SpansTrack(cones, mesh, i) <==>
              mesh.halfedges[i] != BOUNDARY
              && AreAcross(Start(cones, mesh, i), Start(cones, mesh, mesh.halfedges[i]))
  {
    if mesh.halfedges[i] != BOUNDARY {
      var a, b := Start(cones, mesh, i), Start(cones, mesh, mesh.halfedges[i]);
      assert IsCrossing(a, b) <==> {a.color, b.color} == {Blue, Yellow};
    }
  }

  /**
    Every interior edge that spans the track gives exactly one midpoint: one of its two half-edges is kept,
    once, and both would give the same midpoint; boundary edges and other edges give none.
  */
  lemma EachEdgeGivesOneMidpoint(cones: seq<Cone>, mesh: Mesh, i: nat)
    requires mesh.Over(|cones|) && mesh.Paired() && i < |mesh.triangles|
    ensures var kept := Kept(cones, mesh, |mesh.triangles|);
            && (forall a, b :: 0 <= a < b < |kept| ==> kept[a] != kept[b])
            && (mesh.halfedges[i] == BOUNDARY ==> i !in kept)
            && (mesh.halfedges[i] != BOUNDARY ==>
                  var twin: nat := mesh.halfedges[i];
                  && (if AreAcross(Start(cones, mesh, i), Start(cones, mesh, twin)) then (i in kept <==> twin !in kept)
                      else i !in kept && twin !in kept)
                  && Midpoint(Start(cones, mesh, i).position, Start(cones, mesh, twin).position)
                  == Midpoint(Start(cones, mesh, twin).position, Start(cones, mesh, mesh.halfedges[twin]).position))
  {
    hide SpansTrack, AreAcross, Kept;
    KeptIff(cones, mesh, |mesh.triangles|, i);
    SpansTrackIff(cones, mesh, i);
    if mesh.halfedges[i] != BOUNDARY {
      KeptIff(cones, mesh, |mesh.triangles|, mesh.halfedges[i]);
      SpansTrackIff(cones, mesh, mesh.halfedges[i]);
      AcrossIsSymmetric(Start(cones, mesh, i), Start(cones, mesh, mesh.halfedges[i]));
    }
    KeptAscends(cones, mesh, |mesh.triangles|);
  }

  /** As far from p as from q, on the line between them. */
  predicate IsHalfway(m: Point, p: Point, q: Point) { m.x - p.x == q.x - m.x && m.y - p.y == q.y - m.y }

  /** The midpoints are those of the half-edges kept, in order: halfway between the cones at the edge's ends. */
  lemma TrackMidpointsAreHalfway(cones: seq<Cone>, mesh: Mesh)
    requires mesh.Over(|cones|)
    ensures var kept, ms := Kept(cones, mesh, |mesh.triangles|), TrackMidpoints(cones, mesh);
            |ms| == |kept| && forall k :: 0 <= k < |ms| ==>
              && kept[k] < |mesh.triangles| && 0 <= mesh.halfedges[kept[k]] < |mesh.triangles|
              && IsHalfway(ms[k], Start(cones, mesh, kept[k]).position,
                           Start(cones, mesh, mesh.halfedges[kept[k]]).position)
  {
    hide SpansTrack, Kept;
    KeptHaveTwins(cones, mesh, |mesh.triangles|);
    var kept, ms := Kept(cones, mesh, |mesh.triangles|), TrackMidpoints(cones, mesh);
    forall k | 0 <= k < |ms|
      ensures && kept[k] < |mesh.triangles| && 0 <= mesh.halfedges[kept[k]] < |mesh.triangles|
              && IsHalfway(ms[k], Start(cones, mesh, kept[k]).position,
                           Start(cones, mesh, mesh.halfedges[kept[k]]).position)
    {
      assert kept[k] in kept;
      MidpointIsHalfway(Start(cones, mesh, kept[k]).position, Start(cones, mesh, mesh.halfedges[kept[k]]).position);
      hide Midpoint, IsHalfway;
    }
  }

  lemma MidpointIsHalfway(p: Point, q: Point)
    ensures IsHalfway(Midpoint(p, q), p, q)
  {
  }

  // ------------------------------------------------------------------ the greedy order

  function Dot(from: Point, to: Point, h: Point): real { (to.x - from.x) * h.x + (to.y - from.y) * h.y }

  /** The cosine of the turn from the heading h; the length of a hop that is long enough is not 0. */
  function Cosine(sqrt: real -> real, from: Point, h: Point, to: Point): real {
    var dist := sqrt(DistanceSq(to, from));
    if dist == 0.0 then 0.0 else Dot(from, to, h) / dist
  }

  /** A hop: neither too short nor too long, and not behind the heading h. */
  predicate IsFeasible(sqrt: real -> real, from: Point, h: Point, to: Point) {
    MIN_HOP_SQ <= DistanceSq(to, from) <= MAX_JUMP_SQ && Cosine(sqrt, from, h, to) > MIN_COS_TURN
  }

  /** The hop's length, more the further it turns. */
  function Cost(sqrt: real -> real, from: Point, h: Point, to: Point): real {
    sqrt(DistanceSq(to, from)) * (2.0 - Cosine(sqrt, from, h, to))
  }

  /** The direction of a hop. */
  function Direction(sqrt: real -> real, from: Point, to: Point): Point {
    var dist := sqrt(DistanceSq(to, from));
    if dist == 0.0 then Point(0.0, 0.0) else Point((to.x - from.x) / dist, (to.y - from.y) / dist)
  }

  /** The first index in lo..n of a cheapest feasible hop; |s| if there is none. */
  function BestNext(sqrt: real -> real, s: seq<Point>, from: Point, h: Point, lo: nat, n: nat): (best: nat)
    requires lo <= n <= |s|
    ensures lo <= best < n || best == |s|
  {
    if n == lo then |s|
    else
      var best := BestNext(sqrt, s, from, h, lo, n - 1);
      var bestCost := if best == |s| then FLT_MAX else Cost(sqrt, from, h, s[best]);
      if IsFeasible(sqrt, from, h, s[n - 1]) && Cost(sqrt, from, h, s[n - 1]) < bestCost then n - 1 else best
  }

  function Swap(s: seq<Point>, i: nat, j: nat): (t: seq<Point>)
    requires i < |s| && j < |s|
    ensures |t| == |s|
  {
    s[i := s[j]][j := s[i]]
  }

  datatype Arrangement = Arrangement(points: seq<Point>, count: nat)

  /** The selection: slot count takes the best next point, by a swap. */
  function Arranged(sqrt: real -> real, s: seq<Point>, count: nat, h: Point): (r: Arrangement)
    requires 0 < count <= |s|
    ensures count <= r.count <= |r.points| == |s|
    decreases |s| - count
  {
    if !(count < |s| && count < PATH_POINTS_AHEAD) then Arrangement(s, count)
    else
      var best := BestNext(sqrt, s, s[count - 1], h, count, |s|);
      if best == |s| then Arrangement(s, count)
      else
        var t := Swap(s, count, best);
        Arranged(sqrt, t, count + 1, Direction(sqrt, t[count - 1], t[count]))
  }

  /** The first index below n of a nearest point strictly ahead; |s| if there is none. */
  function NearestAhead(s: seq<Point>, vehicle: Point, h: Point, n: nat): (start: nat)
    requires n <= |s|
    ensures start < n || start == |s|
  {
    if n == 0 then |s|
    else
      var start := NearestAhead(s, vehicle, h, n - 1);
      var closest := if start == |s| then FLT_MAX else DistanceSq(s[start], vehicle);
      if Dot(vehicle, s[n - 1], h) > 0.0 && DistanceSq(s[n - 1], vehicle) < closest then n - 1 else start
  }

  /** The path over given midpoints. */
  function Ordered(sqrt: real -> real, s: seq<Point>, vehicle: Point, h: Point): Arrangement {
    var start := NearestAhead(s, vehicle, h, |s|);
    if start == |s| then Arrangement(s, 0) else Arranged(sqrt, Swap(s, 0, start), 1, h)
  }

  /** The selection loop, in place. */
  method OrderAhead(sqrt: real -> real, midpoints: array<Point>, vehicle: Point, heading: Point) returns (count: nat)
    modifies midpoints
    ensures Arrangement(midpoints[..], count) == Ordered(sqrt, old(midpoints[..]), vehicle, heading)
  {
    hide DistanceSq, Dot, Direction, IsFeasible, Cost, Arranged, BestNext, NearestAhead;
    var start := FindStart(midpoints, vehicle, heading);
    if start == midpoints.Length { return 0; }
    midpoints[0], midpoints[start] := midpoints[start], midpoints[0];
    assert midpoints[..] == Swap(old(midpoints[..]), 0, start);

    count := 1;
    var h := heading;
    while count < midpoints.Length && count < PATH_POINTS_AHEAD
      invariant 0 < count <= midpoints.Length
      invariant Arranged(sqrt, midpoints[..], count, h) == Ordered(sqrt, old(midpoints[..]), vehicle, heading)
      decreases midpoints.Length - count
    {
      var current := midpoints[count - 1];
      var best := FindNext(sqrt, midpoints, current, h, count);
      ArrangedStep(sqrt, midpoints[..], count, h);
      if best == midpoints.Length { break; }
      ghost var before := midpoints[..];
      midpoints[count], midpoints[best] := midpoints[best], midpoints[count];
      assert midpoints[..] == Swap(before, count, best);
      h := Direction(sqrt, current, midpoints[count]);
      count := count + 1;
    }
    ArrangedStep(sqrt, midpoints[..], count, h);
  }

  lemma ArrangedStep(sqrt: real -> real, s: seq<Point>, count: nat, h: Point)
    requires 0 < count <= |s|
    ensures !(count < |s| && count < PATH_POINTS_AHEAD) ==> Arranged(sqrt, s, count, h) == Arrangement(s, count)
    ensures count < |s| && count < PATH_POINTS_AHEAD ==>
              var best := BestNext(sqrt, s, s[count - 1], h, count, |s|);
              if best == |s| then Arranged(sqrt, s, count, h) == Arrangement(s, count)
              else var t := Swap(s, count, best);
                Arranged(sqrt, s, count, h) == Arranged(sqrt, t, count + 1, Direction(sqrt, t[count - 1], t[count]))
  {
    hide BestNext, Direction;
  }

  method FindStart(midpoints: array<Point>, vehicle: Point, heading: Point) returns (start: nat)
    ensures start == NearestAhead(midpoints[..], vehicle, heading, midpoints.Length)
  {
    var closestAhead := FLT_MAX;
    start := midpoints.Length;
    for i := 0 to midpoints.Length
      invariant start == NearestAhead(midpoints[..], vehicle, heading, i)
      invariant closestAhead == if start == midpoints.Length then FLT_MAX else DistanceSq(midpoints[start], vehicle)
    {
      var d := DistanceSq(midpoints[i], vehicle);
      if Dot(vehicle, midpoints[i], heading) > 0.0 && d < closestAhead {
        closestAhead := d;
        start := i;
      }
    }
  }

  method FindNext(sqrt: real -> real, midpoints: array<Point>, current: Point, h: Point, count: nat) returns (best: nat)
    requires count <= midpoints.Length
    ensures best == BestNext(sqrt, midpoints[..], current, h, count, midpoints.Length)
  {
    hide DistanceSq, Dot, Cosine;
    best := midpoints.Length;
    var bestCost := FLT_MAX;
    for j := count to midpoints.Length
      invariant best == BestNext(sqrt, midpoints[..], current, h, count, j)
      invariant bestCost == if best == midpoints.Length then FLT_MAX else Cost(sqrt, current, h, midpoints[best])
    {
      var d := DistanceSq(midpoints[j], current);
      if d < MIN_HOP_SQ || d > MAX_JUMP_SQ { continue; }
      var dist := sqrt(d);
      var angle := Cosine(sqrt, current, h, midpoints[j]);
      if angle <= MIN_COS_TURN { continue; }
      var cost := dist * (2.0 - angle);
      if cost < bestCost {
        bestCost := cost;
        best := j;
      }
    }
  }

  /** plan_path, for a given triangulation. */
  method PlanPath(sqrt: real -> real, cones: seq<Cone>, mesh: Mesh, vehicle: Point, heading: Point)
    returns (path: seq<Point>)
    requires |cones| >= 3 ==> mesh.Over(|cones|)
    ensures path == if |cones| < 3 then [] else Plan(sqrt, TrackMidpoints(cones, mesh), vehicle, heading)
  {
    if |cones| < 3 { return []; }
    var found := CollectMidpoints(cones, mesh);
    if found == [] {
      return [];
    }
    var midpoints := new Point[|found|](i requires 0 <= i < |found| => found[i]);
    assert midpoints[..] == found;
    var count := OrderAhead(sqrt, midpoints, vehicle, heading);
    return midpoints[..count];
  }

  function Plan(sqrt: real -> real, midpoints: seq<Point>, vehicle: Point, heading: Point): seq<Point> {
    var r := Ordered(sqrt, midpoints, vehicle, heading);
    r.points[..r.count]
  }

  // ------------------------------------------------------------------ what the order means

  /** The heading before the choice of point k: the vehicle's, then the direction of the last hop. */
  function HeadingAt(sqrt: real -> real, s: seq<Point>, k: nat, heading: Point): Point
    requires 0 < k <= |s|
  {
    if k == 1 then heading else Direction(sqrt, s[k - 2], s[k - 1])
  }

  /** Point k is a feasible hop from the point before, and no point from k on would be a cheaper one. */
  ghost predicate IsBestHop(sqrt: real -> real, s: seq<Point>, k: nat, heading: Point)
    requires 0 < k < |s|
  {
    var from, h := s[k - 1], HeadingAt(sqrt, s, k, heading);
    && IsFeasible(sqrt, from, h, s[k])
    && forall j :: k <= j < |s| && IsFeasible(sqrt, from, h, s[j]) ==>
         Cost(sqrt, from, h, s[k]) <= Cost(sqrt, from, h, s[j])
  }

  /** The path cannot or may not go on after count points. */
  ghost predicate IsFinished(sqrt: real -> real, s: seq<Point>, count: nat, heading: Point)
    requires 0 < count <= |s|
  {
    count == 20
    || forall j :: count <= j < |s| ==> !IsFeasible(sqrt, s[count - 1], HeadingAt(sqrt, s, count, heading), s[j])
  }

  lemma ProductAtMost(x: real, y: real, a: real, b: real)
    requires 0.0 <= x <= a && 0.0 <= b && y <= b
    ensures x * y <= a * b
  {
    Positive(x, b - y);
    Positive(a - x, b);
  }

  /** A feasible hop costs far less than the greatest float. */
  lemma CostIsBounded(sqrt: real -> real, from: Point, h: Point, to: Point)
    requires IsSqrt(sqrt) && IsFeasible(sqrt, from, h, to)
    ensures Cost(sqrt, from, h, to) < FLT_MAX
  {
    var d := DistanceSq(to, from);
    var dist := sqrt(d);
    if dist > 8.0 { SquareOrder(8.0, dist); }
    ProductAtMost(dist, 2.0 - Cosine(sqrt, from, h, to), 8.0, 2.3);
  }

  lemma CosineTimesLength(dot: real, length: real, cosine: real)
    requires length > 0.0 && cosine == dot / length
    ensures cosine * length == dot && length * (2.0 - cosine) == 2.0 * length - dot
    ensures cosine > MIN_COS_TURN <==> dot > MIN_COS_TURN * length
  {
    assert cosine * length == dot;
    if cosine > MIN_COS_TURN { Positive(cosine - MIN_COS_TURN, length); }
    if cosine < MIN_COS_TURN { Positive(MIN_COS_TURN - cosine, length); }
  }

  /**
    A hop of length l: feasible exactly when l^2 is in the admitted range and the advance along the heading is above
    -0.3 l; it then costs twice its length less that advance, and the next heading is its unit vector.
  */
  lemma HopIs(sqrt: real -> real, from: Point, h: Point, to: Point)
    requires IsSqrt(sqrt)
    ensures var square, advance := DistanceSq(to, from), Dot(from, to, h);
            var l, next := sqrt(square), Direction(sqrt, from, to);
            && (IsFeasible(sqrt, from, h, to) <==> 0.000001 <= square <= 64.0 && advance > -0.3 * l)
            && (IsFeasible(sqrt, from, h, to) ==>
                  && l * l == square && l > 0.0 && Cost(sqrt, from, h, to) == 2.0 * l - advance
                  && next.x * l == to.x - from.x && next.y * l == to.y - from.y)
  {
    var square := DistanceSq(to, from);
    hide DistanceSq, Dot;
    if 0.000001 <= square {
      var l := sqrt(square);
      LengthIsPositive(l, square);
      CosineTimesLength(Dot(from, to, h), l, Cosine(sqrt, from, h, to));
      Quotients(to.x - from.x, to.y - from.y, l);
    }
    hide IsSqrt;
  }

  lemma LengthIsPositive(l: real, square: real)
    requires l >= 0.0 && l * l == square && square > 0.0
    ensures l > 0.0
  {
    ZeroHasNoLength(l);
  }

  lemma ZeroHasNoLength(l: real)
    ensures l == 0.0 ==> l * l == 0.0
  {
  }

  lemma Quotients(x: real, y: real, l: real)
    requires l > 0.0
    ensures x / l * l == x && y / l * l == y
  {
  }

  lemma {:induction false} BestNextIsBest(sqrt: real -> real, s: seq<Point>, from: Point, h: Point, lo: nat, n: nat)
    requires IsSqrt(sqrt) && lo <= n <= |s|
    ensures var best := BestNext(sqrt, s, from, h, lo, n);
            if best == |s| then forall j :: lo <= j < n ==> !IsFeasible(sqrt, from, h, s[j])
            else
              && IsFeasible(sqrt, from, h, s[best])
              && (forall j :: lo <= j < n && IsFeasible(sqrt, from, h, s[j]) ==>
                    Cost(sqrt, from, h, s[best]) <= Cost(sqrt, from, h, s[j]))
              && forall j :: lo <= j < best && IsFeasible(sqrt, from, h, s[j]) ==>
                   Cost(sqrt, from, h, s[best]) < Cost(sqrt, from, h, s[j])
    decreases n
  {
    if n > lo {
      BestNextIsBest(sqrt, s, from, h, lo, n - 1);
      if IsFeasible(sqrt, from, h, s[n - 1]) { CostIsBounded(sqrt, from, h, s[n - 1]); }
      hide IsSqrt, IsFeasible, Cost;
    }
  }

  lemma SwapPermutes(s: seq<Point>, i: nat, j: nat)
    requires i < |s| && j < |s|
    ensures multiset(Swap(s, i, j)) == multiset(s)
  {
  }

  /** A swap at or after k keeps what was chosen at k. */
  lemma SwapKeepsBestHop(sqrt: real -> real, s: seq<Point>, k: nat, heading: Point, i: nat, j: nat)
    requires 0 < k < i <= j < |s| && IsBestHop(sqrt, s, k, heading)
    ensures IsBestHop(sqrt, Swap(s, i, j), k, heading)
  {
    hide IsFeasible, Cost, Direction;
    var t := Swap(s, i, j);
    assert HeadingAt(sqrt, t, k, heading) == HeadingAt(sqrt, s, k, heading);
    forall l | k <= l < |t|
      ensures exists m :: k <= m < |s| && t[l] == s[m]
    {
      assert t[l] == s[if l == i then j else if l == j then i else l];
    }
  }

  /** Every point from the second to the one before count is a best hop. */
  ghost predicate AreBestHops(sqrt: real -> real, s: seq<Point>, count: nat, heading: Point)
    requires count <= |s|
  {
    forall k :: 0 < k < count ==> IsBestHop(sqrt, s, k, heading)
  }

  /** r rearranges s, keeps its first count points, goes on from there by best hops, and is finished. */
  ghost predicate IsContinued(sqrt: real -> real, s: seq<Point>, count: nat, heading: Point, r: Arrangement)
    requires count <= |s|
  {
    && multiset(r.points) == multiset(s) && 0 < count <= r.count <= |r.points| && r.points[..count] == s[..count]
    && r.count <= PATH_POINTS_AHEAD && AreBestHops(sqrt, r.points, r.count, heading)
    && IsFinished(sqrt, r.points, r.count, heading)
  }

  /** The arrangement permutes the points, keeps those already placed, and every point it places is a best hop. */
  lemma {:induction false} ArrangedIsGreedy(sqrt: real -> real, s: seq<Point>, count: nat, h: Point, heading: Point)
    requires IsSqrt(sqrt) && 0 < count <= |s| && count <= PATH_POINTS_AHEAD && h == HeadingAt(sqrt, s, count, heading)
    requires AreBestHops(sqrt, s, count, heading)
    ensures IsContinued(sqrt, s, count, heading, Arranged(sqrt, s, count, h))
    decreases |s| - count
  {
    hide IsSqrt, AreBestHops, IsContinued, IsFinished, Direction, BestNext, Arranged, Swap, HeadingAt;
    ArrangedStep(sqrt, s, count, h);
    if count < |s| && count < PATH_POINTS_AHEAD && BestNext(sqrt, s, s[count - 1], h, count, |s|) != |s| {
      var t := Swap(s, count, BestNext(sqrt, s, s[count - 1], h, count, |s|));
      PlacesNext(sqrt, s, count, h, heading);
      ArrangedIsGreedy(sqrt, t, count + 1, Direction(sqrt, t[count - 1], t[count]), heading);
      ContinuesFrom(sqrt, s, t, count, heading, Arranged(sqrt, s, count, h));
    } else {
      EndsFinished(sqrt, s, count, h, heading);
      ContinuesAtEnd(sqrt, s, count, heading);
    }
  }

  lemma ContinuesAtEnd(sqrt: real -> real, s: seq<Point>, count: nat, heading: Point)
    requires 0 < count <= |s| && count <= PATH_POINTS_AHEAD && AreBestHops(sqrt, s, count, heading)
    requires IsFinished(sqrt, s, count, heading)
    ensures IsContinued(sqrt, s, count, heading, Arrangement(s, count))
  {
    hide AreBestHops, IsFinished;
  }

  lemma ContinuesFrom(sqrt: real -> real, s: seq<Point>, t: seq<Point>, count: nat, heading: Point, r: Arrangement)
    requires 0 < count < |s| == |t| && multiset(t) == multiset(s) && t[..count] == s[..count]
    requires IsContinued(sqrt, t, count + 1, heading, r)
    ensures IsContinued(sqrt, s, count, heading, r)
  {
    hide AreBestHops, IsFinished;
    assert r.points[..count] == r.points[..count + 1][..count] == t[..count + 1][..count] == t[..count];
  }

  /** One more point is placed by a best hop. */
  lemma PlacesNext(sqrt: real -> real, s: seq<Point>, count: nat, h: Point, heading: Point)
    requires IsSqrt(sqrt) && 0 < count < |s| && h == HeadingAt(sqrt, s, count, heading)
    requires AreBestHops(sqrt, s, count, heading) && BestNext(sqrt, s, s[count - 1], h, count, |s|) != |s|
    ensures var t := Swap(s, count, BestNext(sqrt, s, s[count - 1], h, count, |s|));
            && multiset(t) == multiset(s) && t[..count] == s[..count] && AreBestHops(sqrt, t, count + 1, heading)
            && Direction(sqrt, t[count - 1], t[count]) == HeadingAt(sqrt, t, count + 1, heading)
  {
    hide IsSqrt, IsBestHop, IsFeasible, Cost, Direction, BestNext;
    var best := BestNext(sqrt, s, s[count - 1], h, count, |s|);
    SwapPermutes(s, count, best);
    forall k | 0 < k < count
      ensures IsBestHop(sqrt, Swap(s, count, best), k, heading)
    {
      SwapKeepsBestHop(sqrt, s, k, heading, count, best);
    }
    BestNextIsBest(sqrt, s, s[count - 1], h, count, |s|);
    SwapPlacesBest(sqrt, s, count, best, heading);
  }

  lemma EndsFinished(sqrt: real -> real, s: seq<Point>, count: nat, h: Point, heading: Point)
    requires IsSqrt(sqrt) && 0 < count <= |s| && count <= PATH_POINTS_AHEAD && h == HeadingAt(sqrt, s, count, heading)
    requires count < |s| && count < PATH_POINTS_AHEAD ==> BestNext(sqrt, s, s[count - 1], h, count, |s|) == |s|
    ensures IsFinished(sqrt, s, count, heading)
  {
    hide IsSqrt, IsFeasible, Cost, Direction, BestNext, HeadingAt;
    if count < |s| { BestNextIsBest(sqrt, s, s[count - 1], h, count, |s|); }
  }

  /** Swapping a best next point into slot count makes it a best hop. */
  lemma SwapPlacesBest(sqrt: real -> real, s: seq<Point>, count: nat, best: nat, heading: Point)
    requires 0 < count <= best < |s|
    requires var from, h := s[count - 1], HeadingAt(sqrt, s, count, heading);
             && IsFeasible(sqrt, from, h, s[best])
             && forall j :: count <= j < |s| && IsFeasible(sqrt, from, h, s[j]) ==>
                  Cost(sqrt, from, h, s[best]) <= Cost(sqrt, from, h, s[j])
    ensures IsBestHop(sqrt, Swap(s, count, best), count, heading)
  {
    hide IsFeasible, Cost, Direction;
    var t := Swap(s, count, best);
    assert HeadingAt(sqrt, t, count, heading) == HeadingAt(sqrt, s, count, heading);
    forall l | count <= l < |t|
      ensures exists m :: count <= m < |s| && t[l] == s[m]
    {
      assert t[l] == s[if l == count then best else if l == best then count else l];
    }
  }

  predicate IsAhead(p: Point, vehicle: Point, h: Point) { Dot(vehicle, p, h) > 0.0 && DistanceSq(p, vehicle) < FLT_MAX }

  /** Ahead is on the heading's side of the vehicle, at a distance whose square a float can hold. */
  lemma AheadIff(p: Point, vehicle: Point, h: Point)
    ensures var dx, dy := p.x - vehicle.x, p.y - vehicle.y;
            IsAhead(p, vehicle, h) <==> dx * h.x + dy * h.y > 0.0 && dx * dx + dy * dy < FLT_MAX
  {
  }

  lemma {:induction false} NearestAheadIsNearest(s: seq<Point>, vehicle: Point, h: Point, n: nat)
    requires n <= |s|
    ensures var start := NearestAhead(s, vehicle, h, n);
            if start == |s| then forall j :: 0 <= j < n ==> !IsAhead(s[j], vehicle, h)
            else
              && IsAhead(s[start], vehicle, h)
              && (forall j :: 0 <= j < n && IsAhead(s[j], vehicle, h) ==>
                    DistanceSq(s[start], vehicle) <= DistanceSq(s[j], vehicle))
              && forall j :: 0 <= j < start && IsAhead(s[j], vehicle, h) ==>
                   DistanceSq(s[start], vehicle) < DistanceSq(s[j], vehicle)
  {
    if n > 0 {
      hide DistanceSq, Dot;
      NearestAheadIsNearest(s, vehicle, h, n - 1);
    }
  }

  /** The path is a prefix of the points, the rest being what was not chosen. */
  ghost predicate IsGreedy(sqrt: real -> real, path: seq<Point>, rest: seq<Point>, vehicle: Point, heading: Point) {
    var s := path + rest;
    && (path == [] ==> forall p :: p in rest ==> !IsAhead(p, vehicle, heading))
    && (path != [] ==>
        && IsAhead(path[0], vehicle, heading)
        && (forall p :: p in s && IsAhead(p, vehicle, heading) ==>
              DistanceSq(path[0], vehicle) <= DistanceSq(p, vehicle))
        && (forall k :: 0 < k < |path| ==> IsBestHop(sqrt, s, k, heading))
        && IsFinished(sqrt, s, |path|, heading))
  }

  /**
    The path and the points left over are a rearrangement of the midpoints; the path has at most 20 points,
    starts at a nearest point strictly ahead if there is one, and each next point is a cheapest feasible one
    among those left, until none is feasible or the path has 20 points.
  */
  lemma PlanIsGreedy(sqrt: real -> real, midpoints: seq<Point>, vehicle: Point, heading: Point)
    returns (rest: seq<Point>)
    requires IsSqrt(sqrt)
    ensures var path := Plan(sqrt, midpoints, vehicle, heading);
            && multiset(path + rest) == multiset(midpoints) && |path| <= 20
            && IsGreedy(sqrt, path, rest, vehicle, heading)
  {
    hide IsSqrt, IsBestHop, IsFinished, Arranged, NearestAhead, IsAhead, IsGreedy, DistanceSq;
    var start := NearestAhead(midpoints, vehicle, heading, |midpoints|);
    var r := Ordered(sqrt, midpoints, vehicle, heading);
    rest := r.points[r.count..];
    assert r.points[..r.count] + rest == r.points;
    NearestAheadIsNearest(midpoints, vehicle, heading, |midpoints|);
    if start == |midpoints| {
      NoPathIsGreedy(sqrt, rest, vehicle, heading);
    } else {
      SwapPermutes(midpoints, 0, start);
      ArrangedIsGreedy(sqrt, Swap(midpoints, 0, start), 1, heading, heading);
      PathIsGreedy(sqrt, midpoints, start, r, vehicle, heading);
    }
  }

  lemma NoPathIsGreedy(sqrt: real -> real, rest: seq<Point>, vehicle: Point, heading: Point)
    requires forall j :: 0 <= j < |rest| ==> !IsAhead(rest[j], vehicle, heading)
    ensures IsGreedy(sqrt, [], rest, vehicle, heading)
  {
  }

  lemma PathIsGreedy(sqrt: real -> real, midpoints: seq<Point>, start: nat, r: Arrangement, vehicle: Point,
                     heading: Point)
    requires start < |midpoints| && 0 < r.count <= |r.points| && multiset(r.points) == multiset(midpoints)
    requires r.points[..1] == Swap(midpoints, 0, start)[..1] && IsAhead(midpoints[start], vehicle, heading)
    requires forall j :: 0 <= j < |midpoints| && IsAhead(midpoints[j], vehicle, heading) ==>
               DistanceSq(midpoints[start], vehicle) <= DistanceSq(midpoints[j], vehicle)
    requires forall k :: 0 < k < r.count ==> IsBestHop(sqrt, r.points, k, heading)
    requires IsFinished(sqrt, r.points, r.count, heading)
    ensures IsGreedy(sqrt, r.points[..r.count], r.points[r.count..], vehicle, heading)
  {
    hide IsBestHop, IsFinished, IsAhead, DistanceSq;
    assert r.points[..r.count] + r.points[r.count..] == r.points;
    assert r.points[0] == r.points[..1][0] == Swap(midpoints, 0, start)[..1][0];
    forall p | p in r.points
      ensures p in midpoints
    {
      assert p in multiset(r.points);
    }
  }
}
