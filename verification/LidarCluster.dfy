/**
  LidarFilter's Euclidean clustering: a breadth-first search that looks up neighbours in a grid of cells as
  wide as the clustering tolerance.

  Main result (Cluster): the clusters are exactly the connected components, of an admitted size, of the
  graph that joins points within the tolerance; the grid lookup equals a scan of all points.
*/
module LidarCluster {
  import Arithmetic
  import opened Sequences

  datatype Point = Point(x: real, y: real)

  const CLUSTER_TOLERANCE_M := 0.25
  const MIN_CLUSTER_SIZE: nat := 3
  const MAX_CLUSTER_SIZE: nat := 1000

  const INT32_MIN := -0x8000_0000
  const INT32_MAX := 0x7FFF_FFFF

  // ------------------------------------------------------------------ the grid

  function CellOf(coordinate: real): int { (coordinate * (1.0 / CLUSTER_TOLERANCE_M)).Floor }

  /** Both 32-bit cell indices in one 64-bit key: cx shifted up by 32 bits, plus cy taken modulo 2^32. */
  function CellKey(cx: int, cy: int): int { cx * 0x1_0000_0000 + cy % 0x1_0000_0000 }

  predicate IsInt32(n: int) { INT32_MIN <= n <= INT32_MAX }

  /** Different cells have different keys. */
  lemma CellKeyIsInjective(cx: int, cy: int, dx: int, dy: int)
    requires IsInt32(cx) && IsInt32(cy) && IsInt32(dx) && IsInt32(dy)
    ensures CellKey(cx, cy) == CellKey(dx, dy) ==> cx == dx && cy == dy
  {
  }

  /** The cells of the points, and of their neighbours, fit the 32-bit cell coordinates. */
  predicate FitsGrid(points: seq<Point>) {
    forall i :: 0 <= i < |points| ==>
      && INT32_MIN < CellOf(points[i].x) < INT32_MAX
      && INT32_MIN < CellOf(points[i].y) < INT32_MAX
  }

  function KeyOf(p: Point): int { CellKey(CellOf(p.x), CellOf(p.y)) }

  /** The points of each cell, by key. */
  ghost predicate IsGrid(points: seq<Point>, n: nat, grid: map<int, seq<nat>>) {
    && (forall key :: key in grid ==> forall j :: j in grid[key] ==> j < n <= |points| && KeyOf(points[j]) == key)
    && forall j :: 0 <= j < n <= |points| ==> KeyOf(points[j]) in grid && j in grid[KeyOf(points[j])]
  }

  // ------------------------------------------------------------------ the graph of near points

  function DistanceSquared(p: Point, q: Point): real { (q.x - p.x) * (q.x - p.x) + (q.y - p.y) * (q.y - p.y) }

  predicate Near(p: Point, q: Point) { DistanceSquared(p, q) <= CLUSTER_TOLERANCE_M * CLUSTER_TOLERANCE_M }

  /** Near is at most 0.25 m apart. */
  lemma NearIff(p: Point, q: Point, distance: real)
    requires distance >= 0.0 && distance * distance == (p.x - q.x) * (p.x - q.x) + (p.y - q.y) * (p.y - q.y)
    ensures Near(p, q) <==> distance <= 0.25
  {
    assert DistanceSquared(p, q) == distance * distance;
    if distance > 0.25 { Arithmetic.SquareOrder(0.25, distance); }
    if distance < 0.25 { Arithmetic.SquareOrder(distance, 0.25); }
  }

  lemma NearIsSymmetric(p: Point, q: Point)
    ensures Near(p, q) <==> Near(q, p)
  {
  }

  /** Points within the tolerance lie in the same cell or in adjacent cells, on each axis. */
  lemma NearIsAdjacent(p: Point, q: Point)
    requires Near(p, q)
    ensures -1 <= CellOf(q.x) - CellOf(p.x) <= 1 && -1 <= CellOf(q.y) - CellOf(p.y) <= 1
  {
    AxisWithin(q.x - p.x, q.y - p.y);
    AxisWithin(q.y - p.y, q.x - p.x);
  }

  lemma AxisWithin(a: real, b: real)
    requires a * a + b * b <= CLUSTER_TOLERANCE_M * CLUSTER_TOLERANCE_M
    ensures -CLUSTER_TOLERANCE_M <= a <= CLUSTER_TOLERANCE_M
  {
    Arithmetic.SquareIsNonNegative(b);
    if a > CLUSTER_TOLERANCE_M { Arithmetic.SquareOrder(CLUSTER_TOLERANCE_M, a); }
    if -a > CLUSTER_TOLERANCE_M { Arithmetic.SquareOrder(CLUSTER_TOLERANCE_M, -a); }
  }

  // ------------------------------------------------------------------ connected components

  /** A walk over points, each step within the tolerance. */
  ghost predicate IsWalk(points: seq<Point>, walk: seq<nat>) {
    && |walk| > 0
    && (forall k :: 0 <= k < |walk| ==> walk[k] < |points|)
    && forall k :: 0 <= k < |walk| - 1 ==> Near(points[walk[k]], points[walk[k + 1]])
  }

  ghost predicate Joins(points: seq<Point>, walk: seq<nat>, i: nat, j: nat) {
    IsWalk(points, walk) && walk[0] == i && walk[|walk| - 1] == j
  }

  ghost predicate Connected(points: seq<Point>, i: nat, j: nat) { exists walk :: Joins(points, walk, i, j) }

  ghost function Component(points: seq<Point>, i: nat): set<nat> {
    set j: nat | j < |points| && Connected(points, i, j)
  }

  lemma ConnectedToSelf(points: seq<Point>, i: nat)
    requires i < |points|
    ensures Connected(points, i, i)
  {
    assert Joins(points, [i], i, i);
  }

  lemma ConnectedStep(points: seq<Point>, i: nat, j: nat, k: nat)
    requires Connected(points, i, j) && k < |points| && j < |points| && Near(points[j], points[k])
    ensures Connected(points, i, k)
  {
    var walk :| Joins(points, walk, i, j);
    assert Joins(points, walk + [k], i, k);
  }

  /** No step leaves s. */
  ghost predicate Closed(points: seq<Point>, s: set<nat>) {
    forall j: nat, k: nat :: j in s && j < |points| && k < |points| && Near(points[j], points[k]) ==> k in s
  }

  lemma ClosedStep(points: seq<Point>, s: set<nat>, j: nat, k: nat)
    requires Closed(points, s) && j in s && j < |points| && k < |points| && Near(points[j], points[k])
    ensures k in s
  {
  }

  lemma {:induction false} WalkStaysInside(points: seq<Point>, s: set<nat>, walk: seq<nat>)
    requires Closed(points, s) && IsWalk(points, walk) && walk[0] in s
    ensures walk[|walk| - 1] in s
    decreases |walk|
  {
    if |walk| > 1 {
      var rest := walk[1..];
      assert IsWalk(points, rest) by {
        forall k | 0 <= k < |rest| - 1
          ensures Near(points[rest[k]], points[rest[k + 1]])
        {
          assert rest[k] == walk[k + 1] && rest[k + 1] == walk[k + 2];
        }
      }
      WalkStaysInside(points, s, rest);
    }
  }

  /** A closed set that holds i and only points connected to i is the component of i. */
  lemma ClosedIsComponent(points: seq<Point>, s: set<nat>, i: nat)
    requires Closed(points, s) && i in s && forall j :: j in s ==> j < |points| && Connected(points, i, j)
    ensures s == Component(points, i)
  {
    forall j | j in Component(points, i)
      ensures j in s
    {
      var walk :| Joins(points, walk, i, j);
      WalkStaysInside(points, s, walk);
    }
  }

  // ------------------------------------------------------------------ the search

  ghost function Visited(visited: seq<bool>): set<nat> { set j: nat | j < |visited| && visited[j] }

  /** All points near cur. */
  ghost function NearOf(points: seq<Point>, cur: nat): set<nat>
    requires cur < |points|
  {
    set j: nat | j < |points| && Near(points[cur], points[j])
  }

  ghost predicate Below(list: seq<nat>, n: nat) { forall j :: j in list ==> j < n }

  /** added lists, once each, the points of s that are near cur and were not visited before. */
  ghost predicate Adds(points: seq<Point>, cur: nat, s: set<nat>, before: set<nat>, added: seq<nat>)
    requires cur < |points|
  {
    NoRepeats(added) && Elems(added) == s * NearOf(points, cur) - before
  }

  lemma AddsMore(points: seq<Point>, cur: nat, s: set<nat>, t: set<nat>, before: set<nat>, added: seq<nat>,
                 more: seq<nat>)
    requires cur < |points| && Adds(points, cur, s, before, added) && Adds(points, cur, t, before + Elems(added), more)
    ensures Adds(points, cur, s + t, before, added + more)
  {
    var all := added + more;
    assert forall j :: j in all <==> j in added || j in more;
    forall i, j | 0 <= i < j < |all|
      ensures all[i] != all[j]
    {
      if i < |added| <= j { assert all[i] in Elems(added) && all[j] in Elems(more); }
    }
    assert Elems(all) == Elems(added) + Elems(more);
  }

  /** Adding one more point of a list: it is kept out if visited or too far, and else listed. */
  lemma AddsOne(points: seq<Point>, cur: nat, list: seq<nat>, k: nat, before: set<nat>, added: seq<nat>, now: set<nat>)
    requires cur < |points| && k < |list| && list[k] < |points| && now == before + Elems(added)
    requires Adds(points, cur, Elems(list[..k]), before, added)
    ensures list[k] in now || !Near(points[cur], points[list[k]]) ==>
              Adds(points, cur, Elems(list[..k + 1]), before, added)
    ensures list[k] !in now && Near(points[cur], points[list[k]]) ==>
      && Adds(points, cur, Elems(list[..k + 1]), before, added + [list[k]])
      && now + {list[k]} == before + Elems(added + [list[k]])
  {
    hide Near;
    var j := list[k];
    assert Elems(list[..k + 1]) == Elems(list[..k]) + {j};
    assert Elems(added + [j]) == Elems(added) + {j};
    if j !in now { assert j !in Elems(added); }
  }

  /** Visits the unvisited points of one cell that are near cur. */
  method VisitCell(points: seq<Point>, cur: nat, list: seq<nat>, visited: array<bool>) returns (added: seq<nat>)
    requires cur < |points| == visited.Length && Below(list, |points|)
    modifies visited
    ensures Adds(points, cur, Elems(list), Visited(old(visited[..])), added)
    ensures Visited(visited[..]) == Visited(old(visited[..])) + Elems(added)
  {
    ghost var before := Visited(visited[..]);
    added := [];
    assert Adds(points, cur, Elems(list[..0]), before, added);
    hide Adds, Elems, DistanceSquared;
    for k := 0 to |list|
      invariant Adds(points, cur, Elems(list[..k]), before, added)
      invariant Visited(visited[..]) == before + Elems(added)
    {
      var j := list[k];
      assert j in list;
      AddsOne(points, cur, list, k, before, added, before + Elems(added));
      assert visited[j] <==> j in Visited(visited[..]);
      if visited[j] {
        continue;
      }
      if DistanceSquared(points[cur], points[j]) <= CLUSTER_TOLERANCE_M * CLUSTER_TOLERANCE_M {
        hide Visited;
        ghost var was := visited[..];
        visited[j] := true;
        VisitOne(was, visited[..], j);
        added := added + [j];
      }
    }
    assert list[..|list|] == list;
  }

  lemma VisitOne(was: seq<bool>, now: seq<bool>, j: nat)
    requires j < |was| && now == was[j := true]
    ensures Visited(now) == Visited(was) + {j}
  {
  }

  /** The points of the cell at the offset (dx, dy) from cur's. */
  ghost function CellSet(points: seq<Point>, cur: nat, dx: int, dy: int): set<nat>
    requires cur < |points|
  {
    set j: nat | j < |points| && CellOf(points[j].x) - CellOf(points[cur].x) == dx
                 && CellOf(points[j].y) - CellOf(points[cur].y) == dy
  }

  /**
    The points of the cells in column offsets below dx, and of those in column dx with row offsets below dy; both
    start at -1.
  */
  ghost function EarlierSet(points: seq<Point>, cur: nat, dx: int, dy: int): set<nat>
    requires cur < |points|
  {
    set j: nat | j < |points| && InEarlierCell(points, cur, j, dx, dy)
  }

  ghost predicate InEarlierCell(points: seq<Point>, cur: nat, j: nat, dx: int, dy: int)
    requires cur < |points| && j < |points|
  {
    var ex, ey := CellOf(points[j].x) - CellOf(points[cur].x), CellOf(points[j].y) - CellOf(points[cur].y);
    (-1 <= ex < dx && -1 <= ey <= 1) || (ex == dx && -1 <= ey < dy)
  }

  /** The list of the cell at the offset (dx, dy) from cur's. */
  function Lookup(points: seq<Point>, grid: map<int, seq<nat>>, cur: nat, dx: int, dy: int): seq<nat>
    requires cur < |points|
  {
    var key := CellKey(CellOf(points[cur].x) + dx, CellOf(points[cur].y) + dy);
    if key in grid then grid[key] else []
  }

  /** The lookup of a neighbour cell lists exactly the points of that cell. */
  lemma LookupIsCell(points: seq<Point>, grid: map<int, seq<nat>>, cur: nat, dx: int, dy: int)
    requires FitsGrid(points) && IsGrid(points, |points|, grid) && cur < |points| && -1 <= dx <= 1 && -1 <= dy <= 1
    ensures Below(Lookup(points, grid, cur, dx, dy), |points|)
    ensures Elems(Lookup(points, grid, cur, dx, dy)) == CellSet(points, cur, dx, dy)
  {
    var list := Lookup(points, grid, cur, dx, dy);
    var cx, cy := CellOf(points[cur].x) + dx, CellOf(points[cur].y) + dy;
    forall j: nat | j < |points|
      ensures j in list <==> CellOf(points[j].x) == cx && CellOf(points[j].y) == cy
    {
      CellKeyIsInjective(cx, cy, CellOf(points[j].x), CellOf(points[j].y));
      assert KeyOf(points[j]) in grid && j in grid[KeyOf(points[j])];
    }
  }

  /** The nine cells around cur hold every point near it. */
  lemma NearIsInNineCells(points: seq<Point>, cur: nat)
    requires cur < |points|
    ensures NearOf(points, cur) <= EarlierSet(points, cur, 2, -1)
  {
    forall j | j in NearOf(points, cur)
      ensures j in EarlierSet(points, cur, 2, -1)
    {
      NearIsAdjacent(points[cur], points[j]);
    }
  }

  /** Visits every unvisited point near cur, by looking into the 3x3 cells around it. */
  method VisitNeighbors(points: seq<Point>, grid: map<int, seq<nat>>, cur: nat, visited: array<bool>)
    returns (added: seq<nat>)
    requires FitsGrid(points) && IsGrid(points, |points|, grid) && cur < |points| == visited.Length
    modifies visited
    ensures NoRepeats(added) && Elems(added) == NearOf(points, cur) - Visited(old(visited[..]))
    ensures Visited(visited[..]) == Visited(old(visited[..])) + Elems(added)
  {
    ghost var before := Visited(visited[..]);
    added := [];
    assert EarlierSet(points, cur, -1, -1) == {};
    hide FitsGrid, IsGrid, NearOf;
    for dx := -1 to 2
      invariant Adds(points, cur, EarlierSet(points, cur, dx, -1), before, added)
      invariant Visited(visited[..]) == before + Elems(added)
    {
      for dy := -1 to 2
        invariant Adds(points, cur, EarlierSet(points, cur, dx, dy), before, added)
        invariant Visited(visited[..]) == before + Elems(added)
      {
        LookupIsCell(points, grid, cur, dx, dy);
        var more := VisitCell(points, cur, Lookup(points, grid, cur, dx, dy), visited);
        AddsMore(points, cur, EarlierSet(points, cur, dx, dy), CellSet(points, cur, dx, dy), before, added, more);
        assert EarlierSet(points, cur, dx, dy + 1) == EarlierSet(points, cur, dx, dy) + CellSet(points, cur, dx, dy);
        assert before + Elems(added) + Elems(more) == before + Elems(added + more);
        added := added + more;
      }
      assert EarlierSet(points, cur, dx, 2) == EarlierSet(points, cur, dx + 1, -1);
    }
    NearIsInNineCells(points, cur);
  }

  // ------------------------------------------------------------------ growing one cluster

  predicate IsIndex(points: seq<Point>, j: nat) { j < |points| }

  ghost function All(points: seq<Point>): set<nat> { set j: nat | j < |points| && IsIndex(points, j) }

  /** The search from i so far: visited points are the old ones, those taken, and those queued. */
  ghost predicate Searching(points: seq<Point>, i: nat, before: set<nat>, visited: set<nat>, cluster: seq<nat>,
                            queue: seq<nat>) {
    && [i] <= cluster + queue
    && NoRepeats(cluster + queue)
    && Elems(cluster + queue) !! before
    && visited == before + Elems(cluster + queue)
    && (forall j :: j in cluster + queue ==> j < |points| && Connected(points, i, j))
    && forall j :: j in cluster ==> j < |points| && NearOf(points, j) <= visited
  }

  lemma SearchStep(points: seq<Point>, i: nat, before: set<nat>, visited: set<nat>, cluster: seq<nat>, queue: seq<nat>,
                   added: seq<nat>)
    requires Searching(points, i, before, visited, cluster, queue) && queue != [] && queue[0] < |points|
    requires NoRepeats(added) && Elems(added) == NearOf(points, queue[0]) - visited
    ensures Searching(points, i, before, visited + Elems(added), cluster + [queue[0]], queue[1..] + added)
  {
    var old_list, cur := cluster + queue, queue[0];
    var list := cluster + [cur] + (queue[1..] + added);
    assert list == old_list + added;
    assert cur in old_list;
    assert forall j :: j in list <==> j in old_list || j in added;
    assert Elems(list) == Elems(old_list) + Elems(added);
    forall a, b | 0 <= a < b < |list|
      ensures list[a] != list[b]
    {
      if a < |old_list| <= b { assert list[a] in Elems(old_list) && list[b] in Elems(added); }
    }
    forall j | j in added
      ensures j < |points| && Connected(points, i, j)
    {
      assert j in Elems(added);
      ConnectedStep(points, i, cur, j);
    }
  }

  lemma SearchEnds(points: seq<Point>, i: nat, before: set<nat>, visited: set<nat>, cluster: seq<nat>)
    requires Searching(points, i, before, visited, cluster, []) && Closed(points, before) && i < |points|
    ensures cluster != [] && cluster[0] == i && NoRepeats(cluster)
    ensures Elems(cluster) == Component(points, i) && visited == before + Elems(cluster) && Closed(points, visited)
  {
    assert cluster + [] == cluster;
    forall j: nat, k: nat | j in Elems(cluster) && j < |points| && k < |points| && Near(points[j], points[k])
      ensures k in Elems(cluster)
    {
      assert k in NearOf(points, j);
      if k in before {
        NearIsSymmetric(points[j], points[k]);
        ClosedStep(points, before, k, j);
      }
    }
    assert cluster + [] == cluster && cluster[0] == i;
    assert i in Elems(cluster);
    ClosedIsComponent(points, Elems(cluster), i);
  }

  /** The breadth-first search from the unvisited point i visits exactly its component. */
  method Grow(points: seq<Point>, grid: map<int, seq<nat>>, i: nat, visited: array<bool>) returns (cluster: seq<nat>)
    requires FitsGrid(points) && IsGrid(points, |points|, grid) && i < |points| == visited.Length
    requires !visited[i] && Closed(points, Visited(visited[..]))
    modifies visited
    ensures cluster != [] && cluster[0] == i && NoRepeats(cluster) && Elems(cluster) == Component(points, i)
    ensures Visited(visited[..]) == Visited(old(visited[..])) + Elems(cluster) && Closed(points, Visited(visited[..]))
  {
    ghost var before := Visited(visited[..]);
    cluster := [];
    visited[i] := true;
    VisitOne(old(visited[..]), visited[..], i);
    var queue := [i];
    SearchStarts(points, i, before);
    while queue != []
      invariant Searching(points, i, before, Visited(visited[..]), cluster, queue)
      decreases All(points) - Elems(cluster)
    {
      var cur := queue[0];
      QueueHeadIsNew(points, i, before, Visited(visited[..]), cluster, queue);
      ghost var reached := Visited(visited[..]);
      hide Searching;
      var added := VisitNeighbors(points, grid, cur, visited);
      SearchStep(points, i, before, reached, cluster, queue, added);
      assert Elems(cluster + [cur]) == Elems(cluster) + {cur};
      queue := queue[1..] + added;
      cluster := cluster + [cur];
    }
    SearchEnds(points, i, before, Visited(visited[..]), cluster);
  }

  lemma SearchStarts(points: seq<Point>, i: nat, before: set<nat>)
    requires i < |points| && i !in before
    ensures Searching(points, i, before, before + {i}, [], [i])
  {
    ConnectedToSelf(points, i);
    assert [] + [i] == [i] && Elems([i]) == {i};
  }

  lemma QueueHeadIsNew(points: seq<Point>, i: nat, before: set<nat>, visited: set<nat>, cluster: seq<nat>,
                       queue: seq<nat>)
    requires Searching(points, i, before, visited, cluster, queue) && queue != []
    ensures queue[0] < |points| && queue[0] in All(points) - Elems(cluster)
  {
    var list := cluster + queue;
    assert list[|cluster|] == queue[0] && queue[0] in list;
    assert forall k :: 0 <= k < |cluster| ==> list[k] == cluster[k];
  }

  // ------------------------------------------------------------------ all clusters

  lemma ConnectedPrepend(points: seq<Point>, i: nat, j: nat, k: nat)
    requires Connected(points, j, k) && i < |points| && j < |points| && Near(points[i], points[j])
    ensures Connected(points, i, k)
  {
    var walk :| Joins(points, walk, j, k);
    var longer := [i] + walk;
    forall m | 0 <= m < |longer| - 1
      ensures Near(points[longer[m]], points[longer[m + 1]])
    {
      if m > 0 { assert longer[m] == walk[m - 1] && longer[m + 1] == walk[m]; }
    }
    assert Joins(points, longer, i, k);
  }

  lemma {:induction false} WalkReverses(points: seq<Point>, walk: seq<nat>)
    requires IsWalk(points, walk)
    ensures Connected(points, walk[|walk| - 1], walk[0])
    decreases |walk|
  {
    var n := |walk|;
    if n == 1 {
      ConnectedToSelf(points, walk[0]);
    } else {
      var shorter := walk[..n - 1];
      assert forall k :: 0 <= k < |shorter| ==> shorter[k] == walk[k];
      assert IsWalk(points, shorter);
      WalkReverses(points, shorter);
      assert Near(points[walk[n - 2]], points[walk[n - 2 + 1]]);
      NearIsSymmetric(points[walk[n - 2]], points[walk[n - 1]]);
      ConnectedPrepend(points, walk[n - 1], walk[n - 2], walk[0]);
    }
  }

  lemma ConnectedIsSymmetric(points: seq<Point>, i: nat, j: nat)
    requires Connected(points, i, j)
    ensures Connected(points, j, i)
  {
    var walk :| Joins(points, walk, i, j);
    WalkReverses(points, walk);
  }

  /** k is the first point of its component. */
  ghost predicate IsFirst(points: seq<Point>, k: nat) {
    k < |points| && forall j :: j in Component(points, k) ==> k <= j
  }

  /** The points connected to one of the first n points. */
  ghost predicate CoversFirst(points: seq<Point>, visited: set<nat>, n: nat) {
    forall j: nat :: j in visited <==> j < |points| && exists k: nat :: k < n && Connected(points, k, j)
  }

  lemma UnvisitedIsFirst(points: seq<Point>, visited: set<nat>, i: nat)
    requires i < |points| && CoversFirst(points, visited, i)
    ensures i !in visited <==> IsFirst(points, i)
  {
    if i in visited {
      var k: nat :| k < i && Connected(points, k, i);
      ConnectedIsSymmetric(points, k, i);
      assert k in Component(points, i);
    } else if !IsFirst(points, i) {
      var j :| j in Component(points, i) && j < i;
      ConnectedIsSymmetric(points, i, j);
    }
  }

  /** The size of a component is admitted. */
  ghost predicate IsAdmitted(points: seq<Point>, k: nat) {
    MIN_CLUSTER_SIZE <= |Component(points, k)| <= MAX_CLUSTER_SIZE
  }

  /** cluster lists the component of its first index, once each, and the component's size is admitted. */
  ghost predicate IsCluster(points: seq<Point>, cluster: seq<nat>) {
    cluster != [] && NoRepeats(cluster) && Elems(cluster) == Component(points, cluster[0])
    && IsFirst(points, cluster[0]) && IsAdmitted(points, cluster[0])
  }

  /** Some cluster's first point is k. */
  ghost predicate StartsAt(clusters: seq<seq<nat>>, k: nat) { exists c :: c in clusters && c != [] && c[0] == k }

  /** Increasing first points. */
  ghost predicate InOrder(clusters: seq<seq<nat>>) {
    forall a, b :: 0 <= a < b < |clusters| ==> clusters[a] != [] && clusters[b] != [] && clusters[a][0] < clusters[b][0]
  }

  /** Clusters of the given kind only, in order, one for each wanted first point below n. */
  ghost predicate Lists(clusters: seq<seq<nat>>, isCluster: seq<nat> -> bool, isWanted: nat -> bool, n: nat) {
    && (forall c :: c in clusters ==> c != [] && c[0] < n && isCluster(c))
    && InOrder(clusters)
    && forall k: nat :: k < n && isWanted(k) ==> StartsAt(clusters, k)
  }

  ghost function ClusterTest(points: seq<Point>): seq<nat> -> bool { c => IsCluster(points, c) }

  /** A point is wanted as the first of a cluster. */
  ghost function WantedTest(points: seq<Point>): nat -> bool { (k: nat) => IsFirst(points, k) && IsAdmitted(points, k) }

  /** The clusters of the components that start among the first n points, in order of their first point. */
  ghost predicate AreClusters(points: seq<Point>, clusters: seq<seq<nat>>, n: nat) {
    Lists(clusters, ClusterTest(points), WantedTest(points), n)
  }

  lemma ListsSkip(clusters: seq<seq<nat>>, isCluster: seq<nat> -> bool, isWanted: nat -> bool, n: nat)
    requires Lists(clusters, isCluster, isWanted, n) && !isWanted(n)
    ensures Lists(clusters, isCluster, isWanted, n + 1)
  {
    hide InOrder;
  }

  lemma ListsAdd(clusters: seq<seq<nat>>, isCluster: seq<nat> -> bool, isWanted: nat -> bool, n: nat, cluster: seq<nat>)
    requires Lists(clusters, isCluster, isWanted, n) && cluster != [] && cluster[0] == n && isCluster(cluster)
    ensures Lists(clusters + [cluster], isCluster, isWanted, n + 1)
  {
    var all := clusters + [cluster];
    assert cluster in all;
    assert forall c :: c in all <==> c in clusters || c == cluster;
    forall a, b | 0 <= a < b < |all|
      ensures all[a] != [] && all[b] != [] && all[a][0] < all[b][0]
    {
      assert all[a] in clusters;
      if b < |clusters| { assert all[b] == clusters[b]; }
    }
    forall k: nat | k <= n && isWanted(k)
      ensures StartsAt(all, k)
    {
      if k < n {
        assert StartsAt(clusters, k);
        var c :| c in clusters && c != [] && c[0] == k;
        assert c in all;
      }
    }
  }

  lemma {:induction false} NoRepeatsSize(s: seq<nat>)
    requires NoRepeats(s)
    ensures |Elems(s)| == |s|
  {
    if s != [] {
      var t := s[..|s| - 1];
      NoRepeatsSize(t);
      assert s == t + [s[|s| - 1]];
      assert Elems(s) == Elems(t) + {s[|s| - 1]};
    }
  }

  lemma CoversNext(points: seq<Point>, visited: set<nat>, i: nat)
    requires i < |points| && CoversFirst(points, visited, i)
    ensures i !in visited ==> CoversFirst(points, visited + Component(points, i), i + 1)
    ensures i in visited && Closed(points, visited) ==> CoversFirst(points, visited, i + 1)
  {
    if i in visited && Closed(points, visited) {
      forall j: nat | j < |points| && Connected(points, i, j)
        ensures j in visited
      {
        var walk :| Joins(points, walk, i, j);
        WalkStaysInside(points, visited, walk);
      }
    }
  }

  lemma ClustersSkip(points: seq<Point>, clusters: seq<seq<nat>>, i: nat)
    requires AreClusters(points, clusters, i) && !IsFirst(points, i)
    ensures AreClusters(points, clusters, i + 1)
  {
    hide Lists, IsFirst;
    ListsSkip(clusters, ClusterTest(points), WantedTest(points), i);
  }

  lemma ClustersNext(points: seq<Point>, clusters: seq<seq<nat>>, i: nat, cluster: seq<nat>)
    requires i < |points| && AreClusters(points, clusters, i) && IsFirst(points, i)
    requires cluster != [] && cluster[0] == i && NoRepeats(cluster) && Elems(cluster) == Component(points, i)
    ensures MIN_CLUSTER_SIZE <= |cluster| <= MAX_CLUSTER_SIZE ==> AreClusters(points, clusters + [cluster], i + 1)
    ensures !(MIN_CLUSTER_SIZE <= |cluster| <= MAX_CLUSTER_SIZE) ==> AreClusters(points, clusters, i + 1)
  {
    hide Lists, IsFirst, Component, NoRepeats, Elems;
    NoRepeatsSize(cluster);
    if IsAdmitted(points, i) {
      ListsAdd(clusters, ClusterTest(points), WantedTest(points), i, cluster);
    } else {
      ListsSkip(clusters, ClusterTest(points), WantedTest(points), i);
    }
  }

  /**
    The clusters are exactly the connected components of 3 to 1000 points, each listed once, in order of
    their first point; no point is in two of them.
  */
  method Cluster(points: seq<Point>) returns (clusters: seq<seq<nat>>)
    requires FitsGrid(points)
    ensures AreClusters(points, clusters, |points|)
  {
    hide FitsGrid, IsGrid, AreClusters, Closed, CoversFirst, IsFirst, Component, Visited, Elems, NoRepeats;
    NothingYet(points);
    clusters := [];
    if |points| == 0 || CLUSTER_TOLERANCE_M <= 0.0 {
      return;
    }
    var grid := BuildGrid(points);
    var visited := new bool[|points|](_ => false);
    NothingVisited(visited[..]);
    for i := 0 to |points|
      invariant AreClusters(points, clusters, i)
      invariant CoversFirst(points, Visited(visited[..]), i) && Closed(points, Visited(visited[..]))
    {
      ghost var before := Visited(visited[..]);
      UnvisitedIsFirst(points, before, i);
      CoversNext(points, before, i);
      VisitedAt(visited[..], i);
      if visited[i] {
        ClustersSkip(points, clusters, i);
        continue;
      }
      var cluster := Grow(points, grid, i, visited);
      ClustersNext(points, clusters, i, cluster);
      if |cluster| < MIN_CLUSTER_SIZE { continue; }
      if |cluster| > MAX_CLUSTER_SIZE { continue; }
      clusters := clusters + [cluster];
    }
  }

  lemma NothingVisited(visited: seq<bool>)
    requires forall i :: 0 <= i < |visited| ==> !visited[i]
    ensures Visited(visited) == {}
  {
  }

  lemma VisitedAt(visited: seq<bool>, i: nat)
    requires i < |visited|
    ensures visited[i] <==> i in Visited(visited)
  {
  }

  lemma NothingYet(points: seq<Point>)
    ensures AreClusters(points, [], 0) && CoversFirst(points, {}, 0) && Closed(points, {})
  {
  }

  function Gridded(grid: map<int, seq<nat>>, key: int, i: nat): map<int, seq<nat>> {
    grid[key := (if key in grid then grid[key] else []) + [i]]
  }

  lemma GridGrows(points: seq<Point>, n: nat, grid: map<int, seq<nat>>)
    requires n < |points| && IsGrid(points, n, grid)
    ensures IsGrid(points, n + 1, Gridded(grid, KeyOf(points[n]), n))
  {
    hide KeyOf;
    var key := KeyOf(points[n]);
    var list := if key in grid then grid[key] else [];
    assert forall j :: j in list + [n] <==> j in list || j == n;
  }

  method BuildGrid(points: seq<Point>) returns (grid: map<int, seq<nat>>)
    ensures IsGrid(points, |points|, grid)
  {
    grid := map[];
    assert IsGrid(points, 0, grid);
    hide IsGrid;
    for i := 0 to |points|
      invariant IsGrid(points, i, grid)
    {
      GridGrows(points, i, grid);
      grid := Gridded(grid, KeyOf(points[i]), i);
    }
  }

  /** No point is in two clusters. */
  lemma ClustersAreDisjoint(points: seq<Point>, clusters: seq<seq<nat>>, a: nat, b: nat, j: nat)
    requires AreClusters(points, clusters, |points|) && a < b < |clusters| && j in clusters[a]
    ensures j !in clusters[b]
  {
    var c, d := clusters[a], clusters[b];
    assert c in clusters && d in clusters;
    if j in d {
      assert j in Component(points, c[0]) && j in Component(points, d[0]) by { assert j in Elems(c) && j in Elems(d); }
      ConnectedIsSymmetric(points, d[0], j);
      ConnectedJoins(points, c[0], j, d[0]);
      ConnectedIsSymmetric(points, c[0], d[0]);
      FirstIsLeast(points, d[0], c[0]);
    }
  }

  lemma FirstIsLeast(points: seq<Point>, k: nat, j: nat)
    requires IsFirst(points, k) && j < |points| && Connected(points, k, j)
    ensures k <= j
  {
    assert j in Component(points, k);
  }

  lemma ConnectedJoins(points: seq<Point>, i: nat, j: nat, k: nat)
    requires Connected(points, i, j) && Connected(points, j, k)
    ensures Connected(points, i, k)
  {
    var v :| Joins(points, v, i, j);
    var w :| Joins(points, w, j, k);
    var both := v + w[1..];
    forall m | 0 <= m < |both| - 1
      ensures Near(points[both[m]], points[both[m + 1]])
    {
      if m + 1 >= |v| {
        assert both[m + 1] == w[m + 2 - |v|] && both[m] == w[m + 1 - |v|];
        assert Near(points[w[m + 1 - |v|]], points[w[m + 1 - |v| + 1]]);
      }
    }
    assert Joins(points, both, i, k);
  }

  lemma SameComponent(points: seq<Point>, i: nat, j: nat)
    requires i < |points| && j in Component(points, i)
    ensures Component(points, i) == Component(points, j)
  {
    ConnectedIsSymmetric(points, i, j);
    forall k | k in Component(points, i)
      ensures k in Component(points, j)
    {
      ConnectedJoins(points, j, i, k);
    }
    forall k | k in Component(points, j)
      ensures k in Component(points, i)
    {
      ConnectedJoins(points, i, j, k);
    }
  }

  /**
    A point is in some cluster exactly when 3 to 1000 points are connected to it, and that cluster lists
    exactly the points connected to it.
  */
  lemma ClusteredIffComponentAdmitted(points: seq<Point>, clusters: seq<seq<nat>>, j: nat)
    requires AreClusters(points, clusters, |points|) && j < |points|
    ensures (exists c :: c in clusters && j in c) <==> 3 <= |Component(points, j)| <= 1000
    ensures forall c :: c in clusters && j in c ==> Elems(c) == Component(points, j)
  {
    forall c: seq<nat> | c in clusters && j in c
      ensures Elems(c) == Component(points, j) && IsAdmitted(points, j)
    {
      assert j in Elems(c);
      SameComponent(points, c[0], j);
    }
    if IsAdmitted(points, j) {
      ConnectedToSelf(points, j);
      var k := LeastExists(Component(points, j), j);
      SameComponent(points, j, k);
      assert WantedTest(points)(k);
      assert StartsAt(clusters, k);
      var c :| c in clusters && c != [] && c[0] == k;
      assert ClusterTest(points)(c);
      assert j in Elems(c);
    }
  }
}
