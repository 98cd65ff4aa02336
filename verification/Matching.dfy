/**
  The matching both the SLAM frontend and the cone classifier use: links are taken in order of distance,
  skipping those with a side already taken.

  The main result is GreedyIsTheStableMatching: the greedy result is the only one-to-one set of links in
  which every link left out shares a side with a chosen link that comes earlier in the order.
*/
module Matching {
  import opened Sequences

  /** A possible match between item left and item right. */
  datatype Link = Link(dist: real, left: nat, right: nat)

  /** Lexicographic order on (dist, left, right), as std::tie and std::tuple compare. */
  predicate Before(a: Link, b: Link) {
    || a.dist < b.dist
    || (a.dist == b.dist && (a.left < b.left || (a.left == b.left && a.right < b.right)))
  }

  predicate Shares(a: Link, b: Link) { a.left == b.left || a.right == b.right }

  // ------------------------------------------------------------------ sorting

  ghost predicate Ordered(s: seq<Link>) { forall i, j :: 0 <= i < j < |s| ==> Before(s[i], s[j]) || s[i] == s[j] }

  function Insert(x: Link, s: seq<Link>): (r: seq<Link>)
    ensures multiset(r) == multiset(s) + multiset{x}
  {
    if s == [] then [x]
    else if Before(s[0], x) then
      assert s == [s[0]] + s[1..];
      [s[0]] + Insert(x, s[1..])
    else [x] + s
  }

  /** The links in increasing order: what std::sort leaves. */
  function Sorted(s: seq<Link>): (r: seq<Link>)
    ensures multiset(r) == multiset(s)
  {
    if s == [] then []
    else
      assert s == [s[0]] + s[1..];
      Insert(s[0], Sorted(s[1..]))
  }

  lemma InsertKeepsOrder(x: Link, s: seq<Link>)
    requires Ordered(s)
    ensures Ordered(Insert(x, s))
  {
    hide Before;
    if s != [] {
      TailIsOrdered(s);
      if Before(s[0], x) {
        InsertKeepsOrder(x, s[1..]);
        InsertHas(x, s[1..]);
        ConsIsOrdered(s[0], Insert(x, s[1..]));
      } else {
        BeforeIsTotal(s[0], x);
        forall y | y in s
          ensures Before(x, y) || x == y
        {
          FirstIsBefore(s, y);
          BeforeIsTransitive(x, s[0], y);
        }
        ConsIsOrdered(x, s);
      }
    }
  }

  lemma BeforeIsTotal(a: Link, b: Link)
    ensures Before(a, b) || Before(b, a) || a == b
  {
  }

  lemma BeforeIsTransitive(a: Link, b: Link, c: Link)
    ensures (Before(a, b) || a == b) && (Before(b, c) || b == c) ==> Before(a, c) || a == c
  {
  }

  lemma TailIsOrdered(s: seq<Link>)
    requires s != [] && Ordered(s)
    ensures Ordered(s[1..]) && forall y :: y in s[1..] ==> Before(s[0], y) || s[0] == y
  {
    hide Before;
  }

  lemma FirstIsBefore(s: seq<Link>, y: Link)
    requires Ordered(s) && y in s
    ensures Before(s[0], y) || s[0] == y
  {
    hide Before;
  }

  lemma ConsIsOrdered(x: Link, s: seq<Link>)
    requires Ordered(s) && forall y :: y in s ==> Before(x, y) || x == y
    ensures Ordered([x] + s)
  {
    hide Before;
    assert forall i :: 0 <= i < |s| ==> s[i] in s;
  }

  lemma InsertHas(x: Link, s: seq<Link>)
    ensures forall y :: y in Insert(x, s) <==> y == x || y in s
  {
    forall y
      ensures y in Insert(x, s) <==> y == x || y in s
    {
      assert y in Insert(x, s) <==> y in multiset(Insert(x, s));
      assert y in s <==> y in multiset(s);
    }
  }

  lemma SortedIsOrdered(s: seq<Link>)
    ensures Ordered(Sorted(s))
  {
    if s != [] {
      SortedIsOrdered(s[1..]);
      InsertKeepsOrder(s[0], Sorted(s[1..]));
    }
  }

  lemma SortedHasSameElems(s: seq<Link>)
    ensures forall x :: x in Sorted(s) <==> x in s
    ensures Elems(Sorted(s)) == Elems(s)
    ensures NoRepeats(s) ==> NoRepeats(Sorted(s))
  {
    var r := Sorted(s);
    forall x ensures x in r <==> x in s { assert x in r <==> x in multiset(r); assert x in s <==> x in multiset(s); }
    if NoRepeats(s) { NoRepeatsIsOnce(s); NoRepeatsIsOnce(r); }
  }

  /** Every element occurs once. */
  ghost predicate IsOnce<T(!new)>(s: seq<T>) { forall x :: x in multiset(s) ==> multiset(s)[x] == 1 }

  lemma NoRepeatsCons<T(!new)>(s: seq<T>)
    requires s != []
    ensures NoRepeats(s) <==> NoRepeats(s[1..]) && s[0] !in s[1..]
  {
    if NoRepeats(s[1..]) && s[0] !in s[1..] {
      forall i, j | 0 <= i < j < |s|
        ensures s[i] != s[j]
      {
        assert s[j] == s[1..][j - 1] && s[j] in s[1..];
        if i > 0 { assert s[i] == s[1..][i - 1]; }
      }
    }
  }

  lemma IsOnceCons<T(!new)>(s: seq<T>)
    requires s != []
    ensures IsOnce(s) <==> IsOnce(s[1..]) && s[0] !in s[1..]
  {
    var m := multiset(s[1..]);
    assert s == [s[0]] + s[1..];
    assert multiset(s) == multiset{s[0]} + m;
    assert s[0] in s[1..] <==> s[0] in m;
    assert forall x :: x != s[0] ==> multiset(s)[x] == m[x];
    assert multiset(s)[s[0]] == 1 + m[s[0]];
  }

  lemma {:induction false} NoRepeatsIsOnce<T(!new)>(s: seq<T>)
    ensures NoRepeats(s) <==> IsOnce(s)
  {
    if s != [] {
      hide NoRepeats, IsOnce;
      NoRepeatsIsOnce(s[1..]);
      NoRepeatsCons(s);
      IsOnceCons(s);
    }
  }

  // ------------------------------------------------------------------ the greedy pass

  /** The links taken from ps in order when the sides in lefts and rights are already taken. */
  function Greedy(ps: seq<Link>, lefts: set<nat>, rights: set<nat>): seq<Link> {
    if ps == [] then []
    else if ps[0].left in lefts || ps[0].right in rights then Greedy(ps[1..], lefts, rights)
    else [ps[0]] + Greedy(ps[1..], lefts + {ps[0].left}, rights + {ps[0].right})
  }

  ghost predicate OneToOne(m: set<Link>) { forall a, b :: a in m && b in m && a != b ==> !Shares(a, b) }

  /** p shares a side with an earlier link of m. */
  ghost predicate Blocked(m: set<Link>, p: Link) { exists q :: q in m && Before(q, p) && Shares(q, p) }

  /** A one-to-one choice from es in which only blocked links are left out. */
  ghost predicate Stable(m: set<Link>, es: set<Link>) {
    m <= es && OneToOne(m) && forall p :: p in es ==> p in m || Blocked(m, p)
  }

  /** No two of the links share a side. */
  ghost predicate Disjoint(ms: seq<Link>) { forall i, j :: 0 <= i < j < |ms| ==> !Shares(ms[i], ms[j]) }

  lemma GreedyTakesFreeLinks(ps: seq<Link>, lefts: set<nat>, rights: set<nat>)
    ensures forall m :: m in Greedy(ps, lefts, rights) ==> m in ps && m.left !in lefts && m.right !in rights
  {
  }

  lemma ConsIsDisjoint(p: Link, ms: seq<Link>)
    requires Disjoint(ms) && forall m :: m in ms ==> m.left != p.left && m.right != p.right
    ensures Disjoint([p] + ms)
  {
    var s := [p] + ms;
    forall i, j | 0 <= i < j < |s|
      ensures !Shares(s[i], s[j])
    {
      assert s[j] == ms[j - 1] && ms[j - 1] in ms;
    }
  }

  lemma {:induction false} GreedyIsOneToOne(ps: seq<Link>, lefts: set<nat>, rights: set<nat>)
    ensures Disjoint(Greedy(ps, lefts, rights))
  {
    if ps != [] {
      if ps[0].left in lefts || ps[0].right in rights {
        GreedyIsOneToOne(ps[1..], lefts, rights);
        assert Greedy(ps, lefts, rights) == Greedy(ps[1..], lefts, rights);
      } else {
        var rest := Greedy(ps[1..], lefts + {ps[0].left}, rights + {ps[0].right});
        GreedyIsOneToOne(ps[1..], lefts + {ps[0].left}, rights + {ps[0].right});
        GreedyTakesFreeLinks(ps[1..], lefts + {ps[0].left}, rights + {ps[0].right});
        ConsIsDisjoint(ps[0], rest);
      }
    }
  }

  /** The pass keeps the order of the links. */
  lemma {:induction false} GreedyKeepsOrder(ps: seq<Link>, lefts: set<nat>, rights: set<nat>)
    requires Ordered(ps)
    ensures Ordered(Greedy(ps, lefts, rights))
  {
    hide Before;
    if ps != [] {
      TailIsOrdered(ps);
      if ps[0].left in lefts || ps[0].right in rights {
        GreedyKeepsOrder(ps[1..], lefts, rights);
        assert Greedy(ps, lefts, rights) == Greedy(ps[1..], lefts, rights);
      } else {
        var rest := Greedy(ps[1..], lefts + {ps[0].left}, rights + {ps[0].right});
        GreedyKeepsOrder(ps[1..], lefts + {ps[0].left}, rights + {ps[0].right});
        GreedyTakesFreeLinks(ps[1..], lefts + {ps[0].left}, rights + {ps[0].right});
        ConsIsOrdered(ps[0], rest);
      }
    }
  }

  /** A link the pass leaves out has a side taken before the pass or shares one with an earlier chosen link. */
  lemma {:induction false} GreedyLeavesOnlyBlocked(ps: seq<Link>, lefts: set<nat>, rights: set<nat>, p: Link)
    requires Ordered(ps) && NoRepeats(ps) && p in ps
    ensures var ms := Greedy(ps, lefts, rights);
            || p in ms || p.left in lefts || p.right in rights
            || exists q :: q in ms && Before(q, p) && Shares(q, p)
  {
    if p != ps[0] {
      var i :| 0 <= i < |ps| && ps[i] == p;
      assert p == ps[1..][i - 1];
      if ps[0].left in lefts || ps[0].right in rights {
        GreedyLeavesOnlyBlocked(ps[1..], lefts, rights, p);
      } else {
        var ms := Greedy(ps, lefts, rights);
        GreedyLeavesOnlyBlocked(ps[1..], lefts + {ps[0].left}, rights + {ps[0].right}, p);
        assert ms[0] == ps[0] && Before(ps[0], p);
        if Shares(ps[0], p) { assert ps[0] in ms; }
        assert forall q :: q in ms[1..] ==> q in ms;
      }
    }
  }

  /** Along the order, membership of a stable choice is decided by the earlier members. */
  lemma {:induction false} StableChoicesAgree(s: seq<Link>, m: set<Link>, n: set<Link>, k: nat)
    requires Ordered(s) && NoRepeats(s) && k < |s|
    requires Stable(m, Elems(s)) && Stable(n, Elems(s))
    ensures s[k] in m <==> s[k] in n
    decreases k
  {
    forall j | 0 <= j < k
      ensures s[j] in m <==> s[j] in n
    {
      StableChoicesAgree(s, m, n, j);
    }
    if s[k] in m && s[k] !in n { EarlierBlockerClashes(s, m, n, k); }
    if s[k] in n && s[k] !in m { EarlierBlockerClashes(s, n, m, k); }
  }

  lemma EarlierBlockerClashes(s: seq<Link>, m: set<Link>, n: set<Link>, k: nat)
    requires Ordered(s) && NoRepeats(s) && k < |s|
    requires Stable(m, Elems(s)) && Stable(n, Elems(s))
    requires forall j :: 0 <= j < k ==> (s[j] in m <==> s[j] in n)
    requires s[k] in m
    ensures s[k] in n
  {
  }

  /** Two stable choices from the same links are the same. */
  lemma StableIsUnique(ps: seq<Link>, m: set<Link>, n: set<Link>)
    requires NoRepeats(ps) && Stable(m, Elems(ps)) && Stable(n, Elems(ps))
    ensures m == n
  {
    var s := Sorted(ps);
    SortedIsOrdered(ps);
    SortedHasSameElems(ps);
    forall p | p in Elems(s)
      ensures p in m <==> p in n
    {
      var k :| 0 <= k < |s| && s[k] == p;
      StableChoicesAgree(s, m, n, k);
    }
  }

  /**
    The greedy choice from the links ps, closest first, is the unique stable choice: it is one-to-one,
    every link left out shares a side with a chosen link before it, and no other set of links is so.
  */
  lemma GreedyIsTheStableMatching(ps: seq<Link>, lefts: set<nat>, m: set<Link>)
    requires NoRepeats(ps) && forall p :: p in ps ==> p.left !in lefts
    ensures Stable(m, Elems(ps)) <==> m == Elems(Greedy(Sorted(ps), lefts, {}))
  {
    var s := Sorted(ps);
    var ms := Greedy(s, lefts, {});
    SortedIsOrdered(ps);
    SortedHasSameElems(ps);
    GreedyTakesFreeLinks(s, lefts, {});
    GreedyIsOneToOne(s, lefts, {});
    assert OneToOne(Elems(ms));
    assert Stable(Elems(ms), Elems(ps)) by {
      forall p | p in Elems(ps)
        ensures p in Elems(ms) || Blocked(Elems(ms), p)
      {
        GreedyLeavesOnlyBlocked(s, lefts, {}, p);
      }
    }
    if Stable(m, Elems(ps)) { StableIsUnique(ps, m, Elems(ms)); }
  }

  // ------------------------------------------------------------------ from a distance table to links

  /** The distances a match may have. */
  datatype Gate = UpTo(limit: real) | Below(limit: real) {
    predicate Admits(d: real) { if UpTo? then d <= limit else d < limit }
  }

  /** The admitted links of the first n columns of row d. */
  function RowLinks(row: seq<real>, d: nat, n: nat, gate: Gate): seq<Link>
    requires n <= |row|
  {
    if n == 0 then []
    else RowLinks(row, d, n - 1, gate) + (if gate.Admits(row[n - 1]) then [Link(row[n - 1], d, n - 1)] else [])
  }

  /** The admitted links of the first n rows, without the rows in use. */
  function TableLinks(table: seq<seq<real>>, used: seq<bool>, n: nat, gate: Gate): seq<Link>
    requires n <= |table| == |used|
  {
    if n == 0 then []
    else
      var row := if used[n - 1] then [] else RowLinks(table[n - 1], n - 1, |table[n - 1]|, gate);
      TableLinks(table, used, n - 1, gate) + row
  }

  /** An unused row and a column whose distance the gate admits. */
  predicate IsCandidate(table: seq<seq<real>>, used: seq<bool>, gate: Gate, p: Link)
    requires |table| == |used|
  {
    && p.left < |table| && !used[p.left]
    && p.right < |table[p.left]| && p.dist == table[p.left][p.right]
    && gate.Admits(p.dist)
  }

  /** p is the admitted link of some column below n of row d. */
  predicate InRow(row: seq<real>, d: nat, n: nat, gate: Gate, p: Link)
    requires n <= |row|
  {
    p.left == d && p.right < n && p.dist == row[p.right] && gate.Admits(p.dist)
  }

  lemma {:induction false} RowLinksAre(row: seq<real>, d: nat, n: nat, gate: Gate)
    requires n <= |row|
    ensures forall p :: p in RowLinks(row, d, n, gate) <==> InRow(row, d, n, gate, p)
    ensures NoRepeats(RowLinks(row, d, n, gate))
  {
    if n > 0 {
      RowLinksAre(row, d, n - 1, gate);
      var a, last := RowLinks(row, d, n - 1, gate), Link(row[n - 1], d, n - 1);
      NoRepeatsConcat(a, if gate.Admits(row[n - 1]) then [last] else []);
      forall p: Link
        ensures p in RowLinks(row, d, n, gate) <==> InRow(row, d, n, gate, p)
      {
        assert InRow(row, d, n, gate, p) <==> InRow(row, d, n - 1, gate, p) || (p == last && gate.Admits(row[n - 1]));
      }
    }
  }

  lemma {:induction false} TableLinksAre(table: seq<seq<real>>, used: seq<bool>, n: nat, gate: Gate)
    requires n <= |table| == |used|
    ensures forall p :: p in TableLinks(table, used, n, gate) <==> p.left < n && IsCandidate(table, used, gate, p)
    ensures NoRepeats(TableLinks(table, used, n, gate))
  {
    hide NoRepeats, RowLinks;
    if n > 0 {
      var d := n - 1;
      TableLinksAre(table, used, d, gate);
      RowLinksAre(table[d], d, |table[d]|, gate);
      NothingRepeats<Link>();
      var a, b := TableLinks(table, used, d, gate), if used[d] then [] else RowLinks(table[d], d, |table[d]|, gate);
      forall p | p in b
        ensures p !in a
      {
      }
      NoRepeatsConcat(a, b);
      forall p: Link
        ensures p in a + b <==> p.left < n && IsCandidate(table, used, gate, p)
      {
      }
    } else {
      NothingRepeats<Link>();
    }
  }

  lemma NothingRepeats<T(!new)>()
    ensures NoRepeats<T>([])
  {
  }

  /** No row in use. */
  function NoneUsed(n: nat): (used: seq<bool>)
    ensures |used| == n
  {
    seq(n, _ => false)
  }

  function UsedRows(used: seq<bool>): set<nat> { set d: nat | d < |used| && used[d] }

  /** The matches of a distance table: the greedy choice over the candidate links, closest first. */
  function Matches(table: seq<seq<real>>, used: seq<bool>, gate: Gate): seq<Link>
    requires |table| == |used|
  {
    Greedy(Sorted(TableLinks(table, used, |table|, gate)), UsedRows(used), {})
  }

  /** The rows in use after the matches are made. */
  function Marked(used: seq<bool>, matches: seq<Link>): (r: seq<bool>)
    ensures |r| == |used|
  {
    seq(|used|, (d: nat) requires d < |used| => used[d] || exists m :: m in matches && m.left == d)
  }

  /** Every match is a candidate, and no row or column is matched twice. */
  lemma MatchesAreSound(table: seq<seq<real>>, used: seq<bool>, gate: Gate)
    requires |table| == |used|
    ensures var ms := Matches(table, used, gate);
            && (forall m :: m in ms ==> IsCandidate(table, used, gate, m))
            && Disjoint(ms)
  {
    var ps := TableLinks(table, used, |table|, gate);
    TableLinksAre(table, used, |table|, gate);
    SortedHasSameElems(ps);
    GreedyTakesFreeLinks(Sorted(ps), UsedRows(used), {});
    GreedyIsOneToOne(Sorted(ps), UsedRows(used), {});
  }

  /** Matches come in order of (distance, row, column). */
  lemma MatchesAreOrdered(table: seq<seq<real>>, used: seq<bool>, gate: Gate)
    requires |table| == |used|
    ensures Ordered(Matches(table, used, gate))
    ensures var ms := Matches(table, used, gate); forall i, j :: 0 <= i < j < |ms| ==> ms[i].dist <= ms[j].dist
  {
    var ps := TableLinks(table, used, |table|, gate);
    SortedIsOrdered(ps);
    GreedyKeepsOrder(Sorted(ps), UsedRows(used), {});
  }

  /**
    The matches are the unique stable matching of the candidates: every candidate is matched, or shares
    its row or column with a match that is earlier in (distance, row, column) order, and no other
    one-to-one set of candidates is like that.
  */
  lemma MatchesAreTheStableMatching(table: seq<seq<real>>, used: seq<bool>, gate: Gate, m: set<Link>, es: set<Link>)
    requires |table| == |used| && forall p :: p in es <==> IsCandidate(table, used, gate, p)
    ensures Stable(m, es) <==> m == Elems(Matches(table, used, gate))
  {
    var ps := TableLinks(table, used, |table|, gate);
    TableLinksAre(table, used, |table|, gate);
    assert Elems(ps) == es;
    GreedyIsTheStableMatching(ps, UsedRows(used), m);
  }

  /** p and q share a row or a column, and q is the closer or, at the same distance, the first by row, then column. */
  predicate Outbids(q: Link, p: Link) {
    && (q.left == p.left || q.right == p.right) && q.dist <= p.dist
    && (q.dist == p.dist ==> q.left < p.left || (q.left == p.left && q.right < p.right))
  }

  /** A candidate is matched, or a match outbids it. */
  lemma LeftOutIsOutbid(table: seq<seq<real>>, used: seq<bool>, gate: Gate, p: Link)
    requires |table| == |used| && IsCandidate(table, used, gate, p)
    ensures var ms := Matches(table, used, gate); p in ms || exists q :: q in ms && Outbids(q, p)
  {
    var ps := TableLinks(table, used, |table|, gate);
    TableLinksAre(table, used, |table|, gate);
    hide IsCandidate, TableLinks;
    GreedyIsTheStableMatching(ps, UsedRows(used), Elems(Matches(table, used, gate)));
    assert p in Elems(ps);
    var ms := Matches(table, used, gate);
    hide Matches;
    assert p in ms || Blocked(Elems(ms), p);
    if p !in ms { BlockedIsOutbid(ms, p); }
    hide Elems;
  }

  lemma BlockedIsOutbid(ms: seq<Link>, p: Link)
    requires Blocked(Elems(ms), p)
    ensures exists q :: q in ms && Outbids(q, p)
  {
    var q :| q in Elems(ms) && Before(q, p) && Shares(q, p);
    assert Outbids(q, p);
  }

  // ------------------------------------------------------------------ the loops

  /** The links from t on, chosen one at a time. */
  lemma GreedyStep(ps: seq<Link>, k: nat, lefts: set<nat>, rights: set<nat>)
    requires k < |ps|
    ensures Greedy(ps[k..], lefts, rights)
         == if ps[k].left in lefts || ps[k].right in rights then Greedy(ps[k + 1..], lefts, rights)
            else [ps[k]] + Greedy(ps[k + 1..], lefts + {ps[k].left}, rights + {ps[k].right})
  {
    assert ps[k..][0] == ps[k] && ps[k..][1..] == ps[k + 1..];
  }

  /** used marks exactly the indices in s. */
  ghost predicate Marks(used: seq<bool>, s: set<nat>) { forall d: nat :: d < |used| ==> (used[d] <==> d in s) }

  lemma MarksOneMore(used: seq<bool>, s: set<nat>, d: nat)
    requires Marks(used, s) && d < |used|
    ensures (used[d] <==> d in s) && Marks(used[d := true], s + {d})
  {
  }

  lemma NothingMarked(used: seq<bool>)
    requires forall d :: 0 <= d < |used| ==> !used[d]
    ensures Marks(used, {})
  {
  }

  lemma UsedRowsAreMarked(used: seq<bool>)
    ensures Marks(used, UsedRows(used))
  {
  }

  /** The rows taken so far: those in use before, and those of the matches made. */
  ghost predicate Taken(lefts: set<nat>, before: seq<bool>, matches: seq<Link>) {
    forall d: nat :: d < |before| ==> (d in lefts <==> before[d] || exists m :: m in matches && m.left == d)
  }

  lemma TakenOneMore(lefts: set<nat>, before: seq<bool>, matches: seq<Link>, m: Link)
    requires Taken(lefts, before, matches)
    ensures Taken(lefts + {m.left}, before, matches + [m])
  {
    assert forall l :: l in matches + [m] <==> l in matches || l == m;
  }

  lemma TakenIsMarked(used: seq<bool>, lefts: set<nat>, before: seq<bool>, matches: seq<Link>)
    requires |used| == |before| && Marks(used, lefts) && Taken(lefts, before, matches)
    ensures used == Marked(before, matches)
  {
  }

  /** Every link's sides are in range. */
  ghost predicate LinksFit(ms: seq<Link>, rows: nat, cols: nat) {
    forall m :: m in ms ==> m.left < rows && m.right < cols
  }

  lemma SortedLinksFit(table: seq<seq<real>>, cols: nat, used: seq<bool>, gate: Gate)
    requires |table| == |used| && forall d :: 0 <= d < |table| ==> |table[d]| == cols
    ensures LinksFit(Sorted(TableLinks(table, used, |table|, gate)), |table|, cols)
  {
    TableLinksAre(table, used, |table|, gate);
    SortedHasSameElems(TableLinks(table, used, |table|, gate));
  }

  lemma LinkFits(ms: seq<Link>, k: nat, rows: nat, cols: nat)
    requires k < |ms| && LinksFit(ms, rows, cols)
    ensures ms[k].left < rows && ms[k].right < cols
  {
    assert ms[k] in ms;
  }

  lemma GreedyStarts(ps: seq<Link>, lefts: set<nat>)
    ensures [] + Greedy(ps[0..], lefts, {}) == Greedy(ps, lefts, {})
  {
  }

  lemma GreedyEnds(ps: seq<Link>, ms: seq<Link>, lefts: set<nat>, rights: set<nat>, all: seq<Link>)
    requires ms + Greedy(ps[|ps|..], lefts, rights) == all
    ensures ms == all
  {
    assert ps[|ps|..] == [];
  }

  /**
    nearest_neighbor: collects the candidate links, sorts them, and takes each whose sides are both free,
    marking the rows it uses.
  */
  method NearestNeighbor(table: seq<seq<real>>, cols: nat, used: array<bool>, limit: real)
    returns (matches: seq<Link>)
    requires |table| == used.Length && forall d :: 0 <= d < |table| ==> |table[d]| == cols
    modifies used
    ensures matches == Matches(table, old(used[..]), UpTo(limit))
    ensures used[..] == Marked(old(used[..]), matches)
  {
    hide TableLinks, Sorted, Greedy, Marked, LinksFit, UsedRows;
    var pairs := CollectLinks(table, cols, used[..], limit);
    SortedLinksFit(table, cols, used[..], UpTo(limit));
    matches := TakeClosest(Sorted(pairs), cols, used);
  }

  /** The greedy loop over the sorted links: each is taken whose row and column are both still free. */
  method TakeClosest(pairs: seq<Link>, cols: nat, used: array<bool>) returns (matches: seq<Link>)
    requires LinksFit(pairs, used.Length, cols)
    modifies used
    ensures matches == Greedy(pairs, UsedRows(old(used[..])), {})
    ensures used[..] == Marked(old(used[..]), matches)
  {
    hide Greedy, Marks, Taken, Marked, LinksFit, UsedRows;
    ghost var before := used[..];
    var targetUsed := new bool[cols](_ => false);
    matches := [];
    ghost var lefts, rights: set<nat> := UsedRows(before), {};
    NothingMarked(targetUsed[..]);
    UsedRowsAreMarked(before);
    NothingTaken(before);
    GreedyStarts(pairs, lefts);
    for k := 0 to |pairs|
      invariant Marks(used[..], lefts) && Marks(targetUsed[..], rights)
      invariant Taken(lefts, before, matches)
      invariant matches + Greedy(pairs[k..], lefts, rights) == Greedy(pairs, UsedRows(before), {})
    {
      var pair := pairs[k];
      LinkFits(pairs, k, used.Length, cols);
      GreedyStep(pairs, k, lefts, rights);
      MarksOneMore(used[..], lefts, pair.left);
      MarksOneMore(targetUsed[..], rights, pair.right);
      if used[pair.left] || targetUsed[pair.right] { continue; }
      used[pair.left] := true;
      targetUsed[pair.right] := true;
      TakenOneMore(lefts, before, matches, pair);
      lefts, rights := lefts + {pair.left}, rights + {pair.right};
      matches := matches + [pair];
    }
    GreedyEnds(pairs, matches, lefts, rights, Greedy(pairs, UsedRows(before), {}));
    TakenIsMarked(used[..], lefts, before, matches);
  }

  lemma NothingTaken(used: seq<bool>)
    ensures Taken(UsedRows(used), used, [])
  {
  }

  method CollectLinks(table: seq<seq<real>>, cols: nat, used: seq<bool>, limit: real) returns (pairs: seq<Link>)
    requires |table| == |used| && forall d :: 0 <= d < |table| ==> |table[d]| == cols
    ensures pairs == TableLinks(table, used, |table|, UpTo(limit))
  {
    hide RowLinks, TableLinks;
    pairs := [];
    NoTableLinks(table, used, UpTo(limit));
    for d := 0 to |table|
      invariant pairs == TableLinks(table, used, d, UpTo(limit))
    {
      TableLinksNext(table, used, d, UpTo(limit));
      if used[d] { continue; }
      ghost var done := pairs;
      NoRowLinks(table[d], d, UpTo(limit));
      for t := 0 to cols
        invariant pairs == done + RowLinks(table[d], d, t, UpTo(limit))
      {
        RowLinksNext(table[d], d, t, UpTo(limit));
        if table[d][t] <= limit {
          pairs := pairs + [Link(table[d][t], d, t)];
        }
      }
    }
  }

  lemma NoTableLinks(table: seq<seq<real>>, used: seq<bool>, gate: Gate)
    requires |table| == |used|
    ensures TableLinks(table, used, 0, gate) == []
  {
  }

  lemma TableLinksNext(table: seq<seq<real>>, used: seq<bool>, n: nat, gate: Gate)
    requires n < |table| == |used|
    ensures TableLinks(table, used, n + 1, gate)
         == TableLinks(table, used, n, gate) + if used[n] then [] else RowLinks(table[n], n, |table[n]|, gate)
  {
    hide RowLinks;
  }

  lemma NoRowLinks(row: seq<real>, d: nat, gate: Gate)
    ensures RowLinks(row, d, 0, gate) == []
  {
  }

  lemma RowLinksNext(row: seq<real>, d: nat, n: nat, gate: Gate)
    requires n < |row|
    ensures RowLinks(row, d, n + 1, gate)
         == RowLinks(row, d, n, gate) + if gate.Admits(row[n]) then [Link(row[n], d, n)] else []
  {
  }
}
