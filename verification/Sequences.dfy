/** Lists without repetition, increasing lists of indices, and the least element of a set. */
module Sequences {

  ghost predicate NoRepeats<T(!new)>(s: seq<T>) { forall i, j :: 0 <= i < j < |s| ==> s[i] != s[j] }

  ghost function Elems<T>(s: seq<T>): set<T> { set x | x in s }

  ghost predicate Ascends(u: seq<nat>) { forall i, j :: 0 <= i < j < |u| ==> u[i] < u[j] }

  /** r are the elements of s at the indices u, in increasing order. */
  ghost predicate Picks<T>(s: seq<T>, u: seq<nat>, r: seq<T>) {
    Ascends(u) && |r| == |u| && forall i :: 0 <= i < |u| ==> u[i] < |s| && r[i] == s[u[i]]
  }

  lemma AscendsNext(u: seq<nat>, n: nat)
    requires Ascends(u) && forall k :: k in u ==> k < n
    ensures Ascends(u + [n])
  {
    assert forall i :: 0 <= i < |u| ==> u[i] in u;
  }

  lemma PicksNothing<T>(s: seq<T>)
    ensures Picks(s, [], [])
  {
  }

  lemma PicksNext<T>(s: seq<T>, u: seq<nat>, r: seq<T>, n: nat)
    requires Picks(s, u, r) && n < |s| && forall k :: k in u ==> k < n
    ensures Picks(s, u + [n], r + [s[n]])
  {
    AscendsNext(u, n);
  }

  /** r are those of the first n elements of s that are marked, at the indices u. */
  ghost predicate PicksMarked<T>(s: seq<T>, marks: seq<bool>, n: nat, u: seq<nat>, r: seq<T>)
    requires n <= |s| == |marks|
  {
    Picks(s, u, r) && forall k: nat :: k in u <==> k < n && marks[k]
  }

  lemma PicksNoneMarked<T>(s: seq<T>, marks: seq<bool>)
    requires |s| == |marks|
    ensures PicksMarked(s, marks, 0, [], [])
  {
  }

  lemma PicksMarkedNext<T>(s: seq<T>, marks: seq<bool>, n: nat, u: seq<nat>, r: seq<T>)
    requires n < |s| == |marks| && PicksMarked(s, marks, n, u, r)
    ensures marks[n] ==> PicksMarked(s, marks, n + 1, u + [n], r + [s[n]])
    ensures !marks[n] ==> PicksMarked(s, marks, n + 1, u, r + [])
  {
    PicksNext(s, u, r, n);
    hide Picks;
    assert r + [] == r;
  }

  /** What is picked is among the elements, and every element picked is there as often as it is picked. */
  lemma PickedIff<T>(s: seq<T>, u: seq<nat>, r: seq<T>, x: T)
    requires Picks(s, u, r)
    ensures x in r <==> exists k :: k in u && s[k] == x
  {
    if x in r {
      var i :| 0 <= i < |r| && r[i] == x;
      assert u[i] in u;
    }
    if k :| k in u && s[k] == x {
      var i :| 0 <= i < |u| && u[i] == k;
      assert r[i] == x;
    }
  }

  lemma {:induction false} LeastExists(s: set<nat>, x: nat) returns (m: nat)
    requires x in s
    ensures m in s && forall y :: y in s ==> m <= y
    decreases x
  {
    if y :| y in s && y < x {
      m := LeastExists(s, y);
    } else {
      m := x;
    }
  }

  lemma NoRepeatsConcat<T(!new)>(a: seq<T>, b: seq<T>)
    requires NoRepeats(a) && NoRepeats(b) && forall x :: x in a ==> x !in b
    ensures NoRepeats(a + b)
  {
    var s := a + b;
    forall i, j | 0 <= i < j < |s|
      ensures s[i] != s[j]
    {
      if i < |a| <= j { assert s[i] in a && s[j] in b; }
    }
  }
}
