/**
  Where the odometry's poses come from, over every history of samples: each accepted sample moves the last pose by
  the mean of the two twists at its ends, for the time between their stamps.

  Main results: TrackIsReckoned; with a motion that adds up, a constant twist makes one move of the whole time
  however it is sampled (ConstantTwistIsOneMove), and standing still leaves the pose (StandstillKeepsPose).
*/
module DeadReckoning {
  import opened Odometry
  import opened Sequences

  // ------------------------------------------------------------------ what is integrated

  /** The arrivals a were accepted, in this order, and gave the twists ts. */
  ghost predicate AreTwists(m: Motion, h: seq<Arrival>, a: seq<nat>, ts: seq<Twist>) {
    |ts| == |a| && forall i: nat :: i < |a| ==> IsGiven(m, h, a, ts, i)
  }

  predicate IsGiven(m: Motion, h: seq<Arrival>, a: seq<nat>, ts: seq<Twist>, i: nat)
    requires i < |a| == |ts|
  {
    a[i] < |h| && Gives(m, h[a[i]].sample, if i == 0 then Twist(0.0, 0.0, 0.0) else ts[i - 1], ts[i])
  }

  /** The track starts at the origin, and each later pose is moved there from the one before by the mean twist. */
  ghost predicate IsIntegrated(m: Motion, ts: seq<Twist>, track: seq<Entry>) {
    && |track| == |ts| && (track != [] ==> track[0].pose == Pose(0.0, 0.0, 0.0))
    && forall i :: 0 < i < |track| ==> IsMoved(m, track[i - 1], track[i], Mean(ts[i - 1], ts[i]))
  }

  /** The arrivals a are, in order, the accepted ones of the first n, and the track has their stamps. */
  ghost predicate AreAccepted(m: Motion, h: seq<Arrival>, n: nat, a: seq<nat>, track: seq<Entry>)
    requires n <= |h|
  {
    Ascends(a) && (forall k: nat :: k in a <==> k < n && AcceptsAt(m, h, k)) && AreStamped(m, h, a, track)
  }

  predicate AcceptsAt(m: Motion, h: seq<Arrival>, k: nat)
    requires k < |h|
  {
    Accepts(After(m, h, k), h[k])
  }

  ghost predicate AreStamped(m: Motion, h: seq<Arrival>, a: seq<nat>, track: seq<Entry>) {
    |track| == |a| && forall i :: 0 <= i < |a| ==> a[i] < |h| && IsStamped(m, h, a[i], track[i])
  }

  predicate IsStamped(m: Motion, h: seq<Arrival>, k: nat, e: Entry)
    requires k < |h|
  {
    e.stamp == StampOf(After(m, h, k), h[k])
  }

  /** The state's twist and pose are those of the last accepted sample. */
  ghost predicate IsUpToDate(s: State, ts: seq<Twist>, track: seq<Entry>) {
    && |ts| == |track|
    && (if track == [] then s.twist == Twist(0.0, 0.0, 0.0) && s.pose == Pose(0.0, 0.0, 0.0) && s.stamp == 0
        else s.twist == ts[|ts| - 1] && s.pose == track[|track| - 1].pose && s.stamp == track[|track| - 1].stamp > 0)
  }

  // ------------------------------------------------------------------ one more arrival

  lemma TwistsNext(m: Motion, h: seq<Arrival>, a: seq<nat>, ts: seq<Twist>, s: State, track: seq<Entry>, n: nat)
    requires AreTwists(m, h, a, ts) && IsUpToDate(s, ts, track) && n < |h|
    ensures AreTwists(m, h, a + [n], ts + [BaseTwist(m, s, h[n].sample)])
  {
    BaseTwistGives(m, s, h[n].sample);
    hide Gives, BaseTwist;
    var b, us := a + [n], ts + [BaseTwist(m, s, h[n].sample)];
    forall i: nat | i < |b|
      ensures IsGiven(m, h, b, us, i)
    {
      if i < |a| { assert IsGiven(m, h, a, ts, i); }
    }
  }

  lemma IntegratedNext(m: Motion, ts: seq<Twist>, track: seq<Entry>, s: State, a: Arrival)
    requires IsIntegrated(m, ts, track) && IsUpToDate(s, ts, track) && Accepts(s, a)
    ensures var e, t := NewEntry(m, s, a), BaseTwist(m, s, a.sample);
            IsIntegrated(m, ts + [t], track + [e]) && IsUpToDate(Updated(m, s, a), ts + [t], track + [e])
  {
    MovedIs(m, s, BaseTwist(m, s, a.sample), StampOf(s, a));
    hide StampOf, BaseTwist, Moved, Mean, IsMoved, Trimmed;
  }

  lemma AcceptedNext(m: Motion, h: seq<Arrival>, n: nat, a: seq<nat>, track: seq<Entry>)
    requires n < |h| && AreAccepted(m, h, n, a, track)
    ensures var s := After(m, h, n);
            if Accepts(s, h[n]) then AreAccepted(m, h, n + 1, a + [n], track + [NewEntry(m, s, h[n])])
            else AreAccepted(m, h, n + 1, a, track)
  {
    AscendsNext(a, n);
    StampsNext(m, h, n, a, track);
    assert AcceptsAt(m, h, n) <==> Accepts(After(m, h, n), h[n]);
    hide After, Accepts, AcceptsAt, AreStamped, NewEntry, Ascends;
  }

  lemma StampsNext(m: Motion, h: seq<Arrival>, n: nat, a: seq<nat>, track: seq<Entry>)
    requires n < |h| && AreStamped(m, h, a, track)
    ensures AreStamped(m, h, a + [n], track + [NewEntry(m, After(m, h, n), h[n])])
  {
    assert IsStamped(m, h, n, NewEntry(m, After(m, h, n), h[n]));
    hide After, IsStamped, NewEntry;
  }

  // ------------------------------------------------------------------ every history

  /** All that is known of the track after n arrivals. */
  ghost predicate IsReckoned(m: Motion, h: seq<Arrival>, n: nat, a: seq<nat>, ts: seq<Twist>)
    requires n <= |h|
  {
    && AreAccepted(m, h, n, a, Track(m, h, n)) && AreTwists(m, h, a, ts)
    && IsIntegrated(m, ts, Track(m, h, n)) && IsUpToDate(After(m, h, n), ts, Track(m, h, n))
  }

  /**
    The track has one entry for each accepted arrival, in order, at its stamp; it starts at the origin, and each
    later pose is the one before moved by the mean of the two samples' twists for the seconds between the stamps.
  */
  lemma {:induction false} TrackIsReckoned(m: Motion, h: seq<Arrival>, n: nat) returns (a: seq<nat>, ts: seq<Twist>)
    requires n <= |h|
    ensures IsReckoned(m, h, n, a, ts)
  {
    hide AreAccepted, AreTwists, IsIntegrated, IsUpToDate, Accepts, NewEntry, BaseTwist, Trimmed;
    TrackSteps(m, h, n);
    if n == 0 {
      a, ts := [], [];
      NothingReckoned(m, h);
    } else {
      a, ts := TrackIsReckoned(m, h, n - 1);
      var s := After(m, h, n - 1);
      AcceptedNext(m, h, n - 1, a, Track(m, h, n - 1));
      if Accepts(s, h[n - 1]) {
        TwistsNext(m, h, a, ts, s, Track(m, h, n - 1), n - 1);
        IntegratedNext(m, ts, Track(m, h, n - 1), s, h[n - 1]);
        a, ts := a + [n - 1], ts + [BaseTwist(m, s, h[n - 1].sample)];
      } else {
        RefusalKeeps(m, s, h[n - 1], ts, Track(m, h, n - 1));
      }
    }
  }

  lemma RefusalKeeps(m: Motion, s: State, a: Arrival, ts: seq<Twist>, track: seq<Entry>)
    requires !Accepts(s, a) && IsUpToDate(s, ts, track)
    ensures IsUpToDate(Updated(m, s, a), ts, track)
  {
    hide StampOf;
  }

  lemma NothingReckoned(m: Motion, h: seq<Arrival>)
    ensures AreAccepted(m, h, 0, [], []) && AreTwists(m, h, [], []) && IsIntegrated(m, [], [])
    ensures IsUpToDate(After(m, h, 0), [], [])
  {
  }

  // ------------------------------------------------------------------ motions that add up

  /** Moving on with the same twist is moving for the sum of the times. */
  ghost predicate IsAdditive(m: Motion) {
    forall p, t, x, y :: x >= 0.0 && y >= 0.0 ==> m.move(m.move(p, t, x), t, y) == m.move(p, t, x + y)
  }

  /** A twist of zero moves nothing. */
  ghost predicate RestsAtZero(m: Motion) { forall p, x :: m.move(p, Twist(0.0, 0.0, 0.0), x) == p }

  lemma MeanOfSame(t: Twist)
    ensures Mean(t, t) == t
  {
  }

  lemma SecondsAdd(m: Motion, p: Entry, q: Entry, r: Entry, t: Twist)
    requires IsAdditive(m) && p.stamp <= q.stamp <= r.stamp && IsMoved(m, p, q, t) && IsMoved(m, q, r, t)
    ensures IsMoved(m, p, r, t)
  {
    var x, y := (q.stamp - p.stamp) as real * 0.000000001, (r.stamp - q.stamp) as real * 0.000000001;
    assert x + y == (r.stamp - p.stamp) as real * 0.000000001;
  }

  lemma {:induction false} SameTwistIsOneMove(m: Motion, ts: seq<Twist>, track: seq<Entry>, i: nat, j: nat, t: Twist)
    requires IsAdditive(m) && Ascending(track) && IsIntegrated(m, ts, track) && i < j < |track|
    requires forall k :: i <= k <= j ==> ts[k] == t
    ensures IsMoved(m, track[i], track[j], t)
  {
    hide IsAdditive, IsMoved, Mean;
    MeanOfSame(t);
    assert IsMoved(m, track[j - 1], track[j], Mean(ts[j - 1], ts[j]));
    if i < j - 1 {
      SameTwistIsOneMove(m, ts, track, i, j - 1, t);
      SecondsAdd(m, track[i], track[j - 1], track[j], t);
    }
  }

  /** From accepted sample i to j every one is in order, and the sensor measures x. */
  predicate Measures(h: seq<Arrival>, a: seq<nat>, i: nat, j: nat, x: Twist) {
    j < |a| && forall k :: i <= k <= j ==>
      a[k] < |h| && !h[a[k]].sample.standstill && h[a[k]].sample.statusOk && h[a[k]].sample.twist == x
  }

  /**
    While the sensor measures a constant twist the car makes one move, for the whole time, however many samples
    there are and however they are spaced.
  */
  lemma ConstantTwistIsOneMove(m: Motion, h: seq<Arrival>, n: nat, a: seq<nat>, ts: seq<Twist>, i: nat, j: nat,
                               x: Twist)
    requires n <= |h| && IsReckoned(m, h, n, a, ts) && IsAdditive(m) && i < j < |a| && Measures(h, a, i, j, x)
    ensures |Track(m, h, n)| == |a| && IsMoved(m, Track(m, h, n)[i], Track(m, h, n)[j], AtBase(m, x))
  {
    TrackAscends(m, h, n);
    hide AtBase, Gives, IsMoved, IsAdditive, Ascending, IsIntegrated, IsUpToDate, AreAccepted, Track, After;
    LengthsAgree(m, h, n, a, ts);
    forall k | i <= k <= j
      ensures ts[k] == AtBase(m, x)
    {
      assert IsGiven(m, h, a, ts, k);
      GivesAtBase(m, h[a[k]].sample, if k == 0 then Twist(0.0, 0.0, 0.0) else ts[k - 1], ts[k]);
    }
    SameTwistIsOneMove(m, ts, Track(m, h, n), i, j, AtBase(m, x));
  }

  lemma LengthsAgree(m: Motion, h: seq<Arrival>, n: nat, a: seq<nat>, ts: seq<Twist>)
    requires n <= |h| && IsReckoned(m, h, n, a, ts)
    ensures |Track(m, h, n)| == |ts| == |a|
  {
    hide Track, After, Accepts, StampOf, Gives, IsMoved;
  }

  lemma {:induction false} ZeroTwistsKeepPose(m: Motion, ts: seq<Twist>, track: seq<Entry>, i: nat, j: nat)
    requires RestsAtZero(m) && IsIntegrated(m, ts, track) && i <= j < |track|
    requires forall k :: i <= k <= j ==> ts[k] == Twist(0.0, 0.0, 0.0)
    ensures track[j].pose == track[i].pose
  {
    if i < j {
      ZeroTwistsKeepPose(m, ts, track, i, j - 1);
      MeanOfSame(Twist(0.0, 0.0, 0.0));
      assert IsMoved(m, track[j - 1], track[j], Mean(ts[j - 1], ts[j]));
    }
  }

  /** While the car stands still its pose does not change, whatever else the sensor says. */
  lemma StandstillKeepsPose(m: Motion, h: seq<Arrival>, n: nat, a: seq<nat>, ts: seq<Twist>, i: nat, j: nat)
    requires n <= |h| && IsReckoned(m, h, n, a, ts) && RestsAtZero(m) && i <= j < |a|
    requires forall k :: i <= k <= j ==> a[k] < |h| && h[a[k]].sample.standstill
    ensures |Track(m, h, n)| == |a| && Track(m, h, n)[j].pose == Track(m, h, n)[i].pose
  {
    hide RestsAtZero, IsIntegrated, IsUpToDate, AreAccepted, Track, After;
    LengthsAgree(m, h, n, a, ts);
    forall k | i <= k <= j
      ensures ts[k] == Twist(0.0, 0.0, 0.0)
    {
      assert IsGiven(m, h, a, ts, k);
    }
    ZeroTwistsKeepPose(m, ts, Track(m, h, n), i, j);
  }
}
