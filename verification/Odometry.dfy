/**
  Dead-reckoned odometry: the sensor clock mapped onto host time, the buffer of recent poses, and lookups.

  Main results, over every history of samples: the clock offset is a minimum over all of them
  (OffsetIsMinimum), a stamp is at most its receipt exactly when the mapped time is not negative
  (StampedByReceiptIff), a sensor clock that is set back keeps samples refused for exactly a stated time
  (SetBackRefusesIff), the buffer is exactly the recent part of all accepted samples
  (BufferIsRecentTrack), and a lookup that answers gives what a lookup in the whole track gives
  (LookupInBufferIsLookupInTrack).
*/
module Odometry {
  import opened Arithmetic
  import opened Wrappers

  datatype Pose = Pose(x: real, y: real, yaw: real)

  datatype Twist = Twist(vx: real, vy: real, wz: real) {
    function Plus(t: Twist): Twist { Twist(vx + t.vx, vy + t.vy, wz + t.wz) }

    function Times(f: real): Twist { Twist(f * vx, f * vy, f * wz) }
  }

  const ZERO_TWIST := Twist(0.0, 0.0, 0.0)

  const HISTORY_NS: nat := 1_000_000_000
  /** How much the offset may grow per sample, following clock drift. */
  const DRIFT_NS: nat := 2000
  const WORD64: nat := 0x1_0000_0000_0000_0000
  const INT64_MAX: int := 0x7FFF_FFFF_FFFF_FFFF

  /** A sample of the ground speed sensor, in its own clock. */
  datatype Sample = Sample(ns: int, twist: Twist, standstill: bool, statusOk: bool)

  datatype Arrival = Arrival(sample: Sample, receiveNs: nat)

  datatype Entry = Entry(stamp: nat, pose: Pose)

  /** Where the sensor sits on the car, and how a pose is integrated: from a pose, a twist and a duration in seconds. */
  datatype Motion = Motion(baseX: real, baseY: real, move: (Pose, Twist, real) -> Pose)

  datatype State = State(offset: Option<int>, stamp: nat, twist: Twist, pose: Pose, buffer: seq<Entry>)

  const START := State(None, 0, ZERO_TWIST, Pose(0.0, 0.0, 0.0), [])

  // ------------------------------------------------------------------ one sample

  function Min(a: int, b: int): int { if a <= b then a else b }

  function Latency(a: Arrival): int { a.receiveNs - a.sample.ns }

  function NextOffset(offset: Option<int>, a: Arrival): int {
    Min(Latency(a), if offset.None? then Latency(a) else offset.value + DRIFT_NS)
  }

  /** Conversion of a host time to uint64. */
  function ToStamp(ns: int): nat { ns % WORD64 }

  function StampOf(s: State, a: Arrival): nat { ToStamp(a.sample.ns + NextOffset(s.offset, a)) }

  /** Moves a twist from the sensor to the car's origin: the yaw rate adds its lever arm to the velocity. */
  function AtBase(m: Motion, t: Twist): Twist { Twist(t.vx + t.wz * m.baseY, t.vy - t.wz * m.baseX, t.wz) }

  /** The twist a sample gives: none at standstill, the previous one when its status is bad. */
  function BaseTwist(m: Motion, s: State, x: Sample): Twist {
    if x.standstill then ZERO_TWIST
    else if !x.statusOk then s.twist
    else AtBase(m, x.twist)
  }

  function Seconds(ns: int): real { ns as real * 0.000000001 }

  function Moved(m: Motion, s: State, t: Twist, stamp: nat): Pose {
    if s.stamp == 0 then s.pose else m.move(s.pose, s.twist.Plus(t).Times(0.5), Seconds(stamp - s.stamp))
  }

  /**
    The twist a sample gives: none at standstill; the one before when its status is bad; else the sensor's, at the
    car's origin, where the yaw rate takes the sensor's place on the car out of the velocity.
  */
  predicate Gives(m: Motion, x: Sample, before: Twist, t: Twist) {
    if x.standstill then t == Twist(0.0, 0.0, 0.0)
    else if !x.statusOk then t == before
    else IsAtOrigin(x.twist, m.baseX, m.baseY, t)
  }

  /** Of a body that moves by u at the place (x, y) and turns by its yaw rate, t is the twist at the origin. */
  predicate IsAtOrigin(u: Twist, x: real, y: real, t: Twist) {
    t.vx == u.vx + u.wz * y && t.vy == u.vy - u.wz * x && t.wz == u.wz
  }

  function Mean(s: Twist, t: Twist): Twist { Twist((s.vx + t.vx) / 2.0, (s.vy + t.vy) / 2.0, (s.wz + t.wz) / 2.0) }

  /** q's pose is p's, moved by t for the time from p's stamp to q's, in seconds. */
  predicate IsMoved(m: Motion, p: Entry, q: Entry, t: Twist) {
    q.pose == m.move(p.pose, t, (q.stamp - p.stamp) as real * 0.000000001)
  }

  lemma AtBaseIsAtOrigin(m: Motion, u: Twist)
    ensures IsAtOrigin(u, m.baseX, m.baseY, AtBase(m, u))
  {
  }

  lemma OnlyOneAtOrigin(u: Twist, x: real, y: real, s: Twist, t: Twist)
    requires IsAtOrigin(u, x, y, s) && IsAtOrigin(u, x, y, t)
    ensures s == t
  {
  }

  lemma BaseTwistGives(m: Motion, s: State, x: Sample)
    ensures Gives(m, x, s.twist, BaseTwist(m, s, x))
  {
    AtBaseIsAtOrigin(m, x.twist);
    hide AtBase, IsAtOrigin;
  }

  lemma GivesAtBase(m: Motion, x: Sample, before: Twist, t: Twist)
    requires !x.standstill && x.statusOk && Gives(m, x, before, t)
    ensures t == AtBase(m, x.twist)
  {
    AtBaseIsAtOrigin(m, x.twist);
    hide AtBase;
    OnlyOneAtOrigin(x.twist, m.baseX, m.baseY, t, AtBase(m, x.twist));
    hide IsAtOrigin;
  }

  lemma MeanIs(s: Twist, t: Twist)
    ensures s.Plus(t).Times(0.5) == Mean(s, t)
  {
  }

  lemma MovedIs(m: Motion, s: State, t: Twist, stamp: nat)
    ensures s.stamp == 0 ==> Moved(m, s, t, stamp) == s.pose
    ensures s.stamp != 0 ==>
              IsMoved(m, Entry(s.stamp, s.pose), Entry(stamp, Moved(m, s, t, stamp)), Mean(s.twist, t))
  {
    MeanIs(s.twist, t);
    hide Mean, Twist.Plus, Twist.Times;
  }

  /** Drops entries from the front until the rest spans at most the history, or one entry is left. */
  function Trimmed(b: seq<Entry>): seq<Entry> {
    if |b| > 1 && b[|b| - 1].stamp - b[0].stamp > HISTORY_NS then Trimmed(b[1..]) else b
  }

  predicate Accepts(s: State, a: Arrival) { StampOf(s, a) > s.stamp }

  /** The entry an accepted sample adds. */
  function NewEntry(m: Motion, s: State, a: Arrival): Entry {
    Entry(StampOf(s, a), Moved(m, s, BaseTwist(m, s, a.sample), StampOf(s, a)))
  }

  function Updated(m: Motion, s: State, a: Arrival): State {
    var t := s.(offset := Some(NextOffset(s.offset, a)));
    if !Accepts(s, a) then t
    else
      var e := NewEntry(m, s, a);
      State(t.offset, e.stamp, BaseTwist(m, s, a.sample), e.pose, Trimmed(s.buffer + [e]))
  }

  lemma SameTwist(m: Motion, s: State, t: State, x: Sample)
    requires s.twist == t.twist
    ensures BaseTwist(m, s, x) == BaseTwist(m, t, x)
  {
  }

  // ------------------------------------------------------------------ lookups

  ghost predicate Ascending(b: seq<Entry>) { forall i, j :: 0 <= i < j < |b| ==> b[i].stamp < b[j].stamp }

  /** Shortest-arc interpolation; wrap brings an angle difference into the shortest arc. */
  function Between(wrap: real -> real, p: Entry, q: Entry, t: nat): Pose
    requires p.stamp < q.stamp
  {
    var alpha := (t - p.stamp) as real / (q.stamp - p.stamp) as real;
    Pose(p.pose.x + alpha * (q.pose.x - p.pose.x),
         p.pose.y + alpha * (q.pose.y - p.pose.y),
         p.pose.yaw + alpha * wrap(q.pose.yaw - p.pose.yaw))
  }

  /** What a lookup at t should answer: the sample at t, or the interpolation of its two neighbours, or nothing. */
  ghost predicate Answers(wrap: real -> real, b: seq<Entry>, t: nat, r: Option<Pose>) {
    match r
    case None => b == [] || t < b[0].stamp || t > b[|b| - 1].stamp
    case Some(pose) =>
      || (exists i :: 0 <= i < |b| && b[i].stamp == t && pose == b[i].pose)
      || (exists i :: 0 <= i < |b| - 1 && b[i].stamp < t < b[i + 1].stamp && pose == Between(wrap, b[i], b[i + 1], t))
  }

  class Odometry {
    const motion: Motion
    var offset: Option<int>
    var stamp: nat
    var twist: Twist
    var pose: Pose
    var buffer: seq<Entry>

    function Value(): State
      reads this
    {
      State(offset, stamp, twist, pose, buffer)
    }

    constructor (m: Motion)
      ensures motion == m && Value() == START
    {
      motion := m;
      offset, stamp, twist, pose, buffer := None, 0, ZERO_TWIST, Pose(0.0, 0.0, 0.0), [];
    }

    method HostTime(a: Arrival) returns (host: nat)
      modifies this`offset
      ensures offset == Some(NextOffset(old(offset), a)) && host == StampOf(old(Value()), a)
    {
      var latency := a.receiveNs - a.sample.ns;
      var bound := if offset.None? then latency else offset.value + DRIFT_NS;
      offset := Some(Min(latency, bound));
      host := ToStamp(a.sample.ns + offset.value);
    }

    /** The twist to integrate for a sample, at the car's origin. */
    method Measure(x: Sample) returns (t: Twist)
      ensures t == BaseTwist(motion, Value(), x)
      ensures Gives(motion, x, twist, t)
    {
      BaseTwistGives(motion, Value(), x);
      hide Gives, AtBase;
      t := AtBase(motion, x.twist);
      if x.standstill {
        t := ZERO_TWIST;
      } else if !x.statusOk {
        t := twist;
      }
    }

    /** Drops entries older than the history; the newest always stays. */
    method Trim()
      requires buffer != []
      modifies this`buffer
      ensures buffer == Trimmed(old(buffer))
    {
      while |buffer| > 1 && buffer[|buffer| - 1].stamp - buffer[0].stamp > HISTORY_NS
        invariant buffer != [] && Trimmed(buffer) == Trimmed(old(buffer))
        decreases |buffer|
      {
        buffer := buffer[1..];
      }
    }

    method Update(a: Arrival) returns (accepted: bool)
      modifies this
      ensures accepted == Accepts(old(Value()), a)
      ensures Value() == Updated(motion, old(Value()), a)
      ensures accepted ==> Gives(motion, a.sample, old(twist), twist)
      ensures accepted && old(stamp) != 0 ==>
                IsMoved(motion, Entry(old(stamp), old(pose)), Entry(stamp, pose), Mean(old(twist), twist))
      ensures !accepted || old(stamp) == 0 ==> pose == old(pose)
    {
      hide ToStamp, BaseTwist, Gives, IsMoved, Mean, Trimmed;
      var ts := HostTime(a);
      if ts <= stamp {
        return false;
      }
      var t := Measure(a.sample);
      SameTwist(motion, Value(), old(Value()), a.sample);
      MovedIs(motion, old(Value()), t, ts);
      if stamp != 0 {
        pose := motion.move(pose, twist.Plus(t).Times(0.5), Seconds(ts - stamp));
      }
      stamp := ts;
      twist := t;
      buffer := buffer + [Entry(ts, pose)];
      Trim();
      return true;
    }

    /** The index of the first entry not before t. */
    method LowerBound(t: nat) returns (after: nat)
      requires Ascending(buffer)
      ensures after <= |buffer|
      ensures forall i :: 0 <= i < after ==> buffer[i].stamp < t
      ensures forall i :: after <= i < |buffer| ==> buffer[i].stamp >= t
    {
      after := 0;
      var count: nat := |buffer|;
      while count > 0
        invariant after + count <= |buffer|
        invariant forall i :: 0 <= i < after ==> buffer[i].stamp < t
        invariant forall i :: after + count <= i < |buffer| ==> buffer[i].stamp >= t
      {
        var step := count / 2;
        if buffer[after + step].stamp < t {
          after := after + step + 1;
          count := count - step - 1;
        } else {
          count := step;
        }
      }
    }

    method PoseAt(wrap: real -> real, t: nat) returns (r: Option<Pose>)
      requires Ascending(buffer)
      ensures Answers(wrap, buffer, t, r)
    {
      if buffer == [] || t < buffer[0].stamp || t > buffer[|buffer| - 1].stamp {
        return None;
      }
      var after := LowerBound(t);
      if buffer[after].stamp == t {
        return Some(buffer[after].pose);
      }
      assert after > 0 && buffer[after - 1].stamp < t;
      return Some(Between(wrap, buffer[after - 1], buffer[after], t));
    }
  }

  // ------------------------------------------------------------------ the clock offset over a history

  /** The state after the first n arrivals. */
  function After(m: Motion, h: seq<Arrival>, n: nat): State
    requires n <= |h|
  {
    if n == 0 then START else Updated(m, After(m, h, n - 1), h[n - 1])
  }

  /** The latency of arrival j, with the drift allowed since, at arrival n. */
  function DriftedLatency(h: seq<Arrival>, j: nat, n: nat): int
    requires j <= n < |h|
  {
    Latency(h[j]) + DRIFT_NS * (n - j)
  }

  /** The offset at arrival n. */
  function OffsetAt(m: Motion, h: seq<Arrival>, n: nat): int
    requires n < |h|
  {
    NextOffset(After(m, h, n).offset, h[n])
  }

  lemma OffsetStep(m: Motion, h: seq<Arrival>, n: nat)
    requires n < |h|
    ensures OffsetAt(m, h, n) == if n == 0 then Latency(h[0]) else Min(Latency(h[n]), OffsetAt(m, h, n - 1) + DRIFT_NS)
  {
    hide ToStamp, BaseTwist, Moved, Trimmed;
    if n > 0 { assert After(m, h, n).offset == Some(OffsetAt(m, h, n - 1)); }
  }

  /** The offset is the least drifted latency of all arrivals so far, accepted or not. */
  lemma {:induction false} OffsetIsMinimum(m: Motion, h: seq<Arrival>, n: nat)
    requires n < |h|
    ensures forall j: nat :: j <= n ==> OffsetAt(m, h, n) <= DriftedLatency(h, j, n)
    ensures exists j: nat :: j <= n && OffsetAt(m, h, n) == DriftedLatency(h, j, n)
  {
    OffsetStep(m, h, n);
    assert DriftedLatency(h, n, n) == Latency(h[n]);
    if n > 0 {
      OffsetIsMinimum(m, h, n - 1);
      assert forall j: nat :: j < n ==> DriftedLatency(h, j, n) == DriftedLatency(h, j, n - 1) + DRIFT_NS;
      var before := n - 1;
      var j: nat :| j <= before && OffsetAt(m, h, before) == DriftedLatency(h, j, before);
      assert DriftedLatency(h, j, n) == OffsetAt(m, h, before) + DRIFT_NS;
    }
  }

  /** The host time of arrival n does not come out negative. */
  predicate IsAfterEpoch(h: seq<Arrival>, n: nat)
    requires n < |h|
  {
    forall j: nat :: j <= n ==> h[n].sample.ns + DriftedLatency(h, j, n) >= 0
  }

  /** The machine integers of the receipt and of the host time do not overflow. */
  predicate FitsInt64(m: Motion, h: seq<Arrival>, n: nat)
    requires n < |h|
  {
    h[n].receiveNs <= INT64_MAX && h[n].sample.ns + OffsetAt(m, h, n) >= -INT64_MAX - 1
  }

  /** A sample is stamped no later than its receipt exactly when its host time is not negative; else the stamp wraps. */
  lemma StampedByReceiptIff(m: Motion, h: seq<Arrival>, n: nat)
    requires n < |h| && FitsInt64(m, h, n)
    ensures StampOf(After(m, h, n), h[n]) <= h[n].receiveNs <==> IsAfterEpoch(h, n)
    ensures IsAfterEpoch(h, n) ==> StampOf(After(m, h, n), h[n]) == h[n].sample.ns + OffsetAt(m, h, n)
    ensures !IsAfterEpoch(h, n) ==> StampOf(After(m, h, n), h[n]) > INT64_MAX
  {
    OffsetIsMinimum(m, h, n);
    var host := h[n].sample.ns + OffsetAt(m, h, n);
    assert OffsetAt(m, h, n) <= DriftedLatency(h, n, n);
    hide DriftedLatency, After, NextOffset;
    assert host >= 0 <==> IsAfterEpoch(h, n);
    StampWraps(host);
  }

  lemma StampWraps(host: int)
    requires -INT64_MAX - 1 <= host <= INT64_MAX
    ensures ToStamp(host) == if host >= 0 then host else host + WORD64
  {
  }

  /** After a wrapped stamp, no sample with a proper host time is accepted any more. */
  lemma WrappedStampStopsUpdates(m: Motion, h: seq<Arrival>, n: nat)
    requires n < |h| && FitsInt64(m, h, n) && IsAfterEpoch(h, n) && After(m, h, n).stamp > INT64_MAX
    ensures !Accepts(After(m, h, n), h[n])
  {
    StampedByReceiptIff(m, h, n);
  }

  /**
    A host whose clock was never set, 10 s after its epoch, and a sensor that has run for 100 s and then restarts:
    the second sample is stamped after its receipt and accepted. Once the sensor has run for 95 s, its host time is
    positive again, and refused.
  */
  const CLOCK_RESTART := [
    Arrival(Sample(100_000_000_000, ZERO_TWIST, false, true), 10_000_000_000),
    Arrival(Sample(0, ZERO_TWIST, false, true), 20_000_000_000),
    Arrival(Sample(95_000_000_000, ZERO_TWIST, false, true), 115_000_000_000)]

  lemma RestartedClockStopsUpdates(m: Motion)
    ensures var h := CLOCK_RESTART;
            && (forall n :: 0 <= n < 3 ==> FitsInt64(m, h, n) && (IsAfterEpoch(h, n) <==> n != 1))
            && StampOf(After(m, h, 1), h[1]) > h[1].receiveNs && Accepts(After(m, h, 1), h[1])
            && 0 < h[2].sample.ns + OffsetAt(m, h, 2) < h[2].receiveNs && !Accepts(After(m, h, 2), h[2])
  {
    var h := CLOCK_RESTART;
    hide BaseTwist, Moved, Trimmed, ToStamp;
    assert DriftedLatency(h, 0, 1) == 2000 - 90_000_000_000;
    OffsetStep(m, h, 0);
    OffsetStep(m, h, 1);
    OffsetStep(m, h, 2);
    StampedByReceiptIff(m, h, 0);
    StampedByReceiptIff(m, h, 1);
    assert After(m, h, 2).stamp == StampOf(After(m, h, 1), h[1]);
    WrappedStampStopsUpdates(m, h, 2);
  }

  // ------------------------------------------------------------------ the buffer against the whole track

  /** Every entry accepted from the first n arrivals. */
  function Track(m: Motion, h: seq<Arrival>, n: nat): seq<Entry>
    requires n <= |h|
  {
    if n == 0 then []
    else
      var s := After(m, h, n - 1);
      Track(m, h, n - 1) + if Accepts(s, h[n - 1]) then [NewEntry(m, s, h[n - 1])] else []
  }

  lemma {:induction false} TrackAscends(m: Motion, h: seq<Arrival>, n: nat)
    requires n <= |h|
    ensures var t := Track(m, h, n);
            Ascending(t) && After(m, h, n).stamp == if t == [] then 0 else t[|t| - 1].stamp
  {
    if n > 0 {
      TrackAscends(m, h, n - 1);
      hide StampOf, Moved, BaseTwist, Trimmed;
    }
  }

  // ------------------------------------------------------------------ which samples are accepted

  /** A sample is accepted exactly when it is stamped above 0 and above every stamp accepted before. */
  lemma AcceptsIff(m: Motion, h: seq<Arrival>, n: nat)
    requires n < |h|
    ensures Accepts(After(m, h, n), h[n])
       <==> var stamp := StampOf(After(m, h, n), h[n]);
            stamp > 0 && forall i :: 0 <= i < |Track(m, h, n)| ==> Track(m, h, n)[i].stamp < stamp
  {
    TrackAscends(m, h, n);
    hide After, Track, StampOf;
  }

  /** The host time of arrival n. */
  function HostNs(m: Motion, h: seq<Arrival>, n: nat): int
    requires n < |h|
  {
    h[n].sample.ns + OffsetAt(m, h, n)
  }

  /** Arrival r - 1 is accepted, and the host times from there to n are proper. */
  ghost predicate ProperFrom(m: Motion, h: seq<Arrival>, r: nat, n: nat)
    requires 1 <= r <= n < |h|
  {
    && Accepts(After(m, h, r - 1), h[r - 1])
    && forall k: nat :: r - 1 <= k <= n ==> FitsInt64(m, h, k) && IsAfterEpoch(h, k)
  }

  /** From arrival r to n no latency is below the offset before r, drifted: the sensor's clock was not set forward. */
  ghost predicate KeepsOffset(m: Motion, h: seq<Arrival>, r: nat, n: nat)
    requires 1 <= r <= n < |h|
  {
    forall k: nat :: r <= k <= n ==> Latency(h[k]) >= OffsetAt(m, h, r - 1) + Allowance(r, k)
  }

  /** What the offset may have grown by arrival k, counted from arrival r. */
  function Allowance(r: nat, k: nat): int { DRIFT_NS * (k - r + 1) }

  /** The sensor's clock at arrival k, with the allowance, has not passed what it read on arrival r - 1. */
  predicate IsBehind(h: seq<Arrival>, r: nat, k: nat)
    requires 1 <= r <= k < |h|
  {
    h[k].sample.ns + Allowance(r, k) <= h[r - 1].sample.ns
  }

  ghost predicate RefusedFrom(m: Motion, h: seq<Arrival>, r: nat, n: nat)
    requires n <= |h|
  {
    forall k: nat :: r <= k < n ==> !Accepts(After(m, h, k), h[k])
  }

  ghost predicate BehindFrom(h: seq<Arrival>, r: nat, n: nat)
    requires 1 <= r && n <= |h|
  {
    forall k: nat :: r <= k < n ==> IsBehind(h, r, k)
  }

  lemma {:induction false} OffsetDrifts(m: Motion, h: seq<Arrival>, r: nat, n: nat, k: nat)
    requires 1 <= r <= n < |h| && r - 1 <= k <= n && KeepsOffset(m, h, r, n)
    ensures OffsetAt(m, h, k) == OffsetAt(m, h, r - 1) + Allowance(r, k)
  {
    hide OffsetAt;
    if k >= r {
      OffsetDrifts(m, h, r, n, k - 1);
      OffsetStep(m, h, k);
    }
  }

  lemma StampIsHostTime(m: Motion, h: seq<Arrival>, r: nat, n: nat, k: nat)
    requires 1 <= r <= n < |h| && r - 1 <= k <= n && ProperFrom(m, h, r, n)
    ensures StampOf(After(m, h, k), h[k]) == HostNs(m, h, k)
  {
    StampedByReceiptIff(m, h, k);
    hide StampOf, OffsetAt, IsAfterEpoch;
  }

  lemma RefusalKeepsStamp(m: Motion, h: seq<Arrival>, n: nat)
    requires n < |h|
    ensures var s := After(m, h, n);
            After(m, h, n + 1).stamp == if Accepts(s, h[n]) then StampOf(s, h[n]) else s.stamp
  {
    hide StampOf, Moved, BaseTwist, Trimmed;
  }

  lemma {:induction false} StampSince(m: Motion, h: seq<Arrival>, r: nat, n: nat, k: nat)
    requires 1 <= r <= k <= n < |h| && ProperFrom(m, h, r, n) && RefusedFrom(m, h, r, k)
    ensures After(m, h, k).stamp == HostNs(m, h, r - 1)
    decreases k
  {
    hide After, Accepts, StampOf, HostNs, FitsInt64, IsAfterEpoch;
    RefusalKeepsStamp(m, h, k - 1);
    if k == r {
      StampIsHostTime(m, h, r, n, r - 1);
    } else {
      StampSince(m, h, r, n, k - 1);
    }
  }

  /** While every sample since is refused, the next one is refused exactly when the sensor's clock is still behind. */
  lemma RefusedIffBehind(m: Motion, h: seq<Arrival>, r: nat, n: nat, k: nat)
    requires 1 <= r <= k <= n < |h| && ProperFrom(m, h, r, n) && KeepsOffset(m, h, r, n) && RefusedFrom(m, h, r, k)
    ensures Accepts(After(m, h, k), h[k]) <==> !IsBehind(h, r, k)
  {
    hide After, StampOf, OffsetAt, FitsInt64, IsAfterEpoch, Allowance, ProperFrom, KeepsOffset, RefusedFrom;
    StampSince(m, h, r, n, k);
    StampIsHostTime(m, h, r, n, k);
    OffsetDrifts(m, h, r, n, k);
  }

  /**
    How long a sensor clock that is set back, as by a restart, keeps samples refused: exactly until it has caught
    up with the reading of the last sample before, less 2000 ns for each sample since.
  */
  lemma {:induction false} SetBackRefusesIff(m: Motion, h: seq<Arrival>, r: nat, n: nat)
    requires 1 <= r <= n < |h| && ProperFrom(m, h, r, n) && KeepsOffset(m, h, r, n)
    ensures RefusedFrom(m, h, r, n + 1) <==> BehindFrom(h, r, n + 1)
  {
    hide After, Accepts, ProperFrom, KeepsOffset, IsBehind;
    RefusedUpTo(m, h, r, n, n + 1);
  }

  lemma {:induction false} RefusedUpTo(m: Motion, h: seq<Arrival>, r: nat, n: nat, k: nat)
    requires 1 <= r <= k <= n + 1 <= |h| && n >= r && ProperFrom(m, h, r, n) && KeepsOffset(m, h, r, n)
    ensures RefusedFrom(m, h, r, k) <==> BehindFrom(h, r, k)
    decreases k
  {
    hide After, Accepts, ProperFrom, KeepsOffset, IsBehind;
    if k > r {
      RefusedUpTo(m, h, r, n, k - 1);
      if RefusedFrom(m, h, r, k - 1) { RefusedIffBehind(m, h, r, n, k - 1); }
    }
  }

  /** With the host's clock set, a sensor that restarts after 100 s: its first sample, a second later, is refused. */
  const SENSOR_RESTART := [
    Arrival(Sample(100_000_000_000, ZERO_TWIST, false, true), 1_700_000_000_000_000_000),
    Arrival(Sample(0, ZERO_TWIST, false, true), 1_700_000_001_000_000_000)]

  lemma RestartIsRefused(m: Motion)
    ensures var h := SENSOR_RESTART;
            ProperFrom(m, h, 1, 1) && KeepsOffset(m, h, 1, 1) && !Accepts(After(m, h, 1), h[1])
  {
    var h := SENSOR_RESTART;
    hide BaseTwist, Moved, Trimmed, ToStamp;
    OffsetStep(m, h, 0);
    OffsetStep(m, h, 1);
    StampedByReceiptIff(m, h, 0);
    assert Accepts(After(m, h, 0), h[0]);
    assert RefusedFrom(m, h, 1, 1);
    RefusedIffBehind(m, h, 1, 1, 1);
  }

  // ------------------------------------------------------------------ the buffer is the end of the track

  /** Trimming keeps a suffix: exactly the entries within the history of the newest. */
  lemma {:induction false} TrimmedIsRecent(b: seq<Entry>)
    requires Ascending(b)
    ensures |Trimmed(b)| <= |b| && Trimmed(b) == b[|b| - |Trimmed(b)|..]
    ensures forall i :: 0 <= i < |b| ==> (i >= |b| - |Trimmed(b)| <==> b[|b| - 1].stamp - b[i].stamp <= HISTORY_NS)
    decreases |b|
  {
    if |b| > 1 && b[|b| - 1].stamp - b[0].stamp > HISTORY_NS {
      var c := b[1..];
      assert forall i :: 0 <= i < |c| ==> c[i] == b[i + 1];
      TrimmedIsRecent(c);
      forall i | 0 <= i < |b|
        ensures i >= |b| - |Trimmed(b)| <==> b[|b| - 1].stamp - b[i].stamp <= HISTORY_NS
      {
        if i > 0 { assert b[i] == c[i - 1]; }
      }
    }
  }

  /** Entries trimmed once would be trimmed later anyway. */
  lemma {:induction false} TrimmedOnceMore(b: seq<Entry>, e: Entry)
    requires Ascending(b + [e])
    ensures Trimmed(Trimmed(b) + [e]) == Trimmed(b + [e])
    decreases |b|
  {
    if |b| > 1 && b[|b| - 1].stamp - b[0].stamp > HISTORY_NS {
      var all := b + [e];
      assert all[1..] == b[1..] + [e];
      assert forall i, j :: 0 <= i < j < |all[1..]| ==> all[1..][i] == all[i + 1] && all[1..][j] == all[j + 1];
      TrimmedOnceMore(b[1..], e);
      assert all[|b| - 1] == b[|b| - 1] && all[0] == b[0] && all[|b|] == e;
    }
  }

  lemma {:induction false} BufferIsTrimmedTrack(m: Motion, h: seq<Arrival>, n: nat)
    requires n <= |h|
    ensures After(m, h, n).buffer == Trimmed(Track(m, h, n))
  {
    hide NewEntry, Trimmed, StampOf, BaseTwist, Ascending, Track, Accepts;
    TrackSteps(m, h, n);
    if n > 0 {
      BufferIsTrimmedTrack(m, h, n - 1);
      TrackAscends(m, h, n);
      var s := After(m, h, n - 1);
      if Accepts(s, h[n - 1]) {
        TrimmedOnceMore(Track(m, h, n - 1), NewEntry(m, s, h[n - 1]));
      }
    } else {
      NothingTrimmed();
    }
  }

  lemma TrackSteps(m: Motion, h: seq<Arrival>, n: nat)
    requires n <= |h|
    ensures n == 0 ==> Track(m, h, n) == []
    ensures n > 0 ==> var s, t := After(m, h, n - 1), Track(m, h, n - 1);
              Track(m, h, n) == if Accepts(s, h[n - 1]) then t + [NewEntry(m, s, h[n - 1])] else t
  {
    hide NewEntry, Accepts, After;
  }

  lemma NothingTrimmed()
    ensures Trimmed([]) == []
  {
  }

  /** The buffer holds exactly the accepted samples within the history of the newest, in order. */
  lemma BufferIsRecentTrack(m: Motion, h: seq<Arrival>, n: nat)
    requires n <= |h|
    ensures var b, t := After(m, h, n).buffer, Track(m, h, n);
            && Ascending(b) && |b| <= |t| && b == t[|t| - |b|..]
            && forall i :: 0 <= i < |t| ==> (i >= |t| - |b| <==> t[|t| - 1].stamp - t[i].stamp <= 1_000_000_000)
  {
    hide After, Track, Trimmed;
    BufferIsTrimmedTrack(m, h, n);
    TrackAscends(m, h, n);
    TrimmedIsRecent(Track(m, h, n));
  }

  // ------------------------------------------------------------------ lookups against the whole track

  /** There is only one right answer. */
  lemma AnswerIsUnique(wrap: real -> real, b: seq<Entry>, t: nat, r: Option<Pose>, r': Option<Pose>)
    requires Ascending(b) && Answers(wrap, b, t, r) && Answers(wrap, b, t, r')
    ensures r == r'
  {
    hide Between;
  }

  lemma AnswerInSuffix(wrap: real -> real, b: seq<Entry>, track: seq<Entry>, t: nat, r: Option<Pose>)
    requires |b| <= |track| && b == track[|track| - |b|..] && Answers(wrap, b, t, r) && r.Some?
    ensures Answers(wrap, track, t, r)
  {
    var k := |track| - |b|;
    assert forall i :: 0 <= i < |b| ==> b[i] == track[i + k];
    if i :| 0 <= i < |b| && b[i].stamp == t && r.value == b[i].pose {
      assert track[i + k].stamp == t;
    } else {
      var i :| 0 <= i < |b| - 1 && b[i].stamp < t < b[i + 1].stamp && r.value == Between(wrap, b[i], b[i + 1], t);
      assert track[i + k] == b[i] && track[i + k + 1] == b[i + 1];
    }
  }

  /** A lookup answers exactly inside the buffer's range, and a buffered sample is found exactly. */
  lemma LookupAnswersIff(wrap: real -> real, b: seq<Entry>, t: nat, r: Option<Pose>)
    requires Ascending(b) && Answers(wrap, b, t, r)
    ensures r.Some? <==> b != [] && b[0].stamp <= t <= b[|b| - 1].stamp
    ensures forall e :: e in b && e.stamp == t ==> r == Some(e.pose)
  {
    hide Between;
  }

  /** What a lookup in the buffer answers is what a lookup among all samples ever accepted answers. */
  lemma LookupInBufferIsLookupInTrack(wrap: real -> real, m: Motion, h: seq<Arrival>, n: nat, t: nat, r: Option<Pose>,
                                      r': Option<Pose>)
    requires n <= |h| && Answers(wrap, After(m, h, n).buffer, t, r) && Answers(wrap, Track(m, h, n), t, r')
    ensures r.Some? ==> r == r'
  {
    hide After, Track, Answers, Ascending, Between;
    BufferIsRecentTrack(m, h, n);
    TrackAscends(m, h, n);
    if r.Some? {
      AnswerInSuffix(wrap, After(m, h, n).buffer, Track(m, h, n), t, r);
      AnswerIsUnique(wrap, Track(m, h, n), t, r, r');
    }
  }

  predicate StrictlyBetween(a: real, x: real, b: real) {
    if a < b then a < x < b else if a > b then a > x > b else x == a
  }

  function Turns(k: int, turn: real): real { k as real * turn }

  /** The angles a and b have the same direction. */
  ghost predicate SameDirection(turn: real, a: real, b: real) { exists k: int :: b == a + Turns(k, turn) }

  /** wrap takes an angle difference to at most half a turn in the same direction. */
  ghost predicate IsShortestArc(wrap: real -> real, turn: real) {
    forall d :: -turn <= 2.0 * wrap(d) <= turn && SameDirection(turn, d, wrap(d))
  }

  /**
    Strictly between two samples, each coordinate lies strictly between theirs, unless they are equal. The yaw
    lies so on an arc of at most half a turn that starts at the first yaw and ends in the second's direction.
  */
  lemma BetweenIsStrict(wrap: real -> real, turn: real, p: Entry, q: Entry, t: nat)
    requires p.stamp < t < q.stamp && IsShortestArc(wrap, turn)
    ensures var r := Between(wrap, p, q, t);
            StrictlyBetween(p.pose.x, r.x, q.pose.x) && StrictlyBetween(p.pose.y, r.y, q.pose.y)
    ensures var r, end := Between(wrap, p, q, t), p.pose.yaw + wrap(q.pose.yaw - p.pose.yaw);
            && StrictlyBetween(p.pose.yaw, r.yaw, end)
            && -turn <= 2.0 * (end - p.pose.yaw) <= turn && SameDirection(turn, q.pose.yaw, end)
  {
    var alpha := (t - p.stamp) as real / (q.stamp - p.stamp) as real;
    var arc := wrap(q.pose.yaw - p.pose.yaw);
    Fraction((t - p.stamp) as real, (q.stamp - p.stamp) as real, alpha);
    LerpIsStrict(p.pose.x, q.pose.x, q.pose.x - p.pose.x, alpha, alpha * (q.pose.x - p.pose.x));
    LerpIsStrict(p.pose.y, q.pose.y, q.pose.y - p.pose.y, alpha, alpha * (q.pose.y - p.pose.y));
    LerpIsStrict(p.pose.yaw, p.pose.yaw + arc, arc, alpha, alpha * arc);
    EndOfArc(turn, p.pose.yaw, q.pose.yaw, arc);
    hide StrictlyBetween, SameDirection;
  }

  predicate IsFraction(part: real, whole: real, some: real, all: real) { part * all == whole * some }

  /** Between two samples each coordinate, and the yaw along its arc, has gone the fraction of the time elapsed. */
  lemma BetweenIsElapsedFraction(wrap: real -> real, p: Entry, q: Entry, t: nat)
    requires p.stamp < q.stamp
    ensures var r, some, all := Between(wrap, p, q, t), (t - p.stamp) as real, (q.stamp - p.stamp) as real;
            && IsFraction(r.x - p.pose.x, q.pose.x - p.pose.x, some, all)
            && IsFraction(r.y - p.pose.y, q.pose.y - p.pose.y, some, all)
            && IsFraction(r.yaw - p.pose.yaw, wrap(q.pose.yaw - p.pose.yaw), some, all)
  {
    var some, all := (t - p.stamp) as real, (q.stamp - p.stamp) as real;
    FractionOf(some, all, q.pose.x - p.pose.x);
    FractionOf(some, all, q.pose.y - p.pose.y);
    FractionOf(some, all, wrap(q.pose.yaw - p.pose.yaw));
    hide IsFraction;
  }

  lemma FractionOf(some: real, all: real, whole: real)
    requires all != 0.0
    ensures IsFraction(some / all * whole, whole, some, all)
  {
    var f := some / all;
    assert f * all == some;
    assert f * whole * all == whole * (f * all);
  }

  lemma EndOfArc(turn: real, a: real, b: real, arc: real)
    requires SameDirection(turn, b - a, arc)
    ensures SameDirection(turn, b, a + arc)
  {
    var k: int :| arc == b - a + Turns(k, turn);
    assert a + arc == b + Turns(k, turn);
  }

  lemma Fraction(a: real, b: real, f: real)
    requires 0.0 < a < b && f == a / b
    ensures 0.0 < f < 1.0
  {
    if f > 1.0 { Positive(f - 1.0, b); }
    if f < 0.0 { Positive(-f, b); }
  }

  lemma PartIsStrict(whole: real, f: real, part: real)
    requires 0.0 < f < 1.0 && part == f * whole
    ensures StrictlyBetween(0.0, part, whole)
  {
    var negated := -whole;
    Positive(f, whole);
    Positive(1.0 - f, whole);
    Positive(f, negated);
    Positive(1.0 - f, negated);
    assert (1.0 - f) * whole == whole - part;
    assert f * negated == -part;
    assert (1.0 - f) * negated == negated + part;
  }

  lemma LerpIsStrict(a: real, b: real, whole: real, f: real, part: real)
    requires 0.0 < f < 1.0 && part == f * whole && b == a + whole
    ensures StrictlyBetween(a, a + part, b)
  {
    PartIsStrict(whole, f, part);
  }
}
