/**
  The live telemetry queue: producers push into a bounded queue that drops its oldest message, a broadcast
  thread swaps the queue out and sends the batch.

  Main results, over every interleaving: the queue is the last 256 messages enqueued since the last swap,
  and the broadcast is exactly the messages that fewer than 256 others followed before the next swap, in
  order (QueueAndBroadcastAgree, DeliveredIff); when the thread exits, nothing is left to send (ExitLeavesNothing).
*/
module BroadcastQueue {

  const MAX_SEND_QUEUE: nat := 256

  datatype Msg = Msg(channel: nat, timestamp: nat, data: string)

  /** log and swaps are history: all messages enqueued, and how many there were at each swap. */
  datatype State = State(
    queue: seq<Msg>, batch: seq<Msg>, sent: seq<Msg>, running: bool, exited: bool,
    log: seq<Msg>, swaps: seq<nat>)

  const START := State([], [], [], true, false, [], [])

  /** The atomic steps: one locked region each, or one message handed to the server. */
  datatype Step = Enqueue(msg: Msg) | Swap | Send | Stop | Exit

  function Pushed(queue: seq<Msg>, m: Msg): seq<Msg> {
    (if |queue| >= MAX_SEND_QUEUE then queue[1..] else queue) + [m]
  }

  /** A step whose thread would wait leaves the state as it is. */
  function Next(s: State, step: Step): State {
    match step
    case Enqueue(m) => s.(queue := Pushed(s.queue, m), log := s.log + [m])
    case Swap =>
      if !s.exited && s.batch == [] && s.queue != []
      then s.(queue := [], batch := s.queue, swaps := s.swaps + [|s.log|]) else s
    case Send => if s.batch != [] then s.(batch := s.batch[1..], sent := s.sent + [s.batch[0]]) else s
    case Stop => s.(running := false)
    case Exit => if !s.running && s.batch == [] && s.queue == [] then s.(exited := true) else s
  }

  function Run(steps: seq<Step>): State {
    if steps == [] then START else Next(Run(steps[..|steps| - 1]), steps[|steps| - 1])
  }

  class FoxgloveServer {
    var queue: seq<Msg>
    var batch: seq<Msg>
    var sent: seq<Msg>
    var running: bool
    var exited: bool
    ghost var log: seq<Msg>
    ghost var swaps: seq<nat>

    ghost function Value(): State
      reads this
    {
      State(queue, batch, sent, running, exited, log, swaps)
    }

    constructor ()
      ensures Value() == START
    {
      queue, batch, sent, running, exited := [], [], [], true, false;
      log, swaps := [], [];
    }

    method SendLiveTelemMsg(m: Msg)
      modifies this
      ensures Value() == Next(old(Value()), Enqueue(m))
    {
      if |queue| >= MAX_SEND_QUEUE {
        queue := queue[1..];
      }
      queue := queue + [m];
      log := log + [m];
    }

    /** The locked region of the broadcast loop; false while it has to wait, and once it has exited. */
    method TakeBatch() returns (taken: bool)
      requires batch == []
      modifies this
      ensures Value() == if old(queue) == [] then Next(old(Value()), Exit) else Next(old(Value()), Swap)
      ensures taken == (!old(exited) && old(queue) != [])
    {
      if queue == [] {
        if !running { exited := true; }
        return false;
      }
      if exited { return false; }
      batch, queue := queue, batch;
      swaps := swaps + [|log|];
      return true;
    }

    /** One turn of the sending loop. */
    method SendNext()
      requires batch != []
      modifies this`batch, this`sent
      ensures Value() == Next(old(Value()), Send)
    {
      sent := sent + [batch[0]];
      batch := batch[1..];
    }

    /** Sends the whole batch, while no other step interferes. */
    method BroadcastBatch()
      modifies this`batch, this`sent
      ensures batch == [] && sent == old(sent) + old(batch)
    {
      while batch != []
        invariant sent + batch == old(sent) + old(batch)
        decreases |batch|
      {
        assert sent + batch == sent + [batch[0]] + batch[1..];
        SendNext();
      }
      assert sent + [] == sent;
    }
  }

  // ------------------------------------------------------------------ what is delivered

  function Max(a: int, b: int): int { if a >= b then a else b }

  function LastSwap(swaps: seq<nat>): nat { if swaps == [] then 0 else swaps[|swaps| - 1] }

  /** Swap positions do not go back, nor beyond the log. */
  ghost predicate SwapsOf(swaps: seq<nat>, n: nat) {
    (forall i, j :: 0 <= i <= j < |swaps| ==> swaps[i] <= swaps[j]) && LastSwap(swaps) <= n
  }

  /** The indices of the messages a queue holds if those from a to b were enqueued into it. */
  function Held(a: nat, b: nat): (r: seq<nat>)
    requires a <= b
  {
    var from := Max(a, b - MAX_SEND_QUEUE);
    seq(b - from, i requires i >= 0 => from + i)
  }

  /** The indices of all messages taken by the swaps. */
  ghost function Delivered(swaps: seq<nat>): seq<nat>
    requires SwapsOf(swaps, LastSwap(swaps))
  {
    if swaps == [] then []
    else
      var earlier := swaps[..|swaps| - 1];
      assert earlier != [] ==> earlier[|earlier| - 1] <= LastSwap(swaps);
      Delivered(earlier) + Held(LastSwap(earlier), LastSwap(swaps))
  }

  ghost predicate Indexed(msgs: seq<Msg>, log: seq<Msg>, indices: seq<nat>) {
    |msgs| == |indices| && forall k :: 0 <= k < |indices| ==> indices[k] < |log| && msgs[k] == log[indices[k]]
  }

  ghost predicate Agrees(s: State) {
    && SwapsOf(s.swaps, |s.log|)
    && Indexed(s.queue, s.log, Held(LastSwap(s.swaps), |s.log|))
    && Indexed(s.sent + s.batch, s.log, Delivered(s.swaps))
  }

  lemma EnqueueAgrees(s: State, m: Msg)
    requires Agrees(s)
    ensures Agrees(Next(s, Enqueue(m)))
  {
    var a, n := LastSwap(s.swaps), |s.log|;
    hide Delivered;
    assert |s.queue| >= MAX_SEND_QUEUE <==> n - MAX_SEND_QUEUE >= a;
  }

  lemma SwapAgrees(s: State)
    requires Agrees(s) && !s.exited && s.batch == [] && s.queue != []
    ensures Agrees(Next(s, Swap))
  {
    var t := Next(s, Swap);
    assert t.swaps[..|t.swaps| - 1] == s.swaps;
    assert t.sent + t.batch == s.sent + s.batch + s.queue;
  }

  lemma SendAgrees(s: State)
    requires Agrees(s) && s.batch != []
    ensures Agrees(Next(s, Send))
  {
    assert s.sent + s.batch == s.sent + [s.batch[0]] + s.batch[1..];
  }

  lemma StepAgrees(s: State, step: Step)
    requires Agrees(s)
    ensures Agrees(Next(s, step))
  {
    match step
    case Enqueue(m) => EnqueueAgrees(s, m);
    case Swap => if !s.exited && s.batch == [] && s.queue != [] { SwapAgrees(s); }
    case Send => if s.batch != [] { SendAgrees(s); }
    case Stop =>
    case Exit =>
  }

  /** The queue is the last 256 messages since the last swap, and sent and batch are those delivered, in every run. */
  lemma {:induction false} QueueAndBroadcastAgree(steps: seq<Step>)
    ensures Agrees(Run(steps))
    decreases |steps|
  {
    if steps != [] {
      hide Agrees, Next;
      QueueAndBroadcastAgree(steps[..|steps| - 1]);
      StepAgrees(Run(steps[..|steps| - 1]), steps[|steps| - 1]);
    } else {
      assert Agrees(START);
    }
  }

  /** When the broadcast thread exits, every message enqueued so far was sent or dropped for 256 newer ones. */
  lemma ExitLeavesNothing(steps: seq<Step>)
    requires var s := Run(steps); !s.exited && Next(s, Exit).exited
    ensures var s := Run(steps);
            && SwapsOf(s.swaps, |s.log|) && LastSwap(s.swaps) == |s.log|
            && Indexed(s.sent, s.log, Delivered(s.swaps))
  {
    QueueAndBroadcastAgree(steps);
    hide Run, Delivered;
    var s := Run(steps);
    assert s.sent + [] == s.sent;
  }

  /** Some swap takes message i, with fewer than 256 messages behind it. */
  ghost predicate TakenInTime(swaps: seq<nat>, i: nat) {
    exists k :: 0 <= k < |swaps| && IsNextSwap(swaps, i, k) && swaps[k] - i <= 256
  }

  /** The swap k is the first after message i was enqueued. */
  ghost predicate IsNextSwap(swaps: seq<nat>, i: nat, k: nat)
    requires k < |swaps|
  {
    i < swaps[k] && forall j :: 0 <= j < k ==> swaps[j] <= i
  }

  /** A message is delivered exactly when fewer than 256 others follow it before the next swap; the order is kept. */
  lemma {:induction false} DeliveredIff(swaps: seq<nat>, i: nat)
    requires SwapsOf(swaps, LastSwap(swaps))
    ensures i in Delivered(swaps) <==> TakenInTime(swaps, i)
    decreases |swaps|
  {
    if swaps != [] {
      var earlier := swaps[..|swaps| - 1];
      DeliveredIff(earlier, i);
      InHeld(LastSwap(earlier), LastSwap(swaps), i);
      assert i in Delivered(swaps) <==> i in Delivered(earlier) || i in Held(LastSwap(earlier), LastSwap(swaps));
      hide Delivered, Held, TakenInTime;
      TakenByLater(swaps, i);
    }
  }

  lemma EarlierSwaps(swaps: seq<nat>, i: nat, k: nat)
    requires swaps != [] && k < |swaps| - 1
    ensures var earlier := swaps[..|swaps| - 1];
            earlier[k] == swaps[k] && (IsNextSwap(earlier, i, k) <==> IsNextSwap(swaps, i, k))
  {
    var earlier := swaps[..|swaps| - 1];
    assert forall j :: 0 <= j <= k ==> earlier[j] == swaps[j];
  }

  lemma LastIsNextSwap(swaps: seq<nat>, i: nat)
    requires swaps != [] && SwapsOf(swaps, LastSwap(swaps))
    ensures IsNextSwap(swaps, i, |swaps| - 1) <==> LastSwap(swaps[..|swaps| - 1]) <= i < LastSwap(swaps)
  {
  }

  lemma TakenByLater(swaps: seq<nat>, i: nat)
    requires swaps != [] && SwapsOf(swaps, LastSwap(swaps))
    ensures var earlier := swaps[..|swaps| - 1];
            TakenInTime(swaps, i) <==>
              TakenInTime(earlier, i) || Max(LastSwap(earlier), LastSwap(swaps) - MAX_SEND_QUEUE) <= i < LastSwap(swaps)
  {
    hide IsNextSwap, SwapsOf;
    var earlier, last := swaps[..|swaps| - 1], |swaps| - 1;
    LastIsNextSwap(swaps, i);
    if TakenInTime(earlier, i) {
      var k :| 0 <= k < |earlier| && IsNextSwap(earlier, i, k) && earlier[k] - i <= MAX_SEND_QUEUE;
      EarlierSwaps(swaps, i, k);
    }
    if TakenInTime(swaps, i) {
      var k :| 0 <= k < |swaps| && IsNextSwap(swaps, i, k) && swaps[k] - i <= MAX_SEND_QUEUE;
      if k < last { EarlierSwaps(swaps, i, k); }
    }
  }

  lemma InHeld(a: nat, b: nat, i: nat)
    requires a <= b
    ensures i in Held(a, b) <==> Max(a, b - MAX_SEND_QUEUE) <= i < b
  {
    var from := Max(a, b - MAX_SEND_QUEUE);
    if from <= i < b { assert Held(a, b)[i - from] == i; }
  }

  ghost predicate Ascending(s: seq<nat>) { forall a, b :: 0 <= a < b < |s| ==> s[a] < s[b] }

  /** Messages are delivered in the order they were enqueued, each at most once. */
  lemma {:induction false} DeliveredInOrder(swaps: seq<nat>)
    requires SwapsOf(swaps, LastSwap(swaps))
    ensures Ascending(Delivered(swaps))
    ensures forall i :: i in Delivered(swaps) ==> i < LastSwap(swaps)
    decreases |swaps|
  {
    if swaps != [] {
      var earlier := swaps[..|swaps| - 1];
      DeliveredInOrder(earlier);
      var d, from := Delivered(earlier), LastSwap(earlier);
      assert from <= LastSwap(swaps);
      assert Delivered(swaps) == d + Held(from, LastSwap(swaps));
      assert Ascending(d);
      var all := d + Held(from, LastSwap(swaps));
      forall a, b | 0 <= a < b < |all|
        ensures all[a] < all[b]
      {
        if b < |d| {
          assert all[a] == d[a] && all[b] == d[b];
        } else if a < |d| {
          assert all[a] == d[a] && d[a] in d;
          assert all[b] == Held(from, LastSwap(swaps))[b - |d|] >= from;
        } else {
          assert all[a] == Held(from, LastSwap(swaps))[a - |d|] < Held(from, LastSwap(swaps))[b - |d|] == all[b];
        }
      }
    }
  }

  // ------------------------------------------------------------------ the broadcast thread catches up

  /** Every message enqueued is logged, and the thread is asked to stop by a stop alone. */
  lemma {:induction false} LoggedAndRunning(steps: seq<Step>)
    ensures Run(steps).log == Enqueued(steps) && (Run(steps).running <==> Stop !in steps)
    decreases |steps|
  {
    if steps != [] {
      LoggedAndRunning(steps[..|steps| - 1]);
      assert steps == steps[..|steps| - 1] + [steps[|steps| - 1]];
    }
  }

  /** The messages enqueued by the steps, in order. */
  function Enqueued(steps: seq<Step>): seq<Msg> {
    if steps == [] then []
    else Enqueued(steps[..|steps| - 1]) + if steps[|steps| - 1].Enqueue? then [steps[|steps| - 1].msg] else []
  }

  /** Continues a run. */
  function More(s: State, steps: seq<Step>): State
    decreases |steps|
  {
    if steps == [] then s else More(Next(s, steps[0]), steps[1..])
  }

  lemma {:induction false} MoreOfMore(s: State, a: seq<Step>, b: seq<Step>)
    ensures More(s, a + b) == More(More(s, a), b)
    decreases |a|
  {
    hide Next;
    if a == [] {
      assert a + b == b;
    } else {
      assert (a + b)[1..] == a[1..] + b;
      MoreOfMore(Next(s, a[0]), a[1..], b);
    }
  }

  function Sends(n: nat): seq<Step> { seq(n, _ => Send) }

  lemma {:induction false} BatchIsSent(s: State)
    ensures More(s, Sends(|s.batch|)) == s.(batch := [], sent := s.sent + s.batch)
    decreases |s.batch|
  {
    if s.batch == [] {
      assert s.sent + s.batch == s.sent;
    } else {
      var t := Next(s, Send);
      assert Sends(|s.batch|)[1..] == Sends(|t.batch|);
      BatchIsSent(t);
      assert s.sent + [s.batch[0]] + s.batch[1..] == s.sent + s.batch;
    }
  }

  /** What the thread has left to do: finish its batch, swap the queue, and send that. */
  function Catching(s: State): seq<Step> {
    Sends(|s.batch|) + if s.queue == [] then [] else [Swap] + Sends(|s.queue|)
  }

  /**
    Until it has exited the thread can, on its own, send its batch and then all that is queued; and once it is asked
    to stop it can then exit.
  */
  lemma ThreadCatchesUp(s: State)
    requires !s.exited
    ensures var t := More(s, Catching(s));
            && t.sent == s.sent + s.batch + s.queue && t.batch == [] && t.queue == [] && t.log == s.log
            && t.running == s.running && (!s.running ==> Next(t, Exit).exited)
  {
    BatchIsSent(s);
    var b := More(s, Sends(|s.batch|));
    if s.queue == [] {
      assert Catching(s) == Sends(|s.batch|);
      assert s.sent + s.batch + [] == s.sent + s.batch;
    } else {
      var taken := Next(b, Swap);
      BatchIsSent(taken);
      MoreOfMore(s, Sends(|s.batch|), [Swap] + Sends(|s.queue|));
      MoreStarts(b, Swap, Sends(|s.queue|));
    }
  }

  lemma MoreStarts(s: State, step: Step, steps: seq<Step>)
    ensures More(s, [step] + steps) == More(Next(s, step), steps)
  {
    hide Next;
    assert ([step] + steps)[1..] == steps;
  }
}
