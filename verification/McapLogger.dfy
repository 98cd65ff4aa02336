/**
  The MCAP logger: producers push into a shared buffer, a writer thread moves the buffer out and writes it.

  Main results, over every interleaving: written, in-flight and buffered messages together are all messages
  pushed, in order (NothingIsLost); when the writer has been joined, every message log_msg accepted is
  written (AcceptedIsWritten), and a message pushed otherwise is sure to be written exactly when the writer is
  not down at the push (PushIsWrittenIff); each topic has one channel of its own (ChannelsAreTopics).
*/
module McapLogger {

  /** A message on its topic; the type decides the schema of a new channel. */
  datatype Msg = Msg(topic: string, kind: string, data: string, time: nat)

  datatype Record = Record(channel: nat, msg: Msg)

  /**
    Where init_logging and stop_logging stand; the writer thread runs in Up and Stopping. A stop that comes before
    the writer is spawned leaves it to find logging off.
  */
  datatype Phase = Down | Starting | Up | Stopping

  /**
    log, accepted and exitAt are history: all messages pushed, which of them log_msg accepted, and how
    many there were when the writer last exited.
  */
  datatype State = State(
    logging: bool, phase: Phase, buffer: seq<Msg>, batch: seq<Msg>,
    written: seq<Record>, channels: map<string, nat>, nextChannel: nat,
    log: seq<Msg>, accepted: set<nat>, exitAt: nat)

  /** The atomic steps: one locked region each, or one message written. */
  datatype Step = LogMsg(msg: Msg) | Push(msg: Msg) | BeginLogging | Spawn | BeginStop | Take | Write | Exit

  /** The channels opened with the file. */
  datatype File = File(channels: map<string, nat>, next: nat) {
    ghost predicate Valid() { DistinctChannels(channels, next) }
  }

  ghost predicate DistinctChannels(channels: map<string, nat>, next: nat) {
    && (forall t :: t in channels ==> channels[t] < next)
    && forall t, u :: t in channels && u in channels && channels[t] == channels[u] ==> t == u
  }

  function Start(file: File): State {
    State(false, Down, [], [], [], file.channels, file.next, [], {}, 0)
  }

  function Pushed(s: State, m: Msg): State { s.(buffer := s.buffer + [m], log := s.log + [m]) }

  /** Writes one message, on a new channel if its topic has none. */
  function Wrote(s: State, m: Msg): State {
    if m.topic in s.channels then s.(written := s.written + [Record(s.channels[m.topic], m)])
    else s.(written := s.written + [Record(s.nextChannel, m)],
            channels := s.channels[m.topic := s.nextChannel], nextChannel := s.nextChannel + 1)
  }

  predicate WriterRuns(s: State) { s.phase.Up? || s.phase.Stopping? }

  /** A step whose thread would wait, or is not there, leaves the state as it is. */
  function Next(s: State, step: Step): State {
    match step
    case LogMsg(m) => if s.logging then Pushed(s, m).(accepted := s.accepted + {|s.log|}) else s
    case Push(m) => Pushed(s, m)
    case BeginLogging => if s.phase.Down? then s.(logging := true, phase := Starting) else s
    case Spawn => if s.phase.Starting? then s.(phase := if s.logging then Up else Stopping) else s
    case BeginStop => s.(logging := false, phase := if s.phase.Up? then Stopping else s.phase)
    case Take => if WriterRuns(s) && s.batch == [] && s.buffer != [] then s.(batch := s.buffer, buffer := []) else s
    case Write => if s.batch != [] then Wrote(s.(batch := s.batch[1..]), s.batch[0]) else s
    case Exit =>
      if WriterRuns(s) && s.batch == [] && s.buffer == [] && !s.logging then s.(phase := Down, exitAt := |s.log|) else s
  }

  function Run(file: File, steps: seq<Step>): State {
    if steps == [] then Start(file) else Next(Run(file, steps[..|steps| - 1]), steps[|steps| - 1])
  }

  class MCAPLogger {
    var logging: bool
    var phase: Phase
    var buffer: seq<Msg>
    var batch: seq<Msg>
    var written: seq<Record>
    var channels: map<string, nat>
    var nextChannel: nat
    ghost var log: seq<Msg>
    ghost var accepted: set<nat>
    ghost var exitAt: nat

    ghost function Value(): State
      reads this
    {
      State(logging, phase, buffer, batch, written, channels, nextChannel, log, accepted, exitAt)
    }

    constructor (file: File)
      ensures Value() == Start(file)
    {
      logging, phase, buffer, batch, written := false, Down, [], [], [];
      channels, nextChannel := file.channels, file.next;
      log, accepted, exitAt := [], {}, 0;
    }

    method PushBack(m: Msg)
      modifies this`buffer, this`log
      ensures buffer == old(buffer) + [m] && log == old(log) + [m]
    {
      buffer := buffer + [m];
      log := log + [m];
    }

    method LogMessage(m: Msg) returns (result: int)
      modifies this
      ensures Value() == Next(old(Value()), LogMsg(m))
      ensures result == if old(logging) then 0 else -1
    {
      if !logging { return -1; }
      accepted := accepted + {|log|};
      PushBack(m);
      return 0;
    }

    /** log_params and _log_git_metadata push whether or not logging is active. */
    method LogParams(m: Msg) returns (result: int)
      modifies this
      ensures Value() == Next(old(Value()), Push(m)) && result == 0
    {
      PushBack(m);
      return 0;
    }

    method InitLogging()
      requires phase == Down
      modifies this
      ensures Value() == Next(Next(old(Value()), BeginLogging), Spawn)
    {
      logging := true;
      phase := Starting;
      phase := Up;
    }

    /** The locked region of stop_logging; before the writer is spawned there is none to wait for. */
    method RequestStop()
      modifies this
      ensures Value() == Next(old(Value()), BeginStop)
    {
      logging := false;
      if phase == Up { phase := Stopping; }
    }

    /** The locked region of the writer's loop; false when the thread waits or exits. */
    method TakeBatch() returns (taken: bool)
      requires phase == Up || phase == Stopping
      requires batch == []
      modifies this
      ensures Value() == if old(buffer) == [] then Next(old(Value()), Exit) else Next(old(Value()), Take)
      ensures taken == (old(buffer) != [])
    {
      if buffer == [] {
        if !logging {
          phase := Down;
          exitAt := |log|;
        }
        return false;
      }
      batch := buffer;
      buffer := [];
      return true;
    }

    /** One turn of the writing loop. */
    method WriteNext()
      requires batch != []
      modifies this
      ensures Value() == Next(old(Value()), Write)
    {
      var m := batch[0];
      if m.topic !in channels {
        channels := channels[m.topic := nextChannel];
        nextChannel := nextChannel + 1;
      }
      written := written + [Record(channels[m.topic], m)];
      batch := batch[1..];
    }
  }

  // ------------------------------------------------------------------ invariants of every run

  function Messages(written: seq<Record>): seq<Msg> { seq(|written|, i requires 0 <= i < |written| => written[i].msg) }

  ghost predicate IsConserved(s: State) { Messages(s.written) + s.batch + s.buffer == s.log }

  ghost predicate IsPhased(s: State) {
    && (s.phase.Up? ==> s.logging) && (s.logging ==> s.phase.Starting? || s.phase.Up?)
    && (!WriterRuns(s) ==> s.batch == [] && |s.written| == s.exitAt)
  }

  /** Once the writer is gone, what was accepted is written. */
  ghost predicate IsKept(s: State) {
    forall i :: i in s.accepted ==> i < |s.log| && (s.phase.Down? ==> i < |s.written|)
  }

  ghost predicate HasChannels(s: State) {
    && DistinctChannels(s.channels, s.nextChannel)
    && forall r :: r in s.written ==> r.msg.topic in s.channels && s.channels[r.msg.topic] == r.channel
  }

  ghost predicate Inv(s: State) { IsConserved(s) && IsPhased(s) && IsKept(s) && HasChannels(s) }

  lemma WroteKeepsChannels(s: State, m: Msg)
    requires HasChannels(s)
    ensures HasChannels(Wrote(s, m))
  {
    var t := Wrote(s, m);
    assert forall u :: u in s.channels ==> u in t.channels && t.channels[u] == s.channels[u];
  }

  lemma WriteKeepsChannels(s: State)
    requires HasChannels(s) && s.batch != []
    ensures HasChannels(Next(s, Write))
  {
    WroteKeepsChannels(s.(batch := s.batch[1..]), s.batch[0]);
    hide Wrote, DistinctChannels;
  }

  lemma WriteConserves(s: State)
    requires IsConserved(s) && s.batch != []
    ensures IsConserved(Next(s, Write))
  {
    var t := Next(s, Write);
    assert Messages(t.written) == Messages(s.written) + [s.batch[0]];
    assert Messages(t.written) + t.batch == Messages(s.written) + s.batch;
  }

  lemma PushConserves(s: State, m: Msg)
    requires IsConserved(s)
    ensures IsConserved(Pushed(s, m))
  {
    assert Messages(s.written) + s.batch + (s.buffer + [m]) == Messages(s.written) + s.batch + s.buffer + [m];
  }

  lemma StepConserves(s: State, step: Step)
    requires IsConserved(s)
    ensures IsConserved(Next(s, step))
  {
    match step
    case LogMsg(m) => PushConserves(s, m);
    case Push(m) => PushConserves(s, m);
    case Write => if s.batch != [] { WriteConserves(s); }
    case _ =>
  }

  lemma StepKeepsPhase(s: State, step: Step)
    requires Inv(s)
    ensures IsPhased(Next(s, step)) && IsKept(Next(s, step))
  {
    hide HasChannels;
    if step.Exit? && WriterRuns(s) && s.batch == [] && s.buffer == [] {
      assert |Messages(s.written)| == |s.written|;
    }
  }

  lemma StepKeepsInv(s: State, step: Step)
    requires Inv(s)
    ensures Inv(Next(s, step))
  {
    StepConserves(s, step);
    StepKeepsPhase(s, step);
    hide IsConserved, IsPhased, IsKept;
    if step.Write? && s.batch != [] { WriteKeepsChannels(s); }
  }

  lemma {:induction false} RunKeepsInv(file: File, steps: seq<Step>)
    requires file.Valid()
    ensures Inv(Run(file, steps))
    decreases |steps|
  {
    if steps != [] {
      hide Inv, Next;
      RunKeepsInv(file, steps[..|steps| - 1]);
      StepKeepsInv(Run(file, steps[..|steps| - 1]), steps[|steps| - 1]);
    }
  }

  /** Written, in flight and buffered: together all messages pushed, in order. */
  lemma NothingIsLost(file: File, steps: seq<Step>)
    requires file.Valid()
    ensures var s := Run(file, steps); Messages(s.written) + s.batch + s.buffer == s.log
  {
    RunKeepsInv(file, steps);
  }

  /** Once the writer has been joined, every message for which log_msg returned 0 is in the file. */
  lemma AcceptedIsWritten(file: File, steps: seq<Step>, i: nat)
    requires file.Valid() && Run(file, steps).phase.Down? && i in Run(file, steps).accepted
    ensures var s := Run(file, steps); i < |s.written| && i < |s.log| && s.written[i].msg == s.log[i]
  {
    RunKeepsInv(file, steps);
    var s := Run(file, steps);
    hide Run;
    assert Messages(s.written)[i] == s.log[i];
  }

  /**
    Without a writer, the file holds exactly the messages pushed before its last exit; later ones wait in the
    buffer.
  */
  lemma DownWritesExactly(file: File, steps: seq<Step>)
    requires file.Valid() && Run(file, steps).phase.Down?
    ensures var s := Run(file, steps);
            s.exitAt <= |s.log| && Messages(s.written) == s.log[..s.exitAt] && s.buffer == s.log[s.exitAt..]
  {
    RunKeepsInv(file, steps);
    var s := Run(file, steps);
    hide Run;
    assert s.batch == [] && |Messages(s.written)| == s.exitAt;
    assert Messages(s.written) + [] == Messages(s.written);
  }

  /** Two records share a channel exactly when they share a topic. */
  lemma ChannelsAreTopics(file: File, steps: seq<Step>, i: nat, j: nat)
    requires file.Valid() && i < |Run(file, steps).written| && j < |Run(file, steps).written|
    ensures var w := Run(file, steps).written; w[i].channel == w[j].channel <==> w[i].msg.topic == w[j].msg.topic
  {
    RunKeepsInv(file, steps);
    var s := Run(file, steps);
    hide Run;
    assert s.written[i] in s.written && s.written[j] in s.written;
  }

  /** Continues a run. */
  function More(s: State, steps: seq<Step>): State
    decreases |steps|
  {
    if steps == [] then s else More(Next(s, steps[0]), steps[1..])
  }

  /** Message i is pushed, and in the file once the writer is down. */
  ghost predicate IsSafe(s: State, i: nat) { i < |s.log| && (s.phase.Down? ==> i < |s.written|) }

  lemma StepKeepsSafe(s: State, step: Step, i: nat)
    requires Inv(s) && IsSafe(s, i)
    ensures IsSafe(Next(s, step), i) && Next(s, step).log[i] == s.log[i]
  {
    hide HasChannels;
    if step.Exit? && WriterRuns(s) && s.batch == [] && s.buffer == [] {
      assert |Messages(s.written)| == |s.written|;
    }
  }

  lemma {:induction false} MoreKeepsSafe(s: State, steps: seq<Step>, i: nat)
    requires Inv(s) && IsSafe(s, i)
    ensures Inv(More(s, steps)) && IsSafe(More(s, steps), i) && More(s, steps).log[i] == s.log[i]
    decreases |steps|
  {
    hide Inv, Next, IsSafe;
    if steps != [] {
      StepKeepsInv(s, steps[0]);
      StepKeepsSafe(s, steps[0], i);
      MoreKeepsSafe(Next(s, steps[0]), steps[1..], i);
    } else {
      SafeIsLogged(s, i);
    }
  }

  lemma SafeIsLogged(s: State, i: nat)
    requires IsSafe(s, i)
    ensures i < |s.log|
  {
  }

  /** Whatever follows, message i is in the file whenever the writer is down. */
  ghost predicate IsWrittenWheneverDown(s: State, i: nat)
    requires i < |s.log|
  {
    forall steps: seq<Step> :: HasWritten(More(s, steps), i, s.log[i])
  }

  predicate HasWritten(s: State, i: nat, m: Msg) { s.phase.Down? ==> i < |s.written| && s.written[i].msg == m }

  lemma SafeIsWritten(s: State, i: nat)
    requires Inv(s) && IsSafe(s, i)
    ensures HasWritten(s, i, s.log[i])
  {
    if s.phase.Down? { assert Messages(s.written)[i] == s.log[i]; }
  }

  /**
    A message that log_params pushes, in any state that a run reaches, is in the file whenever the writer is down
    later, exactly when the writer is not down at the push; otherwise it is missing at once.
  */
  lemma PushIsWrittenIff(file: File, steps: seq<Step>, m: Msg)
    requires file.Valid()
    ensures var s := Run(file, steps);
            |Next(s, Push(m)).log| == |s.log| + 1
            && (IsWrittenWheneverDown(Next(s, Push(m)), |s.log|) <==> !s.phase.Down?)
  {
    RunKeepsInv(file, steps);
    var s := Run(file, steps);
    var pushed, i := Next(s, Push(m)), |s.log|;
    hide Run;
    StepKeepsInv(s, Push(m));
    if s.phase.Down? {
      assert |Messages(s.written)| == |s.written| <= i;
      assert More(pushed, []) == pushed && !HasWritten(pushed, i, m);
    } else {
      forall more: seq<Step>
        ensures HasWritten(More(pushed, more), i, pushed.log[i])
      {
        MoreKeepsSafe(pushed, more, i);
        hide More;
        SafeIsWritten(More(pushed, more), i);
      }
    }
  }

  /** Parameters pushed while the writer is down stay out of the file unless logging is started again. */
  lemma PushedWhileDownWaits(file: File, steps: seq<Step>, m: Msg, more: seq<Step>)
    requires file.Valid() && Run(file, steps).phase.Down? && BeginLogging !in more
    ensures var s := Run(file, steps);
            var t := More(Next(s, Push(m)), more);
            t.phase.Down? && |t.written| <= |s.log|
  {
    RunKeepsInv(file, steps);
    var s := Run(file, steps);
    hide Run;
    StepKeepsInv(s, Push(m));
    assert |Messages(s.written)| == |s.written| <= |s.log|;
    NothingIsWrittenWhileDown(Next(s, Push(m)), more);
  }

  /** Parameters logged before logging was ever started: 0 is returned, and the message only waits. */
  lemma EarlyParamsAreNotWritten(file: File, m: Msg)
    ensures var s := Run(file, [Push(m)]); s.phase.Down? && s.written == [] && s.buffer == [m]
  {
    assert [Push(m)][..0] == [];
    assert Run(file, [Push(m)][..0]) == Start(file);
    assert [] + [m] == [m];
  }

  /** Unless logging is started again, nothing more is written: parameters pushed after the exit are never written. */
  lemma {:induction false} NothingIsWrittenWhileDown(s: State, steps: seq<Step>)
    requires Inv(s) && s.phase.Down? && BeginLogging !in steps
    ensures More(s, steps).written == s.written && More(s, steps).phase.Down?
    decreases |steps|
  {
    if steps != [] {
      StepKeepsInv(s, steps[0]);
      assert Next(s, steps[0]).phase.Down? && Next(s, steps[0]).written == s.written;
      hide Inv, Next;
      NothingIsWrittenWhileDown(Next(s, steps[0]), steps[1..]);
    }
  }

  // ------------------------------------------------------------------ what is pushed, and when logging is on

  /** log_msg keeps and accepts the message exactly while logging is on; parameters are kept always. */
  lemma PushesAreKept(s: State, m: Msg)
    ensures var t := Next(s, LogMsg(m));
            if s.logging then t.log == s.log + [m] && t.accepted == s.accepted + {|s.log|} && t.buffer == s.buffer + [m]
            else t == s
    ensures var t := Next(s, Push(m)); t.log == s.log + [m] && t.accepted == s.accepted && t.buffer == s.buffer + [m]
  {
  }

  /** Step k starts logging, with no writer around, and no later step stops it. */
  ghost predicate StartsForGood(file: File, steps: seq<Step>, k: nat)
    requires k < |steps|
  {
    steps[k].BeginLogging? && Run(file, steps[..k]).phase.Down? && forall j :: k < j < |steps| ==> !steps[j].BeginStop?
  }

  lemma StartsForGoodInit(file: File, steps: seq<Step>, k: nat)
    requires k < |steps| - 1
    ensures StartsForGood(file, steps, k) <==>
              StartsForGood(file, steps[..|steps| - 1], k) && !steps[|steps| - 1].BeginStop?
  {
    var init := steps[..|steps| - 1];
    assert init[..k] == steps[..k];
    assert forall j :: 0 <= j < |init| ==> init[j] == steps[j];
  }

  /** Over every interleaving, logging is on exactly when a start has found the writer gone and no stop came since. */
  lemma {:induction false} LoggingIff(file: File, steps: seq<Step>)
    ensures Run(file, steps).logging <==> exists k: nat :: k < |steps| && StartsForGood(file, steps, k)
    decreases |steps|
  {
    if steps != [] {
      var init, last := steps[..|steps| - 1], |steps| - 1;
      LoggingIff(file, init);
      forall k: nat | k < last
        ensures StartsForGood(file, steps, k) <==> StartsForGood(file, init, k) && !steps[last].BeginStop?
      {
        StartsForGoodInit(file, steps, k);
      }
      LoggingStep(Run(file, init), steps[last]);
      assert Run(file, steps) == Next(Run(file, init), steps[last]);
      assert StartsForGood(file, steps, last) <==> steps[last].BeginLogging? && Run(file, init).phase.Down?;
      hide Run, Next, StartsForGood;
    }
  }

  lemma LoggingStep(s: State, step: Step)
    ensures Next(s, step).logging <==>
              !step.BeginStop? && (s.logging || (step.BeginLogging? && s.phase.Down?))
  {
  }

  // ------------------------------------------------------------------ the writer catches up

  lemma {:induction false} MoreOfMore(s: State, a: seq<Step>, b: seq<Step>)
    ensures More(s, a + b) == More(More(s, a), b)
    decreases |a|
  {
    hide Next;
    if a == [] {
      assert a + b == b;
    } else {
      assert (a + b)[1..] == a[1..] + b;
      MoreOfMore(Next(s, a[0]), a[1..], b);
    }
  }

  function Writes(n: nat): seq<Step> { seq(n, _ => Write) }

  /** t differs from s in what is written and in flight only. */
  predicate OnlyWrites(s: State, t: State) {
    && t.logging == s.logging && t.phase == s.phase && t.buffer == s.buffer && t.log == s.log
    && t.accepted == s.accepted && t.exitAt == s.exitAt
  }

  /** The writer writes its whole batch, one message at a time. */
  lemma {:induction false} BatchIsWritten(s: State)
    requires Inv(s)
    ensures var t := More(s, Writes(|s.batch|)); t.batch == [] && OnlyWrites(s, t) && Inv(t)
    decreases |s.batch|
  {
    hide Inv;
    if s.batch != [] {
      var t := Next(s, Write);
      assert t.batch == s.batch[1..] && OnlyWrites(s, t);
      StepKeepsInv(s, Write);
      assert Writes(|s.batch|)[1..] == Writes(|t.batch|);
      hide Next;
      BatchIsWritten(t);
    }
  }

  /** What the writer has left to do: finish its batch, take the buffer, and write that. */
  function Catching(s: State): seq<Step> {
    Writes(|s.batch|) + if s.buffer == [] then [] else [Take] + Writes(|s.buffer|)
  }

  /** t is s with the log, and nothing in flight or buffered. */
  ghost predicate HasCaughtUp(s: State, t: State) {
    Inv(t) && t.batch == [] && t.buffer == [] && t.log == s.log && t.phase == s.phase && t.logging == s.logging
  }

  lemma BufferIsTaken(s: State)
    requires Inv(s) && WriterRuns(s) && s.batch == [] && s.buffer != []
    ensures HasCaughtUp(s, More(s, [Take] + Writes(|s.buffer|)))
  {
    var taken := Next(s, Take);
    StepKeepsInv(s, Take);
    hide Inv;
    BatchIsWritten(taken);
    MoreStarts(s, Take, Writes(|s.buffer|));
  }

  lemma CatchesUp(s: State)
    requires Inv(s) && WriterRuns(s)
    ensures HasCaughtUp(s, More(s, Catching(s)))
  {
    hide Inv;
    BatchIsWritten(s);
    hide More, Next, Writes;
    if s.buffer == [] {
      assert Catching(s) == Writes(|s.batch|);
    } else {
      BufferIsTaken(More(s, Writes(|s.batch|)));
      MoreOfMore(s, Writes(|s.batch|), [Take] + Writes(|s.buffer|));
    }
  }

  /** Unless the writer is down it is spawned, or already runs; it stops or goes on as logging says. */
  lemma SpawnedRuns(s: State)
    requires Inv(s) && !s.phase.Down?
    ensures var t := Next(s, Spawn);
            && Inv(t) && WriterRuns(t) && t.buffer == s.buffer && t.batch == s.batch && t.log == s.log
            && t.logging == s.logging && (t.phase.Up? <==> s.logging)
  {
    StepKeepsInv(s, Spawn);
    hide IsConserved, IsKept, HasChannels;
  }

  /**
    Unless the writer is down it can, on its own, get all that was pushed into the file; and once logging is off it
    can then exit.
  */
  lemma WriterCatchesUp(file: File, steps: seq<Step>)
    requires file.Valid() && !Run(file, steps).phase.Down?
    ensures var s := Run(file, steps);
            var t := More(s, [Spawn] + Catching(s));
            && Messages(t.written) == t.log == s.log && WriterRuns(t) && t.logging == s.logging
            && (!s.logging ==> Next(t, Exit).phase.Down? && Next(t, Exit).written == t.written)
  {
    RunKeepsInv(file, steps);
    var s := Run(file, steps);
    hide Run, Inv;
    SpawnedRuns(s);
    var up := Next(s, Spawn);
    CatchesUp(up);
    MoreStarts(s, Spawn, Catching(s));
    assert Catching(up) == Catching(s);
    hide More;
    AllIsWritten(More(up, Catching(up)));
  }

  lemma MoreStarts(s: State, step: Step, steps: seq<Step>)
    ensures More(s, [step] + steps) == More(Next(s, step), steps)
  {
    hide Next;
    assert ([step] + steps)[1..] == steps;
  }

  lemma AllIsWritten(s: State)
    requires Inv(s) && s.batch == [] && s.buffer == []
    ensures Messages(s.written) == s.log
  {
    assert Messages(s.written) + [] + [] == Messages(s.written);
  }
}
