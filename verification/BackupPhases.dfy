/**
 The messages a queued SQL or Hyper-V backup sends: its handler and the heartbeat goroutine it starts and joins
 interleave freely, yet the messages always come in one order, and none follows the terminal result.
 */
module BackupPhases {
  datatype Message = Queued | Starting | Executing | Terminal

  /** Where the handler stands, from the acknowledgement to the terminal result. */
  datatype Handler =
    | Acking
    | Announcing
    | Waiting
    | Guarding
    | Beginning
    | Exporting
    | Stopping
    | Joining
    | Reporting
    | Finished

  datatype Heartbeat = Absent | Selecting | Sending | Returned

  datatype State = State(handler: Handler, heartbeat: Heartbeat, stopClosed: bool, sent: seq<Message>)

  datatype Step =
    | Ack(delivered: bool)
    | Announce
    | WaitBeat
    | WaitEnds(cancelled: bool)
    | GuardBeat
    | GuardEnds(failed: bool)
    | Begin
    | ExportEnds
    | CloseStop
    | Join
    | Report
    | Tick
    | Beat
    | SeeStop

  function Start(): State { State(Acking, Absent, false, []) }

  predicate Enabled(s: State, step: Step) {
    match step
    case Ack(_) => s.handler.Acking?
    case Announce => s.handler.Announcing?
    case WaitBeat => s.handler.Waiting?
    case WaitEnds(_) => s.handler.Waiting?
    case GuardBeat => s.handler.Guarding?
    case GuardEnds(_) => s.handler.Guarding?
    case Begin => s.handler.Beginning?
    case ExportEnds => s.handler.Exporting?
    case CloseStop => s.handler.Stopping?
    case Join => s.handler.Joining? && s.heartbeat.Returned?
    case Report => s.handler.Reporting?
    case Tick => s.heartbeat.Selecting?
    case Beat => s.heartbeat.Sending?
    case SeeStop => s.heartbeat.Selecting? && s.stopClosed
  }

  function Sent(s: State, m: Message): State { s.(sent := s.sent + [m]) }

  function Apply(s: State, step: Step): State
    requires Enabled(s, step)
  {
    match step
    case Ack(delivered) => s.(handler := if delivered then Announcing else Finished)
    case Announce => Sent(s, Queued).(handler := Waiting)
    case WaitBeat => Sent(s, Queued)
    case WaitEnds(cancelled) => s.(handler := if cancelled then Reporting else Guarding)
    case GuardBeat => Sent(s, Queued)
    case GuardEnds(failed) => s.(handler := if failed then Reporting else Beginning)
    case Begin => Sent(s, Starting).(handler := Exporting, heartbeat := Selecting)
    case ExportEnds => s.(handler := Stopping)
    case CloseStop => s.(handler := Joining, stopClosed := true)
    case Join => s.(handler := Reporting)
    case Report => Sent(s, Terminal).(handler := Finished)
    case Tick => s.(heartbeat := Sending)
    case Beat => Sent(s, Executing).(heartbeat := Selecting)
    case SeeStop => s.(heartbeat := Returned)
  }

  ghost predicate IsRun(states: seq<State>, steps: seq<Step>) {
    && |states| == |steps| + 1
    && states[0] == Start()
    && forall n :: 0 <= n < |steps| ==> Enabled(states[n], steps[n]) && states[n + 1] == Apply(states[n], steps[n])
  }

  // ---------------------------------------------------------------- the order of the messages

  function Repeat(m: Message, n: nat): seq<Message> { seq(n, _ => m) }

  /** queued n times, then, if started, starting and executing e times, then, if settled, the terminal result. */
  function Word(n: nat, started: bool, e: nat, settled: bool): seq<Message> {
    Repeat(Queued, n) + (if started then [Starting] else []) + Repeat(Executing, e)
    + (if settled then [Terminal] else [])
  }

  lemma WordGrows(n: nat, e: nat)
    ensures Word(n, false, 0, false) + [Queued] == Word(n + 1, false, 0, false)
    ensures Word(n, false, 0, false) + [Starting] == Word(n, true, 0, false)
    ensures Word(n, true, e, false) + [Executing] == Word(n, true, e + 1, false)
    ensures Word(n, false, 0, false) + [Terminal] == Word(n, false, 0, true)
    ensures Word(n, true, e, false) + [Terminal] == Word(n, true, e, true)
  {
  }

  predicate BeforeStart(h: Handler) { h.Acking? || h.Announcing? || h.Waiting? || h.Guarding? || h.Beginning? }

  predicate Beating(h: Handler) { h.Exporting? || h.Stopping? || h.Joining? }

  /** The heartbeat goroutine lives between starting and the join; the messages so far are a word of the order. */
  ghost predicate Inv(s: State) {
    && (BeforeStart(s.handler) ==> s.heartbeat.Absent?)
    && (s.handler.Reporting? || s.handler.Finished? ==> s.heartbeat.Absent? || s.heartbeat.Returned?)
    && (Beating(s.handler) ==> !s.heartbeat.Absent?)
    && (s.stopClosed <==> s.heartbeat.Returned? || s.handler.Joining?)
    && (s.heartbeat.Returned? ==> s.handler.Joining? || s.handler.Reporting? || s.handler.Finished?)
    && exists n: nat, e: nat :: Spells(s, n, e)
  }

  ghost predicate Spells(s: State, n: nat, e: nat) {
    && s.sent == Word(n, !s.heartbeat.Absent?, e, s.handler.Finished? && s.sent != [])
    && (s.heartbeat.Absent? ==> e == 0)
    && (n == 0 <==> s.sent == [])
    && (s.sent == [] ==> s.handler.Acking? || s.handler.Announcing? || s.handler.Finished?)
    && (s.handler.Acking? || s.handler.Announcing? ==> s.sent == [])
  }

  lemma InvKept(s: State, step: Step)
    requires Inv(s) && Enabled(s, step)
    ensures Inv(Apply(s, step))
  {
    var n: nat, e: nat :| Spells(s, n, e);
    WordGrows(n, e);
    var s' := Apply(s, step);
    match step
    case Announce => assert Spells(s', 1, e);
    case WaitBeat => assert Spells(s', n + 1, e);
    case GuardBeat => assert Spells(s', n + 1, e);
    case Beat => assert Spells(s', n, e + 1);
    case _ => assert Spells(s', n, e);
  }

  lemma {:induction false} RunKeepsInv(states: seq<State>, steps: seq<Step>, n: nat)
    requires IsRun(states, steps) && n <= |steps|
    ensures Inv(states[n])
  {
    if n == 0 {
      assert Spells(Start(), 0, 0);
    } else {
      RunKeepsInv(states, steps, n - 1);
      assert Enabled(states[n - 1], steps[n - 1]);
      InvKept(states[n - 1], steps[n - 1]);
    }
  }

  /** In every interleaving the messages are queued at least once, then possibly starting with any number of
      executing, then the terminal result; a run that has ended after its acknowledgement has sent exactly one
      result, last. Only a failed acknowledgement ends silently. */
  lemma MessagesComeInOrder(states: seq<State>, steps: seq<Step>, i: nat) returns (n: nat, started: bool, e: nat)
    requires IsRun(states, steps) && i <= |steps| && states[i].sent != []
    ensures n >= 1 && (e > 0 ==> started)
    ensures states[i].sent == Word(n, started, e, states[i].handler.Finished?)
  {
    RunKeepsInv(states, steps, i);
    var s := states[i];
    n, e :| Spells(s, n, e);
    started := !s.heartbeat.Absent?;
  }

  /** Once stop has returned, or was never needed, the heartbeat goroutine can send nothing more. */
  lemma NoBeatAfterStop(states: seq<State>, steps: seq<Step>, i: nat)
    requires IsRun(states, steps) && i <= |steps|
    requires states[i].handler.Reporting? || states[i].handler.Finished?
    ensures !Enabled(states[i], Tick) && !Enabled(states[i], Beat) && !Enabled(states[i], SeeStop)
  {
    RunKeepsInv(states, steps, i);
  }

  /** Nor can stop hang: while the handler waits for the goroutine, the goroutine can move, and as soon as it is
      back at its select it can return. */
  lemma JoinNeverHangs(states: seq<State>, steps: seq<Step>, i: nat)
    requires IsRun(states, steps) && i <= |steps| && states[i].handler.Joining?
    ensures Enabled(states[i], Join) || Enabled(states[i], SeeStop)
            || (Enabled(states[i], Beat) && Enabled(Apply(states[i], Beat), SeeStop))
  {
    RunKeepsInv(states, steps, i);
  }

  lemma FinishedIsTheEnd(s: State, step: Step)
    requires s.handler.Finished? && (s.heartbeat.Absent? || s.heartbeat.Returned?)
    ensures !Enabled(s, step)
  {
  }

  /** A command whose acknowledgement could not be delivered sends nothing and runs nothing: nothing happens after. */
  lemma FailedAckIsSilent(states: seq<State>, steps: seq<Step>)
    requires IsRun(states, steps) && |steps| >= 1 && steps[0] == Ack(false)
    ensures |steps| == 1 && states[1].sent == [] && states[1].handler.Finished?
    ensures forall step :: !Enabled(states[1], step)
  {
    assert Enabled(states[0], steps[0]) && states[1] == Apply(states[0], steps[0]);
    forall step
      ensures !Enabled(states[1], step)
    {
      FinishedIsTheEnd(states[1], step);
    }
    if |steps| > 1 {
      FinishedIsTheEnd(states[1], steps[1]);
    }
  }

  /** Nothing is exported that was cancelled while it waited, or whose guard failed: the one message still to come is
      the terminal result. */
  lemma WithdrawnOnlyReports(s: State, step: Step)
    requires Enabled(s, step) && (step == WaitEnds(true) || step == GuardEnds(true)) && s.heartbeat.Absent?
    ensures var s' := Apply(s, step);
            && s'.sent == s.sent && (forall next :: Enabled(s', next) ==> next == Report)
            && Enabled(s', Report) && Apply(s', Report).sent == s.sent + [Terminal]
            && forall next :: !Enabled(Apply(s', Report), next)
  {
  }

  // ---------------------------------------------------------------- every word of the order occurs

  lemma RunExtends(states: seq<State>, steps: seq<Step>, step: Step)
    requires IsRun(states, steps) && Enabled(states[|steps|], step)
    ensures IsRun(states + [Apply(states[|steps|], step)], steps + [step])
  {
  }

  /** The helper process as one object: its state, and how it got there. */
  class Execution {
    var state: State
    ghost var states: seq<State>
    ghost var steps: seq<Step>

    ghost predicate Valid()
      reads this
    {
      IsRun(states, steps) && state == states[|steps|]
    }

    constructor ()
      ensures Valid() && state == Start()
    {
      state, states, steps := Start(), [Start()], [];
    }

    method Do(step: Step)
      requires Valid() && Enabled(state, step)
      modifies this
      ensures Valid() && state == Apply(old(state), step)
    {
      RunExtends(states, steps, step);
      state := Apply(state, step);
      states, steps := states + [state], steps + [step];
    }

    /** The wait for the ticket's turn, or for the guard: a queued message at every tick until it ends. */
    method QueuedWhile(beat: Step, ticks: nat)
      requires Valid()
      requires (beat == WaitBeat && state.handler.Waiting?) || (beat == GuardBeat && state.handler.Guarding?)
      modifies this
      ensures Valid() && state == old(state).(sent := old(state.sent) + Repeat(Queued, ticks))
    {
      for i := 0 to ticks
        invariant Valid() && state == old(state).(sent := old(state.sent) + Repeat(Queued, i))
      {
        Do(beat);
        assert old(state.sent) + Repeat(Queued, i) + [Queued] == old(state.sent) + Repeat(Queued, i + 1);
      }
    }

    /** startBackupHeartbeat and its stop: an executing message at every tick, then the join. */
    method ExecutingWhile(ticks: nat)
      requires Valid() && state.handler.Exporting? && state.heartbeat.Selecting?
      modifies this
      ensures Valid() && state.handler.Reporting? && state.heartbeat.Returned?
      ensures state.sent == old(state.sent) + Repeat(Executing, ticks)
    {
      for i := 0 to ticks
        invariant Valid() && state == old(state).(sent := old(state.sent) + Repeat(Executing, i))
      {
        Do(Tick);
        Do(Beat);
        assert old(state.sent) + Repeat(Executing, i) + [Executing] == old(state.sent) + Repeat(Executing, i + 1);
      }
      Do(ExportEnds);
      Do(CloseStop);
      Do(SeeStop);
      Do(Join);
    }

    /** The handler of an acknowledged command, when the given numbers of ticks arrive while it waits for its turn,
        waits for the guard and exports: a run of the helper that sends the word these call for. */
    method Handle(waitTicks: nat, cancelled: bool, guardTicks: nat, failed: bool, exportTicks: nat)
      requires Valid() && state == Start()
      modifies this
      ensures Valid() && state.handler.Finished?
      ensures var ran := !cancelled && !failed;
              state.sent == Word(1 + waitTicks + (if cancelled then 0 else guardTicks), ran,
                                 if ran then exportTicks else 0, true)
    {
      Do(Ack(true));
      Do(Announce);
      QueuedWhile(WaitBeat, waitTicks);
      assert state.sent == Repeat(Queued, 1 + waitTicks);
      Do(WaitEnds(cancelled));
      if !cancelled {
        QueuedWhile(GuardBeat, guardTicks);
        assert state.sent == Repeat(Queued, 1 + waitTicks + guardTicks);
        Do(GuardEnds(failed));
        if !failed {
          Do(Begin);
          ExecutingWhile(exportTicks);
        }
      }
      Do(Report);
    }
  }
}
