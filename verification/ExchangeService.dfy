/**
 The broker and its pipes together: every worker has its buffer and what its process has written, and a request that
 runs is one exchange over that pipe. Requests interleave as in ExchangeBroker; a worker whose kill has not taken effect
 is still handed out, with whatever an abandoned exchange has left in its pipe.
 */
module ExchangeService {
  import opened Options
  import opened Bytes
  import opened ExchangeBroker
  import opened ExchangePipe

  /** A request that has been served. `intact` says that nobody had closed its worker before. */
  datatype Service = Service(thread: nat, worker: nat, tenant: Tenant, descriptor: Descriptor, intact: bool,
                             exchange: Exchange, outcome: Outcome)

  datatype System = System(b: State, wires: seq<Wire>, log: seq<Service>)

  /** Serve is run() of the thread's request, from the write to the release of the inner lock. `arrived` is what the
      process writes during it. */
  datatype Move =
    | Broker(step: Step)
    | Serve(thread: nat, exchange: Exchange, sent: bool, arrived: Text, reaped: bool)

  function First(): System { System(Start(), [], []) }

  predicate Finishes(step: Step) { step.Act? && step.action.Finish? }

  predicate Enabled(s: System, m: Move) {
    match m
    case Broker(step) => ExchangeBroker.Enabled(s.b, step) && !Finishes(step)
    case Serve(t, x, sent, arrived, _) =>
      && t < |s.b.threads| && s.b.threads[t].Running? && s.b.threads[t].worker < |s.b.workers| == |s.wires|
      && |s.wires[s.b.threads[t].worker].buffer| <= MAX_RESPONSE + 1
      && NEWLINE !in x.reply
      // Only a process that has been told to die may write something else.
      && (sent && !s.b.workers[s.b.threads[t].worker].killed ==> arrived == x.reply + [NEWLINE])
  }

  /** How the exchange of a Serve ends, what is left in the pipe, and whether the process is closed. */
  function Read(wire: Wire, x: Exchange, arrived: Text): Ended
    requires |wire.buffer| <= MAX_RESPONSE + 1
  {
    ReadLine(wire.buffer, wire.pipe + arrived, x.rounds)
  }

  function Reported(wire: Wire, x: Exchange, sent: bool, arrived: Text): ExchangePipe.Outcome
    requires |wire.buffer| <= MAX_RESPONSE + 1
  {
    if sent then Concluded(Read(wire, x, arrived), x.judge, x.write) else Early(x.write, UNREACHABLE)
  }

  predicate Kills(wire: Wire, x: Exchange, sent: bool, arrived: Text)
    requires |wire.buffer| <= MAX_RESPONSE + 1
  {
    !sent || Closes(Read(wire, x, arrived), x.judge)
  }

  function Left(wire: Wire, x: Exchange, sent: bool, arrived: Text): (left: Wire)
    requires |wire.buffer| <= MAX_RESPONSE + 1
    ensures |left.buffer| <= MAX_RESPONSE + 1
  {
    if sent then LeftBy(wire.buffer, wire.pipe + arrived, x.rounds) else wire
  }

  function Served(s: System, t: nat, x: Exchange, sent: bool, arrived: Text, reaped: bool): System
    requires Enabled(s, Serve(t, x, sent, arrived, reaped))
  {
    var p := s.b.threads[t];
    var wire := s.wires[p.worker];
    System(ExchangeBroker.Apply(s.b, Act(t, Finish(Kills(wire, x, sent, arrived), reaped))),
           s.wires[p.worker := Left(wire, x, sent, arrived)],
           s.log + [Service(t, p.worker, p.tenant, p.descriptor, !s.b.workers[p.worker].killed, x,
                            Reported(wire, x, sent, arrived))])
  }

  /** A new worker comes with an empty pipe. */
  function Stepped(s: System, step: Step): System
    requires ExchangeBroker.Enabled(s.b, step)
  {
    var b := ExchangeBroker.Apply(s.b, step);
    s.(b := b, wires := if |b.workers| > |s.b.workers| then s.wires + [IN_STEP] else s.wires)
  }

  function Apply(s: System, m: Move): System
    requires Enabled(s, m)
  {
    match m
    case Broker(step) => Stepped(s, step)
    case Serve(t, x, sent, arrived, reaped) => Served(s, t, x, sent, arrived, reaped)
  }

  // ---------------------------------------------------------------- the invariant

  /** A pipe is in step as long as its worker has not been closed. */
  ghost predicate WiresInv(s: System) {
    && |s.wires| == |s.b.workers|
    && forall w :: 0 <= w < |s.wires| ==>
         |s.wires[w].buffer| <= MAX_RESPONSE + 1 && (!s.b.workers[w].killed ==> s.wires[w] == IN_STEP)
  }

  /** An answer is a line that was accepted as the answer to this request, on a worker of the request's own tenant and
      descriptor; on a worker that had not been closed it is the reply to this very request. */
  ghost predicate Sound(b: State, v: Service) {
    && v.worker < |b.workers|
    && b.workers[v.worker].tenant == v.tenant && b.workers[v.worker].descriptor == v.descriptor
    && v.thread < |b.threads| && (b.threads[v.thread].Leaving? || b.threads[v.thread].Done?)
    && (v.outcome.Answer? ==> v.exchange.judge(v.outcome.line).Accepted?)
    && (v.outcome.Answer? && v.intact ==> v.outcome.line == v.exchange.reply)
  }

  ghost predicate LogInv(s: System) {
    && (forall i :: 0 <= i < |s.log| ==> Sound(s.b, s.log[i]))
    && forall i, j :: 0 <= i < j < |s.log| ==> s.log[i].thread != s.log[j].thread
  }

  ghost predicate Inv(s: System) { ExchangeBroker.Inv(s.b) && WiresInv(s) && LogInv(s) }

  // ---------------------------------------------------------------- every move keeps it

  lemma OneMoreWorker(s: State, step: Step)
    requires ExchangeBroker.Enabled(s, step)
    ensures var s' := ExchangeBroker.Apply(s, step);
            && |s.workers| <= |s'.workers| <= |s.workers| + 1
            && (|s'.workers| > |s.workers| ==> !s'.workers[|s.workers|].killed)
  {
  }

  lemma StepKeepsWires(s: System, step: Step)
    requires WiresInv(s) && ExchangeBroker.Enabled(s.b, step)
    ensures WiresInv(Stepped(s, step))
  {
    OneMoreWorker(s.b, step);
    WorkersGrow(s.b, step);
  }

  /** A served request stays where it is, apart from giving up its lock. */
  lemma FinishedStays(s: State, step: Step, t: nat)
    requires ExchangeBroker.Enabled(s, step) && t < |s.threads| && (s.threads[t].Leaving? || s.threads[t].Done?)
    ensures var p := ExchangeBroker.Apply(s, step).threads;
            t < |p| && (p[t].Leaving? || p[t].Done?)
  {
    OnlyTheActorMoves(s, step);
  }

  lemma SoundStays(s: State, step: Step, v: Service)
    requires ExchangeBroker.Enabled(s, step) && Sound(s, v)
    ensures Sound(ExchangeBroker.Apply(s, step), v)
  {
    WorkersGrow(s, step);
    FinishedStays(s, step, v.thread);
  }

  lemma StepKeepsLog(s: System, step: Step)
    requires LogInv(s) && ExchangeBroker.Enabled(s.b, step)
    ensures forall i :: 0 <= i < |s.log| ==> Sound(ExchangeBroker.Apply(s.b, step), s.log[i])
  {
    forall i | 0 <= i < |s.log|
      ensures Sound(ExchangeBroker.Apply(s.b, step), s.log[i])
    {
      SoundStays(s.b, step, s.log[i]);
    }
  }

  /** In step, an exchange that leaves the process open leaves the pipe in step, and an answer is the reply. */
  lemma ExchangeInStep(x: Exchange)
    requires NEWLINE !in x.reply
    ensures var arrived := x.reply + [NEWLINE];
            && (!Kills(IN_STEP, x, true, arrived) ==> Left(IN_STEP, x, true, arrived) == IN_STEP)
            && (Reported(IN_STEP, x, true, arrived).Answer? ==> Reported(IN_STEP, x, true, arrived).line == x.reply)
  {
    var arrived := x.reply + [NEWLINE];
    assert [] + arrived == arrived;
    ReadsTheReply([], arrived, x.rounds, x.reply);
  }

  lemma AnswersAreAccepted(wire: Wire, x: Exchange, sent: bool, arrived: Text)
    requires |wire.buffer| <= MAX_RESPONSE + 1 && Reported(wire, x, sent, arrived).Answer?
    ensures x.judge(Reported(wire, x, sent, arrived).line).Accepted?
  {
  }

  lemma ServeKeepsWires(s: System, t: nat, x: Exchange, sent: bool, arrived: Text, reaped: bool)
    requires Inv(s) && Enabled(s, Serve(t, x, sent, arrived, reaped))
    ensures WiresInv(Served(s, t, x, sent, arrived, reaped))
  {
    var w := s.b.threads[t].worker;
    var s' := Served(s, t, x, sent, arrived, reaped);
    ExchangeInStep(x);
    assert forall v :: 0 <= v < |s.wires| && v != w ==> s'.b.workers[v] == s.b.workers[v];
  }

  lemma ServedIsSound(s: System, t: nat, x: Exchange, sent: bool, arrived: Text, reaped: bool)
    requires Inv(s) && Enabled(s, Serve(t, x, sent, arrived, reaped))
    ensures var s' := Served(s, t, x, sent, arrived, reaped); Sound(s'.b, s'.log[|s.log|])
  {
    var p := s.b.threads[t];
    assert PhaseInv(s.b, p);
    ExchangeInStep(x);
    if Reported(s.wires[p.worker], x, sent, arrived).Answer? {
      AnswersAreAccepted(s.wires[p.worker], x, sent, arrived);
    }
  }

  lemma ServeKeepsLog(s: System, t: nat, x: Exchange, sent: bool, arrived: Text, reaped: bool)
    requires Inv(s) && Enabled(s, Serve(t, x, sent, arrived, reaped))
    ensures LogInv(Served(s, t, x, sent, arrived, reaped))
  {
    var s' := Served(s, t, x, sent, arrived, reaped);
    StepKeepsLog(s, Act(t, Finish(Kills(s.wires[s.b.threads[t].worker], x, sent, arrived), reaped)));
    ServedIsSound(s, t, x, sent, arrived, reaped);
    assert forall i :: 0 <= i < |s.log| ==> Sound(s.b, s.log[i]) && s'.log[i] == s.log[i];
  }

  lemma MoveKeepsInv(s: System, m: Move)
    requires Inv(s) && Enabled(s, m)
    ensures Inv(Apply(s, m))
  {
    match m
    case Broker(step) =>
      ExchangeBroker.InvKept(s.b, step);
      StepKeepsWires(s, step);
      StepKeepsLog(s, step);
    case Serve(t, x, sent, arrived, reaped) =>
      ExchangeBroker.InvKept(s.b, Act(t, Finish(Kills(s.wires[s.b.threads[t].worker], x, sent, arrived), reaped)));
      ServeKeepsWires(s, t, x, sent, arrived, reaped);
      ServeKeepsLog(s, t, x, sent, arrived, reaped);
  }

  // ---------------------------------------------------------------- what holds in every run

  ghost predicate IsRun(states: seq<System>, moves: seq<Move>) {
    && |states| == |moves| + 1 && states[0] == First()
    && forall i :: 0 <= i < |moves| ==> Enabled(states[i], moves[i]) && states[i + 1] == Apply(states[i], moves[i])
  }

  lemma {:induction false} RunKeepsInv(states: seq<System>, moves: seq<Move>, i: nat)
    requires IsRun(states, moves) && i <= |moves|
    ensures Inv(states[i])
  {
    if i > 0 {
      RunKeepsInv(states, moves, i - 1);
      assert Enabled(states[i - 1], moves[i - 1]);
      MoveKeepsInv(states[i - 1], moves[i - 1]);
    }
  }

  /** Over all interleavings of requests, replies, deaths and kills: a request is served at most once, on a worker of
      its own tenant and descriptor; if it was answered, then with a line that was accepted as an answer to this
      request, and if nobody had closed its worker before, with the reply to this very request. */
  lemma AnswersAreItsOwn(states: seq<System>, moves: seq<Move>, i: nat, k: nat)
    requires IsRun(states, moves) && i <= |moves| && k < |states[i].log|
    ensures var s, v := states[i], states[i].log[k];
            && v.worker < |s.b.workers|
            && s.b.workers[v.worker].tenant == v.tenant && s.b.workers[v.worker].descriptor == v.descriptor
            && (v.outcome.Answer? ==> v.exchange.judge(v.outcome.line).Accepted?)
            && (v.outcome.Answer? && v.intact ==> v.outcome.line == v.exchange.reply)
            && forall j :: 0 <= j < |s.log| && j != k ==> s.log[j].thread != v.thread
  {
    RunKeepsInv(states, moves, i);
    assert Sound(states[i].b, states[i].log[k]);
  }

  /** And answers do arrive: on a worker that has not been closed, an exchange whose reply comes through whole, is below
      the limit and is accepted ends with that reply as the answer, and the worker stays open. */
  lemma AcceptedIsAnswered(s: System, t: nat, x: Exchange, reaped: bool)
    requires Inv(s) && Enabled(s, Serve(t, x, true, x.reply + [NEWLINE], reaped))
    requires !s.b.workers[s.b.threads[t].worker].killed && Steady(x.reply + [NEWLINE], x.rounds)
    requires |x.reply| < 4 * 1024 * 1024 && x.judge(x.reply).Accepted?
    ensures var w, s' := s.b.threads[t].worker, Apply(s, Serve(t, x, true, x.reply + [NEWLINE], reaped));
            && |s'.log| == |s.log| + 1 && s'.log[|s.log|].thread == t && s'.log[|s.log|].outcome == Answer(x.reply)
            && !s'.b.workers[w].killed && s'.wires[w] == IN_STEP
  {
    var arrived := x.reply + [NEWLINE];
    assert [] + arrived == arrived;
    VerdictIgnoresChunking([], arrived, x.rounds, x.reply);
    WhatTheCallerIsTold(Read(IN_STEP, x, arrived), x.judge, x.write);
  }

  // ---------------------------------------------------------------- every request is served

  /** Whatever exchange a request is about to have, it can have it: any reply on a worker that has not been closed, any
      bytes at all on one that has, and a write that fails on either. */
  lemma AnyExchangeIsPossible(s: System, t: nat, x: Exchange, sent: bool, arrived: Text, reaped: bool)
    requires Inv(s) && t < |s.b.threads| && s.b.threads[t].Running? && NEWLINE !in x.reply
    ensures s.b.threads[t].worker < |s.b.workers|
    ensures !sent || s.b.workers[s.b.threads[t].worker].killed || arrived == x.reply + [NEWLINE] ==>
              Enabled(s, Serve(t, x, sent, arrived, reaped))
  {
    assert PhaseInv(s.b, s.b.threads[t]);
  }

  /** A request that could not be written is reported, its worker closed and the pipe left as it was. */
  lemma UnsentIsReported(s: System, t: nat, x: Exchange, arrived: Text, reaped: bool)
    requires Enabled(s, Serve(t, x, false, arrived, reaped))
    ensures var w, s' := s.b.threads[t].worker, Apply(s, Serve(t, x, false, arrived, reaped));
            && s'.b.workers[w].killed && s'.wires == s.wires
            && s'.log[|s.log|].outcome == Failure(if x.write then "unknown_write_outcome" else "provider_unreachable")
  {
    PassesTheTen("unknown_write_outcome");
    PassesTheTen("provider_unreachable");
  }

  /** While any request is unfinished, some request can take its next step: the pipes add no deadlock to the locks. */
  lemma NobodyIsStuck(states: seq<System>, moves: seq<Move>, i: nat, t: nat) returns (m: Move)
    requires IsRun(states, moves) && i <= |moves| && t < |states[i].b.threads| && !states[i].b.threads[t].Done?
    ensures Enabled(states[i], m) && (m.Serve? || m.step.Act?)
  {
    RunKeepsInv(states, moves, i);
    var s := states[i];
    var u := NoDeadlock(s.b, t);
    if s.b.threads[u].Running? {
      var x := Exchange([], [], _ => Foreign, false);
      AnyExchangeIsPossible(s, u, x, false, [], false);
      m := Serve(u, x, false, [], false);
    } else {
      m := Broker(Act(u, NextAction(s.b.threads[u])));
    }
  }

  ghost predicate Logged(s: System, t: nat) { exists k :: 0 <= k < |s.log| && s.log[k].thread == t }

  lemma RunsUntilServed(s: System, m: Move, t: nat)
    requires Enabled(s, m) && t < |s.b.threads| && (s.b.threads[t].Running? || Logged(s, t))
    ensures var s' := Apply(s, m);
            t < |s'.b.threads| && ((s'.b.threads[t].Running? && s'.b.threads[t] == s.b.threads[t]) || Logged(s', t))
  {
    var s' := Apply(s, m);
    if k :| 0 <= k < |s.log| && s.log[k].thread == t {
      assert s'.log[k].thread == t;
    } else if m.Serve? && m.thread == t {
      assert s'.log[|s.log|].thread == t;
    }
  }

  /** Over every run: a request that has its worker leaves it only by being served. */
  lemma {:induction false} RunsAreServed(states: seq<System>, moves: seq<Move>, i: nat, j: nat, t: nat)
    requires IsRun(states, moves) && i <= j <= |moves| && t < |states[i].b.threads|
    requires states[i].b.threads[t].Running?
    ensures t < |states[j].b.threads| && (states[j].b.threads[t].Running? || Logged(states[j], t))
    decreases j
  {
    if i < j {
      RunsAreServed(states, moves, i, j - 1, t);
      assert Enabled(states[j - 1], moves[j - 1]);
      RunsUntilServed(states[j - 1], moves[j - 1], t);
    }
  }

  // ---------------------------------------------------------------- a worker that outlives its kill

  lemma FirstLine(buffer: Text, pipe: Text, first: Text, more: Text)
    requires NEWLINE !in first && buffer + pipe == first + [NEWLINE] + more && NEWLINE in buffer
    ensures IndexOf(buffer) == |first| && buffer[..|first|] == first && buffer[|first| + 1..] + pipe == more
  {
    var i, all := IndexOf(buffer), first + [NEWLINE] + more;
    assert forall k :: 0 <= k < |buffer| ==> buffer[k] == (buffer + pipe)[k] == all[k];
    assert forall k :: 0 <= k < |first| ==> all[k] == first[k] && first[k] in first;
    assert all[|first|] == NEWLINE;
    assert forall k :: 0 <= k < i ==> buffer[k] == buffer[..i][k];
    assert i == |first|;
    assert buffer[..i] == all[..i] == first;
    assert buffer[i + 1..] + pipe == (buffer + pipe)[i + 1..] == all[i + 1..] == more;
  }

  /** For every chunking, a line that is read is the first one there, and all that follows it stays. */
  lemma {:induction false} ReadsTheFirst(buffer: Text, pipe: Text, rounds: seq<Round>, first: Text, more: Text)
    requires |buffer| <= MAX_RESPONSE + 1 && NEWLINE !in first && buffer + pipe == first + [NEWLINE] + more
    ensures var e := ReadLine(buffer, pipe, rounds); e.Line? ==> e.line == first && e.rest + e.unread == more
    decreases |rounds|
  {
    if NEWLINE in buffer {
      FirstLine(buffer, pipe, first, more);
    } else if rounds != [] && rounds[0].Ready? {
      var chunk := Chunk(buffer, pipe, rounds[0].available);
      if |buffer + chunk| <= MAX_RESPONSE {
        assert buffer + chunk + pipe[|chunk|..] == buffer + pipe;
        ReadsTheFirst(buffer + chunk, pipe[|chunk|..], rounds[1..], first, more);
      }
    }
  }

  /** One reply behind, and it stays so: with the late reply of an abandoned exchange in the pipe, a request that reads
      a line is judged by that reply, and leaves its own for the next. */
  lemma StaysOneReplyBehind(wire: Wire, late: Text, x: Exchange)
    requires |wire.buffer| <= MAX_RESPONSE + 1 && NEWLINE !in late && wire.buffer + wire.pipe == late + [NEWLINE]
    requires Read(wire, x, x.reply + [NEWLINE]).Line?
    ensures Reported(wire, x, true, x.reply + [NEWLINE]) == Judged(late, x.judge(late), x.write)
    ensures var left := Left(wire, x, true, x.reply + [NEWLINE]); left.buffer + left.pipe == x.reply + [NEWLINE]
  {
    var arrived := x.reply + [NEWLINE];
    assert wire.buffer + (wire.pipe + arrived) == late + [NEWLINE] + arrived;
    ReadsTheFirst(wire.buffer, wire.pipe + arrived, x.rounds, late, arrived);
  }
}
