/**
 The backup execution queue as a transition system, and the class that performs its steps.

 Tickets are chained through channels: the `previous` channel of a ticket is the `done` channel that was
 the queue's tail when it was admitted. Every handler goroutine moves its own ticket; the receive loop
 admits; anybody may cancel a context. One constructor of `Step` is one atomic action of one goroutine, so
 a run of `Next` is an interleaving.
 */
module ExecutionQueue {
  import opened Options

  /** Channels are numbered in the order in which they are made; channel READY is made closed. */
  type Channel = nat
  type Context = nat
  const READY: Channel := 0

  /** Admitted: handler started, acknowledgement pending. Abandoned: returned without the slot.
      Cleaned: `release` has run its cleanup. Parked: a goroutine waits to close `done`. */
  datatype Phase = Admitted | Waiting | Running | Abandoned | Cleaned | Parked | Closed

  datatype Ticket = Ticket(id: string, previous: Channel, done: Channel, context: Context, phase: Phase)

  /** `grants` records the tickets whose wait succeeded, in the order in which it did. */
  datatype Queue = Queue(
    tail: Channel, made: nat, closed: set<Channel>, entries: map<string, nat>,
    tickets: seq<Ticket>, cancelled: set<Context>, grants: seq<nat>)

  const EMPTY := Queue(READY, 1, {READY}, map[], [], {}, [])

  datatype Step =
    | Admit(id: string, context: Context)
    | EnterWait(i: nat)
    | ReturnEarly(i: nat)
    | Grant(i: nat)
    | Refuse(i: nat)
    | Cleanup(i: nat)
    | CloseNow(i: nat)
    | Park(i: nat)
    | CloseParked(i: nat)
    | Cancel(context: Context)

  predicate At(q: Queue, i: nat, p: Phase) {
    i < |q.tickets| && q.tickets[i].phase == p
  }

  /** The ticket's id is still in `entries`: `release` has not run its cleanup. */
  predicate Unreleased(p: Phase) {
    p.Admitted? || p.Waiting? || p.Running? || p.Abandoned?
  }

  predicate Enabled(q: Queue, s: Step) {
    match s
    case Admit(_, _) => true
    case EnterWait(i) => At(q, i, Admitted)
    case ReturnEarly(i) => At(q, i, Admitted)
    case Grant(i) =>
      At(q, i, Waiting) && q.tickets[i].previous in q.closed && q.tickets[i].context !in q.cancelled
    case Refuse(i) => At(q, i, Waiting) && q.tickets[i].context in q.cancelled
    case Cleanup(i) => At(q, i, Running) || At(q, i, Abandoned)
    case CloseNow(i) => At(q, i, Cleaned) && q.tickets[i].previous in q.closed
    case Park(i) => At(q, i, Cleaned) && q.tickets[i].previous !in q.closed
    case CloseParked(i) => At(q, i, Parked) && q.tickets[i].previous in q.closed
    case Cancel(_) => true
  }

  function Move(q: Queue, i: nat, p: Phase): Queue
    requires i < |q.tickets|
  {
    q.(tickets := q.tickets[i := q.tickets[i].(phase := p)])
  }

  function Close(q: Queue, i: nat): Queue
    requires i < |q.tickets|
  {
    Move(q, i, Closed).(closed := q.closed + {q.tickets[i].done})
  }

  function Admitting(q: Queue, id: string, context: Context): Queue {
    if id in q.entries then q else
    q.(tail := q.made, made := q.made + 1, entries := q.entries[id := |q.tickets|],
       tickets := q.tickets + [Ticket(id, q.tail, q.made, context, Admitted)])
  }

  function Apply(q: Queue, s: Step): Queue
    requires Enabled(q, s)
  {
    match s
    case Admit(id, context) => Admitting(q, id, context)
    case EnterWait(i) => Move(q, i, Waiting)
    case ReturnEarly(i) => Move(q, i, Abandoned)
    case Grant(i) => Move(q, i, Running).(grants := q.grants + [i])
    case Refuse(i) => Move(q, i, Abandoned)
    case Cleanup(i) => Move(q, i, Cleaned).(entries := q.entries - {q.tickets[i].id})
    case CloseNow(i) => Close(q, i)
    case Park(i) => Move(q, i, Parked)
    case CloseParked(i) => Close(q, i)
    case Cancel(context) => q.(cancelled := q.cancelled + {context})
  }

  // ---------------------------------------------------------------- the inductive invariant

  /** Ticket i waits on the channel that ticket i-1 closes; the tail is the last ticket's channel. */
  ghost predicate Chained(q: Queue) {
    && q.tail == |q.tickets|
    && q.made == |q.tickets| + 1
    && forall i :: 0 <= i < |q.tickets| ==> q.tickets[i].previous == i && q.tickets[i].done == i + 1
  }

  /** A `done` channel is closed exactly when its ticket got to the end, and never before `previous`. */
  ghost predicate ClosedInOrder(q: Queue) {
    && READY in q.closed
    && (forall i :: 0 <= i < |q.tickets| ==> (i + 1 in q.closed <==> q.tickets[i].phase.Closed?))
    && (forall c :: c in q.closed ==> c <= |q.tickets|)
    && forall i :: 0 <= i < |q.tickets| && (q.tickets[i].phase.Running? || q.tickets[i].phase.Closed?)
        ==> q.tickets[i].previous in q.closed
  }

  /** `entries` lists exactly the unreleased tickets, each under its own id. */
  ghost predicate EntriesExact(q: Queue) {
    && (forall id :: id in q.entries ==>
        && q.entries[id] < |q.tickets|
        && q.tickets[q.entries[id]].id == id
        && Unreleased(q.tickets[q.entries[id]].phase))
    && forall i :: 0 <= i < |q.tickets| && Unreleased(q.tickets[i].phase) ==>
        q.tickets[i].id in q.entries && q.entries[q.tickets[i].id] == i
  }

  ghost predicate Granted(q: Queue) {
    && (forall k :: 0 <= k < |q.grants| ==>
        q.grants[k] < |q.tickets| && q.tickets[q.grants[k]].previous in q.closed
        && !q.tickets[q.grants[k]].phase.Admitted? && !q.tickets[q.grants[k]].phase.Waiting?)
    && (forall k, l :: 0 <= k < l < |q.grants| ==> q.grants[k] < q.grants[l])
    && forall i :: 0 <= i < |q.tickets| && q.tickets[i].phase.Running? ==> i in q.grants
  }

  ghost predicate Inv(q: Queue) {
    Chained(q) && ClosedInOrder(q) && EntriesExact(q) && Granted(q)
  }

  lemma {:induction false} EarlierClosed(q: Queue, j: nat, k: nat)
    requires Chained(q) && ClosedInOrder(q)
    requires k < j < |q.tickets| && q.tickets[j].previous in q.closed
    ensures q.tickets[k].phase.Closed?
    decreases j
  {
    assert q.tickets[j - 1].phase.Closed?;
    if k < j - 1 {
      EarlierClosed(q, j - 1, k);
    }
  }

  lemma ChannelsMoved(q: Queue, i: nat, p: Phase)
    requires Chained(q) && ClosedInOrder(q) && i < |q.tickets|
    requires !p.Closed? && !q.tickets[i].phase.Closed?
    requires p.Running? ==> q.tickets[i].previous in q.closed
    ensures Chained(Move(q, i, p)) && ClosedInOrder(Move(q, i, p))
  {
  }

  lemma ChannelClosed(q: Queue, i: nat)
    requires Chained(q) && ClosedInOrder(q) && i < |q.tickets| && q.tickets[i].previous in q.closed
    ensures Chained(Close(q, i)) && ClosedInOrder(Close(q, i))
  {
  }

  lemma ChannelsKept(q: Queue, s: Step)
    requires Chained(q) && ClosedInOrder(q) && Enabled(q, s)
    ensures Chained(Apply(q, s)) && ClosedInOrder(Apply(q, s))
  {
    match s
    case Admit(_, _) =>
    case EnterWait(i) => ChannelsMoved(q, i, Waiting);
    case ReturnEarly(i) => ChannelsMoved(q, i, Abandoned);
    case Grant(i) => ChannelsMoved(q, i, Running);
    case Refuse(i) => ChannelsMoved(q, i, Abandoned);
    case Cleanup(i) => ChannelsMoved(q, i, Cleaned);
    case CloseNow(i) => ChannelClosed(q, i);
    case Park(i) => ChannelsMoved(q, i, Parked);
    case CloseParked(i) => ChannelClosed(q, i);
    case Cancel(_) =>
  }

  lemma EntriesMoved(q: Queue, i: nat, p: Phase)
    requires EntriesExact(q) && i < |q.tickets|
    requires Unreleased(q.tickets[i].phase) <==> Unreleased(p)
    ensures EntriesExact(Move(q, i, p))
  {
    var ts, ts' := q.tickets, Move(q, i, p).tickets;
    assert forall j :: 0 <= j < |ts| ==>
        ts'[j].id == ts[j].id && (Unreleased(ts'[j].phase) <==> Unreleased(ts[j].phase));
  }

  lemma EntriesCleaned(q: Queue, i: nat)
    requires EntriesExact(q) && i < |q.tickets| && Unreleased(q.tickets[i].phase)
    ensures EntriesExact(Move(q, i, Cleaned).(entries := q.entries - {q.tickets[i].id}))
  {
    var q' := Move(q, i, Cleaned).(entries := q.entries - {q.tickets[i].id});
    assert forall j :: 0 <= j < |q.tickets| && j != i ==> q'.tickets[j] == q.tickets[j];
  }

  lemma EntriesKept(q: Queue, s: Step)
    requires EntriesExact(q) && Enabled(q, s)
    ensures EntriesExact(Apply(q, s))
  {
    match s
    case Admit(_, _) =>
    case EnterWait(i) => EntriesMoved(q, i, Waiting);
    case ReturnEarly(i) => EntriesMoved(q, i, Abandoned);
    case Grant(i) => EntriesMoved(q, i, Running);
    case Refuse(i) => EntriesMoved(q, i, Abandoned);
    case Cleanup(i) => EntriesCleaned(q, i);
    case CloseNow(i) => EntriesMoved(q, i, Closed);
    case Park(i) => EntriesMoved(q, i, Parked);
    case CloseParked(i) => EntriesMoved(q, i, Closed);
    case Cancel(_) =>
  }

  lemma GrantsAreEarlier(q: Queue, i: nat, k: nat)
    requires Chained(q) && ClosedInOrder(q) && Granted(q) && Enabled(q, Grant(i)) && k < |q.grants|
    ensures q.grants[k] < i
  {
    if q.grants[k] > i {
      EarlierClosed(q, q.grants[k], i);
    }
  }

  lemma GrantKept(q: Queue, i: nat)
    requires Chained(q) && ClosedInOrder(q) && Granted(q) && Enabled(q, Grant(i))
    ensures Granted(Apply(q, Grant(i)))
  {
    forall k | 0 <= k < |q.grants|
      ensures q.grants[k] < i
    {
      GrantsAreEarlier(q, i, k);
    }
    assert Apply(q, Grant(i)).grants[|q.grants|] == i;
  }

  lemma GrantsKept(q: Queue, s: Step)
    requires Chained(q) && ClosedInOrder(q) && Granted(q) && Enabled(q, s)
    ensures Granted(Apply(q, s))
  {
    if s.Grant? {
      GrantKept(q, s.i);
    }
  }

  lemma InvKept(q: Queue, s: Step)
    requires Inv(q) && Enabled(q, s)
    ensures Inv(Apply(q, s))
  {
    ChannelsKept(q, s);
    EntriesKept(q, s);
    GrantsKept(q, s);
  }

  // ---------------------------------------------------------------- safety over whole runs

  /** `states` is an interleaving from the empty queue, `steps[n]` being the action between n and n+1. */
  ghost predicate IsRun(states: seq<Queue>, steps: seq<Step>) {
    && |states| == |steps| + 1
    && states[0] == EMPTY
    && forall n :: 0 <= n < |steps| ==> Enabled(states[n], steps[n]) && states[n + 1] == Apply(states[n], steps[n])
  }

  lemma {:induction false} RunKeepsInv(states: seq<Queue>, steps: seq<Step>, n: nat)
    requires IsRun(states, steps) && n < |states|
    ensures Inv(states[n])
  {
    if n > 0 {
      RunKeepsInv(states, steps, n - 1);
      InvKept(states[n - 1], steps[n - 1]);
    }
  }

  /** At most one ticket is between a successful wait and its release, and while it is there every later
      ticket's `previous` is open, whoever has cancelled, failed to acknowledge or released meanwhile. */
  lemma AtMostOneRunning(states: seq<Queue>, steps: seq<Step>, n: nat, i: nat, j: nat)
    requires IsRun(states, steps) && n < |states|
    requires i < j < |states[n].tickets| && states[n].tickets[i].phase.Running?
    ensures states[n].tickets[j].previous !in states[n].closed
    ensures !states[n].tickets[j].phase.Running?
  {
    RunKeepsInv(states, steps, n);
    if states[n].tickets[j].previous in states[n].closed {
      EarlierClosed(states[n], j, i);
    }
  }

  /** Waits succeed in admission order, and only after every earlier ticket has closed its channel. */
  lemma GrantsFollowAdmission(states: seq<Queue>, steps: seq<Step>, n: nat)
    requires IsRun(states, steps) && n < |states|
    ensures forall k, l :: 0 <= k < l < |states[n].grants| ==> states[n].grants[k] < states[n].grants[l]
    ensures forall k, i :: 0 <= k < |states[n].grants| && 0 <= i < states[n].grants[k]
              ==> At(states[n], i, Closed)
  {
    var q := states[n];
    RunKeepsInv(states, steps, n);
    forall k, i | 0 <= k < |q.grants| && 0 <= i < q.grants[k]
      ensures At(q, i, Closed)
    {
      EarlierClosed(q, q.grants[k], i);
    }
  }

  /** Closing a channel twice would panic: no reachable close step meets a channel that is closed. */
  lemma ClosesAtMostOnce(states: seq<Queue>, steps: seq<Step>, n: nat)
    requires IsRun(states, steps) && n < |steps|
    requires steps[n].CloseNow? || steps[n].CloseParked?
    ensures states[n].tickets[steps[n].i].done !in states[n].closed
    ensures states[n + 1].closed == states[n].closed + {states[n].tickets[steps[n].i].done}
  {
    RunKeepsInv(states, steps, n);
  }

  /** An id has at most one unreleased ticket; admitting it again changes nothing and so executes nothing. */
  lemma OneUnreleasedTicketPerId(states: seq<Queue>, steps: seq<Step>, n: nat, i: nat)
    requires IsRun(states, steps) && n < |states|
    requires i < |states[n].tickets| && Unreleased(states[n].tickets[i].phase)
    ensures forall j :: 0 <= j < |states[n].tickets| && j != i && Unreleased(states[n].tickets[j].phase) ==>
              states[n].tickets[j].id != states[n].tickets[i].id
    ensures forall context :: Apply(states[n], Admit(states[n].tickets[i].id, context)) == states[n]
  {
    RunKeepsInv(states, steps, n);
  }

  // ---------------------------------------------------------------- whose cancellation ends whose wait

  /** Step m is the admission that made ticket i. */
  ghost predicate Admits(states: seq<Queue>, steps: seq<Step>, m: nat, i: nat) {
    && m < |steps| < |states| && steps[m].Admit?
    && |states[m].tickets| == i && |states[m + 1].tickets| == i + 1
  }

  ghost predicate CancelledBefore(steps: seq<Step>, n: nat, context: Context) {
    exists l :: 0 <= l < n && l < |steps| && steps[l] == Cancel(context)
  }

  /** A ticket keeps the id and the context it was admitted with. */
  lemma {:induction false} AdmissionLasts(states: seq<Queue>, steps: seq<Step>, m: nat, n: nat, i: nat)
    requires IsRun(states, steps) && Admits(states, steps, m, i) && m < n < |states|
    ensures i < |states[n].tickets|
    ensures states[n].tickets[i].id == steps[m].id && states[n].tickets[i].context == steps[m].context
  {
    if n > m + 1 {
      AdmissionLasts(states, steps, m, n - 1, i);
      assert Enabled(states[n - 1], steps[n - 1]);
    }
  }

  lemma {:induction false} CancelledIff(states: seq<Queue>, steps: seq<Step>, n: nat, context: Context)
    requires IsRun(states, steps) && n < |states|
    ensures context in states[n].cancelled <==> CancelledBefore(steps, n, context)
  {
    if n > 0 {
      CancelledIff(states, steps, n - 1, context);
      assert Enabled(states[n - 1], steps[n - 1]);
    }
  }

  /** Over every run, in terms of what was asked of the queue: a waiting ticket can be refused if and only if a
      cancellation has named the context that its own admission named, and can get the slot if and only if none has
      and every earlier ticket has closed. */
  lemma WaitEndsIff(states: seq<Queue>, steps: seq<Step>, m: nat, n: nat, i: nat)
    requires IsRun(states, steps) && Admits(states, steps, m, i) && m < n < |states| && At(states[n], i, Waiting)
    ensures Enabled(states[n], Refuse(i)) <==> CancelledBefore(steps, n, steps[m].context)
    ensures Enabled(states[n], Grant(i)) <==>
            !CancelledBefore(steps, n, steps[m].context) && forall j: nat :: j < i ==> At(states[n], j, Closed)
  {
    var q := states[n];
    AdmissionLasts(states, steps, m, n, i);
    CancelledIff(states, steps, n, steps[m].context);
    RunKeepsInv(states, steps, n);
    if q.tickets[i].previous in q.closed {
      forall j: nat | j < i
        ensures At(q, j, Closed)
      {
        EarlierClosed(q, i, j);
      }
    } else {
      assert i > 0 && !At(q, i - 1, Closed);
    }
  }

  /** A goroutine is parked only behind a ticket that is still open, and closes its channel only behind none. */
  lemma ParkedBehindAnOpenTicket(states: seq<Queue>, steps: seq<Step>, n: nat)
    requires IsRun(states, steps) && n < |steps|
    ensures steps[n].Park? ==> exists j: nat :: j < steps[n].i && j < |states[n].tickets| && !At(states[n], j, Closed)
    ensures steps[n].CloseNow? || steps[n].CloseParked? ==> forall j: nat :: j < steps[n].i ==> At(states[n], j, Closed)
  {
    var q := states[n];
    RunKeepsInv(states, steps, n);
    assert Enabled(q, steps[n]);
    if steps[n].Park? {
      assert steps[n].i > 0 && !At(q, steps[n].i - 1, Closed);
    } else if steps[n].CloseNow? || steps[n].CloseParked? {
      forall j: nat | j < steps[n].i
        ensures At(q, j, Closed)
      {
        EarlierClosed(q, steps[n].i, j);
      }
    }
  }

  // ---------------------------------------------------------------- refinement of a single-slot FIFO

  /** The reference: a line of tickets and one slot. Only the head of the line may take the slot. */
  datatype Fifo = Fifo(line: seq<nat>, slot: Option<nat>)

  ghost predicate FifoNext(a: Fifo, b: Fifo) {
    || a == b
    || (exists t :: t !in a.line && a.slot != Some(t) && b == Fifo(a.line + [t], a.slot))
    || (exists k :: 0 <= k < |a.line| && b == Fifo(a.line[..k] + a.line[k + 1..], a.slot))
    || (a.slot.None? && a.line != [] && b == Fifo(a.line[1..], Some(a.line[0])))
    || (a.slot.Some? && b == Fifo(a.line, None))
  }

  predicate InLine(p: Phase) { p.Admitted? || p.Waiting? }

  function Line(ts: seq<Ticket>, n: nat): seq<nat>
    requires n <= |ts|
  {
    if n == 0 then []
    else if InLine(ts[n - 1].phase) then Line(ts, n - 1) + [n - 1]
    else Line(ts, n - 1)
  }

  ghost function Abstract(q: Queue): Fifo {
    Fifo(Line(q.tickets, |q.tickets|),
         if exists i: nat :: At(q, i, Running) then var i: nat :| At(q, i, Running); Some(i) else None)
  }

  lemma {:induction false} LineSame(ts: seq<Ticket>, us: seq<Ticket>, n: nat)
    requires n <= |ts| && n <= |us|
    requires forall i :: 0 <= i < n ==> (InLine(ts[i].phase) <==> InLine(us[i].phase))
    ensures Line(ts, n) == Line(us, n)
  {
    if n > 0 {
      LineSame(ts, us, n - 1);
    }
  }

  lemma {:induction false} LineBelow(ts: seq<Ticket>, n: nat)
    requires n <= |ts|
    ensures forall t :: t in Line(ts, n) ==> t < n
  {
    if n > 0 {
      LineBelow(ts, n - 1);
    }
  }

  lemma {:induction false} LineEmpty(ts: seq<Ticket>, n: nat)
    requires n <= |ts| && forall i :: 0 <= i < n ==> !InLine(ts[i].phase)
    ensures Line(ts, n) == []
  {
    if n > 0 {
      LineEmpty(ts, n - 1);
    }
  }

  /** Taking ticket i out of the line removes one position and moves nobody else. */
  lemma {:induction false} LineWithout(ts: seq<Ticket>, us: seq<Ticket>, i: nat, n: nat)
    requires i < n <= |ts| == |us| && us == ts[i := us[i]]
    requires InLine(ts[i].phase) && !InLine(us[i].phase)
    ensures |Line(ts, i)| < |Line(ts, n)|
    ensures Line(us, n) == Line(ts, n)[..|Line(ts, i)|] + Line(ts, n)[|Line(ts, i)| + 1..]
    ensures Line(ts, n)[|Line(ts, i)|] == i
  {
    if n == i + 1 {
      LineSame(ts, us, i);
    } else {
      LineWithout(ts, us, i, n - 1);
    }
  }

  lemma LineMoved(q: Queue, i: nat, p: Phase)
    requires i < |q.tickets| && InLine(q.tickets[i].phase) && !InLine(p)
    ensures var a, b := Line(q.tickets, |q.tickets|), Line(Move(q, i, p).tickets, |q.tickets|);
            exists k :: 0 <= k < |a| && b == a[..k] + a[k + 1..]
  {
    LineWithout(q.tickets, Move(q, i, p).tickets, i, |q.tickets|);
  }

  /** Under the invariant the slot is the running ticket, if there is one. */
  lemma SlotIs(q: Queue, i: nat)
    requires Inv(q) && At(q, i, Running)
    ensures Abstract(q).slot == Some(i)
  {
    var j: nat := Abstract(q).slot.value;
    if i < j { EarlierClosed(q, j, i); }
    if j < i { EarlierClosed(q, i, j); }
  }

  lemma SlotKept(q: Queue, r: Queue)
    requires Inv(q) && Inv(r)
    requires forall i: nat :: At(q, i, Running) <==> At(r, i, Running)
    ensures Abstract(r).slot == Abstract(q).slot
  {
    if i: nat :| At(q, i, Running) {
      SlotIs(q, i);
      SlotIs(r, i);
    }
  }

  /** The ticket whose wait succeeds is the head of the line. */
  lemma GrantedIsHead(q: Queue, i: nat)
    requires Inv(q) && Enabled(q, Grant(i))
    ensures var a, b := Line(q.tickets, |q.tickets|), Line(Move(q, i, Running).tickets, |q.tickets|);
            a != [] && a[0] == i && b == a[1..]
  {
    forall k | 0 <= k < i
      ensures q.tickets[k].phase.Closed?
    {
      EarlierClosed(q, i, k);
    }
    LineEmpty(q.tickets, i);
    LineWithout(q.tickets, Move(q, i, Running).tickets, i, |q.tickets|);
  }

  /** And the slot is free. */
  lemma GrantedFindsFreeSlot(q: Queue, i: nat, j: nat)
    requires Inv(q) && Enabled(q, Grant(i))
    ensures !At(q, j, Running)
  {
    if At(q, j, Running) {
      if j < i {
        EarlierClosed(q, i, j);
      } else {
        EarlierClosed(q, j, i);
      }
    }
  }

  /** The slot passes to the head of the line and to nobody else. */
  lemma GrantRefines(q: Queue, i: nat)
    requires Inv(q) && Enabled(q, Grant(i))
    ensures FifoNext(Abstract(q), Abstract(Apply(q, Grant(i))))
  {
    var r := Apply(q, Grant(i));
    InvKept(q, Grant(i));
    GrantedIsHead(q, i);
    forall j: nat {
      GrantedFindsFreeSlot(q, i, j);
    }
    SlotIs(r, i);
    assert r.tickets == Move(q, i, Running).tickets;
  }

  lemma ReleaseRefines(q: Queue, i: nat)
    requires Inv(q) && Enabled(q, Cleanup(i))
    ensures FifoNext(Abstract(q), Abstract(Apply(q, Cleanup(i))))
  {
    var r := Apply(q, Cleanup(i));
    InvKept(q, Cleanup(i));
    LineSame(q.tickets, r.tickets, |q.tickets|);
    if At(q, i, Running) {
      SlotIs(q, i);
      if j: nat :| At(r, j, Running) {
        assert At(q, j, Running);
        SlotIs(q, j);
      }
    } else {
      SlotKept(q, r);
    }
  }

  lemma WithdrawalRefines(q: Queue, i: nat)
    requires i < |q.tickets| && InLine(q.tickets[i].phase)
    requires Inv(q) && Inv(Move(q, i, Abandoned))
    ensures FifoNext(Abstract(q), Abstract(Move(q, i, Abandoned)))
  {
    LineMoved(q, i, Abandoned);
    SlotKept(q, Move(q, i, Abandoned));
  }

  lemma AdmissionRefines(q: Queue, s: Step)
    requires Inv(q) && s.Admit?
    ensures FifoNext(Abstract(q), Abstract(Apply(q, s)))
  {
    var r := Apply(q, s);
    InvKept(q, s);
    LineSame(q.tickets, r.tickets, |q.tickets|);
    SlotKept(q, r);
    if s.id !in q.entries {
      LineBelow(q.tickets, |q.tickets|);
      assert Abstract(r) == Fifo(Abstract(q).line + [|q.tickets|], Abstract(q).slot);
    }
  }

  /** The remaining actions are invisible to the FIFO. */
  lemma OthersRefine(q: Queue, s: Step)
    requires Inv(q) && Enabled(q, s)
    requires s.EnterWait? || s.CloseNow? || s.Park? || s.CloseParked? || s.Cancel?
    ensures Abstract(Apply(q, s)) == Abstract(q)
  {
    InvKept(q, s);
    LineSame(q.tickets, Apply(q, s).tickets, |q.tickets|);
    SlotKept(q, Apply(q, s));
  }

  /** Every interleaved action is an action of the single-slot FIFO or leaves it as it was. */
  lemma StepRefines(q: Queue, s: Step)
    requires Inv(q) && Enabled(q, s)
    ensures FifoNext(Abstract(q), Abstract(Apply(q, s)))
  {
    match s
    case Grant(i) => GrantRefines(q, i);
    case Cleanup(i) => ReleaseRefines(q, i);
    case Admit(_, _) => AdmissionRefines(q, s);
    case ReturnEarly(i) => InvKept(q, s); WithdrawalRefines(q, i);
    case Refuse(i) => InvKept(q, s); WithdrawalRefines(q, i);
    case _ => OthersRefine(q, s);
  }

  lemma RunRefinesFifo(states: seq<Queue>, steps: seq<Step>)
    requires IsRun(states, steps)
    ensures Abstract(states[0]) == Fifo([], None)
    ensures forall n :: 0 <= n < |steps| ==> FifoNext(Abstract(states[n]), Abstract(states[n + 1]))
  {
    forall n | 0 <= n < |steps|
      ensures FifoNext(Abstract(states[n]), Abstract(states[n + 1]))
    {
      RunKeepsInv(states, steps, n);
      StepRefines(states[n], steps[n]);
    }
  }

  // ---------------------------------------------------------------- progress

  function Rank(p: Phase): nat {
    match p
    case Admitted => 5
    case Waiting => 4
    case Running => 3
    case Abandoned => 3
    case Cleaned => 2
    case Parked => 1
    case Closed => 0
  }

  /** Steps still owed by the first n tickets. */
  function Work(ts: seq<Ticket>, n: nat): nat
    requires n <= |ts|
  {
    if n == 0 then 0 else Work(ts, n - 1) + Rank(ts[n - 1].phase)
  }

  /** The action belongs to one of the tickets 0..i. */
  predicate ByTicketUpTo(s: Step, i: nat) {
    !s.Admit? && !s.Cancel? && s.i <= i
  }

  lemma {:induction false} WorkFalls(ts: seq<Ticket>, us: seq<Ticket>, i: nat, n: nat)
    requires n <= |ts| && |us| >= |ts| && i < |ts|
    requires forall k :: 0 <= k < |ts| && k != i ==> us[k] == ts[k]
    requires Rank(us[i].phase) < Rank(ts[i].phase)
    ensures if i < n then Work(us, n) < Work(ts, n) else Work(us, n) == Work(ts, n)
  {
    if n > 0 {
      WorkFalls(ts, us, i, n - 1);
    }
  }

  lemma {:induction false} WorkSame(ts: seq<Ticket>, us: seq<Ticket>, n: nat)
    requires n <= |ts| <= |us| && ts == us[..|ts|]
    ensures Work(us, n) == Work(ts, n)
  {
    if n > 0 {
      WorkSame(ts, us, n - 1);
    }
  }

  /** Every action of a ticket up to i strictly lowers the work of those tickets; no action raises it. */
  lemma StepLowersWork(q: Queue, s: Step, i: nat)
    requires Enabled(q, s) && i < |q.tickets|
    ensures |Apply(q, s).tickets| >= |q.tickets|
    ensures Work(Apply(q, s).tickets, i + 1) <= Work(q.tickets, i + 1)
    ensures ByTicketUpTo(s, i) ==> Work(Apply(q, s).tickets, i + 1) < Work(q.tickets, i + 1)
  {
    if s.Admit? || s.Cancel? {
      WorkSame(q.tickets, Apply(q, s).tickets, i + 1);
    } else {
      WorkFalls(q.tickets, Apply(q, s).tickets, s.i, i + 1);
    }
  }

  /** The action that the first unclosed ticket, whose `previous` is closed, can always take. */
  function NextOf(q: Queue, i: nat): (s: Step)
    requires i < |q.tickets| && !q.tickets[i].phase.Closed?
    ensures ByTicketUpTo(s, i)
    ensures q.tickets[i].previous in q.closed ==> Enabled(q, s)
  {
    match q.tickets[i].phase
    case Admitted => EnterWait(i)
    case Waiting => if q.tickets[i].context in q.cancelled then Refuse(i) else Grant(i)
    case Running => Cleanup(i)
    case Abandoned => Cleanup(i)
    case Cleaned => CloseNow(i)
    case Parked => CloseParked(i)
  }

  /** No reachable state is stuck: while ticket i is open, some ticket up to i can act. */
  lemma {:induction false} SomebodyCanAct(q: Queue, i: nat) returns (s: Step)
    requires Inv(q) && i < |q.tickets| && !q.tickets[i].phase.Closed?
    ensures Enabled(q, s) && ByTicketUpTo(s, i)
  {
    if q.tickets[i].previous in q.closed {
      s := NextOf(q, i);
    } else {
      s := SomebodyCanAct(q, i - 1);
    }
  }

  /** Infinite runs: `sigma(n)` is the state after n actions. */
  ghost predicate IsBehaviour(sigma: nat -> Queue, steps: nat -> Step) {
    && sigma(0) == EMPTY
    && forall n: nat :: Enabled(sigma(n), steps(n)) && sigma(n + 1) == Apply(sigma(n), steps(n))
  }

  ghost predicate ActsAt(steps: nat -> Step, i: nat, m: nat) { ByTicketUpTo(steps(m), i) }

  ghost predicate CanAct(q: Queue, i: nat) { exists s :: Enabled(q, s) && ByTicketUpTo(s, i) }

  /** The scheduler does not starve tickets 0..i for ever; in particular a running job releases. `FairByTicket`
      derives this from the fairness of every single ticket. */
  ghost predicate Fair(sigma: nat -> Queue, steps: nat -> Step, i: nat) {
    forall n: nat :: CanAct(sigma(n), i) ==> exists m: nat :: n <= m && ActsAt(steps, i, m)
  }

  /** The action belongs to ticket j. */
  predicate ByTicket(s: Step, j: nat) { !s.Admit? && !s.Cancel? && s.i == j }

  ghost predicate TicketCanAct(q: Queue, j: nat) { exists s :: Enabled(q, s) && ByTicket(s, j) }

  ghost predicate TicketActsAt(steps: nat -> Step, j: nat, m: nat) { ByTicket(steps(m), j) }

  ghost predicate AbleFrom(sigma: nat -> Queue, j: nat, n: nat) {
    forall m: nat :: n <= m ==> TicketCanAct(sigma(m), j)
  }

  ghost predicate ActsFrom(steps: nat -> Step, j: nat, n: nat) {
    exists m: nat :: n <= m && TicketActsAt(steps, j, m)
  }

  /** Weak fairness of one goroutine: a ticket that can act from some point on without end acts at some later
      point. */
  ghost predicate WeaklyFair(sigma: nat -> Queue, steps: nat -> Step, j: nat) {
    forall n: nat :: AbleFrom(sigma, j, n) ==> ActsFrom(steps, j, n)
  }

  /** What ticket j can do in its phase, whatever the step is. */
  lemma TicketCanActIff(q: Queue, j: nat)
    ensures TicketCanAct(q, j) <==>
            && j < |q.tickets| && !q.tickets[j].phase.Closed?
            && (q.tickets[j].phase.Waiting? ==>
                  q.tickets[j].previous in q.closed || q.tickets[j].context in q.cancelled)
            && (q.tickets[j].phase.Parked? ==> q.tickets[j].previous in q.closed)
  {
    if j < |q.tickets| {
      var t := q.tickets[j];
      var s := match t.phase
        case Admitted => EnterWait(j)
        case Waiting => if t.context in q.cancelled then Refuse(j) else Grant(j)
        case Running => Cleanup(j)
        case Abandoned => Cleanup(j)
        case Cleaned => if t.previous in q.closed then CloseNow(j) else Park(j)
        case Parked => CloseParked(j)
        case Closed => Park(j);
      assert ByTicket(s, j);
      assert Enabled(q, s) ==> TicketCanAct(q, j);
    }
  }

  /** Nobody else takes the ability to act away. */
  lemma AbilityPersists(q: Queue, s: Step, j: nat)
    requires Enabled(q, s) && TicketCanAct(q, j) && !ByTicket(s, j)
    ensures TicketCanAct(Apply(q, s), j)
  {
    TicketCanActIff(q, j);
    TicketCanActIff(Apply(q, s), j);
  }

  lemma {:induction false} ActsOrStaysAble(sigma: nat -> Queue, steps: nat -> Step, j: nat, n: nat, m: nat)
    requires IsBehaviour(sigma, steps) && n <= m && TicketCanAct(sigma(n), j)
    ensures TicketCanAct(sigma(m), j) || ActsFrom(steps, j, n)
    decreases m - n
  {
    if n < m {
      if ByTicket(steps(n), j) {
        assert TicketActsAt(steps, j, n);
      } else {
        AbilityPersists(sigma(n), steps(n), j);
        ActsOrStaysAble(sigma, steps, j, n + 1, m);
      }
    }
  }

  lemma AbleTicketActs(sigma: nat -> Queue, steps: nat -> Step, j: nat, n: nat)
    requires IsBehaviour(sigma, steps) && WeaklyFair(sigma, steps, j) && TicketCanAct(sigma(n), j)
    ensures ActsFrom(steps, j, n)
  {
    if !AbleFrom(sigma, j, n) {
      var m: nat :| n <= m && !TicketCanAct(sigma(m), j);
      ActsOrStaysAble(sigma, steps, j, n, m);
    }
  }

  /** Weak fairness of every single ticket up to i is enough. */
  lemma FairByTicket(sigma: nat -> Queue, steps: nat -> Step, i: nat)
    requires IsBehaviour(sigma, steps) && forall j: nat :: j <= i ==> WeaklyFair(sigma, steps, j)
    ensures Fair(sigma, steps, i)
  {
    forall n: nat | CanAct(sigma(n), i)
      ensures exists m: nat :: n <= m && ActsAt(steps, i, m)
    {
      var s :| Enabled(sigma(n), s) && ByTicketUpTo(s, i);
      assert ByTicket(s, s.i);
      AbleTicketActs(sigma, steps, s.i, n);
      var k: nat :| n <= k && TicketActsAt(steps, s.i, k);
      assert ActsAt(steps, i, k);
    }
  }

  lemma {:induction false} BehaviourKeepsInv(sigma: nat -> Queue, steps: nat -> Step, n: nat)
    requires IsBehaviour(sigma, steps)
    ensures Inv(sigma(n))
  {
    if n > 0 {
      BehaviourKeepsInv(sigma, steps, n - 1);
      InvKept(sigma(n - 1), steps(n - 1));
    }
  }

  lemma {:induction false} WorkNeverRises(sigma: nat -> Queue, steps: nat -> Step, n: nat, m: nat, i: nat)
    requires IsBehaviour(sigma, steps) && n <= m && i < |sigma(n).tickets|
    ensures i < |sigma(m).tickets| && Work(sigma(m).tickets, i + 1) <= Work(sigma(n).tickets, i + 1)
    decreases m - n
  {
    if n < m {
      StepLowersWork(sigma(n), steps(n), i);
      WorkNeverRises(sigma, steps, n + 1, m, i);
    }
  }

  /** Every admitted ticket is closed in the end, so none wedges the workloads behind it. */
  lemma {:induction false} EveryTicketCloses(sigma: nat -> Queue, steps: nat -> Step, n: nat, i: nat) returns (m: nat)
    requires IsBehaviour(sigma, steps) && Fair(sigma, steps, i) && i < |sigma(n).tickets|
    ensures n <= m && At(sigma(m), i, Closed)
    decreases Work(sigma(n).tickets, i + 1)
  {
    if At(sigma(n), i, Closed) {
      return n;
    }
    BehaviourKeepsInv(sigma, steps, n);
    var s := SomebodyCanAct(sigma(n), i);
    assert CanAct(sigma(n), i);
    var k: nat :| n <= k && ActsAt(steps, i, k);
    WorkNeverRises(sigma, steps, n, k, i);
    StepLowersWork(sigma(k), steps(k), i);
    m := EveryTicketCloses(sigma, steps, k + 1, i);
  }

  /** A ticket whose context stays uncancelled can leave the line only through the slot. */
  lemma {:induction false} OnlyThroughTheSlot(sigma: nat -> Queue, steps: nat -> Step, n: nat, m: nat, i: nat)
    returns (k: nat)
    requires IsBehaviour(sigma, steps) && n <= m && At(sigma(n), i, Waiting) && At(sigma(m), i, Closed)
    requires forall l: nat :: n <= l && i < |sigma(l).tickets| ==> sigma(l).tickets[i].context !in sigma(l).cancelled
    ensures n <= k <= m && At(sigma(k), i, Running)
    decreases m - n
  {
    var s := steps(n);
    assert Enabled(sigma(n), s) && sigma(n + 1) == Apply(sigma(n), s);
    if s == Grant(i) {
      return n + 1;
    }
    assert At(sigma(n + 1), i, Waiting);
    k := OnlyThroughTheSlot(sigma, steps, n + 1, m, i);
  }

  /** Liveness: a waiting ticket that is never cancelled gets the slot, whatever the others do. */
  lemma UncancelledTicketRuns(sigma: nat -> Queue, steps: nat -> Step, n: nat, i: nat)
    requires IsBehaviour(sigma, steps) && At(sigma(n), i, Waiting)
    requires forall j: nat :: j <= i ==> WeaklyFair(sigma, steps, j)
    requires forall l: nat :: n <= l && i < |sigma(l).tickets| ==> sigma(l).tickets[i].context !in sigma(l).cancelled
    ensures exists k: nat :: n <= k && At(sigma(k), i, Running)
  {
    FairByTicket(sigma, steps, i);
    var m := EveryTicketCloses(sigma, steps, n, i);
    var k := OnlyThroughTheSlot(sigma, steps, n, m, i);
  }

  /** The prefix of a behaviour. */
  function Prefix(sigma: nat -> Queue, n: nat): seq<Queue> { seq(n + 1, k requires 0 <= k => sigma(k)) }

  function StepsBefore(steps: nat -> Step, n: nat): seq<Step> { seq(n, k requires 0 <= k => steps(k)) }

  lemma PrefixIsRun(sigma: nat -> Queue, steps: nat -> Step, n: nat)
    requires IsBehaviour(sigma, steps)
    ensures IsRun(Prefix(sigma, n), StepsBefore(steps, n))
  {
    assert Prefix(sigma, n)[0] == sigma(0);
  }

  lemma NotCancelled(sigma: nat -> Queue, steps: nat -> Step, m: nat, l: nat, i: nat)
    requires IsBehaviour(sigma, steps) && m < l && steps(m).Admit?
    requires |sigma(m).tickets| == i && |sigma(m + 1).tickets| == i + 1
    requires forall k: nat :: steps(k) != Cancel(steps(m).context)
    ensures i < |sigma(l).tickets| && sigma(l).tickets[i].context !in sigma(l).cancelled
  {
    var states, before := Prefix(sigma, l), StepsBefore(steps, l);
    PrefixIsRun(sigma, steps, l);
    assert before[m] == steps(m) && states[m] == sigma(m) && states[m + 1] == sigma(m + 1) && states[l] == sigma(l);
    AdmissionLasts(states, before, m, l, i);
    CancelledIff(states, before, l, steps(m).context);
  }

  /** The same in terms of what was asked of the queue: a ticket that waits, and whose admission named a context that
      no cancellation ever names, gets the slot. */
  lemma AdmittedTicketRuns(sigma: nat -> Queue, steps: nat -> Step, m: nat, n: nat, i: nat)
    requires IsBehaviour(sigma, steps) && m < n && steps(m).Admit?
    requires |sigma(m).tickets| == i && |sigma(m + 1).tickets| == i + 1
    requires forall k: nat :: steps(k) != Cancel(steps(m).context)
    requires At(sigma(n), i, Waiting) && forall j: nat :: j <= i ==> WeaklyFair(sigma, steps, j)
    ensures exists k: nat :: n <= k && At(sigma(k), i, Running)
  {
    forall l: nat | n <= l && i < |sigma(l).tickets|
      ensures sigma(l).tickets[i].context !in sigma(l).cancelled
    {
      NotCancelled(sigma, steps, m, l, i);
    }
    UncancelledTicketRuns(sigma, steps, n, i);
  }

  // ---------------------------------------------------------------- the queue object

  /** The handler leaves before it has waited: its acknowledgement failed, or its request did not decode. */
  function Withdrawn(q: Queue, i: nat): Queue {
    if Enabled(q, ReturnEarly(i)) then Apply(q, ReturnEarly(i)) else q
  }

  /** The deferred `release` of a handler that is not inside `wait`: the first call cleans up and then closes
      `done`, at once or through a parked goroutine; later calls do nothing. */
  function Released(q: Queue, i: nat): Queue
    requires i < |q.tickets|
  {
    var w := Withdrawn(q, i);
    if !Enabled(w, Cleanup(i)) then q else
    var r := Apply(w, Cleanup(i));
    if Enabled(r, CloseNow(i)) then Apply(r, CloseNow(i)) else Apply(r, Park(i))
  }

  /** Whether it ran, was refused or never waited: the id is free again, and `done` is closed exactly when
      `previous` is. */
  lemma ReleasedForm(q: Queue, i: nat)
    requires i < |q.tickets| && Unreleased(q.tickets[i].phase) && !q.tickets[i].phase.Waiting?
    ensures var t := q.tickets[i];
            Released(q, i) ==
            if t.previous in q.closed
            then q.(entries := q.entries - {t.id}, closed := q.closed + {t.done},
                    tickets := q.tickets[i := t.(phase := Closed)])
            else q.(entries := q.entries - {t.id}, tickets := q.tickets[i := t.(phase := Parked)])
  {
    var t := q.tickets[i];
    var w := Withdrawn(q, i);
    var ts := w.tickets[i := t.(phase := Cleaned)];
    assert ts == q.tickets[i := t.(phase := Cleaned)];
    assert ts[i := t.(phase := Closed)] == q.tickets[i := t.(phase := Closed)];
    assert ts[i := t.(phase := Parked)] == q.tickets[i := t.(phase := Parked)];
  }

  lemma WithdrawnKeepsInv(q: Queue, i: nat)
    requires Inv(q)
    ensures Inv(Withdrawn(q, i))
  {
    if Enabled(q, ReturnEarly(i)) {
      InvKept(q, ReturnEarly(i));
    }
  }

  lemma ReleasedKeepsInv(q: Queue, i: nat)
    requires Inv(q) && i < |q.tickets|
    ensures Inv(Released(q, i))
  {
    var w := Withdrawn(q, i);
    WithdrawnKeepsInv(q, i);
    if Enabled(w, Cleanup(i)) {
      InvKept(w, Cleanup(i));
      var r := Apply(w, Cleanup(i));
      InvKept(r, if Enabled(r, CloseNow(i)) then CloseNow(i) else Park(i));
    }
  }

  /** The once: a second release changes nothing. */
  lemma ReleasedOnce(q: Queue, i: nat)
    requires i < |q.tickets|
    ensures Released(Released(q, i), i) == Released(q, i)
  {
    if Unreleased(q.tickets[i].phase) && !q.tickets[i].phase.Waiting? {
      ReleasedForm(q, i);
    }
  }

  lemma RunningAlone(q: Queue, i: nat)
    requires Inv(q) && At(q, i, Running)
    ensures forall j :: 0 <= j < |q.tickets| && j != i ==> !q.tickets[j].phase.Running?
  {
    forall j | 0 <= j < |q.tickets| && j != i
      ensures !q.tickets[j].phase.Running?
    {
      if q.tickets[j].phase.Running? {
        SlotIs(q, i);
        SlotIs(q, j);
      }
    }
  }

  datatype WaitResult = GotSlot | ContextError | Heartbeat

  class BackupExecutionQueue {
    var tail: Channel
    var made: nat
    var closed: set<Channel>
    var entries: map<string, nat>
    var tickets: seq<Ticket>
    var cancelled: set<Context>
    var grants: seq<nat>

    ghost function State(): Queue
      reads this
    {
      Queue(tail, made, closed, entries, tickets, cancelled, grants)
    }

    constructor ()
      ensures State() == EMPTY && Inv(State())
    {
      tail, made, closed, entries := READY, 1, {READY}, map[];
      tickets, cancelled, grants := [], {}, [];
    }

    /** Admission in the receive loop; a retried id gets no ticket and changes nothing. */
    method Enqueue(id: string, context: Context) returns (ticket: Option<nat>)
      requires Inv(State())
      modifies this
      ensures Inv(State()) && State() == Apply(old(State()), Admit(id, context))
      ensures ticket == if id in old(entries) then None else Some(|old(tickets)|)
      ensures ticket.None? ==> State() == old(State())
      ensures ticket.Some? ==>
                && tickets == old(tickets) + [Ticket(id, old(tail), tail, context, Admitted)]
                && tail !in closed && entries == old(entries)[id := ticket.value]
                && closed == old(closed) && cancelled == old(cancelled) && grants == old(grants)
    {
      InvKept(State(), Admit(id, context));
      if id in entries {
        return None;
      }
      var ticket' := Ticket(id, tail, made, context, Admitted);
      entries := entries[id := |tickets|];
      ticket := Some(|tickets|);
      tickets := tickets + [ticket'];
      tail := ticket'.done;
      made := made + 1;
    }

    /** Anybody may cancel a context. */
    method CancelContext(context: Context)
      requires Inv(State())
      modifies this`cancelled
      ensures Inv(State()) && State() == Apply(old(State()), Cancel(context))
      ensures cancelled == old(cancelled) + {context}
    {
      InvKept(State(), Cancel(context));
      cancelled := cancelled + {context};
    }

    /** The handler of an acknowledged command enters `wait`. */
    method BeginWait(i: nat)
      requires Inv(State()) && At(State(), i, Admitted)
      modifies this`tickets
      ensures Inv(State()) && State() == Apply(old(State()), EnterWait(i))
    {
      InvKept(State(), EnterWait(i));
      tickets := tickets[i := tickets[i].(phase := Waiting)];
    }

    /** One turn of the select loop in `wait`: both ready arms return the context's error, the third beats. */
    method Select(i: nat) returns (r: WaitResult)
      requires Inv(State()) && At(State(), i, Waiting)
      modifies this`tickets, this`grants
      ensures Inv(State())
      ensures r.GotSlot? <==> old(Enabled(State(), Grant(i)))
      ensures r.GotSlot? ==> State() == Apply(old(State()), Grant(i))
      ensures r.ContextError? <==> old(Enabled(State(), Refuse(i)))
      ensures r.ContextError? ==> State() == Apply(old(State()), Refuse(i))
      ensures r.Heartbeat? ==> State() == old(State()) && tickets[i].previous !in closed
    {
      if tickets[i].context in cancelled {
        InvKept(State(), Refuse(i));
        tickets := tickets[i := tickets[i].(phase := Abandoned)];
        return ContextError;
      }
      if tickets[i].previous in closed {
        InvKept(State(), Grant(i));
        tickets := tickets[i := tickets[i].(phase := Running)];
        grants := grants + [i];
        return GotSlot;
      }
      return Heartbeat;
    }

    /** `wait` up to the next turn of its loop; the first call enters it. A wait that ends has the slot, alone, or
        has withdrawn because its context was cancelled. */
    method Wait(i: nat) returns (r: WaitResult)
      requires Inv(State()) && (At(State(), i, Admitted) || At(State(), i, Waiting))
      modifies this`tickets, this`grants
      ensures Inv(State()) && |tickets| == |old(tickets)|
      ensures r.GotSlot? <==> tickets[i].previous in closed && tickets[i].context !in cancelled
      ensures r.GotSlot? ==> tickets[i].phase.Running? && grants == old(grants) + [i]
      ensures r.GotSlot? ==> forall j :: 0 <= j < |tickets| && j != i ==> !tickets[j].phase.Running?
      ensures r.ContextError? <==> tickets[i].context in cancelled
      ensures r.ContextError? ==> tickets[i].phase.Abandoned? && grants == old(grants)
      ensures r.Heartbeat? ==> tickets[i].phase.Waiting? && grants == old(grants)
      ensures tickets == old(tickets)[i := tickets[i]] && tickets[i] == old(tickets[i]).(phase := tickets[i].phase)
    {
      if tickets[i].phase.Admitted? {
        BeginWait(i);
      }
      r := Select(i);
      if r.GotSlot? {
        RunningAlone(State(), i);
      }
    }

    /** Deferred by the handler, so it runs after `wait` has returned, or without it. */
    method Release(i: nat)
      requires Inv(State()) && i < |tickets| && !tickets[i].phase.Waiting?
      modifies this
      ensures Inv(State()) && State() == Released(old(State()), i)
      ensures old(Unreleased(tickets[i].phase)) ==>
                tickets[i].id !in entries && (tickets[i].phase.Closed? || tickets[i].phase.Parked?)
    {
      ReleasedKeepsInv(State(), i);
      ghost var q := State();
      if !Unreleased(tickets[i].phase) {
        return;
      }
      ReleasedForm(q, i);
      entries := entries - {tickets[i].id};
      if tickets[i].previous in closed {
        closed := closed + {tickets[i].done};
        tickets := tickets[i := tickets[i].(phase := Closed)];
      } else {
        tickets := tickets[i := tickets[i].(phase := Parked)];
      }
      assert State() == Released(q, i);
    }

    /** The parked goroutine's receive has returned. */
    method CloseParkedTicket(i: nat)
      requires Inv(State()) && Enabled(State(), CloseParked(i))
      modifies this`closed, this`tickets
      ensures Inv(State()) && State() == Apply(old(State()), CloseParked(i))
    {
      InvKept(State(), CloseParked(i));
      closed := closed + {tickets[i].done};
      tickets := tickets[i := tickets[i].(phase := Closed)];
    }
  }
}
