/**
 The Exchange broker: request threads share a pool of PowerShell workers, one per tenant. A pool lock guards the
 pool; every worker has a re-entrant lock, taken before the pool lock is given up. Threads interleave step by
 step; a process may also exit on its own at any time.
 */
module ExchangeBroker {
  import opened Options

  type Tenant = string
  type Descriptor = string

  /** A PowerShell worker. `killed` says that close() was called on it, `exited` what poll() reports. */
  datatype Worker = Worker(
    tenant: Tenant, descriptor: Descriptor, exited: bool, killed: bool, owner: Option<nat>, depth: nat)

  /** Where a thread stands in Broker.execute after its request has been validated. */
  datatype Phase =
    | Waiting(tenant: Tenant, descriptor: Descriptor)
    | Looking(tenant: Tenant, descriptor: Descriptor)
    | Replacing(tenant: Tenant, descriptor: Descriptor, worker: nat)
    | Closing(tenant: Tenant, descriptor: Descriptor, worker: nat)
    | Creating(tenant: Tenant, descriptor: Descriptor)
    | Taking(tenant: Tenant, descriptor: Descriptor, worker: nat)
    | Granted(tenant: Tenant, descriptor: Descriptor, worker: nat)
    | Held(tenant: Tenant, descriptor: Descriptor, worker: nat)
    | Running(tenant: Tenant, descriptor: Descriptor, worker: nat)
    | Leaving(tenant: Tenant, descriptor: Descriptor, worker: nat, mismatch: bool)
    | Done

  datatype State = State(
    pool: map<Tenant, nat>, poolOwner: Option<nat>, workers: seq<Worker>, threads: seq<Phase>)

  datatype Action =
    | LockPool | Choose(expired: bool) | LockOld | CloseOld(reaped: bool) | Create(started: bool) | LockWorker
    | UnlockPool | Enter | Finish(close: bool, reaped: bool) | Unlock

  datatype Step =
    | Arrive(tenant: Tenant, descriptor: Descriptor)
    | Exit(worker: nat)
    | Act(thread: nat, action: Action)

  function Start(): State { State(map[], None, [], []) }

  // ---------------------------------------------------------------- the steps

  /** A re-entrant lock can be taken when it is free or already one's own. */
  predicate Available(w: Worker, t: nat) { w.owner == None || w.owner == Some(t) }

  /** What no step changes about a worker: its tenant, its descriptor, and a kill once sent. */
  predicate SameWorker(before: Worker, after: Worker) {
    && after.tenant == before.tenant && after.descriptor == before.descriptor && (before.killed ==> after.killed)
  }

  function Acquired(w: Worker, t: nat): (r: Worker)
    ensures SameWorker(w, r)
  {
    w.(owner := Some(t), depth := w.depth + 1)
  }

  function Released(w: Worker): (r: Worker)
    ensures SameWorker(w, r)
  {
    if w.depth <= 1 then w.(owner := None, depth := 0) else w.(depth := w.depth - 1)
  }

  /** close(): the kill is sent; waiting for the exit may time out. */
  function Closed(w: Worker, reaped: bool): (r: Worker)
    ensures SameWorker(w, r)
  {
    w.(killed := true, exited := w.exited || reaped)
  }

  predicate Stale(w: Worker, descriptor: Descriptor, expired: bool) {
    w.exited || w.descriptor != descriptor || expired
  }

  predicate NamesWorker(p: Phase) {
    p.Replacing? || p.Closing? || p.Taking? || p.Granted? || p.Held? || p.Running? || p.Leaving?
  }

  predicate CanAct(s: State, t: nat, p: Phase, action: Action)
    requires NamesWorker(p) ==> p.worker < |s.workers|
  {
    match action
    case LockPool => p.Waiting? && s.poolOwner == None
    case Choose(_) => p.Looking? && (p.tenant in s.pool ==> s.pool[p.tenant] < |s.workers|)
    case LockOld => p.Replacing? && Available(s.workers[p.worker], t)
    case CloseOld(_) => p.Closing?
    case Create(_) => p.Creating?
    case LockWorker => p.Taking? && Available(s.workers[p.worker], t)
    case UnlockPool => p.Granted?
    case Enter => p.Held? && (p.tenant == s.workers[p.worker].tenant ==> Available(s.workers[p.worker], t))
    case Finish(_, _) => p.Running?
    case Unlock => p.Leaving?
  }

  predicate Enabled(s: State, step: Step) {
    match step
    case Arrive(_, _) => true
    case Exit(w) => w < |s.workers|
    case Act(t, action) =>
      && t < |s.threads|
      && (NamesWorker(s.threads[t]) ==> s.threads[t].worker < |s.workers|)
      && CanAct(s, t, s.threads[t], action)
  }

  function Moved(s: State, t: nat, p: Phase): State
    requires t < |s.threads|
  {
    s.(threads := s.threads[t := p])
  }

  function Changed(s: State, w: nat, worker: Worker): State
    requires w < |s.workers|
  {
    s.(workers := s.workers[w := worker])
  }

  function Chosen(s: State, p: Phase, expired: bool): Phase
    requires p.Looking? && (p.tenant in s.pool ==> s.pool[p.tenant] < |s.workers|)
  {
    if p.tenant !in s.pool then Creating(p.tenant, p.descriptor)
    else if Stale(s.workers[s.pool[p.tenant]], p.descriptor, expired)
    then Replacing(p.tenant, p.descriptor, s.pool[p.tenant])
    else Taking(p.tenant, p.descriptor, s.pool[p.tenant])
  }

  function Created(s: State, t: nat, started: bool): State
    requires t < |s.threads| && s.threads[t].Creating?
  {
    var p := s.threads[t];
    if !started then Moved(s, t, Done).(poolOwner := None)
    else
      Moved(s, t, Taking(p.tenant, p.descriptor, |s.workers|))
      .(pool := s.pool[p.tenant := |s.workers|],
        workers := s.workers + [Worker(p.tenant, p.descriptor, false, false, None, 0)])
  }

  function Acted(s: State, t: nat, p: Phase, action: Action): State
    requires t < |s.threads| && p == s.threads[t] && (NamesWorker(p) ==> p.worker < |s.workers|)
    requires CanAct(s, t, p, action)
  {
    match action
    case LockPool => Moved(s, t, Looking(p.tenant, p.descriptor)).(poolOwner := Some(t))
    case Choose(expired) => Moved(s, t, Chosen(s, p, expired))
    case LockOld =>
      Moved(Changed(s, p.worker, Acquired(s.workers[p.worker], t)), t, Closing(p.tenant, p.descriptor, p.worker))
    case CloseOld(reaped) =>
      Moved(Changed(s, p.worker, Released(Closed(s.workers[p.worker], reaped))), t, Creating(p.tenant, p.descriptor))
    case Create(started) => Created(s, t, started)
    case LockWorker =>
      Moved(Changed(s, p.worker, Acquired(s.workers[p.worker], t)), t, Granted(p.tenant, p.descriptor, p.worker))
    case UnlockPool => Moved(s, t, Held(p.tenant, p.descriptor, p.worker)).(poolOwner := None)
    case Enter =>
      if p.tenant != s.workers[p.worker].tenant then Moved(s, t, Leaving(p.tenant, p.descriptor, p.worker, true))
      else Moved(Changed(s, p.worker, Acquired(s.workers[p.worker], t)), t, Running(p.tenant, p.descriptor, p.worker))
    case Finish(close, reaped) =>
      var w := s.workers[p.worker];
      Moved(Changed(s, p.worker, Released(if close then Closed(w, reaped) else w)), t,
            Leaving(p.tenant, p.descriptor, p.worker, false))
    case Unlock => Moved(Changed(s, p.worker, Released(s.workers[p.worker])), t, Done)
  }

  function Apply(s: State, step: Step): State
    requires Enabled(s, step)
  {
    match step
    case Arrive(tenant, descriptor) => s.(threads := s.threads + [Waiting(tenant, descriptor)])
    case Exit(w) => Changed(s, w, s.workers[w].(exited := true))
    case Act(t, action) => Acted(s, t, s.threads[t], action)
  }

  // ---------------------------------------------------------------- the invariant

  predicate HoldsPool(p: Phase) {
    p.Looking? || p.Replacing? || p.Closing? || p.Creating? || p.Taking? || p.Granted?
  }

  /** The worker lock, pool lock released or about to be: the worker is this request's. */
  predicate InUse(p: Phase) { p.Granted? || p.Held? || p.Running? || p.Leaving? }

  /** How often a thread in this phase has entered the lock of worker w. */
  function HoldDepth(p: Phase, w: nat): nat {
    if (p.Closing? || p.Granted? || p.Held? || p.Leaving?) && p.worker == w then 1
    else if p.Running? && p.worker == w then 2
    else 0
  }

  /** The pool's entry of every tenant is a worker of that tenant, and any other worker of it has been killed. */
  ghost predicate PoolInv(s: State) {
    && (forall k :: k in s.pool ==> s.pool[k] < |s.workers| && s.workers[s.pool[k]].tenant == k)
    && (forall w :: 0 <= w < |s.workers| ==>
          s.workers[w].tenant in s.pool && (s.pool[s.workers[w].tenant] == w || s.workers[w].killed))
  }

  ghost predicate PoolLockInv(s: State) {
    && (forall t :: 0 <= t < |s.threads| && HoldsPool(s.threads[t]) ==> s.poolOwner == Some(t))
    && (s.poolOwner.Some? ==> s.poolOwner.value < |s.threads| && HoldsPool(s.threads[s.poolOwner.value]))
  }

  /** A lock is owned exactly by the thread whose phase is inside it, at that phase's depth. */
  ghost predicate WorkerLockInv(s: State, w: nat)
    requires w < |s.workers|
  {
    && (forall t :: 0 <= t < |s.threads| && HoldDepth(s.threads[t], w) > 0 ==> s.workers[w].owner == Some(t))
    && (s.workers[w].owner.Some? ==>
          && s.workers[w].owner.value < |s.threads|
          && HoldDepth(s.threads[s.workers[w].owner.value], w) == s.workers[w].depth > 0)
    && (s.workers[w].owner == None ==> s.workers[w].depth == 0)
  }

  /** What a thread knows about the worker it names. */
  ghost predicate PhaseInv(s: State, p: Phase) {
    && (NamesWorker(p) ==> p.worker < |s.workers| && s.workers[p.worker].tenant == p.tenant)
    && (p.Replacing? || p.Closing? || p.Taking? || p.Granted? ==> p.tenant in s.pool && s.pool[p.tenant] == p.worker)
    && (p.Creating? && p.tenant in s.pool ==> s.pool[p.tenant] < |s.workers| && s.workers[s.pool[p.tenant]].killed)
    && (p.Taking? || InUse(p) ==> s.workers[p.worker].descriptor == p.descriptor)
    && (p.Leaving? ==> !p.mismatch)
  }

  ghost predicate Inv(s: State) {
    && PoolInv(s) && PoolLockInv(s)
    && (forall w :: 0 <= w < |s.workers| ==> WorkerLockInv(s, w))
    && (forall t :: 0 <= t < |s.threads| ==> PhaseInv(s, s.threads[t]))
  }

  /** Workers are only added. */
  ghost predicate Grown(before: seq<Worker>, after: seq<Worker>) {
    |before| <= |after| && forall w :: 0 <= w < |before| ==> SameWorker(before[w], after[w])
  }

  lemma WorkerGrows(s: State, step: Step, w: nat)
    requires Enabled(s, step) && w < |s.workers|
    ensures w < |Apply(s, step).workers| && SameWorker(s.workers[w], Apply(s, step).workers[w])
  {
    if step.Act? {
      match step.action
      case LockPool => case Choose(_) => case LockOld => case CloseOld(_) => case Create(_) => case LockWorker =>
      case UnlockPool => case Enter => case Finish(_, _) => case Unlock =>
    }
  }

  lemma WorkersGrow(s: State, step: Step)
    requires Enabled(s, step)
    ensures Grown(s.workers, Apply(s, step).workers)
  {
    assert |s.workers| <= |Apply(s, step).workers|;
    forall w | 0 <= w < |s.workers| {
      WorkerGrows(s, step, w);
    }
  }

  /** The thread a step belongs to, or a number that is no thread's. */
  function Actor(s: State, step: Step): nat { if step.Act? then step.thread else |s.threads| }

  lemma OnlyTheActorMoves(s: State, step: Step)
    requires Enabled(s, step)
    ensures |s.threads| <= |Apply(s, step).threads|
    ensures forall t :: 0 <= t < |s.threads| && t != Actor(s, step) ==> Apply(s, step).threads[t] == s.threads[t]
  {
  }

  /** The new worker takes over the entry of its tenant, whose old worker, if any, has been killed. */
  lemma CreationKeepsPool(s: State, t: nat)
    requires PoolInv(s) && t < |s.threads| && s.threads[t].Creating? && PhaseInv(s, s.threads[t])
    ensures PoolInv(Created(s, t, true))
  {
    assert forall w :: 0 <= w < |s.workers| ==> Created(s, t, true).workers[w] == s.workers[w];
  }

  lemma PoolKept(s: State, step: Step)
    requires Inv(s) && Enabled(s, step)
    ensures PoolInv(Apply(s, step))
  {
    if step.Act? && step.action.Create? && step.action.started {
      assert PhaseInv(s, s.threads[step.thread]);
      CreationKeepsPool(s, step.thread);
    } else {
      OtherwisePoolSame(s, step);
      WorkersGrow(s, step);
    }
  }

  lemma OtherwisePoolSame(s: State, step: Step)
    requires Enabled(s, step) && !(step.Act? && step.action.Create? && step.action.started)
    ensures Apply(s, step).pool == s.pool && |Apply(s, step).workers| == |s.workers|
  {
  }

  lemma PoolLockKept(s: State, step: Step)
    requires Inv(s) && Enabled(s, step)
    ensures PoolLockInv(Apply(s, step))
  {
    OnlyTheActorMoves(s, step);
  }

  /** The worker a step locks, unlocks or kills, or a number that is no worker's. */
  function Target(s: State, step: Step): nat
    requires Enabled(s, step)
  {
    if step.Act? && NamesWorker(s.threads[step.thread]) then s.threads[step.thread].worker else |s.workers|
  }

  lemma OtherLockSame(s: State, step: Step, w: nat)
    requires Enabled(s, step) && w < |s.workers| && w != Target(s, step)
    ensures w < |Apply(s, step).workers|
    ensures Apply(s, step).workers[w].owner == s.workers[w].owner
    ensures Apply(s, step).workers[w].depth == s.workers[w].depth
  {
  }

  /** Outside its target a step changes nobody's depth. */
  lemma OtherDepthSame(s: State, step: Step, w: nat, t: nat)
    requires Enabled(s, step) && w < |s.workers| && w != Target(s, step) && t < |Apply(s, step).threads|
    requires t < |s.threads| && PhaseInv(s, s.threads[t])
    ensures HoldDepth(Apply(s, step).threads[t], w) == HoldDepth(s.threads[t], w)
  {
    OnlyTheActorMoves(s, step);
  }

  /** A step of one thread on one worker leaves the ownership of every other lock as it is. */
  lemma OtherLocksKept(s: State, step: Step, w: nat)
    requires Inv(s) && Enabled(s, step) && w < |s.workers| && w != Target(s, step)
    ensures w < |Apply(s, step).workers| && WorkerLockInv(Apply(s, step), w)
  {
    OtherLockSame(s, step, w);
    OnlyTheActorMoves(s, step);
    assert WorkerLockInv(s, w);
    forall t | 0 <= t < |s.threads|
      ensures HoldDepth(Apply(s, step).threads[t], w) == HoldDepth(s.threads[t], w)
    {
      assert PhaseInv(s, s.threads[t]);
      OtherDepthSame(s, step, w, t);
    }
    NewThreadHoldsNothing(s, step, w);
  }

  lemma NewThreadHoldsNothing(s: State, step: Step, w: nat)
    requires Enabled(s, step)
    ensures forall t :: |s.threads| <= t < |Apply(s, step).threads| ==> HoldDepth(Apply(s, step).threads[t], w) == 0
  {
  }

  lemma OwnLockKept(s: State, t: nat, action: Action)
    requires Inv(s) && Enabled(s, Act(t, action)) && NamesWorker(s.threads[t])
    ensures WorkerLockInv(Apply(s, Act(t, action)), s.threads[t].worker)
  {
    assert WorkerLockInv(s, s.threads[t].worker);
    assert PhaseInv(s, s.threads[t]);
    OnlyTheActorMoves(s, Act(t, action));
  }

  lemma LocksKept(s: State, step: Step, w: nat)
    requires Inv(s) && Enabled(s, step) && w < |Apply(s, step).workers|
    ensures WorkerLockInv(Apply(s, step), w)
  {
    if w == |s.workers| {
      OnlyTheActorMoves(s, step);
      assert forall t :: 0 <= t < |s.threads| ==> PhaseInv(s, s.threads[t]);
    } else if w == Target(s, step) {
      OwnLockKept(s, step.thread, step.action);
    } else {
      OtherLocksKept(s, step, w);
    }
  }

  lemma OtherPhaseKept(s: State, step: Step, u: nat)
    requires Inv(s) && Enabled(s, step) && u < |s.threads| && u != Actor(s, step)
    ensures PhaseInv(Apply(s, step), s.threads[u])
  {
    WorkersGrow(s, step);
    assert PhaseInv(s, s.threads[u]);
  }

  lemma OwnPhaseKept(s: State, t: nat, action: Action)
    requires Inv(s) && Enabled(s, Act(t, action))
    ensures PhaseInv(Apply(s, Act(t, action)), Apply(s, Act(t, action)).threads[t])
  {
    assert PhaseInv(s, s.threads[t]);
  }

  lemma PhasesKept(s: State, step: Step, u: nat)
    requires Inv(s) && Enabled(s, step) && u < |Apply(s, step).threads|
    ensures PhaseInv(Apply(s, step), Apply(s, step).threads[u])
  {
    OnlyTheActorMoves(s, step);
    if step.Act? && u == step.thread {
      OwnPhaseKept(s, u, step.action);
    } else if u < |s.threads| {
      OtherPhaseKept(s, step, u);
    }
  }

  /** Every step of every thread, and every exit of a process, keeps the invariant. */
  lemma InvKept(s: State, step: Step)
    requires Inv(s) && Enabled(s, step)
    ensures Inv(Apply(s, step))
  {
    var s' := Apply(s, step);
    PoolKept(s, step);
    PoolLockKept(s, step);
    forall w | 0 <= w < |s'.workers|
      ensures WorkerLockInv(s', w)
    {
      LocksKept(s, step, w);
    }
    forall t | 0 <= t < |s'.threads|
      ensures PhaseInv(s', s'.threads[t])
    {
      PhasesKept(s, step, t);
    }
  }

  ghost predicate IsRun(states: seq<State>, steps: seq<Step>) {
    && |states| == |steps| + 1
    && forall i :: 0 <= i < |steps| ==> Enabled(states[i], steps[i]) && states[i + 1] == Apply(states[i], steps[i])
  }

  lemma {:induction false} RunKeepsInv(states: seq<State>, steps: seq<Step>, i: nat)
    requires IsRun(states, steps) && Inv(states[0]) && i <= |steps|
    ensures Inv(states[i])
  {
    if i > 0 {
      RunKeepsInv(states, steps, i - 1);
      assert Enabled(states[i - 1], steps[i - 1]);
      InvKept(states[i - 1], steps[i - 1]);
    }
  }

  // ---------------------------------------------------------------- what holds in every run

  /** In every state of every run a request that has its worker runs on a worker of its own tenant that was
      started with the descriptor its own validation returned, alone, and never takes the mismatch exit. */
  lemma RunsOnItsOwnDescriptor(states: seq<State>, steps: seq<Step>, i: nat, t: nat)
    requires IsRun(states, steps) && states[0] == Start() && i <= |steps|
    requires t < |states[i].threads| && InUse(states[i].threads[t])
    ensures var p := states[i].threads[t];
            && p.worker < |states[i].workers|
            && states[i].workers[p.worker].tenant == p.tenant
            && states[i].workers[p.worker].descriptor == p.descriptor
            && (p.Leaving? ==> !p.mismatch)
            && forall u :: 0 <= u < |states[i].threads| && u != t && InUse(states[i].threads[u]) ==>
                 states[i].threads[u].worker != p.worker
  {
    var s := states[i];
    RunKeepsInv(states, steps, i);
    assert PhaseInv(s, s.threads[t]);
    assert WorkerLockInv(s, s.threads[t].worker);
    assert HoldDepth(s.threads[t], s.threads[t].worker) > 0;
    assert forall u :: 0 <= u < |s.threads| && InUse(s.threads[u]) && s.threads[u].worker == s.threads[t].worker ==>
        HoldDepth(s.threads[u], s.threads[t].worker) > 0;
  }

  /** The pool never maps a tenant to another tenant's worker, and of all the workers ever started for a
      tenant at most one, the pool's, has not been killed. */
  lemma OneLiveWorkerPerTenant(states: seq<State>, steps: seq<Step>, i: nat, v: nat, w: nat)
    requires IsRun(states, steps) && states[0] == Start() && i <= |steps|
    requires v < |states[i].workers| && w < |states[i].workers|
    requires states[i].workers[v].tenant == states[i].workers[w].tenant
    requires !states[i].workers[v].killed && !states[i].workers[w].killed
    ensures v == w && states[i].workers[v].tenant in states[i].pool
    ensures states[i].pool[states[i].workers[v].tenant] == v
  {
    RunKeepsInv(states, steps, i);
  }

  /** A process is killed only by the thread that holds its worker's lock. */
  lemma OnlyTheHolderKills(s: State, step: Step, w: nat)
    requires Inv(s) && Enabled(s, step) && w < |s.workers|
    requires !s.workers[w].killed && Apply(s, step).workers[w].killed
    ensures step.Act? && s.workers[w].owner == Some(step.thread)
  {
    assert step.Act? && PhaseInv(s, s.threads[step.thread]);
    assert WorkerLockInv(s, w);
    assert HoldDepth(s.threads[step.thread], w) > 0;
  }

  /** So nothing another thread does kills the process of a request that has been granted its worker, takes the
      worker's lock away, or moves that request. */
  lemma InFlightIsLeftAlone(s: State, step: Step, t: nat)
    requires Inv(s) && Enabled(s, step) && t < |s.threads| && InUse(s.threads[t])
    requires Actor(s, step) != t
    ensures var w, s' := s.threads[t].worker, Apply(s, step);
            && w < |s.workers| && w < |s'.workers| && t < |s'.threads|
            && s'.threads[t] == s.threads[t]
            && s'.workers[w].killed == s.workers[w].killed
            && s'.workers[w].owner == Some(t) && s'.workers[w].depth == s.workers[w].depth
  {
    var w, s' := s.threads[t].worker, Apply(s, step);
    OnlyTheActorMoves(s, step);
    WorkersGrow(s, step);
    InvKept(s, step);
    assert PhaseInv(s, s.threads[t]);
    assert WorkerLockInv(s, w) && WorkerLockInv(s', w);
    assert HoldDepth(s.threads[t], w) > 0;
    if !s.workers[w].killed && s'.workers[w].killed {
      OnlyTheHolderKills(s, step, w);
    }
  }

  /** In every run: a request takes the pool's worker of its tenant if and only if that worker's process has not exited
      at that step, was started with the request's own descriptor, and is not expired; with any other worker it goes on
      to replace it, and without one to create it. */
  lemma TakesALiveWorker(states: seq<State>, steps: seq<Step>, i: nat, t: nat, expired: bool)
    requires IsRun(states, steps) && states[0] == Start() && i < |steps| && steps[i] == Act(t, Choose(expired))
    ensures var s, p, q := states[i], states[i].threads[t], states[i + 1].threads[t];
            && p.Looking? && (p.tenant in s.pool ==> s.pool[p.tenant] < |s.workers|)
            && (q.Taking? <==> p.tenant in s.pool && !s.workers[s.pool[p.tenant]].exited
                               && s.workers[s.pool[p.tenant]].descriptor == p.descriptor && !expired)
            && (q.Creating? <==> p.tenant !in s.pool)
            && (q.Taking? || q.Replacing? || q.Creating?)
            && (q.Taking? || q.Replacing? ==> q.worker == s.pool[p.tenant])
            && q.tenant == p.tenant && q.descriptor == p.descriptor
  {
    assert Enabled(states[i], steps[i]);
    RunKeepsInv(states, steps, i);
  }

  lemma ExitedStaysExited(s: State, step: Step, w: nat)
    requires Enabled(s, step) && w < |s.workers| && (s.workers[w].exited || step == Exit(w))
    ensures w < |Apply(s, step).workers| && Apply(s, step).workers[w].exited
  {
    if step.Act? {
      match step.action
      case LockPool => case Choose(_) => case LockOld => case CloseOld(_) => case Create(_) => case LockWorker =>
      case UnlockPool => case Enter => case Finish(_, _) => case Unlock =>
    }
  }

  lemma {:induction false} ExitIsForGood(states: seq<State>, steps: seq<Step>, i: nat, j: nat, w: nat)
    requires IsRun(states, steps) && i < j <= |steps| && steps[i] == Exit(w)
    ensures w < |states[j].workers| && states[j].workers[w].exited
    decreases j
  {
    assert Enabled(states[j - 1], steps[j - 1]);
    if i < j - 1 {
      ExitIsForGood(states, steps, i, j - 1, w);
    }
    ExitedStaysExited(states[j - 1], steps[j - 1], w);
  }

  /** So no request is ever given a worker whose process had exited before the request looked for one. */
  lemma NeverTakenAfterItsExit(states: seq<State>, steps: seq<Step>, i: nat, j: nat, w: nat, t: nat, expired: bool)
    requires IsRun(states, steps) && states[0] == Start() && i < j < |steps|
    requires steps[i] == Exit(w) && steps[j] == Act(t, Choose(expired))
    ensures !(states[j + 1].threads[t].Taking? && states[j + 1].threads[t].worker == w)
  {
    ExitIsForGood(states, steps, i, j, w);
    TakesALiveWorker(states, steps, j, t, expired);
  }

  /** run() refuses a request for another tenant than its worker's, and touches nothing. */
  lemma MismatchIsRefused(s: State, t: nat)
    requires Enabled(s, Act(t, Enter)) && s.threads[t].tenant != s.workers[s.threads[t].worker].tenant
    ensures var p := s.threads[t];
            Apply(s, Act(t, Enter)) == s.(threads := s.threads[t := Leaving(p.tenant, p.descriptor, p.worker, true)])
  {
  }

  // ---------------------------------------------------------------- no deadlock

  /** What a thread in this phase does next. */
  function NextAction(p: Phase): Action
    requires !p.Done?
  {
    match p
    case Waiting(_, _) => LockPool
    case Looking(_, _) => Choose(false)
    case Replacing(_, _, _) => LockOld
    case Closing(_, _, _) => CloseOld(true)
    case Creating(_, _) => Create(true)
    case Taking(_, _, _) => LockWorker
    case Granted(_, _, _) => UnlockPool
    case Held(_, _, _) => Enter
    case Running(_, _, _) => Finish(false, false)
    case Leaving(_, _, _, _) => Unlock
  }

  predicate CanGoOn(s: State, t: nat) {
    t < |s.threads| && !s.threads[t].Done? && Enabled(s, Act(t, NextAction(s.threads[t])))
  }

  /** Only three phases wait for a lock. */
  lemma OnlyLocksBlock(s: State, t: nat)
    requires Inv(s) && t < |s.threads| && !s.threads[t].Done? && !CanGoOn(s, t)
    ensures var p := s.threads[t];
            || (p.Waiting? && s.poolOwner.Some?)
            || ((p.Replacing? || p.Taking?) && p.worker < |s.workers| && s.workers[p.worker].owner.Some?)
  {
    assert PhaseInv(s, s.threads[t]);
    if s.threads[t].Held? {
      assert WorkerLockInv(s, s.threads[t].worker) && HoldDepth(s.threads[t], s.threads[t].worker) > 0;
    }
  }

  /** Whoever holds a worker lock without the pool lock waits for nothing. */
  lemma HolderCanGoOn(s: State, t: nat)
    requires Inv(s) && t < |s.threads| && InUse(s.threads[t])
    ensures CanGoOn(s, t)
  {
    assert PhaseInv(s, s.threads[t]);
    if s.threads[t].Held? {
      assert WorkerLockInv(s, s.threads[t].worker) && HoldDepth(s.threads[t], s.threads[t].worker) > 0;
    }
  }

  lemma PoolOwnerOrHolderCanGoOn(s: State, t: nat) returns (u: nat)
    requires Inv(s) && s.poolOwner == Some(t)
    ensures CanGoOn(s, u)
  {
    if CanGoOn(s, t) {
      return t;
    }
    OnlyLocksBlock(s, t);
    var w := s.threads[t].worker;
    assert WorkerLockInv(s, w);
    u := s.workers[w].owner.value;
    HolderCanGoOn(s, u);
  }

  /** While any request is unfinished, some thread can take its next step: locks are taken pool first, worker
      second, and nobody waits for the pool lock while holding a worker lock. */
  lemma NoDeadlock(s: State, t: nat) returns (u: nat)
    requires Inv(s) && t < |s.threads| && !s.threads[t].Done?
    ensures CanGoOn(s, u)
  {
    if CanGoOn(s, t) {
      return t;
    }
    OnlyLocksBlock(s, t);
    if s.threads[t].Waiting? {
      u := PoolOwnerOrHolderCanGoOn(s, s.poolOwner.value);
    } else {
      u := PoolOwnerOrHolderCanGoOn(s, t);
    }
  }

  function Rank(p: Phase): nat {
    match p
    case Waiting(_, _) => 10
    case Looking(_, _) => 9
    case Replacing(_, _, _) => 8
    case Closing(_, _, _) => 7
    case Creating(_, _) => 6
    case Taking(_, _, _) => 5
    case Granted(_, _, _) => 4
    case Held(_, _, _) => 3
    case Running(_, _, _) => 2
    case Leaving(_, _, _, _) => 1
    case Done => 0
  }

  function Work(threads: seq<Phase>): nat {
    if threads == [] then 0 else Work(threads[..|threads| - 1]) + Rank(threads[|threads| - 1])
  }

  lemma {:induction false} WorkAfter(threads: seq<Phase>, t: nat, p: Phase)
    requires t < |threads|
    ensures Work(threads[t := p]) == Work(threads) - Rank(threads[t]) + Rank(p)
  {
    var n := |threads| - 1;
    if t == n {
      assert threads[t := p][..n] == threads[..n];
    } else {
      assert threads[t := p][..n] == threads[..n][t := p];
      WorkAfter(threads[..n], t, p);
    }
  }

  lemma ActLowersWork(s: State, t: nat, action: Action)
    requires Enabled(s, Act(t, action))
    ensures Work(Apply(s, Act(t, action)).threads) < Work(s.threads)
  {
    var s' := Apply(s, Act(t, action));
    assert s'.threads == s.threads[t := s'.threads[t]];
    WorkAfter(s.threads, t, s'.threads[t]);
  }

  lemma ArrivalAddsWork(threads: seq<Phase>, p: Phase)
    ensures Work(threads + [p]) == Work(threads) + Rank(p)
  {
    assert (threads + [p])[..|threads|] == threads;
  }

  /** The work after a step, when an arrival is credited with the work it brings. */
  lemma StepAndWork(s: State, step: Step)
    requires Enabled(s, step)
    ensures (if step.Act? then 1 else 0) + Work(Apply(s, step).threads) <=
            Work(s.threads) + if step.Arrive? then 10 else 0
  {
    match step
    case Arrive(tenant, descriptor) => ArrivalAddsWork(s.threads, Waiting(tenant, descriptor));
    case Exit(_) =>
    case Act(t, action) => ActLowersWork(s, t, action);
  }

  function Acts(steps: seq<Step>): nat {
    if steps == [] then 0 else Acts(steps[..|steps| - 1]) + if steps[|steps| - 1].Act? then 1 else 0
  }

  function Arrivals(steps: seq<Step>): nat {
    if steps == [] then 0 else Arrivals(steps[..|steps| - 1]) + if steps[|steps| - 1].Arrive? then 1 else 0
  }

  lemma RunPrefix(states: seq<State>, steps: seq<Step>, n: nat)
    requires IsRun(states, steps) && n < |steps|
    ensures IsRun(states[..n + 1], steps[..n])
    ensures Enabled(states[n], steps[n]) && states[n + 1] == Apply(states[n], steps[n])
  {
  }

  lemma {:induction false} ActsAreBounded(states: seq<State>, steps: seq<Step>)
    requires IsRun(states, steps)
    ensures Acts(steps) + Work(states[|steps|].threads) <= Work(states[0].threads) + 10 * Arrivals(steps)
    decreases |steps|
  {
    var n := |steps|;
    if n > 0 {
      RunPrefix(states, steps, n - 1);
      ActsAreBounded(states[..n], steps[..n - 1]);
      StepAndWork(states[n - 1], steps[n - 1]);
    }
  }

  /** In any interleaving, with requests arriving and processes exiting at any point, the threads take at most ten
      steps per request; and in a state in which no thread can go on every request has been answered. */
  lemma EveryRequestIsAnswered(states: seq<State>, steps: seq<Step>)
    requires IsRun(states, steps) && states[0] == Start()
    ensures Acts(steps) + Work(states[|steps|].threads) <= 10 * Arrivals(steps)
    ensures (forall u :: 0 <= u < |states[|steps|].threads| ==> !CanGoOn(states[|steps|], u)) ==>
              forall t :: 0 <= t < |states[|steps|].threads| ==> states[|steps|].threads[t].Done?
  {
    var n := |steps|;
    ActsAreBounded(states, steps);
    RunKeepsInv(states, steps, n);
    forall t | 0 <= t < |states[n].threads| && !states[n].threads[t].Done?
      ensures exists u :: 0 <= u < |states[n].threads| && CanGoOn(states[n], u)
    {
      var u := NoDeadlock(states[n], t);
    }
  }

  // ---------------------------------------------------------------- execute, from one end to the other

  /** Nobody is inside a lock. */
  ghost predicate Free(s: State) {
    s.poolOwner == None && forall w :: 0 <= w < |s.workers| ==> s.workers[w].owner == None
  }

  predicate TenantIdle(s: State, tenant: Tenant) {
    tenant in s.pool ==> s.pool[tenant] < |s.workers| && s.workers[s.pool[tenant]].owner == None
  }

  lemma FreeDepth(s: State, w: nat)
    requires Inv(s) && w < |s.workers| && s.workers[w].owner == None
    ensures s.workers[w].depth == 0
  {
    assert WorkerLockInv(s, w);
  }

  /** The old worker killed, its lock as it was. */
  function Replaced(s: State, t: nat, reaped: bool): State
    requires t < |s.threads| && s.threads[t].Replacing? && s.threads[t].worker < |s.workers|
  {
    var p := s.threads[t];
    Moved(Changed(s, p.worker, Closed(s.workers[p.worker], reaped)), t, Creating(p.tenant, p.descriptor))
  }

  lemma ReplacedForm(s: State, t: nat, reaped: bool)
    requires Inv(s) && t < |s.threads| && s.threads[t].Replacing?
    requires s.threads[t].worker < |s.workers| && s.workers[s.threads[t].worker].owner == None
    ensures Enabled(s, Act(t, LockOld))
    ensures Enabled(Apply(s, Act(t, LockOld)), Act(t, CloseOld(reaped)))
    ensures Apply(Apply(s, Act(t, LockOld)), Act(t, CloseOld(reaped))) == Replaced(s, t, reaped)
  {
    FreeDepth(s, s.threads[t].worker);
    var s2 := Apply(Apply(s, Act(t, LockOld)), Act(t, CloseOld(reaped)));
    assert s2.workers == Replaced(s, t, reaped).workers;
    assert s2.threads == Replaced(s, t, reaped).threads;
  }

  /** The request in run(), inside its worker's lock twice, the pool lock given up. */
  function Entered(s: State, t: nat): State
    requires t < |s.threads| && s.threads[t].Taking? && s.threads[t].worker < |s.workers|
  {
    var p := s.threads[t];
    Moved(Changed(s, p.worker, s.workers[p.worker].(owner := Some(t), depth := 2)), t,
          Running(p.tenant, p.descriptor, p.worker)).(poolOwner := None)
  }

  lemma EnteredForm(s: State, t: nat)
    requires Inv(s) && t < |s.threads| && s.threads[t].Taking?
    requires s.threads[t].worker < |s.workers| && s.workers[s.threads[t].worker].owner == None
    ensures Enabled(s, Act(t, LockWorker))
    ensures Enabled(Apply(s, Act(t, LockWorker)), Act(t, UnlockPool))
    ensures Enabled(Apply(Apply(s, Act(t, LockWorker)), Act(t, UnlockPool)), Act(t, Enter))
    ensures Apply(Apply(Apply(s, Act(t, LockWorker)), Act(t, UnlockPool)), Act(t, Enter)) == Entered(s, t)
  {
    FreeDepth(s, s.threads[t].worker);
    assert PhaseInv(s, s.threads[t]);
    var s3 := Apply(Apply(Apply(s, Act(t, LockWorker)), Act(t, UnlockPool)), Act(t, Enter));
    assert s3.workers == Entered(s, t).workers;
    assert s3.threads == Entered(s, t).threads;
  }

  /** The worker free again, killed if run() closed it. */
  function Left(s: State, t: nat, close: bool, reaped: bool): State
    requires t < |s.threads| && s.threads[t].Running? && s.threads[t].worker < |s.workers|
  {
    var w := s.workers[s.threads[t].worker].(owner := None, depth := 0);
    Moved(Changed(s, s.threads[t].worker, if close then Closed(w, reaped) else w), t, Done)
  }

  lemma LeftForm(s: State, t: nat, close: bool, reaped: bool)
    requires Inv(s) && t < |s.threads| && s.threads[t].Running? && s.threads[t].worker < |s.workers|
    ensures Enabled(s, Act(t, Finish(close, reaped)))
    ensures Enabled(Apply(s, Act(t, Finish(close, reaped))), Act(t, Unlock))
    ensures Apply(Apply(s, Act(t, Finish(close, reaped))), Act(t, Unlock)) == Left(s, t, close, reaped)
  {
    var p := s.threads[t];
    assert WorkerLockInv(s, p.worker) && HoldDepth(p, p.worker) == 2;
    var s2 := Apply(Apply(s, Act(t, Finish(close, reaped))), Act(t, Unlock));
    assert s2.workers == Left(s, t, close, reaped).workers;
    assert s2.threads == Left(s, t, close, reaped).threads;
  }

  /** Both together. */
  lemma ServedForm(s: State, t: nat, close: bool, reaped: bool)
    requires Inv(s) && t < |s.threads| && s.threads[t].Taking?
    requires s.threads[t].worker < |s.workers| && s.workers[s.threads[t].worker].owner == None
    ensures var w, s' := s.threads[t].worker, Left(Entered(s, t), t, close, reaped);
            && s'.poolOwner == None && s'.pool == s.pool
            && s'.threads == s.threads[t := Done]
            && s'.workers == s.workers[w := if close then Closed(s.workers[w], reaped) else s.workers[w]]
  {
    FreeDepth(s, s.threads[t].worker);
  }

  /** Whether a lookup can keep the tenant's worker: it has one, whose process has not exited, that was started with
      this descriptor and has been used lately. */
  predicate Kept(s: State, tenant: Tenant, descriptor: Descriptor, expired: bool)
    requires TenantIdle(s, tenant)
  {
    && tenant in s.pool && !expired
    && !s.workers[s.pool[tenant]].exited && s.workers[s.pool[tenant]].descriptor == descriptor
  }

  /** The tenant's worker, if it has one, told to die. */
  function OldKilled(s: State, tenant: Tenant, reaped: bool): seq<Worker>
    requires TenantIdle(s, tenant)
  {
    if tenant !in s.pool then s.workers else
    var w := s.pool[tenant];
    s.workers[w := s.workers[w].(killed := true, exited := s.workers[w].exited || reaped)]
  }

  /** The section under the pool lock as one function. */
  function AfterLookup(s: State, t: nat, expired: bool, reaped: bool, started: bool): State
    requires t < |s.threads| && s.threads[t].Looking? && TenantIdle(s, s.threads[t].tenant)
  {
    var s1 := Moved(s, t, Chosen(s, s.threads[t], expired));
    var s2 := if s1.threads[t].Replacing? then Replaced(s1, t, reaped) else s1;
    if s2.threads[t].Creating? then Created(s2, t, started) else s2
  }

  /** What that section leaves behind: the worker that was kept, or a new one with the old one killed, or nothing but
      the old one killed when no process could be started. */
  ghost predicate Provided(s: State, s': State, t: nat, kept: bool, reaped: bool, started: bool)
    requires t < |s.threads| && s.threads[t].Looking? && TenantIdle(s, s.threads[t].tenant)
    requires kept ==> s.threads[t].tenant in s.pool
  {
    var p := s.threads[t];
    if kept then
      s'.pool == s.pool && s'.workers == s.workers
      && s'.threads == s.threads[t := Taking(p.tenant, p.descriptor, s.pool[p.tenant])]
    else if started then
      && s'.pool == s.pool[p.tenant := |s.workers|]
      && s'.workers == OldKilled(s, p.tenant, reaped) + [Worker(p.tenant, p.descriptor, false, false, None, 0)]
      && s'.threads == s.threads[t := Taking(p.tenant, p.descriptor, |s.workers|)]
    else
      && s'.pool == s.pool && s'.workers == OldKilled(s, p.tenant, reaped) && s'.threads == s.threads[t := Done]
      && s'.poolOwner == None
  }

  lemma ProvidedFacts(s: State, t: nat, expired: bool, reaped: bool, started: bool)
    requires Inv(s) && t < |s.threads| && s.threads[t].Looking? && TenantIdle(s, s.threads[t].tenant)
    ensures var s' := AfterLookup(s, t, expired, reaped, started);
            Provided(s, s', t, Kept(s, s.threads[t].tenant, s.threads[t].descriptor, expired), reaped, started)
  {
    var s' := AfterLookup(s, t, expired, reaped, started);
    assert s'.threads == s.threads[t := s'.threads[t]];
  }

  lemma OneWorkerKilled(s: State, tenant: Tenant, reaped: bool)
    requires Inv(s) && TenantIdle(s, tenant)
    ensures var ws := OldKilled(s, tenant, reaped);
            && |ws| == |s.workers| && (tenant in s.pool ==> ws[s.pool[tenant]].killed)
            && forall w :: 0 <= w < |ws| ==>
                 && (s.workers[w].tenant != tenant ==> ws[w] == s.workers[w])
                 && ws[w].owner == s.workers[w].owner
  {
  }

  lemma TakingKnowsItsWorker(s: State, t: nat)
    requires Inv(s) && t < |s.threads| && s.threads[t].Taking?
    ensures var p := s.threads[t];
            && p.worker < |s.workers| && s.workers[p.worker].tenant == p.tenant
            && s.workers[p.worker].descriptor == p.descriptor
  {
    assert PhaseInv(s, s.threads[t]);
  }

  function AfterRun(w: Worker, close: bool, reaped: bool): Worker {
    if close then w.(killed := true, exited := w.exited || reaped) else w
  }

  /** What execute() leaves of pool and workers, and who has served. */
  ghost predicate Executed(s: State, s': State, tenant: Tenant, descriptor: Descriptor, kept: bool, started: bool,
                           reaped: bool, close: bool, served: Option<nat>)
    requires TenantIdle(s, tenant) && (kept ==> tenant in s.pool)
  {
    if kept then
      && served == Some(s.pool[tenant]) && s'.pool == s.pool
      && s'.workers == s.workers[served.value := AfterRun(s.workers[served.value], close, reaped)]
    else if started then
      && served == Some(|s.workers|) && s'.pool == s.pool[tenant := |s.workers|]
      && s'.workers == OldKilled(s, tenant, reaped) + [Worker(tenant, descriptor, close && reaped, close, None, 0)]
    else
      served == None && s'.pool == s.pool && s'.workers == OldKilled(s, tenant, reaped)
  }

  /** From the section under the pool lock to the end. */
  lemma ExecutedForm(s: State, s1: State, s2: State, s3: State, t: nat, kept: bool, started: bool, reaped: bool,
                     close: bool)
    requires t < |s1.threads| && s1.threads[t].Looking? && s1.pool == s.pool && s1.workers == s.workers
    requires TenantIdle(s, s1.threads[t].tenant) && (kept ==> s1.threads[t].tenant in s.pool)
    requires Provided(s1, s2, t, kept, reaped, started) && (kept || started)
    requires s3.pool == s2.pool && s2.threads[t].worker < |s2.workers|
    requires s3.workers == s2.workers[s2.threads[t].worker :=
                             AfterRun(s2.workers[s2.threads[t].worker], close, reaped)]
    ensures Executed(s, s3, s1.threads[t].tenant, s1.threads[t].descriptor, kept, started, reaped, close,
                     Some(s2.threads[t].worker))
  {
  }

  lemma ExecutedIsLocal(s: State, s': State, tenant: Tenant, descriptor: Descriptor, kept: bool, started: bool,
                        reaped: bool, close: bool, served: Option<nat>)
    requires Inv(s) && Free(s) && TenantIdle(s, tenant) && (kept ==> tenant in s.pool)
    requires Executed(s, s', tenant, descriptor, kept, started, reaped, close, served) && s'.poolOwner == None
    ensures Free(s')
    ensures forall w :: 0 <= w < |s.workers| && s.workers[w].tenant != tenant ==>
              w < |s'.workers| && s'.workers[w] == s.workers[w]
  {
    OneWorkerKilled(s, tenant, reaped);
  }

  class Broker {
    var pool: map<Tenant, nat>
    var poolOwner: Option<nat>
    var workers: seq<Worker>
    var threads: seq<Phase>

    function View(): State
      reads this
    {
      State(pool, poolOwner, workers, threads)
    }

    constructor ()
      ensures View() == Start() && Inv(View()) && Free(View())
    {
      pool, poolOwner, workers, threads := map[], None, [], [];
    }

    /** One atomic action of one thread. */
    method Do(t: nat, action: Action)
      requires Inv(View()) && Enabled(View(), Act(t, action))
      modifies this
      ensures Inv(View()) && View() == Apply(old(View()), Act(t, action))
    {
      InvKept(View(), Act(t, action));
      var s := Apply(View(), Act(t, action));
      pool, poolOwner, workers, threads := s.pool, s.poolOwner, s.workers, s.threads;
    }

    /** A validated request arrives and takes the free pool lock. */
    method Begin(tenant: Tenant, descriptor: Descriptor) returns (t: nat)
      requires Inv(View()) && poolOwner == None
      modifies this
      ensures Inv(View()) && t == |old(threads)| && threads == old(threads) + [Looking(tenant, descriptor)]
      ensures pool == old(pool) && workers == old(workers)
    {
      InvKept(View(), Arrive(tenant, descriptor));
      t := |threads|;
      threads := threads + [Waiting(tenant, descriptor)];
      Do(t, LockPool);
    }

    /** With the worker lock: kill the old process. */
    method Replace(t: nat, reaped: bool)
      requires Inv(View()) && t < |threads| && threads[t].Replacing?
      requires threads[t].worker < |workers| && workers[threads[t].worker].owner == None
      modifies this
      ensures Inv(View()) && View() == Replaced(old(View()), t, reaped)
    {
      ReplacedForm(View(), t, reaped);
      Do(t, LockOld);
      Do(t, CloseOld(reaped));
    }

    /** With the pool lock: reuse the tenant's worker, if its process has not exited, it has this descriptor and it was
        used lately; otherwise kill it and start another. The thread ends up with the pool's worker for its tenant,
        unless no process could be started. No other tenant's worker is touched. */
    method Provide(t: nat, expired: bool, reaped: bool, started: bool)
      requires Inv(View()) && t < |threads| && threads[t].Looking? && TenantIdle(View(), threads[t].tenant)
      modifies this
      ensures Inv(View())
      ensures var tenant, descriptor := old(threads[t].tenant), old(threads[t].descriptor);
              var kept := old(&& tenant in pool && !workers[pool[tenant]].exited
                              && workers[pool[tenant]].descriptor == descriptor && !expired);
              Provided(old(View()), View(), t, kept, reaped, started)
      ensures forall w :: 0 <= w < |old(workers)| && old(workers)[w].tenant != old(threads[t].tenant) ==>
                w < |workers| && workers[w] == old(workers)[w]
    {
      ProvidedFacts(View(), t, expired, reaped, started);
      OneWorkerKilled(View(), threads[t].tenant, reaped);
      Do(t, Choose(expired));
      if threads[t].Replacing? {
        Replace(t, reaped);
      }
      if threads[t].Creating? {
        Do(t, Create(started));
      }
    }

    /** The worker lock, then the pool lock back, then run(). */
    method EnterRun(t: nat)
      requires Inv(View()) && t < |threads| && threads[t].Taking?
      requires threads[t].worker < |workers| && workers[threads[t].worker].owner == None
      modifies this
      ensures Inv(View()) && View() == Entered(old(View()), t)
    {
      EnteredForm(View(), t);
      Do(t, LockWorker);
      Do(t, UnlockPool);
      Do(t, Enter);
    }

    method LeaveRun(t: nat, close: bool, reaped: bool)
      requires Inv(View()) && t < |threads| && threads[t].Running? && threads[t].worker < |workers|
      modifies this
      ensures Inv(View()) && View() == Left(old(View()), t, close, reaped)
    {
      LeftForm(View(), t, close, reaped);
      Do(t, Finish(close, reaped));
      Do(t, Unlock);
    }

    /** With the worker: run the request and let go of the worker. The mismatch exit is not taken; the process is
        killed exactly when run() closed it. */
    method Serve(t: nat, close: bool, reaped: bool)
      requires Inv(View()) && t < |threads| && threads[t].Taking?
      requires threads[t].worker < |workers| && workers[threads[t].worker].owner == None
      modifies this
      ensures Inv(View()) && poolOwner == None && pool == old(pool)
      ensures threads == old(threads)[t := Done]
      ensures var w := old(threads[t].worker);
              var was := old(workers)[w];
              workers == old(workers)[w := if close then was.(killed := true, exited := was.exited || reaped) else was]
    {
      ServedForm(View(), t, close, reaped);
      EnterRun(t);
      LeaveRun(t, close, reaped);
    }

    /** execute(), when no other thread is inside a lock: the request is served by its tenant's pool worker, with
        its own descriptor, or fails because no process could be started. A worker that can still serve is kept,
        any other is killed and replaced by a new one; the process that served is killed as well if run() closed it.
        The locks are free again and no other tenant is affected. */
    method Execute(tenant: Tenant, descriptor: Descriptor, expired: bool, started: bool, reaped: bool, close: bool)
      returns (served: Option<nat>)
      requires Inv(View()) && Free(View())
      modifies this
      ensures Inv(View()) && Free(View()) && threads == old(threads) + [Done]
      ensures var kept := old(&& tenant in pool && !workers[pool[tenant]].exited
                              && workers[pool[tenant]].descriptor == descriptor && !expired);
              Executed(old(View()), View(), tenant, descriptor, kept, started, reaped, close, served)
      ensures served.Some? ==> && tenant in pool && served.value == pool[tenant] < |workers|
                               && workers[served.value].tenant == tenant
                               && workers[served.value].descriptor == descriptor
                               && (close ==> workers[served.value].killed)
      ensures forall w :: 0 <= w < |old(workers)| && old(workers)[w].tenant != tenant ==>
                w < |workers| && workers[w] == old(workers)[w]
    {
      ghost var s, kept := View(), Kept(View(), tenant, descriptor, expired);
      var t := Begin(tenant, descriptor);
      ghost var s1 := View();
      Provide(t, expired, reaped, started);
      ghost var s2 := View();
      if threads[t].Done? {
        ExecutedIsLocal(s, s2, tenant, descriptor, kept, started, reaped, close, None);
        return None;
      }
      served := Some(threads[t].worker);
      TakingKnowsItsWorker(View(), t);
      Serve(t, close, reaped);
      ExecutedForm(s, s1, s2, View(), t, kept, started, reaped, close);
      ExecutedIsLocal(s, View(), tenant, descriptor, kept, started, reaped, close, served);
    }
  }
}
