/**
 The registry of cancellable commands and the targeted `backup_stop` that joins a cancelled run.

 A `Run` is one lifetime created by `track`: a context, its cancel function and a `done` channel, all three
 identified by the run's number. The closures that `track` returns and the stop handler are split into the
 sections between which other goroutines can act.
 */
module CommandCanceller {
  import opened Options

  /** Where the first tracker's cleanup is: registered, maps deleted, context cancelled, `done` closed. */
  datatype Stage = Tracked | Deleted | Unwound | Drained

  datatype Run = Run(id: string, stage: Stage, cancelled: bool)

  /** A context descends from the context of one run; the execution guard derives a guarded one. */
  datatype Context = Context(run: nat, guarded: bool)

  datatype Registry = Registry(
    cancels: map<string, nat>, contexts: map<string, Context>, done: map<string, nat>, runs: seq<Run>)

  const NO_COMMANDS := Registry(map[], map[], map[], [])

  // ---------------------------------------------------------------- sections of the registry's methods

  function Tracking(c: Registry, id: string): Registry {
    if id in c.contexts then c else
    var r := |c.runs|;
    Registry(c.cancels[id := r], c.contexts[id := Context(r, false)], c.done[id := r],
             c.runs + [Run(id, Tracked, false)])
  }

  function At(c: Registry, r: nat, run: Run): Registry
    requires r < |c.runs|
  {
    c.(runs := c.runs[r := run])
  }

  /** First section of the cleanup of run r: it deletes by id, whoever is registered there. */
  function Deleting(c: Registry, r: nat): Registry
    requires r < |c.runs|
  {
    var id := c.runs[r].id;
    At(c, r, c.runs[r].(stage := Deleted))
    .(cancels := c.cancels - {id}, contexts := c.contexts - {id}, done := c.done - {id})
  }

  function Rebinding(c: Registry, id: string, context: Context): Registry {
    if id in c.contexts then c.(contexts := c.contexts[id := context]) else c
  }

  function Cancelling(c: Registry, r: nat): Registry
    requires r < |c.runs|
  {
    At(c, r, c.runs[r].(cancelled := true))
  }

  // ---------------------------------------------------------------- all interleavings

  /** A targeted stop: after the lookup, after cancelling, after fetching the `done` channel, answered. `done` is
      the run whose channel was fetched. */
  datatype Stop =
    | Looked(id: string, found: Option<nat>)
    | Signalled(id: string, run: nat)
    | Joining(id: string, run: nat, done: Option<nat>)
    | Replied(id: string, target: Option<nat>, done: Option<nat>, stopped: bool, drained: bool)

  datatype System = System(c: Registry, stops: seq<Stop>)

  datatype Step =
    | Track(id: string)
    | CleanupDelete(r: nat)
    | CleanupCancel(r: nat)
    | CleanupClose(r: nat)
    | NestedCleanup(id: string)
    | Rebind(id: string, context: Context)
    | CancelRun(r: nat)
    | StopLook(id: string)
    | StopSignal(k: nat)
    | StopFetch(k: nat)
    | StopAnswer(k: nat, drained: bool)

  predicate Enabled(s: System, step: Step) {
    match step
    case Track(_) => true
    case CleanupDelete(r) => r < |s.c.runs| && s.c.runs[r].stage.Tracked?
    case CleanupCancel(r) => r < |s.c.runs| && s.c.runs[r].stage.Deleted?
    case CleanupClose(r) => r < |s.c.runs| && s.c.runs[r].stage.Unwound?
    case NestedCleanup(_) => true
    case Rebind(_, context) => context.run < |s.c.runs|
    case CancelRun(r) => r < |s.c.runs|
    case StopLook(_) => true
    case StopSignal(k) => k < |s.stops| && s.stops[k].Looked?
    case StopFetch(k) => k < |s.stops| && s.stops[k].Signalled?
    case StopAnswer(k, drained) =>
      // Drained when there was no channel or it is closed; not drained when the timer fires.
      && k < |s.stops| && s.stops[k].Joining?
      && match s.stops[k].done
         case None => drained
         case Some(r) => drained ==> r < |s.c.runs| && s.c.runs[r].stage.Drained?
  }

  function Find<T>(m: map<string, T>, id: string): Option<T> {
    if id in m then Some(m[id]) else None
  }

  /** Only reachable indices matter; a step on an unknown run leaves the registry alone. */
  function Apply(s: System, step: Step): System
    requires Enabled(s, step)
  {
    match step
    case Track(id) => s.(c := Tracking(s.c, id))
    case CleanupDelete(r) => s.(c := Deleting(s.c, r))
    case CleanupCancel(r) => s.(c := At(s.c, r, s.c.runs[r].(stage := Unwound, cancelled := true)))
    case CleanupClose(r) => s.(c := At(s.c, r, s.c.runs[r].(stage := Drained)))
    case NestedCleanup(_) => s
    case Rebind(id, context) => s.(c := Rebinding(s.c, id, context))
    case CancelRun(r) => s.(c := Cancelling(s.c, r))
    case StopLook(id) => s.(stops := s.stops + [Looked(id, Find(s.c.cancels, id))])
    case StopSignal(k) =>
      var stop := s.stops[k];
      if stop.found.Some? && stop.found.value < |s.c.runs| then
        System(Cancelling(s.c, stop.found.value), s.stops[k := Signalled(stop.id, stop.found.value)])
      else
        s.(stops := s.stops[k := Replied(stop.id, None, None, false, true)])
    case StopFetch(k) =>
      var stop := s.stops[k];
      s.(stops := s.stops[k := Joining(stop.id, stop.run, Find(s.c.done, stop.id))])
    case StopAnswer(k, drained) =>
      var stop := s.stops[k];
      s.(stops := s.stops[k := Replied(stop.id, Some(stop.run), stop.done, true, drained)])
  }

  // ---------------------------------------------------------------- the invariant

  /** The three maps list the same ids, and an id is listed exactly while its one run is tracked. */
  ghost predicate Consistent(c: Registry) {
    && c.contexts.Keys == c.cancels.Keys == c.done.Keys
    && (forall id :: id in c.cancels ==>
        c.cancels[id] < |c.runs| && c.done[id] == c.cancels[id]
        && c.runs[c.cancels[id]].id == id && c.runs[c.cancels[id]].stage.Tracked?)
    && (forall r :: 0 <= r < |c.runs| && c.runs[r].stage.Tracked? ==>
        c.runs[r].id in c.cancels && c.cancels[c.runs[r].id] == r)
    && (forall id :: id in c.contexts ==> c.contexts[id].run < |c.runs|)
  }

  /** A stop remembers a run of its own id; once it has fetched another channel or none, that run's
      cleanup has already deleted it. */
  ghost predicate StopSound(c: Registry, stop: Stop) {
    match stop
    case Looked(id, found) => found.Some? ==> found.value < |c.runs| && c.runs[found.value].id == id
    case Signalled(id, r) => r < |c.runs| && c.runs[r].id == id && c.runs[r].cancelled
    case Joining(id, r, done) =>
      && r < |c.runs| && c.runs[r].id == id && c.runs[r].cancelled
      && (done == Some(r) || !c.runs[r].stage.Tracked?)
    case Replied(id, target, done, stopped, drained) =>
      && stopped == target.Some?
      && (!stopped ==> drained)
      && (stopped ==> target.value < |c.runs| && c.runs[target.value].id == id && c.runs[target.value].cancelled)
      && (stopped && drained ==> !c.runs[target.value].stage.Tracked?)
      && (stopped && drained && done == target ==> c.runs[target.value].stage.Drained?)
  }

  ghost predicate Inv(s: System) {
    Consistent(s.c) && forall k :: 0 <= k < |s.stops| ==> StopSound(s.c, s.stops[k])
  }

  /** Later registries know every earlier run, under the same id, at least as far along. */
  ghost predicate Older(a: Registry, b: Registry) {
    && |a.runs| <= |b.runs|
    && forall r :: 0 <= r < |a.runs| ==>
        && b.runs[r].id == a.runs[r].id
        && (a.runs[r].cancelled ==> b.runs[r].cancelled)
        && (b.runs[r].stage.Tracked? ==> a.runs[r].stage.Tracked?)
        && (a.runs[r].stage.Drained? ==> b.runs[r].stage.Drained?)
  }

  lemma TrackingKept(c: Registry, id: string)
    requires Consistent(c)
    ensures Consistent(Tracking(c, id))
  {
  }

  lemma DeletingKept(c: Registry, r: nat)
    requires Consistent(c) && r < |c.runs| && c.runs[r].stage.Tracked?
    ensures Consistent(Deleting(c, r))
  {
    var d := Deleting(c, r);
    assert forall q :: 0 <= q < |c.runs| && q != r ==> d.runs[q] == c.runs[q];
  }

  lemma FlagsKept(c: Registry, r: nat, run: Run)
    requires Consistent(c) && r < |c.runs|
    requires run.id == c.runs[r].id && (run.stage.Tracked? <==> c.runs[r].stage.Tracked?)
    ensures Consistent(At(c, r, run))
  {
    var d := At(c, r, run);
    assert forall q :: 0 <= q < |c.runs| ==> d.runs[q].id == c.runs[q].id
                                             && (d.runs[q].stage.Tracked? <==> c.runs[q].stage.Tracked?);
  }

  lemma CancelledOnlyKept(c: Registry, runs: seq<Run>)
    requires Consistent(c) && |runs| == |c.runs|
    requires forall r :: 0 <= r < |runs| ==> runs[r] == c.runs[r] || runs[r] == c.runs[r].(cancelled := true)
    ensures Consistent(c.(runs := runs))
  {
    assert forall r :: 0 <= r < |runs| ==> runs[r].id == c.runs[r].id && runs[r].stage == c.runs[r].stage;
  }

  lemma RegistryKept(s: System, step: Step)
    requires Consistent(s.c) && Enabled(s, step)
    ensures Consistent(Apply(s, step).c)
  {
    match step
    case Track(id) => TrackingKept(s.c, id);
    case CleanupDelete(r) => DeletingKept(s.c, r);
    case CleanupCancel(r) => FlagsKept(s.c, r, s.c.runs[r].(stage := Unwound, cancelled := true));
    case CleanupClose(r) => FlagsKept(s.c, r, s.c.runs[r].(stage := Drained));
    case CancelRun(r) => FlagsKept(s.c, r, s.c.runs[r].(cancelled := true));
    case StopSignal(k) =>
      var found := s.stops[k].found;
      if found.Some? && found.value < |s.c.runs| {
        FlagsKept(s.c, found.value, s.c.runs[found.value].(cancelled := true));
      }
    case _ =>
  }

  lemma RegistryAges(s: System, step: Step)
    requires Enabled(s, step)
    ensures Older(s.c, Apply(s, step).c)
  {
  }

  lemma StopsKept(s: System, step: Step)
    requires Inv(s) && Enabled(s, step)
    ensures forall k :: 0 <= k < |Apply(s, step).stops| ==> StopSound(Apply(s, step).c, Apply(s, step).stops[k])
  {
    var t := Apply(s, step);
    RegistryAges(s, step);
    forall k | 0 <= k < |t.stops|
      ensures StopSound(t.c, t.stops[k])
    {
      if k < |s.stops| && t.stops[k] == s.stops[k] {
        assert StopSound(s.c, s.stops[k]);
      }
    }
  }

  lemma InvKept(s: System, step: Step)
    requires Inv(s) && Enabled(s, step)
    ensures Inv(Apply(s, step))
  {
    RegistryKept(s, step);
    StopsKept(s, step);
  }

  ghost predicate IsRun(states: seq<System>, steps: seq<Step>) {
    && |states| == |steps| + 1
    && states[0] == System(NO_COMMANDS, [])
    && forall n :: 0 <= n < |steps| ==> Enabled(states[n], steps[n]) && states[n + 1] == Apply(states[n], steps[n])
  }

  lemma {:induction false} RunKeepsInv(states: seq<System>, steps: seq<Step>, n: nat)
    requires IsRun(states, steps) && n < |states|
    ensures Inv(states[n])
  {
    if n > 0 {
      RunKeepsInv(states, steps, n - 1);
      InvKept(states[n - 1], steps[n - 1]);
    }
  }

  /** In every interleaving the three maps have the same ids, and an id has at most one tracked run. */
  lemma MapsAgree(states: seq<System>, steps: seq<Step>, n: nat)
    requires IsRun(states, steps) && n < |states|
    ensures var c := states[n].c;
            && c.cancels.Keys == c.contexts.Keys == c.done.Keys
            && forall q, r :: 0 <= q < r < |c.runs| && c.runs[q].stage.Tracked? && c.runs[r].stage.Tracked?
                 ==> c.runs[q].id != c.runs[r].id
  {
    RunKeepsInv(states, steps, n);
  }

  /** An id leaves the maps only through the cleanup of the run registered under it, that is, of the call of
      `track` that created the run; a nested call, and the cleanup it returned, change nothing. */
  lemma OnlyTheFirstTrackerRemoves(states: seq<System>, steps: seq<Step>, n: nat, id: string)
    requires IsRun(states, steps) && n < |steps|
    requires id in states[n].c.cancels
    ensures id !in states[n + 1].c.contexts <==> steps[n] == CleanupDelete(states[n].c.cancels[id])
    ensures steps[n] == Track(id) || steps[n] == NestedCleanup(id) ==> states[n + 1] == states[n]
    ensures Enabled(states[n], NestedCleanup(id)) && Apply(states[n], NestedCleanup(id)) == states[n]
  {
    RunKeepsInv(states, steps, n);
  }

  /** A stop that answered "stopped" cancelled a run of the id it was given. If it also answered "drained" after
      waiting on that run's own channel, that run's whole cleanup is done, even if the id has been tracked again
      since; an answer through no channel or another run's only says that the cleanup has deleted the run. */
  lemma DrainedStopMeansCleanedUp(states: seq<System>, steps: seq<Step>, n: nat, k: nat)
    requires IsRun(states, steps) && n < |states| && k < |states[n].stops|
    requires states[n].stops[k].Replied? && states[n].stops[k].stopped
    ensures states[n].stops[k].target.Some?
    ensures var r := states[n].stops[k].target.value;
            && r < |states[n].c.runs|
            && states[n].c.runs[r].id == states[n].stops[k].id
            && states[n].c.runs[r].cancelled
            && (states[n].stops[k].drained ==> !states[n].c.runs[r].stage.Tracked?)
            && (states[n].stops[k].drained && states[n].stops[k].done == Some(r) ==>
                  states[n].c.runs[r].stage.Drained?)
  {
    RunKeepsInv(states, steps, n);
    assert StopSound(states[n].c, states[n].stops[k]);
  }

  /** The stop waits on the channel of the run it has cancelled exactly when that run is still registered at the
      moment of the fetch. */
  lemma FetchesOwnChannelIff(states: seq<System>, steps: seq<Step>, n: nat, k: nat)
    requires IsRun(states, steps) && n < |steps| && steps[n] == StopFetch(k)
    ensures var r := states[n].stops[k].run;
            && r < |states[n].c.runs| && states[n + 1].stops[k].Joining?
            && (states[n + 1].stops[k].done == Some(r) <==> states[n].c.runs[r].stage.Tracked?)
  {
    RunKeepsInv(states, steps, n);
    assert StopSound(states[n].c, states[n].stops[k]);
  }

  /** Exactly when the answer "drained" can be given at once although the cancelled run is still unwinding: its
      cleanup is between the deletion and the close, and nobody has tracked the id again. */
  lemma AnswersAtOnceIff(states: seq<System>, steps: seq<Step>, n: nat, k: nat)
    requires IsRun(states, steps) && n < |steps| && steps[n] == StopFetch(k)
    ensures var r, c := states[n].stops[k].run, states[n].c;
            && r < |c.runs|
            && (Enabled(states[n + 1], StopAnswer(k, true)) && !c.runs[r].stage.Drained? <==>
                  (c.runs[r].stage.Deleted? || c.runs[r].stage.Unwound?) && states[n].stops[k].id !in c.done)
  {
    RunKeepsInv(states, steps, n);
    assert StopSound(states[n].c, states[n].stops[k]);
  }

  // ---------------------------------------------------------------- answers later on

  /** How a run goes on from some state. */
  ghost predicate IsPath(states: seq<System>, steps: seq<Step>) {
    && |states| == |steps| + 1
    && forall n :: 0 <= n < |steps| ==> Enabled(states[n], steps[n]) && states[n + 1] == Apply(states[n], steps[n])
  }

  /** From here on some way leads to stop k answering "drained" while run r has not closed its channel. */
  ghost predicate AnswersEarly(s: System, k: nat, r: nat) {
    exists states: seq<System>, steps: seq<Step> ::
      && IsPath(states, steps) && states[0] == s && steps != [] && steps[|steps| - 1] == StopAnswer(k, true)
      && r < |states[|steps|].c.runs| && !states[|steps|].c.runs[r].stage.Drained?
  }

  /** A joining stop goes on joining the same channel until it answers. */
  lemma {:induction false} JoinsTheSame(states: seq<System>, steps: seq<Step>, m: nat, k: nat)
    requires IsPath(states, steps) && m < |states| && k < |states[0].stops| && states[0].stops[k].Joining?
    ensures k < |states[m].stops| && (states[m].stops[k] == states[0].stops[k] || states[m].stops[k].Replied?)
    ensures Older(states[0].c, states[m].c)
  {
    if m > 0 {
      JoinsTheSame(states, steps, m - 1, k);
      RegistryAges(states[m - 1], steps[m - 1]);
    }
  }

  /** Joining the run's own channel, or with the run drained already, nothing can be answered too early. */
  lemma NeverEarly(s: System, k: nat, r: nat)
    requires k < |s.stops| && s.stops[k].Joining? && r < |s.c.runs|
    requires s.stops[k].done == Some(r) || s.c.runs[r].stage.Drained?
    ensures !AnswersEarly(s, k, r)
  {
    forall states: seq<System>, steps: seq<Step>
      | IsPath(states, steps) && states[0] == s && steps != [] && steps[|steps| - 1] == StopAnswer(k, true)
      ensures r < |states[|steps|].c.runs| && states[|steps|].c.runs[r].stage.Drained?
    {
      var m := |steps| - 1;
      JoinsTheSame(states, steps, m, k);
      RegistryAges(states[m], steps[m]);
    }
  }

  /** With no channel to wait for, the answer can come at once. */
  lemma EarlyWithoutChannel(s: System, k: nat, r: nat)
    requires k < |s.stops| && s.stops[k].Joining? && s.stops[k].done.None?
    requires r < |s.c.runs| && !s.c.runs[r].stage.Drained?
    ensures AnswersEarly(s, k, r)
  {
    var states, steps := [s, Apply(s, StopAnswer(k, true))], [StopAnswer(k, true)];
    assert IsPath(states, steps);
  }

  /** With another run's channel, it can come when that run's cleanup has gone through. */
  lemma EarlyThroughAnother(s: System, k: nat, r: nat, d: nat)
    requires k < |s.stops| && s.stops[k].Joining? && s.stops[k].done == Some(d)
    requires r < |s.c.runs| && !s.c.runs[r].stage.Drained? && d < |s.c.runs| && d != r && s.c.runs[d].stage.Tracked?
    ensures AnswersEarly(s, k, r)
  {
    var s1 := Apply(s, CleanupDelete(d));
    var s2 := Apply(s1, CleanupCancel(d));
    var s3 := Apply(s2, CleanupClose(d));
    var s4 := Apply(s3, StopAnswer(k, true));
    var states := [s, s1, s2, s3, s4];
    var steps := [CleanupDelete(d), CleanupCancel(d), CleanupClose(d), StopAnswer(k, true)];
    assert IsPath(states, steps);
  }

  /** Over all continuations of every run: after a fetch, the stop can still come to answer "drained" while the run it
      cancelled is not drained, if and only if at the fetch that run's cleanup is between the deletion and the close.
      Whether somebody has tracked the id again makes no difference. */
  lemma AnswersEarlyIff(states: seq<System>, steps: seq<Step>, n: nat, k: nat)
    requires IsRun(states, steps) && n < |steps| && steps[n] == StopFetch(k)
    ensures var r, c := states[n].stops[k].run, states[n].c;
            && r < |c.runs|
            && (AnswersEarly(states[n + 1], k, r) <==> c.runs[r].stage.Deleted? || c.runs[r].stage.Unwound?)
  {
    var r, c, s := states[n].stops[k].run, states[n].c, states[n + 1];
    RunKeepsInv(states, steps, n);
    assert StopSound(c, states[n].stops[k]);
    if c.runs[r].stage.Tracked? || c.runs[r].stage.Drained? {
      NeverEarly(s, k, r);
    } else if s.stops[k].done.None? {
      EarlyWithoutChannel(s, k, r);
    } else {
      EarlyThroughAnother(s, k, r, s.stops[k].done.value);
    }
  }

  ghost predicate Leads(s: System, step: Step, t: System) { Enabled(s, step) && Apply(s, step) == t }

  function Registered(cancelled: bool): Registry {
    Registry(map["job" := 0], map["job" := Context(0, false)], map["job" := 0], [Run("job", Tracked, cancelled)])
  }

  /** The registry between the deletion and the cancel call of the cleanup. */
  function HalfCleaned(): Registry { Registry(map[], map[], map[], [Run("job", Deleted, true)]) }

  lemma HalfwayToTheClose()
    ensures Leads(System(NO_COMMANDS, []), Track("job"), System(Registered(false), []))
    ensures Leads(System(Registered(false), []), StopLook("job"), System(Registered(false), [Looked("job", Some(0))]))
    ensures Leads(System(Registered(false), [Looked("job", Some(0))]), StopSignal(0),
                  System(Registered(true), [Signalled("job", 0)]))
  {
  }

  lemma AnswerBeforeTheClose()
    ensures Leads(System(Registered(true), [Signalled("job", 0)]), CleanupDelete(0),
                  System(HalfCleaned(), [Signalled("job", 0)]))
    ensures Leads(System(HalfCleaned(), [Signalled("job", 0)]), StopFetch(0),
                  System(HalfCleaned(), [Joining("job", 0, None)]))
    ensures Leads(System(HalfCleaned(), [Joining("job", 0, None)]), StopAnswer(0, true),
                  System(HalfCleaned(), [Replied("job", Some(0), None, true, true)]))
  {
    var c := Registered(true);
    assert c.cancels - {"job"} == map[] && c.contexts - {"job"} == map[] && c.done - {"job"} == map[];
  }

  /** It happens: a stop that fetches between the deletion and the close answers "stopped" and "drained" while the
      run's own cancel and close are still to come. */
  lemma DrainedBeforeTheClose()
    ensures exists states: seq<System>, steps: seq<Step> ::
              && IsRun(states, steps) && |steps| == 6
              && states[6].stops == [Replied("job", Some(0), None, true, true)]
              && states[6].c.runs == [Run("job", Deleted, true)]
  {
    var steps := [Track("job"), StopLook("job"), StopSignal(0), CleanupDelete(0), StopFetch(0), StopAnswer(0, true)];
    var states := [System(NO_COMMANDS, []), System(Registered(false), []),
                   System(Registered(false), [Looked("job", Some(0))]), System(Registered(true), [Signalled("job", 0)]),
                   System(HalfCleaned(), [Signalled("job", 0)]), System(HalfCleaned(), [Joining("job", 0, None)]),
                   System(HalfCleaned(), [Replied("job", Some(0), None, true, true)])];
    HalfwayToTheClose();
    AnswerBeforeTheClose();
    assert forall n :: 0 <= n < |steps| ==> Leads(states[n], steps[n], states[n + 1]);
    assert IsRun(states, steps);
  }

  /** The id tracked again, by run 1, while run 0 is between its deletion and its cancel call. */
  function TrackedAgain(): Registry {
    Registry(map["job" := 1], map["job" := Context(1, false)], map["job" := 1],
             [Run("job", Deleted, true), Run("job", Tracked, false)])
  }

  function SecondRun(stage: Stage, cancelled: bool): Registry {
    Registry(map[], map[], map[], [Run("job", Deleted, true), Run("job", stage, cancelled)])
  }

  /** Some run of n steps ends here. */
  ghost predicate Reaches(s: System, n: nat) {
    exists states: seq<System>, steps: seq<Step> :: IsRun(states, steps) && |steps| == n && states[n] == s
  }

  lemma Start()
    ensures Reaches(System(NO_COMMANDS, []), 0)
  {
    assert IsRun([System(NO_COMMANDS, [])], []);
  }

  lemma ReachesMore(s: System, n: nat, step: Step, t: System)
    requires Reaches(s, n) && Leads(s, step, t)
    ensures Reaches(t, n + 1)
  {
    var states: seq<System>, steps: seq<Step> :| IsRun(states, steps) && |steps| == n && states[n] == s;
    assert IsRun(states + [t], steps + [step]);
  }

  lemma AgainAndFetch()
    ensures Leads(System(HalfCleaned(), [Signalled("job", 0)]), Track("job"),
                  System(TrackedAgain(), [Signalled("job", 0)]))
    ensures Leads(System(TrackedAgain(), [Signalled("job", 0)]), StopFetch(0),
                  System(TrackedAgain(), [Joining("job", 0, Some(1))]))
  {
  }

  lemma SecondRunGoes()
    ensures Leads(System(TrackedAgain(), [Joining("job", 0, Some(1))]), CleanupDelete(1),
                  System(SecondRun(Deleted, false), [Joining("job", 0, Some(1))]))
    ensures Leads(System(SecondRun(Deleted, false), [Joining("job", 0, Some(1))]), CleanupCancel(1),
                  System(SecondRun(Unwound, true), [Joining("job", 0, Some(1))]))
    ensures Leads(System(SecondRun(Unwound, true), [Joining("job", 0, Some(1))]), CleanupClose(1),
                  System(SecondRun(Drained, true), [Joining("job", 0, Some(1))]))
    ensures Leads(System(SecondRun(Drained, true), [Joining("job", 0, Some(1))]), StopAnswer(0, true),
                  System(SecondRun(Drained, true), [Replied("job", Some(0), Some(1), true, true)]))
  {
    var c := TrackedAgain();
    assert c.cancels - {"job"} == map[] && c.contexts - {"job"} == map[] && c.done - {"job"} == map[];
  }

  lemma ReachesDeletion()
    ensures Reaches(System(HalfCleaned(), [Signalled("job", 0)]), 4)
  {
    Start();
    HalfwayToTheClose();
    ReachesMore(System(NO_COMMANDS, []), 0, Track("job"), System(Registered(false), []));
    ReachesMore(System(Registered(false), []), 1, StopLook("job"),
                System(Registered(false), [Looked("job", Some(0))]));
    ReachesMore(System(Registered(false), [Looked("job", Some(0))]), 2, StopSignal(0),
                System(Registered(true), [Signalled("job", 0)]));
    AnswerBeforeTheClose();
    ReachesMore(System(Registered(true), [Signalled("job", 0)]), 3, CleanupDelete(0),
                System(HalfCleaned(), [Signalled("job", 0)]));
  }

  lemma ReachesAnotherChannel()
    ensures Reaches(System(TrackedAgain(), [Joining("job", 0, Some(1))]), 6)
  {
    ReachesDeletion();
    AgainAndFetch();
    ReachesMore(System(HalfCleaned(), [Signalled("job", 0)]), 4, Track("job"),
                System(TrackedAgain(), [Signalled("job", 0)]));
    ReachesMore(System(TrackedAgain(), [Signalled("job", 0)]), 5, StopFetch(0),
                System(TrackedAgain(), [Joining("job", 0, Some(1))]));
  }

  lemma ReachesAnotherAnswer()
    ensures Reaches(System(SecondRun(Drained, true), [Replied("job", Some(0), Some(1), true, true)]), 10)
  {
    var waits := [Joining("job", 0, Some(1))];
    ReachesAnotherChannel();
    SecondRunGoes();
    ReachesMore(System(TrackedAgain(), waits), 6, CleanupDelete(1), System(SecondRun(Deleted, false), waits));
    ReachesMore(System(SecondRun(Deleted, false), waits), 7, CleanupCancel(1), System(SecondRun(Unwound, true), waits));
    ReachesMore(System(SecondRun(Unwound, true), waits), 8, CleanupClose(1), System(SecondRun(Drained, true), waits));
    ReachesMore(System(SecondRun(Drained, true), waits), 9, StopAnswer(0, true),
                System(SecondRun(Drained, true), [Replied("job", Some(0), Some(1), true, true)]));
  }

  /** And it happens through the channel of a later run of the same id: the stop that cancelled run 0 waits for
      run 1, and answers "drained" with run 0 where it was. */
  lemma DrainedThroughAnotherRun()
    ensures exists states: seq<System>, steps: seq<Step> ::
              && IsRun(states, steps) && |steps| == 10
              && states[10].stops == [Replied("job", Some(0), Some(1), true, true)]
              && states[10].c.runs == [Run("job", Deleted, true), Run("job", Drained, true)]
  {
    ReachesAnotherAnswer();
  }

  // ---------------------------------------------------------------- cancellation reaches the context

  /** The context handed out for an id is cancelled by the cancel function registered for it. */
  predicate Agrees(c: Registry, id: string) {
    id in c.contexts && id in c.cancels && c.contexts[id].run == c.cancels[id]
  }

  /** The run of the context last bound to the id since it was tracked, if it was rebound at all. */
  ghost function LastBound(states: seq<System>, steps: seq<Step>, n: nat, id: string): Option<nat>
    requires IsRun(states, steps) && n < |states|
  {
    if n == 0 || id !in states[n - 1].c.contexts then None
    else if steps[n - 1].Rebind? && steps[n - 1].id == id then Some(steps[n - 1].context.run)
    else LastBound(states, steps, n - 1, id)
  }

  /** What one step does to the context and the cancel function of an id that is tracked before and after. */
  lemma TrackedStep(s: System, step: Step, id: string)
    requires Inv(s) && Enabled(s, step) && id in s.c.contexts && id in Apply(s, step).c.contexts
    ensures id in s.c.cancels && id in Apply(s, step).c.cancels
    ensures Apply(s, step).c.cancels[id] == s.c.cancels[id]
    ensures Apply(s, step).c.contexts[id] ==
            if step.Rebind? && step.id == id then step.context else s.c.contexts[id]
  {
  }

  lemma NewlyTracked(s: System, step: Step, id: string)
    requires Inv(s) && Enabled(s, step) && id !in s.c.contexts && id in Apply(s, step).c.contexts
    ensures Agrees(Apply(s, step).c, id)
  {
  }

  /** Over every run: cancelling a tracked id reaches the context handed out for it if and only if the last rebind
      since it was tracked, if there was one, named a context of the tracked run. */
  lemma {:induction false} CancelReachesContextIff(states: seq<System>, steps: seq<Step>, n: nat, id: string)
    requires IsRun(states, steps) && n < |states| && id in states[n].c.contexts
    ensures id in states[n].c.cancels
    ensures Agrees(states[n].c, id) <==>
            LastBound(states, steps, n, id) in {None, Some(states[n].c.cancels[id])}
  {
    RunKeepsInv(states, steps, n - 1);
    if id in states[n - 1].c.contexts {
      CancelReachesContextIff(states, steps, n - 1, id);
      TrackedStep(states[n - 1], steps[n - 1], id);
    } else {
      NewlyTracked(states[n - 1], steps[n - 1], id);
    }
  }

  /** A stale rebind is what it excludes: the id is cleaned up, tracked again, and then rebound to a
      context of the finished run, so cancelling it no longer reaches the context it hands out. */
  lemma StaleRebindLosesCancellation()
    ensures exists states: seq<System>, steps: seq<Step>, n: nat, id: string ::
              IsRun(states, steps) && n < |states| && id in states[n].c.contexts && !Agrees(states[n].c, id)
  {
    var steps := [Track("job"), CleanupDelete(0), Track("job"), Rebind("job", Context(0, true))];
    var s0 := System(NO_COMMANDS, []);
    var s1 := Apply(s0, steps[0]);
    var s2 := Apply(s1, steps[1]);
    var s3 := Apply(s2, steps[2]);
    var s4 := Apply(s3, steps[3]);
    var states := [s0, s1, s2, s3, s4];
    assert IsRun(states, steps);
    assert s4.c.cancels["job"] == 1;
    assert states[4] == s4 && !Agrees(states[4].c, "job");
  }

  // ---------------------------------------------------------------- the queued handlers never rebind stale contexts

  /** A queued handler, from the ticket that tracked its command to the release of that ticket: it enters its run
      with a nested track, derives a guarded context from what it got, and rebinds the command to it. */
  datatype Handler =
    | Queued(run: nat)
    | Entered(run: nat, context: Context)
    | Rebound(run: nat)
    | Finished

  datatype Managed = Managed(s: System, handlers: seq<Handler>)

  /** `Other` is any step of the rest of the helper: it rebinds nothing and owns no handler's cleanup. */
  datatype Deed = Enqueue(id: string) | Enter(h: nat) | RebindOwn(h: nat) | ReleaseOwn(h: nat) | Other(step: Step)

  predicate Owned(m: Managed, r: nat) {
    exists h :: 0 <= h < |m.handlers| && !m.handlers[h].Finished? && m.handlers[h].run == r
  }

  predicate CanDo(m: Managed, d: Deed) {
    match d
    case Enqueue(id) => id !in m.s.c.contexts
    case Enter(h) =>
      && h < |m.handlers| && m.handlers[h].Queued? && m.handlers[h].run < |m.s.c.runs|
      && m.s.c.runs[m.handlers[h].run].id in m.s.c.contexts
    case RebindOwn(h) =>
      && h < |m.handlers| && m.handlers[h].Entered? && m.handlers[h].run < |m.s.c.runs|
      && m.handlers[h].context.run < |m.s.c.runs|
    case ReleaseOwn(h) =>
      h < |m.handlers| && !m.handlers[h].Finished? && Enabled(m.s, CleanupDelete(m.handlers[h].run))
    case Other(step) => Enabled(m.s, step) && !step.Rebind? && !(step.CleanupDelete? && Owned(m, step.r))
  }

  /** The registry step of a deed. */
  function StepOf(m: Managed, d: Deed): Step
    requires CanDo(m, d)
  {
    match d
    case Enqueue(id) => Track(id)
    case Enter(h) => Track(m.s.c.runs[m.handlers[h].run].id)
    case RebindOwn(h) => Rebind(m.s.c.runs[m.handlers[h].run].id, Context(m.handlers[h].context.run, true))
    case ReleaseOwn(h) => CleanupDelete(m.handlers[h].run)
    case Other(step) => step
  }

  function Handled(m: Managed, d: Deed): seq<Handler>
    requires CanDo(m, d)
  {
    match d
    case Enqueue(id) => m.handlers + [Queued(|m.s.c.runs|)]
    case Enter(h) =>
      var r := m.handlers[h].run;
      m.handlers[h := Entered(r, m.s.c.contexts[m.s.c.runs[r].id])]
    case RebindOwn(h) => m.handlers[h := Rebound(m.handlers[h].run)]
    case ReleaseOwn(h) => m.handlers[h := Finished]
    case Other(_) => m.handlers
  }

  function Done(m: Managed, d: Deed): Managed
    requires CanDo(m, d)
  {
    Managed(Apply(m.s, StepOf(m, d)), Handled(m, d))
  }

  ghost predicate HandlerSound(c: Registry, h: Handler) {
    h.Finished? || (&& h.run < |c.runs| && c.runs[h.run].stage.Tracked?
                    && (h.Entered? ==> h.context.run == h.run))
  }

  ghost predicate AllAgree(c: Registry) { forall id :: id in c.contexts ==> Agrees(c, id) }

  ghost predicate ManagedInv(m: Managed) {
    && Inv(m.s) && AllAgree(m.s.c)
    && (forall h :: 0 <= h < |m.handlers| ==> HandlerSound(m.s.c, m.handlers[h]))
    && forall g, h :: 0 <= g < h < |m.handlers| && !m.handlers[g].Finished? && !m.handlers[h].Finished? ==>
         m.handlers[g].run != m.handlers[h].run
  }

  /** A rebind by a handler names the run that is tracked under its command. */
  lemma OwnRebindDescends(m: Managed, h: nat)
    requires ManagedInv(m) && CanDo(m, RebindOwn(h))
    ensures var step := StepOf(m, RebindOwn(h));
            step.id in m.s.c.cancels && step.context.run == m.s.c.cancels[step.id]
  {
    assert HandlerSound(m.s.c, m.handlers[h]);
  }

  lemma AgreementKept(m: Managed, d: Deed)
    requires ManagedInv(m) && CanDo(m, d)
    ensures AllAgree(Done(m, d).s.c)
  {
    var step := StepOf(m, d);
    if d.RebindOwn? {
      OwnRebindDescends(m, d.h);
    }
    forall id | id in Apply(m.s, step).c.contexts
      ensures Agrees(Apply(m.s, step).c, id)
    {
      if id in m.s.c.contexts {
        assert Agrees(m.s.c, id);
        TrackedStep(m.s, step, id);
      } else {
        NewlyTracked(m.s, step, id);
      }
    }
  }

  /** Only the deletion of a run ends its being tracked. */
  lemma StaysTracked(s: System, step: Step, r: nat)
    requires Enabled(s, step) && r < |s.c.runs| && s.c.runs[r].stage.Tracked? && step != CleanupDelete(r)
    ensures r < |Apply(s, step).c.runs| && Apply(s, step).c.runs[r].stage.Tracked?
  {
  }

  lemma HandlerKept(m: Managed, d: Deed, h: nat)
    requires ManagedInv(m) && CanDo(m, d) && h < |Done(m, d).handlers|
    ensures HandlerSound(Done(m, d).s.c, Done(m, d).handlers[h])
  {
    if h < |m.handlers| && !Done(m, d).handlers[h].Finished? {
      var r := m.handlers[h].run;
      assert HandlerSound(m.s.c, m.handlers[h]);
      assert StepOf(m, d) != CleanupDelete(r);
      StaysTracked(m.s, StepOf(m, d), r);
      if d == Enter(h) {
        assert Agrees(m.s.c, m.s.c.runs[r].id);
      }
    }
  }

  lemma HandlersDiffer(m: Managed, d: Deed)
    requires ManagedInv(m) && CanDo(m, d)
    ensures var hs := Done(m, d).handlers;
            forall g, h :: 0 <= g < h < |hs| && !hs[g].Finished? && !hs[h].Finished? ==> hs[g].run != hs[h].run
  {
    assert forall h :: 0 <= h < |m.handlers| ==> HandlerSound(m.s.c, m.handlers[h]);
  }

  lemma ManagedKept(m: Managed, d: Deed)
    requires ManagedInv(m) && CanDo(m, d)
    ensures ManagedInv(Done(m, d))
  {
    InvKept(m.s, StepOf(m, d));
    AgreementKept(m, d);
    HandlersDiffer(m, d);
    forall h | 0 <= h < |Done(m, d).handlers| {
      HandlerKept(m, d, h);
    }
  }

  lemma QueuedIsTracked(m: Managed, id: string)
    requires ManagedInv(m) && CanDo(m, Enqueue(id))
    ensures var h, r, m1 := |m.handlers|, |m.s.c.runs|, Done(m, Enqueue(id));
            && m1.handlers == m.handlers + [Queued(r)] && CanDo(m1, Enter(h))
            && m1.s.c.runs == m.s.c.runs + [Run(id, Tracked, false)]
            && id in m1.s.c.contexts && m1.s.c.contexts[id] == Context(r, false) && id in m1.s.c.cancels
            && m1.s.c.cancels[id] == r
  {
  }

  lemma EnterIsNested(m: Managed, h: nat)
    requires CanDo(m, Enter(h))
    ensures var r := m.handlers[h].run;
            Done(m, Enter(h)) == m.(handlers := m.handlers[h := Entered(r, m.s.c.contexts[m.s.c.runs[r].id])])
  {
  }

  lemma RebindBinds(m: Managed, h: nat)
    requires CanDo(m, RebindOwn(h)) && m.s.c.runs[m.handlers[h].run].id in m.s.c.contexts
    ensures var r, c, m' := m.handlers[h].run, m.s.c, Done(m, RebindOwn(h));
            && m'.handlers == m.handlers[h := Rebound(r)]
            && m'.s.c == c.(contexts := c.contexts[c.runs[r].id := Context(m.handlers[h].context.run, true)])
  {
  }

  /** Until its ticket is released nobody else in the helper can delete a handler's run; the release frees the id. */
  lemma OnlyTheOwnerReleases(m: Managed, h: nat)
    requires ManagedInv(m) && h < |m.handlers| && !m.handlers[h].Finished?
    ensures var r := m.handlers[h].run;
            && r < |m.s.c.runs| && !CanDo(m, Other(CleanupDelete(r))) && CanDo(m, ReleaseOwn(h))
            && Done(m, ReleaseOwn(h)).handlers == m.handlers[h := Finished]
            && m.s.c.runs[r].id !in Done(m, ReleaseOwn(h)).s.c.contexts
  {
    assert HandlerSound(m.s.c, m.handlers[h]);
    assert Owned(m, m.handlers[h].run);
  }

  ghost predicate Guarded(m: Managed, h: nat, id: string, r: nat) {
    && h < |m.handlers| && m.handlers[h] == Rebound(r)
    && id in m.s.c.contexts && m.s.c.contexts[id] == Context(r, true)
    && id in m.s.c.cancels && m.s.c.cancels[id] == r
    && r < |m.s.c.runs| && m.s.c.runs[r] == Run(id, Tracked, false)
  }

  /** And the way through is open: whoever is queued under a free id can enter and rebind, and the command then hands
      out the guarded context of the run that was tracked for it, which cancelling the command reaches. */
  lemma HandlerGoesThrough(m: Managed, id: string)
    requires ManagedInv(m) && CanDo(m, Enqueue(id))
    ensures var h, m1 := |m.handlers|, Done(m, Enqueue(id));
            && CanDo(m1, Enter(h)) && CanDo(Done(m1, Enter(h)), RebindOwn(h))
            && Guarded(Done(Done(m1, Enter(h)), RebindOwn(h)), h, id, |m.s.c.runs|)
  {
    var h, m1 := |m.handlers|, Done(m, Enqueue(id));
    QueuedIsTracked(m, id);
    EnterIsNested(m1, h);
    RebindBinds(Done(m1, Enter(h)), h);
  }

  ghost predicate IsManagedRun(states: seq<Managed>, deeds: seq<Deed>) {
    && |states| == |deeds| + 1
    && states[0] == Managed(System(NO_COMMANDS, []), [])
    && forall n :: 0 <= n < |deeds| ==> CanDo(states[n], deeds[n]) && states[n + 1] == Done(states[n], deeds[n])
  }

  /** The rule that rebind asks of its callers is kept by the order of the handler itself: when only queued handlers
      rebind, every id can be cancelled through its context in every state of every run. */
  lemma {:induction false} QueuedCommandsStayCancellable(states: seq<Managed>, deeds: seq<Deed>, n: nat)
    requires IsManagedRun(states, deeds) && n < |states|
    ensures ManagedInv(states[n])
    ensures forall id :: id in states[n].s.c.contexts ==> Agrees(states[n].s.c, id)
  {
    if n > 0 {
      QueuedCommandsStayCancellable(states, deeds, n - 1);
      assert CanDo(states[n - 1], deeds[n - 1]);
      ManagedKept(states[n - 1], deeds[n - 1]);
    }
  }

  // ---------------------------------------------------------------- the registry object

  /** Calls each snapshotted cancel function once, in any order. */
  method CancelEach(runs: seq<Run>, snapshot: set<nat>) returns (out: seq<Run>)
    requires forall r :: r in snapshot ==> r < |runs|
    ensures |out| == |runs|
    ensures forall r :: 0 <= r < |runs| ==> out[r] == if r in snapshot then runs[r].(cancelled := true) else runs[r]
  {
    out := runs;
    var pending := snapshot;
    while pending != {}
      invariant pending <= snapshot && |out| == |runs|
      invariant forall r :: 0 <= r < |runs| ==>
                  out[r] == if r in snapshot && r !in pending then runs[r].(cancelled := true) else runs[r]
      decreases |pending|
    {
      var r :| r in pending;
      out := out[r := out[r].(cancelled := true)];
      pending := pending - {r};
    }
  }

  class ActiveCommandCanceller {
    var cancels: map<string, nat>
    var contexts: map<string, Context>
    var done: map<string, nat>
    var runs: seq<Run>

    ghost function State(): Registry
      reads this
    {
      Registry(cancels, contexts, done, runs)
    }

    constructor ()
      ensures State() == NO_COMMANDS && Consistent(State())
    {
      cancels, contexts, done, runs := map[], map[], map[], [];
    }

    /** `owned` is the run whose cleanup the caller got; a nested call gets a cleanup that does nothing. */
    method TrackCommand(id: string) returns (context: Context, owned: Option<nat>)
      requires Consistent(State())
      modifies this
      ensures Consistent(State()) && State() == Tracking(old(State()), id)
      ensures id in contexts && context == contexts[id]
      ensures owned == if id in old(contexts) then None else Some(cancels[id])
    {
      TrackingKept(State(), id);
      if id in contexts {
        return contexts[id], None;
      }
      var r := |runs|;
      contexts := contexts[id := Context(r, false)];
      cancels := cancels[id := r];
      done := done[id := r];
      runs := runs + [Run(id, Tracked, false)];
      return contexts[id], Some(r);
    }

    /** The whole cleanup: afterwards the id is free and the run is cancelled and drained. */
    method CleanUp(owned: Option<nat>)
      requires Consistent(State())
      requires owned.Some? ==> owned.value < |runs| && runs[owned.value].stage.Tracked?
      modifies this
      ensures Consistent(State())
      ensures owned.None? ==> State() == old(State())
      ensures owned.Some? ==>
                && runs == old(runs)[owned.value := Run(old(runs[owned.value].id), Drained, true)]
                && cancels == old(cancels) - {old(runs[owned.value].id)}
                && contexts == old(contexts) - {old(runs[owned.value].id)}
                && done == old(done) - {old(runs[owned.value].id)}
    {
      if owned.None? {
        return;
      }
      var r := owned.value;
      var id := runs[r].id;
      DeletingKept(State(), r);
      cancels, contexts, done := cancels - {id}, contexts - {id}, done - {id};
      runs := runs[r := runs[r].(stage := Deleted)];
      FlagsKept(State(), r, Run(id, Drained, true));
      runs := runs[r := Run(id, Drained, true)];
    }

    method RebindContext(id: string, context: Context)
      requires Consistent(State()) && context.run < |runs|
      modifies this`contexts
      ensures Consistent(State()) && State() == Rebinding(old(State()), id, context)
    {
      if id in contexts {
        contexts := contexts[id := context];
      }
    }

    method CancelCommand(id: string) returns (tracked: bool)
      requires Consistent(State())
      modifies this`runs
      ensures Consistent(State())
      ensures tracked <==> id in cancels
      ensures State() == if tracked then Cancelling(old(State()), cancels[id]) else old(State())
    {
      if id !in cancels {
        return false;
      }
      FlagsKept(State(), cancels[id], runs[cancels[id]].(cancelled := true));
      runs := runs[cancels[id] := runs[cancels[id]].(cancelled := true)];
      return true;
    }

    /** Snapshot the cancel functions, then call each: every tracked run is cancelled and no other changes. */
    method CancelAll() returns (any: bool)
      requires Consistent(State())
      modifies this`runs
      ensures Consistent(State())
      ensures any <==> cancels != map[]
      ensures |runs| == |old(runs)|
      ensures forall r :: 0 <= r < |runs| ==>
                runs[r] == if r in cancels.Values then old(runs)[r].(cancelled := true) else old(runs)[r]
    {
      if cancels == map[] {
        return false;
      }
      ghost var before := State();
      runs := CancelEach(runs, cancels.Values);
      any := true;
      CancelledOnlyKept(before, runs);
    }
  }
}
