/**
 The recovery console lock: any number of console processes compete for one path. A process writes its pid to a
 temporary file of its own and hard-links that file to the lock path; whoever finds the path taken reads it,
 removes it when the recorded process is not alive, and otherwise waits and polls.
 */
module RecoveryLock {
  import opened Options
  import opened Bytes

  type Pid = x: int | 0 <= x <= MAX_INT

  // ---------------------------------------------------------------- the contents of the lock file

  function PidLine(p: Pid): Text { Decimal(p) + [10] }

  predicate IsSpace(b: Byte) { 9 <= b <= 13 || b == 32 }

  predicate IsDigit(b: Byte) { 48 <= b < 58 }

  function TrimLeft(s: Text): Text { if s != [] && IsSpace(s[0]) then TrimLeft(s[1..]) else s }

  function TrimRight(s: Text): Text {
    if s != [] && IsSpace(s[|s| - 1]) then TrimRight(s[..|s| - 1]) else s
  }

  predicate Digits(s: Text) { forall i :: 0 <= i < |s| ==> IsDigit(s[i]) }

  function Value(digits: Text): nat
    requires Digits(digits)
  {
    if digits == [] then 0
    else
      assert IsDigit(digits[|digits| - 1]);
      10 * Value(digits[..|digits| - 1]) + (digits[|digits| - 1] as int - 48)
  }

  /** strconv.Atoi: an optional sign and at least one digit, within 64 bits. */
  function Atoi(s: Text): Option<int> {
    var signed := s != [] && (s[0] == 43 || s[0] == 45);
    var digits := if signed then s[1..] else s;
    if digits == [] || !Digits(digits) then None
    else
      var n: int := if signed && s[0] == 45 then 0 - Value(digits) else Value(digits);
      if -MAX_INT - 1 <= n <= MAX_INT then Some(n) else None
  }

  /** readRecoveryConsoleLockHolder on a file with this content. */
  function ParseHolder(content: Text): Option<int> { Atoi(TrimRight(TrimLeft(content))) }

  lemma {:induction false} ValueOfDecimal(n: nat)
    requires Digits(Decimal(n))
    ensures Value(Decimal(n)) == n
  {
    var d := Decimal(n);
    if n < 10 {
      assert d[..0] == [];
    } else {
      DecimalDigits(n / 10);
      assert d[..|d| - 1] == Decimal(n / 10);
      ValueOfDecimal(n / 10);
    }
  }

  /** A complete lock file names the process that wrote it. */
  lemma ParsesBack(p: Pid)
    ensures ParseHolder(PidLine(p)) == Some(p) && PidLine(p)[|PidLine(p)| - 1] == 10
  {
    var d := Decimal(p);
    DecimalDigits(p);
    assert IsDigit(d[0]) && IsDigit(d[|d| - 1]);
    assert TrimLeft(PidLine(p)) == PidLine(p);
    assert PidLine(p)[..|d|] == d;
    assert TrimRight(PidLine(p)) == TrimRight(d) == d;
    ValueOfDecimal(p);
  }

  predicate AllSpace(s: Text) { forall i :: 0 <= i < |s| ==> s[i] in {9, 10, 11, 12, 13, 32} }

  predicate AllDigits(s: Text) { forall i :: 0 <= i < |s| ==> 48 <= s[i] <= 57 }

  /** A number within 64 bits, signed or not. */
  ghost predicate Denotes(sign: Text, digits: Text, n: int) {
    && sign in {[], [43], [45]} && digits != [] && AllDigits(digits)
    && n == (if sign == [45] then 0 - Value(digits) else Value(digits) + 0)
    && -0x8000_0000_0000_0000 <= n <= 0x7FFF_FFFF_FFFF_FFFF
  }

  /** The number n between any amount of white space. */
  ghost predicate Spells(content: Text, n: int) {
    exists a: Text, sign: Text, digits: Text, b: Text ::
      content == a + (sign + digits) + b && AllSpace(a) && AllSpace(b) && Denotes(sign, digits, n)
  }

  lemma {:induction false} TrimsLeft(a: Text, t: Text)
    requires AllSpace(a) && (t == [] || !IsSpace(t[0]))
    ensures TrimLeft(a + t) == t
    decreases |a|
  {
    if a == [] {
      assert a + t == t;
    } else {
      assert (a + t)[1..] == a[1..] + t;
      TrimsLeft(a[1..], t);
    }
  }

  lemma {:induction false} TrimsRight(t: Text, b: Text)
    requires AllSpace(b) && (t == [] || !IsSpace(t[|t| - 1]))
    ensures TrimRight(t + b) == t
    decreases |b|
  {
    if b == [] {
      assert t + b == t;
    } else {
      assert (t + b)[..|t + b| - 1] == t + b[..|b| - 1];
      TrimsRight(t, b[..|b| - 1]);
    }
  }

  lemma {:induction false} TrimmedLeft(s: Text) returns (a: Text)
    ensures s == a + TrimLeft(s) && AllSpace(a) && (TrimLeft(s) == [] || !IsSpace(TrimLeft(s)[0]))
    decreases |s|
  {
    if s != [] && IsSpace(s[0]) {
      a := TrimmedLeft(s[1..]);
      a := [s[0]] + a;
      assert s == [s[0]] + s[1..];
    } else {
      a := [];
    }
  }

  lemma {:induction false} TrimmedRight(s: Text) returns (b: Text)
    ensures s == TrimRight(s) + b && AllSpace(b)
    decreases |s|
  {
    if s != [] && IsSpace(s[|s| - 1]) {
      var init := s[..|s| - 1];
      b := TrimmedRight(init);
      b := b + [s[|s| - 1]];
      assert s == init + [s[|s| - 1]];
    } else {
      b := [];
    }
  }

  lemma NumberIsRead(sign: Text, digits: Text, n: int)
    requires Denotes(sign, digits, n)
    ensures Atoi(sign + digits) == Some(n)
    ensures !IsSpace((sign + digits)[0]) && !IsSpace((sign + digits)[|sign + digits| - 1])
  {
    var t := sign + digits;
    assert forall i :: 0 <= i < |digits| ==> IsDigit(digits[i]);
    assert digits[0] in digits && digits[|digits| - 1] in digits;
    if sign == [] {
      assert t == digits;
    } else {
      assert t[1..] == digits;
    }
  }

  lemma TrimmedAround(a: Text, t: Text, b: Text)
    requires AllSpace(a) && AllSpace(b) && t != [] && !IsSpace(t[0]) && !IsSpace(t[|t| - 1])
    ensures TrimRight(TrimLeft(a + t + b)) == t
  {
    assert a + t + b == a + (t + b) && (t + b)[0] == t[0];
    TrimsLeft(a, t + b);
    TrimsRight(t, b);
  }

  lemma SpelledIsRead(content: Text, n: int)
    requires Spells(content, n)
    ensures ParseHolder(content) == Some(n)
  {
    var a: Text, sign: Text, digits: Text, b: Text :|
      content == a + (sign + digits) + b && AllSpace(a) && AllSpace(b) && Denotes(sign, digits, n);
    NumberIsRead(sign, digits, n);
    TrimmedAround(a, sign + digits, b);
  }

  lemma ReadDenotes(t: Text, n: int) returns (sign: Text, digits: Text)
    requires Atoi(t) == Some(n)
    ensures t == sign + digits && Denotes(sign, digits, n)
  {
    if t[0] == 43 || t[0] == 45 {
      sign, digits := [t[0]], t[1..];
    } else {
      sign, digits := [], t;
    }
    assert t == sign + digits;
  }

  lemma ReadIsSpelled(content: Text, n: int)
    requires ParseHolder(content) == Some(n)
    ensures Spells(content, n)
  {
    var a := TrimmedLeft(content);
    var b := TrimmedRight(TrimLeft(content));
    var sign, digits := ReadDenotes(TrimRight(TrimLeft(content)), n);
    assert content == a + (sign + digits) + b;
  }

  /** Exactly what counts as a holder: a decimal number within 64 bits, signed or not, in any amount of white space. An
      empty or unfinished file, or anything else, names nobody. */
  lemma HolderIff(content: Text, n: int)
    ensures ParseHolder(content) == Some(n) <==> Spells(content, n)
  {
    if ParseHolder(content) == Some(n) {
      ReadIsSpelled(content, n);
    }
    if Spells(content, n) {
      SpelledIsRead(content, n);
    }
  }

  lemma PidLineInjective(p: Pid, q: Pid)
    requires PidLine(p) == PidLine(q)
    ensures p == q
  {
    ParsesBack(p);
    ParsesBack(q);
  }

  // ---------------------------------------------------------------- processes and steps

  /** Where a process stands in acquireRecoveryConsoleLock; `again` marks the retry after a reclaim. */
  datatype Phase =
    | Starting(again: bool)
    | Writing(temp: Text, again: bool)
    | Reading
    | Checking(holder: Option<int>)
    | Removing
    | Sleeping
    | Holding
    | Stopped
    | Dead

  datatype System = System(lock: Option<Text>, procs: map<Pid, Phase>)

  datatype Step =
    | Spawn(pid: Pid)
    | CreateTemp(pid: Pid)
    | WriteTemp(pid: Pid, count: nat)
    | Link(pid: Pid)
    | GiveUp(pid: Pid)
    | Read(pid: Pid)
    | Check(pid: Pid)
    | Remove(pid: Pid)
    | Wake(pid: Pid)
    | Cancel(pid: Pid)
    | Release(pid: Pid)
    | Die(pid: Pid)

  function Start(): System { System(None, map[]) }

  predicate Alive(s: System, holder: int) { 0 <= holder <= MAX_INT && holder in s.procs && !s.procs[holder].Dead? }

  /** The pid of a dead process may be given out again. */
  predicate Enabled(s: System, step: Step) {
    if step.Spawn? then step.pid !in s.procs || s.procs[step.pid].Dead?
    else step.pid in s.procs && CanDo(s.procs[step.pid], step)
  }

  predicate CanDo(p: Phase, step: Step) {
    match step
    case Spawn(_) => false
    case CreateTemp(_) => p.Starting?
    case WriteTemp(pid, count) => p.Writing? && |p.temp| + count <= |PidLine(pid)|
    case Link(pid) => p.Writing? && p.temp == PidLine(pid)
    case GiveUp(_) => p.Starting? || p.Writing?
    case Read(_) => p.Reading?
    case Check(_) => p.Checking?
    case Remove(_) => p.Removing?
    case Wake(_) => p.Sleeping?
    case Cancel(_) => p.Sleeping?
    case Release(_) => p.Holding?
    case Die(_) => !p.Dead?
  }

  /** The path a process takes after a step; `lock` is what it sees at the lock path. */
  function NextPhase(s: System, p: Phase, step: Step): Phase
    requires !step.Spawn? && CanDo(p, step)
  {
    match step
    case CreateTemp(_) => Writing([], p.again)
    case WriteTemp(pid, count) => Writing(PidLine(pid)[..|p.temp| + count], p.again)
    case Link(_) => if s.lock == None then Holding else if p.again then Sleeping else Reading
    case GiveUp(_) => if p.again then Sleeping else Stopped
    case Read(_) => Checking(if s.lock == None then None else ParseHolder(s.lock.value))
    case Check(_) => if p.holder == None || !Alive(s, p.holder.value) then Removing else Sleeping
    case Remove(_) => Starting(true)
    case Wake(_) => Starting(false)
    case Cancel(_) => Stopped
    case Release(_) => Stopped
    case Die(_) => Dead
  }

  function NextLock(s: System, p: Phase, step: Step): Option<Text>
    requires !step.Spawn? && CanDo(p, step)
  {
    match step
    case Link(_) => if s.lock == None then Some(p.temp) else s.lock
    case Remove(_) => None
    case Release(_) => None
    case _ => s.lock
  }

  function Apply(s: System, step: Step): System
    requires Enabled(s, step)
  {
    if step.Spawn? then s.(procs := s.procs[step.pid := Starting(false)])
    else
      var p := s.procs[step.pid];
      System(NextLock(s, p, step), s.procs[step.pid := NextPhase(s, p, step)])
  }

  ghost predicate IsRun(states: seq<System>, steps: seq<Step>) {
    && |states| == |steps| + 1
    && states[0] == Start()
    && forall n :: 0 <= n < |steps| ==> Enabled(states[n], steps[n]) && states[n + 1] == Apply(states[n], steps[n])
  }

  predicate Holds(s: System, p: Pid) { p in s.procs && s.procs[p].Holding? }

  // ---------------------------------------------------------------- before the first release or holder death

  /** A step that neither releases the lock nor kills its holder. Other processes may die. */
  predicate Quiet(s: System, step: Step) { !step.Release? && !(step.Die? && Holds(s, step.pid)) }

  /** Only a process that has found the lock taken is past its first link. */
  predicate First(p: Phase) {
    p == Starting(false) || (p.Writing? && !p.again) || p.Holding? || p.Stopped? || p.Dead?
  }

  ghost predicate Inv(s: System) {
    && (s.lock == None ==> forall p :: p in s.procs ==> First(s.procs[p]) && !s.procs[p].Holding?)
    && (s.lock.Some? ==> exists h :: Holds(s, h) && IsLockOf(s, h))
  }

  /** h is the only holder, the lock file names it, and nobody is about to reclaim the lock. */
  ghost predicate IsLockOf(s: System, h: Pid) {
    && s.lock == Some(PidLine(h))
    && (forall p :: Holds(s, p) ==> p == h)
    && forall p :: p in s.procs ==>
         && !s.procs[p].Removing?
         && (s.procs[p].Checking? ==> s.procs[p].holder == Some(h))
         && ((s.procs[p].Starting? || s.procs[p].Writing?) ==> !s.procs[p].again)
  }

  lemma LockOfKept(s: System, step: Step, h: Pid)
    requires Holds(s, h) && IsLockOf(s, h) && Enabled(s, step) && Quiet(s, step)
    ensures Holds(Apply(s, step), h) && IsLockOf(Apply(s, step), h)
  {
    ParsesBack(h);
    assert forall p :: Holds(Apply(s, step), p) ==> Holds(s, p);
  }

  lemma InvKept(s: System, step: Step)
    requires Inv(s) && Enabled(s, step) && Quiet(s, step)
    ensures Inv(Apply(s, step))
  {
    var s' := Apply(s, step);
    if s.lock.Some? {
      var h :| Holds(s, h) && IsLockOf(s, h);
      LockOfKept(s, step, h);
    } else if step.Link? {
      assert Holds(s', step.pid) && IsLockOf(s', step.pid);
    }
  }

  lemma {:induction false} QuietRunKeepsInv(states: seq<System>, steps: seq<Step>, n: nat)
    requires IsRun(states, steps) && n <= |steps|
    requires forall i :: 0 <= i < n ==> Quiet(states[i], steps[i])
    ensures Inv(states[n])
  {
    if n > 0 {
      QuietRunKeepsInv(states, steps, n - 1);
      assert Enabled(states[n - 1], steps[n - 1]);
      InvKept(states[n - 1], steps[n - 1]);
    }
  }

  /** Until the first release or death of a holder: at most one process is past acquisition, no process reclaims
      the lock, and whoever looks at the lock path reads the complete pid of a live holder. */
  lemma ExclusiveBeforeFirstEnd(states: seq<System>, steps: seq<Step>, n: nat, p: Pid, q: Pid)
    requires IsRun(states, steps) && n <= |steps|
    requires forall i :: 0 <= i < n ==> Quiet(states[i], steps[i])
    ensures Holds(states[n], p) && Holds(states[n], q) ==> p == q
    ensures !Enabled(states[n], Remove(p))
    ensures states[n].lock.Some? ==>
              exists h :: ParseHolder(states[n].lock.value) == Some(h) && Alive(states[n], h) && Holds(states[n], h)
  {
    QuietRunKeepsInv(states, steps, n);
    var s := states[n];
    if s.lock.Some? {
      var h: Pid :| Holds(s, h) && IsLockOf(s, h);
      ParsesBack(h);
      assert ParseHolder(s.lock.value) == Some(h) && Alive(s, h) && Holds(s, h);
    }
  }

  // ---------------------------------------------------------------- afterwards: exactly what breaks the lock

  /** The lock names every process that is past acquisition, so there is at most one. */
  ghost predicate Guarded(s: System) { forall p :: Holds(s, p) ==> s.lock == Some(PidLine(p)) }

  lemma GuardedIsExclusive(s: System, p: Pid, q: Pid)
    requires Guarded(s) && Holds(s, p) && Holds(s, q)
    ensures p == q
  {
    PidLineInjective(p, q);
  }

  /** In any guarded state, also after releases and deaths, the one step that ends the guard is a reclaim that
      removes the lock of a process that holds it. */
  lemma GuardEndsIff(s: System, step: Step)
    requires Guarded(s) && Enabled(s, step)
    ensures Guarded(Apply(s, step)) <==> !(step.Remove? && exists p :: Holds(s, p))
  {
    var s' := Apply(s, step);
    if step.Remove? {
      assert forall p :: Holds(s', p) ==> Holds(s, p);
      if h :| Holds(s, h) {
        assert Holds(s', h) && s'.lock == None;
      }
    } else if step.Release? {
      forall p
        ensures !Holds(s', p)
      {
        if Holds(s, p) {
          GuardedIsExclusive(s, p, step.pid);
        }
      }
    }
  }

  /** So exclusion holds through every run, however long and whoever dies or releases, in which no reclaim hits a
      held lock. */
  lemma {:induction false} ExclusiveWhileNoReclaimHits(states: seq<System>, steps: seq<Step>, n: nat)
    requires IsRun(states, steps) && n <= |steps|
    requires forall i :: 0 <= i < n && steps[i].Remove? ==> !exists p :: Holds(states[i], p)
    ensures Guarded(states[n])
    ensures forall p, q :: Holds(states[n], p) && Holds(states[n], q) ==> p == q
  {
    if n > 0 {
      ExclusiveWhileNoReclaimHits(states, steps, n - 1);
      assert Enabled(states[n - 1], steps[n - 1]);
      GuardEndsIff(states[n - 1], steps[n - 1]);
    }
    forall p, q | Holds(states[n], p) && Holds(states[n], q)
      ensures p == q
    {
      GuardedIsExclusive(states[n], p, q);
    }
  }

  // ---------------------------------------------------------------- a dead holder's lock is reclaimed, even twice

  ghost predicate Possible(s: System, steps: seq<Step>)
    decreases |steps|
  {
    steps == [] || (Enabled(s, steps[0]) && Possible(Apply(s, steps[0]), steps[1..]))
  }

  ghost function After(s: System, steps: seq<Step>): System
    requires Possible(s, steps)
    decreases |steps|
  {
    if steps == [] then s else After(Apply(s, steps[0]), steps[1..])
  }

  ghost predicate Leads(s: System, steps: seq<Step>, s': System) { Possible(s, steps) && After(s, steps) == s' }

  lemma {:induction false} LeadsOn(s: System, a: seq<Step>, s': System, b: seq<Step>, s'': System)
    requires Leads(s, a, s') && Leads(s', b, s'')
    ensures Leads(s, a + b, s'')
    decreases |a|
  {
    if a == [] {
      assert a + b == b;
    } else {
      assert (a + b)[1..] == a[1..] + b;
      LeadsOn(Apply(s, a[0]), a[1..], s', b, s'');
    }
  }

  lemma OneStep(s: System, step: Step)
    requires Enabled(s, step)
    ensures Leads(s, [step], Apply(s, step))
  {
    assert [step][1..] == [];
    assert Possible(Apply(s, step), []);
  }

  /** tryCreateRecoveryConsoleLock without interruption. */
  function Attempt(p: Pid): seq<Step> { [CreateTemp(p)] + [WriteTemp(p, |PidLine(p)|)] + [Link(p)] }

  lemma AttemptLeads(s: System, p: Pid)
    requires p in s.procs && s.procs[p].Starting?
    ensures var again := s.procs[p].again;
            Leads(s, Attempt(p),
                  if s.lock == None then System(Some(PidLine(p)), s.procs[p := Holding])
                  else System(s.lock, s.procs[p := if again then Sleeping else Reading]))
  {
    var s1 := Apply(s, CreateTemp(p));
    var s2 := Apply(s1, WriteTemp(p, |PidLine(p)|));
    var s3 := Apply(s2, Link(p));
    assert PidLine(p)[..|PidLine(p)|] == PidLine(p);
    OneStep(s, CreateTemp(p));
    OneStep(s1, WriteTemp(p, |PidLine(p)|));
    OneStep(s2, Link(p));
    LeadsOn(s, [CreateTemp(p)], s1, [WriteTemp(p, |PidLine(p)|)], s2);
    LeadsOn(s, [CreateTemp(p)] + [WriteTemp(p, |PidLine(p)|)], s2, [Link(p)], s3);
    assert s3.procs == s.procs[p := s3.procs[p]];
  }

  /** The lock file names no live process. */
  predicate StaleLock(s: System) {
    s.lock.Some? && (ParseHolder(s.lock.value) == None || !Alive(s, ParseHolder(s.lock.value).value))
  }

  function Inspect(p: Pid): seq<Step> { Attempt(p) + [Read(p)] + [Check(p)] }

  function Reclaim(p: Pid): seq<Step> { [Remove(p)] + Attempt(p) }

  lemma InspectLeads(s: System, p: Pid)
    requires p in s.procs && s.procs[p] == Starting(false) && StaleLock(s)
    ensures Leads(s, Inspect(p), s.(procs := s.procs[p := Removing]))
  {
    var s1 := System(s.lock, s.procs[p := Reading]);
    var s2 := Apply(s1, Read(p));
    AttemptLeads(s, p);
    OneStep(s1, Read(p));
    OneStep(s2, Check(p));
    LeadsOn(s, Attempt(p), s1, [Read(p)], s2);
    LeadsOn(s, Attempt(p) + [Read(p)], s2, [Check(p)], Apply(s2, Check(p)));
    assert Apply(s2, Check(p)).procs == s.procs[p := Removing];
  }

  lemma ReclaimLeads(s: System, p: Pid)
    requires p in s.procs && s.procs[p].Removing?
    ensures Leads(s, Reclaim(p), System(Some(PidLine(p)), s.procs[p := Holding]))
  {
    var s1 := Apply(s, Remove(p));
    OneStep(s, Remove(p));
    AttemptLeads(s1, p);
    LeadsOn(s, [Remove(p)], s1, Attempt(p), System(Some(PidLine(p)), s1.procs[p := Holding]));
    assert s1.procs[p := Holding] == s.procs[p := Holding];
  }

  /** What reclaiming is for: a restarted console gets past a lock whose holder died, on its own. */
  lemma StaleLockIsReclaimed(s: System, p: Pid)
    requires p in s.procs && s.procs[p] == Starting(false) && StaleLock(s)
    ensures Leads(s, Inspect(p) + Reclaim(p), System(Some(PidLine(p)), s.procs[p := Holding]))
  {
    var s1 := s.(procs := s.procs[p := Removing]);
    InspectLeads(s, p);
    ReclaimLeads(s1, p);
    assert s1.procs[p := Holding] == s.procs[p := Holding];
    LeadsOn(s, Inspect(p), s1, Reclaim(p), System(Some(PidLine(p)), s1.procs[p := Holding]));
  }

  /** A live holder is left alone: whoever finds its lock sleeps, and tries from the start after waking up. */
  lemma LiveHolderIsLeftAlone(s: System, h: Pid, p: Pid)
    requires p in s.procs && s.procs[p] == Starting(false) && s.lock == Some(PidLine(h)) && Alive(s, h) && h != p
    ensures Leads(s, Inspect(p), s.(procs := s.procs[p := Sleeping]))
    ensures Leads(s, Inspect(p) + [Wake(p)], s)
    ensures Leads(s, Inspect(p) + [Cancel(p)], s.(procs := s.procs[p := Stopped]))
  {
    var s1 := System(s.lock, s.procs[p := Reading]);
    var s2 := Apply(s1, Read(p));
    var s3 := Apply(s2, Check(p));
    ParsesBack(h);
    AttemptLeads(s, p);
    OneStep(s1, Read(p));
    OneStep(s2, Check(p));
    LeadsOn(s, Attempt(p), s1, [Read(p)], s2);
    LeadsOn(s, Attempt(p) + [Read(p)], s2, [Check(p)], s3);
    assert s3.procs == s.procs[p := Sleeping];
    OneStep(s3, Wake(p));
    OneStep(s3, Cancel(p));
    LeadsOn(s, Inspect(p), s3, [Wake(p)], Apply(s3, Wake(p)));
    LeadsOn(s, Inspect(p), s3, [Cancel(p)], Apply(s3, Cancel(p)));
    assert Apply(s3, Wake(p)).procs == s.procs && Apply(s3, Cancel(p)).procs == s.procs[p := Stopped];
  }

  /** Whoever removes a lock and then finds that another console was quicker sleeps, without looking at the new lock. */
  lemma LosesTheRace(s: System, p: Pid, q: Pid)
    requires p != q && p in s.procs && q in s.procs && s.procs[p].Removing? && s.procs[q] == Starting(false)
    ensures Leads(s, [Remove(p)] + Attempt(q) + Attempt(p),
                  System(Some(PidLine(q)), s.procs[q := Holding][p := Sleeping]))
  {
    var s1 := Apply(s, Remove(p));
    var s2 := System(Some(PidLine(q)), s1.procs[q := Holding]);
    var s3 := System(Some(PidLine(q)), s2.procs[p := Sleeping]);
    OneStep(s, Remove(p));
    AttemptLeads(s1, q);
    AttemptLeads(s2, p);
    LeadsOn(s, [Remove(p)], s1, Attempt(q), s2);
    LeadsOn(s, [Remove(p)] + Attempt(q), s2, Attempt(p), s3);
    assert s3.procs == s.procs[q := Holding][p := Sleeping];
  }

  /** A create that fails for another reason than the path being taken ends the first attempt with an error, and sends
      the retry after a reclaim to sleep; it can fail at any point, and never touches the lock. */
  lemma FailedCreate(s: System, p: Pid)
    requires p in s.procs && (s.procs[p].Starting? || s.procs[p].Writing?)
    ensures Enabled(s, GiveUp(p))
    ensures Apply(s, GiveUp(p)) == s.(procs := s.procs[p := if s.procs[p].again then Sleeping else Stopped])
  {
  }

  /** What it costs: from every stale lock, two contenders that both inspect it before either reclaims it both
      end up past acquisition. */
  lemma TwoReclaimersBothHold(s: System, p: Pid, q: Pid)
    requires p != q && p in s.procs && q in s.procs && StaleLock(s)
    requires s.procs[p] == Starting(false) && s.procs[q] == Starting(false)
    ensures var both := System(Some(PidLine(q)), s.procs[p := Holding][q := Holding]);
            Leads(s, Inspect(p) + Inspect(q) + Reclaim(p) + Reclaim(q), both) && Holds(both, p) && Holds(both, q)
  {
    var s1 := s.(procs := s.procs[p := Removing]);
    var s2 := s1.(procs := s1.procs[q := Removing]);
    var s3 := System(Some(PidLine(p)), s2.procs[p := Holding]);
    var s4 := System(Some(PidLine(q)), s3.procs[q := Holding]);
    InspectLeads(s, p);
    InspectLeads(s1, q);
    ReclaimLeads(s2, p);
    ReclaimLeads(s3, q);
    LeadsOn(s, Inspect(p), s1, Inspect(q), s2);
    LeadsOn(s, Inspect(p) + Inspect(q), s2, Reclaim(p), s3);
    LeadsOn(s, Inspect(p) + Inspect(q) + Reclaim(p), s3, Reclaim(q), s4);
    assert s4.procs == s.procs[p := Holding][q := Holding];
  }

  /** Nobody need die for it: q finds the path taken by a live holder h, h releases, p acquires, and q, reading a path
      that was free by then and naming nobody, removes the lock of p and links its own. */
  lemma ReleaseAloneLetsTwoHold(s: System, h: Pid, p: Pid, q: Pid)
    requires h != p && h != q && p != q && {h, p, q} <= s.procs.Keys && Holds(s, h) && s.lock == Some(PidLine(h))
    requires s.procs[p] == Starting(false) && s.procs[q] == Starting(false)
    ensures var both := System(Some(PidLine(q)), s.procs[h := Stopped][p := Holding][q := Holding]);
            && Leads(s, Attempt(q) + [Release(h)] + [Read(q)] + [Check(q)] + Attempt(p) + Reclaim(q), both)
            && Holds(both, p) && Holds(both, q)
  {
    var s1 := System(s.lock, s.procs[q := Reading]);
    var s2 := System(None, s1.procs[h := Stopped]);
    var s3 := s2.(procs := s2.procs[q := Checking(None)]);
    var s4 := s2.(procs := s3.procs[q := Removing]);
    var s5 := System(Some(PidLine(p)), s4.procs[p := Holding]);
    var s6 := System(Some(PidLine(q)), s5.procs[q := Holding]);
    AttemptLeads(s, q);
    OneStep(s1, Release(h));
    OneStep(s2, Read(q));
    OneStep(s3, Check(q));
    AttemptLeads(s4, p);
    ReclaimLeads(s5, q);
    LeadsOn(s, Attempt(q), s1, [Release(h)], s2);
    LeadsOn(s, Attempt(q) + [Release(h)], s2, [Read(q)], s3);
    LeadsOn(s, Attempt(q) + [Release(h)] + [Read(q)], s3, [Check(q)], s4);
    LeadsOn(s, Attempt(q) + [Release(h)] + [Read(q)] + [Check(q)], s4, Attempt(p), s5);
    LeadsOn(s, Attempt(q) + [Release(h)] + [Read(q)] + [Check(q)] + Attempt(p), s5, Reclaim(q), s6);
    assert s6.procs == s.procs[h := Stopped][p := Holding][q := Holding];
  }

  lemma FirstConsoleHolds()
    ensures Leads(Start(), [Spawn(1)] + Attempt(1), System(Some(PidLine(1)), map[1 := Holding]))
  {
    var s1 := Apply(Start(), Spawn(1));
    OneStep(Start(), Spawn(1));
    AttemptLeads(s1, 1);
    assert s1.procs[1 := Holding] == map[1 := Holding];
    LeadsOn(Start(), [Spawn(1)], s1, Attempt(1), System(Some(PidLine(1)), map[1 := Holding]));
  }

  /** A stale lock is reached by one console that acquires and dies. */
  lemma DeadHolderLeavesStaleLock()
    ensures var s := System(Some(PidLine(1)), map[1 := Dead, 2 := Starting(false), 3 := Starting(false)]);
            StaleLock(s) && Leads(Start(), [Spawn(1)] + Attempt(1) + [Die(1)] + [Spawn(2)] + [Spawn(3)], s)
  {
    var s2 := System(Some(PidLine(1)), map[1 := Holding]);
    var s3, s4 := s2.(procs := map[1 := Dead]), s2.(procs := map[1 := Dead, 2 := Starting(false)]);
    var s5 := System(Some(PidLine(1)), map[1 := Dead, 2 := Starting(false), 3 := Starting(false)]);
    FirstConsoleHolds();
    assert Apply(s2, Die(1)) == s3 && Apply(s3, Spawn(2)) == s4 && Apply(s4, Spawn(3)) == s5;
    OneStep(s2, Die(1));
    OneStep(s3, Spawn(2));
    OneStep(s4, Spawn(3));
    LeadsOn(Start(), [Spawn(1)] + Attempt(1), s2, [Die(1)], s3);
    LeadsOn(Start(), [Spawn(1)] + Attempt(1) + [Die(1)], s3, [Spawn(2)], s4);
    LeadsOn(Start(), [Spawn(1)] + Attempt(1) + [Die(1)] + [Spawn(2)], s4, [Spawn(3)], s5);
    ParsesBack(1);
  }

  // ---------------------------------------------------------------- the polling loop of one process

  datatype Created = Linked | Exists | Failed

  /** What one turn of the loop meets: the first create, the holder read (and whether it is alive), the retry
      after a reclaim, and whether the context is done. */
  datatype Turn = Turn(first: Created, holder: Option<int>, alive: bool, retry: Created, cancelled: bool)

  datatype Result = Acquired | CreateFailed | Cancelled | StillWaiting

  predicate SeesLive(t: Turn) { t.first.Exists? && t.holder.Some? && t.alive }

  predicate Reclaims(t: Turn) { t.first.Exists? && !SeesLive(t) }

  /** How a turn ends the loop, if it does. */
  function Ending(t: Turn): Result {
    if t.first.Linked? || (Reclaims(t) && t.retry.Linked?) then Acquired
    else if t.first.Failed? then CreateFailed
    else if t.cancelled then Cancelled
    else StillWaiting
  }

  /** acquireRecoveryConsoleLock: it acquires in the first turn that links the file at once, or that finds it taken,
      cannot read a live holder in it, removes it and links it then; it fails in the first turn whose create fails
      otherwise, and gives up in the first other turn that finds the context done. It removes the path in exactly the
      turns that find it taken and no live holder in it, and prints the waiting message once, naming the first live
      holder met. */
  method Acquire(turns: seq<Turn>) returns (r: Result, n: nat, printed: seq<int>, removed: set<nat>)
    ensures n <= |turns| && (r.StillWaiting? <==> n == |turns|)
    ensures forall i :: 0 <= i < n ==>
              && turns[i].first.Exists? && !turns[i].cancelled
              && (turns[i].holder.None? || !turns[i].alive ==> !turns[i].retry.Linked?)
    ensures n < |turns| ==>
              var t := turns[n];
              var free := t.first.Exists? && (t.holder.None? || !t.alive);
              && (r.Acquired? <==> t.first.Linked? || (free && t.retry.Linked?))
              && (r.CreateFailed? <==> t.first.Failed?)
              && (r.Cancelled? ==> t.cancelled)
    ensures removed == set i | 0 <= i < |turns| && i <= n
                               && turns[i].first.Exists? && (turns[i].holder.None? || !turns[i].alive)
    ensures printed == [] <==> forall i :: 0 <= i < |turns| && i <= n && turns[i].first.Exists? ==>
                                 turns[i].holder.None? || !turns[i].alive
    ensures printed != [] ==>
              exists i :: && 0 <= i < |turns| && i <= n
                          && turns[i].first.Exists? && turns[i].alive && turns[i].holder.Some?
                          && printed == [turns[i].holder.value]
                          && forall j :: 0 <= j < i && turns[j].first.Exists? ==>
                               turns[j].holder.None? || !turns[j].alive
  {
    n, printed, removed := 0, [], {};
    var printedWaiting := false;
    while n < |turns|
      invariant n <= |turns| && forall i :: 0 <= i < n ==> Ending(turns[i]).StillWaiting?
      invariant removed == set i | 0 <= i < n && Reclaims(turns[i])
      invariant printedWaiting == (printed != [])
      invariant printed == [] <==> forall i :: 0 <= i < n ==> !SeesLive(turns[i])
      invariant printed != [] ==> exists i :: && 0 <= i < n && SeesLive(turns[i])
                                              && printed == [turns[i].holder.value]
                                              && forall j :: 0 <= j < i ==> !SeesLive(turns[j])
    {
      var t := turns[n];
      if t.first.Linked? {
        return Acquired, n, printed, removed;
      }
      if t.first.Failed? {
        return CreateFailed, n, printed, removed;
      }
      if t.holder == None || !t.alive {
        removed := removed + {n};
        if t.retry.Linked? {
          return Acquired, n, printed, removed;
        }
      } else if !printedWaiting {
        printed := [t.holder.value];
        printedWaiting := true;
      }
      if t.cancelled {
        return Cancelled, n, printed, removed;
      }
      n := n + 1;
    }
    r := StillWaiting;
  }
}
