// When a POSIX timer is due, told by the calls made: the delay a client passes is what
// the kernel is given, and no callback comes before it has passed.
module PosixTimerDeadlines {

  import opened Wrappers
  import opened PosixTimerModel
  import opened PosixTimerStructure
  import opened PosixTimerTiming
  import opened PosixTimerTheorems
  import opened PosixTimerEntry

  // ----- From the call to the step that sets the time -----

  /** A client calls for the timer to be started or restarted, with delay `d`. */
  predicate Asks(l: Label, a: Actor, i: nat, d: nat) {
    l == Begin(a, StartTest(i, d)) || l == Begin(a, RestartClear(i, d))
  }

  predicate BeginsNone(run: seq<Label>, a: Actor) {
    forall k {:trigger run[k]} :: 0 <= k < |run| ==> !(run[k].Begin? && run[k].a == a)
  }

  /** The call in progress, if it is not done, is a start or restart with delay `d`. */
  predicate Carries(s: State, a: Actor, i: nat, d: nat) {
    a in s.calls ==>
      s.calls[a] in {StartTest(i, d), RestartClear(i, d), RestartSet(i, d), RestartSched(i), RestartKick(i)}
  }

  lemma CallCarries(s: State, b: Actor, a: Actor, i: nat, d: nat)
    requires CanStep(s, b) && Carries(s, a, i, d)
    ensures Carries(CallStep(s, b), a, i, d)
  {
    if a != b {
      OtherCallStays(s, b, a);
    }
  }

  lemma StepCarries(s: State, l: Label, a: Actor, i: nat, d: nat)
    requires Enabled(s, l) && Carries(s, a, i, d) && !(l.Begin? && l.a == a)
    ensures Carries(Step(s, l), a, i, d)
  {
    match l
    case Act(b) => CallCarries(s, b, a, i, d);
    case _ =>
  }

  lemma {:induction false} RunCarries(s: State, run: seq<Label>, a: Actor, i: nat, d: nat)
    requires IsRun(s, run) && Carries(s, a, i, d) && BeginsNone(run, a)
    ensures Carries(After(s, run), a, i, d)
    decreases |run|
  {
    if run != [] {
      StepCarries(s, run[0], a, i, d);
      RunCarries(Step(s, run[0]), run[1..], a, i, d);
    }
  }

  /** The step sets the kernel's timer for a start or restart of slot `i`. */
  predicate SetsTime(s: State, l: Label, a: Actor, i: nat) {
    l == Act(a) && a in s.calls && s.calls[a].RestartSet? && s.calls[a].i == i < |s.slots|
  }

  /** A delay in microseconds after a clock in nanoseconds; with no delay, the next tick. */
  function Instant(clock: nat, d: nat): nat {
    clock + if d == 0 then 1 else 1000 * d
  }

  /** The step at `p` of the run sets the time for a start or restart begun at `b`. */
  ghost predicate SetsAsAsked(first: State, run: seq<Label>, b: nat, p: nat, a: Actor, i: nat, d: nat) {
    && b < p < |run| && IsRun(first, run[..p]) && SetsTime(After(first, run[..p]), run[p], a, i)
    && Asks(run[b], a, i, d) && BeginsNone(run[b + 1..p], a)
  }

  lemma AskedIsCarried(s: State, l: Label, run: seq<Label>, a: Actor, i: nat, d: nat)
    requires Enabled(s, l) && Asks(l, a, i, d) && IsRun(Step(s, l), run) && BeginsNone(run, a)
    requires SetsTime(After(Step(s, l), run), Act(a), a, i)
    ensures var e := After(Step(s, l), run); CallStep(e, a).slots[i].due == Some(Instant(e.now, d))
  {
    RunCarries(Step(s, l), run, a, i, d);
    SetIsDue(After(Step(s, l), run), a, i, d);
  }

  lemma SetIsDue(s: State, a: Actor, i: nat, d: nat)
    requires CanStep(s, a) && s.calls[a] == RestartSet(i, d)
    ensures CallStep(s, a).slots[i].due == Some(Instant(s.now, d))
  {
  }

  lemma DelayIsCarried(first: State, run: seq<Label>, b: nat, p: nat, a: Actor, i: nat, d: nat)
    requires IsRun(first, run) && SetsAsAsked(first, run, b, p, a, i, d)
    ensures var s := After(first, run[..p]); CallStep(s, a).slots[i].due == Some(Instant(s.now, d))
  {
    Between(first, run, b, p);
    AskedIsCarried(After(first, run[..b]), run[b], run[b + 1..p], a, i, d);
  }

  // ----- While its generation lasts -----

  predicate NoneSets(s: State, i: nat) {
    forall a {:trigger s.calls[a]} :: a in s.calls && s.calls[a].i == i ==> !s.calls[a].RestartSet?
  }

  /** While generation `g` lasts and calls have not overlapped, the deadline is `at`. */
  predicate Timed(s: State, i: nat, g: nat, at: nat) {
    && i < |s.slots| && g <= s.slots[i].gen
    && (s.slots[i].gen == g && !s.slots[i].raced ==> s.slots[i].due == Some(at) && NoneSets(s, i))
  }

  lemma CallTimedOn(s: State, a: Actor, i: nat, g: nat, at: nat)
    requires CanStep(s, a) && Timed(s, i, g, at)
    ensures Timed(CallStep(s, a), i, g, at)
  {
    var s' := CallStep(s, a);
    CallMoves(s, a, i);
    OnlyDisarmedSets(s, a);
    if s'.slots[i].gen == g && !s'.slots[i].raced {
      forall b | b in s'.calls && s'.calls[b].i == i ensures !s'.calls[b].RestartSet? {
        OtherCallStays(s, a, b);
      }
    }
  }

  /** What a call's step does to a slot's generation, deadline and overlap. */
  lemma CallMoves(s: State, a: Actor, i: nat)
    requires CanStep(s, a) && i < |s.slots|
    ensures var (t, t') := (s.slots[i], CallStep(s, a).slots[i]);
            if s.calls[a].i == i && Disarms(s.calls[a]) then t'.gen == t.gen + 1
            else t'.gen == t.gen && t'.raced == t.raced && (t'.due == t.due || SetsTime(s, Act(a), a, i))
  {
  }

  lemma OnlyDisarmedSets(s: State, a: Actor)
    requires CanStep(s, a)
    ensures a in CallStep(s, a).calls && CallStep(s, a).calls[a].RestartSet? ==> Disarms(s.calls[a])
  {
  }

  lemma MadeTimedOn(s: State, a: Actor, fd: int, i: nat, g: nat, at: nat)
    requires MayMake(s, a, fd) && Timed(s, i, g, at)
    ensures Timed(Made(s, a, fd), i, g, at)
  {
    assert NoneSets(s, i) ==> NoneSets(Made(s, a, fd), i);
  }

  lemma BeginTimedOn(s: State, a: Actor, c: Call, i: nat, g: nat, at: nat)
    requires MayBegin(s, a, c) && Timed(s, i, g, at)
    ensures Timed(Begun(s, a, c), i, g, at)
  {
    assert NoneSets(s, i) ==> NoneSets(Begun(s, a, c), i);
  }

  lemma FailTimedOn(s: State, a: Actor, i: nat, g: nat, at: nat)
    requires MayFail(s, a) && Timed(s, i, g, at)
    ensures Timed(FailedStep(s, a), i, g, at)
  {
    assert NoneSets(s, i) ==> NoneSets(FailedStep(s, a), i);
  }

  lemma StepTimedOn(s: State, l: Label, i: nat, g: nat, at: nat)
    requires Enabled(s, l) && Timed(s, i, g, at)
    ensures Timed(Step(s, l), i, g, at)
  {
    match l
    case Act(a) => CallTimedOn(s, a, i, g, at);
    case Make(a, fd) => MadeTimedOn(s, a, fd, i, g, at);
    case Begin(a, c) => BeginTimedOn(s, a, c, i, g, at);
    case Fail(a) => FailTimedOn(s, a, i, g, at);
    case _ => assert NoneSets(s, i) ==> NoneSets(Step(s, l), i);
  }

  lemma {:induction false} RunTimedOn(s: State, run: seq<Label>, i: nat, g: nat, at: nat)
    requires IsRun(s, run) && Timed(s, i, g, at)
    ensures Timed(After(s, run), i, g, at)
    decreases |run|
  {
    if run != [] {
      StepTimedOn(s, run[0], i, g, at);
      RunTimedOn(Step(s, run[0]), run[1..], i, g, at);
    }
  }

  lemma SetIsTimed(s: State, a: Actor, i: nat, at: nat)
    requires Invariant(s) && CanStep(s, a) && SetsTime(s, Act(a), a, i) && CallStep(s, a).slots[i].due == Some(at)
    ensures Timed(CallStep(s, a), i, s.slots[i].gen, at)
  {
    var s' := CallStep(s, a);
    CallMoves(s, a, i);
    OnlyDisarmedSets(s, a);
    if !s.slots[i].raced {
      assert TimingOk(s, i) && CallTimingOk(s, a, s.slots[i]);
      forall b | b in s'.calls && s'.calls[b].i == i ensures !s'.calls[b].RestartSet? {
        OtherCallStays(s, a, b);
      }
    }
  }

  lemma {:induction false} RunAges(s: State, run: seq<Label>)
    requires IsRun(s, run)
    ensures s.now <= After(s, run).now
    decreases |run|
  {
    if run != [] {
      RunAges(Step(s, run[0]), run[1..]);
    }
  }

  /** While the worker waits between a test and the call, no set step is taken for the
      generation the test saw. */
  lemma SetsBeforeTest(s: State, i: nat, run: seq<Label>, a: Actor)
    requires Reachable(s) && Tests(s, i) && !s.slots[i].raced && IsRun(WorkerStep(s), run) && Work !in run
    requires SetsTime(After(WorkerStep(s), run), Act(a), a, i)
    ensures After(WorkerStep(s), run).slots[i].gen != s.slots[i].gen
  {
    ReachableInvariant(s);
    AdmittedIsFresh(s, i);
    NoneIsMidCall(s, i);
    StructureKept(s, Work);
    RunWaits(WorkerStep(s), run, i);
  }

  lemma DeadlineAtTest(s: State, a: Actor, i: nat, at: nat, run: seq<Label>)
    requires Invariant(s) && CanStep(s, a) && SetsTime(s, Act(a), a, i) && CallStep(s, a).slots[i].due == Some(at)
    requires IsRun(CallStep(s, a), run) && Reachable(After(CallStep(s, a), run))
    requires var t := After(CallStep(s, a), run); Tests(t, i) && !t.slots[i].raced && t.slots[i].gen == s.slots[i].gen
    ensures at <= After(CallStep(s, a), run).now
  {
    SetIsTimed(s, a, i, at);
    RunTimedOn(CallStep(s, a), run, i, s.slots[i].gen, at);
    AdmittedIsFresh(After(CallStep(s, a), run), i);
  }

  lemma TestedInTime(first: State, run: seq<Label>, i: nat, a: Actor, d: nat, b: nat, p: nat, m: nat, s: State,
          t: State)
    requires IsRun(first, run) && SetsAsAsked(first, run, b, p, a, i, d) && p < m < |run| && IsRun(first, run[..m])
    requires s == After(first, run[..p]) && t == After(first, run[..m]) && Invariant(s) && Reachable(t)
    requires Tests(t, i) && !t.slots[i].raced && t.slots[i].gen == s.slots[i].gen
    ensures Instant(s.now, d) <= t.now
  {
    Between(first, run, p, m);
    DelayIsCarried(first, run, b, p, a, i, d);
    DeadlineAtTest(s, a, i, Instant(s.now, d), run[p + 1..m]);
  }

  lemma Prefix(n: nat, run: seq<Label>, k: nat)
    requires IsRun(Initial(n), run) && k <= |run|
    ensures IsRun(Initial(n), run[..k])
    ensures Reachable(After(Initial(n), run[..k])) && Invariant(After(Initial(n), run[..k]))
  {
    SplitRun(Initial(n), run, k);
    ReachableInvariant(After(Initial(n), run[..k]));
  }

  /** Main result: no callback comes before the delay the client asked for. Let a start
      or restart begun with delay `d` set its time at some clock. A callback entered for
      its generation was admitted after that step, by a test which, unless calls had
      overlapped, came `d` microseconds later or more, and later in any case. */
  lemma NotBeforeDelay(n: nat, run: seq<Label>, i: nat, a: Actor, d: nat, b: nat, p: nat) returns (m: nat)
    requires IsRun(Initial(n), run) && Enters(After(Initial(n), run), i) && SetsAsAsked(Initial(n), run, b, p, a, i, d)
    requires After(Initial(n), run).slots[i].agen == After(Initial(n), run[..p]).slots[i].gen
    ensures m < |run| && run[m] == Work && Work !in run[m + 1..] && IsRun(Initial(n), run[..m])
    ensures Tests(After(Initial(n), run[..m]), i)
    ensures !After(Initial(n), run[..m]).slots[i].raced ==>
              var (start, entry) := (After(Initial(n), run[..p]).now, After(Initial(n), run).now);
              p < m && entry >= start + 1000 * d && entry > start
  {
    m := LastTest(Initial(n), run, i);
    assert p != m;
    var t := After(Initial(n), run[..m]);
    StepOfRun(Initial(n), run, m);
    if !t.slots[i].raced {
      GenerationTested(t, i, run[m + 1..]);
      if m < p {
        Between(Initial(n), run, m, p);
        SetsBeforeTest(t, i, run[m + 1..p], a);
      } else {
        Prefix(n, run, p);
        Prefix(n, run, m);
        TestedInTime(Initial(n), run, i, a, d, b, p, m, After(Initial(n), run[..p]), t);
        RunAges(WorkerStep(t), run[m + 1..]);
      }
    }
  }

  /** The callback is entered for the generation its test saw. */
  lemma GenerationTested(s: State, i: nat, run: seq<Label>)
    requires Reachable(s) && Tests(s, i) && !s.slots[i].raced && IsRun(WorkerStep(s), run) && Work !in run
    ensures After(WorkerStep(s), run).slots[i].agen == s.slots[i].gen
  {
    ReachableInvariant(s);
    AdmittedIsFresh(s, i);
    NoneIsMidCall(s, i);
    StructureKept(s, Work);
    RunWaits(WorkerStep(s), run, i);
  }

  // ----- The kernel's timer -----

  /** The step sets the time of slot `i`'s timer, or unsets it. */
  predicate Resets(s: State, l: Label, i: nat) {
    l.Act? && l.a in s.calls && (s.calls[l.a].RestartSet? || s.calls[l.a].StopSet?) && s.calls[l.a].i == i
  }

  ghost predicate Untouched(s: State, run: seq<Label>, i: nat)
    requires IsRun(s, run)
    decreases |run|
  {
    run != [] ==>
      !Resets(s, run[0], i) && !(run[0].Work? && Reads(s, i)) && Untouched(Step(s, run[0]), run[1..], i)
  }

  /** The slot is in use, and an uninstall of it has not come to unsetting its timer. */
  predicate InUse(s: State, i: nat)
    requires i < |s.slots|
  {
    var t := s.slots[i];
    && t.open
    && (t.handle == Owned
        || (t.handle == Closing && t.closer.Some? && t.closer.value in s.calls
            && var c := s.calls[t.closer.value]; c.CloseLock? || c.StopClear? || c.StopSet?))
  }

  /** The kernel's timer of slot `i`, descriptor `fd`, stands at `at`. */
  predicate StandsAt(s: State, i: nat, fd: int, at: nat) {
    i < |s.slots| && s.slots[i].fd == fd && InUse(s, i) && fd in s.timers && s.timers[fd] == Some(at)
  }

  lemma CallHereStands(s: State, a: Actor, i: nat, fd: int, at: nat)
    requires Structure(s) && CanStep(s, a) && StandsAt(s, i, fd, at) && s.calls[a].i == i && !Resets(s, Act(a), i)
    ensures StandsAt(CallStep(s, a), i, fd, at)
  {
    assert CallOk(s, a) && SlotOk(s, i);
    if s.slots[i].handle == Closing {
      OtherCallStays(s, a, s.slots[i].closer.value);
      assert CallOk(s, s.slots[i].closer.value);
      CallStays(s, a, s.slots[i].closer.value);
    }
  }

  lemma CallStays(s: State, a: Actor, b: Actor)
    requires CanStep(s, a)
    ensures b != a && b in s.calls ==> b in CallStep(s, a).calls && CallStep(s, a).calls[b] == s.calls[b]
  {
    var (before, after) := (s.calls - {a}, CallStep(s, a).calls - {a});
    assert before == after && (b in before ==> after[b] == before[b]);
  }

  lemma CallElsewhereStands(s: State, a: Actor, i: nat, fd: int, at: nat)
    requires Structure(s) && CanStep(s, a) && StandsAt(s, i, fd, at) && s.calls[a].i != i
    ensures StandsAt(CallStep(s, a), i, fd, at)
  {
    OthersUntouched(s, a, i);
    assert SlotOk(s, i);
    if s.slots[i].handle == Closing {
      CallStays(s, a, s.slots[i].closer.value);
    }
  }

  lemma ScanStands(s: State, i: nat, fd: int, at: nat)
    requires Structure(s) && s.pc.Scan? && s.pc.i < |s.slots| && StandsAt(s, i, fd, at)
    ensures StandsAt(WorkerStep(s), i, fd, at)
  {
    assert SlotOk(s, i) && SlotOk(s, s.pc.i);
    OpenIsKnown(s, i);
    assert s.pc.i != i ==> WorkerStep(s).slots[i] == s.slots[i];
  }

  lemma ReadStands(s: State, i: nat, fd: int, at: nat)
    requires Structure(s) && s.pc.Serve? && StandsAt(s, i, fd, at) && !Reads(s, i)
    ensures StandsAt(WorkerStep(s), i, fd, at)
  {
    OpenIsKnown(s, i);
    if s.pc.k < |s.pfds| {
      assert PfdOk(s, s.pc.k);
    }
  }

  lemma WorkStands(s: State, i: nat, fd: int, at: nat)
    requires Structure(s) && WorkerCanStep(s) && StandsAt(s, i, fd, at) && !Reads(s, i)
    ensures StandsAt(WorkerStep(s), i, fd, at)
  {
    if s.pc.Scan? && s.pc.i < |s.slots| {
      ScanStands(s, i, fd, at);
    } else if s.pc.Serve? {
      ReadStands(s, i, fd, at);
    } else {
      MoveStands(s, i, fd, at);
    }
  }

  lemma MoveStands(s: State, i: nat, fd: int, at: nat)
    requires WorkerCanStep(s) && StandsAt(s, i, fd, at) && !s.pc.Serve? && (s.pc.Scan? ==> s.pc.i >= |s.slots|)
    ensures StandsAt(WorkerStep(s), i, fd, at)
  {
  }

  lemma MadeStands(s: State, a: Actor, fd': int, i: nat, fd: int, at: nat)
    requires Structure(s) && MayMake(s, a, fd') && StandsAt(s, i, fd, at)
    ensures StandsAt(Made(s, a, fd'), i, fd, at)
  {
    assert CallOk(s, a) && SlotOk(s, i);
  }

  lemma FailStands(s: State, a: Actor, i: nat, fd: int, at: nat)
    requires Structure(s) && MayFail(s, a) && StandsAt(s, i, fd, at)
    ensures StandsAt(FailedStep(s, a), i, fd, at)
  {
    assert CallOk(s, a) && SlotOk(s, i) && SlotOk(s, s.calls[a].i);
    OpenIsKnown(s, i);
  }

  lemma StepStands(s: State, l: Label, i: nat, fd: int, at: nat)
    requires Structure(s) && Enabled(s, l) && StandsAt(s, i, fd, at)
    requires !Resets(s, l, i) && !(l.Work? && Reads(s, i))
    ensures StandsAt(Step(s, l), i, fd, at)
  {
    match l
    case Act(a) =>
      if s.calls[a].i == i {
        CallHereStands(s, a, i, fd, at);
      } else {
        CallElsewhereStands(s, a, i, fd, at);
      }
    case Make(a, fd') => MadeStands(s, a, fd', i, fd, at);
    case Fail(a) => FailStands(s, a, i, fd, at);
    case Work => WorkStands(s, i, fd, at);
    case _ =>
  }

  lemma {:induction false} RunStands(s: State, run: seq<Label>, i: nat, fd: int, at: nat)
    requires Structure(s) && IsRun(s, run) && Untouched(s, run, i) && StandsAt(s, i, fd, at)
    ensures StandsAt(After(s, run), i, fd, at)
    decreases |run|
  {
    if run != [] {
      StepStands(s, run[0], i, fd, at);
      StructureKept(s, run[0]);
      RunStands(Step(s, run[0]), run[1..], i, fd, at);
    }
  }

  lemma SetInUse(s: State, a: Actor, i: nat)
    requires Structure(s) && CanStep(s, a) && SetsTime(s, Act(a), a, i)
    ensures InUse(CallStep(s, a), i)
  {
    assert CallOk(s, a) && SlotOk(s, i);
    if s.slots[i].handle == Closing {
      CallStays(s, a, s.slots[i].closer.value);
    }
  }

  lemma SetStands(s: State, a: Actor, i: nat, d: nat)
    requires Structure(s) && CanStep(s, a) && s.calls[a] == RestartSet(i, d)
    ensures StandsAt(CallStep(s, a), i, s.slots[i].fd, Instant(s.now, d))
  {
    SetInUse(s, a, i);
    SetIsGiven(s, a, i, d);
  }

  lemma SetIsGiven(s: State, a: Actor, i: nat, d: nat)
    requires Structure(s) && CanStep(s, a) && s.calls[a] == RestartSet(i, d)
    ensures var (t, s') := (s.slots[i], CallStep(s, a));
            s'.slots[i].fd == t.fd && t.fd in s'.timers && s'.timers[t.fd] == Some(Instant(s.now, d))
  {
    SetGives(s, a, i, d);
    assert CallOk(s, a) && SlotOk(s, i);
  }

  lemma SetGives(s: State, a: Actor, i: nat, d: nat)
    requires CanStep(s, a) && s.calls[a] == RestartSet(i, d)
    ensures CallStep(s, a).timers == SetTime(s.timers, s.slots[i].fd, Some(Instant(s.now, d)))
    ensures CallStep(s, a).slots[i].fd == s.slots[i].fd
  {
  }

  lemma DelayAtSet(first: State, run: seq<Label>, b: nat, p: nat, a: Actor, i: nat, d: nat, s: State)
    requires IsRun(first, run) && SetsAsAsked(first, run, b, p, a, i, d) && s == After(first, run[..p])
    ensures s.calls[a] == RestartSet(i, d) && CanStep(s, a)
  {
    Between(first, run, b, p);
    RunCarries(Step(After(first, run[..b]), run[b]), run[b + 1..p], a, i, d);
  }

  lemma KernelKeeps(s: State, a: Actor, i: nat, d: nat, run: seq<Label>)
    requires Structure(s) && CanStep(s, a) && s.calls[a] == RestartSet(i, d)
    requires IsRun(CallStep(s, a), run) && Untouched(CallStep(s, a), run, i)
    ensures StandsAt(After(CallStep(s, a), run), i, s.slots[i].fd, Instant(s.now, d))
  {
    SetStands(s, a, i, d);
    CallKeepsStructure(s, a);
    RunStands(CallStep(s, a), run, i, s.slots[i].fd, Instant(s.now, d));
  }

  /** Main result: the kernel is given the delay the client asked for. From the step that
      sets the time, the kernel's timer of the slot's descriptor stands at the clock then
      plus the delay, until another call sets or unsets it or the worker reads it. */
  lemma KernelKeepsDelay(n: nat, run: seq<Label>, b: nat, p: nat, a: Actor, i: nat, d: nat, s: State,
          more: seq<Label>)
    requires IsRun(Initial(n), run) && SetsAsAsked(Initial(n), run, b, p, a, i, d) && s == After(Initial(n), run[..p])
    requires IsRun(CallStep(s, a), more) && Untouched(CallStep(s, a), more, i)
    ensures StandsAt(After(CallStep(s, a), more), i, s.slots[i].fd, Instant(s.now, d))
  {
    DelayAtSet(Initial(n), run, b, p, a, i, d, s);
    Prefix(n, run, p);
    KernelKeeps(s, a, i, d, more);
  }

  // ----- Stopping, and starting what is started -----

  /** The slot's descriptor, if it is open, has no time set. */
  predicate Unset(s: State, i: nat) {
    i < |s.slots| && (s.slots[i].open ==> s.slots[i].fd in s.timers && s.timers[s.slots[i].fd].None?)
  }

  /** No step of the run sets a time for the slot, or installs a timer in it. */
  ghost predicate NeverSet(s: State, run: seq<Label>, i: nat)
    requires IsRun(s, run)
    decreases |run|
  {
    run != [] ==>
      var l := run[0];
      && !(l.Act? && l.a in s.calls && s.calls[l.a].RestartSet? && s.calls[l.a].i == i)
      && !(l.Make? && l.a in s.calls && s.calls[l.a].i == i)
      && NeverSet(Step(s, l), run[1..], i)
  }

  lemma CallLeavesUnset(s: State, a: Actor, i: nat)
    requires Structure(s) && CanStep(s, a) && Unset(s, i) && !(s.calls[a].RestartSet? && s.calls[a].i == i)
    ensures Unset(CallStep(s, a), i)
  {
    assert CallOk(s, a) && SlotOk(s, i);
    if s.calls[a].i != i {
      OthersUntouched(s, a, i);
    }
  }

  lemma ScanLeavesUnset(s: State, i: nat)
    requires Structure(s) && s.pc.Scan? && s.pc.i < |s.slots| && Unset(s, i)
    ensures Unset(WorkerStep(s), i)
  {
    assert SlotOk(s, i) && SlotOk(s, s.pc.i);
    OpenIsKnown(s, i);
    assert s.pc.i != i ==> WorkerStep(s).slots[i] == s.slots[i];
  }

  lemma MoveLeavesUnset(s: State, i: nat)
    requires WorkerCanStep(s) && Unset(s, i) && !s.pc.Serve? && (s.pc.Scan? ==> s.pc.i >= |s.slots|)
    ensures Unset(WorkerStep(s), i)
  {
  }

  lemma ServeLeavesUnset(s: State, i: nat)
    requires WorkerCanStep(s) && Unset(s, i) && s.pc.Serve?
    ensures Unset(WorkerStep(s), i)
  {
  }

  lemma WorkLeavesUnset(s: State, i: nat)
    requires Structure(s) && WorkerCanStep(s) && Unset(s, i)
    ensures Unset(WorkerStep(s), i)
  {
    if s.pc.Scan? && s.pc.i < |s.slots| {
      ScanLeavesUnset(s, i);
    } else if s.pc.Serve? {
      ServeLeavesUnset(s, i);
    } else {
      MoveLeavesUnset(s, i);
    }
  }

  lemma MakeLeavesUnset(s: State, l: Label, i: nat)
    requires Structure(s) && Enabled(s, l) && Unset(s, i) && (l.Fail? || (l.Make? && s.calls[l.a].i != i))
    ensures Unset(Step(s, l), i)
  {
    assert CallOk(s, l.a) && SlotOk(s, i) && SlotOk(s, s.calls[l.a].i);
    OpenIsKnown(s, i);
  }

  lemma StepLeavesUnset(s: State, l: Label, i: nat)
    requires Structure(s) && Enabled(s, l) && Unset(s, i)
    requires !(l.Act? && s.calls[l.a].RestartSet? && s.calls[l.a].i == i) && !(l.Make? && s.calls[l.a].i == i)
    ensures Unset(Step(s, l), i)
  {
    match l
    case Act(a) => CallLeavesUnset(s, a, i);
    case Work => WorkLeavesUnset(s, i);
    case Make(_, _) => MakeLeavesUnset(s, l, i);
    case Fail(_) => MakeLeavesUnset(s, l, i);
    case _ =>
  }

  lemma {:induction false} RunLeavesUnset(s: State, run: seq<Label>, i: nat)
    requires Structure(s) && IsRun(s, run) && NeverSet(s, run, i) && Unset(s, i)
    ensures Unset(After(s, run), i)
    decreases |run|
  {
    if run != [] {
      StepLeavesUnset(s, run[0], i);
      StructureKept(s, run[0]);
      RunLeavesUnset(Step(s, run[0]), run[1..], i);
    }
  }

  lemma StopUnsets(s: State, a: Actor, i: nat)
    requires Structure(s) && CanStep(s, a) && s.calls[a].StopSet? && s.calls[a].i == i
    ensures Unset(CallStep(s, a), i)
  {
    assert CallOk(s, a) && SlotOk(s, i);
  }

  /** Main result: a stopped timer's descriptor is not readable, from the stop's step
      that unsets its time on, until a restart sets one or the slot is installed again. */
  lemma StoppedIsNotReadable(s: State, a: Actor, i: nat, run: seq<Label>)
    requires Reachable(s) && CanStep(s, a) && s.calls[a].StopSet? && s.calls[a].i == i
    requires IsRun(CallStep(s, a), run) && NeverSet(CallStep(s, a), run, i)
    ensures var e := After(CallStep(s, a), run);
            i < |e.slots| && (e.slots[i].open ==> !Readable(e, e.slots[i].fd))
  {
    ReachableInvariant(s);
    StopUnsets(s, a, i);
    CallKeepsStructure(s, a);
    RunLeavesUnset(CallStep(s, a), run, i);
  }

  /** Main result: a start of a timer that is scheduled or active changes nothing, and so
      keeps its deadline; of any other it goes on as a restart with the same delay. */
  lemma StartIsRefusedIff(s: State, a: Actor, i: nat, d: nat)
    requires CanStep(s, a) && s.calls[a] == StartTest(i, d)
    ensures (s.slots[i].word.active || s.slots[i].word.sched) <==> a !in CallStep(s, a).calls
    ensures a in CallStep(s, a).calls ==> CallStep(s, a).calls[a] == RestartClear(i, d)
    ensures CallStep(s, a).(calls := s.calls) == s
  {
  }
}
