// A restart of a POSIX timer from its own callback, followed through every run in which
// no other call touches the timer, to the callback it is owed.
module PosixTimerRestart {

  import opened Wrappers
  import opened PosixTimerModel
  import opened PosixTimerStructure
  import opened PosixTimerTiming
  import opened PosixTimerOwed
  import opened PosixTimerTheorems
  import opened PosixTimerEntry

  /** No step of the run begins another call on the slot. */
  predicate Undisturbed(run: seq<Label>, i: nat) {
    forall k {:trigger run[k]} :: 0 <= k < |run| ==> !Concerns(run[k], i)
  }

  predicate Concerns(l: Label, i: nat) {
    l.Begin? && OnHandle(l.call) && l.call.i == i
  }

  /** The step enters the callback owed: for the latest restart, whose deadline `due`
      has passed. */
  predicate Pays(s: State, l: Label, i: nat, due: Option<nat>) {
    l.Work? && Enters(s, i) && s.slots[i].due == due && IsFresh(s, i)
  }

  ghost predicate Paid(s: State, run: seq<Label>, i: nat, due: Option<nat>)
    requires IsRun(s, run)
    decreases |run|
  {
    run != [] && (Pays(s, run[0], i, due) || Paid(Step(s, run[0]), run[1..], i, due))
  }

  /** The slot is scheduled or active for deadline `due`, which is the kernel's and
      unread; and if the worker polls, it watches the slot's descriptor with ACTIVE set. */
  ghost predicate Stands(s: State, i: nat, due: Option<nat>) {
    && i < |s.slots|
    && var t := s.slots[i];
       && t.due == due && DeadlineStands(t, s.timers) && (t.word.sched || t.word.active)
       && (s.pc.Poll? ==> t.word.active && InPoll(s, i))
  }

  /** The worker has read the descriptor and is on its way to the callback, with ACTIVE
      set for the latest restart, whose deadline `due` has passed. */
  predicate Follows(s: State, i: nat, due: Option<nat>) {
    i < |s.slots| && s.slots[i].due == due && s.slots[i].word.active && IsFresh(s, i) && OnItsWay(s, i)
  }

  // ----- One step -----

  /** Owed, and past being lost. */
  predicate Firm(t: Slot) {
    t.owed == Pending || t.owed == Watched || t.owed == Due
  }

  /** A step pays what is owed or leaves it owed, with its deadline; only the worker
      gets any further with it. */
  predicate OwedAfter(s: State, l: Label, s': State, i: nat)
    requires i < |s.slots| == |s'.slots|
  {
    || Pays(s, l, i, s.slots[i].due)
    || (Firm(s'.slots[i]) && s'.slots[i].due == s.slots[i].due
        && (l != Work ==> s'.slots[i].owed == s.slots[i].owed))
  }

  lemma CallLeavesOwed(s: State, a: Actor, i: nat)
    requires Invariant(s) && CanStep(s, a) && i < |s.slots| && Firm(s.slots[i])
    ensures OwedAfter(s, Act(a), CallStep(s, a), i)
  {
    assert OwedOk(s, i) && SlotOk(s, i) && CallOk(s, a);
  }

  lemma MakeLeavesOwed(s: State, a: Actor, fd: int, i: nat)
    requires Invariant(s) && MayMake(s, a, fd) && i < |s.slots| && Firm(s.slots[i])
    ensures OwedAfter(s, Make(a, fd), Made(s, a, fd), i)
  {
    assert OwedOk(s, i) && SlotOk(s, i) && CallOk(s, a);
  }

  lemma WorkLeavesOwed(s: State, i: nat)
    requires Invariant(s) && WorkerCanStep(s) && i < |s.slots| && Firm(s.slots[i])
    ensures OwedAfter(s, Work, WorkerStep(s), i)
  {
    assert OwedOk(s, i);
  }

  lemma StepLeavesOwed(s: State, l: Label, i: nat)
    requires Invariant(s) && Enabled(s, l) && i < |s.slots| && Firm(s.slots[i]) && !Concerns(l, i)
    ensures OwedAfter(s, l, Step(s, l), i)
  {
    match l
    case Act(a) => CallLeavesOwed(s, a, i);
    case Make(a, fd) => MakeLeavesOwed(s, a, fd, i);
    case Work => WorkLeavesOwed(s, i);
    case _ =>
  }

  lemma {:induction false} RunLeavesOwed(s: State, run: seq<Label>, i: nat)
    requires Invariant(s) && i < |s.slots| && Firm(s.slots[i]) && IsRun(s, run) && Undisturbed(run, i)
    ensures var (t, e) := (s.slots[i], After(s, run));
            Paid(s, run, i, t.due) || (Firm(e.slots[i]) && e.slots[i].due == t.due)
    decreases |run|
  {
    if run != [] {
      StepLeavesOwed(s, run[0], i);
      if !Pays(s, run[0], i, s.slots[i].due) {
        InvariantKept(s, run[0]);
        RunLeavesOwed(Step(s, run[0]), run[1..], i);
      }
    }
  }

  // ----- Until it is paid -----

  /** The callback sets SCHED for its own timer, no call on it having overlapped. */
  ghost predicate RestartsItself(s: State, i: nat) {
    Reachable(s) && i < |s.slots| && AboutToOwe(s, i) && !s.slots[i].raced && CanStep(s, Worker)
  }

  lemma RestartOwes(s: State, i: nat)
    requires RestartsItself(s, i)
    ensures var s' := CallStep(s, Worker);
            Invariant(s') && s'.slots[i].owed == Pending && s'.slots[i].due == s.slots[i].due && s'.pc == s.pc
  {
    ReachableInvariant(s);
    assert TimingOk(s, i) && OwedOk(s, i);
    RestartIsOwed(s, i);
    InvariantKept(s, Act(Worker));
  }

  /** Main result: a restart from the timer's own callback is not lost. In every run
      after the step that sets SCHED in which no other call on the timer begins, either
      the callback owed has been entered, or the worker is on its way to it, or the
      deadline stands: SCHED survives the worker's clearing of ACTIVE, nobody has read
      the expiration, and every poll watches the descriptor. */
  lemma RestartIsNotLost(s: State, i: nat, run: seq<Label>)
    requires RestartsItself(s, i)
    requires IsRun(CallStep(s, Worker), run) && Undisturbed(run, i)
    ensures var (s', due) := (CallStep(s, Worker), s.slots[i].due);
            Paid(s', run, i, due) || Follows(After(s', run), i, due) || Stands(After(s', run), i, due)
  {
    RestartOwes(s, i);
    RunLeavesOwed(CallStep(s, Worker), run, i);
    RunKeeps(CallStep(s, Worker), run);
    assert OwedOk(After(CallStep(s, Worker), run), i);
  }

  // ----- Reads of the descriptor -----

  ghost predicate UnreadUntilPoll(s: State, run: seq<Label>, i: nat)
    requires IsRun(s, run)
    decreases |run|
  {
    s.pc.Poll? || (!Reads(s, i) && (run != [] ==> UnreadUntilPoll(Step(s, run[0]), run[1..], i)))
  }

  /** Until it is paid, the descriptor is read only with its deadline passed and ACTIVE set. */
  ghost predicate ReadWhenDue(s: State, run: seq<Label>, i: nat, due: Option<nat>)
    requires IsRun(s, run)
    decreases |run|
  {
    && (Reads(s, i) ==> i < |s.slots| && s.slots[i].due == due && Passed(s.slots[i], s.now) && s.slots[i].word.active)
    && (run != [] && !Pays(s, run[0], i, due) ==> ReadWhenDue(Step(s, run[0]), run[1..], i, due))
  }

  /** Not taken up, or taken up by the scan that goes on to the next poll. */
  predicate BeforePoll(s: State, i: nat)
    requires i < |s.slots|
  {
    s.slots[i].owed == Pending || (s.slots[i].owed == Watched && s.pc.Scan?)
  }

  lemma BeforePollKept(s: State, l: Label, i: nat)
    requires Invariant(s) && Enabled(s, l) && i < |s.slots| && BeforePoll(s, i) && !Concerns(l, i)
    ensures BeforePoll(Step(s, l), i) || Step(s, l).pc.Poll?
  {
    StepLeavesOwed(s, l, i);
    if l == Work {
      BeforePollWorks(s, i);
    }
  }

  lemma BeforePollWorks(s: State, i: nat)
    requires Invariant(s) && WorkerCanStep(s) && i < |s.slots| && BeforePoll(s, i)
    ensures BeforePoll(WorkerStep(s), i) || WorkerStep(s).pc.Poll?
  {
    assert OwedOk(s, i);
    if s.pc.Scan? {
      ScanGoesOn(s);
    } else {
      OnlyScansTake(s, i);
    }
  }

  lemma ScanGoesOn(s: State)
    requires WorkerCanStep(s) && s.pc.Scan?
    ensures WorkerStep(s).pc.Scan? || WorkerStep(s).pc.Poll?
  {
  }

  lemma OnlyScansTake(s: State, i: nat)
    requires WorkerCanStep(s) && !s.pc.Scan? && i < |s.slots| && s.slots[i].owed == Pending
    ensures WorkerStep(s).slots[i].owed == Pending || Enters(s, i)
  {
  }

  lemma {:induction false} UnreadTillPolled(s: State, run: seq<Label>, i: nat)
    requires Invariant(s) && i < |s.slots| && BeforePoll(s, i) && IsRun(s, run) && Undisturbed(run, i)
    ensures UnreadUntilPoll(s, run, i)
    decreases |run|
  {
    assert OwedOk(s, i);
    if Reads(s, i) {
      PendingIsUnread(s, i);
    } else if run != [] && !s.pc.Poll? {
      BeforePollKept(s, run[0], i);
      InvariantKept(s, run[0]);
      if !Step(s, run[0]).pc.Poll? {
        UnreadTillPolled(Step(s, run[0]), run[1..], i);
      }
    }
  }

  lemma OwedIsReadDue(s: State, i: nat)
    requires Invariant(s) && i < |s.slots| && Firm(s.slots[i]) && Reads(s, i)
    ensures Passed(s.slots[i], s.now) && s.slots[i].word.active && WorkerStep(s).slots[i].owed == Due
  {
    assert OwedOk(s, i) && TimingOk(s, i);
    PendingIsUnread(s, i);
    WatchedIsReadDue(s, i);
  }

  lemma {:induction false} OwedReadWhenDue(s: State, run: seq<Label>, i: nat)
    requires Invariant(s) && i < |s.slots| && Firm(s.slots[i]) && IsRun(s, run) && Undisturbed(run, i)
    ensures ReadWhenDue(s, run, i, s.slots[i].due)
    decreases |run|
  {
    if Reads(s, i) {
      OwedIsReadDue(s, i);
    }
    if run != [] && !Pays(s, run[0], i, s.slots[i].due) {
      StepLeavesOwed(s, run[0], i);
      InvariantKept(s, run[0]);
      OwedReadWhenDue(Step(s, run[0]), run[1..], i);
    }
  }

  /** Main result: when the descriptor of such a restart is read. Not before the next
      poll, however many descriptors the worker has still to serve; and after it only
      with the deadline passed and ACTIVE set. */
  lemma RestartIsReadWhenDue(s: State, i: nat, run: seq<Label>)
    requires RestartsItself(s, i)
    requires IsRun(CallStep(s, Worker), run) && Undisturbed(run, i)
    ensures UnreadUntilPoll(CallStep(s, Worker), run, i)
    ensures ReadWhenDue(CallStep(s, Worker), run, i, s.slots[i].due)
  {
    RestartOwes(s, i);
    UnreadTillPolled(CallStep(s, Worker), run, i);
    OwedReadWhenDue(CallStep(s, Worker), run, i);
  }

  // ----- From the read to the callback -----

  function Works(run: seq<Label>): nat {
    if run == [] then 0 else Works(run[1..]) + if run[0].Work? then 1 else 0
  }

  /** How many steps of the worker are left before the callback is entered. */
  function Ahead(pc: Pc, i: nat): nat {
    match pc
    case Lookup(_, j) => if j <= i then i - j + 4 else 0
    case Ring(_, _) => 3
    case Locked(_, _) => 2
    case Calling(_, _) => 1
    case _ => 0
  }

  /** On its way to the callback the worker is never blocked. */
  lemma DueIsEnabled(s: State, i: nat)
    requires Invariant(s) && i < |s.slots| && s.slots[i].owed == Due
    ensures WorkerCanStep(s)
  {
    assert OwedOk(s, i) && SlotOk(s, i);
  }

  lemma DueWorks(s: State, i: nat)
    requires Invariant(s) && WorkerCanStep(s) && i < |s.slots| && s.slots[i].owed == Due
    ensures Pays(s, Work, i, s.slots[i].due)
            || (WorkerStep(s).slots[i].owed == Due && Ahead(s.pc, i) == Ahead(WorkerStep(s).pc, i) + 1)
  {
    assert OwedOk(s, i);
    WorkLeavesOwed(s, i);
    InvariantKept(s, Work);
    assert OwedOk(WorkerStep(s), i);
  }

  lemma DueAdvances(s: State, l: Label, i: nat)
    requires Invariant(s) && Enabled(s, l) && i < |s.slots| && s.slots[i].owed == Due && !Concerns(l, i)
    ensures Pays(s, l, i, s.slots[i].due)
            || (Step(s, l).slots[i].owed == Due && Step(s, l).slots[i].due == s.slots[i].due
                && Ahead(s.pc, i) == Ahead(Step(s, l).pc, i) + if l.Work? then 1 else 0)
  {
    StepLeavesOwed(s, l, i);
    if l == Work {
      DueWorks(s, i);
    } else {
      assert OwedOk(s, i);
    }
  }

  lemma {:induction false} DueIsPaid(s: State, run: seq<Label>, i: nat)
    requires Invariant(s) && i < |s.slots| && s.slots[i].owed == Due && IsRun(s, run) && Undisturbed(run, i)
    ensures Paid(s, run, i, s.slots[i].due) || (Works(run) < Ahead(s.pc, i) && WorkerCanStep(After(s, run)))
    decreases |run|
  {
    if run == [] {
      assert OwedOk(s, i);
      DueIsEnabled(s, i);
    } else {
      DueAdvances(s, run[0], i);
      if !Pays(s, run[0], i, s.slots[i].due) {
        InvariantKept(s, run[0]);
        DueIsPaid(Step(s, run[0]), run[1..], i);
      }
    }
  }

  lemma FoundIsPaid(s: State, run: seq<Label>, i: nat)
    requires Invariant(s) && i < |s.slots| && Firm(s.slots[i]) && Reads(s, i)
    requires IsRun(WorkerStep(s), run) && Undisturbed(run, i)
    ensures Paid(WorkerStep(s), run, i, s.slots[i].due)
            || (Works(run) < i + 4 && WorkerCanStep(After(WorkerStep(s), run)))
  {
    OwedIsReadDue(s, i);
    WorkLeavesOwed(s, i);
    InvariantKept(s, Work);
    DueIsPaid(WorkerStep(s), run, i);
  }

  /** Main result: the callback follows the read. Once the descriptor of such a restart
      is read, and while no other call on the timer begins, the worker is not blocked
      and enters the callback for that restart within its next `i` + 5 steps, the read
      included. */
  lemma CallbackFollowsRead(s: State, i: nat, before: seq<Label>, run: seq<Label>)
    requires RestartsItself(s, i)
    requires IsRun(CallStep(s, Worker), before) && Undisturbed(before, i)
    requires !Paid(CallStep(s, Worker), before, i, s.slots[i].due) && Reads(After(CallStep(s, Worker), before), i)
    requires IsRun(WorkerStep(After(CallStep(s, Worker), before)), run) && Undisturbed(run, i)
    ensures var found := WorkerStep(After(CallStep(s, Worker), before));
            Paid(found, run, i, s.slots[i].due) || (Works(run) < i + 4 && WorkerCanStep(After(found, run)))
  {
    RestartOwes(s, i);
    RunLeavesOwed(CallStep(s, Worker), before, i);
    RunKeeps(CallStep(s, Worker), before);
    FoundIsPaid(After(CallStep(s, Worker), before), run, i);
  }
}
