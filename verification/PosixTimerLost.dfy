// Starts and restarts of a POSIX timer from outside its callback, which the worker may
// lose: just when, and that otherwise the callback follows.
module PosixTimerLost {

  import opened Wrappers
  import opened PosixTimerModel
  import opened PosixTimerStructure
  import opened PosixTimerArming
  import opened PosixTimerTiming
  import opened PosixTimerOwed
  import opened PosixTimerTheorems
  import opened PosixTimerEntry
  import opened PosixTimerRestart
  import opened PosixTimerEvents

  /** The worker clears a SCHED bit it has not turned into ACTIVE, or reads an expiration
      while ACTIVE is not set. */
  predicate Loses(s: State, l: Label, i: nat) {
    && l.Work? && i < |s.slots| && !s.slots[i].word.active
    && ((s.pc == Scan(i, ClearSched) && s.slots[i].word.sched) || (Reads(s, i) && Readable(s, s.slots[i].fd)))
  }

  /** A step of the run loses the slot's arming, before any pays for it. */
  ghost predicate Lost(s: State, run: seq<Label>, i: nat, due: Option<nat>)
    requires IsRun(s, run)
    decreases |run|
  {
    run != [] && !Pays(s, run[0], i, due) && (Loses(s, run[0], i) || Lost(Step(s, run[0]), run[1..], i, due))
  }

  // ----- Not lost -----

  /** A step loses a loose arming, or leaves it owed, with its deadline. */
  predicate LooseAfter(s: State, l: Label, s': State, i: nat)
    requires i < |s.slots| == |s'.slots|
  {
    if Loses(s, l, i) then s'.slots[i].owed == Nothing
    else (s'.slots[i].owed == Loose || s'.slots[i].owed == Watched) && s'.slots[i].due == s.slots[i].due
  }

  lemma CallLeavesLoose(s: State, a: Actor, i: nat)
    requires Invariant(s) && CanStep(s, a) && i < |s.slots| && s.slots[i].owed == Loose
    ensures LooseAfter(s, Act(a), CallStep(s, a), i)
  {
    assert OwedOk(s, i) && SlotOk(s, i) && CallOk(s, a);
  }

  lemma ScanLeavesLoose(s: State, i: nat)
    requires Invariant(s) && s.pc.Scan? && s.pc.i < |s.slots| && i < |s.slots| && s.slots[i].owed == Loose
    ensures LooseAfter(s, Work, WorkerStep(s), i)
  {
    assert OwedOk(s, i) && SlotOk(s, i);
    if s.pc.i != i {
      assert WorkerStep(s).slots[i] == s.slots[i];
    }
  }

  lemma ReadLeavesLoose(s: State, i: nat)
    requires Invariant(s) && i < |s.slots| && s.slots[i].owed == Loose && Reads(s, i)
    ensures LooseAfter(s, Work, WorkerStep(s), i)
  {
    assert OwedOk(s, i) && PfdOk(s, s.pc.k);
  }

  lemma MoveLeavesLoose(s: State, i: nat)
    requires Invariant(s) && WorkerCanStep(s) && i < |s.slots| && s.slots[i].owed == Loose && !Reads(s, i)
    requires s.pc.Scan? ==> s.pc.i >= |s.slots|
    ensures LooseAfter(s, Work, WorkerStep(s), i)
  {
    assert OwedOk(s, i);
  }

  lemma MakeLeavesLoose(s: State, l: Label, i: nat)
    requires Invariant(s) && Enabled(s, l) && (l.Make? || l.Fail?) && i < |s.slots| && s.slots[i].owed == Loose
    ensures LooseAfter(s, l, Step(s, l), i)
  {
    assert OwedOk(s, i) && SlotOk(s, i) && CallOk(s, l.a);
  }

  lemma StepLeavesLoose(s: State, l: Label, i: nat)
    requires Invariant(s) && Enabled(s, l) && i < |s.slots| && s.slots[i].owed == Loose && !Concerns(l, i)
    ensures LooseAfter(s, l, Step(s, l), i)
  {
    match l
    case Act(a) => CallLeavesLoose(s, a, i);
    case Make(_, _) => MakeLeavesLoose(s, l, i);
    case Fail(_) => MakeLeavesLoose(s, l, i);
    case Work =>
      if s.pc.Scan? && s.pc.i < |s.slots| {
        ScanLeavesLoose(s, i);
      } else if Reads(s, i) {
        ReadLeavesLoose(s, i);
      } else {
        MoveLeavesLoose(s, i);
      }
    case _ =>
  }

  /** The deadline stands, unread; and if the worker polls, either it watches the slot's
      descriptor with ACTIVE set, or SCHED is still to be taken up. */
  ghost predicate StandsLoosely(s: State, i: nat, due: Option<nat>) {
    && i < |s.slots|
    && var t := s.slots[i];
       && t.due == due && DeadlineStands(t, s.timers) && (t.word.sched || t.word.active)
       && (s.pc.Poll? ==> t.word.sched || (t.word.active && InPoll(s, i)))
  }

  lemma {:induction false} RunLeavesLoose(s: State, run: seq<Label>, i: nat)
    requires Invariant(s) && i < |s.slots| && s.slots[i].owed == Loose && IsRun(s, run) && Undisturbed(run, i)
    requires !Lost(s, run, i, s.slots[i].due)
    ensures var (e, due) := (After(s, run), s.slots[i].due);
            Paid(s, run, i, due) || (e.slots[i].owed != Nothing && e.slots[i].due == due)
    decreases |run|
  {
    if run != [] {
      LooseDoesNotPay(s, run[0], i);
      StepLeavesLoose(s, run[0], i);
      InvariantKept(s, run[0]);
      if Step(s, run[0]).slots[i].owed == Loose {
        RunLeavesLoose(Step(s, run[0]), run[1..], i);
      } else {
        RunLeavesOwed(Step(s, run[0]), run[1..], i);
      }
    }
  }

  lemma LooseDoesNotPay(s: State, l: Label, i: nat)
    requires Invariant(s) && i < |s.slots| && s.slots[i].owed == Loose
    ensures !Pays(s, l, i, s.slots[i].due)
  {
    assert OwedOk(s, i);
  }

  // ----- Lost -----

  /** Nothing of the slot is reported and still to be dealt with. */
  ghost predicate NoneReported(s: State, i: nat) {
    forall k: nat {:trigger s.pfds[k]} :: Reported(s, k) ==> s.pfds[k].owner != i
  }

  /** The latest generation will not be paid for: SCHED is gone and was not taken up, or
      the kernel has no expiration left to report. */
  ghost predicate Forgotten(s: State, i: nat) {
    && i < |s.slots| && Standing(s.slots[i]) && OnlyKicked(s, i) && s.slots[i].open
    && ((!s.slots[i].word.sched && s.slots[i].agen < s.slots[i].gen)
        || (s.slots[i].fd in s.timers && s.timers[s.slots[i].fd].None?
            && s.slots[i].sgen <= s.slots[i].gen && (s.slots[i].agen < s.slots[i].gen || NoneReported(s, i))))
  }

  lemma ForgottenDoesNotPay(s: State, l: Label, i: nat, due: Option<nat>)
    requires Structure(s) && Forgotten(s, i)
    ensures !Pays(s, l, i, due)
  {
    EnteringIsReported(s, i);
  }

  lemma EnteringIsReported(s: State, i: nat)
    requires Structure(s)
    ensures Enters(s, i) ==> !NoneReported(s, i)
  {
    if Enters(s, i) {
      assert Reported(s, s.pc.k) && s.pfds[s.pc.k].owner == i;
    }
  }

  lemma CallHereForgets(s: State, a: Actor, i: nat)
    requires Structure(s) && CanStep(s, a) && Forgotten(s, i) && s.calls[a].i == i
    ensures Forgotten(CallStep(s, a), i)
  {
    var s' := CallStep(s, a);
    assert SlotOk(s, i) && CallOk(s, a);
    forall b | b in s'.calls && OnHandle(s'.calls[b]) && s'.calls[b].i == i ensures s'.calls[b].RestartKick? {
      OtherCallStays(s, a, b);
    }
    if NoneReported(s, i) {
      forall k: nat | Reported(s', k) ensures s'.pfds[k].owner != i {
        assert Reported(s, k);
      }
    }
  }

  lemma CallElsewhereForgets(s: State, a: Actor, i: nat)
    requires Structure(s) && CanStep(s, a) && Forgotten(s, i) && s.calls[a].i != i
    ensures Forgotten(CallStep(s, a), i)
  {
    var s' := CallStep(s, a);
    OthersUntouched(s, a, i);
    assert OnlyKicked(s', i);
    if NoneReported(s, i) {
      forall k: nat | Reported(s', k) ensures s'.pfds[k].owner != i {
        assert Reported(s, k);
      }
    }
  }

  /** A step of the worker on the slot itself, while it scans. */
  lemma ScanHereForgets(s: State, i: nat)
    requires Structure(s) && s.pc.Scan? && s.pc.i == i < |s.slots| && Forgotten(s, i)
    ensures Forgotten(WorkerStep(s), i)
  {
    assert SlotOk(s, i);
    assert NoneReported(WorkerStep(s), i);
  }

  lemma ScanElsewhereForgets(s: State, i: nat)
    requires Structure(s) && s.pc.Scan? && s.pc.i < |s.slots| && s.pc.i != i && Forgotten(s, i)
    ensures Forgotten(WorkerStep(s), i)
  {
    ScanLeavesOthers(s, i, s.pc.i, s.pc.look);
    assert SlotOk(s, i) && NoneReported(WorkerStep(s), i);
  }

  /** The worker only moves on, to no descriptor it has passed. */
  lemma NoneReportedKept(s: State, s': State, i: nat)
    requires NoneReported(s, i) && s'.pfds == s.pfds
    requires Cursor(s'.pc).Some? ==> Cursor(s.pc).Some? && Cursor(s.pc).value <= Cursor(s'.pc).value
    ensures NoneReported(s', i)
  {
    forall k: nat | Reported(s', k) ensures s'.pfds[k].owner != i {
      assert Reported(s, k);
    }
  }

  lemma ServeForgets(s: State, i: nat)
    requires Structure(s) && s.pc.Serve? && Forgotten(s, i)
    ensures Forgotten(WorkerStep(s), i)
  {
    assert SlotOk(s, i);
    if s.pc.k < |s.pfds| {
      assert PfdOk(s, s.pc.k);
    }
    if NoneReported(s, i) {
      NoneReportedKept(s, WorkerStep(s), i);
    }
  }

  lemma AlarmForgets(s: State, i: nat)
    requires Structure(s) && WorkerCanStep(s) && Forgotten(s, i)
    requires s.pc.Ring? || s.pc.Locked? || s.pc.Calling? || s.pc.Release? || s.pc.Clear?
    ensures Forgotten(WorkerStep(s), i)
  {
    if NoneReported(s, i) {
      NoneReportedKept(s, WorkerStep(s), i);
    }
  }

  lemma PassForgets(s: State, i: nat)
    requires Structure(s) && WorkerCanStep(s) && Forgotten(s, i)
    requires s.pc.Top? || s.pc.Polled? || s.pc.Lookup? || (s.pc.Scan? && s.pc.i >= |s.slots|)
    ensures Forgotten(WorkerStep(s), i)
  {
    if NoneReported(s, i) && !s.pc.Top? {
      NoneReportedKept(s, WorkerStep(s), i);
    }
  }

  lemma WorkForgets(s: State, i: nat)
    requires Structure(s) && WorkerCanStep(s) && Forgotten(s, i)
    ensures Forgotten(WorkerStep(s), i)
  {
    if s.pc.Scan? && s.pc.i == i {
      ScanHereForgets(s, i);
    } else if s.pc.Scan? && s.pc.i < |s.slots| {
      ScanElsewhereForgets(s, i);
    } else if s.pc.Serve? {
      ServeForgets(s, i);
    } else if s.pc.Top? || s.pc.Polled? || s.pc.Lookup? || s.pc.Scan? {
      PassForgets(s, i);
    } else {
      AlarmForgets(s, i);
    }
  }

  /** Poll does not report a descriptor with nothing to report. */
  lemma AnswerForgets(s: State, l: Label, i: nat)
    requires Structure(s) && Enabled(s, l) && l.Answer? && Forgotten(s, i)
    ensures Forgotten(Step(s, l), i)
  {
    var s' := Step(s, l);
    if s.slots[i].agen >= s.slots[i].gen {
      forall k: nat | Reported(s', k) ensures s'.pfds[k].owner != i {
        assert PfdOk(s, k) && Readable(s, s.pfds[k].fd);
      }
    }
  }

  lemma MakeForgets(s: State, l: Label, i: nat)
    requires Structure(s) && Enabled(s, l) && (l.Make? || l.Fail?) && Forgotten(s, i)
    ensures Forgotten(Step(s, l), i)
  {
    var s' := Step(s, l);
    assert CallOk(s, l.a) && SlotOk(s, i) && SlotOk(s, s.calls[l.a].i);
    OpenIsKnown(s, i);
    if NoneReported(s, i) {
      NoneReportedKept(s, s', i);
    }
  }

  lemma QuietForgets(s: State, l: Label, i: nat)
    requires Structure(s) && Enabled(s, l) && Forgotten(s, i) && !Concerns(l, i)
    requires l.Begin? || l.Tick? || l.Shutdown? || l.PollFails? || l.Leave?
    ensures Forgotten(Step(s, l), i)
  {
    if NoneReported(s, i) {
      NoneReportedKept(s, Step(s, l), i);
    }
  }

  lemma StepForgets(s: State, l: Label, i: nat)
    requires Structure(s) && Enabled(s, l) && Forgotten(s, i) && !Concerns(l, i)
    ensures Forgotten(Step(s, l), i)
  {
    match l
    case Act(a) =>
      if s.calls[a].i == i {
        CallHereForgets(s, a, i);
      } else {
        CallElsewhereForgets(s, a, i);
      }
    case Work => WorkForgets(s, i);
    case Make(_, _) => MakeForgets(s, l, i);
    case Fail(_) => MakeForgets(s, l, i);
    case Answer(_, _) => AnswerForgets(s, l, i);
    case _ => QuietForgets(s, l, i);
  }

  lemma {:induction false} RunForgets(s: State, run: seq<Label>, i: nat, due: Option<nat>)
    requires Structure(s) && IsRun(s, run) && Forgotten(s, i) && Undisturbed(run, i)
    ensures !Paid(s, run, i, due)
    decreases |run|
  {
    if run != [] {
      ForgottenDoesNotPay(s, run[0], i, due);
      StepForgets(s, run[0], i);
      StructureKept(s, run[0]);
      RunForgets(Step(s, run[0]), run[1..], i, due);
    }
  }

  /** What a losing step leaves behind. */
  lemma LosingForgets(s: State, i: nat)
    requires Invariant(s) && WorkerCanStep(s) && i < |s.slots| && s.slots[i].owed == Loose && Loses(s, Work, i)
    ensures Forgotten(WorkerStep(s), i)
  {
    assert OwedOk(s, i) && SlotOk(s, i);
    if Reads(s, i) {
      assert PfdOk(s, s.pc.k);
    }
  }

  lemma FirmIsNotLost(s: State, l: Label, i: nat)
    requires Invariant(s) && i < |s.slots| && Firm(s.slots[i]) && Enabled(s, l)
    ensures !Loses(s, l, i)
  {
    assert OwedOk(s, i);
    if Reads(s, i) {
      OwedIsReadDue(s, i);
    }
  }

  lemma {:induction false} FirmRunIsNotLost(s: State, run: seq<Label>, i: nat)
    requires Invariant(s) && i < |s.slots| && Firm(s.slots[i]) && IsRun(s, run) && Undisturbed(run, i)
    ensures !Lost(s, run, i, s.slots[i].due)
    decreases |run|
  {
    if run != [] && !Pays(s, run[0], i, s.slots[i].due) {
      FirmIsNotLost(s, run[0], i);
      StepLeavesOwed(s, run[0], i);
      InvariantKept(s, run[0]);
      FirmRunIsNotLost(Step(s, run[0]), run[1..], i);
    }
  }

  lemma {:induction false} LostIsNotPaid(s: State, run: seq<Label>, i: nat)
    requires Invariant(s) && i < |s.slots| && s.slots[i].owed == Loose && IsRun(s, run) && Undisturbed(run, i)
    requires Lost(s, run, i, s.slots[i].due)
    ensures !Paid(s, run, i, s.slots[i].due)
    decreases |run|
  {
    var s' := Step(s, run[0]);
    LooseDoesNotPay(s, run[0], i);
    InvariantKept(s, run[0]);
    StepLeavesLoose(s, run[0], i);
    if Loses(s, run[0], i) {
      LosingForgets(s, i);
      RunForgets(s', run[1..], i, s.slots[i].due);
    } else if s'.slots[i].owed == Loose {
      LostIsNotPaid(s', run[1..], i);
    } else {
      FirmRunIsNotLost(s', run[1..], i);
    }
  }

  // ----- The results -----

  /** A call from outside the timer's callback sets SCHED, calls not having overlapped. */
  ghost predicate RestartsFromOutside(s: State, a: Actor, i: nat) {
    && Reachable(s) && CanStep(s, a) && i < |s.slots| && s.calls[a] == RestartSched(i)
    && !Firing(s, a, i) && !s.slots[i].raced && s.slots[i].hasCb
  }

  lemma OutsideOwes(s: State, a: Actor, i: nat)
    requires RestartsFromOutside(s, a, i)
    ensures Invariant(CallStep(s, a)) && CallStep(s, a).slots[i].due == s.slots[i].due && s.slots[i].fd in s.timers
    ensures CallStep(s, a).slots[i].owed == if s.timers[s.slots[i].fd].Some? then Loose else Nothing
  {
    ReachableInvariant(s);
    assert SlotOk(s, i) && CallOk(s, a);
    InvariantKept(s, Act(a));
  }

  lemma OutsideLeaves(s: State, a: Actor, i: nat, run: seq<Label>)
    requires RestartsFromOutside(s, a, i) && s.slots[i].fd in s.timers && s.timers[s.slots[i].fd].Some?
    requires IsRun(CallStep(s, a), run) && Undisturbed(run, i)
    requires !Lost(CallStep(s, a), run, i, s.slots[i].due)
    ensures Invariant(After(CallStep(s, a), run))
    ensures var (e, due) := (After(CallStep(s, a), run), s.slots[i].due);
            Paid(CallStep(s, a), run, i, due) || (e.slots[i].owed != Nothing && e.slots[i].due == due)
  {
    OutsideOwes(s, a, i);
    RunLeavesLoose(CallStep(s, a), run, i);
    RunKeeps(CallStep(s, a), run);
  }

  lemma OwedStands(s: State, i: nat)
    requires Invariant(s) && i < |s.slots| && s.slots[i].owed != Nothing
    ensures Follows(s, i, s.slots[i].due) || StandsLoosely(s, i, s.slots[i].due)
  {
    assert OwedOk(s, i);
  }

  /** Main result: when a start or restart made from outside the timer's callback is lost.
      Its expiration not having been read when SCHED is set, take any run after that in
      which no other call on the timer begins. Either a step of the worker clears the
      SCHED bit without having turned it into ACTIVE, or reads the expiration with ACTIVE
      not set; then the callback is not entered for it, however long the run. Or the
      callback has been entered, or is about to be, or the deadline still stands. */
  lemma RestartIsLostIff(s: State, a: Actor, i: nat, run: seq<Label>)
    requires RestartsFromOutside(s, a, i) && s.slots[i].fd in s.timers && s.timers[s.slots[i].fd].Some?
    requires IsRun(CallStep(s, a), run) && Undisturbed(run, i)
    ensures var (s', due) := (CallStep(s, a), s.slots[i].due);
            if Lost(s', run, i, due) then !Paid(s', run, i, due)
            else Paid(s', run, i, due) || Follows(After(s', run), i, due) || StandsLoosely(After(s', run), i, due)
  {
    OutsideOwes(s, a, i);
    var (s', due) := (CallStep(s, a), s.slots[i].due);
    if Lost(s', run, i, due) {
      LostIsNotPaid(s', run, i);
    } else {
      OutsideLeaves(s, a, i, run);
      if !Paid(s', run, i, due) {
        OwedStands(After(s', run), i);
      }
    }
  }

  /** Main result: and if its expiration has been read before SCHED is set, it is lost. */
  lemma ReadTooSoonIsLost(s: State, a: Actor, i: nat, run: seq<Label>)
    requires RestartsFromOutside(s, a, i) && s.slots[i].fd in s.timers && s.timers[s.slots[i].fd].None?
    requires IsRun(CallStep(s, a), run) && Undisturbed(run, i)
    ensures !Paid(CallStep(s, a), run, i, s.slots[i].due)
  {
    ReadTooSoonForgets(s, a, i);
    RunForgets(CallStep(s, a), run, i, s.slots[i].due);
  }

  lemma ReadTooSoonForgets(s: State, a: Actor, i: nat)
    requires RestartsFromOutside(s, a, i) && s.slots[i].fd in s.timers && s.timers[s.slots[i].fd].None?
    ensures Structure(CallStep(s, a)) && Forgotten(CallStep(s, a), i)
  {
    var s' := CallStep(s, a);
    ReachableInvariant(s);
    CallKeepsStructure(s, a);
    assert TimingOk(s, i) && CallTimingOk(s, a, s.slots[i]) && SlotOk(s, i) && CallOk(s, a);
    OnlyCallStays(s, a, i);
    forall b | b in s'.calls && OnHandle(s'.calls[b]) && s'.calls[b].i == i ensures s'.calls[b].RestartKick? {
      assert b == a;
    }
  }

  // ----- Waking the worker for it -----

  /** The worker is to take SCHED up in the pass it is in or about to begin, or will be
      woken to begin one. */
  predicate Noticed(s: State, i: nat) {
    WakePending(s, i) || s.pc.Top? || s.pc.Exited? || BeforeTest(s.pc, i)
  }

  /** A write to the eventfd is to come, or was made and is not taken up. */
  predicate WakePending(s: State, i: nat) {
    s.events > 0 || exists b {:trigger s.calls[b]} :: b in s.calls && s.calls[b] == RestartKick(i)
  }

  lemma CallNotices(s: State, a: Actor, i: nat)
    requires CanStep(s, a) && Noticed(s, i)
    ensures Noticed(CallStep(s, a), i)
  {
    CallKicks(s, a);
    if b :| b in s.calls && s.calls[b] == RestartKick(i) {
      KickStays(s, a, b);
    }
  }

  lemma KickStays(s: State, a: Actor, b: Actor)
    requires CanStep(s, a)
    ensures b != a && b in s.calls ==> b in CallStep(s, a).calls && CallStep(s, a).calls[b] == s.calls[b]
  {
    var (before, after) := (s.calls - {a}, CallStep(s, a).calls - {a});
    assert before == after && (b in before ==> after[b] == before[b]);
  }

  lemma WorkNotices(s: State, i: nat)
    requires Invariant(s) && WorkerCanStep(s) && EventsOk(s) && Noticed(s, i) && i < |s.slots|
    requires s.slots[i].owed == Loose
    ensures Noticed(WorkerStep(s), i) || WorkerStep(s).slots[i].owed != Loose
  {
    assert OwedOk(s, i);
    WorkTakes(s);
    TakenUpIsTop(s);
    if WakePending(s, i) && s.pc != Polled(true) {
      assert WorkerStep(s).calls == s.calls && WakePending(WorkerStep(s), i);
    }
  }

  lemma StepNotices(s: State, l: Label, i: nat)
    requires Invariant(s) && Enabled(s, l) && EventsOk(s) && Noticed(s, i) && i < |s.slots|
    requires s.slots[i].owed == Loose && !Concerns(l, i)
    ensures Noticed(Step(s, l), i) || Step(s, l).slots[i].owed != Loose
  {
    match l
    case Act(a) => CallNotices(s, a, i);
    case Work => WorkNotices(s, i);
    case Make(_, _) => MakeNotices(s, l, i);
    case Fail(_) => MakeNotices(s, l, i);
    case Begin(a, c) => BeginNotices(s, a, c, i);
    case _ =>
      if b :| b in s.calls && s.calls[b] == RestartKick(i) {
        assert b in Step(s, l).calls;
      }
  }

  lemma MakeNotices(s: State, l: Label, i: nat)
    requires Enabled(s, l) && (l.Make? || l.Fail?) && Noticed(s, i)
    ensures Noticed(Step(s, l), i)
  {
    if b :| b in s.calls && s.calls[b] == RestartKick(i) {
      assert b in Step(s, l).calls && Step(s, l).calls[b] == RestartKick(i);
    }
  }

  lemma BeginNotices(s: State, a: Actor, c: Call, i: nat)
    requires MayBegin(s, a, c) && Noticed(s, i)
    ensures Noticed(Begun(s, a, c), i)
  {
    if b :| b in s.calls && s.calls[b] == RestartKick(i) {
      assert b in Begun(s, a, c).calls && Begun(s, a, c).calls[b] == RestartKick(i);
    }
  }

  lemma {:induction false} RunNotices(s: State, run: seq<Label>, i: nat)
    requires Invariant(s) && EventsOk(s) && i < |s.slots| && IsRun(s, run) && Undisturbed(run, i)
    requires OnlyKicked(s, i) && (s.slots[i].owed == Loose ==> Noticed(s, i))
    ensures After(s, run).slots[i].owed == Loose ==> Noticed(After(s, run), i)
    decreases |run|
  {
    if run != [] {
      InvariantKept(s, run[0]);
      StepCountsEvents(s, run[0]);
      NeverLooseAgain(s, run[0], i);
      if s.slots[i].owed == Loose {
        StepNotices(s, run[0], i);
      }
      RunNotices(Step(s, run[0]), run[1..], i);
    }
  }

  /** Only another call makes an arming owed anew. */
  lemma NeverLooseAgain(s: State, l: Label, i: nat)
    requires Structure(s) && Enabled(s, l) && i < |s.slots| && !Concerns(l, i) && OnlyKicked(s, i)
    ensures OnlyKicked(Step(s, l), i) && (Step(s, l).slots[i].owed == Loose ==> s.slots[i].owed == Loose)
  {
    if l.Act? {
      CallsAreNotNew(s, l.a, i);
    }
  }

  lemma CallsAreNotNew(s: State, a: Actor, i: nat)
    requires CanStep(s, a) && i < |s.slots| && OnlyKicked(s, i)
    ensures OnlyKicked(CallStep(s, a), i) && CallStep(s, a).slots[i].owed == s.slots[i].owed
  {
    var s' := CallStep(s, a);
    forall b | b in s'.calls && OnHandle(s'.calls[b]) && s'.calls[b].i == i ensures s'.calls[b].RestartKick? {
      OtherCallStays(s, a, b);
    }
  }

  lemma ReachableEvents(s: State)
    requires Reachable(s)
    ensures EventsOk(s)
  {
    var n: nat, run: seq<Label> :| IsRun(Initial(n), run) && After(Initial(n), run) == s;
    RunCountsEvents(Initial(n), run);
  }

  lemma OutsideNotices(s: State, a: Actor, i: nat, run: seq<Label>)
    requires RestartsFromOutside(s, a, i) && s.slots[i].fd in s.timers && s.timers[s.slots[i].fd].Some?
    requires IsRun(CallStep(s, a), run) && Undisturbed(run, i)
    ensures After(CallStep(s, a), run).slots[i].owed == Loose ==> Noticed(After(CallStep(s, a), run), i)
  {
    var s' := CallStep(s, a);
    OutsideOwes(s, a, i);
    ReachableEvents(s);
    StepCountsEvents(s, Act(a));
    assert a in s'.calls && s'.calls[a] == RestartKick(i) && OwedOk(s', i);
    RunNotices(s', run, i);
  }

  /** Main result: the worker does not sleep on it. After such a start or restart, while
      no other call on the timer begins, nothing loses it and no callback is entered for
      it, a worker that polls watches its descriptor with ACTIVE set, or will be woken:
      the eventfd is readable, or a write to it is still to come. */
  lemma SchedIsNoticed(s: State, a: Actor, i: nat, run: seq<Label>)
    requires RestartsFromOutside(s, a, i) && s.slots[i].fd in s.timers && s.timers[s.slots[i].fd].Some?
    requires IsRun(CallStep(s, a), run) && Undisturbed(run, i)
    ensures var (s', e, due) := (CallStep(s, a), After(CallStep(s, a), run), s.slots[i].due);
            e.pc.Poll? && !Paid(s', run, i, due) && !Lost(s', run, i, due) ==>
              WakePending(e, i) || (e.slots[i].word.active && InPoll(e, i))
  {
    var e := After(CallStep(s, a), run);
    OutsideNotices(s, a, i, run);
    if !Lost(CallStep(s, a), run, i, s.slots[i].due) {
      OutsideLeaves(s, a, i, run);
      assert OwedOk(e, i);
    }
  }

  /** Main result: and the callback follows the read. Once the descriptor of such a start
      or restart is read with ACTIVE set, nothing having lost it, the worker is not blocked
      and enters the callback for it within its next `i` + 4 steps, while no other call on
      the timer begins. */
  lemma OutsideCallbackFollows(s: State, a: Actor, i: nat, before: seq<Label>, run: seq<Label>, e: State)
    requires RestartsFromOutside(s, a, i) && s.slots[i].fd in s.timers && s.timers[s.slots[i].fd].Some?
    requires IsRun(CallStep(s, a), before) && Undisturbed(before, i) && e == After(CallStep(s, a), before)
    requires !Paid(CallStep(s, a), before, i, s.slots[i].due) && !Lost(CallStep(s, a), before, i, s.slots[i].due)
    requires Reads(e, i) && e.slots[i].word.active && IsRun(WorkerStep(e), run) && Undisturbed(run, i)
    ensures Paid(WorkerStep(e), run, i, s.slots[i].due)
            || (Works(run) < i + 4 && WorkerCanStep(After(WorkerStep(e), run)))
  {
    OutsideLeaves(s, a, i, before);
    assert OwedOk(e, i);
    FoundIsPaid(e, run, i);
  }
}
