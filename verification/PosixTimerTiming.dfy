// While a POSIX timer's calls do not overlap, its SCHED and ACTIVE bits are those of the
// latest restart, and ACTIVE together with a descriptor reported means that restart's
// deadline has passed, though the poll may predate other restarts and stops.
module PosixTimerTiming {

  import opened Wrappers
  import opened PosixTimerModel
  import opened PosixTimerStructure
  import opened PosixTimerArming

  /** The slot has a deadline, and the kernel's, if it has one still to read, is that. */
  predicate Armed(t: Slot, timers: map<int, Option<nat>>) {
    t.due.Some? && t.fd in timers && (timers[t.fd].Some? ==> timers[t.fd] == t.due)
  }

  predicate Passed(t: Slot, now: nat) {
    t.due.Some? && t.due.value <= now
  }

  /** The first descriptor the worker has still to serve, or is serving: its alarm
      may still lead to a callback. */
  function Cursor(pc: Pc): Option<nat> {
    match pc
    case Polled(_) => Some(0)
    case Serve(k) => Some(k)
    case Lookup(k, _) => Some(k)
    case Ring(k, _) => Some(k)
    case Locked(k, _) => Some(k)
    case Calling(k, _) => Some(k)
    case InCallback(k, _) => Some(k)
    case Release(k, _) => Some(k)
    case Clear(k, _) => Some(k)
    case _ => None
  }

  /** The `k`th descriptor was reported ready and is still to be dealt with. */
  predicate Reported(s: State, k: nat) {
    Cursor(s.pc).Some? && Cursor(s.pc).value <= k < |s.pfds| && s.pfds[k].ready
  }

  /** The call has disarmed the slot and is yet to finish. */
  predicate MidCall(c: Call) {
    c.RestartSet? || c.RestartSched? || c.StopSet?
  }

  /** What holds of a slot no two calls have worked on at once. */
  ghost predicate TimingOk(s: State, i: nat)
    requires i < |s.slots|
  {
    var t := s.slots[i];
    && (t.word.sched ==> t.sgen == t.gen && Armed(t, s.timers))
    && (t.word.active && !Spent(s.pc, i) ==> t.agen == t.gen && Armed(t, s.timers))
    && (forall k: nat {:trigger s.pfds[k]} ::
         Reported(s, k) && s.pfds[k].owner == i && t.word.active && !Spent(s.pc, i) ==>
          Passed(t, s.now))
    && (forall a {:trigger s.calls[a]} :: a in s.calls && OnHandle(s.calls[a]) && s.calls[a].i == i ==>
          CallTimingOk(s, a, t))
  }

  predicate CallTimingOk(s: State, a: Actor, t: Slot)
    requires a in s.calls
  {
    var c := s.calls[a];
    && (MidCall(c) ==> !t.word.active && !t.word.sched && t.agen < t.gen)
    && (c.RestartSched? ==> Armed(t, s.timers))
    && (forall b {:trigger s.calls[b]} :: b in s.calls && OnHandle(s.calls[b]) && s.calls[b].i == c.i ==> b == a)
  }

  ghost predicate TimingsOk(s: State) {
    forall i {:trigger s.slots[i]} :: 0 <= i < |s.slots| && !s.slots[i].raced ==> TimingOk(s, i)
  }

  /** A step that leaves the slot, its kernel timer and its calls alone. */
  lemma ElsewhereTimed(s: State, s': State, i: nat)
    requires Structure(s) && i < |s.slots| == |s'.slots| && TimingOk(s, i) && s'.slots[i] == s.slots[i]
          && s.now <= s'.now
    requires var fd := s.slots[i].fd; s.slots[i].open ==> fd in s'.timers && s'.timers[fd] == s.timers[fd]
    requires s'.pc == s.pc && s'.pfds == s.pfds
    requires forall a {:trigger s'.calls[a]} {:trigger a in s'.calls} ::
        a in s'.calls && OnHandle(s'.calls[a]) && s'.calls[a].i == i ==>
               a in s.calls && s.calls[a] == s'.calls[a]
    ensures TimingOk(s', i)
  {
    assert SlotOk(s, i);
    forall a | a in s'.calls && OnHandle(s'.calls[a]) && s'.calls[a].i == i ensures CallTimingOk(s', a, s'.slots[i]) {
      assert CallTimingOk(s, a, s.slots[i]) && CallOk(s, a);
    }
  }

  lemma CallTimed(s: State, a: Actor, i: nat)
    requires Structure(s) && CanStep(s, a) && i < |s.slots| && TimingOk(s, i)
    requires CountOk(s, i)
    ensures TimingOk(CallStep(s, a), i)
  {
    if s.calls[a].i != i {
      CallElsewhere(s, a, i);
    } else if OnHandle(s.calls[a]) {
      HandleCallTimed(s, a, i);
    } else if s.calls[a].Alloc? {
      AllocTimed(s, a, i);
    } else {
      InstallTimed(s, a, i);
    }
  }

  lemma InstallTimed(s: State, a: Actor, i: nat)
    requires Structure(s) && CanStep(s, a) && i < |s.slots| && TimingOk(s, i) && s.calls[a].i == i
          && Installs(s.calls[a])
    ensures TimingOk(CallStep(s, a), i)
  {
    var s' := CallStep(s, a);
    assert CallOk(s, a) && SlotOk(s, i);
    InstallerIsAlone(s, a);
    forall b | b in s'.calls && OnHandle(s'.calls[b]) && s'.calls[b].i == i ensures b == a {
      OtherCallStays(s, a, b);
    }
  }

  lemma AllocTimed(s: State, a: Actor, i: nat)
    requires Structure(s) && CanStep(s, a) && i < |s.slots| && TimingOk(s, i) && s.calls[a].i == i && s.calls[a].Alloc?
    ensures TimingOk(CallStep(s, a), i)
  {
    var s' := CallStep(s, a);
    assert SlotOk(s, i);
    forall b | b in s'.calls && OnHandle(s'.calls[b]) && s'.calls[b].i == i ensures CallTimingOk(s', b, s'.slots[i]) {
      assert CallTimingOk(s, b, s.slots[i]) && CallOk(s, b);
    }
  }

  lemma CallElsewhere(s: State, a: Actor, i: nat)
    requires Structure(s) && CanStep(s, a) && i < |s.slots| && TimingOk(s, i) && s.calls[a].i != i
    ensures TimingOk(CallStep(s, a), i)
  {
    OthersUntouched(s, a, i);
    ElsewhereTimed(s, CallStep(s, a), i);
  }

  lemma HandleCallTimed(s: State, a: Actor, i: nat)
    requires Structure(s) && CanStep(s, a) && i < |s.slots| && TimingOk(s, i) && s.calls[a].i == i
          && OnHandle(s.calls[a])
    requires CountOk(s, i)
    ensures TimingOk(CallStep(s, a), i)
  {
    if Stops(s.calls[a]) {
      StopTimed(s, a, i);
    } else if s.calls[a].CloseMark? {
      MarkTimed(s, a, i);
    } else if OnlyClose(s.calls[a]) {
      LockTimed(s, a, i);
    } else {
      RestartTimed(s, a, i);
    }
  }

  lemma StopTimed(s: State, a: Actor, i: nat)
    requires Structure(s) && CanStep(s, a) && i < |s.slots| && TimingOk(s, i) && s.calls[a].i == i
    requires Stops(s.calls[a])
    requires CountOk(s, i)
    ensures TimingOk(CallStep(s, a), i)
  {
    assert SlotOk(s, i) && CallTimingOk(s, a, s.slots[i]);
    OnlyCallStays(s, a, i);
  }

  /** An uninstall takes or gives back its lock. */
  lemma LockTimed(s: State, a: Actor, i: nat)
    requires Structure(s) && CanStep(s, a) && i < |s.slots| && TimingOk(s, i) && s.calls[a].i == i
    requires s.calls[a].CloseLock? || s.calls[a].CloseUnlock?
    ensures TimingOk(CallStep(s, a), i)
  {
    assert SlotOk(s, i) && CallTimingOk(s, a, s.slots[i]);
    OnlyCallStays(s, a, i);
  }

  /** It marks the slot. */
  lemma MarkTimed(s: State, a: Actor, i: nat)
    requires Structure(s) && CanStep(s, a) && i < |s.slots| && TimingOk(s, i) && s.calls[a].i == i
    requires s.calls[a].CloseMark?
    ensures TimingOk(CallStep(s, a), i)
  {
    assert SlotOk(s, i) && CallTimingOk(s, a, s.slots[i]);
    OnlyCallStays(s, a, i);
  }

  lemma RestartTimed(s: State, a: Actor, i: nat)
    requires Structure(s) && CanStep(s, a) && i < |s.slots| && TimingOk(s, i) && s.calls[a].i == i
          && OnHandle(s.calls[a])
    requires !Stops(s.calls[a]) && !OnlyClose(s.calls[a])
    requires CountOk(s, i)
    ensures TimingOk(CallStep(s, a), i)
  {
    var s' := CallStep(s, a);
    assert CallOk(s, a) && SlotOk(s, i) && CallTimingOk(s, a, s.slots[i]);
    OnlyCallStays(s, a, i);
  }

  lemma OnlyCallStays(s: State, a: Actor, i: nat)
    requires CanStep(s, a) && i < |s.slots| && TimingOk(s, i) && s.calls[a].i == i && OnHandle(s.calls[a])
    ensures var s' := CallStep(s, a);
            forall b {:trigger s'.calls[b]} :: b in s'.calls && OnHandle(s'.calls[b]) && s'.calls[b].i == i ==> b == a
  {
    var s' := CallStep(s, a);
    assert CallTimingOk(s, a, s.slots[i]);
    forall b | b in s'.calls && OnHandle(s'.calls[b]) && s'.calls[b].i == i ensures b == a {
      OtherCallStays(s, a, b);
    }
  }

  /** A worker's step that keeps the slot's calls, its timer unless read, and adds no report. */
  lemma WorkKeepsTimed(s: State, s': State, i: nat)
    requires Structure(s) && i < |s.slots| == |s'.slots| && TimingOk(s, i) && s'.calls == s.calls && s.now == s'.now
    requires var (t, t') := (s.slots[i], s'.slots[i]);
             && t' == t.(word := t'.word, agen := t'.agen, holder := t'.holder, fires := t'.fires, owed := t'.owed)
             && t'.word == t.word.(active := t'.word.active, sched := t'.word.sched) && (t'.word.sched ==> t.word.sched)
             && (t'.word.active && !Spent(s'.pc, i) ==>
                   (t.word.active && !Spent(s.pc, i) && t'.agen == t.agen)
                   || (t.word.sched && t'.agen == t.sgen && Cursor(s'.pc).None?))
             && (t'.word.active ==> t.word.active || t.word.sched) && (t'.agen == t.agen || t.word.sched)
    requires var fd := s.slots[i].fd; s.slots[i].open ==>
               fd in s'.timers && (s'.timers[fd] == s.timers[fd] || s'.timers[fd].None?)
    requires forall k: nat {:trigger s'.pfds[k]} :: Reported(s', k) && s'.pfds[k].owner == i ==>
          Reported(s, k) && s.pfds[k] == s'.pfds[k]
    ensures TimingOk(s', i)
  {
    assert SlotOk(s, i);
    forall a | a in s'.calls && OnHandle(s'.calls[a]) && s'.calls[a].i == i ensures CallTimingOk(s', a, s'.slots[i]) {
      assert CallTimingOk(s, a, s.slots[i]) && CallOk(s, a);
    }
    forall k: nat | Reported(s', k) && s'.pfds[k].owner == i && s'.slots[i].word.active && !Spent(s'.pc, i)
      ensures Passed(s'.slots[i], s'.now)
    {
      assert s.pfds[k] == s'.pfds[k];
    }
  }

  lemma CleanupTimed(s: State, i: nat, look: Look)
    requires Structure(s) && s.pc == Scan(i, look) && i < |s.slots| && TimingOk(s, i)
          && (look == Wipe || look == CloseFd)
    ensures TimingOk(WorkerStep(s), i)
  {
    assert SlotOk(s, i);
    UnownedIsUnused(s, Worker, i);
    assert Worker in s.calls ==> CallOk(s, Worker);
  }

  lemma ScanTimed(s: State, i: nat, j: nat, look: Look)
    requires Structure(s) && s.pc == Scan(j, look) && j < |s.slots| && i < |s.slots| && TimingOk(s, i)
    ensures TimingOk(WorkerStep(s), i)
  {
    if i == j && (look == Wipe || look == CloseFd) {
      CleanupTimed(s, i, look);
    } else if i == j {
      assert SlotOk(s, i);
      WorkKeepsTimed(s, WorkerStep(s), i);
    } else {
      ScanElsewhereTimed(s, i, j, look);
    }
  }

  lemma ScanElsewhereTimed(s: State, i: nat, j: nat, look: Look)
    requires Structure(s) && s.pc == Scan(j, look) && j < |s.slots| && i < |s.slots| && TimingOk(s, i) && i != j
    ensures TimingOk(WorkerStep(s), i)
  {
    assert SlotOk(s, i) && SlotOk(s, j);
    OpenIsKnown(s, j);
    WorkKeepsTimed(s, WorkerStep(s), i);
  }

  /** The worker only moves on, to no descriptor it has passed. */
  lemma MovedTimed(s: State, s': State, i: nat)
    requires Structure(s) && i < |s.slots| && TimingOk(s, i) && s' == s.(pc := s'.pc, events := s'.events)
    requires Spent(s.pc, i) ==> Spent(s'.pc, i)
    requires Cursor(s'.pc).Some? ==> Cursor(s.pc).Some? && Cursor(s.pc).value <= Cursor(s'.pc).value
    ensures TimingOk(s', i)
  {
    assert SlotOk(s, i);
    WorkKeepsTimed(s, s', i);
  }

  lemma RingTimed(s: State, i: nat)
    requires Structure(s) && WorkerCanStep(s) && i < |s.slots| && TimingOk(s, i) && s.pc.Ring?
    ensures TimingOk(WorkerStep(s), i)
  {
    if s.slots[s.pc.i].hasCb {
      assert SlotOk(s, i);
      WorkKeepsTimed(s, WorkerStep(s), i);
    } else {
      MovedTimed(s, WorkerStep(s), i);
    }
  }

  lemma AdmitTimed(s: State, i: nat)
    requires Structure(s) && i < |s.slots| && TimingOk(s, i) && s.pc.Locked?
    ensures TimingOk(WorkerStep(s), i)
  {
    MovedTimed(s, WorkerStep(s), i);
  }

  lemma EntryTimed(s: State, i: nat)
    requires Structure(s) && WorkerCanStep(s) && i < |s.slots| && TimingOk(s, i) && s.pc.Calling?
    ensures TimingOk(WorkerStep(s), i)
  {
    assert SlotOk(s, i);
    WorkKeepsTimed(s, WorkerStep(s), i);
  }

  lemma ReleaseTimed(s: State, i: nat)
    requires Structure(s) && WorkerCanStep(s) && i < |s.slots| && TimingOk(s, i) && s.pc.Release?
    ensures TimingOk(WorkerStep(s), i)
  {
    assert SlotOk(s, i);
    WorkKeepsTimed(s, WorkerStep(s), i);
  }

  lemma ClearTimed(s: State, i: nat)
    requires Structure(s) && WorkerCanStep(s) && i < |s.slots| && TimingOk(s, i) && s.pc.Clear?
    ensures TimingOk(WorkerStep(s), i)
  {
    assert SlotOk(s, i);
    WorkKeepsTimed(s, WorkerStep(s), i);
  }

  lemma ReadTimed(s: State, i: nat)
    requires Structure(s) && s.pc.Serve? && s.pc.k < |s.pfds| && s.pfds[s.pc.k].ready
    requires i < |s.slots| && TimingOk(s, i)
    ensures TimingOk(WorkerStep(s), i)
  {
    assert SlotOk(s, i);
    WorkKeepsTimed(s, WorkerStep(s), i);
  }

  lemma PassTimed(s: State, i: nat)
    requires Structure(s) && s.pc.Serve? && (s.pc.k >= |s.pfds| || !s.pfds[s.pc.k].ready)
    requires i < |s.slots| && TimingOk(s, i)
    ensures TimingOk(WorkerStep(s), i)
  {
    MovedTimed(s, WorkerStep(s), i);
  }

  lemma LookupTimed(s: State, i: nat)
    requires Structure(s) && i < |s.slots| && TimingOk(s, i) && s.pc.Lookup?
    ensures TimingOk(WorkerStep(s), i)
  {
    MovedTimed(s, WorkerStep(s), i);
  }

  lemma PolledTimed(s: State, i: nat)
    requires Structure(s) && i < |s.slots| && TimingOk(s, i) && s.pc.Polled?
    ensures TimingOk(WorkerStep(s), i)
  {
    MovedTimed(s, WorkerStep(s), i);
  }

  /** A pass begins. */
  lemma TopTimed(s: State, i: nat)
    requires Structure(s) && WorkerCanStep(s) && i < |s.slots| && TimingOk(s, i) && s.pc.Top?
    ensures TimingOk(WorkerStep(s), i)
  {
    assert SlotOk(s, i);
    WorkKeepsTimed(s, WorkerStep(s), i);
  }

  lemma ScannedTimed(s: State, i: nat)
    requires Structure(s) && i < |s.slots| && TimingOk(s, i) && s.pc.Scan? && s.pc.i >= |s.slots|
    ensures TimingOk(WorkerStep(s), i)
  {
    MovedTimed(s, WorkerStep(s), i);
  }

  lemma WorkTimed(s: State, i: nat)
    requires Structure(s) && WorkerCanStep(s) && i < |s.slots| && TimingOk(s, i)
    ensures TimingOk(WorkerStep(s), i)
  {
    match s.pc
    case Scan(j, look) =>
      if j < |s.slots| {
        ScanTimed(s, i, j, look);
      } else {
        ScannedTimed(s, i);
      }
    case Serve(k) =>
      if k < |s.pfds| && s.pfds[k].ready {
        ReadTimed(s, i);
      } else {
        PassTimed(s, i);
      }
    case Top => TopTimed(s, i);
    case Polled(_) => PolledTimed(s, i);
    case Lookup(_, _) => LookupTimed(s, i);
    case Ring(_, _) => RingTimed(s, i);
    case Locked(_, _) => AdmitTimed(s, i);
    case Calling(_, _) => EntryTimed(s, i);
    case Release(_, _) => ReleaseTimed(s, i);
    case Clear(_, _) => ClearTimed(s, i);
  }

  // ----- The other steps -----

  lemma BeginTimed(s: State, a: Actor, c: Call, i: nat)
    requires Structure(s) && MayBegin(s, a, c) && i < |s.slots| && TimingOk(s, i)
    requires !Begun(s, a, c).slots[i].raced
    ensures TimingOk(Begun(s, a, c), i)
  {
    var s' := Begun(s, a, c);
    assert SlotOk(s, i);
    if c.Alloc? || c.i != i {
      ElsewhereTimed(s, s', i);
    } else {
      assert !Busy(s, a, i);
      forall b | b in s'.calls && OnHandle(s'.calls[b]) && s'.calls[b].i == i ensures b == a {}
    }
  }

  lemma MadeTimed(s: State, a: Actor, fd: int, i: nat)
    requires Structure(s) && MayMake(s, a, fd) && i < |s.slots| && (s.calls[a].i != i ==> TimingOk(s, i))
    ensures TimingOk(Made(s, a, fd), i)
  {
    var s' := Made(s, a, fd);
    assert SlotOk(s, i) && CallOk(s, a);
    OpenIsKnown(s, i);
    if s.calls[a].i != i {
      ElsewhereTimed(s, s', i);
    } else {
      InstallerIsAlone(s, a);
    }
  }

  lemma FailTimed(s: State, a: Actor, i: nat)
    requires Structure(s) && MayFail(s, a) && i < |s.slots| && TimingOk(s, i)
    ensures TimingOk(FailedStep(s, a), i)
  {
    var s' := FailedStep(s, a);
    assert SlotOk(s, i) && CallOk(s, a) && SlotOk(s, s.calls[a].i);
    OpenIsKnown(s, s.calls[a].i);
    if s.calls[a].i != i {
      ElsewhereTimed(s, s', i);
    } else {
      InstallerIsAlone(s, a);
    }
  }

  /** Poll reports a watched slot's descriptor only once its deadline has passed. */
  lemma AnswerTimed(s: State, event: bool, ready: seq<bool>, i: nat)
    requires Structure(s) && MayAnswer(s, event, ready) && i < |s.slots| && TimingOk(s, i)
    ensures TimingOk(Step(s, Answer(event, ready)), i)
  {
    var s' := Step(s, Answer(event, ready));
    forall k: nat | Reported(s', k) && s'.pfds[k].owner == i && s'.slots[i].word.active && !Spent(s'.pc, i)
      ensures Passed(s'.slots[i], s'.now)
    {
      assert PfdOk(s, k) && Readable(s, s.pfds[k].fd);
    }
    forall a | a in s'.calls && OnHandle(s'.calls[a]) && s'.calls[a].i == i ensures CallTimingOk(s', a, s'.slots[i]) {
      assert CallTimingOk(s, a, s.slots[i]);
    }
  }

  lemma QuietTimed(s: State, l: Label, i: nat)
    requires Structure(s) && Enabled(s, l) && i < |s.slots| && TimingOk(s, i)
    requires l.Tick? || l.PollFails? || l.Leave? || l.Shutdown?
    ensures TimingOk(Step(s, l), i)
  {
    var s' := Step(s, l);
    forall k: nat | Reported(s', k) && s'.pfds[k].owner == i && s'.slots[i].word.active && !Spent(s'.pc, i)
      ensures Passed(s'.slots[i], s'.now)
    {
      assert Reported(s, k) && s.pfds[k].owner == i;
    }
    forall a | a in s'.calls && OnHandle(s'.calls[a]) && s'.calls[a].i == i ensures CallTimingOk(s', a, s'.slots[i]) {
      assert CallTimingOk(s, a, s.slots[i]);
    }
  }

  /** A lone restart or stop starts afresh, whatever overlapping calls left behind. */
  lemma DisarmedTimed(s: State, a: Actor, i: nat)
    requires Structure(s) && CanStep(s, a) && i < |s.slots| && s.calls[a].i == i && Disarms(s.calls[a])
          && !Busy(s, a, i)
    requires CountOk(s, i)
    ensures TimingOk(CallStep(s, a), i)
  {
    var s' := CallStep(s, a);
    forall b | b in s'.calls && OnHandle(s'.calls[b]) && s'.calls[b].i == i ensures b == a {
      assert b in s.calls;
    }
  }

  lemma TimingKept(s: State, l: Label, i: nat)
    requires Structure(s) && Enabled(s, l) && i < |s.slots| && (!s.slots[i].raced ==> TimingOk(s, i))
    requires CountOk(s, i)
    requires !Step(s, l).slots[i].raced
    ensures TimingOk(Step(s, l), i)
  {
    if s.slots[i].raced {
      RacedStays(s, l, i);
    }
    match l
    case Begin(a, c) => BeginTimed(s, a, c, i);
    case Act(a) =>
      if s.slots[i].raced {
        DisarmedTimed(s, a, i);
      } else {
        CallTimed(s, a, i);
      }
    case Make(a, fd) => MadeTimed(s, a, fd, i);
    case Fail(a) => FailTimed(s, a, i);
    case Work => WorkTimed(s, i);
    case Answer(event, ready) => AnswerTimed(s, event, ready, i);
    case _ => QuietTimed(s, l, i);
  }

  /** Overlapping calls are settled only by a new installation, or by a restart or
      stop made alone. */
  lemma RacedStays(s: State, l: Label, i: nat)
    requires Structure(s) && Enabled(s, l) && i < |s.slots| && s.slots[i].raced && !Step(s, l).slots[i].raced
    ensures (l.Make? && s.calls[l.a].i == i) || (l.Act? && s.calls[l.a].i == i && Disarms(s.calls[l.a])
          && !Busy(s, l.a, i))
  {
  }

  lemma TimingsKept(s: State, l: Label)
    requires Structure(s) && Enabled(s, l) && CountsOk(s) && TimingsOk(s)
    ensures TimingsOk(Step(s, l))
  {
    var s' := Step(s, l);
    forall i | 0 <= i < |s'.slots| && !s'.slots[i].raced ensures TimingOk(s', i) {
      if !s.slots[i].raced {
        assert TimingOk(s, i);
      }
      assert CountOk(s, i);
      TimingKept(s, l, i);
    }
  }
}
