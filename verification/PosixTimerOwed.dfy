// A restart made by a timer's own callback is not lost: unless another call
// touches the timer, the worker's next pass watches its descriptor for the new
// deadline, reads it only once that has passed, and then calls the callback.
module PosixTimerOwed {

  import opened Wrappers
  import opened PosixTimerModel
  import opened PosixTimerStructure
  import opened PosixTimerTiming

  /** The first descriptor the worker has still to read. */
  function Unread(pc: Pc): Option<nat> {
    match pc
    case Polled(_) => Some(0)
    case Serve(k) => Some(k)
    case Lookup(k, _) => Some(k + 1)
    case Ring(k, _) => Some(k + 1)
    case Locked(k, _) => Some(k + 1)
    case Calling(k, _) => Some(k + 1)
    case InCallback(k, _) => Some(k + 1)
    case Release(k, _) => Some(k + 1)
    case Clear(k, _) => Some(k + 1)
    case _ => None
  }

  ghost predicate StillToRead(s: State, i: nat) {
    Unread(s.pc).Some? && exists k: nat {:trigger s.pfds[k]} ::
      Unread(s.pc).value <= k < |s.pfds| && s.pfds[k].owner == i
  }

  ghost predicate InPoll(s: State, i: nat)
    requires i < |s.slots|
  {
    exists k {:trigger s.pfds[k]} :: 0 <= k < |s.pfds| && s.pfds[k].owner == i && s.pfds[k].fd == s.slots[i].fd
  }

  /** The deadline set by the restart is the kernel's, unread. */
  predicate DeadlineStands(t: Slot, timers: map<int, Option<nat>>) {
    t.due.Some? && t.fd in timers && timers[t.fd] == t.due
  }

  /** The worker's scan has still to test the slot's SCHED bit in this pass. */
  predicate BeforeTest(pc: Pc, i: nat) {
    && pc.Scan?
    && (pc.i < i || (pc.i == i && pc.look in [TestUsed, TestZombie, TestActive, TrySched]))
  }

  predicate PendingPlace(pc: Pc, i: nat) {
    match pc
    case Scan(_, _) => BeforeTest(pc, i)
    case Poll => false
    case Polled(_) => false
    case Ring(_, j) => j != i
    case Locked(_, j) => j != i
    case Calling(_, j) => j != i
    case _ => true
  }

  /** The timer is installed, with a callback. */
  predicate Standing(t: Slot) {
    t.word.used && !t.word.zombie && t.hasCb && !t.raced
  }

  /** No call is on the slot but one that is only to wake the worker. */
  predicate OnlyKicked(s: State, i: nat) {
    forall a {:trigger s.calls[a]} :: a in s.calls && OnHandle(s.calls[a]) && s.calls[a].i == i ==>
      s.calls[a].RestartKick?
  }

  /** Not taken up yet: SCHED is set, ACTIVE is not, the deadline stands. */
  ghost predicate PendingOk(s: State, i: nat)
    requires i < |s.slots|
  {
    var t := s.slots[i];
    && t.word.sched && !t.word.active && Standing(t) && DeadlineStands(t, s.timers) && OnlyKicked(s, i)
    && PendingPlace(s.pc, i) && !StillToRead(s, i)
    && (s.pc.Lookup? ==> s.pc.k < |s.pfds| && s.pfds[s.pc.k].owner != i)
  }

  /** Not taken up yet, and made by a call from outside the timer's callback: the same,
      wherever the worker is. */
  predicate LooseOk(s: State, i: nat)
    requires i < |s.slots|
  {
    var t := s.slots[i];
    && t.word.sched && !t.word.active && t.agen < t.gen && t.sgen == t.gen && Standing(t)
    && DeadlineStands(t, s.timers) && OnlyKicked(s, i)
  }

  /** Taken up: ACTIVE is set and the deadline stands; once the pass is past the
      slot its descriptor is in the poll array. */
  ghost predicate WatchedOk(s: State, i: nat)
    requires i < |s.slots|
  {
    var t := s.slots[i];
    && t.word.active && Standing(t) && DeadlineStands(t, s.timers) && OnlyKicked(s, i)
    && (s.pc.Ring? || s.pc.Locked? || s.pc.Calling? || s.pc.InCallback? || s.pc.Release? || s.pc.Clear? ==> s.pc.i != i)
    && (s.pc.Lookup? ==> s.pc.k < |s.pfds| && s.pfds[s.pc.k].owner != i)
    && ((s.pc.Scan? && (s.pc.i > i || s.pc == Scan(i, ClearSched))) || s.pc.Poll? || s.pc.Polled? ==> InPoll(s, i))
    && s.pc != Scan(i, TrySched)
  }

  /** The worker has read the slot's descriptor and is on its way to the callback. */
  predicate OnItsWay(s: State, i: nat) {
    match s.pc
    case Lookup(k, j) => k < |s.pfds| && s.pfds[k].owner == i && j <= i
    case Ring(_, j) => j == i
    case Locked(_, j) => j == i
    case Calling(_, j) => j == i
    case _ => false
  }

  /** Found expired: ACTIVE is set for the latest generation, the deadline has passed. */
  predicate DueOk(s: State, i: nat)
    requires i < |s.slots|
  {
    var t := s.slots[i];
    t.word.active && t.agen == t.gen && Standing(t) && Passed(t, s.now) && OnlyKicked(s, i) && OnItsWay(s, i)
  }

  /** The callback has set its timer's deadline and is about to schedule it. */
  predicate AboutToOwe(s: State, i: nat) {
    Worker in s.calls && s.calls[Worker] == RestartSched(i) && Firing(s, Worker, i)
  }

  ghost predicate OwedOk(s: State, i: nat)
    requires i < |s.slots|
  {
    && (match s.slots[i].owed
        case Nothing => true
        case Loose => LooseOk(s, i)
        case Pending => PendingOk(s, i)
        case Watched => WatchedOk(s, i)
        case Due => DueOk(s, i))
    && (AboutToOwe(s, i) && !s.slots[i].raced ==> DeadlineStands(s.slots[i], s.timers))
  }

  ghost predicate OwedsOk(s: State) {
    forall i {:trigger s.slots[i]} :: 0 <= i < |s.slots| ==> OwedOk(s, i)
  }

  // ----- Steps of calls -----

  /** A step that leaves the slot, its kernel timer and its calls alone. */
  lemma ElsewhereOwed(s: State, s': State, i: nat)
    requires Structure(s) && i < |s.slots| == |s'.slots| && OwedOk(s, i) && s'.slots[i] == s.slots[i]
    requires var fd := s.slots[i].fd; s.slots[i].open ==> fd in s'.timers && s'.timers[fd] == s.timers[fd]
    requires s'.pc == s.pc && s'.pfds == s.pfds && s.now <= s'.now
    requires forall a {:trigger s'.calls[a]} {:trigger a in s'.calls} ::
        a in s'.calls && OnHandle(s'.calls[a]) && s'.calls[a].i == i ==>
               a in s.calls && s.calls[a] == s'.calls[a]
    ensures OwedOk(s', i)
  {
    assert SlotOk(s, i);
    assert Worker in s.calls ==> CallOk(s, Worker);
    assert StillToRead(s', i) == StillToRead(s, i) && InPoll(s', i) == InPoll(s, i);
  }

  lemma CallElsewhereOwed(s: State, a: Actor, i: nat)
    requires Structure(s) && CanStep(s, a) && i < |s.slots| && OwedOk(s, i) && s.calls[a].i != i
    ensures OwedOk(CallStep(s, a), i)
  {
    OthersUntouched(s, a, i);
    ElsewhereOwed(s, CallStep(s, a), i);
  }

  /** Main result: a restart made alone by the timer's own callback is owed, with its
      deadline standing in the kernel. */
  lemma RestartIsOwed(s: State, i: nat)
    requires Structure(s) && i < |s.slots| && CanStep(s, Worker) && AboutToOwe(s, i) && !s.slots[i].raced
    requires TimingOk(s, i) && OwedOk(s, i)
    ensures CallStep(s, Worker).slots[i].owed == Pending && OwedOk(CallStep(s, Worker), i)
  {
    var s' := CallStep(s, Worker);
    assert CallOk(s, Worker) && SlotOk(s, i) && CallTimingOk(s, Worker, s.slots[i]);
    forall k: nat | Unread(s'.pc).value <= k < |s'.pfds| ensures s'.pfds[k].owner != i {
      assert PfdOk(s, k);
    }
    forall b | b in s'.calls && OnHandle(s'.calls[b]) && s'.calls[b].i == i ensures s'.calls[b].RestartKick? {
      assert b in s.calls;
    }
  }

  lemma CallHereOwed(s: State, a: Actor, i: nat)
    requires Structure(s) && CanStep(s, a) && i < |s.slots| && OwedOk(s, i) && s.calls[a].i == i
    requires !s.slots[i].raced ==> TimingOk(s, i)
    ensures OwedOk(CallStep(s, a), i)
  {
    if s.calls[a].Alloc? {
      AllocOwed(s, a, i);
    } else if Installs(s.calls[a]) {
      InstallOwed(s, a, i);
    } else if s.calls[a].RestartSched? && Firing(s, a, i) && !s.slots[i].raced {
      RestartIsOwed(s, i);
    } else if s.calls[a].RestartSched? && !s.slots[i].raced {
      LooseOwed(s, a, i);
    } else if s.calls[a].RestartKick? {
      KickOwed(s, a, i);
    } else {
      NothingOwed(s, a, i);
    }
  }

  lemma KickOwed(s: State, a: Actor, i: nat)
    requires Structure(s) && CanStep(s, a) && i < |s.slots| && OwedOk(s, i) && s.calls[a] == RestartKick(i)
    ensures OwedOk(CallStep(s, a), i)
  {
    var s' := CallStep(s, a);
    assert StillToRead(s', i) == StillToRead(s, i) && InPoll(s', i) == InPoll(s, i);
  }

  /** A restart made from elsewhere is owed, unless its expiration is read already. */
  lemma LooseOwed(s: State, a: Actor, i: nat)
    requires Structure(s) && CanStep(s, a) && i < |s.slots| && s.calls[a] == RestartSched(i)
    requires !Firing(s, a, i) && !s.slots[i].raced && TimingOk(s, i)
    ensures OwedOk(CallStep(s, a), i)
  {
    var s' := CallStep(s, a);
    assert CallOk(s, a) && SlotOk(s, i) && CallTimingOk(s, a, s.slots[i]);
    OnlyCallStays(s, a, i);
    forall b | b in s'.calls && OnHandle(s'.calls[b]) && s'.calls[b].i == i ensures s'.calls[b].RestartKick? {
      assert b == a;
    }
  }

  lemma NothingOwed(s: State, a: Actor, i: nat)
    requires Structure(s) && CanStep(s, a) && i < |s.slots| && OwedOk(s, i) && s.calls[a].i == i
          && OnHandle(s.calls[a]) && !s.calls[a].RestartKick?
    requires !(s.calls[a].RestartSched? && !s.slots[i].raced)
    requires !s.slots[i].raced ==> TimingOk(s, i)
    ensures OwedOk(CallStep(s, a), i)
  {
    OthersOweNothing(s, a, i);
    if AboutToOwe(CallStep(s, a), i) && !CallStep(s, a).slots[i].raced {
      AboutToOweKept(s, a, i);
    }
  }

  lemma OthersOweNothing(s: State, a: Actor, i: nat)
    requires Structure(s) && CanStep(s, a) && i < |s.slots| && OwedOk(s, i) && s.calls[a].i == i
          && OnHandle(s.calls[a]) && !s.calls[a].RestartKick?
    requires !(s.calls[a].RestartSched? && !s.slots[i].raced)
    ensures CallStep(s, a).slots[i].owed == Nothing
  {
  }

  lemma AllocOwed(s: State, a: Actor, i: nat)
    requires Structure(s) && CanStep(s, a) && i < |s.slots| && OwedOk(s, i) && s.calls[a].i == i && s.calls[a].Alloc?
    ensures OwedOk(CallStep(s, a), i)
  {
    assert SlotOk(s, i);
    assert Worker in s.calls ==> CallOk(s, Worker);
    if s.slots[i].word.alloc {
      ElsewhereOwed(s, CallStep(s, a), i);
    }
  }

  lemma InstallOwed(s: State, a: Actor, i: nat)
    requires Structure(s) && CanStep(s, a) && i < |s.slots| && OwedOk(s, i) && s.calls[a].i == i && Installs(s.calls[a])
    ensures OwedOk(CallStep(s, a), i)
  {
    assert CallOk(s, a) && SlotOk(s, i);
    InstallerIsAlone(s, a);
    OtherCallStays(s, a, Worker);
  }

  /** While a slot's calls do not overlap, only the callback's own call sets its deadline. */
  lemma OnlyWorkerIsAbout(s: State, a: Actor, i: nat)
    requires Structure(s) && CanStep(s, a) && i < |s.slots| && s.calls[a].i == i && OnHandle(s.calls[a])
    requires AboutToOwe(CallStep(s, a), i) && !CallStep(s, a).slots[i].raced
    requires !s.slots[i].raced ==> TimingOk(s, i)
    ensures a == Worker
  {
    AnotherIsBusy(s, a, Worker, i);
  }

  lemma AnotherIsBusy(s: State, a: Actor, b: Actor, i: nat)
    ensures b in s.calls && b != a && OnHandle(s.calls[b]) && s.calls[b].i == i ==> Busy(s, a, i)
  {
  }

  lemma AboutToOweKept(s: State, a: Actor, i: nat)
    requires Structure(s) && CanStep(s, a) && i < |s.slots| && OwedOk(s, i) && s.calls[a].i == i && OnHandle(s.calls[a])
    requires AboutToOwe(CallStep(s, a), i) && !CallStep(s, a).slots[i].raced
    requires !s.slots[i].raced ==> TimingOk(s, i)
    ensures DeadlineStands(CallStep(s, a).slots[i], CallStep(s, a).timers)
  {
    OnlyWorkerIsAbout(s, a, i);
    assert CallOk(s, a) && SlotOk(s, i) && s.calls[a].RestartSet?;
  }

  // ----- Steps of the worker -----

  /** The worker's scan of slot `i` itself. */
  lemma ScanHereOwed(s: State, i: nat, look: Look)
    requires Structure(s) && s.pc == Scan(i, look) && i < |s.slots| && OwedOk(s, i) && look != Push && look != TrySched
    ensures OwedOk(WorkerStep(s), i)
  {
    assert SlotOk(s, i) && WorkerStep(s).pfds == s.pfds;
  }

  lemma TakeOwed(s: State, i: nat)
    requires Structure(s) && s.pc == Scan(i, TrySched) && i < |s.slots| && OwedOk(s, i)
    ensures OwedOk(WorkerStep(s), i)
  {
    assert SlotOk(s, i);
  }

  lemma PushOwed(s: State, i: nat)
    requires Structure(s) && s.pc == Scan(i, Push) && i < |s.slots| && OwedOk(s, i)
    ensures OwedOk(WorkerStep(s), i)
  {
    assert SlotOk(s, i) && WorkerStep(s).pfds[|s.pfds|] == Pfd(s.slots[i].fd, i, false);
    assert InPoll(WorkerStep(s), i);
  }

  /** The worker's scan of one slot leaves another slot and its timer alone. */
  lemma ScanLeavesOthers(s: State, i: nat, j: nat, look: Look)
    requires Structure(s) && s.pc == Scan(j, look) && j < |s.slots| && i < |s.slots| && i != j
    ensures var (s', fd) := (WorkerStep(s), s.slots[i].fd);
            && s'.slots[i] == s.slots[i] && s.pfds <= s'.pfds && s'.calls == s.calls && !s'.pc.InCallback?
            && (s.slots[i].open ==> fd in s'.timers && s'.timers[fd] == s.timers[fd])
            && s'.pc.Scan? && j <= s'.pc.i <= j + 1 && (s'.pc.i == j + 1 ==> s'.pc.look == TestUsed)
  {
    assert SlotOk(s, i) && SlotOk(s, j);
    OpenIsKnown(s, j);
  }

  lemma ScanElsewhereOwed(s: State, i: nat, j: nat, look: Look)
    requires Structure(s) && s.pc == Scan(j, look) && j < |s.slots| && i < |s.slots| && i != j && OwedOk(s, i)
    ensures OwedOk(WorkerStep(s), i)
  {
    ScanLeavesOthers(s, i, j, look);
    assert SlotOk(s, i);
    if InPoll(s, i) {
      var k: nat :| k < |s.pfds| && s.pfds[k].owner == i && s.pfds[k].fd == s.slots[i].fd;
      assert WorkerStep(s).pfds[k] == s.pfds[k];
    }
  }

  /** What is still to be read was so before: the worker only moves on. */
  lemma UnreadKept(s: State, s': State, i: nat)
    requires s'.pfds == s.pfds
    requires Unread(s'.pc).Some? ==> Unread(s.pc).Some? && Unread(s.pc).value <= Unread(s'.pc).value
    ensures StillToRead(s', i) ==> StillToRead(s, i)
  {
  }

  /** Main result: the descriptor of a restart not yet taken up is not read. */
  lemma PendingIsUnread(s: State, i: nat)
    requires i < |s.slots| && OwedOk(s, i) && Reads(s, i)
    ensures s.slots[i].owed != Pending
  {
    assert StillToRead(s, i);
  }

  /** Main result: the descriptor of a restart taken up is read only once its deadline
      has passed, with ACTIVE set. */
  lemma WatchedIsReadDue(s: State, i: nat)
    requires Structure(s) && i < |s.slots| && OwedOk(s, i) && TimingOk(s, i)
    requires Reads(s, i) && s.slots[i].owed == Watched
    ensures Passed(s.slots[i], s.now) && s.slots[i].word.active && WorkerStep(s).slots[i].owed == Due
  {
    assert Reported(s, s.pc.k);
  }

  lemma ReadHereOwed(s: State, i: nat)
    requires Structure(s) && Reads(s, i) && i < |s.slots| && OwedOk(s, i)
    requires !s.slots[i].raced ==> TimingOk(s, i)
    ensures OwedOk(WorkerStep(s), i)
  {
    PendingIsUnread(s, i);
    assert SlotOk(s, i);
    if s.slots[i].owed == Watched {
      WatchedIsReadDue(s, i);
    }
  }

  lemma ReadOwed(s: State, i: nat)
    requires Structure(s) && s.pc.Serve? && s.pc.k < |s.pfds| && s.pfds[s.pc.k].ready && i < |s.slots| && OwedOk(s, i)
    requires s.pfds[s.pc.k].owner != i
    ensures OwedOk(WorkerStep(s), i)
  {
    var (s', o) := (WorkerStep(s), s.pfds[s.pc.k].owner);
    assert PfdOk(s, s.pc.k) && SlotOk(s, i) && SlotOk(s, o);
    OpenIsKnown(s, o);
    assert s'.slots[i] == s.slots[i];
    UnreadKept(s, s', i);
  }

  lemma LookupOwed(s: State, i: nat)
    requires Structure(s) && i < |s.slots| && OwedOk(s, i) && s.pc.Lookup?
    ensures OwedOk(WorkerStep(s), i)
  {
    var s' := WorkerStep(s);
    assert SlotOk(s, i) && PfdOk(s, s.pc.k) && s' == s.(pc := s'.pc);
    if s'.pc.Ring? {
      FoundIsOwner(s, s.pc.k, s.pc.j);
    }
    UnreadKept(s, s', i);
  }

  lemma RingOwed(s: State, i: nat)
    requires Structure(s) && WorkerCanStep(s) && i < |s.slots| && OwedOk(s, i) && s.pc.Ring?
    ensures OwedOk(WorkerStep(s), i)
  {
    var s' := WorkerStep(s);
    assert SlotOk(s, i);
    UnreadKept(s, s', i);
  }

  lemma AdmitOwed(s: State, i: nat)
    requires Structure(s) && WorkerCanStep(s) && i < |s.slots| && OwedOk(s, i) && s.pc.Locked?
    ensures OwedOk(WorkerStep(s), i)
  {
    var s' := WorkerStep(s);
    assert SlotOk(s, i);
    UnreadKept(s, s', i);
  }

  lemma EnterOwed(s: State, i: nat)
    requires Structure(s) && WorkerCanStep(s) && i < |s.slots| && OwedOk(s, i) && s.pc.Calling?
    ensures OwedOk(WorkerStep(s), i)
  {
    var s' := WorkerStep(s);
    assert SlotOk(s, i);
    UnreadKept(s, s', i);
  }

  lemma ReleaseOwed(s: State, i: nat)
    requires Structure(s) && WorkerCanStep(s) && i < |s.slots| && OwedOk(s, i) && s.pc.Release?
    ensures OwedOk(WorkerStep(s), i)
  {
    var s' := WorkerStep(s);
    assert SlotOk(s, i);
    UnreadKept(s, s', i);
  }

  lemma ClearOwed(s: State, i: nat)
    requires Structure(s) && WorkerCanStep(s) && i < |s.slots| && OwedOk(s, i) && s.pc.Clear?
    ensures OwedOk(WorkerStep(s), i)
  {
    var s' := WorkerStep(s);
    assert SlotOk(s, i);
    UnreadKept(s, s', i);
  }

  lemma TopOwed(s: State, i: nat)
    requires Structure(s) && i < |s.slots| && OwedOk(s, i) && s.pc.Top?
    ensures OwedOk(WorkerStep(s), i)
  {
    assert SlotOk(s, i);
  }

  lemma ScannedOwed(s: State, i: nat)
    requires Structure(s) && i < |s.slots| && OwedOk(s, i) && s.pc.Scan? && s.pc.i >= |s.slots|
    ensures OwedOk(WorkerStep(s), i)
  {
    assert SlotOk(s, i) && InPoll(WorkerStep(s), i) == InPoll(s, i);
  }

  lemma PolledOwed(s: State, i: nat)
    requires Structure(s) && i < |s.slots| && OwedOk(s, i) && s.pc.Polled?
    ensures OwedOk(WorkerStep(s), i)
  {
    assert SlotOk(s, i);
  }

  lemma PassOwed(s: State, i: nat)
    requires Structure(s) && i < |s.slots| && OwedOk(s, i)
    requires s.pc.Serve? && (s.pc.k >= |s.pfds| || !s.pfds[s.pc.k].ready)
    ensures OwedOk(WorkerStep(s), i)
  {
    assert SlotOk(s, i);
    UnreadKept(s, WorkerStep(s), i);
  }

  lemma WorkOwed(s: State, i: nat)
    requires Structure(s) && WorkerCanStep(s) && i < |s.slots| && OwedOk(s, i)
    requires !s.slots[i].raced ==> TimingOk(s, i)
    ensures OwedOk(WorkerStep(s), i)
  {
    match s.pc
    case Scan(j, look) =>
      if j == i && look == TrySched {
        TakeOwed(s, i);
      } else if j == i && look == Push {
        PushOwed(s, i);
      } else if j == i {
        ScanHereOwed(s, i, look);
      } else if j < |s.slots| {
        ScanElsewhereOwed(s, i, j, look);
      } else {
        ScannedOwed(s, i);
      }
    case Serve(k) =>
      if Reads(s, i) {
        ReadHereOwed(s, i);
      } else if k < |s.pfds| && s.pfds[k].ready {
        ReadOwed(s, i);
      } else {
        PassOwed(s, i);
      }
    case Top => TopOwed(s, i);
    case Polled(_) => PolledOwed(s, i);
    case Lookup(_, _) => LookupOwed(s, i);
    case Ring(_, _) => RingOwed(s, i);
    case Locked(_, _) => AdmitOwed(s, i);
    case Calling(_, _) => EnterOwed(s, i);
    case Release(_, _) => ReleaseOwed(s, i);
    case Clear(_, _) => ClearOwed(s, i);
  }

  // ----- The other steps -----

  lemma BeginHereOwed(s: State, a: Actor, c: Call, i: nat)
    requires Structure(s) && MayBegin(s, a, c) && i < |s.slots| && OwedOk(s, i) && c.i == i && !c.Alloc?
    ensures OwedOk(Begun(s, a, c), i)
  {
    assert AboutToOwe(Begun(s, a, c), i) ==> AboutToOwe(s, i);
  }

  lemma BeginOwed(s: State, a: Actor, c: Call, i: nat)
    requires Structure(s) && MayBegin(s, a, c) && i < |s.slots| && OwedOk(s, i)
    ensures OwedOk(Begun(s, a, c), i)
  {
    if c.Alloc? || c.i != i {
      ElsewhereOwed(s, Begun(s, a, c), i);
    } else {
      BeginHereOwed(s, a, c, i);
    }
  }

  lemma MadeOwed(s: State, a: Actor, fd: int, i: nat)
    requires Structure(s) && MayMake(s, a, fd) && i < |s.slots| && OwedOk(s, i)
    ensures OwedOk(Made(s, a, fd), i)
  {
    var j := s.calls[a].i;
    assert SlotOk(s, i) && CallOk(s, a);
    InstallerIsAlone(s, a);
    if i != j {
      ElsewhereOwed(s, Made(s, a, fd), i);
    }
  }

  lemma FailOwed(s: State, a: Actor, i: nat)
    requires Structure(s) && MayFail(s, a) && i < |s.slots| && OwedOk(s, i)
    ensures OwedOk(FailedStep(s, a), i)
  {
    var j := s.calls[a].i;
    assert SlotOk(s, i) && CallOk(s, a) && SlotOk(s, j);
    OpenIsKnown(s, j);
    InstallerIsAlone(s, a);
    if i != j {
      ElsewhereOwed(s, FailedStep(s, a), i);
    }
  }

  lemma QuietOwed(s: State, l: Label, i: nat)
    requires Structure(s) && Enabled(s, l) && i < |s.slots| && OwedOk(s, i) && (l.Tick? || l.Shutdown?)
    ensures OwedOk(Step(s, l), i)
  {
    ElsewhereOwed(s, Step(s, l), i);
  }

  lemma LeaveOwed(s: State, i: nat)
    requires Structure(s) && Enabled(s, Leave) && i < |s.slots| && OwedOk(s, i)
    ensures OwedOk(Step(s, Leave), i)
  {
    assert SlotOk(s, i);
    UnreadKept(s, Step(s, Leave), i);
  }

  lemma AnswerOwed(s: State, l: Label, i: nat)
    requires Structure(s) && Enabled(s, l) && i < |s.slots| && OwedOk(s, i) && (l.Answer? || l.PollFails?)
    ensures OwedOk(Step(s, l), i)
  {
    var s' := Step(s, l);
    assert SlotOk(s, i);
    if InPoll(s, i) {
      var k: nat :| k < |s.pfds| && s.pfds[k].owner == i && s.pfds[k].fd == s.slots[i].fd;
      assert s'.pfds[k].owner == i && s'.pfds[k].fd == s.slots[i].fd;
    }
  }

  lemma OwedKept(s: State, l: Label, i: nat)
    requires Structure(s) && Enabled(s, l) && i < |s.slots| && OwedOk(s, i)
    requires !s.slots[i].raced ==> TimingOk(s, i)
    ensures OwedOk(Step(s, l), i)
  {
    match l
    case Begin(a, c) => BeginOwed(s, a, c, i);
    case Act(a) =>
      if s.calls[a].i == i {
        CallHereOwed(s, a, i);
      } else {
        CallElsewhereOwed(s, a, i);
      }
    case Make(a, fd) => MadeOwed(s, a, fd, i);
    case Fail(a) => FailOwed(s, a, i);
    case Work => WorkOwed(s, i);
    case Leave => LeaveOwed(s, i);
    case Answer(_, _) => AnswerOwed(s, l, i);
    case PollFails => AnswerOwed(s, l, i);
    case _ => QuietOwed(s, l, i);
  }

  lemma OwedsKept(s: State, l: Label)
    requires Structure(s) && Enabled(s, l) && TimingsOk(s) && OwedsOk(s)
    ensures OwedsOk(Step(s, l))
  {
    var s' := Step(s, l);
    forall i | 0 <= i < |s'.slots| ensures OwedOk(s', i) {
      assert OwedOk(s, i) && (!s.slots[i].raced ==> TimingOk(s, i));
      OwedKept(s, l, i);
    }
  }
}
