// The timer descriptors of a POSIX timer context: none leaks. Each one open belongs to
// a slot in use, and a pass of the worker closes those of the timers uninstalled.
module PosixTimerDescriptors {

  import opened PosixTimerModel
  import opened PosixTimerStructure
  import opened PosixTimerTheorems

  /** Some slot has the descriptor open. */
  ghost predicate Held(s: State, fd: int) {
    exists i {:trigger s.slots[i]} :: 0 <= i < |s.slots| && s.slots[i].open && s.slots[i].fd == fd
  }

  ghost predicate NoneLeaks(s: State) {
    forall fd {:trigger Held(s, fd)} :: fd in s.timers ==> Held(s, fd)
  }

  /** Slot `i` keeps its descriptor, or has closed it. */
  predicate KeepsOrCloses(s: State, s': State, i: nat)
    requires i < |s.slots| == |s'.slots|
  {
    s.slots[i].open ==> s'.slots[i].fd == s.slots[i].fd && (s'.slots[i].open || s.slots[i].fd !in s'.timers)
  }

  /** A step that opens nothing. */
  lemma StillHeld(s: State, s': State)
    requires NoneLeaks(s) && |s'.slots| == |s.slots| && s'.timers.Keys <= s.timers.Keys
    requires forall i: nat {:trigger s.slots[i]} :: i < |s.slots| ==> KeepsOrCloses(s, s', i)
    ensures NoneLeaks(s')
  {
    forall fd | fd in s'.timers ensures Held(s', fd) {
      assert fd in s'.timers.Keys && fd in s.timers && Held(s, fd);
      var i: nat :| i < |s.slots| && s.slots[i].open && s.slots[i].fd == fd;
      assert KeepsOrCloses(s, s', i) && s'.slots[i].open;
    }
  }

  lemma InstallLeavesFd(s: State, a: Actor)
    requires CanStep(s, a) && (s.calls[a].Alloc? || Installs(s.calls[a])) && s.calls[a].i < |s.slots|
    ensures KeepsOrCloses(s, CallStep(s, a), s.calls[a].i)
  {
  }

  lemma HandleLeavesFd(s: State, a: Actor)
    requires CanStep(s, a) && OnHandle(s.calls[a])
    ensures s.calls[a].i < |s.slots| && KeepsOrCloses(s, CallStep(s, a), s.calls[a].i)
  {
  }

  lemma CallHolds(s: State, a: Actor)
    requires CanStep(s, a) && NoneLeaks(s)
    ensures NoneLeaks(CallStep(s, a))
  {
    var (s', c) := (CallStep(s, a), s.calls[a]);
    if OnHandle(c) {
      HandleLeavesFd(s, a);
    } else if c.i < |s.slots| {
      InstallLeavesFd(s, a);
    }
    forall i: nat | i < |s.slots| ensures KeepsOrCloses(s, s', i) {
      if i != c.i {
        assert s'.slots[i] == s.slots[i];
      }
    }
    StillHeld(s, s');
  }

  lemma ScanHolds(s: State, i: nat, look: Look)
    requires Structure(s) && s.pc == Scan(i, look) && i < |s.slots| && NoneLeaks(s)
    ensures NoneLeaks(WorkerStep(s))
  {
    var s' := WorkerStep(s);
    assert SlotOk(s, i) && KeepsOrCloses(s, s', i);
    forall j: nat | j < |s.slots| ensures KeepsOrCloses(s, s', j) {
      if j != i {
        assert s'.slots[j] == s.slots[j];
      }
    }
    StillHeld(s, s');
  }

  lemma ServeLeavesFd(s: State, i: nat)
    requires WorkerCanStep(s) && (!s.pc.Scan? || s.pc.i >= |s.slots|) && i < |s.slots|
    ensures WorkerStep(s).slots[i].open == s.slots[i].open && WorkerStep(s).timers.Keys == s.timers.Keys
  {
  }

  lemma WorkHolds(s: State)
    requires Structure(s) && WorkerCanStep(s) && NoneLeaks(s)
    ensures NoneLeaks(WorkerStep(s))
  {
    if s.pc.Scan? && s.pc.i < |s.slots| {
      ScanHolds(s, s.pc.i, s.pc.look);
    } else {
      forall i: nat | i < |s.slots|
        ensures KeepsOrCloses(s, WorkerStep(s), i) && WorkerStep(s).timers.Keys == s.timers.Keys
      {
        ServeLeavesFd(s, i);
      }
      assert |s.slots| == 0 ==> WorkerStep(s).timers.Keys <= s.timers.Keys;
      StillHeld(s, WorkerStep(s));
    }
  }

  lemma MadeHolds(s: State, a: Actor, fd: int)
    requires Structure(s) && MayMake(s, a, fd) && NoneLeaks(s)
    ensures NoneLeaks(Made(s, a, fd))
  {
    var (s', i) := (Made(s, a, fd), s.calls[a].i);
    assert CallOk(s, a) && SlotOk(s, i);
    forall x | x in s'.timers ensures Held(s', x) {
      if x == fd {
        assert s'.slots[i].open && s'.slots[i].fd == fd;
      } else {
        assert Held(s, x);
        var j: nat :| j < |s.slots| && s.slots[j].open && s.slots[j].fd == x;
        assert s'.slots[j] == s.slots[j];
      }
    }
  }

  lemma FailHolds(s: State, a: Actor)
    requires Structure(s) && MayFail(s, a) && NoneLeaks(s)
    ensures NoneLeaks(FailedStep(s, a))
  {
    var (s', i) := (FailedStep(s, a), s.calls[a].i);
    assert CallOk(s, a) && SlotOk(s, i);
    forall j: nat | j < |s.slots| ensures KeepsOrCloses(s, s', j) {
      if j != i {
        assert s'.slots[j] == s.slots[j];
      }
    }
    StillHeld(s, s');
  }

  lemma BeginHolds(s: State, a: Actor, c: Call)
    requires MayBegin(s, a, c) && NoneLeaks(s)
    ensures NoneLeaks(Begun(s, a, c))
  {
    var s' := Begun(s, a, c);
    forall j: nat | j < |s.slots| ensures KeepsOrCloses(s, s', j) {
      if c.Alloc? || j != c.i {
        assert s'.slots[j] == s.slots[j];
      }
    }
    StillHeld(s, s');
  }

  lemma SameHeld(s: State, s': State)
    requires NoneLeaks(s) && s'.slots == s.slots && s'.timers == s.timers
    ensures NoneLeaks(s')
  {
    forall fd | fd in s'.timers ensures Held(s', fd) {
      assert Held(s, fd);
    }
  }

  lemma LeaksKept(s: State, l: Label)
    requires Structure(s) && Enabled(s, l) && NoneLeaks(s)
    ensures NoneLeaks(Step(s, l))
  {
    match l
    case Act(a) => CallHolds(s, a);
    case Make(a, fd) => MadeHolds(s, a, fd);
    case Fail(a) => FailHolds(s, a);
    case Work => WorkHolds(s);
    case Begin(a, c) => BeginHolds(s, a, c);
    case _ => SameHeld(s, Step(s, l));
  }

  lemma {:induction false} RunHolds(s: State, run: seq<Label>)
    requires Structure(s) && NoneLeaks(s) && IsRun(s, run)
    ensures NoneLeaks(After(s, run))
    decreases |run|
  {
    if run != [] {
      LeaksKept(s, run[0]);
      StructureKept(s, run[0]);
      RunHolds(Step(s, run[0]), run[1..]);
    }
  }

  /** Main result: no descriptor leaks. The descriptors open are exactly those of the
      slots that have one, and those slots are in use; so that in a context whose slots
      are all free again none is open. */
  lemma NoDescriptorLeaks(s: State)
    requires Reachable(s)
    ensures forall fd {:trigger fd in s.timers} :: fd in s.timers <==>
              exists i {:trigger s.slots[i]} :: 0 <= i < |s.slots| && s.slots[i].open && s.slots[i].fd == fd
    ensures forall i {:trigger s.slots[i]} :: 0 <= i < |s.slots| && s.slots[i].open ==> s.slots[i].word.alloc
    ensures (forall i {:trigger s.slots[i]} :: 0 <= i < |s.slots| ==> s.slots[i].word == ZERO) ==> s.timers == map[]
  {
    ReachableInvariant(s);
    var n: nat, run: seq<Label> :| IsRun(Initial(n), run) && After(Initial(n), run) == s;
    InitialStructure(n);
    RunHolds(Initial(n), run);
    forall i | 0 <= i < |s.slots| && s.slots[i].open ensures s.slots[i].word.alloc && s.slots[i].fd in s.timers {
      assert SlotOk(s, i);
    }
    forall fd | fd in s.timers ensures Held(s, fd) {}
  }

  // ----- Cleaning up -----

  /** The slot is uninstalled, and the scan is yet to clean it up. */
  predicate ToClean(s: State, i: nat) {
    && i < |s.slots| && s.slots[i].handle == Retired && s.pc.Scan?
    && (s.pc.i < i || (s.pc.i == i && s.pc.look in [TestUsed, TestZombie, CloseFd, Wipe]))
  }

  /** Uninstalled when a pass is to begin, if another does. */
  predicate Doomed(s: State, i: nat) {
    ToClean(s, i) || (i < |s.slots| && s.slots[i].handle == Retired && (s.pc.Top? || s.pc.Exited?))
  }

  predicate Cleaned(s: State, i: nat) {
    i < |s.slots| && s.slots[i].word == ZERO && !s.slots[i].open
  }

  lemma WorkCleans(s: State, i: nat)
    requires Structure(s) && WorkerCanStep(s) && Doomed(s, i)
    ensures Doomed(WorkerStep(s), i) || Cleaned(WorkerStep(s), i)
  {
    assert SlotOk(s, i);
    if s.pc.Scan? && s.pc.i != i {
      assert s.pc.i < |s.slots| && WorkerStep(s).slots[i] == s.slots[i];
    }
  }

  lemma CallLeavesDoomed(s: State, a: Actor, i: nat)
    requires Structure(s) && CanStep(s, a) && Doomed(s, i)
    ensures Doomed(CallStep(s, a), i)
  {
    assert CallOk(s, a) && SlotOk(s, i);
  }

  lemma DoomedStays(s: State, l: Label, i: nat)
    requires Structure(s) && Enabled(s, l) && Doomed(s, i)
    ensures Doomed(Step(s, l), i) || Cleaned(Step(s, l), i)
  {
    match l
    case Act(a) => CallLeavesDoomed(s, a, i);
    case Work => WorkCleans(s, i);
    case Make(a, fd) => InstallLeavesDoomed(s, l, a, i);
    case Fail(a) => InstallLeavesDoomed(s, l, a, i);
    case _ =>
  }

  lemma InstallLeavesDoomed(s: State, l: Label, a: Actor, i: nat)
    requires Structure(s) && Enabled(s, l) && Doomed(s, i) && (l.Make? || l.Fail?) && l.a == a
    ensures Doomed(Step(s, l), i)
  {
    assert CallOk(s, a) && SlotOk(s, i);
  }

  /** Some state of the run has the slot clean: its word zero, its descriptor closed. */
  ghost predicate IsCleaned(s: State, run: seq<Label>, i: nat)
    requires IsRun(s, run)
    decreases |run|
  {
    Cleaned(s, i) || (run != [] && IsCleaned(Step(s, run[0]), run[1..], i))
  }

  lemma {:induction false} PassCleans(s: State, run: seq<Label>, i: nat)
    requires Structure(s) && Doomed(s, i) && IsRun(s, run)
    ensures IsCleaned(s, run, i) || Doomed(After(s, run), i)
    decreases |run|
  {
    if run != [] {
      DoomedStays(s, run[0], i);
      StructureKept(s, run[0]);
      if Doomed(Step(s, run[0]), i) {
        PassCleans(Step(s, run[0]), run[1..], i);
      } else {
        assert IsCleaned(Step(s, run[0]), run[1..], i);
      }
    }
  }

  /** Main result: uninstalling gives everything back. A pass of the worker that begins
      once uninstall has marked the slot has closed its descriptor and freed it before
      it polls. */
  lemma UninstalledIsCleaned(s: State, i: nat, run: seq<Label>)
    requires Reachable(s) && s.pc.Top? && i < |s.slots| && s.slots[i].word.zombie
    requires IsRun(s, run) && After(s, run).pc.Poll?
    ensures IsCleaned(s, run, i)
  {
    ReachableInvariant(s);
    assert SlotOk(s, i);
    PassCleans(s, run, i);
  }
}
