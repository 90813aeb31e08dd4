// Each arming of a POSIX timer is good for one callback at most, in every
// interleaving, however client calls race each other and the worker.
module PosixTimerArming {

  import opened PosixTimerModel
  import opened PosixTimerStructure

  /** The worker is about to enter, in, or on its way out of a callback of the slot:
      the ACTIVE bit that admitted it is spent. */
  predicate Spent(pc: Pc, i: nat) {
    (pc.Calling? || pc.InCallback? || pc.Release? || pc.Clear?) && pc.i == i
  }

  /** The worker has taken the slot's SCHED bit up and is about to clear it. */
  predicate Taken(pc: Pc, i: nat) {
    pc == Scan(i, Push) || pc == Scan(i, ClearSched)
  }

  function One(b: bool): nat {
    if b then 1 else 0
  }

  /** Callbacks entered or admitted, and those the bits still promise, never exceed armings. */
  predicate CountOk(s: State, i: nat)
    requires i < |s.slots|
  {
    var t := s.slots[i];
    && t.fires + One(Called(s.pc, i)) + One(t.word.active && !Spent(s.pc, i)) + One(t.word.sched && !Taken(s.pc, i))
       <= t.arms
    && (s.pc == Scan(i, TrySched) ==> !t.word.active) && t.sgen <= t.gen && t.agen <= t.gen
  }

  predicate CountsOk(s: State) {
    forall i {:trigger s.slots[i]} :: 0 <= i < |s.slots| ==> CountOk(s, i)
  }

  lemma CallCounts(s: State, a: Actor, i: nat)
    requires Structure(s) && CanStep(s, a) && i < |s.slots| && CountOk(s, i)
    ensures CountOk(CallStep(s, a), i)
  {
    if s.calls[a].i == i {
      if OnHandle(s.calls[a]) {
        HandleCounts(s, a, i);
      } else {
        InstallCounts(s, a, i);
      }
    }
  }

  lemma HandleCounts(s: State, a: Actor, i: nat)
    requires Structure(s) && CanStep(s, a) && i < |s.slots| && CountOk(s, i) && s.calls[a].i == i
          && OnHandle(s.calls[a])
    ensures CountOk(CallStep(s, a), i)
  {
    assert SlotOk(s, i);
  }

  lemma InstallCounts(s: State, a: Actor, i: nat)
    requires Structure(s) && CanStep(s, a) && i < |s.slots| && CountOk(s, i) && s.calls[a].i == i
          && !OnHandle(s.calls[a])
    ensures CountOk(CallStep(s, a), i)
  {
    assert CallOk(s, a) && SlotOk(s, i);
  }

  lemma ScanCounts(s: State, i: nat, look: Look)
    requires Structure(s) && s.pc == Scan(i, look) && i < |s.slots| && CountOk(s, i)
    ensures CountOk(WorkerStep(s), i)
  {
    assert SlotOk(s, i);
  }

  lemma AlarmCounts(s: State, i: nat)
    requires Structure(s) && WorkerCanStep(s) && i < |s.slots| && CountOk(s, i)
    requires s.pc.Ring? || s.pc.Locked? || s.pc.Calling? || s.pc.Release? || s.pc.Clear?
    ensures CountOk(WorkerStep(s), i)
  {
    assert SlotOk(s, i);
  }

  lemma ServeCounts(s: State, i: nat)
    requires Structure(s) && i < |s.slots| && CountOk(s, i)
    requires s.pc.Top? || s.pc.Polled? || s.pc.Serve? || s.pc.Lookup?
    ensures CountOk(WorkerStep(s), i)
  {
    assert SlotOk(s, i);
  }

  lemma WorkCounts(s: State, i: nat)
    requires Structure(s) && WorkerCanStep(s) && i < |s.slots| && CountOk(s, i)
    ensures CountOk(WorkerStep(s), i)
  {
    if s.pc.Top? || s.pc.Polled? || s.pc.Serve? || s.pc.Lookup? {
      ServeCounts(s, i);
    } else if !s.pc.Scan? {
      AlarmCounts(s, i);
    } else if s.pc.i == i {
      ScanCounts(s, i, s.pc.look);
    } else {
      assert s.pc.i < |s.slots| ==> WorkerStep(s).slots[i] == s.slots[i];
    }
  }

  lemma BeginCounts(s: State, a: Actor, c: Call, i: nat)
    requires Structure(s) && MayBegin(s, a, c) && i < |s.slots| && CountOk(s, i)
    ensures CountOk(Begun(s, a, c), i)
  {
  }

  lemma MadeCounts(s: State, a: Actor, fd: int, i: nat)
    requires Structure(s) && MayMake(s, a, fd) && i < |s.slots| && CountOk(s, i)
    ensures CountOk(Made(s, a, fd), i)
  {
    assert CallOk(s, a) && SlotOk(s, i);
  }

  lemma StepCounts(s: State, l: Label, i: nat)
    requires Structure(s) && Enabled(s, l) && i < |s.slots| && CountOk(s, i)
    ensures CountOk(Step(s, l), i)
  {
    match l
    case Act(a) => CallCounts(s, a, i);
    case Work => WorkCounts(s, i);
    case Begin(a, c) => BeginCounts(s, a, c, i);
    case Make(a, fd) => MadeCounts(s, a, fd, i);
    case _ =>
  }

  lemma CountsKept(s: State, l: Label)
    requires Structure(s) && Enabled(s, l) && CountsOk(s)
    ensures CountsOk(Step(s, l))
  {
    var s' := Step(s, l);
    forall i | 0 <= i < |s'.slots| ensures CountOk(s', i) {
      assert CountOk(s, i);
      StepCounts(s, l, i);
    }
  }
}
