// What every reachable state of the POSIX timer keeps: who owns which slot, who
// holds which lock, and which descriptors are open.
module PosixTimerStructure {

  import opened Wrappers
  import opened PosixTimerModel

  predicate AlarmHeld(pc: Pc, i: nat) {
    (pc.Locked? || pc.Calling? || pc.InCallback? || pc.Release?) && pc.i == i
  }

  /** No callback has been admitted or is running. */
  predicate Outside(pc: Pc) {
    !pc.Calling? && !pc.InCallback?
  }

  /** The worker holds no slot's lock. */
  predicate Unlocked(pc: Pc) {
    Outside(pc) && !pc.Locked? && !pc.Release?
  }

  /** A callback of the slot has been admitted and not been entered yet. */
  predicate Called(pc: Pc, i: nat) {
    pc.Calling? && pc.i == i
  }

  /** Slot by slot: the handle's stage fixes the word's owner bits, the open
      descriptor, and which call, if any, has charge of the slot. */
  predicate SlotOk(s: State, i: nat)
    requires i < |s.slots|
  {
    var t := s.slots[i];
    var w := t.word;
    && (match t.handle
        case Free =>
          t.closer.None? && t.holder == Nobody && if t.installer.None? then w == ZERO && !t.open else w == ALLOCATED
        case Owned =>
          t.installer.None? && t.closer.None? && w.used && w.alloc && !w.zombie && t.open
        case Closing =>
          t.installer.None? && t.closer.Some? && w.used && w.alloc && !w.zombie && t.open
        case Retired =>
          t.installer.None? && t.closer.None? && w.used && w.alloc && w.zombie && !w.active && !w.sched
          && (t.open || s.pc == Scan(i, Wipe)) && !Called(s.pc, i))
    && (t.installer.Some? ==>
          t.installer.value in s.calls && Installs(s.calls[t.installer.value]) && s.calls[t.installer.value].i == i)
    && (t.closer.Some? ==>
          t.closer.value in s.calls && Closes(s.calls[t.closer.value]) && s.calls[t.closer.value].i == i)
    && (t.holder == Alarm <==> AlarmHeld(s.pc, i))
    && (t.holder.Closer? ==> t.closer == Some(t.holder.actor))
    && (t.open ==> t.fd in s.timers)
  }

  predicate SlotsOk(s: State) {
    forall i {:trigger s.slots[i]} :: 0 <= i < |s.slots| ==> SlotOk(s, i)
  }

  /** The uninstall has taken the lock and not given it back. */
  predicate InsideClose(c: Call) {
    ((c.StopClear? || c.StopSet? || c.StopKick?) && c.fin) || c.CloseUnlock?
  }

  /** The uninstall has cleared ACTIVE and SCHED. */
  predicate PastClear(c: Call) {
    ((c.StopSet? || c.StopKick?) && c.fin) || c.CloseUnlock? || c.CloseMark?
  }

  predicate CallOk(s: State, a: Actor)
    requires a in s.calls
  {
    var c := s.calls[a];
    && (a == Worker ==> s.pc.InCallback?)
    && (if c.Alloc? then c.i <= |s.slots|
        else
          && c.i < |s.slots|
          && var t := s.slots[c.i];
             if Installs(c) then t.installer == Some(a) && t.open == (c.InitLock? || c.Publish?)
             else HandleCallOk(s, a, c, t))
  }

  predicate HandleCallOk(s: State, a: Actor, c: Call, t: Slot) {
    && (t.handle == Owned || t.handle == Closing)
    && (Closes(c) <==> t.closer == Some(a))
    && (Closes(c) ==> t.handle == Closing)
    && (t.handle == Closing && !Closes(c) ==>
          Firing(s, a, c.i) && t.closer.Some? && t.closer.value in s.calls && s.calls[t.closer.value].CloseLock?)
    && (InsideClose(c) ==> Firing(s, a, c.i) || t.holder == Closer(a))
    && (c.CloseLock? || c.CloseMark? ==> !t.holder.Closer?)
    && (PastClear(c) ==> !t.word.active && !t.word.sched)
    && (Closes(c) && !c.CloseLock? && (s.pc.Calling? || s.pc.InCallback?) && s.pc.i == c.i ==> a == Worker)
  }

  predicate CallsOk(s: State) {
    forall a {:trigger s.calls[a]} :: a in s.calls ==> CallOk(s, a)
  }

  predicate PcOk(s: State) {
    match s.pc
    case Scan(i, look) =>
      && i <= |s.slots| && (look == TestUsed || i < |s.slots|)
      && (look == CloseFd ==> s.slots[i].handle == Retired && s.slots[i].open)
      && (look == Wipe ==> s.slots[i].handle == Retired && !s.slots[i].open)
      && (look != TestUsed && look != Wipe ==> s.slots[i].word.used)
    case Serve(k) => k <= |s.pfds|
    case Lookup(k, j) => k < |s.pfds| && j <= |s.slots| && s.pfds[k].ready
    case Ring(k, i) => k < |s.pfds| && s.pfds[k].owner == i && i < |s.slots| && s.pfds[k].ready
    case Locked(k, i) =>
      k < |s.pfds| && s.pfds[k].owner == i && i < |s.slots| && s.pfds[k].ready && s.slots[i].hasCb
    case Calling(k, i) =>
      k < |s.pfds| && s.pfds[k].owner == i && i < |s.slots| && s.pfds[k].ready && s.slots[i].hasCb
    case InCallback(k, i) => k < |s.pfds| && s.pfds[k].owner == i && i < |s.slots| && s.slots[i].hasCb
    case Release(k, i) => k < |s.pfds| && s.pfds[k].owner == i && i < |s.slots|
    case Clear(k, i) => k < |s.pfds| && s.pfds[k].owner == i && i < |s.slots|
    case _ => true
  }

  /** What the poll array holds was pushed by slots in order, whose descriptors are
      still theirs: only the worker closes them, between passes. */
  predicate PfdOk(s: State, k: nat)
    requires k < |s.pfds|
  {
    var p := s.pfds[k];
    && p.owner < |s.slots| && s.slots[p.owner].word.used && s.slots[p.owner].open && p.fd == s.slots[p.owner].fd
    && (s.pc.Scan? ==> p.owner < s.pc.i || (p.owner == s.pc.i && s.pc.look == ClearSched))
  }

  predicate PfdsOk(s: State) {
    !s.pc.Top? && !s.pc.Exited? ==>
      && (forall k {:trigger s.pfds[k]} :: 0 <= k < |s.pfds| ==> PfdOk(s, k))
      && (forall k, l {:trigger s.pfds[k], s.pfds[l]} :: 0 <= k < l < |s.pfds| ==> s.pfds[k].owner < s.pfds[l].owner)
  }

  /** Open descriptors are pairwise distinct. */
  predicate FdsOk(s: State) {
    forall i, j {:trigger s.slots[i], s.slots[j]} ::
      0 <= i < j < |s.slots| && s.slots[i].open && s.slots[j].open ==> s.slots[i].fd != s.slots[j].fd
  }

  predicate Structure(s: State) {
    SlotsOk(s) && CallsOk(s) && PcOk(s) && PfdsOk(s) && FdsOk(s)
  }

  lemma InitialStructure(n: nat)
    ensures Structure(Initial(n))
  {
    var s := Initial(n);
    forall i | 0 <= i < |s.slots| ensures SlotOk(s, i) {
      assert s.slots[i] == BLANK;
    }
    assert forall i :: 0 <= i < |s.slots| ==> !s.slots[i].open;
  }

  // ----- Steps of calls -----

  /** The step changed at most slot `i` and the call of `a`, which was there. */
  ghost predicate Touches(s: State, s': State, a: Actor, i: nat) {
    && i < |s.slots| == |s'.slots| && s'.pc == s.pc && s'.pfds == s.pfds
    && (forall j {:trigger s'.slots[j]} :: 0 <= j < |s.slots| && j != i ==> s'.slots[j] == s.slots[j])
    && (forall b {:trigger s'.calls[b]} {:trigger b in s'.calls} :: b != a ==>
          (b in s'.calls <==> b in s.calls) && (b in s'.calls ==> s'.calls[b] == s.calls[b]))
    && (a in s.calls ==> s.calls[a].Alloc? || s.calls[a].i == i)
    && (a in s'.calls ==> s'.calls[a].Alloc? || s'.calls[a].i == i)
  }

  /** Descriptors: those of the other slots stay open, and slot `i`'s is its own. */
  predicate FdsKept(s: State, s': State, i: nat)
    requires i < |s.slots| == |s'.slots|
  {
    && (forall j {:trigger s.slots[j]} :: 0 <= j < |s.slots| && j != i && s.slots[j].open ==>
          s.slots[j].fd in s'.timers && (s'.slots[i].open ==> s.slots[j].fd != s'.slots[i].fd))
    && (s.slots[i].word.used && s.slots[i].open ==>
          s'.slots[i].word.used && s'.slots[i].open && s'.slots[i].fd == s.slots[i].fd
          && s'.slots[i].hasCb == s.slots[i].hasCb)
    && (s.slots[i].handle == Retired ==> s'.slots[i].handle == Retired && s'.slots[i].open == s.slots[i].open)
  }

  lemma TouchKeeps(s: State, s': State, a: Actor, i: nat)
    requires Structure(s) && Touches(s, s', a, i) && FdsKept(s, s', i) && SlotOk(s', i)
    requires a in s'.calls ==> CallOk(s', a)
    requires forall b {:trigger s.calls[b]} ::
        b != a && b in s.calls && !s.calls[b].Alloc? && s.calls[b].i == i ==> CallOk(s', b)
    requires s.slots[i].word.used ==> s'.slots[i].word.used
    ensures Structure(s')
  {
    forall j | 0 <= j < |s'.slots| ensures SlotOk(s', j) {
      if j != i {
        OtherSlotKept(s, s', a, i, j);
      }
    }
    forall b | b in s'.calls ensures CallOk(s', b) {
      if b != a && (s.calls[b].Alloc? || s.calls[b].i != i) {
        OtherCallKept(s, s', a, i, b);
      }
    }
    PfdsKept(s, s', a, i);
    assert PcOk(s');
  }

  lemma OtherSlotKept(s: State, s': State, a: Actor, i: nat, j: nat)
    requires Structure(s) && Touches(s, s', a, i) && FdsKept(s, s', i) && j < |s.slots| && j != i
    ensures SlotOk(s', j)
  {
    assert SlotOk(s, j);
  }

  lemma OtherCallKept(s: State, s': State, a: Actor, i: nat, b: Actor)
    requires Structure(s) && Touches(s, s', a, i) && b != a && b in s.calls && (s.calls[b].Alloc? || s.calls[b].i != i)
    ensures CallOk(s', b)
  {
    assert CallOk(s, b);
    if !s.calls[b].Alloc? {
      assert SlotOk(s, s.calls[b].i);
    }
  }

  lemma PfdsKept(s: State, s': State, a: Actor, i: nat)
    requires Structure(s) && Touches(s, s', a, i) && FdsKept(s, s', i)
    ensures PfdsOk(s') && FdsOk(s')
  {
    if !s'.pc.Top? && !s'.pc.Exited? {
      forall k | 0 <= k < |s'.pfds| ensures PfdOk(s', k) {
        assert PfdOk(s, k);
      }
    }
    forall j, l | 0 <= j < l < |s'.slots| && s'.slots[j].open && s'.slots[l].open
      ensures s'.slots[j].fd != s'.slots[l].fd
    {
      assert s.slots[j].open || j == i;
      assert s.slots[l].open || l == i;
    }
  }

  /** The step touched no slot, and only an allocation's call. */
  lemma SearchKeeps(s: State, s': State, a: Actor)
    requires Structure(s) && s' == s.(calls := s'.calls)
    requires a in s.calls ==> s.calls[a].Alloc?
    requires forall b {:trigger s'.calls[b]} {:trigger b in s'.calls} :: b != a ==>
               (b in s'.calls <==> b in s.calls) && (b in s'.calls ==> s'.calls[b] == s.calls[b])
    requires a in s'.calls ==> s'.calls[a].Alloc? && CallOk(s', a)
    ensures Structure(s')
  {
    forall j | 0 <= j < |s'.slots| ensures SlotOk(s', j) {
      assert SlotOk(s, j);
    }
    forall b | b in s'.calls ensures CallOk(s', b) {
      if b != a {
        assert CallOk(s, b);
        if !s.calls[b].Alloc? {
          assert SlotOk(s, s.calls[b].i);
        }
      }
    }
    forall k | 0 <= k < |s'.pfds| && !s'.pc.Top? && !s'.pc.Exited? ensures PfdOk(s', k) {
      assert PfdOk(s, k);
    }
  }

  lemma BeginKeeps(s: State, a: Actor, c: Call)
    requires Structure(s) && MayBegin(s, a, c)
    ensures Structure(Begun(s, a, c))
  {
    if c.Alloc? {
      SearchKeeps(s, Begun(s, a, c), a);
    } else {
      BeginHereKeeps(s, a, c);
    }
  }

  lemma BeginHereKeeps(s: State, a: Actor, c: Call)
    requires Structure(s) && MayBegin(s, a, c) && !c.Alloc?
    ensures Structure(Begun(s, a, c))
  {
    var s' := Begun(s, a, c);
    assert SlotOk(s, c.i);
    assert SlotOk(s', c.i) && CallOk(s', a);
    OthersAtBegin(s, a, c);
    TouchKeeps(s, s', a, c.i);
  }

  lemma OthersAtBegin(s: State, a: Actor, c: Call)
    requires Structure(s) && MayBegin(s, a, c) && !c.Alloc?
    ensures forall b {:trigger s.calls[b]} ::
        b != a && b in s.calls && !s.calls[b].Alloc? && s.calls[b].i == c.i ==> CallOk(Begun(s, a, c), b)
  {
    assert SlotOk(s, c.i);
    forall b | b != a && b in s.calls && !s.calls[b].Alloc? && s.calls[b].i == c.i ensures CallOk(Begun(s, a, c), b) {
      assert CallOk(s, b);
    }
  }

  /** No call but `a`, if that, is on slot `i`. */
  predicate Alone(s: State, a: Actor, i: nat) {
    forall b {:trigger s.calls[b]} :: b in s.calls && b != a && !s.calls[b].Alloc? ==> s.calls[b].i != i
  }

  /** A call that has allocated a slot is the only one on it. */
  lemma InstallerIsAlone(s: State, a: Actor)
    requires Structure(s) && a in s.calls && Installs(s.calls[a])
    ensures Alone(s, a, s.calls[a].i)
  {
    assert CallOk(s, a) && SlotOk(s, s.calls[a].i);
    forall b | b in s.calls && b != a && !s.calls[b].Alloc? ensures s.calls[b].i != s.calls[a].i {
      assert CallOk(s, b);
    }
  }

  lemma UnownedIsUnused(s: State, a: Actor, i: nat)
    requires Structure(s) && i < |s.slots| && s.slots[i].installer.None?
    requires s.slots[i].handle == Free || s.slots[i].handle == Retired
    ensures Alone(s, a, i)
  {
    forall b | b in s.calls && b != a && !s.calls[b].Alloc? ensures s.calls[b].i != i {
      assert CallOk(s, b);
    }
  }

  lemma MadeKeeps(s: State, a: Actor, fd: int)
    requires Structure(s) && MayMake(s, a, fd)
    ensures Structure(Made(s, a, fd))
  {
    var (s', i) := (Made(s, a, fd), s.calls[a].i);
    assert CallOk(s, a) && SlotOk(s, i);
    InstallerIsAlone(s, a);
    OpenIsKnown(s, i);
    TouchKeeps(s, s', a, i);
  }

  lemma OpenIsKnown(s: State, i: nat)
    requires Structure(s) && i < |s.slots|
    ensures forall j {:trigger s.slots[j]} :: 0 <= j < |s.slots| && s.slots[j].open ==> s.slots[j].fd in s.timers
    ensures forall j {:trigger s.slots[j]} ::
        0 <= j < |s.slots| && j != i && s.slots[j].open && s.slots[i].open ==> s.slots[j].fd != s.slots[i].fd
  {
    forall j | 0 <= j < |s.slots| && s.slots[j].open ensures s.slots[j].fd in s.timers {
      assert SlotOk(s, j);
    }
  }

  lemma FailKeeps(s: State, a: Actor)
    requires Structure(s) && MayFail(s, a)
    ensures Structure(FailedStep(s, a))
  {
    var (s', i) := (FailedStep(s, a), s.calls[a].i);
    assert CallOk(s, a) && SlotOk(s, i);
    InstallerIsAlone(s, a);
    OpenIsKnown(s, i);
    TouchKeeps(s, s', a, i);
  }

  // Each kind of call, by its next step.

  lemma AllocKeeps(s: State, a: Actor)
    requires Structure(s) && CanStep(s, a) && s.calls[a].Alloc?
    ensures Structure(CallStep(s, a))
  {
    var (s', i) := (CallStep(s, a), s.calls[a].i);
    if i >= |s.slots| || s.slots[i].word.alloc {
      SearchKeeps(s, s', a);
    } else {
      assert SlotOk(s, i) && s.slots[i].handle == Free && s.slots[i].installer.None?;
      UnownedIsUnused(s, a, i);
      TouchKeeps(s, s', a, i);
    }
  }

  lemma InstallKeeps(s: State, a: Actor)
    requires Structure(s) && CanStep(s, a) && Installs(s.calls[a])
    ensures Structure(CallStep(s, a))
  {
    var (s', i) := (CallStep(s, a), s.calls[a].i);
    assert CallOk(s, a) && SlotOk(s, i) && SlotOk(s', i);
    OpenIsKnown(s, i);
    InstallerIsAlone(s, a);
    TouchKeeps(s, s', a, i);
  }

  /** While an uninstall is past its lock no other call is on the slot. */
  lemma CloserIsAlone(s: State, a: Actor)
    requires Structure(s) && a in s.calls && Closes(s.calls[a]) && !s.calls[a].CloseLock?
    ensures Alone(s, a, s.calls[a].i)
  {
    assert CallOk(s, a);
    forall b | b in s.calls && b != a && !s.calls[b].Alloc? ensures s.calls[b].i != s.calls[a].i {
      assert CallOk(s, b);
    }
  }

  /** An uninstall gets its lock only once the timer's own callback is done. */
  lemma TakerIsAlone(s: State, a: Actor)
    requires Structure(s) && CanStep(s, a) && s.calls[a].CloseLock?
    ensures Alone(s, a, s.calls[a].i)
  {
    assert CallOk(s, a) && SlotOk(s, s.calls[a].i);
    forall b | b in s.calls && b != a && !s.calls[b].Alloc? ensures s.calls[b].i != s.calls[a].i {
      assert CallOk(s, b);
    }
  }

  /** The slot's stage, lock and descriptor are as they were. */
  predicate SameStage(t: Slot, t': Slot) {
    && t' == t.(word := t'.word, gen := t'.gen, due := t'.due, sgen := t'.sgen, agen := t'.agen, arms := t'.arms,
                fires := t'.fires, raced := t'.raced, owed := t'.owed)
    && t'.word == t.word.(active := t'.word.active, sched := t'.word.sched)
  }

  /** A step that only arms or disarms the slot. */
  lemma StageKept(s: State, s': State, a: Actor, i: nat)
    requires Structure(s) && Touches(s, s', a, i) && SameStage(s.slots[i], s'.slots[i])
    requires a in s.calls && OnHandle(s.calls[a]) && s'.timers.Keys == s.timers.Keys
    requires a in s'.calls ==> CallOk(s', a)
    requires a !in s'.calls ==> !Closes(s.calls[a])
    requires Closes(s.calls[a]) ==> !s.calls[a].CloseLock? && a in s'.calls && Closes(s'.calls[a])
    requires s'.slots[i].word.active ==> s.slots[i].word.active
    requires s'.slots[i].word.sched ==> s.slots[i].word.sched || !Closes(s.calls[a])
    ensures Structure(s')
  {
    assert CallOk(s, a) && SlotOk(s, i);
    assert SlotOk(s', i);
    OpenIsKnown(s, i);
    if Closes(s.calls[a]) {
      CloserIsAlone(s, a);
    }
    forall b | b != a && b in s.calls && !s.calls[b].Alloc? && s.calls[b].i == i ensures CallOk(s', b) {
      assert CallOk(s, b);
    }
    TouchKeeps(s, s', a, i);
  }

  /** A start tests ACTIVE and SCHED. */
  lemma TestKeeps(s: State, a: Actor)
    requires Structure(s) && CanStep(s, a) && s.calls[a].StartTest?
    ensures Structure(CallStep(s, a))
  {
    var (s', i) := (CallStep(s, a), s.calls[a].i);
    assert CallOk(s, a) && SlotOk(s, i);
    assert a in s'.calls ==> CallOk(s', a);
    StageKept(s, s', a, i);
  }

  /** Waking the worker ends a restart. */
  lemma RestartKickKeeps(s: State, a: Actor)
    requires Structure(s) && CanStep(s, a) && s.calls[a].RestartKick?
    ensures Structure(CallStep(s, a))
  {
    var (s', i) := (CallStep(s, a), s.calls[a].i);
    assert CallOk(s, a) && SlotOk(s, i);
    StageKept(s, s', a, i);
  }

  /** The end of a stop, on its own or inside an uninstall. */
  lemma KickKeeps(s: State, a: Actor)
    requires Structure(s) && CanStep(s, a) && (s.calls[a].StopKick?)
    ensures Structure(CallStep(s, a))
  {
    var (s', i) := (CallStep(s, a), s.calls[a].i);
    assert CallOk(s, a) && SlotOk(s, i);
    assert a in s'.calls ==> CallOk(s', a);
    StageKept(s, s', a, i);
  }

  /** Setting the kernel's timer. */
  lemma SetTimeKeeps(s: State, a: Actor)
    requires Structure(s) && CanStep(s, a) && s.calls[a].RestartSet?
    ensures Structure(CallStep(s, a))
  {
    var (s', i) := (CallStep(s, a), s.calls[a].i);
    assert CallOk(s, a) && SlotOk(s, i);
    assert CallOk(s', a);
    StageKept(s, s', a, i);
  }

  /** Disarming the kernel's timer. */
  lemma UnsetTimeKeeps(s: State, a: Actor)
    requires Structure(s) && CanStep(s, a) && s.calls[a].StopSet?
    ensures Structure(CallStep(s, a))
  {
    var (s', i) := (CallStep(s, a), s.calls[a].i);
    assert CallOk(s, a) && SlotOk(s, i);
    assert CallOk(s', a);
    StageKept(s, s', a, i);
  }

  /** Setting SCHED. */
  lemma SchedKeeps(s: State, a: Actor)
    requires Structure(s) && CanStep(s, a) && (s.calls[a].RestartSched?)
    ensures Structure(CallStep(s, a))
  {
    var (s', i) := (CallStep(s, a), s.calls[a].i);
    assert CallOk(s, a) && SlotOk(s, i);
    assert a in s'.calls ==> CallOk(s', a);
    StageKept(s, s', a, i);
  }

  /** A restart clears ACTIVE and SCHED. */
  lemma RestartClearKeeps(s: State, a: Actor)
    requires Structure(s) && CanStep(s, a) && s.calls[a].RestartClear?
    ensures Structure(CallStep(s, a))
  {
    var (s', i) := (CallStep(s, a), s.calls[a].i);
    assert CallOk(s, a) && SlotOk(s, i);
    assert a in s'.calls ==> CallOk(s', a);
    StageKept(s, s', a, i);
  }

  /** So does a stop, on its own or inside an uninstall. */
  lemma StopClearKeeps(s: State, a: Actor)
    requires Structure(s) && CanStep(s, a) && s.calls[a].StopClear?
    ensures Structure(CallStep(s, a))
  {
    var (s', i) := (CallStep(s, a), s.calls[a].i);
    assert CallOk(s, a) && SlotOk(s, i);
    assert a in s'.calls ==> CallOk(s', a);
    StageKept(s, s', a, i);
  }

  /** An uninstall takes its lock. */
  lemma LockKeeps(s: State, a: Actor)
    requires Structure(s) && CanStep(s, a) && s.calls[a].CloseLock?
    ensures Structure(CallStep(s, a))
  {
    var (s', i) := (CallStep(s, a), s.calls[a].i);
    assert CallOk(s, a) && SlotOk(s, i);
    assert SlotOk(s', i) && CallOk(s', a);
    OpenIsKnown(s, i);
    TakerIsAlone(s, a);
    TouchKeeps(s, s', a, i);
  }

  /** An uninstall gives its lock back. */
  lemma UnlockKeeps(s: State, a: Actor)
    requires Structure(s) && CanStep(s, a) && s.calls[a].CloseUnlock?
    ensures Structure(CallStep(s, a))
  {
    var (s', i) := (CallStep(s, a), s.calls[a].i);
    assert CallOk(s, a) && SlotOk(s, i);
    assert SlotOk(s', i) && CallOk(s', a);
    OpenIsKnown(s, i);
    CloserIsAlone(s, a);
    TouchKeeps(s, s', a, i);
  }

  /** It marks the slot, and returns. */
  lemma MarkKeeps(s: State, a: Actor)
    requires Structure(s) && CanStep(s, a) && s.calls[a].CloseMark?
    ensures Structure(CallStep(s, a))
  {
    var (s', i) := (CallStep(s, a), s.calls[a].i);
    assert CallOk(s, a) && SlotOk(s, i);
    assert SlotOk(s', i);
    OpenIsKnown(s, i);
    CloserIsAlone(s, a);
    TouchKeeps(s, s', a, i);
  }

  lemma CallKeepsStructure(s: State, a: Actor)
    requires Structure(s) && CanStep(s, a)
    ensures Structure(CallStep(s, a))
  {
    if s.calls[a].Alloc? {
      AllocKeeps(s, a);
    } else if Installs(s.calls[a]) {
      InstallKeeps(s, a);
    } else if s.calls[a].CloseLock? {
      LockKeeps(s, a);
    } else if s.calls[a].CloseUnlock? {
      UnlockKeeps(s, a);
    } else if s.calls[a].CloseMark? {
      MarkKeeps(s, a);
    } else if s.calls[a].StartTest? {
      TestKeeps(s, a);
    } else if s.calls[a].RestartKick? {
      RestartKickKeeps(s, a);
    } else if s.calls[a].StopKick? {
      KickKeeps(s, a);
    } else if s.calls[a].RestartSet? {
      SetTimeKeeps(s, a);
    } else if s.calls[a].StopSet? {
      UnsetTimeKeeps(s, a);
    } else if s.calls[a].RestartSched? {
      SchedKeeps(s, a);
    } else if s.calls[a].RestartClear? {
      RestartClearKeeps(s, a);
    } else {
      StopClearKeeps(s, a);
    }
  }

  lemma OtherCallStays(s: State, a: Actor, b: Actor)
    requires CanStep(s, a)
    ensures b != a && b in CallStep(s, a).calls ==> b in s.calls && CallStep(s, a).calls[b] == s.calls[b]
  {
    var (before, after) := (s.calls - {a}, CallStep(s, a).calls - {a});
    assert before == after && (b in after ==> after[b] == before[b]);
  }

  /** A call on one slot leaves every other slot's timer and calls alone. */
  lemma OthersUntouched(s: State, a: Actor, i: nat)
    requires Structure(s) && CanStep(s, a) && i < |s.slots| && s.calls[a].i != i
    ensures var (s', fd) := (CallStep(s, a), s.slots[i].fd);
            && s'.slots[i] == s.slots[i]
            && (s.slots[i].open ==> fd in s'.timers && s'.timers[fd] == s.timers[fd])
            && (forall b {:trigger s'.calls[b]} {:trigger b in s'.calls} ::
                 b in s'.calls && OnHandle(s'.calls[b]) && s'.calls[b].i == i ==>
                  b in s.calls && s.calls[b] == s'.calls[b])
  {
    var (s', j) := (CallStep(s, a), s.calls[a].i);
    assert CallOk(s, a);
    OpenIsKnown(s, i);
    if s.slots[i].open && j < |s.slots| {
      TimerIsApart(s, a, i);
    }
    forall b | b in s'.calls && OnHandle(s'.calls[b]) && s'.calls[b].i == i
      ensures b in s.calls && s.calls[b] == s'.calls[b]
    {
      OtherCallStays(s, a, b);
    }
  }

  lemma TimerIsApart(s: State, a: Actor, i: nat)
    requires Structure(s) && CanStep(s, a) && i < |s.slots| && s.calls[a].i != i && s.slots[i].open
          && s.calls[a].i < |s.slots|
    ensures CallStep(s, a).timers == s.timers || s.slots[s.calls[a].i].fd != s.slots[i].fd
  {
    assert CallOk(s, a) && SlotOk(s, s.calls[a].i);
    OpenIsKnown(s, i);
  }

  // ----- Steps of the worker -----

  /** The worker changed at most slot `i`, outside callbacks. */
  ghost predicate WorksOn(s: State, s': State, i: nat) {
    && i < |s.slots| == |s'.slots| && s'.calls == s.calls
    && (forall j {:trigger s'.slots[j]} :: 0 <= j < |s.slots| && j != i ==> s'.slots[j] == s.slots[j])
    && (forall j {:trigger s'.slots[j]} {:trigger AlarmHeld(s.pc, j)} :: 0 <= j < |s.slots| && j != i ==>
          (AlarmHeld(s'.pc, j) <==> AlarmHeld(s.pc, j)) && s.pc != Scan(j, Wipe))
    && Outside(s.pc) && Outside(s'.pc)
  }

  lemma WorkOnKeeps(s: State, s': State, i: nat)
    requires Structure(s) && WorksOn(s, s', i) && SlotOk(s', i) && PcOk(s') && PfdsOk(s')
    requires s'.slots[i].open ==> s.slots[i].open && s'.slots[i].fd == s.slots[i].fd
    requires forall j {:trigger s.slots[j]} :: 0 <= j < |s.slots| && j != i && s.slots[j].open ==>
          s.slots[j].fd in s'.timers
    requires s.slots[i].installer.Some? || s.slots[i].handle == Owned || s.slots[i].handle == Closing ==>
               && SameLocked(s.slots[i], s'.slots[i])
               && (s'.slots[i].word.active ==> s.slots[i].word.active || s.slots[i].word.sched)
    ensures Structure(s')
  {
    forall j | 0 <= j < |s'.slots| ensures SlotOk(s', j) {
      if j != i {
        assert SlotOk(s, j);
      }
    }
    forall b | b in s'.calls ensures CallOk(s', b) {
      assert CallOk(s, b);
      if !s.calls[b].Alloc? {
        assert SlotOk(s, s.calls[b].i);
      }
    }
    forall j, l | 0 <= j < l < |s'.slots| && s'.slots[j].open && s'.slots[l].open
      ensures s'.slots[j].fd != s'.slots[l].fd
    {
      assert s.slots[j].open && s.slots[l].open;
    }
  }

  /** The slot's stage and descriptor are as they were; a closer keeps its lock, and
      nothing is scheduled anew. */
  predicate SameLocked(t: Slot, t': Slot) {
    && SameStage(t.(holder := t'.holder), t') && (t'.holder == t.holder || (!t.holder.Closer? && !t'.holder.Closer?))
    && (t'.word.sched ==> t.word.sched)
  }

  /** The worker moved on without changing a slot. */
  lemma MoveKeeps(s: State, s': State)
    requires Structure(s) && s' == s.(pc := s'.pc, pfds := s'.pfds, events := s'.events)
    requires Unlocked(s.pc) && Unlocked(s'.pc) && PcOk(s') && PfdsOk(s')
    requires s.pc.Scan? && s.pc.look == Wipe ==> s.pc.i >= |s.slots|
    ensures Structure(s')
  {
    forall j | 0 <= j < |s'.slots| ensures SlotOk(s', j) {
      assert SlotOk(s, j);
    }
    forall b | b in s'.calls ensures CallOk(s', b) {
      assert CallOk(s, b);
      if !s.calls[b].Alloc? {
        assert SlotOk(s, s.calls[b].i);
      }
    }
  }

  lemma PfdsStay(s: State, s': State)
    requires Structure(s) && s' == s.(pc := s'.pc) && !s.pc.Top? && !s.pc.Exited?
    requires s'.pc.Scan? ==> s.pc.Scan? && (s.pc.i < s'.pc.i || (s.pc.i == s'.pc.i && s.pc.look != ClearSched))
    ensures PfdsOk(s')
  {
    forall k | 0 <= k < |s'.pfds| ensures PfdOk(s', k) {
      assert PfdOk(s, k);
    }
  }

  lemma TopKeeps(s: State)
    requires Structure(s) && s.pc.Top?
    ensures Structure(WorkerStep(s))
  {
    MoveKeeps(s, WorkerStep(s));
  }

  /** Scanning: a test of a bit, or the end of the scan. */
  lemma TestStepKeeps(s: State)
    requires Structure(s) && s.pc.Scan?
    requires s.pc.i >= |s.slots| || s.pc.look == TestUsed || s.pc.look == TestZombie || s.pc.look == TestActive
    ensures Structure(WorkerStep(s))
  {
    if s.pc.i < |s.slots| {
      assert SlotOk(s, s.pc.i);
    }
    PfdsStay(s, WorkerStep(s));
    MoveKeeps(s, WorkerStep(s));
  }

  lemma PolledKeeps(s: State)
    requires Structure(s) && s.pc.Polled?
    ensures Structure(WorkerStep(s))
  {
    if !s.pc.event {
      PfdsStay(s, WorkerStep(s));
    }
    MoveKeeps(s, WorkerStep(s));
  }

  /** Passing over a descriptor poll did not report, or the end of them. */
  lemma PassKeeps(s: State)
    requires Structure(s) && s.pc.Serve? && (s.pc.k >= |s.pfds| || !s.pfds[s.pc.k].ready)
    ensures Structure(WorkerStep(s))
  {
    if s.pc.k < |s.pfds| {
      PfdsStay(s, WorkerStep(s));
    }
    MoveKeeps(s, WorkerStep(s));
  }

  lemma LookupKeeps(s: State)
    requires Structure(s) && s.pc.Lookup?
    ensures Structure(WorkerStep(s))
  {
    if WorkerStep(s).pc.Ring? {
      FoundIsOwner(s, s.pc.k, s.pc.j);
    }
    PfdsStay(s, WorkerStep(s));
    MoveKeeps(s, WorkerStep(s));
  }

  lemma SkipKeeps(s: State)
    requires Structure(s) && s.pc.Ring? && !s.slots[s.pc.i].hasCb
    ensures Structure(WorkerStep(s))
  {
    PfdsStay(s, WorkerStep(s));
    MoveKeeps(s, WorkerStep(s));
  }

  /** Main result: the slot found for a polled descriptor is the one that pushed it. */
  lemma FoundIsOwner(s: State, k: nat, j: nat)
    requires Structure(s) && s.pc.Lookup? && k < |s.pfds| && j < |s.slots|
    requires Valid(s.slots[j]) && s.slots[j].fd == s.pfds[k].fd
    ensures j == s.pfds[k].owner
  {
    assert PfdOk(s, k) && SlotOk(s, j) && s.slots[j].open;
    var o := s.pfds[k].owner;
    assert s.slots[o].open;
    if o < j {
    } else if j < o {
    }
  }

  lemma CleanupKeeps(s: State, i: nat, look: Look)
    requires Structure(s) && s.pc == Scan(i, look) && i < |s.slots| && (look == CloseFd || look == Wipe)
    ensures Structure(WorkerStep(s))
  {
    var s' := WorkerStep(s);
    assert SlotOk(s, i) && SlotOk(s', i);
    OpenIsKnown(s, i);
    forall k | 0 <= k < |s'.pfds| ensures PfdOk(s', k) {
      assert PfdOk(s, k);
    }
    forall j | 0 <= j < |s.slots|
      ensures (AlarmHeld(s'.pc, j) <==> AlarmHeld(s.pc, j)) && (j != i ==> s.pc != Scan(j, Wipe))
    {
    }
    WorkOnKeeps(s, s', i);
  }

  /** SCHED becomes ACTIVE. */
  lemma TakeKeeps(s: State, i: nat)
    requires Structure(s) && s.pc == Scan(i, TrySched) && i < |s.slots|
    ensures Structure(WorkerStep(s))
  {
    var s' := WorkerStep(s);
    assert SlotOk(s, i) && SlotOk(s', i);
    OpenIsKnown(s, i);
    forall k | 0 <= k < |s'.pfds| ensures PfdOk(s', k) {
      assert PfdOk(s, k);
    }
    forall j | 0 <= j < |s.slots| ensures (AlarmHeld(s'.pc, j) <==> AlarmHeld(s.pc, j)) && s.pc != Scan(j, Wipe) {}
    WorkOnKeeps(s, s', i);
  }

  /** SCHED is cleared once the descriptor is pushed. */
  lemma ClearSchedKeeps(s: State, i: nat)
    requires Structure(s) && s.pc == Scan(i, ClearSched) && i < |s.slots|
    ensures Structure(WorkerStep(s))
  {
    var s' := WorkerStep(s);
    assert SlotOk(s, i) && SlotOk(s', i);
    OpenIsKnown(s, i);
    forall k | 0 <= k < |s'.pfds| ensures PfdOk(s', k) {
      assert PfdOk(s, k);
    }
    forall j | 0 <= j < |s.slots| ensures (AlarmHeld(s'.pc, j) <==> AlarmHeld(s.pc, j)) && s.pc != Scan(j, Wipe) {}
    WorkOnKeeps(s, s', i);
  }

  lemma PushKeeps(s: State, i: nat)
    requires Structure(s) && s.pc == Scan(i, Push) && i < |s.slots|
    ensures Structure(WorkerStep(s))
  {
    var s' := WorkerStep(s);
    assert SlotOk(s, i);
    forall k | 0 <= k < |s'.pfds| ensures PfdOk(s', k) {
      if k < |s.pfds| {
        assert PfdOk(s, k);
      }
    }
    forall k, l | 0 <= k < l < |s'.pfds| ensures s'.pfds[k].owner < s'.pfds[l].owner {
      assert PfdOk(s, k);
    }
    MoveKeeps(s, s');
  }

  /** While descriptors are served, no slot loses its descriptor. */
  lemma ServingKeepsPfds(s: State, s': State)
    requires Structure(s) && !s.pc.Top? && !s.pc.Exited? && !s'.pc.Scan? && s'.pfds == s.pfds && |s'.slots| == |s.slots|
    requires forall j {:trigger s'.slots[j]} :: 0 <= j < |s.slots| ==>
               s'.slots[j].open == s.slots[j].open && s'.slots[j].fd == s.slots[j].fd
               && (s.slots[j].word.used ==> s'.slots[j].word.used)
    ensures PfdsOk(s') && FdsOk(s')
  {
    forall k | 0 <= k < |s'.pfds| ensures PfdOk(s', k) {
      assert PfdOk(s, k);
    }
    forall j, l | 0 <= j < l < |s'.slots| && s'.slots[j].open && s'.slots[l].open
      ensures s'.slots[j].fd != s'.slots[l].fd
    {
      assert s.slots[j].open && s.slots[l].open;
    }
  }

  lemma ServeSlotKeeps(s: State, s': State, i: nat)
    requires Structure(s) && (s.pc.Ring? || s.pc.Release? || s.pc.Clear?) && s.pc.i == i < |s.slots|
    requires |s'.slots| == |s.slots| && s' == s.(pc := s'.pc, slots := s.slots[i := s'.slots[i]]) && PcOk(s')
    requires !s'.pc.Scan? && Outside(s'.pc) && (s'.pc.Locked? || s'.pc.Release? ==> s'.pc.i == i)
    requires SlotOk(s', i) && SameLocked(s.slots[i], s'.slots[i]) && (s'.slots[i].word.active ==>
          s.slots[i].word.active)
    ensures Structure(s')
  {
    OpenIsKnown(s, i);
    ServingKeepsPfds(s, s');
    forall j | 0 <= j < |s.slots| && j != i
      ensures (AlarmHeld(s'.pc, j) <==> AlarmHeld(s.pc, j)) && s.pc != Scan(j, Wipe)
    {
    }
    WorkOnKeeps(s, s', i);
  }

  lemma RingKeeps(s: State)
    requires Structure(s) && WorkerCanStep(s) && s.pc.Ring? && s.slots[s.pc.i].hasCb
    ensures Structure(WorkerStep(s))
  {
    assert SlotOk(s, s.pc.i) && SlotOk(WorkerStep(s), s.pc.i);
    ServeSlotKeeps(s, WorkerStep(s), s.pc.i);
  }

  lemma ReleaseKeeps(s: State)
    requires Structure(s) && WorkerCanStep(s) && s.pc.Release?
    ensures Structure(WorkerStep(s))
  {
    assert SlotOk(s, s.pc.i) && SlotOk(WorkerStep(s), s.pc.i);
    ServeSlotKeeps(s, WorkerStep(s), s.pc.i);
  }

  lemma ClearKeeps(s: State)
    requires Structure(s) && WorkerCanStep(s) && s.pc.Clear?
    ensures Structure(WorkerStep(s))
  {
    assert SlotOk(s, s.pc.i) && SlotOk(WorkerStep(s), s.pc.i);
    ServeSlotKeeps(s, WorkerStep(s), s.pc.i);
  }

  lemma ReadKeeps(s: State)
    requires Structure(s) && WorkerCanStep(s) && s.pc.Serve? && s.pc.k < |s.pfds| && s.pfds[s.pc.k].ready
    ensures Structure(WorkerStep(s))
  {
    var (s', o) := (WorkerStep(s), s.pfds[s.pc.k].owner);
    assert PfdOk(s, s.pc.k) && SlotOk(s, o) && SlotOk(s', o);
    OpenIsKnown(s, o);
    forall k | 0 <= k < |s'.pfds| ensures PfdOk(s', k) {
      assert PfdOk(s, k);
    }
    forall j | 0 <= j < |s.slots| && j != o
      ensures (AlarmHeld(s'.pc, j) <==> AlarmHeld(s.pc, j)) && s.pc != Scan(j, Wipe)
    {
    }
    WorkOnKeeps(s, s', o);
  }

  /** The alarm holds the lock before, inside and after the callback. */
  lemma InsideKeeps(s: State, s': State, i: nat)
    requires Structure(s) && i < |s.slots| && AlarmHeld(s.pc, i) && AlarmHeld(s'.pc, i)
    requires s' == s.(pc := s'.pc, slots := s'.slots) && |s'.slots| == |s.slots| && PcOk(s')
    requires forall j {:trigger s'.slots[j]} :: 0 <= j < |s.slots| ==>
          s'.slots[j] == s.slots[j].(fires := s'.slots[j].fires, owed := s'.slots[j].owed)
    requires s'.pc.Calling? ==> s.slots[i].word.active && s.slots[i].holder == Alarm && s.pc.Locked?
    requires s'.pc.InCallback? ==> s.pc.Calling?
    requires s.pc.InCallback? ==> Worker !in s.calls
    ensures Structure(s')
  {
    forall j | 0 <= j < |s'.slots| ensures SlotOk(s', j) {
      assert SlotOk(s, j);
    }
    forall b | b in s'.calls ensures CallOk(s', b) {
      assert CallOk(s, b);
    }
    ServingKeepsPfds(s, s');
  }

  /** A callback is admitted with the lock held and ACTIVE found set. */
  lemma AdmitKeeps(s: State)
    requires Structure(s) && s.pc.Locked?
    ensures Structure(WorkerStep(s))
  {
    assert SlotOk(s, s.pc.i);
    InsideKeeps(s, WorkerStep(s), s.pc.i);
  }

  lemma EnterKeeps(s: State)
    requires Structure(s) && s.pc.Calling?
    ensures Structure(WorkerStep(s))
  {
    InsideKeeps(s, WorkerStep(s), s.pc.i);
  }

  lemma LeaveKeeps(s: State)
    requires Structure(s) && s.pc.InCallback? && Worker !in s.calls
    ensures Structure(Step(s, Leave))
  {
    InsideKeeps(s, Step(s, Leave), s.pc.i);
  }

  lemma WorkKeeps(s: State)
    requires Structure(s) && WorkerCanStep(s)
    ensures Structure(WorkerStep(s))
  {
    match s.pc
    case Scan(i, look) =>
      if i < |s.slots| && (look == CloseFd || look == Wipe) {
        CleanupKeeps(s, i, look);
      } else if i < |s.slots| && look == Push {
        PushKeeps(s, i);
      } else if i < |s.slots| && look == TrySched {
        TakeKeeps(s, i);
      } else if i < |s.slots| && look == ClearSched {
        ClearSchedKeeps(s, i);
      } else {
        TestStepKeeps(s);
      }
    case Serve(k) =>
      if k < |s.pfds| && s.pfds[k].ready {
        ReadKeeps(s);
      } else {
        PassKeeps(s);
      }
    case Top => TopKeeps(s);
    case Polled(_) => PolledKeeps(s);
    case Lookup(_, _) => LookupKeeps(s);
    case Ring(_, i) =>
      if s.slots[i].hasCb {
        RingKeeps(s);
      } else {
        SkipKeeps(s);
      }
    case Locked(_, _) => AdmitKeeps(s);
    case Calling(_, _) => EnterKeeps(s);
    case Release(_, _) => ReleaseKeeps(s);
    case Clear(_, _) => ClearKeeps(s);
  }

  /** Time passes, or deinit asks the worker to exit. */
  lemma OutsideKeeps(s: State, l: Label)
    requires Structure(s) && Enabled(s, l) && (l.Tick? || l.Shutdown?)
    ensures Structure(Step(s, l))
  {
    var s' := Step(s, l);
    forall j | 0 <= j < |s'.slots| ensures SlotOk(s', j) {
      assert SlotOk(s, j);
    }
    forall b | b in s'.calls ensures CallOk(s', b) {
      assert CallOk(s, b);
    }
    forall k | 0 <= k < |s'.pfds| && !s'.pc.Top? && !s'.pc.Exited? ensures PfdOk(s', k) {
      assert PfdOk(s, k);
    }
  }

  lemma AnswerKeeps(s: State, l: Label)
    requires Structure(s) && Enabled(s, l) && (l.PollFails? || l.Answer?)
    ensures Structure(Step(s, l))
  {
    var s' := Step(s, l);
    if l.Answer? {
      forall k | 0 <= k < |s'.pfds| ensures PfdOk(s', k) {
        assert PfdOk(s, k);
      }
    }
    MoveKeeps(s, s');
  }

  /** Main result: every step of every interleaving keeps the structure. */
  lemma StructureKept(s: State, l: Label)
    requires Structure(s) && Enabled(s, l)
    ensures Structure(Step(s, l))
  {
    match l
    case Begin(a, c) => BeginKeeps(s, a, c);
    case Act(a) => CallKeepsStructure(s, a);
    case Make(a, fd) => MadeKeeps(s, a, fd);
    case Fail(a) => FailKeeps(s, a);
    case Work => WorkKeeps(s);
    case Leave => LeaveKeeps(s);
    case Answer(_, _) => AnswerKeeps(s, l);
    case PollFails => AnswerKeeps(s, l);
    case _ => OutsideKeeps(s, l);
  }
}
