// What the POSIX timer promises in every run: of any number of clients, any
// interleaving, and any answers of the kernel.
module PosixTimerTheorems {

  import opened PosixTimerModel
  import opened PosixTimerStructure
  import opened PosixTimerArming
  import opened PosixTimerTiming
  import opened PosixTimerOwed

  ghost predicate Invariant(s: State) {
    Structure(s) && CountsOk(s) && TimingsOk(s) && OwedsOk(s)
  }

  lemma InvariantKept(s: State, l: Label)
    requires Invariant(s) && Enabled(s, l)
    ensures Invariant(Step(s, l))
  {
    StructureKept(s, l);
    CountsKept(s, l);
    TimingsKept(s, l);
    OwedsKept(s, l);
  }

  lemma InvariantAtFirst(n: nat)
    ensures Invariant(Initial(n))
  {
    var s := Initial(n);
    InitialStructure(n);
    forall i | 0 <= i < |s.slots| ensures CountOk(s, i) && TimingOk(s, i) && OwedOk(s, i) {
      assert s.slots[i] == BLANK;
    }
  }

  lemma {:induction false} RunKeeps(s: State, run: seq<Label>)
    requires Invariant(s) && IsRun(s, run)
    ensures Invariant(After(s, run))
    decreases |run|
  {
    if run != [] {
      InvariantKept(s, run[0]);
      RunKeeps(Step(s, run[0]), run[1..]);
    }
  }

  /** The state some run of a context with some number of slots reaches. */
  ghost predicate Reachable(s: State) {
    exists n: nat, run: seq<Label> :: IsRun(Initial(n), run) && After(Initial(n), run) == s
  }

  /** Main result: the invariant holds in every reachable state. */
  lemma ReachableInvariant(s: State)
    requires Reachable(s)
    ensures Invariant(s)
  {
    var n: nat, run: seq<Label> :| IsRun(Initial(n), run) && After(Initial(n), run) == s;
    InvariantAtFirst(n);
    RunKeeps(Initial(n), run);
  }

  // ----- Callbacks and armings -----

  /** Main result: callbacks entered never outnumber armings; one that is about to be
      entered is paid for as well, whatever became of ACTIVE since its test. */
  lemma OneCallbackPerArming(s: State, i: nat)
    requires Reachable(s) && i < |s.slots|
    ensures s.slots[i].fires <= s.slots[i].arms
    ensures Enters(s, i) ==> s.slots[i].fires < s.slots[i].arms
  {
    ReachableInvariant(s);
    assert CountOk(s, i);
  }

  // ----- Uninstall is final -----

  /** The slot's handle is nobody's to use: uninstalled, or not yet returned. */
  predicate Gone(s: State, i: nat) {
    i < |s.slots| && (s.slots[i].handle == Retired || s.slots[i].handle == Free)
  }

  /** The step completes an installation of slot `i`. */
  predicate Publishes(s: State, l: Label, i: nat) {
    l.Act? && l.a in s.calls && s.calls[l.a] == Publish(i)
  }

  lemma EnteringIsUsed(s: State, i: nat)
    requires Structure(s) && i < |s.slots|
    ensures Enters(s, i) ==> s.slots[i].word.used && s.slots[i].handle != Retired
  {
    if Enters(s, i) {
      assert PfdOk(s, s.pc.k) && SlotOk(s, i);
    }
  }

  lemma GoneDoesNotEnter(s: State, i: nat)
    requires Structure(s) && Gone(s, i)
    ensures !Enters(s, i)
  {
    assert SlotOk(s, i);
    EnteringIsUsed(s, i);
  }

  lemma CallGone(s: State, a: Actor, i: nat)
    requires Structure(s) && CanStep(s, a) && Gone(s, i) && !Publishes(s, Act(a), i)
    ensures Gone(CallStep(s, a), i)
  {
    assert SlotOk(s, i) && CallOk(s, a);
  }

  lemma GoneStays(s: State, l: Label, i: nat)
    requires Structure(s) && Enabled(s, l) && Gone(s, i) && !Publishes(s, l, i)
    ensures Gone(Step(s, l), i)
  {
    match l
    case Act(a) => CallGone(s, a, i);
    case _ =>
  }

  /** No step of the run enters the callback of slot `i`. */
  ghost predicate Silent(s: State, run: seq<Label>, i: nat)
    requires IsRun(s, run)
    decreases |run|
  {
    !Enters(s, i) && (run != [] ==> Silent(Step(s, run[0]), run[1..], i))
  }

  ghost predicate NeverPublished(s: State, run: seq<Label>, i: nat)
    requires IsRun(s, run)
    decreases |run|
  {
    run != [] ==> !Publishes(s, run[0], i) && NeverPublished(Step(s, run[0]), run[1..], i)
  }

  lemma {:induction false} GoneIsSilent(s: State, run: seq<Label>, i: nat)
    requires Structure(s) && Gone(s, i) && IsRun(s, run) && NeverPublished(s, run, i)
    ensures Silent(s, run, i)
    decreases |run|
  {
    GoneDoesNotEnter(s, i);
    if run != [] {
      GoneStays(s, run[0], i);
      StructureKept(s, run[0]);
      GoneIsSilent(Step(s, run[0]), run[1..], i);
    }
  }

  /** Main result: uninstall is final. When it returns, no callback of the timer is
      running unless the caller was that callback, none has been admitted, and none
      begins, in any run that does not install the slot again. */
  lemma UninstallIsFinal(s: State, a: Actor, i: nat, run: seq<Label>)
    requires Reachable(s) && a in s.calls && s.calls[a] == CloseMark(i) && i < |s.slots|
    requires IsRun(CallStep(s, a), run) && NeverPublished(CallStep(s, a), run, i)
    ensures Silent(CallStep(s, a), run, i)
    ensures s.pc.InCallback? && s.pc.i == i ==> a == Worker
  {
    ReachableInvariant(s);
    assert CallOk(s, a);
    CallKeepsStructure(s, a);
    GoneIsSilent(CallStep(s, a), run, i);
  }

  // ----- Slots and descriptors -----

  /** Main result: who owns a slot. ZOMBIE implies USED, USED implies ALLOC and a
      fully published slot, and without ALLOC the word is zero. */
  lemma SlotOwnership(s: State, i: nat)
    requires Reachable(s) && i < |s.slots|
    ensures var (t, w) := (s.slots[i], s.slots[i].word);
            && (w.zombie ==> w.used) && (w.used ==> w.alloc && t.installer.None? && t.handle != Free)
            && (!w.alloc ==> w == ZERO) && (Valid(t) ==> t.open && t.fd in s.timers)
  {
    ReachableInvariant(s);
    assert SlotOk(s, i);
  }

  /** Main result: an installation returns a slot no client has, and no two
      installations in progress have taken the same slot. */
  lemma InstallsAreApart(s: State, a: Actor, b: Actor)
    requires Reachable(s) && a in s.calls && Installs(s.calls[a])
    ensures s.calls[a].i < |s.slots| && s.slots[s.calls[a].i].handle == Free
    ensures b in s.calls && b != a && Installs(s.calls[b]) ==> s.calls[b].i != s.calls[a].i
  {
    ReachableInvariant(s);
    assert CallOk(s, a) && SlotOk(s, s.calls[a].i);
    InstallerIsAlone(s, a);
  }

  /** Main result: the slots a lookup considers have open, distinct descriptors. */
  lemma DescriptorsAreDistinct(s: State, i: nat, j: nat)
    requires Reachable(s) && i < j < |s.slots| && Valid(s.slots[i]) && Valid(s.slots[j])
    ensures s.slots[i].fd in s.timers && s.slots[j].fd in s.timers && s.slots[i].fd != s.slots[j].fd
  {
    ReachableInvariant(s);
    assert SlotOk(s, i) && SlotOk(s, j);
  }

  /** Main result: an alarm rings only for the slot that pushed the descriptor in this
      pass, and it is still that slot's, though slots were uninstalled and descriptor
      numbers used again meanwhile. */
  lemma LookupIsExact(s: State)
    requires Reachable(s) && s.pc.Ring?
    ensures s.pc.k < |s.pfds| && s.pfds[s.pc.k].owner == s.pc.i < |s.slots|
    ensures s.slots[s.pc.i].open && s.slots[s.pc.i].fd == s.pfds[s.pc.k].fd
  {
    ReachableInvariant(s);
    assert PfdOk(s, s.pc.k);
  }

  lemma {:induction false} OwnersGrow(s: State, k: nat)
    requires Structure(s) && !s.pc.Top? && !s.pc.Exited? && k < |s.pfds|
    ensures k <= s.pfds[k].owner < |s.slots|
  {
    assert PfdOk(s, k);
    if k > 0 {
      OwnersGrow(s, k - 1);
      assert s.pfds[k - 1].owner < s.pfds[k].owner;
    }
  }

  lemma {:induction false} OwnersLeaveRoom(s: State, k: nat)
    requires Structure(s) && !s.pc.Top? && !s.pc.Exited? && k < |s.pfds|
    ensures s.pfds[k].owner <= |s.slots| - (|s.pfds| - k)
    decreases |s.pfds| - k
  {
    assert PfdOk(s, k);
    if k + 1 < |s.pfds| {
      OwnersLeaveRoom(s, k + 1);
      assert s.pfds[k].owner < s.pfds[k + 1].owner;
    }
  }

  lemma OwnersAreOrdered(s: State, k: nat, l: nat)
    requires Structure(s) && !s.pc.Top? && !s.pc.Exited? && k < |s.pfds| && l < |s.pfds|
    ensures k < l ==> s.pfds[k].owner < s.pfds[l].owner
  {
  }

  /** A slot's entry comes after those of the slots before it. */
  lemma {:induction false} EntryIsLate(s: State, i: nat, k: nat)
    requires Structure(s) && !s.pc.Top? && !s.pc.Exited? && k < |s.pfds| && s.pfds[k].owner == i < |s.slots|
    requires forall j: nat {:trigger InPoll(s, j)} :: j < i ==> InPoll(s, j)
    ensures i <= k
    decreases i
  {
    if i > 0 {
      assert InPoll(s, i - 1);
      var l: nat :| l < |s.pfds| && s.pfds[l].owner == i - 1;
      EntryIsLate(s, i - 1, l);
      OwnersAreOrdered(s, k, l);
    }
  }

  /** Main result: the poll array has an entry for the eventfd and one for each slot
      watched, each once; but as it is declared it has only as many entries as there
      are slots. It overflows if and only if the pass pushed every slot's descriptor. */
  lemma PollArrayOverflowsIff(s: State)
    requires Reachable(s) && s.pc.Poll?
    ensures 1 + |s.pfds| <= 1 + |s.slots|
    ensures 1 + |s.pfds| > |s.slots| <==> forall i: nat {:trigger InPoll(s, i)} :: i < |s.slots| ==> InPoll(s, i)
  {
    ReachableInvariant(s);
    if s.pfds != [] {
      OwnersGrow(s, |s.pfds| - 1);
    }
    if |s.pfds| == |s.slots| {
      forall i: nat | i < |s.slots| ensures InPoll(s, i) {
        OwnersGrow(s, i);
        OwnersLeaveRoom(s, i);
        assert PfdOk(s, i);
      }
    } else {
      var last := |s.slots| - 1;
      if forall i: nat {:trigger InPoll(s, i)} :: i < |s.slots| ==> InPoll(s, i) {
        assert InPoll(s, last);
        var k: nat :| k < |s.pfds| && s.pfds[k].owner == last;
        EntryIsLate(s, last, k);
      }
    }
  }

  /** The worker's compare-and-set always meets a word that holds USED besides SCHED:
      it is the plain operation (AtomicMask.CasIsPlainWhenWordHoldsMore). */
  lemma CasMeetsUsed(s: State, i: nat)
    requires Reachable(s) && s.pc == Scan(i, TrySched)
    ensures i < |s.slots| && !(BitsOf(s.slots[i].word) <= SCHED)
  {
    ReachableInvariant(s);
    TestsAreMaskTests(s.slots[i].word);
  }

  // ----- Runs in parts -----

  lemma {:induction false} SplitRun(s: State, run: seq<Label>, m: nat)
    requires IsRun(s, run) && m <= |run|
    ensures IsRun(s, run[..m]) && IsRun(After(s, run[..m]), run[m..])
    ensures After(After(s, run[..m]), run[m..]) == After(s, run)
    decreases m
  {
    if m == 0 {
      assert run[..m] == [] && run[m..] == run;
    } else {
      SplitRun(Step(s, run[0]), run[1..], m - 1);
      assert run[..m][0] == run[0] && run[..m][1..] == run[1..][..m - 1] && run[m..] == run[1..][m - 1..];
    }
  }

  /** One step more. */
  lemma StepOfRun(s: State, run: seq<Label>, m: nat)
    requires IsRun(s, run) && m < |run|
    ensures IsRun(s, run[..m]) && Enabled(After(s, run[..m]), run[m])
    ensures IsRun(Step(After(s, run[..m]), run[m]), run[m + 1..])
    ensures After(Step(After(s, run[..m]), run[m]), run[m + 1..]) == After(s, run)
  {
    SplitRun(s, run, m);
    assert run[m..][0] == run[m] && run[m..][1..] == run[m + 1..];
  }

  /** The states before step `m` and before step `p` of a run, and the run between. */
  lemma Between(s: State, run: seq<Label>, m: nat, p: nat)
    requires IsRun(s, run) && m < p <= |run|
    ensures IsRun(s, run[..m]) && IsRun(s, run[..p]) && Enabled(After(s, run[..m]), run[m])
    ensures IsRun(Step(After(s, run[..m]), run[m]), run[m + 1..p])
    ensures After(Step(After(s, run[..m]), run[m]), run[m + 1..p]) == After(s, run[..p])
  {
    var init := run[..p];
    SplitRun(s, run, p);
    assert init[..m] == run[..m] && init[m] == run[m] && init[m + 1..] == run[m + 1..p];
    StepOfRun(s, init, m);
  }
}
