// What a callback of the POSIX timer may rely on when it is entered. The worker tests
// ACTIVE, then calls; between the two a restart or stop may still come.
module PosixTimerEntry {

  import opened PosixTimerModel
  import opened PosixTimerStructure
  import opened PosixTimerTiming
  import opened PosixTimerTheorems

  /** The worker is about to test ACTIVE, and will find it set: the test admits the
      callback of slot `i`. */
  predicate Tests(s: State, i: nat) {
    s.pc.Locked? && s.pc.i == i && i < |s.slots| && s.slots[i].word.active
  }

  /** A callback now is for the latest restart, and not before its deadline. */
  predicate IsFresh(s: State, i: nat)
    requires i < |s.slots|
  {
    s.slots[i].agen == s.slots[i].gen && Passed(s.slots[i], s.now)
  }

  /** Main result: no test admits a stale or early callback. Unless calls on the timer
      have overlapped since its last lone restart or stop, ACTIVE found set is that of
      the latest generation, and that generation's deadline has passed. */
  lemma AdmittedIsFresh(s: State, i: nat)
    requires Reachable(s) && Tests(s, i) && !s.slots[i].raced
    ensures IsFresh(s, i)
  {
    ReachableInvariant(s);
    assert TimingOk(s, i);
    assert Reported(s, s.pc.k) && s.pfds[s.pc.k].owner == i;
  }

  // ----- From the test to the call -----

  /** A restart or stop of slot `i` takes the step that clears ACTIVE and SCHED. */
  predicate Clears(s: State, l: Label, i: nat) {
    l.Act? && l.a in s.calls && Disarms(s.calls[l.a]) && s.calls[l.a].i == i
  }

  ghost predicate NeverCleared(s: State, run: seq<Label>, i: nat)
    requires IsRun(s, run)
    decreases |run|
  {
    run != [] ==> !Clears(s, run[0], i) && NeverCleared(Step(s, run[0]), run[1..], i)
  }

  /** The callback has been admitted; while no restart or stop has cleared the slot
      since, none is half done and the deadline passed is the latest. */
  predicate Admitted(s: State, i: nat) {
    && Enters(s, i) && s.slots[i].agen <= s.slots[i].gen
    && (s.slots[i].agen == s.slots[i].gen ==> Passed(s.slots[i], s.now) && NotMidCall(s, i))
  }

  predicate NotMidCall(s: State, i: nat) {
    forall a {:trigger s.calls[a]} :: a in s.calls && s.calls[a].i == i ==> !MidCall(s.calls[a])
  }

  /** What one step of anyone but the worker does to an admitted callback. */
  predicate Waited(s: State, s': State, l: Label, i: nat)
    requires i < |s.slots| == |s'.slots|
  {
    && Admitted(s', i) && s'.slots[i].agen == s.slots[i].agen
    && s'.slots[i].gen == s.slots[i].gen + if Clears(s, l, i) then 1 else 0
  }

  lemma CallWaits(s: State, a: Actor, i: nat)
    requires Structure(s) && CanStep(s, a) && Admitted(s, i)
    ensures Waited(s, CallStep(s, a), Act(a), i)
  {
    var s' := CallStep(s, a);
    assert CallOk(s, a);
    if !Clears(s, Act(a), i) && s.slots[i].agen == s.slots[i].gen {
      forall b | b in s'.calls && s'.calls[b].i == i ensures !MidCall(s'.calls[b]) {
        OtherCallStays(s, a, b);
      }
    }
  }

  lemma MadeWaits(s: State, a: Actor, fd: int, i: nat)
    requires Structure(s) && MayMake(s, a, fd) && Admitted(s, i)
    ensures Waited(s, Made(s, a, fd), Make(a, fd), i)
  {
    assert CallOk(s, a) && SlotOk(s, i) && PfdOk(s, s.pc.k);
    assert NotMidCall(s, i) ==> NotMidCall(Made(s, a, fd), i);
  }

  lemma BeginWaits(s: State, a: Actor, c: Call, i: nat)
    requires Structure(s) && MayBegin(s, a, c) && Admitted(s, i)
    ensures Waited(s, Begun(s, a, c), Begin(a, c), i)
  {
    assert NotMidCall(s, i) ==> NotMidCall(Begun(s, a, c), i);
  }

  lemma FailWaits(s: State, a: Actor, i: nat)
    requires Structure(s) && MayFail(s, a) && Admitted(s, i)
    ensures Waited(s, FailedStep(s, a), Fail(a), i)
  {
    assert NotMidCall(s, i) ==> NotMidCall(FailedStep(s, a), i);
  }

  lemma StepWaits(s: State, l: Label, i: nat)
    requires Structure(s) && Enabled(s, l) && l != Work && Admitted(s, i)
    ensures Waited(s, Step(s, l), l, i)
  {
    match l
    case Act(a) => CallWaits(s, a, i);
    case Make(a, fd) => MadeWaits(s, a, fd, i);
    case Begin(a, c) => BeginWaits(s, a, c, i);
    case Fail(a) => FailWaits(s, a, i);
    case _ =>
  }

  lemma {:induction false} RunWaits(s: State, run: seq<Label>, i: nat)
    requires Structure(s) && IsRun(s, run) && Work !in run && Admitted(s, i)
    ensures Admitted(After(s, run), i) && After(s, run).slots[i].agen == s.slots[i].agen
    ensures After(s, run).slots[i].gen >= s.slots[i].gen
    ensures After(s, run).slots[i].gen == s.slots[i].gen <==> NeverCleared(s, run, i)
    decreases |run|
  {
    if run != [] {
      StepWaits(s, run[0], i);
      StructureKept(s, run[0]);
      RunWaits(Step(s, run[0]), run[1..], i);
    }
  }

  /** Main result: when a callback is stale. Until the worker, past its test, takes
      another step it stays about to call the callback; when it does, the callback is
      for the latest generation and in time if and only if no restart or stop of the
      timer has taken its clearing step since the test. */
  lemma EntryIsFreshIff(s: State, i: nat, run: seq<Label>)
    requires Reachable(s) && Tests(s, i) && !s.slots[i].raced
    requires IsRun(WorkerStep(s), run) && Work !in run
    ensures Enters(After(WorkerStep(s), run), i)
    ensures IsFresh(After(WorkerStep(s), run), i) <==> NeverCleared(WorkerStep(s), run, i)
    ensures After(WorkerStep(s), run).slots[i].agen < After(WorkerStep(s), run).slots[i].gen
            <==> !NeverCleared(WorkerStep(s), run, i)
  {
    ReachableInvariant(s);
    AdmittedIsFresh(s, i);
    NoneIsMidCall(s, i);
    StructureKept(s, Work);
    RunWaits(WorkerStep(s), run, i);
  }

  lemma NoneIsMidCall(s: State, i: nat)
    requires Structure(s) && i < |s.slots| && TimingOk(s, i) && s.slots[i].word.active
    ensures NotMidCall(s, i)
  {
    forall a | a in s.calls && s.calls[a].i == i ensures !MidCall(s.calls[a]) {
      assert OnHandle(s.calls[a]) ==> CallTimingOk(s, a, s.slots[i]);
    }
  }

  // ----- Every entry has its test -----

  lemma OnlyTestsAdmit(s: State, l: Label, i: nat)
    requires Enabled(s, l) && !Enters(s, i) && Enters(Step(s, l), i)
    ensures l == Work && Tests(s, i)
  {
  }

  /** The last test before an entry: the worker has waited since. */
  lemma {:induction false} LastTest(s: State, run: seq<Label>, i: nat) returns (m: nat)
    requires IsRun(s, run) && Enters(After(s, run), i) && !Enters(s, i)
    ensures m < |run| && run[m] == Work && Work !in run[m + 1..]
    ensures IsRun(s, run[..m]) && Tests(After(s, run[..m]), i)
    decreases |run|
  {
    m := |run| - 1;
    StepOfRun(s, run, m);
    var init := run[..m];
    if !Enters(After(s, init), i) {
      OnlyTestsAdmit(After(s, init), run[m], i);
    } else {
      m := LastTest(s, init, i);
      assert init[..m] == run[..m] && run[m + 1..] == init[m + 1..] + [run[|run| - 1]];
    }
  }

  /** Main result: every callback any run enters was admitted by a test that, unless
      calls had overlapped, found the latest generation's deadline passed; and it is
      stale or early if and only if a restart or stop cleared the slot since. */
  lemma CallbackIsFreshIff(n: nat, run: seq<Label>, i: nat) returns (m: nat)
    requires IsRun(Initial(n), run) && Enters(After(Initial(n), run), i)
    ensures m < |run| && run[m] == Work && Work !in run[m + 1..] && IsRun(Initial(n), run[..m])
    ensures var s := After(Initial(n), run[..m]);
            && Tests(s, i) && IsRun(WorkerStep(s), run[m + 1..])
            && (!s.slots[i].raced ==>
                  && IsFresh(s, i)
                  && (IsFresh(After(Initial(n), run), i) <==> NeverCleared(WorkerStep(s), run[m + 1..], i)))
  {
    m := LastTest(Initial(n), run, i);
    StepOfRun(Initial(n), run, m);
    var s := After(Initial(n), run[..m]);
    if !s.slots[i].raced {
      AdmittedIsFresh(s, i);
      EntryIsFreshIff(s, i, run[m + 1..]);
    }
  }
}
