// Installing a POSIX timer and arming it, told by the steps of a run alone: which
// callback a slot has, when an installation is refused, and how many callbacks the
// armings since are good for.
module PosixTimerInstalls {

  import opened PosixTimerModel
  import opened PosixTimerStructure
  import opened PosixTimerArming
  import opened PosixTimerTheorems

  // ----- Callbacks entered and armings made -----

  /** The step gives slot `i` a descriptor: a timer is being installed in it. */
  predicate InstallsIn(s: State, l: Label, i: nat) {
    l.Make? && l.a in s.calls && s.calls[l.a].i == i
  }

  ghost predicate NeverInstalled(s: State, run: seq<Label>, i: nat)
    requires IsRun(s, run)
    decreases |run|
  {
    run != [] ==> !InstallsIn(s, run[0], i) && NeverInstalled(Step(s, run[0]), run[1..], i)
  }

  /** The step calls the slot's callback. */
  predicate EntersBy(s: State, l: Label, i: nat) {
    l.Work? && Enters(s, i)
  }

  /** The step sets SCHED for a start or restart of the slot. */
  predicate Arms(s: State, l: Label, i: nat) {
    l.Act? && l.a in s.calls && s.calls[l.a] == RestartSched(i)
  }

  ghost function Entries(s: State, run: seq<Label>, i: nat): nat
    requires IsRun(s, run)
    decreases |run|
  {
    if run == [] then 0 else One(EntersBy(s, run[0], i)) + Entries(Step(s, run[0]), run[1..], i)
  }

  ghost function Armings(s: State, run: seq<Label>, i: nat): nat
    requires IsRun(s, run)
    decreases |run|
  {
    if run == [] then 0 else One(Arms(s, run[0], i)) + Armings(Step(s, run[0]), run[1..], i)
  }

  /** What the step of a call adds to the slot's counts. */
  predicate Counted(t: Slot, t': Slot, armed: bool) {
    t'.fires == t.fires && t'.arms == t.arms + One(armed) && t'.hasCb == t.hasCb
  }

  lemma RestartIsCounted(s: State, a: Actor)
    requires CanStep(s, a) && OnHandle(s.calls[a]) && !Stops(s.calls[a]) && !OnlyClose(s.calls[a])
    ensures var i := s.calls[a].i; Counted(s.slots[i], CallStep(s, a).slots[i], Arms(s, Act(a), i))
  {
  }

  lemma StopIsCounted(s: State, a: Actor)
    requires CanStep(s, a) && (Stops(s.calls[a]) || OnlyClose(s.calls[a]))
    ensures var i := s.calls[a].i; Counted(s.slots[i], CallStep(s, a).slots[i], false)
  {
  }

  lemma InstallIsCounted(s: State, a: Actor)
    requires CanStep(s, a) && !OnHandle(s.calls[a]) && s.calls[a].i < |s.slots|
    ensures var i := s.calls[a].i; Counted(s.slots[i], CallStep(s, a).slots[i], false)
  {
  }

  lemma CallIsCounted(s: State, a: Actor, i: nat)
    requires CanStep(s, a) && i < |s.slots|
    ensures Counted(s.slots[i], CallStep(s, a).slots[i], Arms(s, Act(a), i))
  {
    var c := s.calls[a];
    if c.i != i {
      assert CallStep(s, a).slots[i] == s.slots[i];
    } else if !OnHandle(c) {
      InstallIsCounted(s, a);
    } else if Stops(c) || OnlyClose(c) {
      StopIsCounted(s, a);
    } else {
      RestartIsCounted(s, a);
    }
  }

  lemma WorkIsCounted(s: State, i: nat)
    requires WorkerCanStep(s) && i < |s.slots|
    ensures WorkerStep(s).slots[i].fires == s.slots[i].fires + One(Enters(s, i))
  {
    if s.pc.Scan? && s.pc.i < |s.slots| && s.pc.i != i {
      assert WorkerStep(s).slots[i] == s.slots[i];
    }
  }

  lemma StepIsCounted(s: State, l: Label, i: nat)
    requires Enabled(s, l) && i < |s.slots| && !InstallsIn(s, l, i)
    ensures var (t, t') := (s.slots[i], Step(s, l).slots[i]);
            t'.fires == t.fires + One(EntersBy(s, l, i)) && t'.arms == t.arms + One(Arms(s, l, i))
            && t'.hasCb == t.hasCb
  {
    match l
    case Act(a) => CallIsCounted(s, a, i);
    case Work => WorkIsCounted(s, i);
    case _ =>
  }

  lemma {:induction false} RunIsCounted(s: State, run: seq<Label>, i: nat)
    requires IsRun(s, run) && i < |s.slots| && NeverInstalled(s, run, i)
    ensures var (t, t') := (s.slots[i], After(s, run).slots[i]);
            t'.fires == t.fires + Entries(s, run, i) && t'.arms == t.arms + Armings(s, run, i)
    decreases |run|
  {
    if run != [] {
      StepIsCounted(s, run[0], i);
      RunIsCounted(Step(s, run[0]), run[1..], i);
    }
  }

  /** Main result: since a timer was installed, its callback has been called at most as
      often as SCHED was set for it, in any run and at any moment of it. */
  lemma EntriesAreArmed(s: State, a: Actor, fd: int, i: nat, run: seq<Label>)
    requires Reachable(s) && MayMake(s, a, fd) && s.calls[a].i == i
    requires IsRun(Made(s, a, fd), run) && NeverInstalled(Made(s, a, fd), run, i)
    ensures Entries(Made(s, a, fd), run, i) <= Armings(Made(s, a, fd), run, i)
  {
    ReachableInvariant(s);
    InvariantKept(s, Make(a, fd));
    RunIsCounted(Made(s, a, fd), run, i);
    RunKeeps(Made(s, a, fd), run);
    assert CountOk(After(Made(s, a, fd), run), i);
  }

  // ----- Which slot -----

  /** Some state of the run has slot `k` allocated. */
  ghost predicate IsMet(s: State, run: seq<Label>, k: nat)
    requires IsRun(s, run)
    decreases |run|
  {
    Allocated(s, k) || (run != [] && IsMet(Step(s, run[0]), run[1..], k))
  }

  predicate BeginsNot(run: seq<Label>, a: Actor) {
    forall k {:trigger run[k]} :: 0 <= k < |run| ==> !(run[k].Begin? && run[k].a == a)
  }

  predicate Searches(s: State, a: Actor) {
    a in s.calls && s.calls[a].Alloc?
  }

  /** The search, if it goes on, is where it was, or has passed an allocated slot. */
  predicate Moves(s: State, s': State, a: Actor) {
    Searches(s', a) ==>
      && Searches(s, a)
      && (s'.calls[a].i == s.calls[a].i || (s'.calls[a].i == s.calls[a].i + 1 && Allocated(s, s.calls[a].i)))
  }

  predicate Allocated(s: State, k: nat) {
    k < |s.slots| && s.slots[k].word.alloc
  }

  /** A step of the search passes a slot only if it is allocated, and ends at the first
      that is not. */
  lemma SearchMoves(s: State, l: Label, a: Actor)
    requires Enabled(s, l) && !(l.Begin? && l.a == a)
    ensures Moves(s, Step(s, l), a)
  {
    if l.Act? {
      if l.a != a {
        OtherCallStays(s, l.a, a);
      } else {
        OwnSearchMoves(s, a);
      }
    }
  }

  lemma OwnSearchMoves(s: State, a: Actor)
    requires CanStep(s, a)
    ensures Searches(CallStep(s, a), a) ==>
              && s.calls[a].Alloc? && s.calls[a].i < |s.slots| && s.slots[s.calls[a].i].word.alloc
              && CallStep(s, a).calls[a].i == s.calls[a].i + 1
  {
  }

  lemma {:induction false} SearchWas(s: State, run: seq<Label>, a: Actor)
    requires IsRun(s, run) && BeginsNot(run, a) && Searches(After(s, run), a)
    ensures Searches(s, a)
    decreases |run|
  {
    if run != [] {
      SearchWas(Step(s, run[0]), run[1..], a);
      SearchMoves(s, run[0], a);
    }
  }

  /** A slot the search passes is met allocated at this step, or later. */
  lemma MetNowOrLater(s: State, s': State, a: Actor, k: nat)
    requires Searches(s, a) && Searches(s', a) && Moves(s, s', a) && s.calls[a].i <= k
    ensures Allocated(s, k) || s'.calls[a].i <= k
  {
  }

  lemma {:induction false} SearchMeets(s: State, run: seq<Label>, a: Actor, k: nat)
    requires IsRun(s, run) && BeginsNot(run, a) && Searches(s, a) && Searches(After(s, run), a)
    requires s.calls[a].i <= k < After(s, run).calls[a].i
    ensures IsMet(s, run, k)
    decreases |run|
  {
    if !Allocated(s, k) {
      SearchWas(Step(s, run[0]), run[1..], a);
      SearchMoves(s, run[0], a);
      MetNowOrLater(s, Step(s, run[0]), a, k);
      SearchMeets(Step(s, run[0]), run[1..], a, k);
    }
  }

  /** Main result: an installation is refused only after every slot was met allocated.
      Where its search stands at slot `j`, and so where it has run out of slots, each
      slot before was seen in use since it began. */
  lemma SearchMeetsEverySlot(s: State, a: Actor, cb: bool, run: seq<Label>, j: nat)
    requires MayBegin(s, a, Alloc(0, cb)) && IsRun(Begun(s, a, Alloc(0, cb)), run) && BeginsNot(run, a)
    requires var e := After(Begun(s, a, Alloc(0, cb)), run); Searches(e, a) && e.calls[a].i == j
    ensures forall k: nat {:trigger IsMet(Begun(s, a, Alloc(0, cb)), run, k)} :: k < j ==>
              IsMet(Begun(s, a, Alloc(0, cb)), run, k)
  {
    forall k: nat | k < j ensures IsMet(Begun(s, a, Alloc(0, cb)), run, k) {
      SearchMeets(Begun(s, a, Alloc(0, cb)), run, a, k);
    }
  }

  // ----- Whose callback -----

  /** The last step that installed a timer in the slot gave it a callback. */
  lemma {:induction false} GivenACallback(s: State, run: seq<Label>, i: nat) returns (p: nat)
    requires IsRun(s, run) && i < |s.slots| && !s.slots[i].hasCb && After(s, run).slots[i].hasCb
    ensures p < |run| && IsRun(s, run[..p]) && InstallsIn(After(s, run[..p]), run[p], i)
    ensures After(s, run[..p]).calls[run[p].a] == Create(i, true) && IsRun(s, run[..p + 1])
    ensures IsRun(After(s, run[..p + 1]), run[p + 1..]) && NeverInstalled(After(s, run[..p + 1]), run[p + 1..], i)
    decreases |run|
  {
    p := |run| - 1;
    var init := run[..p];
    StepOfRun(s, run, p);
    SplitRun(s, run, p + 1);
    assert run[..p + 1] == run && run[p + 1..] == [];
    if !InstallsIn(After(s, init), run[p], i) {
      StepIsCounted(After(s, init), run[p], i);
      var last := p;
      p := GivenACallback(s, init, i);
      LaterStep(s, run, p, last, i);
    }
  }

  /** No installation between, and none by the last step. */
  lemma LaterStep(s: State, run: seq<Label>, p: nat, last: nat, i: nat)
    requires IsRun(s, run) && p < last == |run| - 1
    requires IsRun(s, run[..last]) && !InstallsIn(After(s, run[..last]), run[last], i)
    requires IsRun(s, run[..last][..p + 1])
    requires IsRun(After(s, run[..last][..p + 1]), run[..last][p + 1..])
    requires NeverInstalled(After(s, run[..last][..p + 1]), run[..last][p + 1..], i)
    ensures run[..last][..p] == run[..p] && run[..last][p] == run[p] && IsRun(s, run[..p + 1])
    ensures IsRun(After(s, run[..p + 1]), run[p + 1..]) && NeverInstalled(After(s, run[..p + 1]), run[p + 1..], i)
  {
    var (init, mid) := (run[..last], run[p + 1..]);
    assert init[..p] == run[..p] && init[..p + 1] == run[..p + 1] && init[p + 1..] == mid[..|mid| - 1];
    SplitRun(s, run, p + 1);
    SplitRun(s, init, p + 1);
    AlsoTheLast(After(s, run[..p + 1]), mid, i);
  }

  lemma {:induction false} AlsoTheLast(s: State, run: seq<Label>, i: nat)
    requires run != [] && IsRun(s, run) && IsRun(s, run[..|run| - 1]) && NeverInstalled(s, run[..|run| - 1], i)
    requires !InstallsIn(After(s, run[..|run| - 1]), run[|run| - 1], i)
    ensures NeverInstalled(s, run, i)
    decreases |run|
  {
    var init := run[..|run| - 1];
    if init == [] {
      assert run[1..] == [];
    } else {
      assert init[0] == run[0] && init[1..] == run[1..][..|run| - 2];
      AlsoTheLast(Step(s, run[0]), run[1..], i);
    }
  }

  /** The call in progress is to install a timer, with a callback if `cb`. */
  predicate Installing(s: State, a: Actor, cb: bool) {
    a in s.calls && (s.calls[a].Alloc? || s.calls[a].Create?) && s.calls[a].cb == cb
  }

  lemma InstallingWas(s: State, l: Label, a: Actor, cb: bool)
    requires Enabled(s, l) && Installing(Step(s, l), a, cb)
    ensures Installing(s, a, cb) || l == Begin(a, Alloc(0, cb))
  {
    if l.Act? {
      if l.a != a {
        OtherCallStays(s, l.a, a);
      } else {
        OwnInstallingWas(s, a, cb);
      }
    }
  }

  lemma OwnInstallingWas(s: State, a: Actor, cb: bool)
    requires CanStep(s, a) && Installing(CallStep(s, a), a, cb)
    ensures Installing(s, a, cb)
  {
  }

  lemma {:induction false} InstallBegan(s: State, run: seq<Label>, a: Actor, cb: bool) returns (b: nat)
    requires IsRun(s, run) && a !in s.calls && Installing(After(s, run), a, cb)
    ensures b < |run| && run[b] == Begin(a, Alloc(0, cb)) && BeginsNot(run[b + 1..], a)
    decreases |run|
  {
    b := |run| - 1;
    var init := run[..b];
    StepOfRun(s, run, b);
    InstallingWas(After(s, init), run[b], a, cb);
    if run[b] != Begin(a, Alloc(0, cb)) {
      var last := b;
      b := InstallBegan(s, init, a, cb);
      assert run[b + 1..] == init[b + 1..] + [run[last]] && run[b] == init[b];
    }
  }

  /** Main result: only a callback the client gave is called. Whenever the callback of a
      slot is about to be called, the timer last installed in the slot is one whose
      client asked for it with a callback. */
  lemma CallbackWasGiven(n: nat, run: seq<Label>, i: nat) returns (b: nat, p: nat)
    requires IsRun(Initial(n), run) && Enters(After(Initial(n), run), i)
    ensures b < p < |run| && IsRun(Initial(n), run[..p]) && InstallsIn(After(Initial(n), run[..p]), run[p], i)
    ensures run[b] == Begin(run[p].a, Alloc(0, true)) && BeginsNot(run[b + 1..p], run[p].a)
    ensures IsRun(Initial(n), run[..p + 1]) && IsRun(After(Initial(n), run[..p + 1]), run[p + 1..])
    ensures NeverInstalled(After(Initial(n), run[..p + 1]), run[p + 1..], i)
  {
    ReachableInvariant(After(Initial(n), run));
    p := GivenACallback(Initial(n), run, i);
    b := InstallBegan(Initial(n), run[..p], run[p].a, true);
    assert run[..p][b] == run[b] && run[..p][b + 1..] == run[b + 1..p];
  }
}
