// Runs of the POSIX timer, step by step: one slot, one client that installs a timer and
// starts it, and the worker. A callback is entered; a stop or a restart slips in just
// before it; and the poll array overflows.
module PosixTimerExample {

  import opened Wrappers
  import opened PosixTimerModel
  import opened PosixTimerTheorems
  import opened PosixTimerEntry
  import opened PosixTimerEvents

  const FD := 7
  const CLIENT := Client(0)

  /** In a run of this kind poll reports exactly what is readable. */
  ghost predicate IsExactRun(s: State, run: seq<Label>)
    requires IsRun(s, run)
    decreases |run|
  {
    run != [] ==> IsExact(s, run[0]) && IsExactRun(Step(s, run[0]), run[1..])
  }

  /** The state some run with exact polls reaches. */
  ghost predicate Reached(s: State) {
    exists n: nat, run: seq<Label> ::
      IsRun(Initial(n), run) && IsExactRun(Initial(n), run) && After(Initial(n), run) == s
  }

  lemma ReachedIsReachable(s: State)
    requires Reached(s)
    ensures Reachable(s)
  {
    var n: nat, run: seq<Label> :| IsRun(Initial(n), run) && IsExactRun(Initial(n), run) && After(Initial(n), run) == s;
  }

  /** One more step of a run from `first`. */
  lemma {:induction false} Extend(first: State, run: seq<Label>, l: Label)
    requires IsRun(first, run) && IsExactRun(first, run)
    requires Enabled(After(first, run), l) && IsExact(After(first, run), l)
    ensures IsRun(first, run + [l]) && IsExactRun(first, run + [l])
    ensures After(first, run + [l]) == Step(After(first, run), l)
    decreases |run|
  {
    var all := run + [l];
    if run == [] {
      assert all[0] == l && all[1..] == [];
    } else {
      Extend(Step(first, run[0]), run[1..], l);
      assert all[0] == run[0] && all[1..] == run[1..] + [l];
    }
  }

  lemma Then(s: State, l: Label)
    requires Reached(s) && Enabled(s, l) && IsExact(s, l)
    ensures Reached(Step(s, l))
  {
    var n: nat, run: seq<Label> :| IsRun(Initial(n), run) && IsExactRun(Initial(n), run) && After(Initial(n), run) == s;
    Extend(Initial(n), run, l);
  }

  // ----- The slot and the states along the way -----

  const TAKEN := BLANK.(word := ALLOCATED, installer := Some(CLIENT))
  const OPENED := TAKEN.(fd := FD, open := true, hasCb := true, gen := 1)
  const USABLE := OPENED.(word := ALLOCATED.(used := true), handle := Owned, installer := None)
  const CLEARED := USABLE.(gen := 2)
  const TIMED := CLEARED.(due := Some(1000))
  const STARTED := TIMED.(word := USABLE.word.(sched := true), sgen := 2, arms := 1, owed := Loose)
  const WATCHED := STARTED.(word := STARTED.word.(active := true), agen := 2, owed := Watched)
  const ACTIVE_ONLY := WATCHED.(word := WATCHED.word.(sched := false))
  const EXPIRED := ACTIVE_ONLY.(owed := Due)
  const RINGING := EXPIRED.(holder := Alarm)
  const RUNG := RINGING.(owed := Nothing)

  function Before(t: Slot, due: Option<nat>, calls: map<Actor, Call>): State {
    State([t], map[FD := due], 0, 0, false, calls, Top, [])
  }

  /** The worker is at work before the client has woken it. */
  function During(t: Slot, now: nat, pc: Pc, pfds: seq<Pfd>): State {
    State([t], map[FD := Some(1000)], now, 0, false, map[CLIENT := RestartKick(0)], pc, pfds)
  }

  lemma Begins()
    ensures Reached(State([BLANK], map[], 0, 0, false, map[CLIENT := Alloc(0, true)], Top, []))
  {
    var s := Initial(1);
    assert s.slots == [BLANK] && IsRun(s, []) && After(s, []) == s;
    Then(s, Begin(CLIENT, Alloc(0, true)));
  }

  lemma Allocates()
    ensures Reached(State([TAKEN], map[], 0, 0, false, map[CLIENT := Create(0, true)], Top, []))
  {
    Begins();
    var s := State([BLANK], map[], 0, 0, false, map[CLIENT := Alloc(0, true)], Top, []);
    Then(s, Act(CLIENT));
    assert Step(s, Act(CLIENT)) == State([TAKEN], map[], 0, 0, false, map[CLIENT := Create(0, true)], Top, []);
  }

  lemma Opens()
    ensures Reached(Before(OPENED, None, map[CLIENT := Publish(0)]))
  {
    Allocates();
    var s := State([TAKEN], map[], 0, 0, false, map[CLIENT := Create(0, true)], Top, []);
    var s1 := Before(OPENED, None, map[CLIENT := InitLock(0)]);
    Then(s, Make(CLIENT, FD));
    assert Step(s, Make(CLIENT, FD)) == s1;
    Then(s1, Act(CLIENT));
    assert Step(s1, Act(CLIENT)) == Before(OPENED, None, map[CLIENT := Publish(0)]);
  }

  lemma Publishes()
    ensures Reached(Before(USABLE, None, map[CLIENT := StartTest(0, 1)]))
  {
    Opens();
    var s := Before(OPENED, None, map[CLIENT := Publish(0)]);
    var s1 := Before(USABLE, None, map[]);
    Then(s, Act(CLIENT));
    assert Step(s, Act(CLIENT)) == s1;
    Then(s1, Begin(CLIENT, StartTest(0, 1)));
    assert Step(s1, Begin(CLIENT, StartTest(0, 1))) == Before(USABLE, None, map[CLIENT := StartTest(0, 1)]);
  }

  lemma Starts()
    ensures Reached(Before(USABLE, None, map[CLIENT := RestartClear(0, 1)]))
  {
    Publishes();
    var s := Before(USABLE, None, map[CLIENT := StartTest(0, 1)]);
    Then(s, Act(CLIENT));
    assert Step(s, Act(CLIENT)) == Before(USABLE, None, map[CLIENT := RestartClear(0, 1)]);
  }

  lemma Clears()
    ensures Reached(Before(CLEARED, None, map[CLIENT := RestartSet(0, 1)]))
  {
    Starts();
    var s := Before(USABLE, None, map[CLIENT := RestartClear(0, 1)]);
    Then(s, Act(CLIENT));
    assert Step(s, Act(CLIENT)) == Before(CLEARED, None, map[CLIENT := RestartSet(0, 1)]);
  }

  lemma Times()
    ensures Reached(Before(TIMED, Some(1000), map[CLIENT := RestartSched(0)]))
  {
    Clears();
    var s := Before(CLEARED, None, map[CLIENT := RestartSet(0, 1)]);
    Then(s, Act(CLIENT));
    assert Step(s, Act(CLIENT)) == Before(TIMED, Some(1000), map[CLIENT := RestartSched(0)]);
  }

  lemma Schedules()
    ensures Reached(Before(STARTED, Some(1000), map[CLIENT := RestartKick(0)]))
  {
    Times();
    var s := Before(TIMED, Some(1000), map[CLIENT := RestartSched(0)]);
    Then(s, Act(CLIENT));
    assert Step(s, Act(CLIENT)) == Before(STARTED, Some(1000), map[CLIENT := RestartKick(0)]);
  }

  lemma ScanBegins()
    ensures Reached(During(STARTED, 0, Scan(0, TestZombie), []))
  {
    Schedules();
    var s := Before(STARTED, Some(1000), map[CLIENT := RestartKick(0)]);
    var s1 := During(STARTED, 0, Scan(0, TestUsed), []);
    Then(s, Work);
    assert Step(s, Work) == s1;
    Then(s1, Work);
    assert Step(s1, Work) == During(STARTED, 0, Scan(0, TestZombie), []);
  }

  lemma ScanTakes()
    ensures Reached(During(WATCHED, 0, Scan(0, Push), []))
  {
    ScanBegins();
    var s := During(STARTED, 0, Scan(0, TestZombie), []);
    var (s1, s2) := (During(STARTED, 0, Scan(0, TestActive), []), During(STARTED, 0, Scan(0, TrySched), []));
    Then(s, Work);
    assert Step(s, Work) == s1;
    Then(s1, Work);
    assert Step(s1, Work) == s2;
    Then(s2, Work);
    assert Step(s2, Work) == During(WATCHED, 0, Scan(0, Push), []);
  }

  lemma ScanEnds()
    ensures Reached(During(ACTIVE_ONLY, 0, Poll, [Pfd(FD, 0, false)]))
  {
    ScanTakes();
    var (s, watched) := (During(WATCHED, 0, Scan(0, Push), []), [Pfd(FD, 0, false)]);
    var s1 := During(WATCHED, 0, Scan(0, ClearSched), watched);
    var s2 := During(ACTIVE_ONLY, 0, Scan(1, TestUsed), watched);
    Then(s, Work);
    assert Step(s, Work) == s1;
    Then(s1, Work);
    assert Step(s1, Work) == s2;
    Then(s2, Work);
    assert Step(s2, Work) == During(ACTIVE_ONLY, 0, Poll, watched);
  }

  lemma PollAnswers()
    ensures Reached(During(ACTIVE_ONLY, 1000, Polled(false), [Pfd(FD, 0, true)]))
  {
    ScanEnds();
    var s := During(ACTIVE_ONLY, 0, Poll, [Pfd(FD, 0, false)]);
    var s1 := During(ACTIVE_ONLY, 1000, Poll, [Pfd(FD, 0, false)]);
    Then(s, Tick(1000));
    assert Step(s, Tick(1000)) == s1;
    Then(s1, Answer(false, [true]));
    assert Step(s1, Answer(false, [true])).pfds == [Pfd(FD, 0, true)];
  }

  lemma Reads()
    ensures Reached(During(EXPIRED, 1000, Lookup(0, 0), [Pfd(FD, 0, true)]).(timers := map[FD := None]))
  {
    PollAnswers();
    var s := During(ACTIVE_ONLY, 1000, Polled(false), [Pfd(FD, 0, true)]);
    var s1 := During(ACTIVE_ONLY, 1000, Serve(0), [Pfd(FD, 0, true)]);
    Then(s, Work);
    assert Step(s, Work) == s1;
    Then(s1, Work);
    assert Step(s1, Work) == During(EXPIRED, 1000, Lookup(0, 0), [Pfd(FD, 0, true)]).(timers := map[FD := None]);
  }

  lemma Locks()
    ensures Reached(During(RINGING, 1000, Locked(0, 0), [Pfd(FD, 0, true)]).(timers := map[FD := None]))
  {
    Reads();
    var s := During(EXPIRED, 1000, Lookup(0, 0), [Pfd(FD, 0, true)]).(timers := map[FD := None]);
    var s1 := s.(pc := Ring(0, 0));
    Then(s, Work);
    assert Step(s, Work) == s1;
    Then(s1, Work);
    assert Step(s1, Work) == s1.(pc := Locked(0, 0), slots := [RINGING]);
  }

  /** The client's call has returned, and the callback is admitted. */
  const ABOUT_TO_CALL := State([RINGING], map[FD := None], 1000, 1, false, map[], Calling(0, 0), [Pfd(FD, 0, true)])

  lemma Admits()
    ensures Reached(ABOUT_TO_CALL)
  {
    Locks();
    var s := During(RINGING, 1000, Locked(0, 0), [Pfd(FD, 0, true)]).(timers := map[FD := None]);
    var s1 := s.(calls := map[], events := 1);
    Then(s, Act(CLIENT));
    assert Step(s, Act(CLIENT)) == s1;
    Then(s1, Work);
    assert Step(s1, Work) == ABOUT_TO_CALL;
  }

  /** Main result: some run enters a callback, a microsecond after the timer was
      started with that delay, for the latest restart. */
  lemma ACallbackIsEntered() returns (s: State)
    ensures Reached(s) && Enters(s, 0) && IsFresh(s, 0) && s.now == ArmNs(1) && s.slots[0].due == Some(s.now)
    ensures Reachable(s) && !s.slots[0].raced && Enabled(s, Work)
  {
    Admits();
    s := ABOUT_TO_CALL;
    ReachedIsReachable(s);
  }

  // ----- Between the test and the call -----

  /** After the client begins call `c`. */
  function Calls(t: Slot, at: Option<nat>, c: Call): State {
    ABOUT_TO_CALL.(slots := [t], timers := map[FD := at], calls := map[CLIENT := c])
  }

  const STALE := RUNG.(word := USABLE.word, gen := 3, due := None)

  lemma StopBegins()
    ensures Reached(Calls(RUNG, None, StopClear(0, false)))
  {
    Admits();
    Then(ABOUT_TO_CALL, Begin(CLIENT, StopClear(0, false)));
    assert Step(ABOUT_TO_CALL, Begin(CLIENT, StopClear(0, false))) == Calls(RUNG, None, StopClear(0, false));
  }

  lemma StopSlipsIn()
    ensures Reached(Calls(STALE, None, StopSet(0, false)))
  {
    StopBegins();
    var s := Calls(RUNG, None, StopClear(0, false));
    Then(s, Act(CLIENT));
    assert Step(s, Act(CLIENT)) == Calls(STALE, None, StopSet(0, false));
  }

  /** Main result: a stop that has returned may be followed by the timer's callback.
      Made alone, after the test of ACTIVE and before the call, it does not keep the
      callback from being entered. */
  lemma AStopMayComeTooLate() returns (s: State)
    ensures Reached(s) && Reachable(s) && Enters(s, 0) && Enabled(s, Work) && s.calls == map[]
    ensures !s.slots[0].raced && !s.slots[0].word.active && s.slots[0].due.None? && s.slots[0].agen < s.slots[0].gen
  {
    StopSlipsIn();
    var (s0, s1) := (Calls(STALE, None, StopSet(0, false)), Calls(STALE, None, StopKick(0, false)));
    Then(s0, Act(CLIENT));
    assert Step(s0, Act(CLIENT)) == s1;
    Then(s1, Act(CLIENT));
    s := s1.(calls := map[], events := 2);
    assert Step(s1, Act(CLIENT)) == s;
    ReachedIsReachable(s);
  }

  const RESET := STALE.(due := Some(2000))
  const RESTARTED := RESET.(word := STALE.word.(sched := true), sgen := 3, arms := 2, owed := Loose)

  lemma RestartBegins()
    ensures Reached(Calls(RUNG, None, RestartClear(0, 1)))
  {
    Admits();
    Then(ABOUT_TO_CALL, Begin(CLIENT, RestartClear(0, 1)));
    assert Step(ABOUT_TO_CALL, Begin(CLIENT, RestartClear(0, 1))) == Calls(RUNG, None, RestartClear(0, 1));
  }

  lemma RestartSlipsIn()
    ensures Reached(Calls(STALE, None, RestartSet(0, 1)))
  {
    RestartBegins();
    var s := Calls(RUNG, None, RestartClear(0, 1));
    Then(s, Act(CLIENT));
    assert Step(s, Act(CLIENT)) == Calls(STALE, None, RestartSet(0, 1));
  }

  lemma RestartSets()
    ensures Reached(Calls(RESET, Some(2000), RestartSched(0)))
  {
    RestartSlipsIn();
    var s := Calls(STALE, None, RestartSet(0, 1));
    Then(s, Act(CLIENT));
    assert Step(s, Act(CLIENT)) == Calls(RESET, Some(2000), RestartSched(0));
  }

  lemma RestartSchedules()
    ensures Reached(Calls(RESTARTED, Some(2000), RestartKick(0)))
  {
    RestartSets();
    var s := Calls(RESET, Some(2000), RestartSched(0));
    Then(s, Act(CLIENT));
    assert Step(s, Act(CLIENT)) == Calls(RESTARTED, Some(2000), RestartKick(0));
  }

  /** Main result: after a restart that has returned the callback may still be entered
      before the new deadline. */
  lemma ARestartMayComeTooLate() returns (s: State)
    ensures Reached(s) && Reachable(s) && Enters(s, 0) && Enabled(s, Work) && s.calls == map[]
    ensures !s.slots[0].raced && s.slots[0].due.Some? && s.now < s.slots[0].due.value
  {
    RestartSchedules();
    var s0 := Calls(RESTARTED, Some(2000), RestartKick(0));
    Then(s0, Act(CLIENT));
    s := s0.(calls := map[], events := 2);
    assert Step(s0, Act(CLIENT)) == s;
    ReachedIsReachable(s);
  }

  // ----- Between taking SCHED up and clearing it -----

  /** The worker has taken the timer up and is at `pc`; the client is at call `c`. */
  function Meanwhile(t: Slot, at: nat, c: Call, pc: Pc, pfds: seq<Pfd>): State {
    State([t], map[FD := Some(at)], 0, 1, false, map[CLIENT := c], pc, pfds)
  }

  const AGAIN := WATCHED.(owed := Nothing)
  const AGAIN_CLEARED := AGAIN.(word := USABLE.word, gen := 3, due := None)
  const AGAIN_TIMED := AGAIN_CLEARED.(due := Some(1000))
  const AGAIN_STARTED := AGAIN_TIMED.(word := STARTED.word, sgen := 3, arms := 2, owed := Loose)
  const LOST := AGAIN_STARTED.(word := USABLE.word, owed := Nothing)

  lemma RestartsAgain()
    ensures Reached(Meanwhile(AGAIN, 1000, RestartClear(0, 1), Scan(0, Push), []))
  {
    ScanTakes();
    var s := During(WATCHED, 0, Scan(0, Push), []);
    var s1 := s.(calls := map[], events := 1);
    Then(s, Act(CLIENT));
    assert Step(s, Act(CLIENT)) == s1;
    Then(s1, Begin(CLIENT, RestartClear(0, 1)));
    assert Step(s1, Begin(CLIENT, RestartClear(0, 1))) == Meanwhile(AGAIN, 1000, RestartClear(0, 1), Scan(0, Push), []);
  }

  lemma ClearsAgain()
    ensures Reached(Meanwhile(AGAIN_CLEARED, 1000, RestartSet(0, 1), Scan(0, Push), []))
  {
    RestartsAgain();
    var s := Meanwhile(AGAIN, 1000, RestartClear(0, 1), Scan(0, Push), []);
    Then(s, Act(CLIENT));
    assert Step(s, Act(CLIENT)) == Meanwhile(AGAIN_CLEARED, 1000, RestartSet(0, 1), Scan(0, Push), []);
  }

  lemma TimesAgain()
    ensures Reached(Meanwhile(AGAIN_TIMED, 1000, RestartSched(0), Scan(0, Push), []))
  {
    ClearsAgain();
    var s := Meanwhile(AGAIN_CLEARED, 1000, RestartSet(0, 1), Scan(0, Push), []);
    Then(s, Act(CLIENT));
    assert Step(s, Act(CLIENT)) == Meanwhile(AGAIN_TIMED, 1000, RestartSched(0), Scan(0, Push), []);
  }

  lemma SchedulesAgain()
    ensures Reached(Meanwhile(AGAIN_STARTED, 1000, RestartKick(0), Scan(0, Push), []))
  {
    TimesAgain();
    var s := Meanwhile(AGAIN_TIMED, 1000, RestartSched(0), Scan(0, Push), []);
    Then(s, Act(CLIENT));
    assert Step(s, Act(CLIENT)) == Meanwhile(AGAIN_STARTED, 1000, RestartKick(0), Scan(0, Push), []);
  }

  lemma WorkerClears()
    ensures Reached(Meanwhile(LOST, 1000, RestartKick(0), Scan(1, TestUsed), [Pfd(FD, 0, false)]))
  {
    SchedulesAgain();
    var (s, watched) := (Meanwhile(AGAIN_STARTED, 1000, RestartKick(0), Scan(0, Push), []), [Pfd(FD, 0, false)]);
    var s1 := Meanwhile(AGAIN_STARTED, 1000, RestartKick(0), Scan(0, ClearSched), watched);
    Then(s, Work);
    assert Step(s, Work) == s1;
    Then(s1, Work);
    assert Step(s1, Work) == Meanwhile(LOST, 1000, RestartKick(0), Scan(1, TestUsed), watched);
  }

  /** Main result: a restart may be lost. Made alone between the worker's setting of
      ACTIVE and its clearing of SCHED, it returns having armed the kernel's timer, and
      the worker's step takes the SCHED bit it set: neither bit is left. */
  lemma ARestartMayBeLost() returns (s: State)
    ensures Reached(s) && Reachable(s) && s.calls == map[] && |s.slots| == 1 && !s.slots[0].raced && s.slots[0].hasCb
    ensures s.slots[0].due.Some? && s.timers == map[s.slots[0].fd := s.slots[0].due]
    ensures Valid(s.slots[0]) && !s.slots[0].word.active && !s.slots[0].word.sched
  {
    WorkerClears();
    var s0 := Meanwhile(LOST, 1000, RestartKick(0), Scan(1, TestUsed), [Pfd(FD, 0, false)]);
    Then(s0, Act(CLIENT));
    s := s0.(calls := map[], events := 2);
    assert Step(s0, Act(CLIENT)) == s;
    ReachedIsReachable(s);
  }

  // ----- The poll array -----

  /** Main result: a context with one slot, its timer started, polls two descriptors; the
      poll array, declared with as many entries as there are slots, holds one. */
  lemma PollArrayOverflows() returns (s: State)
    ensures Reached(s) && Reachable(s) && s.pc.Poll? && |s.slots| == 1 && 1 + |s.pfds| == 2
  {
    ScanEnds();
    s := During(ACTIVE_ONLY, 0, Poll, [Pfd(FD, 0, false)]);
    ReachedIsReachable(s);
  }
}
