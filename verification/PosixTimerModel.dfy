// The POSIX timer as a concurrent protocol (timer/posix/timer_posix.c). Clients
// and one worker thread interleave freely; every atomic operation on a slot's
// state word, every lock and unlock, every system call, and every callback's
// entry and exit is one step. A history beside each slot records what the
// properties speak of; no step looks at it except the contract of the API.
module PosixTimerModel {

  import opened Wrappers
  import M = AtomicMask

  // ----- State words -----

  /** A slot's state word, bit by bit. */
  datatype Word = Word(used: bool, zombie: bool, active: bool, sched: bool, alloc: bool)

  const ZERO := Word(false, false, false, false, false)
  const ALLOCATED := ZERO.(alloc := true)

  const USED: M.Bits := {0}
  const ZOMBIE: M.Bits := {1}
  const ACTIVE: M.Bits := {2}
  const SCHED: M.Bits := {3}
  const ALLOC: M.Bits := {4}

  function BitsOf(w: Word): M.Bits {
    (if w.used then USED else {}) + (if w.zombie then ZOMBIE else {}) + (if w.active then ACTIVE else {})
    + (if w.sched then SCHED else {}) + (if w.alloc then ALLOC else {})
  }

  /** The steps below set, clear and test words as the mask operations do. */
  lemma SetsAreMaskSets(w: Word)
    ensures BitsOf(w.(alloc := true)) == BitsOf(w) + ALLOC && BitsOf(w.(used := true)) == BitsOf(w) + USED
    ensures BitsOf(w.(zombie := true)) == BitsOf(w) + ZOMBIE && BitsOf(w.(sched := true)) == BitsOf(w) + SCHED
    ensures BitsOf(w.(active := true)) == BitsOf(w) + ACTIVE
  {
  }

  lemma ClearsAreMaskClears(w: Word)
    ensures BitsOf(w.(active := false, sched := false)) == BitsOf(w) - (ACTIVE + SCHED)
    ensures BitsOf(w.(active := false)) == BitsOf(w) - ACTIVE && BitsOf(w.(sched := false)) == BitsOf(w) - SCHED
  {
  }

  /** In particular the word the worker's compare-and-set meets holds USED besides SCHED. */
  lemma TestsAreMaskTests(w: Word)
    ensures (w.alloc <==> !(BitsOf(w) !! ALLOC)) && (w.sched <==> SCHED <= BitsOf(w))
    ensures w.used && !w.zombie <==> BitsOf(w) * (USED + ZOMBIE) == USED
    ensures w.used ==> !(BitsOf(w) <= SCHED)
  {
    assert 0 in BitsOf(w) <==> w.used;
    assert 1 in BitsOf(w) <==> w.zombie;
    assert 3 in BitsOf(w) <==> w.sched;
    assert 4 in BitsOf(w) <==> w.alloc;
  }

  // ----- Slots, calls and the worker -----

  datatype Actor = Client(id: nat) | Worker

  datatype Holder = Nobody | Alarm | Closer(actor: Actor)

  /** What the client may do with the slot's handle: nothing yet, use it, or
      nothing any more; Closing while its uninstall runs. */
  datatype Handle = Free | Owned | Closing | Retired

  /** What becomes of a start or restart: not yet taken up by the worker (Pending if
      the timer's own callback made it, Loose if not), taken up, found expired with the
      callback to follow; or paid, lost, or of no concern any more. */
  datatype Owed = Nothing | Loose | Pending | Watched | Due

  datatype Slot = Slot(
    word: Word, fd: int, open: bool, hasCb: bool, holder: Holder,
    // history
    handle: Handle, installer: Option<Actor>, closer: Option<Actor>,
    gen: nat, due: Option<nat>, sgen: nat, agen: nat, arms: nat, fires: nat, raced: bool, owed: Owed)

  const BLANK := Slot(ZERO, -1, false, false, Nobody, Free, None, None, 0, None, 0, 0, 0, 0, false, Nothing)

  /** An API call in progress, by its next step. */
  datatype Call =
    | Alloc(i: nat, cb: bool) | Create(i: nat, cb: bool) | InitLock(i: nat) | Publish(i: nat) | Abandon(i: nat)
    | StartTest(i: nat, delay: nat) | RestartClear(i: nat, delay: nat) | RestartSet(i: nat, delay: nat)
    | RestartSched(i: nat) | RestartKick(i: nat)
    | StopClear(i: nat, fin: bool) | StopSet(i: nat, fin: bool) | StopKick(i: nat, fin: bool)
    | CloseLock(i: nat) | CloseUnlock(i: nat) | CloseMark(i: nat)

  predicate Installs(c: Call) {
    c.Create? || c.InitLock? || c.Publish? || c.Abandon?
  }

  /** The call works on a handle its client holds. */
  predicate OnHandle(c: Call) {
    !c.Alloc? && !Installs(c)
  }

  /** The call is an uninstall, or the stop inside one. */
  predicate Closes(c: Call) {
    c.CloseLock? || c.CloseUnlock? || c.CloseMark? || ((c.StopClear? || c.StopSet? || c.StopKick?) && c.fin)
  }

  datatype Pfd = Pfd(fd: int, owner: nat, ready: bool)

  datatype Look = TestUsed | TestZombie | CloseFd | Wipe | TestActive | TrySched | Push | ClearSched

  /** Where the worker is: scanning the slots, polling, or serving descriptors. Locked
      is before the test of ACTIVE that admits a callback, Calling after it, when the
      callback is about to be called whatever becomes of ACTIVE. */
  datatype Pc =
    | Top | Scan(i: nat, look: Look) | Poll | Polled(event: bool)
    | Serve(k: nat) | Lookup(k: nat, j: nat) | Ring(k: nat, i: nat) | Locked(k: nat, i: nat) | Calling(k: nat, i: nat)
    | InCallback(k: nat, i: nat) | Release(k: nat, i: nat) | Clear(k: nat, i: nat) | Exited

  /** `timers` maps each open timer descriptor to its deadline, if armed and not
      yet expired and read; `pfds` is the poll array after its first entry, the
      eventfd, whose counter is `events`. */
  datatype State = State(
    slots: seq<Slot>, timers: map<int, Option<nat>>, now: nat, events: nat, exit: bool,
    calls: map<Actor, Call>, pc: Pc, pfds: seq<Pfd>)

  function Initial(n: nat): State {
    State(seq(n, _ => BLANK), map[], 0, 0, false, map[], Top, [])
  }

  // ----- The kernel -----

  /** A delay in microseconds as a timer setting in nanoseconds: zero would disarm. */
  function ArmNs(delay: nat): (ns: nat)
    ensures ns > 0
  {
    if delay == 0 then 1 else delay * 1000
  }

  predicate Readable(s: State, fd: int) {
    fd in s.timers && s.timers[fd].Some? && s.timers[fd].value <= s.now
  }

  // ----- Steps of API calls -----

  /** The actor is inside the callback of slot `i`: `firing == t` holds for it. */
  predicate Firing(s: State, a: Actor, i: nat) {
    a == Worker && s.pc.InCallback? && s.pc.i == i
  }

  /** Another call is in progress on the slot. */
  ghost predicate Busy(s: State, a: Actor, i: nat) {
    exists b :: b in s.calls && b != a && OnHandle(s.calls[b]) && s.calls[b].i == i
  }

  function SetSlot(s: State, i: nat, t: Slot): State
    requires i < |s.slots|
  {
    s.(slots := s.slots[i := t])
  }

  function Goes(s: State, a: Actor, c: Call): State {
    s.(calls := s.calls[a := c])
  }

  function Returns(s: State, a: Actor): State {
    s.(calls := s.calls - {a})
  }

  /** The contract of the API: a handle is used while owned, or by the timer's own
      callback while its uninstall waits; an uninstall overlaps no other call but
      one from the timer's own callback. */
  ghost predicate MayBegin(s: State, a: Actor, c: Call) {
    && a !in s.calls && (a == Worker ==> s.pc.InCallback?)
    && match c
       case Alloc(i, _) => i == 0
       case StartTest(i, _) => MayUse(s, a, i)
       case RestartClear(i, _) => MayUse(s, a, i)
       case StopClear(i, fin) => MayUse(s, a, i) && !fin
       case CloseLock(i) =>
         i < |s.slots| && s.slots[i].handle == Owned
         && forall b :: b in s.calls && OnHandle(s.calls[b]) && s.calls[b].i == i ==> Firing(s, b, i)
       case _ => false
  }

  ghost predicate MayUse(s: State, a: Actor, i: nat) {
    i < |s.slots| && (s.slots[i].handle == Owned || (s.slots[i].handle == Closing && Firing(s, a, i)))
  }

  ghost function Begun(s: State, a: Actor, c: Call): State
    requires MayBegin(s, a, c)
  {
    if c.Alloc? then Goes(s, a, c)
    else
      var t := s.slots[c.i];
      var t' := t.(raced := t.raced || Busy(s, a, c.i), owed := Nothing);
      Goes(SetSlot(s, c.i, if c.CloseLock? then t'.(handle := Closing, closer := Some(a)) else t'), a, c)
  }

  predicate Disarms(c: Call) {
    c.RestartClear? || c.StopClear?
  }

  /** A call's step is blocked only on the lock of a slot someone else holds. */
  predicate CanStep(s: State, a: Actor) {
    && a in s.calls
    && (match s.calls[a]
        case Alloc(_, _) => true
        case Create(_, _) => false
        case c => c.i < |s.slots|)
    && (s.calls[a].CloseLock? ==> Firing(s, a, s.calls[a].i) || s.slots[s.calls[a].i].holder == Nobody)
  }

  /** The call is to write to the eventfd. */
  predicate Kicks(c: Call) {
    c.RestartKick? || c.StopKick?
  }

  /** A call's step touches one slot at most, and leaves the worker alone. */
  predicate CallKeeps(s: State, s': State, a: Actor, c: Call) {
    && |s'.slots| == |s.slots| && s'.pc == s.pc && s'.pfds == s.pfds && s'.now == s.now
    && (forall j {:trigger s'.slots[j]} :: 0 <= j < |s.slots| && j != c.i ==> s'.slots[j] == s.slots[j])
    && (c.i < |s.slots| && s'.slots[c.i].raced != s.slots[c.i].raced ==> Disarms(c))
    && s'.timers.Keys == s.timers.Keys
    && (forall fd {:trigger s'.timers[fd]} :: fd in s.timers && (c.i >= |s.slots| || fd != s.slots[c.i].fd) ==>
          s'.timers[fd] == s.timers[fd])
    && s'.calls - {a} == s.calls - {a} && (a in s'.calls ==> s'.calls[a].Alloc? || s'.calls[a].i == c.i)
  }

  ghost function CallStep(s: State, a: Actor): (s': State)
    requires CanStep(s, a)
    ensures CallKeeps(s, s', a, s.calls[a])
  {
    var c := s.calls[a];
    if c.Alloc? || Installs(c) then InstallStep(s, a)
    else if Stops(c) then StopStep(s, a)
    else if OnlyClose(c) then CloseStep(s, a)
    else RestartStep(s, a)
  }

  predicate Stops(c: Call) {
    c.StopClear? || c.StopSet? || c.StopKick?
  }

  predicate OnlyClose(c: Call) {
    c.CloseLock? || c.CloseUnlock? || c.CloseMark?
  }

  ghost function InstallStep(s: State, a: Actor): (s': State)
    requires CanStep(s, a) && (s.calls[a].Alloc? || Installs(s.calls[a]))
    ensures CallKeeps(s, s', a, s.calls[a])
  {
    match s.calls[a]
    case Alloc(i, cb) =>
      if i >= |s.slots| then Returns(s, a)
      else
        var t := s.slots[i];
        if t.word.alloc then Goes(s, a, Alloc(i + 1, cb))
        else Goes(SetSlot(s, i, t.(word := t.word.(alloc := true), installer := Some(a))), a, Create(i, cb))
    case InitLock(i) => Goes(SetSlot(s, i, s.slots[i].(holder := Nobody)), a, Publish(i))
    case Publish(i) =>
      var t := s.slots[i];
      Returns(SetSlot(s, i, t.(word := t.word.(used := true), handle := Owned, installer := None)), a)
    case Abandon(i) => Returns(SetSlot(s, i, s.slots[i].(word := ZERO, installer := None)), a)
  }

  ghost function RestartStep(s: State, a: Actor): (s': State)
    requires CanStep(s, a) && OnHandle(s.calls[a]) && !Stops(s.calls[a]) && !OnlyClose(s.calls[a])
    ensures CallKeeps(s, s', a, s.calls[a])
  {
    match s.calls[a]
    case StartTest(i, d) =>
      var w := s.slots[i].word;
      if w.active || w.sched then Returns(s, a) else Goes(s, a, RestartClear(i, d))
    case RestartClear(i, d) => Goes(SetSlot(s, i, Disarmed(s.slots[i], Busy(s, a, i))), a, RestartSet(i, d))
    case RestartSet(i, d) =>
      var t := s.slots[i];
      var at := Some(s.now + ArmNs(d));
      Goes(SetSlot(s, i, t.(due := at)).(timers := SetTime(s.timers, t.fd, at)), a, RestartSched(i))
    case RestartSched(i) =>
      var t := s.slots[i];
      Goes(SetSlot(s, i, t.(word := t.word.(sched := true), sgen := t.gen, arms := t.arms + 1,
                            owed := Owing(s, a, i))), a, RestartKick(i))
    case RestartKick(i) => Returns(s.(events := s.events + 1), a)
  }

  /** The history of setting SCHED: the callback, if there is one, is owed, unless calls
      overlap or the expiration has been read already. */
  ghost function Owing(s: State, a: Actor, i: nat): Owed
    requires i < |s.slots|
  {
    var t := s.slots[i];
    if t.raced then Nothing
    else if Firing(s, a, i) then Pending
    else if t.hasCb && t.fd in s.timers && s.timers[t.fd].Some? then Loose
    else Nothing
  }

  ghost function StopStep(s: State, a: Actor): (s': State)
    requires CanStep(s, a) && Stops(s.calls[a])
    ensures CallKeeps(s, s', a, s.calls[a])
  {
    match s.calls[a]
    case StopClear(i, fin) => Goes(SetSlot(s, i, Disarmed(s.slots[i], Busy(s, a, i))), a, StopSet(i, fin))
    case StopSet(i, fin) => Goes(s.(timers := SetTime(s.timers, s.slots[i].fd, None)), a, StopKick(i, fin))
    case StopKick(i, fin) =>
      var s' := s.(events := s.events + 1);
      if fin then Goes(s', a, CloseUnlock(i)) else Returns(s', a)
  }

  function CloseStep(s: State, a: Actor): (s': State)
    requires CanStep(s, a) && OnlyClose(s.calls[a])
    ensures CallKeeps(s, s', a, s.calls[a])
  {
    match s.calls[a]
    case CloseLock(i) =>
      Goes(if Firing(s, a, i) then s else SetSlot(s, i, s.slots[i].(holder := Closer(a))), a, StopClear(i, true))
    case CloseUnlock(i) =>
      Goes(if Firing(s, a, i) then s else SetSlot(s, i, s.slots[i].(holder := Nobody)), a, CloseMark(i))
    case CloseMark(i) =>
      var t := s.slots[i];
      Returns(SetSlot(s, i, t.(word := t.word.(zombie := true), handle := Retired, closer := None)), a)
  }

  /** Clearing ACTIVE and SCHED starts a new generation; done alone, it settles
      whatever overlapping calls left behind. */
  function Disarmed(t: Slot, busy: bool): Slot {
    t.(word := t.word.(active := false, sched := false), gen := t.gen + 1, due := None, raced := busy)
  }

  /** Setting a timer's time clears any expiration not yet read. */
  function SetTime(timers: map<int, Option<nat>>, fd: int, at: Option<nat>): map<int, Option<nat>> {
    if fd in timers then timers[fd := at] else timers
  }

  /** A created descriptor is one not open. */
  predicate MayMake(s: State, a: Actor, fd: int) {
    a in s.calls && s.calls[a].Create? && s.calls[a].i < |s.slots| && fd >= 0 && fd !in s.timers
  }

  function Made(s: State, a: Actor, fd: int): State
    requires MayMake(s, a, fd)
  {
    var (i, cb) := (s.calls[a].i, s.calls[a].cb);
    var t := s.slots[i];
    var t' := t.(fd := fd, open := true, hasCb := cb, gen := t.gen + 1, due := None, arms := 0, fires := 0,
                 raced := false, owed := Nothing);
    Goes(SetSlot(s, i, t').(timers := s.timers[fd := None]), a, InitLock(i))
  }

  /** Creating the descriptor or the lock fails; a descriptor created is closed. */
  predicate MayFail(s: State, a: Actor) {
    a in s.calls && (s.calls[a].Create? || s.calls[a].InitLock?) && s.calls[a].i < |s.slots|
  }

  function FailedStep(s: State, a: Actor): State
    requires MayFail(s, a)
  {
    var i := s.calls[a].i;
    Goes(if s.calls[a].Create? then s else Closed(s, i), a, Abandon(i))
  }

  function Closed(s: State, i: nat): State
    requires i < |s.slots|
  {
    SetSlot(s, i, s.slots[i].(open := false)).(timers := s.timers - {s.slots[i].fd})
  }

  // ----- Steps of the worker -----

  function Valid(t: Slot): bool {
    t.word.used && !t.word.zombie
  }

  predicate WorkerCanStep(s: State) {
    match s.pc
    case Poll => false
    case InCallback(_, _) => false
    case Exited => false
    case Ring(_, i) => i < |s.slots| && (s.slots[i].hasCb ==> s.slots[i].holder == Nobody)
    case Scan(i, look) => i < |s.slots| || look == TestUsed
    case Serve(k) => true
    case Lookup(k, _) => k < |s.pfds|
    case Locked(_, i) => i < |s.slots|
    case Calling(_, i) => i < |s.slots|
    case Release(_, i) => i < |s.slots|
    case Clear(_, i) => i < |s.slots|
    case _ => true
  }

  function At(s: State, pc: Pc): State {
    s.(pc := pc)
  }

  /** The worker has found ACTIVE set, and its next step calls the callback of slot `i`. */
  predicate Enters(s: State, i: nat) {
    s.pc.Calling? && s.pc.i == i && i < |s.slots|
  }

  /** The worker is about to read the slot's descriptor. */
  predicate Reads(s: State, i: nat) {
    s.pc.Serve? && s.pc.k < |s.pfds| && s.pfds[s.pc.k].ready && s.pfds[s.pc.k].owner == i
  }

  /** No step of the worker touches calls, the clock, or a slot's descriptor number,
      generation or deadline. */
  predicate WorkerKeeps(s: State, s': State) {
    && |s'.slots| == |s.slots| && s'.calls == s.calls && s'.now == s.now
    && forall j {:trigger s'.slots[j]} :: 0 <= j < |s.slots| ==>
         s'.slots[j].raced == s.slots[j].raced && s'.slots[j].gen == s.slots[j].gen && s'.slots[j].due == s.slots[j].due
         && s'.slots[j].fd == s.slots[j].fd && s'.slots[j].arms == s.slots[j].arms
         && (s'.slots[j].owed == s.slots[j].owed
             || (s.slots[j].owed in {Loose, Pending} && s'.slots[j].owed == Watched)
             || (s.slots[j].owed == Watched && s'.slots[j].owed == Due && Reads(s, j))
             || (s.slots[j].owed == Loose && s'.slots[j].owed == Nothing)
             || (s.slots[j].owed == Due && s'.slots[j].owed == Nothing && Enters(s, j)))
         && s'.slots[j].hasCb == s.slots[j].hasCb
         && (s'.slots[j].handle == s.slots[j].handle || s'.slots[j].handle == Free)
  }

  function WorkerStep(s: State): (s': State)
    requires WorkerCanStep(s)
    ensures WorkerKeeps(s, s')
  {
    match s.pc
    case Top => if s.exit then At(s, Exited) else At(s.(pfds := []), Scan(0, TestUsed))
    case Scan(i, look) => if i >= |s.slots| then At(s, Poll) else ScanStep(s, i, look)
    case Polled(event) =>
      if event then At(s.(events := if s.events > 0 then s.events - 1 else 0), Top) else At(s, Serve(0))
    case Serve(k) =>
      if k >= |s.pfds| then At(s, Top)
      else if !s.pfds[k].ready then At(s, Serve(k + 1))
      else ReadStep(s, k)
    case Lookup(k, j) =>
      if j >= |s.slots| then At(s, Serve(k + 1))
      else if Valid(s.slots[j]) && s.slots[j].fd == s.pfds[k].fd then At(s, Ring(k, j))
      else At(s, Lookup(k, j + 1))
    case _ => AlarmStep(s)
  }

  /** The slot is found: its alarm. */
  function AlarmStep(s: State): (s': State)
    requires WorkerCanStep(s)
    ensures WorkerKeeps(s, s')
  {
    match s.pc
    case Ring(k, i) =>
      if !s.slots[i].hasCb then At(s, Clear(k, i))
      else At(SetSlot(s, i, s.slots[i].(holder := Alarm)), Locked(k, i))
    case Locked(k, i) => At(s, if s.slots[i].word.active then Calling(k, i) else Release(k, i))
    case Calling(k, i) =>
      var t := s.slots[i];
      At(SetSlot(s, i, t.(fires := t.fires + 1, owed := if t.owed == Due then Nothing else t.owed)), InCallback(k, i))
    case Release(k, i) => At(SetSlot(s, i, s.slots[i].(holder := Nobody)), Clear(k, i))
    case Clear(k, i) =>
      var t := s.slots[i];
      At(SetSlot(s, i, t.(word := t.word.(active := false))), Serve(k + 1))
    case _ => s
  }

  /** The history of a read: a restart taken up is found expired; one that is not, and
      has expired, is lost. */
  function Found(t: Slot, expired: bool): Slot {
    t.(owed := if t.owed == Watched then Due else if t.owed == Loose && expired then Nothing else t.owed)
  }

  /** Reading consumes the expiration, if there is one to read. */
  function ReadStep(s: State, k: nat): (s': State)
    requires s.pc == Serve(k) && k < |s.pfds| && s.pfds[k].ready
    ensures WorkerKeeps(s, s')
  {
    var p := s.pfds[k];
    var s' := if p.owner < |s.slots| then SetSlot(s, p.owner, Found(s.slots[p.owner], Readable(s, p.fd))) else s;
    At(s'.(timers := if Readable(s, p.fd) then s.timers[p.fd := None] else s.timers), Lookup(k, 0))
  }

  function ScanStep(s: State, i: nat, look: Look): (s': State)
    requires i < |s.slots|
    ensures WorkerKeeps(s, s')
    ensures forall j {:trigger s'.slots[j]} :: 0 <= j < |s.slots| && j != i ==> s'.slots[j] == s.slots[j]
  {
    if look == CloseFd || look == Wipe then CleanupStep(s, i, look)
    else if look == TrySched || look == ClearSched then WatchStep(s, i, look)
    else TestStep(s, i, look)
  }

  function TestStep(s: State, i: nat, look: Look): (s': State)
    requires i < |s.slots| && look != CloseFd && look != Wipe && look != TrySched && look != ClearSched
    ensures s'.slots == s.slots && WorkerKeeps(s, s')
  {
    var t := s.slots[i];
    match look
    case TestUsed => if t.word.used then At(s, Scan(i, TestZombie)) else At(s, Scan(i + 1, TestUsed))
    case TestZombie => At(s, Scan(i, if t.word.zombie then CloseFd else TestActive))
    case TestActive => At(s, Scan(i, if t.word.active then Push else TrySched))
    case Push => At(s.(pfds := s.pfds + [Pfd(t.fd, i, false)]), Scan(i, ClearSched))
  }

  function CleanupStep(s: State, i: nat, look: Look): (s': State)
    requires i < |s.slots| && (look == CloseFd || look == Wipe)
    ensures WorkerKeeps(s, s')
    ensures forall j {:trigger s'.slots[j]} :: 0 <= j < |s.slots| && j != i ==> s'.slots[j] == s.slots[j]
  {
    var t := s.slots[i];
    if look == CloseFd then At(Closed(s, i), Scan(i, Wipe))
    else At(SetSlot(s, i, t.(word := ZERO, holder := Nobody, handle := Free)), Scan(i + 1, TestUsed))
  }

  function WatchStep(s: State, i: nat, look: Look): (s': State)
    requires i < |s.slots| && (look == TrySched || look == ClearSched)
    ensures WorkerKeeps(s, s')
    ensures forall j {:trigger s'.slots[j]} :: 0 <= j < |s.slots| && j != i ==> s'.slots[j] == s.slots[j]
  {
    var t := s.slots[i];
    if look == ClearSched then
      At(SetSlot(s, i, t.(word := t.word.(sched := false), owed := if t.owed == Loose then Nothing else t.owed)),
         Scan(i + 1, TestUsed))
    else if t.word.sched then
      At(SetSlot(s, i, t.(word := t.word.(active := true), agen := t.sgen,
                          owed := if t.owed in {Loose, Pending} then Watched else t.owed)), Scan(i, Push))
    else At(s, Scan(i + 1, TestUsed))
  }

  // ----- All steps -----

  datatype Label =
    | Tick(ns: nat)                              // time passes
    | Begin(a: Actor, call: Call)                // a client calls the API
    | Act(a: Actor)                              // its call takes a step
    | Make(a: Actor, fd: int)                    // the kernel gives it a descriptor
    | Fail(a: Actor)                             // creating a descriptor or a lock fails
    | Work                                       // the worker takes a step
    | Answer(event: bool, ready: seq<bool>)      // poll returns
    | PollFails                                  // poll returns an error
    | Leave                                      // a callback returns
    | Shutdown                                   // deinit asks the worker to exit

  /** Poll reports only descriptors that are readable, and at least one. */
  predicate MayAnswer(s: State, event: bool, ready: seq<bool>) {
    && s.pc.Poll? && |ready| == |s.pfds| && (event ==> s.events > 0) && (event || true in ready)
    && forall k :: 0 <= k < |ready| && ready[k] ==> Readable(s, s.pfds[k].fd)
  }

  ghost predicate Enabled(s: State, l: Label) {
    match l
    case Tick(_) => true
    case Begin(a, c) => MayBegin(s, a, c)
    case Act(a) => CanStep(s, a)
    case Make(a, fd) => MayMake(s, a, fd)
    case Fail(a) => MayFail(s, a)
    case Work => WorkerCanStep(s)
    case Answer(event, ready) => MayAnswer(s, event, ready)
    case PollFails => s.pc.Poll?
    case Leave => s.pc.InCallback? && Worker !in s.calls
    case Shutdown => true
  }

  /** The poll array with what poll reports. */
  function Marked(pfds: seq<Pfd>, ready: seq<bool>): (r: seq<Pfd>)
    requires |ready| == |pfds|
    ensures |r| == |pfds| && forall k {:trigger r[k]} :: 0 <= k < |r| ==> r[k] == pfds[k].(ready := ready[k])
  {
    seq(|pfds|, k requires 0 <= k < |pfds| && |ready| == |pfds| => pfds[k].(ready := ready[k]))
  }

  ghost function Step(s: State, l: Label): (s': State)
    requires Enabled(s, l)
    ensures |s'.slots| == |s.slots|
  {
    match l
    case Tick(ns) => s.(now := s.now + ns)
    case Begin(a, c) => Begun(s, a, c)
    case Act(a) => CallStep(s, a)
    case Make(a, fd) => Made(s, a, fd)
    case Fail(a) => FailedStep(s, a)
    case Work => WorkerStep(s)
    case Answer(event, ready) =>
      At(s.(pfds := Marked(s.pfds, ready)), Polled(event))
    case PollFails => At(s, Top)
    case Leave => At(s, Release(s.pc.k, s.pc.i))
    case Shutdown => s.(exit := true, events := s.events + 1)
  }

  /** `run` is a run from `s`: each label was possible in its turn. */
  ghost predicate IsRun(s: State, run: seq<Label>)
    decreases |run|
  {
    run == [] || (Enabled(s, run[0]) && IsRun(Step(s, run[0]), run[1..]))
  }

  ghost function After(s: State, run: seq<Label>): (s': State)
    requires IsRun(s, run)
    ensures |s'.slots| == |s.slots|
    decreases |run|
  {
    if run == [] then s else After(Step(s, run[0]), run[1..])
  }
}
