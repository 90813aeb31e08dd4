// The manual timer as a function on values (timer/manual/timer_manual.c).
//
// A context is a clock, a start counter and an array of slots. Client code is a
// deterministic program over its own memory: told of an event (one of its
// callbacks is called, or an API call it made returned) it updates its memory
// and either makes another API call or returns from the callback. Callbacks can
// therefore call back into the timer, including firing other timers, and a
// program that never returns is a legal program. `fuel` counts the steps looked
// at; a result of None says that no result was reached within them.
module ManualTimerModel {

  import opened Wrappers

  const EBUSY := 16
  const EINVAL := 22

  datatype Slot = Slot(used: bool, active: bool, expiry: nat, seqno: nat, cb: int, arg: int)

  const BLANK := Slot(false, false, 0, 0, 0, 0)

  datatype Ctx = Ctx(now: nat, nextSeq: nat, timers: seq<Slot>)

  /** The client's memory, opaque to the timer. */
  type Memory = map<int, int>

  datatype Op =
    | Install(cb: int, arg: int)
    | Uninstall(t: nat)
    | Start(t: nat, delay: nat)
    | Restart(t: nat, delay: nat)
    | Stop(t: nat)
    | IsActive(t: nat)
    | Fire(t: nat)
    | Now

  datatype Event = Called(t: nat, cb: int, arg: int) | Returned(result: int)

  datatype Move = Return | Call(op: Op)

  type Code = (Event, Memory) -> (Memory, Move)

  /** What passes between the timer and its client: an event the client is told of, or
      a call it made (noted when it takes effect) with the value returned. */
  datatype Note = Told(ev: Event, clock: nat) | Made(op: Op, result: int, clock: nat)

  /** `notes` is a history of all that; no step looks at it. */
  datatype World = World(ctx: Ctx, mem: Memory, notes: seq<Note>)

  /** One loop iteration of advance: the slot fired, with the key it was chosen
      by, and the clock its callback saw. */
  datatype Fired = Fired(slot: nat, expiry: nat, seqno: nat, clock: nat)

  // ----- Choosing the next timer -----

  predicate Live(c: Ctx, i: nat) {
    i < |c.timers| && c.timers[i].used && c.timers[i].active
  }

  predicate Due(c: Ctx, end: nat, i: nat) {
    Live(c, i) && c.timers[i].expiry <= end
  }

  /** The order in which timers must fire: expiry, then start order. */
  predicate KeyLess(e1: nat, s1: nat, e2: nat, s2: nat) {
    e1 < e2 || (e1 == e2 && s1 < s2)
  }

  predicate SlotBefore(c: Ctx, i: nat, j: nat)
    requires i < |c.timers| && j < |c.timers|
  {
    var (a, b) := (c.timers[i], c.timers[j]);
    KeyLess(a.expiry, a.seqno, b.expiry, b.seqno)
    || (a.expiry == b.expiry && a.seqno == b.seqno && i <= j)
  }

  /** Slot `i` is the one that must fire next: due, and before every other due slot. */
  ghost predicate IsNext(c: Ctx, end: nat, i: nat) {
    && Due(c, end, i)
    && forall j: nat :: Due(c, end, j) ==> SlotBefore(c, i, j)
  }

  function NextDue(c: Ctx, end: nat, n: nat): (r: Option<nat>)
    requires n <= |c.timers|
    ensures r.None? ==> forall j: nat :: j < n ==> !Due(c, end, j)
    ensures r.Some? ==> r.value < n && Due(c, end, r.value)
    ensures r.Some? ==> forall j: nat :: j < n && Due(c, end, j) ==> SlotBefore(c, r.value, j)
  {
    if n == 0 then None
    else
      var best := NextDue(c, end, n - 1);
      if Due(c, end, n - 1) && (best.None? || !SlotBefore(c, best.value, n - 1)) then Some(n - 1)
      else best
  }

  function Next(c: Ctx, end: nat): (r: Option<nat>)
    ensures r.None? <==> forall j: nat :: !Due(c, end, j)
    ensures r.Some? ==> IsNext(c, end, r.value)
  {
    NextDue(c, end, |c.timers|)
  }

  lemma NextIsUnique(c: Ctx, end: nat, i: nat)
    requires IsNext(c, end, i)
    ensures Next(c, end) == Some(i)
  {
    var r := Next(c, end);
    assert r.Some? by { assert Due(c, end, i); }
    assert SlotBefore(c, i, r.value) && SlotBefore(c, r.value, i);
  }

  // ----- The API calls -----

  function FirstFree(timers: seq<Slot>): (r: Option<nat>)
    ensures r.None? ==> forall j | 0 <= j < |timers| :: timers[j].used
    ensures r.Some? ==> r.value < |timers| && !timers[r.value].used
    ensures r.Some? ==> forall j | 0 <= j < r.value :: timers[j].used
  {
    if timers == [] then None
    else if !timers[0].used then Some(0)
    else match FirstFree(timers[1..]) case None => None case Some(i) => Some(i + 1)
  }

  lemma FirstFreeFits(timers: seq<Slot>, i: nat)
    ensures FirstFree(timers) == Some(i) <==>
            i < |timers| && !timers[i].used && forall j | 0 <= j < i :: timers[j].used
  {
    var r := FirstFree(timers);
    if i < |timers| && !timers[i].used && forall j | 0 <= j < i :: timers[j].used {
      assert r.Some?;
      assert r.value <= i && i <= r.value;
    }
  }

  function Installed(c: Ctx, cb: int, arg: int): (Ctx, int) {
    match FirstFree(c.timers)
    case None => (c, -1)
    case Some(i) => (c.(timers := c.timers[i := BLANK.(used := true, cb := cb, arg := arg)]), i as int)
  }

  function Uninstalled(c: Ctx, t: nat): Ctx
    requires t < |c.timers|
  {
    c.(timers := c.timers[t := c.timers[t].(active := false, used := false)])
  }

  function Restarted(c: Ctx, t: nat, delay: nat): Ctx
    requires t < |c.timers|
  {
    c.(nextSeq := c.nextSeq + 1,
    timers := c.timers[t := c.timers[t].(active := true, expiry := c.now + delay, seqno := c.nextSeq)])
  }

  function Stopped(c: Ctx, t: nat): Ctx
    requires t < |c.timers|
  {
    c.(timers := c.timers[t := c.timers[t].(active := false)])
  }

  function Target(op: Op): Option<nat> {
    match op
    case Install(_, _) => None
    case Now => None
    case _ => Some(op.t)
  }

  /** A call through a pointer that is not a timer of the context has no meaning. */
  predicate InRange(c: Ctx, op: Op) {
    Target(op).Some? ==> Target(op).value < |c.timers|
  }

  /** Every call but Fire: the new context and the value returned. */
  function Plain(c: Ctx, op: Op): (Ctx, int)
    requires InRange(c, op) && !op.Fire?
  {
    match op
    case Install(cb, arg) => Installed(c, cb, arg)
    case Uninstall(t) => (Uninstalled(c, t), 0)
    case Start(t, delay) => if c.timers[t].active then (c, -EBUSY) else (Restarted(c, t, delay), 0)
    case Restart(t, delay) => (Restarted(c, t, delay), 0)
    case Stop(t) => (Stopped(c, t), 0)
    case IsActive(t) => (c, if c.timers[t].active then 1 else 0)
    case Now => (c, c.now)
  }

  /** The client has been told of `ev`, and remembers `mem`. */
  function Heard(w: World, ev: Event, mem: Memory): World {
    World(w.ctx, mem, w.notes + [Told(ev, w.ctx.now)])
  }

  /** The client has made a call. */
  function Asked(w: World, op: Op, result: int): World {
    w.(notes := w.notes + [Made(op, result, w.ctx.now)])
  }

  /** Runs client code from the delivery of `ev` until it returns from the callback. */
  function Run(fuel: nat, code: Code, w: World, ev: Event): Option<World>
    decreases fuel, 1
  {
    if fuel == 0 then None
    else
      var (mem, move) := code(ev, w.mem);
      match move
      case Return => Some(Heard(w, ev, mem))
      case Call(op) =>
        match Perform(fuel - 1, code, Heard(w, ev, mem), op)
        case None => None
        case Some((w', result)) => Run(fuel - 1, code, w', Returned(result))
  }

  function Perform(fuel: nat, code: Code, w: World, op: Op): Option<(World, int)>
    decreases fuel, 3
  {
    if !InRange(w.ctx, op) then None
    else if op.Fire? then
      if !w.ctx.timers[op.t].active then Some((Asked(w, op, -EINVAL), -EINVAL))
      else
        match FireSlot(fuel, code, Asked(w, op, 0), op.t)
        case None => None
        case Some(w') => Some((w', 0))
    else
      var (c, result) := Plain(w.ctx, op);
      Some((Asked(w, op, result).(ctx := c), result))
  }

  /** The slot is made inactive first, so the callback can start it again. */
  function FireSlot(fuel: nat, code: Code, w: World, t: nat): Option<World>
    requires t < |w.ctx.timers|
    decreases fuel, 2
  {
    Run(fuel, code, w.(ctx := Stopped(w.ctx, t)), Called(t, w.ctx.timers[t].cb, w.ctx.timers[t].arg))
  }

  function At(w: World, now: nat): World {
    w.(ctx := w.ctx.(now := now))
  }

  /** The record of firing slot `i` in context `c`, at that context's clock. */
  function FiredIn(c: Ctx, i: nat): Fired
    requires i < |c.timers|
  {
    Fired(i, c.timers[i].expiry, c.timers[i].seqno, c.now)
  }

  /** The record an on-time firing of slot `i` leaves. */
  function FiredAt(c: Ctx, i: nat): Fired
    requires i < |c.timers|
  {
    FiredIn(c, i).(clock := c.timers[i].expiry)
  }

  /** The loop of advance, up to clock value `end`. */
  function AdvanceTo(fuel: nat, code: Code, w: World, end: nat): Option<(World, seq<Fired>)>
    decreases fuel
  {
    if fuel == 0 then None
    else
      match Next(w.ctx, end)
      case None => Some((At(w, end), []))
      case Some(i) =>
        match FireSlot(fuel - 1, code, At(w, w.ctx.timers[i].expiry), i)
        case None => None
        case Some(w') =>
          match AdvanceTo(fuel - 1, code, w', end)
          case None => None
          case Some((w'', log)) => Some((w'', [FiredIn(At(w, w.ctx.timers[i].expiry).ctx, i)] + log))
  }

  predicate Reaches(fuel: nat, code: Code, w: World, us: nat, w': World, log: seq<Fired>) {
    AdvanceTo(fuel, code, w, w.ctx.now + us) == Some((w', log))
  }

  /** Advancing `w` by `us` ends, in `w'`, having fired `log`. */
  ghost predicate Advances(code: Code, w: World, us: nat, w': World, log: seq<Fired>) {
    exists fuel: nat :: Reaches(fuel, code, w, us, w', log)
  }

  // ----- What every context keeps -----

  /** A waiting timer is never in the past, and start order is total. */
  ghost predicate Ok(c: Ctx) {
    && (forall i: nat :: Live(c, i) ==> c.now <= c.timers[i].expiry && c.timers[i].seqno < c.nextSeq)
    && (forall i: nat, j: nat :: Live(c, i) && Live(c, j) && i != j ==> c.timers[i].seqno != c.timers[j].seqno)
  }

  ghost predicate SameKey(c: Ctx, c': Ctx, i: nat) {
    && Live(c, i) && Live(c', i)
    && c'.timers[i].expiry == c.timers[i].expiry && c'.timers[i].seqno == c.timers[i].seqno
  }

  ghost predicate NewKey(c: Ctx, c': Ctx, d: nat, i: nat) {
    && Live(c', i)
    && c.now + d <= c'.timers[i].expiry && c.nextSeq <= c'.timers[i].seqno < c'.nextSeq
  }

  /** What client code can do to a context without moving the clock: a waiting
      timer afterwards either waited before under the same key, or was armed
      since, at least `d` ahead of the clock. */
  ghost predicate Later(c: Ctx, c': Ctx, d: nat) {
    && c'.now == c.now && |c'.timers| == |c.timers| && c.nextSeq <= c'.nextSeq
    && forall i: nat :: Live(c', i) ==> SameKey(c, c', i) || NewKey(c, c', d, i)
  }

  lemma LaterTransitive(a: Ctx, b: Ctx, c: Ctx, d: nat)
    requires Later(a, b, d) && Later(b, c, d)
    ensures Later(a, c, d)
  {
    forall i: nat | Live(c, i) ensures SameKey(a, c, i) || NewKey(a, c, d, i) {
      assert SameKey(b, c, i) || NewKey(b, c, d, i);
    }
  }

  /** The code never arms a timer with a delay below `d` (no demand when d == 0). */
  ghost predicate MinDelay(code: Code, d: nat) {
    forall ev: Event, mem: Memory ::
      match code(ev, mem).1
      case Call(Start(_, delay)) => d <= delay
      case Call(Restart(_, delay)) => d <= delay
      case _ => true
  }

  ghost predicate OpMin(op: Op, d: nat) {
    (op.Start? || op.Restart?) ==> d <= op.delay
  }

  lemma PlainLater(c: Ctx, op: Op, d: nat)
    requires InRange(c, op) && !op.Fire? && OpMin(op, d)
    ensures Later(c, Plain(c, op).0, d)
    ensures Ok(c) ==> Ok(Plain(c, op).0)
  {
  }

  lemma StoppedLater(c: Ctx, t: nat, d: nat)
    requires t < |c.timers|
    ensures Later(c, Stopped(c, t), d)
    ensures Ok(c) ==> Ok(Stopped(c, t))
  {
  }

  /** Whatever a callback does, however deep its calls nest, stays within Later
      and keeps the context's invariant. */
  lemma {:induction false} RunLater(fuel: nat, code: Code, w: World, ev: Event, d: nat)
    requires MinDelay(code, d)
    requires Run(fuel, code, w, ev).Some?
    ensures Later(w.ctx, Run(fuel, code, w, ev).value.ctx, d)
    ensures Ok(w.ctx) ==> Ok(Run(fuel, code, w, ev).value.ctx)
    decreases fuel, 1
  {
    var (mem, move) := code(ev, w.mem);
    if move.Call? {
      assert OpMin(move.op, d);
      var w0 := Heard(w, ev, mem);
      var (w', result) := Perform(fuel - 1, code, w0, move.op).value;
      PerformLater(fuel - 1, code, w0, move.op, d);
      RunLater(fuel - 1, code, w', Returned(result), d);
      LaterTransitive(w.ctx, w'.ctx, Run(fuel, code, w, ev).value.ctx, d);
    }
  }

  lemma {:induction false} PerformLater(fuel: nat, code: Code, w: World, op: Op, d: nat)
    requires MinDelay(code, d) && OpMin(op, d)
    requires Perform(fuel, code, w, op).Some?
    ensures Later(w.ctx, Perform(fuel, code, w, op).value.0.ctx, d)
    ensures Ok(w.ctx) ==> Ok(Perform(fuel, code, w, op).value.0.ctx)
    decreases fuel, 3
  {
    if op.Fire? {
      if w.ctx.timers[op.t].active {
        FireLater(fuel, code, Asked(w, op, 0), op.t, d);
      }
    } else {
      PlainLater(w.ctx, op, d);
    }
  }

  lemma {:induction false} FireLater(fuel: nat, code: Code, w: World, t: nat, d: nat)
    requires MinDelay(code, d)
    requires t < |w.ctx.timers| && FireSlot(fuel, code, w, t).Some?
    ensures Later(Stopped(w.ctx, t), FireSlot(fuel, code, w, t).value.ctx, d)
    ensures Later(w.ctx, FireSlot(fuel, code, w, t).value.ctx, d)
    ensures Ok(w.ctx) ==> Ok(FireSlot(fuel, code, w, t).value.ctx)
    decreases fuel, 2
  {
    var w0 := w.(ctx := Stopped(w.ctx, t));
    StoppedLater(w.ctx, t, d);
    RunLater(fuel, code, w0, Called(t, w.ctx.timers[t].cb, w.ctx.timers[t].arg), d);
    LaterTransitive(w.ctx, w0.ctx, FireSlot(fuel, code, w, t).value.ctx, d);
  }

  // ----- More fuel never changes a result -----

  lemma {:induction false} RunMono(f: nat, g: nat, code: Code, w: World, ev: Event)
    requires f <= g && Run(f, code, w, ev).Some?
    ensures Run(g, code, w, ev) == Run(f, code, w, ev)
    decreases f, 1
  {
    var (mem, move) := code(ev, w.mem);
    if move.Call? {
      var w0 := Heard(w, ev, mem);
      PerformMono(f - 1, g - 1, code, w0, move.op);
      var (w', result) := Perform(f - 1, code, w0, move.op).value;
      RunMono(f - 1, g - 1, code, w', Returned(result));
    }
  }

  lemma {:induction false} PerformMono(f: nat, g: nat, code: Code, w: World, op: Op)
    requires f <= g && Perform(f, code, w, op).Some?
    ensures Perform(g, code, w, op) == Perform(f, code, w, op)
    decreases f, 3
  {
    if op.Fire? && w.ctx.timers[op.t].active {
      RunMono(f, g, code, Asked(w, op, 0).(ctx := Stopped(w.ctx, op.t)),
              Called(op.t, w.ctx.timers[op.t].cb, w.ctx.timers[op.t].arg));
    }
  }

  lemma FireMono(f: nat, g: nat, code: Code, w: World, t: nat)
    requires t < |w.ctx.timers|
    requires f <= g && FireSlot(f, code, w, t).Some?
    ensures FireSlot(g, code, w, t) == FireSlot(f, code, w, t)
  {
    RunMono(f, g, code, w.(ctx := Stopped(w.ctx, t)),
            Called(t, w.ctx.timers[t].cb, w.ctx.timers[t].arg));
  }

  lemma {:induction false} AdvanceMono(f: nat, g: nat, code: Code, w: World, end: nat)
    requires f <= g && AdvanceTo(f, code, w, end).Some?
    ensures AdvanceTo(g, code, w, end) == AdvanceTo(f, code, w, end)
    decreases f
  {
    match Next(w.ctx, end)
    case None =>
    case Some(i) =>
      var w0 := At(w, w.ctx.timers[i].expiry);
      FireMono(f - 1, g - 1, code, w0, i);
      AdvanceMono(f - 1, g - 1, code, FireSlot(f - 1, code, w0, i).value, end);
  }
}
