// The manual timer told by its history alone. What each call must return, which
// callback must be called, with what and when, follow from the calls the client has
// made and been told of, without looking at a context; every session obeys that.
module ManualTimerHistory {

  import opened Wrappers
  import opened ManualTimerModel
  import opened ManualTimerTheorems

  // ----- What the history says of a slot -----

  /** Whose callback the slot has, whether it is installed, and when it expires. */
  datatype Account = Account(cb: int, arg: int, used: bool, expires: Option<nat>)

  /** What one more note changes: an installation gives the slot its callback and
      argument, a restart sets its expiry to the clock then plus that call's delay, and
      a callback called is paid. */
  function AccountAfter(was: Account, note: Note, t: nat): Account {
    match note
    case Made(Install(cb, arg), result, _) => if result == t then Account(cb, arg, true, None) else was
    case Made(Uninstall(s), _, _) => if s == t then was.(used := false, expires := None) else was
    case Made(Start(s, delay), result, clock) =>
      if s == t && result == 0 then was.(expires := Some(clock + delay)) else was
    case Made(Restart(s, delay), _, clock) => if s == t then was.(expires := Some(clock + delay)) else was
    case Made(Stop(s), _, _) => if s == t then was.(expires := None) else was
    case Told(Called(s, _, _), _) => if s == t then was.(expires := None) else was
    case _ => was
  }

  function AccountOf(notes: seq<Note>, t: nat): Account {
    if notes == [] then Account(0, 0, false, None)
    else AccountAfter(AccountOf(notes[..|notes| - 1], t), notes[|notes| - 1], t)
  }

  lemma AccountStep(notes: seq<Note>, note: Note, t: nat)
    ensures AccountOf(notes + [note], t) == AccountAfter(AccountOf(notes, t), note, t)
  {
    assert (notes + [note])[..|notes|] == notes;
  }

  /** The last note is a call that fires slot `t`, now. */
  predicate ByFire(before: seq<Note>, t: nat, clock: nat) {
    before != [] && before[|before| - 1] == Made(Op.Fire(t), 0, clock)
  }

  /** A call returns what the history before it says, in a context of `n` slots. */
  ghost predicate RightResult(n: nat, before: seq<Note>, op: Op, result: int, clock: nat) {
    match op
    case Install(_, _) =>
      if forall t: nat {:trigger AccountOf(before, t)} :: t < n ==> AccountOf(before, t).used then result == -1
      else
        && 0 <= result < n && !AccountOf(before, result).used
        && forall t: nat {:trigger AccountOf(before, t)} :: t < result ==> AccountOf(before, t).used
    case Start(t, _) => result == if AccountOf(before, t).expires.Some? then -EBUSY else 0
    case IsActive(t) => result == if AccountOf(before, t).expires.Some? then 1 else 0
    case Fire(t) => result == if AccountOf(before, t).expires.Some? then 0 else -EINVAL
    case Now => result == clock
    case _ => result == 0
  }

  /** The client is told what the call it just made returned; a call that fired a timer
      returns after that timer's callback, whose last note the client was told. */
  predicate RightReturn(before: seq<Note>, result: int) {
    before != [] && match before[|before| - 1] case Made(_, r, _) => r == result case Told(_, _) => result == 0
  }

  /** The callback called is the slot's own, with its own argument, and the slot is armed;
      unless a call fires it, the slot is installed and expires at this very time. */
  predicate RightCall(n: nat, before: seq<Note>, t: nat, cb: int, arg: int, clock: nat) {
    var a := AccountOf(before, t);
    t < n && cb == a.cb && arg == a.arg && a.expires.Some?
    && (ByFire(before, t, clock) || (a.used && a.expires == Some(clock)))
  }

  ghost predicate RightNote(n: nat, before: seq<Note>, note: Note) {
    match note
    case Made(op, result, clock) => RightResult(n, before, op, result, clock)
    case Told(Returned(result), _) => RightReturn(before, result)
    case Told(Called(t, cb, arg), clock) => RightCall(n, before, t, cb, arg, clock)
  }

  /** The context is what the history says. */
  predicate Agrees(w: World, t: nat)
    requires t < |w.ctx.timers|
  {
    var s := w.ctx.timers[t];
    AccountOf(w.notes, t) == Account(s.cb, s.arg, s.used, if s.active then Some(s.expiry) else None)
  }

  /** Everything in the history is right, and the context is what it says. */
  ghost predicate Obeys(w: World) {
    && (forall t: nat {:trigger Agrees(w, t)} :: t < |w.ctx.timers| ==> Agrees(w, t))
    && (forall k {:trigger w.notes[k]} :: 0 <= k < |w.notes| ==>
          RightNote(|w.ctx.timers|, w.notes[..k], w.notes[k]))
  }

  // ----- One note more -----

  lemma NoteObeys(w: World, w': World, note: Note)
    requires Obeys(w) && w'.notes == w.notes + [note] && |w'.ctx.timers| == |w.ctx.timers|
    requires RightNote(|w.ctx.timers|, w.notes, note)
    requires forall t: nat {:trigger Agrees(w', t)} :: t < |w.ctx.timers| ==>
               var s := w'.ctx.timers[t];
               AccountAfter(AccountOf(w.notes, t), note, t)
               == Account(s.cb, s.arg, s.used, if s.active then Some(s.expiry) else None)
    ensures Obeys(w')
  {
    forall t: nat | t < |w'.ctx.timers| ensures Agrees(w', t) {
      AccountStep(w.notes, note, t);
    }
    forall k | 0 <= k < |w'.notes| ensures RightNote(|w'.ctx.timers|, w'.notes[..k], w'.notes[k]) {
      if k < |w.notes| {
        assert w'.notes[..k] == w.notes[..k] && w'.notes[k] == w.notes[k];
      } else {
        assert w'.notes[..k] == w.notes;
      }
    }
  }

  lemma InstallObeys(w: World, cb: int, arg: int)
    requires Obeys(w)
    ensures var (c, result) := Installed(w.ctx, cb, arg);
            Obeys(Asked(w, Op.Install(cb, arg), result).(ctx := c))
  {
    var (c, result) := Installed(w.ctx, cb, arg);
    var w' := Asked(w, Op.Install(cb, arg), result).(ctx := c);
    forall t: nat | t < |w.ctx.timers| ensures AccountOf(w.notes, t).used == w.ctx.timers[t].used {
      assert Agrees(w, t);
    }
    forall t: nat | t < |w.ctx.timers|
      ensures var s := w'.ctx.timers[t];
              AccountAfter(AccountOf(w.notes, t), Made(Op.Install(cb, arg), result, w.ctx.now), t)
              == Account(s.cb, s.arg, s.used, if s.active then Some(s.expiry) else None)
    {
      assert Agrees(w, t);
    }
    NoteObeys(w, w', Made(Op.Install(cb, arg), result, w.ctx.now));
  }

  lemma PlainObeys(w: World, op: Op)
    requires Obeys(w) && InRange(w.ctx, op) && !op.Fire? && !op.Install?
    ensures Obeys(Asked(w, op, Plain(w.ctx, op).1).(ctx := Plain(w.ctx, op).0))
  {
    var (c, result) := Plain(w.ctx, op);
    var w' := Asked(w, op, result).(ctx := c);
    assert Target(op).Some? ==> Agrees(w, Target(op).value);
    forall t: nat | t < |w.ctx.timers|
      ensures var s := w'.ctx.timers[t];
              AccountAfter(AccountOf(w.notes, t), Made(op, result, w.ctx.now), t)
              == Account(s.cb, s.arg, s.used, if s.active then Some(s.expiry) else None)
    {
      assert Agrees(w, t);
    }
    NoteObeys(w, w', Made(op, result, w.ctx.now));
  }

  lemma FireAskedObeys(w: World, t: nat)
    requires Obeys(w) && t < |w.ctx.timers|
    ensures Obeys(Asked(w, Op.Fire(t), if w.ctx.timers[t].active then 0 else -EINVAL))
  {
    var result := if w.ctx.timers[t].active then 0 else -EINVAL;
    assert Agrees(w, t);
    forall s: nat | s < |w.ctx.timers|
      ensures AccountAfter(AccountOf(w.notes, s), Made(Op.Fire(t), result, w.ctx.now), s) == AccountOf(w.notes, s)
      ensures Agrees(w, s)
    {}
    NoteObeys(w, Asked(w, Op.Fire(t), result), Made(Op.Fire(t), result, w.ctx.now));
  }

  /** The slot's callback is called on request, or as it expires. */
  predicate Expiring(w: World, t: nat) {
    && t < |w.ctx.timers| && w.ctx.timers[t].active
    && (ByFire(w.notes, t, w.ctx.now) || (w.ctx.timers[t].used && w.ctx.timers[t].expiry == w.ctx.now))
  }

  lemma CallObeys(w: World, t: nat, mem: Memory)
    requires Obeys(w) && Expiring(w, t)
    ensures Obeys(Heard(w.(ctx := Stopped(w.ctx, t)), Called(t, w.ctx.timers[t].cb, w.ctx.timers[t].arg), mem))
  {
    var ev := Called(t, w.ctx.timers[t].cb, w.ctx.timers[t].arg);
    var w' := Heard(w.(ctx := Stopped(w.ctx, t)), ev, mem);
    assert Agrees(w, t);
    forall s: nat | s < |w.ctx.timers|
      ensures var x := w'.ctx.timers[s];
              AccountAfter(AccountOf(w.notes, s), Told(ev, w.ctx.now), s)
              == Account(x.cb, x.arg, x.used, if x.active then Some(x.expiry) else None)
    {
      assert Agrees(w, s);
    }
    NoteObeys(w, w', Told(ev, w.ctx.now));
  }

  lemma ReturnObeys(w: World, result: int, mem: Memory)
    requires Obeys(w) && RightReturn(w.notes, result)
    ensures Obeys(Heard(w, Returned(result), mem))
  {
    forall s: nat | s < |w.ctx.timers|
      ensures AccountAfter(AccountOf(w.notes, s), Told(Returned(result), w.ctx.now), s) == AccountOf(w.notes, s)
      ensures Agrees(w, s)
    {}
    NoteObeys(w, Heard(w, Returned(result), mem), Told(Returned(result), w.ctx.now));
  }

  lemma MemoryIsFree(w: World, ev: Event, mem: Memory, mem': Memory)
    requires Obeys(Heard(w, ev, mem))
    ensures Obeys(Heard(w, ev, mem'))
  {
    var (a, b) := (Heard(w, ev, mem), Heard(w, ev, mem'));
    forall t: nat | t < |b.ctx.timers| ensures Agrees(b, t) {
      assert Agrees(a, t);
    }
  }

  // ----- Whole callbacks, advances and sessions -----

  lemma {:induction false} RunObeys(fuel: nat, code: Code, w: World, ev: Event)
    requires Run(fuel, code, w, ev).Some? && Obeys(Heard(w, ev, w.mem))
    ensures Obeys(Run(fuel, code, w, ev).value)
    ensures RightReturn(Run(fuel, code, w, ev).value.notes, 0)
    decreases fuel, 1
  {
    var (mem, move) := code(ev, w.mem);
    MemoryIsFree(w, ev, w.mem, mem);
    if move.Call? {
      var w0 := Heard(w, ev, mem);
      var (w', result) := Perform(fuel - 1, code, w0, move.op).value;
      PerformObeys(fuel - 1, code, w0, move.op);
      ReturnObeys(w', result, w'.mem);
      RunObeys(fuel - 1, code, w', Returned(result));
    }
  }

  lemma {:induction false} PerformObeys(fuel: nat, code: Code, w: World, op: Op)
    requires Perform(fuel, code, w, op).Some? && Obeys(w)
    ensures Obeys(Perform(fuel, code, w, op).value.0)
    ensures RightReturn(Perform(fuel, code, w, op).value.0.notes, Perform(fuel, code, w, op).value.1)
    decreases fuel, 3
  {
    match op
    case Install(cb, arg) => InstallObeys(w, cb, arg);
    case Fire(t) =>
      FireAskedObeys(w, t);
      if w.ctx.timers[t].active {
        FireObeys(fuel, code, Asked(w, op, 0), t);
      }
    case _ => PlainObeys(w, op);
  }

  lemma {:induction false} FireObeys(fuel: nat, code: Code, w: World, t: nat)
    requires Obeys(w) && Expiring(w, t) && FireSlot(fuel, code, w, t).Some?
    ensures Obeys(FireSlot(fuel, code, w, t).value) && RightReturn(FireSlot(fuel, code, w, t).value.notes, 0)
    decreases fuel, 2
  {
    CallObeys(w, t, w.mem);
    RunObeys(fuel, code, w.(ctx := Stopped(w.ctx, t)), Called(t, w.ctx.timers[t].cb, w.ctx.timers[t].arg));
  }

  lemma ClockIsFree(w: World, now: nat)
    requires Obeys(w)
    ensures Obeys(At(w, now))
  {
    forall t: nat | t < |w.ctx.timers| ensures Agrees(At(w, now), t) {
      assert Agrees(w, t);
    }
  }

  lemma {:induction false} AdvanceObeys(f: nat, code: Code, w: World, end: nat)
    requires AdvanceTo(f, code, w, end).Some? && Obeys(w)
    ensures Obeys(AdvanceTo(f, code, w, end).value.0)
    decreases f
  {
    match Next(w.ctx, end)
    case None => ClockIsFree(w, end);
    case Some(i) =>
      var w0 := At(w, w.ctx.timers[i].expiry);
      ClockIsFree(w, w.ctx.timers[i].expiry);
      FireObeys(f - 1, code, w0, i);
      AdvanceObeys(f - 1, code, FireSlot(f - 1, code, w0, i).value, end);
  }

  lemma FreshObeys(n: nat, mem: Memory)
    ensures Obeys(Fresh(n, mem))
  {
    forall t: nat | t < n ensures Agrees(Fresh(n, mem), t) {
      assert Initial(n).timers[t] == BLANK;
    }
  }

  lemma ActionObeys(fuel: nat, code: Code, w: World, action: Action)
    requires Obeys(w) && Acted(fuel, code, w, action).Some?
    ensures Obeys(Acted(fuel, code, w, action).value)
  {
    match action
    case Api(op) => PerformObeys(fuel, code, w, op);
    case Advance(us) => AdvanceObeys(fuel, code, w, w.ctx.now + us);
  }

  /** Main result: every session obeys its history. Whatever calls a client makes, from
      outside and from callbacks nested to any depth, every value returned is the right
      one, every callback called is the one last installed in its slot, with its
      argument, and the one time a timer is called without being fired by hand is the
      clock of its last arming plus that call's delay. */
  lemma {:induction false} EverySessionObeys(fuel: nat, code: Code, n: nat, mem: Memory, actions: seq<Action>)
    requires Session(fuel, code, Fresh(n, mem), actions).Some?
    ensures Obeys(Session(fuel, code, Fresh(n, mem), actions).value)
    decreases |actions|
  {
    FreshObeys(n, mem);
    if actions != [] {
      var before := actions[..|actions| - 1];
      EverySessionObeys(fuel, code, n, mem, before);
      ActionObeys(fuel, code, Session(fuel, code, Fresh(n, mem), before).value, actions[|actions| - 1]);
    }
  }

  /** A call is noted with the value it returns, at the clock it is made; from outside
      callbacks nothing else is, unless it fires a timer. */
  lemma CallsAreNoted(fuel: nat, code: Code, w: World, op: Op)
    requires Perform(fuel, code, w, op).Some? && (op.Fire? ==> Perform(fuel, code, w, op).value.1 != 0)
    ensures var (w', result) := Perform(fuel, code, w, op).value;
            w'.notes == w.notes + [Made(op, result, w.ctx.now)]
  {
  }

  // ----- The log of an advance and the callbacks called -----

  /** From note `from` on, every callback called is fired by a call. */
  predicate OnlyFires(notes: seq<Note>, from: nat) {
    forall p {:trigger notes[p]} :: from <= p < |notes| && IsCall(notes[p]) ==>
      ByFire(notes[..p], notes[p].ev.t, notes[p].clock)
  }

  predicate IsCall(note: Note) {
    note.Told? && note.ev.Called?
  }

  lemma OnlyFiresOn(a: seq<Note>, b: seq<Note>, from: nat)
    requires OnlyFires(a, from) && a <= b && OnlyFires(b, |a|)
    ensures OnlyFires(b, from)
  {
    forall p | from <= p < |b| && IsCall(b[p]) ensures ByFire(b[..p], b[p].ev.t, b[p].clock) {
      if p < |a| {
        assert a[p] == b[p] && a[..p] == b[..p];
      }
    }
  }

  /** The history does not end in the middle of a call. */
  predicate Settled(notes: seq<Note>) {
    notes != [] ==> var last := notes[|notes| - 1]; !(last.Made? && last.op.Fire? && last.result == 0)
  }

  lemma {:induction false} RunTells(fuel: nat, code: Code, w: World, ev: Event)
    requires Run(fuel, code, w, ev).Some?
    ensures var notes := Run(fuel, code, w, ev).value.notes;
            w.notes + [Told(ev, w.ctx.now)] <= notes && OnlyFires(notes, |w.notes| + 1) && Settled(notes)
    decreases fuel, 1
  {
    var (mem, move) := code(ev, w.mem);
    if move.Call? {
      var w0 := Heard(w, ev, mem);
      var (w', result) := Perform(fuel - 1, code, w0, move.op).value;
      var (notes, told) := (Run(fuel, code, w, ev).value.notes, w'.notes + [Told(Returned(result), w'.ctx.now)]);
      PerformTells(fuel - 1, code, w0, move.op);
      RunTells(fuel - 1, code, w', Returned(result));
      OnlyFiresOn(w'.notes, told, |w.notes| + 1);
      OnlyFiresOn(told, notes, |w.notes| + 1);
    }
  }

  lemma {:induction false} PerformTells(fuel: nat, code: Code, w: World, op: Op)
    requires Perform(fuel, code, w, op).Some?
    ensures var notes := Perform(fuel, code, w, op).value.0.notes;
            w.notes <= notes && OnlyFires(notes, |w.notes|) && Settled(notes)
    decreases fuel, 3
  {
    if op.Fire? && w.ctx.timers[op.t].active {
      var w0 := Asked(w, op, 0);
      var notes := FireSlot(fuel, code, w0, op.t).value.notes;
      FireTells(fuel, code, w0, op.t);
      assert notes[|w0.notes|] == Told(Called(op.t, w.ctx.timers[op.t].cb, w.ctx.timers[op.t].arg), w.ctx.now);
      assert notes[..|w0.notes|] == w0.notes && notes[|w.notes|] == Made(op, 0, w.ctx.now);
    }
  }

  lemma {:induction false} FireTells(fuel: nat, code: Code, w: World, t: nat)
    requires t < |w.ctx.timers| && FireSlot(fuel, code, w, t).Some?
    ensures var notes := FireSlot(fuel, code, w, t).value.notes;
            w.notes + [Told(Called(t, w.ctx.timers[t].cb, w.ctx.timers[t].arg), w.ctx.now)] <= notes
            && OnlyFires(notes, |w.notes| + 1) && Settled(notes)
    decreases fuel, 2
  {
    RunTells(fuel, code, w.(ctx := Stopped(w.ctx, t)), Called(t, w.ctx.timers[t].cb, w.ctx.timers[t].arg));
  }

  /** Note `p` is the call entry `e` of a log records. */
  predicate Records(notes: seq<Note>, p: nat, e: Fired) {
    p < |notes| && IsCall(notes[p]) && notes[p].ev.t == e.slot && notes[p].clock == e.clock
  }

  /** The entries of `log` record, in order, the notes `at`: all the callbacks called
      from note `from` on that no call fires. */
  predicate Accounts(notes: seq<Note>, from: nat, log: seq<Fired>, at: seq<nat>) {
    && |at| == |log|
    && (forall k {:trigger at[k]} :: 0 <= k < |at| ==> from <= at[k] && Records(notes, at[k], log[k]))
    && (forall k, l {:trigger at[k], at[l]} :: 0 <= k < l < |at| ==> at[k] < at[l])
    && (forall p {:trigger notes[p]} :: from <= p < |notes| && IsCall(notes[p]) ==>
          (p in at <==> !ByFire(notes[..p], notes[p].ev.t, notes[p].clock)))
  }

  lemma {:induction false} AdvanceTells(f: nat, code: Code, w: World, end: nat) returns (at: seq<nat>)
    requires AdvanceTo(f, code, w, end).Some? && Settled(w.notes)
    ensures var (w', log) := AdvanceTo(f, code, w, end).value;
            w.notes <= w'.notes && Settled(w'.notes) && Accounts(w'.notes, |w.notes|, log, at)
    decreases f
  {
    match Next(w.ctx, end)
    case None => at := [];
    case Some(i) =>
      var w0 := At(w, w.ctx.timers[i].expiry);
      var w1 := FireSlot(f - 1, code, w0, i).value;
      FireTells(f - 1, code, w0, i);
      var rest := AdvanceTells(f - 1, code, w1, end);
      at := [|w.notes|] + rest;
      var (w', log) := AdvanceTo(f - 1, code, w1, end).value;
      AccountsMore(w.notes, w1.notes, w'.notes, FiredIn(w0.ctx, i), log, rest);
  }

  /** One firing, then the rest of the advance. */
  lemma AccountsMore(a: seq<Note>, b: seq<Note>, c: seq<Note>, e: Fired, log: seq<Fired>, at: seq<nat>)
    requires Settled(a) && a <= b <= c && Records(b, |a|, e) && OnlyFires(b, |a| + 1) && Accounts(c, |b|, log, at)
    ensures Accounts(c, |a|, [e] + log, [|a|] + at)
  {
    var (log', at') := ([e] + log, [|a|] + at);
    forall p | |a| <= p < |c| && IsCall(c[p])
      ensures p in at' <==> !ByFire(c[..p], c[p].ev.t, c[p].clock)
    {
      if p < |b| {
        assert b[p] == c[p] && b[..p] == c[..p];
        assert p in at' <==> p == |a|;
        assert c[..|a|] == a;
      } else {
        assert p in at' <==> p in at;
      }
    }
    forall k | 0 <= k < |at'| ensures |a| <= at'[k] && Records(c, at'[k], log'[k]) {
      assert b[|a|] == c[|a|];
      assert k > 0 ==> at'[k] == at[k - 1] && log'[k] == log[k - 1];
    }
    forall k, l | 0 <= k < l < |at'| ensures at'[k] < at'[l] {
      assert at'[l] == at[l - 1] && (k > 0 ==> at'[k] == at[k - 1]);
    }
  }

  /** Main result: the log of an advance is what the client was told. Each entry has
      exactly one callback called, and each callback called that no call fires has its
      entry; it is the callback last installed in that slot, with its argument, called
      at the clock of the slot's last arming plus that call's delay. */
  lemma LogIsTold(code: Code, w: World, us: nat, w': World, log: seq<Fired>) returns (at: seq<nat>)
    requires Obeys(w) && Settled(w.notes) && Advances(code, w, us, w', log)
    ensures w.notes <= w'.notes && Settled(w'.notes) && Accounts(w'.notes, |w.notes|, log, at)
    ensures forall k {:trigger at[k]} :: 0 <= k < |at| ==>
              var (a, ev) := (AccountOf(w'.notes[..at[k]], log[k].slot), w'.notes[at[k]].ev);
              ev == Called(log[k].slot, a.cb, a.arg) && a.used && a.expires == Some(log[k].clock)
  {
    var f: nat :| Reaches(f, code, w, us, w', log);
    AdvanceObeys(f, code, w, w.ctx.now + us);
    at := AdvanceTells(f, code, w, w.ctx.now + us);
    forall k | 0 <= k < |at|
      ensures var (a, ev) := (AccountOf(w'.notes[..at[k]], log[k].slot), w'.notes[at[k]].ev);
              ev == Called(log[k].slot, a.cb, a.arg) && a.used && a.expires == Some(log[k].clock)
    {
      assert Records(w'.notes, at[k], log[k]) && at[k] in at;
      assert RightNote(|w'.ctx.timers|, w'.notes[..at[k]], w'.notes[at[k]]);
    }
  }

  lemma ActionSettles(fuel: nat, code: Code, w: World, action: Action)
    requires Settled(w.notes) && Acted(fuel, code, w, action).Some?
    ensures Settled(Acted(fuel, code, w, action).value.notes)
  {
    match action
    case Api(op) => PerformTells(fuel, code, w, op);
    case Advance(us) => var at := AdvanceTells(fuel, code, w, w.ctx.now + us);
  }

  /** What the last result asks of a world holds in every session. */
  lemma {:induction false} EverySessionSettles(fuel: nat, code: Code, n: nat, mem: Memory, actions: seq<Action>)
    requires Session(fuel, code, Fresh(n, mem), actions).Some?
    ensures Settled(Session(fuel, code, Fresh(n, mem), actions).value.notes)
    decreases |actions|
  {
    if actions != [] {
      var before := actions[..|actions| - 1];
      EverySessionSettles(fuel, code, n, mem, before);
      ActionSettles(fuel, code, Session(fuel, code, Fresh(n, mem), before).value, actions[|actions| - 1]);
    }
  }

  // ----- The client hears what is noted, and its calls are made -----

  /** What a client that remembered `mem` remembers after the history. */
  function Recalled(code: Code, mem: Memory, notes: seq<Note>): Memory {
    if notes == [] then mem
    else
      var (before, last) := (Recalled(code, mem, notes[..|notes| - 1]), notes[|notes| - 1]);
      if last.Told? then code(last.ev, before).0 else before
  }

  lemma RecalledStep(code: Code, mem: Memory, notes: seq<Note>, note: Note)
    ensures var before := Recalled(code, mem, notes);
            Recalled(code, mem, notes + [note]) ==
            if note.Told? then code(note.ev, before).0 else before
  {
    assert (notes + [note])[..|notes|] == notes;
  }

  /** If the client, told note `k`, makes a call, that call is what is noted next. */
  predicate Heeded(code: Code, mem: Memory, notes: seq<Note>, k: nat)
    requires k < |notes| && notes[k].Told?
  {
    var move := code(notes[k].ev, Recalled(code, mem, notes[..k])).1;
    move.Call? ==> k + 1 < |notes| && notes[k + 1].Made? && notes[k + 1].op == move.op
  }

  predicate HeedsFrom(code: Code, mem: Memory, notes: seq<Note>, from: nat) {
    forall k: nat {:trigger notes[k]} :: from <= k < |notes| && notes[k].Told? ==> Heeded(code, mem, notes, k)
  }

  lemma HeedsOn(code: Code, mem: Memory, a: seq<Note>, b: seq<Note>, from: nat)
    requires HeedsFrom(code, mem, a, from) && a <= b && HeedsFrom(code, mem, b, |a|)
    ensures HeedsFrom(code, mem, b, from)
  {
    forall k: nat | from <= k < |b| && b[k].Told? ensures Heeded(code, mem, b, k) {
      if k < |a| {
        assert a[k] == b[k] && a[..k] == b[..k] && Heeded(code, mem, a, k);
      }
    }
  }

  /** The client's memory is what it recalls. */
  predicate Recalls(code: Code, mem: Memory, w: World) {
    w.mem == Recalled(code, mem, w.notes)
  }

  lemma {:induction false} RunHeeds(fuel: nat, code: Code, w: World, ev: Event, mem: Memory)
    requires Run(fuel, code, w, ev).Some? && Recalls(code, mem, w)
    ensures var w' := Run(fuel, code, w, ev).value;
            w.notes <= w'.notes && Recalls(code, mem, w') && HeedsFrom(code, mem, w'.notes, |w.notes|)
    decreases fuel, 1
  {
    var (m, move) := code(ev, w.mem);
    var (w0, w2) := (Heard(w, ev, m), Run(fuel, code, w, ev).value);
    RecalledStep(code, mem, w.notes, Told(ev, w.ctx.now));
    assert w0.notes[..|w.notes|] == w.notes;
    if move.Call? {
      var (w1, result) := Perform(fuel - 1, code, w0, move.op).value;
      PerformHeeds(fuel - 1, code, w0, move.op, mem);
      assert w1.notes[..|w.notes|] == w.notes;
      assert Heeded(code, mem, w1.notes, |w.notes|);
      RunHeeds(fuel - 1, code, w1, Returned(result), mem);
      HeedsOn(code, mem, w1.notes, w2.notes, |w.notes|);
    }
  }

  lemma {:induction false} PerformHeeds(fuel: nat, code: Code, w: World, op: Op, mem: Memory)
    requires Perform(fuel, code, w, op).Some? && Recalls(code, mem, w)
    ensures var w' := Perform(fuel, code, w, op).value.0;
            w.notes < w'.notes && w'.notes[|w.notes|].Made? && w'.notes[|w.notes|].op == op
            && Recalls(code, mem, w') && HeedsFrom(code, mem, w'.notes, |w.notes|)
    decreases fuel, 3
  {
    var w' := Perform(fuel, code, w, op).value.0;
    if op.Fire? && w.ctx.timers[op.t].active {
      var w0 := Asked(w, op, 0);
      RecalledStep(code, mem, w.notes, Made(op, 0, w.ctx.now));
      FireHeeds(fuel, code, w0, op.t, mem);
      assert w'.notes[|w.notes|] == w0.notes[|w.notes|];
      HeedsOn(code, mem, w0.notes, w'.notes, |w.notes|);
    } else {
      RecalledStep(code, mem, w.notes, w'.notes[|w.notes|]);
    }
  }

  lemma {:induction false} FireHeeds(fuel: nat, code: Code, w: World, t: nat, mem: Memory)
    requires t < |w.ctx.timers| && FireSlot(fuel, code, w, t).Some? && Recalls(code, mem, w)
    ensures var w' := FireSlot(fuel, code, w, t).value;
            w.notes <= w'.notes && Recalls(code, mem, w') && HeedsFrom(code, mem, w'.notes, |w.notes|)
    decreases fuel, 2
  {
    RunHeeds(fuel, code, w.(ctx := Stopped(w.ctx, t)), Called(t, w.ctx.timers[t].cb, w.ctx.timers[t].arg), mem);
  }

  lemma {:induction false} AdvanceHeeds(f: nat, code: Code, w: World, end: nat, mem: Memory)
    requires AdvanceTo(f, code, w, end).Some? && Recalls(code, mem, w)
    ensures var w' := AdvanceTo(f, code, w, end).value.0;
            w.notes <= w'.notes && Recalls(code, mem, w') && HeedsFrom(code, mem, w'.notes, |w.notes|)
    decreases f
  {
    if Next(w.ctx, end).Some? {
      var i := Next(w.ctx, end).value;
      var w0 := At(w, w.ctx.timers[i].expiry);
      var w1 := FireSlot(f - 1, code, w0, i).value;
      FireHeeds(f - 1, code, w0, i, mem);
      AdvanceHeeds(f - 1, code, w1, end, mem);
      HeedsOn(code, mem, w1.notes, AdvanceTo(f, code, w, end).value.0.notes, |w.notes|);
    }
  }

  lemma ActionHeeds(fuel: nat, code: Code, w: World, action: Action, mem: Memory)
    requires Acted(fuel, code, w, action).Some? && Recalls(code, mem, w)
    ensures var w' := Acted(fuel, code, w, action).value;
            w.notes <= w'.notes && Recalls(code, mem, w') && HeedsFrom(code, mem, w'.notes, |w.notes|)
  {
    match action
    case Api(op) => PerformHeeds(fuel, code, w, op, mem);
    case Advance(us) => AdvanceHeeds(fuel, code, w, w.ctx.now + us, mem);
  }

  /** Main result: the history is the client's own. Its memory after a session is what
      its program makes of the events noted, in order, and each call the program makes
      on hearing one is noted next: nothing is told and not noted, or the reverse. */
  lemma {:induction false} EverySessionHeeds(fuel: nat, code: Code, n: nat, mem: Memory, actions: seq<Action>)
    requires Session(fuel, code, Fresh(n, mem), actions).Some?
    ensures var w := Session(fuel, code, Fresh(n, mem), actions).value;
            Recalls(code, mem, w) && HeedsFrom(code, mem, w.notes, 0)
    decreases |actions|
  {
    if actions != [] {
      var (before, last) := (actions[..|actions| - 1], actions[|actions| - 1]);
      EverySessionHeeds(fuel, code, n, mem, before);
      var w := Session(fuel, code, Fresh(n, mem), before).value;
      ActionHeeds(fuel, code, w, last, mem);
      HeedsOn(code, mem, w.notes, Acted(fuel, code, w, last).value.notes, 0);
    }
  }
}
