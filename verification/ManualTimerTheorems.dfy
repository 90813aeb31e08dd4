// What advancing the manual timer guarantees, for every client program.
module ManualTimerTheorems {

  import opened Wrappers
  import opened ManualTimerModel

  // ----- Splitting time changes nothing -----

  /** The timer next before a later end is the one next before an earlier end,
      whenever there is one before the earlier end. */
  lemma NextEarlier(c: Ctx, mid: nat, end: nat)
    requires mid <= end && Next(c, mid).Some?
    ensures Next(c, end) == Next(c, mid)
  {
    var i := Next(c, mid).value;
    assert Due(c, mid, i);
    forall j: nat | Due(c, end, j) ensures SlotBefore(c, i, j) {
      if Due(c, mid, j) {}
    }
    NextIsUnique(c, end, i);
  }

  lemma AdvanceTurn(f: nat, h: nat, code: Code, w: World, end: nat, i: nat, w': World, w2: World, log: seq<Fired>)
    requires f == h + 1 && Next(w.ctx, end) == Some(i)
    requires FireSlot(h, code, At(w, w.ctx.timers[i].expiry), i) == Some(w')
    requires AdvanceTo(h, code, w', end) == Some((w2, log))
    ensures AdvanceTo(f, code, w, end) == Some((w2, [FiredIn(At(w, w.ctx.timers[i].expiry).ctx, i)] + log))
  {
  }

  /** Nothing is due before `mid`: the first advance only moves the clock. */
  lemma JoinIdle(g: nat, h: nat, code: Code, w: World, mid: nat, end: nat, w2: World, log: seq<Fired>)
    requires g <= h && AdvanceTo(g, code, At(w, mid), end) == Some((w2, log))
    ensures AdvanceTo(h, code, w, end) == Some((w2, log))
  {
    FirstStepIgnoresClock(g, code, w, mid, end);
    AdvanceMono(g, h, code, w, end);
  }

  lemma {:induction false} JoinAdvances(f: nat, g: nat, h: nat, code: Code, w: World, mid: nat, end: nat,
                                        w1: World, log1: seq<Fired>, w2: World, log2: seq<Fired>)
    requires mid <= end && h == f + g
    requires AdvanceTo(f, code, w, mid) == Some((w1, log1)) && AdvanceTo(g, code, w1, end) == Some((w2, log2))
    ensures AdvanceTo(h, code, w, end) == Some((w2, log1 + log2))
    decreases f
  {
    match Next(w.ctx, mid)
    case None =>
      JoinIdle(g, h, code, w, mid, end, w2, log2);
      assert log1 + log2 == log2;
    case Some(i) =>
      NextEarlier(w.ctx, mid, end);
      var (f', h', w0) := (f - 1, h - 1, At(w, w.ctx.timers[i].expiry));
      var w' := FireSlot(f', code, w0, i).value;
      var rest := AdvanceTo(f', code, w', mid).value.1;
      FireMono(f', h', code, w0, i);
      JoinAdvances(f', g, h', code, w', mid, end, w1, rest, w2, log2);
      AdvanceTurn(h, h', code, w, end, i, w', w2, rest + log2);
      Prepend(FiredIn(w0.ctx, i), rest, log2);
  }

  lemma Prepend(e: Fired, a: seq<Fired>, b: seq<Fired>)
    ensures [e] + (a + b) == ([e] + a) + b
  {
  }

  /** The loop overwrites the clock before anything reads it. */
  lemma FirstStepIgnoresClock(fuel: nat, code: Code, w: World, now: nat, end: nat)
    ensures AdvanceTo(fuel, code, At(w, now), end) == AdvanceTo(fuel, code, w, end)
  {
    if fuel > 0 {
      forall j: nat ensures Due(At(w, now).ctx, end, j) == Due(w.ctx, end, j) {}
      match Next(w.ctx, end)
      case None =>
        assert forall j: nat :: !Due(w.ctx, end, j);
      case Some(i) =>
        assert IsNext(At(w, now).ctx, end, i) by {
          forall j: nat | Due(At(w, now).ctx, end, j) ensures SlotBefore(At(w, now).ctx, i, j) {
            assert Due(w.ctx, end, j);
          }
        }
        NextIsUnique(At(w, now).ctx, end, i);
        assert At(At(w, now), w.ctx.timers[i].expiry) == At(w, w.ctx.timers[i].expiry);
    }
  }

  lemma {:induction false} CutAdvance(f: nat, code: Code, w: World, mid: nat, end: nat)
    requires mid <= end && AdvanceTo(f, code, w, end).Some?
    ensures AdvanceTo(f, code, w, mid).Some?
    ensures var (w1, log1) := AdvanceTo(f, code, w, mid).value;
            AdvanceTo(f, code, w1, end).Some?
            && AdvanceTo(f, code, w, end) ==
               Some((AdvanceTo(f, code, w1, end).value.0, log1 + AdvanceTo(f, code, w1, end).value.1))
    decreases f
  {
    match Next(w.ctx, mid)
    case None =>
      FirstStepIgnoresClock(f, code, w, mid, end);
      var log := AdvanceTo(f, code, w, end).value.1;
      assert [] + log == log;
    case Some(i) =>
      NextEarlier(w.ctx, mid, end);
      var w' := FireSlot(f - 1, code, At(w, w.ctx.timers[i].expiry), i).value;
      CutAdvance(f - 1, code, w', mid, end);
      var (w1, log1) := AdvanceTo(f - 1, code, w', mid).value;
      var log2 := AdvanceTo(f - 1, code, w1, end).value.1;
      AdvanceMono(f - 1, f, code, w1, end);
      Prepend(FiredIn(At(w, w.ctx.timers[i].expiry).ctx, i), log1, log2);
  }

  lemma {:induction false} AdvanceSetsClock(f: nat, code: Code, w: World, end: nat)
    requires AdvanceTo(f, code, w, end).Some?
    ensures AdvanceTo(f, code, w, end).value.0.ctx.now == end
    ensures forall j: nat :: !Due(AdvanceTo(f, code, w, end).value.0.ctx, end, j)
    decreases f
  {
    match Next(w.ctx, end)
    case None =>
      forall j: nat ensures !Due(At(w, end).ctx, end, j) {
        assert !Due(w.ctx, end, j);
      }
    case Some(i) =>
      AdvanceSetsClock(f - 1, code, FireSlot(f - 1, code, At(w, w.ctx.timers[i].expiry), i).value, end);
  }

  /** Main result: advancing by `a + b` is advancing by `a` and then by `b`. One
      ends if and only if the other does, in the same world, with the same
      callbacks in the same order seeing the same clock. */
  lemma SplittingTime(code: Code, w: World, a: nat, b: nat, w2: World, log: seq<Fired>)
    ensures Advances(code, w, a + b, w2, log) <==>
            exists w1, log1, log2 ::
              Advances(code, w, a, w1, log1) && Advances(code, w1, b, w2, log2) && log == log1 + log2
  {
    if Advances(code, w, a + b, w2, log) {
      SplitAdvance(code, w, a, b, w2, log);
    }
    if w1, log1, log2 :| Advances(code, w, a, w1, log1) && Advances(code, w1, b, w2, log2) && log == log1 + log2 {
      MergeAdvances(code, w, a, b, w1, log1, w2, log2);
    }
  }

  lemma SplitAdvance(code: Code, w: World, a: nat, b: nat, w2: World, log: seq<Fired>)
    requires Advances(code, w, a + b, w2, log)
    ensures exists w1, log1, log2 ::
              Advances(code, w, a, w1, log1) && Advances(code, w1, b, w2, log2) && log == log1 + log2
  {
    var now := w.ctx.now;
    var f: nat :| Reaches(f, code, w, a + b, w2, log);
    CutAdvance(f, code, w, now + a, now + a + b);
    AdvanceSetsClock(f, code, w, now + a);
    var (w1, log1) := AdvanceTo(f, code, w, now + a).value;
    var log2 := AdvanceTo(f, code, w1, now + a + b).value.1;
    assert w1.ctx.now + b == now + a + b == now + (a + b);
    assert Reaches(f, code, w, a, w1, log1);
    assert Reaches(f, code, w1, b, w2, log2);
    assert Advances(code, w, a, w1, log1) && Advances(code, w1, b, w2, log2) && log == log1 + log2;
  }

  lemma MergeAdvances(code: Code, w: World, a: nat, b: nat, w1: World, log1: seq<Fired>, w2: World, log2: seq<Fired>)
    requires Advances(code, w, a, w1, log1) && Advances(code, w1, b, w2, log2)
    ensures Advances(code, w, a + b, w2, log1 + log2)
  {
    var now := w.ctx.now;
    var f: nat :| Reaches(f, code, w, a, w1, log1);
    var g: nat :| Reaches(g, code, w1, b, w2, log2);
    AdvanceSetsClock(f, code, w, now + a);
    JoinAdvances(f, g, f + g, code, w, now + a, now + a + b, w1, log1, w2, log2);
    assert Reaches(f + g, code, w, a + b, w2, log1 + log2);
  }

  /** An advance has one outcome at most. */
  lemma AdvanceIsDeterministic(code: Code, w: World, us: nat, w1: World, log1: seq<Fired>, w2: World, log2: seq<Fired>)
    requires Advances(code, w, us, w1, log1) && Advances(code, w, us, w2, log2)
    ensures w1 == w2 && log1 == log2
  {
    var f: nat :| Reaches(f, code, w, us, w1, log1);
    var g: nat :| Reaches(g, code, w, us, w2, log2);
    AdvanceMono(f, f + g, code, w, w.ctx.now + us);
    AdvanceMono(g, f + g, code, w, w.ctx.now + us);
  }

  // ----- Firing order -----

  ghost predicate Ordered(log: seq<Fired>) {
    forall k, l :: 0 <= k < l < |log| ==> KeyLess(log[k].expiry, log[k].seqno, log[l].expiry, log[l].seqno)
  }

  /** Every waiting timer has a key above (e, s). */
  ghost predicate AllAbove(c: Ctx, e: nat, s: nat) {
    forall j: nat :: Live(c, j) ==> KeyLess(e, s, c.timers[j].expiry, c.timers[j].seqno)
  }

  ghost predicate LogAbove(log: seq<Fired>, e: nat, s: nat) {
    forall k :: 0 <= k < |log| ==> KeyLess(e, s, log[k].expiry, log[k].seqno)
  }

  /** After firing the next timer, only later keys are waiting, whatever its callback did. */
  lemma FiringRaisesKeys(fuel: nat, code: Code, w: World, end: nat, d: nat)
    requires Ok(w.ctx) && Next(w.ctx, end).Some? && MinDelay(code, d)
    requires var i := Next(w.ctx, end).value; FireSlot(fuel, code, At(w, w.ctx.timers[i].expiry), i).Some?
    ensures var i := Next(w.ctx, end).value;
            var t := w.ctx.timers[i];
            var c' := FireSlot(fuel, code, At(w, t.expiry), i).value.ctx;
            Ok(c') && AllAbove(c', t.expiry, t.seqno) && c'.now == t.expiry && |c'.timers| == |w.ctx.timers|
            && (forall j: nat :: Live(c', j) ==>
                  (j != i && SameKey(w.ctx, c', j)) || t.expiry + d <= c'.timers[j].expiry)
  {
    var i := Next(w.ctx, end).value;
    var w0 := At(w, w.ctx.timers[i].expiry);
    assert Ok(w0.ctx) by { NextLeavesOk(w.ctx, end); }
    FireLater(fuel, code, w0, i, d);
    var c0 := Stopped(w0.ctx, i);
    var c' := FireSlot(fuel, code, w0, i).value.ctx;
    forall j: nat | Live(c', j)
      ensures KeyLess(w.ctx.timers[i].expiry, w.ctx.timers[i].seqno, c'.timers[j].expiry, c'.timers[j].seqno)
      ensures (j != i && SameKey(w.ctx, c', j)) || w.ctx.timers[i].expiry + d <= c'.timers[j].expiry
    {
      assert SameKey(c0, c', j) || NewKey(c0, c', d, j);
      if SameKey(c0, c', j) {
        assert Live(w.ctx, j) && j != i;
        if Due(w.ctx, end, j) {
          assert SlotBefore(w.ctx, i, j);
        }
      }
    }
  }

  lemma NextLeavesOk(c: Ctx, end: nat)
    requires Ok(c) && Next(c, end).Some?
    ensures Ok(c.(now := c.timers[Next(c, end).value].expiry))
    ensures c.now <= c.timers[Next(c, end).value].expiry <= end
  {
    var i := Next(c, end).value;
    var c' := c.(now := c.timers[i].expiry);
    forall j: nat | Live(c', j) ensures c'.now <= c'.timers[j].expiry && c'.timers[j].seqno < c'.nextSeq {
      assert Live(c, j);
      if Due(c, end, j) {
        assert SlotBefore(c, i, j);
      }
    }
    forall j: nat, k: nat | Live(c', j) && Live(c', k) && j != k
      ensures c'.timers[j].seqno != c'.timers[k].seqno
    {
      assert Live(c, j) && Live(c, k);
    }
  }

  lemma {:induction false} FiredInOrder(f: nat, code: Code, w: World, end: nat)
    requires Ok(w.ctx) && w.ctx.now <= end && AdvanceTo(f, code, w, end).Some?
    ensures var (w', log) := AdvanceTo(f, code, w, end).value;
            && Ok(w'.ctx) && |w'.ctx.timers| == |w.ctx.timers|
            && Ordered(log)
            && (forall k :: 0 <= k < |log| ==> w.ctx.now <= log[k].clock == log[k].expiry <= end)
            && (forall e: nat, s: nat :: AllAbove(w.ctx, e, s) ==> LogAbove(log, e, s))
    decreases f
  {
    match Next(w.ctx, end)
    case None =>
      var c' := At(w, end).ctx;
      forall j: nat | Live(c', j) ensures c'.now <= c'.timers[j].expiry && c'.timers[j].seqno < c'.nextSeq {
        assert Live(w.ctx, j) && !Due(w.ctx, end, j);
      }
      forall j: nat, k: nat | Live(c', j) && Live(c', k) && j != k
        ensures c'.timers[j].seqno != c'.timers[k].seqno
      {
        assert Live(w.ctx, j) && Live(w.ctx, k);
      }
    case Some(i) =>
      var t := w.ctx.timers[i];
      assert MinDelay(code, 0);
      FiringRaisesKeys(f - 1, code, w, end, 0);
      NextLeavesOk(w.ctx, end);
      var w1 := FireSlot(f - 1, code, At(w, t.expiry), i).value;
      FiredInOrder(f - 1, code, w1, end);
      var (log1, first) := (AdvanceTo(f - 1, code, w1, end).value.1, FiredIn(At(w, t.expiry).ctx, i));
      assert LogAbove(log1, t.expiry, t.seqno) && Live(w.ctx, i);
      OneMoreInOrder(first, log1, w.ctx.now, end);
  }

  lemma OneMoreInOrder(e: Fired, log: seq<Fired>, now: nat, end: nat)
    requires Ordered(log) && LogAbove(log, e.expiry, e.seqno) && now <= e.clock == e.expiry <= end
    requires forall k :: 0 <= k < |log| ==> e.clock <= log[k].clock == log[k].expiry <= end
    ensures Ordered([e] + log)
    ensures forall k :: 0 <= k < |[e] + log| ==> now <= ([e] + log)[k].clock == ([e] + log)[k].expiry <= end
    ensures forall x: nat, s: nat :: KeyLess(x, s, e.expiry, e.seqno) ==> LogAbove([e] + log, x, s)
  {
    var all := [e] + log;
    forall k, l | 0 <= k < l < |all| ensures KeyLess(all[k].expiry, all[k].seqno, all[l].expiry, all[l].seqno) {
      assert all[l] == log[l - 1] && (k > 0 ==> all[k] == log[k - 1]);
    }
    forall x: nat, s: nat | KeyLess(x, s, e.expiry, e.seqno) ensures LogAbove(all, x, s) {
      forall k | 0 <= k < |all| ensures KeyLess(x, s, all[k].expiry, all[k].seqno) {
        assert k > 0 ==> all[k] == log[k - 1];
      }
    }
  }

  /** Main result: the callbacks of one advance run in strictly increasing
      (expiry, start) order, each with the clock at its own expiry, which never
      precedes the old clock nor passes the new one; afterwards the clock is at
      the end, nothing due is waiting, and the context is sound for the next call. */
  lemma AdvanceIsAPriorityQueue(code: Code, w: World, us: nat, w': World, log: seq<Fired>)
    requires Ok(w.ctx) && Advances(code, w, us, w', log)
    ensures Ordered(log)
    ensures forall k :: 0 <= k < |log| ==> w.ctx.now <= log[k].clock == log[k].expiry <= w'.ctx.now
    ensures forall k, l :: 0 <= k < l < |log| ==> log[k].clock <= log[l].clock
    ensures Ok(w'.ctx) && w'.ctx.now == w.ctx.now + us
    ensures forall j: nat :: Live(w'.ctx, j) ==> w'.ctx.now < w'.ctx.timers[j].expiry
  {
    var end := w.ctx.now + us;
    var f: nat :| Reaches(f, code, w, us, w', log);
    FiredInOrder(f, code, w, end);
    AdvanceSetsClock(f, code, w, end);
    forall j: nat | Live(w'.ctx, j) ensures end < w'.ctx.timers[j].expiry {
      assert !Due(w'.ctx, end, j);
    }
  }

  // ----- Only what was armed fires -----

  /** `e` is the key slot `e.slot` waits under. */
  ghost predicate WaitsUnder(c: Ctx, e: Fired) {
    Live(c, e.slot) && c.timers[e.slot].expiry == e.expiry && c.timers[e.slot].seqno == e.seqno
  }

  /** `e` was armed between `c` and the context that next starts a timer with `nextSeq`. */
  ghost predicate ArmedSince(c: Ctx, e: Fired, nextSeq: nat) {
    c.nextSeq <= e.seqno < nextSeq
  }

  lemma {:induction false} FiredWereArmed(f: nat, code: Code, w: World, end: nat)
    requires Ok(w.ctx) && w.ctx.now <= end && AdvanceTo(f, code, w, end).Some?
    ensures var (w', log) := AdvanceTo(f, code, w, end).value;
            && w.ctx.nextSeq <= w'.ctx.nextSeq
            && forall k :: 0 <= k < |log| ==> WaitsUnder(w.ctx, log[k]) || ArmedSince(w.ctx, log[k], w'.ctx.nextSeq)
    decreases f
  {
    match Next(w.ctx, end)
    case None =>
    case Some(i) =>
      var w0 := At(w, w.ctx.timers[i].expiry);
      assert MinDelay(code, 0);
      FireLater(f - 1, code, w0, i, 0);
      FiringRaisesKeys(f - 1, code, w, end, 0);
      NextLeavesOk(w.ctx, end);
      var w1 := FireSlot(f - 1, code, w0, i).value;
      FiredWereArmed(f - 1, code, w1, end);
      var (w', log1) := AdvanceTo(f - 1, code, w1, end).value;
      var log := AdvanceTo(f, code, w, end).value.1;
      forall k | 0 <= k < |log| ensures WaitsUnder(w.ctx, log[k]) || ArmedSince(w.ctx, log[k], w'.ctx.nextSeq) {
        if k > 0 {
          WaitedOrArmed(w0.ctx, w1.ctx, log1[k - 1], w'.ctx.nextSeq);
          assert log[k] == log1[k - 1];
        }
      }
  }

  lemma WaitedOrArmed(c: Ctx, c': Ctx, e: Fired, nextSeq: nat)
    requires Later(c, c', 0) && c'.nextSeq <= nextSeq && (WaitsUnder(c', e) || ArmedSince(c', e, nextSeq))
    ensures WaitsUnder(c, e) || ArmedSince(c, e, nextSeq)
  {
    if WaitsUnder(c', e) {
      assert SameKey(c, c', e.slot) || NewKey(c, c', 0, e.slot);
    }
  }

  /** Main result: only armings fire, each once at most. Every callback of an advance
      is for a key its slot was waiting under at the start, or for one armed by a
      callback meanwhile, and no two callbacks are for the same arming. */
  lemma OnlyArmedTimersFire(code: Code, w: World, us: nat, w': World, log: seq<Fired>)
    requires Ok(w.ctx) && Advances(code, w, us, w', log)
    ensures forall k :: 0 <= k < |log| ==> WaitsUnder(w.ctx, log[k]) || ArmedSince(w.ctx, log[k], w'.ctx.nextSeq)
    ensures forall k, l :: 0 <= k < l < |log| ==> log[k].expiry != log[l].expiry || log[k].seqno != log[l].seqno
  {
    var end := w.ctx.now + us;
    var f: nat :| Reaches(f, code, w, us, w', log);
    FiredWereArmed(f, code, w, end);
    FiredInOrder(f, code, w, end);
    assert Ordered(log);
    forall k, l | 0 <= k < l < |log| ensures log[k].expiry != log[l].expiry || log[k].seqno != log[l].seqno {
      assert KeyLess(log[k].expiry, log[k].seqno, log[l].expiry, log[l].seqno);
    }
  }

  // ----- Every context a client can reach -----

  datatype Action = Api(op: Op) | Advance(us: nat)

  function Acted(fuel: nat, code: Code, w: World, action: Action): Option<World> {
    match action
    case Api(op) => (match Perform(fuel, code, w, op) case None => None case Some((w', _)) => Some(w'))
    case Advance(us) =>
      (match AdvanceTo(fuel, code, w, w.ctx.now + us) case None => None case Some((w', _)) => Some(w'))
  }

  /** A context after init, then any calls from outside callbacks. */
  function Session(fuel: nat, code: Code, w: World, actions: seq<Action>): Option<World>
    decreases |actions|
  {
    if actions == [] then Some(w)
    else
      match Session(fuel, code, w, actions[..|actions| - 1])
      case None => None
      case Some(w') => Acted(fuel, code, w', actions[|actions| - 1])
  }

  function Initial(n: nat): Ctx {
    Ctx(0, 0, seq(n, _ => BLANK))
  }

  /** A client that has called nothing, with a context of `n` slots after init. */
  function Fresh(n: nat, mem: Memory): World {
    World(Initial(n), mem, [])
  }

  lemma ActionKeepsOk(fuel: nat, code: Code, w: World, action: Action)
    requires Ok(w.ctx) && Acted(fuel, code, w, action).Some?
    ensures Ok(Acted(fuel, code, w, action).value.ctx)
  {
    assert MinDelay(code, 0);
    match action
    case Api(op) => PerformLater(fuel, code, w, op, 0);
    case Advance(us) => FiredInOrder(fuel, code, w, w.ctx.now + us);
  }

  /** Main result: the condition the results above ask of a context holds after
      any sequence of calls and advances, with any callbacks, from a fresh one. */
  lemma {:induction false} EverySessionIsOk(fuel: nat, code: Code, n: nat, mem: Memory, actions: seq<Action>)
    requires Session(fuel, code, Fresh(n, mem), actions).Some?
    ensures Ok(Session(fuel, code, Fresh(n, mem), actions).value.ctx)
    decreases |actions|
  {
    if actions != [] {
      var before := actions[..|actions| - 1];
      EverySessionIsOk(fuel, code, n, mem, before);
      ActionKeepsOk(fuel, code, Session(fuel, code, Fresh(n, mem), before).value, actions[|actions| - 1]);
    }
  }

  // ----- How many callbacks -----

  function DueSet(c: Ctx): set<nat> {
    set i: nat | i < |c.timers| && Due(c, c.now, i)
  }

  function AllSlots(n: nat): (s: set<nat>)
    ensures forall i: nat :: i in s <==> i < n
    ensures |s| == n
  {
    if n == 0 then {} else AllSlots(n - 1) + {n - 1}
  }

  lemma DueSetIsSmall(c: Ctx)
    ensures |DueSet(c)| <= |c.timers|
  {
    SubsetIsSmaller(DueSet(c), AllSlots(|c.timers|));
  }

  lemma {:induction false} SubsetIsSmaller(a: set<nat>, b: set<nat>)
    requires a <= b
    ensures |a| <= |b|
    decreases a
  {
    if a != {} {
      var x :| x in a;
      SubsetIsSmaller(a - {x}, b - {x});
    }
  }

  /** Callbacks still possible when every delay is positive: every slot at every
      later clock value, and the ones due now. */
  function Remaining(c: Ctx, end: nat): nat
    requires c.now <= end
  {
    (end - c.now) * |c.timers| + |DueSet(c)|
  }

  /** What firing slot `i` leaves: other slots as they were, or armed for later. */
  ghost predicate FiredOne(c: Ctx, c': Ctx, i: nat, end: nat) {
    && Due(c, end, i) && c.now <= c.timers[i].expiry == c'.now && |c'.timers| == |c.timers|
    && forall j: nat :: Live(c', j) ==> (j != i && SameKey(c, c', j)) || c'.now + 1 <= c'.timers[j].expiry
  }

  lemma DueSetDrops(c: Ctx, c': Ctx, i: nat, end: nat)
    requires FiredOne(c, c', i, end)
    ensures c'.now == c.now ==> |DueSet(c')| < |DueSet(c)|
    ensures |DueSet(c')| < |c.timers|
  {
    var n := |c.timers|;
    forall j | j in DueSet(c') ensures j in AllSlots(n) - {i} {
      assert Live(c', j);
    }
    SubsetIsSmaller(DueSet(c'), AllSlots(n) - {i});
    if c'.now == c.now {
      assert i in DueSet(c);
      forall j | j in DueSet(c') ensures j in DueSet(c) - {i} {
        assert Live(c', j);
      }
      SubsetIsSmaller(DueSet(c'), DueSet(c) - {i});
    }
  }

  lemma RemainingDrops(c: Ctx, c': Ctx, i: nat, end: nat)
    requires FiredOne(c, c', i, end)
    ensures Remaining(c', end) < Remaining(c, end)
  {
    DueSetDrops(c, c', i, end);
    if c'.now > c.now {
      var (left, all) := (end - c'.now, end - c.now);
      OneTickSpares(left, all, |c.timers|);
    }
  }

  lemma FiringUsesOne(fuel: nat, code: Code, w: World, end: nat)
    requires Ok(w.ctx) && w.ctx.now <= end && Next(w.ctx, end).Some? && MinDelay(code, 1)
    requires var i := Next(w.ctx, end).value; FireSlot(fuel, code, At(w, w.ctx.timers[i].expiry), i).Some?
    ensures var i := Next(w.ctx, end).value;
            var w' := FireSlot(fuel, code, At(w, w.ctx.timers[i].expiry), i).value;
            w'.ctx.now <= end && Remaining(w'.ctx, end) < Remaining(w.ctx, end)
  {
    var i := Next(w.ctx, end).value;
    NextLeavesOk(w.ctx, end);
    FiringRaisesKeys(fuel, code, w, end, 1);
    RemainingDrops(w.ctx, FireSlot(fuel, code, At(w, w.ctx.timers[i].expiry), i).value.ctx, i, end);
  }

  lemma OneTickSpares(left: nat, all: nat, n: nat)
    requires left < all
    ensures left * n + n <= all * n
  {
    assert all * n == (left + 1) * n + (all - left - 1) * n;
  }

  lemma {:induction false} CountIsBounded(f: nat, code: Code, w: World, end: nat)
    requires Ok(w.ctx) && w.ctx.now <= end && MinDelay(code, 1)
    requires AdvanceTo(f, code, w, end).Some?
    ensures |AdvanceTo(f, code, w, end).value.1| <= Remaining(w.ctx, end)
    decreases f
  {
    match Next(w.ctx, end)
    case None =>
    case Some(i) =>
      var w' := FireSlot(f - 1, code, At(w, w.ctx.timers[i].expiry), i).value;
      FiringRaisesKeys(f - 1, code, w, end, 1);
      FiringUsesOne(f - 1, code, w, end);
      CountIsBounded(f - 1, code, w', end);
  }

  /** Main result: when every delay armed by a callback is positive, one advance
      by `us` runs its loop at most slots * (us + 1) times. */
  lemma CallbackBound(code: Code, w: World, us: nat, w': World, log: seq<Fired>)
    requires Ok(w.ctx) && MinDelay(code, 1) && Advances(code, w, us, w', log)
    ensures |log| <= |w.ctx.timers| * (us + 1)
  {
    var end := w.ctx.now + us;
    var f: nat :| Reaches(f, code, w, us, w', log);
    CountIsBounded(f, code, w, end);
    DueSetIsSmall(w.ctx);
    assert end - w.ctx.now == us;
    BoundIs(|w.ctx.timers|, us, |DueSet(w.ctx)|);
  }

  lemma BoundIs(n: nat, us: nat, due: nat)
    requires due <= n
    ensures us * n + due <= n * (us + 1)
  {
  }

  predicate FiresWithin(f: nat, code: Code, w: World, i: nat) {
    i < |w.ctx.timers| && FireSlot(f, code, w, i).Some?
  }

  ghost predicate CallbackEnds(code: Code, w: World, i: nat) {
    exists f: nat :: FiresWithin(f, code, w, i)
  }

  /** Every callback, fired from any world with `n` slots, returns. */
  ghost predicate Returns(code: Code, n: nat) {
    forall w: World, i: nat :: i < n && |w.ctx.timers| == n ==> CallbackEnds(code, w, i)
  }

  /** Main result: with positive delays and callbacks that return, advance ends. */
  lemma {:induction false} AdvanceEnds(code: Code, w: World, end: nat) returns (f: nat)
    requires Ok(w.ctx) && w.ctx.now <= end && MinDelay(code, 1) && Returns(code, |w.ctx.timers|)
    ensures AdvanceTo(f, code, w, end).Some?
    decreases Remaining(w.ctx, end)
  {
    match Next(w.ctx, end)
    case None =>
      f := 1;
    case Some(i) =>
      var w0 := At(w, w.ctx.timers[i].expiry);
      assert CallbackEnds(code, w0, i);
      var g: nat :| FiresWithin(g, code, w0, i);
      var w' := FireSlot(g, code, w0, i).value;
      FiringRaisesKeys(g, code, w, end, 1);
      FiringUsesOne(g, code, w, end);
      var h := AdvanceEnds(code, w', end);
      FireMono(g, g + h, code, w0, i);
      AdvanceMono(h, g + h, code, w', end);
      f := g + h + 1;
  }

  /** Without the delay condition advance may never end: a callback that restarts
      its own timer with delay 0 is due again at the same clock value. */
  lemma {:induction false} ZeroDelayNeverEnds(fuel: nat, w: World, end: nat)
    requires |w.ctx.timers| == 1 && Due(w.ctx, end, 0)
    ensures AdvanceTo(fuel, RestartAtOnce, w, end).None?
    decreases fuel
  {
    if fuel > 0 {
      assert IsNext(w.ctx, end, 0);
      NextIsUnique(w.ctx, end, 0);
      var r := FireSlot(fuel - 1, RestartAtOnce, At(w, w.ctx.timers[0].expiry), 0);
      if r.Some? {
        RestartAtOnceRuns(fuel - 1, At(w, w.ctx.timers[0].expiry));
        ZeroDelayNeverEnds(fuel - 1, r.value, end);
      }
    }
  }

  lemma RestartAtOnceRuns(fuel: nat, w: World)
    requires |w.ctx.timers| == 1 && FireSlot(fuel, RestartAtOnce, w, 0).Some?
    ensures FireSlot(fuel, RestartAtOnce, w, 0).value.ctx == Restarted(Stopped(w.ctx, 0), 0, 0)
  {
    var ev := Called(0, w.ctx.timers[0].cb, w.ctx.timers[0].arg);
    var w0 := Heard(w.(ctx := Stopped(w.ctx, 0)), ev, w.mem);
    var w1 := Asked(w0, Restart(0, 0), 0).(ctx := Restarted(w0.ctx, 0, 0));
    assert RestartAtOnce(ev, w.mem) == (w.mem, Call(Restart(0, 0)));
    assert Perform(fuel - 1, RestartAtOnce, w0, Restart(0, 0)) == Some((w1, 0));
    assert Run(fuel - 1, RestartAtOnce, w1, Returned(0)).Some?;
  }

  function RestartAtOnce(ev: Event, mem: Memory): (Memory, Move) {
    match ev
    case Called(t, _, _) => (mem, Call(Restart(t, 0)))
    case Returned(_) => (mem, Return)
  }

  // ----- Passive callbacks: exactly the sorted list of due timers -----

  ghost predicate Passive(code: Code) {
    forall ev: Event, mem: Memory :: code(ev, mem).1 == Return
  }

  lemma PassiveRun(fuel: nat, code: Code, w: World, ev: Event)
    requires Passive(code) && Run(fuel, code, w, ev).Some?
    ensures Run(fuel, code, w, ev).value.ctx == w.ctx
  {
    assert code(ev, w.mem).1 == Return;
  }

  /** `log` lists exactly the timers of `c` due by `end`, under their keys. */
  ghost predicate ListsDue(c: Ctx, end: nat, log: seq<Fired>) {
    && (forall k :: 0 <= k < |log| ==> Due(c, end, log[k].slot) && log[k] == FiredAt(c, log[k].slot))
    && (forall i: nat :: Due(c, end, i) ==> exists k :: 0 <= k < |log| && log[k].slot == i)
  }

  /** Firing slot `i` with a passive callback takes `i`, and only `i`, off the due list. */
  lemma PassiveStep(c: Ctx, now: nat, end: nat, i: nat, log: seq<Fired>)
    requires Due(c, end, i) && ListsDue(Stopped(c.(now := now), i), end, log)
    ensures ListsDue(c, end, [FiredAt(c, i)] + log)
    ensures forall j: nat :: Due(Stopped(c.(now := now), i), end, j) <==> Due(c, end, j) && j != i
  {
    var c1 := Stopped(c.(now := now), i);
    var all := [FiredAt(c, i)] + log;
    forall k | 0 <= k < |all| ensures Due(c, end, all[k].slot) && all[k] == FiredAt(c, all[k].slot) {
      if k > 0 {
        assert all[k] == log[k - 1];
      }
    }
    forall j: nat | Due(c, end, j) ensures exists k :: 0 <= k < |all| && all[k].slot == j {
      if j == i {
        assert all[0].slot == i;
      } else {
        assert Due(c1, end, j);
        var k :| 0 <= k < |log| && log[k].slot == j;
        assert all[k + 1] == log[k];
      }
    }
  }

  ghost predicate DueStopped(c: Ctx, end: nat, c': Ctx) {
    && c'.nextSeq == c.nextSeq && |c'.timers| == |c.timers|
    && forall i: nat :: i < |c.timers| ==>
         c'.timers[i] == if Due(c, end, i) then c.timers[i].(active := false) else c.timers[i]
  }

  lemma {:induction false} PassiveFires(f: nat, code: Code, w: World, end: nat)
    requires Passive(code) && AdvanceTo(f, code, w, end).Some?
    ensures ListsDue(w.ctx, end, AdvanceTo(f, code, w, end).value.1)
    ensures DueStopped(w.ctx, end, AdvanceTo(f, code, w, end).value.0.ctx)
    decreases f
  {
    match Next(w.ctx, end)
    case None =>
    case Some(i) =>
      var w0 := At(w, w.ctx.timers[i].expiry);
      PassiveRun(f - 1, code, w0.(ctx := Stopped(w0.ctx, i)),
                 Called(i, w0.ctx.timers[i].cb, w0.ctx.timers[i].arg));
      var w1 := FireSlot(f - 1, code, w0, i).value;
      PassiveFires(f - 1, code, w1, end);
      PassiveStep(w.ctx, w0.ctx.now, end, i, AdvanceTo(f - 1, code, w1, end).value.1);
  }

  /** Main result: with callbacks that make no calls, the fired sequence is the
      list of due timers sorted by (expiry, start order), each once; they end
      inactive and every other slot is untouched. */
  lemma PassiveAdvanceSorts(code: Code, w: World, us: nat, w': World, log: seq<Fired>)
    requires Passive(code) && Ok(w.ctx) && Advances(code, w, us, w', log)
    ensures Ordered(log) && ListsDue(w.ctx, w.ctx.now + us, log)
    ensures forall k, l :: 0 <= k < l < |log| ==> log[k].slot != log[l].slot
    ensures DueStopped(w.ctx, w.ctx.now + us, w'.ctx)
  {
    var end := w.ctx.now + us;
    var f: nat :| Reaches(f, code, w, us, w', log);
    PassiveFires(f, code, w, end);
    FiredInOrder(f, code, w, end);
    forall k, l | 0 <= k < l < |log| ensures log[k].slot != log[l].slot {
      assert KeyLess(log[k].expiry, log[k].seqno, log[l].expiry, log[l].seqno);
      assert log[k] == FiredAt(w.ctx, log[k].slot) && log[l] == FiredAt(w.ctx, log[l].slot);
    }
  }

  // ----- Calls and the advance after them -----

  /** The log has slot `t` just once, at clock `when`, or not at all. */
  ghost predicate FiresJust(log: seq<Fired>, t: nat, when: Option<nat>) {
    match when
    case None => forall k :: 0 <= k < |log| ==> log[k].slot != t
    case Some(clock) =>
      exists k :: 0 <= k < |log| && log[k].slot == t && log[k].clock == clock
                  && forall l :: 0 <= l < |log| && log[l].slot == t ==> l == k
  }

  /** With passive callbacks an armed timer fires just once, when it expires, if that is
      within the advance. */
  lemma ArmedFires(code: Code, w: World, t: nat, us: nat, w': World, log: seq<Fired>)
    requires Passive(code) && Ok(w.ctx) && Live(w.ctx, t) && Advances(code, w, us, w', log)
    ensures var e := w.ctx.timers[t].expiry; FiresJust(log, t, if e <= w.ctx.now + us then Some(e) else None)
  {
    var (e, end) := (w.ctx.timers[t].expiry, w.ctx.now + us);
    PassiveAdvanceSorts(code, w, us, w', log);
    if e <= end {
      assert Due(w.ctx, end, t);
      var k :| 0 <= k < |log| && log[k].slot == t;
      assert log[k] == FiredAt(w.ctx, t);
    } else {
      forall k | 0 <= k < |log| ensures log[k].slot != t {
        assert Due(w.ctx, end, log[k].slot);
      }
    }
  }

  /** Main result: a timer restarted with delay `d` at clock `c` fires at `c + d`, just
      once, if the advance that follows reaches that, and does not fire otherwise. */
  lemma RestartFiresOnTime(fuel: nat, code: Code, w: World, t: nat, d: nat, us: nat, w1: World, result: int,
                           w2: World, log: seq<Fired>)
    requires Passive(code) && Ok(w.ctx) && t < |w.ctx.timers| && w.ctx.timers[t].used
    requires Perform(fuel, code, w, Op.Restart(t, d)) == Some((w1, result)) && Advances(code, w1, us, w2, log)
    ensures result == 0 && FiresJust(log, t, if d <= us then Some(w.ctx.now + d) else None)
  {
    PlainLater(w.ctx, Op.Restart(t, d), 0);
    ArmedFires(code, w1, t, us, w2, log);
  }

  /** Main result: so does one started while inactive. A start of an active timer is
      refused, and the timer fires when it would have. */
  lemma StartFiresOnTime(fuel: nat, code: Code, w: World, t: nat, d: nat, us: nat, w1: World, result: int,
                         w2: World, log: seq<Fired>)
    requires Passive(code) && Ok(w.ctx) && t < |w.ctx.timers| && w.ctx.timers[t].used
    requires Perform(fuel, code, w, Op.Start(t, d)) == Some((w1, result)) && Advances(code, w1, us, w2, log)
    ensures !w.ctx.timers[t].active ==> result == 0 && FiresJust(log, t, if d <= us then Some(w.ctx.now + d) else None)
    ensures w.ctx.timers[t].active ==>
              var e := w.ctx.timers[t].expiry;
              result == -EBUSY && w1.ctx == w.ctx
              && FiresJust(log, t, if e <= w.ctx.now + us then Some(e) else None)
  {
    PlainLater(w.ctx, Op.Start(t, d), 0);
    ArmedFires(code, w1, t, us, w2, log);
  }

  /** Main result: a timer stopped or uninstalled does not fire, whatever the callbacks
      of the advance do, unless one of them arms it again. */
  lemma StoppedDoesNotFire(fuel: nat, code: Code, w: World, op: Op, us: nat, w1: World, result: int, w2: World,
                           log: seq<Fired>)
    requires Ok(w.ctx) && (op.Stop? || op.Uninstall?)
    requires Perform(fuel, code, w, op) == Some((w1, result)) && Advances(code, w1, us, w2, log)
    ensures forall k :: 0 <= k < |log| && log[k].slot == op.t ==> ArmedSince(w1.ctx, log[k], w2.ctx.nextSeq)
    ensures Passive(code) ==> FiresJust(log, op.t, None)
  {
    PlainLater(w.ctx, op, 0);
    OnlyArmedTimersFire(code, w1, us, w2, log);
    if Passive(code) {
      PassiveAdvanceSorts(code, w1, us, w2, log);
      forall k | 0 <= k < |log| ensures log[k].slot != op.t {
        assert Due(w1.ctx, w1.ctx.now + us, log[k].slot);
      }
    }
  }

  /** Main result: a slot uninstalled is found again, blank but for the new callback. */
  lemma SlotIsFoundAgain(fuel: nat, code: Code, w: World, cb: int, arg: int, cb': int, arg': int, w1: World, i: int,
                         w2: World, r: int, w3: World, j: int)
    requires Perform(fuel, code, w, Op.Install(cb, arg)) == Some((w1, i)) && i >= 0
    requires Perform(fuel, code, w1, Op.Uninstall(i)) == Some((w2, r))
    requires Perform(fuel, code, w2, Op.Install(cb', arg')) == Some((w3, j))
    ensures j == i && w3.ctx == w1.ctx.(timers := w1.ctx.timers[i := Slot(true, false, 0, 0, cb', arg')])
  {
    FirstFreeFits(w.ctx.timers, i);
    FirstFreeFits(w2.ctx.timers, i);
    var found := Slot(true, false, 0, 0, cb', arg');
    assert w2.ctx.timers[i := found] == w1.ctx.timers[i := found];
  }
}
