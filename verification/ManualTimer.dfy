// The manual timer as the source runs it: a clock, a counter and a slot array
// updated in place, callbacks that call back into it, and a loop that scans for
// the next timer. Every method computes what the model says.
module ManualTimer {

  import opened Wrappers
  import opened ManualTimerModel

  /** The client's program and its memory, and what it has heard and asked. */
  class Client {
    const code: Code
    var mem: Memory
    ghost var notes: seq<Note>

    constructor (code: Code, mem: Memory)
      ensures this.code == code && this.mem == mem && notes == []
    {
      this.code := code;
      this.mem := mem;
      notes := [];
    }
  }

  class Context {
    var now: nat
    var nextSeq: nat
    const timers: array<Slot>

    function Value(): Ctx
      reads this, timers
    {
      Ctx(now, nextSeq, timers[..])
    }

    ghost function Snapshot(client: Client): World
      reads this, timers, client
    {
      World(Value(), client.mem, client.notes)
    }

    constructor (n: nat)
      ensures fresh(timers)
      ensures Value() == Ctx(0, 0, seq(n, _ => BLANK))
    {
      now := 0;
      nextSeq := 0;
      timers := new Slot[n](_ => BLANK);
    }

    method Install(cb: int, arg: int) returns (t: int)
      modifies timers
      ensures (Value(), t) == Installed(old(Value()), cb, arg)
    {
      var i := 0;
      while i < timers.Length
        invariant 0 <= i <= timers.Length
        invariant timers[..] == old(timers[..])
        invariant forall j | 0 <= j < i :: timers[j].used
      {
        if !timers[i].used {
          FirstFreeFits(timers[..], i);
          timers[i] := BLANK.(used := true, cb := cb, arg := arg);
          return i;
        }
        i := i + 1;
      }
      return -1;
    }

    method Uninstall(t: nat)
      requires t < timers.Length
      modifies timers
      ensures Value() == Uninstalled(old(Value()), t)
    {
      timers[t] := timers[t].(active := false);
      timers[t] := timers[t].(used := false);
    }

    method Start(t: nat, delay: nat) returns (status: int)
      requires t < timers.Length
      modifies this, timers
      ensures (Value(), status) == Plain(old(Value()), Op.Start(t, delay))
    {
      if timers[t].active {
        return -EBUSY;
      }
      Restart(t, delay);
      return 0;
    }

    method Restart(t: nat, delay: nat)
      requires t < timers.Length
      modifies this, timers
      ensures Value() == Restarted(old(Value()), t, delay)
    {
      timers[t] := timers[t].(active := true);
      timers[t] := timers[t].(expiry := now + delay);
      timers[t] := timers[t].(seqno := nextSeq);
      nextSeq := nextSeq + 1;
    }

    method Stop(t: nat)
      requires t < timers.Length
      modifies timers
      ensures Value() == Stopped(old(Value()), t)
    {
      timers[t] := timers[t].(active := false);
    }

    /** Scans every slot for the one that must fire next. */
    method NextExpired(end: nat) returns (r: Option<nat>)
      ensures r.Some? ==> IsNext(Value(), end, r.value)
      ensures r.None? ==> forall j: nat :: !Due(Value(), end, j)
      ensures r == Next(Value(), end)
    {
      r := None;
      var i := 0;
      while i < timers.Length
        invariant 0 <= i <= timers.Length
        invariant r.None? ==> forall j: nat :: j < i ==> !Due(Value(), end, j)
        invariant r.Some? ==> r.value < i && Due(Value(), end, r.value)
        invariant r.Some? ==> forall j: nat :: j < i && Due(Value(), end, j) ==> SlotBefore(Value(), r.value, j)
      {
        var cur := timers[i];
        if cur.used && cur.active && cur.expiry <= end {
          if r.None? || cur.expiry < timers[r.value].expiry
             || (cur.expiry == timers[r.value].expiry && cur.seqno < timers[r.value].seqno)
          {
            r := Some(i);
          }
        }
        i := i + 1;
      }
      if r.Some? {
        NextIsUnique(Value(), end, r.value);
      }
    }

    method Dispatch(client: Client, op: Op, ghost fuel: nat) returns (result: int)
      requires client as object != timers
      requires Perform(fuel, client.code, Snapshot(client), op).Some?
      modifies this, timers, client
      ensures Perform(fuel, client.code, old(Snapshot(client)), op) == Some((Snapshot(client), result))
      decreases fuel, 4
    {
      ghost var asked := now;
      match op {
        case Install(cb, arg) => result := Install(cb, arg);
        case Uninstall(t) => Uninstall(t); result := 0;
        case Start(t, delay) => result := Start(t, delay);
        case Restart(t, delay) => Restart(t, delay); result := 0;
        case Stop(t) => Stop(t); result := 0;
        case IsActive(t) => result := if timers[t].active then 1 else 0;
        case Fire(t) =>
          result := Expire(client, t, fuel);
          return;
        case Now => result := now;
      }
      client.notes := client.notes + [Made(op, result, asked)];
    }

    /** Fires `t` on request. */
    method Expire(client: Client, t: nat, ghost fuel: nat) returns (result: int)
      requires client as object != timers
      requires Perform(fuel, client.code, Snapshot(client), Op.Fire(t)).Some?
      modifies this, timers, client
      ensures Perform(fuel, client.code, old(Snapshot(client)), Op.Fire(t)) == Some((Snapshot(client), result))
      decreases fuel, 3
    {
      if !timers[t].active {
        client.notes := client.notes + [Made(Op.Fire(t), -EINVAL, now)];
        return -EINVAL;
      }
      client.notes := client.notes + [Made(Op.Fire(t), 0, now)];
      FireTimer(client, t, fuel);
      result := 0;
    }

    /** Clears the slot, then runs its callback to its return. */
    method FireTimer(client: Client, t: nat, ghost fuel: nat)
      requires client as object != timers
      requires t < timers.Length && FireSlot(fuel, client.code, Snapshot(client), t).Some?
      modifies this, timers, client
      ensures FireSlot(fuel, client.code, old(Snapshot(client)), t) == Some(Snapshot(client))
      decreases fuel, 2
    {
      ghost var start := Snapshot(client);
      timers[t] := timers[t].(active := false);
      assert Snapshot(client) == start.(ctx := Stopped(start.ctx, t));
      var ev := Called(t, timers[t].cb, timers[t].arg);
      ghost var f: nat := fuel;
      ghost var goal := FireSlot(fuel, client.code, start, t);
      while true
        invariant f <= fuel && Run(f, client.code, Snapshot(client), ev) == goal
        decreases f
      {
        var (m, mv) := client.code(ev, client.mem);
        client.notes := client.notes + [Told(ev, now)];
        client.mem := m;
        match mv
        case Return => return;
        case Call(op) =>
          var result := Dispatch(client, op, f - 1);
          ev := Returned(result);
          f := f - 1;
      }
    }

    /** Moves the clock by `us`, firing what expires on the way. `fuel` stands
        for the proof that the run ends, which is the caller's to give. */
    method Advance(client: Client, us: nat, ghost fuel: nat) returns (count: nat, ghost log: seq<Fired>)
      requires client as object != timers
      requires AdvanceTo(fuel, client.code, Snapshot(client), now + us).Some?
      modifies this, timers, client
      ensures AdvanceTo(fuel, client.code, old(Snapshot(client)), old(now) + us) == Some((Snapshot(client), log))
      ensures count == |log|
      ensures Advances(client.code, old(Snapshot(client)), us, Snapshot(client), log)
    {
      var end := now + us;
      ghost var (final, all) := AdvanceTo(fuel, client.code, Snapshot(client), end).value;
      ghost var f: nat := fuel;
      count, log := 0, [];
      assert log + all == all;
      while true
        invariant f <= fuel && count == |log|
        invariant AdvanceTo(f, client.code, Snapshot(client), end).Some?
        invariant final == AdvanceTo(f, client.code, Snapshot(client), end).value.0
        invariant all == log + AdvanceTo(f, client.code, Snapshot(client), end).value.1
        decreases f
      {
        var t := NextExpired(end);
        if t.None? {
          break;
        }
        ghost var before := Snapshot(client);
        now := timers[t.value].expiry;
        assert Snapshot(client) == At(before, before.ctx.timers[t.value].expiry);
        FireTimer(client, t.value, f - 1);
        count := count + 1;
        ghost var rest := AdvanceTo(f - 1, client.code, Snapshot(client), end).value.1;
        assert log + ([FiredAt(before.ctx, t.value)] + rest) == (log + [FiredAt(before.ctx, t.value)]) + rest;
        log := log + [FiredAt(before.ctx, t.value)];
        f := f - 1;
      }
      assert log + [] == log;
      now := end;
      assert Reaches(fuel, client.code, old(Snapshot(client)), us, Snapshot(client), log);
    }

    /** Fires `t` without moving the clock, or reports that it is not active. */
    method Fire(client: Client, t: nat, ghost fuel: nat) returns (status: int)
      requires client as object != timers
      requires t < timers.Length && Perform(fuel, client.code, Snapshot(client), Op.Fire(t)).Some?
      modifies this, timers, client
      ensures Perform(fuel, client.code, old(Snapshot(client)), Op.Fire(t)) == Some((Snapshot(client), status))
      ensures now == old(now)
    {
      ghost var start := Snapshot(client);
      status := Dispatch(client, Op.Fire(t), fuel);
      assert MinDelay(client.code, 0);
      PerformLater(fuel, client.code, start, Op.Fire(t), 0);
    }
  }
}
