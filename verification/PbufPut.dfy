// Putting bytes into a buffer (pbuf/buf.c): the input is dealt out over the tail
// rooms of the fragments, in place.
module PbufPut {

  import opened PbufLinks
  import opened PbufChains
  import opened PbufBasic
  import opened PbufWindows
  import opened PbufBuf
  import opened PbufView
  import opened PbufCopy

  // ----- What the bytes become -----

  /** The contents of fragments showing `shows` with tail rooms `tails` once `data`
      is dealt out: each takes what fits of what the ones before it left. */
  function Dealt(shows: seq<seq<Byte>>, tails: seq<nat>, data: seq<Byte>): (r: seq<seq<Byte>>)
    requires |shows| == |tails|
    ensures |r| == |shows|
  {
    if shows == [] then []
    else
      var len := Min(tails[0], |data|);
      [shows[0] + data[..len]] + Dealt(shows[1..], tails[1..], data[len..])
  }

  function Sum(tails: seq<nat>): nat {
    if tails == [] then 0 else tails[0] + Sum(tails[1..])
  }

  /** What each fragment gained, in order. */
  function Gains(before: seq<seq<Byte>>, after: seq<seq<Byte>>): seq<Byte>
    requires |before| == |after|
  {
    if before == [] || |before[0]| > |after[0]| then []
    else after[0][|before[0]|..] + Gains(before[1..], after[1..])
  }

  /** Main result: putting conserves bytes. What the fragments gain is the input as
      far as their tail rooms reach, nothing lost, repeated or reordered. */
  lemma {:induction false} DealtConserves(shows: seq<seq<Byte>>, tails: seq<nat>, data: seq<Byte>)
    requires |shows| == |tails|
    ensures Gains(shows, Dealt(shows, tails, data)) == data[..Min(|data|, Sum(tails))]
  {
    if shows != [] {
      var len := Min(tails[0], |data|);
      var (rest, sum) := (data[len..], Sum(tails[1..]));
      DealtConserves(shows[1..], tails[1..], rest);
      assert Dealt(shows, tails, data)[1..] == Dealt(shows[1..], tails[1..], rest);
      assert (shows[0] + data[..len])[|shows[0]|..] == data[..len];
      TakenTwice(data, len, sum);
    }
  }

  lemma TakenTwice(data: seq<Byte>, len: nat, sum: nat)
    requires len <= |data|
    ensures data[..len] + data[len..][..Min(|data| - len, sum)] == data[..Min(|data|, len + sum)]
  {
  }

  /** Each fragment keeps what it showed, and takes no more than its tail room. */
  lemma {:induction false} DealtKeeps(shows: seq<seq<Byte>>, tails: seq<nat>, data: seq<Byte>, i: nat)
    requires |shows| == |tails| && i < |shows|
    ensures shows[i] <= Dealt(shows, tails, data)[i] && |Dealt(shows, tails, data)[i]| <= |shows[i]| + tails[i]
  {
    if i > 0 {
      DealtKeeps(shows[1..], tails[1..], data[Min(tails[0], |data|)..], i - 1);
    }
  }

  /** A fragment gets nothing until those before it are full. */
  lemma {:induction false} DealtInOrder(shows: seq<seq<Byte>>, tails: seq<nat>, data: seq<Byte>, i: nat, j: nat)
    requires |shows| == |tails| && i < j < |shows|
    ensures Dealt(shows, tails, data)[j] != shows[j] ==> |Dealt(shows, tails, data)[i]| == |shows[i]| + tails[i]
  {
    var len := Min(tails[0], |data|);
    if i == 0 {
      if len < tails[0] {
        DealtNothing(shows[1..], tails[1..], data[len..]);
      }
    } else {
      DealtInOrder(shows[1..], tails[1..], data[len..], i - 1, j - 1);
    }
  }

  lemma {:induction false} DealtNothing(shows: seq<seq<Byte>>, tails: seq<nat>, data: seq<Byte>)
    requires |shows| == |tails| && data == []
    ensures Dealt(shows, tails, data) == shows
  {
    if shows != [] {
      DealtNothing(shows[1..], tails[1..], []);
      assert data[..0] == data[0..] == [] && shows[0] + [] == shows[0];
    }
  }

  // ----- The fragments' rooms -----

  ghost function RoomOf(f: Frag): Window
    reads f
  {
    Window(f.store, f.base, f.cap)
  }

  ghost function ShownBy(f: Frag): seq<Byte>
    requires f.Fits()
    reads f, f.store
  {
    f.store[f.data..f.data + f.size]
  }

  /** Two stretches of memory have no byte in common. */
  ghost predicate Overlapless(a: Window, b: Window) {
    a.store != b.store || a.len == 0 || b.len == 0 || a.off + a.len <= b.off || b.off + b.len <= a.off
  }

  ghost predicate RoomsApart(rooms: seq<Window>) {
    forall i, j :: 0 <= i < |rooms| && 0 <= j < |rooms| && i != j ==> Overlapless(rooms[i], rooms[j])
  }

  ghost predicate ApartFrom(rooms: seq<Window>, w: Window) {
    forall i :: 0 <= i < |rooms| ==> Overlapless(rooms[i], w)
  }

  /** The `i`th fragment has room `room`, shows `shown` and has `tail` bytes left. */
  ghost predicate Has(f: Frag, room: Window, shown: seq<Byte>, tail: nat)
    reads f, f.store
  {
    f.Fits() && RoomOf(f) == room && ShownBy(f) == shown && f.Tailroom() == tail
  }

  ghost predicate AllHave(fs: seq<Frag>, rooms: seq<Window>, shows: seq<seq<Byte>>, tails: seq<nat>)
    reads Elements(fs), Stores(rooms)
  {
    && |fs| == |rooms| == |shows| == |tails|
    && forall i {:trigger fs[i]} :: 0 <= i < |fs| ==>
         fs[i] in Elements(fs) && fs[i].store == rooms[i].store && fs[i].store in Stores(rooms)
         && Has(fs[i], rooms[i], shows[i], tails[i])
  }

  ghost predicate Holding(w: Window, bytes: seq<Byte>)
    reads w.store
  {
    w.off + w.len <= w.store.Length && w.store[w.off..w.off + w.len] == bytes
  }

  /** `store` is as it was, `was`, except perhaps inside `room`. */
  ghost predicate OnlyRoomWritten(store: array<Byte>, was: seq<Byte>, room: Window)
    reads store
  {
    && |was| == store.Length
    && forall i :: 0 <= i < store.Length && !(store == room.store && room.off <= i < room.off + room.len) ==>
          store[i] == was[i]
  }

  /** A write inside a room leaves a stretch of memory apart from it as it was. */
  lemma ApartKept(w: Window, bytes: seq<Byte>, room: Window, was: seq<Byte>)
    requires OnlyRoomWritten(w.store, was, room) && Overlapless(room, w)
    requires w.off + w.len <= |was| && was[w.off..w.off + w.len] == bytes
    ensures Holding(w, bytes)
  {
  }

  /** Bytes written at the end of a window. */
  lemma WrittenBehind(was: seq<Byte>, now: seq<Byte>, data: nat, end: nat, len: nat, end': nat, piece: seq<Byte>)
    requires data <= end && end' == end + len <= |was| && |piece| == len
    requires now == was[..end] + piece + was[end'..]
    ensures now[data..end'] == was[data..end] + piece
    ensures forall i :: 0 <= i < |now| && !(end <= i < end') ==> now[i] == was[i]
  {
  }

  /** Reserves `len` bytes of tail room of one fragment and copies them in. */
  method PutIn(pool: Pool, f: Frag, data: array<Byte>, from: nat, len: nat, ghost piece: seq<Byte>,
          ghost shown: seq<Byte>, ghost tail: nat, ghost end: nat)
    requires pool.Valid() && pool.Live(f) && Has(f, RoomOf(f), shown, tail) && len <= tail && end == f.data + f.size
    requires Holding(Window(data, from, len), piece) && Overlapless(RoomOf(f), Window(data, from, len))
    modifies f`size, f.store
    ensures pool.Valid() && Has(f, old(RoomOf(f)), shown + piece, tail - len)
    ensures OnlyRoomWritten(f.store, old(f.store[..]), Window(f.store, end, len))
  {
    ghost var (was, end') := (f.store[..], end + len);
    assert was[f.data..end] == shown;
    var mem := f.ReserveTail(len);
    MemCpy(f.store, mem, data, from, len);
    WrittenBehind(was, f.store[..], f.data, end, len, end', piece);
    assert ShownBy(f) == f.store[..][f.data..end'];
  }

  lemma PartApart(a: Window, b: Window, part: Window)
    requires Overlapless(a, b) && part.store == b.store && b.off <= part.off && part.off + part.len <= b.off + b.len
    ensures Overlapless(a, part)
  {
  }

  ghost predicate OnlyAt(fs: seq<Frag>, k: nat)
    requires k < |fs|
  {
    forall i :: 0 <= i < |fs| && i != k ==> fs[i] != fs[k]
  }

  // ----- What is dealt, and how far -----

  /** What is fixed while bytes are put into a buffer: its fragments and their rooms,
      the input and its bytes, what the fragments will show; and, to begin with, the
      memory behind the rooms and the windows on it. */
  datatype Deal = Deal(fs: seq<Frag>, rooms: seq<Window>, input: Window, bytes: seq<Byte>, want: seq<seq<Byte>>,
    was: Memory, before: seq<Window>)

  /** How far it has come: the fragment whose turn it is, what the fragments show, the
      tail rooms left, how much of the input is dealt, and the rest of it. */
  datatype Dealing = Dealing(k: nat, shows: seq<seq<Byte>>, tails: seq<nat>, done: nat, rest: seq<Byte>)

  /** The byte lies in what one of the windows gained at its end. */
  predicate InGained(before: seq<Window>, after: seq<Window>, a: array<Byte>, x: nat)
    requires |before| == |after|
  {
    exists i {:trigger before[i]} :: 0 <= i < |before| && before[i].store == a
      && before[i].off + before[i].len <= x < after[i].off + after[i].len
  }

  /** Memory is as it was, except in what the windows gained. */
  ghost predicate OnlyGained(now: Memory, was: Memory, before: seq<Window>, after: seq<Window>)
    requires |before| == |after|
  {
    && now.Keys == was.Keys
    && forall a {:trigger now[a]} :: a in was ==>
         |now[a]| == |was[a]|
         && forall x: nat {:trigger now[a][x]} :: x < |now[a]| && !InGained(before, after, a, x) ==>
              now[a][x] == was[a][x]
  }

  /** Windows that have only grown at their ends. */
  predicate Grown(before: seq<Window>, after: seq<Window>) {
    && |before| == |after|
    && forall i {:trigger before[i]} {:trigger after[i]} :: 0 <= i < |before| ==>
         after[i] == before[i].(len := after[i].len) && before[i].len <= after[i].len
  }

  ghost predicate InPart(part: Window, a: array<Byte>, x: nat) {
    a == part.store && part.off <= x < part.off + part.len
  }

  /** Memory changed inside `part` only. */
  ghost predicate WroteAt(now: Memory, was: Memory, part: Window) {
    && now.Keys == was.Keys
    && forall a {:trigger now[a]} :: a in was ==>
         |now[a]| == |was[a]|
         && forall x: nat {:trigger now[a][x]} :: x < |now[a]| && !InPart(part, a, x) ==> now[a][x] == was[a][x]
  }

  lemma StillGained(before: seq<Window>, ws: seq<Window>, ws': seq<Window>, a: array<Byte>, x: nat)
    requires |before| == |ws| && Grown(ws, ws')
    ensures InGained(before, ws, a, x) ==> InGained(before, ws', a, x)
  {
  }

  lemma PartIsGained(before: seq<Window>, ws: seq<Window>, ws': seq<Window>, k: nat, part: Window, x: nat)
    requires Grown(before, ws) && k < |ws| == |ws'| && ws'[k] == ws[k].(len := ws[k].len + part.len)
    requires part.store == ws[k].store && part.off == ws[k].off + ws[k].len
    ensures part.off <= x < part.off + part.len ==> InGained(before, ws', part.store, x)
  {
    assert before[k].store == part.store;
  }

  /** One more write, at the end of one of the windows. */
  lemma GainedMore(now: Memory, mid: Memory, was: Memory, before: seq<Window>, ws: seq<Window>, ws': seq<Window>,
          k: nat, part: Window)
    requires Grown(before, ws) && OnlyGained(mid, was, before, ws) && WroteAt(now, mid, part)
    requires k < |ws| && ws' == ws[k := ws[k].(len := ws[k].len + part.len)]
    requires part.store == ws[k].store && part.off == ws[k].off + ws[k].len
    ensures Grown(before, ws') && OnlyGained(now, was, before, ws')
  {
    forall a | a in was
      ensures |now[a]| == |was[a]|
      ensures forall x: nat {:trigger now[a][x]} :: x < |now[a]| && !InGained(before, ws', a, x) ==>
                now[a][x] == was[a][x]
    {
      forall x: nat | x < |now[a]| && !InGained(before, ws', a, x) ensures now[a][x] == was[a][x] {
        StillGained(before, ws, ws', a, x);
        PartIsGained(before, ws, ws', k, part, x);
        assert mid[a][x] == was[a][x];
      }
    }
  }

  /** Main result: a stretch of memory in which nothing was gained shows what it did,
      be it the fragment's own old bytes, headroom, tail room left, or part of another
      buffer's fragment in the same block. */
  lemma UngainedShows(now: Memory, was: Memory, before: seq<Window>, after: seq<Window>, w: Window)
    requires |before| == |after| && OnlyGained(now, was, before, after) && Maps(was, w)
    requires forall x: nat {:trigger InGained(before, after, w.store, x)} :: w.off <= x < w.off + w.len ==>
               !InGained(before, after, w.store, x)
    ensures Maps(now, w) && Shown(now, w) == Shown(was, w)
  {
    var (a, b) := (now[w.store], was[w.store]);
    forall x: nat | w.off <= x < w.off + w.len ensures a[x] == b[x] {
      assert !InGained(before, after, w.store, x);
      assert now[w.store][x] == was[w.store][x];
    }
  }

  /** Where things stand: the fragments have what they are to have by now, the input is
      as it was, and no other byte has changed. */
  ghost predicate Standing(d: Deal, g: Dealing)
    reads Elements(d.fs), Stores(d.rooms), d.input.store
  {
    && AllHave(d.fs, d.rooms, g.shows, g.tails) && Holding(d.input, d.bytes)
    && Grown(d.before, Windows(d.fs)) && OnlyGained(MemoryOf(d.rooms), d.was, d.before, Windows(d.fs))
  }

  lemma MemoryAfter(rooms: seq<Window>, was: Memory, part: Window)
    requires was.Keys == Stores(rooms) && part.store in was
    requires OnlyRoomWritten(part.store, was[part.store], part)
    requires forall a {:trigger was[a]} :: a in was && a != part.store ==> a[..] == was[a]
    ensures WroteAt(MemoryOf(rooms), was, part)
  {
    var now := MemoryOf(rooms);
    forall a | a in was ensures |now[a]| == |was[a]| {
      assert a == part.store || a[..] == was[a];
    }
  }

  /** Puts bytes into one fragment; the input stays as it is, and memory elsewhere. */
  method PutBeside(pool: Pool, f: Frag, data: array<Byte>, from: nat, len: nat, ghost d: Deal, ghost mid: Memory,
          ghost piece: seq<Byte>, ghost shown: seq<Byte>, ghost tail: nat, ghost end: nat)
    requires pool.Valid() && pool.Live(f) && Has(f, RoomOf(f), shown, tail) && len <= tail && end == f.data + f.size
    requires Holding(Window(data, from, len), piece) && Overlapless(RoomOf(f), Window(data, from, len))
    requires Holding(d.input, d.bytes) && Overlapless(RoomOf(f), d.input)
    requires mid == MemoryOf(d.rooms) && f.store in mid
    modifies f`size, f.store
    ensures pool.Valid() && Has(f, old(RoomOf(f)), shown + piece, tail - len) && Holding(d.input, d.bytes)
    ensures WroteAt(MemoryOf(d.rooms), mid, Window(f.store, end, len))
  {
    ghost var (input, part) := (d.input, Window(f.store, end, len));
    PutIn(pool, f, data, from, len, piece, shown, tail, end);
    PartApart(input, RoomOf(f), part);
    ApartKept(input, d.bytes, part, old(input.store[..]));
    forall a | a in mid && a != part.store ensures a[..] == mid[a] {
      assert old(a[..]) == mid[a];
    }
    MemoryAfter(d.rooms, mid, part);
  }

  /** The fragment whose turn it is takes `piece`. */
  ghost predicate Takes(g: Dealing, piece: seq<Byte>, h: Dealing) {
    && g.k < |g.shows| == |g.tails| && |piece| <= g.tails[g.k]
    && h.shows == g.shows[g.k := g.shows[g.k] + piece] && h.tails == g.tails[g.k := g.tails[g.k] - |piece|]
  }

  /** The fragment's own fields, its memory aside. */
  ghost predicate Still(f: Frag, room: Window, tail: nat, w: Window)
    reads f
  {
    f.Fits() && RoomOf(f) == room && f.Tailroom() == tail && WindowOf(f) == w
  }

  lemma HadStill(d: Deal, g: Dealing, ws: seq<Window>, mid: Memory)
    requires AllHave(d.fs, d.rooms, g.shows, g.tails) && ws == Windows(d.fs) && mid == MemoryOf(d.rooms)
    ensures forall i {:trigger ws[i]} :: 0 <= i < |d.fs| ==>
              Still(d.fs[i], d.rooms[i], g.tails[i], ws[i]) && Maps(mid, ws[i]) && Shown(mid, ws[i]) == g.shows[i]
  {
    forall i | 0 <= i < |d.fs| ensures Still(d.fs[i], d.rooms[i], g.tails[i], ws[i]) && Maps(mid, ws[i]) {
      assert Has(d.fs[i], d.rooms[i], g.shows[i], g.tails[i]);
    }
  }

  /** A fragment keeps what it has when memory changes outside its room. */
  lemma StillHas(d: Deal, i: nat, shown: seq<Byte>, tail: nat, w: Window, mid: Memory, part: Window)
    requires i < |d.fs| == |d.rooms| && Still(d.fs[i], d.rooms[i], tail, w)
    requires Maps(mid, w) && Shown(mid, w) == shown && WroteAt(MemoryOf(d.rooms), mid, part)
    requires Overlapless(d.rooms[i], part)
    ensures d.fs[i].store in Stores(d.rooms) && Has(d.fs[i], d.rooms[i], shown, tail)
  {
    var (now, a) := (MemoryOf(d.rooms), w.store);
    assert d.rooms[i].store in Stores(d.rooms);
    forall x | w.off <= x < w.off + w.len ensures a[x] == mid[a][x] {
      assert a[x] == now[a][x];
    }
    assert a[w.off..w.off + w.len] == mid[a][w.off..w.off + w.len];
  }

  /** Puts the next bytes of the input into the fragment whose turn it is. */
  method PutAt(pool: Pool, f: Frag, data: array<Byte>, from: nat, len: nat, ghost d: Deal, ghost g: Dealing,
          ghost h: Dealing, ghost mid: Memory, ghost piece: seq<Byte>, ghost end: nat)
    requires pool.Valid() && pool.Live(f) && AllHave(d.fs, d.rooms, g.shows, g.tails) && Holding(d.input, d.bytes)
    requires g.k < |d.fs| && f == d.fs[g.k] && OnlyAt(d.fs, g.k) && end == f.data + f.size
    requires Takes(g, piece, h) && len == |piece|
    requires RoomsApart(d.rooms) && ApartFrom(d.rooms, d.input) && mid == MemoryOf(d.rooms)
    requires Holding(Window(data, from, len), piece) && Overlapless(d.rooms[g.k], Window(data, from, len))
    modifies f`size, f.store
    ensures pool.Valid() && AllHave(d.fs, d.rooms, h.shows, h.tails) && Holding(d.input, d.bytes)
    ensures WroteAt(MemoryOf(d.rooms), mid, Window(f.store, end, len))
  {
    ghost var (k, fs, rooms, ws) := (g.k, d.fs, d.rooms, Windows(d.fs));
    ghost var part := Window(f.store, end, len);
    HadStill(d, g, ws, mid);
    PutBeside(pool, f, data, from, len, d, mid, piece, g.shows[k], g.tails[k], end);
    forall i | 0 <= i < |fs| && i != k
      ensures fs[i].store in Stores(rooms) && Has(fs[i], rooms[i], h.shows[i], h.tails[i])
    {
      assert old(Still(fs[i], rooms[i], g.tails[i], ws[i]));
      PartApart(rooms[i], rooms[k], part);
      StillHas(d, i, g.shows[i], g.tails[i], ws[i], mid, part);
    }
  }

  /** The window of a fragment that has `room`, shows `shown` and has `tail` bytes left. */
  ghost predicate IsWindow(w: Window, room: Window, shown: seq<Byte>, tail: nat) {
    w.store == room.store && w.off + w.len + tail == room.off + room.len && w.len == |shown|
  }

  ghost predicate AreWindows(ws: seq<Window>, d: Deal, g: Dealing) {
    && |ws| == |d.rooms| == |g.shows| == |g.tails|
    && forall i {:trigger ws[i]} :: 0 <= i < |ws| ==> IsWindow(ws[i], d.rooms[i], g.shows[i], g.tails[i])
  }

  lemma WindowsAre(d: Deal, g: Dealing)
    requires AllHave(d.fs, d.rooms, g.shows, g.tails)
    ensures AreWindows(Windows(d.fs), d, g)
  {
    forall i | 0 <= i < |d.fs| ensures IsWindow(WindowOf(d.fs[i]), d.rooms[i], g.shows[i], g.tails[i]) {
      assert Has(d.fs[i], d.rooms[i], g.shows[i], g.tails[i]);
    }
  }

  /** What the windows have gained by another piece. */
  lemma PieceGained(d: Deal, g: Dealing, h: Dealing, piece: seq<Byte>, ws: seq<Window>, ws': seq<Window>, now: Memory,
          mid: Memory, part: Window)
    requires Takes(g, piece, h) && AreWindows(ws, d, g) && AreWindows(ws', d, h)
    requires Grown(d.before, ws) && OnlyGained(mid, d.was, d.before, ws) && WroteAt(now, mid, part)
    requires part == Window(ws[g.k].store, ws[g.k].off + ws[g.k].len, |piece|)
    ensures Grown(d.before, ws') && OnlyGained(now, d.was, d.before, ws')
  {
    forall i | 0 <= i < |ws| ensures ws'[i] == ws[g.k := ws[g.k].(len := ws[g.k].len + |piece|)][i] {
      assert IsWindow(ws[i], d.rooms[i], g.shows[i], g.tails[i]);
      assert IsWindow(ws'[i], d.rooms[i], h.shows[i], h.tails[i]);
    }
    GainedMore(now, mid, d.was, d.before, ws, ws', g.k, part);
  }

  /** The same, told by what the windows have gained. */
  method PutMore(pool: Pool, f: Frag, data: array<Byte>, from: nat, len: nat, ghost d: Deal, ghost g: Dealing,
          ghost h: Dealing, ghost piece: seq<Byte>)
    requires pool.Valid() && pool.Live(f) && Standing(d, g)
    requires g.k < |d.fs| && f == d.fs[g.k] && OnlyAt(d.fs, g.k) && Takes(g, piece, h) && len == |piece|
    requires RoomsApart(d.rooms) && ApartFrom(d.rooms, d.input)
    requires Holding(Window(data, from, len), piece) && Overlapless(d.rooms[g.k], Window(data, from, len))
    modifies f`size, f.store
    ensures pool.Valid() && Standing(d, h)
  {
    ghost var (ws, mid, end) := (Windows(d.fs), MemoryOf(d.rooms), f.data + f.size);
    ghost var part := Window(f.store, end, len);
    WindowsAre(d, g);
    assert ws[g.k] == WindowOf(f);
    PutAt(pool, f, data, from, len, d, g, h, mid, piece, end);
    WindowsAre(d, h);
    PieceGained(d, g, h, piece, ws, Windows(d.fs), MemoryOf(d.rooms), mid, part);
  }

  // ----- The loop -----

  /** `want` is what the fragments will show once `rest` is dealt out from the `k`th on. */
  ghost predicate StillToDeal(g: Dealing, want: seq<seq<Byte>>) {
    g.k <= |g.shows| == |g.tails| && want == g.shows[..g.k] + Dealt(g.shows[g.k..], g.tails[g.k..], g.rest)
  }

  /** The input still to be dealt out begins at `from`, `done` bytes in. */
  ghost predicate InputLeft(d: Deal, g: Dealing, from: nat, size: nat) {
    from == d.input.off + g.done && g.done + size == d.input.len == |d.bytes| && g.rest == d.bytes[g.done..]
  }

  /** After the fragment whose turn it is took `len` bytes. */
  ghost function Taken(g: Dealing, len: nat): Dealing
    requires g.k < |g.shows| == |g.tails| && len <= |g.rest| && len <= g.tails[g.k]
  {
    Dealing(g.k + 1, g.shows[g.k := g.shows[g.k] + g.rest[..len]], g.tails[g.k := g.tails[g.k] - len], g.done + len,
            g.rest[len..])
  }

  lemma DealNext(g: Dealing, want: seq<seq<Byte>>, len: nat)
    requires StillToDeal(g, want) && g.k < |g.shows| && len == Min(g.tails[g.k], |g.rest|)
    ensures StillToDeal(Taken(g, len), want)
  {
    var (k, h) := (g.k, Taken(g, len));
    assert g.shows[k..][1..] == h.shows[h.k..] && g.tails[k..][1..] == h.tails[h.k..];
    assert h.shows[..h.k] == g.shows[..k] + [g.shows[k] + g.rest[..len]];
  }

  lemma DealDone(g: Dealing, want: seq<seq<Byte>>)
    requires StillToDeal(g, want) && (g.k == |g.shows| || g.rest == [])
    ensures want == g.shows
  {
    if g.rest == [] {
      DealtNothing(g.shows[g.k..], g.tails[g.k..], g.rest);
    }
    assert g.shows == g.shows[..g.k] + g.shows[g.k..];
  }

  lemma InputPart(d: Deal, g: Dealing, from: nat, size: nat, len: nat)
    requires ApartFrom(d.rooms, d.input) && Holding(d.input, d.bytes) && g.k < |d.rooms|
    requires InputLeft(d, g, from, size) && len <= size
    ensures len <= |g.rest| == size && Holding(Window(d.input.store, from, len), g.rest[..len])
    ensures Overlapless(d.rooms[g.k], Window(d.input.store, from, len))
  {
    var (w, end) := (d.input, g.done + len);
    assert g.rest[..len] == d.bytes[g.done..end];
    SliceOfSlice(w.store[..], w.off, w.off + w.len, g.done, end);
    assert w.store[..][w.off..w.off + w.len] == d.bytes && w.store[from..from + len] == w.store[..][from..from + len];
  }

  lemma InputTaken(d: Deal, g: Dealing, from: nat, size: nat, len: nat, from': nat, size': nat)
    requires InputLeft(d, g, from, size) && len <= size && from' == from + len && size' == size - len
    requires g.k < |g.shows| == |g.tails| && len <= |g.rest| && len <= g.tails[g.k]
    ensures InputLeft(d, Taken(g, len), from', size')
  {
  }

  lemma InputSize(d: Deal, g: Dealing, from: nat, size: nat)
    requires InputLeft(d, g, from, size)
    ensures |g.rest| == size
  {
  }

  /** One turn of the loop. */
  method PutStep(pool: Pool, it: Ci, data: array<Byte>, from: nat, size: nat, ghost d: Deal, ghost g: Dealing)
    returns (from': nat, size': nat, ghost g': Dealing)
    requires pool.Valid() && g.k < |d.fs| && it.cur == d.fs[g.k] && OnlyAt(d.fs, g.k) && Linked(d.fs)
    requires pool.Live(it.cur) && Standing(d, g) && d.input.store == data
    requires RoomsApart(d.rooms) && ApartFrom(d.rooms, d.input)
    requires InputLeft(d, g, from, size) && StillToDeal(g, d.want)
    modifies it.cur`size, it.cur.store
    ensures pool.Valid() && Standing(d, g') && Linked(d.fs) && g'.k == g.k + 1
    ensures InputLeft(d, g', from', size') && StillToDeal(g', d.want)
  {
    ghost var k := g.k;
    assert Has(d.fs[k], d.rooms[k], g.shows[k], g.tails[k]);
    var len := Min(it.cur.Tailroom(), size);
    from', size' := from + len, size - len;
    InputPart(d, g, from, size, len);
    DealNext(g, d.want, len);
    InputTaken(d, g, from, size, len, from', size');
    g' := Taken(g, len);
    ghost var piece := g.rest[..len];
    PutMore(pool, it.cur, data, from, len, d, g, g', piece);
    assert Linked(d.fs);
  }

  ghost predicate AllLive(pool: Pool, fs: seq<Frag>)
    reads pool
  {
    forall i {:trigger fs[i]} :: 0 <= i < |fs| ==> pool.Live(fs[i])
  }

  /** No fragment is in the chain twice. */
  ghost predicate EachOnce(fs: seq<Frag>) {
    forall k {:trigger OnlyAt(fs, k)} :: 0 <= k < |fs| ==> OnlyAt(fs, k)
  }

  /** The chain stays as it is while bytes are put into it. */
  ghost predicate Steadfast(pool: Pool, d: Deal)
    reads pool, pool.book.nx.Keys, Elements(d.fs)
  {
    && pool.Valid() && AllLive(pool, d.fs) && Linked(d.fs) && EachOnce(d.fs)
    && RoomsApart(d.rooms) && ApartFrom(d.rooms, d.input)
  }

  method PutTurn(pool: Pool, it: Ci, data: array<Byte>, from: nat, size: nat, ghost d: Deal, ghost g: Dealing)
    returns (next: Ci, from': nat, size': nat, ghost g': Dealing)
    requires Steadfast(pool, d) && Standing(d, g) && d.input.store == data
    requires it.cur != null && it.cur == Nth(d.fs, g.k, null)
    requires InputLeft(d, g, from, size) && StillToDeal(g, d.want)
    modifies Elements(d.fs)`size, Stores(d.rooms)
    ensures Steadfast(pool, d) && Standing(d, g')
    ensures g.k < g'.k <= |d.fs| && next.cur == Nth(d.fs, g'.k, null)
    ensures InputLeft(d, g', from', size') && StillToDeal(g', d.want)
  {
    assert OnlyAt(d.fs, g.k) && pool.Live(d.fs[g.k]);
    assert it.cur in Elements(d.fs) && it.cur.store in Stores(d.rooms);
    from', size', g' := PutStep(pool, it, data, from, size, d, g);
    next := Advanced(it);
  }

  method PutLoop(pool: Pool, start: Ci, data: array<Byte>, at: nat, total: nat, ghost d: Deal, ghost first: Dealing)
    returns (ghost g: Dealing)
    requires Steadfast(pool, d) && Standing(d, first) && d.input.store == data && first.k == 0
    requires start.cur == Nth(d.fs, 0, null)
    requires InputLeft(d, first, at, total) && StillToDeal(first, d.want)
    modifies Elements(d.fs)`size, Stores(d.rooms)
    ensures pool.Valid() && Standing(d, g) && g.shows == d.want
  {
    var (it, from, size) := (start, at, total);
    g := first;
    while size > 0 && it.cur != null
      invariant Steadfast(pool, d) && Standing(d, g)
      invariant g.k <= |d.fs| && it.cur == Nth(d.fs, g.k, null)
      invariant InputLeft(d, g, from, size) && StillToDeal(g, d.want)
      decreases |d.fs| - g.k
    {
      it, from, size, g := PutTurn(pool, it, data, from, size, d, g);
    }
    InputSize(d, g, from, size);
    DealDone(g, d.want);
  }

  // ----- Put -----

  ghost predicate AllFit(fs: seq<Frag>)
    reads Elements(fs)
  {
    forall i {:trigger fs[i]} :: 0 <= i < |fs| ==> fs[i] in Elements(fs) && fs[i].Fits()
  }

  ghost function Rooms(fs: seq<Frag>): (r: seq<Window>)
    reads Elements(fs)
    ensures |r| == |fs|
    ensures forall i {:trigger r[i]} :: 0 <= i < |fs| ==> r[i] == RoomOf(fs[i])
  {
    seq(|fs|, i requires 0 <= i < |fs| reads Elements(fs) => assert fs[i] in Elements(fs); RoomOf(fs[i]))
  }

  /** The tail rooms of the fragments. */
  ghost function Tails(fs: seq<Frag>): (r: seq<nat>)
    requires AllFit(fs)
    reads Elements(fs)
    ensures |r| == |fs|
    ensures forall i {:trigger r[i]} :: 0 <= i < |fs| ==> r[i] == fs[i].Tailroom()
  {
    seq(|fs|, i requires 0 <= i < |fs| && AllFit(fs) reads Elements(fs) => fs[i].Tailroom())
  }

  /** What each fragment shows. */
  ghost function Shows(fs: seq<Frag>): (r: seq<seq<Byte>>)
    requires AllFit(fs)
    reads Elements(fs), Stores(Rooms(fs))
    ensures |r| == |fs|
    ensures forall i {:trigger r[i]} :: 0 <= i < |fs| ==> r[i] == ShownBy(fs[i])
  {
    seq(|fs|, i requires 0 <= i < |fs| && AllFit(fs) reads Elements(fs), Stores(Rooms(fs)) =>
      assert Rooms(fs)[i].store == fs[i].store; ShownBy(fs[i]))
  }

  lemma ChainOnce(nx: Links, a: Frag?, fs: seq<Frag>)
    requires IsChain(nx, a, fs)
    ensures EachOnce(fs)
  {
    forall k, i | 0 <= k < |fs| && 0 <= i < |fs| && i != k ensures fs[i] != fs[k] {
      if i < k {
        ChainIsDistinct(nx, a, fs, i, k);
      } else {
        ChainIsDistinct(nx, a, fs, k, i);
      }
    }
  }

  /** Since memory was `was` and the windows `before`, the windows have grown at their
      ends, and no byte behind the rooms has changed but those gained. */
  ghost predicate OnlyTailsWritten(fs: seq<Frag>, rooms: seq<Window>, was: Memory, before: seq<Window>)
    reads Elements(fs), Stores(rooms)
  {
    Grown(before, Windows(fs)) && OnlyGained(MemoryOf(rooms), was, before, Windows(fs))
  }

  method PutChain(pool: Pool, buf: Pbuf, data: array<Byte>, from: nat, size: nat, ghost d: Deal, ghost first: Dealing)
    requires pool.Valid() && pool.Holds(buf) && buf.chain == d.fs && Standing(d, first)
    requires RoomsApart(d.rooms) && ApartFrom(d.rooms, d.input) && d.input.store == data && first.k == 0
    requires InputLeft(d, first, from, size) && StillToDeal(first, d.want)
    modifies Elements(d.fs)`size, Stores(d.rooms)
    ensures pool.Valid() && pool.Holds(buf) && AllFit(d.fs) && Shows(d.fs) == d.want && Rooms(d.fs) == d.rooms
    ensures OnlyTailsWritten(d.fs, d.rooms, d.was, d.before)
  {
    HeldIsLinked(pool, buf);
    ChainOnce(pool.book.nx, buf.frags, d.fs);
    var it := pool.CiInit(buf);
    ghost var g := PutLoop(pool, it, data, from, size, d, first);
    WhatAllHave(d.fs, d.rooms, d.want, g.tails);
  }

  lemma AllHaveTheirs(fs: seq<Frag>, rooms: seq<Window>, shows: seq<seq<Byte>>, tails: seq<nat>)
    requires AllFit(fs) && rooms == Rooms(fs) && shows == Shows(fs) && tails == Tails(fs)
    ensures AllHave(fs, rooms, shows, tails)
  {
    forall i | 0 <= i < |fs| ensures fs[i].store in Stores(rooms) && Has(fs[i], rooms[i], shows[i], tails[i]) {
      assert rooms[i].store == fs[i].store;
    }
  }

  lemma WhatAllHave(fs: seq<Frag>, rooms: seq<Window>, shows: seq<seq<Byte>>, tails: seq<nat>)
    requires AllHave(fs, rooms, shows, tails)
    ensures AllFit(fs) && Shows(fs) == shows && Rooms(fs) == rooms
  {
  }

  lemma NothingGained(was: Memory, ws: seq<Window>)
    ensures Grown(ws, ws) && OnlyGained(was, was, ws, ws)
  {
  }

  /** What is to be dealt, at the beginning. */
  lemma PutReady(fs: seq<Frag>, data: array<Byte>, from: nat, size: nat) returns (d: Deal, first: Dealing)
    requires AllFit(fs) && from + size <= data.Length
    ensures d.fs == fs && d.rooms == Rooms(fs) && d.input == Window(data, from, size)
    ensures d.was == MemoryOf(d.rooms) && d.before == Windows(fs)
    ensures d.want == Dealt(Shows(fs), Tails(fs), data[from..from + size])
    ensures first.k == 0 && Standing(d, first) && InputLeft(d, first, from, size) && StillToDeal(first, d.want)
  {
    var (shows, tails, bytes) := (Shows(fs), Tails(fs), data[from..from + size]);
    first := Dealing(0, shows, tails, 0, bytes);
    d := Deal(fs, Rooms(fs), Window(data, from, size), bytes, Dealt(shows, tails, bytes), MemoryOf(Rooms(fs)),
              Windows(fs));
    AllHaveTheirs(fs, d.rooms, shows, tails);
    NothingGained(d.was, d.before);
    assert shows[..0] == [] && shows[0..] == shows && tails[0..] == tails && bytes[0..] == bytes;
  }

  /** The fragments of a held buffer always fit their rooms. */
  lemma HeldFits(pool: Pool, buf: Pbuf)
    requires pool.Valid() && pool.Holds(buf)
    ensures AllFit(buf.chain)
  {
    var fs := buf.chain;
    forall i | 0 <= i < |fs| ensures fs[i] in Elements(fs) && fs[i].Fits() {
      assert fs[i] in pool.book.nx;
    }
  }

  /** The input lies in its block, and no room overlaps it or another room. */
  ghost predicate Puttable(fs: seq<Frag>, data: array<Byte>, from: nat, size: nat)
    reads Elements(fs)
  {
    from + size <= data.Length && RoomsApart(Rooms(fs)) && ApartFrom(Rooms(fs), Window(data, from, size))
  }

  /** Main result: putting deals the input out over the fragments in chain order,
      each taking what fits its tail room. The rooms stay, windows grow at their ends
      only, and no byte changes but those gained; UngainedShows draws the conclusion
      for whatever else lies in the same memory. That the fragments fit their rooms
      asks nothing of the caller (HeldFits). */
  method Put(pool: Pool, buf: Pbuf, data: array<Byte>, from: nat, size: nat)
    requires pool.Valid() && pool.Holds(buf) && AllFit(buf.chain) && Puttable(buf.chain, data, from, size)
    modifies Elements(buf.chain)`size, Stores(Rooms(buf.chain))
    ensures pool.Valid() && pool.Holds(buf) && AllFit(buf.chain)
    ensures Shows(buf.chain) == old(Dealt(Shows(buf.chain), Tails(buf.chain), data[from..from + size]))
    ensures Rooms(buf.chain) == old(Rooms(buf.chain))
    ensures OnlyTailsWritten(buf.chain, old(Rooms(buf.chain)), old(MemoryOf(Rooms(buf.chain))), old(Windows(buf.chain)))
  {
    ghost var d, first := PutReady(buf.chain, data, from, size);
    PutChain(pool, buf, data, from, size, d, first);
  }
}
