// Copying bytes out of a buffer, cloning a range and putting bytes into one
// (pbuf/buf.c): memory blocks written in place.
module PbufCopy {

  import opened PbufLinks
  import opened PbufChains
  import opened PbufBasic
  import opened PbufWindows
  import opened PbufBuf
  import opened PbufView

  // ----- Memory blocks -----

  ghost function Stores(ws: seq<Window>): set<array<Byte>> {
    set i | 0 <= i < |ws| :: ws[i].store
  }

  ghost predicate Inside(ws: seq<Window>) {
    forall i :: 0 <= i < |ws| ==> ws[i].off + ws[i].len <= ws[i].store.Length
  }

  /** What the blocks behind the windows hold now. */
  ghost function MemoryOf(ws: seq<Window>): Memory
    reads Stores(ws)
  {
    map a | a in Stores(ws) :: a[..]
  }

  /** The bytes the windows show now. */
  ghost function Content(ws: seq<Window>): seq<Byte>
    requires Inside(ws)
    reads Stores(ws)
  {
    InsideIsInBounds(ws);
    Bytes(MemoryOf(ws), ws)
  }

  lemma InsideIsInBounds(ws: seq<Window>)
    requires Inside(ws)
    ensures InBounds(MemoryOf(ws), ws)
  {
    forall i | 0 <= i < |ws| ensures Maps(MemoryOf(ws), ws[i]) {
      assert ws[i].store in Stores(ws);
    }
  }

  lemma WindowsInside(pool: Pool, buf: Pbuf)
    requires pool.Valid() && pool.Holds(buf)
    ensures Inside(Windows(buf.chain))
  {
    forall i | 0 <= i < |buf.chain| ensures buf.chain[i].Fits() {
    }
  }

  /** The bytes of `mem` from `lo` to `hi` are in no window. */
  ghost predicate Clear(ws: seq<Window>, mem: array<Byte>, lo: nat, hi: nat) {
    forall i :: 0 <= i < |ws| ==>
      ws[i].store != mem || ws[i].len == 0 || ws[i].off + ws[i].len <= lo || hi <= ws[i].off
  }

  /** The windows still show what they showed in memory `m`. */
  ghost predicate Steady(ws: seq<Window>, m: Memory)
    reads Stores(ws)
  {
    Inside(ws) && InBounds(m, ws)
    && forall i {:trigger Shown(m, ws[i])} :: 0 <= i < |ws| ==>
         ws[i].store in Stores(ws) && ws[i].store[ws[i].off..ws[i].off + ws[i].len] == Shown(m, ws[i])
  }

  /** Copies between regions that do not overlap. */
  method MemCpy(dst: array<Byte>, at: nat, src: array<Byte>, from: nat, n: nat)
    requires at + n <= dst.Length && from + n <= src.Length
    requires n == 0 || dst != src || at + n <= from || from + n <= at
    modifies dst
    ensures dst[..] == old(dst[..at]) + old(src[from..from + n]) + old(dst[at + n..])
  {
    forall i | 0 <= i < n {
      dst[at + i] := src[from + i];
    }
  }

  // ----- Copying out -----

  function Prefix(bs: seq<Byte>, n: nat): seq<Byte> {
    bs[..Min(n, |bs|)]
  }

  /** `left` is what is still to be copied from the windows after the first `k`,
      with `room` bytes of room. */
  ghost predicate ToCopy(m: Memory, ws: seq<Window>, k: nat, room: nat, left: seq<Byte>) {
    InBounds(m, ws) && k <= |ws| && left == Prefix(Bytes(m, ws[k..]), room)
  }

  lemma NothingToCopy(m: Memory, ws: seq<Window>, k: nat, room: nat, left: seq<Byte>)
    requires ToCopy(m, ws, k, room, left) && (k == |ws| || room == 0)
    ensures left == []
  {
  }

  lemma CopyNext(m: Memory, ws: seq<Window>, k: nat, k': nat, room: nat, left: seq<Byte>, len: nat, room': nat)
    requires ToCopy(m, ws, k, room, left) && k < |ws| && len == Min(ws[k].len, room) && k' == k + 1
          && room' == room - len
    ensures len <= |left| && left[..len] == Shown(m, ws[k])[..len] && ToCopy(m, ws, k', room', left[len..])
  {
    var (a, b) := (Shown(m, ws[k]), Bytes(m, ws[k'..]));
    assert ws[k..][0] == ws[k] && ws[k..][1..] == ws[k'..];
    assert Bytes(m, ws[k..]) == a + b;
    PrefixStep(a, b, room, len, room');
  }

  lemma PrefixStep(a: seq<Byte>, b: seq<Byte>, n: nat, len: nat, n': nat)
    requires len == Min(|a|, n) && n' == n - len
    ensures Prefix(a + b, n) == a[..len] + Prefix(b, n')
  {
  }

  /** The first piece of a copy starts inside the window the offset falls in. */
  lemma CopyFirst(m: Memory, ws: seq<Window>, off: nat, max: nat, j: nat, k: nat, cut: nat, len: nat, room: nat)
    requires InBounds(m, ws) && j == Seek(ws, off) < |ws| && k == j + 1 && Upto(ws, j) <= off
          && cut == off - Upto(ws, j)
    requires cut <= ws[j].len && len == Min(ws[j].len - cut, max) && room == max - len
    ensures var want := Slice(Bytes(m, ws), off, max);
            len <= |want| && want[..len] == Shown(m, ws[j])[cut..cut + len] && ToCopy(m, ws, k, room, want[len..])
  {
    UptoIs(ws, j);
    BytesAround(m, ws, j);
    var (a, b, c) := (Bytes(m, ws[..j]), Shown(m, ws[j]), Bytes(m, ws[k..]));
    SliceInside(a, b, c, off, max, cut);
    PrefixStep(b[cut..], c, max, len, room);
  }

  lemma SliceInside(a: seq<Byte>, b: seq<Byte>, c: seq<Byte>, off: nat, max: nat, cut: nat)
    requires off == |a| + cut && cut <= |b|
    ensures Slice(a + (b + c), off, max) == Prefix(b[cut..] + c, max)
  {
    assert (a + (b + c))[off..] == b[cut..] + c;
  }

  lemma NothingAtEnd(m: Memory, ws: seq<Window>, off: nat, max: nat)
    requires InBounds(m, ws) && Seek(ws, off) == |ws|
    ensures Slice(Bytes(m, ws), off, max) == []
  {
    BytesLength(m, ws);
    SeekPastBounds(ws, off);
  }

  /** Writing the next piece of `want` right after the first `done` bytes of it. */
  lemma WroteMore(was: seq<Byte>, at: nat, pos: nat, pos': nat, done: nat, done': nat, want: seq<Byte>,
          now: seq<Byte>, piece: seq<Byte>)
    requires pos == at + done && pos' == at + done' && done <= done' <= |want| && pos' <= |was|
          && piece == want[done..done']
    requires now == was[..at] + want[..done] + was[pos..]
    ensures now[..pos] + piece + now[pos'..] == was[..at] + want[..done'] + was[pos'..]
  {
  }

  /** A write to memory in no window leaves the windows steady. */
  lemma SteadyKept(ws: seq<Window>, m: Memory, mem: array<Byte>, was: seq<Byte>, lo: nat, hi: nat)
    requires Inside(ws) && InBounds(m, ws) && Clear(ws, mem, lo, hi) && lo <= hi <= mem.Length == |was|
    requires forall i {:trigger ws[i]} :: 0 <= i < |ws| ==>
               var block := if ws[i].store == mem then was else ws[i].store[..];
               block[ws[i].off..ws[i].off + ws[i].len] == Shown(m, ws[i])
    requires forall i :: 0 <= i < mem.Length && !(lo <= i < hi) ==> mem[..][i] == was[i]
    ensures Steady(ws, m)
  {
    forall i | 0 <= i < |ws|
      ensures ws[i].store in Stores(ws) && ws[i].store[ws[i].off..ws[i].off + ws[i].len] == Shown(m, ws[i])
    {
      var (a, b, e) := (ws[i].store, ws[i].off, ws[i].off + ws[i].len);
      if a != mem {
        assert a[b..e] == a[..][b..e];
      } else {
        assert forall x :: b <= x < e ==> a[x] == a[..][x];
        assert a[b..e] == was[b..e];
      }
    }
  }

  lemma OutsideKept(now: seq<Byte>, was: seq<Byte>, piece: seq<Byte>, lo: nat, hi: nat)
    requires lo <= hi <= |was| && |piece| == hi - lo && now == was[..lo] + piece + was[hi..]
    ensures |now| == |was| && forall i :: 0 <= i < |now| && !(lo <= i < hi) ==> now[i] == was[i]
  {
  }

  /** Copies part of one window to memory that is in none. */
  method CopyPiece(mem: array<Byte>, pos: nat, src: array<Byte>, from: nat, len: nat,
                   ghost pos': nat, ghost ws: seq<Window>, ghost m: Memory, ghost j: nat, ghost cut: nat)
    requires Steady(ws, m) && Clear(ws, mem, pos, pos') && pos' == pos + len <= mem.Length
    requires j < |ws| && src == ws[j].store && from == ws[j].off + cut && cut + len <= ws[j].len
    modifies mem
    ensures Steady(ws, m)
    ensures mem[..] == old(mem[..pos]) + Shown(m, ws[j])[cut..cut + len] + old(mem[pos'..])
  {
    if len > 0 {
      ghost var (was, piece) := (mem[..], src[from..from + len]);
      SteadyPiece(ws, m, j, cut, len, from);
      forall i | 0 <= i < |ws| ensures ws[i].store[..][ws[i].off..ws[i].off + ws[i].len] == Shown(m, ws[i]) {
        assert ws[i].store[..][ws[i].off..ws[i].off + ws[i].len] == ws[i].store[ws[i].off..ws[i].off + ws[i].len];
      }
      MemCpy(mem, pos, src, from, len);
      OutsideKept(mem[..], was, piece, pos, pos');
      SteadyKept(ws, m, mem, was, pos, pos');
    } else {
      assert mem[..] == mem[..pos] + [] + mem[pos..];
    }
  }

  lemma SteadyPiece(ws: seq<Window>, m: Memory, j: nat, cut: nat, len: nat, from: nat)
    requires Steady(ws, m) && j < |ws| && from == ws[j].off + cut && cut + len <= ws[j].len
    ensures from + len <= ws[j].store.Length && ws[j].store[from..from + len] == Shown(m, ws[j])[cut..cut + len]
  {
    assert Shown(m, ws[j]) == ws[j].store[ws[j].off..ws[j].off + ws[j].len];
  }

  /** `size` bytes of `want` are copied, `room` more fit, and the windows from the
      `k`th on still show the rest. */
  ghost predicate Pending(m: Memory, ws: seq<Window>, k: nat, room: nat, want: seq<Byte>, size: nat) {
    size <= |want| && ToCopy(m, ws, k, room, want[size..])
  }

  lemma PendingNext(m: Memory, ws: seq<Window>, k: nat, k': nat, room: nat, want: seq<Byte>, size: nat, len: nat,
          room': nat, size': nat)
    requires Pending(m, ws, k, room, want, size) && k < |ws| && k' == k + 1
    requires len == Min(ws[k].len, room) && room' == room - len && size' == size + len
    ensures size' <= |want| && want[size..size'] == Shown(m, ws[k])[0..len] && Pending(m, ws, k', room', want, size')
  {
    CopyNext(m, ws, k, k', room, want[size..], len, room');
    assert want[size..][..len] == want[size..size'] && want[size..][len..] == want[size'..];
  }

  lemma PendingDone(m: Memory, ws: seq<Window>, k: nat, room: nat, want: seq<Byte>, size: nat)
    requires Pending(m, ws, k, room, want, size) && (k == |ws| || room == 0)
    ensures size == |want|
  {
    NothingToCopy(m, ws, k, room, want[size..]);
  }

  lemma PendingFirst(m: Memory, ws: seq<Window>, off: nat, max: nat, j: nat, k: nat, cut: nat, len: nat, room: nat)
    requires InBounds(m, ws) && j == Seek(ws, off) < |ws| && k == j + 1 && Upto(ws, j) <= off
          && cut == off - Upto(ws, j)
    requires cut <= ws[j].len && len == Min(ws[j].len - cut, max) && room == max - len
    ensures var want := Slice(Bytes(m, ws), off, max);
            Pending(m, ws, k, room, want, len) && want[0..len] == Shown(m, ws[j])[cut..cut + len]
  {
    CopyFirst(m, ws, off, max, j, k, cut, len, room);
  }

  /** The first `size` bytes of `want` have been written at `at` over `was`. */
  ghost predicate Written(mem: array<Byte>, was: seq<Byte>, at: nat, want: seq<Byte>, size: nat)
    reads mem
  {
    size <= |want| && at + |want| <= |was| && mem[..] == was[..at] + want[..size] + was[at + size..]
  }

  /** What is fixed while a copy is made: the chain copied from, its windows and the
      memory behind them, the block copied to as it was, and the bytes wanted. */
  datatype Job = Job(fs: seq<Frag>, ws: seq<Window>, m: Memory, was: seq<Byte>, want: seq<Byte>)

  /** The chain still shows what it did, and `size` bytes have been written at `at`. */
  ghost predicate Underway(job: Job, mem: array<Byte>, at: nat, size: nat)
    reads Stores(job.ws), mem
  {
    && Steady(job.ws, job.m) && Clear(job.ws, mem, at, at + |job.want|)
    && Written(mem, job.was, at, job.want, size)
  }

  /** The chain is as it was. */
  ghost predicate Unmoved(job: Job)
    reads Elements(job.fs)
  {
    Linked(job.fs) && Windows(job.fs) == job.ws
  }

  /** Writes the next piece of `want`. */
  method Advance(mem: array<Byte>, at: nat, size: nat, src: array<Byte>, from: nat, len: nat, ghost size': nat,
                 ghost job: Job, ghost j: nat, ghost cut: nat)
    requires Underway(job, mem, at, size)
    requires j < |job.ws| && src == job.ws[j].store && from == job.ws[j].off + cut && cut + len <= job.ws[j].len
    requires size' == size + len <= |job.want|
    requires job.want[size..size'] == Shown(job.m, job.ws[j])[cut..cut + len]
    modifies mem
    ensures Underway(job, mem, at, size')
  {
    ghost var (now, pos') := (mem[..], at + size');
    var pos := at + size;
    WroteMore(job.was, at, pos, pos', size, size', job.want, now, job.want[size..size']);
    CopyPiece(mem, pos, src, from, len, pos', job.ws, job.m, j, cut);
  }

  /** Copies `len` bytes of one fragment of a chain, which stays as it is. */
  method CopyOne(mem: array<Byte>, at: nat, size: nat, it: Ci, from: nat, len: nat, ghost size': nat, ghost job: Job,
                 ghost j: nat, ghost cut: nat)
    requires Unmoved(job) && j < |job.ws| && it.cur != null && WindowOf(it.cur) == job.ws[j]
    requires from == it.cur.data + cut && cut + len <= job.ws[j].len && Underway(job, mem, at, size)
    requires size' == size + len <= |job.want|
    requires job.want[size..size'] == Shown(job.m, job.ws[j])[cut..cut + len]
    modifies mem
    ensures Unmoved(job) && Underway(job, mem, at, size')
  {
    ghost var (fs, ws) := (job.fs, job.ws);
    Advance(mem, at, size, it.cur.store, from, len, size', job, j, cut);
    forall i | 0 <= i < |fs| ensures fs[i] in Elements(fs) && fs[i].next == Nth(fs, i + 1, null) {
      assert old(fs[i].next) == Nth(fs, i + 1, null);
    }
    forall i | 0 <= i < |fs| ensures WindowOf(fs[i]) == ws[i] {
      assert old(WindowOf(fs[i])) == old(Windows(fs))[i];
    }
    assert Windows(fs) == ws;
  }

  /** One turn of the loop: the next fragment, if there is one. */
  method CopyTurn(mem: array<Byte>, at: nat, it: Ci, size: nat, room: nat, ghost job: Job, ghost k: nat)
    returns (next: Ci, size': nat, room': nat, ghost k': nat)
    requires Unmoved(job) && k <= |job.fs| && it.cur != null && it.cur == Before(job.fs, k)
    requires Underway(job, mem, at, size) && Pending(job.m, job.ws, k, room, job.want, size)
    modifies mem
    ensures Unmoved(job) && Underway(job, mem, at, size')
    ensures next.cur == null ==> size' == |job.want|
    ensures next.cur != null ==> k < k' <= |job.fs| && next.cur == Before(job.fs, k') && room' + size' == room + size
                                 && Pending(job.m, job.ws, k', room', job.want, size')
  {
    next := Advanced(it);
    assert it.cur == job.fs[k - 1];
    size', room', k' := size, room, k;
    if next.cur == null {
      PendingDone(job.m, job.ws, k, room, job.want, size);
    } else {
      assert WindowOf(next.cur) == job.ws[k];
      var len := Min(next.cur.size, room);
      size', room', k' := size + len, room - len, k + 1;
      PendingNext(job.m, job.ws, k, k', room, job.want, size, len, room', size');
      CopyOne(mem, at, size, next, next.cur.data, len, size', job, k, 0);
    }
  }

  /** Copies the rest of `want` from the fragments after `start`. */
  method CopyRest(mem: array<Byte>, at: nat, start: Ci, max: nat, left: nat, done: nat, ghost job: Job,
                  ghost first: nat)
    returns (size: nat)
    requires Unmoved(job) && first <= |job.fs| && start.cur != null && start.cur == Before(job.fs, first)
    requires Underway(job, mem, at, done) && left + done == max
    requires Pending(job.m, job.ws, first, left, job.want, done)
    modifies mem
    ensures Unmoved(job) && Underway(job, mem, at, size) && size == |job.want|
  {
    var it := start;
    var room: nat := left;
    size := done;
    ghost var k := first;
    while size < max
      invariant Unmoved(job) && Underway(job, mem, at, size)
      invariant k <= |job.fs| && it.cur != null && it.cur == Before(job.fs, k)
      invariant Pending(job.m, job.ws, k, room, job.want, size) && size + room == max
      decreases |job.fs| - k
    {
      it, size, room, k := CopyTurn(mem, at, it, size, room, job, k);
      if it.cur == null {
        return;
      }
    }
    PendingDone(job.m, job.ws, k, room, job.want, size);
  }

  /** The flat bytes a buffer shows. */
  ghost function BytesOf(pool: Pool, buf: Pbuf): seq<Byte>
    requires pool.Valid() && pool.Holds(buf)
    reads pool, pool.book.nx.Keys, buf, Elements(buf.chain), Stores(Windows(buf.chain))
  {
    WindowsInside(pool, buf);
    Content(Windows(buf.chain))
  }

  lemma SteadyNow(ws: seq<Window>)
    requires Inside(ws)
    ensures Steady(ws, MemoryOf(ws))
  {
    InsideIsInBounds(ws);
  }

  lemma SeekIsInside(ws: seq<Window>, off: nat, j: nat)
    requires j == Seek(ws, off) < |ws|
    ensures Upto(ws, j) <= off <= Upto(ws, j) + ws[j].len
  {
    SeekPastBounds(ws, off);
    UptoIs(ws, j);
  }

  /** Seeks; what is about to be copied stays as it is. */
  method SeekSteady(pool: Pool, buf: Pbuf, offset: nat, ghost ws: seq<Window>, ghost m: Memory)
    returns (it: Ci, boundary: nat, ghost k: nat)
    requires pool.Valid() && pool.Holds(buf) && Windows(buf.chain) == ws && Steady(ws, m)
    ensures Linked(buf.chain) && Windows(buf.chain) == ws && Steady(ws, m)
    ensures k == Seek(ws, offset) && boundary == Upto(ws, k) && it.cur == Nth(buf.chain, k, null)
  {
    HeldIsLinked(pool, buf);
    it, boundary, k := BufSeek(pool, buf, offset);
    ghost var fs := buf.chain;
    forall i | 0 <= i < |fs| ensures fs[i] in Elements(fs) && fs[i].next == Nth(fs, i + 1, null) {
      assert old(fs[i].next) == Nth(fs, i + 1, null);
    }
    assert Windows(fs) == ws;
    forall i | 0 <= i < |ws|
      ensures ws[i].store in Stores(ws) && ws[i].store[ws[i].off..ws[i].off + ws[i].len] == Shown(m, ws[i])
    {
      assert old(ws[i].store[ws[i].off..ws[i].off + ws[i].len]) == Shown(m, ws[i]);
    }
  }

  /** Where a copy starts: `cut` bytes into the fragment `it`, which gives `size`
      bytes; `it` is null, and nothing is copied, at the end of the buffer. */
  method CopySeek(pool: Pool, buf: Pbuf, offset: nat, max: nat, ghost ws: seq<Window>, ghost m: Memory,
          ghost want: seq<Byte>)
    returns (it: Ci, cut: nat, size: nat, room: nat, ghost j: nat, ghost k: nat)
    requires pool.Valid() && pool.Holds(buf) && Windows(buf.chain) == ws && Steady(ws, m)
    requires want == Slice(Bytes(m, ws), offset, max)
    ensures Linked(buf.chain) && Windows(buf.chain) == ws && Steady(ws, m)
    ensures it.cur == null ==> size == |want| == 0
    ensures it.cur != null ==> j < k <= |ws| && it.cur == Before(buf.chain, k) && WindowOf(it.cur) == ws[j]
    ensures it.cur != null ==> room + size == max && cut + size <= ws[j].len && Pending(m, ws, k, room, want, size)
                               && want[0..size] == Shown(m, ws[j])[cut..cut + size]
  {
    var boundary;
    it, boundary, j := SeekSteady(pool, buf, offset, ws, m);
    cut, size, room, k := 0, 0, 0, j;
    if it.cur == null {
      NothingAtEnd(m, ws, offset, max);
    } else {
      assert WindowOf(it.cur) == ws[j];
      SeekIsInside(ws, offset, j);
      cut := offset - boundary;
      size := Min(it.cur.size - cut, max);
      room, k := max - size, j + 1;
      PendingFirst(m, ws, offset, max, j, k, cut, size, room);
    }
  }

  method CopyFrom(pool: Pool, buf: Pbuf, mem: array<Byte>, at: nat, offset: nat, max: nat, ghost job: Job)
    returns (size: nat)
    requires pool.Valid() && pool.Holds(buf) && job.fs == buf.chain && Windows(buf.chain) == job.ws
    requires Underway(job, mem, at, 0) && job.want == Slice(Bytes(job.m, job.ws), offset, max)
    modifies mem
    ensures Unmoved(job) && Underway(job, mem, at, size) && size == |job.want|
  {
    var it, cut, room;
    ghost var j, k;
    it, cut, size, room, j, k := CopySeek(pool, buf, offset, max, job.ws, job.m, job.want);
    if it.cur != null {
      var from := it.cur.data + cut;
      CopyOne(mem, at, 0, it, from, size, size, job, j, cut);
      size := CopyRest(mem, at, it, max, room, size, job, k);
    }
  }

  lemma SteadyContent(ws: seq<Window>, m: Memory)
    requires Steady(ws, m)
    ensures Content(ws) == Bytes(m, ws)
  {
    InsideIsInBounds(ws);
    forall i | 0 <= i < |ws| ensures Shown(MemoryOf(ws), ws[i]) == Shown(m, ws[i]) {
      assert Shown(MemoryOf(ws), ws[i]) == ws[i].store[ws[i].off..ws[i].off + ws[i].len];
    }
    BytesFrame(MemoryOf(ws), m, ws);
  }

  /** Main result: copying writes the slice of the buffer's bytes, as far as the
      buffer reaches, and nothing else; the buffer shows what it did. */
  method Copy(pool: Pool, buf: Pbuf, mem: array<Byte>, at: nat, offset: nat, max: nat) returns (size: nat)
    requires pool.Valid() && pool.Holds(buf)
    requires var n := |Slice(BytesOf(pool, buf), offset, max)|;
             at + n <= mem.Length && Clear(Windows(buf.chain), mem, at, at + n)
    modifies mem
    ensures pool.Valid() && pool.Holds(buf) && BytesOf(pool, buf) == old(BytesOf(pool, buf))
    ensures Windows(buf.chain) == old(Windows(buf.chain))
    ensures size == |old(Slice(BytesOf(pool, buf), offset, max))|
    ensures Written(mem, old(mem[..]), at, old(Slice(BytesOf(pool, buf), offset, max)), size)
  {
    ghost var (ws, was) := (Windows(buf.chain), mem[..]);
    ghost var (m, want) := (MemoryOf(ws), Slice(BytesOf(pool, buf), offset, max));
    WindowsInside(pool, buf);
    SteadyNow(ws);
    size := CopyFrom(pool, buf, mem, at, offset, max, Job(buf.chain, ws, m, was, want));
    SteadyContent(ws, m);
  }

  // ----- Cloning -----

  /** A new buffer of one empty fragment; a buffer held stays as it was. */
  method NewEmpty(pool: Pool, size: nat, ghost buf: Pbuf) returns (ret: Pbuf)
    requires pool.Valid() && pool.Holds(buf)
    modifies pool
    ensures pool.Valid() && pool.Holds(buf) && pool.Holds(ret) && fresh(ret)
    ensures pool.book.owned == old(pool.book.owned) + Ref(ret.frags)
    ensures ret.frags != null && fresh(ret.frags) && ret.chain == [ret.frags] && ret.frags !in Elements(buf.chain)
    ensures ret.frags.base == ret.frags.data == ret.frags.size == 0
    ensures ret.frags.cap == ret.frags.store.Length == size && fresh(ret.frags.store)
  {
    HeldIsLinked(pool, buf);
    var frag := pool.New(size);
    ret := new Pbuf(frag, [frag]);
    ghost var fs := buf.chain;
    forall i | 0 <= i < |fs| ensures fs[i] in Elements(fs) && fs[i].next == Nth(fs, i + 1, null) {
      assert old(fs[i].next) == Nth(fs, i + 1, null);
    }
    LinkedIsHeld(pool, buf);
  }

  /** A new buffer of one fragment, full of `size` bytes of fresh memory. */
  method NewFull(pool: Pool, size: nat, ghost buf: Pbuf) returns (ret: Pbuf, mem: array<Byte>, at: nat)
    requires pool.Valid() && pool.Holds(buf)
    modifies pool
    ensures pool.Valid() && pool.Holds(buf) && pool.Holds(ret) && fresh(ret) && fresh(Elements(ret.chain))
    ensures pool.book.owned == old(pool.book.owned) + Ref(ret.frags)
    ensures fresh(mem) && mem.Length == size && at == 0 && Windows(ret.chain) == [Window(mem, 0, size)]
    ensures Windows(buf.chain) == old(Windows(buf.chain))
  {
    ret := NewEmpty(pool, size, buf);
    var it := pool.CiInit(ret);
    mem := it.cur.store;
    at := it.cur.ReserveTail(size);
    WindowsKept(buf.chain);
  }

  lemma WholeBlock(ws: seq<Window>, mem: array<Byte>)
    requires ws == [Window(mem, 0, mem.Length)]
    ensures Inside(ws) && Content(ws) == mem[..]
  {
    assert ws[0].store in Stores(ws) && ws[1..] == [];
    InsideIsInBounds(ws);
    assert Bytes(MemoryOf(ws), ws[1..]) == [];
    assert Shown(MemoryOf(ws), ws[0]) == mem[..];
  }

  lemma WrittenWhole(mem: array<Byte>, was: seq<Byte>, want: seq<Byte>, size: nat)
    requires Written(mem, was, 0, want, size) && size == |want| == |was|
    ensures mem[..] == want
  {
  }

  /** Fills a whole block of memory, apart from the buffer's, with a range of it. */
  method CopyWhole(pool: Pool, buf: Pbuf, mem: array<Byte>, at: nat, offset: nat, size: nat, ghost want: seq<Byte>)
    requires pool.Valid() && pool.Holds(buf) && mem !in Stores(Windows(buf.chain)) && at == 0
    requires want == Slice(BytesOf(pool, buf), offset, size) && |want| == size == mem.Length
    modifies mem
    ensures pool.Valid() && pool.Holds(buf) && mem[..] == want
  {
    ghost var (ws, was) := (Windows(buf.chain), mem[..]);
    forall i | 0 <= i < |ws| ensures ws[i].store != mem {
      assert ws[i].store in Stores(ws);
    }
    var bytes := Copy(pool, buf, mem, at, offset, size);
    WrittenWhole(mem, was, want, bytes);
  }

  /** Fills the one fragment of the new buffer `ret`. */
  method FillNew(pool: Pool, buf: Pbuf, mem: array<Byte>, at: nat, offset: nat, size: nat, ghost want: seq<Byte>,
          ghost ret: Pbuf)
    requires pool.Valid() && pool.Holds(buf) && mem !in Stores(Windows(buf.chain)) && at == 0
    requires want == Slice(BytesOf(pool, buf), offset, size) && |want| == size == mem.Length
    requires pool.Holds(ret) && Windows(ret.chain) == [Window(mem, 0, size)]
    modifies mem
    ensures pool.Valid() && pool.Holds(buf) && pool.Holds(ret) && BytesOf(pool, ret) == want
    ensures pool.book == old(pool.book) && Windows(ret.chain) == [Window(mem, 0, size)]
    ensures ret.frags == old(ret.frags) && ret.chain == old(ret.chain)
  {
    CopyWhole(pool, buf, mem, at, offset, size, want);
    WholeBlock(Windows(ret.chain), mem);
  }

  /** Main result: a clone has, in memory of its own, the bytes the range had. */
  method Clone(pool: Pool, buf: Pbuf, offset: nat, size: nat) returns (ret: Pbuf)
    requires pool.Valid() && pool.Holds(buf) && |Slice(BytesOf(pool, buf), offset, size)| == size
    modifies pool
    ensures pool.Valid() && pool.Holds(ret) && pool.Holds(buf) && fresh(ret) && fresh(Elements(ret.chain))
    ensures pool.book.owned == old(pool.book.owned) + Ref(ret.frags) && fresh(Stores(Windows(ret.chain)))
    ensures BytesOf(pool, ret) == old(Slice(BytesOf(pool, buf), offset, size))
  {
    ghost var want := Slice(BytesOf(pool, buf), offset, size);
    var mem, at;
    ret, mem, at := NewFull(pool, size, buf);
    FillNew(pool, buf, mem, at, offset, size, want, ret);
  }
}
