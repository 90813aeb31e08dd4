// Laws relating the operations on packet buffers, told by the bytes: splicing and
// its inverse, shrinking, views and clones of one range, and ranges cut in two.
module PbufLaws {

  import opened PbufLinks
  import opened PbufChains
  import opened PbufBasic
  import opened PbufWindows
  import opened PbufBuf
  import opened PbufView
  import opened PbufCopy

  // ----- Splicing -----

  lemma {:induction false} UptoGrows(ws: seq<Window>, j: nat, k: nat)
    requires j <= k <= |ws|
    ensures Upto(ws, j) <= Upto(ws, k)
  {
    if j < k {
      UptoGrows(ws, j, k - 1);
    }
  }

  /** Splicing at an offset meets its assertion exactly at fragment boundaries. */
  lemma BoundaryIff(ws: seq<Window>, off: nat)
    ensures Upto(ws, Seek(ws, off)) == off <==> exists k :: 0 <= k <= |ws| && Upto(ws, k) == off
  {
    if k :| 0 <= k <= |ws| && Upto(ws, k) == off {
      var j := Seek(ws, off);
      SeekPastBounds(ws, off);
      UptoIs(ws, j);
      if off > 0 {
        if k <= j {
          UptoGrows(ws, k, j);
        } else {
          UptoGrows(ws, j + 1, k);
        }
      }
    }
  }

  /** Splicing at a boundary gives the bytes before it, the new ones, and the rest. */
  lemma SplicedShows(m: Memory, ws: seq<Window>, off: nat, vs: seq<Window>)
    requires InBounds(m, ws) && InBounds(m, vs) && Upto(ws, Seek(ws, off)) == off
    ensures var k := Seek(ws, off);
            InBounds(m, ws[..k] + vs + ws[k..]) && off <= |Bytes(m, ws)|
            && Bytes(m, ws[..k] + vs + ws[k..]) == Bytes(m, ws)[..off] + Bytes(m, vs) + Bytes(m, ws)[off..]
  {
    var k := Seek(ws, off);
    UptoIs(ws, k);
    BytesLength(m, ws[..k]);
    assert ws == ws[..k] + ws[k..];
    BytesJoin(m, ws[..k], ws[k..]);
    BytesJoin(m, ws[..k], vs);
    BytesJoin(m, ws[..k] + vs, ws[k..]);
  }

  lemma ContentIn(ws: seq<Window>, m: Memory)
    requires Inside(ws) && InBounds(m, ws)
    requires forall i {:trigger ws[i]} :: 0 <= i < |ws| ==>
          ws[i].store in Stores(ws) && m[ws[i].store] == ws[i].store[..]
    ensures Content(ws) == Bytes(m, ws)
  {
    InsideIsInBounds(ws);
    BytesFrame(MemoryOf(ws), m, ws);
  }

  /** Windows on memory that still is as it was, `m`, show what they show in `m`. */
  lemma ContentStays(ws: seq<Window>, m: Memory)
    requires InBounds(m, ws) && forall a {:trigger m[a]} :: a in m ==> a[..] == m[a]
    ensures Inside(ws) && Content(ws) == Bytes(m, ws)
  {
    forall i | 0 <= i < |ws|
      ensures ws[i].off + ws[i].len <= ws[i].store.Length
      ensures ws[i].store in Stores(ws) && m[ws[i].store] == ws[i].store[..]
    {
      assert Maps(m, ws[i]);
    }
    ContentIn(ws, m);
  }

  lemma MemoryOfBoth(ws: seq<Window>, vs: seq<Window>)
    requires Inside(ws) && Inside(vs)
    ensures InBounds(MemoryOf(ws + vs), ws) && InBounds(MemoryOf(ws + vs), vs)
    ensures Content(ws) == Bytes(MemoryOf(ws + vs), ws) && Content(vs) == Bytes(MemoryOf(ws + vs), vs)
  {
    var m := MemoryOf(ws + vs);
    forall i | 0 <= i < |ws| ensures Maps(m, ws[i]) {
      assert ws[i] == (ws + vs)[i];
    }
    forall i | 0 <= i < |vs| ensures Maps(m, vs[i]) {
      assert vs[i] == (ws + vs)[|ws| + i];
    }
    ContentStays(ws, m);
    ContentStays(vs, m);
  }

  lemma WindowsSpliced(fs: seq<Frag>, k: nat, gs: seq<Frag>, ws: seq<Window>, vs: seq<Window>)
    requires k <= |fs| && Windows(fs) == ws && Windows(gs) == vs
    ensures Windows(fs[..k] + gs + fs[k..]) == ws[..k] + vs + ws[k..]
  {
  }

  /** Splicing writes links only, of the fragments `region`. */
  method ChainIn(pool: Pool, buf: Pbuf, next: Pbuf, offset: nat, ghost k: nat, ghost fs: seq<Frag>,
          ghost gs: seq<Frag>, ghost region: set<Frag>)
    requires pool.Valid() && Apart(pool, buf, next) && fs == buf.chain && gs == next.chain
    requires k == Seek(Windows(fs), offset) && Upto(Windows(fs), k) == offset
    requires Elements(fs) <= region && Elements(gs) <= region
    modifies pool, buf, region`next
    ensures pool.Valid() && pool.Holds(buf) && buf.chain == fs[..k] + gs + fs[k..]
  {
    ChainAt(pool, buf, next, offset);
  }

  /** It moves no window. */
  method ChainKept(pool: Pool, buf: Pbuf, next: Pbuf, offset: nat, ghost k: nat, ghost fs: seq<Frag>,
          ghost gs: seq<Frag>, ghost region: set<Frag>)
    requires pool.Valid() && Apart(pool, buf, next) && fs == buf.chain && gs == next.chain
    requires k == Seek(Windows(fs), offset) && Upto(Windows(fs), k) == offset
    requires Elements(fs) <= region && Elements(gs) <= region
    modifies pool, buf, region`next
    ensures pool.Valid() && pool.Holds(buf) && buf.chain == fs[..k] + gs + fs[k..]
    ensures Windows(fs) == old(Windows(fs)) && Windows(gs) == old(Windows(gs))
  {
    ChainIn(pool, buf, next, offset, k, fs, gs, region);
    WindowsKept(fs);
    WindowsKept(gs);
  }

  /** Splicing, told by the windows. */
  method ChainWindows(pool: Pool, buf: Pbuf, next: Pbuf, offset: nat, ghost k: nat, ghost ws: seq<Window>,
          ghost vs: seq<Window>)
    requires pool.Valid() && Apart(pool, buf, next) && ws == Windows(buf.chain) && vs == Windows(next.chain)
    requires k == Seek(ws, offset) && Upto(ws, k) == offset
    modifies pool, buf, Elements(buf.chain)`next, Elements(next.chain)`next
    ensures pool.Valid() && pool.Holds(buf) && Windows(buf.chain) == ws[..k] + vs + ws[k..]
  {
    ghost var (fs, gs) := (buf.chain, next.chain);
    ChainKept(pool, buf, next, offset, k, fs, gs, Elements(fs) + Elements(gs));
    WindowsSpliced(fs, k, gs, ws, vs);
  }

  /** Main result: splicing in one buffer at a boundary of another gives the bytes
      before the offset, the spliced buffer's bytes, and the rest. */
  method ChainBytes(pool: Pool, buf: Pbuf, next: Pbuf, offset: nat)
    requires pool.Valid() && Apart(pool, buf, next)
    requires Upto(Windows(buf.chain), Seek(Windows(buf.chain), offset)) == offset
    modifies pool, buf, Elements(buf.chain)`next, Elements(next.chain)`next
    ensures pool.Valid() && pool.Holds(buf) && offset <= |old(BytesOf(pool, buf))|
    ensures var bytes := old(BytesOf(pool, buf));
            BytesOf(pool, buf) == bytes[..offset] + old(BytesOf(pool, next)) + bytes[offset..]
  {
    ghost var (ws, vs) := (Windows(buf.chain), Windows(next.chain));
    ghost var (k, m) := (Seek(ws, offset), MemoryOf(ws + vs));
    WindowsInside(pool, buf);
    WindowsInside(pool, next);
    MemoryOfBoth(ws, vs);
    SplicedShows(m, ws, offset, vs);
    ChainWindows(pool, buf, next, offset, k, ws, vs);
    ContentStays(Windows(buf.chain), m);
  }

  // ----- Shrinking -----

  /** Main result: shrinking leaves the bytes of the range, as far as the buffer
      reaches. */
  method ShrinkBytes(pool: Pool, buf: Pbuf, offset: nat, size: nat)
    requires pool.Valid() && pool.Holds(buf)
    modifies pool, buf, Elements(buf.chain)`next, Elements(buf.chain)`refcnt
    modifies Elements(buf.chain)`data, Elements(buf.chain)`size
    ensures pool.Valid() && pool.Holds(buf)
    ensures BytesOf(pool, buf) == old(Slice(BytesOf(pool, buf), offset, size))
    ensures pool.book.owned == Swapped(old(pool.book.owned), old(buf.frags), buf.frags)
  {
    ghost var ws := Windows(buf.chain);
    ghost var m := MemoryOf(ws);
    WindowsInside(pool, buf);
    InsideIsInBounds(ws);
    ShrunkShows(m, ws, offset, size);
    ghost var n := Shrink(pool, buf, offset, size);
    ContentStays(Windows(buf.chain), m);
  }

  // ----- Inserting and removing -----

  /** Takes out `n` fragments from position `k` on, one at a time. */
  ghost function WithoutMany(fs: seq<Frag>, k: nat, n: nat): seq<Frag>
    requires k + n <= |fs|
    decreases n
  {
    if n == 0 then fs else WithoutMany(Without(fs, k), k, n - 1)
  }

  lemma {:induction false} WithoutManyIs(fs: seq<Frag>, k: nat, n: nat)
    requires k + n <= |fs|
    ensures WithoutMany(fs, k, n) == fs[..k] + fs[k + n..]
    decreases n
  {
    if n == 0 {
      assert fs == fs[..k] + fs[k..];
    } else {
      var gs := Without(fs, k);
      WithoutManyIs(gs, k, n - 1);
      assert gs[..k] == fs[..k] && gs[k + n - 1..] == fs[k + n..];
    }
  }

  /** Removing at the returned iterator once per inserted fragment gives back the
      chain there was before the insertion. */
  lemma RemovingUndoesInserting(fs: seq<Frag>, k: nat, gs: seq<Frag>)
    requires k <= |fs|
    ensures WithoutMany(fs[..k] + gs + fs[k..], k, |gs|) == fs
  {
    var all := fs[..k] + gs + fs[k..];
    WithoutManyIs(all, k, |gs|);
    assert all[..k] == fs[..k] && all[k + |gs|..] == fs[k..];
    assert fs == fs[..k] + fs[k..];
  }

  lemma WithoutOneMore(all: seq<Frag>, k: nat, n: nat, n': nat)
    requires n' == n + 1 && k + n' <= |all|
    ensures k < |WithoutMany(all, k, n)| && WithoutMany(all, k, n)[k] == all[k + n]
    ensures Without(WithoutMany(all, k, n), k) == WithoutMany(all, k, n')
    ensures Elements(WithoutMany(all, k, n)) <= Elements(all)
  {
    WithoutManyIs(all, k, n);
    WithoutManyIs(all, k, n');
  }

  /** Removes the fragment at the iterator, the `n`th of those to be removed. */
  method RemoveNext(pool: Pool, buf: Pbuf, it: Ci, ghost k: nat, ghost all: seq<Frag>, ghost n: nat, ghost n': nat,
          ghost base: multiset<Frag>, ghost head: Frag?, ghost region: set<Frag>)
    returns (r: Ci)
    requires pool.Valid() && pool.Holds(buf) && pool.ItAt(it, buf, k) && n' == n + 1 && k + n' <= |all|
    requires buf.chain == WithoutMany(all, k, n) && Elements(all) <= region
    requires Ref(head) <= base && pool.book.owned == Swapped(base, head, buf.frags)
    modifies pool, buf, region`next, region`refcnt
    ensures pool.Valid() && pool.Holds(buf) && pool.ItAt(r, buf, k) && buf.chain == WithoutMany(all, k, n')
    ensures pool.book.owned == Swapped(base, head, buf.frags)
  {
    ghost var before := buf.frags;
    WithoutOneMore(all, k, n, n');
    r := pool.CiRemove(it, buf, k);
    SwapTwice(base, head, before, buf.frags);
  }

  /** Removes `count` fragments, one after the other. */
  method RemoveMany(pool: Pool, buf: Pbuf, it: Ci, count: nat, ghost k: nat, ghost all: seq<Frag>,
          ghost base: multiset<Frag>, ghost head: Frag?, ghost region: set<Frag>)
    returns (r: Ci)
    requires pool.Valid() && pool.Holds(buf) && pool.ItAt(it, buf, k) && k + count <= |all| && buf.chain == all
    requires Ref(head) <= base && pool.book.owned == Swapped(base, head, buf.frags) && Elements(all) <= region
    modifies pool, buf, region`next, region`refcnt
    ensures pool.Valid() && pool.Holds(buf) && pool.ItAt(r, buf, k)
    ensures buf.chain == WithoutMany(all, k, count) && pool.book.owned == Swapped(base, head, buf.frags)
  {
    var n: nat := 0;
    r := it;
    while n < count
      invariant n <= count && buf.chain == WithoutMany(all, k, n)
      invariant pool.Valid() && pool.Holds(buf) && pool.ItAt(r, buf, k)
      invariant pool.book.owned == Swapped(base, head, buf.frags)
    {
      var n' := n + 1;
      r := RemoveNext(pool, buf, r, k, all, n, n', base, head, region);
      n := n';
    }
  }

  lemma AllInserted(fs: seq<Frag>, k: nat, gs: seq<Frag>, all: seq<Frag>, region: set<Frag>)
    requires k <= |fs| && all == fs[..k] + gs + fs[k..] && region == Elements(fs) + Elements(gs)
    ensures Elements(all) <= region && Elements(fs) <= region && Elements(gs) <= region && k + |gs| <= |all|
  {
  }

  /** Inserts the buffer `ins`; `base` is what is owned without it. */
  method InsertAll(pool: Pool, it: Ci, ins: Pbuf, buf: Pbuf, ghost k: nat, ghost all: seq<Frag>,
          ghost base: multiset<Frag>, ghost head: Frag?, ghost region: set<Frag>)
    returns (r: Ci)
    requires pool.Valid() && Apart(pool, buf, ins) && pool.ItAt(it, buf, k) && head == buf.frags
    requires all == buf.chain[..k] + ins.chain + buf.chain[k..] && base == pool.book.owned - Ref(ins.frags)
    requires Elements(buf.chain) <= region && Elements(ins.chain) <= region
    modifies pool, buf, region`next
    ensures pool.Valid() && pool.Holds(buf) && pool.ItAt(r, buf, k) && buf.chain == all
    ensures pool.book.owned == Swapped(base, head, buf.frags)
  {
    r := pool.CiInsert(it, ins, buf, k);
  }

  method InsertAndRemove(pool: Pool, it: Ci, ins: Pbuf, count: nat, buf: Pbuf, ghost k: nat, ghost fs: seq<Frag>,
          ghost gs: seq<Frag>, ghost base: multiset<Frag>, ghost head: Frag?, ghost region: set<Frag>)
    returns (r: Ci)
    requires pool.Valid() && Apart(pool, buf, ins) && pool.ItAt(it, buf, k) && count == |gs|
    requires fs == buf.chain && gs == ins.chain && region == Elements(fs) + Elements(gs)
    requires head == buf.frags && base == pool.book.owned - Ref(ins.frags)
    modifies pool, buf, region`next, region`refcnt
    ensures pool.Valid() && pool.Holds(buf) && pool.ItAt(r, buf, k) && buf.chain == fs
    ensures pool.book.owned == Swapped(base, head, buf.frags)
  {
    ghost var all := fs[..k] + gs + fs[k..];
    AllInserted(fs, k, gs, all, region);
    RemovingUndoesInserting(fs, k, gs);
    assert Ref(head) <= base;
    r := InsertAll(pool, it, ins, buf, k, all, base, head, region);
    r := RemoveMany(pool, buf, r, count, k, all, base, head, region);
  }

  /** Main result: removing undoes inserting. Inserting a buffer of `count` fragments
      and removing at the returned iterator as often gives back the chain, its head
      and its links; what is gone is the inserted handle's reference. */
  method InsertThenRemove(pool: Pool, it: Ci, ins: Pbuf, count: nat, buf: Pbuf, ghost k: nat) returns (r: Ci)
    requires pool.Valid() && Apart(pool, buf, ins) && pool.ItAt(it, buf, k) && count == |ins.chain|
    modifies pool, buf, Elements(buf.chain)`next, Elements(buf.chain)`refcnt
    modifies Elements(ins.chain)`next, Elements(ins.chain)`refcnt
    ensures pool.Valid() && pool.Holds(buf) && r == it
    ensures buf.chain == old(buf.chain) && buf.frags == old(buf.frags)
    ensures forall f {:trigger f.next} :: f in buf.chain ==> f.next == old(f.next)
    ensures pool.book.owned == old(pool.book.owned) - Ref(ins.frags)
  {
    ghost var (fs, gs, head, base) := (buf.chain, ins.chain, buf.frags, pool.book.owned - Ref(ins.frags));
    ghost var region := Elements(fs) + Elements(gs);
    HeldIsLinked(pool, buf);
    r := InsertAndRemove(pool, it, ins, count, buf, k, fs, gs, base, head, region);
    HeldIsLinked(pool, buf);
  }

  // ----- Ranges -----

  /** Copies of adjacent ranges, one after the other, are the copy of the whole. */
  lemma AdjacentCopies(bs: seq<Byte>, off: nat, a: nat, b: nat)
    ensures Slice(bs, off, a) + Slice(bs, off + a, b) == Slice(bs, off, a + b)
  {
  }

  /** Two pieces written one after the other. */
  lemma WrittenTwice(was: seq<Byte>, mid: seq<Byte>, now: seq<Byte>, at: nat, at': nat, end: nat, v: seq<Byte>,
          w: seq<Byte>)
    requires at' == at + |v| && end == at' + |w| <= |was|
    requires mid == was[..at] + v + was[at'..] && now == mid[..at'] + w + mid[end..]
    ensures now == was[..at] + (v + w) + was[end..]
  {
    assert mid[..at'] == was[..at] + v && mid[end..] == was[end..];
  }

  lemma ClearParts(ws: seq<Window>, mem: array<Byte>, lo: nat, mid: nat, hi: nat)
    requires Clear(ws, mem, lo, hi) && lo <= mid <= hi
    ensures Clear(ws, mem, lo, mid) && Clear(ws, mem, mid, hi)
  {
  }

  lemma WrittenAll(mem: array<Byte>, was: seq<Byte>, at: nat, want: seq<Byte>, end: nat, size: nat)
    requires end == at + |want| <= |was| && size == |want| && mem[..] == was[..at] + want + was[end..]
    ensures Written(mem, was, at, want, size)
  {
  }

  /** Copies `v`, a range of the buffer's bytes `bytes`, to `at`. */
  method CopyPart(pool: Pool, buf: Pbuf, mem: array<Byte>, at: nat, offset: nat, max: nat, ghost end: nat,
          ghost was: seq<Byte>, ghost v: seq<Byte>, ghost bytes: seq<Byte>, ghost ws: seq<Window>)
    returns (size: nat)
    requires pool.Valid() && pool.Holds(buf) && bytes == BytesOf(pool, buf) && ws == Windows(buf.chain)
    requires v == Slice(bytes, offset, max) && end == at + |v| <= mem.Length && was == mem[..]
    requires Clear(ws, mem, at, end)
    modifies mem
    ensures pool.Valid() && pool.Holds(buf) && bytes == BytesOf(pool, buf) && ws == Windows(buf.chain)
    ensures size == |v| && mem[..] == was[..at] + v + was[end..]
  {
    size := Copy(pool, buf, mem, at, offset, max);
  }

  /** Copies `v`, then `w` behind it. */
  method CopyParts(pool: Pool, buf: Pbuf, mem: array<Byte>, at: nat, offset: nat, a: nat, offset': nat, b: nat,
          ghost was: seq<Byte>, ghost v: seq<Byte>, ghost w: seq<Byte>, ghost end: nat)
    returns (first: nat, second: nat)
    requires pool.Valid() && pool.Holds(buf) && was == mem[..]
    requires v == Slice(BytesOf(pool, buf), offset, a) && w == Slice(BytesOf(pool, buf), offset', b)
    requires end == at + |v| + |w| <= mem.Length && Clear(Windows(buf.chain), mem, at, end)
    modifies mem
    ensures pool.Valid() && pool.Holds(buf) && BytesOf(pool, buf) == old(BytesOf(pool, buf))
    ensures first == |v| && second == |w| && mem[..] == was[..at] + (v + w) + was[end..]
  {
    ghost var (ws, bytes, mid) := (Windows(buf.chain), BytesOf(pool, buf), at + |v|);
    ClearParts(ws, mem, at, mid, end);
    first := CopyPart(pool, buf, mem, at, offset, a, mid, was, v, bytes, ws);
    ghost var half := mem[..];
    var at' := at + first;
    second := CopyPart(pool, buf, mem, at', offset', b, end, half, w, bytes, ws);
    WrittenTwice(was, half, mem[..], at, at', end, v, w);
  }

  /** Main result: copying a range in two, the second part behind the first, writes
      what copying it at once does, however short the buffer is. */
  method CopyTwice(pool: Pool, buf: Pbuf, mem: array<Byte>, at: nat, offset: nat, a: nat, b: nat)
    returns (first: nat, second: nat)
    requires pool.Valid() && pool.Holds(buf)
    requires var n := |Slice(BytesOf(pool, buf), offset, a + b)|;
             at + n <= mem.Length && Clear(Windows(buf.chain), mem, at, at + n)
    modifies mem
    ensures pool.Valid() && pool.Holds(buf) && BytesOf(pool, buf) == old(BytesOf(pool, buf))
    ensures first + second == |old(Slice(BytesOf(pool, buf), offset, a + b))|
    ensures Written(mem, old(mem[..]), at, old(Slice(BytesOf(pool, buf), offset, a + b)), first + second)
  {
    ghost var (was, bytes) := (mem[..], BytesOf(pool, buf));
    AdjacentCopies(bytes, offset, a, b);
    ghost var (v, w) := (Slice(bytes, offset, a), Slice(bytes, offset + a, b));
    ghost var end := at + |v| + |w|;
    var offset' := offset + a;
    first, second := CopyParts(pool, buf, mem, at, offset, a, offset', b, was, v, w, end);
    WrittenAll(mem, was, at, v + w, end, first + second);
  }

  /** A view of a range shows what a copy or a clone of it takes. */
  lemma ViewAgreesWithCopy(m: Memory, ws: seq<Window>, off: nat, n: nat)
    requires InBounds(m, ws) && Viewable(ws, off, n)
    ensures InBounds(m, View(ws, off, n)) && Bytes(m, View(ws, off, n)) == Slice(Bytes(m, ws), off, n)
  {
    ViewIsLive(m, ws, off, n);
  }

  /** Main result: a view is a live window. Whenever its fragments are still the
      windows they were made, whatever was written to memory since, it shows what
      the range of its source shows then. */
  lemma ViewFollowsSource(pool: Pool, buf: Pbuf, view: Pbuf, off: nat, n: nat)
    requires pool.Valid() && pool.Holds(buf) && pool.Holds(view)
    requires Viewable(Windows(buf.chain), off, n) && Windows(view.chain) == View(Windows(buf.chain), off, n)
    ensures BytesOf(pool, view) == Slice(BytesOf(pool, buf), off, n)
  {
    var (ws, vs) := (Windows(buf.chain), Windows(view.chain));
    WindowsInside(pool, buf);
    WindowsInside(pool, view);
    MemoryOfBoth(ws, vs);
    ViewAgreesWithCopy(MemoryOf(ws + vs), ws, off, n);
  }

  /** Takes a view; the buffer shows what it did, and so does the view, of its range. */
  method ViewBytes(pool: Pool, buf: Pbuf, offset: nat, size: nat, ghost ws: seq<Window>, ghost m: Memory)
    returns (view: Pbuf)
    requires pool.Valid() && pool.Holds(buf) && Viewable(ws, offset, size)
    requires ws == Windows(buf.chain) && m == MemoryOf(ws)
    modifies pool
    ensures pool.Valid() && pool.Holds(buf) && pool.Holds(view) && BytesOf(pool, buf) == old(BytesOf(pool, buf))
    ensures InBounds(m, Windows(view.chain)) && forall a {:trigger m[a]} :: a in m ==> a[..] == m[a]
    ensures Bytes(m, Windows(view.chain)) == Slice(BytesOf(pool, buf), offset, size)
    ensures |Slice(BytesOf(pool, buf), offset, size)| == size
  {
    WindowsInside(pool, buf);
    InsideIsInBounds(ws);
    ViewAgreesWithCopy(m, ws, offset, size);
    BytesLength(m, ws);
    view := TakeView(pool, buf, offset, size);
    WindowsKept(buf.chain);
    ContentStays(ws, m);
  }

  /** Takes a clone; the fragments `fs` stay as they are. */
  method CloneApart(pool: Pool, buf: Pbuf, offset: nat, size: nat, ghost fs: seq<Frag>) returns (clone: Pbuf)
    requires pool.Valid() && pool.Holds(buf) && |Slice(BytesOf(pool, buf), offset, size)| == size && Linked(fs)
    modifies pool
    ensures pool.Valid() && pool.Holds(buf) && pool.Holds(clone)
    ensures pool.book.owned == old(pool.book.owned) + Ref(clone.frags)
    ensures BytesOf(pool, clone) == old(Slice(BytesOf(pool, buf), offset, size))
    ensures Linked(fs) && Windows(fs) == old(Windows(fs))
  {
    clone := Clone(pool, buf, offset, size);
    forall i | 0 <= i < |fs| ensures fs[i] in Elements(fs) && fs[i].next == Nth(fs, i + 1, null) {
      assert old(fs[i].next) == Nth(fs, i + 1, null);
    }
    WindowsKept(fs);
  }

  /** Takes a clone; another buffer, whose windows are on memory `m`, shows what it did. */
  method CloneBeside(pool: Pool, buf: Pbuf, offset: nat, size: nat, ghost view: Pbuf, ghost m: Memory)
    returns (clone: Pbuf)
    requires pool.Valid() && pool.Holds(buf) && |Slice(BytesOf(pool, buf), offset, size)| == size
    requires pool.Holds(view) && InBounds(m, Windows(view.chain))
    requires forall a {:trigger m[a]} :: a in m ==> a[..] == m[a]
    modifies pool
    ensures pool.Valid() && pool.Holds(buf) && pool.Holds(view) && pool.Holds(clone)
    ensures BytesOf(pool, clone) == old(Slice(BytesOf(pool, buf), offset, size))
    ensures BytesOf(pool, view) == Bytes(m, old(Windows(view.chain)))
  {
    HeldIsLinked(pool, view);
    clone := CloneApart(pool, buf, offset, size, view.chain);
    LinkedIsHeld(pool, view);
    ContentStays(Windows(view.chain), m);
  }

  /** Main result: a view and a clone of one range agree, and are what a copy of it
      writes. */
  method ViewAndClone(pool: Pool, buf: Pbuf, offset: nat, size: nat) returns (view: Pbuf, clone: Pbuf)
    requires pool.Valid() && pool.Holds(buf) && Viewable(Windows(buf.chain), offset, size)
    modifies pool
    ensures pool.Valid() && pool.Holds(buf) && pool.Holds(view) && pool.Holds(clone)
    ensures BytesOf(pool, view) == BytesOf(pool, clone) == old(Slice(BytesOf(pool, buf), offset, size))
  {
    ghost var ws := Windows(buf.chain);
    ghost var m := MemoryOf(ws);
    view := ViewBytes(pool, buf, offset, size, ws, m);
    clone := CloneBeside(pool, buf, offset, size, view, m);
  }
}
