// Packet buffers (pbuf/buf.c): seeking, splicing, views, copies, clones,
// shrinking and putting, as loops over the contiguous iterators. Each method is
// tied to the windows of its buffer; what the windows show is PbufWindows'.
module PbufBuf {

  import opened PbufLinks
  import opened PbufChains
  import opened PbufBasic
  import opened PbufWindows

  ghost function WindowOf(f: Frag): Window
    reads f
  {
    Window(f.store, f.data, f.size)
  }

  ghost function Windows(fs: seq<Frag>): (ws: seq<Window>)
    reads Elements(fs)
    ensures |ws| == |fs|
    ensures forall i {:trigger ws[i]} :: 0 <= i < |fs| ==> ws[i] == WindowOf(fs[i])
  {
    seq(|fs|, i requires 0 <= i < |fs| reads Elements(fs) => assert fs[i] in Elements(fs); WindowOf(fs[i]))
  }

  lemma WindowsTake(fs: seq<Frag>, k: nat)
    requires k <= |fs|
    ensures Windows(fs[..k]) == Windows(fs)[..k]
  {
  }

  method Size(pool: Pool, buf: Pbuf) returns (size: nat)
    requires pool.Valid() && pool.Holds(buf)
    ensures size == Total(Windows(buf.chain))
  {
    ghost var ws := Windows(buf.chain);
    size := 0;
    ghost var k: nat := 0;
    var it := pool.CiInit(buf);
    while it.cur != null
      invariant pool.ItAt(it, buf, k) && size == Upto(ws, k)
      decreases |ws| - k
    {
      size := size + it.cur.size;
      it := pool.CiNext(it, buf, k);
      k := k + 1;
    }
    UptoAll(ws);
    assert Windows(buf.chain) == ws;
  }

  /** The iterator at offset `offset`, and the offset its fragment begins at. */
  method BufSeek(pool: Pool, buf: Pbuf, offset: nat) returns (it: Ci, boundary: nat, ghost k: nat)
    requires pool.Valid() && pool.Holds(buf)
    ensures k == Seek(Windows(buf.chain), offset)
    ensures pool.ItAt(it, buf, k) && boundary == Upto(Windows(buf.chain), k)
  {
    ghost var ws := Windows(buf.chain);
    k, boundary := 0, 0;
    it := pool.CiInit(buf);
    while it.cur != null
      invariant pool.ItAt(it, buf, k) && boundary == Upto(ws, k) <= offset
      invariant offset == 0 ==> k == 0
      decreases |ws| - k
    {
      if offset == 0 || boundary + it.cur.size > offset {
        break;
      }
      boundary := boundary + it.cur.size;
      it := pool.CiNext(it, buf, k);
      k := k + 1;
    }
    SeekIs(ws, offset, k);
    assert Windows(buf.chain) == ws;
  }

  // ----- Splicing -----

  lemma SpliceAtEnds(fs: seq<Frag>, gs: seq<Frag>)
    ensures fs[..0] + gs + fs[0..] == gs + fs
    ensures fs[..|fs|] + gs + fs[|fs|..] == fs + gs
  {
  }

  /** Two buffers the program holds separately, sharing no fragment. */
  ghost predicate Apart(pool: Pool, buf: Pbuf, other: Pbuf)
    reads pool, buf, other
  {
    && pool.Holds(buf) && pool.Holds(other) && buf != other
    && Disjoint(buf.chain, other.chain) && Ref(buf.frags) + Ref(other.frags) <= pool.book.owned
  }

  /** Inserts the buffer `next` at byte offset `offset`, which must be a fragment
      boundary: before the first fragment ending past the offset. */
  method ChainAt(pool: Pool, buf: Pbuf, next: Pbuf, offset: nat)
    requires pool.Valid() && Apart(pool, buf, next)
    requires Upto(Windows(buf.chain), Seek(Windows(buf.chain), offset)) == offset
    modifies pool, buf, Elements(buf.chain)`next, Elements(next.chain)`next
    ensures pool.Valid() && pool.Holds(buf)
    ensures pool.book.owned == Swapped(old(pool.book.owned) - Ref(next.frags), old(buf.frags), buf.frags)
    ensures var k := Seek(old(Windows(buf.chain)), offset);
            buf.chain == old(buf.chain)[..k] + old(next.chain) + old(buf.chain)[k..]
  {
    if offset == 0 {
      SpliceAtEnds(buf.chain, next.chain);
      ChainFront(pool, buf, next);
      return;
    }
    var it, bytes, k := BufSeek(pool, buf, offset);
    it := pool.CiInsert(it, next, buf, k);
  }

  method ChainFront(pool: Pool, buf: Pbuf, front: Pbuf)
    requires pool.Valid() && Apart(pool, buf, front)
    modifies pool, buf, Elements(buf.chain)`next, Elements(front.chain)`next
    ensures pool.Valid() && pool.Holds(buf)
    ensures pool.book.owned == Swapped(old(pool.book.owned) - Ref(front.frags), old(buf.frags), buf.frags)
    ensures buf.chain == old(front.chain) + old(buf.chain)
  {
    SpliceAtEnds(buf.chain, front.chain);
    var it := pool.CiInit(buf);
    it := pool.CiInsert(it, front, buf, 0);
  }

  method SeekEnd(pool: Pool, buf: Pbuf) returns (it: Ci)
    requires pool.Valid() && pool.Holds(buf)
    ensures pool.ItAt(it, buf, |buf.chain|)
  {
    ghost var k: nat := 0;
    it := pool.CiInit(buf);
    while it.cur != null
      invariant pool.ItAt(it, buf, k)
      decreases |buf.chain| - k
    {
      it := pool.CiNext(it, buf, k);
      k := k + 1;
    }
  }

  method ChainBack(pool: Pool, buf: Pbuf, back: Pbuf)
    requires pool.Valid() && Apart(pool, buf, back)
    modifies pool, buf, Elements(buf.chain)`next, Elements(back.chain)`next
    ensures pool.Valid() && pool.Holds(buf)
    ensures pool.book.owned == Swapped(old(pool.book.owned) - Ref(back.frags), old(buf.frags), buf.frags)
    ensures buf.chain == old(buf.chain) + old(back.chain)
  {
    SpliceAtEnds(buf.chain, back.chain);
    ghost var n := |buf.chain|;
    var it := SeekEnd(pool, buf);
    it := pool.CiInsert(it, back, buf, n);
  }

  // ----- Shrinking -----

  lemma DropStep(fs: seq<Frag>, n: nat)
    requires n < |fs|
    ensures Elements(fs[n..]) <= Elements(fs) && Without(fs[n..], 0) == fs[n + 1..]
  {
  }

  /** Removes the first fragment, the `n`th of the chain `fs` the buffer had. */
  method RemoveFirst(pool: Pool, buf: Pbuf, it: Ci, ghost fs: seq<Frag>, ghost n: nat) returns (r: Ci)
    requires pool.Valid() && pool.Holds(buf) && pool.ItAt(it, buf, 0)
    requires n < |fs| && buf.chain == fs[n..]
    modifies pool, buf, Elements(fs)`next, Elements(fs)`refcnt
    ensures pool.Valid() && pool.Holds(buf) && pool.ItAt(r, buf, 0)
    ensures buf.chain == fs[n + 1..]
    ensures pool.book.owned == Swapped(old(pool.book.owned), old(buf.frags), buf.frags)
  {
    DropStep(fs, n);
    r := pool.CiRemove(it, buf, 0);
  }

  /** The first fragment is removed if it lies wholly before `offset`. */
  method DropOne(pool: Pool, buf: Pbuf, it: Ci, bytes: nat, offset: nat, ghost fs: seq<Frag>, ghost ws: seq<Window>,
                 ghost n: nat, ghost head: Frag?, ghost owned: multiset<Frag>)
    returns (r: Ci, size: nat, more: bool, ghost n': nat)
    requires pool.Valid() && pool.Holds(buf) && pool.ItAt(it, buf, 0)
    requires n < |fs| == |ws| && buf.chain == fs[n..] && WindowOf(fs[n]) == ws[n] && bytes == Upto(ws, n) <= offset
    requires Ref(head) <= owned && pool.book.owned == Swapped(owned, head, buf.frags)
    modifies pool, buf, Elements(fs)`next, Elements(fs)`refcnt
    ensures pool.Valid() && pool.Holds(buf) && pool.ItAt(r, buf, 0)
    ensures pool.book.owned == Swapped(owned, head, buf.frags)
    ensures n' == (if Upto(ws, n + 1) <= offset then n + 1 else n) && size == Upto(ws, n')
    ensures buf.chain == fs[n'..] && more == (n' == n + 1)
  {
    r, size, n' := it, bytes, n;
    more := bytes + it.cur.size <= offset;
    if more {
      ghost var before := buf.frags;
      size := bytes + it.cur.size;
      r := RemoveFirst(pool, buf, it, fs, n);
      SwapTwice(owned, head, before, buf.frags);
      n' := n + 1;
    }
  }

  /** Removes the fragments lying wholly before `offset`, the first `n`. */
  method DropWhole(pool: Pool, buf: Pbuf, it: Ci, offset: nat, ghost ws: seq<Window>) returns (r: Ci, bytes: nat,
          ghost n: nat)
    requires pool.Valid() && pool.Holds(buf) && pool.ItAt(it, buf, 0) && ws == Windows(buf.chain)
    modifies pool, buf, Elements(buf.chain)`next, Elements(buf.chain)`refcnt
    ensures pool.Valid() && pool.Holds(buf) && pool.ItAt(r, buf, 0)
    ensures pool.book.owned == Swapped(old(pool.book.owned), old(buf.frags), buf.frags)
    ensures n <= |ws| && bytes == Upto(ws, n) <= offset && (n < |ws| ==> offset < Upto(ws, n + 1))
    ensures buf.chain == old(buf.chain)[n..]
  {
    ghost var (fs, head, owned) := (buf.chain, buf.frags, pool.book.owned);
    n, bytes, r := 0, 0, it;
    while r.cur != null
      invariant pool.Valid() && pool.Holds(buf) && pool.ItAt(r, buf, 0)
      invariant n <= |fs| && buf.chain == fs[n..] && bytes == Upto(ws, n) <= offset
      invariant pool.book.owned == Swapped(owned, head, buf.frags)
      decreases |fs| - n
    {
      var more;
      r, bytes, more, n := DropOne(pool, buf, r, bytes, offset, fs, ws, n, head, owned);
      if !more {
        break;
      }
    }
  }

  /** The last fragment of the first `size` bytes, and how many of its bytes they use. */
  method SeekKept(pool: Pool, buf: Pbuf, start: Ci, size: nat) returns (it: Ci, bytes: nat, ghost k: nat)
    requires pool.Valid() && pool.Holds(buf) && pool.ItAt(start, buf, 0)
    ensures pool.ItAt(it, buf, k) && it.cur != null ==> bytes <= it.cur.size
    ensures pool.ItAt(it, buf, k)
    ensures KeepTail(Windows(buf.chain), size) ==
            Windows(buf.chain)[..k] + if it.cur == null then [] else [WindowOf(it.cur).(len := bytes)]
  {
    ghost var ws := Windows(buf.chain);
    k, bytes := 0, 0;
    var rem: nat := size;
    it := start;
    while it.cur != null
      invariant pool.ItAt(it, buf, k) && rem == size - Upto(ws, k) && (k > 0 ==> rem > 0)
      decreases |ws| - k
    {
      bytes := Min(it.cur.size, rem);
      rem := rem - bytes;
      if rem == 0 {
        break;
      }
      it := pool.CiNext(it, buf, k);
      k := k + 1;
    }
    KeepTailIs(ws, size, k);
    assert Windows(buf.chain) == ws;
  }

  /** A fragment of a chain changes its window; the others keep theirs. */
  lemma OneWindowMoved(nx: Links, a: Frag?, fs: seq<Frag>, ws: seq<Window>, k: nat)
    requires IsChain(nx, a, fs) && k < |fs| == |ws|
    requires forall i {:trigger ws[i]} :: 0 <= i < |fs| && fs[i] != fs[k] ==> WindowOf(fs[i]) == ws[i]
    ensures Windows(fs) == ws[k := WindowOf(fs[k])]
  {
    forall i | 0 <= i < |fs| && i != k ensures fs[i] != fs[k] {
      if i < k {
        ChainIsDistinct(nx, a, fs, i, k);
      } else {
        ChainIsDistinct(nx, a, fs, k, i);
      }
    }
  }

  method TrimTail(pool: Pool, buf: Pbuf, it: Ci, bytes: nat, ghost k: nat)
    requires pool.Valid() && pool.Holds(buf) && pool.ItAt(it, buf, k) && it.cur != null && bytes <= it.cur.size
    modifies it.cur`size
    ensures pool.Valid()
    ensures Windows(buf.chain) == old(Windows(buf.chain)[k := WindowOf(it.cur).(len := bytes)])
  {
    ghost var (nx, a, fs, ws) := (pool.book.nx, buf.frags, buf.chain, Windows(buf.chain));
    if it.cur.size > bytes {
      var mem := it.cur.ReleaseTail(it.cur.size - bytes);
      OneWindowMoved(nx, a, fs, ws, k);
    }
  }

  method DetachAfter(pool: Pool, buf: Pbuf, it: Ci, ghost k: nat)
    requires pool.Valid() && pool.Holds(buf) && pool.ItAt(it, buf, k) && it.cur != null
    modifies pool, buf, Elements(buf.chain)`next, Elements(buf.chain)`refcnt
    ensures pool.Valid() && pool.Holds(buf)
    ensures pool.book.owned == Swapped(old(pool.book.owned), old(buf.frags), buf.frags)
    ensures buf.chain == old(buf.chain)[..k + 1]
  {
    var next := pool.CiNext(it, buf, k);
    if next.cur != null {
      pool.CiDetach(next, buf, k + 1);
    }
  }

  twostate lemma WindowsKept(fs: seq<Frag>)
    requires forall f :: f in fs ==> WindowOf(f) == old(WindowOf(f))
    ensures Windows(fs) == old(Windows(fs))
  {
  }

  /** Gives up what follows the iterator's fragment. */
  method CutAfter(pool: Pool, buf: Pbuf, it: Ci, ghost k: nat)
    requires pool.Valid() && pool.Holds(buf) && pool.ItAt(it, buf, k) && it.cur != null
    modifies pool, buf, Elements(buf.chain)`next, Elements(buf.chain)`refcnt
    ensures pool.Valid() && pool.Holds(buf)
    ensures pool.book.owned == Swapped(old(pool.book.owned), old(buf.frags), buf.frags)
    ensures buf.chain == old(buf.chain)[..k + 1] && Windows(buf.chain) == old(Windows(buf.chain))[..k + 1]
  {
    ghost var fs := buf.chain;
    DetachAfter(pool, buf, it, k);
    WindowsKept(fs);
    WindowsTake(fs, k + 1);
  }

  lemma KeptPart(ws: seq<Window>, k: nat, w: Window)
    requires k < |ws|
    ensures ws[k := w][..k + 1] == ws[..k] + [w]
  {
  }

  /** Makes the first `bytes` bytes of the iterator's window the last of the buffer. */
  method KeepUpTo(pool: Pool, buf: Pbuf, it: Ci, bytes: nat, ghost k: nat)
    requires pool.Valid() && pool.Holds(buf) && pool.ItAt(it, buf, k) && it.cur != null && bytes <= it.cur.size
    modifies pool, buf, Elements(buf.chain)`next, Elements(buf.chain)`refcnt, Elements(buf.chain)`size
    ensures pool.Valid() && pool.Holds(buf)
    ensures pool.book.owned == Swapped(old(pool.book.owned), old(buf.frags), buf.frags)
    ensures buf.chain == old(buf.chain)[..k + 1]
    ensures Windows(buf.chain) == old(Windows(buf.chain)[..k] + [WindowOf(it.cur).(len := bytes)])
  {
    assert it.cur in Elements(buf.chain);
    KeptPart(Windows(buf.chain), k, WindowOf(it.cur).(len := bytes));
    TrimTail(pool, buf, it, bytes, k);
    CutAfter(pool, buf, it, k);
  }

  /** Keeps the first `size` bytes. */
  method KeepFirst(pool: Pool, buf: Pbuf, start: Ci, size: nat)
    requires pool.Valid() && pool.Holds(buf) && pool.ItAt(start, buf, 0)
    modifies pool, buf, Elements(buf.chain)`next, Elements(buf.chain)`refcnt, Elements(buf.chain)`size
    ensures pool.Valid() && pool.Holds(buf)
    ensures pool.book.owned == Swapped(old(pool.book.owned), old(buf.frags), buf.frags)
    ensures buf.chain <= old(buf.chain)
    ensures Windows(buf.chain) == old(KeepTail(Windows(buf.chain), size))
  {
    var it, bytes, k := SeekKept(pool, buf, start, size);
    if it.cur != null {
      KeepUpTo(pool, buf, it, bytes, k);
    }
  }

  /** The windows once `cut` bytes are cut off the front of the `n`th. */
  ghost function CutAt(ws: seq<Window>, n: nat, cut: int): (r: seq<Window>)
    ensures |r| == |ws|
  {
    if n < |ws| && 0 <= cut <= ws[n].len
    then ws[n := Window(ws[n].store, ws[n].off + cut, ws[n].len - cut)]
    else ws
  }

  lemma DropHeadIs(ws: seq<Window>, off: nat, n: nat, cut: nat)
    requires off > 0 && n <= |ws| && Upto(ws, n) <= off && (n < |ws| ==> off < Upto(ws, n + 1))
    requires cut == off - Upto(ws, n)
    ensures CutAt(ws, n, cut)[n..] == DropHead(ws, off)
  {
    SeekIs(ws, off, n);
    UptoIs(ws, n);
    if n < |ws| {
      assert ws[n..] == [ws[n]] + ws[n + 1..];
    }
  }

  lemma WindowsDrop(fs: seq<Frag>, k: nat)
    requires k <= |fs|
    ensures Windows(fs[k..]) == Windows(fs)[k..]
  {
  }

  method DropFragments(pool: Pool, buf: Pbuf, start: Ci, offset: nat, ghost fs: seq<Frag>, ghost ws: seq<Window>)
    returns (it: Ci, bytes: nat, ghost n: nat)
    requires pool.Valid() && pool.Holds(buf) && pool.ItAt(start, buf, 0) && buf.chain == fs && Windows(fs) == ws
    modifies pool, buf, Elements(fs)`next, Elements(fs)`refcnt
    ensures pool.Valid() && pool.Holds(buf) && pool.ItAt(it, buf, 0)
    ensures pool.book.owned == Swapped(old(pool.book.owned), old(buf.frags), buf.frags)
    ensures n <= |fs| && buf.chain == fs[n..] && it.cur == Nth(fs, n, null)
    ensures bytes == Upto(ws, n) <= offset && (n < |ws| ==> offset < Upto(ws, n + 1))
    ensures Windows(fs) == ws
  {
    it, bytes, n := DropWhole(pool, buf, start, offset, ws);
    WindowsKept(fs);
  }

  /** Cuts `bytes` bytes off the front of the `n`th fragment of a chain. */
  method TrimHead(pool: Pool, it: Ci, bytes: nat, ghost nx: Links, ghost a: Frag?, ghost fs: seq<Frag>, ghost n: nat)
    requires pool.Valid() && IsChain(nx, a, fs) && it.cur == Nth(fs, n, null)
    requires it.cur != null ==> pool.Live(it.cur) && bytes <= it.cur.size
    modifies One(it.cur)`data, One(it.cur)`size
    ensures pool.Valid() && Windows(fs) == CutAt(old(Windows(fs)), n, bytes)
  {
    ghost var ws := Windows(fs);
    if it.cur != null && bytes > 0 {
      var mem := it.cur.ReleaseHead(bytes);
      OneWindowMoved(nx, a, fs, ws, n);
    }
  }

  lemma CutFits(fs: seq<Frag>, ws: seq<Window>, off: nat, n: nat, cut: nat)
    requires Windows(fs) == ws && n <= |ws| && (n < |ws| ==> off < Upto(ws, n + 1)) && off == Upto(ws, n) + cut
    ensures n < |ws| ==> fs[n] in Elements(fs) && cut <= fs[n].size
  {
  }

  /** The same, for the fragment the offset falls in, if there is one. */
  method TrimFirst(pool: Pool, ghost buf: Pbuf, it: Ci, cut: nat, offset: nat, ghost nx: Links, ghost a: Frag?,
          ghost fs: seq<Frag>, ghost ws: seq<Window>, ghost n: nat)
    requires pool.Valid() && IsChain(nx, a, fs) && it.cur == Nth(fs, n, null) && Windows(fs) == ws
    requires n <= |ws| && offset == Upto(ws, n) + cut && (n < |ws| ==> offset < Upto(ws, n + 1))
    requires pool.Holds(buf) && pool.ItAt(it, buf, 0)
    modifies Elements(fs)`data, Elements(fs)`size
    ensures pool.Valid() && pool.Holds(buf) && pool.ItAt(it, buf, 0) && Windows(fs) == CutAt(ws, n, cut)
    ensures pool.book == old(pool.book) && buf.frags == old(buf.frags) && buf.chain == old(buf.chain)
  {
    if it.cur != null {
      CutFits(fs, ws, offset, n, cut);
      TrimHead(pool, it, cut, nx, a, fs, n);
    }
  }

  method DropFirst(pool: Pool, buf: Pbuf, start: Ci, offset: nat, ghost fs: seq<Frag>, ghost ws: seq<Window>)
    returns (it: Ci, ghost n: nat, cut: nat)
    requires pool.Valid() && pool.Holds(buf) && pool.ItAt(start, buf, 0) && buf.chain == fs && Windows(fs) == ws
    modifies pool, buf, Elements(fs)`next, Elements(fs)`refcnt, Elements(fs)`data, Elements(fs)`size
    ensures pool.Valid() && pool.Holds(buf) && pool.ItAt(it, buf, 0)
    ensures pool.book.owned == Swapped(old(pool.book.owned), old(buf.frags), buf.frags)
    ensures n <= |fs| && buf.chain == fs[n..]
    ensures Upto(ws, n) <= offset && (n < |ws| ==> offset < Upto(ws, n + 1))
    ensures offset == Upto(ws, n) + cut && Windows(fs) == CutAt(ws, n, cut)
  {
    ghost var (a, nx) := (buf.frags, pool.book.nx);
    var bytes;
    it, bytes, n := DropFragments(pool, buf, start, offset, fs, ws);
    cut := offset - bytes;
    TrimFirst(pool, buf, it, cut, offset, nx, a, fs, ws, n);
  }

  method DropBytes(pool: Pool, buf: Pbuf, start: Ci, offset: nat) returns (it: Ci, ghost n: nat)
    requires pool.Valid() && pool.Holds(buf) && pool.ItAt(start, buf, 0) && offset > 0
    modifies pool, buf, Elements(buf.chain)`next, Elements(buf.chain)`refcnt
    modifies Elements(buf.chain)`data, Elements(buf.chain)`size
    ensures pool.Valid() && pool.Holds(buf) && pool.ItAt(it, buf, 0)
    ensures pool.book.owned == Swapped(old(pool.book.owned), old(buf.frags), buf.frags)
    ensures n <= |old(buf.chain)| && buf.chain == old(buf.chain)[n..]
    ensures Windows(buf.chain) == old(DropHead(Windows(buf.chain), offset))
  {
    ghost var (fs, ws) := (buf.chain, Windows(buf.chain));
    var cut;
    it, n, cut := DropFirst(pool, buf, start, offset, fs, ws);
    DropHeadIs(ws, offset, n, cut);
    WindowsDrop(fs, n);
  }

  /** Main result: shrinking refines slicing. The buffer is left with a contiguous
      run of its fragments showing the bytes from `offset` on, at most `size` of
      them (PbufWindows.ShrunkShows); it gives up its reference to every other
      fragment, and the counts stay exact. */
  method Shrink(pool: Pool, buf: Pbuf, offset: nat, size: nat) returns (ghost n: nat)
    requires pool.Valid() && pool.Holds(buf)
    modifies pool, buf, Elements(buf.chain)`next, Elements(buf.chain)`refcnt
    modifies Elements(buf.chain)`data, Elements(buf.chain)`size
    ensures pool.Valid() && pool.Holds(buf)
    ensures pool.book.owned == Swapped(old(pool.book.owned), old(buf.frags), buf.frags)
    ensures n <= |old(buf.chain)| && buf.chain <= old(buf.chain)[n..]
    ensures Windows(buf.chain) == old(Shrunk(Windows(buf.chain), offset, size))
  {
    ghost var (fs, head, owned) := (buf.chain, buf.frags, pool.book.owned);
    var it := pool.CiInit(buf);
    n := 0;
    if offset > 0 {
      it, n := DropBytes(pool, buf, it, offset);

      if it.cur == null {
        return;
      }
    }
    ghost var mid := buf.frags;
    assert Elements(buf.chain) <= Elements(fs);
    KeepFirst(pool, buf, it, size);
    SwapTwice(owned, head, mid, buf.frags);
  }

  method StripHead(pool: Pool, buf: Pbuf, size: nat)
    requires pool.Valid() && pool.Holds(buf) && Total(Windows(buf.chain)) < SIZE_MODULUS && size < SIZE_MODULUS
    modifies pool, buf, Elements(buf.chain)`next, Elements(buf.chain)`refcnt
    modifies Elements(buf.chain)`data, Elements(buf.chain)`size
    ensures pool.Valid() && pool.Holds(buf)
    ensures pool.book.owned == Swapped(old(pool.book.owned), old(buf.frags), buf.frags)
    ensures Windows(buf.chain) == old(HeadStripped(Windows(buf.chain), size))
  {
    var n := Size(pool, buf);
    var rest := SizeSub(n, size);
    ghost var k := Shrink(pool, buf, size, rest);
  }

  method StripTail(pool: Pool, buf: Pbuf, size: nat)
    requires pool.Valid() && pool.Holds(buf) && Total(Windows(buf.chain)) < SIZE_MODULUS && size < SIZE_MODULUS
    modifies pool, buf, Elements(buf.chain)`next, Elements(buf.chain)`refcnt
    modifies Elements(buf.chain)`data, Elements(buf.chain)`size
    ensures pool.Valid() && pool.Holds(buf)
    ensures pool.book.owned == Swapped(old(pool.book.owned), old(buf.frags), buf.frags)
    ensures Windows(buf.chain) == old(TailStripped(Windows(buf.chain), size))
  {
    var n := Size(pool, buf);
    var rest := SizeSub(n, size);
    ghost var k := Shrink(pool, buf, 0, rest);
  }
}
