// Views, copies, clones and putting bytes (pbuf/buf.c): the operations that read
// or write what the fragments of a buffer show.
module PbufView {

  import opened PbufLinks
  import opened PbufChains
  import opened PbufBasic
  import opened PbufWindows
  import opened PbufBuf

  // ----- Buffers nobody edits -----

  /** The fragments' own links follow the chain, whatever the pool records. */
  ghost predicate Linked(fs: seq<Frag>)
    reads Elements(fs)
  {
    forall i {:trigger fs[i].next} :: 0 <= i < |fs| ==> fs[i] in Elements(fs) && fs[i].next == Nth(fs, i + 1, null)
  }

  lemma HeldIsLinked(pool: Pool, buf: Pbuf)
    requires pool.Valid() && pool.Holds(buf)
    ensures Linked(buf.chain)
  {
    var (nx, fs) := (pool.book.nx, buf.chain);
    forall i | 0 <= i < |fs| ensures fs[i] in Elements(fs) && fs[i].next == Nth(fs, i + 1, null) {
      assert fs[i] in nx && nx[fs[i]] == Nth(fs, i + 1, null);
    }
  }

  /** Main result: an edit of one buffer leaves every other buffer whole. While a
      reference to it is owned and none of its links is written, the buffer keeps
      its chain, whatever was freed or inserted elsewhere. */
  lemma LinkedIsHeld(pool: Pool, buf: Pbuf)
    requires pool.Valid() && pool.Owns(buf.frags) && buf.frags == Nth(buf.chain, 0, null) && Linked(buf.chain)
    ensures pool.Holds(buf)
  {
    var (nx, fs) := (pool.book.nx, buf.chain);
    assert fs != [] ==> fs[0] in pool.book.owned;
    LinkedIsLive(pool, fs, |fs|);
  }

  lemma {:induction false} LinkedIsLive(pool: Pool, fs: seq<Frag>, n: nat)
    requires pool.Valid() && Linked(fs) && n <= |fs| && (fs != [] ==> fs[0] in pool.book.nx)
    ensures forall i :: 0 <= i < n ==> fs[i] in pool.book.nx && pool.book.nx[fs[i]] == fs[i].next
  {
    if n > 0 {
      LinkedIsLive(pool, fs, n - 1);
      if n > 1 {
        assert LinksLive(pool.book.nx, fs[n - 2]) && fs[n - 2].next == fs[n - 1];
      }
    }
  }

  /** The iterator after one that is not at the end. */
  function Advanced(it: Ci): Ci
    requires it.cur != null
    reads it.cur
  {
    Ci(Next(it.cur), it.cur.next)
  }

  // ----- Views -----

  /** A new fragment over foreign memory, with a handle of its own. */
  method NewPiece(pool: Pool, w: Window, ghost view: Pbuf) returns (piece: Pbuf)
    requires pool.Valid() && pool.Holds(view) && w.off + w.len <= w.store.Length
    modifies pool
    ensures pool.Valid() && Apart(pool, view, piece) && fresh(piece)
    ensures piece.frags != null && fresh(piece.frags) && piece.chain == [piece.frags] && WindowOf(piece.frags) == w
    ensures pool.book.owned == old(pool.book.owned) + Ref(piece.frags)
  {
    var frag := pool.NewRo(w.store, w.off, w.len);
    piece := new Pbuf(frag, [frag]);
    assert !old(allocated(frag));
    assert Disjoint(view.chain, piece.chain);
  }

  lemma OwnsSame(owned: multiset<Frag>, f: Frag?, a: Frag?)
    ensures Swapped(owned + Ref(f) - Ref(f), a, a) == owned
  {
  }

  lemma AppendAt(fs: seq<Frag>, n: nat, f: Frag)
    requires n == |fs|
    ensures fs[..n] + [f] + fs[n..] == fs + [f]
  {
  }

  /** Inserts a held piece after the view's last fragment. */
  method AppendPiece(pool: Pool, view: Pbuf, inserter: Ci, piece: Pbuf, ghost k: nat, ghost n: nat) returns (r: Ci)
    requires pool.Valid() && Apart(pool, view, piece) && piece.frags != null && piece.chain == [piece.frags]
    requires pool.ItAt(inserter, view, k) && n == |view.chain| == k + 1
    modifies pool, view, Elements(view.chain)`next, piece.frags`next
    ensures pool.Valid() && pool.Holds(view) && pool.ItAt(r, view, n)
    ensures pool.book.owned == old(pool.book.owned) - Ref(piece.frags) && view.frags == old(view.frags)
    ensures view.chain == old(view.chain) + [piece.frags]
  {
    AppendAt(view.chain, n, piece.frags);
    assert Elements(piece.chain) == {piece.frags};
    var next := pool.CiNext(inserter, view, k);
    r := pool.CiInsert(next, piece, view, n);
  }

  lemma WindowsJoined(fs: seq<Frag>, ws: seq<Window>, f: Frag, w: Window)
    requires Windows(fs) == ws && WindowOf(f) == w
    ensures Windows(fs + [f]) == ws + [w]
  {
  }

  method InsertPiece(pool: Pool, view: Pbuf, inserter: Ci, piece: Pbuf, ghost k: nat, ghost n: nat,
          ghost ws: seq<Window>, ghost w: Window) returns (r: Ci)
    requires pool.Valid() && Apart(pool, view, piece) && piece.frags != null && piece.chain == [piece.frags]
    requires pool.ItAt(inserter, view, k) && n == |view.chain| == k + 1
    requires Windows(view.chain) == ws && WindowOf(piece.frags) == w
    modifies pool, view, Elements(view.chain)`next, piece.frags`next
    ensures pool.Valid() && pool.Holds(view) && pool.ItAt(r, view, n)
    ensures pool.book.owned == old(pool.book.owned) - Ref(piece.frags) && view.frags == old(view.frags)
    ensures view.chain == old(view.chain) + [piece.frags] && Windows(view.chain) == ws + [w]
  {
    ghost var (fs, f) := (view.chain, piece.frags);
    r := AppendPiece(pool, view, inserter, piece, k, n);
    WindowsKept(fs);
    WindowsJoined(fs, ws, f, w);
  }

  /** Appends a fragment over foreign memory to the view. */
  method AppendRo(pool: Pool, view: Pbuf, inserter: Ci, w: Window, ghost k: nat, ghost n: nat,
          ghost ws: seq<Window>) returns (r: Ci)
    requires pool.Valid() && pool.Holds(view) && w.off + w.len <= w.store.Length
    requires pool.ItAt(inserter, view, k) && n == |view.chain| == k + 1 && ws == Windows(view.chain)
    modifies pool, view, Elements(view.chain)`next
    ensures pool.Valid() && pool.Holds(view) && pool.ItAt(r, view, n) && |view.chain| == n + 1
    ensures pool.book.owned == old(pool.book.owned) && view.frags == old(view.frags)
    ensures fresh(Elements(view.chain) - old(Elements(view.chain)))
    ensures Windows(view.chain) == ws + [w]
  {
    var piece := NewPiece(pool, w, view);
    OwnsSame(old(pool.book.owned), piece.frags, view.frags);
    r := InsertPiece(pool, view, inserter, piece, k, n, ws, w);
  }

  /** `vs` and the first `size` bytes of the windows after the first `k` are `want`. */
  ghost predicate Remains(ws: seq<Window>, k: nat, size: nat, vs: seq<Window>, want: seq<Window>) {
    k <= |ws| && size <= Total(ws[k..]) && want == vs + Take(ws[k..], size)
  }

  lemma MorePieces(ws: seq<Window>, k: nat, size: nat, vs: seq<Window>, want: seq<Window>)
    requires Remains(ws, k, size, vs, want) && size > 0
    ensures k < |ws|
  {
  }

  lemma NextPiece(ws: seq<Window>, k: nat, k': nat, size: nat, vs: seq<Window>, want: seq<Window>, len: nat, rem: nat)
    requires Remains(ws, k, size, vs, want) && size > 0 && k' == k + 1 <= |ws|
    requires len == Min(ws[k].len, size) && rem == size - len
    ensures Remains(ws, k', rem, vs + [ws[k].(len := len)], want)
  {
    assert ws[k..][1..] == ws[k'..];
  }

  /** The chain `fs` can be read while `others` are written. */
  ghost predicate Feeds(fs: seq<Frag>, ws: seq<Window>, others: seq<Frag>)
    reads Elements(fs)
  {
    Linked(fs) && Windows(fs) == ws && Elements(fs) !! Elements(others) && forall f :: f in Elements(fs) ==> f.Fits()
  }

  /** One turn of the view's loop: the next fragment of `fs`, or its beginning. */
  method ViewStep(pool: Pool, view: Pbuf, inserter: Ci, it: Ci, size: nat, ghost fs: seq<Frag>, ghost ws: seq<Window>,
                  ghost k: nat, ghost n: nat, ghost want: seq<Window>)
    returns (r: Ci, next: Ci, rem: nat, ghost k': nat, ghost n': nat)
    requires pool.Valid() && pool.Holds(view) && pool.ItAt(inserter, view, n) && |view.chain| == n + 1
    requires Feeds(fs, ws, view.chain)
    requires k <= |fs| && it.cur != null && it.cur == Before(fs, k) && size > 0
          && Remains(ws, k, size, Windows(view.chain), want)
    modifies pool, view, Elements(view.chain)`next
    ensures pool.Valid() && pool.Holds(view) && pool.ItAt(r, view, n') && n' == n + 1 && |view.chain| == n' + 1
    ensures pool.book.owned == old(pool.book.owned) && view.frags == old(view.frags)
    ensures fresh(Elements(view.chain) - old(Elements(view.chain)))
    ensures Feeds(fs, ws, view.chain)
    ensures k < k' <= |fs| && next.cur != null && next.cur == Before(fs, k')
          && Remains(ws, k', rem, Windows(view.chain), want)
  {
    k', n' := k + 1, n + 1;
    next := Advanced(it);
    assert it.cur == fs[k - 1];
    ghost var vs := Windows(view.chain);
    MorePieces(ws, k, size, vs, want);
    assert WindowOf(next.cur) == ws[k] && next.cur.Fits();
    var len := Min(next.cur.size, size);
    rem := size - len;
    NextPiece(ws, k, k', size, vs, want, len, rem);
    var w := Window(next.cur.store, next.cur.data, len);
    r := AppendRo(pool, view, inserter, w, n, n', vs);
  }

  lemma ViewBegins(ws: seq<Window>, off: nat, size: nat, j: nat, boundary: nat)
    requires Viewable(ws, off, size) && j == Seek(ws, off) && boundary == Upto(ws, j)
    ensures j < |ws| && boundary <= off <= boundary + ws[j].len
  {
    ViewLemma(ws, off, size);
    UptoIs(ws, j);
  }

  lemma FirstPiece(ws: seq<Window>, off: nat, size: nat, j: nat, k: nat, cut: nat, len: nat, rem: nat)
    requires Viewable(ws, off, size) && j == Seek(ws, off) && k == j + 1 && cut == off - Upto(ws, j)
    requires cut <= ws[j].len && len == Min(ws[j].len - cut, size) && rem == size - len
    ensures Remains(ws, k, rem, [Window(ws[j].store, ws[j].off + cut, len)], View(ws, off, size))
  {
    ViewLemma(ws, off, size);
    UptoIs(ws, j);
    FirstOf(ws[j], ws[k..], cut, size, len, rem);
  }

  lemma FirstOf(w: Window, post: seq<Window>, cut: nat, n: nat, len: nat, rem: nat)
    requires cut <= w.len && cut + n <= w.len + Total(post) && len == Min(w.len - cut, n) && rem == n - len
    ensures rem <= Total(post) && ViewFrom(w, post, cut, n) == [Window(w.store, w.off + cut, len)] + Take(post, rem)
  {
  }

  /** The first fragment of a view, starting inside the fragment the offset falls in. */
  method ViewStart(pool: Pool, buf: Pbuf, offset: nat, size: nat, ghost ws: seq<Window>)
    returns (it: Ci, w: Window, rem: nat, ghost k: nat)
    requires pool.Valid() && pool.Holds(buf) && ws == Windows(buf.chain) && Viewable(ws, offset, size)
    ensures k <= |buf.chain| && it.cur != null && it.cur == Before(buf.chain, k) && w.off + w.len <= w.store.Length
    ensures Remains(ws, k, rem, [w], View(ws, offset, size))
  {
    var boundary;
    ghost var j;
    it, boundary, j := BufSeek(pool, buf, offset);
    assert Windows(buf.chain) == ws;
    ViewBegins(ws, offset, size, j, boundary);
    assert it.cur != null && WindowOf(it.cur) == ws[j] && it.cur.Fits();
    var cut := offset - boundary;
    var len := Min(it.cur.size - cut, size);
    rem, k := size - len, j + 1;
    FirstPiece(ws, offset, size, j, k, cut, len, rem);
    w := Window(it.cur.store, it.cur.data + cut, len);
  }

  method NewView(pool: Pool, w: Window, ghost buf: Pbuf, ghost ws: seq<Window>) returns (view: Pbuf)
    requires pool.Valid() && pool.Holds(buf) && ws == Windows(buf.chain) && w.off + w.len <= w.store.Length
    modifies pool
    ensures pool.Valid() && pool.Holds(view) && fresh(view) && fresh(Elements(view.chain))
    ensures |view.chain| == 1 && Windows(view.chain) == [w]
    ensures pool.book.owned == old(pool.book.owned) + Ref(view.frags)
    ensures Feeds(buf.chain, ws, view.chain)
  {
    HeldIsLinked(pool, buf);
    var frag := pool.NewRo(w.store, w.off, w.len);
    view := new Pbuf(frag, [frag]);
    assert Elements(view.chain) == {frag};
    ghost var fs := buf.chain;
    forall i | 0 <= i < |fs| ensures fs[i] in Elements(fs) && fs[i].next == Nth(fs, i + 1, null) {
      assert old(fs[i].next) == Nth(fs, i + 1, null);
    }
    assert Windows(buf.chain) == ws;
    assert Elements(buf.chain) !! Elements(view.chain);
    assert forall f :: f in Elements(buf.chain) ==> f.Fits();
  }

  method ViewRest(pool: Pool, view: Pbuf, start: Ci, size: nat, ghost fs: seq<Frag>, ghost ws: seq<Window>,
                  ghost first: nat, ghost want: seq<Window>)
    requires pool.Valid() && pool.Holds(view) && |view.chain| == 1 && Feeds(fs, ws, view.chain)
    requires first <= |fs| && start.cur != null && start.cur == Before(fs, first)
          && Remains(ws, first, size, Windows(view.chain), want)
    modifies pool, view, Elements(view.chain)`next
    ensures pool.Valid() && pool.Holds(view) && Windows(view.chain) == want && Linked(fs)
    ensures pool.book.owned == old(pool.book.owned) && view.frags == old(view.frags)
    ensures fresh(Elements(view.chain) - old(Elements(view.chain)))
  {
    var (it, rem) := (start, size);
    ghost var (k, n) := (first, 0);
    var inserter := pool.CiInit(view);
    while rem > 0
      invariant pool.Valid() && pool.Holds(view) && pool.ItAt(inserter, view, n) && |view.chain| == n + 1
      invariant Feeds(fs, ws, view.chain)
      invariant k <= |fs| && it.cur != null && it.cur == Before(fs, k) && Remains(ws, k, rem, Windows(view.chain), want)
      invariant pool.book.owned == old(pool.book.owned) && view.frags == old(view.frags)
      invariant fresh(Elements(view.chain) - old(Elements(view.chain)))
      decreases |fs| - k
    {
      inserter, it, rem, k, n := ViewStep(pool, view, inserter, it, rem, fs, ws, k, n, want);
    }
  }

  method ViewFrom1(pool: Pool, start: Ci, w: Window, size: nat, ghost buf: Pbuf, ghost ws: seq<Window>,
          ghost first: nat, ghost want: seq<Window>)
    returns (view: Pbuf)
    requires pool.Valid() && pool.Holds(buf) && ws == Windows(buf.chain) && w.off + w.len <= w.store.Length
    requires first <= |buf.chain| && start.cur != null && start.cur == Before(buf.chain, first)
          && Remains(ws, first, size, [w], want)
    modifies pool
    ensures pool.Valid() && pool.Holds(view) && fresh(view) && fresh(Elements(view.chain))
    ensures pool.book.owned == old(pool.book.owned) + Ref(view.frags)
    ensures Windows(view.chain) == want && Linked(buf.chain)
  {
    view := NewView(pool, w, buf, ws);
    ViewRest(pool, view, start, size, buf.chain, ws, first, want);
  }

  /** Main result: a view's fragments are windows of its source's memory; what they
      show, in any memory, is PbufWindows.ViewIsLive. */
  method TakeView(pool: Pool, buf: Pbuf, offset: nat, size: nat) returns (view: Pbuf)
    requires pool.Valid() && pool.Holds(buf) && Viewable(Windows(buf.chain), offset, size)
    modifies pool
    ensures pool.Valid() && pool.Holds(view) && fresh(view) && fresh(Elements(view.chain))
    ensures pool.book.owned == old(pool.book.owned) + Ref(view.frags) && pool.Holds(buf)
    ensures Windows(view.chain) == old(View(Windows(buf.chain), offset, size))
  {
    ghost var ws := Windows(buf.chain);
    ghost var want := View(ws, offset, size);
    var it, w, rem;
    ghost var k;
    it, w, rem, k := ViewStart(pool, buf, offset, size, ws);
    view := ViewFrom1(pool, it, w, rem, buf, ws, k, want);
    LinkedIsHeld(pool, buf);
  }
}
