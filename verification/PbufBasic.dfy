// Fragments, handles and contiguous iterators as the source edits them in place
// (pbuf/basic/basic.c): pointers to fragments, links rewritten through the
// pointer that led to the current one, counts raised and lowered, and fragments
// returned to the allocator.
module PbufBasic {

  import opened PbufLinks
  import opened PbufChains

  /** The caller's handle variable, and the fragments of the buffer it stands for. */
  class Pbuf {
    var frags: Frag?
    ghost var chain: seq<Frag>

    constructor (frags: Frag?, ghost chain: seq<Frag>)
      ensures this.frags == frags && this.chain == chain
    {
      this.frags, this.chain := frags, chain;
    }
  }

  /** What led to the current fragment: the handle variable or a fragment's link. */
  datatype LastP = Head(buf: Pbuf) | Next(frag: Frag)

  datatype Ci = Ci(lastp: LastP, cur: Frag?)

  ghost function One(f: Frag?): set<Frag> {
    if f == null then {} else {f}
  }

  /** The iterator at position `k` of the chain `fs` of `buf`. */
  ghost function Position(buf: Pbuf, fs: seq<Frag>, k: nat): Ci
    requires k <= |fs|
  {
    var p := Before(fs, k);
    Ci(if p == null then Head(buf) else Next(p), Nth(fs, k, null))
  }

  class Pool {
    /** The links and counts of the fragments allocated and not yet freed, and the
        references held by handles, one for each decref still to be made. */
    ghost var book: Ledger

    /** The book records what the fragments hold, and every window is in its room. */
    ghost predicate Valid()
      reads this, book.nx.Keys
    {
      forall f {:trigger f.next} {:trigger f.refcnt} {:trigger f.Fits()} :: f in book.nx ==>
        f in book.rc && f.next == book.nx[f] && f.refcnt == book.rc[f] && f.Fits()
    }

    ghost predicate Live(f: Frag)
      reads this
    {
      f in book.nx
    }

    ghost predicate Owns(a: Frag?)
      reads this
    {
      Ref(a) <= book.owned
    }

    /** What is live of the fragments in `nx` is what a reference still owned reaches. */
    ghost predicate OnlyReachableLive(nx: Links)
      reads this
    {
      forall f {:trigger Live(f)} :: f in nx ==> (Live(f) <==> Reachable(nx, book.owned, f))
    }

    /** `buf` stands for the chain recorded with it, and owns a reference to it. */
    ghost predicate Holds(buf: Pbuf)
      reads this, buf
    {
      Owns(buf.frags) && IsChain(book.nx, buf.frags, buf.chain)
    }

    /** `it` is the iterator of `buf` at position `k`. */
    ghost predicate ItAt(it: Ci, buf: Pbuf, k: nat)
      reads buf
    {
      k <= |buf.chain| && it == Position(buf, buf.chain, k)
    }

    constructor ()
      ensures Valid() && book == Tally(map[], map[], multiset{})
    {
      book := Tally(map[], map[], multiset{});
    }

    method New(size: nat) returns (buf: Frag)
      requires Valid()
      modifies this
      ensures Valid() && fresh(buf) && fresh(buf.store)
      ensures book.owned == old(book.owned) + multiset{buf} && book.nx == old(book.nx)[buf := null]
      ensures buf.base == buf.data == buf.size == 0 && buf.cap == buf.store.Length == size
    {
      var store := new Byte[size](_ => 0);
      buf := new Frag(store, 0, 0, 0, size);
      assert !Live(buf);
      NewKeepsSound(book.nx, book.rc, book.owned, buf);
      book := Tally(book.nx[buf := null], book.rc[buf := 1], book.owned + multiset{buf});
    }

    /** A fragment over memory it does not own: `size` bytes of `store` from `data`. */
    method NewRo(store: array<Byte>, data: nat, size: nat) returns (buf: Frag)
      requires Valid() && data + size <= store.Length
      modifies this
      ensures Valid() && fresh(buf)
      ensures book.owned == old(book.owned) + multiset{buf} && book.nx == old(book.nx)[buf := null]
      ensures buf.store == store && buf.base == buf.data == data && buf.size == buf.cap == size
    {
      buf := New(0);
      buf.PointAt(store, data, size);
    }

    method Incref(buf: Frag)
      requires Valid() && Live(buf)
      modifies this, buf`refcnt
      ensures Valid() && book.nx == old(book.nx) && book.owned == old(book.owned) + multiset{buf}
      ensures buf.refcnt == old(buf.refcnt) + 1
    {
      AddKeepsSound(book.nx, book.rc, book.owned, buf);
      buf.refcnt := buf.refcnt + 1;
      book := Tally(book.nx, book.rc[buf := book.rc[buf] + 1], book.owned + multiset{buf});
    }

    /** Lowers one count, and frees the fragment when nothing refers to it; the
        reference its link held is then the caller's, beside the `rest`. */
    method Release(f: Frag, ghost rest: multiset<Frag>) returns (freed: bool)
      requires Valid() && book.owned == rest + multiset{f}
      modifies this, f`refcnt
      ensures Valid() && freed == (old(f.refcnt) == 1)
      ensures freed ==> book.nx == old(book.nx) - {f} && book.owned == rest + Ref(f.next)
      ensures !freed ==> book.nx == old(book.nx) && book.owned == rest
    {
      f.refcnt := f.refcnt - 1;
      freed := !(f.refcnt > 0);
      if freed {
        NoteFree(f, rest);
      } else {
        NoteDrop(f, rest);
      }
    }

    ghost method NoteDrop(f: Frag, rest: multiset<Frag>)
      requires book.owned == rest + multiset{f} && f in book.rc && book.rc[f] >= 2
      modifies this
      ensures book == Tally(old(book.nx), old(book.rc)[f := old(book.rc)[f] - 1], rest)
    {
      DropKeepsSound(book.nx, book.rc, book.owned, f);
      assert book.owned - multiset{f} == rest;
      book := Tally(book.nx, book.rc[f := book.rc[f] - 1], rest);
    }

    /** A fragment is returned to the allocator only while it is allocated. */
    ghost method NoteFree(f: Frag, rest: multiset<Frag>)
      requires book.owned == rest + multiset{f} && f in book.nx && f in book.rc && book.rc[f] == 1
      modifies this
      ensures book == Tally(old(book.nx) - {f}, old(book.rc) - {f}, rest + Ref(old(book.nx)[f]))
    {
      FreeKeepsSound(book.nx, book.rc, book.owned, f);
      assert book.owned - multiset{f} == rest;
      book := Tally(book.nx - {f}, book.rc - {f}, rest + Ref(book.nx[f]));
    }

    /** The loop of decref: lowers counts along `fs`, freeing, until one stays. */
    method ReleaseAlong(buf: Frag?, ghost fs: seq<Frag>, ghost rest: multiset<Frag>)
      requires Valid() && book.owned == rest + Ref(buf) && IsChain(book.nx, buf, fs)
      modifies this, Elements(fs)`refcnt
      ensures Valid() && book.owned == rest && Restriction(book.nx, old(book.nx))
    {
      var cur := buf;
      ghost var k: nat := 0;
      while cur != null
        invariant Valid() && Restriction(book.nx, old(book.nx))
        invariant book.owned == rest + Ref(cur)
        invariant k <= |fs| && cur == Nth(fs, k, null)
        decreases book.nx.Keys
      {
        assert cur in book.owned && cur in Elements(fs);
        var next := cur.next;
        var freed := Release(cur, rest);
        if !freed {
          break;
        }
        cur := next;
        k := k + 1;
      }
    }

    /** Gives up the handle's reference. Fragments are freed along its chain until
        one is still referenced: exactly those no owned reference reaches. */
    method Decref(buf: Pbuf)
      requires Valid() && Holds(buf)
      modifies this, Elements(buf.chain)`refcnt
      ensures Valid() && book.owned == old(book.owned) - Ref(buf.frags) && Restriction(book.nx, old(book.nx))
      ensures OnlyReachableLive(old(book.nx))
      ensures forall f :: f in old(book.nx) && !Live(f) ==> f in Elements(buf.chain)
    {
      ghost var (t, rest) := (book, book.owned - Ref(buf.frags));
      ReleaseAlong(buf.frags, buf.chain, rest);
      FreedIsUnreachable(book.nx, book.rc, t.nx, t.rc, t.owned, rest, buf.frags, buf.chain);
    }

    // ----- Iterators -----

    function CiInit(buf: Pbuf): (it: Ci)
      requires Holds(buf)
      reads this, buf
      ensures ItAt(it, buf, 0)
    {
      Ci(Head(buf), buf.frags)
    }

    function CiNext(it: Ci, ghost buf: Pbuf, ghost k: nat): (r: Ci)
      requires Valid() && Holds(buf) && ItAt(it, buf, k) && it.cur != null
      reads this, book.nx.Keys, buf, it.cur
      ensures ItAt(r, buf, k + 1)
    {
      assert it.cur.next == book.nx[buf.chain[k]];
      Ci(Next(it.cur), it.cur.next)
    }

    /** The last fragment of the chain `gs`, by following its links. */
    method LastOf(ins: Frag?, ghost gs: seq<Frag>) returns (last: Frag?)
      requires Valid() && IsChain(book.nx, ins, gs)
      ensures last == Before(gs, |gs|)
    {
      last := null;
      var cur := ins;
      ghost var n: nat := 0;
      while cur != null
        invariant n <= |gs| && cur == Nth(gs, n, null)
        invariant last == Before(gs, n)
        decreases |gs| - n
      {
        last := cur;
        cur := cur.next;
        n := n + 1;
      }
    }

    /** Writes through `lastp`: the handle's own field, or the link of `p`. */
    method StoreLast(it: Ci, head: Frag?, ghost buf: Pbuf, ghost p: Frag?)
      requires it.lastp == if p == null then Head(buf) else Next(p)
      modifies buf`frags, One(p)`next
      ensures buf.frags == (if p == null then head else old(buf.frags)) && (p != null ==> p.next == head)
    {
      match it.lastp {
        case Head(h) => h.frags := head;
        case Next(f) => f.next := head;
      }
    }

    /** The pointer writes of an insertion after link `p`, recorded as `tally`. */
    method Relink(it: Ci, ins: Frag?, last: Frag?, ghost buf: Pbuf, ghost p: Frag?, ghost tally: Ledger)
      returns (head: Frag?)
      requires Valid() && it.lastp == if p == null then Head(buf) else Next(p)
      requires tally.rc == book.rc && Relinks(book.nx, buf.frags, p, it.cur, ins, last, tally.nx)
      modifies this, buf`frags, One(p)`next, One(last)`next
      ensures Valid() && book == tally
      ensures head == if last == null then it.cur else ins
      ensures buf.frags == if p == null then head else old(buf.frags)
    {
      head := ins;
      if last == null {
        head := it.cur;
      } else {
        last.next := it.cur;
      }
      StoreLast(it, head, buf, p);
      forall f | f in tally.nx ensures f.next == tally.nx[f] && f.refcnt == tally.rc[f] && f.Fits() {}
      book := tally;
    }

    /** Links the chain `gs` of `ins` in after link `p`: the buffer becomes `all`. */
    method LinkIn(it: Ci, ins: Frag?, ghost gs: seq<Frag>, ghost buf: Pbuf, ghost p: Frag?, ghost tally: Ledger,
            ghost all: seq<Frag>)
      returns (head: Frag?)
      requires Valid() && it.lastp == (if p == null then Head(buf) else Next(p)) && IsChain(book.nx, ins, gs)
      requires tally.rc == book.rc && Relinks(book.nx, buf.frags, p, it.cur, ins, Before(gs, |gs|), tally.nx)
      modifies this, buf, One(p)`next, Elements(gs)`next
      ensures Valid() && book == tally && buf.chain == all
      ensures head == if ins == null then it.cur else ins
      ensures buf.frags == if p == null then head else old(buf.frags)
    {
      var last := LastOf(ins, gs);
      assert One(last) <= Elements(gs);
      head := Relink(it, ins, last, buf, p, tally);
      buf.chain := all;
    }

    /** Inserts the buffer `ins` before the iterator's fragment; it must share
        nothing with the buffer edited, and is used up. */
    method CiInsert(it: Ci, ins: Pbuf, ghost buf: Pbuf, ghost k: nat) returns (r: Ci)
      requires Valid() && Holds(buf) && Holds(ins) && ItAt(it, buf, k)
      requires Disjoint(buf.chain, ins.chain) && Ref(buf.frags) + Ref(ins.frags) <= book.owned && buf != ins
      modifies this, buf, Elements(buf.chain)`next, Elements(ins.chain)`next
      ensures Valid() && Holds(buf) && ItAt(r, buf, k)
      ensures book.owned == Swapped(old(book.owned) - Ref(ins.frags), old(buf.frags), buf.frags)
      ensures book.nx == old(Spliced(book.nx, buf.chain, k, ins.chain))
      ensures buf.chain == old(buf.chain[..k] + ins.chain + buf.chain[k..])
    {
      ghost var (fs, gs, p) := (buf.chain, ins.chain, Before(buf.chain, k));
      SplicedAt(fs, k, gs);
      ghost var tally := SpliceFacts(book.nx, book.rc, book.owned, buf.frags, fs, k, ins.frags, gs);
      assert One(p) <= Elements(fs);
      var head := LinkIn(it, ins.frags, gs, buf, p, tally, fs[..k] + gs + fs[k..]);
      r := Ci(it.lastp, head);
    }

    /** Cuts the iterator's fragment out of the chain; the reference the chain
        held to it is then owned. */
    method Unlink(it: Ci, ghost buf: Pbuf, ghost p: Frag?, ghost tally: Ledger)
      requires Valid() && it.lastp == if p == null then Head(buf) else Next(p)
      requires it.cur != null && Live(it.cur) && (p == null || Live(p)) && p != it.cur
      requires tally.rc == book.rc && tally.nx == Store(book.nx[it.cur := null], p, it.cur.next)
      modifies this, buf`frags, One(p)`next, One(it.cur)`next
      ensures Valid() && book == tally
      ensures buf.frags == if p == null then old(it.cur.next) else old(buf.frags)
    {
      var next := it.cur.next;
      StoreLast(it, next, buf, p);
      it.cur.next := null;
      book := tally;
    }

    method UnlinkAt(it: Ci, ghost buf: Pbuf, ghost k: nat) returns (ghost rest: multiset<Frag>)
      requires Valid() && Holds(buf) && ItAt(it, buf, k) && it.cur != null
      modifies this, buf, Elements(buf.chain)`next
      ensures Valid() && Holds(buf) && Ref(buf.frags) <= rest
      ensures rest == Swapped(old(book.owned), old(buf.frags), buf.frags) && book.owned == rest + multiset{it.cur}
      ensures book.nx == old(Unlinked(book.nx, buf.chain, k)) && buf.chain == old(Without(buf.chain, k))
      ensures IsChain(book.nx, it.cur, [it.cur])
    {
      ghost var fs := buf.chain;
      ghost var tally := UnlinkFacts(book.nx, book.rc, book.owned, buf.frags, fs, k);
      rest := Swapped(book.owned, buf.frags, Nth(Without(fs, k), 0, null));
      assert it.cur in Elements(fs) && One(Before(fs, k)) <= Elements(fs);
      Unlink(it, buf, Before(fs, k), tally);
      buf.chain := Without(fs, k);
    }

    /** Gives up a reference to a chain. */
    method DecrefChain(f: Frag?, ghost fs: seq<Frag>, ghost rest: multiset<Frag>)
      requires Valid() && book.owned == rest + Ref(f) && IsChain(book.nx, f, fs)
      modifies this, Elements(fs)`refcnt
      ensures Valid() && book.owned == rest && Restriction(book.nx, old(book.nx)) && OnlyReachableLive(old(book.nx))
    {
      ghost var nx := book.nx;
      ReleaseAlong(f, fs, rest);
      ExactlyUnreachableFreed(book.nx, book.rc, nx, rest);
    }

    /** Gives up a reference to a fragment that links to nothing. */
    method DecrefOne(f: Frag, ghost rest: multiset<Frag>)
      requires Valid() && book.owned == rest + multiset{f} && IsChain(book.nx, f, [f])
      modifies this, f`refcnt
      ensures Valid() && book.owned == rest && Restriction(book.nx, old(book.nx))
      ensures OnlyReachableLive(old(book.nx)) && forall g :: g in old(book.nx) && !Live(g) ==> g == f
    {
      ghost var (nx, rc) := (book.nx, book.rc);
      assert Elements([f]) == {f};
      DecrefChain(f, [f], rest);
      OneFreedAtMost(book.nx, book.rc, nx, rc, rest, f);
    }

    /** Removes the iterator's fragment from the buffer and gives up the buffer's
        reference to it: it is freed if and only if no reference owned then reaches it
        through the links as they are after its removal. */
    method CiRemove(it: Ci, ghost buf: Pbuf, ghost k: nat) returns (r: Ci)
      requires Valid() && Holds(buf) && ItAt(it, buf, k) && it.cur != null
      modifies this, buf, Elements(buf.chain)`next, Elements(buf.chain)`refcnt
      ensures Valid() && Holds(buf) && ItAt(r, buf, k)
      ensures book.owned == Swapped(old(book.owned), old(buf.frags), buf.frags)
      ensures buf.chain == old(Without(buf.chain, k))
      ensures Restriction(book.nx, old(Unlinked(book.nx, buf.chain, k)))
      ensures OnlyReachableLive(old(Unlinked(book.nx, buf.chain, k)))
      ensures forall f :: f in old(book.nx) && !Live(f) ==> f == it.cur
    {
      assert it.cur in Elements(buf.chain) && it.cur.next == book.nx[buf.chain[k]];
      r := Ci(it.lastp, it.cur.next);
      WithoutAt(buf.chain, k);
      ghost var rest := UnlinkAt(it, buf, k);
      ghost var nx1 := book.nx;
      DecrefOne(it.cur, rest);
      ChainSurvives(book.nx, book.rc, rest, nx1, buf.frags, buf.chain);
    }

    method CutAt(it: Ci, ghost buf: Pbuf, ghost k: nat) returns (ghost rest: multiset<Frag>)
      requires Valid() && Holds(buf) && ItAt(it, buf, k) && it.cur != null
      modifies this, buf, Elements(buf.chain)`next
      ensures Valid() && Holds(buf) && Ref(buf.frags) <= rest
      ensures rest == Swapped(old(book.owned), old(buf.frags), buf.frags) && book.owned == rest + multiset{it.cur}
      ensures book.nx == old(Store(book.nx, Before(buf.chain, k), null)) && buf.chain == old(buf.chain[..k])
      ensures IsChain(book.nx, it.cur, old(buf.chain[k..]))
    {
      ghost var fs := buf.chain;
      CutKeepsSound(book.nx, book.rc, book.owned, buf.frags, fs, k);
      CutIsChain(book.nx, buf.frags, fs, k);
      rest := Swapped(book.owned, buf.frags, Nth(fs[..k], 0, null));
      ghost var tally := Tally(Store(book.nx, Before(fs, k), null), book.rc, rest + multiset{fs[k]});
      assert One(Before(fs, k)) <= Elements(fs);
      Sever(it, buf, Before(fs, k), tally);
      buf.chain := fs[..k];
    }

    /** Clears the link that led to the iterator's position. */
    method Sever(it: Ci, ghost buf: Pbuf, ghost p: Frag?, ghost tally: Ledger)
      requires Valid() && it.lastp == if p == null then Head(buf) else Next(p)
      requires p == null || Live(p)
      requires tally.rc == book.rc && tally.nx == Store(book.nx, p, null)
      modifies this, buf`frags, One(p)`next
      ensures Valid() && book == tally
      ensures buf.frags == if p == null then null else old(buf.frags)
    {
      StoreLast(it, null, buf, p);
      book := tally;
    }

    /** Cuts the buffer at the iterator and gives up the rest of it: of that, the
        fragments are freed that no reference owned then reaches. */
    method CiDetach(it: Ci, ghost buf: Pbuf, ghost k: nat)
      requires Valid() && Holds(buf) && ItAt(it, buf, k) && it.cur != null
      modifies this, buf, Elements(buf.chain)`next, Elements(buf.chain)`refcnt
      ensures Valid() && Holds(buf)
      ensures book.owned == Swapped(old(book.owned), old(buf.frags), buf.frags)
      ensures buf.chain == old(buf.chain[..k])
      ensures Restriction(book.nx, old(Store(book.nx, Before(buf.chain, k), null)))
      ensures OnlyReachableLive(old(Store(book.nx, Before(buf.chain, k), null)))
    {
      ghost var fs := buf.chain;
      ghost var rest := CutAt(it, buf, k);
      ghost var nx1 := book.nx;
      assert Elements(fs[k..]) <= Elements(fs);
      DecrefChain(it.cur, fs[k..], rest);
      ChainSurvives(book.nx, book.rc, rest, nx1, buf.frags, buf.chain);
    }
  }
}
