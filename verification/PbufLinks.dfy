// The reference counts of packet buffer fragments (pbuf/basic/basic.c), as a
// theory of values: which fragment each live fragment links to, the count each
// one holds, and the references the program owns from outside the fragments.
//
// An owned reference and a link are interchangeable: storing an owned reference
// into a link gives it up, and clearing a link gives its reference back. Every
// operation on chains is a few such exchanges, and a decref gives one up.
module PbufLinks {

  type Byte = bv8

  /** One fragment: a window [data, data + size) inside a room [base, base + cap)
      of a block of memory, a reference count and the next fragment. */
  class Frag {
    var store: array<Byte>
    var base: nat
    var data: nat
    var size: nat
    var cap: nat
    var refcnt: int
    var next: Frag?

    constructor (store: array<Byte>, base: nat, data: nat, size: nat, cap: nat)
      ensures this.store == store && this.base == base && this.data == data && this.size == size && this.cap == cap
      ensures refcnt == 1 && next == null
    {
      this.store, this.base, this.data, this.size, this.cap := store, base, data, size, cap;
      this.refcnt, this.next := 1, null;
    }

    /** Makes the fragment a full window over memory it does not own. */
    method PointAt(store: array<Byte>, data: nat, size: nat)
      modifies this
      ensures this.store == store && base == this.data == data && this.size == cap == size
      ensures refcnt == old(refcnt) && next == old(next)
    {
      this.store, this.base, this.data := store, data, data;
      this.size, this.cap := size, size;
    }

    /** The window is inside the room, and the room inside the block. */
    predicate Fits()
      reads this
    {
      base <= data && data + size <= base + cap && base + cap <= store.Length
    }

    function Headroom(): nat
      requires Fits()
      reads this
    {
      data - base
    }

    function Tailroom(): nat
      requires Fits()
      reads this
    {
      cap - size - Headroom()
    }

    /** Each returns where the memory gained or given up begins. */
    method ReserveHead(bytes: nat) returns (mem: nat)
      requires Fits() && bytes <= Headroom()
      modifies `data, `size
      ensures Fits() && mem == data == old(data) - bytes && data + size == old(data + size)
      ensures Headroom() == old(Headroom()) - bytes && Tailroom() == old(Tailroom())
    {
      mem := data - bytes;
      data := mem;
      size := size + bytes;
    }

    method ReleaseHead(bytes: nat) returns (mem: nat)
      requires Fits() && bytes <= size
      modifies `data, `size
      ensures Fits() && mem == old(data) && data == mem + bytes && data + size == old(data + size)
      ensures Headroom() == old(Headroom()) + bytes && Tailroom() == old(Tailroom())
    {
      mem := data;
      size := size - bytes;
      data := data + bytes;
    }

    method ReserveTail(bytes: nat) returns (mem: nat)
      requires Fits() && bytes <= Tailroom()
      modifies `size
      ensures Fits() && mem == data + old(size) && size == old(size) + bytes
      ensures Headroom() == old(Headroom()) && Tailroom() == old(Tailroom()) - bytes
    {
      mem := data + size;
      size := size + bytes;
    }

    method ReleaseTail(bytes: nat) returns (mem: nat)
      requires Fits() && bytes <= size
      modifies `size
      ensures Fits() && mem == data + size && size == old(size) - bytes
      ensures Headroom() == old(Headroom()) && Tailroom() == old(Tailroom()) + bytes
    {
      size := size - bytes;
      mem := data + size;
    }
  }

  type Links = map<Frag, Frag?>
  type Counts = map<Frag, int>

  /** The reference held by a possibly null pointer. */
  ghost function Ref(f: Frag?): multiset<Frag> {
    if f == null then multiset{} else multiset{f}
  }

  // ----- Chains -----

  /** The `i`th of `fs`, or what follows the last. */
  ghost function Nth(fs: seq<Frag>, i: nat, b: Frag?): Frag? {
    if i < |fs| then fs[i] else b
  }

  /** Following links from `a` visits `fs` in order and arrives at `b`. */
  ghost predicate IsSeg(nx: Links, a: Frag?, fs: seq<Frag>, b: Frag?) {
    && a == Nth(fs, 0, b)
    && (forall i :: 0 <= i < |fs| ==> fs[i] in nx)
    && (forall i {:trigger nx[fs[i]]} :: 0 <= i < |fs| ==> nx[fs[i]] == Nth(fs, i + 1, b))
  }

  ghost predicate IsChain(nx: Links, a: Frag?, fs: seq<Frag>) {
    IsSeg(nx, a, fs, null)
  }

  lemma SegTail(nx: Links, a: Frag?, fs: seq<Frag>, b: Frag?)
    requires IsSeg(nx, a, fs, b) && fs != []
    ensures IsSeg(nx, nx[fs[0]], fs[1..], b)
  {
    var gs := fs[1..];
    forall i | 0 <= i < |gs| ensures nx[gs[i]] == Nth(gs, i + 1, b) {
      assert gs[i] == fs[i + 1];
    }
  }

  lemma SegSuffix(nx: Links, a: Frag?, fs: seq<Frag>, b: Frag?, k: nat)
    requires IsSeg(nx, a, fs, b) && k <= |fs|
    ensures IsSeg(nx, Nth(fs, k, b), fs[k..], b)
    ensures IsSeg(nx, a, fs[..k], Nth(fs, k, b))
  {
    var gs := fs[k..];
    forall i | 0 <= i < |gs| ensures gs[i] in nx && nx[gs[i]] == Nth(gs, i + 1, b) {
      assert gs[i] == fs[i + k];
    }
  }

  lemma SegJoin(nx: Links, a: Frag?, fs: seq<Frag>, b: Frag?, gs: seq<Frag>, c: Frag?)
    requires IsSeg(nx, a, fs, b) && IsSeg(nx, b, gs, c)
    ensures IsSeg(nx, a, fs + gs, c)
  {
    var all := fs + gs;
    forall i | 0 <= i < |all| ensures all[i] in nx && nx[all[i]] == Nth(all, i + 1, c) {
      if i < |fs| {
        assert all[i] == fs[i];
      } else {
        assert all[i] == gs[i - |fs|];
      }
    }
  }

  lemma SegFrame(nx: Links, nx': Links, a: Frag?, fs: seq<Frag>, b: Frag?)
    requires IsSeg(nx, a, fs, b)
    requires forall f :: f in fs ==> f in nx' && nx'[f] == nx[f]
    ensures IsSeg(nx', a, fs, b)
  {
  }

  lemma {:induction false} ChainIsUnique(nx: Links, a: Frag?, fs: seq<Frag>, gs: seq<Frag>)
    requires IsChain(nx, a, fs) && IsChain(nx, a, gs)
    ensures fs == gs
    decreases |fs|
  {
    if fs != [] {
      SegTail(nx, a, fs, null);
      SegTail(nx, a, gs, null);
      ChainIsUnique(nx, nx[a], fs[1..], gs[1..]);
      assert fs == [fs[0]] + fs[1..] && gs == [gs[0]] + gs[1..];
    }
  }

  /** A chain that ends cannot visit a fragment twice. */
  lemma ChainIsDistinct(nx: Links, a: Frag?, fs: seq<Frag>, i: nat, j: nat)
    requires IsChain(nx, a, fs) && i < j < |fs|
    ensures fs[i] != fs[j]
  {
    if fs[i] == fs[j] {
      SegSuffix(nx, a, fs, null, i);
      SegSuffix(nx, a, fs, null, j);
      ChainIsUnique(nx, fs[i], fs[i..], fs[j..]);
      assert false;
    }
  }

  // ----- The invariant -----

  ghost function Preds(nx: Links, f: Frag): set<Frag> {
    set g | g in nx && nx[g] == f
  }

  /** Links and owned references only point at live fragments. */
  ghost predicate Closed(nx: Links, owned: multiset<Frag>) {
    && (forall f {:trigger LinksLive(nx, f)} :: f in nx ==> LinksLive(nx, f))
    && (forall f :: f in owned ==> f in nx)
  }

  ghost predicate LinksLive(nx: Links, f: Frag)
    requires f in nx
  {
    nx[f] != null ==> nx[f] in nx
  }

  /** Every count is exactly the number of owned references and live links. */
  ghost predicate Balanced(nx: Links, rc: Counts, owned: multiset<Frag>) {
    && (forall f {:trigger f in rc} :: f in nx ==> f in rc)
    && (forall f {:trigger Preds(nx, f)} :: f in nx ==> rc[f] == owned[f] + |Preds(nx, f)|)
  }

  ghost predicate Trapped(nx: Links, s: set<Frag>) {
    s != {} && forall f :: f in s ==> f in nx && nx[f] in s
  }

  /** No set of fragments links only into itself. */
  ghost predicate Acyclic(nx: Links) {
    forall s: set<Frag> | s <= nx.Keys :: !Trapped(nx, s)
  }

  ghost predicate Sound(nx: Links, rc: Counts, owned: multiset<Frag>) {
    && Closed(nx, owned) && Balanced(nx, rc, owned) && Acyclic(nx)
    && forall f {:trigger rc[f]} :: f in nx ==> rc[f] >= 1
  }

  /** What the program as a whole holds: links, counts and owned references. */
  datatype Tally = Tally(nx: Links, rc: Counts, owned: multiset<Frag>)

  ghost predicate Exact(t: Tally) {
    Sound(t.nx, t.rc, t.owned)
  }

  /** A tally that is exact, by its type: only exact ones can be recorded. */
  type Ledger = t: Tally | Exact(t) ghost witness Tally(map[], map[], multiset{})

  // ----- Chains exist -----

  lemma {:induction false} ChainExists(nx: Links, owned: multiset<Frag>, a: Frag?,
          seen: set<Frag>) returns (fs: seq<Frag>)
    requires Closed(nx, owned) && Acyclic(nx)
    requires a != null ==> a in nx
    requires forall f :: f in seen ==> f in nx && (nx[f] in seen || nx[f] == a)
    ensures IsChain(nx, a, fs)
    decreases nx.Keys - seen
  {
    if a == null {
      fs := [];
    } else {
      if a in seen {
        assert Trapped(nx, seen);
        assert false;
      }
      assert LinksLive(nx, a);
      var rest := ChainExists(nx, owned, nx[a], seen + {a});
      assert IsSeg(nx, a, [a], nx[a]);
      SegJoin(nx, a, [a], nx[a], rest, null);
      fs := [a] + rest;
    }
  }

  // ----- No leak: everything live is reachable from an owned reference -----

  /** Where `n` links lead from `g`. */
  ghost function Walk(nx: Links, g: Frag, n: nat): Frag? {
    if n == 0 then g
    else
      var h := Walk(nx, g, n - 1);
      if h != null && h in nx then nx[h] else null
  }

  ghost predicate ReachedFrom(nx: Links, g: Frag, f: Frag) {
    exists n: nat :: Walk(nx, g, n) == f
  }

  ghost predicate Reachable(nx: Links, owned: multiset<Frag>, f: Frag) {
    exists g: Frag :: g in owned && ReachedFrom(nx, g, f)
  }

  lemma {:induction false} ImageIsSmaller(nx: Links, d: set<Frag>, u: set<Frag>)
    requires forall f :: f in u ==> Preds(nx, f) * d != {}
    ensures |u| <= |d|
    decreases |u|
  {
    if u != {} {
      var f :| f in u;
      var g :| g in Preds(nx, f) * d;
      forall f' | f' in u - {f} ensures Preds(nx, f') * (d - {g}) != {} {
        var g' :| g' in Preds(nx, f') * d;
        assert g' in Preds(nx, f') * (d - {g});
      }
      ImageIsSmaller(nx, d - {g}, u - {f});
    }
  }

  lemma {:induction false} SubsetSize(a: set<Frag>, b: set<Frag>)
    requires a <= b
    ensures |a| <= |b| && (|a| == |b| ==> a == b)
    decreases |b|
  {
    if b != {} {
      var x :| x in b;
      SubsetSize(a - {x}, b - {x});
      if x in a {
        assert a == (a - {x}) + {x};
      }
      assert b == (b - {x}) + {x};
    }
  }

  /** In a finite acyclic heap, a set whose members all have a predecessor in
      the set is empty. */
  lemma NoSelfFeedingSet(nx: Links, u: set<Frag>)
    requires Acyclic(nx)
    requires forall f :: f in u ==> Preds(nx, f) * u != {}
    ensures u == {}
  {
    var d := set g | g in u && g in nx && nx[g] in u;
    forall f | f in u ensures Preds(nx, f) * d != {} {
      var g :| g in Preds(nx, f) * u;
      assert g in Preds(nx, f) * d;
    }
    ImageIsSmaller(nx, d, u);
    SubsetSize(d, u);
    if u != {} {
      assert u <= nx.Keys;
      assert Trapped(nx, u);
    }
  }

  /** Main result: nothing leaks and nothing dangles. With exact counts the live
      fragments are exactly those reachable from an owned reference. */
  lemma LiveIsReachable(nx: Links, rc: Counts, owned: multiset<Frag>)
    requires Sound(nx, rc, owned)
    ensures forall f: Frag :: f in nx <==> Reachable(nx, owned, f)
  {
    var u := set f | f in nx && !Reachable(nx, owned, f);
    forall f | f in u ensures Preds(nx, f) * u != {} {
      if f in owned {
        assert Walk(nx, f, 0) == f;
        assert ReachedFrom(nx, f, f);
      }
      assert |Preds(nx, f)| >= 1;
      var g :| g in Preds(nx, f);
      if Reachable(nx, owned, g) {
        ReachStep(nx, owned, g);
      }
      assert g in Preds(nx, f) * u;
    }
    NoSelfFeedingSet(nx, u);
    forall f: Frag | Reachable(nx, owned, f) ensures f in nx {
      var g: Frag :| g in owned && ReachedFrom(nx, g, f);
      var n: nat :| Walk(nx, g, n) == f;
      WalkStaysLive(nx, owned, g, n);
    }
    forall f: Frag | f in nx ensures Reachable(nx, owned, f) {
      assert f !in u;
    }
  }

  lemma {:induction false} WalkStaysLive(nx: Links, owned: multiset<Frag>, g: Frag, n: nat)
    requires Closed(nx, owned) && g in owned && Walk(nx, g, n) != null
    ensures Walk(nx, g, n) in nx
  {
    if n > 0 {
      WalkStaysLive(nx, owned, g, n - 1);
      assert LinksLive(nx, Walk(nx, g, n - 1));
    }
  }

  lemma ReachStep(nx: Links, owned: multiset<Frag>, g: Frag)
    requires g in nx && nx[g] != null && Reachable(nx, owned, g)
    ensures Reachable(nx, owned, nx[g])
  {
    var h: Frag :| h in owned && ReachedFrom(nx, h, g);
    var n: nat :| Walk(nx, h, n) == g;
    assert Walk(nx, h, n + 1) == nx[g];
    assert ReachedFrom(nx, h, nx[g]);
  }

  // ----- Exchanging a link and an owned reference -----

  lemma PredsAfterStore(nx: Links, p: Frag, b: Frag?, f: Frag)
    requires p in nx
    ensures nx[p] == b ==> Preds(nx[p := b], f) == Preds(nx, f)
    ensures nx[p] != b && f == b ==> Preds(nx[p := b], f) == Preds(nx, f) + {p} && p !in Preds(nx, f)
    ensures nx[p] != b && f == nx[p] ==> Preds(nx[p := b], f) == Preds(nx, f) - {p} && p in Preds(nx, f)
    ensures f != b && f != nx[p] ==> Preds(nx[p := b], f) == Preds(nx, f)
  {
    var nx' := nx[p := b];
    assert forall g :: g in Preds(nx', f) <==> (g == p && b == f) || (g != p && g in Preds(nx, f));
  }

  /** Storing the owned reference `b` in the link of `p`: the reference is given
      up and the one the link held is given back. */
  lemma StoreKeepsBalance(nx: Links, rc: Counts, owned: multiset<Frag>, p: Frag, b: Frag?)
    requires Closed(nx, owned) && Balanced(nx, rc, owned)
    requires p in nx && Ref(b) <= owned
    ensures Closed(nx[p := b], owned - Ref(b) + Ref(nx[p]))
    ensures Balanced(nx[p := b], rc, owned - Ref(b) + Ref(nx[p]))
  {
    assert b != null ==> b in owned;
    forall f | f in nx[p := b] ensures rc[f] == (owned - Ref(b) + Ref(nx[p]))[f] + |Preds(nx[p := b], f)| {
      StoreBalancesOne(nx, owned, p, b, f);
    }
    StoreKeepsClosed(nx, owned, p, b);
  }

  lemma StoreKeepsClosed(nx: Links, owned: multiset<Frag>, p: Frag, b: Frag?)
    requires Closed(nx, owned) && p in nx && Ref(b) <= owned
    ensures Closed(nx[p := b], owned - Ref(b) + Ref(nx[p]))
  {
    assert b != null ==> b in owned;
    assert LinksLive(nx, p);
    var nx' := nx[p := b];
    forall f | f in nx' ensures LinksLive(nx', f) {
      assert f != p ==> LinksLive(nx, f);
    }
  }

  lemma StoreBalancesOne(nx: Links, owned: multiset<Frag>, p: Frag, b: Frag?, f: Frag)
    requires p in nx && Ref(b) <= owned
    ensures (owned - Ref(b) + Ref(nx[p]))[f] + |Preds(nx[p := b], f)| == owned[f] + |Preds(nx, f)|
  {
    PredsAfterStore(nx, p, b, f);
    assert b != null ==> owned[b] >= 1;
  }

  /** Giving up a reference that is not the last one. */
  lemma DropKeepsSound(nx: Links, rc: Counts, owned: multiset<Frag>, f: Frag)
    requires Sound(nx, rc, owned) && f in owned && rc[f] >= 2
    ensures Sound(nx, rc[f := rc[f] - 1], owned - multiset{f})
  {
  }

  lemma AddKeepsSound(nx: Links, rc: Counts, owned: multiset<Frag>, f: Frag)
    requires Sound(nx, rc, owned) && f in nx
    ensures Sound(nx, rc[f := rc[f] + 1], owned + multiset{f})
  {
  }

  /** Giving up the last reference of `f` and freeing it hands over, as an owned
      reference, the one its link held. */
  lemma FreeKeepsSound(nx: Links, rc: Counts, owned: multiset<Frag>, f: Frag)
    requires Sound(nx, rc, owned) && f in owned && rc[f] == 1
    ensures Sound(nx - {f}, rc - {f}, owned - multiset{f} + Ref(nx[f]))
  {
    assert Preds(nx, f) == {} && owned[f] == 1;
    FreeKeepsClosed(nx, owned, f);
    FreeKeepsBalance(nx, rc, owned, f);
    var nx' := nx - {f};
    forall s: set<Frag> | s <= nx'.Keys ensures !Trapped(nx', s) {
      if Trapped(nx', s) {
        assert Trapped(nx, s);
      }
    }
  }

  lemma FreeKeepsClosed(nx: Links, owned: multiset<Frag>, f: Frag)
    requires Closed(nx, owned) && f in nx && Preds(nx, f) == {} && owned[f] == 1
    ensures Closed(nx - {f}, owned - multiset{f} + Ref(nx[f]))
  {
    var nx' := nx - {f};
    assert f !in Preds(nx, f) && LinksLive(nx, f);
    forall g | g in nx' ensures LinksLive(nx', g) {
      assert LinksLive(nx, g) && g !in Preds(nx, f);
    }
  }

  lemma FreeKeepsBalance(nx: Links, rc: Counts, owned: multiset<Frag>, f: Frag)
    requires Balanced(nx, rc, owned) && f in nx && Preds(nx, f) == {} && owned[f] == 1
    ensures Balanced(nx - {f}, rc - {f}, owned - multiset{f} + Ref(nx[f]))
  {
    var nx', owned' := nx - {f}, owned - multiset{f} + Ref(nx[f]);
    assert f !in Preds(nx, f);
    forall g | g in nx' ensures rc[g] == owned'[g] + |Preds(nx', g)| {
      if nx[f] == g {
        assert Preds(nx', g) == Preds(nx, g) - {f} && f in Preds(nx, g);
      } else {
        assert Preds(nx', g) == Preds(nx, g);
      }
    }
  }

  lemma NewKeepsSound(nx: Links, rc: Counts, owned: multiset<Frag>, f: Frag)
    requires Sound(nx, rc, owned) && f !in nx
    ensures Sound(nx[f := null], rc[f := 1], owned + multiset{f})
  {
    var nx' := nx[f := null];
    assert owned[f] == 0;
    forall g | g in nx ensures nx[g] != f {
      assert LinksLive(nx, g);
    }
    forall g | g in nx' ensures LinksLive(nx', g) && Preds(nx', g) == Preds(nx, g) {
      assert g != f ==> LinksLive(nx, g);
      assert forall h :: h in Preds(nx', g) <==> h in Preds(nx, g);
    }
    assert Preds(nx, f) == {};
    forall s: set<Frag> | s <= nx'.Keys ensures !Trapped(nx', s) {
      if Trapped(nx', s) {
        assert Trapped(nx, s);
      }
    }
  }

  // ----- Links after inserting and removing stay acyclic -----

  /** A trapped set cannot hold a fragment whose chain ends. */
  lemma {:induction false} TrappedAvoidsChains(nx: Links, s: set<Frag>, a: Frag, fs: seq<Frag>)
    requires Trapped(nx, s) && IsChain(nx, a, fs)
    ensures a !in s
    decreases |fs|
  {
    if a in s {
      SegTail(nx, a, fs, null);
      TrappedAvoidsChains(nx, s, nx[a], fs[1..]);
    }
  }

  /** Storing `b` in a link is safe when the chain of `b` ends without coming
      through that link. */
  lemma StoreKeepsAcyclic(nx: Links, p: Frag, b: Frag?, gs: seq<Frag>)
    requires Acyclic(nx) && p in nx && IsChain(nx, b, gs) && p !in gs
    ensures Acyclic(nx[p := b])
  {
    var nx' := nx[p := b];
    forall s: set<Frag> | s <= nx'.Keys ensures !Trapped(nx', s) {
      if Trapped(nx', s) {
        if p in s {
          SegFrame(nx, nx', b, gs, null);
          TrappedAvoidsChains(nx', s, b, gs);
        } else {
          assert Trapped(nx, s);
        }
      }
    }
  }

  /** The exchange at the heart of every operation on chains. */
  lemma StoreKeepsSound(nx: Links, rc: Counts, owned: multiset<Frag>, p: Frag, b: Frag?, gs: seq<Frag>)
    requires Sound(nx, rc, owned) && p in nx && Ref(b) <= owned
    requires IsChain(nx, b, gs) && p !in gs
    ensures Sound(nx[p := b], rc, owned - Ref(b) + Ref(nx[p]))
  {
    StoreKeepsBalance(nx, rc, owned, p, b);
    StoreKeepsAcyclic(nx, p, b, gs);
  }

  lemma ClearKeepsSound(nx: Links, rc: Counts, owned: multiset<Frag>, p: Frag)
    requires Sound(nx, rc, owned) && p in nx
    ensures Sound(nx[p := null], rc, owned + Ref(nx[p]))
  {
    assert IsChain(nx, null, []);
    StoreKeepsSound(nx, rc, owned, p, null, []);
    assert owned - Ref(null) == owned;
  }
}
