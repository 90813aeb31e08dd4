// Chains as sequences: what inserting, removing and cutting do to the sequence
// of fragments and to the reference counts, on values.
module PbufChains {

  import opened PbufLinks

  ghost function Elements(fs: seq<Frag>): set<Frag> {
    set f | f in fs
  }

  /** Every owned reference is the start of a chain that ends. */
  lemma OwnedHasChain(nx: Links, rc: Counts, owned: multiset<Frag>, a: Frag?) returns (fs: seq<Frag>)
    requires Sound(nx, rc, owned) && Ref(a) <= owned
    ensures IsChain(nx, a, fs)
  {
    assert a != null ==> a in owned;
    fs := ChainExists(nx, owned, a, {});
  }

  ghost predicate Disjoint(fs: seq<Frag>, gs: seq<Frag>) {
    forall f :: f in fs ==> f !in gs
  }

  /** The owned references once a handle that held `a` holds `b`. */
  ghost function Swapped(owned: multiset<Frag>, a: Frag?, b: Frag?): multiset<Frag> {
    if a == b then owned else owned - Ref(a) + Ref(b)
  }

  lemma SwapTwice(owned: multiset<Frag>, a: Frag?, b: Frag?, c: Frag?)
    requires Ref(a) <= owned
    ensures Swapped(Swapped(owned, a, b), b, c) == Swapped(owned, a, c)
  {
  }

  lemma HandleEmptied(owned: multiset<Frag>, a: Frag)
    requires a in owned
    ensures Swapped(owned, a, null) + multiset{a} == owned
  {
  }

  lemma HandlePassedOn(owned: multiset<Frag>, a: Frag, d: Frag?)
    requires a in owned && a != d
    ensures Swapped(owned, a, d) + multiset{a} == owned + Ref(d)
  {
  }

  lemma HandleTaken(owned: multiset<Frag>, a: Frag?, b: Frag)
    requires Ref(a) + Ref(b) <= owned && a != b
    ensures Swapped(owned - Ref(b), a, b) == owned - Ref(a) + Ref(null)
  {
    assert Ref(null) == multiset{};
  }

  lemma LinkTaken(owned: multiset<Frag>, b: Frag, c: Frag?)
    requires b in owned
    ensures owned - Ref(b) + Ref(c) - Ref(c) + Ref(null) == owned - Ref(b)
  {
  }

  lemma LinkPassedOn(owned: multiset<Frag>, c: Frag, d: Frag?)
    ensures owned + Ref(d) - Ref(d) + Ref(c) == owned + multiset{c}
  {
  }

  // ----- Inserting -----

  /** The link before position `k` of `fs`: null when it is the handle's own. */
  ghost function Before(fs: seq<Frag>, k: nat): Frag?
    requires k <= |fs|
  {
    if k == 0 then null else fs[k - 1]
  }

  ghost function Store(nx: Links, p: Frag?, b: Frag?): Links {
    if p == null then nx else nx[p := b]
  }

  /** The links after the chain `gs` is inserted at position `k` of the chain `fs`. */
  ghost function Spliced(nx: Links, fs: seq<Frag>, k: nat, gs: seq<Frag>): Links
    requires k <= |fs|
  {
    if gs == [] then nx
    else Store(nx, Before(fs, k), gs[0])[gs[|gs| - 1] := Nth(fs, k, null)]
  }

  ghost function SpliceHead(fs: seq<Frag>, k: nat, gs: seq<Frag>): Frag? {
    Nth(if k == 0 then gs + fs else fs, 0, null)
  }

  /** Redirecting the last link of a segment. */
  lemma SegRetarget(nx: Links, a: Frag?, fs: seq<Frag>, b: Frag?, c: Frag?)
    requires IsSeg(nx, a, fs, b) && fs != []
    requires forall i :: 0 <= i < |fs| - 1 ==> fs[i] != fs[|fs| - 1]
    ensures IsSeg(nx[fs[|fs| - 1] := c], a, fs, c)
  {
  }

  lemma SegFrameOne(nx: Links, a: Frag?, fs: seq<Frag>, b: Frag?, p: Frag, c: Frag?)
    requires IsSeg(nx, a, fs, b) && p !in fs
    ensures IsSeg(nx[p := c], a, fs, b)
  {
    SegFrame(nx, nx[p := c], a, fs, b);
  }

  /** The part of the chain before position `k`, led to `b` instead. */
  lemma PrefixLedTo(nx: Links, a: Frag?, fs: seq<Frag>, k: nat, b: Frag?)
    requires IsChain(nx, a, fs) && k <= |fs|
    ensures var nx' := Store(nx, Before(fs, k), b);
            IsSeg(nx', if k == 0 then b else a, fs[..k], b) && IsChain(nx', Nth(fs, k, null), fs[k..])
  {
    SegSuffix(nx, a, fs, null, k);
    if k > 0 {
      forall i | 0 <= i < |fs| && i != k - 1 ensures fs[i] != fs[k - 1] {
        if i < k - 1 {
          ChainIsDistinct(nx, a, fs, i, k - 1);
        } else {
          ChainIsDistinct(nx, a, fs, k - 1, i);
        }
      }
      SegRetarget(nx, a, fs[..k], Nth(fs, k, null), b);
      SegFrameOne(nx, Nth(fs, k, null), fs[k..], null, fs[k - 1], b);
    }
  }

  lemma SpliceIsChain(nx: Links, a: Frag?, fs: seq<Frag>, k: nat, b: Frag?, gs: seq<Frag>)
    requires IsChain(nx, a, fs) && IsChain(nx, b, gs) && k <= |fs| && Disjoint(fs, gs)
    ensures IsChain(Spliced(nx, fs, k, gs), SpliceHead(fs, k, gs), fs[..k] + gs + fs[k..])
  {
    if gs == [] {
      assert fs[..k] + gs + fs[k..] == fs;
    } else {
      var (l, c) := (gs[|gs| - 1], Nth(fs, k, null));
      assert l in gs;
      var nx1 := Store(nx, Before(fs, k), b);
      PrefixLedTo(nx, a, fs, k, b);
      var h := if k == 0 then b else a;
      SegFrameOne(nx1, h, fs[..k], b, l, c);
      SegFrameOne(nx1, c, fs[k..], null, l, c);
      if k > 0 {
        SegFrameOne(nx, b, gs, null, fs[k - 1], b);
      }
      forall i | 0 <= i < |gs| - 1 ensures gs[i] != l {
        ChainIsDistinct(nx, b, gs, i, |gs| - 1);
      }
      SegRetarget(nx1, b, gs, null, c);
      SegJoin(nx1[l := c], h, fs[..k], b, gs, c);
      SegJoin(nx1[l := c], h, fs[..k] + gs, c, fs[k..], null);
    }
  }

  /** The inserted chain's own reference passes to the link it is stored in, and
      that link's old one to the end of the inserted chain. */
  lemma SpliceKeepsSound(nx: Links, rc: Counts, owned: multiset<Frag>, a: Frag?, fs: seq<Frag>, k: nat, b: Frag?,
          gs: seq<Frag>)
    requires Sound(nx, rc, owned) && Ref(a) + Ref(b) <= owned
    requires IsChain(nx, a, fs) && IsChain(nx, b, gs) && k <= |fs| && Disjoint(fs, gs)
    ensures Sound(Spliced(nx, fs, k, gs), rc, Swapped(owned - Ref(b), a, SpliceHead(fs, k, gs)))
  {
    if gs == [] {
      assert SpliceHead(fs, k, gs) == a;
      assert owned - Ref(b) == owned;
    } else if k == 0 {
      assert b in gs && (fs == [] || a in fs);
      StoreKeepsSound(nx, rc, owned, gs[|gs| - 1], a, fs);
      HandleTaken(owned, a, b);
    } else {
      SpliceInsideKeepsSound(nx, rc, owned, a, fs, k, b, gs);
      assert SpliceHead(fs, k, gs) == a;
    }
  }

  lemma SpliceInsideKeepsSound(nx: Links, rc: Counts, owned: multiset<Frag>, a: Frag?, fs: seq<Frag>, k: nat,
          b: Frag, gs: seq<Frag>)
    requires Sound(nx, rc, owned) && b in owned
    requires IsChain(nx, a, fs) && IsChain(nx, b, gs) && 0 < k <= |fs| && Disjoint(fs, gs)
    ensures gs != [] && Sound(Spliced(nx, fs, k, gs), rc, owned - Ref(b))
  {
    var (p, l, c) := (fs[k - 1], gs[|gs| - 1], Nth(fs, k, null));
    assert p in fs && l in gs;
    PrefixLedTo(nx, a, fs, k, b);
    StoreKeepsSound(nx, rc, owned, p, b, gs);
    StoreKeepsSound(nx[p := b], rc, owned - Ref(b) + Ref(c), l, c, fs[k..]);
    LinkTaken(owned, b, c);
  }

  lemma SplicedAt(fs: seq<Frag>, k: nat, gs: seq<Frag>)
    requires k <= |fs|
    ensures var all := fs[..k] + gs + fs[k..];
            k <= |all| && Before(all, k) == Before(fs, k)
            && Nth(all, k, null) == if gs == [] then Nth(fs, k, null) else gs[0]
  {
  }

  /** The link of `p` (the handle's own, holding `a`, when null) led to `c`; it is
      to lead to `b`, whose chain ends at `l`, and `l` to `c`. */
  ghost predicate Relinks(nx: Links, a: Frag?, p: Frag?, c: Frag?, b: Frag?, l: Frag?, nx': Links) {
    && (p == null || p in nx) && (l == null || (l in nx && l != p)) && (l == null <==> b == null)
    && (l == null ==> c == if p == null then a else nx[p])
    && nx' == if l == null then nx else Store(nx, p, b)[l := c]
  }

  lemma SpliceRelinks(nx: Links, a: Frag?, fs: seq<Frag>, k: nat, b: Frag?, gs: seq<Frag>)
    requires IsChain(nx, a, fs) && IsChain(nx, b, gs) && k <= |fs| && Disjoint(fs, gs)
    ensures Relinks(nx, a, Before(fs, k), Nth(fs, k, null), b, Before(gs, |gs|), Spliced(nx, fs, k, gs))
  {
    if k > 0 {
      assert fs[k - 1] in fs && nx[fs[k - 1]] == Nth(fs, k, null);
    }
    if gs != [] {
      assert gs[|gs| - 1] in gs;
    }
  }

  /** What inserting at position `k` does, told by the link and the last fragment. */
  lemma SpliceFacts(nx: Links, rc: Counts, owned: multiset<Frag>, a: Frag?, fs: seq<Frag>, k: nat, b: Frag?,
          gs: seq<Frag>)
    returns (tally: Ledger)
    requires Sound(nx, rc, owned) && Ref(a) + Ref(b) <= owned
    requires IsChain(nx, a, fs) && IsChain(nx, b, gs) && k <= |fs| && Disjoint(fs, gs)
    ensures tally.rc == rc && tally.nx == Spliced(nx, fs, k, gs)
    ensures Relinks(nx, a, Before(fs, k), Nth(fs, k, null), b, Before(gs, |gs|), tally.nx)
    ensures var h := SpliceHead(fs, k, gs);
            tally.owned == Swapped(owned - Ref(b), a, h) && Ref(h) <= tally.owned
            && h == (if k == 0 then (if b == null then Nth(fs, k, null) else b) else a)
            && IsChain(tally.nx, h, fs[..k] + gs + fs[k..])
  {
    SpliceKeepsSound(nx, rc, owned, a, fs, k, b, gs);
    SpliceIsChain(nx, a, fs, k, b, gs);
    SpliceRelinks(nx, a, fs, k, b, gs);
    tally := Tally(Spliced(nx, fs, k, gs), rc, Swapped(owned - Ref(b), a, SpliceHead(fs, k, gs)));
  }

  // ----- Taking out one fragment -----

  ghost function Unlinked(nx: Links, fs: seq<Frag>, k: nat): Links
    requires k < |fs|
  {
    Store(nx[fs[k] := null], Before(fs, k), Nth(fs, k + 1, null))
  }

  ghost function Without(fs: seq<Frag>, k: nat): seq<Frag>
    requires k < |fs|
  {
    fs[..k] + fs[k + 1..]
  }

  lemma WithoutAt(fs: seq<Frag>, k: nat)
    requires k < |fs|
    ensures k <= |Without(fs, k)| && Nth(Without(fs, k), k, null) == Nth(fs, k + 1, null)
    ensures Before(Without(fs, k), k) == Before(fs, k)
  {
  }

  lemma UnlinkIsChain(nx: Links, a: Frag?, fs: seq<Frag>, k: nat)
    requires IsChain(nx, a, fs) && k < |fs|
    ensures IsChain(Unlinked(nx, fs, k), Nth(Without(fs, k), 0, null), Without(fs, k))
    ensures fs[k] !in Without(fs, k)
  {
    var all := Without(fs, k);
    var nx' := Unlinked(nx, fs, k);
    forall i | 0 <= i < |all|
      ensures all[i] in nx' && nx'[all[i]] == Nth(all, i + 1, null) && all[i] != fs[k]
    {
      if i < k {
        assert all[i] == fs[i];
        ChainIsDistinct(nx, a, fs, i, k);
        if i < k - 1 {
          ChainIsDistinct(nx, a, fs, i, k - 1);
        }
      } else {
        assert all[i] == fs[i + 1];
        ChainIsDistinct(nx, a, fs, k, i + 1);
        if k > 0 {
          ChainIsDistinct(nx, a, fs, k - 1, i + 1);
        }
      }
    }
  }

  /** Once unlinked, the reference that held the fragment in the chain is owned. */
  lemma UnlinkKeepsSound(nx: Links, rc: Counts, owned: multiset<Frag>, a: Frag?, fs: seq<Frag>, k: nat)
    requires Sound(nx, rc, owned) && Ref(a) <= owned && IsChain(nx, a, fs) && k < |fs|
    ensures Sound(Unlinked(nx, fs, k), rc, Swapped(owned, a, Nth(Without(fs, k), 0, null)) + multiset{fs[k]})
  {
    if k == 0 {
      var d := Nth(fs, 1, null);
      assert Nth(Without(fs, 0), 0, null) == d;
      if |fs| > 1 {
        ChainIsDistinct(nx, a, fs, 0, 1);
      }
      ClearKeepsSound(nx, rc, owned, a);
      HandlePassedOn(owned, a, d);
    } else {
      assert Nth(Without(fs, k), 0, null) == a;
      UnlinkInsideKeepsSound(nx, rc, owned, a, fs, k);
    }
  }

  /** What unlinking position `k` does, told by the link, the fragment and the rest. */
  lemma UnlinkFacts(nx: Links, rc: Counts, owned: multiset<Frag>, a: Frag?, fs: seq<Frag>, k: nat)
    returns (tally: Ledger)
    requires Sound(nx, rc, owned) && Ref(a) <= owned && IsChain(nx, a, fs) && k < |fs|
    ensures var p := Before(fs, k); (p == null || (p in nx && p != fs[k])) && fs[k] in nx
    ensures tally.nx == Store(nx[fs[k] := null], Before(fs, k), nx[fs[k]]) == Unlinked(nx, fs, k) && tally.rc == rc
    ensures var b := Nth(Without(fs, k), 0, null);
            tally.owned == Swapped(owned, a, b) + multiset{fs[k]} && Ref(b) <= Swapped(owned, a, b)
            && b == (if k == 0 then nx[fs[k]] else a)
            && IsChain(tally.nx, b, Without(fs, k))
    ensures IsChain(tally.nx, fs[k], [fs[k]])
  {
    UnlinkKeepsSound(nx, rc, owned, a, fs, k);
    UnlinkIsChain(nx, a, fs, k);
    if k > 0 {
      ChainIsDistinct(nx, a, fs, k - 1, k);
    }
    tally := Tally(Unlinked(nx, fs, k), rc, Swapped(owned, a, Nth(Without(fs, k), 0, null)) + multiset{fs[k]});
  }

  lemma RestAfterClear(nx: Links, a: Frag?, fs: seq<Frag>, k: nat)
    requires IsChain(nx, a, fs) && 0 < k < |fs|
    ensures fs[k - 1] != fs[k] && fs[k - 1] !in fs[k + 1..]
    ensures IsChain(nx[fs[k] := null], Nth(fs, k + 1, null), fs[k + 1..])
  {
    ChainIsDistinct(nx, a, fs, k - 1, k);
    SegSuffix(nx, a, fs, null, k + 1);
    forall j | k + 1 <= j < |fs| ensures fs[j] != fs[k] && fs[j] != fs[k - 1] {
      ChainIsDistinct(nx, a, fs, k, j);
      ChainIsDistinct(nx, a, fs, k - 1, j);
    }
    SegFrameOne(nx, Nth(fs, k + 1, null), fs[k + 1..], null, fs[k], null);
  }

  lemma UnlinkInsideKeepsSound(nx: Links, rc: Counts, owned: multiset<Frag>, a: Frag?, fs: seq<Frag>, k: nat)
    requires Sound(nx, rc, owned) && IsChain(nx, a, fs) && 0 < k < |fs|
    ensures Sound(Unlinked(nx, fs, k), rc, owned + multiset{fs[k]})
  {
    var (p, c, d) := (fs[k - 1], fs[k], Nth(fs, k + 1, null));
    ClearKeepsSound(nx, rc, owned, c);
    RestAfterClear(nx, a, fs, k);
    StoreKeepsSound(nx[c := null], rc, owned + Ref(d), p, d, fs[k + 1..]);
    LinkPassedOn(owned, c, d);
  }

  // ----- Cutting off the rest -----

  lemma CutIsChain(nx: Links, a: Frag?, fs: seq<Frag>, k: nat)
    requires IsChain(nx, a, fs) && k < |fs|
    ensures IsChain(Store(nx, Before(fs, k), null), Nth(fs[..k], 0, null), fs[..k])
    ensures IsChain(Store(nx, Before(fs, k), null), fs[k], fs[k..])
  {
    var nx' := Store(nx, Before(fs, k), null);
    SegSuffix(nx, a, fs, null, k);
    forall i | 0 <= i < k ensures nx'[fs[..k][i]] == Nth(fs[..k], i + 1, null) {
      if i < k - 1 {
        ChainIsDistinct(nx, a, fs, i, k - 1);
      }
    }
    forall f | f in fs[k..] ensures f in nx' && nx'[f] == nx[f] {
      var j :| k <= j < |fs| && fs[j] == f;
      if k > 0 {
        ChainIsDistinct(nx, a, fs, k - 1, j);
      }
    }
    SegFrame(nx, nx', fs[k], fs[k..], null);
  }

  lemma CutKeepsSound(nx: Links, rc: Counts, owned: multiset<Frag>, a: Frag?, fs: seq<Frag>, k: nat)
    requires Sound(nx, rc, owned) && Ref(a) <= owned && IsChain(nx, a, fs) && k < |fs|
    ensures Sound(Store(nx, Before(fs, k), null), rc, Swapped(owned, a, Nth(fs[..k], 0, null)) + multiset{fs[k]})
  {
    if k == 0 {
      HandleEmptied(owned, a);
    } else {
      ClearKeepsSound(nx, rc, owned, fs[k - 1]);
      assert Nth(fs[..k], 0, null) == a;
    }
  }

  // ----- Reclaiming does not disturb what is still reachable -----

  ghost predicate Restriction(nx': Links, nx: Links) {
    forall f :: f in nx' ==> f in nx && nx'[f] == nx[f]
  }

  lemma {:induction false} WalkInRestriction(nx': Links, nx: Links, owned: multiset<Frag>, g: Frag, n: nat)
    requires Closed(nx', owned) && Restriction(nx', nx) && g in owned
    ensures Walk(nx', g, n) == Walk(nx, g, n)
  {
    if n > 0 {
      WalkInRestriction(nx', nx, owned, g, n - 1);
      if Walk(nx', g, n - 1) != null {
        WalkStaysLive(nx', owned, g, n - 1);
      }
    }
  }

  /** After fragments were freed with the counts kept exact, the ones still live
      are those an owned reference reached through the links as they were. */
  lemma ExactlyUnreachableFreed(nx': Links, rc': Counts, nx: Links, owned: multiset<Frag>)
    requires Sound(nx', rc', owned) && Restriction(nx', nx)
    ensures forall f :: f in nx ==> (f in nx' <==> Reachable(nx, owned, f))
  {
    LiveIsReachable(nx', rc', owned);
    forall f | f in nx ensures Reachable(nx', owned, f) <==> Reachable(nx, owned, f) {
      SameReachable(nx', nx, owned, f);
    }
  }

  lemma SameReachable(nx': Links, nx: Links, owned: multiset<Frag>, f: Frag)
    requires Closed(nx', owned) && Restriction(nx', nx)
    ensures Reachable(nx', owned, f) <==> Reachable(nx, owned, f)
  {
    if Reachable(nx', owned, f) {
      var g: Frag :| g in owned && ReachedFrom(nx', g, f);
      SameReach(nx', nx, owned, g, f);
    }
    if Reachable(nx, owned, f) {
      var g: Frag :| g in owned && ReachedFrom(nx, g, f);
      SameReach(nx', nx, owned, g, f);
    }
  }

  lemma SameReach(nx': Links, nx: Links, owned: multiset<Frag>, g: Frag, f: Frag)
    requires Closed(nx', owned) && Restriction(nx', nx) && g in owned
    ensures ReachedFrom(nx', g, f) <==> ReachedFrom(nx, g, f)
  {
    forall n: nat ensures Walk(nx', g, n) == Walk(nx, g, n) {
      WalkInRestriction(nx', nx, owned, g, n);
    }
  }

  lemma {:induction false} WalkStaysInChain(nx: Links, a: Frag, fs: seq<Frag>, n: nat)
    requires IsChain(nx, a, fs)
    ensures Walk(nx, a, n) == Nth(fs, n, null)
  {
    if n > 0 {
      WalkStaysInChain(nx, a, fs, n - 1);
      if n - 1 < |fs| {
        assert nx[fs[n - 1]] == Nth(fs, n, null);
      }
    }
  }

  /** Giving up a reference to `buf` cuts off nothing outside its chain. */
  lemma OthersStayReachable(nx: Links, rc: Counts, owned: multiset<Frag>, buf: Frag?, fs: seq<Frag>)
    requires Sound(nx, rc, owned + Ref(buf)) && IsChain(nx, buf, fs)
    ensures forall f :: f in nx && !Reachable(nx, owned, f) ==> f in Elements(fs)
  {
    LiveIsReachable(nx, rc, owned + Ref(buf));
    forall f | f in nx && !Reachable(nx, owned, f) ensures f in Elements(fs) {
      ReachedThrough(nx, owned, buf, fs, f);
    }
  }

  lemma ReachedThrough(nx: Links, owned: multiset<Frag>, buf: Frag?, fs: seq<Frag>, f: Frag)
    requires IsChain(nx, buf, fs)
    requires Reachable(nx, owned + Ref(buf), f) && !Reachable(nx, owned, f)
    ensures f in Elements(fs)
  {
    var g: Frag :| g in owned + Ref(buf) && ReachedFrom(nx, g, f);
    assert g !in owned;
    var n: nat :| Walk(nx, g, n) == f;
    WalkStaysInChain(nx, g, fs, n);
  }

  /** A chain that is still owned survives reclamation whole. */
  lemma ChainSurvives(nx': Links, rc': Counts, owned: multiset<Frag>, nx: Links, a: Frag?, fs: seq<Frag>)
    requires Sound(nx', rc', owned) && Ref(a) <= owned && Restriction(nx', nx) && IsChain(nx, a, fs)
    ensures IsChain(nx', a, fs)
  {
    var gs := OwnedHasChain(nx', rc', owned, a);
    assert IsChain(nx, a, gs) by {
      forall f | f in gs ensures f in nx && nx[f] == nx'[f] {}
      SegFrame(nx', nx, a, gs, null);
    }
    ChainIsUnique(nx, a, fs, gs);
  }

  /** What giving up the reference to `buf` has freed, the counts being exact again. */
  lemma FreedIsUnreachable(nx': Links, rc': Counts, nx: Links, rc: Counts, owned: multiset<Frag>,
          rest: multiset<Frag>, buf: Frag?, fs: seq<Frag>)
    requires Sound(nx', rc', rest) && Restriction(nx', nx) && Sound(nx, rc, owned) && IsChain(nx, buf, fs)
    requires Ref(buf) <= owned && rest == owned - Ref(buf)
    ensures forall f :: f in nx ==> (f in nx' <==> Reachable(nx, rest, f)) && (f !in nx' ==> f in Elements(fs))
  {
    assert owned == rest + Ref(buf);
    ExactlyUnreachableFreed(nx', rc', nx, rest);
    OthersStayReachable(nx, rc, rest, buf, fs);
  }

  /** Giving up a reference to a fragment that links to nothing frees that one at most. */
  lemma OneFreedAtMost(nx': Links, rc': Counts, nx: Links, rc: Counts, rest: multiset<Frag>, f: Frag)
    requires Sound(nx', rc', rest) && Restriction(nx', nx)
    requires Sound(nx, rc, rest + multiset{f}) && IsChain(nx, f, [f])
    ensures forall g :: g in nx && g !in nx' ==> g == f
  {
    ExactlyUnreachableFreed(nx', rc', nx, rest);
    OthersStayReachable(nx, rc, rest, f, [f]);
    forall g | g in nx && g !in nx' ensures g == f {
      assert g in Elements([f]);
    }
  }
}
