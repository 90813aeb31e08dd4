// The bytes of a buffer, independent of how they are cut into fragments: a
// buffer shows, in order, a window of each of its fragments' memory blocks.
module PbufWindows {

  import opened PbufLinks

  datatype Window = Window(store: array<Byte>, off: nat, len: nat)

  /** The contents of memory blocks at some moment. */
  type Memory = map<array<Byte>, seq<Byte>>

  ghost predicate Maps(m: Memory, w: Window) {
    w.store in m && w.off + w.len <= |m[w.store]|
  }

  ghost predicate InBounds(m: Memory, ws: seq<Window>) {
    forall i :: 0 <= i < |ws| ==> Maps(m, ws[i])
  }

  function Total(ws: seq<Window>): nat {
    if ws == [] then 0 else ws[0].len + Total(ws[1..])
  }

  /** The bytes in the first `k` windows. */
  function Upto(ws: seq<Window>, k: nat): nat
    requires k <= |ws|
  {
    if k == 0 then 0 else Upto(ws, k - 1) + ws[k - 1].len
  }

  lemma {:induction false} UptoIs(ws: seq<Window>, k: nat)
    requires k <= |ws|
    ensures Upto(ws, k) == Total(ws[..k])
  {
    if k > 0 {
      UptoIs(ws, k - 1);
      assert ws[..k] == ws[..k - 1] + [ws[k - 1]];
      TotalJoin(ws[..k - 1], [ws[k - 1]]);
    }
  }

  lemma UptoAll(ws: seq<Window>)
    ensures Upto(ws, |ws|) == Total(ws)
  {
    UptoIs(ws, |ws|);
    assert ws[..|ws|] == ws;
  }

  ghost function Shown(m: Memory, w: Window): seq<Byte>
    requires Maps(m, w)
  {
    m[w.store][w.off..w.off + w.len]
  }

  /** What the windows show of memory `m`. */
  ghost function Bytes(m: Memory, ws: seq<Window>): seq<Byte>
    requires InBounds(m, ws)
  {
    if ws == [] then [] else Shown(m, ws[0]) + Bytes(m, ws[1..])
  }

  function Min(a: nat, b: nat): nat {
    if a < b then a else b
  }

  /** The part of `bs` a range reaches, however far it runs past the end. */
  function Slice(bs: seq<Byte>, off: nat, n: nat): seq<Byte> {
    bs[Min(off, |bs|)..Min(off + n, |bs|)]
  }

  lemma SliceOfSlice(s: seq<Byte>, a: nat, b: nat, c: nat, d: nat)
    requires a <= b <= |s| && c <= d <= b - a
    ensures s[a..b][c..d] == s[a + c..a + d]
  {
    var (x, y) := (s[a..b][c..d], s[a + c..a + d]);
    forall i | 0 <= i < |x| ensures x[i] == y[i] {
      assert s[a..b][c + i] == s[a + c + i];
    }
  }

  lemma SliceAfterPrefix(p: seq<Byte>, r: seq<Byte>, cut: nat, n: nat, off: nat)
    requires cut + n <= |r| && off == |p| + cut
    ensures (p + r)[off..off + n] == r[cut..cut + n]
  {
  }

  lemma {:induction false} BytesLength(m: Memory, ws: seq<Window>)
    requires InBounds(m, ws)
    ensures |Bytes(m, ws)| == Total(ws)
  {
    if ws != [] {
      BytesLength(m, ws[1..]);
    }
  }

  lemma {:induction false} BytesJoin(m: Memory, a: seq<Window>, b: seq<Window>)
    requires InBounds(m, a) && InBounds(m, b)
    ensures Bytes(m, a + b) == Bytes(m, a) + Bytes(m, b)
  {
    if a == [] {
      assert a + b == b;
    } else {
      BytesJoin(m, a[1..], b);
      assert (a + b)[1..] == a[1..] + b;
    }
  }

  /** Two memories that agree inside the windows show the same. */
  lemma {:induction false} BytesFrame(m: Memory, m': Memory, ws: seq<Window>)
    requires InBounds(m, ws) && InBounds(m', ws)
    requires forall i :: 0 <= i < |ws| ==> Shown(m, ws[i]) == Shown(m', ws[i])
    ensures Bytes(m, ws) == Bytes(m', ws)
  {
    if ws != [] {
      BytesFrame(m, m', ws[1..]);
    }
  }

  lemma {:induction false} TotalJoin(a: seq<Window>, b: seq<Window>)
    ensures Total(a + b) == Total(a) + Total(b)
  {
    if a == [] {
      assert a + b == b;
    } else {
      TotalJoin(a[1..], b);
      assert (a + b)[1..] == a[1..] + b;
    }
  }

  // ----- Seeking -----

  /** The first window that reaches past offset `off`, or the end. */
  function SeekPast(ws: seq<Window>, off: nat): (k: nat)
    ensures k <= |ws|
  {
    if ws == [] || ws[0].len > off then 0 else 1 + SeekPast(ws[1..], off - ws[0].len)
  }

  /** Offset 0 is the first window, even when it is empty. */
  function Seek(ws: seq<Window>, off: nat): (k: nat)
    ensures k <= |ws|
  {
    if off == 0 then 0 else SeekPast(ws, off)
  }

  lemma {:induction false} SeekPastBounds(ws: seq<Window>, off: nat)
    ensures var k := SeekPast(ws, off);
            Total(ws[..k]) <= off
            && (k < |ws| ==> off < Total(ws[..k]) + ws[k].len && off < Total(ws))
            && (k == |ws| ==> Total(ws) <= off)
  {
    if ws != [] && ws[0].len <= off {
      var k := SeekPast(ws[1..], off - ws[0].len);
      SeekPastBounds(ws[1..], off - ws[0].len);
      assert ws[..k + 1] == [ws[0]] + ws[1..][..k];
      if k == |ws| - 1 {
        assert ws[1..][..k] == ws[1..];
      }
    }
  }

  /** A position before which everything fits under `off`, and whose own window
      passes it, is the one seeking finds. */
  lemma {:induction false} SeekPastIs(ws: seq<Window>, off: nat, k: nat)
    requires k <= |ws| && Total(ws[..k]) <= off
    requires k < |ws| ==> off < Total(ws[..k]) + ws[k].len
    ensures SeekPast(ws, off) == k
  {
    if k > 0 {
      assert ws[..k] == [ws[0]] + ws[1..][..k - 1];
      SeekPastIs(ws[1..], off - ws[0].len, k - 1);
    }
  }

  lemma SeekIs(ws: seq<Window>, off: nat, k: nat)
    requires k <= |ws| && Upto(ws, k) <= off
    requires k < |ws| ==> (off == 0 && k == 0) || off < Upto(ws, k + 1)
    requires off == 0 ==> k == 0
    ensures Seek(ws, off) == k
  {
    UptoIs(ws, k);
    if off > 0 {
      SeekPastIs(ws, off, k);
    }
  }

  // ----- Sub-windows: what a view holds -----

  /** The first `n` bytes of the windows, as windows. */
  function Take(ws: seq<Window>, n: nat): seq<Window>
    requires n <= Total(ws)
  {
    if n == 0 then []
    else
      var len := Min(ws[0].len, n);
      [ws[0].(len := len)] + Take(ws[1..], n - len)
  }

  /** A view of a range exists when seeking finds a fragment and the range ends
      inside the buffer. */
  predicate Viewable(ws: seq<Window>, off: nat, n: nat) {
    Seek(ws, off) < |ws| && off + n <= Total(ws)
  }

  /** `n` bytes from byte `cut` of window `w` on, then of the windows after it. */
  function ViewFrom(w: Window, post: seq<Window>, cut: nat, n: nat): seq<Window>
    requires cut <= w.len && cut + n <= w.len + Total(post)
  {
    var len := Min(w.len - cut, n);
    [Window(w.store, w.off + cut, len)] + Take(post, n - len)
  }

  function View(ws: seq<Window>, off: nat, n: nat): seq<Window>
    requires Viewable(ws, off, n)
  {
    ViewLemma(ws, off, n);
    var k := Seek(ws, off);
    ViewFrom(ws[k], ws[k + 1..], off - Total(ws[..k]), n)
  }

  lemma ViewLemma(ws: seq<Window>, off: nat, n: nat)
    requires Viewable(ws, off, n)
    ensures var k := Seek(ws, off);
            Total(ws[..k]) <= off <= Total(ws[..k]) + ws[k].len
            && Total(ws) == Total(ws[..k]) + ws[k].len + Total(ws[k + 1..])
  {
    var k := Seek(ws, off);
    SeekPastBounds(ws, off);
    assert ws == ws[..k] + ([ws[k]] + ws[k + 1..]);
    TotalJoin(ws[..k], [ws[k]] + ws[k + 1..]);
  }

  lemma {:induction false} TakeShows(m: Memory, ws: seq<Window>, n: nat)
    requires InBounds(m, ws) && n <= Total(ws)
    ensures InBounds(m, Take(ws, n)) && |Bytes(m, ws)| == Total(ws)
    ensures Bytes(m, Take(ws, n)) == Bytes(m, ws)[..n]
  {
    BytesLength(m, ws);
    if n > 0 {
      var len := Min(ws[0].len, n);
      TakeShows(m, ws[1..], n - len);
      TakeStep(m, ws, n);
    }
  }

  lemma TakeStep(m: Memory, ws: seq<Window>, n: nat)
    requires InBounds(m, ws) && 0 < n <= Total(ws)
    requires InBounds(m, Take(ws[1..], n - Min(ws[0].len, n)))
    requires |Bytes(m, ws[1..])| == Total(ws[1..])
    requires Bytes(m, Take(ws[1..], n - Min(ws[0].len, n))) == Bytes(m, ws[1..])[..n - Min(ws[0].len, n)]
    ensures InBounds(m, Take(ws, n)) && Bytes(m, Take(ws, n)) == Bytes(m, ws)[..n]
  {
    var len := Min(ws[0].len, n);
    var first := ws[0].(len := len);
    var t := Take(ws, n);
    assert Maps(m, ws[0]);
    assert t[0] == first && t[1..] == Take(ws[1..], n - len);
    assert forall i :: 0 < i < |t| ==> t[i] == t[1..][i - 1];
    assert Shown(m, first) == Shown(m, ws[0])[..len];
  }

  /** Main result: whatever memory holds, a view shows the slice of what its
      source shows. Nothing here fixes the memory, so this stays true after any
      later write to it: a view is a live window. */
  lemma ViewIsLive(m: Memory, ws: seq<Window>, off: nat, n: nat)
    requires InBounds(m, ws) && Viewable(ws, off, n)
    ensures InBounds(m, View(ws, off, n))
    ensures |Bytes(m, ws)| == Total(ws) && Bytes(m, View(ws, off, n)) == Bytes(m, ws)[off..off + n]
  {
    ViewLemma(ws, off, n);
    var k := Seek(ws, off);
    var cut := off - Total(ws[..k]);
    BytesAround(m, ws, k);
    ViewFromShows(m, Bytes(m, ws[..k]), ws[k], ws[k + 1..], cut, n, off);
  }

  lemma ViewFromShows(m: Memory, before: seq<Byte>, w: Window, post: seq<Window>, cut: nat, n: nat, off: nat)
    requires Maps(m, w) && InBounds(m, post) && cut <= w.len && cut + n <= w.len + Total(post) && off == |before| + cut
    ensures InBounds(m, ViewFrom(w, post, cut, n)) && |Bytes(m, post)| == Total(post)
    ensures off + n <= |before + (Shown(m, w) + Bytes(m, post))|
    ensures Bytes(m, ViewFrom(w, post, cut, n)) == (before + (Shown(m, w) + Bytes(m, post)))[off..off + n]
  {
    var len := Min(w.len - cut, n);
    var rest := n - len;
    var t := Take(post, rest);
    TakeShows(m, post, rest);
    ViewPieces(m, w, post, cut, len, rest, n, t);
    SliceAfterPrefix(before, Shown(m, w) + Bytes(m, post), cut, n, off);
  }

  /** The bytes before, inside and after the `k`th window. */
  lemma BytesAround(m: Memory, ws: seq<Window>, k: nat)
    requires InBounds(m, ws) && k < |ws|
    ensures Bytes(m, ws) == Bytes(m, ws[..k]) + (Shown(m, ws[k]) + Bytes(m, ws[k + 1..]))
    ensures |Bytes(m, ws[..k])| == Total(ws[..k]) && |Bytes(m, ws)| == Total(ws)
  {
    var rest := [ws[k]] + ws[k + 1..];
    assert ws == ws[..k] + rest && rest[1..] == ws[k + 1..];
    BytesJoin(m, ws[..k], rest);
    BytesLength(m, ws[..k]);
    BytesLength(m, ws);
  }

  lemma ViewPieces(m: Memory, w: Window, post: seq<Window>, cut: nat, len: nat, rest: nat, n: nat, t: seq<Window>)
    requires n == len + rest && Maps(m, w) && InBounds(m, post) && cut + len <= w.len && (rest > 0 ==>
          cut + len == w.len)
    requires InBounds(m, t) && rest <= |Bytes(m, post)| && Bytes(m, t) == Bytes(m, post)[..rest]
    ensures var v := [Window(w.store, w.off + cut, len)] + t;
            InBounds(m, v) && Bytes(m, v) == (Shown(m, w) + Bytes(m, post))[cut..cut + n]
  {
    var first := Window(w.store, w.off + cut, len);
    var v := [first] + t;
    assert v[1..] == t;
    assert forall i :: 0 < i < |v| ==> v[i] == t[i - 1];
    SliceOfSlice(m[w.store], w.off, w.off + w.len, cut, cut + len);
    SliceBoth(Shown(m, w), Bytes(m, post), cut, len, rest);
  }

  lemma SliceBoth(a: seq<Byte>, b: seq<Byte>, cut: nat, len: nat, rest: nat)
    requires cut + len <= |a| && rest <= |b| && (rest > 0 ==> cut + len == |a|)
    ensures (a + b)[cut..cut + len + rest] == a[cut..cut + len] + b[..rest]
  {
  }

  /** Exactly the ranges a view can be made of. */
  lemma ViewableIs(ws: seq<Window>, off: nat, n: nat)
    ensures Viewable(ws, off, n) <==> ws != [] && off + n <= Total(ws) && (off == 0 || off < Total(ws))
  {
    SeekPastBounds(ws, off);
  }

  lemma ViewTotal(m: Memory, ws: seq<Window>, off: nat, n: nat)
    requires InBounds(m, ws) && Viewable(ws, off, n)
    ensures Total(View(ws, off, n)) == n
  {
    ViewIsLive(m, ws, off, n);
    BytesLength(m, View(ws, off, n));
  }

  lemma SummedIsViewable(ws: seq<Window>, o1: nat, n1: nat, vs: seq<Window>, o2: nat, n2: nat)
    requires Viewable(ws, o1, n1) && Viewable(vs, o2, n2) && Total(vs) == n1
    ensures Viewable(ws, o1 + o2, n2) && o2 + n2 <= n1
  {
    ViewableIs(ws, o1, n1);
    ViewableIs(vs, o2, n2);
    ViewableIs(ws, o1 + o2, n2);
  }

  /** A view of a view shows what one view at the summed offset shows; if the one can
      be made, so can the other. */
  lemma ViewOfView(m: Memory, ws: seq<Window>, o1: nat, n1: nat, o2: nat, n2: nat)
    requires InBounds(m, ws) && Viewable(ws, o1, n1) && Viewable(View(ws, o1, n1), o2, n2)
    ensures Viewable(ws, o1 + o2, n2)
    ensures InBounds(m, View(View(ws, o1, n1), o2, n2)) && InBounds(m, View(ws, o1 + o2, n2))
    ensures Bytes(m, View(View(ws, o1, n1), o2, n2)) == Bytes(m, View(ws, o1 + o2, n2))
  {
    var vs := View(ws, o1, n1);
    ViewTotal(m, ws, o1, n1);
    SummedIsViewable(ws, o1, n1, vs, o2, n2);
    ViewsAgree(m, ws, o1, n1, vs, o2, n2, o1 + o2);
  }

  lemma ViewsAgree(m: Memory, ws: seq<Window>, o1: nat, n1: nat, vs: seq<Window>, o2: nat, n2: nat, off: nat)
    requires InBounds(m, ws) && Viewable(ws, o1, n1) && vs == View(ws, o1, n1) && Viewable(vs, o2, n2)
    requires off == o1 + o2 && o2 + n2 <= n1 && Viewable(ws, off, n2)
    ensures InBounds(m, View(vs, o2, n2)) && InBounds(m, View(ws, off, n2))
    ensures Bytes(m, View(vs, o2, n2)) == Bytes(m, View(ws, off, n2))
  {
    ViewIsLive(m, ws, o1, n1);
    ViewIsLive(m, vs, o2, n2);
    ViewIsLive(m, ws, off, n2);
    SliceOfSlice(Bytes(m, ws), o1, o1 + n1, o2, o2 + n2);
  }

  // ----- What shrinking leaves -----

  /** How many windows lie wholly before offset `off`. */
  function Dropped(ws: seq<Window>, off: nat): (k: nat)
    ensures k <= |ws|
  {
    Seek(ws, off)
  }

  function DropHead(ws: seq<Window>, off: nat): seq<Window> {
    SeekPastBounds(ws, off);
    var k := Dropped(ws, off);
    if off == 0 || k == |ws| then ws[k..] else DropFrom(ws[k], ws[k + 1..], off - Total(ws[..k]))
  }

  function DropFrom(w: Window, post: seq<Window>, cut: nat): seq<Window>
    requires cut <= w.len
  {
    [Window(w.store, w.off + cut, w.len - cut)] + post
  }

  function KeepTail(ws: seq<Window>, size: nat): (r: seq<Window>)
    ensures |r| <= |ws|
  {
    if ws == [] then []
    else
      var len := Min(ws[0].len, size);
      if size - len == 0 then [ws[0].(len := len)] else [ws[0]] + KeepTail(ws[1..], size - len)
  }

  /** Where keeping stops, and how much of that window is kept. */
  lemma {:induction false} KeepTailIs(ws: seq<Window>, size: nat, k: nat)
    requires k <= |ws| && Upto(ws, k) <= size && (k > 0 ==> Upto(ws, k) < size)
    requires k < |ws| ==> size <= Upto(ws, k + 1)
    ensures KeepTail(ws, size) == ws[..k] + if k == |ws| then [] else [ws[k].(len := size - Upto(ws, k))]
  {
    if ws != [] && k > 0 {
      UptoShift(ws, k);
      if k < |ws| {
        UptoShift(ws, k + 1);
      }
      UptoShift(ws, 1);
      KeepTailIs(ws[1..], size - ws[0].len, k - 1);
      assert ws[..k] == [ws[0]] + ws[1..][..k - 1];
    }
  }

  lemma {:induction false} UptoShift(ws: seq<Window>, k: nat)
    requires 0 < k <= |ws|
    ensures Upto(ws, k) == ws[0].len + Upto(ws[1..], k - 1)
  {
    if k > 1 {
      UptoShift(ws, k - 1);
    }
  }

  function Shrunk(ws: seq<Window>, off: nat, size: nat): seq<Window> {
    KeepTail(DropHead(ws, off), size)
  }

  lemma {:induction false} KeepTailShows(m: Memory, ws: seq<Window>, size: nat)
    requires InBounds(m, ws)
    ensures InBounds(m, KeepTail(ws, size))
    ensures Bytes(m, KeepTail(ws, size)) == Bytes(m, ws)[..Min(size, |Bytes(m, ws)|)]
  {
    if ws != [] {
      var len := Min(ws[0].len, size);
      assert Maps(m, ws[0]);
      if size - len == 0 {
        var last := ws[0].(len := len);
        assert Shown(m, last) == Shown(m, ws[0])[..len];
        assert Bytes(m, [last]) == Shown(m, last) + [];
      } else {
        KeepTailShows(m, ws[1..], size - len);
        var t := KeepTail(ws, size);
        assert t[1..] == KeepTail(ws[1..], size - len);
        assert forall i :: 0 < i < |t| ==> t[i] == t[1..][i - 1];
        PrefixAcross(Shown(m, ws[0]), Bytes(m, ws[1..]), size);
      }
    }
  }

  lemma PrefixAcross(a: seq<Byte>, b: seq<Byte>, n: nat)
    requires |a| <= n
    ensures a + b[..Min(n - |a|, |b|)] == (a + b)[..Min(n, |a + b|)]
  {
  }

  lemma DropHeadShows(m: Memory, ws: seq<Window>, off: nat)
    requires InBounds(m, ws)
    ensures InBounds(m, DropHead(ws, off))
    ensures Bytes(m, DropHead(ws, off)) == Bytes(m, ws)[Min(off, |Bytes(m, ws)|)..]
  {
    SeekPastBounds(ws, off);
    BytesLength(m, ws);
    var k := Dropped(ws, off);
    if off == 0 {
      assert DropHead(ws, off) == ws;
    } else if k == |ws| {
      assert DropHead(ws, off) == [];
    } else {
      DropHeadInside(m, ws, off);
    }
  }

  lemma DropHeadInside(m: Memory, ws: seq<Window>, off: nat)
    requires InBounds(m, ws) && 0 < off && Dropped(ws, off) < |ws|
    ensures InBounds(m, DropHead(ws, off)) && off <= |Bytes(m, ws)|
    ensures Bytes(m, DropHead(ws, off)) == Bytes(m, ws)[off..]
  {
    SeekPastBounds(ws, off);
    var k := Dropped(ws, off);
    var cut := off - Total(ws[..k]);
    BytesAround(m, ws, k);
    DropInside(m, Bytes(m, ws[..k]), ws[k], ws[k + 1..], cut, off);
  }

  lemma DropInside(m: Memory, before: seq<Byte>, w: Window, post: seq<Window>, cut: nat, off: nat)
    requires Maps(m, w) && InBounds(m, post) && cut <= w.len && off == |before| + cut
    ensures InBounds(m, DropFrom(w, post, cut)) && off <= |before + (Shown(m, w) + Bytes(m, post))|
    ensures Bytes(m, DropFrom(w, post, cut)) == (before + (Shown(m, w) + Bytes(m, post)))[off..]
  {
    var first := Window(w.store, w.off + cut, w.len - cut);
    var r := [first] + post;
    assert r[1..] == post;
    assert forall i :: 0 < i < |r| ==> r[i] == post[i - 1];
    SliceOfSlice(m[w.store], w.off, w.off + w.len, cut, w.len);
    assert Shown(m, first) == Shown(m, w)[cut..];
    assert (before + (Shown(m, w) + Bytes(m, post)))[off..] == Shown(m, w)[cut..] + Bytes(m, post);
  }

  /** Main result: shrinking leaves the bytes from min(off, n) to min(off + size,
      n) of the n there were, for every way they are cut into fragments. */
  lemma ShrunkShows(m: Memory, ws: seq<Window>, off: nat, size: nat)
    requires InBounds(m, ws)
    ensures InBounds(m, Shrunk(ws, off, size))
    ensures Bytes(m, Shrunk(ws, off, size)) == Slice(Bytes(m, ws), off, size)
  {
    DropHeadShows(m, ws, off);
    KeepTailShows(m, DropHead(ws, off), size);
    var bs := Bytes(m, ws);
    var rest := bs[Min(off, |bs|)..];
    assert rest[..Min(size, |rest|)] == bs[Min(off, |bs|)..Min(off + size, |bs|)];
  }

  // ----- Stripping -----

  /** Subtraction of sizes wraps around. */
  const SIZE_MODULUS: nat := 0x1_0000_0000_0000_0000

  function SizeSub(a: nat, b: nat): nat
    requires a < SIZE_MODULUS && b < SIZE_MODULUS
  {
    if b <= a then a - b else a + SIZE_MODULUS - b
  }

  function HeadStripped(ws: seq<Window>, size: nat): seq<Window>
    requires Total(ws) < SIZE_MODULUS && size < SIZE_MODULUS
  {
    Shrunk(ws, size, SizeSub(Total(ws), size))
  }

  function TailStripped(ws: seq<Window>, size: nat): seq<Window>
    requires Total(ws) < SIZE_MODULUS && size < SIZE_MODULUS
  {
    Shrunk(ws, 0, SizeSub(Total(ws), size))
  }

  /** Stripping the head drops the first `size` bytes, or all there are. */
  lemma HeadStrippedShows(m: Memory, ws: seq<Window>, size: nat)
    requires InBounds(m, ws) && Total(ws) < SIZE_MODULUS && size < SIZE_MODULUS
    ensures InBounds(m, HeadStripped(ws, size))
    ensures Bytes(m, HeadStripped(ws, size)) == Bytes(m, ws)[Min(size, |Bytes(m, ws)|)..]
  {
    BytesLength(m, ws);
    ShrunkShows(m, ws, size, SizeSub(Total(ws), size));
  }

  /** Stripping the tail of more bytes than there are wraps around, and the
      buffer keeps them all. */
  lemma TailStrippedShows(m: Memory, ws: seq<Window>, size: nat)
    requires InBounds(m, ws) && Total(ws) < SIZE_MODULUS && size < SIZE_MODULUS
    ensures InBounds(m, TailStripped(ws, size)) && |Bytes(m, ws)| == Total(ws)
    ensures Bytes(m, TailStripped(ws, size)) ==
          Bytes(m, ws)[..if size <= Total(ws) then Total(ws) - size else Total(ws)]
  {
    BytesLength(m, ws);
    ShrunkShows(m, ws, 0, SizeSub(Total(ws), size));
  }

  /** The tail is stripped of `size` bytes, or of all there are, exactly when the
      buffer has that many, or none. */
  lemma TailIsStrippedIff(m: Memory, ws: seq<Window>, size: nat)
    requires InBounds(m, ws) && Total(ws) < SIZE_MODULUS && size < SIZE_MODULUS
    ensures InBounds(m, TailStripped(ws, size)) && |Bytes(m, ws)| == Total(ws)
    ensures Bytes(m, TailStripped(ws, size)) == Bytes(m, ws)[..Total(ws) - Min(size, Total(ws))]
            <==> size <= Total(ws) || Total(ws) == 0
  {
    TailStrippedShows(m, ws, size);
  }

  lemma DropTakeCommute(bs: seq<Byte>, head: nat, tail: nat)
    requires head + tail <= |bs|
    ensures bs[head..][..|bs| - head - tail] == bs[..|bs| - tail][head..]
  {
  }

  lemma TailOfHead(m: Memory, ws: seq<Window>, head: nat, tail: nat)
    requires InBounds(m, ws) && Total(ws) < SIZE_MODULUS && head + tail <= Total(ws)
    ensures |Bytes(m, ws)| == Total(ws) && Total(HeadStripped(ws, head)) == Total(ws) - head
    ensures InBounds(m, TailStripped(HeadStripped(ws, head), tail))
    ensures Bytes(m, TailStripped(HeadStripped(ws, head), tail)) == Bytes(m, ws)[head..][..Total(ws) - head - tail]
  {
    BytesLength(m, ws);
    HeadStrippedShows(m, ws, head);
    var hs := HeadStripped(ws, head);
    BytesLength(m, hs);
    TailStrippedShows(m, hs, tail);
  }

  lemma HeadOfTail(m: Memory, ws: seq<Window>, head: nat, tail: nat)
    requires InBounds(m, ws) && Total(ws) < SIZE_MODULUS && head + tail <= Total(ws)
    ensures |Bytes(m, ws)| == Total(ws) && Total(TailStripped(ws, tail)) == Total(ws) - tail
    ensures InBounds(m, HeadStripped(TailStripped(ws, tail), head))
    ensures Bytes(m, HeadStripped(TailStripped(ws, tail), head)) == Bytes(m, ws)[..Total(ws) - tail][head..]
  {
    TailStrippedShows(m, ws, tail);
    var ts := TailStripped(ws, tail);
    BytesLength(m, ts);
    HeadStrippedShows(m, ts, head);
  }

  /** Within the size of the buffer, stripping head and tail commute. */
  lemma StripsCommute(m: Memory, ws: seq<Window>, head: nat, tail: nat)
    requires InBounds(m, ws) && Total(ws) < SIZE_MODULUS && head + tail <= Total(ws)
    ensures Total(HeadStripped(ws, head)) == Total(ws) - head && Total(TailStripped(ws, tail)) == Total(ws) - tail
    ensures InBounds(m, TailStripped(HeadStripped(ws, head), tail))
          && InBounds(m, HeadStripped(TailStripped(ws, tail), head))
    ensures Bytes(m, TailStripped(HeadStripped(ws, head), tail)) == Bytes(m, HeadStripped(TailStripped(ws, tail), head))
  {
    TailOfHead(m, ws, head, tail);
    HeadOfTail(m, ws, head, tail);
    DropTakeCommute(Bytes(m, ws), head, tail);
  }
}
