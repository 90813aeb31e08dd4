// The retry loops on a shared word (timer/posix/atomic_mask.h). Every attempt of
// a weak compare-and-exchange meets a word other threads may have changed, and
// may fail though the word is as expected; a schedule lists what each attempt
// meets. An operation that returns has written at most once, and what it did at
// that one attempt is the plain operation on the word it met.
module AtomicMask {

  /** A machine word as the set of its bits that are one. The operations only
      compare words and combine them bit by bit: union is `|`, difference is
      `& ~`, and inclusion is `(word & mask) == mask`. */
  type Bits = set<nat>

  /** What one attempt meets: the word, and whether the exchange fails although
      the word is the expected one. */
  datatype Attempt = Attempt(word: Bits, spurious: bool)

  /** How an operation ends: at attempt `at` it replaced `was` by `now`, or gave up
      having met `was`; or the schedule ended first. */
  datatype Outcome = Wrote(at: nat, was: Bits, now: Bits) | Refused(at: nat, was: Bits) | Retrying

  predicate Succeeds(a: Attempt, expected: Bits) {
    a.word == expected && !a.spurious
  }

  /** The word attempt `k` expects: the first guess, then what the last one met. */
  function Expected(env: seq<Attempt>, first: Bits, k: nat): Bits
    requires k <= |env|
  {
    if k == 0 then first else env[k - 1].word
  }

  /** The first `k` attempts failed: each was spurious, or the word had moved. */
  ghost predicate Failed(env: seq<Attempt>, first: Bits, k: nat)
    requires k <= |env|
  {
    forall j {:trigger Expected(env, first, j)} :: 0 <= j < k ==> !Succeeds(env[j], Expected(env, first, j))
  }

  /** The operation ended at the first attempt that could end it, having met the
      word that attempt expected, or for a refusal the word it found instead. */
  ghost predicate AtOneInstant(env: seq<Attempt>, first: Bits, r: Outcome) {
    match r
    case Wrote(at, was, _) =>
      at < |env| && Failed(env, first, at) && Succeeds(env[at], Expected(env, first, at)) && was == env[at].word
    case Refused(at, was) => at < |env| && Failed(env, first, at + 1) && was == env[at].word
    case Retrying => Failed(env, first, |env|)
  }

  method MaskSet(env: seq<Attempt>, mask: Bits) returns (r: Outcome)
    ensures AtOneInstant(env, {}, r) && !r.Refused?
    ensures r.Wrote? ==> r.now == r.was + mask
  {
    var (masked, expected, k) := (mask, {}, 0);
    while k < |env| && !Succeeds(env[k], expected)
      invariant k <= |env| && expected == Expected(env, {}, k) && Failed(env, {}, k)
      invariant masked == expected + mask
    {
      expected := env[k].word;
      masked := expected + mask;
      k := k + 1;
    }
    r := if k < |env| then Wrote(k, expected, masked) else Retrying;
  }

  /** Sets the mask only if none of its bits is set. */
  method MaskSetStrict(env: seq<Attempt>, mask: Bits) returns (r: Outcome)
    ensures AtOneInstant(env, {}, r)
    ensures r.Wrote? ==> r.was !! mask && r.now == r.was + mask
    ensures r.Refused? ==> !(r.was !! mask)
  {
    var (expected, masked, k) := ({}, mask, 0);
    while k < |env| && !Succeeds(env[k], expected)
      invariant k <= |env| && expected == Expected(env, {}, k) && Failed(env, {}, k)
      invariant expected !! mask && masked == expected + mask
    {
      expected := env[k].word;
      if expected * mask != {} {
        return Refused(k, expected);
      }
      masked := expected + mask;
      k := k + 1;
    }
    r := if k < |env| then Wrote(k, expected, masked) else Retrying;
  }

  method MaskClear(env: seq<Attempt>, mask: Bits) returns (r: Outcome)
    ensures AtOneInstant(env, {}, r) && !r.Refused?
    ensures r.Wrote? ==> r.now == r.was - mask
  {
    var (masked, expected, k) := ({}, {}, 0);
    while k < |env| && !Succeeds(env[k], expected)
      invariant k <= |env| && expected == Expected(env, {}, k) && Failed(env, {}, k)
      invariant masked == expected - mask
    {
      expected := env[k].word;
      masked := expected - mask;
      k := k + 1;
    }
    r := if k < |env| then Wrote(k, expected, masked) else Retrying;
  }

  /** Sets `bits` if all of `cmp` is set. The first attempt expects exactly `cmp`
      and on meeting it writes `bits` alone. */
  method MaskCas(env: seq<Attempt>, cmp: Bits, bits: Bits) returns (r: Outcome)
    ensures CasOutcome(env, cmp, bits, r)
  {
    var (expected, masked, k) := (cmp, bits, 0);
    while k < |env| && !Succeeds(env[k], expected)
      invariant k <= |env| && expected == Expected(env, cmp, k) && Failed(env, cmp, k)
      invariant cmp <= expected && masked == if k == 0 then bits else expected + bits
    {
      expected := env[k].word;
      if !(cmp <= expected) {
        return Refused(k, expected);
      }
      masked := expected + bits;
      k := k + 1;
    }
    r := if k < |env| then Wrote(k, expected, masked) else Retrying;
  }

  ghost predicate CasOutcome(env: seq<Attempt>, cmp: Bits, bits: Bits, r: Outcome) {
    && AtOneInstant(env, cmp, r)
    && (r.Wrote? ==> cmp <= r.was && r.now == if r.at == 0 then bits else r.was + bits)
    && (r.Refused? ==> !(cmp <= r.was))
  }

  /** Main result: a write of MaskCas is the plain operation exactly unless its
      first attempt met the word `cmp` itself and `bits` lacks some of it. */
  lemma CasIsPlainIff(env: seq<Attempt>, cmp: Bits, bits: Bits, r: Outcome)
    requires CasOutcome(env, cmp, bits, r) && r.Wrote?
    ensures r.now == r.was + bits <==> !(Succeeds(env[0], cmp) && !(cmp <= bits))
  {
    assert Expected(env, cmp, 0) == cmp;
    if r.at == 0 {
      assert r.was == cmp;
      assert cmp <= bits ==> cmp + bits == bits;
    }
  }

  /** At its call site the word always holds a bit besides `cmp`. */
  lemma CasIsPlainWhenWordHoldsMore(env: seq<Attempt>, cmp: Bits, bits: Bits, r: Outcome)
    requires CasOutcome(env, cmp, bits, r) && r.Wrote?
    requires forall k :: 0 <= k < |env| ==> !(env[k].word <= cmp)
    ensures r.now == r.was + bits
  {
    CasIsPlainIff(env, cmp, bits, r);
    assert !(env[0].word <= cmp);
  }

  /** A word that is just the bit compared loses it: SCHED is bit 3, ACTIVE bit 2. */
  lemma CasLosesLoneBit(r: Outcome)
    requires CasOutcome([Attempt({3}, false)], {3}, {2}, r)
    ensures r == Wrote(0, {3}, {2})
  {
    var env := [Attempt({3}, false)];
    assert Expected(env, {3}, 0) == {3} && Succeeds(env[0], {3});
  }

  /** An operation makes progress: two attempts in a row meeting the same word, the
      second not spurious, end it. */
  lemma UndisturbedEnds(env: seq<Attempt>, first: Bits, r: Outcome, k: nat)
    requires AtOneInstant(env, first, r) && k + 1 < |env|
    requires env[k].word == env[k + 1].word && !env[k + 1].spurious
    ensures !r.Retrying? && r.at <= k + 1
  {
    assert Expected(env, first, k + 1) == env[k].word;
    assert Succeeds(env[k + 1], Expected(env, first, k + 1));
  }
}
