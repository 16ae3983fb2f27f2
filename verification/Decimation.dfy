/** What the selection table's decisions amount to over whole runs: a bound on
    the forwarding rate under every interleaving of table operations, and the
    optimality of forwarding greedily while the separation stays fixed. */
module Decimation {
  import opened Wire
  import opened Selection

  /** One operation of the table's interface. */
  datatype Op =
    | AddOp(uid: Int32)
    | EraseOp(uid: Int32)
    | PeriodOp(ms: UInt32)
    | SampleOp(uid: Int32, now: int)

  function Apply(t: Table, op: Op): Table {
    match op
    case AddOp(uid) => t.Add(uid)
    case EraseOp(uid) => t.Erase(uid)
    case PeriodOp(ms) => t.SetPeriod(ms)
    case SampleOp(uid, now) => t.Decide(uid, now)
  }

  predicate IsArrival(op: Op, u: Int32) {
    op.SampleOp? && op.uid == u
  }

  /** The times at which samples of `u` arrive. */
  function Arrivals(ops: seq<Op>, u: Int32): seq<int> {
    if ops == [] then []
    else (if IsArrival(ops[0], u) then [ops[0].now] else []) + Arrivals(ops[1..], u)
  }

  /** The times at which samples of `u` are forwarded. */
  function Emitted(t: Table, ops: seq<Op>, u: Int32): seq<int>
    decreases |ops|
  {
    if ops == [] then []
    else (if IsArrival(ops[0], u) && t.Due(u, ops[0].now) then [ops[0].now] else [])
         + Emitted(Apply(t, ops[0]), ops[1..], u)
  }

  function Erasures(ops: seq<Op>, u: Int32): nat {
    if ops == [] then 0
    else (if ops[0] == EraseOp(u) then 1 else 0) + Erasures(ops[1..], u)
  }

  /** A steady clock: arrival times never decrease and stay within [a, b]. */
  predicate Clocked(ops: seq<Op>, a: int, b: int) {
    if ops == [] then a <= b
    else if ops[0].SampleOp? then a <= ops[0].now <= b && Clocked(ops[1..], ops[0].now, b)
    else Clocked(ops[1..], a, b)
  }

  /** The separation is at least `p` whenever a sample of `u` is judged. */
  predicate SeparatedBy(t: Table, ops: seq<Op>, u: Int32, p: int)
    decreases |ops|
  {
    ops != [] ==>
    && (IsArrival(ops[0], u) ==> t.Gap() >= p)
    && SeparatedBy(Apply(t, ops[0]), ops[1..], u, p)
  }

  // ----- Rate bound -----

  predicate HasEmitted(t: Table, u: Int32) {
    u in t.subs && t.subs[u].hasEmitted
  }

  lemma OneMore(n: int, p: int)
    ensures (n + 1) * p == n * p + p
  {
  }

  /** Once `u` has been forwarded at L, every further forwarding costs `p` of
      the time since L or one erasure; before that, one forwarding is free. */
  lemma {:induction false} RatePotential(t: Table, ops: seq<Op>, u: Int32, p: int, a: int, b: int)
    requires p > 0 && Clocked(ops, a, b) && SeparatedBy(t, ops, u, p)
    ensures a <= b
    ensures |Emitted(t, ops, u)| * p <= b - a + p + Erasures(ops, u) * p
    ensures HasEmitted(t, u) && t.subs[u].lastEmitted <= a ==>
              |Emitted(t, ops, u)| * p <= b - t.subs[u].lastEmitted + Erasures(ops, u) * p
    decreases |ops|
  {
    if ops != [] {
      var t', rest := Apply(t, ops[0]), ops[1..];
      RatePotential(t', rest, u, p, if ops[0].SampleOp? then ops[0].now else a, b);
      OneMore(|Emitted(t', rest, u)|, p);
      OneMore(Erasures(rest, u), p);
    }
  }

  lemma AtMostQuotient(k: int, p: int, d: int)
    requires p > 0 && k * p <= d
    ensures k <= d / p
  {
    var q := d / p;
    assert d == q * p + d % p;
    assert (q + 1 - k) * p == q * p + p - k * p > 0;
  }

  lemma Spread(n: int, e: int, p: int)
    ensures (n - 1 - e) * p == n * p - p - e * p
  {
  }

  /** Over any run, however the uid is re-added and the separation changed,
      at most one forwarding per erasure and per elapsed separation, plus one. */
  lemma RateBound(t: Table, ops: seq<Op>, u: Int32, p: int, a: int, b: int)
    requires p > 0 && Clocked(ops, a, b) && SeparatedBy(t, ops, u, p)
    ensures |Emitted(t, ops, u)| <= 1 + Erasures(ops, u) + (b - a) / p
  {
    RatePotential(t, ops, u, p, a, b);
    var n, e := |Emitted(t, ops, u)|, Erasures(ops, u);
    Spread(n, e, p);
    AtMostQuotient(n - 1 - e, p, b - a);
  }

  // ----- Greedy optimality -----

  /** `u` stays selected at a separation of exactly `p`. */
  predicate Steady(t: Table, ops: seq<Op>, u: Int32, p: int)
    decreases |ops|
  {
    && u in t.subs
    && t.Gap() == p
    && (ops == [] || Steady(Apply(t, ops[0]), ops[1..], u, p))
  }

  predicate IsSubsequence(s: seq<int>, of: seq<int>) {
    s != [] ==>
    && of != []
    && ((s[0] == of[0] && IsSubsequence(s[1..], of[1..])) || IsSubsequence(s, of[1..]))
  }

  /** Consecutive times, starting from one before them if given, are `p` apart. */
  predicate Spaced(last: Option<int>, times: seq<int>, p: int)
    decreases |times|
  {
    times != [] ==>
    && (last.Some? ==> times[0] - last.value >= p)
    && Spaced(Some(times[0]), times[1..], p)
  }

  function LastEmission(t: Table, u: Int32): Option<int> {
    if HasEmitted(t, u) then Some(t.subs[u].lastEmitted) else None
  }

  predicate NotAfter(x: Option<int>, y: Option<int>) {
    x.None? || (y.Some? && x.value <= y.value)
  }

  /** Greedy stays ahead: a competing selection `s`, whose own last emission was
      at `last`, can gain at most one forwarding, and none if it was not behind. */
  lemma {:induction false} GreedyStaysAhead(t: Table, ops: seq<Op>, u: Int32, p: int, a: int, b: int,
                                            last: Option<int>, s: seq<int>)
    requires p > 0 && Steady(t, ops, u, p) && Clocked(ops, a, b)
    requires NotAfter(LastEmission(t, u), Some(a))
    requires IsSubsequence(s, Arrivals(ops, u)) && Spaced(last, s, p)
    ensures |s| <= |Emitted(t, ops, u)| + 1
    ensures NotAfter(LastEmission(t, u), last) ==> |s| <= |Emitted(t, ops, u)|
    decreases |ops|
  {
    if ops != [] && s != [] {
      var t', rest := Apply(t, ops[0]), ops[1..];
      var a' := if ops[0].SampleOp? then ops[0].now else a;
      var xs := Arrivals(ops, u);
      assert (if IsArrival(ops[0], u) then xs[1..] else xs) == Arrivals(rest, u);
      if IsArrival(ops[0], u) && s[0] == xs[0] && IsSubsequence(s[1..], xs[1..]) {
        GreedyStaysAhead(t', rest, u, p, a', b, Some(s[0]), s[1..]);
      } else {
        GreedyStaysAhead(t', rest, u, p, a', b, last, s);
      }
    }
  }

  lemma {:induction false} GreedyIsSpaced(t: Table, ops: seq<Op>, u: Int32, p: int)
    requires p > 0 && Steady(t, ops, u, p)
    ensures IsSubsequence(Emitted(t, ops, u), Arrivals(ops, u))
    ensures Spaced(LastEmission(t, u), Emitted(t, ops, u), p)
    decreases |ops|
  {
    if ops != [] {
      var t', rest := Apply(t, ops[0]), ops[1..];
      GreedyIsSpaced(t', rest, u, p);
      var xs, es := Arrivals(ops, u), Emitted(t, ops, u);
      assert (if IsArrival(ops[0], u) then xs[1..] else xs) == Arrivals(rest, u);
      assert (if IsArrival(ops[0], u) && t.Due(u, ops[0].now) then es[1..] else es) == Emitted(t', rest, u);
    }
  }

  /** For a freshly selected uid at a fixed separation, the forwarded samples
      are a longest subsequence of the arrivals with all gaps at least `p`. */
  lemma GreedyIsOptimal(t: Table, ops: seq<Op>, u: Int32, p: int, a: int, b: int, s: seq<int>)
    requires p > 0 && Steady(t, ops, u, p) && Clocked(ops, a, b) && !HasEmitted(t, u)
    requires IsSubsequence(s, Arrivals(ops, u)) && Spaced(None, s, p)
    ensures IsSubsequence(Emitted(t, ops, u), Arrivals(ops, u)) && Spaced(None, Emitted(t, ops, u), p)
    ensures |s| <= |Emitted(t, ops, u)|
  {
    GreedyIsSpaced(t, ops, u, p);
    GreedyStaysAhead(t, ops, u, p, a, b, None, s);
  }

  /** At separation 0 nothing is held back. */
  lemma {:induction false} ZeroForwardsAll(t: Table, ops: seq<Op>, u: Int32)
    requires Steady(t, ops, u, 0)
    ensures Emitted(t, ops, u) == Arrivals(ops, u)
    decreases |ops|
  {
    if ops != [] {
      ZeroForwardsAll(Apply(t, ops[0]), ops[1..], u);
    }
  }

  ghost predicate Covered(times: seq<int>, x: int, p: int) {
    exists e :: e in times && x - p < e <= x
  }

  lemma CoveredBy(times: seq<int>, i: nat, x: int, p: int)
    requires i < |times| && x - p < times[i] <= x
    ensures Covered(times, x, p)
  {
    assert times[i] in times;
  }

  lemma CoveredLater(head: seq<int>, times: seq<int>, x: int, p: int)
    requires Covered(times, x, p)
    ensures Covered(head + times, x, p)
  {
    var e :| e in times && x - p < e <= x;
    assert e in head + times;
  }

  /** No arrival goes unrepresented: each has a forwarding less than `p` before
      it or at it, counting the one in force at the start. */
  lemma {:induction false} CoverageFrom(t: Table, ops: seq<Op>, u: Int32, p: int, a: int, b: int, x: int)
    requires p > 0 && Steady(t, ops, u, p) && Clocked(ops, a, b)
    requires NotAfter(LastEmission(t, u), Some(a))
    requires x in Arrivals(ops, u)
    ensures a <= x
    ensures Covered(Emitted(t, ops, u), x, p)
         || (HasEmitted(t, u) && x - p < t.subs[u].lastEmitted <= x)
    decreases |ops|
  {
    var t', rest := Apply(t, ops[0]), ops[1..];
    var a' := if ops[0].SampleOp? then ops[0].now else a;
    var es := Emitted(t, ops, u);
    if IsArrival(ops[0], u) && x == ops[0].now {
      if t.Due(u, x) {
        CoveredBy(es, 0, x, p);
      }
    } else {
      CoverageFrom(t', rest, u, p, a', b, x);
      if Covered(Emitted(t', rest, u), x, p) {
        CoveredLater(if IsArrival(ops[0], u) && t.Due(u, ops[0].now) then [ops[0].now] else [],
                     Emitted(t', rest, u), x, p);
      } else if IsArrival(ops[0], u) && t.Due(u, ops[0].now) {
        CoveredBy(es, 0, x, p);
      } else {
        assert HasEmitted(t, u) && t'.subs[u] == t.subs[u];
      }
    }
  }

  lemma Coverage(t: Table, ops: seq<Op>, u: Int32, p: int, a: int, b: int, x: int)
    requires p > 0 && Steady(t, ops, u, p) && Clocked(ops, a, b) && !HasEmitted(t, u)
    requires x in Arrivals(ops, u)
    ensures Covered(Emitted(t, ops, u), x, p)
  {
    CoverageFrom(t, ops, u, p, a, b, x);
  }
}
