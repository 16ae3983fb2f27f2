/** sim/plc_publisher.py and sim/field_simulation.py: independently rated tags
    serviced from a min-heap of due times. Times are integer milliseconds. */
module Scheduler {
  import opened Wire

  // ----- The simulated tags -----

  datatype Tag = Tag(uid: int, period: int)

  const TAG_COUNT := 500

  /** publish_period_s, in milliseconds; None where it raises ValueError. */
  function PublishPeriodMs(uid: int): Option<int> {
    if 1 <= uid <= 100 then Some(500)
    else if 101 <= uid <= 200 then Some(1_000)
    else if 201 <= uid <= 300 then Some(5_000)
    else if 301 <= uid <= 500 then Some(10_000)
    else None
  }

  /** The bands cover exactly the simulated uids, and the slower ones come later. */
  lemma BandsCover(uid: int)
    ensures PublishPeriodMs(uid).Some? <==> 1 <= uid <= TAG_COUNT
    ensures 1 < uid <= TAG_COUNT ==> PublishPeriodMs(uid - 1).value <= PublishPeriodMs(uid).value
  {
  }

  predicate WellTagged(tags: seq<Tag>) {
    && tags != []
    && (forall i :: 0 <= i < |tags| ==> tags[i].period > 0)
    && (forall i, j :: 0 <= i < j < |tags| ==> tags[i].uid != tags[j].uid)
  }

  predicate Banded(tags: seq<Tag>) {
    && |tags| == TAG_COUNT
    && forall i :: 0 <= i < TAG_COUNT ==> tags[i].uid == i + 1 && PublishPeriodMs(i + 1) == Some(tags[i].period)
  }

  method BuildTags() returns (tags: seq<Tag>)
    ensures WellTagged(tags) && Banded(tags)
  {
    tags := [];
    for i := 0 to TAG_COUNT
      invariant |tags| == i
      invariant forall j :: 0 <= j < i ==> tags[j].uid == j + 1 && PublishPeriodMs(j + 1) == Some(tags[j].period)
    {
      tags := tags + [Tag(i + 1, PublishPeriodMs(i + 1).value)];
    }
  }

  // ----- Due times -----

  datatype Due = Due(at: int, uid: int)

  /** Python's tuple order on (due_time, uid). */
  predicate Before(a: Due, b: Due) {
    a.at < b.at || (a.at == b.at && a.uid < b.uid)
  }

  predicate NotBefore(a: Due, b: Due) {
    a == b || Before(b, a)
  }

  /** The k-th publication of a tag. */
  function Slot(start: int, tag: Tag, k: int): Due {
    Due(start + k * tag.period, tag.uid)
  }

  ghost predicate IsSlot(start: int, tags: seq<Tag>, d: Due) {
    exists t, k: int :: t in tags && k >= 1 && d == Slot(start, t, k)
  }

  predicate Sorted(ds: seq<Due>) {
    forall i, j :: 0 <= i < j < |ds| ==> Before(ds[i], ds[j])
  }

  function CountOf(ds: seq<Due>, uid: int): nat {
    if ds == [] then 0 else CountOf(ds[..|ds| - 1], uid) + if ds[|ds| - 1].uid == uid then 1 else 0
  }

  /** `ds` is the beginning of the sorted merge of all the tags' publications:
      strictly increasing, and consisting of exactly those up to its last. */
  ghost predicate IsMerge(start: int, tags: seq<Tag>, ds: seq<Due>) {
    && Sorted(ds)
    && (forall d :: d in ds ==> IsSlot(start, tags, d))
    && (ds != [] ==> forall t, k: int :: t in tags && k >= 1 ==>
          (Slot(start, t, k) in ds <==> NotBefore(ds[|ds| - 1], Slot(start, t, k))))
  }

  // ----- The loop -----

  datatype Entry = Entry(due: Due, period: int)

  function NextOf(start: int, tag: Tag, ds: seq<Due>): Entry {
    Entry(Slot(start, tag, CountOf(ds, tag.uid) + 1), tag.period)
  }

  /** heapq's contract: the popped entry is the least. */
  predicate IsLeast(e: Entry, heap: set<Entry>) {
    e in heap && forall f :: f in heap ==> NotBefore(f.due, e.due)
  }

  ghost predicate IsNext(start: int, tags: seq<Tag>, ds: seq<Due>, e: Entry) {
    exists t :: t in tags && e == NextOf(start, t, ds)
  }

  /** The heap holds each tag's next publication. */
  ghost predicate HoldsNext(start: int, tags: seq<Tag>, ds: seq<Due>, heap: set<Entry>) {
    forall e :: e in heap <==> IsNext(start, tags, ds, e)
  }

  /** Everything published is a publication, and precedes every next one; and of
      each tag, every publication up to its count is there. */
  ghost predicate OnTime(start: int, tags: seq<Tag>, ds: seq<Due>) {
    && Sorted(ds)
    && (forall d :: d in ds ==> IsSlot(start, tags, d))
    && (forall d, t :: d in ds && t in tags ==> Before(d, NextOf(start, t, ds).due))
    && (forall t, k: int :: t in tags && 1 <= k <= CountOf(ds, t.uid) ==> Slot(start, t, k) in ds)
  }

  lemma SlotOrder(start: int, t: Tag, j: int, k: int)
    requires t.period > 0
    ensures Slot(start, t, j).at < Slot(start, t, k).at <==> j < k
  {
    if j < k {
      assert (k - j) * t.period > 0;
    } else {
      assert (j - k) * t.period >= 0;
    }
  }

  lemma SameTag(tags: seq<Tag>, a: Tag, b: Tag)
    requires WellTagged(tags) && a in tags && b in tags && a.uid == b.uid
    ensures a == b
  {
  }

  /** The entry pushed back, relative to the due time and not to the clock. */
  function Again(e: Entry): Entry {
    Entry(Due(e.due.at + e.period, e.due.uid), e.period)
  }

  lemma NextAfter(start: int, tags: seq<Tag>, ds: seq<Due>, t: Tag, u: Tag)
    requires WellTagged(tags) && t in tags && u in tags
    ensures var e := NextOf(start, t, ds);
            NextOf(start, u, ds + [e.due]) == if u == t then Again(e) else NextOf(start, u, ds)
  {
    var e := NextOf(start, t, ds);
    assert (ds + [e.due])[..|ds|] == ds;
    if u.uid == t.uid {
      SameTag(tags, u, t);
      var n := CountOf(ds, t.uid);
      assert (n + 2) * t.period == (n + 1) * t.period + t.period;
    }
  }

  lemma HoldsNextKept(start: int, tags: seq<Tag>, ds: seq<Due>, heap: set<Entry>, t: Tag)
    requires WellTagged(tags) && HoldsNext(start, tags, ds, heap) && t in tags
    ensures var e := NextOf(start, t, ds); HoldsNext(start, tags, ds + [e.due], heap - {e} + {Again(e)})
  {
    var e := NextOf(start, t, ds);
    var ds', heap' := ds + [e.due], heap - {e} + {Again(e)};
    forall f ensures f in heap' <==> IsNext(start, tags, ds', f) {
      if f in heap' {
        if f == Again(e) {
          NextAfter(start, tags, ds, t, t);
        } else {
          assert IsNext(start, tags, ds, f);
          var u :| u in tags && f == NextOf(start, u, ds);
          NextAfter(start, tags, ds, t, u);
        }
      }
      if IsNext(start, tags, ds', f) {
        var u :| u in tags && f == NextOf(start, u, ds');
        NextAfter(start, tags, ds, t, u);
        if u != t {
          assert IsNext(start, tags, ds, f);
          if f == e {
            SameTag(tags, u, t);
          }
        }
      }
    }
  }

  lemma OnTimeKept(start: int, tags: seq<Tag>, ds: seq<Due>, t: Tag)
    requires WellTagged(tags) && OnTime(start, tags, ds) && t in tags
    requires forall u :: u in tags ==> NotBefore(NextOf(start, u, ds).due, NextOf(start, t, ds).due)
    ensures OnTime(start, tags, ds + [NextOf(start, t, ds).due])
  {
    var due, n := NextOf(start, t, ds).due, CountOf(ds, t.uid);
    var ds' := ds + [due];
    assert ds'[..|ds|] == ds;
    forall i | 0 <= i < |ds| ensures Before(ds[i], due) {
      assert ds[i] in ds;
    }
    assert IsSlot(start, tags, due) by {
      assert due == Slot(start, t, n + 1);
    }
    forall d, u | d in ds' && u in tags ensures Before(d, NextOf(start, u, ds').due) {
      NextAfter(start, tags, ds, t, u);
      if d == due && u != t && due.uid == u.uid {
        SameTag(tags, u, t);
      }
    }
    forall u, k: int | u in tags && 1 <= k <= CountOf(ds', u.uid) ensures Slot(start, u, k) in ds' {
      if u.uid == t.uid {
        SameTag(tags, u, t);
      }
      assert due in ds';
    }
  }

  lemma OnTimeIsMerge(start: int, tags: seq<Tag>, ds: seq<Due>)
    requires WellTagged(tags) && OnTime(start, tags, ds)
    ensures IsMerge(start, tags, ds)
  {
    if ds != [] {
      var last := ds[|ds| - 1];
      forall t, k: int | t in tags && k >= 1
        ensures Slot(start, t, k) in ds <==> NotBefore(last, Slot(start, t, k))
      {
        SlotOrder(start, t, k, CountOf(ds, t.uid) + 1);
        assert last in ds && Before(last, NextOf(start, t, ds).due);
        if Slot(start, t, k) in ds {
          var i :| 0 <= i < |ds| && ds[i] == Slot(start, t, k);
        }
      }
    }
  }

  lemma {:induction false} LeastExists(heap: set<Entry>)
    requires heap != {}
    ensures exists e :: IsLeast(e, heap)
    decreases |heap|
  {
    var e :| e in heap;
    var rest := heap - {e};
    if rest == {} {
      assert heap == {e};
      assert IsLeast(e, heap);
    } else {
      LeastExists(rest);
      var f :| IsLeast(f, rest);
      assert IsLeast(f, heap) || IsLeast(e, heap);
    }
  }

  /** By the last due time D, each tag has been published as often as its period
      fits into the time since the start: no drift, and no starvation. */
  ghost predicate EvenlyServed(start: int, tags: seq<Tag>, ds: seq<Due>) {
    ds != [] ==>
      forall t :: t in tags ==>
        var n := CountOf(ds, t.uid);
        n * t.period <= ds[|ds| - 1].at - start <= (n + 1) * t.period
  }

  lemma OnTimeServesEvenly(start: int, tags: seq<Tag>, ds: seq<Due>)
    requires WellTagged(tags) && OnTime(start, tags, ds)
    ensures EvenlyServed(start, tags, ds)
  {
    if ds != [] {
      var last := ds[|ds| - 1];
      assert last in ds;
      forall t | t in tags
        ensures CountOf(ds, t.uid) * t.period <= last.at - start <= (CountOf(ds, t.uid) + 1) * t.period
      {
        var n := CountOf(ds, t.uid);
        if n > 0 {
          assert Slot(start, t, n) in ds;
          var i :| 0 <= i < |ds| && ds[i] == Slot(start, t, n);
        } else {
          var u, k: int :| u in tags && k >= 1 && last == Slot(start, u, k);
          assert k * u.period >= 0;
        }
      }
    }
  }

  /** Every ten seconds, tags 1 to 100 are published 20 times (2 Hz), tags 101 to
      200 ten times (1 Hz), tags 201 to 300 twice and tags 301 to 500 once. */
  lemma {:induction false} BandRates(start: int, tags: seq<Tag>, ds: seq<Due>, n: nat, t: Tag)
    requires WellTagged(tags) && Banded(tags) && t in tags
    requires OnTime(start, tags, ds) && ds != [] && ds[|ds| - 1] == Due(start + 10_000 * n, TAG_COUNT)
    ensures 1 <= t.uid <= TAG_COUNT
    ensures CountOf(ds, t.uid)
         == n * (if t.uid <= 100 then 20 else if t.uid <= 200 then 10 else if t.uid <= 300 then 2 else 1)
  {
    OnTimeServesEvenly(start, tags, ds);
    var i :| 0 <= i < |tags| && tags[i] == t;
    var last, c := ds[|ds| - 1], CountOf(ds, t.uid);
    assert last in ds && Before(last, NextOf(start, t, ds).due);
    assert c * t.period <= 10_000 * n < (c + 1) * t.period;
  }

  lemma PublishKeeps(start: int, tags: seq<Tag>, ds: seq<Due>, heap: set<Entry>, e: Entry)
    requires WellTagged(tags) && IsLeast(e, heap)
    requires HoldsNext(start, tags, ds, heap) && OnTime(start, tags, ds)
    ensures HoldsNext(start, tags, ds + [e.due], heap - {e} + {Again(e)}) && OnTime(start, tags, ds + [e.due])
  {
    assert IsNext(start, tags, ds, e);
    var t :| t in tags && e == NextOf(start, t, ds);
    forall u | u in tags ensures NotBefore(NextOf(start, u, ds).due, e.due) {
      assert IsNext(start, tags, ds, NextOf(start, u, ds));
    }
    HoldsNextKept(start, tags, ds, heap, t);
    OnTimeKept(start, tags, ds, t);
  }

  lemma FirstIsLater(start: int, tags: seq<Tag>, ds: seq<Due>)
    requires WellTagged(tags) && OnTime(start, tags, ds) && ds != []
    ensures ds[0].at >= start
  {
    assert ds[0] in ds;
    var t, k: int :| t in tags && k >= 1 && ds[0] == Slot(start, t, k);
    assert k * t.period >= 0;
  }

  lemma PushFirst(start: int, tags: seq<Tag>, heap: set<Entry>, t: Tag)
    requires HoldsNext(start, tags, [], heap)
    ensures HoldsNext(start, tags + [t], [], heap + {Entry(Due(start + t.period, t.uid), t.period)})
  {
    var first, more := Entry(Due(start + t.period, t.uid), t.period), tags + [t];
    assert first == NextOf(start, t, []) && t in more;
    forall e ensures IsNext(start, more, [], e) <==> IsNext(start, tags, [], e) || e == first {
      if IsNext(start, tags, [], e) {
        var u :| u in tags && e == NextOf(start, u, []);
        assert u in more;
      }
    }
  }

  method InitialHeap(start: int, tags: seq<Tag>) returns (heap: set<Entry>)
    ensures HoldsNext(start, tags, [], heap)
  {
    heap := {};
    for i := 0 to |tags|
      invariant HoldsNext(start, tags[..i], [], heap)
    {
      PushFirst(start, tags[..i], heap, tags[i]);
      assert tags[..i + 1] == tags[..i] + [tags[i]];
      heap := heap + {Entry(Due(start + tags[i].period, tags[i].uid), tags[i].period)};
    }
    assert tags[..|tags|] == tags;
  }

  method PopLeast(heap: set<Entry>) returns (e: Entry, rest: set<Entry>)
    requires heap != {}
    ensures IsLeast(e, heap) && rest == heap - {e}
  {
    LeastExists(heap);
    e :| e in heap && IsLeast(e, heap);
    rest := heap - {e};
  }

  function Later(x: int, y: int): int {
    if x < y then y else x
  }

  /** When the loop is free for the i-th publication. */
  function Free(start: int, at: seq<int>, i: nat): int
    requires i <= |at|
  {
    if i == 0 then start else at[i - 1]
  }

  /** The i-th leaves when it is due or when the loop is free, whichever is later,
      and `delays[i]` after that. */
  predicate LeavesAt(start: int, published: seq<Due>, at: seq<int>, delays: seq<nat>, i: nat)
    requires i < |published| == |at| <= |delays|
  {
    at[i] == delays[i] + Later(published[i].at, Free(start, at, i))
  }

  predicate Leaves(start: int, published: seq<Due>, at: seq<int>, delays: seq<nat>) {
    && |published| == |at| <= |delays|
    && forall i :: 0 <= i < |at| ==> LeavesAt(start, published, at, delays, i)
  }

  lemma LeavesExtend(start: int, published: seq<Due>, at: seq<int>, delays: seq<nat>, due: Due, x: int)
    requires Leaves(start, published, at, delays) && |at| < |delays|
    requires x == delays[|at|] + Later(due.at, Free(start, at, |at|))
    ensures Leaves(start, published + [due], at + [x], delays)
  {
    forall i | 0 <= i < |at + [x]| ensures LeavesAt(start, published + [due], at + [x], delays, i) {
      assert i < |at| ==> LeavesAt(start, published, at, delays, i);
    }
  }

  function Sum(delays: seq<nat>): nat {
    if delays == [] then 0 else Sum(delays[..|delays| - 1]) + delays[|delays| - 1]
  }

  /** Then it is never early, and late by no more than the delays so far: lateness
      is made up for, and none is added by the schedule. */
  lemma {:induction false} LatenessIsDelay(start: int, published: seq<Due>, at: seq<int>, delays: seq<nat>, i: nat)
    requires Leaves(start, published, at, delays) && Sorted(published)
    requires i < |at| && published[0].at >= start
    ensures published[i].at <= at[i] <= published[i].at + Sum(delays[..i + 1])
  {
    assert delays[..i + 1][..i] == delays[..i];
    assert LeavesAt(start, published, at, delays, i);
    if i > 0 {
      LatenessIsDelay(start, published, at, delays, i - 1);
      assert Before(published[i - 1], published[i]);
    }
  }

  /** The loop, stopped after |delays| publications; `delays[i]` is how much later
      than it might have been the i-th one leaves. `at` are the actual times. */
  method Run(start: int, tags: seq<Tag>, delays: seq<nat>) returns (published: seq<Due>, at: seq<int>)
    requires WellTagged(tags)
    ensures |published| == |delays| == |at|
    ensures IsMerge(start, tags, published) && OnTime(start, tags, published)
    ensures EvenlyServed(start, tags, published)
    ensures Leaves(start, published, at, delays)
    ensures forall i :: 0 <= i < |at| ==> published[i].at <= at[i] <= published[i].at + Sum(delays[..i + 1])
  {
    var heap := InitialHeap(start, tags);
    published, at := [], [];
    var clock := start;
    for i := 0 to |delays|
      invariant |published| == |at| == i
      invariant HoldsNext(start, tags, published, heap) && OnTime(start, tags, published)
      invariant Leaves(start, published, at, delays)
      invariant clock == Free(start, at, i)
    {
      assert IsNext(start, tags, published, NextOf(start, tags[0], published));
      ghost var before := heap;
      var e;
      e, heap := PopLeast(heap);
      PublishKeeps(start, tags, published, before, e);
      LeavesExtend(start, published, at, delays, e.due, delays[i] + Later(e.due.at, clock));
      if clock < e.due.at {
        clock := e.due.at;
      }
      clock := clock + delays[i];
      published, at := published + [e.due], at + [clock];
      heap := heap + {Again(e)};
    }
    OnTimeIsMerge(start, tags, published);
    OnTimeServesEvenly(start, tags, published);
    forall i | 0 <= i < |at| ensures published[i].at <= at[i] <= published[i].at + Sum(delays[..i + 1]) {
      FirstIsLater(start, tags, published);
      LatenessIsDelay(start, published, at, delays, i);
    }
  }

  /** The schedule does not depend on how late the loop runs: there is only one
      sorted merge of a given length. */
  lemma {:induction false} OneSchedule(start: int, tags: seq<Tag>, a: seq<Due>, b: seq<Due>, n: nat)
    requires WellTagged(tags) && IsMerge(start, tags, a) && IsMerge(start, tags, b)
    requires n <= |a| == |b|
    ensures a[..n] == b[..n]
  {
    if n > 0 {
      OneSchedule(start, tags, a, b, n - 1);
      NoneSkipped(start, tags, a, b, n - 1);
      NoneSkipped(start, tags, b, a, n - 1);
      assert forall x: Due, y: Due :: !Before(x, y) && !Before(y, x) ==> x == y;
    }
  }

  lemma NoneSkipped(start: int, tags: seq<Tag>, a: seq<Due>, b: seq<Due>, i: nat)
    requires IsMerge(start, tags, a) && IsMerge(start, tags, b)
    requires i < |a| == |b| && a[..i] == b[..i]
    ensures !Before(a[i], b[i])
  {
    assert forall j | 0 <= j < i :: a[j] == a[..i][j] == b[..i][j] == b[j];
    if Before(a[i], b[i]) {
      assert a[i] in a;
      var t, k: int :| t in tags && k >= 1 && a[i] == Slot(start, t, k);
      assert b[i] == b[|b| - 1] || Before(b[i], b[|b| - 1]);
      assert Slot(start, t, k) in b;
      var j :| 0 <= j < |b| && b[j] == a[i];
    }
  }
}
