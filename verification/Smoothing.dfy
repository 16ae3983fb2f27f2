/** The simulator's first-order filter, one memory per tag, under the interleaved
    schedule. Values are reals; rounding is not modelled. */
module Smoothing {
  import opened Wire

  const ALPHA := 0.3

  /** One publication: the tag, and the raw value read for it. */
  datatype Reading = Reading(uid: int, raw: real)

  /** Tag.smoothed_value. */
  function Smoothed(raw: real, previous: Option<real>): real {
    match previous
    case None => raw
    case Some(p) => p + ALPHA * (raw - p)
  }

  /** The filter's memory after a tag's raw values, starting from `memory`. */
  function Filtered(memory: Option<real>, raws: seq<real>): Option<real>
    decreases |raws|
  {
    if raws == [] then memory else Some(Smoothed(raws[|raws| - 1], Filtered(memory, raws[..|raws| - 1])))
  }

  /** The raw values of tag `u` among the first `n` readings. */
  function RawsOf(readings: seq<Reading>, n: nat, u: int): seq<real>
    requires n <= |readings|
  {
    if n == 0 then []
    else RawsOf(readings, n - 1, u) + if readings[n - 1].uid == u then [readings[n - 1].raw] else []
  }

  /** The filter's memory for `u` after the first `n` readings of all tags. */
  function MemoryOf(readings: seq<Reading>, n: nat, u: int): Option<real>
    requires n <= |readings|
  {
    Filtered(None, RawsOf(readings, n, u))
  }

  lemma OneReading(readings: seq<Reading>, i: nat, u: int)
    requires i < |readings|
    ensures MemoryOf(readings, i + 1, u)
         == if u == readings[i].uid then Some(Smoothed(readings[i].raw, MemoryOf(readings, i, u)))
            else MemoryOf(readings, i, u)
  {
    var raws := RawsOf(readings, i, u);
    assert (raws + [readings[i].raw])[..|raws|] == raws;
    assert raws + [] == raws;
  }

  /** `memory` is smoothed_by_uid after the first `n` readings. */
  ghost predicate Remembers(memory: map<int, Option<real>>, readings: seq<Reading>, n: nat)
    requires n <= |readings|
  {
    forall u :: u in memory ==> memory[u] == MemoryOf(readings, n, u)
  }

  /** Each value published is the filter of its own tag's raw values so far, and
      of nothing else. */
  ghost predicate OwnValues(smoothed: seq<real>, readings: seq<Reading>)
    requires |smoothed| <= |readings|
  {
    forall i :: 0 <= i < |smoothed| ==> MemoryOf(readings, i + 1, readings[i].uid) == Some(smoothed[i])
  }

  lemma RemembersNext(memory: map<int, Option<real>>, readings: seq<Reading>, i: nat, next: Option<real>)
    requires i < |readings| && Remembers(memory, readings, i)
    requires next == MemoryOf(readings, i + 1, readings[i].uid)
    ensures Remembers(memory[readings[i].uid := next], readings, i + 1)
  {
    forall u | u in memory && u != readings[i].uid ensures MemoryOf(readings, i + 1, u) == memory[u] {
      OneReading(readings, i, u);
    }
  }

  lemma OwnNext(smoothed: seq<real>, readings: seq<Reading>, value: real)
    requires |smoothed| < |readings| && OwnValues(smoothed, readings)
    requires MemoryOf(readings, |smoothed| + 1, readings[|smoothed|].uid) == Some(value)
    ensures OwnValues(smoothed + [value], readings)
  {
    var all := smoothed + [value];
    forall i | 0 <= i < |all|
      ensures MemoryOf(readings, i + 1, readings[i].uid) == Some(all[i])
    {
    }
  }

  lemma PublishOne(memory: map<int, Option<real>>, smoothed: seq<real>, readings: seq<Reading>, value: real)
    requires |smoothed| < |readings| && OwnValues(smoothed, readings)
    requires Remembers(memory, readings, |smoothed|) && readings[|smoothed|].uid in memory
    requires value == Smoothed(readings[|smoothed|].raw, memory[readings[|smoothed|].uid])
    ensures Remembers(memory[readings[|smoothed|].uid := Some(value)], readings, |smoothed| + 1)
    ensures OwnValues(smoothed + [value], readings)
  {
    OneReading(readings, |smoothed|, readings[|smoothed|].uid);
    RemembersNext(memory, readings, |smoothed|, Some(value));
    OwnNext(smoothed, readings, value);
  }

  /** The scan loop's use of smoothed_by_uid. */
  method Publish(uids: set<int>, readings: seq<Reading>) returns (smoothed: seq<real>)
    requires forall i :: 0 <= i < |readings| ==> readings[i].uid in uids
    ensures |smoothed| == |readings| && OwnValues(smoothed, readings)
  {
    var smoothedByUid: map<int, Option<real>> := map u | u in uids :: None;
    smoothed := [];
    for i := 0 to |readings|
      invariant |smoothed| == i && smoothedByUid.Keys == uids
      invariant Remembers(smoothedByUid, readings, i) && OwnValues(smoothed, readings)
    {
      var r := readings[i];
      var value := Smoothed(r.raw, smoothedByUid[r.uid]);
      PublishOne(smoothedByUid, smoothed, readings, value);
      smoothedByUid := smoothedByUid[r.uid := Some(value)];
      smoothed := smoothed + [value];
    }
  }

  /** A tag's smoothed value stays within the range of its raw values so far. */
  lemma {:induction false} SmoothedWithinRange(raws: seq<real>, low: real, high: real)
    requires raws != [] && forall i :: 0 <= i < |raws| ==> low <= raws[i] <= high
    ensures Filtered(None, raws).Some? && low <= Filtered(None, raws).value <= high
  {
    var rest, last := raws[..|raws| - 1], raws[|raws| - 1];
    if rest != [] {
      SmoothedWithinRange(rest, low, high);
      var p := Filtered(None, rest).value;
      assert Smoothed(last, Some(p)) == 0.7 * p + 0.3 * last;
    }
  }

  function Decay(n: nat): real {
    if n == 0 then 1.0 else 0.7 * Decay(n - 1)
  }

  lemma {:induction false} MemoriesConverge(x: real, y: real, raws: seq<real>)
    ensures Filtered(Some(x), raws).Some? && Filtered(Some(y), raws).Some?
    ensures Filtered(Some(x), raws).value - Filtered(Some(y), raws).value == Decay(|raws|) * (x - y)
  {
    if raws != [] {
      var rest := raws[..|raws| - 1];
      MemoriesConverge(x, y, rest);
      var d, g := Decay(|rest|), x - y;
      assert 0.7 * (d * g) == (0.7 * d) * g;
    }
  }

  lemma {:induction false} FirstIsMemory(first: real, raws: seq<real>)
    ensures Filtered(None, [first] + raws) == Filtered(Some(first), raws)
  {
    if raws == [] {
      assert [first] + raws == [first] && [first][..0] == [];
    } else {
      assert ([first] + raws)[..|raws|] == [first] + raws[..|raws| - 1];
      FirstIsMemory(first, raws[..|raws| - 1]);
    }
  }

  /** Two runs that differ only in a tag's first sample differ, n samples later,
      by exactly (7/10)^n of the initial difference. */
  lemma FirstSampleFades(x: real, y: real, raws: seq<real>)
    ensures Filtered(None, [x] + raws).Some? && Filtered(None, [y] + raws).Some?
    ensures Filtered(None, [x] + raws).value - Filtered(None, [y] + raws).value == Decay(|raws|) * (x - y)
  {
    FirstIsMemory(x, raws);
    FirstIsMemory(y, raws);
    MemoriesConverge(x, y, raws);
  }
}
