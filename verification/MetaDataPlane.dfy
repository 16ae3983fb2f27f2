/** scada_select/src/MetaDataPlane: the tag catalogue, forwarded unfiltered by
    reading, never taking, from a KEEP_LAST(1) reader cache. */
module MetaDataPlane {
  import opened Wire

  datatype Description = Description(hostname: string, longName: string, valueTime: int)

  /** A sample in the reader cache. `serial` tells arrivals apart. */
  datatype Entry = Entry(uid: Int32, kind: Kind<Description>, outcome: Outcome, serial: nat, read: bool)

  function MarkRead(e: Entry): Entry {
    e.(read := true)
  }

  function Unread(cache: seq<Entry>): seq<Entry> {
    if cache == [] then [] else (if cache[0].read then [] else [cache[0]]) + Unread(cache[1..])
  }

  function AllRead(cache: seq<Entry>): seq<Entry> {
    seq(|cache|, i requires 0 <= i < |cache| => MarkRead(cache[i]))
  }

  function Without(cache: seq<Entry>, uid: Int32): seq<Entry> {
    if cache == [] then []
    else (if cache[0].uid == uid then [] else [cache[0]]) + Without(cache[1..], uid)
  }

  /** The plane as a value: the reader cache, the instances the writer holds a
      handle for, every call made on the writer, oldest first, and how many
      samples have arrived. */
  datatype Plane = Plane(cache: seq<Entry>, instances: set<Int32>, calls: seq<Entry>, arrivals: nat) {

    function Call(e: Entry): Plane {
      this.(instances :=
              (match e.kind
               case Valid(_) => if !e.outcome.timedOut || e.outcome.known then instances + {e.uid} else instances
               case Disposed => instances
               case Unregistered => if e.outcome.known then instances else instances - {e.uid}),
            calls := calls + [e])
    }

    /** What process() does with one sample it read. */
    function Forward(e: Entry): Plane {
      if e.kind.Valid? || e.uid in instances then Call(e) else this
    }

    function ForwardAll(es: seq<Entry>): Plane
      decreases |es|
    {
      if es == [] then this else ForwardAll(es[..|es| - 1]).Forward(es[|es| - 1])
    }

    function Process(): Plane {
      this.(cache := AllRead(cache)).ForwardAll(Unread(cache))
    }

    /** The middleware delivers a sample; KEEP_LAST(1) drops its predecessor. */
    function Arrive(uid: Int32, kind: Kind<Description>, outcome: Outcome): Plane {
      this.(cache := Without(cache, uid) + [Entry(uid, kind, outcome, arrivals, false)], arrivals := arrivals + 1)
    }

    /** Reading an instance marks what it returns as read. */
    function Request(uid: Int32, outcome: Outcome): Plane {
      var found := Of(cache, uid);
      if found.None? then this
      else
        var p := this.(cache := ReadOf(cache, uid));
        if found.value.kind.Valid? then p.Call(found.value.(outcome := outcome)) else p
    }
  }

  const NOTHING_YET := Plane([], {}, [], 0)

  /** The cached sample of an instance. */
  function Of(cache: seq<Entry>, uid: Int32): Option<Entry> {
    if cache == [] then None
    else if cache[0].uid == uid then Some(cache[0])
    else Of(cache[1..], uid)
  }

  function ReadOf(cache: seq<Entry>, uid: Int32): seq<Entry> {
    seq(|cache|, i requires 0 <= i < |cache| => if cache[i].uid == uid then MarkRead(cache[i]) else cache[i])
  }

  function Timeouts(calls: seq<Entry>): nat {
    if calls == [] then 0
    else Timeouts(calls[..|calls| - 1]) + if calls[|calls| - 1].outcome.timedOut then 1 else 0
  }

  class MetaDataPlane {
    var cache: seq<Entry>
    var instances: set<Int32>
    var calls: seq<Entry>
    var writeTimeouts: nat
    /** How many samples have arrived: the next one's serial number. */
    var arrivals: nat

    ghost function View(): Plane
      reads this
    {
      Plane(cache, instances, calls, arrivals)
    }

    ghost predicate Counted()
      reads this
    {
      writeTimeouts == Timeouts(calls)
    }

    constructor ()
      ensures View() == NOTHING_YET && Counted()
    {
      cache, instances, calls, writeTimeouts, arrivals := [], {}, [], 0, 0;
    }

    /** What the middleware does to the reader's cache. */
    method Arrive(uid: Int32, kind: Kind<Description>, outcome: Outcome)
      requires Counted()
      modifies this
      ensures View() == old(View()).Arrive(uid, kind, outcome) && Counted()
    {
      cache := Without(cache, uid) + [Entry(uid, kind, outcome, arrivals, false)];
      arrivals := arrivals + 1;
    }

    method Process()
      requires Counted()
      modifies this
      ensures View() == old(View()).Process() && Counted()
    {
      var samples := Unread(cache);
      cache := AllRead(cache);
      ghost var start := View();
      for i := 0 to |samples|
        invariant View() == start.ForwardAll(samples[..i]) && Counted()
      {
        var s := samples[i];
        assert samples[..i + 1][..i] == samples[..i];
        if s.kind.Valid? {
          TryWrite(s);
          continue;
        }
        if s.uid !in instances {
          continue;
        }
        if s.kind.Unregistered? && !s.outcome.known {
          instances := instances - {s.uid};
        }
        LogCall(s);
      }
      assert samples[..|samples|] == samples;
    }

    method HandleMetadataRequest(uid: Int32, outcome: Outcome)
      requires Counted()
      modifies this
      ensures View() == old(View()).Request(uid, outcome) && Counted()
    {
      var found := Of(cache, uid);
      if found == None {
        return;
      }
      cache := ReadOf(cache, uid);
      if found.value.kind.Valid? {
        TryWrite(found.value.(outcome := outcome));
      }
    }

    method TryWrite(s: Entry)
      requires s.kind.Valid? && Counted()
      modifies this
      ensures View() == old(View()).Call(s) && Counted()
    {
      if !s.outcome.timedOut || s.outcome.known {
        instances := instances + {s.uid};
      }
      LogCall(s);
    }

    method LogCall(s: Entry)
      requires Counted()
      modifies this
      ensures View() == old(View()).(calls := old(calls) + [s]) && Counted()
    {
      calls := calls + [s];
      if s.outcome.timedOut {
        writeTimeouts := writeTimeouts + 1;
      }
      assert calls[..|calls| - 1] == old(calls);
    }
  }

  // ----- Histories -----

  datatype Event =
    | Arrival(uid: Int32, kind: Kind<Description>, outcome: Outcome)
    | Dispatch
    | Requested(uid: Int32, outcome: Outcome)

  /** The plane after a history of arrivals, process() calls and METADATA
      requests. */
  function Run(h: seq<Event>): Plane {
    if h == [] then NOTHING_YET
    else
      var p, e := Run(h[..|h| - 1]), h[|h| - 1];
      match e
      case Arrival(uid, kind, outcome) => p.Arrive(uid, kind, outcome)
      case Dispatch => p.Process()
      case Requested(uid, outcome) => p.Request(uid, outcome)
  }

  /** The cached sample that a request for `uid` is the first to read, if any. */
  function FirstRead(cache: seq<Entry>, uid: Int32): seq<Entry> {
    var found := Of(cache, uid);
    if found.Some? && !found.value.read then [found.value] else []
  }

  /** Every sample that process() or a request has been the first to read, in
      order. */
  function Considered(h: seq<Event>): seq<Entry> {
    if h == [] then []
    else
      var cache, e := Run(h[..|h| - 1]).cache, h[|h| - 1];
      Considered(h[..|h| - 1])
      + match e
        case Arrival(_, _, _) => []
        case Dispatch => Unread(cache)
        case Requested(uid, _) => FirstRead(cache, uid)
  }

  predicate NoRequests(h: seq<Event>) {
    forall i :: 0 <= i < |h| ==> !h[i].Requested?
  }

  predicate Serial(es: seq<Entry>, n: nat) {
    exists i :: 0 <= i < |es| && es[i].serial == n
  }

  predicate DistinctSerials(es: seq<Entry>) {
    forall i, j :: 0 <= i < j < |es| ==> es[i].serial != es[j].serial
  }

  predicate DistinctUids(es: seq<Entry>) {
    forall i, j :: 0 <= i < j < |es| ==> es[i].uid != es[j].uid
  }

  lemma {:induction false} UnreadOf(cache: seq<Entry>)
    ensures forall e :: e in Unread(cache) <==> e in cache && !e.read
  {
    if cache != [] {
      UnreadOf(cache[1..]);
      assert cache == [cache[0]] + cache[1..];
    }
  }

  lemma {:induction false} UnreadDistinct(cache: seq<Entry>)
    ensures DistinctSerials(cache) ==> DistinctSerials(Unread(cache))
    ensures DistinctUids(cache) ==> DistinctUids(Unread(cache))
  {
    if cache != [] {
      var rest := Unread(cache[1..]);
      UnreadDistinct(cache[1..]);
      UnreadOf(cache[1..]);
      forall i | 0 <= i < |rest| ensures exists k :: 0 < k < |cache| && cache[k] == rest[i] {
        assert rest[i] in cache[1..];
      }
    }
  }

  lemma {:induction false} WithoutOf(cache: seq<Entry>, uid: Int32)
    ensures forall e :: e in Without(cache, uid) <==> e in cache && e.uid != uid
  {
    if cache != [] {
      WithoutOf(cache[1..], uid);
      assert cache == [cache[0]] + cache[1..];
    }
  }

  lemma {:induction false} WithoutDistinct(cache: seq<Entry>, uid: Int32)
    ensures DistinctSerials(cache) ==> DistinctSerials(Without(cache, uid))
    ensures DistinctUids(cache) ==> DistinctUids(Without(cache, uid))
  {
    if cache != [] {
      var rest := Without(cache[1..], uid);
      WithoutDistinct(cache[1..], uid);
      WithoutOf(cache[1..], uid);
      forall i | 0 <= i < |rest| ensures exists k :: 0 < k < |cache| && cache[k] == rest[i] {
        assert rest[i] in cache[1..];
      }
    }
  }

  lemma {:induction false} ForwardAllKeepsCache(p: Plane, es: seq<Entry>)
    ensures p.ForwardAll(es).cache == p.cache && p.ForwardAll(es).arrivals == p.arrivals
  {
    if es != [] {
      ForwardAllKeepsCache(p, es[..|es| - 1]);
    }
  }

  /** Unread samples are exactly those not taken up before. */
  ghost predicate Consistent(cache: seq<Entry>, done: seq<Entry>) {
    && DistinctUids(cache) && DistinctSerials(cache) && DistinctSerials(done)
    && forall i | 0 <= i < |cache| :: cache[i].read <==> Serial(done, cache[i].serial)
  }

  lemma SerialAppend(a: seq<Entry>, b: seq<Entry>, n: nat)
    ensures Serial(a + b, n) <==> Serial(a, n) || Serial(b, n)
  {
    if i :| 0 <= i < |a| && a[i].serial == n {
      assert (a + b)[i] == a[i];
    }
    if i :| 0 <= i < |b| && b[i].serial == n {
      assert (a + b)[|a| + i] == b[i];
    }
  }

  lemma ConsistentDispatch(cache: seq<Entry>, done: seq<Entry>)
    requires Consistent(cache, done)
    ensures Consistent(AllRead(cache), done + Unread(cache))
  {
    var news := Unread(cache);
    UnreadOf(cache);
    UnreadDistinct(cache);
    forall a, b | 0 <= a < |done| && 0 <= b < |news| ensures done[a].serial != news[b].serial {
      assert news[b] in cache;
    }
    forall i | 0 <= i < |cache| ensures Serial(done + news, cache[i].serial) {
      SerialAppend(done, news, cache[i].serial);
      if !cache[i].read {
        assert cache[i] in news;
      }
    }
  }

  lemma ConsistentArrival(cache: seq<Entry>, done: seq<Entry>, e: Entry)
    requires Consistent(cache, done) && !e.read && !Serial(done, e.serial) && !Serial(cache, e.serial)
    ensures Consistent(Without(cache, e.uid) + [e], done)
  {
    WithoutOf(cache, e.uid);
    WithoutDistinct(cache, e.uid);
    var rest := Without(cache, e.uid);
    forall i | 0 <= i < |rest|
      ensures rest[i].uid != e.uid && rest[i].serial != e.serial
      ensures rest[i].read <==> Serial(done, rest[i].serial)
    {
      assert rest[i] in cache;
    }
  }

  lemma {:induction false} SerialsBelow(h: seq<Event>)
    ensures forall n: nat :: Serial(Run(h).cache, n) || Serial(Considered(h), n) ==> n < Run(h).arrivals
  {
    if h != [] {
      var g, e := h[..|h| - 1], h[|h| - 1];
      SerialsBelow(g);
      var cache, done := Run(g).cache, Considered(g);
      match e {
        case Arrival(uid, kind, outcome) =>
          WithoutSerials(cache, uid);
          SerialsAppend(Without(cache, uid), [Entry(uid, kind, outcome, Run(g).arrivals, false)]);
          assert Considered(h) == done;
        case Dispatch =>
          ForwardAllKeepsCache(Run(g).(cache := AllRead(cache)), Unread(cache));
          UnreadSerials(cache);
          SerialsAppend(done, Unread(cache));
        case Requested(uid, outcome) =>
          ReadOfSerials(cache, uid);
          SerialsAppend(done, FirstRead(cache, uid));
      }
    }
  }

  lemma SerialsAppend(a: seq<Entry>, b: seq<Entry>)
    ensures forall n: nat :: Serial(a + b, n) <==> Serial(a, n) || Serial(b, n)
  {
    forall n: nat ensures Serial(a + b, n) <==> Serial(a, n) || Serial(b, n) {
      SerialAppend(a, b, n);
    }
  }

  lemma WithoutSerials(cache: seq<Entry>, uid: Int32)
    ensures forall n: nat :: Serial(Without(cache, uid), n) ==> Serial(cache, n)
  {
    WithoutOf(cache, uid);
    forall n: nat | Serial(Without(cache, uid), n) ensures Serial(cache, n) {
      var i :| 0 <= i < |Without(cache, uid)| && Without(cache, uid)[i].serial == n;
      assert Without(cache, uid)[i] in cache;
    }
  }

  lemma UnreadSerials(cache: seq<Entry>)
    ensures forall n: nat :: Serial(Unread(cache), n) ==> Serial(cache, n)
    ensures forall n: nat :: Serial(AllRead(cache), n) ==> Serial(cache, n)
  {
    UnreadOf(cache);
    forall n: nat | Serial(Unread(cache), n) ensures Serial(cache, n) {
      var i :| 0 <= i < |Unread(cache)| && Unread(cache)[i].serial == n;
      assert Unread(cache)[i] in cache;
    }
    forall n: nat | Serial(AllRead(cache), n) ensures Serial(cache, n) {
      var i :| 0 <= i < |AllRead(cache)| && AllRead(cache)[i].serial == n;
      assert cache[i].serial == n;
    }
  }

  lemma {:induction false} OfCache(cache: seq<Entry>, uid: Int32)
    ensures match Of(cache, uid)
            case None => forall e :: e in cache ==> e.uid != uid
            case Some(e) => e in cache && e.uid == uid
  {
    if cache != [] {
      OfCache(cache[1..], uid);
      assert cache == [cache[0]] + cache[1..];
    }
  }

  lemma ReadOfSerials(cache: seq<Entry>, uid: Int32)
    ensures forall n: nat :: Serial(FirstRead(cache, uid), n) ==> Serial(cache, n)
    ensures forall n: nat :: Serial(ReadOf(cache, uid), n) ==> Serial(cache, n)
  {
    OfCache(cache, uid);
    forall n: nat | Serial(ReadOf(cache, uid), n) ensures Serial(cache, n) {
      var i :| 0 <= i < |cache| && ReadOf(cache, uid)[i].serial == n;
      assert cache[i].serial == n;
    }
  }

  lemma ConsistentRequest(cache: seq<Entry>, done: seq<Entry>, uid: Int32)
    requires Consistent(cache, done)
    ensures Consistent(ReadOf(cache, uid), done + FirstRead(cache, uid))
  {
    OfCache(cache, uid);
    var news := FirstRead(cache, uid);
    forall i | 0 <= i < |cache|
      ensures ReadOf(cache, uid)[i].read <==> Serial(done + news, cache[i].serial)
    {
      SerialAppend(done, news, cache[i].serial);
      assert cache[i] in cache;
      if news != [] {
        var k :| 0 <= k < |cache| && cache[k] == news[0];
        assert cache[i].serial == news[0].serial ==> i == k;
      }
    }
  }

  /** Arrivals carry distinct serial numbers, and a cached sample is marked read
      exactly when it has been taken up; none is ever taken up twice. */
  lemma {:induction false} ReadIffConsidered(h: seq<Event>)
    ensures Consistent(Run(h).cache, Considered(h))
  {
    if h != [] {
      var g, e := h[..|h| - 1], h[|h| - 1];
      ReadIffConsidered(g);
      var p, done := Run(g), Considered(g);
      match e {
        case Arrival(uid, kind, outcome) =>
          SerialsBelow(g);
          assert !Serial(done, p.arrivals) && !Serial(p.cache, p.arrivals);
          assert done + [] == done;
          ConsistentArrival(p.cache, done, Entry(uid, kind, outcome, p.arrivals, false));
        case Dispatch =>
          ForwardAllKeepsCache(p.(cache := AllRead(p.cache)), Unread(p.cache));
          ConsistentDispatch(p.cache, done);
        case Requested(uid, outcome) =>
          ConsistentRequest(p.cache, done, uid);
          if Of(p.cache, uid).None? {
            NothingToRead(p.cache, uid);
            assert done + [] == done;
          }
      }
    }
  }

  lemma NothingToRead(cache: seq<Entry>, uid: Int32)
    requires Of(cache, uid).None?
    ensures ReadOf(cache, uid) == cache
  {
    OfCache(cache, uid);
    forall i | 0 <= i < |cache| ensures ReadOf(cache, uid)[i] == cache[i] {
      assert cache[i] in cache;
    }
  }

  /** Exactly one of `es` carries serial number `n`. */
  ghost predicate Once(es: seq<Entry>, n: nat) {
    exists k :: && 0 <= k < |es| && es[k].serial == n
                && forall j | 0 <= j < |es| && j != k :: es[j].serial != n
  }

  lemma OnceIfDistinct(es: seq<Entry>, n: nat)
    requires DistinctSerials(es) && Serial(es, n)
    ensures Once(es, n)
  {
    var k :| 0 <= k < |es| && es[k].serial == n;
  }

  lemma AfterDispatch(h: seq<Event>)
    ensures Run(h + [Dispatch]) == Run(h).Process()
    ensures Run(h).Process().cache == AllRead(Run(h).cache)
    ensures Considered(h + [Dispatch]) == Considered(h) + Unread(Run(h).cache)
  {
    assert (h + [Dispatch])[..|h|] == h;
    ForwardAllKeepsCache(Run(h).(cache := AllRead(Run(h).cache)), Unread(Run(h).cache));
  }

  lemma ProcessAgain(p: Plane)
    requires forall i :: 0 <= i < |p.cache| ==> p.cache[i].read
    ensures p.Process() == p
  {
    NothingUnread(p.cache);
    assert AllRead(p.cache) == p.cache;
  }

  lemma {:induction false} NothingUnread(cache: seq<Entry>)
    requires forall i :: 0 <= i < |cache| ==> cache[i].read
    ensures Unread(cache) == []
  {
    if cache != [] {
      NothingUnread(cache[1..]);
    }
  }

  /** After any process(), each arrival still in the cache has been taken up
      exactly once, the latest in cache order; the cache still holds what it
      held; and a second process() would change nothing. */
  lemma ExactlyOnce(h: seq<Event>)
    ensures var p, q, done := Run(h), Run(h + [Dispatch]), Considered(h + [Dispatch]);
            && q.cache == AllRead(p.cache)
            && q.Process() == q
            && done == Considered(h) + Unread(p.cache)
            && forall i | 0 <= i < |q.cache| :: Once(done, q.cache[i].serial)
  {
    AfterDispatch(h);
    ProcessAgain(Run(h + [Dispatch]));
    ReadIffConsidered(h + [Dispatch]);
    var q, done := Run(h + [Dispatch]), Considered(h + [Dispatch]);
    forall i | 0 <= i < |q.cache| ensures Once(done, q.cache[i].serial) {
      assert q.cache[i].read;
      OnceIfDistinct(done, q.cache[i].serial);
    }
  }

  function Values(es: seq<Entry>): seq<Entry> {
    if es == [] then []
    else Values(es[..|es| - 1]) + if es[|es| - 1].kind.Valid? then [es[|es| - 1]] else []
  }

  lemma {:induction false} ValuesAppend(a: seq<Entry>, b: seq<Entry>)
    ensures Values(a + b) == Values(a) + Values(b)
  {
    if b == [] {
      assert a + b == a;
    } else {
      assert (a + b)[..|a + b| - 1] == a + b[..|b| - 1];
      ValuesAppend(a, b[..|b| - 1]);
      Associate(Values(a), Values(b[..|b| - 1]), if b[|b| - 1].kind.Valid? then [b[|b| - 1]] else []);
    }
  }

  lemma {:induction false} ForwardAllCalls(p: Plane, es: seq<Entry>)
    ensures Values(p.ForwardAll(es).calls) == Values(p.calls) + Values(es)
  {
    if es != [] {
      ForwardAllCalls(p, es[..|es| - 1]);
      ValuesAppend(p.ForwardAll(es[..|es| - 1]).calls, [es[|es| - 1]]);
    }
  }

  /** The description, if any, that a request for `uid` has sent again. */
  function Answer(cache: seq<Entry>, uid: Int32, outcome: Outcome): seq<Entry> {
    var found := Of(cache, uid);
    if found.Some? && found.value.kind.Valid? then [found.value.(outcome := outcome)] else []
  }

  /** What process() took up and what requests asked for again, in order. */
  function Offered(h: seq<Event>): seq<Entry> {
    if h == [] then []
    else
      var cache, e := Run(h[..|h| - 1]).cache, h[|h| - 1];
      Offered(h[..|h| - 1])
      + match e
        case Arrival(_, _, _) => []
        case Dispatch => Unread(cache)
        case Requested(uid, outcome) => Answer(cache, uid, outcome)
  }

  /** The catalogue writes made are exactly the descriptions taken up or asked
      for again: none skipped, none repeated, none reordered or altered. */
  lemma {:induction false} EachDescriptionWritten(h: seq<Event>)
    ensures Values(Run(h).calls) == Values(Offered(h))
    ensures NoRequests(h) ==> Offered(h) == Considered(h)
  {
    if h != [] {
      var g, p := h[..|h| - 1], Run(h[..|h| - 1]);
      EachDescriptionWritten(g);
      match h[|h| - 1] {
        case Arrival(_, _, _) =>
          assert Offered(h) == Offered(g);
        case Dispatch =>
          ForwardAllCalls(p.(cache := AllRead(p.cache)), Unread(p.cache));
          ValuesAppend(Offered(g), Unread(p.cache));
        case Requested(uid, outcome) =>
          ValuesAppend(Offered(g), Answer(p.cache, uid, outcome));
          ValuesAppend(p.calls, Answer(p.cache, uid, outcome));
      }
    }
  }

  // ----- Which calls are made -----

  /** An offer that, when made, leaves the writer holding the instance of `u`. */
  predicate Registers(e: Entry, u: Int32) {
    e.uid == u && e.kind.Valid? && (!e.outcome.timedOut || e.outcome.known)
  }

  /** One that leaves it without. */
  predicate Forgets(e: Entry, u: Int32) {
    e.uid == u && e.kind.Unregistered? && !e.outcome.known
  }

  ghost predicate Registered(es: seq<Entry>, u: Int32) {
    exists k :: 0 <= k < |es| && Registers(es[k], u) && forall j :: k < j < |es| ==> !Forgets(es[j], u)
  }

  /** Of what is offered every description goes out, and every retraction of a
      tag whose instance the writer holds. */
  ghost function Passed(offered: seq<Entry>): seq<Entry> {
    if offered == [] then []
    else
      var rest, last := offered[..|offered| - 1], offered[|offered| - 1];
      Passed(rest) + if last.kind.Valid? || Registered(rest, last.uid) then [last] else []
  }

  lemma RegisteredExtend(es: seq<Entry>, e: Entry, u: Int32)
    ensures Registered(es + [e], u) <==> Registers(e, u) || (Registered(es, u) && !Forgets(e, u))
  {
    var all := es + [e];
    assert all[|es|] == e && forall j :: 0 <= j < |es| ==> all[j] == es[j];
    if Registered(es, u) && !Forgets(e, u) {
      var k :| 0 <= k < |es| && Registers(es[k], u) && forall j :: k < j < |es| ==> !Forgets(es[j], u);
      assert Registers(all[k], u);
    }
  }

  /** The plane has made the calls, and holds the instances, that follow from
      what has been offered. */
  ghost predicate Follows(p: Plane, offered: seq<Entry>) {
    p.calls == Passed(offered) && forall u: Int32 :: u in p.instances <==> Registered(offered, u)
  }

  lemma ForwardFollows(p: Plane, offered: seq<Entry>, e: Entry)
    requires Follows(p, offered)
    ensures Follows(p.Forward(e), offered + [e])
  {
    assert (offered + [e])[..|offered|] == offered;
    forall u: Int32 ensures u in p.Forward(e).instances <==> Registered(offered + [e], u) {
      RegisteredExtend(offered, e, u);
    }
  }

  lemma {:induction false} ForwardAllFollows(p: Plane, offered: seq<Entry>, es: seq<Entry>)
    requires Follows(p, offered)
    ensures Follows(p.ForwardAll(es), offered + es)
  {
    if es == [] {
      assert offered + es == offered;
    } else {
      var rest, last := es[..|es| - 1], es[|es| - 1];
      ForwardAllFollows(p, offered, rest);
      ForwardFollows(p.ForwardAll(rest), offered + rest, last);
      assert offered + es == offered + rest + [last];
    }
  }

  /** The calls made are what has been taken up or asked for again, in that order
      and unaltered, less the retractions of tags the writer holds no instance
      of, as the calls before them tell. */
  lemma {:induction false} CallsArePassed(h: seq<Event>)
    ensures Follows(Run(h), Offered(h))
  {
    if h != [] {
      var g, p := h[..|h| - 1], Run(h[..|h| - 1]);
      CallsArePassed(g);
      match h[|h| - 1] {
        case Arrival(_, _, _) =>
          assert Offered(h) == Offered(g);
        case Dispatch =>
          ForwardAllFollows(p.(cache := AllRead(p.cache)), Offered(g), Unread(p.cache));
        case Requested(uid, outcome) =>
          var answer := Answer(p.cache, uid, outcome);
          if answer == [] {
            assert Offered(h) == Offered(g);
          } else {
            ForwardFollows(p.(cache := ReadOf(p.cache, uid)), Offered(g), answer[0]);
          }
      }
    }
  }

  /** In particular a tag that was never described is never retracted. */
  lemma {:induction false} RetractionsFollowDescriptions(offered: seq<Entry>, k: nat)
    requires k < |Passed(offered)| && !Passed(offered)[k].kind.Valid?
    ensures exists j :: 0 <= j < k && Passed(offered)[j].kind.Valid? && Passed(offered)[j].uid == Passed(offered)[k].uid
  {
    var rest, last, calls := offered[..|offered| - 1], offered[|offered| - 1], Passed(offered);
    if k < |Passed(rest)| {
      RetractionsFollowDescriptions(rest, k);
      var j :| 0 <= j < k && Passed(rest)[j].kind.Valid? && Passed(rest)[j].uid == Passed(rest)[k].uid;
      assert calls[j] == Passed(rest)[j];
    } else {
      var i :| 0 <= i < |rest| && Registers(rest[i], last.uid);
      DescriptionsPass(rest, i);
      var j :| 0 <= j < |Passed(rest)| && Passed(rest)[j] == rest[i];
      assert calls[j] == rest[i];
    }
  }

  lemma {:induction false} DescriptionsPass(offered: seq<Entry>, i: nat)
    requires i < |offered| && offered[i].kind.Valid?
    ensures exists j :: 0 <= j < |Passed(offered)| && Passed(offered)[j] == offered[i]
  {
    var rest := offered[..|offered| - 1];
    if i < |rest| {
      DescriptionsPass(rest, i);
      var j :| 0 <= j < |Passed(rest)| && Passed(rest)[j] == rest[i];
      assert Passed(offered)[j] == offered[i];
    } else {
      assert Passed(offered)[|Passed(rest)|] == offered[i];
    }
  }

  // ----- The presentation catalogue -----

  function Put(m: map<Int32, Description>, uid: Int32, kind: Kind<Description>): map<Int32, Description> {
    match kind
    case Valid(d) => m[uid := d]
    case _ => m - {uid}
  }

  /** What a subscriber on the presentation side holds after `calls`. */
  function Shown(calls: seq<Entry>): map<Int32, Description> {
    if calls == [] then map[]
    else
      var m, e := Shown(calls[..|calls| - 1]), calls[|calls| - 1];
      if e.outcome.timedOut then m else Put(m, e.uid, e.kind)
  }

  /** The tags alive on the field side after `h`. */
  function Live(h: seq<Event>): map<Int32, Description> {
    if h == [] then map[]
    else
      var m, e := Live(h[..|h| - 1]), h[|h| - 1];
      if e.Arrival? then Put(m, e.uid, e.kind) else m
  }

  predicate NoTimeouts(h: seq<Event>) {
    forall i :: 0 <= i < |h| && !h[i].Dispatch? ==> !h[i].outcome.timedOut
  }

  /** The retraction a METADATA request for `uid` would swallow: an unread
      lifecycle event for a tag that the presentation side still shows. */
  predicate Swallows(p: Plane, uid: Int32) {
    var found := Of(p.cache, uid);
    found.Some? && !found.value.read && !found.value.kind.Valid? && uid in Shown(p.calls)
  }

  /** The tags whose retraction a request swallowed, with no news of them since. */
  function Lost(h: seq<Event>): set<Int32> {
    if h == [] then {}
    else
      var lost, e := Lost(h[..|h| - 1]), h[|h| - 1];
      match e
      case Arrival(uid, _, _) => lost - {uid}
      case Dispatch => lost
      case Requested(uid, _) => if Swallows(Run(h[..|h| - 1]), uid) then lost + {uid} else lost
  }

  function At(m: map<Int32, Description>, uid: Int32): Option<Description> {
    if uid in m then Some(m[uid]) else None
  }

  function Image(kind: Kind<Description>): Option<Description> {
    if kind.Valid? then Some(kind.data) else None
  }

  predicate Pending(cache: seq<Entry>, uid: Int32) {
    exists i :: 0 <= i < |cache| && cache[i].uid == uid && !cache[i].read
  }

  /** The cache holds the latest news of each of its tags, one sample a tag. */
  ghost predicate Latest(cache: seq<Entry>, live: map<Int32, Description>) {
    && DistinctUids(cache)
    && forall e :: e in cache ==> !e.outcome.timedOut && At(live, e.uid) == Image(e.kind)
  }

  /** The cache holds the latest news of each tag; the presentation side is up to
      date on every tag without unread news, but for those in `lost`, which it
      shows though they are gone. */
  ghost predicate Tracks(p: Plane, live: map<Int32, Description>, lost: set<Int32>) {
    && Latest(p.cache, live)
    && Shown(p.calls).Keys <= p.instances
    && (forall u: Int32 :: u in lost ==> !Pending(p.cache, u) && u in Shown(p.calls) && u !in live)
    && (forall u: Int32 :: !Pending(p.cache, u) && u !in lost ==> At(Shown(p.calls), u) == At(live, u))
  }

  lemma ForwardShows(p: Plane, e: Entry)
    requires Shown(p.calls).Keys <= p.instances && !e.outcome.timedOut
    ensures var q := p.Forward(e);
            && Shown(q.calls).Keys <= q.instances
            && Shown(q.calls) == Put(Shown(p.calls), e.uid, e.kind)
  {
    assert (p.calls + [e])[..|p.calls|] == p.calls;
    assert e.uid !in Shown(p.calls) ==> Shown(p.calls) - {e.uid} == Shown(p.calls);
  }

  lemma PutAt(m: map<Int32, Description>, uid: Int32, kind: Kind<Description>, u: Int32)
    ensures At(Put(m, uid, kind), u) == if u == uid then Image(kind) else At(m, u)
  {
  }

  predicate Names(es: seq<Entry>, uid: Int32) {
    exists i :: 0 <= i < |es| && es[i].uid == uid
  }

  lemma NamesExtend(es: seq<Entry>, u: Int32)
    requires es != []
    ensures Names(es, u) <==> Names(es[..|es| - 1], u) || es[|es| - 1].uid == u
  {
    var rest := es[..|es| - 1];
    if Names(es, u) {
      var i :| 0 <= i < |es| && es[i].uid == u;
      assert i == |es| - 1 || rest[i].uid == u;
    }
    if Names(rest, u) {
      var i :| 0 <= i < |rest| && rest[i].uid == u;
      assert es[i].uid == u;
    }
  }

  lemma {:induction false} ForwardAllShows(p: Plane, es: seq<Entry>)
    requires Shown(p.calls).Keys <= p.instances && DistinctUids(es)
    requires forall i | 0 <= i < |es| :: !es[i].outcome.timedOut
    ensures var q := p.ForwardAll(es);
            && Shown(q.calls).Keys <= q.instances
            && (forall i | 0 <= i < |es| :: At(Shown(q.calls), es[i].uid) == Image(es[i].kind))
            && (forall u: Int32 | !Names(es, u) :: At(Shown(q.calls), u) == At(Shown(p.calls), u))
  {
    if es != [] {
      var rest, last := es[..|es| - 1], es[|es| - 1];
      ForwardAllShows(p, rest);
      ForwardShows(p.ForwardAll(rest), last);
      var before, after := Shown(p.ForwardAll(rest).calls), Shown(p.ForwardAll(es).calls);
      forall i | 0 <= i < |es| ensures At(after, es[i].uid) == Image(es[i].kind) {
        PutAt(before, last.uid, last.kind, es[i].uid);
      }
      forall u: Int32 | !Names(es, u) ensures At(after, u) == At(Shown(p.calls), u) {
        PutAt(before, last.uid, last.kind, u);
        NamesExtend(es, u);
      }
    }
  }

  lemma PendingIsNews(cache: seq<Entry>, u: Int32)
    ensures Pending(cache, u) <==> Names(Unread(cache), u)
  {
    UnreadOf(cache);
    var news := Unread(cache);
    if i :| 0 <= i < |cache| && cache[i].uid == u && !cache[i].read {
      assert cache[i] in news;
    }
    if i :| 0 <= i < |news| && news[i].uid == u {
      assert news[i] in cache;
    }
  }

  lemma SameMap(a: map<Int32, Description>, b: map<Int32, Description>)
    requires forall u: Int32 :: At(a, u) == At(b, u)
    ensures a == b
  {
    assert forall u :: u in a <==> At(a, u).Some?;
    assert forall u :: u in b <==> At(b, u).Some?;
    assert a.Keys == b.Keys;
  }

  /** process() brings every tag up to date but the lost ones. */
  lemma ProcessShows(p: Plane, live: map<Int32, Description>, lost: set<Int32>)
    requires Tracks(p, live, lost)
    ensures var shown := Shown(p.Process().calls);
            && shown.Keys <= p.Process().instances
            && forall u: Int32 :: if u in lost then u in shown else At(shown, u) == At(live, u)
  {
    var news, start := Unread(p.cache), p.(cache := AllRead(p.cache));
    UnreadOf(p.cache);
    UnreadDistinct(p.cache);
    forall i | 0 <= i < |news| ensures news[i] in p.cache {
    }
    ForwardAllShows(start, news);
    var shown := Shown(p.Process().calls);
    forall u: Int32 ensures if u in lost then u in shown else At(shown, u) == At(live, u) {
      PendingIsNews(p.cache, u);
      if i :| 0 <= i < |news| && news[i].uid == u {
        assert news[i] in p.cache;
      } else {
        assert At(shown, u) == At(Shown(p.calls), u);
      }
    }
  }

  lemma ProcessTracks(p: Plane, live: map<Int32, Description>, lost: set<Int32>)
    requires Tracks(p, live, lost)
    ensures Tracks(p.Process(), live, lost)
    ensures forall u: Int32 :: At(Shown(p.Process().calls), u) == At(live, u) <==> u !in lost
  {
    ProcessShows(p, live, lost);
    ForwardAllKeepsCache(p.(cache := AllRead(p.cache)), Unread(p.cache));
    forall e | e in AllRead(p.cache) ensures !e.outcome.timedOut && At(live, e.uid) == Image(e.kind) {
      var i :| 0 <= i < |p.cache| && e == MarkRead(p.cache[i]);
      assert p.cache[i] in p.cache;
    }
  }

  lemma ArriveLatest(cache: seq<Entry>, live: map<Int32, Description>, e: Entry)
    requires Latest(cache, live) && !e.outcome.timedOut
    ensures Latest(Without(cache, e.uid) + [e], Put(live, e.uid, e.kind))
  {
    WithoutOf(cache, e.uid);
    WithoutDistinct(cache, e.uid);
    var rest := Without(cache, e.uid);
    forall i | 0 <= i < |rest| ensures rest[i].uid != e.uid {
      assert rest[i] in rest;
    }
  }

  lemma ArrivePending(cache: seq<Entry>, e: Entry, u: Int32)
    requires !e.read
    ensures Pending(Without(cache, e.uid) + [e], u) <==> u == e.uid || Pending(cache, u)
  {
    WithoutOf(cache, e.uid);
    var rest := Without(cache, e.uid);
    if u == e.uid {
      assert (rest + [e])[|rest|] == e;
    } else if Pending(cache, u) {
      var i :| 0 <= i < |cache| && cache[i].uid == u && !cache[i].read;
      assert cache[i] in rest;
      var k :| 0 <= k < |rest| && rest[k] == cache[i];
      assert (rest + [e])[k] == rest[k];
    }
  }

  lemma ArriveTracks(p: Plane, live: map<Int32, Description>, lost: set<Int32>, uid: Int32, kind: Kind<Description>,
                     outcome: Outcome)
    requires Tracks(p, live, lost) && !outcome.timedOut
    ensures Tracks(p.Arrive(uid, kind, outcome), Put(live, uid, kind), lost - {uid})
  {
    var news, q := Entry(uid, kind, outcome, p.arrivals, false), p.Arrive(uid, kind, outcome);
    ArriveLatest(p.cache, live, news);
    forall u: Int32 ensures Pending(q.cache, u) <==> u == uid || Pending(p.cache, u) {
      ArrivePending(p.cache, news, u);
    }
  }

  lemma ReadOfLatest(cache: seq<Entry>, live: map<Int32, Description>, uid: Int32)
    requires Latest(cache, live)
    ensures Latest(ReadOf(cache, uid), live)
    ensures forall u: Int32 :: Pending(ReadOf(cache, uid), u) <==> u != uid && Pending(cache, u)
  {
    var read := ReadOf(cache, uid);
    forall e | e in read ensures !e.outcome.timedOut && At(live, e.uid) == Image(e.kind) {
      var i :| 0 <= i < |read| && e == read[i];
      assert cache[i] in cache;
    }
    forall u: Int32 ensures Pending(read, u) <==> u != uid && Pending(cache, u) {
      if Pending(read, u) {
        var i :| 0 <= i < |read| && read[i].uid == u && !read[i].read;
        assert cache[i] == read[i];
      }
      if u != uid && Pending(cache, u) {
        var i :| 0 <= i < |cache| && cache[i].uid == u && !cache[i].read;
        assert read[i] == cache[i];
      }
    }
  }

  /** A request for a described tag repeats what is shown, or about to be. */
  lemma DescriptionRepeated(p: Plane, live: map<Int32, Description>, lost: set<Int32>, e: Entry, outcome: Outcome)
    requires Tracks(p, live, lost) && !outcome.timedOut && e in p.cache && e.kind.Valid?
    ensures Tracks(p.(cache := ReadOf(p.cache, e.uid)).Call(e.(outcome := outcome)), live, lost)
  {
    ReadOfLatest(p.cache, live, e.uid);
    var q := p.(cache := ReadOf(p.cache, e.uid)).Call(e.(outcome := outcome));
    assert q.calls[..|p.calls|] == p.calls;
    assert Shown(q.calls) == Put(Shown(p.calls), e.uid, e.kind);
  }

  /** A request for a retracted tag marks the retraction as read. */
  lemma RetractionRead(p: Plane, live: map<Int32, Description>, lost: set<Int32>, e: Entry)
    requires Tracks(p, live, lost) && e in p.cache && !e.kind.Valid?
    ensures Tracks(p.(cache := ReadOf(p.cache, e.uid)), live,
                   if !e.read && e.uid in Shown(p.calls) then lost + {e.uid} else lost)
  {
    ReadOfLatest(p.cache, live, e.uid);
    if e.read {
      forall i | 0 <= i < |p.cache| && p.cache[i].uid == e.uid ensures p.cache[i].read {
        assert p.cache[i] == e;
      }
      assert !Pending(p.cache, e.uid);
    }
  }

  lemma RequestTracks(p: Plane, live: map<Int32, Description>, lost: set<Int32>, uid: Int32, outcome: Outcome)
    requires Tracks(p, live, lost) && !outcome.timedOut
    ensures Tracks(p.Request(uid, outcome), live, if Swallows(p, uid) then lost + {uid} else lost)
  {
    OfCache(p.cache, uid);
    var found := Of(p.cache, uid);
    if found.Some? && found.value.kind.Valid? {
      DescriptionRepeated(p, live, lost, found.value, outcome);
    } else if found.Some? {
      RetractionRead(p, live, lost, found.value);
    }
  }

  lemma {:induction false} RunTracks(h: seq<Event>)
    requires NoTimeouts(h)
    ensures Tracks(Run(h), Live(h), Lost(h))
    ensures NoRequests(h) ==> Lost(h) == {}
  {
    if h != [] {
      var g, e := h[..|h| - 1], h[|h| - 1];
      RunTracks(g);
      match e {
        case Arrival(uid, kind, outcome) =>
          ArriveTracks(Run(g), Live(g), Lost(g), uid, kind, outcome);
        case Dispatch =>
          ProcessTracks(Run(g), Live(g), Lost(g));
        case Requested(uid, outcome) =>
          RequestTracks(Run(g), Live(g), Lost(g), uid, outcome);
      }
    }
  }

  /** Without timeouts, process() leaves the presentation side with exactly the
      tags alive on the field side, each as last described, but for the lost
      ones, which are gone and still shown; without METADATA requests none is. */
  lemma CatalogueIsLive(h: seq<Event>)
    requires NoTimeouts(h)
    ensures var shown, live := Shown(Run(h + [Dispatch]).calls), Live(h);
            && (shown == live <==> Lost(h) == {})
            && (forall u: Int32 | u !in Lost(h) :: At(shown, u) == At(live, u))
            && (forall u: Int32 | u in Lost(h) :: u in shown && u !in live)
            && (NoRequests(h) ==> shown == live)
  {
    assert (h + [Dispatch])[..|h|] == h;
    RunTracks(h);
    ProcessTracks(Run(h), Live(h), Lost(h));
    ProcessShows(Run(h), Live(h), Lost(h));
    var shown := Shown(Run(h + [Dispatch]).calls);
    if Lost(h) == {} {
      SameMap(shown, Live(h));
    }
  }

  lemma AfterRequest(h: seq<Event>, uid: Int32, outcome: Outcome)
    ensures var r := Requested(uid, outcome);
            && Run(h + [r]) == Run(h).Request(uid, outcome) && Live(h + [r]) == Live(h)
            && Lost(h + [r]) == if Swallows(Run(h), uid) then Lost(h) + {uid} else Lost(h)
  {
    assert (h + [Requested(uid, outcome)])[..|h|] == h;
  }

  /** Serving a METADATA request marks what it reads as read, so process() never
      sees it. The catalogue is intact after the next process() exactly when no
      tag was lost before, and what it read is no retraction. */
  lemma RequestKeepsCatalogue(h: seq<Event>, uid: Int32, outcome: Outcome)
    requires NoTimeouts(h) && !outcome.timedOut
    ensures Shown(Run(h + [Requested(uid, outcome)] + [Dispatch]).calls) == Live(h)
         <==> Lost(h) == {} && !Swallows(Run(h), uid)
  {
    AfterRequest(h, uid, outcome);
    CatalogueIsLive(h + [Requested(uid, outcome)]);
  }

  /** Otherwise the tag stays shown although it is gone, however the request's
      own outcome turns out. */
  lemma RequestSwallows(h: seq<Event>, uid: Int32, outcome: Outcome)
    requires NoTimeouts(h) && Swallows(Run(h), uid)
    ensures uid !in Live(h) && uid in Shown(Run(h + [Requested(uid, outcome)] + [Dispatch]).calls)
  {
    var sent := outcome.(timedOut := false);
    AfterRequest(h, uid, outcome);
    AfterRequest(h, uid, sent);
    AfterDispatch(h + [Requested(uid, outcome)]);
    AfterDispatch(h + [Requested(uid, sent)]);
    CatalogueIsLive(h + [Requested(uid, sent)]);
  }

  lemma ProcessOne(e: Entry, n: nat)
    requires e.kind.Valid? && !e.outcome.timedOut && !e.read
    ensures Plane([e], {}, [], n).Process() == Plane([MarkRead(e)], {e.uid}, [e], n)
  {
    assert [e][1..] == [] && [e][..0] == [];
    assert Unread([e]) == [e];
    assert AllRead([e]) == [MarkRead(e)] by {
      assert AllRead([e])[0] == MarkRead(e);
    }
    var start := Plane([MarkRead(e)], {}, [], n);
    assert start.ForwardAll([e]) == start.ForwardAll([]).Forward(e);
  }

  /** A tag described and forwarded, the first thing to happen. */
  lemma Introduced(uid: Int32, d: Description)
    ensures var sent := Outcome(false, true);
            var e := Entry(uid, Valid(d), sent, 0, false);
            Run([Arrival(uid, Valid(d), sent)] + [Dispatch]) == Plane([MarkRead(e)], {uid}, [e], 1)
  {
    var sent := Outcome(false, true);
    var g := [Arrival(uid, Valid(d), sent)];
    assert g[..0] == [];
    assert Run(g) == Plane([Entry(uid, Valid(d), sent, 0, false)], {}, [], 1);
    AfterDispatch(g);
    ProcessOne(Entry(uid, Valid(d), sent, 0, false), 1);
  }

  /** The failing input: a tag is described, forwarded and disposed of, and its
      disposal is read by a METADATA request before process() gets to it. */
  lemma RetractionCanBeLost(uid: Int32, d: Description)
    ensures var sent := Outcome(false, true);
            var shown := [Arrival(uid, Valid(d), sent)] + [Dispatch];
            var h := shown + [Arrival(uid, Disposed, sent)] + [Requested(uid, sent)];
            && NoTimeouts(h)
            && uid !in Live(h)
            && uid in Shown(Run(h + [Dispatch]).calls)
  {
    var sent := Outcome(false, true);
    var f := [Arrival(uid, Valid(d), sent)] + [Dispatch];
    var g := f + [Arrival(uid, Disposed, sent)];
    var h := g + [Requested(uid, sent)];
    assert g[..2] == f && h[..3] == g;
    Introduced(uid, d);
    var a, b := Entry(uid, Valid(d), sent, 0, false), Entry(uid, Disposed, sent, 1, false);
    assert [a][..0] == [] && [MarkRead(a)][1..] == [];
    assert Without([MarkRead(a)], uid) == [];
    assert Run(g) == Plane([b], {uid}, [a], 2);
    assert Shown([]) == map[] && uid in Shown([a]);
    assert Swallows(Run(g), uid);
    CatalogueIsLive(h);
  }
}
