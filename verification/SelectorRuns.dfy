/** Whole runs of the selector: commands and batches in any interleaving. No
    tag's output depends on any other tag, and the table's rate bound and
    greedy optimality carry over to the calls made on the output writer. */
module SelectorRuns {
  import opened Wire
  import opened Selection
  import opened Decimation
  import opened DataPlane

  datatype Event =
    | Control(command: Command)
    | Batch(now: int, samples: seq<Sample>)

  function Advance(p: Plane, e: Event): Plane {
    match e
    case Control(command) => p.(table := p.table.Handle(command))
    case Batch(now, samples) => p.After(samples, now)
  }

  function CallsOf(p: Plane, e: Event): seq<Call> {
    if e.Batch? then p.Calls(e.samples, e.now) else []
  }

  /** Every call made on the output writer over the run. */
  function Output(p: Plane, events: seq<Event>): seq<Call>
    decreases |events|
  {
    if events == [] then [] else CallsOf(p, events[0]) + Output(Advance(p, events[0]), events[1..])
  }

  function AdvanceAll(p: Plane, events: seq<Event>): Plane
    decreases |events|
  {
    if events == [] then p else AdvanceAll(Advance(p, events[0]), events[1..])
  }

  // ----- Non-interference -----

  function SamplesOf(samples: seq<Sample>, u: Int32): seq<Sample> {
    if samples == [] then []
    else (if samples[0].msg.uid == u then [samples[0]] else []) + SamplesOf(samples[1..], u)
  }

  function CallsFor(calls: seq<Call>, u: Int32): seq<Call> {
    if calls == [] then []
    else (if calls[0].sample.msg.uid == u then [calls[0]] else []) + CallsFor(calls[1..], u)
  }

  /** What of one event concerns `u`: its samples, its ADD and DELETE, and any
      PERIOD. */
  function Concerning(e: Event, u: Int32): seq<Event> {
    match e
    case Batch(now, samples) => [Batch(now, SamplesOf(samples, u))]
    case Control(Period(_)) => [e]
    case Control(command) => if command.uid == u && !command.Metadata? then [e] else []
  }

  function Restriction(events: seq<Event>, u: Int32): seq<Event> {
    if events == [] then [] else Concerning(events[0], u) + Restriction(events[1..], u)
  }

  /** The part of the selector's state that belongs to `u`. */
  function Slice(p: Plane, u: Int32): Plane {
    Plane(p.table.(subs := if u in p.table.subs then map[u := p.table.subs[u]] else map[]),
          p.instances * {u})
  }

  lemma {:induction false} CallsForAppend(a: seq<Call>, b: seq<Call>, u: Int32)
    ensures CallsFor(a + b, u) == CallsFor(a, u) + CallsFor(b, u)
  {
    if a == [] {
      assert a + b == b;
    } else {
      assert (a + b)[0] == a[0] && (a + b)[1..] == a[1..] + b;
      CallsForAppend(a[1..], b, u);
      Associate(if a[0].sample.msg.uid == u then [a[0]] else [], CallsFor(a[1..], u), CallsFor(b, u));
    }
  }

  lemma SliceStep(p: Plane, s: Sample, now: int, u: Int32)
    ensures s.msg.uid == u ==> Slice(p, u).Judge(s, now) == p.Judge(s, now)
    ensures Slice(p.Step(s, now), u) == if s.msg.uid == u then Slice(p, u).Step(s, now) else Slice(p, u)
  {
    if s.msg.uid == u {
      assert Slice(p.Step(s, now), u).instances == Slice(p, u).Step(s, now).instances;
      assert Slice(p.Step(s, now), u).table.subs == Slice(p, u).Step(s, now).table.subs;
    } else {
      assert Slice(p.Step(s, now), u).instances == Slice(p, u).instances;
    }
  }

  lemma {:induction false} SliceBatch(p: Plane, samples: seq<Sample>, now: int, u: Int32)
    ensures Slice(p.After(samples, now), u) == Slice(p, u).After(SamplesOf(samples, u), now)
    ensures CallsFor(p.Calls(samples, now), u) == Slice(p, u).Calls(SamplesOf(samples, u), now)
    decreases |samples|
  {
    if samples != [] {
      var s, rest := samples[0], samples[1..];
      var q := Slice(p, u);
      SliceStep(p, s, now, u);
      SliceBatch(p.Step(s, now), rest, now, u);
      var head := if p.Judge(s, now).Attempted() then [Call(now, s)] else [];
      CallsForAppend(head, p.Step(s, now).Calls(rest, now), u);
      if s.msg.uid == u {
        assert SamplesOf(samples, u)[1..] == SamplesOf(rest, u);
        assert CallsFor(head, u) == head;
      } else {
        assert SamplesOf(samples, u) == SamplesOf(rest, u);
        assert CallsFor(head, u) == [];
      }
    }
  }

  lemma SliceControl(p: Plane, command: Command, u: Int32)
    ensures Slice(Advance(p, Control(command)), u)
         == if Concerning(Control(command), u) == [] then Slice(p, u)
            else Advance(Slice(p, u), Control(command))
  {
    var after := Advance(p, Control(command));
    if Concerning(Control(command), u) != [] {
      assert Slice(after, u).table.subs == Advance(Slice(p, u), Control(command)).table.subs;
    }
  }

  /** Every call made for `u`, with its time, kind, payload and outcome, is what
      the selector would make if `u` were the only tag. */
  lemma {:induction false} NonInterference(p: Plane, events: seq<Event>, u: Int32)
    ensures CallsFor(Output(p, events), u) == Output(Slice(p, u), Restriction(events, u))
    decreases |events|
  {
    if events != [] {
      var e, rest := events[0], events[1..];
      NonInterference(Advance(p, e), rest, u);
      CallsForAppend(CallsOf(p, e), Output(Advance(p, e), rest), u);
      var mine := Concerning(e, u);
      if e.Batch? {
        SliceBatch(p, e.samples, e.now, u);
      } else {
        SliceControl(p, e.command, u);
      }
      if mine == [] {
        assert Restriction(events, u) == Restriction(rest, u);
        assert [] + CallsFor(Output(Advance(p, e), rest), u) == CallsFor(Output(Advance(p, e), rest), u);
      } else {
        assert Restriction(events, u)[0] == mine[0] && Restriction(events, u)[1..] == Restriction(rest, u);
      }
    }
  }

  /** Hence two runs that agree on `u` treat it alike, whatever else they do. */
  lemma SameInputSameOutput(p: Plane, q: Plane, es: seq<Event>, fs: seq<Event>, u: Int32)
    requires Slice(p, u) == Slice(q, u) && Restriction(es, u) == Restriction(fs, u)
    ensures CallsFor(Output(p, es), u) == CallsFor(Output(q, fs), u)
  {
    NonInterference(p, es, u);
    NonInterference(q, fs, u);
  }

  // ----- Writes are the table's decisions -----

  function SampleOps(samples: seq<Sample>, now: int): seq<Op> {
    if samples == [] then []
    else (if samples[0].msg.kind.Valid? then [SampleOp(samples[0].msg.uid, now)] else [])
         + SampleOps(samples[1..], now)
  }

  function OpsOf(e: Event): seq<Op> {
    match e
    case Batch(now, samples) => SampleOps(samples, now)
    case Control(Add(uid)) => [AddOp(uid)]
    case Control(Delete(uid)) => [EraseOp(uid)]
    case Control(Period(ms)) => [PeriodOp(ms)]
    case Control(Metadata(_)) => []
  }

  function TableOps(events: seq<Event>): seq<Op> {
    if events == [] then [] else OpsOf(events[0]) + TableOps(events[1..])
  }

  /** The times of the write attempts for `u` among `calls`. */
  function WriteTimes(calls: seq<Call>, u: Int32): seq<int> {
    if calls == [] then []
    else (if ValidFor(calls[0].sample, u) then [calls[0].now] else []) + WriteTimes(calls[1..], u)
  }

  lemma {:induction false} WriteTimesAppend(a: seq<Call>, b: seq<Call>, u: Int32)
    ensures WriteTimes(a + b, u) == WriteTimes(a, u) + WriteTimes(b, u)
  {
    if a == [] {
      assert a + b == b;
    } else {
      assert (a + b)[0] == a[0] && (a + b)[1..] == a[1..] + b;
      WriteTimesAppend(a[1..], b, u);
      Associate(if ValidFor(a[0].sample, u) then [a[0].now] else [], WriteTimes(a[1..], u), WriteTimes(b, u));
    }
  }

  function ApplyAll(t: Table, ops: seq<Op>): Table
    decreases |ops|
  {
    if ops == [] then t else ApplyAll(Apply(t, ops[0]), ops[1..])
  }

  lemma {:induction false} EmittedAppend(t: Table, a: seq<Op>, b: seq<Op>, u: Int32)
    ensures Emitted(t, a + b, u) == Emitted(t, a, u) + Emitted(ApplyAll(t, a), b, u)
    decreases |a|
  {
    if a == [] {
      assert a + b == b;
    } else {
      assert (a + b)[0] == a[0] && (a + b)[1..] == a[1..] + b;
      EmittedAppend(Apply(t, a[0]), a[1..], b, u);
      Associate(if IsArrival(a[0], u) && t.Due(u, a[0].now) then [a[0].now] else [],
                Emitted(Apply(t, a[0]), a[1..], u), Emitted(ApplyAll(t, a), b, u));
    }
  }

  lemma {:induction false} BatchIsOps(p: Plane, samples: seq<Sample>, now: int, u: Int32)
    ensures WriteTimes(p.Calls(samples, now), u) == Emitted(p.table, SampleOps(samples, now), u)
    ensures p.After(samples, now).table == ApplyAll(p.table, SampleOps(samples, now))
    decreases |samples|
  {
    if samples != [] {
      var s, p' := samples[0], p.Step(samples[0], now);
      BatchIsOps(p', samples[1..], now, u);
      var head := if p.Judge(s, now).Attempted() then [Call(now, s)] else [];
      WriteTimesAppend(head, p'.Calls(samples[1..], now), u);
      var op := if s.msg.kind.Valid? then [SampleOp(s.msg.uid, now)] else [];
      assert SampleOps(samples, now) == op + SampleOps(samples[1..], now);
      EmittedAppend(p.table, op, SampleOps(samples[1..], now), u);
      assert p'.table == ApplyAll(p.table, op);
      assert SampleOps(samples, now)[|op|..] == SampleOps(samples[1..], now);
    }
  }

  lemma EventIsOps(p: Plane, e: Event, u: Int32)
    ensures WriteTimes(CallsOf(p, e), u) == Emitted(p.table, OpsOf(e), u)
    ensures Advance(p, e).table == ApplyAll(p.table, OpsOf(e))
  {
    match e {
      case Batch(now, samples) => BatchIsOps(p, samples, now, u);
      case Control(command) =>
        if OpsOf(e) != [] {
          assert OpsOf(e)[1..] == [];
        }
    }
  }

  /** The write attempts for `u` are the forwardings its table decides, at the
      times it decides them. */
  lemma {:induction false} WritesAreEmissions(p: Plane, events: seq<Event>, u: Int32)
    ensures WriteTimes(Output(p, events), u) == Emitted(p.table, TableOps(events), u)
    decreases |events|
  {
    if events != [] {
      var e, p' := events[0], Advance(p, events[0]);
      WritesAreEmissions(p', events[1..], u);
      WriteTimesAppend(CallsOf(p, e), Output(p', events[1..]), u);
      EmittedAppend(p.table, OpsOf(e), TableOps(events[1..]), u);
      EventIsOps(p, e, u);
    }
  }

  /** The presentation side is never driven faster than the separation allows,
      whatever the clients, the other tags and the middleware do. */
  lemma WriteRateBound(p: Plane, events: seq<Event>, u: Int32, gap: int, a: int, b: int)
    requires gap > 0
    requires Clocked(TableOps(events), a, b) && SeparatedBy(p.table, TableOps(events), u, gap)
    ensures |WriteTimes(Output(p, events), u)| <= 1 + Erasures(TableOps(events), u) + (b - a) / gap
  {
    WritesAreEmissions(p, events, u);
    RateBound(p.table, TableOps(events), u, gap, a, b);
  }

  /** While a newly selected tag stays selected at one separation, its writes
      are a longest choice of its arrivals at that separation, and every
      arrival is represented by a write less than one separation older. */
  lemma WritesAreOptimal(p: Plane, events: seq<Event>, u: Int32, gap: int, a: int, b: int, s: seq<int>)
    requires gap > 0 && Clocked(TableOps(events), a, b)
    requires Steady(p.table, TableOps(events), u, gap) && !HasEmitted(p.table, u)
    requires IsSubsequence(s, Arrivals(TableOps(events), u)) && Spaced(None, s, gap)
    ensures var writes := WriteTimes(Output(p, events), u);
            && IsSubsequence(writes, Arrivals(TableOps(events), u)) && Spaced(None, writes, gap)
            && |s| <= |writes|
            && forall x :: x in Arrivals(TableOps(events), u) ==> Covered(writes, x, gap)
  {
    WritesAreEmissions(p, events, u);
    GreedyIsOptimal(p.table, TableOps(events), u, gap, a, b, s);
    forall x | x in Arrivals(TableOps(events), u)
      ensures Covered(WriteTimes(Output(p, events), u), x, gap)
    {
      Coverage(p.table, TableOps(events), u, gap, a, b, x);
    }
  }

  /** At separation 0 every value sample of a selected tag is written. */
  lemma ZeroWritesAll(p: Plane, events: seq<Event>, u: Int32)
    requires Steady(p.table, TableOps(events), u, 0)
    ensures WriteTimes(Output(p, events), u) == Arrivals(TableOps(events), u)
  {
    WritesAreEmissions(p, events, u);
    ZeroForwardsAll(p.table, TableOps(events), u);
  }

  // ----- Retractions -----

  /** The instances the writer holds are told by the calls made on it. */
  lemma {:induction false} RunRegisters(p: Plane, events: seq<Event>, u: Int32)
    ensures u in AdvanceAll(p, events).instances <==> Registered(u in p.instances, Output(p, events), u)
    decreases |events|
  {
    if events != [] {
      var e, p' := events[0], Advance(p, events[0]);
      RunRegisters(p', events[1..], u);
      RegisteredAppend(u in p.instances, CallsOf(p, e), Output(p', events[1..]), u);
      if e.Batch? {
        BatchRegisters(p, e.samples, e.now, u);
      }
    }
  }

  /** In any run a lifecycle event is passed on exactly when its tag is selected
      and the calls made so far say that the writer holds its instance. */
  lemma RetractedIffShown(p: Plane, events: seq<Event>, batch: seq<Sample>, now: int, i: nat)
    requires i < |batch| && !batch[i].msg.kind.Valid?
    ensures var q, u := AdvanceAll(p, events), batch[i].msg.uid;
            q.Verdicts(batch, now)[i].Attempted()
            <==> && u in q.table.subs
                 && Registered(u in p.instances, Output(p, events) + q.Calls(batch[..i], now), u)
  {
    var q, u := AdvanceAll(p, events), batch[i].msg.uid;
    RunRegisters(p, events, u);
    RegisteredAppend(u in p.instances, Output(p, events), q.Calls(batch[..i], now), u);
    LifecycleVerdict(q, batch, now, i);
  }
}
