/** scada_select/src/main: start-up, and the two-phase loop that drains control
    before it dispatches metadata and data in whatever order the WaitSet picks. */
module SelectorLoop {
  import opened Wire
  import opened Selection
  import opened ControlPlane
  import Data = DataPlane
  import Meta = MetaDataPlane

  /** A taken ValueRequest sample; an invalid one carries no command. */
  datatype Request = Request(valid: bool, command: Command, outcome: Outcome)

  /** What can happen during dispatch: an arrival on one of the three readers,
      or the WaitSet running one of the three handlers. */
  datatype Happening =
    | RequestArrives(request: Request)
    | ValueArrives(sample: Data.Sample)
    | MetadataArrives(uid: Int32, kind: Kind<Meta.Description>, outcome: Outcome)
    | RunRequests
    | RunMetadata
    | RunValues(now: int)

  /** A value sample's verdict, the separation in force, and how many requests
      had been applied by then. */
  datatype Judgement = Judgement(sample: Data.Sample, verdict: Data.Verdict, sep: UInt32, applied: nat)

  /** The unread requests and values, the planes, the calls made on the value
      writer, and the history: every request that arrived, those applied, and
      every judgement made. */
  datatype Loop = Loop(
    requests: seq<Request>,
    values: seq<Data.Sample>,
    data: Data.Plane,
    calls: seq<Data.Call>,
    meta: Meta.Plane,
    arrived: seq<Request>,
    applied: seq<Request>,
    judged: seq<Judgement>)
  {
    function Apply(r: Request): Loop {
      if !r.valid then this.(applied := applied + [r])
      else this.(
        applied := applied + [r],
        data := data.(table := data.table.Handle(r.command)),
        meta := if r.command.Metadata? then meta.Request(r.command.uid, r.outcome) else meta)
    }

    function ApplyAll(rs: seq<Request>): Loop
      decreases |rs|
    {
      if rs == [] then this else ApplyAll(rs[..|rs| - 1]).Apply(rs[|rs| - 1])
    }

    function Drain(): Loop {
      this.(requests := []).ApplyAll(requests)
    }

    function Judge(now: int): seq<Judgement> {
      seq(|values|, i requires 0 <= i < |values| =>
        Judgement(values[i], data.Verdicts(values, now)[i], data.table.sep, |applied|))
    }

    function Step(h: Happening): Loop {
      match h
      case RequestArrives(r) => this.(requests := requests + [r], arrived := arrived + [r])
      case ValueArrives(s) => this.(values := values + [s])
      case MetadataArrives(uid, kind, outcome) => this.(meta := meta.Arrive(uid, kind, outcome))
      case RunRequests => Drain()
      case RunMetadata => this.(meta := meta.Process())
      case RunValues(now) =>
        this.(values := [], data := data.After(values, now), calls := calls + data.Calls(values, now),
              judged := judged + Judge(now))
    }

    function Play(hs: seq<Happening>): Loop
      decreases |hs|
    {
      if hs == [] then this else Play(hs[..|hs| - 1]).Step(hs[|hs| - 1])
    }

    /** One pass of the loop: drain, then dispatch. */
    function Iterate(hs: seq<Happening>): Loop {
      Drain().Play(hs)
    }
  }

  class Selector {
    const table: SelectionTable
    const control: ControlPlane
    const data: Data.DataPlane
    const metadata: Meta.MetaDataPlane
    var requestReader: seq<Request>
    ghost var arrived: seq<Request>
    ghost var applied: seq<Request>
    ghost var judged: seq<Judgement>

    ghost predicate Valid()
      reads metadata
    {
      && control.table == table && control.metadata == metadata && data.table == table
      && metadata.Counted()
    }

    ghost function View(): Loop
      reads this, table, data, data.table, metadata
    {
      Loop(requestReader, data.reader, data.View(), data.calls, metadata.View(), arrived, applied, judged)
    }

    constructor (low: Int32, high: Int32, defaultMinSeparationMs: UInt32)
      requires ValidRange(low, high)
      ensures Valid() && fresh(table) && fresh(data) && fresh(metadata)
      ensures View() == Startup(low, high, defaultMinSeparationMs)
    {
      var t := new SelectionTable(defaultMinSeparationMs);
      t.AddRange(low, high);
      var m := new Meta.MetaDataPlane();
      var d := new Data.DataPlane(t);
      var c := new ControlPlane(t, m);
      table, control, data, metadata := t, c, d, m;
      requestReader, arrived, applied, judged := [], [], [], [];
    }

    method DrainRequests()
      requires Valid()
      modifies this, table, metadata
      ensures Valid() && View() == old(View()).Drain()
    {
      var taken := requestReader;
      requestReader := [];
      ghost var start := View();
      for i := 0 to |taken|
        invariant Valid() && View() == start.ApplyAll(taken[..i])
      {
        assert taken[..i + 1][..i] == taken[..i];
        applied := applied + [taken[i]];
        if !taken[i].valid {
          continue;
        }
        control.Handle(taken[i].command, taken[i].outcome);
      }
      assert taken[..|taken|] == taken;
    }

    method Handle(h: Happening)
      requires Valid()
      modifies this, table, data, metadata
      ensures Valid() && View() == old(View()).Step(h)
    {
      match h {
        case RequestArrives(r) =>
          requestReader := requestReader + [r];
          arrived := arrived + [r];
        case ValueArrives(s) =>
          data.reader := data.reader + [s];
        case MetadataArrives(uid, kind, outcome) =>
          metadata.Arrive(uid, kind, outcome);
        case RunRequests =>
          DrainRequests();
        case RunMetadata =>
          metadata.Process();
        case RunValues(now) =>
          judged := judged + old(View()).Judge(now);
          data.Process(now);
      }
    }

    method Iteration(dispatched: seq<Happening>)
      requires Valid()
      modifies this, table, data, metadata
      ensures Valid() && View() == old(View()).Iterate(dispatched)
    {
      DrainRequests();
      ghost var start := View();
      for i := 0 to |dispatched|
        invariant Valid() && View() == start.Play(dispatched[..i])
      {
        assert dispatched[..i + 1][..i] == dispatched[..i];
        Handle(dispatched[i]);
      }
      assert dispatched[..|dispatched|] == dispatched;
    }
  }

  function Startup(low: Int32, high: Int32, defaultSep: UInt32): Loop {
    Loop([], [], Data.Plane(EmptyTable(defaultSep).AddRange(low, high), {}), [], Meta.NOTHING_YET, [], [], [])
  }

  // ----- Control before data -----

  function Commands(rs: seq<Request>): seq<Command> {
    if rs == [] then []
    else Commands(rs[..|rs| - 1]) + if rs[|rs| - 1].valid then [rs[|rs| - 1].command] else []
  }

  /** The table that the first `n` arrived requests call for. */
  function Called(start: Table, arrived: seq<Request>, n: nat): Table
    requires n <= |arrived|
  {
    start.HandleAll(Commands(arrived[..n]))
  }

  /** A judgement was made against what the requests applied by then call for. */
  predicate Faithful(start: Table, arrived: seq<Request>, j: Judgement) {
    && j.applied <= |arrived|
    && (j.verdict.Unselected? <==> j.sample.msg.uid !in Called(start, arrived, j.applied).subs)
    && j.sep == Called(start, arrived, j.applied).sep
  }

  /** Each arrived request has been applied once, in order, or is still queued;
      the table selects what those applied call for; so did every judgement. */
  ghost predicate Orderly(start: Table, l: Loop) {
    && l.arrived == l.applied + l.requests
    && SameSelection(l.data.table, start.HandleAll(Commands(l.applied)))
    && forall i :: 0 <= i < |l.judged| ==> Faithful(start, l.arrived, l.judged[i])
  }

  lemma HandleExtended(start: Table, rs: seq<Request>, r: Request)
    ensures var before, after := start.HandleAll(Commands(rs)), start.HandleAll(Commands(rs + [r]));
            after == if r.valid then before.Handle(r.command) else before
  {
    var more := if r.valid then [r.command] else [];
    assert (rs + [r])[..|rs|] == rs;
    assert Commands(rs + [r]) == Commands(rs) + more;
    HandleAllAppend(start, Commands(rs), more);
    HandleOne(start.HandleAll(Commands(rs)), more);
  }

  lemma ApplyOrderly(start: Table, l: Loop, r: Request)
    requires Orderly(start, l.(requests := [r] + l.requests))
    ensures Orderly(start, l.Apply(r))
  {
    Associate(l.applied, [r], l.requests);
    HandleExtended(start, l.applied, r);
  }

  lemma {:induction false} ApplyAllOrderly(start: Table, l: Loop, rs: seq<Request>)
    requires Orderly(start, l.(requests := rs + l.requests))
    ensures Orderly(start, l.ApplyAll(rs))
    ensures l.ApplyAll(rs).requests == l.requests && l.ApplyAll(rs).arrived == l.arrived
    ensures l.ApplyAll(rs).judged == l.judged
    decreases |rs|
  {
    if rs == [] {
      assert [] + l.requests == l.requests;
    } else {
      var rest, last := rs[..|rs| - 1], rs[|rs| - 1];
      var k := l.(requests := [last] + l.requests);
      assert rs + l.requests == rest + k.requests;
      ApplyAllOrderly(start, k, rest);
      RequestsApart(l, [last] + l.requests, rest);
      ApplyOrderly(start, l.ApplyAll(rest), last);
    }
  }

  /** Applying taken requests does not look at those still queued. */
  lemma {:induction false} RequestsApart(l: Loop, queued: seq<Request>, rs: seq<Request>)
    ensures l.(requests := queued).ApplyAll(rs) == l.ApplyAll(rs).(requests := queued)
    ensures l.ApplyAll(rs).requests == l.requests
    decreases |rs|
  {
    if rs != [] {
      RequestsApart(l, queued, rs[..|rs| - 1]);
    }
  }

  lemma DrainOrderly(start: Table, l: Loop)
    requires Orderly(start, l)
    ensures Orderly(start, l.Drain()) && l.Drain().requests == [] && l.Drain().arrived == l.arrived
    ensures l.Drain().judged == l.judged
  {
    assert l.requests + [] == l.requests;
    ApplyAllOrderly(start, l.(requests := []), l.requests);
  }

  lemma JudgeFaithful(start: Table, l: Loop, now: int)
    requires Orderly(start, l)
    ensures Orderly(start, l.Step(RunValues(now)))
    ensures forall i :: 0 <= i < |l.values| ==> l.Judge(now)[i].applied == |l.applied|
  {
    Data.BatchKeepsSelection(l.data, l.values, now);
    assert l.arrived[..|l.applied|] == l.applied;
    forall i | 0 <= i < |l.values| ensures Faithful(start, l.arrived, l.Judge(now)[i]) {
      var s := l.values[i];
      if s.msg.kind.Valid? {
        Data.ValueVerdict(l.data, l.values, now, i);
      } else {
        Data.LifecycleVerdict(l.data, l.values, now, i);
      }
      assert s.msg.uid in l.data.table.subs <==> s.msg.uid in l.data.table.subs.Keys;
    }
  }

  lemma {:induction false} PlayOrderly(start: Table, l: Loop, hs: seq<Happening>)
    requires Orderly(start, l)
    ensures var e := l.Play(hs);
            && Orderly(start, e)
            && l.arrived <= e.arrived && l.judged <= e.judged && |l.applied| <= |e.applied|
            && forall i :: |l.judged| <= i < |e.judged| ==> |l.applied| <= e.judged[i].applied
    decreases |hs|
  {
    if hs != [] {
      var p, h := l.Play(hs[..|hs| - 1]), hs[|hs| - 1];
      PlayOrderly(start, l, hs[..|hs| - 1]);
      match h {
        case RequestArrives(r) =>
          assert p.arrived + [r] == p.applied + (p.requests + [r]);
          forall i | 0 <= i < |p.judged| ensures Faithful(start, p.arrived + [r], p.judged[i]) {
            assert (p.arrived + [r])[..p.judged[i].applied] == p.arrived[..p.judged[i].applied];
          }
        case ValueArrives(_) =>
        case MetadataArrives(_, _, _) =>
        case RunRequests => DrainOrderly(start, p);
        case RunMetadata =>
        case RunValues(now) => JudgeFaithful(start, p, now);
      }
    }
  }

  /** In one pass, whatever the dispatch order and whatever arrives meanwhile,
      every value sample is judged against a table that includes every request
      that had arrived when the pass began. */
  lemma ControlBeforeData(start: Table, l: Loop, hs: seq<Happening>)
    requires Orderly(start, l)
    ensures var e := l.Iterate(hs);
            && Orderly(start, e)
            && l.arrived <= e.arrived && l.judged <= e.judged
            && forall i :: |l.judged| <= i < |e.judged| ==>
                 |l.arrived| <= e.judged[i].applied && Faithful(start, e.arrived, e.judged[i])
  {
    DrainOrderly(start, l);
    PlayOrderly(start, l.Drain(), hs);
  }

  function Passes(l: Loop, passes: seq<seq<Happening>>): Loop
    decreases |passes|
  {
    if passes == [] then l else Passes(l, passes[..|passes| - 1]).Iterate(passes[|passes| - 1])
  }

  /** Over any number of passes from start-up, each request is applied exactly
      once, in arrival order, by whichever path drains it. */
  lemma {:induction false} EachRequestOnce(low: Int32, high: Int32, defaultSep: UInt32, passes: seq<seq<Happening>>)
    ensures var l := Passes(Startup(low, high, defaultSep), passes);
            && l.arrived == l.applied + l.requests
            && Orderly(EmptyTable(defaultSep).AddRange(low, high), l)
  {
    if passes != [] {
      EachRequestOnce(low, high, defaultSep, passes[..|passes| - 1]);
      var l := Passes(Startup(low, high, defaultSep), passes[..|passes| - 1]);
      ControlBeforeData(EmptyTable(defaultSep).AddRange(low, high), l, passes[|passes| - 1]);
    }
  }
}
