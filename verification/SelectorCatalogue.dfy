/** The running selector's metadata side, and what becomes of everything that
    arrives on its three readers. */
module SelectorCatalogue {
  import opened Wire
  import opened SelectorLoop
  import Data = DataPlane
  import Meta = MetaDataPlane

  // ----- Everything that arrives -----

  function RequestsIn(hs: seq<Happening>): seq<Request> {
    if hs == [] then []
    else
      RequestsIn(hs[..|hs| - 1])
      + match hs[|hs| - 1] case RequestArrives(r) => [r] case _ => []
  }

  function ValuesIn(hs: seq<Happening>): seq<Data.Sample> {
    if hs == [] then []
    else
      ValuesIn(hs[..|hs| - 1])
      + match hs[|hs| - 1] case ValueArrives(s) => [s] case _ => []
  }

  function AllRequests(passes: seq<seq<Happening>>): seq<Request> {
    if passes == [] then [] else AllRequests(passes[..|passes| - 1]) + RequestsIn(passes[|passes| - 1])
  }

  function AllValues(passes: seq<seq<Happening>>): seq<Data.Sample> {
    if passes == [] then [] else AllValues(passes[..|passes| - 1]) + ValuesIn(passes[|passes| - 1])
  }

  function SamplesOf(judged: seq<Judgement>): seq<Data.Sample> {
    seq(|judged|, i requires 0 <= i < |judged| => judged[i].sample)
  }

  lemma SamplesAppend(a: seq<Judgement>, b: seq<Judgement>)
    ensures SamplesOf(a + b) == SamplesOf(a) + SamplesOf(b)
  {
  }

  /** The samples judged, and after them those still to be judged. */
  function Received(l: Loop): seq<Data.Sample> {
    SamplesOf(l.judged) + l.values
  }

  lemma {:induction false} ApplyAllReceives(l: Loop, rs: seq<Request>)
    ensures l.ApplyAll(rs).judged == l.judged && l.ApplyAll(rs).values == l.values
    ensures l.ApplyAll(rs).arrived == l.arrived
    decreases |rs|
  {
    if rs != [] {
      ApplyAllReceives(l, rs[..|rs| - 1]);
    }
  }

  lemma StepReceives(l: Loop, h: Happening)
    ensures Received(l.Step(h)) == Received(l) + match h case ValueArrives(s) => [s] case _ => []
    ensures l.Step(h).arrived == l.arrived + match h case RequestArrives(r) => [r] case _ => []
  {
    match h {
      case RunRequests => ApplyAllReceives(l.(requests := []), l.requests);
      case RunValues(now) =>
        SamplesAppend(l.judged, l.Judge(now));
        assert SamplesOf(l.Judge(now)) == l.values;
      case ValueArrives(s) => Associate(SamplesOf(l.judged), l.values, [s]);
      case _ =>
    }
  }

  lemma {:induction false} PlayReceives(l: Loop, hs: seq<Happening>)
    ensures Received(l.Play(hs)) == Received(l) + ValuesIn(hs)
    ensures l.Play(hs).arrived == l.arrived + RequestsIn(hs)
    decreases |hs|
  {
    if hs != [] {
      var rest, last := hs[..|hs| - 1], hs[|hs| - 1];
      PlayReceives(l, rest);
      StepReceives(l.Play(rest), last);
      Associate(Received(l), ValuesIn(rest), match last case ValueArrives(s) => [s] case _ => []);
      Associate(l.arrived, RequestsIn(rest), match last case RequestArrives(r) => [r] case _ => []);
    }
  }

  /** No arrival is lost, doubled or reordered: the value samples that arrived are
      those judged, each once, and then those still unread; and the requests that
      arrived are those the loop's history has. */
  lemma {:induction false} EachArrivalOnce(low: Int32, high: Int32, sep: UInt32, passes: seq<seq<Happening>>)
    ensures var l := Passes(Startup(low, high, sep), passes);
            Received(l) == AllValues(passes) && l.arrived == AllRequests(passes)
  {
    if passes != [] {
      var rest, last := passes[..|passes| - 1], passes[|passes| - 1];
      var k := Passes(Startup(low, high, sep), rest);
      EachArrivalOnce(low, high, sep, rest);
      ApplyAllReceives(k.(requests := []), k.requests);
      PlayReceives(k.Drain(), last);
    }
  }

  // ----- The metadata side -----

  function Asked(rs: seq<Request>): seq<Meta.Event> {
    if rs == [] then []
    else
      var r := rs[|rs| - 1];
      Asked(rs[..|rs| - 1])
      + if r.valid && r.command.Metadata? then [Meta.Requested(r.command.uid, r.outcome)] else []
  }

  /** What one happening means to the metadata plane. */
  function EventsOf(l: Loop, h: Happening): seq<Meta.Event> {
    match h
    case MetadataArrives(uid, kind, outcome) => [Meta.Arrival(uid, kind, outcome)]
    case RunRequests => Asked(l.requests)
    case RunMetadata => [Meta.Dispatch]
    case _ => []
  }

  function Trace(l: Loop, hs: seq<Happening>): seq<Meta.Event>
    decreases |hs|
  {
    if hs == [] then [] else Trace(l, hs[..|hs| - 1]) + EventsOf(l.Play(hs[..|hs| - 1]), hs[|hs| - 1])
  }

  /** Each pass drains, and then dispatches. */
  function History(l: Loop, passes: seq<seq<Happening>>): seq<Meta.Event>
    decreases |passes|
  {
    if passes == [] then []
    else
      var k, last := Passes(l, passes[..|passes| - 1]), passes[|passes| - 1];
      History(l, passes[..|passes| - 1]) + Asked(k.requests) + Trace(k.Drain(), last)
  }

  /** The metadata plane is as after this history. */
  predicate After(l: Loop, g: seq<Meta.Event>) {
    l.meta == Meta.Run(g)
  }

  lemma RunExtend(g: seq<Meta.Event>, e: Meta.Event)
    ensures e.Arrival? ==> Meta.Run(g + [e]) == Meta.Run(g).Arrive(e.uid, e.kind, e.outcome)
    ensures e.Dispatch? ==> Meta.Run(g + [e]) == Meta.Run(g).Process()
    ensures e.Requested? ==> Meta.Run(g + [e]) == Meta.Run(g).Request(e.uid, e.outcome)
  {
    assert (g + [e])[..|g|] == g;
  }

  lemma {:induction false} ApplyAllTraced(l: Loop, g: seq<Meta.Event>, rs: seq<Request>)
    requires After(l, g)
    ensures After(l.ApplyAll(rs), g + Asked(rs))
    decreases |rs|
  {
    if rs == [] {
      assert g + Asked(rs) == g;
    } else {
      var rest, r := rs[..|rs| - 1], rs[|rs| - 1];
      ApplyAllTraced(l, g, rest);
      if r.valid && r.command.Metadata? {
        var asked := Meta.Requested(r.command.uid, r.outcome);
        RunExtend(g + Asked(rest), asked);
        Associate(g, Asked(rest), [asked]);
      } else {
        assert Asked(rs) == Asked(rest);
      }
    }
  }

  lemma StepTraced(l: Loop, g: seq<Meta.Event>, h: Happening)
    requires After(l, g)
    ensures After(l.Step(h), g + EventsOf(l, h))
  {
    match h {
      case MetadataArrives(uid, kind, outcome) => RunExtend(g, Meta.Arrival(uid, kind, outcome));
      case RunRequests => ApplyAllTraced(l.(requests := []), g, l.requests);
      case RunMetadata => RunExtend(g, Meta.Dispatch);
      case _ => assert g + [] == g;
    }
  }

  lemma {:induction false} PlayTraced(l: Loop, g: seq<Meta.Event>, hs: seq<Happening>)
    requires After(l, g)
    ensures After(l.Play(hs), g + Trace(l, hs))
    decreases |hs|
  {
    if hs == [] {
      assert g + Trace(l, hs) == g;
    } else {
      var rest, last := hs[..|hs| - 1], hs[|hs| - 1];
      PlayTraced(l, g, rest);
      StepTraced(l.Play(rest), g + Trace(l, rest), last);
      Associate(g, Trace(l, rest), EventsOf(l.Play(rest), last));
    }
  }

  /** Under every dispatch order the metadata plane is as after the history of
      arrivals, process() calls and METADATA requests that the loop takes to it. */
  lemma {:induction false} CatalogueIsRun(low: Int32, high: Int32, sep: UInt32, passes: seq<seq<Happening>>)
    ensures var l := Startup(low, high, sep); After(Passes(l, passes), History(l, passes))
  {
    if passes != [] {
      var l, rest, last := Startup(low, high, sep), passes[..|passes| - 1], passes[|passes| - 1];
      var k := Passes(l, rest);
      CatalogueIsRun(low, high, sep, rest);
      ApplyAllTraced(k.(requests := []), History(l, rest), k.requests);
      PlayTraced(k.Drain(), History(l, rest) + Asked(k.requests), last);
    }
  }

  lemma HistoryExtend(l: Loop, passes: seq<seq<Happening>>, hs: seq<Happening>, h: Happening)
    ensures History(l, passes + [hs + [h]])
         == History(l, passes + [hs]) + EventsOf(Passes(l, passes + [hs]), h)
  {
    assert (passes + [hs])[..|passes|] == passes && (passes + [hs + [h]])[..|passes|] == passes;
    assert (hs + [h])[..|hs|] == hs;
    var k := Passes(l, passes);
    Associate(History(l, passes) + Asked(k.requests), Trace(k.Drain(), hs), EventsOf(k.Drain().Play(hs), h));
  }

  /** Whenever the metadata handler has just run, without timeouts, the
      presentation side shows exactly the tags alive on the field side, each as
      last described, but for those whose retraction a METADATA request
      swallowed, which are gone and still shown. */
  lemma ProcessCatalogue(low: Int32, high: Int32, sep: UInt32, passes: seq<seq<Happening>>, hs: seq<Happening>)
    requires Meta.NoTimeouts(History(Startup(low, high, sep), passes + [hs]))
    ensures var l := Startup(low, high, sep);
            var g, shown := History(l, passes + [hs]), Meta.Shown(Passes(l, passes + [hs + [RunMetadata]]).meta.calls);
            && (shown == Meta.Live(g) <==> Meta.Lost(g) == {})
            && (forall u: Int32 | u !in Meta.Lost(g) :: Meta.At(shown, u) == Meta.At(Meta.Live(g), u))
            && (forall u: Int32 | u in Meta.Lost(g) :: u in shown && u !in Meta.Live(g))
            && (Meta.NoRequests(g) ==> shown == Meta.Live(g))
  {
    var l := Startup(low, high, sep);
    HistoryExtend(l, passes, hs, RunMetadata);
    CatalogueIsRun(low, high, sep, passes + [hs + [RunMetadata]]);
    Meta.CatalogueIsLive(History(l, passes + [hs]));
  }
}
