/** The running selector as a whole: everything proved of runs of commands and
    batches holds of the two-phase loop, under every dispatch order. */
module SelectorProcess {
  import opened Wire
  import opened Selection
  import opened Decimation
  import Data = DataPlane
  import opened SelectorRuns
  import opened SelectorLoop

  lemma {:induction false} AdvanceAppend(p: Data.Plane, a: seq<Event>, b: seq<Event>)
    ensures AdvanceAll(p, a + b) == AdvanceAll(AdvanceAll(p, a), b)
    decreases |a|
  {
    if a == [] {
      assert a + b == b;
    } else {
      assert (a + b)[0] == a[0] && (a + b)[1..] == a[1..] + b;
      AdvanceAppend(Advance(p, a[0]), a[1..], b);
    }
  }

  lemma {:induction false} OutputAppend(p: Data.Plane, a: seq<Event>, b: seq<Event>)
    ensures Output(p, a + b) == Output(p, a) + Output(AdvanceAll(p, a), b)
    decreases |a|
  {
    if a == [] {
      assert a + b == b;
    } else {
      assert (a + b)[0] == a[0] && (a + b)[1..] == a[1..] + b;
      OutputAppend(Advance(p, a[0]), a[1..], b);
      Associate(CallsOf(p, a[0]), Output(Advance(p, a[0]), a[1..]), Output(AdvanceAll(p, a), b));
    }
  }

  lemma RunAppend(p: Data.Plane, a: seq<Event>, b: seq<Event>)
    ensures AdvanceAll(p, a + b) == AdvanceAll(AdvanceAll(p, a), b)
    ensures Output(p, a + b) == Output(p, a) + Output(AdvanceAll(p, a), b)
  {
    AdvanceAppend(p, a, b);
    OutputAppend(p, a, b);
  }

  function Controls(rs: seq<Request>): seq<Event> {
    if rs == [] then []
    else Controls(rs[..|rs| - 1]) + if rs[|rs| - 1].valid then [Control(rs[|rs| - 1].command)] else []
  }

  /** What one happening makes of the selector's inputs. */
  function EventsOf(l: Loop, h: Happening): seq<Event> {
    match h
    case RunRequests => Controls(l.requests)
    case RunValues(now) => [Batch(now, l.values)]
    case _ => []
  }

  function Trace(l: Loop, hs: seq<Happening>): seq<Event>
    decreases |hs|
  {
    if hs == [] then [] else Trace(l, hs[..|hs| - 1]) + EventsOf(l.Play(hs[..|hs| - 1]), hs[|hs| - 1])
  }

  /** One pass of the loop drains, and then dispatches. */
  function PassTrace(l: Loop, hs: seq<Happening>): seq<Event> {
    Controls(l.requests) + Trace(l.Drain(), hs)
  }

  /** A whole run. */
  function History(l: Loop, passes: seq<seq<Happening>>): seq<Event>
    decreases |passes|
  {
    if passes == [] then []
    else
      History(l, passes[..|passes| - 1])
      + PassTrace(Passes(l, passes[..|passes| - 1]), passes[|passes| - 1])
  }

  lemma OneEvent(p: Data.Plane, e: Event)
    ensures AdvanceAll(p, [e]) == Advance(p, e) && Output(p, [e]) == CallsOf(p, e)
  {
    assert [e][1..] == [];
    assert Output(Advance(p, e), []) == [] && CallsOf(p, e) + [] == CallsOf(p, e);
  }

  lemma {:induction false} ApplyAllTraced(l: Loop, rs: seq<Request>)
    ensures l.ApplyAll(rs).data == AdvanceAll(l.data, Controls(rs))
    ensures l.ApplyAll(rs).calls == l.calls && Output(l.data, Controls(rs)) == []
    decreases |rs|
  {
    if rs != [] {
      var rest, last := rs[..|rs| - 1], rs[|rs| - 1];
      ApplyAllTraced(l, rest);
      if last.valid {
        RunAppend(l.data, Controls(rest), [Control(last.command)]);
        OneEvent(l.ApplyAll(rest).data, Control(last.command));
      } else {
        assert Controls(rs) == Controls(rest);
      }
    }
  }

  lemma StepTraced(l: Loop, h: Happening)
    ensures l.Step(h).data == AdvanceAll(l.data, EventsOf(l, h))
    ensures l.Step(h).calls == l.calls + Output(l.data, EventsOf(l, h))
  {
    match h {
      case RunRequests => ApplyAllTraced(l.(requests := []), l.requests);
      case RunValues(now) => OneEvent(l.data, Batch(now, l.values));
      case _ =>
    }
  }

  lemma {:induction false} PlayTraced(l: Loop, hs: seq<Happening>)
    ensures l.Play(hs).data == AdvanceAll(l.data, Trace(l, hs))
    ensures l.Play(hs).calls == l.calls + Output(l.data, Trace(l, hs))
    decreases |hs|
  {
    if hs != [] {
      var rest, last := hs[..|hs| - 1], hs[|hs| - 1];
      PlayTraced(l, rest);
      StepTraced(l.Play(rest), last);
      RunAppend(l.data, Trace(l, rest), EventsOf(l.Play(rest), last));
      Associate(l.calls, Output(l.data, Trace(l, rest)), Output(l.Play(rest).data, EventsOf(l.Play(rest), last)));
    }
  }

  lemma PassTraced(l: Loop, hs: seq<Happening>)
    ensures l.Iterate(hs).data == AdvanceAll(l.data, PassTrace(l, hs))
    ensures l.Iterate(hs).calls == l.calls + Output(l.data, PassTrace(l, hs))
  {
    ApplyAllTraced(l.(requests := []), l.requests);
    PlayTraced(l.Drain(), hs);
    RunAppend(l.data, Controls(l.requests), Trace(l.Drain(), hs));
    EmptyPrefix(Output(l.Drain().data, Trace(l.Drain(), hs)));
  }

  /** The calls the process makes on its value writer are those of the run of
      commands and batches that it takes from its readers. */
  lemma {:induction false} ProcessIsRun(l: Loop, passes: seq<seq<Happening>>)
    ensures Passes(l, passes).data == AdvanceAll(l.data, History(l, passes))
    ensures Passes(l, passes).calls == l.calls + Output(l.data, History(l, passes))
    decreases |passes|
  {
    if passes != [] {
      var rest, last := passes[..|passes| - 1], passes[|passes| - 1];
      var k := Passes(l, rest);
      ProcessIsRun(l, rest);
      PassTraced(k, last);
      RunAppend(l.data, History(l, rest), PassTrace(k, last));
      Associate(l.calls, Output(l.data, History(l, rest)), Output(k.data, PassTrace(k, last)));
    }
  }

  lemma ProcessOutput(low: Int32, high: Int32, sep: UInt32, passes: seq<seq<Happening>>)
    ensures var l := Startup(low, high, sep); Passes(l, passes).calls == Output(l.data, History(l, passes))
  {
    var l := Startup(low, high, sep);
    ProcessIsRun(l, passes);
    EmptyPrefix(Output(l.data, History(l, passes)));
  }

  // ----- Verdicts -----

  /** The verdict on every sample of the run, in order. */
  function Rulings(p: Data.Plane, events: seq<Event>): seq<Data.Verdict>
    decreases |events|
  {
    if events == [] then []
    else
      var e := events[0];
      (if e.Batch? then p.Verdicts(e.samples, e.now) else []) + Rulings(Advance(p, e), events[1..])
  }

  lemma {:induction false} RulingsAppend(p: Data.Plane, a: seq<Event>, b: seq<Event>)
    ensures Rulings(p, a + b) == Rulings(p, a) + Rulings(AdvanceAll(p, a), b)
    decreases |a|
  {
    if a == [] {
      assert a + b == b;
    } else {
      var e := a[0];
      assert (a + b)[0] == e && (a + b)[1..] == a[1..] + b;
      RulingsAppend(Advance(p, e), a[1..], b);
      Associate(if e.Batch? then p.Verdicts(e.samples, e.now) else [],
                Rulings(Advance(p, e), a[1..]), Rulings(AdvanceAll(p, a), b));
    }
  }

  function VerdictsOf(judged: seq<Judgement>): seq<Data.Verdict> {
    seq(|judged|, i requires 0 <= i < |judged| => judged[i].verdict)
  }

  lemma OneRuling(p: Data.Plane, e: Event)
    ensures Rulings(p, [e]) == if e.Batch? then p.Verdicts(e.samples, e.now) else []
  {
    assert [e][1..] == [];
    assert Rulings(Advance(p, e), []) == [];
  }

  lemma {:induction false} ControlsRuleNothing(p: Data.Plane, rs: seq<Request>)
    ensures Rulings(p, Controls(rs)) == []
    decreases |rs|
  {
    if rs != [] {
      var rest, last := rs[..|rs| - 1], rs[|rs| - 1];
      ControlsRuleNothing(p, rest);
      var more := if last.valid then [Control(last.command)] else [];
      RulingsAppend(p, Controls(rest), more);
      if last.valid {
        OneRuling(AdvanceAll(p, Controls(rest)), more[0]);
      }
    }
  }

  lemma {:induction false} ApplyAllJudged(l: Loop, rs: seq<Request>)
    ensures l.ApplyAll(rs).judged == l.judged
    decreases |rs|
  {
    if rs != [] {
      ApplyAllJudged(l, rs[..|rs| - 1]);
    }
  }

  lemma VerdictsAppend(a: seq<Judgement>, b: seq<Judgement>)
    ensures VerdictsOf(a + b) == VerdictsOf(a) + VerdictsOf(b)
  {
  }

  lemma JudgeRuled(l: Loop, now: int)
    ensures VerdictsOf(l.Judge(now)) == l.data.Verdicts(l.values, now)
  {
  }

  lemma StepRuled(l: Loop, h: Happening)
    ensures VerdictsOf(l.Step(h).judged) == VerdictsOf(l.judged) + Rulings(l.data, EventsOf(l, h))
  {
    match h {
      case RunRequests =>
        ApplyAllJudged(l.(requests := []), l.requests);
        ControlsRuleNothing(l.data, l.requests);
      case RunValues(now) =>
        OneRuling(l.data, Batch(now, l.values));
        JudgeRuled(l, now);
        VerdictsAppend(l.judged, l.Judge(now));
      case _ =>
    }
  }

  lemma {:induction false} PlayRuled(l: Loop, hs: seq<Happening>)
    ensures VerdictsOf(l.Play(hs).judged) == VerdictsOf(l.judged) + Rulings(l.data, Trace(l, hs))
    decreases |hs|
  {
    if hs != [] {
      var rest, last := hs[..|hs| - 1], hs[|hs| - 1];
      var k := l.Play(rest);
      PlayRuled(l, rest);
      PlayTraced(l, rest);
      StepRuled(k, last);
      RulingsAppend(l.data, Trace(l, rest), EventsOf(k, last));
      Associate(VerdictsOf(l.judged), Rulings(l.data, Trace(l, rest)), Rulings(k.data, EventsOf(k, last)));
    }
  }

  lemma PassRuled(l: Loop, hs: seq<Happening>)
    ensures VerdictsOf(l.Iterate(hs).judged) == VerdictsOf(l.judged) + Rulings(l.data, PassTrace(l, hs))
  {
    ApplyAllTraced(l.(requests := []), l.requests);
    ApplyAllJudged(l.(requests := []), l.requests);
    ControlsRuleNothing(l.data, l.requests);
    PlayRuled(l.Drain(), hs);
    RulingsAppend(l.data, Controls(l.requests), Trace(l.Drain(), hs));
    EmptyPrefix(Rulings(l.Drain().data, Trace(l.Drain(), hs)));
  }

  /** The verdict on every sample the process takes is that of the run: of a
      table with all the commands, and all the forwardings, up to then. */
  lemma {:induction false} ProcessJudgesAsRun(l: Loop, passes: seq<seq<Happening>>)
    ensures VerdictsOf(Passes(l, passes).judged) == VerdictsOf(l.judged) + Rulings(l.data, History(l, passes))
    decreases |passes|
  {
    if passes != [] {
      var rest, last := passes[..|passes| - 1], passes[|passes| - 1];
      var k := Passes(l, rest);
      ProcessJudgesAsRun(l, rest);
      ProcessIsRun(l, rest);
      PassRuled(k, last);
      RulingsAppend(l.data, History(l, rest), PassTrace(k, last));
      Associate(VerdictsOf(l.judged), Rulings(l.data, History(l, rest)), Rulings(k.data, PassTrace(k, last)));
    }
  }

  // ----- What the process promises -----

  /** The process respects the rate bound for every tag ... */
  lemma ProcessRateBound(low: Int32, high: Int32, sep: UInt32, passes: seq<seq<Happening>>, u: Int32,
                         gap: int, a: int, b: int)
    requires gap > 0
    requires var l := Startup(low, high, sep);
             var ops := TableOps(History(l, passes));
             Clocked(ops, a, b) && SeparatedBy(l.data.table, ops, u, gap)
    ensures var l := Startup(low, high, sep);
            |WriteTimes(Passes(l, passes).calls, u)|
              <= 1 + Erasures(TableOps(History(l, passes)), u) + (b - a) / gap
  {
    var l := Startup(low, high, sep);
    ProcessOutput(low, high, sep, passes);
    WriteRateBound(l.data, History(l, passes), u, gap, a, b);
  }

  /** ... from whenever a tag is newly selected, for as long as it stays so at one
      separation, writes a longest choice of its arrivals and represents each
      arrival by a write less than one separation older ... */
  lemma ProcessIsOptimal(low: Int32, high: Int32, sep: UInt32, passes: seq<seq<Happening>>,
                         before: seq<Event>, after: seq<Event>, u: Int32, gap: int, a: int, b: int, s: seq<int>)
    requires gap > 0
    requires var l := Startup(low, high, sep);
             var t, ops := AdvanceAll(l.data, before).table, TableOps(after);
             && History(l, passes) == before + after
             && Clocked(ops, a, b) && Steady(t, ops, u, gap) && !HasEmitted(t, u)
    requires IsSubsequence(s, Arrivals(TableOps(after), u)) && Spaced(None, s, gap)
    ensures var l := Startup(low, high, sep);
            var calls, n := Passes(l, passes).calls, |Output(l.data, before)|;
            && n <= |calls|
            && var writes, arrivals := WriteTimes(calls[n..], u), Arrivals(TableOps(after), u);
               && IsSubsequence(writes, arrivals) && Spaced(None, writes, gap)
               && |s| <= |writes|
               && forall x :: x in arrivals ==> Covered(writes, x, gap)
  {
    var l := Startup(low, high, sep);
    var p, n := AdvanceAll(l.data, before), |Output(l.data, before)|;
    ProcessOutput(low, high, sep, passes);
    RunAppend(l.data, before, after);
    assert Passes(l, passes).calls[n..] == Output(p, after);
    WritesAreOptimal(p, after, u, gap, a, b, s);
  }

  /** ... at separation 0 writes them all ... */
  lemma ProcessWritesAll(low: Int32, high: Int32, sep: UInt32, passes: seq<seq<Happening>>,
                         before: seq<Event>, after: seq<Event>, u: Int32)
    requires var l := Startup(low, high, sep);
             && History(l, passes) == before + after
             && Steady(AdvanceAll(l.data, before).table, TableOps(after), u, 0)
    ensures var l := Startup(low, high, sep);
            var calls, n := Passes(l, passes).calls, |Output(l.data, before)|;
            n <= |calls| && WriteTimes(calls[n..], u) == Arrivals(TableOps(after), u)
  {
    var l := Startup(low, high, sep);
    ProcessOutput(low, high, sep, passes);
    RunAppend(l.data, before, after);
    assert Passes(l, passes).calls[|Output(l.data, before)|..] == Output(AdvanceAll(l.data, before), after);
    ZeroWritesAll(AdvanceAll(l.data, before), after, u);
  }

  /** ... retracts a selected tag exactly when its own calls so far say that the
      writer holds the instance ... */
  lemma ProcessRetracts(low: Int32, high: Int32, sep: UInt32, passes: seq<seq<Happening>>, now: int, i: nat)
    requires var l := Passes(Startup(low, high, sep), passes);
             i < |l.values| && !l.values[i].msg.kind.Valid?
    ensures var l := Passes(Startup(low, high, sep), passes);
            var u := l.values[i].msg.uid;
            l.Judge(now)[i].verdict.Attempted()
            <==> && u in l.data.table.subs
                 && Data.Registered(false, l.calls + l.data.Calls(l.values[..i], now), u)
  {
    var s := Startup(low, high, sep);
    ProcessIsRun(s, passes);
    ProcessOutput(low, high, sep, passes);
    RetractedIffShown(s.data, History(s, passes), Passes(s, passes).values, now, i);
  }

  /** ... and serves each tag as if it were the only one. */
  lemma ProcessNonInterference(low: Int32, high: Int32, sep: UInt32, passes: seq<seq<Happening>>, u: Int32)
    ensures var l := Startup(low, high, sep);
            CallsFor(Passes(l, passes).calls, u) == Output(Slice(l.data, u), Restriction(History(l, passes), u))
  {
    var l := Startup(low, high, sep);
    ProcessOutput(low, high, sep, passes);
    NonInterference(l.data, History(l, passes), u);
  }
}
