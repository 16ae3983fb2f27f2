/** What a selector restart and the replay that follows it achieve. */
module Recovery {
  import opened Wire
  import opened Selection
  import opened Interest
  import opened CommandStream
  import opened Protocol
  import opened Agreement
  import Server

  // ----- Restart recovery -----

  function Consumes(n: nat): seq<Label> {
    seq(n, _ => Consume)
  }

  /** Consume everything that is queued. */
  function Drain(cfg: Config, s: System): System {
    Run(cfg, s, Consumes(|s.queue|))
  }

  predicate NoneIsPeriod(queue: seq<Command>) {
    forall i :: 0 <= i < |queue| ==> !queue[i].Period?
  }

  lemma ConsumeOne(cfg: Config, s: System)
    requires Invariant(cfg, s) && s.queue != []
    ensures var d := Step(cfg, s, Consume);
            && Invariant(cfg, d) && d.queue == s.queue[1..] && d.Settled() == s.Settled()
            && d == s.(queue := d.queue, table := d.table, untouched := d.untouched, sawPeriod := d.sawPeriod)
            && (!s.queue[0].Period? ==> d.sawPeriod == s.sawPeriod)
  {
    ConsumeKeeps(cfg, s);
  }

  lemma ConsumesExtend(cfg: Config, s: System, n: nat)
    ensures Run(cfg, s, Consumes(n + 1)) == Step(cfg, Run(cfg, s, Consumes(n)), Consume)
    ensures Possible(cfg, s, Consumes(n + 1))
         <==> Possible(cfg, s, Consumes(n)) && Enabled(Run(cfg, s, Consumes(n)), Consume)
  {
    var labels := Consumes(n + 1);
    assert labels[..|labels| - 1] == Consumes(n) && labels[|labels| - 1] == Consume;
  }

  lemma QueueTail(queue: seq<Command>, n: nat)
    requires 0 < n <= |queue|
    ensures queue[n - 1..][1..] == queue[n..] && queue[n - 1..][0] == queue[n - 1]
  {
  }

  lemma {:induction false} ConsumeRun(cfg: Config, s: System, n: nat)
    requires Invariant(cfg, s) && n <= |s.queue|
    ensures var d := Run(cfg, s, Consumes(n));
            && Possible(cfg, s, Consumes(n))
            && Invariant(cfg, d) && d.queue == s.queue[n..] && d.Settled() == s.Settled()
            && d == s.(queue := d.queue, table := d.table, untouched := d.untouched, sawPeriod := d.sawPeriod)
            && (NoneIsPeriod(s.queue) ==> d.sawPeriod == s.sawPeriod)
  {
    if n > 0 {
      ConsumeRun(cfg, s, n - 1);
      ConsumesExtend(cfg, s, n - 1);
      QueueTail(s.queue, n);
      ConsumeOne(cfg, Run(cfg, s, Consumes(n - 1)));
    }
  }

  lemma DrainSettles(cfg: Config, s: System)
    requires Invariant(cfg, s)
    ensures var d := Drain(cfg, s);
            && Possible(cfg, s, Consumes(|s.queue|))
            && Invariant(cfg, d) && d.queue == [] && d.table == s.Settled()
            && d == s.(queue := [], table := d.table, untouched := d.untouched, sawPeriod := d.sawPeriod)
            && (NoneIsPeriod(s.queue) ==> d.sawPeriod == s.sawPeriod)
  {
    ConsumeRun(cfg, s, |s.queue|);
  }

  /** Whatever was lost and whatever the old table held: a restart, a match, its
      callback and a finite drain leave selected exactly the wanted uids and the
      pre-enabled ones, at the web side's separation if the wire can carry it. */
  lemma RestartRecovers(cfg: Config, s: System, order: seq<int>)
    requires Counted(s.web) && s.link == Unmatched && s.queue == []
    requires s.web.sep in s.seps
    requires Lists(order, s.web.Active()) && Ascending(order)
    ensures var labels := [Restart, Match, Callback(order)];
            var d := Drain(cfg, Run(cfg, s, labels));
            && Possible(cfg, s, labels)
            && d.queue == [] && d.link == Synced && d.web == s.web
            && (forall u: Int32 :: u in d.table.subs <==> (exists c :: s.web.Interested(c, u)) || cfg.InRange(u))
            && (d.table.sep == s.web.sep <==> FitsUInt32(s.web.sep))
  {
    var s1 := Step(cfg, s, Restart);
    var s2 := Step(cfg, s1, Match);
    var s3 := Step(cfg, s2, Callback(order));
    forall u: Int32 ensures u in cfg.Startup().subs <==> cfg.InRange(u) {
      StartupSelects(cfg, u);
    }
    assert Invariant(cfg, s1);
    StepKeeps(cfg, s1, Match);
    StepKeeps(cfg, s2, Callback(order));
    DrainSettles(cfg, s3);
    ThreeSteps(cfg, s, Restart, Match, Callback(order));
    forall u: Int32
      ensures u in s3.Settled().subs <==> (exists c :: s.web.Interested(c, u)) || cfg.InRange(u)
    {
      ActiveIsUnion(s.web, u);
    }
  }

  lemma ThreeSteps(cfg: Config, s: System, a: Label, b: Label, c: Label)
    ensures Run(cfg, s, [a, b, c]) == Step(cfg, Step(cfg, Step(cfg, s, a), b), c)
    ensures var enabled := Enabled(s, a) && Enabled(Step(cfg, s, a), b) && Enabled(Step(cfg, Step(cfg, s, a), b), c);
            enabled ==> Possible(cfg, s, [a, b, c])
  {
    assert [a, b, c][..2] == [a, b] && [a, b][..1] == [a] && [a][..0] == [];
    assert Run(cfg, s, [a]) == Step(cfg, s, a);
    assert Run(cfg, s, [a, b]) == Step(cfg, Step(cfg, s, a), b);
    assert Enabled(s, a) ==> Possible(cfg, s, [a]);
  }

  // ----- Harmless replay -----

  lemma {:induction false} AddsAreNoOps(t: Table, order: seq<int>)
    requires forall i :: 0 <= i < |order| && FitsInt32(order[i]) ==> order[i] in t.subs
    ensures t.HandleAll(EncodeAll(Adds(order))) == t
  {
    if order != [] {
      var rest, last := order[..|order| - 1], AskAdd(order[|order| - 1]);
      AddsAreNoOps(t, rest);
      assert Adds(order)[..|order| - 1] == Adds(rest);
      HandleAllAppend(t, EncodeAll(Adds(rest)), Encode(last));
      HandleOne(t, Encode(last));
    }
  }

  /** Replaying reconcile() leaves a selector entirely alone, its memory of past
      emissions included, so that no later decision can differ, exactly when the
      selector already selects what is wanted at the current separation. */
  lemma ReplayIsHarmless(m: Manager, order: seq<int>, t: Table)
    requires Counted(m) && Lists(order, m.Active())
    ensures t.HandleAll(EncodeAll(Replay(m, order))) == t
         <==> (forall u: Int32 :: u in m.Active() ==> u in t.subs) && (FitsUInt32(m.sep) ==> t.sep == m.sep)
  {
    var head := [AskPeriod(m.sep)];
    var t' := t.HandleAll(EncodeAll(Replay(m, order)));
    EncodeAllAppend(head, Adds(order));
    HandleAllAppend(t, EncodeAll(head), EncodeAll(Adds(order)));
    var mid := t.HandleAll(EncodeAll(head));
    assert mid == if FitsUInt32(m.sep) then t.SetPeriod(m.sep) else t by {
      assert head[..0] == [] && EncodeAll(head) == Encode(head[0]);
      HandleOne(t, Encode(head[0]));
    }
    if forall u: Int32 :: u in m.Active() ==> u in t.subs {
      AddsAreNoOps(mid, order);
    } else {
      var u: Int32 :| u in m.Active() && u !in t.subs;
      EncodedFold(mid, Adds(order), u);
      AddsFold(mid.subs.Keys, order, u);
      assert u in t'.subs;
    }
  }

  // ----- PERIOD first -----

  /** While the selector has consumed no PERIOD since it started, nothing beyond
      the pre-enabled range is selected. */
  predicate NothingEarly(cfg: Config, s: System) {
    s.sawPeriod || forall u :: u in s.table.subs ==> cfg.InRange(u)
  }

  /** A uid beyond the pre-enabled range is only ever selected at a separation
      the web side has had. */
  predicate OnlyWebSeparations(cfg: Config, s: System) {
    (exists u :: u in s.table.subs && !cfg.InRange(u)) ==> s.table.sep in s.seps
  }

  ghost predicate PeriodLeads(cfg: Config, s: System) {
    && NothingEarly(cfg, s)
    && (s.link != Unmatched && !s.sawPeriod ==> s.queue != [] && s.queue[0].Period?)
    && (s.sawPeriod ==> s.table.sep in s.seps)
    && s.web.sep in s.seps
    && (forall i :: 0 <= i < |s.queue| && s.queue[i].Period? ==> s.queue[i].ms in s.seps)
  }

  /** PERIOD can come first after a match: the wire can carry the separation in
      force, or the selector has had a PERIOD since it last started. */
  predicate Carried(s: System) {
    FitsUInt32(s.web.sep) || s.sawPeriod
  }

  /** A step in which a match and its replay are one, and PERIOD can come first. */
  predicate Led(s: System, l: Label) {
    !l.Match? && !l.Callback? && (l.MatchAndReplay? ==> Carried(s))
  }

  predicate AllLed(cfg: Config, s: System, labels: seq<Label>) {
    labels == []
    || (AllLed(cfg, s, labels[..|labels| - 1])
        && Led(Run(cfg, s, labels[..|labels| - 1]), labels[|labels| - 1]))
  }

  /** The steps between one match and the next. */
  predicate WithinMatch(l: Label) {
    l.Client? || l.Consume? || l.Judge? || l.Unmatch?
  }

  predicate AllWithinMatch(labels: seq<Label>) {
    forall i :: 0 <= i < |labels| ==> WithinMatch(labels[i])
  }

  lemma {:induction false} EncodedPeriods(asks: seq<Ask>, seps: set<int>)
    requires forall ms :: AskPeriod(ms) in asks ==> ms in seps
    ensures forall i :: 0 <= i < |EncodeAll(asks)| && EncodeAll(asks)[i].Period? ==> EncodeAll(asks)[i].ms in seps
  {
    if asks != [] {
      assert asks == asks[..|asks| - 1] + [asks[|asks| - 1]];
      EncodedPeriods(asks[..|asks| - 1], seps);
    }
  }

  lemma LeadsStep(cfg: Config, s: System, l: Label)
    requires Invariant(cfg, s) && PeriodLeads(cfg, s) && Enabled(s, l) && Led(s, l)
    ensures PeriodLeads(cfg, Step(cfg, s, l))
  {
    match l {
      case Client(op) =>
        var s' := Step(cfg, s, l);
        forall ms | AskPeriod(ms) in s.web.Asks(op) ensures ms in s'.seps {
          PeriodsPositive(s.web, op, ms);
        }
        EncodedPeriods(s.web.Asks(op), s'.seps);
      case MatchAndReplay(order) => MatchLeads(cfg, s, order);
      case Unmatch =>
      case Restart => assert forall u: Int32 :: u in cfg.Startup().subs ==> cfg.InRange(u);
      case Consume =>
      case Judge(_, _) =>
    }
  }

  lemma MatchLeads(cfg: Config, s: System, order: seq<int>)
    requires PeriodLeads(cfg, s) && Carried(s)
    ensures PeriodLeads(cfg, Step(cfg, s, MatchAndReplay(order)))
  {
    EmptyPrefix(EncodeAll(Replay(s.web, order)));
    if FitsUInt32(s.web.sep) {
      ReplayLeads(s.web, order);
    } else {
      EncodedNoPeriod(Replay(s.web, order));
    }
  }

  lemma {:induction false} LeadsRun(cfg: Config, s: System, labels: seq<Label>)
    requires Invariant(cfg, s) && PeriodLeads(cfg, s) && Possible(cfg, s, labels) && AllLed(cfg, s, labels)
    ensures PeriodLeads(cfg, Run(cfg, s, labels))
  {
    if labels != [] {
      LeadsRun(cfg, s, labels[..|labels| - 1]);
      RunKeeps(cfg, s, labels[..|labels| - 1]);
      LeadsStep(cfg, Run(cfg, s, labels[..|labels| - 1]), labels[|labels| - 1]);
    }
  }

  lemma ReplayLeads(m: Manager, order: seq<int>)
    requires FitsUInt32(m.sep)
    ensures var replay := EncodeAll(Replay(m, order));
            && replay != [] && replay[0] == Period(m.sep)
            && forall i :: 0 < i < |replay| ==> !replay[i].Period?
  {
    EncodeAllAppend([AskPeriod(m.sep)], Adds(order));
    assert [AskPeriod(m.sep)][..0] == [];
    assert EncodeAll([AskPeriod(m.sep)]) == [Period(m.sep)];
    EncodedNoPeriod(Adds(order));
  }

  lemma ReachedLeads(cfg: Config, webSep: int, labels: seq<Label>)
    requires webSep > 0 && Possible(cfg, Initial(cfg, webSep), labels) && AllLed(cfg, Initial(cfg, webSep), labels)
    ensures var s := Run(cfg, Initial(cfg, webSep), labels); Invariant(cfg, s) && PeriodLeads(cfg, s)
  {
    InitialInvariant(cfg, webSep);
    RunKeeps(cfg, Initial(cfg, webSep), labels);
    LeadsRun(cfg, Initial(cfg, webSep), labels);
  }

  /** With match and replay in one step, in every reachable state, through any
      number of restarts and rematches: a uid beyond the range is selected only
      after a PERIOD, and only at a separation that has been the web side's. */
  lemma PeriodFirst(cfg: Config, webSep: int, labels: seq<Label>)
    requires webSep > 0 && Possible(cfg, Initial(cfg, webSep), labels) && AllLed(cfg, Initial(cfg, webSep), labels)
    ensures var s := Run(cfg, Initial(cfg, webSep), labels);
            NothingEarly(cfg, s) && OnlyWebSeparations(cfg, s)
  {
    ReachedLeads(cfg, webSep, labels);
  }

  lemma {:induction false} EncodedNoPeriod(asks: seq<Ask>)
    requires forall i :: 0 <= i < |asks| && asks[i].AskPeriod? ==> !FitsUInt32(asks[i].ms)
    ensures NoneIsPeriod(EncodeAll(asks))
  {
    if asks != [] {
      EncodedNoPeriod(asks[..|asks| - 1]);
    }
  }

  lemma {:induction false} RunAppend(cfg: Config, s: System, a: seq<Label>, b: seq<Label>)
    ensures Run(cfg, s, a + b) == Run(cfg, Run(cfg, s, a), b)
    ensures Possible(cfg, s, a + b) <==> Possible(cfg, s, a) && Possible(cfg, Run(cfg, s, a), b)
  {
    if b == [] {
      assert a + b == a;
    } else {
      assert (a + b)[..|a + b| - 1] == a + b[..|b| - 1];
      RunAppend(cfg, s, a, b[..|b| - 1]);
    }
  }

  /** A separation that the wire cannot carry is dropped from the replay: a
      client need only subscribe beyond the range to be served before any PERIOD. */
  lemma PeriodLast(cfg: Config, s: System, order: seq<int>) returns (labels: seq<Label>)
    requires cfg.Valid() && Invariant(cfg, s) && Enabled(s, MatchAndReplay(order)) && !Carried(s)
    ensures AllWithinMatch(labels) && Possible(cfg, Step(cfg, s, MatchAndReplay(order)), labels)
    ensures !NothingEarly(cfg, Run(cfg, Step(cfg, s, MatchAndReplay(order)), labels))
  {
    StepKeeps(cfg, s, MatchAndReplay(order));
    EncodedNoPeriod(Replay(s.web, order));
    EmptyPrefix(EncodeAll(Replay(s.web, order)));
    var u: Int32 := if cfg.low > -0x8000_0000 then cfg.low - 1 else cfg.high + 1;
    labels := ServedEarly(cfg, Step(cfg, s, MatchAndReplay(order)), u);
  }

  /** With no PERIOD in flight, whatever a client asks for is soon selected. */
  lemma ServedEarly(cfg: Config, s: System, u: Int32) returns (labels: seq<Label>)
    requires Invariant(cfg, s) && s.link == Synced && NoneIsPeriod(s.queue) && !s.sawPeriod && !cfg.InRange(u)
    ensures AllWithinMatch(labels) && Possible(cfg, s, labels) && !NothingEarly(cfg, Run(cfg, s, labels))
  {
    var first := Client(Subscribe("", u));
    var t := Step(cfg, s, first);
    StepKeeps(cfg, s, first);
    EncodedNoPeriod(s.web.Asks(first.op));
    DrainSettles(cfg, t);
    ActiveIsUnion(t.web, u);
    assert t.web.Interested("", u);
    assert u in Drain(cfg, t).table.subs;
    labels := [first] + Consumes(|t.queue|);
    OneThen(cfg, s, first, Consumes(|t.queue|));
  }

  lemma OneThen(cfg: Config, s: System, first: Label, rest: seq<Label>)
    ensures Run(cfg, s, [first] + rest) == Run(cfg, Step(cfg, s, first), rest)
    ensures Possible(cfg, s, [first] + rest) <==> Enabled(s, first) && Possible(cfg, Step(cfg, s, first), rest)
  {
    RunAppend(cfg, s, [first], rest);
    assert [first][..0] == [];
    assert Run(cfg, s, []) == s && Possible(cfg, s, []);
    assert Run(cfg, s, [first]) == Step(cfg, s, first);
  }

  lemma {:induction false} WithinIsLed(cfg: Config, s: System, labels: seq<Label>)
    requires AllWithinMatch(labels)
    ensures AllLed(cfg, s, labels)
  {
    if labels != [] {
      WithinIsLed(cfg, s, labels[..|labels| - 1]);
    }
  }

  /** At any match, PERIOD-first holds of every run until the next one exactly
      when the separation in force fits the wire, or the selector has kept
      running since an earlier PERIOD. */
  lemma PeriodFirstIff(cfg: Config, webSep: int, labels: seq<Label>, order: seq<int>)
    requires cfg.Valid() && webSep > 0
    requires Possible(cfg, Initial(cfg, webSep), labels) && AllLed(cfg, Initial(cfg, webSep), labels)
    requires Enabled(Run(cfg, Initial(cfg, webSep), labels), MatchAndReplay(order))
    ensures var s := Run(cfg, Initial(cfg, webSep), labels);
            var t := Step(cfg, s, MatchAndReplay(order));
            Carried(s)
            <==> forall more | AllWithinMatch(more) && Possible(cfg, t, more) ::
                   NothingEarly(cfg, Run(cfg, t, more)) && OnlyWebSeparations(cfg, Run(cfg, t, more))
  {
    var s := Run(cfg, Initial(cfg, webSep), labels);
    var t := Step(cfg, s, MatchAndReplay(order));
    ReachedLeads(cfg, webSep, labels);
    if Carried(s) {
      StepKeeps(cfg, s, MatchAndReplay(order));
      MatchLeads(cfg, s, order);
      forall more | AllWithinMatch(more) && Possible(cfg, t, more)
        ensures NothingEarly(cfg, Run(cfg, t, more)) && OnlyWebSeparations(cfg, Run(cfg, t, more))
      {
        WithinIsLed(cfg, t, more);
        LeadsRun(cfg, t, more);
      }
    } else {
      var more := PeriodLast(cfg, s, order);
    }
  }

  // ----- A separation that the wire cannot carry -----

  const TOO_LONG := 0x1_0000_0000

  /** One message of any client brings it about. */
  lemma TooLongIsAccepted(client: string)
    ensures var msg := Server.Message(Server.SetAction, Some(Server.Int(TOO_LONG)), None, Server.Missing);
            Server.Plan(client, msg) == ([SetSeparation(TOO_LONG)], Server.Finished)
  {
  }

  /** Then the two sides disagree for as long as it stays in force ... */
  lemma SeparationsDisagree(cfg: Config, webSep: int)
    requires FitsUInt32(webSep) && webSep > 0
    ensures var labels := [Client(SetSeparation(TOO_LONG)), MatchAndReplay([])];
            var s := Run(cfg, Initial(cfg, webSep), labels);
            && Possible(cfg, Initial(cfg, webSep), labels)
            && s.link == Synced && s.web.sep == TOO_LONG && s.Settled().sep != TOO_LONG
  {
    var a, b := Client(SetSeparation(TOO_LONG)), MatchAndReplay([]);
    OneThen(cfg, Initial(cfg, webSep), a, [b]);
    OneThen(cfg, Step(cfg, Initial(cfg, webSep), a), b, []);
    assert [a] + [b] == [a, b] && [b] + [] == [b];
  }

  lemma TooLongSet(cfg: Config, webSep: int)
    requires webSep > 0
    ensures var s := Step(cfg, Initial(cfg, webSep), Client(SetSeparation(TOO_LONG)));
            Invariant(cfg, s) && Enabled(s, MatchAndReplay([])) && !Carried(s)
  {
    InitialInvariant(cfg, webSep);
    StepKeeps(cfg, Initial(cfg, webSep), Client(SetSeparation(TOO_LONG)));
  }

  /** ... and a client can be served beyond the range before any PERIOD. */
  lemma PeriodComesLast(cfg: Config, webSep: int) returns (labels: seq<Label>)
    requires cfg.Valid() && webSep > 0
    ensures Possible(cfg, Initial(cfg, webSep), labels)
    ensures forall i :: 0 <= i < |labels| ==> WithinMatch(labels[i]) || labels[i].MatchAndReplay?
    ensures !NothingEarly(cfg, Run(cfg, Initial(cfg, webSep), labels))
  {
    var start, a, b := Initial(cfg, webSep), Client(SetSeparation(TOO_LONG)), MatchAndReplay([]);
    TooLongSet(cfg, webSep);
    var more := PeriodLast(cfg, Step(cfg, start, a), []);
    labels := [a] + ([b] + more);
    OneThen(cfg, start, a, [b] + more);
    OneThen(cfg, Step(cfg, start, a), b, more);
  }
}
