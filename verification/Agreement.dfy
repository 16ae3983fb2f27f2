/** The protocol's safety: in every reachable state the selector is on course to
    agree with the web side, through any loss, restart and interleaving. */
module Agreement {
  import opened Wire
  import opened Selection
  import opened Interest
  import opened CommandStream
  import opened Protocol

  /** Whether `u` should be selected: wanted, or selected at the match and never
      active since. */
  predicate Expected(s: System, u: Int32) {
    u in s.web.Active() || (u in s.base && u !in s.ever)
  }

  ghost predicate OnCourse(s: System) {
    && s.web.Active() <= s.ever
    && (forall u: Int32 :: s.link == Synced || u !in s.web.Active() ==>
          (u in s.Settled().subs <==> Expected(s, u)))
    && (s.link == Synced && FitsUInt32(s.web.sep) ==> s.Settled().sep == s.web.sep)
  }

  predicate PeriodsArePositive(queue: seq<Command>) {
    forall i :: 0 <= i < |queue| && queue[i].Period? ==> queue[i].ms > 0
  }

  ghost predicate Invariant(cfg: Config, s: System) {
    && Counted(s.web)
    && (s.link == Unmatched ==> s.queue == [])
    && (s.link != Unmatched ==> OnCourse(s))
    && PeriodsArePositive(s.queue)
    && s.table.defaultSep == cfg.startSep
    && s.web.sep in s.seps
    && (s.untouched ==> !s.sawPeriod)
    && (s.untouched ==> forall u: Int32 :: u in s.table.subs <==> cfg.InRange(u))
    && (s.link != Unmatched && s.restarted ==> forall u: Int32 :: u in s.base <==> cfg.InRange(u))
  }

  // ----- Steps keep the invariant -----

  lemma StartupSelects(cfg: Config, u: Int32)
    ensures u in cfg.Startup().subs <==> cfg.InRange(u)
    ensures cfg.Startup().sep == cfg.Startup().defaultSep == cfg.startSep
  {
  }

  /** Queued asks change the settled table as the stream folds. */
  lemma SettledAppend(s: System, asks: seq<Ask>, u: Int32)
    ensures var f, g := s.Settled(), s.table.HandleAll(s.queue + EncodeAll(asks));
            && (Turns(asks, u) == [] ==> (u in g.subs <==> u in f.subs))
            && (Turns(asks, u) != [] ==> forall a :: u in g.subs <==> u in Fold(a, asks))
            && (NoPeriod(asks) ==> g.sep == f.sep)
  {
    var f := s.Settled();
    HandleAllAppend(s.table, s.queue, EncodeAll(asks));
    EncodedFold(f, asks, u);
    forall a ensures Turns(asks, u) != [] ==> (u in Fold(f.subs.Keys, asks) <==> u in Fold(a, asks)) {
      LastAskDecides(f.subs.Keys, a, asks, u);
    }
    LastAskDecides(f.subs.Keys, f.subs.Keys, asks, u);
  }

  lemma SettledPeriod(s: System, ms: int)
    requires FitsUInt32(ms) && ms > 0
    ensures s.table.HandleAll(s.queue + EncodeAll([AskPeriod(ms)])).sep == ms
  {
    HandleAllAppend(s.table, s.queue, EncodeAll([AskPeriod(ms)]));
    assert EncodeAll([AskPeriod(ms)]) == [Period(ms)];
    HandleOne(s.Settled(), [Period(ms)]);
  }

  lemma {:induction false} PositiveEncoding(asks: seq<Ask>)
    requires forall ms :: AskPeriod(ms) in asks ==> ms > 0
    ensures PeriodsArePositive(EncodeAll(asks))
  {
    if asks != [] {
      assert asks == asks[..|asks| - 1] + [asks[|asks| - 1]];
      PositiveEncoding(asks[..|asks| - 1]);
    }
  }

  lemma ClientStep(cfg: Config, s: System, op: Op)
    requires Invariant(cfg, s) && Legal(s.web, op)
    ensures Invariant(cfg, Step(cfg, s, Client(op)))
  {
    var asks, s' := s.web.Asks(op), Step(cfg, s, Client(op));
    NextCounted(s.web, op);
    forall ms | AskPeriod(ms) in asks ensures ms > 0 {
      PeriodsPositive(s.web, op, ms);
    }
    PositiveEncoding(asks);
    if s.link != Unmatched {
      forall u: Int32 | s.link == Synced || u !in s'.web.Active()
        ensures u in s'.Settled().subs <==> Expected(s', u)
      {
        AskedIffToggled(s.web, op, u);
        AsksToggle(s.web, op);
        SettledAppend(s, asks, u);
        LastAskDecides(s.web.Active(), s.web.Active(), asks, u);
      }
      if s.link == Synced {
        ClientStepSeparation(s, op);
      }
    }
  }

  lemma ClientStepSeparation(s: System, op: Op)
    requires Counted(s.web) && Legal(s.web, op)
    requires FitsUInt32(s.web.sep) ==> s.Settled().sep == s.web.sep
    ensures FitsUInt32(s.web.Next(op).sep) ==>
              s.table.HandleAll(s.queue + EncodeAll(s.web.Asks(op))).sep == s.web.Next(op).sep
  {
    var asks := s.web.Asks(op);
    if op.SetSeparation? {
      if asks == [] {
        SettledAppend(s, asks, 0);
      } else if FitsUInt32(op.ms) {
        SettledPeriod(s, op.ms);
      }
    } else {
      if op.Disconnect? && op.client in s.web.clients {
        DisconnectCounted(s.web, op.client, op.order);
        OrphansOf(s.web.clients - {op.client}, op.order);
        ReleaseAllFrame(s.web.(clients := s.web.clients - {op.client}), op.order);
        assert forall i :: 0 <= i < |asks| ==> asks[i] in asks;
      }
      SettledAppend(s, asks, 0);
    }
  }

  lemma MatchKeeps(cfg: Config, s: System)
    requires Invariant(cfg, s) && s.link == Unmatched
    ensures Invariant(cfg, MatchStep(s))
  {
  }

  lemma {:induction false} AddsFold(a: set<int>, order: seq<int>, u: int)
    ensures u in Fold(a, Adds(order)) <==> u in a || u in order
    ensures u in order <==> Turns(Adds(order), u) != []
  {
    if order != [] {
      var rest := order[..|order| - 1];
      AddsFold(a, rest, u);
      assert Adds(order)[..|order| - 1] == Adds(rest);
      assert order == rest + [order[|order| - 1]];
    }
  }

  lemma {:induction false} TurnsAppend(a: seq<Ask>, b: seq<Ask>, u: int)
    ensures Turns(a + b, u) == Turns(a, u) + Turns(b, u)
  {
    if b == [] {
      assert a + b == a;
    } else {
      assert (a + b)[..|a + b| - 1] == a + b[..|b| - 1];
      TurnsAppend(a, b[..|b| - 1], u);
    }
  }

  /** The replay selects what is wanted, touches no other uid, and leaves the
      current separation in force. */
  lemma ReplaySettles(s: System, order: seq<int>, u: Int32)
    requires Counted(s.web) && Lists(order, s.web.Active())
    ensures var f, g := s.Settled(), s.table.HandleAll(s.queue + EncodeAll(Replay(s.web, order)));
            && (u in g.subs <==> u in f.subs || u in s.web.Active())
            && (FitsUInt32(s.web.sep) ==> g.sep == s.web.sep)
  {
    var head, tail := [AskPeriod(s.web.sep)], Adds(order);
    var f := s.Settled();
    EncodeAllAppend(head, tail);
    Associate(s.queue, EncodeAll(head), EncodeAll(tail));
    HandleAllAppend(s.table, s.queue + EncodeAll(head), EncodeAll(tail));
    SettledAppend(s, head, u);
    var mid := s.table.HandleAll(s.queue + EncodeAll(head));
    EncodedFold(mid, tail, u);
    AddsFold(mid.subs.Keys, order, u);
    assert Turns(head, u) == [] by {
      assert head[..0] == [];
    }
    if FitsUInt32(s.web.sep) {
      SettledPeriod(s, s.web.sep);
    }
  }

  lemma CallbackKeeps(cfg: Config, s: System, order: seq<int>)
    requires Invariant(cfg, s) && s.link == Awaiting && Lists(order, s.web.Active())
    ensures Invariant(cfg, CallbackStep(s, order))
  {
    var s' := CallbackStep(s, order);
    forall u: Int32 ensures u in s'.Settled().subs <==> Expected(s', u) {
      ReplaySettles(s, order, u);
    }
    ReplaySettles(s, order, 0);
    PositiveEncoding(Replay(s.web, order));
  }

  lemma ConsumeKeeps(cfg: Config, s: System)
    requires Invariant(cfg, s) && s.queue != []
    ensures Invariant(cfg, Step(cfg, s, Consume))
    ensures Step(cfg, s, Consume).Settled() == s.Settled()
  {
  }

  /** Forwarding decisions leave the selection alone, now and later. */
  lemma JudgeKeeps(cfg: Config, s: System, uid: Int32, now: int)
    requires Invariant(cfg, s)
    ensures Invariant(cfg, Step(cfg, s, Label.Judge(uid, now)))
  {
    var s' := Step(cfg, s, Label.Judge(uid, now));
    assert s'.table.subs.Keys == s.table.subs.Keys;
    SameSelectionHandled(s.table, s'.table, s.queue);
    assert forall u: Int32 :: u in s'.Settled().subs <==> u in s'.Settled().subs.Keys;
    assert forall u: Int32 :: u in s.Settled().subs <==> u in s.Settled().subs.Keys;
  }

  lemma StepKeeps(cfg: Config, s: System, l: Label)
    requires Invariant(cfg, s) && Enabled(s, l)
    ensures Invariant(cfg, Step(cfg, s, l))
  {
    match l {
      case Client(op) => ClientStep(cfg, s, op);
      case Match => MatchKeeps(cfg, s);
      case Callback(order) => CallbackKeeps(cfg, s, order);
      case MatchAndReplay(order) =>
        MatchKeeps(cfg, s);
        CallbackKeeps(cfg, MatchStep(s), order);
      case Unmatch =>
      case Restart =>
        forall u: Int32 ensures u in cfg.Startup().subs <==> cfg.InRange(u) {
          StartupSelects(cfg, u);
        }
      case Consume => ConsumeKeeps(cfg, s);
      case Judge(uid, now) => JudgeKeeps(cfg, s, uid, now);
    }
  }

  lemma {:induction false} RunKeeps(cfg: Config, s: System, labels: seq<Label>)
    requires Invariant(cfg, s) && Possible(cfg, s, labels)
    ensures Invariant(cfg, Run(cfg, s, labels))
  {
    if labels != [] {
      RunKeeps(cfg, s, labels[..|labels| - 1]);
      StepKeeps(cfg, Run(cfg, s, labels[..|labels| - 1]), labels[|labels| - 1]);
    }
  }

  lemma InitialInvariant(cfg: Config, webSep: int)
    requires webSep > 0
    ensures Invariant(cfg, Initial(cfg, webSep))
  {
    StartCounted(webSep);
    forall u: Int32 ensures u in cfg.Startup().subs <==> cfg.InRange(u) {
      StartupSelects(cfg, u);
    }
  }

  // ----- Agreement -----

  /** In every reachable state whose match callback has run, consuming the queue
      leaves selected exactly the wanted uids and those the selector held at the
      match that were never active since: the pre-enabled range, if it had been
      restarted. The separation agrees exactly when the wire can carry it. */
  lemma AgreementHolds(cfg: Config, webSep: int, labels: seq<Label>)
    requires webSep > 0 && Possible(cfg, Initial(cfg, webSep), labels)
    requires Run(cfg, Initial(cfg, webSep), labels).link == Synced
    ensures var s := Run(cfg, Initial(cfg, webSep), labels);
            && (forall u: Int32 :: u in s.Settled().subs <==>
                  (exists c :: s.web.Interested(c, u)) || (u in s.base && u !in s.ever))
            && (s.restarted ==> forall u: Int32 :: u in s.base <==> cfg.InRange(u))
            && (s.Settled().sep == s.web.sep <==> FitsUInt32(s.web.sep))
  {
    InitialInvariant(cfg, webSep);
    RunKeeps(cfg, Initial(cfg, webSep), labels);
    var s := Run(cfg, Initial(cfg, webSep), labels);
    forall u: Int32
      ensures u in s.Settled().subs <==> (exists c :: s.web.Interested(c, u)) || (u in s.base && u !in s.ever)
    {
      ActiveIsUnion(s.web, u);
    }
  }

  lemma ConsumeSetsPeriod(cfg: Config, s: System)
    requires PeriodsArePositive(s.queue) && s.queue != [] && s.queue[0].Period?
    ensures Step(cfg, s, Consume).table.sep == s.queue[0].ms > 0
  {
  }

  /** The selector's restore-default branch is never taken: each PERIOD in
      flight, and so each consumed, is positive, and sets what it says. */
  lemma NeverRestoresDefault(cfg: Config, webSep: int, labels: seq<Label>)
    requires webSep > 0 && Possible(cfg, Initial(cfg, webSep), labels)
    ensures var s := Run(cfg, Initial(cfg, webSep), labels);
            && PeriodsArePositive(s.queue)
            && (s.queue != [] && s.queue[0].Period? ==> Step(cfg, s, Consume).table.sep == s.queue[0].ms > 0)
  {
    InitialInvariant(cfg, webSep);
    RunKeeps(cfg, Initial(cfg, webSep), labels);
    var s := Run(cfg, Initial(cfg, webSep), labels);
    if s.queue != [] && s.queue[0].Period? {
      ConsumeSetsPeriod(cfg, s);
    }
  }
}
