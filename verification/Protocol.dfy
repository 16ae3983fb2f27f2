/** The selection protocol end to end: the interest manager, the ValueRequest
    channel (RELIABLE, KEEP_ALL and VOLATILE: a lossless FIFO while matched, and
    nothing at all while not), and the selector's table. */
module Protocol {
  import opened Wire
  import opened Selection
  import opened Interest
  import opened CommandStream

  // ----- Writing a command -----

  /** What reaches the channel: a value that the IDL type cannot hold raises
      inside the sender, which logs and drops it. */
  function Encode(ask: Ask): seq<Command> {
    match ask
    case AskAdd(uid) => if FitsInt32(uid) then [Add(uid)] else []
    case AskDelete(uid) => if FitsInt32(uid) then [Delete(uid)] else []
    case AskPeriod(ms) => if FitsUInt32(ms) then [Period(ms)] else []
  }

  function EncodeAll(asks: seq<Ask>): seq<Command> {
    if asks == [] then [] else EncodeAll(asks[..|asks| - 1]) + Encode(asks[|asks| - 1])
  }

  function Adds(uids: seq<int>): seq<Ask> {
    seq(|uids|, i requires 0 <= i < |uids| => AskAdd(uids[i]))
  }

  /** What a fresh match makes the web side send: PERIOD, then an ADD per uid. */
  function Replay(m: Manager, order: seq<int>): seq<Ask> {
    [AskPeriod(m.sep)] + Adds(order)
  }

  predicate Ascending(order: seq<int>) {
    forall i, j :: 0 <= i < j < |order| ==> order[i] < order[j]
  }

  // ----- The system -----

  /** The selector's startup options, as validated. */
  datatype Config = Config(low: Int32, high: Int32, startSep: UInt32) {
    predicate Valid() {
      ValidRange(low, high)
    }

    predicate InRange(uid: int) {
      low <= uid <= high
    }

    function Startup(): Table {
      EmptyTable(startSep).AddRange(low, high)
    }
  }

  /** No reader; a reader whose match callback has not run; and afterwards. */
  datatype Link = Unmatched | Awaiting | Synced

  /** `untouched`: nothing was consumed since the selector last started.
      `base`, `restarted`, `ever`: what the table held at the match, whether it
      was untouched then, and the uids active at any time since.
      `sawPeriod`: a PERIOD was consumed since the selector last started.
      `seps`: every separation the web side has had. */
  datatype System = System(
    web: Manager,
    link: Link,
    queue: seq<Command>,
    table: Table,
    untouched: bool,
    base: set<Int32>,
    restarted: bool,
    ever: set<int>,
    sawPeriod: bool,
    seps: set<int>)
  {
    /** The table once every queued command has been consumed. */
    function Settled(): Table {
      table.HandleAll(queue)
    }
  }

  datatype Label =
    | Client(op: Op)
    | Match
    | Callback(order: seq<int>)
    | MatchAndReplay(order: seq<int>)
    | Unmatch
    | Restart
    | Consume
    | Judge(uid: Int32, now: int)

  ghost predicate Enabled(s: System, l: Label) {
    match l
    case Client(op) => Legal(s.web, op)
    case Match => s.link == Unmatched
    case Callback(order) => s.link == Awaiting && Lists(order, s.web.Active()) && Ascending(order)
    case MatchAndReplay(order) => s.link == Unmatched && Lists(order, s.web.Active()) && Ascending(order)
    case Unmatch => s.link != Unmatched
    case Restart => s.link == Unmatched
    case Consume => s.queue != []
    case Judge(_, _) => true
  }

  function MatchStep(s: System): System {
    s.(link := Awaiting, queue := [], base := s.table.subs.Keys, restarted := s.untouched, ever := s.web.Active())
  }

  function CallbackStep(s: System, order: seq<int>): System {
    s.(link := Synced, queue := s.queue + EncodeAll(Replay(s.web, order)))
  }

  function Step(cfg: Config, s: System, l: Label): System {
    match l
    case Client(op) =>
      s.(web := s.web.Next(op),
         queue := if s.link == Unmatched then s.queue else s.queue + EncodeAll(s.web.Asks(op)),
         ever := s.ever + s.web.Next(op).Active(),
         seps := s.seps + {s.web.Next(op).sep})
    case Match => MatchStep(s)
    case Callback(order) => CallbackStep(s, order)
    case MatchAndReplay(order) => CallbackStep(MatchStep(s), order)
    case Unmatch => s.(link := Unmatched, queue := [])
    case Restart => s.(table := cfg.Startup(), untouched := true, sawPeriod := false)
    case Consume =>
      if s.queue == [] then s
      else s.(table := s.table.Handle(s.queue[0]), queue := s.queue[1..], untouched := false,
              sawPeriod := s.sawPeriod || s.queue[0].Period?)
    case Judge(uid, now) => s.(table := s.table.Decide(uid, now))
  }

  function Run(cfg: Config, s: System, labels: seq<Label>): System {
    if labels == [] then s else Step(cfg, Run(cfg, s, labels[..|labels| - 1]), labels[|labels| - 1])
  }

  ghost predicate Possible(cfg: Config, s: System, labels: seq<Label>) {
    labels == []
    || (Possible(cfg, s, labels[..|labels| - 1])
        && Enabled(Run(cfg, s, labels[..|labels| - 1]), labels[|labels| - 1]))
  }

  function Initial(cfg: Config, webSep: int): System {
    System(Manager(map[], map[], webSep), Unmatched, [], cfg.Startup(), true, {}, false, {}, false, {webSep})
  }

  // ----- What a stream of asks does to a table -----

  lemma {:induction false} EncodeAllAppend(a: seq<Ask>, b: seq<Ask>)
    ensures EncodeAll(a + b) == EncodeAll(a) + EncodeAll(b)
  {
    if b == [] {
      assert a + b == a;
    } else {
      assert (a + b)[..|a + b| - 1] == a + b[..|b| - 1];
      EncodeAllAppend(a, b[..|b| - 1]);
      Associate(EncodeAll(a), EncodeAll(b[..|b| - 1]), Encode(b[|b| - 1]));
    }
  }

  predicate NoPeriod(asks: seq<Ask>) {
    forall i :: 0 <= i < |asks| ==> !asks[i].AskPeriod?
  }

  lemma EncodedOne(t: Table, ask: Ask, u: Int32)
    ensures var t' := t.HandleAll(Encode(ask));
            && (u in t'.subs <==> if About(ask, u) then ask.AskAdd? else u in t.subs)
            && t'.defaultSep == t.defaultSep
            && (!ask.AskPeriod? ==> t'.sep == t.sep)
  {
    HandleOne(t, Encode(ask));
  }

  /** The uids the table ends up with are those the stream folds to. */
  lemma {:induction false} EncodedFold(t: Table, asks: seq<Ask>, u: Int32)
    ensures var t' := t.HandleAll(EncodeAll(asks));
            && (u in t'.subs <==> u in Fold(t.subs.Keys, asks))
            && t'.defaultSep == t.defaultSep
            && (NoPeriod(asks) ==> t'.sep == t.sep)
  {
    if asks != [] {
      var rest, last := asks[..|asks| - 1], asks[|asks| - 1];
      EncodedFold(t, rest, u);
      HandleAllAppend(t, EncodeAll(rest), Encode(last));
      EncodedOne(t.HandleAll(EncodeAll(rest)), last, u);
    }
  }

  /** Only the last ask about a uid matters to it. */
  lemma {:induction false} LastAskDecides(a: set<int>, b: set<int>, asks: seq<Ask>, u: int)
    ensures Turns(asks, u) == [] ==> (u in Fold(a, asks) <==> u in a)
    ensures Turns(asks, u) != [] ==> (u in Fold(a, asks) <==> u in Fold(b, asks))
  {
    if asks != [] {
      LastAskDecides(a, b, asks[..|asks| - 1], u);
    }
  }

  lemma {:induction false} TurnsIn(asks: seq<Ask>, u: int)
    ensures Turns(asks, u) != [] <==> AskAdd(u) in asks || AskDelete(u) in asks
  {
    if asks != [] {
      TurnsIn(asks[..|asks| - 1], u);
      assert asks == asks[..|asks| - 1] + [asks[|asks| - 1]];
    }
  }

  /** One operation asks about a uid exactly when it makes the uid active or
      inactive. */
  lemma AskedIffToggled(m: Manager, op: Op, u: int)
    requires Counted(m) && Legal(m, op)
    ensures Turns(m.Asks(op), u) != [] <==> (u in m.Active() <==> u !in m.Next(op).Active())
  {
    TurnsIn(m.Asks(op), u);
    AsksToggle(m, op);
    LastAskDecides(m.Active(), m.Active(), m.Asks(op), u);
    NoDeleteWhileWanted(m, op, u);
    NextCounted(m, op);
    ActiveIsUnion(m, u);
    ActiveIsUnion(m.Next(op), u);
    if AskDelete(u) in m.Asks(op) {
      assert u in m.Active() by {
        match op {
          case Subscribe(_, _) =>
          case Unsubscribe(c, uid) => assert m.Interested(c, u);
          case Disconnect(c, order) =>
            DisconnectCounted(m, c, order);
            OrphansOf(m.clients - {c}, order);
            assert m.Interested(c, u);
          case SetSeparation(_) =>
        }
      }
    }
    if AskAdd(u) in m.Asks(op) {
      match op {
        case Subscribe(c, uid) =>
          assert CountOf(m.refcounts, u) == 0;
        case Unsubscribe(c, uid) =>
        case Disconnect(c, order) =>
          if c in m.clients {
            DisconnectCounted(m, c, order);
            OrphansOf(m.clients - {c}, order);
          }
        case SetSeparation(_) =>
      }
    }
  }
}
