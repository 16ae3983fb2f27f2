/** Whole runs of the web server: clients connect, send messages and go away,
    in any interleaving, while samples are routed to them. */
module Sessions {
  import opened Wire
  import opened Interest
  import opened CommandStream
  import opened Server

  datatype Event =
    | Connect(client: string)
    | Receive(client: string, msg: Message, order: seq<int>)
    | Close(client: string, order: seq<int>)

  /** The sockets in order of arrival, and the interest operations so far. */
  datatype Site = Site(sockets: seq<string>, ops: seq<Op>)

  function Start(sep: int): Manager {
    Manager(map[], map[], sep)
  }

  function Web(sep: int, s: Site): Manager {
    After(Start(sep), s.ops)
  }

  /** A message that ends the session is followed by the same clean-up as a
      close; `order` is then the client's set as Python lists it. */
  function Step(s: Site, e: Event): Site {
    match e
    case Connect(c) => s.(sockets := s.sockets + [c])
    case Receive(c, msg, order) =>
      var (ops, end) := Plan(c, msg);
      if end != Crashed then s.(ops := s.ops + ops)
      else Site(Remove(s.sockets, c), s.ops + ops + [Disconnect(c, order)])
    case Close(c, order) => Site(Remove(s.sockets, c), s.ops + [Disconnect(c, order)])
  }

  ghost predicate Enabled(sep: int, s: Site, e: Event) {
    match e
    case Connect(c) => c !in s.sockets
    case Receive(c, msg, order) =>
      && c in s.sockets
      && (Plan(c, msg).1 == Crashed ==> Legal(After(Start(sep), s.ops + Plan(c, msg).0), Disconnect(c, order)))
    case Close(c, order) => c in s.sockets && Legal(Web(sep, s), Disconnect(c, order))
  }

  function Run(h: seq<Event>): Site {
    if h == [] then Site([], []) else Step(Run(h[..|h| - 1]), h[|h| - 1])
  }

  ghost predicate Possible(sep: int, h: seq<Event>) {
    h == [] || (Possible(sep, h[..|h| - 1]) && Enabled(sep, Run(h[..|h| - 1]), h[|h| - 1]))
  }

  /** Replays a history on the server itself. */
  method Serve(sep: int, h: seq<Event>) returns (server: WebServer)
    requires sep > 0 && Possible(sep, h)
    ensures fresh(server) && fresh(server.interest)
    ensures server.sockets == Run(h).sockets
    ensures server.interest.View() == Web(sep, Run(h))
    ensures server.interest.asked == Stream(Start(sep), Run(h).ops)
  {
    var manager := new InterestManager(sep);
    server := new WebServer(manager);
    for i := 0 to |h|
      invariant fresh(server) && fresh(server.interest) && server.interest == manager
      invariant server.sockets == Run(h[..i]).sockets
      invariant manager.View() == Web(sep, Run(h[..i]))
      invariant manager.asked == Stream(Start(sep), Run(h[..i]).ops)
    {
      assert h[..i + 1][..i] == h[..i];
      PossiblePrefix(sep, h, i + 1);
      ServeOne(sep, server, Run(h[..i]), h[i]);
    }
    assert h[..|h|] == h;
  }

  lemma {:induction false} PossiblePrefix(sep: int, h: seq<Event>, n: nat)
    requires Possible(sep, h) && n <= |h|
    ensures Possible(sep, h[..n])
    decreases |h|
  {
    if n < |h| {
      PossiblePrefix(sep, h[..|h| - 1], n);
      assert h[..|h| - 1][..n] == h[..n];
    } else {
      assert h[..n] == h;
    }
  }

  method ServeOne(sep: int, server: WebServer, ghost s: Site, e: Event)
    requires Enabled(sep, s, e) && server.sockets == s.sockets
    requires server.interest.View() == Web(sep, s) && server.interest.asked == Stream(Start(sep), s.ops)
    modifies server, server.interest
    ensures server.sockets == Step(s, e).sockets
    ensures server.interest.View() == Web(sep, Step(s, e))
    ensures server.interest.asked == Stream(Start(sep), Step(s, e).ops)
  {
    match e {
      case Connect(c) =>
        server.Connect(c);
      case Receive(c, msg, order) =>
        ghost var ops := Plan(c, msg).0;
        AfterAppend(Start(sep), s.ops, ops);
        StreamAppend(Start(sep), s.ops, ops);
        var end := server.HandleWsMessage(c, msg);
        if end == Crashed {
          AfterExtend(Start(sep), s.ops + ops, Disconnect(c, order));
          server.Close(c, order);
        }
      case Close(c, order) =>
        AfterExtend(Start(sep), s.ops, Disconnect(c, order));
        server.Close(c, order);
    }
  }

  predicate DistinctSockets(sockets: seq<string>) {
    forall i, j :: 0 <= i < j < |sockets| ==> sockets[i] != sockets[j]
  }

  ghost predicate Sound(sep: int, s: Site) {
    && DistinctSockets(s.sockets)
    && LegalRun(Start(sep), s.ops)
    && Counted(Web(sep, s))
    && (forall c :: c in Web(sep, s).clients ==> c in s.sockets)
  }

  lemma {:induction false} RemoveOf(sockets: seq<string>, client: string)
    ensures forall c :: c in Remove(sockets, client) <==> c in sockets && c != client
    ensures DistinctSockets(sockets) ==> DistinctSockets(Remove(sockets, client))
  {
    if sockets != [] {
      var rest, last := sockets[..|sockets| - 1], sockets[|sockets| - 1];
      RemoveOf(rest, client);
      assert sockets == rest + [last];
      assert DistinctSockets(sockets) ==> DistinctSockets(rest) && last !in Remove(rest, client);
    }
  }

  /** A session's own operations are always possible and register no one else. */
  lemma {:induction false} SessionOps(m: Manager, client: string, ops: seq<Op>)
    requires Counted(m) && forall i :: 0 <= i < |ops| ==> Session(client, ops[i])
    ensures LegalRun(m, ops) && Counted(After(m, ops))
    ensures forall c :: c in After(m, ops).clients ==> c in m.clients || c == client
  {
    if ops != [] {
      SessionOps(m, client, ops[..|ops| - 1]);
      NextCounted(After(m, ops[..|ops| - 1]), ops[|ops| - 1]);
    }
  }

  lemma SoundDisconnect(sep: int, s: Site, c: string, order: seq<int>)
    requires Sound(sep, s) && Legal(Web(sep, s), Disconnect(c, order))
    ensures Sound(sep, Site(Remove(s.sockets, c), s.ops + [Disconnect(c, order)]))
  {
    var m := Web(sep, s);
    AfterExtend(Start(sep), s.ops, Disconnect(c, order));
    NextCounted(m, Disconnect(c, order));
    RemoveOf(s.sockets, c);
    if c in m.clients {
      DisconnectCounted(m, c, order);
    }
  }

  lemma SoundSession(sep: int, s: Site, c: string, ops: seq<Op>)
    requires Sound(sep, s) && c in s.sockets
    requires forall i :: 0 <= i < |ops| ==> Session(c, ops[i])
    ensures Sound(sep, s.(ops := s.ops + ops))
  {
    AfterAppend(Start(sep), s.ops, ops);
    LegalAppend(Start(sep), s.ops, ops);
    SessionOps(Web(sep, s), c, ops);
  }

  lemma {:induction false} RunSound(sep: int, h: seq<Event>)
    requires sep > 0 && Possible(sep, h)
    ensures Sound(sep, Run(h))
  {
    if h == [] {
      StartCounted(sep);
    } else {
      var s, e := Run(h[..|h| - 1]), h[|h| - 1];
      RunSound(sep, h[..|h| - 1]);
      match e {
        case Connect(c) =>
        case Receive(c, msg, order) =>
          var ops := Plan(c, msg).0;
          PlanIsSession(c, msg);
          SoundSession(sep, s, c, ops);
          if Plan(c, msg).1 == Crashed {
            SoundDisconnect(sep, s.(ops := s.ops + ops), c, order);
          }
        case Close(c, order) => SoundDisconnect(sep, s, c, order);
      }
    }
  }

  /** What ends the session of `c`: a close, or a message that crashes it. */
  predicate Ends(e: Event, c: string) {
    || (e.Close? && e.client == c)
    || (e.Receive? && e.client == c && Plan(c, e.msg).1 == Crashed)
  }

  ghost predicate Connected(h: seq<Event>, c: string) {
    exists k :: 0 <= k < |h| && h[k] == Connect(c) && forall j :: k < j < |h| ==> !Ends(h[j], c)
  }

  lemma ConnectedExtend(h: seq<Event>, e: Event, c: string)
    ensures Connected(h + [e], c) <==> e == Connect(c) || (Connected(h, c) && !Ends(e, c))
  {
    var all := h + [e];
    assert all[|h|] == e && forall j :: 0 <= j < |h| ==> all[j] == h[j];
    if Connected(h, c) && !Ends(e, c) {
      var k :| 0 <= k < |h| && h[k] == Connect(c) && forall j :: k < j < |h| ==> !Ends(h[j], c);
      assert all[k] == Connect(c);
    }
  }

  /** The sockets are those of the sessions begun and not ended since. */
  lemma {:induction false} SocketsAreConnected(h: seq<Event>, c: string)
    ensures c in Run(h).sockets <==> Connected(h, c)
  {
    if h != [] {
      var g, e := h[..|h| - 1], h[|h| - 1];
      SocketsAreConnected(g, c);
      ConnectedExtend(g, e, c);
      assert g + [e] == h;
      if !e.Connect? {
        RemoveOf(Run(g).sockets, e.client);
      }
    }
  }

  /** When `c` last connected, as a position in the history. */
  function LastConnect(h: seq<Event>, c: string): int {
    if h == [] then -1 else if h[|h| - 1] == Connect(c) then |h| - 1 else LastConnect(h[..|h| - 1], c)
  }

  /** The clients are listed in order of connection. */
  predicate InOrder(h: seq<Event>, sockets: seq<string>) {
    forall i, j :: 0 <= i < j < |sockets| ==> LastConnect(h, sockets[i]) < LastConnect(h, sockets[j])
  }

  lemma {:induction false} SublistsInOrder(h: seq<Event>, sockets: seq<string>, client: string, m: Manager, uid: int)
    requires InOrder(h, sockets)
    ensures InOrder(h, Remove(sockets, client)) && InOrder(h, Filter(sockets, m, uid))
  {
    if sockets != [] {
      var rest, last := sockets[..|sockets| - 1], sockets[|sockets| - 1];
      SublistsInOrder(h, rest, client, m, uid);
      RemoveOf(rest, client);
      FilterOf(rest, m, uid);
      forall c | c in rest ensures LastConnect(h, c) < LastConnect(h, last) {
      }
      forall i | 0 <= i < |Remove(rest, client)| ensures Remove(rest, client)[i] in rest {
        assert Remove(rest, client)[i] in Remove(rest, client);
      }
      forall i | 0 <= i < |Filter(rest, m, uid)| ensures Filter(rest, m, uid)[i] in rest {
        assert Filter(rest, m, uid)[i] in Filter(rest, m, uid);
      }
    }
  }

  lemma {:induction false} LastConnectBound(h: seq<Event>, c: string)
    ensures LastConnect(h, c) < |h|
  {
    if h != [] {
      LastConnectBound(h[..|h| - 1], c);
    }
  }

  /** Nothing but a connection changes the order. */
  lemma OrderKept(h: seq<Event>, e: Event, sockets: seq<string>)
    requires InOrder(h, sockets) && (e.Connect? ==> e.client !in sockets)
    ensures InOrder(h + [e], sockets)
    ensures e.Connect? ==> InOrder(h + [e], sockets + [e.client])
  {
    assert (h + [e])[..|h|] == h;
    forall i | 0 <= i < |sockets| ensures LastConnect(h + [e], sockets[i]) == LastConnect(h, sockets[i]) < |h| {
      assert sockets[i] in sockets;
      LastConnectBound(h, sockets[i]);
    }
    if e.Connect? {
      assert LastConnect(h + [e], e.client) == |h|;
    }
  }

  /** What an event does to the sockets. */
  lemma SocketsAfter(s: Site, e: Event)
    ensures e.Connect? ==> Step(s, e).sockets == s.sockets + [e.client]
    ensures !e.Connect? ==> Step(s, e).sockets == s.sockets || Step(s, e).sockets == Remove(s.sockets, e.client)
  {
  }

  lemma {:induction false} SocketsInOrder(sep: int, h: seq<Event>)
    requires Possible(sep, h)
    ensures InOrder(h, Run(h).sockets)
  {
    if h != [] {
      var g, e := h[..|h| - 1], h[|h| - 1];
      var s := Run(g);
      SocketsInOrder(sep, g);
      assert e.Connect? ==> e.client !in s.sockets;
      assert InOrder(h, s.sockets) && (e.Connect? ==> InOrder(h, s.sockets + [e.client])) by {
        OrderKept(g, e, s.sockets);
        assert g + [e] == h;
      }
      SocketsAfter(s, e);
      SublistsInOrder(h, s.sockets, e.client, Start(sep), 0);
    }
  }

  lemma {:induction false} FilterOf(sockets: seq<string>, m: Manager, uid: int)
    ensures forall c :: c in Filter(sockets, m, uid) <==> c in sockets && m.Interested(c, uid)
    ensures DistinctSockets(sockets) ==> DistinctSockets(Filter(sockets, m, uid))
  {
    if sockets != [] {
      FilterOf(sockets[..|sockets| - 1], m, uid);
      assert sockets == sockets[..|sockets| - 1] + [sockets[|sockets| - 1]];
    }
  }

  /** In every reachable state a sample goes, once each and in the order in which
      they connected, to exactly the clients whose last word on its uid was to
      subscribe; all of them are connected. */
  lemma DemuxExact(sep: int, h: seq<Event>, uid: int)
    requires sep > 0 && Possible(sep, h)
    ensures var s, m := Run(h), Web(sep, Run(h));
            var recipients := Filter(s.sockets, m, uid);
            && (forall c :: c in m.clients ==> Connected(h, c))
            && DistinctSockets(recipients) && InOrder(h, recipients)
            && (forall c :: c in recipients <==> m.Interested(c, uid))
            && (forall c :: c in recipients <==> Subscribed(s.ops, c, uid))
            && (recipients == [] <==> uid !in m.Active())
  {
    RunSound(sep, h);
    var s, m := Run(h), Web(sep, Run(h));
    FilterOf(s.sockets, m, uid);
    ActiveIsUnion(m, uid);
    forall c ensures m.Interested(c, uid) <==> Subscribed(s.ops, c, uid) {
      InterestIsLastWord(sep, s.ops, c, uid);
    }
    SocketsInOrder(sep, h);
    SublistsInOrder(h, s.sockets, "", m, uid);
    forall c | c in m.clients ensures Connected(h, c) {
      SocketsAreConnected(h, c);
    }
    var recipients := Filter(s.sockets, m, uid);
    if c :| m.Interested(c, uid) {
      assert c in recipients;
    }
    if recipients != [] {
      assert recipients[0] in recipients;
    }
  }

  /** If a uid is out at the end of the stream, every ADD of it was undone. */
  lemma {:induction false} AddsUndone(asks: seq<Ask>, uid: int, i: nat)
    requires Toggles({}, asks) && uid !in Fold({}, asks)
    requires i < |asks| && asks[i] == AskAdd(uid)
    ensures exists j :: i < j < |asks| && asks[j] == AskDelete(uid)
    decreases |asks|
  {
    var rest, last := asks[..|asks| - 1], asks[|asks| - 1];
    if last != AskDelete(uid) {
      AddsUndone(rest, uid, i);
      var j :| i < j < |rest| && rest[j] == AskDelete(uid);
      assert asks[j] == AskDelete(uid);
    }
  }

  /** When nobody is connected no uid is active, and every ADD ever asked for
      has a later DELETE. */
  lemma NobodyConnected(sep: int, h: seq<Event>)
    requires sep > 0 && Possible(sep, h) && Run(h).sockets == []
    ensures var asks := Stream(Start(sep), Run(h).ops);
            && Web(sep, Run(h)).Active() == {}
            && forall i :: 0 <= i < |asks| && asks[i].AskAdd? ==>
                 exists j :: i < j < |asks| && asks[j] == AskDelete(asks[i].uid)
  {
    RunSound(sep, h);
    var m, asks := Web(sep, Run(h)), Stream(Start(sep), Run(h).ops);
    StreamRefinesInterest(sep, Run(h).ops);
    forall u ensures u !in m.Active() {
      ActiveIsUnion(m, u);
    }
    forall i | 0 <= i < |asks| && asks[i].AskAdd?
      ensures exists j :: i < j < |asks| && asks[j] == AskDelete(asks[i].uid)
    {
      AddsUndone(asks, asks[i].uid, i);
    }
  }

  lemma {:induction false} StreamPeriods(sep: int, ops: seq<Op>, ms: int)
    requires sep > 0 && LegalRun(Start(sep), ops)
    ensures AskPeriod(ms) in Stream(Start(sep), ops) ==> ms > 0
  {
    if ops != [] {
      var rest := ops[..|ops| - 1];
      StreamPeriods(sep, rest, ms);
      StartCounted(sep);
      RunCounted(Start(sep), rest);
      PeriodsPositive(After(Start(sep), rest), ops[|ops| - 1], ms);
    }
  }

  /** No message sequence makes the web side ask for a PERIOD that is not
      positive, on a change or on a replay. */
  lemma AllPeriodsPositive(sep: int, h: seq<Event>, ms: int)
    requires sep > 0 && Possible(sep, h)
    ensures AskPeriod(ms) in Stream(Start(sep), Run(h).ops) ==> ms > 0
    ensures Web(sep, Run(h)).sep > 0
  {
    RunSound(sep, h);
    StreamPeriods(sep, Run(h).ops, ms);
  }
}
