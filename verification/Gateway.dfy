/** scada_web/gateway.py: writer creation and the delivery of match statuses,
    which the middleware may raise before the writer is registered. */
module Gateway {

  /** DDS PublicationMatchedStatus: the number of matched readers, and its
      change since the previous status. */
  datatype Status = Status(current: int, change: int)

  /** A status handed to the public callback, and whether the topic's writer was
      registered, hence able to write, at that moment. */
  datatype Delivery = Delivery(topic: string, status: Status, registered: bool)

  datatype Gate = Gate(creating: set<string>, pending: map<string, seq<Status>>, writers: set<string>,
                       delivered: seq<Delivery>)
  {
    predicate Idle() {
      creating == {} && pending == map[]
    }
  }

  function Deliveries(topic: string, statuses: seq<Status>): seq<Delivery> {
    seq(|statuses|, i requires 0 <= i < |statuses| => Delivery(topic, statuses[i], true))
  }

  class DdsGateway {
    var creating: set<string>
    var pending: map<string, seq<Status>>
    var writers: set<string>
    var delivered: seq<Delivery>

    ghost function View(): Gate
      reads this
    {
      Gate(creating, pending, writers, delivered)
    }

    constructor ()
      ensures View() == Gate({}, map[], {}, [])
    {
      creating, pending, writers, delivered := {}, map[], {}, [];
    }

    method HandlePublicationMatched(topic: string, status: Status)
      modifies this
      ensures creating == old(creating) && writers == old(writers)
      ensures if topic in creating then
                && delivered == old(delivered)
                && pending
                   == old(pending)[topic := (if topic in old(pending) then old(pending)[topic] else []) + [status]]
              else
                && pending == old(pending)
                && delivered == old(delivered) + [Delivery(topic, status, topic in writers)]
    {
      if topic in creating {
        if topic !in pending {
          pending := pending[topic := []];
        }
        pending := pending[topic := pending[topic] + [status]];
        return;
      }
      delivered := delivered + [Delivery(topic, status, topic in writers)];
    }

    method FlushPublicationMatches(topic: string)
      requires topic !in creating && topic in writers
      modifies this
      ensures creating == old(creating) && writers == old(writers) && pending == old(pending) - {topic}
      ensures delivered
           == old(delivered) + Deliveries(topic, if topic in old(pending) then old(pending)[topic] else [])
    {
      var statuses := if topic in pending then pending[topic] else [];
      pending := pending - {topic};
      for i := 0 to |statuses|
        invariant creating == old(creating) && writers == old(writers) && pending == old(pending) - {topic}
        invariant delivered == old(delivered) + Deliveries(topic, statuses[..i])
      {
        HandlePublicationMatched(topic, statuses[i]);
        assert Deliveries(topic, statuses[..i + 1])
            == Deliveries(topic, statuses[..i]) + [Delivery(topic, statuses[i], true)];
      }
      assert statuses[..|statuses|] == statuses;
    }

    /** One pass of the creation loop. `raised` are the statuses the middleware
        raises inside the constructor, which then succeeds or fails. */
    method CreateWriter(topic: string, raised: seq<Status>, fails: bool) returns (ok: bool)
      requires View().Idle()
      modifies this
      ensures ok == !fails && View().Idle()
      ensures writers == if fails then old(writers) else old(writers) + {topic}
      ensures delivered == old(delivered) + if fails then [] else Deliveries(topic, raised)
    {
      creating := creating + {topic};
      for i := 0 to |raised|
        invariant creating == {topic} && writers == old(writers) && delivered == old(delivered)
        invariant pending == if i == 0 then map[] else map[topic := raised[..i]]
      {
        HandlePublicationMatched(topic, raised[i]);
        assert raised[..i + 1] == raised[..i] + [raised[i]];
      }
      assert raised[..|raised|] == raised;
      if fails {
        pending := pending - {topic};
        creating := creating - {topic};
        return false;
      }
      creating := creating - {topic};
      writers := writers + {topic};
      FlushPublicationMatches(topic);
      return true;
    }
  }

  // ----- Histories -----

  datatype Event =
    | Create(topic: string, raised: seq<Status>, fails: bool)
    | Raise(topic: string, status: Status)

  /** The effect of the methods above, as their contracts state it. */
  function Step(g: Gate, e: Event): Gate {
    match e
    case Create(topic, raised, fails) =>
      if fails then g
      else g.(writers := g.writers + {topic}, delivered := g.delivered + Deliveries(topic, raised))
    case Raise(topic, status) =>
      g.(delivered := g.delivered + [Delivery(topic, status, topic in g.writers)])
  }

  function Run(h: seq<Event>): Gate {
    if h == [] then Gate({}, map[], {}, []) else Step(Run(h[..|h| - 1]), h[|h| - 1])
  }

  /** A status is raised outside construction only on a writer that exists. */
  predicate Possible(h: seq<Event>) {
    h == []
    || (Possible(h[..|h| - 1]) && (h[|h| - 1].Raise? ==> h[|h| - 1].topic in Run(h[..|h| - 1]).writers))
  }

  /** Replays the history on the gateway itself. */
  method Replay(h: seq<Event>) returns (g: DdsGateway)
    requires Possible(h)
    ensures fresh(g) && g.View() == Run(h) && g.View().Idle()
  {
    g := new DdsGateway();
    for i := 0 to |h|
      invariant fresh(g) && g.View() == Run(h[..i]) && g.View().Idle()
    {
      assert h[..i + 1][..i] == h[..i];
      match h[i] {
        case Create(topic, raised, fails) =>
          var _ := g.CreateWriter(topic, raised, fails);
        case Raise(topic, status) =>
          g.HandlePublicationMatched(topic, status);
      }
    }
    assert h[..|h|] == h;
  }

  /** What the middleware raised for `topic` on writers that came to be. */
  function Raised(h: seq<Event>, topic: string): seq<Status> {
    if h == [] then []
    else
      var e := h[|h| - 1];
      Raised(h[..|h| - 1], topic)
      + if e.topic != topic then []
        else if e.Raise? then [e.status]
        else if e.fails then [] else e.raised
  }

  function DeliveredTo(ds: seq<Delivery>, topic: string): seq<Status> {
    if ds == [] then []
    else DeliveredTo(ds[..|ds| - 1], topic) + if ds[|ds| - 1].topic == topic then [ds[|ds| - 1].status] else []
  }

  lemma {:induction false} DeliveredAppend(a: seq<Delivery>, t: string, statuses: seq<Status>, topic: string)
    ensures DeliveredTo(a + Deliveries(t, statuses), topic)
         == DeliveredTo(a, topic) + if t == topic then statuses else []
    decreases |statuses|
  {
    var b := Deliveries(t, statuses);
    if statuses == [] {
      assert a + b == a;
    } else {
      assert (a + b)[..|a + b| - 1] == a + Deliveries(t, statuses[..|statuses| - 1]);
      DeliveredAppend(a, t, statuses[..|statuses| - 1], topic);
    }
  }

  /** Every status raised on a writer reaches the callback exactly once, in
      order, and never before the writer is registered; a failed construction
      delivers nothing and leaves nothing behind. */
  lemma {:induction false} DeliveredOnce(h: seq<Event>, topic: string)
    requires Possible(h)
    ensures DeliveredTo(Run(h).delivered, topic) == Raised(h, topic)
    ensures Run(h).Idle()
    ensures forall i :: 0 <= i < |Run(h).delivered| ==> Run(h).delivered[i].registered
  {
    if h != [] {
      var g, e := Run(h[..|h| - 1]), h[|h| - 1];
      DeliveredOnce(h[..|h| - 1], topic);
      match e {
        case Create(t, raised, fails) => DeliveredAppend(g.delivered, t, raised, topic);
        case Raise(t, status) =>
          DeliveredAppend(g.delivered, t, [status], topic);
          assert g.delivered + [Delivery(t, status, true)] == g.delivered + Deliveries(t, [status]);
      }
    }
  }

  /** A topic has a writer once a construction of one has not failed. */
  lemma {:induction false} WritersAreCreated(h: seq<Event>, topic: string)
    ensures topic in Run(h).writers <==> exists k :: 0 <= k < |h| && h[k].Create? && h[k].topic == topic && !h[k].fails
  {
    if h != [] {
      var g, e := h[..|h| - 1], h[|h| - 1];
      WritersAreCreated(g, topic);
      assert forall k :: 0 <= k < |g| ==> h[k] == g[k];
      if k :| 0 <= k < |h| && h[k].Create? && h[k].topic == topic && !h[k].fails {
        assert k == |h| - 1 || g[k] == h[k];
      }
      if e.Create? && e.topic == topic && !e.fails {
        assert h[|h| - 1] == e;
      }
    }
  }

  // ----- When to replay -----

  /** server.py's test for "the match count has just risen from zero". */
  predicate Triggers(status: Status) {
    status.change > 0 && status.current == status.change
  }

  function Triggered(statuses: seq<Status>): nat {
    if statuses == [] then 0
    else Triggered(statuses[..|statuses| - 1]) + if Triggers(statuses[|statuses| - 1]) then 1 else 0
  }

  function CountBefore(statuses: seq<Status>): int {
    if statuses == [] then 0 else statuses[|statuses| - 1].current
  }

  /** Each status reports the count it leads to, and the change to it from the
      count before (OMG DDS 1.4, section 2.2.4.1). */
  predicate Coherent(statuses: seq<Status>) {
    statuses == []
    || (var rest, last := statuses[..|statuses| - 1], statuses[|statuses| - 1];
        Coherent(rest) && last.current >= 0 && last.current == CountBefore(rest) + last.change)
  }

  /** The transitions from no reader to some. */
  function Rises(statuses: seq<Status>): nat {
    if statuses == [] then 0
    else
      var rest, last := statuses[..|statuses| - 1], statuses[|statuses| - 1];
      Rises(rest) + if CountBefore(rest) == 0 && last.current > 0 then 1 else 0
  }

  lemma {:induction false} TriggeredOnRises(statuses: seq<Status>)
    requires Coherent(statuses)
    ensures Triggered(statuses) == Rises(statuses)
  {
    if statuses != [] {
      TriggeredOnRises(statuses[..|statuses| - 1]);
    }
  }

  /** End to end: the statuses that reach the callback trigger one replay for
      each time the topic's count rises from zero, however they were raised. */
  lemma OneReplayPerRise(h: seq<Event>, topic: string)
    requires Possible(h) && Coherent(Raised(h, topic))
    ensures Triggered(DeliveredTo(Run(h).delivered, topic)) == Rises(Raised(h, topic))
  {
    DeliveredOnce(h, topic);
    TriggeredOnRises(Raised(h, topic));
  }
}
