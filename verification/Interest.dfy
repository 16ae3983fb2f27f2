/** scada_web/interest.py: per-client uid sets reduced to refcounts, and the
    commands asked of the selector. Uids and separations are Python integers,
    of any size. */
module Interest {

  /** A callback of the manager: what it asks to be sent. */
  datatype Ask =
    | AskAdd(uid: int)
    | AskDelete(uid: int)
    | AskPeriod(ms: int)

  datatype Op =
    | Subscribe(client: string, uid: int)
    | Unsubscribe(client: string, uid: int)
    | Disconnect(client: string, order: seq<int>)
    | SetSeparation(ms: int)

  function CountOf(refcounts: map<int, int>, uid: int): int {
    if uid in refcounts then refcounts[uid] else 0
  }

  datatype Manager = Manager(refcounts: map<int, int>, clients: map<string, set<int>>, sep: int) {

    predicate Interested(client: string, uid: int) {
      client in clients && uid in clients[client]
    }

    function Active(): set<int> {
      refcounts.Keys
    }

    /** Drop one reference to `uid`. */
    function Release(uid: int): Manager {
      var count := CountOf(refcounts, uid) - 1;
      this.(refcounts := if count <= 0 then refcounts - {uid} else refcounts[uid := count])
    }

    function ReleaseAsks(uid: int): seq<Ask> {
      if CountOf(refcounts, uid) - 1 <= 0 then [AskDelete(uid)] else []
    }

    function ReleaseAll(uids: seq<int>): Manager
      decreases |uids|
    {
      if uids == [] then this else ReleaseAll(uids[..|uids| - 1]).Release(uids[|uids| - 1])
    }

    function ReleaseAllAsks(uids: seq<int>): seq<Ask>
      decreases |uids|
    {
      if uids == [] then []
      else ReleaseAllAsks(uids[..|uids| - 1]) + ReleaseAll(uids[..|uids| - 1]).ReleaseAsks(uids[|uids| - 1])
    }

    function EnsureClient(client: string): Manager {
      if client in clients then this else this.(clients := clients[client := {}])
    }

    function Next(op: Op): Manager {
      match op
      case Subscribe(c, uid) =>
        var m := EnsureClient(c);
        if uid in m.clients[c] then m
        else m.(clients := m.clients[c := m.clients[c] + {uid}],
                refcounts := refcounts[uid := CountOf(refcounts, uid) + 1])
      case Unsubscribe(c, uid) =>
        if !Interested(c, uid) then this
        else this.(clients := clients[c := clients[c] - {uid}]).Release(uid)
      case Disconnect(c, order) =>
        if c !in clients then this else this.(clients := clients - {c}).ReleaseAll(order)
      case SetSeparation(ms) =>
        if ms <= 0 then this else this.(sep := ms)
    }

    function Asks(op: Op): seq<Ask> {
      match op
      case Subscribe(c, uid) =>
        if Interested(c, uid) || CountOf(refcounts, uid) + 1 != 1 then [] else [AskAdd(uid)]
      case Unsubscribe(c, uid) =>
        if !Interested(c, uid) then [] else ReleaseAsks(uid)
      case Disconnect(c, order) =>
        if c !in clients then [] else this.(clients := clients - {c}).ReleaseAllAsks(order)
      case SetSeparation(ms) =>
        if ms <= 0 || ms == sep then [] else [AskPeriod(ms)]
    }
  }

  predicate Distinct(order: seq<int>) {
    forall i, j :: 0 <= i < j < |order| ==> order[i] != order[j]
  }

  /** `order` lists `uids`, each once: one way Python may iterate the set. */
  ghost predicate Lists(order: seq<int>, uids: set<int>) {
    && Distinct(order)
    && (forall u :: u in order <==> u in uids)
  }

  function Elements(order: seq<int>): set<int> {
    set u | u in order
  }

  /** Taking the last element off a list of distinct ones. */
  lemma LastElement(order: seq<int>)
    requires Distinct(order) && order != []
    ensures var rest, last := order[..|order| - 1], order[|order| - 1];
            Distinct(rest) && last !in Elements(rest) && Elements(order) == Elements(rest) + {last}
  {
    assert order == order[..|order| - 1] + [order[|order| - 1]];
  }

  lemma ListsElements(order: seq<int>, uids: set<int>)
    requires Lists(order, uids)
    ensures Elements(order) == uids
    ensures uids - Elements(order) == {}
  {
    forall u ensures u in Elements(order) <==> u in uids {
    }
  }

  ghost predicate Legal(m: Manager, op: Op) {
    op.Disconnect? && op.client in m.clients ==> Lists(op.order, m.clients[op.client])
  }

  class InterestManager {
    var refcounts: map<int, int>
    var clients: map<string, set<int>>
    var minSeparationMs: int
    /** Every callback fired, oldest first. */
    var asked: seq<Ask>

    ghost function View(): Manager
      reads this
    {
      Manager(refcounts, clients, minSeparationMs)
    }

    constructor (minSeparationMs: int)
      requires minSeparationMs > 0
      ensures View() == Manager(map[], map[], minSeparationMs) && asked == []
    {
      refcounts, clients, asked := map[], map[], [];
      this.minSeparationMs := minSeparationMs;
    }

    method ClientSubscribe(client: string, uid: int)
      modifies this
      ensures View() == old(View()).Next(Subscribe(client, uid))
      ensures asked == old(asked) + old(View()).Asks(Subscribe(client, uid))
    {
      if client !in clients {
        clients := clients[client := {}];
      }
      if uid in clients[client] {
        return;
      }
      clients := clients[client := clients[client] + {uid}];
      refcounts := refcounts[uid := CountOf(refcounts, uid) + 1];
      if refcounts[uid] == 1 {
        asked := asked + [AskAdd(uid)];
      }
    }

    method SetMinSeparation(ms: int) returns (raised: bool)
      modifies this
      ensures raised == (ms <= 0)
      ensures View() == old(View()).Next(SetSeparation(ms))
      ensures asked == old(asked) + old(View()).Asks(SetSeparation(ms))
    {
      if ms <= 0 {
        return true;
      }
      if ms == minSeparationMs {
        return false;
      }
      minSeparationMs := ms;
      asked := asked + [AskPeriod(ms)];
      return false;
    }

    method ReleaseOne(uid: int)
      modifies this
      ensures View() == old(View()).Release(uid)
      ensures asked == old(asked) + old(View()).ReleaseAsks(uid)
    {
      refcounts := refcounts[uid := CountOf(refcounts, uid) - 1];
      if refcounts[uid] <= 0 {
        refcounts := refcounts - {uid};
        asked := asked + [AskDelete(uid)];
      }
      assert refcounts - {uid} == old(refcounts) - {uid};
    }

    method ClientUnsubscribe(client: string, uid: int)
      modifies this
      ensures View() == old(View()).Next(Unsubscribe(client, uid))
      ensures asked == old(asked) + old(View()).Asks(Unsubscribe(client, uid))
    {
      if client !in clients || uid !in clients[client] {
        return;
      }
      clients := clients[client := clients[client] - {uid}];
      ReleaseOne(uid);
    }

    /** `order` is the list Python makes of the client's set. */
    method ClientDisconnect(client: string, order: seq<int>)
      requires Legal(View(), Disconnect(client, order))
      modifies this
      ensures View() == old(View()).Next(Disconnect(client, order))
      ensures asked == old(asked) + old(View()).Asks(Disconnect(client, order))
    {
      if client !in clients {
        return;
      }
      clients := clients - {client};
      ghost var start := View();
      for i := 0 to |order|
        invariant View() == start.ReleaseAll(order[..i])
        invariant asked == old(asked) + start.ReleaseAllAsks(order[..i])
      {
        assert order[..i + 1][..i] == order[..i];
        ReleaseOne(order[i]);
      }
      assert order[..|order|] == order;
    }
  }

  // ----- Refcounts -----

  function Holders(clients: map<string, set<int>>, uid: int): set<string> {
    set c | c in clients && uid in clients[c]
  }

  lemma HoldersAfterUpdate(clients: map<string, set<int>>, c: string, uids: set<int>, u: int)
    ensures Holders(clients[c := uids], u) == if u in uids then Holders(clients, u) + {c} else Holders(clients, u) - {c}
  {
  }

  lemma HoldersAfterDrop(clients: map<string, set<int>>, c: string, u: int)
    ensures Holders(clients - {c}, u) == Holders(clients, u) - {c}
    ensures c in Holders(clients, u) <==> c in clients && u in clients[c]
  {
  }

  /** Refcounts are positive, and count the holders plus one reference still
      to be dropped for each of `owed`. */
  ghost predicate Owing(m: Manager, owed: set<int>) {
    && (forall u :: u in m.refcounts ==> m.refcounts[u] > 0)
    && (forall u :: CountOf(m.refcounts, u) == |Holders(m.clients, u)| + if u in owed then 1 else 0)
  }

  ghost predicate Counted(m: Manager) {
    Owing(m, {}) && m.sep > 0
  }

  lemma ReleaseOwed(m: Manager, owed: set<int>, uid: int)
    requires Owing(m, owed) && uid in owed
    ensures Owing(m.Release(uid), owed - {uid})
    ensures m.ReleaseAsks(uid) == if Holders(m.clients, uid) == {} then [AskDelete(uid)] else []
    ensures m.Release(uid).Active() == if Holders(m.clients, uid) == {} then m.Active() - {uid} else m.Active()
  {
    assert CountOf(m.refcounts, uid) == |Holders(m.clients, uid)| + 1;
    assert m.Release(uid).clients == m.clients;
  }

  /** The deletions of `order`: those uids that nobody in `clients` holds. */
  function Orphans(clients: map<string, set<int>>, order: seq<int>): seq<Ask> {
    if order == [] then []
    else
      var last := order[|order| - 1];
      Orphans(clients, order[..|order| - 1]) + if Holders(clients, last) == {} then [AskDelete(last)] else []
  }

  lemma {:induction false} ReleaseAllOwed(m: Manager, owed: set<int>, order: seq<int>)
    requires Owing(m, owed)
    requires Distinct(order) && Elements(order) <= owed
    ensures Owing(m.ReleaseAll(order), owed - Elements(order))
    ensures m.ReleaseAll(order).clients == m.clients && m.ReleaseAll(order).sep == m.sep
    ensures m.ReleaseAllAsks(order) == Orphans(m.clients, order)
  {
    if order == [] {
      assert owed - Elements(order) == owed;
    } else {
      var rest, last := order[..|order| - 1], order[|order| - 1];
      LastElement(order);
      ReleaseAllOwed(m, owed, rest);
      ReleaseOwed(m.ReleaseAll(rest), owed - Elements(rest), last);
      assert owed - Elements(order) == owed - Elements(rest) - {last};
    }
  }

  lemma SubscribeCounted(m: Manager, c: string, uid: int)
    requires Counted(m)
    ensures Counted(m.Next(Subscribe(c, uid)))
  {
    var m' := m.Next(Subscribe(c, uid));
    if !m.Interested(c, uid) {
      var uids := m'.clients[c];
      assert m'.clients == m.clients[c := uids];
      forall u ensures CountOf(m'.refcounts, u) == |Holders(m.clients[c := uids], u)| {
        HoldersAfterUpdate(m.clients, c, uids, u);
        HoldersAfterDrop(m.clients, c, u);
      }
    }
  }

  lemma UnsubscribeCounted(m: Manager, c: string, uid: int)
    requires Counted(m) && m.Interested(c, uid)
    ensures var dropped := m.(clients := m.clients[c := m.clients[c] - {uid}]); Owing(dropped, {uid})
    ensures Counted(m.Next(Unsubscribe(c, uid)))
  {
    var dropped := m.(clients := m.clients[c := m.clients[c] - {uid}]);
    forall u ensures CountOf(m.refcounts, u) == |Holders(dropped.clients, u)| + if u == uid then 1 else 0 {
      HoldersAfterUpdate(m.clients, c, dropped.clients[c], u);
      HoldersAfterDrop(m.clients, c, u);
    }
    ReleaseOwed(dropped, {uid}, uid);
    assert {uid} - {uid} == {};
  }

  /** Forgetting a client leaves one reference owed for each uid it held. */
  lemma DroppedOwing(m: Manager, c: string)
    requires Counted(m) && c in m.clients
    ensures Owing(m.(clients := m.clients - {c}), m.clients[c])
  {
    var dropped := m.clients - {c};
    forall u ensures CountOf(m.refcounts, u) == |Holders(dropped, u)| + if u in m.clients[c] then 1 else 0 {
      HoldersAfterDrop(m.clients, c, u);
    }
  }

  lemma DisconnectCounted(m: Manager, c: string, order: seq<int>)
    requires Counted(m) && c in m.clients && Lists(order, m.clients[c])
    ensures Counted(m.Next(Disconnect(c, order)))
    ensures m.Next(Disconnect(c, order)).clients == m.clients - {c}
    ensures m.Asks(Disconnect(c, order)) == Orphans(m.clients - {c}, order)
  {
    DroppedOwing(m, c);
    ListsElements(order, m.clients[c]);
    ReleaseAllOwed(m.(clients := m.clients - {c}), m.clients[c], order);
  }

  /** Every operation keeps refcounts[u] equal to the number of clients holding
      u, with no zero entries. */
  lemma NextCounted(m: Manager, op: Op)
    requires Counted(m) && Legal(m, op)
    ensures Counted(m.Next(op))
  {
    match op {
      case Subscribe(c, uid) => SubscribeCounted(m, c, uid);
      case Unsubscribe(c, uid) => if m.Interested(c, uid) { UnsubscribeCounted(m, c, uid); }
      case Disconnect(c, order) => if c in m.clients { DisconnectCounted(m, c, order); }
      case SetSeparation(_) =>
    }
  }

  /** active_uids() is the union of the client sets. */
  lemma ActiveIsUnion(m: Manager, uid: int)
    requires Counted(m)
    ensures uid in m.Active() <==> exists c :: m.Interested(c, uid)
  {
    if c :| m.Interested(c, uid) {
      assert c in Holders(m.clients, uid);
    }
    if Holders(m.clients, uid) != {} {
      var c :| c in Holders(m.clients, uid);
      assert m.Interested(c, uid);
    }
  }

  // ----- Disconnecting -----

  /** Unsubscribe `c` from each uid in turn. */
  function UnsubscribeAll(m: Manager, c: string, uids: seq<int>): Manager {
    if uids == [] then m
    else UnsubscribeAll(m, c, uids[..|uids| - 1]).Next(Unsubscribe(c, uids[|uids| - 1]))
  }

  function UnsubscribeAllAsks(m: Manager, c: string, uids: seq<int>): seq<Ask> {
    if uids == [] then []
    else UnsubscribeAllAsks(m, c, uids[..|uids| - 1])
         + UnsubscribeAll(m, c, uids[..|uids| - 1]).Asks(Unsubscribe(c, uids[|uids| - 1]))
  }

  /** Unsubscribing `c` from one more uid, when the refcounts are those of
      `r`, releases that uid. */
  lemma UnsubscribeReleases(n: Manager, r: Manager, c: string, held: set<int>, uid: int)
    requires c in n.clients && n.clients[c] == held && uid in held && n.refcounts == r.refcounts
    ensures n.Next(Unsubscribe(c, uid))
         == n.(clients := n.clients[c := held - {uid}], refcounts := r.Release(uid).refcounts)
    ensures n.Asks(Unsubscribe(c, uid)) == r.ReleaseAsks(uid)
  {
  }

  lemma {:induction false} UnsubscribeAllReleases(m: Manager, c: string, uids: seq<int>)
    requires c in m.clients
    requires Distinct(uids) && Elements(uids) <= m.clients[c]
    ensures var n, r := UnsubscribeAll(m, c, uids), m.(clients := m.clients - {c}).ReleaseAll(uids);
            && n == Manager(r.refcounts, m.clients[c := m.clients[c] - Elements(uids)], m.sep)
            && UnsubscribeAllAsks(m, c, uids) == m.(clients := m.clients - {c}).ReleaseAllAsks(uids)
  {
    if uids == [] {
      assert m.clients[c] - Elements(uids) == m.clients[c];
    } else {
      var rest, last := uids[..|uids| - 1], uids[|uids| - 1];
      LastElement(uids);
      UnsubscribeAllReleases(m, c, rest);
      var held := m.clients[c] - Elements(rest);
      assert last in held && m.clients[c] - Elements(uids) == held - {last};
      var n, r := UnsubscribeAll(m, c, rest), m.(clients := m.clients - {c}).ReleaseAll(rest);
      UnsubscribeReleases(n, r, c, held, last);
      assert n.clients[c := held - {last}] == m.clients[c := held - {last}];
    }
  }

  /** A disconnect is the client unsubscribing from everything it held and then
      being forgotten: the same state, and the same DELETEs in the same order. */
  lemma DisconnectIsUnsubscribeAll(m: Manager, c: string, order: seq<int>)
    requires c in m.clients && Lists(order, m.clients[c])
    ensures var n := UnsubscribeAll(m, c, order);
            && n.clients[c := {}] == n.clients
            && m.Next(Disconnect(c, order)) == n.(clients := n.clients - {c})
            && m.Asks(Disconnect(c, order)) == UnsubscribeAllAsks(m, c, order)
  {
    ListsElements(order, m.clients[c]);
    UnsubscribeAllReleases(m, c, order);
    var n := UnsubscribeAll(m, c, order);
    assert n.clients - {c} == m.clients - {c};
    ReleaseAllFrame(m.(clients := m.clients - {c}), order);
  }

  lemma {:induction false} ReleaseAllFrame(m: Manager, uids: seq<int>)
    ensures m.ReleaseAll(uids).clients == m.clients && m.ReleaseAll(uids).sep == m.sep
  {
    if uids != [] {
      ReleaseAllFrame(m, uids[..|uids| - 1]);
    }
  }

  lemma {:induction false} OrphansOf(clients: map<string, set<int>>, order: seq<int>)
    requires Distinct(order)
    ensures var asks := Orphans(clients, order);
            && (forall i, j :: 0 <= i < j < |asks| ==> asks[i] != asks[j])
            && (forall a :: a in asks <==> a.AskDelete? && a.uid in order && Holders(clients, a.uid) == {})
  {
    if order != [] {
      OrphansOf(clients, order[..|order| - 1]);
      assert order == order[..|order| - 1] + [order[|order| - 1]];
    }
  }

  /** Who wants what after an operation: Subscribe adds its pair, whoever else
      holds the uid; Unsubscribe takes its pair away and Disconnect all of the
      client's; nothing else changes. */
  lemma InterestMoves(m: Manager, op: Op, c: string, u: int)
    ensures m.Next(op).Interested(c, u) <==>
              match op
              case Subscribe(d, v) => m.Interested(c, u) || (c == d && u == v)
              case Unsubscribe(d, v) => m.Interested(c, u) && !(c == d && u == v)
              case Disconnect(d, _) => m.Interested(c, u) && c != d
              case SetSeparation(_) => m.Interested(c, u)
    ensures c in m.Next(op).clients <==>
              match op
              case Subscribe(d, _) => c in m.clients || c == d
              case Disconnect(d, _) => c in m.clients && c != d
              case _ => c in m.clients
    ensures m.Next(op).sep == if op.SetSeparation? && op.ms > 0 then op.ms else m.sep
  {
    if op.Disconnect? {
      ReleaseAllFrame(m.(clients := m.clients - {op.client}), op.order);
    }
  }

  /** A disconnect deletes exactly the uids nobody else holds, each once. */
  lemma DisconnectDeletes(m: Manager, c: string, order: seq<int>)
    requires Counted(m) && c in m.clients && Lists(order, m.clients[c])
    ensures var asks := m.Asks(Disconnect(c, order));
            && (forall i, j :: 0 <= i < j < |asks| ==> asks[i] != asks[j])
            && (forall a :: a in asks <==> a.AskDelete? && Holders(m.clients, a.uid) == {c})
  {
    DisconnectCounted(m, c, order);
    OrphansOf(m.clients - {c}, order);
    forall u ensures Holders(m.clients, u) == {c} <==> u in order && Holders(m.clients - {c}, u) == {} {
      HoldersAfterDrop(m.clients, c, u);
    }
  }
}
