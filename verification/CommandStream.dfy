/** Whole runs of the interest manager: what the stream of commands it asks for
    looks like, and what a reader of the stream can conclude from it. */
module CommandStream {
  import opened Wire
  import opened Interest

  function After(m: Manager, ops: seq<Op>): Manager {
    if ops == [] then m else After(m, ops[..|ops| - 1]).Next(ops[|ops| - 1])
  }

  /** Everything asked for during the run, oldest first. */
  function Stream(m: Manager, ops: seq<Op>): seq<Ask> {
    if ops == [] then []
    else Stream(m, ops[..|ops| - 1]) + After(m, ops[..|ops| - 1]).Asks(ops[|ops| - 1])
  }

  ghost predicate LegalRun(m: Manager, ops: seq<Op>) {
    ops == [] || (LegalRun(m, ops[..|ops| - 1]) && Legal(After(m, ops[..|ops| - 1]), ops[|ops| - 1]))
  }

  lemma AfterExtend(m: Manager, ops: seq<Op>, op: Op)
    ensures After(m, ops + [op]) == After(m, ops).Next(op)
    ensures Stream(m, ops + [op]) == Stream(m, ops) + After(m, ops).Asks(op)
    ensures LegalRun(m, ops + [op]) <==> LegalRun(m, ops) && Legal(After(m, ops), op)
  {
    assert (ops + [op])[..|ops|] == ops;
  }

  lemma {:induction false} AfterAppend(m: Manager, a: seq<Op>, b: seq<Op>)
    ensures After(m, a + b) == After(After(m, a), b)
    decreases |b|
  {
    if b == [] {
      assert a + b == a;
    } else {
      var rest, last := b[..|b| - 1], b[|b| - 1];
      assert (a + b)[..|a + b| - 1] == a + rest && (a + b)[|a + b| - 1] == last;
      AfterAppend(m, a, rest);
    }
  }

  lemma {:induction false} StreamAppend(m: Manager, a: seq<Op>, b: seq<Op>)
    ensures Stream(m, a + b) == Stream(m, a) + Stream(After(m, a), b)
    decreases |b|
  {
    if b == [] {
      assert a + b == a;
    } else {
      var rest, last := b[..|b| - 1], b[|b| - 1];
      assert (a + b)[..|a + b| - 1] == a + rest && (a + b)[|a + b| - 1] == last;
      AfterAppend(m, a, rest);
      StreamAppend(m, a, rest);
      Associate(Stream(m, a), Stream(After(m, a), rest), After(m, a + rest).Asks(last));
    }
  }

  lemma {:induction false} LegalAppend(m: Manager, a: seq<Op>, b: seq<Op>)
    ensures LegalRun(m, a + b) <==> LegalRun(m, a) && LegalRun(After(m, a), b)
    decreases |b|
  {
    if b == [] {
      assert a + b == a;
    } else {
      var rest, last := b[..|b| - 1], b[|b| - 1];
      assert (a + b)[..|a + b| - 1] == a + rest && (a + b)[|a + b| - 1] == last;
      AfterAppend(m, a, rest);
      LegalAppend(m, a, rest);
    }
  }

  lemma {:induction false} RunCounted(m: Manager, ops: seq<Op>)
    requires Counted(m) && LegalRun(m, ops)
    ensures Counted(After(m, ops))
  {
    if ops != [] {
      RunCounted(m, ops[..|ops| - 1]);
      NextCounted(After(m, ops[..|ops| - 1]), ops[|ops| - 1]);
    }
  }

  /** The operation ends the client's interest in the uid. */
  predicate Quits(op: Op, c: string, u: int) {
    op == Unsubscribe(c, u) || (op.Disconnect? && op.client == c)
  }

  /** `c` has subscribed to `u` and neither unsubscribed nor disconnected since. */
  ghost predicate Subscribed(ops: seq<Op>, c: string, u: int) {
    exists k :: 0 <= k < |ops| && ops[k] == Subscribe(c, u) && forall j :: k < j < |ops| ==> !Quits(ops[j], c, u)
  }

  lemma SubscribedExtend(ops: seq<Op>, op: Op, c: string, u: int)
    ensures Subscribed(ops + [op], c, u) <==> op == Subscribe(c, u) || (Subscribed(ops, c, u) && !Quits(op, c, u))
  {
    var all := ops + [op];
    assert all[|ops|] == op && forall j :: 0 <= j < |ops| ==> all[j] == ops[j];
    if Subscribed(ops, c, u) && !Quits(op, c, u) {
      var k :| 0 <= k < |ops| && ops[k] == Subscribe(c, u) && forall j :: k < j < |ops| ==> !Quits(ops[j], c, u);
      assert all[k] == Subscribe(c, u);
    }
  }

  /** Over any run a client wants a uid exactly when its last word on it, since
      it last disconnected, was to subscribe. */
  lemma {:induction false} InterestIsLastWord(sep: int, ops: seq<Op>, c: string, u: int)
    ensures After(Manager(map[], map[], sep), ops).Interested(c, u) <==> Subscribed(ops, c, u)
  {
    if ops != [] {
      var rest, last := ops[..|ops| - 1], ops[|ops| - 1];
      InterestIsLastWord(sep, rest, c, u);
      InterestMoves(After(Manager(map[], map[], sep), rest), last, c, u);
      SubscribedExtend(rest, last, c, u);
      assert rest + [last] == ops;
    }
  }

  /** And the separation is the last positive one set, or the first. */
  lemma {:induction false} SeparationIsLastSet(sep: int, ops: seq<Op>)
    ensures var now := After(Manager(map[], map[], sep), ops).sep;
            || (exists k :: && 0 <= k < |ops| && ops[k] == SetSeparation(now) && now > 0
                            && forall j | k < j < |ops| :: ops[j].SetSeparation? ==> ops[j].ms <= 0)
            || (now == sep && forall j | 0 <= j < |ops| :: ops[j].SetSeparation? ==> ops[j].ms <= 0)
  {
    if ops != [] {
      var rest, last := ops[..|ops| - 1], ops[|ops| - 1];
      SeparationIsLastSet(sep, rest);
      InterestMoves(After(Manager(map[], map[], sep), rest), last, "", 0);
      if last.SetSeparation? && last.ms > 0 {
        assert ops[|ops| - 1] == SetSeparation(last.ms);
      }
    }
  }

  function Advance(uids: set<int>, ask: Ask): set<int> {
    match ask
    case AskAdd(uid) => uids + {uid}
    case AskDelete(uid) => uids - {uid}
    case AskPeriod(_) => uids
  }

  /** The set a reader of the stream ends up with. */
  function Fold(uids: set<int>, asks: seq<Ask>): set<int>
    decreases |asks|
  {
    if asks == [] then uids else Advance(Fold(uids, asks[..|asks| - 1]), asks[|asks| - 1])
  }

  predicate Fitting(uids: set<int>, ask: Ask) {
    match ask
    case AskAdd(uid) => uid !in uids
    case AskDelete(uid) => uid in uids
    case AskPeriod(_) => true
  }

  /** No ADD of a uid already in, no DELETE of one that is out. */
  predicate Toggles(uids: set<int>, asks: seq<Ask>)
    decreases |asks|
  {
    asks == []
    || (Toggles(uids, asks[..|asks| - 1]) && Fitting(Fold(uids, asks[..|asks| - 1]), asks[|asks| - 1]))
  }

  lemma {:induction false} FoldAppend(uids: set<int>, a: seq<Ask>, b: seq<Ask>)
    ensures Fold(uids, a + b) == Fold(Fold(uids, a), b)
    ensures Toggles(uids, a + b) <==> Toggles(uids, a) && Toggles(Fold(uids, a), b)
  {
    if b == [] {
      assert a + b == a;
    } else {
      var n := |b| - 1;
      assert (a + b)[..|a + b| - 1] == a + b[..n] && (a + b)[|a + b| - 1] == b[n];
      FoldAppend(uids, a, b[..n]);
    }
  }

  lemma {:induction false} ReleaseAllToggles(m: Manager, owed: set<int>, order: seq<int>)
    requires Owing(m, owed)
    requires Distinct(order) && Elements(order) <= owed
    ensures Toggles(m.Active(), m.ReleaseAllAsks(order))
    ensures Fold(m.Active(), m.ReleaseAllAsks(order)) == m.ReleaseAll(order).Active()
  {
    if order != [] {
      var rest, last := order[..|order| - 1], order[|order| - 1];
      LastElement(order);
      ReleaseAllToggles(m, owed, rest);
      ReleaseAllOwed(m, owed, rest);
      var n, left := m.ReleaseAll(rest), owed - Elements(rest);
      assert CountOf(n.refcounts, last) > 0;
      ReleaseOwed(n, left, last);
      FoldAppend(m.Active(), m.ReleaseAllAsks(rest), n.ReleaseAsks(last));
      FoldOne(n.Active(), n.ReleaseAsks(last));
    }
  }

  lemma FoldOne(uids: set<int>, asks: seq<Ask>)
    requires |asks| <= 1
    ensures Fold(uids, asks) == if asks == [] then uids else Advance(uids, asks[0])
    ensures Toggles(uids, asks) <==> asks == [] || Fitting(uids, asks[0])
  {
    if asks != [] {
      assert asks[..0] == [];
    }
  }

  lemma AsksToggle(m: Manager, op: Op)
    requires Counted(m) && Legal(m, op)
    ensures Toggles(m.Active(), m.Asks(op))
    ensures Fold(m.Active(), m.Asks(op)) == m.Next(op).Active()
  {
    match op {
      case Subscribe(c, uid) =>
        FoldOne(m.Active(), m.Asks(op));
        if m.Interested(c, uid) {
          ActiveIsUnion(m, uid);
        }
      case Unsubscribe(c, uid) =>
        FoldOne(m.Active(), m.Asks(op));
        if m.Interested(c, uid) {
          ActiveIsUnion(m, uid);
          UnsubscribeCounted(m, c, uid);
          ReleaseOwed(m.(clients := m.clients[c := m.clients[c] - {uid}]), {uid}, uid);
        }
      case Disconnect(c, order) =>
        if c in m.clients {
          DroppedOwing(m, c);
          ListsElements(order, m.clients[c]);
          ReleaseAllToggles(m.(clients := m.clients - {c}), m.clients[c], order);
        } else {
          FoldOne(m.Active(), m.Asks(op));
        }
      case SetSeparation(_) =>
        FoldOne(m.Active(), m.Asks(op));
    }
  }

  /** After every prefix of every run, folding the stream from the empty set
      gives active_uids(), and ADDs and DELETEs of a uid take turns. */
  lemma {:induction false} StreamRefinesInterest(sep: int, ops: seq<Op>)
    requires sep > 0 && LegalRun(Manager(map[], map[], sep), ops)
    ensures var m := Manager(map[], map[], sep);
            && Toggles({}, Stream(m, ops))
            && Fold({}, Stream(m, ops)) == After(m, ops).Active()
  {
    if ops != [] {
      var m, rest, last := Manager(map[], map[], sep), ops[..|ops| - 1], ops[|ops| - 1];
      StreamRefinesInterest(sep, rest);
      StartCounted(sep);
      RunCounted(m, rest);
      AsksToggle(After(m, rest), last);
      FoldAppend({}, Stream(m, rest), After(m, rest).Asks(last));
    }
  }

  lemma StartCounted(sep: int)
    requires sep > 0
    ensures Counted(Manager(map[], map[], sep))
  {
    var m := Manager(map[], map[], sep);
    forall u ensures Holders(m.clients, u) == {} {
    }
  }

  // ----- What the stream says about one uid -----

  predicate About(ask: Ask, uid: int) {
    !ask.AskPeriod? && ask.uid == uid
  }

  function Turns(asks: seq<Ask>, uid: int): seq<Ask>
    decreases |asks|
  {
    if asks == [] then []
    else Turns(asks[..|asks| - 1], uid) + if About(asks[|asks| - 1], uid) then [asks[|asks| - 1]] else []
  }

  /** Strict alternation, ADD first; the uid is in exactly after an ADD. */
  lemma {:induction false} TurnsAlternate(asks: seq<Ask>, uid: int)
    requires Toggles({}, asks)
    ensures var turns := Turns(asks, uid);
            && (forall i :: 0 <= i < |turns| ==> turns[i] == if i % 2 == 0 then AskAdd(uid) else AskDelete(uid))
            && (uid in Fold({}, asks) <==> |turns| % 2 == 1)
    decreases |asks|
  {
    if asks != [] {
      TurnsAlternate(asks[..|asks| - 1], uid);
    }
  }

  lemma CommandsAlternate(sep: int, ops: seq<Op>, uid: int)
    requires sep > 0 && LegalRun(Manager(map[], map[], sep), ops)
    ensures var m := Manager(map[], map[], sep);
            var turns := Turns(Stream(m, ops), uid);
            && (forall i :: 0 <= i < |turns| ==> turns[i] == if i % 2 == 0 then AskAdd(uid) else AskDelete(uid))
            && (|turns| % 2 == 1 <==> exists c :: After(m, ops).Interested(c, uid))
  {
    var m := Manager(map[], map[], sep);
    StreamRefinesInterest(sep, ops);
    TurnsAlternate(Stream(m, ops), uid);
    StartCounted(sep);
    RunCounted(m, ops);
    ActiveIsUnion(After(m, ops), uid);
  }

  /** No operation asks to delete a uid that some client still wants after it,
      nor to add one that nobody wants. */
  lemma NoDeleteWhileWanted(m: Manager, op: Op, uid: int)
    requires Counted(m) && Legal(m, op)
    ensures AskDelete(uid) in m.Asks(op) ==> !exists c :: m.Next(op).Interested(c, uid)
    ensures AskAdd(uid) in m.Asks(op) ==> exists c :: m.Next(op).Interested(c, uid)
  {
    NextCounted(m, op);
    ActiveIsUnion(m.Next(op), uid);
    match op {
      case Subscribe(c, _) =>
        if AskAdd(uid) in m.Asks(op) {
          assert m.Next(op).Interested(c, uid);
        }
      case Unsubscribe(c, _) =>
      case Disconnect(c, order) =>
        if c in m.clients {
          DisconnectCounted(m, c, order);
          OrphansOf(m.clients - {c}, order);
          if exists d :: m.Next(op).Interested(d, uid) {
            var d :| m.Next(op).Interested(d, uid);
            assert d in Holders(m.clients - {c}, uid);
          }
        }
      case SetSeparation(_) =>
    }
  }

  /** Every PERIOD asked for is positive, and asked for only on a change. */
  lemma PeriodsPositive(m: Manager, op: Op, ms: int)
    requires Counted(m) && Legal(m, op)
    ensures AskPeriod(ms) in m.Asks(op) ==> ms > 0 && ms != m.sep && ms == m.Next(op).sep
  {
    if op.Disconnect? && op.client in m.clients {
      DisconnectCounted(m, op.client, op.order);
      OrphansOf(m.clients - {op.client}, op.order);
    }
  }
}
