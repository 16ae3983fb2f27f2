/** scada_web/server.py: client messages turned into interest operations, the
    replay on a fresh match, and the demultiplexing of samples to sockets. */
module Server {
  import opened Wire
  import opened Interest
  import opened CommandStream
  import Gateway
  import Protocol

  // ----- Messages -----

  /** What Python's int() makes of a JSON value: a number, one of the exceptions
      that the endpoint reports back (ValueError, TypeError), or another one
      (OverflowError), which ends the session. */
  datatype Number = Int(value: int) | Raises(fatal: bool)

  /** An element of "uids": a plain value, or an object with optional members. */
  datatype Item =
    | Plain(value: Number)
    | Dict(uid: Option<Number>, periodMs: Option<Number>, minSeparationMs: Option<Number>)

  datatype Uids = Missing | NotIterable | Items(items: seq<Item>)

  datatype Action = SubscribeAction | UnsubscribeAction | SetAction | OtherAction | UnhashableAction

  datatype Message =
    | NotAnObject
    | Message(action: Action, periodMs: Option<Number>, minSeparationMs: Option<Number>, uids: Uids)

  /** How handling ends: normally, with an exception reported to the client, or
      with one that ends the session. */
  datatype End = Finished | Rejected | Crashed

  datatype Parsed<+T> = Ok(value: T) | Error(fatal: bool)

  function EndOf(fatal: bool): End {
    if fatal then Crashed else Rejected
  }

  function ErrorOf<T>(n: Number): Parsed<T>
    requires n.Raises?
  {
    Error(n.fatal)
  }

  function ParseUid(item: Item): Parsed<int> {
    match item
    case Plain(Int(n)) => Ok(n)
    case Plain(n) => ErrorOf(n)
    case Dict(Some(Int(n)), _, _) => Ok(n)
    case Dict(Some(n), _, _) => ErrorOf(n)
    case Dict(None, _, _) => Error(false)
  }

  /** The period members of one item, in the order they are evaluated. */
  function PeriodMembers(item: Item): seq<Number> {
    match item
    case Plain(_) => []
    case Dict(_, a, b) => (if a.Some? then [a.value] else []) + (if b.Some? then [b.value] else [])
  }

  function AllPeriodMembers(items: seq<Item>): seq<Number> {
    if items == [] then [] else PeriodMembers(items[0]) + AllPeriodMembers(items[1..])
  }

  /** int() of each in turn, collected into a set; the first to raise wins. */
  function Collect(numbers: seq<Number>): Parsed<set<int>> {
    if numbers == [] then Ok({})
    else match numbers[0]
      case Raises(_) => ErrorOf(numbers[0])
      case Int(n) =>
        match Collect(numbers[1..])
        case Error(e) => Error(e)
        case Ok(rest) => Ok({n} + rest)
  }

  function Positive(ms: int): Parsed<Option<int>> {
    if ms <= 0 then Error(false) else Ok(Some(ms))
  }

  function ParseNumber(n: Number): Parsed<Option<int>> {
    match n
    case Int(ms) => Positive(ms)
    case Raises(_) => ErrorOf(n)
  }

  function ParseSeparation(msg: Message): Parsed<Option<int>>
    requires msg.Message?
  {
    if msg.periodMs.Some? then ParseNumber(msg.periodMs.value)
    else if msg.minSeparationMs.Some? then ParseNumber(msg.minSeparationMs.value)
    else match msg.uids
      case NotIterable => Error(false)
      case Missing => Ok(None)
      case Items(items) =>
        match Collect(AllPeriodMembers(items))
        case Error(e) => Error(e)
        case Ok(periods) =>
          if periods == {} then Ok(None)
          else if |periods| > 1 then Error(false)
          else Positive(AllPeriodMembers(items)[0].value)
  }

  /** The leading items whose uids parse, and how the loop over them ends. */
  function UidPlan(items: seq<Item>): (seq<int>, End) {
    if items == [] then ([], Finished)
    else match ParseUid(items[0])
      case Error(fatal) => ([], EndOf(fatal))
      case Ok(uid) => var (uids, end) := UidPlan(items[1..]); ([uid] + uids, end)
  }

  function ListPlan(uids: Uids): (seq<int>, End) {
    match uids
    case Missing => ([], Finished)
    case NotIterable => ([], Rejected)
    case Items(items) => UidPlan(items)
  }

  function Subscribes(client: string, uids: seq<int>): seq<Op> {
    seq(|uids|, i requires 0 <= i < |uids| => Subscribe(client, uids[i]))
  }

  function Unsubscribes(client: string, uids: seq<int>): seq<Op> {
    seq(|uids|, i requires 0 <= i < |uids| => Unsubscribe(client, uids[i]))
  }

  function Separates(ms: Option<int>): seq<Op> {
    if ms.Some? then [SetSeparation(ms.value)] else []
  }

  /** The interest operations a message carries out, and how it ends. */
  function Plan(client: string, msg: Message): (seq<Op>, End) {
    if msg.NotAnObject? then ([], Crashed)
    else match msg.action
      case SubscribeAction =>
        (match ParseSeparation(msg)
         case Error(fatal) => ([], EndOf(fatal))
         case Ok(ms) =>
           var (uids, end) := ListPlan(msg.uids);
           (Separates(ms) + Subscribes(client, uids), end))
      case UnsubscribeAction => var (uids, end) := ListPlan(msg.uids); (Unsubscribes(client, uids), end)
      case SetAction =>
        (match ParseSeparation(msg)
         case Error(fatal) => ([], EndOf(fatal))
         case Ok(None) => ([], Rejected)
         case Ok(Some(ms)) => ([SetSeparation(ms)], Finished))
      case OtherAction => ([], Finished)
      case UnhashableAction => ([], Rejected)
  }

  // ----- What plans amount to -----

  lemma {:induction false} CollectOf(numbers: seq<Number>)
    ensures Collect(numbers).Ok? <==> forall i :: 0 <= i < |numbers| ==> numbers[i].Int?
    ensures Collect(numbers).Ok? ==>
              forall i :: 0 <= i < |numbers| ==> numbers[i].value in Collect(numbers).value
    ensures Collect(numbers).Ok? ==> (Collect(numbers).value == {} <==> numbers == [])
    ensures Collect(numbers).Ok? && numbers != [] ==>
              (|Collect(numbers).value| == 1 <==> forall i :: 0 <= i < |numbers| ==> numbers[i] == numbers[0])
  {
    if numbers != [] {
      CollectOf(numbers[1..]);
    }
  }

  /** The numbers that determine the separation a message asks for. */
  function Given(msg: Message): seq<Number>
    requires msg.Message?
  {
    if msg.periodMs.Some? then [msg.periodMs.value]
    else if msg.minSeparationMs.Some? then [msg.minSeparationMs.value]
    else if msg.uids.Items? then AllPeriodMembers(msg.uids.items)
    else []
  }

  lemma {:induction false} PeriodMembersOf(items: seq<Item>, n: Number)
    ensures n in AllPeriodMembers(items)
         <==> exists i :: 0 <= i < |items| && items[i].Dict?
                && (items[i].periodMs == Some(n) || items[i].minSeparationMs == Some(n))
  {
    if items != [] {
      PeriodMembersOf(items[1..], n);
      assert items == [items[0]] + items[1..];
      assert n in PeriodMembers(items[0])
        <==> items[0].Dict? && (items[0].periodMs == Some(n) || items[0].minSeparationMs == Some(n));
      if n in AllPeriodMembers(items[1..]) {
        var i :| 0 <= i < |items| - 1 && items[1..][i].Dict?
              && (items[1..][i].periodMs == Some(n) || items[1..][i].minSeparationMs == Some(n));
        assert items[i + 1] == items[1..][i];
      }
    }
  }

  /** The numbers that count are the message's own period_ms, failing that its
      min_separation_ms, and failing both those of its items. */
  lemma GivenOf(msg: Message, n: Number)
    requires msg.Message?
    ensures n in Given(msg) <==>
              if msg.periodMs.Some? then n == msg.periodMs.value
              else if msg.minSeparationMs.Some? then n == msg.minSeparationMs.value
              else
                msg.uids.Items?
                && exists i :: 0 <= i < |msg.uids.items| && msg.uids.items[i].Dict?
                     && (msg.uids.items[i].periodMs == Some(n) || msg.uids.items[i].minSeparationMs == Some(n))
  {
    if msg.uids.Items? {
      PeriodMembersOf(msg.uids.items, n);
    }
  }

  /** A separation is looked for among the uids, and they cannot be iterated. */
  predicate Unlistable(msg: Message)
    requires msg.Message?
  {
    msg.periodMs.None? && msg.minSeparationMs.None? && msg.uids.NotIterable?
  }

  /** `fatal` is what the first number that int() refuses, if any, comes to. */
  ghost predicate FirstRefusal(numbers: seq<Number>, fatal: bool) {
    exists i :: 0 <= i < |numbers| && numbers[i] == Raises(fatal) && forall j :: 0 <= j < i ==> numbers[j].Int?
  }

  predicate AllNumbers(numbers: seq<Number>) {
    forall i :: 0 <= i < |numbers| ==> numbers[i].Int?
  }

  lemma {:induction false} CollectRefuses(numbers: seq<Number>, fatal: bool)
    ensures Collect(numbers) == Error(fatal) <==> FirstRefusal(numbers, fatal)
    ensures Collect(numbers).Error? <==> !AllNumbers(numbers)
  {
    if numbers != [] {
      var rest := numbers[1..];
      CollectRefuses(rest, fatal);
      assert forall i :: 0 < i < |numbers| ==> numbers[i] == rest[i - 1];
      if numbers[0].Int? && FirstRefusal(rest, fatal) {
        var i :| 0 <= i < |rest| && rest[i] == Raises(fatal) && forall j :: 0 <= j < i ==> rest[j].Int?;
        assert numbers[i + 1] == Raises(fatal);
      }
      if numbers[0].Int? && FirstRefusal(numbers, fatal) {
        var i :| 0 <= i < |numbers| && numbers[i] == Raises(fatal) && forall j :: 0 <= j < i ==> numbers[j].Int?;
        assert rest[i - 1] == Raises(fatal);
        assert forall j :: 0 <= j < i - 1 ==> rest[j] == numbers[j + 1];
      }
    }
  }

  /** A separation is accepted exactly when some member gives one, every member
      that counts gives the same one, and it is positive. */
  lemma SeparationAccepted(msg: Message, ms: int)
    requires msg.Message?
    ensures ParseSeparation(msg) == Ok(Some(ms))
         <==> Given(msg) != [] && ms > 0 && forall i :: 0 <= i < |Given(msg)| ==> Given(msg)[i] == Int(ms)
  {
    var given := Given(msg);
    CollectOf(given);
    if given != [] && forall i :: 0 <= i < |given| ==> given[i] == Int(ms) {
      assert given[0] == Int(ms);
    }
    if msg.periodMs.None? && msg.minSeparationMs.None? && given != [] && Collect(given).Ok? {
      assert given[0].value in Collect(given).value;
      assert |Collect(given).value| >= 1;
    }
  }

  /** None is asked for exactly when no member gives one. */
  lemma SeparationAbsent(msg: Message)
    requires msg.Message?
    ensures ParseSeparation(msg) == Ok(None) <==> Given(msg) == [] && !Unlistable(msg)
  {
    CollectOf(Given(msg));
  }

  /** And the message fails in every other case: a number that int() refuses
      decides how; else the uids cannot be iterated, or the numbers disagree or
      are not positive, and that is reported back. */
  lemma SeparationRefused(msg: Message, fatal: bool)
    requires msg.Message?
    ensures ParseSeparation(msg) == Error(fatal) <==>
              var given := Given(msg);
              || FirstRefusal(given, fatal)
              || (!fatal && AllNumbers(given)
                  && (Unlistable(msg)
                      || exists i :: 0 <= i < |given| && (given[i] != given[0] || given[i].value <= 0)))
  {
    var given := Given(msg);
    CollectOf(given);
    CollectRefuses(given, fatal);
    SeparationAbsent(msg);
    if given != [] && AllNumbers(given) {
      SeparationAccepted(msg, given[0].value);
      if msg.periodMs.None? && msg.minSeparationMs.None? {
        assert given[0].value in Collect(given).value;
      }
    }
  }

  /** What the message's members ask for: the three cases together. */
  ghost predicate AsksFor(msg: Message, asked: Parsed<Option<int>>)
    requires msg.Message?
  {
    var given := Given(msg);
    match asked
    case Ok(Some(ms)) => given != [] && ms > 0 && forall i :: 0 <= i < |given| ==> given[i] == Int(ms)
    case Ok(None) => given == [] && !Unlistable(msg)
    case Error(fatal) =>
      || FirstRefusal(given, fatal)
      || (!fatal && AllNumbers(given)
          && (Unlistable(msg)
              || exists i :: 0 <= i < |given| && (given[i] != given[0] || given[i].value <= 0)))
  }

  lemma SeparationAsked(msg: Message, asked: Parsed<Option<int>>)
    requires msg.Message?
    ensures ParseSeparation(msg) == asked <==> AsksFor(msg, asked)
  {
    match asked {
      case Ok(Some(ms)) => SeparationAccepted(msg, ms);
      case Ok(None) => SeparationAbsent(msg);
      case Error(fatal) => SeparationRefused(msg, fatal);
    }
  }

  /** No number among the item's members is refused. */
  predicate Numeric(item: Item) {
    item.Dict? ==>
      && !(item.periodMs.Some? && item.periodMs.value.Raises?)
      && !(item.minSeparationMs.Some? && item.minSeparationMs.value.Raises?)
  }

  lemma {:induction false} MembersSplit(items: seq<Item>, k: nat)
    requires k <= |items|
    ensures AllPeriodMembers(items) == AllPeriodMembers(items[..k]) + AllPeriodMembers(items[k..])
  {
    if k > 0 {
      assert items[..k][1..] == items[1..][..k - 1] && items[1..][k - 1..] == items[k..];
      MembersSplit(items[1..], k - 1);
      Associate(PeriodMembers(items[0]), AllPeriodMembers(items[1..][..k - 1]), AllPeriodMembers(items[k..]));
    } else {
      EmptyPrefix(AllPeriodMembers(items));
      assert items[0..] == items;
    }
  }

  lemma {:induction false} NumericMembers(items: seq<Item>)
    requires forall i :: 0 <= i < |items| ==> Numeric(items[i])
    ensures AllNumbers(AllPeriodMembers(items))
  {
    if items != [] {
      NumericMembers(items[1..]);
      assert Numeric(items[0]);
    }
  }

  /** The first refusal in reading order decides: item by item, and period_ms
      before min_separation_ms. */
  lemma RefusalInOrder(msg: Message, k: nat, fatal: bool)
    requires msg.Message? && msg.periodMs == msg.minSeparationMs == None && msg.uids.Items?
    requires k < |msg.uids.items| && msg.uids.items[k].Dict?
    requires forall i :: 0 <= i < k ==> Numeric(msg.uids.items[i])
    requires var item := msg.uids.items[k];
             if item.periodMs.Some? && item.periodMs.value.Raises? then item.periodMs.value.fatal == fatal
             else item.minSeparationMs == Some(Raises(fatal))
    ensures AsksFor(msg, Error(fatal))
  {
    var items := msg.uids.items;
    MembersSplit(items, k);
    NumericMembers(items[..k]);
    HeadRefuses(items[k..], fatal);
    RefusalAfter(AllPeriodMembers(items[..k]), AllPeriodMembers(items[k..]), fatal);
  }

  lemma HeadRefuses(items: seq<Item>, fatal: bool)
    requires items != [] && items[0].Dict?
    requires if items[0].periodMs.Some? && items[0].periodMs.value.Raises? then items[0].periodMs.value.fatal == fatal
             else items[0].minSeparationMs == Some(Raises(fatal))
    ensures FirstRefusal(AllPeriodMembers(items), fatal)
  {
    var mine, all := PeriodMembers(items[0]), AllPeriodMembers(items);
    var j := if items[0].periodMs == Some(Raises(fatal)) then 0 else |mine| - 1;
    assert mine[j] == Raises(fatal) && forall i :: 0 <= i < j ==> mine[i].Int?;
    assert all[j] == mine[j] && forall i :: 0 <= i < j ==> all[i] == mine[i];
  }

  lemma RefusalAfter(head: seq<Number>, tail: seq<Number>, fatal: bool)
    requires AllNumbers(head) && FirstRefusal(tail, fatal)
    ensures FirstRefusal(head + tail, fatal)
  {
    var all := head + tail;
    var j :| 0 <= j < |tail| && tail[j] == Raises(fatal) && forall i :: 0 <= i < j ==> tail[i].Int?;
    assert all[|head| + j] == Raises(fatal);
    forall i | 0 <= i < |head| + j ensures all[i].Int? {
      assert i >= |head| ==> all[i] == tail[i - |head|];
    }
  }

  lemma AcceptedIsPositive(msg: Message)
    requires msg.Message? && ParseSeparation(msg).Ok? && ParseSeparation(msg).value.Some?
    ensures ParseSeparation(msg).value.value > 0
  {
    SeparationAccepted(msg, ParseSeparation(msg).value.value);
  }

  /** The item is, or names, this uid. */
  predicate Names(item: Item, uid: int) {
    item == Plain(Int(uid)) || (item.Dict? && item.uid == Some(Int(uid)))
  }

  /** The item names no uid: int() refuses it, or an object has no uid at all,
      which is a KeyError. */
  predicate Unnamed(item: Item, fatal: bool) {
    match item
    case Plain(n) => n == Raises(fatal)
    case Dict(uid, _, _) => if uid.None? then !fatal else uid == Some(Raises(fatal))
  }

  lemma ParseUidOf(item: Item)
    ensures forall uid :: ParseUid(item) == Ok(uid) <==> Names(item, uid)
    ensures forall fatal :: ParseUid(item) == Error(fatal) <==> Unnamed(item, fatal)
  {
  }

  lemma {:induction false} UidPlanParses(items: seq<Item>)
    ensures var (uids, end) := UidPlan(items);
            && |uids| <= |items|
            && (forall i :: 0 <= i < |uids| ==> ParseUid(items[i]) == Ok(uids[i]))
            && (|uids| == |items| ==> end == Finished)
            && (|uids| < |items| ==> ParseUid(items[|uids|]).Error? && end == EndOf(ParseUid(items[|uids|]).fatal))
  {
    if items != [] {
      UidPlanParses(items[1..]);
      if ParseUid(items[0]).Ok? {
        var rest, uids := UidPlan(items[1..]).0, UidPlan(items).0;
        forall i | 0 <= i < |uids| ensures ParseUid(items[i]) == Ok(uids[i]) {
          if i > 0 {
            assert items[1..][i - 1] == items[i];
          }
        }
        if |uids| < |items| {
          assert items[1..][|rest|] == items[|uids|];
        }
      }
    }
  }

  /** The plan stops at the first item that names no uid, and only there. */
  lemma UidPlanIsPrefix(items: seq<Item>)
    ensures var (uids, end) := UidPlan(items);
            && |uids| <= |items|
            && (forall i :: 0 <= i < |uids| ==> Names(items[i], uids[i]))
            && (end == Finished <==> |uids| == |items|)
            && (|uids| < |items| ==> Unnamed(items[|uids|], end == Crashed))
  {
    UidPlanParses(items);
    var uids := UidPlan(items).0;
    forall i | 0 <= i < |uids| ensures Names(items[i], uids[i]) {
      ParseUidOf(items[i]);
    }
    if |uids| < |items| {
      ParseUidOf(items[|uids|]);
    }
  }

  /** No item is skipped: a list of items that all name uids is taken whole. */
  lemma {:induction false} UidPlanIsWhole(items: seq<Item>, uids: seq<int>)
    requires |uids| == |items| && forall i :: 0 <= i < |items| ==> Names(items[i], uids[i])
    ensures UidPlan(items) == (uids, Finished)
  {
    UidPlanIsPrefix(items);
    var planned := UidPlan(items).0;
    assert |planned| < |items| ==> Names(items[|planned|], uids[|planned|]);
    assert planned == uids;
  }

  ghost predicate Session(client: string, op: Op) {
    match op
    case SetSeparation(ms) => ms > 0
    case Subscribe(c, _) => c == client
    case Unsubscribe(c, _) => c == client
    case Disconnect(_, _) => false
  }

  /** Whatever the message, its operations are this client's own, a separation
      only ever comes first, and it is positive. */
  lemma PlanIsSession(client: string, msg: Message)
    ensures var ops := Plan(client, msg).0;
            forall i :: 0 <= i < |ops| ==> Session(client, ops[i]) && (ops[i].SetSeparation? ==> i == 0)
  {
    if msg.Message? && ParseSeparation(msg).Ok? && ParseSeparation(msg).value.Some? {
      SeparationAccepted(msg, ParseSeparation(msg).value.value);
    }
  }

  /** `ops` does the same to the leading items, each naming its uid, and the
      message ends there: with the list, or with an item that names none. */
  ghost predicate TakesPrefix(ops: seq<Op>, items: seq<Item>, op: int -> Op, end: End) {
    && |ops| <= |items|
    && (forall i :: 0 <= i < |ops| ==> exists uid :: Names(items[i], uid) && ops[i] == op(uid))
    && (end == Finished <==> |ops| == |items|)
    && (|ops| < |items| ==> Unnamed(items[|ops|], end == Crashed))
  }

  /** What a message does to its uids. */
  ghost predicate TakesUids(ops: seq<Op>, uids: Uids, op: int -> Op, end: End) {
    match uids
    case Missing => ops == [] && end == Finished
    case NotIterable => ops == [] && end == Rejected
    case Items(items) => TakesPrefix(ops, items, op, end)
  }

  lemma ListPlanTakes(uids: Uids, op: int -> Op)
    ensures var (planned, end) := ListPlan(uids);
            TakesUids(seq(|planned|, i requires 0 <= i < |planned| => op(planned[i])), uids, op, end)
  {
    if uids.Items? {
      UidPlanIsPrefix(uids.items);
    }
  }

  /** A subscribe message, even one that fails midway: if its separation is
      refused nothing changes; otherwise the separation is set, if given, and the
      items before the first that names no uid are subscribed to. */
  lemma SubscribeIsPrefix(client: string, msg: Message, asked: Parsed<Option<int>>)
    requires msg.Message? && msg.action.SubscribeAction? && AsksFor(msg, asked)
    ensures var (ops, end) := Plan(client, msg);
            match asked
            case Error(fatal) => ops == [] && end == if fatal then Crashed else Rejected
            case Ok(None) => TakesUids(ops, msg.uids, uid => Subscribe(client, uid), end)
            case Ok(Some(ms)) =>
              && ops != [] && ops[0] == SetSeparation(ms)
              && TakesUids(ops[1..], msg.uids, uid => Subscribe(client, uid), end)
  {
    SeparationAsked(msg, asked);
    var subscribe := uid => Subscribe(client, uid);
    var planned := ListPlan(msg.uids).0;
    ListPlanTakes(msg.uids, subscribe);
    assert Subscribes(client, planned) == seq(|planned|, i requires 0 <= i < |planned| => subscribe(planned[i]));
    if asked.Ok? && asked.value.Some? {
      assert Plan(client, msg).0[1..] == Subscribes(client, planned);
    } else if asked.Ok? {
      EmptyPrefix(Subscribes(client, planned));
    }
  }

  /** In particular the ordinary message, a list of uids and no separation, is
      taken whole and finishes. */
  lemma OrdinarySubscribe(client: string, msg: Message, uids: seq<int>)
    requires msg.Message? && msg.action.SubscribeAction? && msg.periodMs == msg.minSeparationMs == None
    requires msg.uids.Items? && |msg.uids.items| == |uids|
    requires forall i :: 0 <= i < |uids| ==>
               msg.uids.items[i] == Plain(Int(uids[i])) || msg.uids.items[i] == Dict(Some(Int(uids[i])), None, None)
    ensures var (ops, end) := Plan(client, msg);
            end == Finished && |ops| == |uids| && forall i :: 0 <= i < |ops| ==> ops[i] == Subscribe(client, uids[i])
  {
    var given := Given(msg);
    if given != [] {
      GivenOf(msg, given[0]);
      assert false;
    }
    SeparationAsked(msg, Ok(None));
    UidPlanIsWhole(msg.uids.items, uids);
    EmptyPrefix(Subscribes(client, uids));
  }

  /** An unsubscribe message likewise; it never touches the separation. */
  lemma UnsubscribeIsPrefix(client: string, msg: Message)
    requires msg.Message? && msg.action.UnsubscribeAction?
    ensures var (ops, end) := Plan(client, msg);
            TakesUids(ops, msg.uids, uid => Unsubscribe(client, uid), end)
  {
    var unsubscribe := uid => Unsubscribe(client, uid);
    var planned := ListPlan(msg.uids).0;
    ListPlanTakes(msg.uids, unsubscribe);
    assert Unsubscribes(client, planned) == seq(|planned|, i requires 0 <= i < |planned| => unsubscribe(planned[i]));
  }

  /** A set message sets what it asks for, and is refused if that is nothing. */
  lemma SetIsExact(client: string, msg: Message, asked: Parsed<Option<int>>)
    requires msg.Message? && msg.action.SetAction? && AsksFor(msg, asked)
    ensures Plan(client, msg) ==
              match asked
              case Ok(Some(ms)) => ([SetSeparation(ms)], Finished)
              case Ok(None) => ([], Rejected)
              case Error(fatal) => ([], if fatal then Crashed else Rejected)
  {
    SeparationAsked(msg, asked);
  }

  /** Whatever else is sent changes nothing: an action that is not known is
      ignored, one that cannot be looked up is reported back, and a message that
      is no object ends the session. */
  lemma OtherMessages(client: string, msg: Message)
    requires msg.NotAnObject? || msg.action.OtherAction? || msg.action.UnhashableAction?
    ensures Plan(client, msg).0 == []
    ensures Plan(client, msg).1.Crashed? <==> msg.NotAnObject?
    ensures Plan(client, msg).1.Rejected? <==> msg.Message? && msg.action.UnhashableAction?
  {
  }

  lemma PlanInTwo(m: Manager, client: string, ms: Option<int>, uids: seq<int>)
    ensures var ops := Separates(ms) + Subscribes(client, uids);
            && After(m, ops) == After(After(m, Separates(ms)), Subscribes(client, uids))
            && Stream(m, ops) == Stream(m, Separates(ms)) + Stream(After(m, Separates(ms)), Subscribes(client, uids))
  {
    AfterAppend(m, Separates(ms), Subscribes(client, uids));
    StreamAppend(m, Separates(ms), Subscribes(client, uids));
  }

  lemma OneSubscribe(m: Manager, asked: seq<Ask>, client: string, uids: seq<int>, i: nat)
    requires i < |uids|
    ensures var ops, next := Subscribes(client, uids[..i]), Subscribes(client, uids[..i + 1]);
            && After(m, next) == After(m, ops).Next(Subscribe(client, uids[i]))
            && asked + Stream(m, next) == asked + Stream(m, ops) + After(m, ops).Asks(Subscribe(client, uids[i]))
  {
    AfterExtend(m, Subscribes(client, uids[..i]), Subscribe(client, uids[i]));
    assert Subscribes(client, uids[..i + 1]) == Subscribes(client, uids[..i]) + [Subscribe(client, uids[i])];
    var ops := Subscribes(client, uids[..i]);
    Associate(asked, Stream(m, ops), After(m, ops).Asks(Subscribe(client, uids[i])));
  }

  lemma OneUnsubscribe(m: Manager, asked: seq<Ask>, client: string, uids: seq<int>, i: nat)
    requires i < |uids|
    ensures var ops, next := Unsubscribes(client, uids[..i]), Unsubscribes(client, uids[..i + 1]);
            && After(m, next) == After(m, ops).Next(Unsubscribe(client, uids[i]))
            && asked + Stream(m, next) == asked + Stream(m, ops) + After(m, ops).Asks(Unsubscribe(client, uids[i]))
  {
    AfterExtend(m, Unsubscribes(client, uids[..i]), Unsubscribe(client, uids[i]));
    assert Unsubscribes(client, uids[..i + 1]) == Unsubscribes(client, uids[..i]) + [Unsubscribe(client, uids[i])];
    var ops := Unsubscribes(client, uids[..i]);
    Associate(asked, Stream(m, ops), After(m, ops).Asks(Unsubscribe(client, uids[i])));
  }

  // ----- The server -----

  function Filter(sockets: seq<string>, m: Manager, uid: int): seq<string> {
    if sockets == [] then []
    else Filter(sockets[..|sockets| - 1], m, uid)
         + if m.Interested(sockets[|sockets| - 1], uid) then [sockets[|sockets| - 1]] else []
  }

  function Remove(sockets: seq<string>, client: string): seq<string> {
    if sockets == [] then []
    else Remove(sockets[..|sockets| - 1], client)
         + if sockets[|sockets| - 1] == client then [] else [sockets[|sockets| - 1]]
  }

  const VALUE_REQUEST_TOPIC := "PLC::ValueRequestTopic"

  class WebServer {
    const interest: InterestManager
    var sockets: seq<string>

    constructor (interest: InterestManager)
      ensures this.interest == interest && sockets == []
    {
      this.interest := interest;
      sockets := [];
    }

    method HandleWsMessage(client: string, msg: Message) returns (end: End)
      modifies interest
      ensures end == Plan(client, msg).1
      ensures interest.View() == After(old(interest.View()), Plan(client, msg).0)
      ensures interest.asked == old(interest.asked) + Stream(old(interest.View()), Plan(client, msg).0)
    {
      if msg.NotAnObject? {
        return Crashed;
      }
      match msg.action {
        case SubscribeAction =>
          end := HandleSubscribe(client, msg);
        case UnsubscribeAction =>
          end := UnsubscribeEach(client, msg.uids);
        case SetAction =>
          var parsed := ParseSeparation(msg);
          if parsed.Error? {
            return EndOf(parsed.fatal);
          }
          if parsed.value.None? {
            return Rejected;
          }
          AcceptedIsPositive(msg);
          ApplySeparation(parsed.value);
          end := Finished;
        case OtherAction =>
          end := Finished;
        case UnhashableAction =>
          end := Rejected;
      }
    }

    method HandleSubscribe(client: string, msg: Message) returns (end: End)
      requires msg.Message? && msg.action.SubscribeAction?
      modifies interest
      ensures end == Plan(client, msg).1
      ensures interest.View() == After(old(interest.View()), Plan(client, msg).0)
      ensures interest.asked == old(interest.asked) + Stream(old(interest.View()), Plan(client, msg).0)
    {
      var parsed := ParseSeparation(msg);
      if parsed.Error? {
        return EndOf(parsed.fatal);
      }
      if parsed.value.Some? {
        AcceptedIsPositive(msg);
      }
      ghost var ops, uids := Separates(parsed.value), ListPlan(msg.uids).0;
      ghost var m, before := interest.View(), interest.asked;
      assert Plan(client, msg) == (ops + Subscribes(client, uids), ListPlan(msg.uids).1);
      PlanInTwo(m, client, parsed.value, uids);
      ApplySeparation(parsed.value);
      ghost var n := interest.View();
      end := SubscribeEach(client, msg.uids);
      Associate(before, Stream(m, ops), Stream(n, Subscribes(client, uids)));
    }

    /** set_min_separation with an accepted value, if any; it does not raise. */
    method ApplySeparation(ms: Option<int>)
      requires ms.Some? ==> ms.value > 0
      modifies interest
      ensures interest.View() == After(old(interest.View()), Separates(ms))
      ensures interest.asked == old(interest.asked) + Stream(old(interest.View()), Separates(ms))
    {
      if ms.Some? {
        assert Separates(ms)[..0] == [];
        var raised := interest.SetMinSeparation(ms.value);
        assert !raised;
      }
    }

    method SubscribeEach(client: string, uids: Uids) returns (end: End)
      modifies interest
      ensures end == ListPlan(uids).1
      ensures interest.View() == After(old(interest.View()), Subscribes(client, ListPlan(uids).0))
      ensures interest.asked
           == old(interest.asked) + Stream(old(interest.View()), Subscribes(client, ListPlan(uids).0))
    {
      if !uids.Items? {
        return if uids.Missing? then Finished else Rejected;
      }
      var items := uids.items;
      ghost var plan, m := UidPlan(items).0, interest.View();
      UidPlanParses(items);
      for i := 0 to |items|
        invariant i <= |plan|
        invariant interest.View() == After(m, Subscribes(client, plan[..i]))
        invariant interest.asked == old(interest.asked) + Stream(m, Subscribes(client, plan[..i]))
      {
        var parsed := ParseUid(items[i]);
        if parsed.Error? {
          assert plan[..i] == plan;
          return EndOf(parsed.fatal);
        }
        OneSubscribe(m, old(interest.asked), client, plan, i);
        interest.ClientSubscribe(client, parsed.value);
      }
      assert plan[..|items|] == plan;
      return Finished;
    }

    method UnsubscribeEach(client: string, uids: Uids) returns (end: End)
      modifies interest
      ensures end == ListPlan(uids).1
      ensures interest.View() == After(old(interest.View()), Unsubscribes(client, ListPlan(uids).0))
      ensures interest.asked
           == old(interest.asked) + Stream(old(interest.View()), Unsubscribes(client, ListPlan(uids).0))
    {
      if !uids.Items? {
        return if uids.Missing? then Finished else Rejected;
      }
      var items := uids.items;
      ghost var plan, m := UidPlan(items).0, interest.View();
      UidPlanParses(items);
      for i := 0 to |items|
        invariant i <= |plan|
        invariant interest.View() == After(m, Unsubscribes(client, plan[..i]))
        invariant interest.asked == old(interest.asked) + Stream(m, Unsubscribes(client, plan[..i]))
      {
        var parsed := ParseUid(items[i]);
        if parsed.Error? {
          assert plan[..i] == plan;
          return EndOf(parsed.fatal);
        }
        OneUnsubscribe(m, old(interest.asked), client, plan, i);
        interest.ClientUnsubscribe(client, parsed.value);
      }
      assert plan[..|items|] == plan;
      return Finished;
    }

    /** The accept path: the socket is registered under a new client id. */
    method Connect(client: string)
      requires client !in sockets
      modifies this
      ensures sockets == old(sockets) + [client]
    {
      sockets := sockets + [client];
    }

    /** The finally clause: forget the socket, then the client's interest. */
    method Close(client: string, order: seq<int>)
      requires Legal(interest.View(), Disconnect(client, order))
      modifies this, interest
      ensures sockets == Remove(old(sockets), client)
      ensures interest.View() == old(interest.View()).Next(Disconnect(client, order))
      ensures interest.asked == old(interest.asked) + old(interest.View()).Asks(Disconnect(client, order))
    {
      sockets := Remove(sockets, client);
      interest.ClientDisconnect(client, order);
    }

    /** The sockets a sample of `uid` is sent to. */
    method OnDdsSample(uid: int) returns (interested: seq<string>)
      ensures interested == Filter(sockets, interest.View(), uid)
    {
      interested := [];
      for i := 0 to |sockets|
        invariant interested == Filter(sockets[..i], interest.View(), uid)
      {
        assert sockets[..i + 1][..i] == sockets[..i];
        if sockets[i] in interest.clients && uid in interest.clients[sockets[i]] {
          interested := interested + [sockets[i]];
        }
      }
      assert sockets[..|sockets|] == sockets;
    }

    /** `order` is reconcile()'s sorted list of the active uids. The senders'
        calls are logged with the manager's own. */
    method OnPublicationMatched(topic: string, status: Gateway.Status, order: seq<int>)
      requires Lists(order, interest.View().Active()) && Protocol.Ascending(order)
      modifies interest`asked
      ensures interest.asked == old(interest.asked)
           + if topic == VALUE_REQUEST_TOPIC && Gateway.Triggers(status)
             then Protocol.Replay(interest.View(), order) else []
    {
      if topic != VALUE_REQUEST_TOPIC {
        return;
      }
      if status.change <= 0 {
        return;
      }
      if status.current != status.change {
        return;
      }
      interest.asked := interest.asked + [AskPeriod(interest.minSeparationMs)];
      for i := 0 to |order|
        invariant interest.asked
               == old(interest.asked) + [AskPeriod(interest.minSeparationMs)] + Protocol.Adds(order[..i])
      {
        interest.asked := interest.asked + [AskAdd(order[i])];
        assert Protocol.Adds(order[..i + 1]) == Protocol.Adds(order[..i]) + [AskAdd(order[i])];
      }
      assert order[..|order|] == order;
    }
  }
}
