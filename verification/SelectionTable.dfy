/** scada_select/src/SelectionTable: which uids are selected, and the global
    minimum separation that decimates them. Times are nanoseconds of a steady
    clock. */
module Selection {
  import opened Wire

  const NANOS_PER_MS := 1_000_000

  const MAX_UID_RANGE_SIZE := 100_000

  /** The pre-enabled range that start-up accepts. */
  predicate ValidRange(low: Int32, high: Int32) {
    low <= high && high - low + 1 <= MAX_UID_RANGE_SIZE
  }

  datatype TagState = TagState(lastEmitted: int, hasEmitted: bool)

  const NEVER_EMITTED := TagState(0, false)

  predicate InSpan(uid: int, low: int, end: int) {
    low <= uid < end
  }

  /** Newly selected uids low, ..., end - 1. */
  function Fresh(low: Int32, end: int): map<Int32, TagState> {
    map uid: Int32 | InSpan(uid, low, end) :: NEVER_EMITTED
  }

  /** The table as a value: what the class below is specified by. */
  datatype Table = Table(subs: map<Int32, TagState>, defaultSep: UInt32, sep: UInt32) {

    function Add(uid: Int32): Table {
      if uid in subs then this else this.(subs := subs[uid := NEVER_EMITTED])
    }

    function Erase(uid: Int32): Table {
      this.(subs := subs - {uid})
    }

    function AddRange(low: Int32, high: Int32): Table {
      this.(subs := Fresh(low, high + 1) + subs)
    }

    function SetPeriod(ms: UInt32): Table {
      this.(sep := if ms == 0 then defaultSep else ms)
    }

    /** The separation in force, as a duration. */
    function Gap(): int {
      sep * NANOS_PER_MS
    }

    /** Whether a value sample of `uid` arriving at `now` is forwarded. */
    predicate Due(uid: Int32, now: int) {
      && uid in subs
      && (subs[uid].hasEmitted && sep != 0 ==> now - subs[uid].lastEmitted >= Gap())
    }

    function Decide(uid: Int32, now: int): Table {
      if Due(uid, now) then this.(subs := subs[uid := TagState(now, true)]) else this
    }

    /** ControlPlane::handle, as far as the table is concerned. */
    function Handle(command: Command): Table {
      match command
      case Add(uid) => Add(uid)
      case Delete(uid) => Erase(uid)
      case Metadata(_) => this
      case Period(ms) => SetPeriod(ms)
    }

    /** All of `commands`, first to last. */
    function HandleAll(commands: seq<Command>): Table
      decreases |commands|
    {
      if commands == [] then this else Handle(commands[0]).HandleAll(commands[1..])
    }
  }

  function EmptyTable(defaultSep: UInt32): Table {
    Table(map[], defaultSep, defaultSep)
  }

  lemma {:induction false} HandleAllAppend(t: Table, a: seq<Command>, b: seq<Command>)
    ensures t.HandleAll(a + b) == t.HandleAll(a).HandleAll(b)
    decreases |a|
  {
    if a == [] {
      assert a + b == b;
    } else {
      assert (a + b)[0] == a[0] && (a + b)[1..] == a[1..] + b;
      HandleAllAppend(t.Handle(a[0]), a[1..], b);
    }
  }

  lemma HandleOne(t: Table, commands: seq<Command>)
    requires |commands| <= 1
    ensures t.HandleAll(commands) == if commands == [] then t else t.Handle(commands[0])
  {
    if commands != [] {
      assert commands[1..] == [];
    }
  }

  /** A range is its uids added one by one, and keeps what was selected; an
      inverted one adds nothing. */
  lemma AddRangeIsAdds(t: Table, low: Int32, high: Int32)
    ensures low > high ==> t.AddRange(low, high) == t
    ensures low == high ==> t.AddRange(low, high) == t.Add(high)
    ensures low < high ==> t.AddRange(low, high) == t.AddRange(low, high - 1).Add(high)
  {
    if low > high {
      assert Fresh(low, high + 1) + t.subs == t.subs;
    } else if low == high {
      assert Fresh(low, high + 1) + t.subs == t.Add(high).subs;
    } else {
      assert t.AddRange(low, high).subs == t.AddRange(low, high - 1).Add(high).subs;
    }
  }

  /** The last separation that a stream of commands asks for, if any. */
  function LastPeriod(commands: seq<Command>): Option<UInt32>
    decreases |commands|
  {
    if commands == [] then None
    else
      var later := LastPeriod(commands[1..]);
      if later.None? && commands[0].Period? then Some(commands[0].ms) else later
  }

  /** Only the last PERIOD counts; a last one of 0 means the startup default, so
      that no stream of commands can turn decimation off if start-up did not. */
  lemma {:induction false} SeparationAfter(t: Table, commands: seq<Command>)
    ensures var t' := t.HandleAll(commands);
            && t'.defaultSep == t.defaultSep
            && t'.sep == (match LastPeriod(commands)
                          case None => t.sep
                          case Some(ms) => if ms == 0 then t.defaultSep else ms)
            && (t.defaultSep != 0 && t.sep != 0 ==> t'.sep != 0)
    decreases |commands|
  {
    if commands != [] {
      SeparationAfter(t.Handle(commands[0]), commands[1..]);
    }
  }

  /** Equal but for what was last emitted when. */
  predicate SameSelection(a: Table, b: Table) {
    a.subs.Keys == b.subs.Keys && a.sep == b.sep && a.defaultSep == b.defaultSep
  }

  /** Commands select alike, whatever has been emitted. */
  lemma {:induction false} SameSelectionHandled(a: Table, b: Table, commands: seq<Command>)
    requires SameSelection(a, b)
    ensures SameSelection(a.HandleAll(commands), b.HandleAll(commands))
    decreases |commands|
  {
    if commands != [] {
      SameSelectionHandled(a.Handle(commands[0]), b.Handle(commands[0]), commands[1..]);
    }
  }

  class SelectionTable {
    var subscriptions: map<Int32, TagState>
    const defaultMinSeparationMs: UInt32
    var minSeparationMs: UInt32

    ghost function View(): Table
      reads this
    {
      Table(subscriptions, defaultMinSeparationMs, minSeparationMs)
    }

    constructor (defaultMinSeparationMs: UInt32)
      ensures View() == EmptyTable(defaultMinSeparationMs)
    {
      this.defaultMinSeparationMs := defaultMinSeparationMs;
      subscriptions := map[];
      minSeparationMs := defaultMinSeparationMs;
    }

    method Add(uid: Int32)
      modifies this
      ensures View() == old(View()).Add(uid)
    {
      if uid !in subscriptions {
        subscriptions := subscriptions[uid := NEVER_EMITTED];
      }
    }

    method Erase(uid: Int32)
      modifies this
      ensures View() == old(View()).Erase(uid)
    {
      subscriptions := subscriptions - {uid};
    }

    /** The counter is 64 bits wide, so that stepping past high == INT32_MAX
        stays in range. */
    method AddRange(low: Int32, high: Int32)
      modifies this
      ensures View() == old(View()).AddRange(low, high)
    {
      var uid: Int64 := low as Int64;
      while uid <= high as Int64
        invariant low <= uid as int <= if low <= high then high + 1 else low
        invariant minSeparationMs == old(minSeparationMs)
        invariant subscriptions == Fresh(low, uid as int) + old(subscriptions)
        decreases high as int - uid as int
      {
        Add(uid as int);
        uid := uid + 1;
      }
      assert Fresh(low, uid as int) == Fresh(low, high + 1);
    }

    method Contains(uid: Int32) returns (selected: bool)
      ensures selected == (uid in View().subs)
    {
      selected := uid in subscriptions;
    }

    method SetPeriod(periodMs: UInt32)
      modifies this
      ensures View() == old(View()).SetPeriod(periodMs)
    {
      minSeparationMs := if periodMs == 0 then defaultMinSeparationMs else periodMs;
    }

    method ShouldForward(uid: Int32, now: int) returns (forward: bool)
      modifies this
      ensures forward == old(View()).Due(uid, now)
      ensures View() == old(View()).Decide(uid, now)
    {
      if uid !in subscriptions {
        return false;
      }
      var state := subscriptions[uid];
      if state.hasEmitted && minSeparationMs != 0 {
        if now - state.lastEmitted < minSeparationMs * NANOS_PER_MS {
          return false;
        }
      }
      subscriptions := subscriptions[uid := TagState(now, true)];
      return true;
    }
  }
}
