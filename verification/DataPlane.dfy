/** scada_select/src/DataPlane: the field value stream, decimated on arrival
    and forwarded; lifecycle events bypass the rate limit; nothing is retried. */
module DataPlane {
  import opened Wire
  import opened Selection

  datatype Payload = Payload(valueTime: int, smoothed: real, raw: real)

  datatype Message = Message(uid: Int32, kind: Kind<Payload>)

  /** A taken sample together with how the writer would resolve a call for it. */
  datatype Sample = Sample(msg: Message, outcome: Outcome)

  /** One call on the output writer: write, dispose_instance or
      unregister_instance, according to the kind of the message. */
  datatype Call = Call(now: int, sample: Sample)

  /** The class each taken sample falls in. */
  datatype Verdict =
    | Unselected
    | TooSoon
    | NothingToRetract
    | Delivered
    | TimedOut
  {
    predicate Attempted() { Delivered? || TimedOut? }
  }

  /** The table, and the instances the output writer holds a handle for. */
  datatype Plane = Plane(table: Table, instances: set<Int32>) {

    function Judge(s: Sample, now: int): Verdict {
      if s.msg.uid !in table.subs then Unselected
      else if s.msg.kind.Valid? && !table.Due(s.msg.uid, now) then TooSoon
      else if !s.msg.kind.Valid? && s.msg.uid !in instances then NothingToRetract
      else if s.outcome.timedOut then TimedOut
      else Delivered
    }

    /** A completed write registers the instance and a dispose keeps it; after
        a timed-out write or an unregistration the sample's outcome decides. */
    function InstancesAfter(s: Sample): set<Int32> {
      match s.msg.kind
      case Valid(_) =>
        if !s.outcome.timedOut || s.outcome.known then instances + {s.msg.uid} else instances
      case Disposed => instances
      case Unregistered => if s.outcome.known then instances else instances - {s.msg.uid}
    }

    function Step(s: Sample, now: int): Plane {
      if !Judge(s, now).Attempted() then this
      else Plane(if s.msg.kind.Valid? then table.Decide(s.msg.uid, now) else table, InstancesAfter(s))
    }

    function After(batch: seq<Sample>, now: int): Plane
      decreases |batch|
    {
      if batch == [] then this else Step(batch[0], now).After(batch[1..], now)
    }

    function Verdicts(batch: seq<Sample>, now: int): (vs: seq<Verdict>)
      ensures |vs| == |batch|
      decreases |batch|
    {
      if batch == [] then [] else [Judge(batch[0], now)] + Step(batch[0], now).Verdicts(batch[1..], now)
    }

    function Calls(batch: seq<Sample>, now: int): seq<Call>
      decreases |batch|
    {
      if batch == [] then []
      else (if Judge(batch[0], now).Attempted() then [Call(now, batch[0])] else [])
           + Step(batch[0], now).Calls(batch[1..], now)
    }
  }

  function Timeouts(calls: seq<Call>): nat {
    if calls == [] then 0
    else (if calls[0].sample.outcome.timedOut then 1 else 0) + Timeouts(calls[1..])
  }

  lemma {:induction false} TimeoutsExtend(calls: seq<Call>, c: Call)
    ensures Timeouts(calls + [c]) == Timeouts(calls) + if c.sample.outcome.timedOut then 1 else 0
  {
    if calls != [] {
      assert (calls + [c])[1..] == calls[1..] + [c];
      TimeoutsExtend(calls[1..], c);
    }
  }

  lemma {:induction false} Extend(p: Plane, batch: seq<Sample>, s: Sample, now: int)
    ensures p.After(batch + [s], now) == p.After(batch, now).Step(s, now)
    ensures p.Calls(batch + [s], now)
         == p.Calls(batch, now) + if p.After(batch, now).Judge(s, now).Attempted() then [Call(now, s)] else []
    decreases |batch|
  {
    if batch == [] {
      assert batch + [s] == [s];
    } else {
      assert (batch + [s])[0] == batch[0] && (batch + [s])[1..] == batch[1..] + [s];
      Extend(p.Step(batch[0], now), batch[1..], s, now);
    }
  }

  class DataPlane {
    const table: SelectionTable
    var reader: seq<Sample>
    var instances: set<Int32>
    var writeTimeouts: nat
    /** Every call made on the output writer, oldest first. */
    var calls: seq<Call>

    ghost function View(): Plane
      reads this, table
    {
      Plane(table.View(), instances)
    }

    constructor (table: SelectionTable)
      ensures this.table == table && reader == [] && instances == {} && writeTimeouts == 0 && calls == []
    {
      this.table := table;
      reader, instances, writeTimeouts, calls := [], {}, 0, [];
    }

    method Process(now: int)
      modifies this, table
      ensures reader == []
      ensures View() == old(View()).After(old(reader), now)
      ensures calls == old(calls) + old(View()).Calls(old(reader), now)
      ensures writeTimeouts == old(writeTimeouts) + Timeouts(old(View()).Calls(old(reader), now))
    {
      var taken := reader;
      reader := [];
      for i := 0 to |taken|
        invariant reader == []
        invariant View() == old(View()).After(taken[..i], now)
        invariant calls == old(calls) + old(View()).Calls(taken[..i], now)
        invariant writeTimeouts == old(writeTimeouts) + Timeouts(old(View()).Calls(taken[..i], now))
      {
        var s := taken[i];
        ghost var made := old(View()).Calls(taken[..i], now);
        Extend(old(View()), taken[..i], s, now);
        TimeoutsExtend(made, Call(now, s));
        Associate(old(calls), made, [Call(now, s)]);
        assert made + [] == made;
        assert taken[..i + 1] == taken[..i] + [s];
        var selected := table.Contains(s.msg.uid);
        if !selected {
          continue;
        }
        if !s.msg.kind.Valid? {
          ForwardLifecycle(s, now);
          continue;
        }
        var forward := table.ShouldForward(s.msg.uid, now);
        if forward {
          calls := calls + [Call(now, s)];
          if s.outcome.timedOut {
            writeTimeouts := writeTimeouts + 1;
          }
          if !s.outcome.timedOut || s.outcome.known {
            instances := instances + {s.msg.uid};
          }
        }
      }
      assert taken[..|taken|] == taken;
    }

    method ForwardLifecycle(s: Sample, now: int)
      requires !s.msg.kind.Valid? && s.msg.uid in table.View().subs
      modifies this
      ensures reader == old(reader)
      ensures View() == old(View()).Step(s, now)
      ensures var attempted := old(View()).Judge(s, now).Attempted();
              && calls == old(calls) + (if attempted then [Call(now, s)] else [])
              && writeTimeouts == old(writeTimeouts) + if attempted && s.outcome.timedOut then 1 else 0
    {
      if s.msg.uid !in instances {
        return;
      }
      calls := calls + [Call(now, s)];
      if s.msg.kind.Unregistered? && !s.outcome.known {
        instances := instances - {s.msg.uid};
      }
      if s.outcome.timedOut {
        writeTimeouts := writeTimeouts + 1;
      }
    }
  }

  // ----- One batch -----

  predicate ValidFor(s: Sample, uid: Int32) {
    s.msg.kind.Valid? && s.msg.uid == uid
  }

  /** The verdict on every valid sample, from the state the batch found: it is
      attempted exactly when its uid was due then and, under a nonzero
      separation, no valid sample of the uid precedes it in the batch. */
  lemma {:induction false} ValueVerdict(p: Plane, batch: seq<Sample>, now: int, i: nat)
    requires i < |batch| && batch[i].msg.kind.Valid?
    ensures var s, v := batch[i], p.Verdicts(batch, now)[i];
            var first := forall j | 0 <= j < i :: !ValidFor(batch[j], s.msg.uid);
            var attempted := p.table.Due(s.msg.uid, now) && (p.table.sep == 0 || first);
            && (v.Unselected? <==> s.msg.uid !in p.table.subs)
            && (v.Attempted() <==> attempted)
            && (v.TimedOut? <==> attempted && s.outcome.timedOut)
            && (v.TooSoon? <==> s.msg.uid in p.table.subs && !attempted)
    decreases i
  {
    if i > 0 {
      var p', s := p.Step(batch[0], now), batch[i];
      ValueVerdict(p', batch[1..], now, i - 1);
      assert batch[1..][i - 1] == s;
      assert (forall j | 0 <= j < i :: !ValidFor(batch[j], s.msg.uid))
         <==> !ValidFor(batch[0], s.msg.uid) && forall j | 0 <= j < i - 1 :: !ValidFor(batch[1..][j], s.msg.uid) by {
        assert forall j | 0 <= j < i - 1 :: batch[1..][j] == batch[j + 1];
        assert forall j | 0 < j < i :: batch[j] == batch[1..][j - 1];
      }
    }
  }

  // ----- Which instances the writer holds -----

  /** The call leaves the writer holding the instance of `u`. */
  predicate Registers(c: Call, u: Int32) {
    ValidFor(c.sample, u) && (!c.sample.outcome.timedOut || c.sample.outcome.known)
  }

  /** The call leaves the writer without the instance of `u`. */
  predicate Forgets(c: Call, u: Int32) {
    c.sample.msg == Message(u, Unregistered) && !c.sample.outcome.known
  }

  /** What the calls alone tell of the writer: it holds the instance of `u`, as
      it did before them if `held`. */
  ghost predicate Registered(held: bool, calls: seq<Call>, u: Int32) {
    || (held && forall j :: 0 <= j < |calls| ==> !Forgets(calls[j], u))
    || exists k :: 0 <= k < |calls| && Registers(calls[k], u) && forall j :: k < j < |calls| ==> !Forgets(calls[j], u)
  }

  lemma RegisteredExtend(held: bool, calls: seq<Call>, c: Call, u: Int32)
    ensures Registered(held, calls + [c], u)
         <==> Registers(c, u) || (Registered(held, calls, u) && !Forgets(c, u))
  {
    var all := calls + [c];
    assert all[|calls|] == c && forall j :: 0 <= j < |calls| ==> all[j] == calls[j];
    if Registered(held, calls, u) && !Forgets(c, u) && !held {
      var k :| 0 <= k < |calls| && Registers(calls[k], u) && forall j :: k < j < |calls| ==> !Forgets(calls[j], u);
      assert Registers(all[k], u);
    }
  }

  lemma {:induction false} RegisteredAppend(held: bool, a: seq<Call>, b: seq<Call>, u: Int32)
    ensures Registered(held, a + b, u) <==> Registered(Registered(held, a, u), b, u)
  {
    if b == [] {
      assert a + b == a;
    } else {
      var rest, last := b[..|b| - 1], b[|b| - 1];
      assert a + b == (a + rest) + [last] && b == rest + [last];
      RegisteredAppend(held, a, rest, u);
      RegisteredExtend(held, a + rest, last, u);
      RegisteredExtend(Registered(held, a, u), rest, last, u);
    }
  }

  lemma StepRegisters(p: Plane, s: Sample, now: int, u: Int32)
    ensures u in p.Step(s, now).instances
         <==> if !p.Judge(s, now).Attempted() then u in p.instances
              else Registers(Call(now, s), u) || (u in p.instances && !Forgets(Call(now, s), u))
  {
  }

  lemma {:induction false} BatchRegisters(p: Plane, batch: seq<Sample>, now: int, u: Int32)
    ensures u in p.After(batch, now).instances <==> Registered(u in p.instances, p.Calls(batch, now), u)
    decreases |batch|
  {
    if batch != [] {
      var rest, last := batch[..|batch| - 1], batch[|batch| - 1];
      BatchRegisters(p, rest, now, u);
      assert batch == rest + [last];
      Extend(p, rest, last, now);
      StepRegisters(p.After(rest, now), last, now, u);
      if p.After(rest, now).Judge(last, now).Attempted() {
        RegisteredExtend(u in p.instances, p.Calls(rest, now), Call(now, last), u);
      } else {
        assert p.Calls(rest, now) + [] == p.Calls(rest, now);
      }
    }
  }

  lemma {:induction false} VerdictAt(p: Plane, batch: seq<Sample>, now: int, i: nat)
    requires i < |batch|
    ensures p.Verdicts(batch, now)[i] == p.After(batch[..i], now).Judge(batch[i], now)
    decreases i
  {
    if i > 0 {
      VerdictAt(p.Step(batch[0], now), batch[1..], now, i - 1);
      assert batch[..i][1..] == batch[1..][..i - 1];
    }
  }

  /** A lifecycle event is never rate limited: it is passed on whenever its uid
      is selected and the writer's own calls so far, if not the instances it held
      before the batch, say that it holds the instance. */
  lemma LifecycleVerdict(p: Plane, batch: seq<Sample>, now: int, i: nat)
    requires i < |batch| && !batch[i].msg.kind.Valid?
    ensures var s, v, u := batch[i], p.Verdicts(batch, now)[i], batch[i].msg.uid;
            var attempted := u in p.table.subs && Registered(u in p.instances, p.Calls(batch[..i], now), u);
            && (v.Unselected? <==> u !in p.table.subs)
            && !v.TooSoon?
            && (v.Attempted() <==> attempted)
            && (v.TimedOut? <==> attempted && s.outcome.timedOut)
  {
    VerdictAt(p, batch, now, i);
    BatchRegisters(p, batch[..i], now, batch[i].msg.uid);
    BatchKeepsSelection(p, batch[..i], now);
    assert batch[i].msg.uid in p.table.subs <==> batch[i].msg.uid in p.table.subs.Keys;
    assert batch[i].msg.uid in p.After(batch[..i], now).table.subs
      <==> batch[i].msg.uid in p.After(batch[..i], now).table.subs.Keys;
  }

  /** So a tag on display can be retracted, and one never shown is not: after a
      completed write with no unregistration since, the event is passed on; if no
      value was ever written, it is not. */
  lemma ShownIsRetracted(calls: seq<Call>, u: Int32)
    ensures (exists k :: && 0 <= k < |calls| && ValidFor(calls[k].sample, u) && !calls[k].sample.outcome.timedOut
                         && forall j :: k < j < |calls| ==> calls[j].sample.msg != Message(u, Unregistered))
            ==> Registered(false, calls, u)
    ensures (forall k :: 0 <= k < |calls| ==> !ValidFor(calls[k].sample, u)) ==> !Registered(false, calls, u)
  {
    if k :| && 0 <= k < |calls| && ValidFor(calls[k].sample, u) && !calls[k].sample.outcome.timedOut
            && forall j :: k < j < |calls| ==> calls[j].sample.msg != Message(u, Unregistered) {
      assert Registers(calls[k], u);
    }
  }

  function Count(vs: seq<Verdict>, v: Verdict): nat {
    if vs == [] then 0 else (if vs[0] == v then 1 else 0) + Count(vs[1..], v)
  }

  /** The samples of `batch` whose verdict is an attempt, in order. */
  function Select(batch: seq<Sample>, vs: seq<Verdict>, now: int): seq<Call>
    requires |vs| == |batch|
  {
    if batch == [] then []
    else (if vs[0].Attempted() then [Call(now, batch[0])] else []) + Select(batch[1..], vs[1..], now)
  }

  lemma {:induction false} CallsAreSelected(p: Plane, batch: seq<Sample>, now: int)
    ensures p.Calls(batch, now) == Select(batch, p.Verdicts(batch, now), now)
    decreases |batch|
  {
    if batch != [] {
      CallsAreSelected(p.Step(batch[0], now), batch[1..], now);
      assert p.Verdicts(batch, now)[1..] == p.Step(batch[0], now).Verdicts(batch[1..], now);
    }
  }

  lemma {:induction false} SelectedBalance(batch: seq<Sample>, vs: seq<Verdict>, now: int)
    requires |vs| == |batch|
    requires forall i :: 0 <= i < |vs| && vs[i].Attempted() ==> vs[i].TimedOut? == batch[i].outcome.timedOut
    ensures var calls := Select(batch, vs, now);
            && |calls| == Count(vs, Delivered) + Count(vs, TimedOut)
            && Timeouts(calls) == Count(vs, TimedOut)
            && |batch| == |calls| + Count(vs, Unselected) + Count(vs, TooSoon) + Count(vs, NothingToRetract)
  {
    if batch != [] {
      SelectedBalance(batch[1..], vs[1..], now);
      var head := if vs[0].Attempted() then [Call(now, batch[0])] else [];
      assert Select(batch, vs, now) == head + Select(batch[1..], vs[1..], now);
      assert (head + Select(batch[1..], vs[1..], now))[|head|..] == Select(batch[1..], vs[1..], now);
    }
  }

  /** The batch's books balance: the calls are the attempted samples themselves,
      in order and once each; the counted timeouts are the verdicts that timed
      out; and the five classes account for every taken sample. */
  lemma Ledger(p: Plane, batch: seq<Sample>, now: int)
    ensures var vs, calls := p.Verdicts(batch, now), p.Calls(batch, now);
            && calls == Select(batch, vs, now)
            && |calls| == Count(vs, Delivered) + Count(vs, TimedOut)
            && Timeouts(calls) == Count(vs, TimedOut)
            && |batch| == |calls| + Count(vs, Unselected) + Count(vs, TooSoon) + Count(vs, NothingToRetract)
  {
    CallsAreSelected(p, batch, now);
    var vs := p.Verdicts(batch, now);
    forall i | 0 <= i < |vs| && vs[i].Attempted() ensures vs[i].TimedOut? == batch[i].outcome.timedOut {
      VerdictAt(p, batch, now, i);
    }
    SelectedBalance(batch, vs, now);
  }

  /** A batch selects and deselects nothing, and leaves the separation alone. */
  lemma {:induction false} BatchKeepsSelection(p: Plane, batch: seq<Sample>, now: int)
    ensures p.After(batch, now).table.subs.Keys == p.table.subs.Keys
    ensures p.After(batch, now).table.sep == p.table.sep
    ensures p.After(batch, now).table.defaultSep == p.table.defaultSep
    decreases |batch|
  {
    if batch != [] {
      BatchKeepsSelection(p.Step(batch[0], now), batch[1..], now);
    }
  }
}
