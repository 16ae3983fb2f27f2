/** From a browser's interest to the samples forwarded: what agreement of the
    two tables means for the tags on display, while clients and other tags come
    and go, commands are in flight and readers are lost and matched again. */
module EndToEnd {
  import opened Wire
  import opened Selection
  import opened Decimation
  import opened Interest
  import opened CommandStream
  import opened Protocol
  import opened Agreement
  import opened Recovery

  // ----- What is forwarded during a run -----

  /** The time of the sample of `u` that a step forwards, if it does. */
  function Forwards(s: System, l: Label, u: Int32): seq<int> {
    if l.Judge? && l.uid == u && s.table.Due(u, l.now) then [l.now] else []
  }

  /** A steady clock: no sample has been judged later than `x`. */
  predicate NoneLater(labels: seq<Label>, x: int) {
    forall l :: l in labels && l.Judge? ==> l.now <= x
  }

  /** The times at which samples of `u` are forwarded. */
  function Forwarded(cfg: Config, s: System, labels: seq<Label>, u: Int32): seq<int> {
    if labels == [] then []
    else
      Forwarded(cfg, s, labels[..|labels| - 1], u)
      + Forwards(Run(cfg, s, labels[..|labels| - 1]), labels[|labels| - 1], u)
  }

  lemma {:induction false} ForwardedArrived(cfg: Config, s: System, labels: seq<Label>, u: Int32)
    ensures forall x :: x in Forwarded(cfg, s, labels, u) ==> Judge(u, x) in labels
  {
    if labels != [] {
      ForwardedArrived(cfg, s, labels[..|labels| - 1], u);
    }
  }

  /** The table's memory of a uid is as before, gone, or what it just forwarded. */
  lemma MemoryStep(cfg: Config, s: System, l: Label, u: Int32)
    ensures var memory := LastEmission(Step(cfg, s, l).table, u);
            || memory.None?
            || memory == LastEmission(s.table, u)
            || (l == Judge(u, memory.value) && s.table.Due(u, memory.value))
  {
    if l.Consume? && s.queue != [] {
      match s.queue[0] {
        case Add(_) =>
        case Delete(_) =>
        case Metadata(_) =>
        case Period(_) =>
      }
    }
  }

  /** What it remembers is a time at which it forwarded the uid. */
  lemma {:induction false} MemoryIsForwarded(cfg: Config, webSep: int, labels: seq<Label>, u: Int32)
    ensures var memory := LastEmission(Run(cfg, Initial(cfg, webSep), labels).table, u);
            memory.Some? ==> memory.value in Forwarded(cfg, Initial(cfg, webSep), labels, u)
  {
    if labels != [] {
      MemoryIsForwarded(cfg, webSep, labels[..|labels| - 1], u);
      MemoryStep(cfg, Run(cfg, Initial(cfg, webSep), labels[..|labels| - 1]), labels[|labels| - 1], u);
    }
  }

  lemma {:induction false} ForwardedAppend(cfg: Config, s: System, a: seq<Label>, b: seq<Label>, u: Int32)
    ensures Forwarded(cfg, s, a + b, u) == Forwarded(cfg, s, a, u) + Forwarded(cfg, Run(cfg, s, a), b, u)
  {
    if b == [] {
      assert a + b == a;
    } else {
      var rest, last := b[..|b| - 1], b[|b| - 1];
      assert (a + b)[..|a + b| - 1] == a + rest;
      RunAppend(cfg, s, a, rest);
      ForwardedAppend(cfg, s, a, rest, u);
      Associate(Forwarded(cfg, s, a, u), Forwarded(cfg, Run(cfg, s, a), rest, u),
                Forwards(Run(cfg, s, a + rest), last, u));
    }
  }

  // ----- Wanted, or not, throughout -----

  ghost predicate Wanted(s: System, u: Int32) {
    exists c :: s.web.Interested(c, u)
  }

  /** At every point of the run some client wants `u`, or at every point none. */
  ghost predicate Stays(cfg: Config, s: System, labels: seq<Label>, u: Int32, wanted: bool) {
    && (Wanted(Run(cfg, s, labels), u) <==> wanted)
    && (labels != [] ==> Stays(cfg, s, labels[..|labels| - 1], u, wanted))
  }

  /** The web side's separation stays what it is and the selector keeps running. */
  predicate Constant(cfg: Config, s: System, labels: seq<Label>) {
    && Run(cfg, s, labels).web.sep == s.web.sep
    && (labels != [] ==> !labels[|labels| - 1].Restart? && Constant(cfg, s, labels[..|labels| - 1]))
  }

  /** The steps of a match that lasts. */
  predicate Linked(labels: seq<Label>) {
    forall i :: 0 <= i < |labels| ==> labels[i].Client? || labels[i].Consume? || labels[i].Judge?
  }

  /** What `left` of the queue's head becomes when a step consumes from it. */
  function Remaining(left: seq<Command>, l: Label): seq<Command> {
    if l.Consume? && left != [] then left[1..] else left
  }

  /** What is left of `queued` when the selector has consumed as many commands
      as the run has it consume. */
  function Left(queued: seq<Command>, labels: seq<Label>): seq<Command> {
    if labels == [] then queued else Remaining(Left(queued, labels[..|labels| - 1]), labels[|labels| - 1])
  }

  // ----- What the queue has in store -----

  /** Once `left`, the head of the queue, is consumed, `u` is selected as
      `wanted`, and nothing queued after that will change it. */
  predicate Heading(s: System, left: seq<Command>, u: Int32, wanted: bool) {
    && left <= s.queue
    && (u in s.table.HandleAll(left).subs <==> wanted)
    && (if wanted then Delete(u) else Add(u)) !in s.queue[|left|..]
  }

  /** Likewise the separation is `sep`, and no PERIOD after that says otherwise. */
  predicate Paced(s: System, left: seq<Command>, sep: int) {
    && left <= s.queue
    && s.table.HandleAll(left).sep == sep
    && forall ms :: Period(ms) in s.queue[|left|..] ==> ms == sep
  }

  /** Until `left` is consumed the match has to last. */
  predicate Lasts(left: seq<Command>, l: Label) {
    left != [] ==> l.Client? || l.Consume? || l.Judge?
  }

  lemma {:induction false} EncodedAsked(asks: seq<Ask>, command: Command)
    requires command in EncodeAll(asks)
    ensures match command
            case Add(uid) => AskAdd(uid) in asks
            case Delete(uid) => AskDelete(uid) in asks
            case Period(ms) => AskPeriod(ms) in asks
            case Metadata(_) => false
  {
    var rest := asks[..|asks| - 1];
    assert asks == rest + [asks[|asks| - 1]];
    if command in EncodeAll(rest) {
      EncodedAsked(rest, command);
    }
  }

  /** What a step has the web side write. */
  function Written(s: System, l: Label): seq<Ask> {
    match l
    case Client(op) => s.web.Asks(op)
    case Callback(order) => Replay(s.web, order)
    case MatchAndReplay(order) => Replay(s.web, order)
    case _ => []
  }

  /** No step asks against what is wanted after it, nor for another separation. */
  lemma WrittenAgrees(cfg: Config, s: System, l: Label, u: Int32)
    requires Counted(s.web) && Enabled(s, l)
    ensures var s' := Step(cfg, s, l);
            && (AskDelete(u) in Written(s, l) ==> !Wanted(s', u))
            && (AskAdd(u) in Written(s, l) ==> Wanted(s', u))
            && (forall ms :: AskPeriod(ms) in Written(s, l) ==> ms == s'.web.sep)
  {
    if l.Client? {
      NoDeleteWhileWanted(s.web, l.op, u);
      forall ms | AskPeriod(ms) in s.web.Asks(l.op) ensures ms == s.web.Next(l.op).sep {
        PeriodsPositive(s.web, l.op, ms);
      }
    } else {
      ActiveIsUnion(s.web, u);
    }
  }

  /** Hence what it queues agrees as well. */
  lemma QueuedAgrees(cfg: Config, s: System, l: Label, u: Int32)
    requires Counted(s.web) && Enabled(s, l)
    ensures var s', queued := Step(cfg, s, l), EncodeAll(Written(s, l));
            && (Delete(u) in queued ==> !Wanted(s', u))
            && (Add(u) in queued ==> Wanted(s', u))
            && (forall ms :: Period(ms) in queued ==> ms == s'.web.sep)
  {
    WrittenAgrees(cfg, s, l, u);
    forall command | command in EncodeAll(Written(s, l))
      ensures command == Delete(u) ==> AskDelete(u) in Written(s, l)
      ensures command == Add(u) ==> AskAdd(u) in Written(s, l)
      ensures command.Period? ==> AskPeriod(command.ms) in Written(s, l)
    {
      EncodedAsked(Written(s, l), command);
    }
  }

  lemma QueueGrows(queue: seq<Command>, left: seq<Command>, more: seq<Command>)
    requires left <= queue
    ensures left <= queue + more && (queue + more)[|left|..] == queue[|left|..] + more
  {
  }

  lemma QueueShrinks(queue: seq<Command>, left: seq<Command>)
    requires queue != [] && left <= queue
    ensures left == [] ==> queue[|left|..] == queue
    ensures left != [] ==> left[1..] <= queue[1..] && queue[1..][|left[1..]|..] == queue[|left|..]
  {
  }

  /** Where a step leaves the queue's head and what follows it. */
  lemma LeftStep(cfg: Config, s: System, l: Label, left: seq<Command>)
    requires Enabled(s, l) && left <= s.queue && Lasts(left, l)
    requires s.link == Unmatched ==> s.queue == []
    ensures var s', left' := Step(cfg, s, l), Remaining(left, l);
            && left' <= s'.queue
            && forall command :: command in s'.queue[|left'|..] ==>
                 command in s.queue[|left|..] || command in EncodeAll(Written(s, l))
  {
    QueueGrows(s.queue, left, EncodeAll(Written(s, l)));
    if l.Consume? {
      QueueShrinks(s.queue, left);
    }
  }

  /** Consuming part of the head leads where it led before. */
  lemma ConsumeStep(cfg: Config, s: System, left: seq<Command>)
    requires left != [] && left <= s.queue
    ensures Step(cfg, s, Consume).table.HandleAll(left[1..]) == s.table.HandleAll(left)
  {
    assert left[0] == s.queue[0];
  }

  lemma HeadingStep(cfg: Config, s: System, l: Label, left: seq<Command>, u: Int32, wanted: bool)
    requires Invariant(cfg, s) && Enabled(s, l) && Lasts(left, l)
    requires Heading(s, left, u, wanted)
    requires Wanted(Step(cfg, s, l), u) <==> wanted
    requires l.Restart? ==> !wanted && !cfg.InRange(u)
    ensures Heading(Step(cfg, s, l), Remaining(left, l), u, wanted)
  {
    LeftStep(cfg, s, l, left);
    QueuedAgrees(cfg, s, l, u);
    if l.Consume? && left != [] {
      ConsumeStep(cfg, s, left);
    }
    if l.Judge? {
      SameSelectionHandled(s.table, Step(cfg, s, l).table, left);
      assert u in s.table.HandleAll(left).subs <==> u in s.table.HandleAll(left).subs.Keys;
    }
    if l.Restart? {
      StartupSelects(cfg, u);
    }
  }

  lemma PacedStep(cfg: Config, s: System, l: Label, left: seq<Command>)
    requires Invariant(cfg, s) && Enabled(s, l) && Lasts(left, l)
    requires Paced(s, left, s.web.sep) && s.web.sep > 0
    requires Step(cfg, s, l).web.sep == s.web.sep && !l.Restart?
    ensures Paced(Step(cfg, s, l), Remaining(left, l), s.web.sep)
  {
    LeftStep(cfg, s, l, left);
    QueuedAgrees(cfg, s, l, 0);
    if l.Consume? && left != [] {
      ConsumeStep(cfg, s, left);
    }
    if l.Judge? {
      SameSelectionHandled(s.table, Step(cfg, s, l).table, left);
    }
  }

  lemma {:induction false} HeadingRun(cfg: Config, s: System, labels: seq<Label>, left: seq<Command>, u: Int32,
                                      wanted: bool)
    requires Invariant(cfg, s) && Possible(cfg, s, labels) && (left == [] || Linked(labels))
    requires Heading(s, left, u, wanted) && Stays(cfg, s, labels, u, wanted)
    requires forall l :: l in labels && l.Restart? ==> !wanted && !cfg.InRange(u)
    ensures Heading(Run(cfg, s, labels), Left(left, labels), u, wanted)
    ensures left == [] ==> Left(left, labels) == []
  {
    if labels != [] {
      var rest, last := labels[..|labels| - 1], labels[|labels| - 1];
      HeadingRun(cfg, s, rest, left, u, wanted);
      RunKeeps(cfg, s, rest);
      HeadingStep(cfg, Run(cfg, s, rest), last, Left(left, rest), u, wanted);
    }
  }

  lemma {:induction false} PacedRun(cfg: Config, s: System, labels: seq<Label>, left: seq<Command>)
    requires Invariant(cfg, s) && Possible(cfg, s, labels) && (left == [] || Linked(labels))
    requires Paced(s, left, s.web.sep) && Constant(cfg, s, labels)
    ensures Paced(Run(cfg, s, labels), Left(left, labels), s.web.sep)
    ensures left == [] ==> Left(left, labels) == []
  {
    if labels != [] {
      var rest, last := labels[..|labels| - 1], labels[|labels| - 1];
      PacedRun(cfg, s, rest, left);
      RunKeeps(cfg, s, rest);
      PacedStep(cfg, Run(cfg, s, rest), last, Left(left, rest));
    }
  }

  lemma {:induction false} NoRestart(cfg: Config, s: System, labels: seq<Label>)
    requires Constant(cfg, s, labels)
    ensures forall l :: l in labels ==> !l.Restart?
  {
    if labels != [] {
      NoRestart(cfg, s, labels[..|labels| - 1]);
      assert labels == labels[..|labels| - 1] + [labels[|labels| - 1]];
    }
  }

  /** The match lasts until all that is queued at `s` has been consumed. */
  ghost predicate Drains(cfg: Config, s: System, labels: seq<Label>) {
    Possible(cfg, s, labels) && Linked(labels) && Left(s.queue, labels) == []
  }

  /** Then `u` is selected as it is wanted ... */
  lemma HeadingAfter(cfg: Config, s: System, mid: seq<Label>, u: Int32, wanted: bool)
    requires Invariant(cfg, s) && s.link == Synced && Drains(cfg, s, mid)
    requires Stays(cfg, s, mid, u, wanted) && (wanted || u !in s.base || u in s.ever)
    ensures Invariant(cfg, Run(cfg, s, mid)) && Heading(Run(cfg, s, mid), [], u, wanted)
  {
    StaysAtStart(cfg, s, mid, u, wanted);
    ActiveIsUnion(s.web, u);
    RunKeeps(cfg, s, mid);
    HeadingRun(cfg, s, mid, s.queue, u, wanted);
  }

  lemma {:induction false} StaysAtStart(cfg: Config, s: System, labels: seq<Label>, u: Int32, wanted: bool)
    requires Stays(cfg, s, labels, u, wanted)
    ensures Wanted(s, u) <==> wanted
  {
    if labels != [] {
      StaysAtStart(cfg, s, labels[..|labels| - 1], u, wanted);
    }
  }

  /** `u` is selected at the web side's separation, and nothing queued says
      otherwise. */
  ghost predicate Served(cfg: Config, s: System, u: Int32) {
    Invariant(cfg, s) && Heading(s, [], u, true) && Paced(s, [], s.web.sep)
  }

  /** ... and so at the web side's separation. */
  lemma ServedOnceDrained(cfg: Config, s: System, mid: seq<Label>, u: Int32)
    requires Invariant(cfg, s) && s.link == Synced && FitsUInt32(s.web.sep) && Drains(cfg, s, mid)
    requires Stays(cfg, s, mid, u, true) && Constant(cfg, s, mid)
    ensures Served(cfg, Run(cfg, s, mid), u) && Run(cfg, s, mid).web.sep == s.web.sep
  {
    HeadingAfter(cfg, s, mid, u, true);
    PacedRun(cfg, s, mid, s.queue);
  }

  lemma ServedRun(cfg: Config, s: System, labels: seq<Label>, u: Int32)
    requires Served(cfg, s, u) && Possible(cfg, s, labels)
    requires Stays(cfg, s, labels, u, true) && Constant(cfg, s, labels)
    ensures var t := Run(cfg, s, labels);
            && Served(cfg, t, u) && u in t.table.subs
            && t.table.Gap() == s.web.sep * NANOS_PER_MS > 0
  {
    NoRestart(cfg, s, labels);
    RunKeeps(cfg, s, labels);
    HeadingRun(cfg, s, labels, [], u, true);
    PacedRun(cfg, s, labels, []);
  }

  // ----- What clients get -----

  /** A uid selected at a separation is forwarded, or was less than one
      separation ago. */
  lemma JudgedIsCovered(cfg: Config, webSep: int, labels: seq<Label>, u: Int32, x: int)
    requires NoneLater(labels, x)
    requires var t := Run(cfg, Initial(cfg, webSep), labels).table; u in t.subs && t.sep > 0
    ensures Covered(Forwarded(cfg, Initial(cfg, webSep), labels + [Judge(u, x)], u), x,
                    Run(cfg, Initial(cfg, webSep), labels).table.Gap())
  {
    var start, all := Initial(cfg, webSep), labels + [Judge(u, x)];
    var t := Run(cfg, start, labels).table;
    assert all[..|labels|] == labels;
    MemoryIsForwarded(cfg, webSep, labels, u);
    ForwardedArrived(cfg, start, labels, u);
    var e := if t.Due(u, x) then x else t.subs[u].lastEmitted;
    assert e in Forwarded(cfg, start, all, u) && x - t.Gap() < e <= x;
  }

  /** A tag that some client keeps wanting is kept current. From any reachable
      state whose match callback has run (after `labels`), while clients and other
      tags come and go: once what was queued has been consumed (by the end of
      `mid`), whatever else happens then, the match's end and renewal included (in
      `more`), each arrival has a forwarding of that tag less than one web-side
      separation older, as long as that separation stays and the selector keeps
      running. */
  lemma WantedIsServed(cfg: Config, webSep: int, labels: seq<Label>, mid: seq<Label>,
                       more: seq<Label>, u: Int32, x: int)
    requires webSep > 0 && Possible(cfg, Initial(cfg, webSep), labels)
    requires var s := Run(cfg, Initial(cfg, webSep), labels);
             && s.link == Synced && FitsUInt32(s.web.sep)
             && Drains(cfg, s, mid) && Stays(cfg, s, mid, u, true) && Constant(cfg, s, mid)
             && var t := Run(cfg, s, mid);
                Possible(cfg, t, more) && Stays(cfg, t, more, u, true) && Constant(cfg, t, more)
    requires NoneLater(labels, x) && NoneLater(mid, x) && NoneLater(more, x)
    ensures var s := Run(cfg, Initial(cfg, webSep), labels);
            var past := Forwarded(cfg, Initial(cfg, webSep), labels, u) + Forwarded(cfg, s, mid, u);
            Covered(past + Forwarded(cfg, Run(cfg, s, mid), more + [Judge(u, x)], u), x, s.web.sep * NANOS_PER_MS)
  {
    var start := Initial(cfg, webSep);
    var s := Run(cfg, start, labels);
    InitialInvariant(cfg, webSep);
    RunKeeps(cfg, start, labels);
    ServedOnceDrained(cfg, s, mid, u);
    ServedRun(cfg, Run(cfg, s, mid), more, u);
    RunAppend(cfg, start, labels, mid);
    RunAppend(cfg, start, labels + mid, more);
    JudgedIsCovered(cfg, webSep, labels + mid + more, u, x);
    Associate(labels + mid, more, [Judge(u, x)]);
    ForwardedAppend(cfg, start, labels + mid, more + [Judge(u, x)], u);
    ForwardedAppend(cfg, start, labels, mid, u);
  }

  /** No two of the times are closer than `gap`. */
  predicate Apart(times: seq<int>, gap: int) {
    forall i, j :: 0 <= i < j < |times| ==> times[j] - times[i] >= gap
  }

  /** While a uid stays selected its memory is of the last forwarding. */
  lemma MemoryKept(cfg: Config, s: System, l: Label, u: Int32)
    requires u in s.table.subs && u in Step(cfg, s, l).table.subs && !l.Restart?
    ensures LastEmission(Step(cfg, s, l).table, u)
         == if Forwards(s, l, u) != [] then Some(Forwards(s, l, u)[0]) else LastEmission(s.table, u)
  {
    if l.Consume? && s.queue != [] {
      match s.queue[0] {
        case Add(_) =>
        case Delete(_) =>
        case Metadata(_) =>
        case Period(_) =>
      }
    }
  }

  lemma ApartNext(times: seq<int>, x: int, gap: int)
    requires Apart(times, gap) && gap >= 0 && (times != [] ==> x - times[|times| - 1] >= gap)
    ensures Apart(times + [x], gap)
  {
    forall i | 0 <= i < |times| ensures x - times[i] >= gap {
      assert i < |times| - 1 ==> times[|times| - 1] - times[i] >= gap;
    }
  }

  /** `times` are apart, and the table remembers the last of them. */
  predicate Recent(t: Table, u: Int32, times: seq<int>, gap: int) {
    Apart(times, gap) && (times != [] ==> LastEmission(t, u) == Some(times[|times| - 1]))
  }

  lemma RecentStep(cfg: Config, s: System, l: Label, u: Int32, times: seq<int>)
    requires u in s.table.subs && u in Step(cfg, s, l).table.subs && !l.Restart? && s.table.sep > 0
    requires Recent(s.table, u, times, s.table.Gap())
    ensures Recent(Step(cfg, s, l).table, u, times + Forwards(s, l, u), s.table.Gap())
  {
    MemoryKept(cfg, s, l, u);
    if Forwards(s, l, u) != [] {
      ApartNext(times, l.now, s.table.Gap());
    } else {
      assert times + [] == times;
    }
  }

  lemma {:induction false} ApartAfter(cfg: Config, s: System, more: seq<Label>, u: Int32)
    requires Served(cfg, s, u) && Possible(cfg, s, more)
    requires Stays(cfg, s, more, u, true) && Constant(cfg, s, more)
    ensures Recent(Run(cfg, s, more).table, u, Forwarded(cfg, s, more, u), s.web.sep * NANOS_PER_MS)
  {
    if more != [] {
      var rest, last := more[..|more| - 1], more[|more| - 1];
      ApartAfter(cfg, s, rest, u);
      ServedRun(cfg, s, rest, u);
      ServedRun(cfg, s, more, u);
      RecentStep(cfg, Run(cfg, s, rest), last, u, Forwarded(cfg, s, rest, u));
    }
  }

  /** Nor is it sent more often than that: its forwardings are at least one
      web-side separation apart. */
  lemma WantedIsPaced(cfg: Config, webSep: int, labels: seq<Label>, mid: seq<Label>,
                      more: seq<Label>, u: Int32)
    requires webSep > 0 && Possible(cfg, Initial(cfg, webSep), labels)
    requires var s := Run(cfg, Initial(cfg, webSep), labels);
             && s.link == Synced && FitsUInt32(s.web.sep)
             && Drains(cfg, s, mid) && Stays(cfg, s, mid, u, true) && Constant(cfg, s, mid)
             && var t := Run(cfg, s, mid);
                Possible(cfg, t, more) && Stays(cfg, t, more, u, true) && Constant(cfg, t, more)
    ensures var s := Run(cfg, Initial(cfg, webSep), labels);
            Apart(Forwarded(cfg, Run(cfg, s, mid), more, u), s.web.sep * NANOS_PER_MS)
  {
    var s := Run(cfg, Initial(cfg, webSep), labels);
    InitialInvariant(cfg, webSep);
    RunKeeps(cfg, Initial(cfg, webSep), labels);
    ServedOnceDrained(cfg, s, mid, u);
    ApartAfter(cfg, Run(cfg, s, mid), more, u);
  }

  lemma {:induction false} SilentAfter(cfg: Config, s: System, more: seq<Label>, u: Int32)
    requires Invariant(cfg, s) && Possible(cfg, s, more)
    requires Heading(s, [], u, false) && Stays(cfg, s, more, u, false) && !cfg.InRange(u)
    ensures Forwarded(cfg, s, more, u) == []
  {
    if more != [] {
      SilentAfter(cfg, s, more[..|more| - 1], u);
      HeadingRun(cfg, s, more[..|more| - 1], [], u, false);
    }
  }

  /** And a tag beyond the pre-enabled range that nobody wants is not forwarded,
      whatever else happens, restarts included: once what was queued has been
      consumed, unless it is a leftover that a selector held at the match. */
  lemma UnwantedIsSilent(cfg: Config, webSep: int, labels: seq<Label>, mid: seq<Label>,
                         more: seq<Label>, u: Int32)
    requires webSep > 0 && Possible(cfg, Initial(cfg, webSep), labels) && !cfg.InRange(u)
    requires var s := Run(cfg, Initial(cfg, webSep), labels);
             && s.link == Synced && (s.restarted || u !in s.base || u in s.ever)
             && Drains(cfg, s, mid) && Stays(cfg, s, mid, u, false)
             && var t := Run(cfg, s, mid); Possible(cfg, t, more) && Stays(cfg, t, more, u, false)
    ensures Forwarded(cfg, Run(cfg, Run(cfg, Initial(cfg, webSep), labels), mid), more, u) == []
  {
    var s := Run(cfg, Initial(cfg, webSep), labels);
    InitialInvariant(cfg, webSep);
    RunKeeps(cfg, Initial(cfg, webSep), labels);
    HeadingAfter(cfg, s, mid, u, false);
    SilentAfter(cfg, Run(cfg, s, mid), more, u);
  }
}
