/**
 The tail loop over a growing, rotating log and the audit record grouper it
 drives. Reads, rotations, idle polls and the life of the receiver are inputs:
 what is proved holds for every schedule of them.
 */
module AuditTail {
  import opened Options
  import opened Bytes
  import opened Lines
  import opened AuditGroups

  type Parser = seq<byte> -> Option<Record>

  /** The records of the lines that parse, each with its line. */
  function Parsed(parse: Parser, lines: seq<Line>): seq<Entry> {
    if lines == [] then []
    else
      var init, line := lines[..|lines| - 1], lines[|lines| - 1];
      Parsed(parse, init) + (if parse(line).Some? then [Entry(parse(line).value, line)] else [])
  }

  function Wrap(es: seq<Entry>): seq<Item> {
    seq(|es|, i requires 0 <= i < |es| => Rec(es[i]))
  }

  /** The sending half of the event channel; the receiver may go away after `left` more events. */
  class Sender {
    var sent: seq<Event>
    var left: Option<nat>
    // How many sends found the receiver gone.
    var refused: nat

    constructor (left: Option<nat>)
      ensures sent == [] && this.left == left && refused == 0
    {
      sent, this.left, refused := [], left, 0;
    }

    /** The receiver goes away. */
    method Close()
      modifies this`left
      ensures Closed()
    {
      left := Some(0);
    }

    predicate Closed()
      reads this
    {
      left == Some(0)
    }

    method Send(event: Event) returns (ok: bool)
      modifies this
      ensures ok == !old(Closed())
      ensures sent == if ok then old(sent) + [event] else old(sent)
      ensures !ok ==> Closed()
      ensures refused == old(refused) + if ok then 0 else 1
    {
      ok := left != Some(0);
      if ok {
        sent := sent + [event];
        left := if left.Some? then Some(left.value - 1) else None;
      } else {
        refused := refused + 1;
      }
    }

    /** Send in order until the receiver is gone. */
    method SendAll(events: seq<Event>) returns (ok: bool)
      modifies this
      ensures old(sent) <= sent <= old(sent) + events
      ensures ok <==> sent == old(sent) + events
      ensures !ok ==> Closed()
      ensures old(Closed()) ==> Closed() && sent == old(sent)
      ensures refused == old(refused) + if ok then 0 else 1
    {
      for i := 0 to |events|
        invariant sent == old(sent) + events[..i] && refused == old(refused)
        invariant old(Closed()) ==> Closed() && i == 0
      {
        ok := Send(events[i]);
        if !ok {
          return;
        }
      }
      ok := true;
    }
  }

  /** Groups consecutive audit records with one id. */
  class AuditdHandler {
    const parse: Parser
    var groupSeq: Option<EventId>
    var groupLines: seq<byte>
    var groupRecords: seq<Record>
    // The open group with the line of each record.
    ghost var open: Group

    ghost predicate Valid()
      reads this
    {
      && groupRecords == Records(open)
      && groupLines == LinesOf(open)
      && groupSeq == if open == [] then None else Some(open[0].record.id)
    }

    constructor (parse: Parser)
      ensures Valid() && open == [] && this.parse == parse
    {
      this.parse := parse;
      groupSeq, groupLines, groupRecords, open := None, [], [], [];
    }

    /** Emit one event per record of the open group, each with all lines of the group. */
    method FlushGroup() returns (out: seq<Event>)
      requires Valid()
      modifies this
      ensures Valid() && open == [] && out == EventsOf(old(open))
    {
      out := [];
      if groupRecords == [] {
        groupSeq := None;
        return;
      }
      var lines, records := groupLines, groupRecords;
      groupLines, groupRecords, groupSeq := [], [], None;
      for i := 0 to |records|
        invariant out == EventsOf(old(open))[..i]
        invariant groupLines == [] && groupRecords == [] && groupSeq == None
      {
        out := out + [Event(records[i], lines, records)];
      }
      open := [];
    }

    method OnLine(line: Line) returns (out: seq<Event>)
      requires Valid()
      modifies this
      ensures Valid()
      ensures parse(line).None? ==> out == [] && open == old(open)
      ensures parse(line).Some? ==>
        var e := Entry(parse(line).value, line);
        if old(open) != [] && old(open)[0].record.id == e.record.id then out == [] && open == old(open) + [e]
        else out == EventsOf(old(open)) && open == [e]
    {
      out := [];
      var record := parse(line);
      if record.None? {
        return;
      }
      if groupSeq != Some(record.value.id) {
        out := FlushGroup();
        groupSeq := Some(record.value.id);
      }
      groupLines := groupLines + line;
      groupRecords := groupRecords + [record.value];
      open := open + [Entry(record.value, line)];
      assert open[..|open| - 1]
        == if old(open) != [] && old(open)[0].record.id == record.value.id then old(open) else [];
    }

    method OnIdle() returns (out: seq<Event>)
      requires Valid()
      modifies this
      ensures Valid() && open == [] && out == EventsOf(old(open))
    {
      out := FlushGroup();
    }

    method OnRotate()
      requires Valid()
      modifies this
      ensures Valid() && open == []
    {
      groupSeq, groupLines, groupRecords, open := None, [], [], [];
    }
  }

  /** Feeding one item closes at most one group: its events are what the handler emits. */
  lemma FeedEmits(items: seq<Item>, item: Item)
    ensures var s, s' := FeedAll(items), FeedAll(items + [item]);
            var same := item.Rec? && s.open != [] && s.open[0].record.id == item.entry.record.id;
            && AllEvents(s'.closed) == AllEvents(s.closed) + (if same then [] else EventsOf(s.open))
            && s'.open == (if item.Idle? then [] else if same then s.open + [item.entry] else [item.entry])
  {
    FeedSnoc(items, item);
    var s := FeedAll(items);
    assert (s.closed + [s.open])[..|s.closed|] == s.closed;
    assert s.open == [] ==> EventsOf(s.open) == [];
  }

  /** At most one send found the receiver gone, and if one did it still is. */
  predicate OnceRefused(before: nat, tx: Sender)
    reads tx
  {
    tx.refused == before || (tx.refused == before + 1 && tx.Closed())
  }

  /**
   One poll as the environment decides it: whether it is told to stop first,
   whether the receiver goes away first, and what happened to the file. `data`
   is what the read returned, or a read error.
   */
  datatype Tick = Tick(stop: bool, closes: bool, rotated: bool, reopens: bool, data: Option<seq<byte>>)

  /** The bytes a tail has read since the file was last opened, and what it made of them. */
  datatype Trace = Trace(bytes: seq<byte>, lines: seq<Line>, items: seq<Item>, before: seq<Event>)

  const START := Trace([], [], [], [])

  ghost function Emitted(t: Trace): seq<Event> { t.before + AllEvents(FeedAll(t.items).closed) }

  /** The trace after more complete lines have gone to the handler. */
  ghost function AfterLines(parse: Parser, t: Trace, lines: seq<Line>): Trace {
    t.(lines := t.lines + lines, items := t.items + Wrap(Parsed(parse, lines)))
  }

  lemma ParsedSnoc(parse: Parser, lines: seq<Line>, line: Line)
    ensures Parsed(parse, [line]) == if parse(line).Some? then [Entry(parse(line).value, line)] else []
    ensures Parsed(parse, lines + [line]) == Parsed(parse, lines) + Parsed(parse, [line])
  {
    assert (lines + [line])[..|lines|] == lines;
    assert [line][..0] == [];
  }

  lemma AfterLinesSnoc(parse: Parser, t: Trace, lines: seq<Line>, line: Line)
    ensures AfterLines(parse, t, lines + [line]) == AfterLines(parse, AfterLines(parse, t, lines), [line])
  {
    ParsedSnoc(parse, lines, line);
    hide Parsed;
    var a, b := Parsed(parse, lines), Parsed(parse, [line]);
    assert Wrap(a + b) == Wrap(a) + Wrap(b);
    assert t.items + Wrap(a) + Wrap(b) == t.items + Wrap(a + b);
    assert t.lines + lines + [line] == t.lines + (lines + [line]);
  }

  lemma AfterNoLines(parse: Parser, t: Trace)
    ensures AfterLines(parse, t, []) == t
  {
  }

  class TailState {
    var pending: seq<byte>
    ghost var trace: Trace

    /** Nothing read is lost, and what was sent is what the lines read so far call for. */
    ghost predicate Flowing(handler: AuditdHandler, tx: Sender)
      reads this, handler, tx
    {
      && handler.Valid() && handler.open == FeedAll(trace.items).open
      && Concat(trace.lines) + pending == trace.bytes
      && (forall l :: l in trace.lines ==> IsLine(l))
      && Recs(trace.items) == Parsed(handler.parse, trace.lines)
      && tx.sent <= Emitted(trace) && (tx.Closed() || tx.sent == Emitted(trace))
    }

    /** Between polls no complete line is waiting, unless the receiver is gone. */
    ghost predicate Valid(handler: AuditdHandler, tx: Sender)
      reads this, handler, tx
    {
      Flowing(handler, tx) && (tx.Closed() || NoNewline(pending))
    }

    /** Attached at the end of the file: nothing read yet. */
    constructor (ghost tx: Sender)
      ensures pending == [] && trace == START.(before := tx.sent)
    {
      pending := [];
      trace := START.(before := tx.sent);
    }

    /** Hand the first complete line of `pending` to the handler and send what it returns. */
    method DrainOne(handler: AuditdHandler, tx: Sender) returns (ok: bool)
      requires Flowing(handler, tx) && FirstNewline(pending) < |pending|
      modifies this, handler, tx
      ensures Flowing(handler, tx) && (!ok ==> tx.Closed())
      ensures tx.refused == old(tx.refused) + if ok then 0 else 1
      ensures pending == old(pending)[FirstNewline(old(pending)) + 1..]
      ensures trace == AfterLines(handler.parse, old(trace), [old(pending)[..FirstNewline(old(pending)) + 1]])
    {
      hide FeedAll, Recs, Parsed, AllEvents, Concat, EventsOf;
      var k := FirstNewline(pending);
      var line := pending[..k + 1];
      LineConserved(handler.parse, trace, pending);
      LineEmits(handler.parse, trace, line);
      pending := pending[k + 1..];
      var events := handler.OnLine(line);
      trace := AfterLines(handler.parse, trace, [line]);
      ok := tx.SendAll(events);
    }

    /** Hand the complete lines of `pending` to the handler, stopping when the receiver is gone. */
    method DrainLines(handler: AuditdHandler, tx: Sender) returns (ghost lines: seq<Line>)
      requires Flowing(handler, tx)
      modifies this, handler, tx
      ensures Valid(handler, tx) && OnceRefused(old(tx.refused), tx)
      ensures trace == AfterLines(handler.parse, old(trace), lines)
    {
      hide Flowing, AfterLines;
      lines := [];
      AfterNoLines(handler.parse, trace);
      while FirstNewline(pending) < |pending|
        invariant Flowing(handler, tx) && trace == AfterLines(handler.parse, old(trace), lines)
        invariant tx.refused == old(tx.refused)
        decreases |pending|
      {
        ghost var line := pending[..FirstNewline(pending) + 1];
        var ok := DrainOne(handler, tx);
        AfterLinesSnoc(handler.parse, old(trace), lines, line);
        lines := lines + [line];
        if !ok {
          break;
        }
      }
      NoneBefore(pending);
    }

    /**
     One poll. A rotation drops the partial line and the open group; a failed
     reopen changes nothing. A read of no bytes with no partial line waiting is
     idle and closes the open group; otherwise the new bytes are split into lines.
     */
    method Poll(handler: AuditdHandler, tx: Sender, tick: Tick) returns (ok: bool, ghost lines: seq<Line>)
      requires Valid(handler, tx)
      modifies this, handler, tx
      ensures Valid(handler, tx) && OnceRefused(old(tx.refused), tx)
      ensures ok <==> tick.data.Some? && (tick.rotated ==> tick.reopens)
      ensures tick.rotated && !tick.reopens ==> trace == old(trace)
      ensures tick.rotated ==> tick.reopens || tx.sent == old(tx.sent)
      ensures tick.rotated ==> tick.reopens || pending == old(pending)
      ensures tick.rotated ==> tick.reopens || handler.open == old(handler.open)
      ensures !tick.rotated || tick.reopens ==>
        trace == AfterPoll(handler.parse, if tick.rotated then Restart(old(trace)) else old(trace),
                           if tick.rotated then [] else old(pending), tick.data, lines)
    {
      lines := [];
      ok := false;
      if tick.rotated {
        if !tick.reopens {
          return;
        }
        Rotate(handler, tx);
      }
      match tick.data
      case None =>
        AfterNoLines(handler.parse, trace);
      case Some(buf) =>
        ok := true;
        if buf == [] {
          AfterNoLines(handler.parse, trace);
          if pending == [] {
            Idle(handler, tx);
          }
        } else {
          Append(handler, tx, buf);
          lines := DrainLines(handler, tx);
        }
    }

    method Rotate(handler: AuditdHandler, tx: Sender)
      requires Valid(handler, tx)
      modifies this, handler
      ensures Valid(handler, tx) && trace == Restart(old(trace)) && pending == [] && handler.open == []
    {
      pending := [];
      handler.OnRotate();
      trace := Restart(trace);
      assert Parsed(handler.parse, []) == [];
    }

    method Idle(handler: AuditdHandler, tx: Sender)
      requires Valid(handler, tx)
      modifies this, handler, tx
      ensures Valid(handler, tx) && OnceRefused(old(tx.refused), tx) && pending == old(pending)
      ensures trace == old(trace).(items := old(trace).items + [Item.Idle])
    {
      hide FeedAll, Recs, Parsed, AllEvents, Concat, EventsOf;
      FeedEmits(trace.items, Item.Idle);
      RecsConcat(trace.items, [Item.Idle]);
      RecsOne(Item.Idle);
      var events := handler.OnIdle();
      trace := trace.(items := trace.items + [Item.Idle]);
      var _ := tx.SendAll(events);
    }

    method Append(handler: AuditdHandler, tx: Sender, buf: seq<byte>)
      requires Valid(handler, tx)
      modifies this
      ensures Flowing(handler, tx) && pending == old(pending) + buf
      ensures trace == old(trace).(bytes := old(trace).bytes + buf)
    {
      hide FeedAll, Recs, Parsed, Concat, IsLine, AuditdHandler.Valid;
      Reassociate(Concat(trace.lines), pending, buf);
      pending := pending + buf;
      trace := trace.(bytes := trace.bytes + buf);
    }
  }

  /**
   The bytes read since the file was last opened: a rotation that is reopened starts over, a
   failed reopen reads nothing.
   */
  ghost function ReadSince(polls: seq<Tick>): seq<byte> {
    if polls == [] then []
    else
      var last, before := polls[|polls| - 1], ReadSince(polls[..|polls| - 1]);
      if last.rotated && !last.reopens then before
      else (if last.rotated then [] else before) + if last.data.Some? then last.data.value else []
  }

  ghost predicate NoRotation(polls: seq<Tick>) {
    forall i :: 0 <= i < |polls| ==> !polls[i].rotated
  }

  /**
   The tail loop: one poll on attaching, then one per tick until it is told to
   stop or the receiver is gone; it never polls again after either. Stopping does
   not flush: what has been sent is what was emitted, and the open group stays
   with the handler. A refused send means that the receiver is gone, so the poll
   that met it is the last one: nothing is sent, and nothing polled, after it.
   */
  method RunTail(parse: Parser, tx: Sender, first: Tick, ticks: seq<Tick>)
    returns (state: TailState, handler: AuditdHandler, ghost polls: seq<Tick>)
    modifies tx
    ensures fresh(state) && fresh(handler) && handler.parse == parse
    ensures state.Valid(handler, tx)
    ensures 1 <= |polls| <= 1 + |ticks| && polls == ([first] + ticks)[..|polls|]
    ensures forall i :: 0 <= i < |polls| - 1 ==> !ticks[i].stop && !ticks[i].closes
    ensures OnceRefused(old(tx.refused), tx)
    ensures |polls| < 1 + |ticks| ==> ticks[|polls| - 1].stop || tx.Closed()
    ensures AfterLines(parse, state.trace, CompleteLines(state.pending)) == Whole(parse, polls, old(tx.sent))
    ensures tx.sent <= Emitted(Whole(parse, polls, old(tx.sent)))
    ensures tx.Closed() || tx.sent == Emitted(Whole(parse, polls, old(tx.sent)))
    ensures state.trace.bytes == ReadSince(polls) && old(tx.sent) <= state.trace.before
    ensures NoRotation(polls) ==> state.trace.before == old(tx.sent)
  {
    hide TailState.Valid, TailState.Flowing, AfterLines, Emitted, Tracks, Whole, ReadSince, NoRotation, NoNewline,
      CompleteLines;
    ghost var sent0 := tx.sent;
    state, handler := Attach(parse, tx);
    ghost var ok := Step(state, handler, tx, first, [], sent0);
    polls := [] + [first];
    for i := 0 to |ticks|
      invariant state.Valid(handler, tx) && fresh(state) && fresh(handler) && handler.parse == parse
      invariant |polls| == 1 + i && polls == ([first] + ticks)[..1 + i]
      invariant forall j :: 0 <= j < i ==> !ticks[j].stop && !ticks[j].closes
      invariant OnceRefused(old(tx.refused), tx) && Tracks(parse, state.trace, state.pending, polls, sent0)
    {
      if ticks[i].closes {
        Disconnect(state, handler, tx);
      }
      if ticks[i].stop || tx.Closed() {
        TracksMeaning(state, handler, tx, polls, sent0);
        return;
      }
      ValidParts(state, handler, tx);
      ok := Step(state, handler, tx, ticks[i], polls, sent0);
      polls := polls + [ticks[i]];
    }
    TracksMeaning(state, handler, tx, polls, sent0);
  }

  /** Poll once more, with no complete line waiting. */
  method Step(state: TailState, handler: AuditdHandler, tx: Sender, tick: Tick, ghost polls: seq<Tick>,
              ghost sent0: seq<Event>)
    returns (ok: bool)
    requires state.Valid(handler, tx) && NoNewline(state.pending)
    requires Tracks(handler.parse, state.trace, state.pending, polls, sent0)
    modifies state, handler, tx
    ensures state.Valid(handler, tx) && OnceRefused(old(tx.refused), tx)
    ensures Tracks(handler.parse, state.trace, state.pending, polls + [tick], sent0)
  {
    ghost var t, p := state.trace, state.pending;
    hide *;
    ValidParts(state, handler, tx);
    ghost var lines;
    ok, lines := state.Poll(handler, tx, tick);
    ValidParts(state, handler, tx);
    TracksNext(handler.parse, t, p, state.trace, state.pending, polls, tick, lines, sent0);
  }

  /** Open the file at its end. */
  method Attach(parse: Parser, tx: Sender) returns (state: TailState, handler: AuditdHandler)
    ensures fresh(state) && fresh(handler) && handler.parse == parse
    ensures state.Valid(handler, tx) && NoNewline(state.pending)
    ensures Tracks(parse, state.trace, state.pending, [], tx.sent)
  {
    hide Lines.Concat, AuditGroups.FeedAll, AuditGroups.Recs, Parsed, Emitted, Restart, AfterLines, Lines.IsLine,
      Tracks;
    state := new TailState(tx);
    handler := new AuditdHandler(parse);
    Attached(parse, tx.sent);
  }

  /** The receiver goes away between two polls. */
  method Disconnect(ghost state: TailState, ghost handler: AuditdHandler, tx: Sender)
    requires state.Valid(handler, tx)
    modifies tx
    ensures state.Valid(handler, tx) && tx.Closed() && tx.sent == old(tx.sent) && tx.refused == old(tx.refused)
  {
    hide Lines.Concat, AuditGroups.FeedAll, AuditGroups.Recs, Parsed, Emitted, Lines.IsLine;
    tx.Close();
  }

  // ----- A run as a whole -----

  /** What a tail makes of a read, when nobody keeps it from handing over every complete line. */
  ghost function WholePoll(parse: Parser, t: Trace, data: Option<seq<byte>>): Trace {
    if data.None? then t
    else if data.value == [] then (if Rest(t.bytes) == [] then t.(items := t.items + [Idle]) else t)
    else AfterLines(parse, t.(bytes := t.bytes + data.value), CompleteLines(Rest(t.bytes) + data.value))
  }

  /** What it makes of a schedule of polls: a rotation that is reopened starts a new span of bytes. */
  ghost function Whole(parse: Parser, polls: seq<Tick>, sent0: seq<Event>): Trace {
    if polls == [] then START.(before := sent0)
    else
      var last, t := polls[|polls| - 1], Whole(parse, polls[..|polls| - 1], sent0);
      if last.rotated && !last.reopens then t
      else WholePoll(parse, if last.rotated then Restart(t) else t, last.data)
  }

  /** The trace, once the lines still waiting are handed over, is that of the whole schedule. */
  ghost predicate Tracks(parse: Parser, t: Trace, pending: seq<byte>, polls: seq<Tick>, sent0: seq<Event>) {
    AfterLines(parse, t, CompleteLines(pending)) == Whole(parse, polls, sent0)
  }

  ghost predicate Accounted(t: Trace, pending: seq<byte>) {
    Concat(t.lines) + pending == t.bytes && forall l :: l in t.lines ==> IsLine(l)
  }

  lemma ValidParts(state: TailState, handler: AuditdHandler, tx: Sender)
    requires state.Valid(handler, tx)
    ensures Accounted(state.trace, state.pending)
    ensures tx.Closed() || (NoNewline(state.pending) && tx.sent == Emitted(state.trace))
    ensures tx.sent <= Emitted(state.trace)
  {
  }

  lemma ParsedConcat(parse: Parser, t: Trace, a: seq<Line>, b: seq<Line>)
    ensures AfterLines(parse, AfterLines(parse, t, a), b) == AfterLines(parse, t, a + b)
  {
    if b == [] {
      AfterNoLines(parse, AfterLines(parse, t, a));
      assert a + b == a;
    } else {
      var n := |b| - 1;
      assert b[..n] + [b[n]] == b && a + b == (a + b[..n]) + [b[n]];
      hide AfterLines;
      ParsedConcat(parse, t, a, b[..n]);
      AfterLinesSnoc(parse, AfterLines(parse, t, a), b[..n], b[n]);
      AfterLinesSnoc(parse, t, a + b[..n], b[n]);
    }
  }

  lemma NothingWaiting(parse: Parser, t: Trace, pending: seq<byte>)
    requires NoNewline(pending)
    ensures CompleteLines(pending) == [] && AfterLines(parse, t, CompleteLines(pending)) == t
  {
    hide AfterLines, Parsed;
    assert Concat([]) == [];
    SplitIsUnique(pending, [], pending);
    AfterNoLines(parse, t);
  }

  /** The lines of a read, taken as far as they were, are the first of those the whole schedule has. */
  lemma WholeNext(parse: Parser, t: Trace, pending: seq<byte>, t': Trace, pending': seq<byte>,
                  data: Option<seq<byte>>, lines: seq<Line>)
    requires Accounted(t, pending) && NoNewline(pending) && Accounted(t', pending')
    requires t' == AfterPoll(parse, t, pending, data, lines)
    ensures AfterLines(parse, t', CompleteLines(pending')) == WholePoll(parse, t, data)
  {
    var buf := if data.Some? then data.value else [];
    hide CompleteLines, Rest, Concat, IsLine, NoNewline, Parsed, AfterLines;
    SplitIsUnique(t.bytes, t.lines, pending);
    if data.Some? && buf == [] && pending == [] {
      SamePrefix(Concat(t.lines), pending', pending);
      NothingWaiting(parse, t', pending');
    } else {
      var more := t.(bytes := t.bytes + buf);
      LinesOfMore(parse, more, lines);
      ConcatConcat(t.lines, lines);
      Reassociate(Concat(t.lines), Concat(lines), pending');
      Reassociate(Concat(t.lines), pending, buf);
      SamePrefix(Concat(t.lines), Concat(lines) + pending', pending + buf);
      SplitPrefix(pending + buf, lines, pending');
      ParsedConcat(parse, more, lines, CompleteLines(pending'));
      if buf == [] {
        assert pending + buf == pending && t.bytes + buf == t.bytes && more == t;
        NothingWaiting(parse, more, pending);
      }
    }
  }

  lemma SamePrefix(a: seq<byte>, b: seq<byte>, c: seq<byte>)
    requires a + b == a + c
    ensures b == c
  {
    assert b == (a + b)[|a|..] && c == (a + c)[|a|..];
  }

  lemma LinesOfMore(parse: Parser, t: Trace, lines: seq<Line>)
    requires forall l :: l in AfterLines(parse, t, lines).lines ==> IsLine(l)
    ensures AfterLines(parse, t, lines).lines == t.lines + lines && AfterLines(parse, t, lines).bytes == t.bytes
    ensures forall l :: l in lines ==> IsLine(l)
  {
    assert forall l :: l in lines ==> l in t.lines + lines;
  }

  lemma TracksNext(parse: Parser, t: Trace, pending: seq<byte>, t': Trace, pending': seq<byte>, polls: seq<Tick>,
                   tick: Tick, lines: seq<Line>, sent0: seq<Event>)
    requires Tracks(parse, t, pending, polls, sent0) && NoNewline(pending)
    requires Accounted(t, pending) && Accounted(t', pending')
    requires if tick.rotated && !tick.reopens then t' == t && pending' == pending
             else t' == AfterPoll(parse, if tick.rotated then Restart(t) else t, if tick.rotated then [] else pending,
                                  tick.data, lines)
    ensures Tracks(parse, t', pending', polls + [tick], sent0)
  {
    assert (polls + [tick])[..|polls|] == polls;
    assert Accounted(Restart(t), []) && NoNewline([]);
    hide CompleteLines, Concat, IsLine, NoNewline, AfterLines, AfterPoll, WholePoll, Restart, Accounted;
    NothingWaiting(parse, t, pending);
    if !tick.rotated || tick.reopens {
      WholeNext(parse, if tick.rotated then Restart(t) else t, if tick.rotated then [] else pending, t', pending',
                tick.data, lines);
    }
  }

  lemma TracksMeaning(state: TailState, handler: AuditdHandler, tx: Sender, polls: seq<Tick>, sent0: seq<Event>)
    requires state.Valid(handler, tx) && Tracks(handler.parse, state.trace, state.pending, polls, sent0)
    ensures AfterLines(handler.parse, state.trace, CompleteLines(state.pending)) == Whole(handler.parse, polls, sent0)
    ensures tx.sent <= Emitted(Whole(handler.parse, polls, sent0))
    ensures tx.Closed() || tx.sent == Emitted(Whole(handler.parse, polls, sent0))
    ensures state.trace.bytes == ReadSince(polls) && sent0 <= state.trace.before
    ensures NoRotation(polls) ==> state.trace.before == sent0
  {
    var w, t := Whole(handler.parse, polls, sent0), state.trace;
    assert w.bytes == t.bytes && w.before == t.before;
    hide *;
    assert AfterLines(handler.parse, t, CompleteLines(state.pending)) == w;
    ValidParts(state, handler, tx);
    EmittedGrows(handler.parse, t, CompleteLines(state.pending));
    WholeBytes(handler.parse, polls, sent0);
    if !tx.Closed() {
      NothingWaiting(handler.parse, t, state.pending);
    }
  }

  lemma {:induction false} WholeBytes(parse: Parser, polls: seq<Tick>, sent0: seq<Event>)
    ensures var w := Whole(parse, polls, sent0);
            && w.bytes == ReadSince(polls) && sent0 <= w.before && (NoRotation(polls) ==> w.before == sent0)
  {
    hide CompleteLines, Rest, Parsed, FeedAll, AllEvents;
    if polls != [] {
      var n := |polls| - 1;
      WholeBytes(parse, polls[..n], sent0);
      assert NoRotation(polls) ==> NoRotation(polls[..n]) && !polls[n].rotated;
    }
  }

  /** More lines only add to what is emitted. */
  lemma {:induction false} EmittedGrows(parse: Parser, t: Trace, lines: seq<Line>)
    ensures Emitted(t) <= Emitted(AfterLines(parse, t, lines))
  {
    if lines == [] {
      AfterNoLines(parse, t);
    } else {
      var n := |lines| - 1;
      assert lines[..n] + [lines[n]] == lines;
      hide AfterLines, Emitted, FeedAll, AllEvents;
      EmittedGrows(parse, t, lines[..n]);
      AfterLinesSnoc(parse, t, lines[..n], lines[n]);
      LineEmits(parse, AfterLines(parse, t, lines[..n]), lines[n]);
    }
  }

  /**
   A schedule with a reopened rotation: what was sent for the spans before it is
   what their own schedule emits, and the bytes after it start a new span.
   */
  lemma {:induction false} SpansAreSeparate(parse: Parser, earlier: seq<Tick>, tick: Tick, later: seq<Tick>,
                                            sent0: seq<Event>)
    requires tick.rotated && tick.reopens && forall l :: l in later ==> !(l.rotated && l.reopens)
    ensures var sent := Emitted(Whole(parse, earlier, sent0));
            && Whole(parse, earlier + [tick] + later, sent0).before == sent
            && Whole(parse, earlier + [tick] + later, sent0) == Whole(parse, [tick.(rotated := false)] + later, sent)
  {
    hide CompleteLines, Rest, AfterLines, Emitted;
    var sent := Emitted(Whole(parse, earlier, sent0));
    if later == [] {
      var one := [tick.(rotated := false)];
      assert (earlier + [tick])[..|earlier|] == earlier && earlier + [tick] + later == earlier + [tick];
      assert one[..0] == [] && one + later == one;
      KeepsBefore(parse, START.(before := sent), tick.data);
    } else {
      var n := |later| - 1;
      var all, span := earlier + [tick] + later, [tick.(rotated := false)] + later;
      SpansAreSeparate(parse, earlier, tick, later[..n], sent0);
      assert later[n] in later;
      assert all[..|all| - 1] == earlier + [tick] + later[..n];
      assert span[..|span| - 1] == [tick.(rotated := false)] + later[..n];
      KeepsBefore(parse, Whole(parse, all[..|all| - 1], sent0), later[n].data);
    }
  }

  lemma KeepsBefore(parse: Parser, t: Trace, data: Option<seq<byte>>)
    ensures WholePoll(parse, t, data).before == t.before
  {
  }

  /** In every span the groups are those of the complete lines of its bytes, up to splits at idle polls. */
  lemma {:induction false} SpanIsReference(parse: Parser, polls: seq<Tick>, sent0: seq<Event>)
    ensures var w := Whole(parse, polls, sent0);
            var records := Parsed(parse, CompleteLines(w.bytes));
            && w.lines == CompleteLines(w.bytes)
            && Entries(GroupBy(w.items)) == records && Merge(GroupBy(w.items)) == GroupBy(Wrap(records))
  {
    hide *;
    var w := Whole(parse, polls, sent0);
    WholeLines(parse, polls, sent0);
    GroupsAreFaithful(w.items);
    IdleOnlyRefines(w.items);
    WithoutIdleIsWrap(w.items);
  }

  lemma {:induction false} WholeLines(parse: Parser, polls: seq<Tick>, sent0: seq<Event>)
    ensures var w := Whole(parse, polls, sent0);
            w.lines == CompleteLines(w.bytes) && Recs(w.items) == Parsed(parse, w.lines)
  {
    if polls != [] {
      var n := |polls| - 1;
      WholeLines(parse, polls[..n], sent0);
      var t := Whole(parse, polls[..n], sent0);
      hide CompleteLines, Rest, AfterLines, Parsed, Recs, Emitted;
      NoLinesYet(parse, sent0);
      NoLinesYet(parse, Emitted(t));
      PollLines(parse, if polls[n].rotated then Restart(t) else t, polls[n].data);
    } else {
      NoLinesYet(parse, sent0);
    }
  }

  lemma NoLinesYet(parse: Parser, sent0: seq<Event>)
    ensures var t := START.(before := sent0);
            t.lines == CompleteLines(t.bytes) && Recs(t.items) == Parsed(parse, t.lines)
  {
  }

  lemma PollLines(parse: Parser, t: Trace, data: Option<seq<byte>>)
    requires t.lines == CompleteLines(t.bytes) && Recs(t.items) == Parsed(parse, t.lines)
    ensures var w := WholePoll(parse, t, data);
            w.lines == CompleteLines(w.bytes) && Recs(w.items) == Parsed(parse, w.lines)
  {
    hide CompleteLines, Rest, Parsed, Recs, Concat, IsLine, NoNewline;
    RecsConcat(t.items, [Idle]);
    RecsOne(Idle);
    assert Recs(t.items) + [] == Recs(t.items);
    if data.Some? && data.value != [] {
      var tail := Rest(t.bytes) + data.value;
      SplitIsExact(t.bytes);
      Reassociate(Concat(t.lines), Rest(t.bytes), data.value);
      SplitPrefix(t.bytes + data.value, t.lines, tail);
      LinesParsed(parse, t.lines, CompleteLines(tail));
      RecsConcat(t.items, Wrap(Parsed(parse, CompleteLines(tail))));
      RecsWrapped(Parsed(parse, CompleteLines(tail)));
    }
  }

  lemma {:induction false} LinesParsed(parse: Parser, a: seq<Line>, b: seq<Line>)
    ensures Parsed(parse, a + b) == Parsed(parse, a) + Parsed(parse, b)
  {
    if b == [] {
      assert a + b == a;
    } else {
      var n := |b| - 1;
      assert (a + b)[..|a + b| - 1] == a + b[..n];
      LinesParsed(parse, a, b[..n]);
    }
  }

  lemma Attached(parse: Parser, sent: seq<Event>)
    ensures var t := START.(before := sent);
            && Emitted(t) == sent && FeedAll(t.items).open == []
            && Recs(t.items) == Parsed(parse, t.lines) && Concat(t.lines) == []
            && Tracks(parse, t, [], [], sent)
  {
    AfterNoLines(parse, START.(before := sent));
  }

  /** After a rotation the tail starts over; what it emitted before stays emitted. */
  ghost function Restart(t: Trace): Trace { START.(before := Emitted(t)) }

  ghost function AfterPoll(parse: Parser, t: Trace, pending: seq<byte>, data: Option<seq<byte>>,
                           lines: seq<Line>): Trace {
    if data.Some? && data.value == [] && pending == [] then t.(items := t.items + [Idle])
    else AfterLines(parse, t.(bytes := t.bytes + if data.Some? then data.value else []), lines)
  }

  /** Moving the first line from `pending` to the handler keeps every byte accounted for. */
  lemma LineConserved(parse: Parser, t: Trace, pending: seq<byte>)
    requires FirstNewline(pending) < |pending|
    requires Concat(t.lines) + pending == t.bytes && Recs(t.items) == Parsed(parse, t.lines)
    ensures var k := FirstNewline(pending);
            var line := pending[..k + 1];
            var t' := AfterLines(parse, t, [line]);
            && Concat(t'.lines) + pending[k + 1..] == t'.bytes && IsLine(line)
            && Recs(t'.items) == Parsed(parse, t'.lines)
  {
    FirstLine(pending);
    hide Concat, Recs, Parsed, Wrap, FirstNewline, IsLine;
    var k := FirstNewline(pending);
    var line := pending[..k + 1];
    Reassociate(Concat(t.lines), line, pending[k + 1..]);
    ConcatSnoc(t.lines, line);
    ParsedSnoc(parse, t.lines, line);
    RecsConcat(t.items, Wrap(Parsed(parse, [line])));
    RecsWrapped(Parsed(parse, [line]));
  }

  lemma {:induction false} RecsWrapped(es: seq<Entry>)
    ensures Recs(Wrap(es)) == es
  {
    if es != [] {
      RecsWrapped(es[1..]);
      assert Wrap(es)[1..] == Wrap(es[1..]);
    }
  }

  lemma LineEmits(parse: Parser, t: Trace, line: Line)
    ensures var s := FeedAll(t.items);
            var t' := AfterLines(parse, t, [line]);
            if parse(line).None? then Emitted(t') == Emitted(t) && FeedAll(t'.items).open == s.open
            else
              var e := Entry(parse(line).value, line);
              var same := s.open != [] && s.open[0].record.id == e.record.id;
              && Emitted(t') == Emitted(t) + (if same then [] else EventsOf(s.open))
              && FeedAll(t'.items).open == if same then s.open + [e] else [e]
  {
    hide FeedAll, AllEvents, EventsOf;
    ParsedSnoc(parse, [], line);
    if parse(line).Some? {
      var e := Entry(parse(line).value, line);
      assert Wrap(Parsed(parse, [line])) == [Rec(e)];
      FeedEmits(t.items, Rec(e));
    } else {
      assert Wrap(Parsed(parse, [line])) == [];
      assert t.items + [] == t.items;
    }
  }

  // ----- What a reader of the log can rely on -----

  lemma {:induction false} EventRecordsInOrder(gs: seq<Group>)
    ensures |AllEvents(gs)| == |Flat(gs)|
    ensures forall i :: 0 <= i < |Flat(gs)| ==> AllEvents(gs)[i].record == Flat(gs)[i].record
  {
    if gs != [] {
      EventRecordsInOrder(gs[..|gs| - 1]);
    }
  }

  ghost function Flat(gs: seq<Group>): seq<Entry> {
    if gs == [] then [] else Flat(gs[..|gs| - 1]) + gs[|gs| - 1]
  }

  lemma {:induction false} EntriesConcat(a: seq<Group>, b: seq<Group>)
    ensures Entries(a + b) == Entries(a) + Entries(b)
  {
    if a == [] {
      assert a + b == b;
    } else {
      assert (a + b)[1..] == a[1..] + b;
      EntriesConcat(a[1..], b);
    }
  }

  lemma {:induction false} FlatIsEntries(gs: seq<Group>)
    ensures Flat(gs) == Entries(gs)
  {
    if gs != [] {
      var init, g := gs[..|gs| - 1], gs[|gs| - 1];
      FlatIsEntries(init);
      EntriesConcat(init, [g]);
      assert gs == init + [g];
      assert [g][1..] == [];
      assert Entries([g]) == g + Entries([]);
    }
  }

  lemma {:induction false} WithoutIdleIsWrap(items: seq<Item>)
    ensures WithoutIdle(items) == Wrap(Recs(items))
  {
    if items != [] {
      WithoutIdleIsWrap(items[1..]);
      var rest := Recs(items[1..]);
      assert items[0].Rec? ==> Wrap([items[0].entry] + rest) == [items[0]] + Wrap(rest);
      assert items[0].Idle? ==> Recs(items) == rest;
    }
  }

  /**
   While the receiver lives, the tail refines "split into lines, then group by
   id": the lines handed over are the complete lines of the bytes read, the
   records of the groups are those of these lines in order, and joining
   neighbouring groups of one id gives the grouping that never saw an idle poll.
   */
  lemma TailRefines(state: TailState, handler: AuditdHandler, tx: Sender)
    requires state.Valid(handler, tx) && !tx.Closed()
    ensures var t := state.trace;
            var lines := CompleteLines(t.bytes);
            var records := Parsed(handler.parse, lines);
            var groups := GroupBy(t.items);
            && t.lines == lines && state.pending == Rest(t.bytes)
            && groups == FeedAll(t.items).closed + (if handler.open == [] then [] else [handler.open])
            && tx.sent == t.before + AllEvents(FeedAll(t.items).closed)
            && Entries(groups) == records
            && Merge(groups) == GroupBy(Wrap(records))
  {
    var t := state.trace;
    SplitIsUnique(t.bytes, t.lines, state.pending);
    StreamIsBatch(t.items);
    GroupsAreFaithful(t.items);
    IdleOnlyRefines(t.items);
    WithoutIdleIsWrap(t.items);
  }

  /** Two tails that read the same bytes agree on records and merged groups, however reads and idle polls fell. */
  lemma ScheduleIndependent(a: TailState, ha: AuditdHandler, ta: Sender, b: TailState, hb: AuditdHandler, tb: Sender)
    requires a.Valid(ha, ta) && !ta.Closed() && b.Valid(hb, tb) && !tb.Closed()
    requires a.trace.bytes == b.trace.bytes && ha.parse == hb.parse
    ensures a.pending == b.pending && a.trace.lines == b.trace.lines
    ensures Entries(GroupBy(a.trace.items)) == Entries(GroupBy(b.trace.items))
    ensures Merge(GroupBy(a.trace.items)) == Merge(GroupBy(b.trace.items))
  {
    hide TailState.Valid, CompleteLines, Rest, GroupBy, Merge, Entries, FeedAll, Parsed;
    TailRefines(a, ha, ta);
    TailRefines(b, hb, tb);
  }

  /** Events sent, followed by the open group, are the parsed records in order: none lost, none twice. */
  lemma RecordsConserved(state: TailState, handler: AuditdHandler, tx: Sender)
    requires state.Valid(handler, tx) && !tx.Closed() && state.trace.before == []
    ensures var records := Parsed(handler.parse, CompleteLines(state.trace.bytes));
            && |tx.sent| + |handler.open| == |records|
            && (forall i :: 0 <= i < |tx.sent| ==> tx.sent[i].record == records[i].record)
            && forall i :: 0 <= i < |handler.open| ==> handler.open[i] == records[|tx.sent| + i]
  {
    hide *;
    var closed := FeedAll(state.trace.items).closed;
    TailRefines(state, handler, tx);
    SentThenOpen(closed, handler.open);
    assert tx.sent == AllEvents(closed);
  }

  lemma SentThenOpen(closed: seq<Group>, open: Group)
    ensures var sent, records := AllEvents(closed), Entries(closed + if open == [] then [] else [open]);
            && |sent| + |open| == |records|
            && (forall i :: 0 <= i < |sent| ==> sent[i].record == records[i].record)
            && forall i :: 0 <= i < |open| ==> open[i] == records[|sent| + i]
  {
    hide AllEvents, Flat, Entries;
    EventRecordsInOrder(closed);
    FlatIsEntries(closed);
    OpenEntries(closed, open);
  }

  lemma OpenEntries(closed: seq<Group>, open: Group)
    ensures Entries(closed + (if open == [] then [] else [open])) == Entries(closed) + open
  {
    EntriesConcat(closed, if open == [] then [] else [open]);
    assert [open][1..] == [];
    assert Entries([open]) == open + Entries([]);
  }
}
