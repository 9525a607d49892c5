/**
 What the events of the audit tail carry, said in terms of the lines of the log:
 which lines are grouped, and the text and the records of every event.
 */
module TailMeaning {
  import opened Options
  import opened Bytes
  import opened Filters
  import opened Lines
  import opened AuditGroups
  import opened AuditTail

  // ----- One event -----

  ghost function LinesIn(g: Group): seq<Line> { seq(|g|, i requires 0 <= i < |g| => g[i].line) }

  lemma {:induction false} TextIsConcat(g: Group)
    ensures LinesOf(g) == Concat(LinesIn(g))
  {
    if g == [] {
      assert LinesIn(g) == [];
    } else {
      var n := |g| - 1;
      TextIsConcat(g[..n]);
      ConcatSnoc(LinesIn(g[..n]), g[n].line);
      assert LinesIn(g) == LinesIn(g[..n]) + [g[n].line];
    }
  }

  /**
   The event of the i-th record of a group: that record, the lines of the group one
   after the other in order of arrival, and all its records in that order.
   */
  ghost predicate Carries(e: Event, g: Group, i: nat) {
    && i < |g| && e.record == g[i].record && e.lines == Concat(LinesIn(g))
    && |e.all| == |g| && forall j :: 0 <= j < |g| ==> e.all[j] == g[j].record
  }

  lemma EventCarries(g: Group, i: nat)
    requires i < |g|
    ensures |EventsOf(g)| == |g| && Carries(EventsOf(g)[i], g, i)
  {
    TextIsConcat(g);
  }

  /** The events sent for some groups: one for each record of each group, group after group. */
  lemma {:induction false} EventPlace(gs: seq<Group>, k: nat, i: nat)
    requires k < |gs| && i < |gs[k]|
    ensures |AllEvents(gs)| == |Flat(gs)|
    ensures var p := |Flat(gs[..k])| + i; p < |Flat(gs)| && Carries(AllEvents(gs)[p], gs[k], i)
    decreases |gs|
  {
    hide EventsOf, Carries;
    var n := |gs| - 1;
    EventRecordsInOrder(gs);
    EventRecordsInOrder(gs[..n]);
    if k == n {
      EventCarries(gs[n], i);
    } else {
      EventPlace(gs[..n], k, i);
      assert gs[..n][..k] == gs[..k];
    }
  }

  // ----- A whole span -----

  ghost function Texts(gs: seq<Group>): seq<seq<byte>> {
    seq(|gs|, i requires 0 <= i < |gs| => Concat(LinesIn(gs[i])))
  }

  lemma {:induction false} GroupTexts(gs: seq<Group>)
    ensures Concat(Texts(gs)) == Concat(LinesIn(Entries(gs)))
  {
    if gs == [] {
      assert Texts(gs) == [] && LinesIn(Entries(gs)) == [];
    } else {
      GroupTexts(gs[1..]);
      assert Texts(gs) == [Concat(LinesIn(gs[0]))] + Texts(gs[1..]);
      ConcatFirst(Concat(LinesIn(gs[0])), Texts(gs[1..]));
      assert LinesIn(Entries(gs)) == LinesIn(gs[0]) + LinesIn(Entries(gs[1..]));
      ConcatConcat(LinesIn(gs[0]), LinesIn(Entries(gs[1..])));
    }
  }

  /** The entries handed to the grouper have the parsable lines, in order ... */
  lemma {:induction false} ParsableLines(parse: Parser, lines: seq<Line>)
    ensures IsFilter(lines, LinesIn(Parsed(parse, lines)), (l: Line) => parse(l).Some?)
  {
    hide *;
    var keep := (l: Line) => parse(l).Some?;
    if lines == [] {
      NothingPicked(keep);
      NothingParsed(parse);
    } else {
      var n := |lines| - 1;
      ParsableLines(parse, lines[..n]);
      PickLast(lines[..n], LinesIn(Parsed(parse, lines[..n])), lines[n], keep);
      assert lines == lines[..n] + [lines[n]];
      LinesParsedSnoc(parse, lines[..n], lines[n]);
    }
  }

  lemma NothingParsed(parse: Parser)
    ensures LinesIn(Parsed(parse, [])) == []
  {
  }

  lemma LinesParsedSnoc(parse: Parser, lines: seq<Line>, line: Line)
    ensures var init := LinesIn(Parsed(parse, lines));
            LinesIn(Parsed(parse, lines + [line])) == if parse(line).Some? then init + [line] else init
  {
    ParsedSnoc(parse, lines, line);
    hide Parsed;
  }

  /** ... and the records these lines parse to. */
  lemma {:induction false} ParsedRecords(parse: Parser, lines: seq<Line>)
    ensures forall e :: e in Parsed(parse, lines) ==> parse(e.line) == Some(e.record)
  {
    if lines != [] {
      ParsedRecords(parse, lines[..|lines| - 1]);
    }
  }

  /**
   While the receiver lives: the texts of the groups whose events were sent, one
   after the other, followed by the text of the open group, are the parsable
   complete lines of the bytes read, one after the other; nothing else is carried,
   nothing twice, and nothing out of order.
   */
  lemma TailTexts(state: TailState, handler: AuditdHandler, tx: Sender) returns (closed: seq<Group>, ls: seq<Line>)
    requires state.Valid(handler, tx) && !tx.Closed()
    ensures tx.sent == state.trace.before + AllEvents(closed)
    ensures IsFilter(CompleteLines(state.trace.bytes), ls, (l: Line) => handler.parse(l).Some?)
    ensures Concat(Texts(closed)) + handler.groupLines == Concat(ls)
    ensures handler.groupLines == Concat(LinesIn(handler.open))
    ensures forall e :: e in Entries(closed) + handler.open ==> handler.parse(e.line) == Some(e.record)
    ensures forall g: Group :: g in closed ==> g != [] && forall i :: 0 <= i < |g| ==> g[i].record.id == g[0].record.id
  {
    closed := FeedAll(state.trace.items).closed;
    var open := if handler.open == [] then [] else [handler.open];
    TailRefines(state, handler, tx);
    GroupsAreFaithful(state.trace.items);
    HandlerText(state, handler, tx);
    hide *;
    var records := Parsed(handler.parse, CompleteLines(state.trace.bytes));
    ls := LinesIn(records);
    ParsableLines(handler.parse, CompleteLines(state.trace.bytes));
    ParsedRecords(handler.parse, CompleteLines(state.trace.bytes));
    OpenEntries(closed, handler.open);
    LinesInConcat(Entries(closed), handler.open);
    ConcatConcat(LinesIn(Entries(closed)), LinesIn(handler.open));
    GroupTexts(closed);
    assert forall g: Group :: g in closed ==> g in closed + open;
  }

  lemma HandlerText(state: TailState, handler: AuditdHandler, tx: Sender)
    requires state.Valid(handler, tx)
    ensures handler.groupLines == Concat(LinesIn(handler.open))
  {
    TextIsConcat(handler.open);
  }

  lemma LinesInConcat(a: seq<Entry>, b: seq<Entry>)
    ensures LinesIn(a + b) == LinesIn(a) + LinesIn(b)
  {
  }

  /** The same of every span of every schedule, whether or not the receiver stays. */
  lemma SpanTexts(parse: Parser, polls: seq<Tick>, sent0: seq<Event>) returns (ls: seq<Line>)
    ensures var w := Whole(parse, polls, sent0);
            && IsFilter(CompleteLines(w.bytes), ls, (l: Line) => parse(l).Some?)
            && Concat(Texts(GroupBy(w.items))) == Concat(ls)
  {
    hide *;
    var w := Whole(parse, polls, sent0);
    SpanIsReference(parse, polls, sent0);
    ls := LinesIn(Parsed(parse, CompleteLines(w.bytes)));
    ParsableLines(parse, CompleteLines(w.bytes));
    GroupTexts(GroupBy(w.items));
  }
}
