/**
 The detection run: events queue up in the engine, a generation cycle evaluates
 them, and the loop hands the pipeline to each cycle and takes it back.
 */
module RunLoop {
  import opened Options
  import opened RuleLife

  datatype Rule = Rule(id: Uuid, body: nat)
  // Stands for one occurrence: equal contents received twice are two events.
  datatype Event = Event(body: nat)
  datatype Alert = Alert(rule: Uuid, event: Event)

  /** Pointwise evaluation by the rule engine, and the outcome of generating data for an alert. */
  type Matcher = (Rule, Event) -> bool
  type Generator = Alert -> Outcome

  // ----- Evaluation -----

  function AlertsFor(m: Matcher, rules: seq<Rule>, e: Event): seq<Alert> {
    if rules == [] then []
    else AlertsFor(m, rules[..|rules| - 1], e)
         + if m(rules[|rules| - 1], e) then [Alert(rules[|rules| - 1].id, e)] else []
  }

  function AlertsOf(m: Matcher, rules: seq<Rule>, events: seq<Event>): seq<Alert> {
    if events == [] then []
    else AlertsOf(m, rules, events[..|events| - 1]) + AlertsFor(m, rules, events[|events| - 1])
  }

  class DetectionEngine {
    const matcher: Matcher
    var rules: seq<Rule>
    var events: seq<Event>
    var alerts: seq<Alert>
    var eventsProcessed: nat
    var alertsGenerated: nat
    // Every event evaluated so far.
    ghost var evaluated: seq<Event>

    constructor (matcher: Matcher, rules: seq<Rule>)
      ensures this.matcher == matcher && this.rules == rules && events == [] && alerts == []
      ensures eventsProcessed == 0 && alertsGenerated == 0 && evaluated == []
    {
      this.matcher, this.rules := matcher, rules;
      events, alerts, eventsProcessed, alertsGenerated, evaluated := [], [], 0, 0, [];
    }

    method PutEvent(e: Event)
      modifies this`events
      ensures events == old(events) + [e]
    {
      events := events + [e];
    }

    /** Evaluate the whole queue in order. */
    method ProcessEvents()
      modifies this`events, this`alerts, this`eventsProcessed, this`evaluated
      ensures events == [] && evaluated == old(evaluated) + old(events)
      ensures alerts == old(alerts) + AlertsOf(matcher, rules, old(events))
      ensures eventsProcessed == old(eventsProcessed) + |old(events)|
    {
      var batch := events;
      events := [];
      evaluated := evaluated + batch;
      eventsProcessed := eventsProcessed + |batch|;
      for i := 0 to |batch|
        modifies this`alerts
        invariant alerts == old(alerts) + AlertsOf(matcher, rules, batch[..i])
      {
        assert batch[..i + 1][..i] == batch[..i];
        alerts := alerts + AlertsFor(matcher, rules, batch[i]);
      }
      assert batch[..|batch|] == batch;
    }

    method GetAlerts() returns (r: seq<Alert>)
      modifies this`alerts, this`alertsGenerated
      ensures r == old(alerts) && alerts == [] && alertsGenerated == old(alertsGenerated) + |r|
    {
      r := alerts;
      alerts := [];
      alertsGenerated := alertsGenerated + |r|;
    }

    method ReloadRules(rules: seq<Rule>)
      modifies this`rules
      ensures this.rules == rules
    {
      this.rules := rules;
    }
  }

  // ----- One generation cycle -----

  datatype Adds = Adds(reg: Reg, written: seq<Uuid>)

  function AddAll(reg: Reg, max: nat, g: Generator, alerts: seq<Alert>): Adds {
    if alerts == [] then Adds(reg, [])
    else
      var s, a := AddAll(reg, max, g, alerts[..|alerts| - 1]), alerts[|alerts| - 1];
      Adds(Attempt(s.reg, max, a.rule, g(a)), s.written + if Writes(s.reg, a.rule, g(a)) then [a.rule] else [])
  }

  function RemoveIds(rules: seq<Rule>, ids: seq<Uuid>): seq<Rule> {
    if ids == [] then rules else RemoveId(RemoveIds(rules, ids[..|ids| - 1]), ids[|ids| - 1])
  }

  function RemoveId(rules: seq<Rule>, id: Uuid): seq<Rule> {
    if rules == [] then []
    else RemoveId(rules[..|rules| - 1], id) + if rules[|rules| - 1].id == id then [] else [rules[|rules| - 1]]
  }

  lemma NothingDropped(rules: seq<Rule>)
    ensures RemoveIds(rules, []) == rules
  {
  }

  /** The state a cycle changes, and the batches it returns. */
  datatype Cycled = Cycled(rules: seq<Rule>, reg: Reg, batches: seq<Uuid>)

  function Cycle(m: Matcher, g: Generator, max: nat, rules: seq<Rule>, reg: Reg, events: seq<Event>): Cycled {
    var alerts := AlertsOf(m, rules, events);
    if alerts == [] then Cycled(rules, reg, [])
    else
      var s := AddAll(reg.(failedThisCycle := {}), max, g, alerts);
      Cycled(RemoveIds(rules, s.written + s.reg.blocked), s.reg.(blocked := []), s.written)
  }

  class Pipeline {
    const engine: DetectionEngine
    const regression: SigmahqRegression
    var rules: seq<Rule>

    constructor (engine: DetectionEngine, regression: SigmahqRegression)
      ensures this.engine == engine && this.regression == regression && rules == engine.rules
    {
      this.engine, this.regression, rules := engine, regression, engine.rules;
    }

    /** Between cycles the engine runs the pipeline's rules and holds no alert. */
    ghost predicate Valid()
      reads this, engine, regression
    {
      && engine.rules == rules && engine.alerts == [] && regression.hasOutput && regression.blocked == []
      && engine.eventsProcessed == |engine.evaluated|
    }

    /** Evaluate what has queued up, generate data, and drop the rules that are settled. */
    method ProcessAndGenerate(g: Generator) returns (batches: seq<Uuid>)
      requires Valid()
      modifies this, engine, regression
      ensures Valid() && regression.maxFailedCycles == old(regression.maxFailedCycles)
      ensures engine.events == [] && engine.evaluated == old(engine.evaluated) + old(engine.events)
      ensures engine.alertsGenerated
           == old(engine.alertsGenerated) + |AlertsOf(engine.matcher, old(rules), old(engine.events))|
      ensures Cycled(rules, regression.View(), batches)
           == Cycle(engine.matcher, g, regression.maxFailedCycles,
             old(rules), old(regression.View()), old(engine.events))
    {
      hide AlertsOf, Attempt, Writes, RemoveId, AddAll, RemoveIds;
      engine.ProcessEvents();
      var alerts := engine.GetAlerts();
      assert alerts == AlertsOf(engine.matcher, old(rules), old(engine.events));
      batches := [];
      if alerts == [] {
        return;
      }
      regression.BeginCycle();
      batches := AddAlerts(g, alerts);
      var retiredIds := regression.TakeBlocked();
      retiredIds := batches + retiredIds;
      if retiredIds != [] {
        DropRules(retiredIds);
        engine.ReloadRules(rules);
      } else {
        NothingDropped(rules);
      }
    }

    method AddAlerts(g: Generator, alerts: seq<Alert>) returns (batches: seq<Uuid>)
      requires regression.hasOutput
      modifies regression
      ensures regression.maxFailedCycles == old(regression.maxFailedCycles)
      ensures Adds(regression.View(), batches)
           == AddAll(old(regression.View()), regression.maxFailedCycles, g, alerts)
    {
      hide Attempt, Writes;
      batches := [];
      for i := 0 to |alerts|
        invariant regression.maxFailedCycles == old(regression.maxFailedCycles)
        invariant Adds(regression.View(), batches)
               == AddAll(old(regression.View()), regression.maxFailedCycles, g, alerts[..i])
      {
        assert alerts[..i + 1][..i] == alerts[..i];
        var written := regression.Add(alerts[i].rule, g(alerts[i]));
        if written {
          batches := batches + [alerts[i].rule];
        }
      }
      assert alerts[..|alerts|] == alerts;
    }

    method DropRules(ids: seq<Uuid>)
      modifies this`rules
      ensures rules == RemoveIds(old(rules), ids)
    {
      hide RemoveId;
      for i := 0 to |ids|
        invariant rules == RemoveIds(old(rules), ids[..i])
      {
        assert ids[..i + 1][..i] == ids[..i];
        rules := RemoveId(rules, ids[i]);
      }
      assert ids[..|ids|] == ids;
    }
  }

  // ----- The loop -----

  /** What the select of the loop yields. */
  datatype Arm = Shutdown | Received(event: Event) | ChannelClosed | Tick(panics: bool)

  ghost function ReceivedIn(arms: seq<Arm>): seq<Event> {
    if arms == [] then []
    else ReceivedIn(arms[..|arms| - 1]) + if arms[|arms| - 1].Received? then [arms[|arms| - 1].event] else []
  }

  /** How the received events fall into cycles: each tick takes what came in since the one before. */
  ghost function CyclesIn(arms: seq<Arm>): seq<seq<Event>> {
    if arms == [] then []
    else
      var init := arms[..|arms| - 1];
      if arms[|arms| - 1].Tick? then CyclesIn(init) + [OpenIn(init)] else CyclesIn(init)
  }

  /** What has come in since the last tick. */
  ghost function OpenIn(arms: seq<Arm>): seq<Event> {
    if arms == [] then []
    else
      var init := arms[..|arms| - 1];
      match arms[|arms| - 1]
      case Received(e) => OpenIn(init) + [e]
      case Tick(_) => []
      case _ => OpenIn(init)
  }

  /** The loop ends with this arm. */
  ghost predicate Stops(arms: seq<Arm>, i: nat, maxRuns: Option<nat>)
    requires i < |arms|
  {
    || arms[i].Shutdown? || arms[i].ChannelClosed? || arms[i] == Tick(true)
    || (arms[i].Tick? && maxRuns.Some? && |CyclesIn(arms[..i + 1])| >= maxRuns.value)
  }

  function Flatten<T>(ss: seq<seq<T>>): seq<T> {
    if ss == [] then [] else Flatten(ss[..|ss| - 1]) + ss[|ss| - 1]
  }

  /** Cycles in sequence over their share of the events. */
  function RunCycles(m: Matcher, g: Generator, max: nat, rules: seq<Rule>, reg: Reg, cycles: seq<seq<Event>>): Cycled {
    if cycles == [] then Cycled(rules, reg, [])
    else
      var s := RunCycles(m, g, max, rules, reg, cycles[..|cycles| - 1]);
      var c := Cycle(m, g, max, s.rules, s.reg, cycles[|cycles| - 1]);
      Cycled(c.rules, c.reg, s.batches + c.batches)
  }

  /** The batches each cycle hands over for upload. */
  function UploadsOf(m: Matcher, g: Generator, max: nat, rules: seq<Rule>, reg: Reg,
                     cycles: seq<seq<Event>>): seq<seq<Uuid>> {
    if cycles == [] then []
    else
      var init := cycles[..|cycles| - 1];
      var s := RunCycles(m, g, max, rules, reg, init);
      UploadsOf(m, g, max, rules, reg, init) + [Cycle(m, g, max, s.rules, s.reg, cycles[|cycles| - 1]).batches]
  }

  /** How many alerts the cycles saw. */
  function AlertCount(m: Matcher, g: Generator, max: nat, rules: seq<Rule>, reg: Reg, cycles: seq<seq<Event>>): nat {
    if cycles == [] then 0
    else
      var init := cycles[..|cycles| - 1];
      AlertCount(m, g, max, rules, reg, init)
      + |AlertsOf(m, RunCycles(m, g, max, rules, reg, init).rules, cycles[|cycles| - 1])|
  }

  /** What the loop leaves behind: uploads in order, how the events fell into cycles, and whether a cycle panicked. */
  datatype Summary = Summary(uploads: seq<seq<Uuid>>, cycles: seq<seq<Event>>, lost: bool, dropped: nat)

  ghost predicate Tracks(p: Pipeline, t: Summary, rules0: seq<Rule>, reg0: Reg, g: Generator, max: nat)
    reads p, p.engine, p.regression
  {
    && p.Valid() && p.regression.maxFailedCycles == max && t.dropped == 0
    && Flatten(t.cycles) == p.engine.evaluated
    && Cycled(p.rules, p.regression.View(), Flatten(t.uploads))
       == RunCycles(p.engine.matcher, g, max, rules0, reg0, t.cycles)
    && t.uploads == UploadsOf(p.engine.matcher, g, max, rules0, reg0, t.cycles)
    && p.engine.alertsGenerated == AlertCount(p.engine.matcher, g, max, rules0, reg0, t.cycles)
  }

  /** One tick: take the pipeline out of its slot, run a cycle, put it back. */
  method RunTick(p: Pipeline, g: Generator, t: Summary, ghost rules0: seq<Rule>, ghost reg0: Reg, ghost max: nat)
    returns (t': Summary)
    requires Tracks(p, t, rules0, reg0, g, max)
    modifies p, p.engine, p.regression
    ensures Tracks(p, t', rules0, reg0, g, max) && t'.lost == t.lost && t'.dropped == t.dropped
    ensures t'.cycles == t.cycles + [old(p.engine.events)]
    ensures p.engine.events == [] && p.engine.evaluated == old(p.engine.evaluated + p.engine.events)
  {
    hide Cycle, AlertsOf;
    var events := p.engine.events;
    assert (t.cycles + [events])[..|t.cycles|] == t.cycles;
    var batches := p.ProcessAndGenerate(g);
    t' := t.(uploads := t.uploads + [batches], cycles := t.cycles + [events]);
    assert t'.cycles[..|t.cycles|] == t.cycles && t'.uploads[..|t.uploads|] == t.uploads;
  }

  lemma Start(p: Pipeline, g: Generator, rules0: seq<Rule>, reg0: Reg, max: nat)
    requires p.Valid() && p.engine.evaluated == [] && p.engine.alertsGenerated == 0
             && p.regression.maxFailedCycles == max
    requires p.rules == rules0 && p.regression.View() == reg0
    ensures Tracks(p, Summary([], [], false, 0), rules0, reg0, g, max)
  {
  }

  /** Receive one event; with the pipeline away it would be counted as dropped. */
  method Queue(slot: Pipeline?, e: Event, t: Summary, ghost g: Generator, ghost rules0: seq<Rule>, ghost reg0: Reg,
               ghost max: nat) returns (t': Summary)
    requires slot != null ==> Tracks(slot, t, rules0, reg0, g, max)
    modifies if slot == null then {} else {slot.engine}
    ensures if slot == null then t' == t.(dropped := t.dropped + 1)
            else && t' == t && Tracks(slot, t, rules0, reg0, g, max)
                 && slot.engine.events == old(slot.engine.events) + [e]
                 && slot.engine.evaluated == old(slot.engine.evaluated)
  {
    t' := t;
    if slot != null {
      slot.engine.PutEvent(e);
    } else {
      t' := t.(dropped := t.dropped + 1);
    }
  }

  /** These cycles, queued and evaluated events are what the first `n` arms call for. */
  ghost predicate At(cycles: seq<seq<Event>>, queued: seq<Event>, seen: seq<Event>, arms: seq<Arm>, n: nat)
    requires n <= |arms|
  {
    cycles == CyclesIn(arms[..n]) && queued == OpenIn(arms[..n]) && seen + queued == ReceivedIn(arms[..n])
  }

  lemma AtStart(arms: seq<Arm>)
    ensures At([], [], [], arms, 0)
  {
    assert arms[..0] == [];
  }

  lemma AtNext(cycles: seq<seq<Event>>, queued: seq<Event>, seen: seq<Event>, arms: seq<Arm>, n: nat)
    requires n < |arms| && At(cycles, queued, seen, arms, n)
    ensures match arms[n]
            case Received(e) => At(cycles, queued + [e], seen, arms, n + 1)
            case Tick(_) => At(cycles + [queued], [], seen + queued, arms, n + 1)
            case _ => At(cycles, queued, seen, arms, n + 1)
  {
    assert arms[..n + 1][..n] == arms[..n];
    assert arms[n].Received? ==> seen + (queued + [arms[n].event]) == (seen + queued) + [arms[n].event];
  }

  lemma TickStops(cycles: seq<seq<Event>>, queued: seq<Event>, seen: seq<Event>, arms: seq<Arm>, n: nat,
                  maxRuns: Option<nat>)
    requires n < |arms| && At(cycles, queued, seen, arms, n + 1) && arms[n] == Tick(false)
    ensures Stops(arms, n, maxRuns) <==> maxRuns.Some? && |cycles| >= maxRuns.value
  {
  }

  /** The loop: up to the first arm that stops it. After a panic the slot stays empty. */
  method RunArms(pipeline: Pipeline, g: Generator, arms: seq<Arm>, maxRuns: Option<nat>, ghost rules0: seq<Rule>,
                 ghost reg0: Reg, ghost max: nat)
    returns (t: Summary, n: nat, slot: Pipeline?)
    requires Tracks(pipeline, Summary([], [], false, 0), rules0, reg0, g, max)
    requires pipeline.engine.events == [] && pipeline.engine.evaluated == []
    modifies pipeline, pipeline.engine, pipeline.regression
    ensures n <= |arms| && !t.lost && t.dropped == 0
    ensures forall i :: 0 <= i < n - 1 ==> !Stops(arms, i, maxRuns)
    ensures n < |arms| ==> 0 < n && Stops(arms, n - 1, maxRuns)
    ensures slot == if 0 < n && arms[n - 1] == Tick(true) then null else pipeline
    ensures slot == null ==> t.cycles == CyclesIn(arms[..n - 1])
    ensures slot != null ==>
      && Tracks(pipeline, t, rules0, reg0, g, max)
      && At(t.cycles, pipeline.engine.events, pipeline.engine.evaluated, arms, n)
  {
    hide Tracks, CyclesIn, OpenIn, ReceivedIn;
    t := Summary([], [], false, 0);
    slot := pipeline;
    n := 0;
    var runs := 0;
    AtStart(arms);
    while n < |arms|
      invariant 0 <= n <= |arms| && slot == pipeline && !t.lost && t.dropped == 0 && runs == |t.cycles|
      invariant forall i :: 0 <= i < n ==> !Stops(arms, i, maxRuns)
      invariant Tracks(pipeline, t, rules0, reg0, g, max)
      invariant At(t.cycles, pipeline.engine.events, pipeline.engine.evaluated, arms, n)
    {
      AtNext(t.cycles, pipeline.engine.events, pipeline.engine.evaluated, arms, n);
      match arms[n] {
      case Received(event) =>
        t := Queue(slot, event, t, g, rules0, reg0, max);
      case Tick(panics) =>
        var taken := slot;
        slot := null;
        if panics {
          return t, n + 1, null;
        }
        t := RunTick(taken, g, t, rules0, reg0, max);
        slot := taken;
        runs := runs + 1;
        TickStops(t.cycles, pipeline.engine.events, pipeline.engine.evaluated, arms, n, maxRuns);
        if maxRuns.Some? && runs >= maxRuns.value {
          return t, n + 1, slot;
        }
      case _ =>
        return t, n + 1, slot;
      }
      n := n + 1;
    }
    assert n > 0 ==> !Stops(arms, n - 1, maxRuns);
  }

  /** Everything still in the channel goes to the engine. */
  method Drain(p: Pipeline, drained: seq<Event>, ghost t: Summary, ghost g: Generator, ghost rules0: seq<Rule>,
               ghost reg0: Reg, ghost max: nat)
    requires Tracks(p, t, rules0, reg0, g, max)
    modifies p.engine
    ensures Tracks(p, t, rules0, reg0, g, max)
    ensures p.engine.events == old(p.engine.events) + drained && p.engine.evaluated == old(p.engine.evaluated)
  {
    hide RunCycles, AlertCount, UploadsOf, Flatten;
    for i := 0 to |drained|
      invariant Tracks(p, t, rules0, reg0, g, max)
      invariant p.engine.events == old(p.engine.events) + drained[..i] && p.engine.evaluated == old(p.engine.evaluated)
    {
      assert drained[..i + 1] == drained[..i] + [drained[i]];
      p.engine.PutEvent(drained[i]);
    }
    assert drained[..|drained|] == drained;
  }

  /**
   The event loop and the final flush. The loop looks at the arms one by one up
   to the first that stops it; each tick runs a cycle on what came in since the
   one before. The slot is full at every loop head, so no event is dropped;
   without a panic every event received in the loop or drained after it is
   evaluated exactly once, in arrival order.
   */
  method RunDetection(pipeline: Pipeline, g: Generator, arms: seq<Arm>, drained: seq<Event>, maxRuns: Option<nat>,
                      finalPanics: bool)
    returns (t: Summary, n: nat)
    requires pipeline.Valid() && pipeline.engine.events == [] && pipeline.engine.evaluated == []
    requires pipeline.engine.alertsGenerated == 0
    modifies pipeline, pipeline.engine, pipeline.regression
    ensures n <= |arms| && t.dropped == 0
    ensures forall i :: 0 <= i < n - 1 ==> !Stops(arms, i, maxRuns)
    ensures n < |arms| ==> 0 < n && Stops(arms, n - 1, maxRuns)
    ensures t.lost <==> (0 < n && arms[n - 1] == Tick(true)) || finalPanics
    ensures t.lost ==> t.cycles == CyclesIn(arms[..if 0 < n && arms[n - 1] == Tick(true) then n - 1 else n])
    ensures !t.lost ==>
      && t.cycles == CyclesIn(arms[..n]) + [OpenIn(arms[..n]) + drained]
      && pipeline.engine.evaluated == ReceivedIn(arms[..n]) + drained && pipeline.engine.events == []
      && Tracks(pipeline, t, old(pipeline.rules), old(pipeline.regression.View()), g,
                old(pipeline.regression.maxFailedCycles))
  {
    hide CyclesIn, OpenIn, ReceivedIn, Tracks, Pipeline.Valid, Stops, RunCycles;
    ghost var rules0, reg0, max := pipeline.rules, pipeline.regression.View(), pipeline.regression.maxFailedCycles;
    Start(pipeline, g, rules0, reg0, max);
    var slot;
    t, n, slot := RunArms(pipeline, g, arms, maxRuns, rules0, reg0, max);
    if slot == null {
      return t.(lost := true), n;
    }
    ghost var seen, queued := pipeline.engine.evaluated, pipeline.engine.events;
    Drain(slot, drained, t, g, rules0, reg0, max);
    assert seen + (queued + drained) == (seen + queued) + drained;
    if finalPanics {
      return t.(lost := true), n;
    }
    t := RunTick(slot, g, t, rules0, reg0, max);
  }
}
