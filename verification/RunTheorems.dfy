/**
 Whole runs: they are histories of the regression store, dropping settled rules
 from the engine changes nothing else, and without failures the batches do not
 depend on how events fall into cycles.
 */
module RunTheorems {
  import opened RuleLife
  import opened RunLoop

  // ----- Runs are histories -----

  ghost function Tries(g: Generator, alerts: seq<Alert>): seq<Op> {
    seq(|alerts|, i requires 0 <= i < |alerts| => Try(alerts[i].rule, g(alerts[i])))
  }

  ghost function CycleOps(g: Generator, alerts: seq<Alert>): seq<Op> {
    if alerts == [] then [] else [Begin] + Tries(g, alerts) + [Take]
  }

  /** The operations a run performs on the regression store. */
  ghost function OpsOf(m: Matcher, g: Generator, max: nat, rules: seq<Rule>, cycles: seq<seq<Event>>): seq<Op> {
    if cycles == [] then []
    else
      var init := cycles[..|cycles| - 1];
      OpsOf(m, g, max, rules, init)
      + CycleOps(g, AlertsOf(m, RunCycles(m, g, max, rules, FRESH, init).rules, cycles[|cycles| - 1]))
  }

  lemma RunSnoc(ops: seq<Op>, op: Op, max: nat)
    ensures Run(ops + [op], max) == Apply(Run(ops, max), max, op)
  {
    assert (ops + [op])[..|ops|] == ops;
  }

  lemma {:induction false} TriesAreAdds(ops: seq<Op>, max: nat, g: Generator, alerts: seq<Alert>)
    ensures var l, s := Run(ops, max), AddAll(Run(ops, max).reg, max, g, alerts);
            var l' := Run(ops + Tries(g, alerts), max);
            l'.reg == s.reg && l'.generated == l.generated + s.written
  {
    hide *;
    if alerts == [] {
      NoAlerts(Run(ops, max).reg, max, g);
      NoTries(ops, g);
    } else {
      var init, a := alerts[..|alerts| - 1], alerts[|alerts| - 1];
      TriesAreAdds(ops, max, g, init);
      TriesSnoc(ops, g, alerts);
      AddAllSnoc(Run(ops, max).reg, max, g, alerts);
      RunTry(ops + Tries(g, init), max, a.rule, g(a));
    }
  }

  lemma NoTries(ops: seq<Op>, g: Generator)
    ensures ops + Tries(g, []) == ops
  {
  }

  lemma TriesSnoc(ops: seq<Op>, g: Generator, alerts: seq<Alert>)
    requires alerts != []
    ensures var n := |alerts| - 1;
            ops + Tries(g, alerts) == (ops + Tries(g, alerts[..n])) + [Try(alerts[n].rule, g(alerts[n]))]
  {
  }

  lemma AddAllSnoc(reg: Reg, max: nat, g: Generator, alerts: seq<Alert>)
    requires alerts != []
    ensures var s, a := AddAll(reg, max, g, alerts[..|alerts| - 1]), alerts[|alerts| - 1];
            AddAll(reg, max, g, alerts)
            == Adds(Attempt(s.reg, max, a.rule, g(a)), s.written + if Writes(s.reg, a.rule, g(a)) then [a.rule] else [])
  {
    hide Attempt, Writes;
  }

  lemma RunTry(ops: seq<Op>, max: nat, rule: Uuid, outcome: Outcome)
    ensures var l, l' := Run(ops, max), Run(ops + [Try(rule, outcome)], max);
            && l'.reg == Attempt(l.reg, max, rule, outcome)
            && l'.generated == l.generated + if Writes(l.reg, rule, outcome) then [rule] else []
  {
    hide Attempt, Writes, Run;
    RunSnoc(ops, Try(rule, outcome), max);
    var l := Run(ops, max);
    assert l.generated + [] == l.generated;
  }

  lemma CycleIsOps(ops: seq<Op>, m: Matcher, g: Generator, max: nat, rules: seq<Rule>, events: seq<Event>)
    ensures var l := Run(ops, max);
            var l' := Run(ops + CycleOps(g, AlertsOf(m, rules, events)), max);
            var c := Cycle(m, g, max, rules, l.reg, events);
            l'.reg == c.reg && l'.generated == l.generated + c.batches
  {
    hide AlertsOf, AddAll, RemoveIds, Attempt, Writes, Run;
    var alerts := AlertsOf(m, rules, events);
    if alerts == [] {
      assert ops + CycleOps(g, alerts) == ops;
    } else {
      var tries := ops + [Begin] + Tries(g, alerts);
      assert ops + CycleOps(g, alerts) == tries + [Take];
      RunSnoc(ops, Begin, max);
      TriesAreAdds(ops + [Begin], max, g, alerts);
      RunSnoc(tries, Take, max);
    }
  }

  /** A run leaves the store, and returns the batches, of its history. */
  lemma {:induction false} RunIsHistory(m: Matcher, g: Generator, max: nat, rules: seq<Rule>, cycles: seq<seq<Event>>)
    ensures var r := RunCycles(m, g, max, rules, FRESH, cycles);
            var l := Run(OpsOf(m, g, max, rules, cycles), max);
            r.reg == l.reg && r.batches == l.generated
  {
    hide AlertsOf, Cycle, CycleOps;
    if cycles != [] {
      var init := cycles[..|cycles| - 1];
      RunIsHistory(m, g, max, rules, init);
      CycleIsOps(OpsOf(m, g, max, rules, init), m, g, max, RunCycles(m, g, max, rules, FRESH, init).rules,
                 cycles[|cycles| - 1]);
    }
  }

  /** No rule appears in two batches of a run, whatever fails. */
  lemma BatchesAreDistinct(m: Matcher, g: Generator, max: nat, rules: seq<Rule>, cycles: seq<seq<Event>>)
    ensures NoRepeats(RunCycles(m, g, max, rules, FRESH, cycles).batches)
  {
    RunIsHistory(m, g, max, rules, cycles);
    SettledOnce(OpsOf(m, g, max, rules, cycles), max);
  }

  /** In a run a rule is retired exactly when its history says so. */
  lemma RetiredInRun(m: Matcher, g: Generator, max: nat, rules: seq<Rule>, cycles: seq<seq<Event>>, id: Uuid)
    requires 1 <= max && id != NIL
    ensures var ops := OpsOf(m, g, max, rules, cycles);
            id in RunCycles(m, g, max, rules, FRESH, cycles).reg.retired
            <==> (exists k :: BlockedAt(ops, max, id, k)) || (exists k :: GeneratedAt(ops, max, id, k))
  {
    hide BlockedAt, GeneratedAt, RunCycles, OpsOf;
    RunIsHistory(m, g, max, rules, cycles);
    LifeCycle(OpsOf(m, g, max, rules, cycles), max, id);
  }

  /** Whatever the ticks, the cycles and the events still queued are the events received, in order. */
  lemma {:induction false} CyclesPartition(arms: seq<Arm>)
    ensures Flatten(CyclesIn(arms)) + OpenIn(arms) == ReceivedIn(arms)
  {
    if arms != [] {
      var init, arm := arms[..|arms| - 1], arms[|arms| - 1];
      CyclesPartition(init);
      if arm.Tick? {
        assert (CyclesIn(init) + [OpenIn(init)])[..|CyclesIn(init)|] == CyclesIn(init);
      }
    }
  }

  /** The uploads of a run, put together, are its batches. */
  lemma {:induction false} UploadsAreBatches(m: Matcher, g: Generator, max: nat, rules: seq<Rule>, reg: Reg,
                                             cycles: seq<seq<Event>>)
    ensures Flatten(UploadsOf(m, g, max, rules, reg, cycles)) == RunCycles(m, g, max, rules, reg, cycles).batches
  {
    hide Cycle;
    if cycles != [] {
      var init := cycles[..|cycles| - 1];
      UploadsAreBatches(m, g, max, rules, reg, init);
      var u := UploadsOf(m, g, max, rules, reg, init);
      assert UploadsOf(m, g, max, rules, reg, cycles)[..|u|] == u;
    }
  }

  // ----- Dropping settled rules -----

  ghost function Live(rules: seq<Rule>, retired: set<Uuid>): seq<Rule> {
    if rules == [] then []
    else Live(rules[..|rules| - 1], retired) + if rules[|rules| - 1].id in retired then [] else [rules[|rules| - 1]]
  }

  ghost function LiveAlerts(alerts: seq<Alert>, retired: set<Uuid>): seq<Alert> {
    if alerts == [] then []
    else
      var last := alerts[|alerts| - 1];
      LiveAlerts(alerts[..|alerts| - 1], retired) + if last.rule in retired then [] else [last]
  }

  lemma {:induction false} RemoveIdIsLive(rules: seq<Rule>, retired: set<Uuid>, id: Uuid)
    ensures RemoveId(Live(rules, retired), id) == Live(rules, retired + {id})
  {
    if rules != [] {
      var init, r := rules[..|rules| - 1], rules[|rules| - 1];
      RemoveIdIsLive(init, retired, id);
      var kept := Live(init, retired);
      if r.id in retired {
        assert Live(rules, retired) == kept;
      } else {
        assert (kept + [r])[..|kept|] == kept;
      }
    }
  }

  lemma {:induction false} RemoveIdsIsLive(rules: seq<Rule>, retired: set<Uuid>, ids: seq<Uuid>)
    ensures RemoveIds(Live(rules, retired), ids) == Live(rules, retired + set id | id in ids)
  {
    if ids == [] {
      assert retired + (set id | id in ids) == retired;
    } else {
      var init, id := ids[..|ids| - 1], ids[|ids| - 1];
      RemoveIdsIsLive(rules, retired, init);
      RemoveIdIsLive(rules, retired + (set x | x in init), id);
      assert ids == init + [id];
      assert retired + (set x | x in init) + {id} == retired + set x | x in ids;
    }
  }

  lemma {:induction false} LiveAlertsConcat(a: seq<Alert>, b: seq<Alert>, retired: set<Uuid>)
    ensures LiveAlerts(a + b, retired) == LiveAlerts(a, retired) + LiveAlerts(b, retired)
  {
    if b == [] {
      assert a + b == a;
    } else {
      assert (a + b)[..|a + b| - 1] == a + b[..|b| - 1];
      LiveAlertsConcat(a, b[..|b| - 1], retired);
    }
  }

  lemma {:induction false} LiveRulesAlert(m: Matcher, rules: seq<Rule>, e: Event, retired: set<Uuid>)
    ensures AlertsFor(m, Live(rules, retired), e) == LiveAlerts(AlertsFor(m, rules, e), retired)
  {
    if rules != [] {
      var init, r := rules[..|rules| - 1], rules[|rules| - 1];
      LiveRulesAlert(m, init, e, retired);
      var kept, found := Live(init, retired), AlertsFor(m, init, e);
      if r.id in retired {
        assert Live(rules, retired) == kept;
      } else {
        assert (kept + [r])[..|kept|] == kept;
      }
      if m(r, e) {
        var a := Alert(r.id, e);
        assert (found + [a])[..|found|] == found;
      } else {
        assert AlertsFor(m, rules, e) == found;
      }
    }
  }

  /** Evaluating without the retired rules gives the alerts of the other rules, in the same order. */
  lemma {:induction false} LiveRulesAlerts(m: Matcher, rules: seq<Rule>, events: seq<Event>, retired: set<Uuid>)
    ensures AlertsOf(m, Live(rules, retired), events) == LiveAlerts(AlertsOf(m, rules, events), retired)
  {
    hide AlertsFor, Live;
    if events != [] {
      var init, e := events[..|events| - 1], events[|events| - 1];
      LiveRulesAlerts(m, rules, init, retired);
      LiveRulesAlert(m, rules, e, retired);
      LiveAlertsConcat(AlertsOf(m, rules, init), AlertsFor(m, rules, e), retired);
    }
  }

  lemma {:induction false} AddAllGrows(reg: Reg, max: nat, g: Generator, alerts: seq<Alert>)
    ensures reg.retired <= AddAll(reg, max, g, alerts).reg.retired
  {
    if alerts != [] {
      AddAllGrows(reg, max, g, alerts[..|alerts| - 1]);
    }
  }

  /** Alerts of retired rules make no difference to what is generated, counted or blocked. */
  lemma {:induction false} RetiredAlertsAreIdle(reg: Reg, max: nat, g: Generator, alerts: seq<Alert>,
                                                retired: set<Uuid>)
    requires retired <= reg.retired
    ensures AddAll(reg, max, g, LiveAlerts(alerts, retired)) == AddAll(reg, max, g, alerts)
  {
    if alerts != [] {
      var init, a := alerts[..|alerts| - 1], alerts[|alerts| - 1];
      RetiredAlertsAreIdle(reg, max, g, init, retired);
      AddAllGrows(reg, max, g, init);
      var kept := LiveAlerts(init, retired);
      if a.rule in retired {
        assert LiveAlerts(alerts, retired) == kept;
      } else {
        assert (kept + [a])[..|kept|] == kept;
      }
    }
  }

  lemma SetSnoc(s: seq<Uuid>, id: Uuid)
    ensures (set x | x in s + [id]) == (set x | x in s) + {id}
  {
  }

  /** What attempts retire is what they write and what they block. */
  lemma {:induction false} AddAllRetires(reg: Reg, max: nat, g: Generator, alerts: seq<Alert>)
    requires reg.blocked == []
    ensures var s := AddAll(reg, max, g, alerts);
            s.reg.retired == reg.retired + (set id | id in s.written) + (set id | id in s.reg.blocked)
  {
    if alerts != [] {
      var init, a := alerts[..|alerts| - 1], alerts[|alerts| - 1];
      AddAllRetires(reg, max, g, init);
      var s := AddAll(reg, max, g, init);
      SetSnoc(s.written, a.rule);
      SetSnoc(s.reg.blocked, a.rule);
    }
  }

  lemma CycleKeepsLive(m: Matcher, g: Generator, max: nat, rules: seq<Rule>, reg: Reg, events: seq<Event>)
    requires reg.blocked == []
    ensures var c := Cycle(m, g, max, Live(rules, reg.retired), reg, events);
            c.rules == Live(rules, c.reg.retired) && c.reg.blocked == []
  {
    hide AlertsOf, AddAll, Live, RemoveIds;
    var alerts := AlertsOf(m, Live(rules, reg.retired), events);
    var start := reg.(failedThisCycle := {});
    AddAllRetires(start, max, g, alerts);
    var s := AddAll(start, max, g, alerts);
    RemoveIdsIsLive(rules, reg.retired, s.written + s.reg.blocked);
    var ids := set id | id in s.written + s.reg.blocked;
    assert ids == (set id | id in s.written) + (set id | id in s.reg.blocked);
    assert reg.retired + ids == s.reg.retired;
    assert RemoveIds(Live(rules, reg.retired), s.written + s.reg.blocked) == Live(rules, reg.retired + ids);
  }

  /** At every point of a run the engine holds exactly the rules that are not retired. */
  lemma {:induction false} EngineHoldsLiveRules(m: Matcher, g: Generator, max: nat, rules: seq<Rule>,
                                                cycles: seq<seq<Event>>)
    ensures var r := RunCycles(m, g, max, rules, FRESH, cycles);
            r.rules == Live(rules, r.reg.retired) && r.reg.blocked == []
  {
    hide AlertsOf, AddAll, Live, Cycle;
    if cycles == [] {
      NothingRetired(rules);
    } else {
      var init := cycles[..|cycles| - 1];
      EngineHoldsLiveRules(m, g, max, rules, init);
      CycleKeepsLive(m, g, max, rules, RunCycles(m, g, max, rules, FRESH, init).reg, cycles[|cycles| - 1]);
    }
  }

  /** The alert counter grows by the alerts of those rules that were not settled before the cycle, and no others. */
  lemma CountsLiveAlerts(m: Matcher, g: Generator, max: nat, rules: seq<Rule>, cycles: seq<seq<Event>>,
                         events: seq<Event>)
    ensures var retired := RunCycles(m, g, max, rules, FRESH, cycles).reg.retired;
            AlertCount(m, g, max, rules, FRESH, cycles + [events])
            == AlertCount(m, g, max, rules, FRESH, cycles) + |LiveAlerts(AlertsOf(m, rules, events), retired)|
  {
    hide AlertsOf, RunCycles, Live, LiveAlerts;
    assert (cycles + [events])[..|cycles|] == cycles;
    EngineHoldsLiveRules(m, g, max, rules, cycles);
    LiveRulesAlerts(m, rules, events, RunCycles(m, g, max, rules, FRESH, cycles).reg.retired);
  }

  // ----- Without failures, cycles do not matter -----

  lemma {:induction false} AddAllConcat(reg: Reg, max: nat, g: Generator, a: seq<Alert>, b: seq<Alert>)
    ensures var s := AddAll(reg, max, g, a);
            var t := AddAll(s.reg, max, g, b);
            AddAll(reg, max, g, a + b) == Adds(t.reg, s.written + t.written)
  {
    hide Attempt, Writes;
    if b == [] {
      assert a + b == a;
    } else {
      assert (a + b)[..|a + b| - 1] == a + b[..|b| - 1];
      AddAllConcat(reg, max, g, a, b[..|b| - 1]);
    }
  }

  ghost predicate NeverFails(g: Generator) { forall a: Alert :: g(a) != Failed }

  /** Then an attempt only looks at, and only changes, which rules are retired. */
  lemma {:induction false} OnlyRetiredMatters(reg: Reg, reg': Reg, max: nat, g: Generator, alerts: seq<Alert>)
    requires NeverFails(g) && reg.retired == reg'.retired
    ensures var s, t := AddAll(reg, max, g, alerts), AddAll(reg', max, g, alerts);
            && s.written == t.written && s.reg == reg.(retired := t.reg.retired)
            && s.reg.retired == reg.retired + set id | id in s.written
  {
    if alerts != [] {
      var init, a := alerts[..|alerts| - 1], alerts[|alerts| - 1];
      OnlyRetiredMatters(reg, reg', max, g, init);
      assert g(a) != Failed;
      var w := AddAll(reg, max, g, init).written;
      assert (set id | id in w + [a.rule]) == (set id | id in w) + {a.rule};
    }
  }

  lemma {:induction false} AlertsConcat(m: Matcher, rules: seq<Rule>, a: seq<Event>, b: seq<Event>)
    ensures AlertsOf(m, rules, a + b) == AlertsOf(m, rules, a) + AlertsOf(m, rules, b)
  {
    hide AlertsFor;
    if b == [] {
      assert a + b == a;
    } else {
      assert (a + b)[..|a + b| - 1] == a + b[..|b| - 1];
      AlertsConcat(m, rules, a, b[..|b| - 1]);
    }
  }

  /** The rules that some event matches and that can be generated, in order of first such alert. */
  ghost function FirstMatches(m: Matcher, g: Generator, rules: seq<Rule>, events: seq<Event>): Adds {
    AddAll(FRESH, 1, g, AlertsOf(m, rules, events))
  }

  lemma {:induction false} MaxIsIdle(reg: Reg, max: nat, max': nat, g: Generator, alerts: seq<Alert>)
    requires NeverFails(g)
    ensures AddAll(reg, max, g, alerts) == AddAll(reg, max', g, alerts)
  {
    if alerts != [] {
      MaxIsIdle(reg, max, max', g, alerts[..|alerts| - 1]);
      assert g(alerts[|alerts| - 1]) != Failed;
    }
  }

  /** One pruned cycle continues the unpruned evaluation of everything before it. */
  lemma CycleContinues(m: Matcher, g: Generator, max: nat, rules: seq<Rule>, before: seq<Event>,
                       reg: Reg, events: seq<Event>)
    requires NeverFails(g) && reg.blocked == []
    requires reg.retired == FirstMatches(m, g, rules, before).reg.retired
    ensures var c := Cycle(m, g, max, Live(rules, reg.retired), reg, events);
            var all := FirstMatches(m, g, rules, before + events);
            && FirstMatches(m, g, rules, before).written + c.batches == all.written
            && c.reg.retired == all.reg.retired && c.rules == Live(rules, all.reg.retired) && c.reg.blocked == []
  {
    hide AlertsOf, AddAll, Live, LiveAlerts, RemoveIds;
    var first := FirstMatches(m, g, rules, before);
    var alerts := AlertsOf(m, rules, events);
    var live := LiveAlerts(alerts, reg.retired);
    LiveRulesAlerts(m, rules, events, reg.retired);
    AlertsConcat(m, rules, before, events);
    AddAllConcat(FRESH, 1, g, AlertsOf(m, rules, before), alerts);
    MaxIsIdle(first.reg, 1, max, g, alerts);
    var start := reg.(failedThisCycle := {});
    OnlyRetiredMatters(start, first.reg, max, g, alerts);
    RetiredAlertsAreIdle(start, max, g, alerts, reg.retired);
    if live == [] {
      NoAlerts(start, max, g);
    } else {
      var s := AddAll(start, max, g, live);
      RemoveIdsIsLive(rules, reg.retired, s.written);
      assert s.written + s.reg.blocked == s.written;
    }
  }

  lemma NoAlerts(reg: Reg, max: nat, g: Generator)
    ensures AddAll(reg, max, g, []) == Adds(reg, [])
  {
  }

  /** Without failures a run returns the first matches of its events, however they fell into cycles. */
  lemma {:induction false} CyclesDoNotMatter(m: Matcher, g: Generator, max: nat, rules: seq<Rule>,
                                             cycles: seq<seq<Event>>)
    requires NeverFails(g)
    ensures var r := RunCycles(m, g, max, rules, FRESH, cycles);
            var all := FirstMatches(m, g, rules, Flatten(cycles));
            && r.batches == all.written && r.reg.retired == all.reg.retired
            && r.rules == Live(rules, r.reg.retired) && r.reg.blocked == []
  {
    hide AlertsOf, AddAll, Live, Cycle;
    if cycles == [] {
      NoEvents(m, rules);
      NoAlerts(FRESH, 1, g);
      NothingRetired(rules);
    } else {
      var init := cycles[..|cycles| - 1];
      CyclesDoNotMatter(m, g, max, rules, init);
      var r := RunCycles(m, g, max, rules, FRESH, init);
      CycleContinues(m, g, max, rules, Flatten(init), r.reg, cycles[|cycles| - 1]);
    }
  }

  lemma NoEvents(m: Matcher, rules: seq<Rule>)
    ensures AlertsOf(m, rules, []) == []
  {
  }

  lemma {:induction false} NothingRetired(rules: seq<Rule>)
    ensures Live(rules, {}) == rules
  {
    if rules != [] {
      NothingRetired(rules[..|rules| - 1]);
    }
  }

  /** Two schedules of the same events produce the same batches in the same order. */
  lemma SameEventsSameBatches(m: Matcher, g: Generator, max: nat, max': nat, rules: seq<Rule>,
                              a: seq<seq<Event>>, b: seq<seq<Event>>)
    requires NeverFails(g) && Flatten(a) == Flatten(b)
    ensures RunCycles(m, g, max, rules, FRESH, a).batches == RunCycles(m, g, max', rules, FRESH, b).batches
  {
    hide FirstMatches, Flatten, RunCycles, Live;
    CyclesDoNotMatter(m, g, max, rules, a);
    CyclesDoNotMatter(m, g, max', rules, b);
  }

  // ----- A rule that never fails, among rules that may -----

  /** Some alert of this rule can be generated. */
  ghost predicate Generates(g: Generator, alerts: seq<Alert>, id: Uuid) {
    exists a :: a in alerts && a.rule == id && g(a) == Generated
  }

  ghost predicate RuleNeverFails(g: Generator, alerts: seq<Alert>, id: Uuid) {
    forall a :: a in alerts && a.rule == id ==> g(a) != Failed
  }

  lemma GeneratesConcat(g: Generator, a: seq<Alert>, b: seq<Alert>, id: Uuid)
    ensures Generates(g, a + b, id) <==> Generates(g, a, id) || Generates(g, b, id)
    ensures RuleNeverFails(g, a + b, id) <==> RuleNeverFails(g, a, id) && RuleNeverFails(g, b, id)
  {
    assert forall x :: x in a + b <==> x in a || x in b;
  }

  lemma GeneratesOne(g: Generator, a: Alert, id: Uuid)
    ensures Generates(g, [a], id) <==> a.rule == id && g(a) == Generated
    ensures RuleNeverFails(g, [a], id) <==> (a.rule == id ==> g(a) != Failed)
  {
    assert a in [a];
  }

  /** Attempts on the other rules, failed or not, do not touch this one. */
  lemma {:induction false} AddAllOnRule(reg: Reg, max: nat, g: Generator, alerts: seq<Alert>, id: Uuid)
    requires id != NIL && RuleNeverFails(g, alerts, id)
    ensures var s := AddAll(reg, max, g, alerts);
            && (id in s.reg.retired <==> id in reg.retired || Generates(g, alerts, id))
            && (id in s.written <==> id !in reg.retired && Generates(g, alerts, id))
  {
    if alerts != [] {
      var n := |alerts| - 1;
      assert alerts == alerts[..n] + [alerts[n]];
      GeneratesConcat(g, alerts[..n], [alerts[n]], id);
      GeneratesOne(g, alerts[n], id);
      AddAllOnRule(reg, max, g, alerts[..n], id);
    }
  }

  /** One cycle over the rules that are left: what it does to this rule. */
  lemma CycleOnRule(m: Matcher, g: Generator, max: nat, rules: seq<Rule>, reg: Reg, events: seq<Event>, id: Uuid)
    requires id != NIL && RuleNeverFails(g, AlertsOf(m, rules, events), id)
    ensures var c := Cycle(m, g, max, Live(rules, reg.retired), reg, events);
            var hit := Generates(g, AlertsOf(m, rules, events), id);
            && (id in c.reg.retired <==> id in reg.retired || hit)
            && (id in c.batches <==> id !in reg.retired && hit)
  {
    hide AlertsOf, AddAll, Live, LiveAlerts, RemoveIds, Generates, RuleNeverFails;
    var alerts := AlertsOf(m, rules, events);
    var start := reg.(failedThisCycle := {});
    LiveRulesAlerts(m, rules, events, reg.retired);
    RetiredAlertsAreIdle(start, max, g, alerts, reg.retired);
    AddAllOnRule(start, max, g, alerts, id);
    if LiveAlerts(alerts, reg.retired) == [] {
      NoAlerts(start, max, g);
    }
  }

  /**
   A rule none of whose own alerts fails is in the batches of a run exactly when
   one of them can be generated, whatever becomes of the other rules and however
   the events fall into cycles.
   */
  lemma {:induction false} GeneratedInAnySchedule(m: Matcher, g: Generator, max: nat, rules: seq<Rule>,
                                                  cycles: seq<seq<Event>>, id: Uuid)
    requires id != NIL && RuleNeverFails(g, AlertsOf(m, rules, Flatten(cycles)), id)
    ensures var r := RunCycles(m, g, max, rules, FRESH, cycles);
            var hit := Generates(g, AlertsOf(m, rules, Flatten(cycles)), id);
            (id in r.batches <==> hit) && (id in r.reg.retired <==> hit)
  {
    hide AlertsOf, Cycle, Live, Generates, RuleNeverFails;
    if cycles == [] {
      NoEvents(m, rules);
      NoneGenerates(g, id);
    } else {
      var init, events := cycles[..|cycles| - 1], cycles[|cycles| - 1];
      AlertsConcat(m, rules, Flatten(init), events);
      GeneratesConcat(g, AlertsOf(m, rules, Flatten(init)), AlertsOf(m, rules, events), id);
      GeneratedInAnySchedule(m, g, max, rules, init, id);
      EngineHoldsLiveRules(m, g, max, rules, init);
      CycleOnRule(m, g, max, rules, RunCycles(m, g, max, rules, FRESH, init).reg, events, id);
    }
  }

  lemma NoneGenerates(g: Generator, id: Uuid)
    ensures !Generates(g, [], id)
  {
  }

  /** So two schedules of the same events agree on every such rule, though other rules fail at other times. */
  lemma SameEventsSameRule(m: Matcher, g: Generator, max: nat, max': nat, rules: seq<Rule>,
                           a: seq<seq<Event>>, b: seq<seq<Event>>, id: Uuid)
    requires Flatten(a) == Flatten(b) && id != NIL && RuleNeverFails(g, AlertsOf(m, rules, Flatten(a)), id)
    ensures id in RunCycles(m, g, max, rules, FRESH, a).batches
            <==> id in RunCycles(m, g, max', rules, FRESH, b).batches
  {
    hide AlertsOf, Flatten, RunCycles, Generates, RuleNeverFails;
    GeneratedInAnySchedule(m, g, max, rules, a, id);
    GeneratedInAnySchedule(m, g, max', rules, b, id);
  }

  // ----- And in which order -----

  /** None of these rules fails on any of these alerts. */
  ghost predicate NoneFails(g: Generator, alerts: seq<Alert>, ids: set<Uuid>) {
    NIL !in ids && forall a :: a in alerts && a.rule in ids ==> g(a) != Failed
  }

  /** The rules among these that can be generated, in the order of the first alert that can. */
  ghost function FirstOnes(g: Generator, alerts: seq<Alert>, ids: set<Uuid>): seq<Uuid> {
    if alerts == [] then []
    else
      var before, a := FirstOnes(g, alerts[..|alerts| - 1], ids), alerts[|alerts| - 1];
      if a.rule in ids && g(a) == Generated && a.rule !in before then before + [a.rule] else before
  }

  ghost function Only(s: seq<Uuid>, ids: set<Uuid>): seq<Uuid> {
    if s == [] then []
    else Only(s[..|s| - 1], ids) + if s[|s| - 1] in ids then [s[|s| - 1]] else []
  }

  lemma {:induction false} OnlyConcat(a: seq<Uuid>, b: seq<Uuid>, ids: set<Uuid>)
    ensures Only(a + b, ids) == Only(a, ids) + Only(b, ids)
  {
    if b == [] {
      assert a + b == a;
    } else {
      assert (a + b)[..|a + b| - 1] == a + b[..|b| - 1];
      OnlyConcat(a, b[..|b| - 1], ids);
    }
  }

  /** The store has settled exactly those of the rules that came first. */
  ghost predicate Settled(reg: Reg, first: seq<Uuid>, ids: set<Uuid>) {
    forall id :: id in ids ==> (id in reg.retired <==> id in first)
  }

  lemma {:induction false} AddAllInOrder(reg: Reg, max: nat, g: Generator, before: seq<Alert>, alerts: seq<Alert>,
                                         ids: set<Uuid>)
    requires NoneFails(g, alerts, ids) && Settled(reg, FirstOnes(g, before, ids), ids)
    ensures var s := AddAll(reg, max, g, alerts);
            && FirstOnes(g, before + alerts, ids) == FirstOnes(g, before, ids) + Only(s.written, ids)
            && Settled(s.reg, FirstOnes(g, before + alerts, ids), ids)
  {
    hide *;
    if alerts == [] {
      assert before + alerts == before;
      NoAlerts(reg, max, g);
      OnlyNothing(ids);
    } else {
      var n := |alerts| - 1;
      var a := alerts[n];
      assert alerts == alerts[..n] + [a];
      assert (before + alerts)[..|before + alerts| - 1] == before + alerts[..n];
      NoneFailsParts(g, alerts[..n], [a], ids);
      NoneFailsOne(g, a, ids);
      AddAllInOrder(reg, max, g, before, alerts[..n], ids);
      AddAllSnoc(reg, max, g, alerts);
      OneInOrder(AddAll(reg, max, g, alerts[..n]), max, g, a, FirstOnes(g, before + alerts[..n], ids), ids);
      FirstOnesNext(g, before + alerts, ids);
    }
  }

  lemma OnlyNothing(ids: set<Uuid>)
    ensures Only([], ids) == []
  {
  }

  lemma NoneFailsOne(g: Generator, a: Alert, ids: set<Uuid>)
    requires NoneFails(g, [a], ids)
    ensures NIL !in ids && (a.rule in ids ==> g(a) != Failed)
  {
    assert a in [a];
  }

  lemma FirstOnesNext(g: Generator, alerts: seq<Alert>, ids: set<Uuid>)
    requires alerts != []
    ensures var first, a := FirstOnes(g, alerts[..|alerts| - 1], ids), alerts[|alerts| - 1];
            FirstOnes(g, alerts, ids)
            == first + if a.rule in ids && g(a) == Generated && a.rule !in first then [a.rule] else []
  {
  }

  lemma OneInOrder(s: Adds, max: nat, g: Generator, a: Alert, first: seq<Uuid>, ids: set<Uuid>)
    requires NIL !in ids && (a.rule in ids ==> g(a) != Failed) && Settled(s.reg, first, ids)
    ensures var more := if a.rule in ids && g(a) == Generated && a.rule !in first then [a.rule] else [];
            && Settled(Attempt(s.reg, max, a.rule, g(a)), first + more, ids)
            && Only(s.written + (if Writes(s.reg, a.rule, g(a)) then [a.rule] else []), ids)
               == Only(s.written, ids) + more
  {
    hide Attempt, Only;
    OnlyConcat(s.written, if Writes(s.reg, a.rule, g(a)) then [a.rule] else [], ids);
    OnlyNothing(ids);
    OnlyOne(a.rule, ids);
    forall id | id in ids
      ensures id in Attempt(s.reg, max, a.rule, g(a)).retired
              <==> id in s.reg.retired || (id == a.rule && g(a) == Generated)
    {
      AttemptRetires(s.reg, max, a.rule, g(a), id);
    }
  }

  lemma OnlyOne(id: Uuid, ids: set<Uuid>)
    ensures Only([id], ids) == if id in ids then [id] else []
  {
    assert [id][..0] == [];
  }

  lemma AttemptRetires(reg: Reg, max: nat, rule: Uuid, outcome: Outcome, id: Uuid)
    requires id != NIL && (id == rule ==> outcome != Failed)
    ensures id in Attempt(reg, max, rule, outcome).retired
            <==> id in reg.retired || (id == rule && outcome == Generated)
  {
  }

  lemma CycleInOrder(m: Matcher, g: Generator, max: nat, rules: seq<Rule>, reg: Reg, before: seq<Event>,
                     events: seq<Event>, ids: set<Uuid>)
    requires NoneFails(g, AlertsOf(m, rules, events), ids)
    requires Settled(reg, FirstOnes(g, AlertsOf(m, rules, before), ids), ids)
    ensures var c := Cycle(m, g, max, Live(rules, reg.retired), reg, events);
            var all := FirstOnes(g, AlertsOf(m, rules, before + events), ids);
            all == FirstOnes(g, AlertsOf(m, rules, before), ids) + Only(c.batches, ids) && Settled(c.reg, all, ids)
  {
    hide AlertsOf, AddAll, Live, LiveAlerts, RemoveIds, FirstOnes, NoneFails;
    var alerts := AlertsOf(m, rules, events);
    var start := reg.(failedThisCycle := {});
    LiveRulesAlerts(m, rules, events, reg.retired);
    RetiredAlertsAreIdle(start, max, g, alerts, reg.retired);
    AlertsConcat(m, rules, before, events);
    AddAllInOrder(start, max, g, AlertsOf(m, rules, before), alerts, ids);
    if LiveAlerts(alerts, reg.retired) == [] {
      NoAlerts(start, max, g);
    }
  }

  lemma NoneFailsParts(g: Generator, a: seq<Alert>, b: seq<Alert>, ids: set<Uuid>)
    requires NoneFails(g, a + b, ids)
    ensures NoneFails(g, a, ids) && NoneFails(g, b, ids)
  {
    assert forall x :: x in a + b <==> x in a || x in b;
  }

  /**
   Of the rules whose own alerts never fail, a run generates those that can be, in
   the order of their first such alert; failures of the other rules, and the cycles,
   change neither which nor the order.
   */
  lemma {:induction false} OrderInAnySchedule(m: Matcher, g: Generator, max: nat, rules: seq<Rule>,
                                              cycles: seq<seq<Event>>, ids: set<Uuid>)
    requires NoneFails(g, AlertsOf(m, rules, Flatten(cycles)), ids)
    ensures var r := RunCycles(m, g, max, rules, FRESH, cycles);
            var first := FirstOnes(g, AlertsOf(m, rules, Flatten(cycles)), ids);
            Only(r.batches, ids) == first && Settled(r.reg, first, ids)
  {
    hide AlertsOf, Cycle, Live, NoneFails;
    if cycles == [] {
      NoEvents(m, rules);
    } else {
      var init, events := cycles[..|cycles| - 1], cycles[|cycles| - 1];
      var r := RunCycles(m, g, max, rules, FRESH, init);
      hide FirstOnes, Only;
      AlertsConcat(m, rules, Flatten(init), events);
      NoneFailsParts(g, AlertsOf(m, rules, Flatten(init)), AlertsOf(m, rules, events), ids);
      OrderInAnySchedule(m, g, max, rules, init, ids);
      EngineHoldsLiveRules(m, g, max, rules, init);
      CycleInOrder(m, g, max, rules, r.reg, Flatten(init), events, ids);
      OnlyConcat(r.batches, Cycle(m, g, max, r.rules, r.reg, events).batches, ids);
    }
  }

  /** So two schedules of the same events produce these rules in the same order, though other rules fail. */
  lemma SameEventsSameOrder(m: Matcher, g: Generator, max: nat, max': nat, rules: seq<Rule>,
                            a: seq<seq<Event>>, b: seq<seq<Event>>, ids: set<Uuid>)
    requires Flatten(a) == Flatten(b) && NoneFails(g, AlertsOf(m, rules, Flatten(a)), ids)
    ensures Only(RunCycles(m, g, max, rules, FRESH, a).batches, ids)
         == Only(RunCycles(m, g, max', rules, FRESH, b).batches, ids)
  {
    hide AlertsOf, Flatten, RunCycles, FirstOnes, NoneFails, Only, Settled;
    OrderInAnySchedule(m, g, max, rules, a, ids);
    OrderInAnySchedule(m, g, max', rules, b, ids);
  }
}
