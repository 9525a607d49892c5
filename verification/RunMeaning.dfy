/**
 Which alerts an evaluation gives, which rules a run generates and where its
 cycles lie, said about the rules, the events and the arms themselves.
 */
module RunMeaning {
  import opened Options
  import opened Filters
  import opened RuleLife
  import opened RunLoop
  import opened RunTheorems

  // ----- Alerts -----

  /** An event and a rule, by their places. */
  datatype Place = Place(event: nat, rule: nat)

  ghost predicate Earlier(a: Place, b: Place) { a.event < b.event || (a.event == b.event && a.rule < b.rule) }

  ghost predicate Matches(m: Matcher, rules: seq<Rule>, events: seq<Event>, p: Place) {
    p.event < |events| && p.rule < |rules| && m(rules[p.rule], events[p.event])
  }

  ghost predicate InOrder(ps: seq<Place>) { forall i, j :: 0 <= i < j < |ps| ==> Earlier(ps[i], ps[j]) }

  ghost predicate AlertsAt(rules: seq<Rule>, events: seq<Event>, ps: seq<Place>, alerts: seq<Alert>) {
    |ps| == |alerts| && forall i :: 0 <= i < |ps| ==>
      && ps[i].event < |events| && ps[i].rule < |rules|
      && alerts[i] == Alert(rules[ps[i].rule].id, events[ps[i].event])
  }

  /** One alert for each pair of an event and a rule that matches it, event by event and rule by rule. */
  ghost predicate AreMatches(m: Matcher, rules: seq<Rule>, events: seq<Event>, ps: seq<Place>, alerts: seq<Alert>) {
    && InOrder(ps) && AlertsAt(rules, events, ps, alerts)
    && forall p :: p in ps <==> Matches(m, rules, events, p)
  }

  ghost function PlacesFor(n: nat, ks: seq<nat>): seq<Place> {
    seq(|ks|, i requires 0 <= i < |ks| => Place(n, ks[i]))
  }

  /** The rules that match one event, by their places. */
  lemma {:induction false} AlertsForMatches(m: Matcher, rules: seq<Rule>, e: Event) returns (ks: seq<nat>)
    ensures Rises(ks) && Chosen(rules, ks, (r: Rule) => m(r, e)) && |ks| == |AlertsFor(m, rules, e)|
    ensures forall i :: 0 <= i < |ks| ==>
              ks[i] < |rules| && AlertsFor(m, rules, e)[i] == Alert(rules[ks[i]].id, e)
  {
    ks := [];
    if rules != [] {
      var n := |rules| - 1;
      var init, r := rules[..n], rules[n];
      assert rules == init + [r];
      ks := AlertsForMatches(m, init, e);
      assert n !in ks;
      if m(r, e) {
        ChosenMore(init, ks, r, (r: Rule) => m(r, e));
        ks := ks + [n];
      }
    }
  }

  lemma {:induction false} AlertsAreMatches(m: Matcher, rules: seq<Rule>, events: seq<Event>) returns (ps: seq<Place>)
    ensures AreMatches(m, rules, events, ps, AlertsOf(m, rules, events))
  {
    ps := [];
    if events != [] {
      var n := |events| - 1;
      assert events == events[..n] + [events[n]];
      var before := AlertsAreMatches(m, rules, events[..n]);
      var ks := AlertsForMatches(m, rules, events[n]);
      ps := before + PlacesFor(n, ks);
      hide AlertsFor;
      OneMoreEvent(m, rules, events, before, ks, AlertsOf(m, rules, events[..n]), AlertsFor(m, rules, events[n]));
    }
  }

  lemma OneMoreEvent(m: Matcher, rules: seq<Rule>, events: seq<Event>, ps: seq<Place>, ks: seq<nat>, alerts: seq<Alert>,
                     more: seq<Alert>)
    requires events != []
    requires var n := |events| - 1; AreMatches(m, rules, events[..n], ps, alerts)
    requires Rises(ks) && Chosen(rules, ks, (r: Rule) => m(r, events[|events| - 1])) && |ks| == |more|
    requires forall i :: 0 <= i < |ks| ==>
               ks[i] < |rules| && more[i] == Alert(rules[ks[i]].id, events[|events| - 1])
    ensures AreMatches(m, rules, events, ps + PlacesFor(|events| - 1, ks), alerts + more)
  {
    var n := |events| - 1;
    var late := PlacesFor(n, ks);
    assert InOrder(late);
    assert forall p :: p in ps ==> p.event < n;
    forall p ensures p in ps + late <==> Matches(m, rules, events, p) {
      LatePlaces(n, ks, p);
      if p.event < n {
        assert Matches(m, rules, events, p) <==> Matches(m, rules, events[..n], p);
      }
    }
    OrderMore(ps, late, n);
    hide Rises, Chosen, InOrder, Matches;
  }

  lemma LatePlaces(n: nat, ks: seq<nat>, p: Place)
    ensures p in PlacesFor(n, ks) <==> p.event == n && p.rule in ks
  {
    if p.event == n && p.rule in ks {
      var i :| 0 <= i < |ks| && ks[i] == p.rule;
      assert PlacesFor(n, ks)[i] == p;
    }
  }

  lemma OrderMore(ps: seq<Place>, late: seq<Place>, n: nat)
    requires InOrder(ps) && InOrder(late)
    requires (forall p :: p in ps ==> p.event < n) && forall i :: 0 <= i < |late| ==> late[i].event == n
    ensures InOrder(ps + late)
  {
    var all := ps + late;
    forall i, j | 0 <= i < j < |all| ensures Earlier(all[i], all[j]) {
      if i < |ps| {
        assert ps[i] in ps;
      }
    }
  }

  /** So there is an alert exactly for the events that some rule with its id matches. */
  lemma AlertMeaning(m: Matcher, rules: seq<Rule>, events: seq<Event>, a: Alert)
    ensures a in AlertsOf(m, rules, events)
            <==> a.event in events && exists r :: r in rules && r.id == a.rule && m(r, a.event)
  {
    var alerts := AlertsOf(m, rules, events);
    var ps := AlertsAreMatches(m, rules, events);
    hide AlertsOf, InOrder;
    if a in alerts {
      var i :| 0 <= i < |alerts| && alerts[i] == a;
      assert ps[i] in ps;
      assert rules[ps[i].rule] in rules;
    }
    if a.event in events && exists r :: r in rules && r.id == a.rule && m(r, a.event) {
      var r :| r in rules && r.id == a.rule && m(r, a.event);
      var j: nat :| j < |rules| && rules[j] == r;
      var k: nat :| k < |events| && events[k] == a.event;
      assert Matches(m, rules, events, Place(k, j));
      var i :| 0 <= i < |ps| && ps[i] == Place(k, j);
      assert alerts[i] == a;
    }
  }

  /**
   A rule none of whose own alerts fails is generated in a run exactly when some
   event of the run is matched by a rule with its id and can be generated from it.
   */
  lemma GeneratedExactly(m: Matcher, g: Generator, max: nat, rules: seq<Rule>, cycles: seq<seq<Event>>, id: Uuid)
    requires id != NIL
    requires forall e, r :: e in Flatten(cycles) && r in rules && r.id == id && m(r, e) ==> g(Alert(id, e)) != Failed
    ensures id in RunCycles(m, g, max, rules, FRESH, cycles).batches
            <==> exists e, r :: e in Flatten(cycles) && r in rules && r.id == id && m(r, e)
                                && g(Alert(id, e)) == Generated
  {
    var alerts := AlertsOf(m, rules, Flatten(cycles));
    hide AlertsOf, Flatten, RunCycles;
    forall a ensures a in alerts
                     <==> a.event in Flatten(cycles) && exists r :: r in rules && r.id == a.rule && m(r, a.event) {
      AlertMeaning(m, rules, Flatten(cycles), a);
    }
    GeneratedInAnySchedule(m, g, max, rules, cycles, id);
    if e, r :| e in Flatten(cycles) && r in rules && r.id == id && m(r, e) && g(Alert(id, e)) == Generated {
      assert Alert(id, e) in alerts;
    }
  }

  // ----- Cycles -----

  ghost function Arriving(es: seq<Event>): seq<Arm> { seq(|es|, i requires 0 <= i < |es| => Received(es[i])) }

  /** The events received are those of the receiving arms, in order. */
  lemma {:induction false} ReceivedAre(arms: seq<Arm>)
    ensures IsFilter(arms, Arriving(ReceivedIn(arms)), (a: Arm) => a.Received?)
  {
    hide *;
    var keep := (a: Arm) => a.Received?;
    if arms == [] {
      NothingPicked(keep);
      NothingReceived();
      NothingArrives();
    } else {
      var n := |arms| - 1;
      ReceivedAre(arms[..n]);
      PickLast(arms[..n], Arriving(ReceivedIn(arms[..n])), arms[n], keep);
      assert arms == arms[..n] + [arms[n]];
      OneReceived(arms[..n], arms[n]);
      OneArriving(ReceivedIn(arms[..n]), arms[n]);
    }
  }

  lemma NothingArrives()
    ensures Arriving([]) == []
  {
  }

  lemma OneArriving(es: seq<Event>, arm: Arm)
    ensures Arriving(es + if arm.Received? then [arm.event] else [])
         == if arm.Received? then Arriving(es) + [arm] else Arriving(es)
  {
    assert es + [] == es;
  }

  /** The ticks among the arms, by their places. */
  ghost predicate TicksAt(arms: seq<Arm>, ts: seq<nat>) {
    Rises(ts) && (forall t :: t in ts ==> t < |arms|) && Chosen(arms, ts, (a: Arm) => a.Tick?)
  }

  ghost function From(ts: seq<nat>, k: nat): nat
    requires k <= |ts|
  {
    if k == 0 then 0 else ts[k - 1] + 1
  }

  /** Each tick's cycle is what was received since the tick before it, and what is open came in since the last one. */
  ghost predicate Lie(arms: seq<Arm>, ts: seq<nat>, cycles: seq<seq<Event>>, open: seq<Event>) {
    && TicksAt(arms, ts) && EachLies(arms, ts, cycles)
    && From(ts, |ts|) <= |arms| && open == ReceivedIn(arms[From(ts, |ts|)..])
  }

  ghost predicate EachLies(arms: seq<Arm>, ts: seq<nat>, cycles: seq<seq<Event>>) {
    |cycles| == |ts| && forall k :: 0 <= k < |ts| ==>
      From(ts, k) <= ts[k] < |arms| && cycles[k] == ReceivedIn(arms[From(ts, k)..ts[k]])
  }

  lemma {:induction false} CyclesLieBetweenTicks(arms: seq<Arm>) returns (ts: seq<nat>)
    ensures Lie(arms, ts, CyclesIn(arms), OpenIn(arms))
  {
    ts := [];
    if arms == [] {
      assert arms[0..] == [];
    } else {
      var n := |arms| - 1;
      assert arms == arms[..n] + [arms[n]];
      ts := CyclesLieBetweenTicks(arms[..n]);
      hide Lie, ReceivedIn;
      LieNext(arms[..n], arms[n], ts, CyclesIn(arms[..n]), OpenIn(arms[..n]));
      ts := if arms[n].Tick? then ts + [n] else ts;
    }
  }

  lemma LieNext(arms: seq<Arm>, arm: Arm, ts: seq<nat>, cycles: seq<seq<Event>>, open: seq<Event>)
    requires Lie(arms, ts, cycles, open)
    ensures if arm.Tick? then Lie(arms + [arm], ts + [|arms|], cycles + [open], [])
            else Lie(arms + [arm], ts, cycles, open + if arm.Received? then [arm.event] else [])
  {
    hide ReceivedIn, TicksAt, EachLies;
    var n, more, from := |arms|, arms + [arm], From(ts, |ts|);
    OneMoreArm(arms, arm, ts);
    EachStays(arms, arm, ts, cycles);
    if arm.Tick? {
      EachMore(more, ts, cycles, n, open) by {
        assert more[from..n] == arms[from..];
      }
      assert more[n + 1..] == [];
      NothingReceived();
    } else {
      assert more[from..] == arms[from..] + [arm];
      OneReceived(arms[from..], arm);
    }
  }

  lemma EachStays(arms: seq<Arm>, arm: Arm, ts: seq<nat>, cycles: seq<seq<Event>>)
    requires EachLies(arms, ts, cycles)
    ensures EachLies(arms + [arm], ts, cycles)
  {
    hide ReceivedIn;
    forall k | 0 <= k < |ts| ensures (arms + [arm])[From(ts, k)..ts[k]] == arms[From(ts, k)..ts[k]] {
    }
  }

  lemma EachMore(arms: seq<Arm>, ts: seq<nat>, cycles: seq<seq<Event>>, t: nat, last: seq<Event>)
    requires EachLies(arms, ts, cycles) && From(ts, |ts|) <= t < |arms| && last == ReceivedIn(arms[From(ts, |ts|)..t])
    ensures EachLies(arms, ts + [t], cycles + [last])
  {
    hide ReceivedIn, From;
    var later, all := ts + [t], cycles + [last];
    forall k: nat | k <= |ts| ensures From(later, k) == From(ts, k) {
      SameStart(ts, t, k);
    }
    forall k | 0 <= k < |later|
      ensures From(later, k) <= later[k] < |arms| && all[k] == ReceivedIn(arms[From(later, k)..later[k]])
    {
      assert k < |ts| ==> later[k] == ts[k] && all[k] == cycles[k];
    }
  }

  lemma SameStart(ts: seq<nat>, t: nat, k: nat)
    requires k <= |ts|
    ensures From(ts + [t], k) == From(ts, k)
  {
  }

  lemma NothingReceived()
    ensures ReceivedIn([]) == []
  {
  }

  lemma OneReceived(arms: seq<Arm>, arm: Arm)
    ensures ReceivedIn(arms + [arm]) == ReceivedIn(arms) + if arm.Received? then [arm.event] else []
  {
    assert (arms + [arm])[..|arms|] == arms;
  }

  lemma OneMoreArm(arms: seq<Arm>, arm: Arm, ts: seq<nat>)
    requires TicksAt(arms, ts)
    ensures TicksAt(arms + [arm], if arm.Tick? then ts + [|arms|] else ts)
  {
    assert forall t :: t in ts ==> t < |arms|;
    if arm.Tick? {
      ChosenMore(arms, ts, arm, (a: Arm) => a.Tick?);
      assert forall i :: 0 <= i < |ts| ==> ts[i] in ts;
    } else {
      assert |arms| !in ts;
    }
  }

  // ----- Rules without an id -----

  /** Attempts under the nil id never count: nothing is generated, blocked or retired for it. */
  lemma NilIsInert(ops: seq<Op>, max: nat)
    ensures var l := Run(ops, max);
            NIL !in l.generated && NIL !in l.blockedEver && NIL !in l.reg.retired
  {
    NilStaysActive(ops, max);
    RulesAreIndependent(ops, max, NIL);
  }

  lemma {:induction false} NilStaysActive(ops: seq<Op>, max: nat)
    ensures StatusOf(ops, max, NIL).Active?
  {
    if ops != [] {
      NilStaysActive(ops[..|ops| - 1], max);
    }
  }

  // ----- The limit on cycles -----

  /** A loop that ends because of its limit has run exactly that many cycles, and one when the limit is zero. */
  lemma LimitIsReached(arms: seq<Arm>, n: nat, maxRuns: Option<nat>)
    requires 0 < n <= |arms| && arms[n - 1] == Tick(false) && Stops(arms, n - 1, maxRuns)
    requires forall i :: 0 <= i < n - 1 ==> !Stops(arms, i, maxRuns)
    ensures maxRuns.Some? && |CyclesIn(arms[..n])| == if maxRuns.value == 0 then 1 else maxRuns.value
  {
    assert arms[..n][..n - 1] == arms[..n - 1];
    BelowLimit(arms, n - 1, maxRuns);
  }

  lemma {:induction false} BelowLimit(arms: seq<Arm>, k: nat, maxRuns: Option<nat>)
    requires k <= |arms| && maxRuns.Some? && forall i :: 0 <= i < k ==> !Stops(arms, i, maxRuns)
    ensures |CyclesIn(arms[..k])| < maxRuns.value || |CyclesIn(arms[..k])| == 0
  {
    if k > 0 {
      assert arms[..k][..k - 1] == arms[..k - 1];
      BelowLimit(arms, k - 1, maxRuns);
      assert !Stops(arms, k - 1, maxRuns);
    }
  }
}
