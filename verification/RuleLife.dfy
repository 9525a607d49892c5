/**
 The life of a rule during a run: active, then generated once or blocked once.
 A rule is blocked when its generation has failed in `max` distinct cycles.
 */
module RuleLife {
  type Uuid = nat
  const NIL: Uuid := 0

  /** What the disk and the generator make of an attempt: data is there already, it is written, or writing fails. */
  datatype Outcome = Exists | Generated | Failed

  /** The mutable part of the regression store. */
  datatype Reg = Reg(retired: set<Uuid>, failedCycles: map<Uuid, nat>, failedThisCycle: set<Uuid>, blocked: seq<Uuid>)

  const FRESH := Reg({}, map[], {}, [])

  function Count(r: Reg, id: Uuid): nat { if id in r.failedCycles then r.failedCycles[id] else 0 }

  function Fail(r: Reg, max: nat, id: Uuid): Reg {
    if id in r.failedThisCycle then r
    else if Count(r, id) + 1 >= max then
      Reg(r.retired + {id}, r.failedCycles - {id}, r.failedThisCycle + {id}, r.blocked + [id])
    else r.(failedThisCycle := r.failedThisCycle + {id}, failedCycles := r.failedCycles[id := Count(r, id) + 1])
  }

  /** The attempt on a live rule, given its outcome. */
  function Attempt(r: Reg, max: nat, id: Uuid, outcome: Outcome): Reg {
    if id in r.retired || id == NIL then r
    else match outcome
      case Exists => r
      case Generated => r.(retired := r.retired + {id})
      case Failed => Fail(r, max, id)
  }

  predicate Writes(r: Reg, id: Uuid, outcome: Outcome) {
    id !in r.retired && id != NIL && outcome == Generated
  }

  class SigmahqRegression {
    const hasOutput: bool
    var retired: set<Uuid>
    var failedCycles: map<Uuid, nat>
    var failedThisCycle: set<Uuid>
    var blocked: seq<Uuid>
    var maxFailedCycles: nat

    function View(): Reg
      reads this
    {
      Reg(retired, failedCycles, failedThisCycle, blocked)
    }

    constructor (hasOutput: bool)
      ensures View() == FRESH && maxFailedCycles == 3 && this.hasOutput == hasOutput
    {
      this.hasOutput := hasOutput;
      retired, failedCycles, failedThisCycle, blocked, maxFailedCycles := {}, map[], {}, [], 3;
    }

    /** The bound is at least one. */
    method SetMaxFailedCycles(max: nat)
      modifies this`maxFailedCycles
      ensures maxFailedCycles == if max < 1 then 1 else max
    {
      maxFailedCycles := if max < 1 then 1 else max;
    }

    method BeginCycle()
      modifies this`failedThisCycle
      ensures View() == old(View()).(failedThisCycle := {})
    {
      failedThisCycle := {};
    }

    method TakeBlocked() returns (ids: seq<Uuid>)
      modifies this`blocked
      ensures ids == old(blocked) && View() == old(View()).(blocked := [])
    {
      ids := blocked;
      blocked := [];
    }

    method NoteGenerationFailure(id: Uuid)
      modifies this
      ensures View() == Fail(old(View()), maxFailedCycles, id) && maxFailedCycles == old(maxFailedCycles)
    {
      if id in failedThisCycle {
        return;
      }
      failedThisCycle := failedThisCycle + {id};
      var count := (if id in failedCycles then failedCycles[id] else 0) + 1;
      failedCycles := failedCycles[id := count];
      if count >= maxFailedCycles {
        failedCycles := failedCycles - {id};
        assert failedCycles == old(failedCycles) - {id};
        retired := retired + {id};
        blocked := blocked + [id];
      }
    }

    /** Record a match; true when the rule's files were written. */
    method Add(id: Uuid, outcome: Outcome) returns (written: bool)
      modifies this
      ensures maxFailedCycles == old(maxFailedCycles)
      ensures View() == if hasOutput then Attempt(old(View()), maxFailedCycles, id, outcome) else old(View())
      ensures written == (hasOutput && Writes(old(View()), id, outcome))
    {
      if !hasOutput || id in retired || id == NIL || outcome == Exists {
        return false;
      }
      if outcome == Failed {
        NoteGenerationFailure(id);
        return false;
      }
      retired := retired + {id};
      written := true;
    }
  }

  // ----- Histories -----

  datatype Op = Begin | Take | Try(id: Uuid, outcome: Outcome)

  /** The store after a history, with everything ever generated and ever blocked, in order. */
  datatype Life = Life(reg: Reg, generated: seq<Uuid>, blockedEver: seq<Uuid>)

  function Apply(l: Life, max: nat, op: Op): Life {
    match op
    case Begin => l.(reg := l.reg.(failedThisCycle := {}))
    case Take => l.(reg := l.reg.(blocked := []))
    case Try(id, outcome) =>
      var reg := Attempt(l.reg, max, id, outcome);
      Life(reg, l.generated + (if Writes(l.reg, id, outcome) then [id] else []),
           l.blockedEver + reg.blocked[|l.reg.blocked|..])
  }

  lemma AttemptAppends(r: Reg, max: nat, id: Uuid, outcome: Outcome)
    ensures var b := Attempt(r, max, id, outcome).blocked; b == r.blocked || b == r.blocked + [id]
    ensures |r.blocked| <= |Attempt(r, max, id, outcome).blocked|
  {
  }

  function Run(ops: seq<Op>, max: nat): Life {
    if ops == [] then Life(FRESH, [], []) else Apply(Run(ops[..|ops| - 1], max), max, ops[|ops| - 1])
  }

  // ----- One rule at a time -----

  datatype Status = Active(fails: nat, hit: bool) | Done | Blocked

  function StatusStep(s: Status, max: nat, id: Uuid, op: Op): Status {
    if !s.Active? then s
    else match op
      case Begin => Active(s.fails, false)
      case Take => s
      case Try(id', outcome) =>
        if id' != id || id == NIL || outcome == Exists then s
        else if outcome == Generated then Done
        else if s.hit then s
        else if s.fails + 1 >= max then Blocked
        else Active(s.fails + 1, true)
  }

  function StatusOf(ops: seq<Op>, max: nat, id: Uuid): Status {
    if ops == [] then Active(0, false)
    else StatusStep(StatusOf(ops[..|ops| - 1], max, id), max, id, ops[|ops| - 1])
  }

  ghost predicate Agrees(l: Life, id: Uuid, s: Status) {
    && (id in l.reg.retired <==> !s.Active?)
    && (id in l.generated <==> s.Done?)
    && (id in l.blockedEver <==> s.Blocked?)
    && (s.Active? ==> Count(l.reg, id) == s.fails && (id in l.reg.failedThisCycle <==> s.hit))
  }

  lemma ApplyAgrees(l: Life, max: nat, op: Op, id: Uuid, s: Status)
    requires Agrees(l, id, s)
    ensures Agrees(Apply(l, max, op), id, StatusStep(s, max, id, op))
  {
    if op.Try? {
      AttemptAppends(l.reg, max, op.id, op.outcome);
    }
  }

  /** The shared store treats every rule as if it were alone. */
  lemma {:induction false} RulesAreIndependent(ops: seq<Op>, max: nat, id: Uuid)
    ensures Agrees(Run(ops, max), id, StatusOf(ops, max, id))
  {
    if ops != [] {
      RulesAreIndependent(ops[..|ops| - 1], max, id);
      ApplyAgrees(Run(ops[..|ops| - 1], max), max, ops[|ops| - 1], id, StatusOf(ops[..|ops| - 1], max, id));
    }
  }

  ghost predicate NoRepeats(s: seq<Uuid>) {
    forall i, j :: 0 <= i < j < |s| ==> s[i] != s[j]
  }

  /** Nothing is generated twice, nothing blocked twice, and nothing both; so no two batches share a rule. */
  lemma {:induction false} SettledOnce(ops: seq<Op>, max: nat)
    ensures var l := Run(ops, max); NoRepeats(l.generated) && NoRepeats(l.blockedEver)
    ensures var l := Run(ops, max); forall id :: !(id in l.generated && id in l.blockedEver)
  {
    if ops != [] {
      var init, op := ops[..|ops| - 1], ops[|ops| - 1];
      SettledOnce(init, max);
      if op.Try? {
        AttemptAppends(Run(init, max).reg, max, op.id, op.outcome);
        RulesAreIndependent(init, max, op.id);
      }
    }
    forall id ensures !(id in Run(ops, max).generated && id in Run(ops, max).blockedEver) {
      RulesAreIndependent(ops, max, id);
    }
  }

  /** Once a rule is settled an attempt on it changes nothing. */
  lemma RetiredIsInert(ops: seq<Op>, max: nat, id: Uuid, outcome: Outcome)
    requires !StatusOf(ops, max, id).Active?
    ensures Attempt(Run(ops, max).reg, max, id, outcome) == Run(ops, max).reg
    ensures !Writes(Run(ops, max).reg, id, outcome)
  {
    RulesAreIndependent(ops, max, id);
  }

  // ----- When a rule is settled, said about the history -----

  /** How many cycles have begun. */
  function Cycles(ops: seq<Op>): nat {
    if ops == [] then 0 else Cycles(ops[..|ops| - 1]) + if ops[|ops| - 1] == Begin then 1 else 0
  }

  /** The cycles in which an attempt on the rule failed. */
  function FailCycles(ops: seq<Op>, id: Uuid): set<nat> {
    if ops == [] then {}
    else
      var init := ops[..|ops| - 1];
      FailCycles(init, id) + if ops[|ops| - 1] == Try(id, Failed) then {Cycles(init)} else {}
  }

  lemma {:induction false} FailCyclesMeaning(ops: seq<Op>, id: Uuid, c: nat)
    ensures c in FailCycles(ops, id)
            <==> exists i :: 0 <= i < |ops| && ops[i] == Try(id, Failed) && Cycles(ops[..i]) == c
  {
    if ops != [] {
      var n := |ops| - 1;
      var init := ops[..n];
      FailCyclesMeaning(init, id, c);
      assert forall i :: 0 <= i < n ==> init[i] == ops[i] && init[..i] == ops[..i];
      assert ops[n] == Try(id, Failed) && Cycles(init) == c ==> Cycles(ops[..n]) == c;
    }
  }

  ghost predicate EverGenerated(ops: seq<Op>, id: Uuid) { Try(id, Generated) in ops }

  /** Attempt `k` is the first failure of the `max`-th failing cycle of a rule not generated before. */
  ghost predicate BlockedAt(ops: seq<Op>, max: nat, id: Uuid, k: nat) {
    k < |ops| && ops[k] == Try(id, Failed) && BlocksAfter(ops[..k], max, id)
  }

  ghost predicate BlocksAfter(ops: seq<Op>, max: nat, id: Uuid) {
    !EverGenerated(ops, id) && |FailCycles(ops, id)| + 1 == max && Cycles(ops) !in FailCycles(ops, id)
  }

  /** Attempt `k` writes the data of a rule that neither was generated nor had `max` failing cycles before. */
  ghost predicate GeneratedAt(ops: seq<Op>, max: nat, id: Uuid, k: nat) {
    k < |ops| && ops[k] == Try(id, Generated) && LiveAfter(ops[..k], max, id)
  }

  ghost predicate LiveAfter(ops: seq<Op>, max: nat, id: Uuid) {
    !EverGenerated(ops, id) && |FailCycles(ops, id)| < max
  }

  lemma {:induction false} FailCyclesBound(ops: seq<Op>, id: Uuid)
    ensures forall c :: c in FailCycles(ops, id) ==> c <= Cycles(ops)
  {
    if ops != [] {
      FailCyclesBound(ops[..|ops| - 1], id);
    }
  }

  /** What the status of a live rule says about its history. */
  ghost predicate Explains(s: Status, ops: seq<Op>, max: nat, id: Uuid) {
    s.Active? ==> && s.fails == |FailCycles(ops, id)| < max && !EverGenerated(ops, id)
                  && (s.hit <==> Cycles(ops) in FailCycles(ops, id))
  }

  lemma ExplainsStep(s: Status, ops: seq<Op>, op: Op, max: nat, id: Uuid)
    requires 1 <= max && id != NIL && Explains(s, ops, max, id) && s.Active?
    ensures var s', more := StatusStep(s, max, id, op), ops + [op];
            && Explains(s', more, max, id)
            && (s'.Blocked? <==> op == Try(id, Failed) && BlocksAfter(ops, max, id))
            && (s'.Done? <==> op == Try(id, Generated) && LiveAfter(ops, max, id))
  {
    HistorySnoc(ops, op, id);
    FailCyclesBound(ops, id);
    hide FailCycles, Cycles, EverGenerated;
  }

  lemma HistorySnoc(ops: seq<Op>, op: Op, id: Uuid)
    ensures Cycles(ops + [op]) == Cycles(ops) + (if op == Begin then 1 else 0)
    ensures FailCycles(ops + [op], id) == FailCycles(ops, id) + (if op == Try(id, Failed) then {Cycles(ops)} else {})
    ensures EverGenerated(ops + [op], id) <==> EverGenerated(ops, id) || op == Try(id, Generated)
  {
    assert (ops + [op])[..|ops|] == ops;
  }

  /** Being settled at an earlier attempt does not depend on what follows. */
  lemma SettledPrefix(ops: seq<Op>, max: nat, id: Uuid)
    requires ops != []
    ensures var init, n := ops[..|ops| - 1], |ops| - 1;
            && ((exists k :: BlockedAt(ops, max, id, k))
                <==> (exists k :: BlockedAt(init, max, id, k)) || BlockedAt(ops, max, id, n))
            && ((exists k :: GeneratedAt(ops, max, id, k))
                <==> (exists k :: GeneratedAt(init, max, id, k)) || GeneratedAt(ops, max, id, n))
  {
    hide BlocksAfter, LiveAfter;
    var init, n := ops[..|ops| - 1], |ops| - 1;
    forall k: nat | k < n
      ensures BlockedAt(ops, max, id, k) <==> BlockedAt(init, max, id, k)
      ensures GeneratedAt(ops, max, id, k) <==> GeneratedAt(init, max, id, k)
    {
      assert init[..k] == ops[..k];
    }
  }

  /** The status of a rule, in terms of its failing cycles. */
  lemma {:induction false} StatusMeaning(ops: seq<Op>, max: nat, id: Uuid)
    requires 1 <= max && id != NIL
    ensures Explains(StatusOf(ops, max, id), ops, max, id)
    ensures StatusOf(ops, max, id).Blocked? <==> exists k :: BlockedAt(ops, max, id, k)
    ensures StatusOf(ops, max, id).Done? <==> exists k :: GeneratedAt(ops, max, id, k)
  {
    if ops != [] {
      var n := |ops| - 1;
      var init, op := ops[..n], ops[n];
      assert ops == init + [op];
      StatusMeaning(init, max, id);
      SettledPrefix(ops, max, id);
      var s := StatusOf(init, max, id);
      if s.Active? {
        ExplainsStep(s, init, op, max, id);
      } else {
        SettledStays(ops, max, id);
      }
    }
  }

  /** A settled rule is not settled again, whatever happens to it later. */
  lemma SettledStays(ops: seq<Op>, max: nat, id: Uuid)
    requires ops != []
    requires var init := ops[..|ops| - 1];
             (exists k :: BlockedAt(init, max, id, k)) || (exists k :: GeneratedAt(init, max, id, k))
    ensures !BlockedAt(ops, max, id, |ops| - 1) && !GeneratedAt(ops, max, id, |ops| - 1)
  {
    var init := ops[..|ops| - 1];
    if k: nat :| GeneratedAt(init, max, id, k) {
      hide FailCycles, Cycles;
      assert init[k] in init;
    } else if k: nat :| BlockedAt(init, max, id, k) {
      BlockedCount(init, max, id, k);
      hide FailCycles, Cycles;
    }
  }

  /** After a rule is blocked its failing cycles stay at `max` or more. */
  lemma {:induction false} BlockedCount(ops: seq<Op>, max: nat, id: Uuid, k: nat)
    requires BlockedAt(ops, max, id, k)
    ensures |FailCycles(ops, id)| >= max
    decreases |ops|
  {
    var init := ops[..|ops| - 1];
    if k < |init| {
      assert init[..k] == ops[..k];
      BlockedCount(init, max, id, k);
      assert FailCycles(init, id) <= FailCycles(ops, id);
      Smaller(FailCycles(init, id), FailCycles(ops, id));
    } else {
      assert init == ops[..k];
    }
  }

  lemma Smaller(a: set<nat>, b: set<nat>)
    requires a <= b
    ensures |a| <= |b|
  {
    assert b == a + (b - a);
  }

  /**
   Over every history a rule is blocked exactly when some attempt is the first
   failure of its `max`-th distinct failing cycle, and generated exactly when
   some attempt writes its data before that.
   */
  lemma LifeCycle(ops: seq<Op>, max: nat, id: Uuid)
    requires 1 <= max && id != NIL
    ensures id in Run(ops, max).blockedEver <==> exists k :: BlockedAt(ops, max, id, k)
    ensures id in Run(ops, max).generated <==> exists k :: GeneratedAt(ops, max, id, k)
    ensures id in Run(ops, max).reg.retired
            <==> (exists k :: BlockedAt(ops, max, id, k)) || (exists k :: GeneratedAt(ops, max, id, k))
  {
    RulesAreIndependent(ops, max, id);
    StatusMeaning(ops, max, id);
  }

  /** The failing cycles need not be consecutive: the documented reset does not happen. */
  lemma GapsDoNotReset(id: Uuid)
    requires id != NIL
    ensures var ops := [Begin, Try(id, Failed), Begin, Begin, Try(id, Failed)];
            id in Run(ops, 2).blockedEver && FailCycles(ops, id) == {1, 3}
  {
    var ops := [Begin, Try(id, Failed), Begin, Begin, Try(id, Failed)];
    assert ops[..4] == [Begin, Try(id, Failed), Begin, Begin] && ops[..4][..3] == [Begin, Try(id, Failed), Begin];
    assert ops[..4][..3][..2] == [Begin, Try(id, Failed)] && ops[..4][..3][..2][..1] == [Begin];
    assert StatusOf([Begin], 2, id) == Active(0, false);
    assert StatusOf(ops[..4][..3][..2], 2, id) == Active(1, true);
    assert StatusOf(ops[..4][..3], 2, id) == Active(1, false);
    assert StatusOf(ops[..4], 2, id) == Active(1, false);
    RulesAreIndependent(ops, 2, id);
    assert FailCycles([Begin], id) == {} && FailCycles(ops[..4][..3][..2], id) == {1};
    assert FailCycles(ops[..4][..3], id) == {1} && FailCycles(ops[..4], id) == {1};
    assert Cycles(ops[..4][..3][..2][..1]) == 1 && Cycles(ops[..4][..3][..2]) == 1;
    assert Cycles(ops[..4][..3]) == 2 && Cycles(ops[..4]) == 3;
  }
}
