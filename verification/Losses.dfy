/** The orders that reach the broker and lose their row without a crash. A rule file may ask for a limit order
    with no limit price, or give a market order one; the orders table refuses such a row, and it is written
    only after the order was placed. */
module Losses {
  import opened Basics
  import opened Records
  import opened Rules
  import opened Risk
  import opened Protocol
  import opened Integrity
  import opened Orders
  import opened Provenance

  // A limit price exactly for a limit order
  predicate Fits(o: ValidatedOrder) {
    o.orderType == Limit <==> o.limitPrice.Some?
  }

  predicate RuleFits(r: RuleSpec) {
    r.action.orderType == Limit <==> r.action.limitPrice.Some?
  }

  // Every rule supplied in the run has passed the bounds of the rule schema
  predicate SchemaValid(steps: seq<Step>) {
    forall i, r :: 0 <= i < |steps| && steps[i].Trade? && r in steps[i].ruleInput.rules ==> WellFormed(r)
  }

  predicate AllRulesFit(steps: seq<Step>) {
    forall i, r :: 0 <= i < |steps| && steps[i].Trade? && r in steps[i].ruleInput.rules ==> RuleFits(r)
  }

  predicate NoRuleCrash(steps: seq<Step>) {
    forall i :: 0 <= i < |steps| ==> !steps[i].RuleCrash?
  }

  function MisfitCount(placed: seq<ValidatedOrder>, id: string): nat {
    if placed == [] then 0
    else
      var o := placed[|placed| - 1];
      MisfitCount(placed[..|placed| - 1], id) + if o.eventId == id && !Fits(o) then 1 else 0
  }

  // A misfit that is placed and not yet refused by the table
  function MisfitInFlight(pc: RulePc, id: string): nat {
    if pc.RRecord? && pc.work.order.eventId == id && !Fits(ToValidated(pc.work.order)) then 1 else 0
  }

  // ---- Quantities stay positive ----

  predicate Sized(pc: RulePc) {
    match pc
    case RContext(w) => w.order.quantity > 0
    case RGate(w, _, _) => w.order.quantity > 0
    case RValidate(w, _) => w.order.quantity > 0
    case RPlace(w, _) => w.order.quantity > 0
    case RRecord(w, _) => w.order.quantity > 0
    case _ => true
  }

  lemma LoadSized(c: Config, s: Sys, input: RuleInput)
    requires s.rule.RLoad? && forall r :: r in input.rules ==> WellFormed(r)
    ensures Sized(RuleStep(c, s, input).rule)
  {
    var e, r := LoadStage(c, s, input);
  }

  lemma RuleStepSized(c: Config, s: Sys, input: RuleInput)
    requires Sized(s.rule) && forall r :: r in input.rules ==> WellFormed(r)
    ensures Sized(RuleStep(c, s, input).rule)
  {
    if s.rule.RLoad? { LoadSized(c, s, input); }
  }

  // ---- What is lost is what does not fit ----

  predicate MisfitsLost(placed: seq<ValidatedOrder>, lost: seq<string>, pc: RulePc, id: string) {
    MisfitCount(placed, id) == LostCount(lost, id) + MisfitInFlight(pc, id)
  }

  lemma PlaceMisfit(c: Config, s: Sys, input: RuleInput, id: string)
    requires s.rule.RPlace? && MisfitsLost(s.placed, s.hist.lost, s.rule, id)
    ensures var s' := RuleStep(c, s, input); MisfitsLost(s'.placed, s'.hist.lost, s'.rule, id)
  {
    assert (s.placed + [ToValidated(s.rule.work.order)])[..|s.placed|] == s.placed;
  }

  lemma RecordMisfit(c: Config, s: Sys, input: RuleInput, id: string)
    requires OneRowPerEvent(c, s) && Sized(s.rule) && s.rule.RRecord?
    requires MisfitsLost(s.placed, s.hist.lost, s.rule, id)
    ensures var s' := RuleStep(c, s, input); MisfitsLost(s'.placed, s'.hist.lost, s'.rule, id)
  {
    RecordFate(c, s, input);
    LostAppend(s.hist.lost, s.rule.work.order.eventId, id);
  }

  lemma RecordFate(c: Config, s: Sys, input: RuleInput)
    requires OneRowPerEvent(c, s) && Sized(s.rule) && s.rule.RRecord?
    ensures var s' := RuleStep(c, s, input);
            && s'.placed == s.placed && !s'.rule.RRecord?
            && s'.hist.lost == if Fits(ToValidated(s.rule.work.order)) then s.hist.lost
                               else s.hist.lost + [s.rule.work.order.eventId]
  {
    RowLostIff(c, s, input);
    RecordLoses(c, s, input);
  }

  lemma RecordLoses(c: Config, s: Sys, input: RuleInput)
    requires s.rule.RRecord?
    ensures var s' := RuleStep(c, s, input);
            s'.placed == s.placed && !s'.rule.RRecord?
            && (s'.hist.lost == s.hist.lost || s'.hist.lost == s.hist.lost + [s.rule.work.order.eventId])
  {
  }

  lemma QuietMisfit(c: Config, s: Sys, input: RuleInput)
    requires !s.rule.RPlace? && !s.rule.RRecord?
    ensures var s' := RuleStep(c, s, input); s'.placed == s.placed && s'.hist.lost == s.hist.lost && !s'.rule.RRecord?
  {
    if s.rule.RCommit? {
      CommitLosesNothing(c, s, input);
    } else {
      RuleQuietFrame(c, s, input);
    }
  }

  lemma CommitLosesNothing(c: Config, s: Sys, input: RuleInput)
    requires s.rule.RCommit?
    ensures var s' := RuleStep(c, s, input); s'.placed == s.placed && s'.hist.lost == s.hist.lost && s'.rule == RCheck(ReadEnv)
  {
  }

  lemma RuleStepMisfits(c: Config, s: Sys, input: RuleInput, id: string)
    requires OneRowPerEvent(c, s) && Sized(s.rule) && MisfitsLost(s.placed, s.hist.lost, s.rule, id)
    ensures var s' := RuleStep(c, s, input); MisfitsLost(s'.placed, s'.hist.lost, s'.rule, id)
  {
    if s.rule.RPlace? {
      PlaceMisfit(c, s, input, id);
    } else if s.rule.RRecord? {
      RecordMisfit(c, s, input, id);
    } else {
      QuietMisfit(c, s, input);
    }
  }

  lemma StepMisfits(c: Config, s: Sys, step: Step, id: string)
    requires OneRowPerEvent(c, s) && Sized(s.rule) && MisfitsLost(s.placed, s.hist.lost, s.rule, id)
    requires !step.RuleCrash? && (step.Trade? ==> forall r :: r in step.ruleInput.rules ==> WellFormed(r))
    ensures var s' := Exec(c, s, step); Sized(s'.rule) && MisfitsLost(s'.placed, s'.hist.lost, s'.rule, id)
  {
    if step.Trade? {
      RuleStepSized(c, s, step.ruleInput);
      RuleStepMisfits(c, s, step.ruleInput, id);
    } else {
      RuleSideFrame(c, s, step);
    }
  }

  lemma {:induction false} RunMisfits(c: Config, s0: Sys, steps: seq<Step>, id: string)
    requires Init(s0) && NoRuleCrash(steps) && SchemaValid(steps)
    ensures var s := Run(c, s0, steps); Sized(s.rule) && MisfitsLost(s.placed, s.hist.lost, s.rule, id)
  {
    if steps != [] {
      var n := |steps| - 1;
      RunMisfits(c, s0, steps[..n], id);
      RunOneRow(c, s0, steps[..n]);
      StepMisfits(c, Run(c, s0, steps[..n]), steps[n], id);
    }
  }

  /** Without a crash of the rule worker, and with rules that pass the schema, the orders of an event that lost
      their row are exactly its placed orders whose limit price does not fit their type, but for the one that
      the table has still to refuse. */
  lemma LostAreTheMisfits(c: Config, s0: Sys, steps: seq<Step>, id: string)
    requires Init(s0) && NoRuleCrash(steps) && SchemaValid(steps)
    ensures var s := Run(c, s0, steps);
            MisfitCount(s.placed, id) == LostCount(s.hist.lost, id) + MisfitInFlight(s.rule, id)
  {
    RunMisfits(c, s0, steps, id);
  }

  // ---- Losing nothing ----

  lemma {:induction false} NoMisfits(placed: seq<ValidatedOrder>, id: string)
    ensures MisfitCount(placed, id) == 0 <==> forall o :: o in placed && o.eventId == id ==> Fits(o)
  {
    if placed != [] {
      var n := |placed| - 1;
      assert placed == placed[..n] + [placed[n]];
      NoMisfits(placed[..n], id);
    }
  }

  lemma {:induction false} NotLost(lost: seq<string>, id: string)
    ensures LostCount(lost, id) == 0 <==> id !in lost
  {
    if lost != [] {
      var n := |lost| - 1;
      assert lost == lost[..n] + [lost[n]];
      NotLost(lost[..n], id);
    }
  }

  /** Between orders, such a run has lost no row exactly when every order it placed fits. */
  lemma NothingLostIff(c: Config, s0: Sys, steps: seq<Step>)
    requires Init(s0) && NoRuleCrash(steps) && SchemaValid(steps) && !Run(c, s0, steps).rule.RRecord?
    ensures var s := Run(c, s0, steps); s.hist.lost == [] <==> forall o :: o in s.placed ==> Fits(o)
  {
    var s := Run(c, s0, steps);
    forall o | o in s.placed && s.hist.lost == [] ensures Fits(o) {
      RunMisfits(c, s0, steps, o.eventId);
      NoMisfits(s.placed, o.eventId);
    }
    if s.hist.lost != [] {
      RunMisfits(c, s0, steps, s.hist.lost[0]);
      NoMisfits(s.placed, s.hist.lost[0]);
      NotLost(s.hist.lost, s.hist.lost[0]);
    }
  }

  /** When the limit price of every supplied rule fits its order type, such a run loses no row at all, and an
      event has at most one order at the broker: its row, or the one in flight. */
  lemma FittingRulesLoseNothing(c: Config, s0: Sys, steps: seq<Step>, id: string)
    requires Init(s0) && NoRuleCrash(steps) && SchemaValid(steps) && AllRulesFit(steps)
    ensures var s := Run(c, s0, steps);
            && s.hist.lost == []
            && PlacedCount(s.placed, id) == RowCount(s.db.orders, id) + (if UnrecordedEvent(s.rule) == Some(id) then 1 else 0)
            && PlacedCount(s.placed, id) <= 1
  {
    var s := Run(c, s0, steps);
    PlacedFit(c, s0, steps);
    if s.hist.lost != [] {
      RunMisfits(c, s0, steps, s.hist.lost[0]);
      NoMisfits(s.placed, s.hist.lost[0]);
      NotLost(s.hist.lost, s.hist.lost[0]);
    }
    BrokerOrdersAccounted(c, s0, steps, id);
  }

  lemma PlacedFit(c: Config, s0: Sys, steps: seq<Step>)
    requires Init(s0) && AllRulesFit(steps)
    ensures forall o :: o in Run(c, s0, steps).placed ==> Fits(o)
  {
    forall n | 0 <= n < |Run(c, s0, steps).placed| ensures Fits(Run(c, s0, steps).placed[n]) {
      var t, k := EveryOrderIsAccountedFor(c, s0, steps, n);
      ChosenRuleFits(c, steps, Trace(c, s0, steps), t.evaluated, t.event, t.rule);
      assert Carries(Run(c, s0, steps).placed[n], t.rule, t.event);
    }
  }

  lemma ChosenRuleFits(c: Config, steps: seq<Step>, trace: seq<Sys>, i: int, e: EventRow, r: RuleSpec)
    requires |trace| > |steps| && EvaluatedAt(c, steps, trace, i, e, r) && AllRulesFit(steps)
    ensures RuleFits(r)
  {
    assert steps[i].Trade? && r in steps[i].ruleInput.rules;
  }
}
