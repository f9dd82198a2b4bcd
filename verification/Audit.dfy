/** The audit trail decides the order: from the rule_evaluations rows of an event alone one can tell
    whether an orders row exists for it, and what it holds. */
module Audit {
  import opened Basics
  import opened Records
  import opened Rules
  import opened Risk
  import opened Protocol
  import opened Delivery
  import opened Integrity

  // Engine rows that matched carry the proposed order; risk rows never do.
  function EngineMatches(rows: seq<EvalRow>): nat {
    if rows == [] then 0
    else
      var r := rows[|rows| - 1];
      EngineMatches(rows[..|rows| - 1]) + if r.outcome == Matched && r.proposed.Some? then 1 else 0
  }

  function RiskPasses(rows: seq<EvalRow>): nat {
    if rows == [] then 0
    else
      var r := rows[|rows| - 1];
      RiskPasses(rows[..|rows| - 1]) + if r.outcome == Matched && r.proposed.None? then 1 else 0
  }

  // The row is MATCHED, and it is the engine's or a risk check's
  predicate IsMatch(row: EvalRow, withOrder: bool) {
    row.outcome == Matched && row.proposed.Some? == withOrder
  }

  // The matched ones among the first k rows
  ghost function MatchedRows(rows: seq<EvalRow>, k: nat, withOrder: bool): set<int>
    requires k <= |rows|
  {
    set i | 0 <= i < k && IsMatch(rows[i], withOrder)
  }

  /** The two counts are the numbers of MATCHED rows with and without a proposed order. */
  lemma {:induction false} CountsAre(rows: seq<EvalRow>, k: nat)
    requires k <= |rows|
    ensures EngineMatches(rows[..k]) == |MatchedRows(rows, k, true)| && RiskPasses(rows[..k]) == |MatchedRows(rows, k, false)|
  {
    if k > 0 {
      CountsAre(rows, k - 1);
      assert rows[..k][..k - 1] == rows[..k - 1];
      MatchedRowsStep(rows, k - 1, true);
      MatchedRowsStep(rows, k - 1, false);
    }
  }

  lemma MatchedRowsStep(rows: seq<EvalRow>, k: nat, withOrder: bool)
    requires k < |rows|
    ensures |MatchedRows(rows, k + 1, withOrder)| == |MatchedRows(rows, k, withOrder)| + if IsMatch(rows[k], withOrder) then 1 else 0
  {
    assert MatchedRows(rows, k + 1, withOrder) == MatchedRows(rows, k, withOrder) + if IsMatch(rows[k], withOrder) then {k as int} else {};
  }

  // The audit verdict: one engine row matched and the six risk checks passed
  predicate Decides(rows: seq<EvalRow>) {
    EngineMatches(rows) == 1 && RiskPasses(rows) == 6
  }

  predicate MatchedRowsPropose(rows: seq<EvalRow>, order: ProposedOrder) {
    forall r :: r in rows && r.outcome == Matched && r.proposed.Some? ==> r.proposed == Some(order)
  }

  predicate AllFor(rows: seq<EvalRow>, eventId: string) {
    forall r :: r in rows ==> r.eventId == eventId
  }

  predicate BatchOk(b: Batch) {
    && AllFor(b.rows, b.eventId)
    && (b.submitted.Some? <==> Decides(b.rows))
    && (b.submitted.Some? ==>
          && MatchedRowsPropose(b.rows, b.submitted.value.0)
          && b.submitted.value.0.eventId == b.eventId
          && b.submitted.value.1.order == ToValidated(b.submitted.value.0))
  }

  predicate WorkOk(w: Work, passes: nat) {
    && AllFor(w.rows, w.order.eventId) && MatchedRowsPropose(w.rows, w.order)
    && EngineMatches(w.rows) == 1 && RiskPasses(w.rows) == passes
  }

  predicate PendingRowsOk(pc: RulePc) {
    match pc
    case RContext(w) => WorkOk(w, 0)
    case RGate(w, _, _) => WorkOk(w, 0)
    case RValidate(w, _) => WorkOk(w, 0)
    case RPlace(w, _) => WorkOk(w, 6)
    case RRecord(w, _) => WorkOk(w, 6)
    case RCommit(b) => BatchOk(b)
    case _ => true
  }

  // ---- Counting rows ----

  lemma {:induction false} CountsAdd(a: seq<EvalRow>, b: seq<EvalRow>)
    ensures EngineMatches(a + b) == EngineMatches(a) + EngineMatches(b)
    ensures RiskPasses(a + b) == RiskPasses(a) + RiskPasses(b)
  {
    if b == [] {
      assert a + b == a;
    } else {
      assert (a + b)[..|a + b| - 1] == a + b[..|b| - 1];
      CountsAdd(a, b[..|b| - 1]);
    }
  }

  function PassedCount(checks: seq<CheckResult>): nat {
    if checks == [] then 0
    else PassedCount(checks[..|checks| - 1]) + if checks[|checks| - 1].passed then 1 else 0
  }

  lemma {:induction false} AllPassedIffFull(checks: seq<CheckResult>)
    ensures PassedCount(checks) <= |checks|
    ensures PassedCount(checks) == |checks| <==> AllPassed(checks)
  {
    if checks != [] {
      var n := |checks| - 1;
      assert checks == checks[..n] + [checks[n]];
      AllPassedIffFull(checks[..n]);
    }
  }

  lemma {:induction false} AuditCounts(order: ProposedOrder, checks: seq<CheckResult>)
    ensures EngineMatches(AuditRows(order, checks)) == 0
    ensures RiskPasses(AuditRows(order, checks)) == PassedCount(checks)
  {
    if checks != [] {
      var n := |checks| - 1;
      AuditCounts(order, checks[..n]);
      assert AuditRows(order, checks)[..n] == AuditRows(order, checks[..n]);
    }
  }

  lemma {:induction false} EngineCounts(eventId: string, rules: seq<RuleSpec>, event: EventRow, parse: FloatParser)
    ensures var out := EvaluateInOrder(rules, event, parse);
            var rows := EngineRows(eventId, out);
            && AllFor(rows, eventId)
            && RiskPasses(rows) == 0
            && EngineMatches(rows) == (if out.matched.Some? then 1 else 0)
            && (out.matched.Some? ==>
                  && out.matched.value.proposed.Some?
                  && MatchedRowsPropose(rows, out.matched.value.proposed.value))
            && (forall r :: r in rows && r.outcome == Matched ==> out.matched.Some?)
  {
    if rules != [] {
      var n := |rules| - 1;
      var before := EvaluateInOrder(rules[..n], event, parse);
      var record := RecordFor(rules[n], event, parse, before.matched.Some?);
      EngineCounts(eventId, rules[..n], event, parse);
      var row := EvalRow(eventId, record.ruleId, record.priority, record.outcome, record.proposed);
      var rows := EngineRows(eventId, EvaluateInOrder(rules, event, parse));
      assert rows == EngineRows(eventId, before) + [row];
      assert rows[..|rows| - 1] == EngineRows(eventId, before);
    }
  }

  // ---- What the rows say ----

  /** The engine leaves one row per rule, by descending priority, then id: the rule's id and priority, MATCHED with
      the proposed order for the first rule to fire, FAILED for a rule that raised, SKIPPED for every other. */
  lemma EngineRowsAre(eventId: string, rules: seq<RuleSpec>, event: EventRow, parse: FloatParser)
    ensures var sorted, rows := Canonical(rules), EngineRows(eventId, Evaluate(rules, event, parse));
            && |rows| == |rules| == |sorted|
            && (forall i, j :: 0 <= i < j < |sorted| ==>
                  sorted[i].priority > sorted[j].priority
                  || (sorted[i].priority == sorted[j].priority && StringLe(sorted[i].id, sorted[j].id)))
            && (forall i :: 0 <= i < |rows| ==> EngineRowIs(eventId, sorted, event, parse, i, rows[i]))
  {
    var sorted := Canonical(rules);
    SameMembers(sorted, rules);
    RuleLeTotal();
    SortOrdered(RuleLe, rules);
    RecordCount(sorted, event, parse);
    assert forall i, j :: 0 <= i < j < |sorted| ==> RuleLe(sorted[i], sorted[j]);
    forall i | 0 <= i < |sorted|
      ensures EngineRowIs(eventId, sorted, event, parse, i, EngineRows(eventId, Evaluate(rules, event, parse))[i])
    {
      OneRecordPerRule(sorted, event, parse, i);
    }
  }

  ghost predicate EngineRowIs(eventId: string, sorted: seq<RuleSpec>, event: EventRow, parse: FloatParser, i: nat, row: EvalRow)
    requires i < |sorted|
  {
    && row.eventId == eventId && row.ruleId == sorted[i].id && row.priority == sorted[i].priority
    && (if FirstToFire(sorted, event, parse, i) then
          row.outcome == Matched && row.proposed == Some(BuildProposedOrder(sorted[i], event))
        else
          row.proposed == None
          && row.outcome == (if sorted[i].enabled && AllHold(sorted[i].conditions, event, parse).None? then Failed else Skipped))
  }

  function Verdict(passed: bool): RuleOutcome { if passed then Matched else Failed }

  ghost function CheckName(i: nat): string {
    match i
    case 0 => "position_size"
    case 1 => "total_exposure"
    case 2 => "max_trades_per_day"
    case 3 => "daily_drawdown"
    case 4 => "market_hours"
    case _ => "idempotency"
  }

  // The limits, in the order of the checks
  ghost predicate LimitHolds(c: Config, order: ProposedOrder, ctx: Context, i: nat) {
    var notional := order.quantity as real * order.referencePrice;
    match i
    case 0 => notional * 100.0 <= c.limits.maxPositionPct * ctx.capital
    case 1 => (ctx.exposure + notional) * 100.0 <= c.limits.maxExposurePct * ctx.capital
    case 2 => ctx.tradesToday < c.limits.maxTradesPerDay
    case 3 => DrawdownPct(ctx) < c.limits.maxDrawdownPct
    case 4 => c.limits.allowAfterHours || c.isOpen(ctx.now)
    case _ => order.eventId !in ctx.seenEvents && order.eventId + ":" + order.strategyId !in ctx.seenKeys
  }

  /** The six risk rows, in the order of the checks, each under its name and with the verdict of its limit. */
  lemma RiskRowsAre(c: Config, order: ProposedOrder, ctx: Context)
    ensures var rows := AuditRows(order, RunChecks(CanonicalRules(c.limits, c.isOpen), order, ctx));
            && |rows| == 6
            && (forall i :: 0 <= i < 6 ==>
                  rows[i] == EvalRow(order.eventId, "risk." + CheckName(i), i,
                                     if LimitHolds(c, order, ctx, i) then Matched else Failed, None))
  {
    var rules := CanonicalRules(c.limits, c.isOpen);
    forall i | 0 <= i < 6
      ensures RuleName(rules[i]) == CheckName(i) && (Passes(rules[i], order, ctx) <==> LimitHolds(c, order, ctx, i))
    {
      RiskCheckMeans(c, order, ctx, i);
    }
  }

  lemma RiskCheckMeans(c: Config, order: ProposedOrder, ctx: Context, i: nat)
    requires i < 6
    ensures var rule := CanonicalRules(c.limits, c.isOpen)[i];
            RuleName(rule) == CheckName(i) && (Passes(rule, order, ctx) <==> LimitHolds(c, order, ctx, i))
  {
    PercentPasses(c.limits.maxPositionPct, c.limits.maxExposurePct, order, ctx);
  }

  // ---- The rule worker keeps the books straight ----

  lemma LoadRowsOk(c: Config, s: Sys, input: RuleInput)
    requires s.rule.RLoad?
    ensures PendingRowsOk(RuleStep(c, s, input).rule)
  {
    var found := FindEvent(s.db.events, s.rule.eventId);
    if found.Some? {
      EngineCounts(s.rule.eventId, Canonical(input.rules), found.value, c.parse);
      MatchedOrderEvent(Canonical(input.rules), found.value, c.parse);
    }
  }

  lemma ValidateRowsOk(c: Config, s: Sys, input: RuleInput)
    requires s.rule.RValidate? && PendingRowsOk(s.rule)
    ensures PendingRowsOk(RuleStep(c, s, input).rule)
  {
    var w := s.rule.work;
    var checks := RunChecks(CanonicalRules(c.limits, c.isOpen), w.order, s.rule.ctx);
    CountsAdd(w.rows, AuditRows(w.order, checks));
    AuditCounts(w.order, checks);
    AllPassedIffFull(checks);
  }

  lemma RuleStepRowsOk(c: Config, s: Sys, input: RuleInput)
    requires PendingRowsOk(s.rule)
    ensures PendingRowsOk(RuleStep(c, s, input).rule)
  {
    if s.rule.RLoad? {
      LoadRowsOk(c, s, input);
    } else if s.rule.RValidate? {
      ValidateRowsOk(c, s, input);
    }
  }

  // ---- The tables are the committed batches, laid end to end ----

  function BatchRows(batches: seq<Batch>): seq<EvalRow> {
    if batches == [] then [] else BatchRows(batches[..|batches| - 1]) + batches[|batches| - 1].rows
  }

  function SubmittedRows(b: Batch): seq<OrderRow> {
    if b.submitted.Some? then [b.submitted.value.1] else []
  }

  function BatchOrders(batches: seq<Batch>): seq<OrderRow> {
    if batches == [] then []
    else
      var b := batches[|batches| - 1];
      BatchOrders(batches[..|batches| - 1]) + SubmittedRows(b)
  }

  predicate TablesAreBatches(s: Sys) {
    && s.db.evals == BatchRows(s.hist.batches)
    && s.db.orders == BatchOrders(s.hist.batches)
    && forall b :: b in s.hist.batches ==> BatchOk(b)
  }

  lemma RuleStepBatches(c: Config, s: Sys, input: RuleInput)
    requires TablesAreBatches(s) && PendingRowsOk(s.rule)
    ensures TablesAreBatches(RuleStep(c, s, input))
  {
    if s.rule.RCommit? {
      assert (s.hist.batches + [s.rule.batch])[..|s.hist.batches|] == s.hist.batches;
    } else {
      RuleTablesFrame(c, s, input);
    }
  }

  lemma {:induction false} RunBatches(c: Config, s0: Sys, steps: seq<Step>)
    requires Init(s0)
    ensures var s := Run(c, s0, steps); TablesAreBatches(s) && PendingRowsOk(s.rule)
  {
    if steps != [] {
      var n := |steps| - 1;
      RunBatches(c, s0, steps[..n]);
      StepBatches(c, Run(c, s0, steps[..n]), steps[n]);
    }
  }

  lemma StepBatches(c: Config, s: Sys, step: Step)
    requires TablesAreBatches(s) && PendingRowsOk(s.rule)
    ensures var s' := Exec(c, s, step); TablesAreBatches(s') && PendingRowsOk(s'.rule)
  {
    if step.Trade? {
      RuleStepRowsOk(c, s, step.ruleInput);
      RuleStepBatches(c, s, step.ruleInput);
    } else {
      RuleSideFrame(c, s, step);
    }
  }

  /** In every run each committed batch submitted an order exactly when its audit rows say so, and then the
      orders row has the fields of the order its matched engine row proposed. */
  lemma BatchAuditDecides(c: Config, s0: Sys, steps: seq<Step>, b: Batch)
    requires Init(s0) && b in Run(c, s0, steps).hist.batches
    ensures b.submitted.Some? <==> EngineMatches(b.rows) == 1 && RiskPasses(b.rows) == 6
    ensures b.submitted.Some? ==>
              && b.submitted.value.1 in Run(c, s0, steps).db.orders
              && b.submitted.value.1.order == ToValidated(b.submitted.value.0)
              && MatchedRowsPropose(b.rows, b.submitted.value.0)
  {
    RunBatches(c, s0, steps);
    if b.submitted.Some? { BatchOrderIn(Run(c, s0, steps).hist.batches, b); }
  }

  lemma {:induction false} BatchOrderIn(batches: seq<Batch>, b: Batch)
    requires b in batches && b.submitted.Some?
    ensures b.submitted.value.1 in BatchOrders(batches)
  {
    var n := |batches| - 1;
    if batches[n] != b {
      assert batches == batches[..n] + [batches[n]];
      BatchOrderIn(batches[..n], b);
    }
  }

  // ---- The same, read off the tables ----

  function RowsOf(rows: seq<EvalRow>, eventId: string): seq<EvalRow> {
    if rows == [] then []
    else
      var r := rows[|rows| - 1];
      RowsOf(rows[..|rows| - 1], eventId) + if r.eventId == eventId then [r] else []
  }

  lemma {:induction false} RowsOfAppend(a: seq<EvalRow>, b: seq<EvalRow>, eventId: string)
    ensures RowsOf(a + b, eventId) == RowsOf(a, eventId) + RowsOf(b, eventId)
  {
    if b == [] {
      assert a + b == a;
    } else {
      assert (a + b)[..|a + b| - 1] == a + b[..|b| - 1];
      RowsOfAppend(a, b[..|b| - 1], eventId);
    }
  }

  lemma {:induction false} RowsOfBatch(rows: seq<EvalRow>, owner: string, eventId: string)
    requires AllFor(rows, owner)
    ensures RowsOf(rows, eventId) == if owner == eventId then rows else []
  {
    if rows != [] {
      var n := |rows| - 1;
      assert rows == rows[..n] + [rows[n]];
      RowsOfBatch(rows[..n], owner, eventId);
    }
  }

  function BatchEvents(batches: seq<Batch>): (ids: seq<string>)
    ensures |ids| == |batches| && forall i :: 0 <= i < |batches| ==> ids[i] == batches[i].eventId
  {
    Map((b: Batch) => b.eventId, batches)
  }

  predicate AllOk(batches: seq<Batch>) {
    forall b :: b in batches ==> BatchOk(b)
  }

  // What the last batch adds to the rows and orders of one event
  lemma LastBatch(batches: seq<Batch>, eventId: string)
    requires batches != [] && AllOk(batches)
    ensures var n := |batches| - 1;
            var b := batches[n];
            && BatchOk(b) && AllOk(batches[..n])
            && RowsOf(BatchRows(batches), eventId)
                 == RowsOf(BatchRows(batches[..n]), eventId) + (if b.eventId == eventId then b.rows else [])
            && (eventId in OrderEvents(BatchOrders(batches)) <==>
                  eventId in OrderEvents(BatchOrders(batches[..n])) || (b.eventId == eventId && b.submitted.Some?))
  {
    var n := |batches| - 1;
    var b := batches[n];
    assert b in batches && forall x :: x in batches[..n] ==> x in batches;
    RowsOfAppend(BatchRows(batches[..n]), b.rows, eventId);
    RowsOfBatch(b.rows, b.eventId, eventId);
    OrderColumnsAppend(BatchOrders(batches[..n]), SubmittedRows(b));
    if b.submitted.Some? { assert OrderEvents(SubmittedRows(b)) == [b.eventId]; }
  }

  lemma EventsOfLast(batches: seq<Batch>)
    requires batches != []
    ensures var n := |batches| - 1; BatchEvents(batches) == BatchEvents(batches[..n]) + [batches[n].eventId]
  {
  }

  lemma {:induction false} AbsentFromTables(batches: seq<Batch>, eventId: string)
    requires AllOk(batches) && eventId !in BatchEvents(batches)
    ensures RowsOf(BatchRows(batches), eventId) == [] && eventId !in OrderEvents(BatchOrders(batches))
  {
    if batches != [] {
      EventsOfLast(batches);
      LastBatch(batches, eventId);
      AbsentFromTables(batches[..|batches| - 1], eventId);
    }
  }

  lemma {:induction false} TablesDecide(batches: seq<Batch>, eventId: string)
    requires Distinct(BatchEvents(batches)) && AllOk(batches)
    ensures eventId in OrderEvents(BatchOrders(batches)) <==> Decides(RowsOf(BatchRows(batches), eventId))
  {
    if batches != [] {
      var n := |batches| - 1;
      EventsOfLast(batches);
      DistinctAppend(BatchEvents(batches[..n]), batches[n].eventId);
      LastBatch(batches, eventId);
      if batches[n].eventId == eventId {
        AbsentFromTables(batches[..n], eventId);
        assert [] + batches[n].rows == batches[n].rows;
      } else {
        TablesDecide(batches[..n], eventId);
        assert RowsOf(BatchRows(batches[..n]), eventId) + [] == RowsOf(BatchRows(batches[..n]), eventId);
      }
    }
  }

  lemma {:induction false} RowKept(rows: seq<EvalRow>, r: EvalRow)
    requires r in rows
    ensures r in RowsOf(rows, r.eventId)
  {
    var n := |rows| - 1;
    if rows[n] != r {
      assert rows == rows[..n] + [rows[n]];
      RowKept(rows[..n], r);
    }
  }

  // A row and an order of one event come from one batch
  lemma {:induction false} FieldsAgree(batches: seq<Batch>, o: OrderRow, r: EvalRow)
    requires Distinct(BatchEvents(batches)) && AllOk(batches)
    requires o in BatchOrders(batches) && r in BatchRows(batches) && r.eventId == o.order.eventId
    requires r.outcome == Matched && r.proposed.Some?
    ensures o.order == ToValidated(r.proposed.value)
  {
    var n := |batches| - 1;
    var b := batches[n];
    EventsOfLast(batches);
    DistinctAppend(BatchEvents(batches[..n]), b.eventId);
    LastBatch(batches, r.eventId);
    if r.eventId == b.eventId {
      AbsentFromTables(batches[..n], b.eventId);
      if r in BatchRows(batches[..n]) { RowKept(BatchRows(batches[..n]), r); }
      OrderNamed(BatchOrders(batches[..n]), o);
    } else {
      assert r in BatchRows(batches[..n]);
      assert o in BatchOrders(batches[..n]);
      FieldsAgree(batches[..n], o, r);
    }
  }

  lemma OrderNamed(orders: seq<OrderRow>, o: OrderRow)
    ensures o in orders ==> o.order.eventId in OrderEvents(orders)
  {
    if o in orders {
      var i :| 0 <= i < |orders| && orders[i] == o;
      assert OrderEvents(orders)[i] == o.order.eventId;
    }
  }

  // ---- With own pushes only, an event has at most one batch ----

  predicate BatchesOnce(batches: seq<Batch>, pc: RulePc, pops: seq<string>) {
    && Distinct(BatchEvents(batches))
    && (forall id :: id in BatchEvents(batches) ==> id in pops)
    && (Handling(pc).Some? ==> Handling(pc).value in pops && Handling(pc).value !in BatchEvents(batches))
  }

  // The event whose transaction the rule worker has open
  function Handling(pc: RulePc): Option<string> {
    match pc
    case RRecord(w, _) => Some(w.order.eventId)
    case RCommit(b) => Some(b.eventId)
    case _ => InHand(pc)
  }

  lemma LoadHandled(c: Config, s: Sys, input: RuleInput)
    requires s.rule.RLoad?
    ensures var s' := RuleStep(c, s, input);
            Handling(s'.rule) == Handling(s.rule) || Handling(s'.rule) == None
  {
    var found := FindEvent(s.db.events, s.rule.eventId);
    if found.Some? {
      MatchedOrderEvent(Canonical(input.rules), found.value, c.parse);
    }
  }

  lemma HandlingKept(c: Config, s: Sys, input: RuleInput)
    requires !s.rule.RPop? && !s.rule.RCommit?
    ensures var s' := RuleStep(c, s, input);
            && s'.hist.batches == s.hist.batches && s'.hist.eventPops == s.hist.eventPops
            && (Handling(s'.rule) == Handling(s.rule) || Handling(s'.rule) == None)
  {
    if s.rule.RLoad? { LoadHandled(c, s, input); }
  }

  lemma RuleStepBatchesOnce(c: Config, s: Sys, input: RuleInput)
    requires BatchesOnce(s.hist.batches, s.rule, s.hist.eventPops)
    requires s.hist.eventPops + s.redis.eventQueue == s.hist.eventPushes && Distinct(s.hist.eventPushes)
    ensures var s' := RuleStep(c, s, input); BatchesOnce(s'.hist.batches, s'.rule, s'.hist.eventPops)
  {
    if s.rule.RPop? {
      if s.redis.eventQueue != [] {
        PopIsNew(s.hist.eventPops, s.redis.eventQueue, s.hist.eventPushes);
      }
    } else if s.rule.RCommit? {
      var b := s.rule.batch;
      assert BatchEvents(s.hist.batches + [b]) == BatchEvents(s.hist.batches) + [b.eventId];
      DistinctAppend(BatchEvents(s.hist.batches), b.eventId);
    } else {
      HandlingKept(c, s, input);
    }
  }

  lemma StepBatchesOnce(c: Config, s: Sys, step: Step)
    requires BatchesOnce(s.hist.batches, s.rule, s.hist.eventPops)
    requires s.hist.eventPops + s.redis.eventQueue == s.hist.eventPushes && Distinct(s.hist.eventPushes)
    ensures var s' := Exec(c, s, step); BatchesOnce(s'.hist.batches, s'.rule, s'.hist.eventPops)
  {
    if step.Trade? {
      RuleStepBatchesOnce(c, s, step.ruleInput);
    } else {
      RuleSideFrame(c, s, step);
      if step.RuleCrash? { assert CrashRule(s).rule.RStopped? || CrashRule(s).rule == RCheck(ReadEnv); }
    }
  }

  lemma {:induction false} RunBatchesOnce(c: Config, s0: Sys, steps: seq<Step>)
    requires Init(s0) && OwnPushesOnly(steps)
    ensures var s := Run(c, s0, steps); BatchesOnce(s.hist.batches, s.rule, s.hist.eventPops)
  {
    if steps != [] {
      var n := |steps| - 1;
      RunBatchesOnce(c, s0, steps[..n]);
      QueueIsFaithful(c, s0, steps[..n]);
      StepBatchesOnce(c, Run(c, s0, steps[..n]), steps[n]);
    }
  }

  /** Reading the tables of any reachable state: an event has an orders row exactly when its
      rule_evaluations rows hold one matched engine row and six passed risk checks, and the row has the
      fields of the order which that engine row proposed. */
  lemma AuditTrailDecides(c: Config, s0: Sys, steps: seq<Step>, eventId: string)
    requires Init(s0) && OwnPushesOnly(steps)
    ensures var db := Run(c, s0, steps).db;
            var rows := RowsOf(db.evals, eventId);
            eventId in OrderEvents(db.orders) <==> EngineMatches(rows) == 1 && RiskPasses(rows) == 6
    ensures var db := Run(c, s0, steps).db;
            forall o, r ::
              o in db.orders && r in db.evals && o.order.eventId == r.eventId && r.outcome == Matched && r.proposed.Some? ==>
              o.order == ToValidated(r.proposed.value)
  {
    RunBatches(c, s0, steps);
    RunBatchesOnce(c, s0, steps);
    var s := Run(c, s0, steps);
    TablesDecide(s.hist.batches, eventId);
    forall o, r | o in s.db.orders && r in s.db.evals && o.order.eventId == r.eventId
                    && r.outcome == Matched && r.proposed.Some?
      ensures o.order == ToValidated(r.proposed.value)
    {
      FieldsAgree(s.hist.batches, o, r);
    }
  }
}
