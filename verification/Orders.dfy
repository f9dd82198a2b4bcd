/** What the risk gate guarantees over whole runs, whoever pushes on the event queue: one orders row per
    event, the exact account of broker orders, the daily cap across midnight and the daily notional. */
module Orders {
  import opened Basics
  import opened Records
  import opened Keys
  import opened Risk
  import opened Protocol

  // ---- The snapshot a proposed order is judged against still describes the table ----

  predicate Current(orders: seq<OrderRow>, ctx: Context) {
    && ctx.seenEvents == (set id | id in OrderEvents(orders))
    && ctx.seenKeys == (set key | key in OrderKeys(orders))
    && ctx.tradesToday == CountDay(orders, Day(ctx.now))
  }

  predicate Cleared(c: Config, orders: seq<OrderRow>, order: ProposedOrder, ctx: Context) {
    Current(orders, ctx) && Approved(c.limits, c.isOpen, order, ctx)
  }

  predicate PendingOrderOk(c: Config, orders: seq<OrderRow>, pc: RulePc) {
    match pc
    case RGate(_, ctx, _) => Current(orders, ctx)
    case RValidate(_, ctx) => Current(orders, ctx)
    case RPlace(w, ctx) => Cleared(c, orders, w.order, ctx)
    case RRecord(w, ctx) => Cleared(c, orders, w.order, ctx)
    case RCommit(b) =>
      b.submitted.Some? ==>
        && b.submitted.value.1.order == ToValidated(b.submitted.value.0)
        && b.submitted.value.0.eventId !in OrderEvents(orders)
    case _ => true
  }

  predicate OneRowPerEvent(c: Config, s: Sys) {
    Distinct(OrderEvents(s.db.orders)) && PendingOrderOk(c, s.db.orders, s.rule)
  }

  lemma ContextIsCurrent(snapshot: BrokerSnapshot, orders: seq<OrderRow>, now: int)
    requires snapshot.netLiquidation > 0.0
    ensures Current(orders, BuildContext(snapshot, orders, now).value)
  {
    WindowIsDay(orders, now);
  }

  lemma ClearedIsFresh(c: Config, orders: seq<OrderRow>, order: ProposedOrder, ctx: Context)
    requires Cleared(c, orders, order, ctx)
    ensures order.eventId !in OrderEvents(orders) && ToValidated(order).key !in OrderKeys(orders)
    ensures CountDay(orders, Day(ctx.now)) < c.limits.maxTradesPerDay
    ensures Notional(order) * 100.0 <= c.limits.maxPositionPct * ctx.capital
  {
    ApprovedIff(c.limits, c.isOpen, order, ctx);
  }

  lemma CommitOneRow(c: Config, s: Sys, input: RuleInput)
    requires OneRowPerEvent(c, s) && s.rule.RCommit?
    ensures OneRowPerEvent(c, RuleStep(c, s, input))
  {
    if s.rule.batch.submitted.Some? {
      var row := s.rule.batch.submitted.value.1;
      assert OrderEvents(s.db.orders + [row]) == OrderEvents(s.db.orders) + [row.order.eventId];
      DistinctAppend(OrderEvents(s.db.orders), row.order.eventId);
    } else {
      assert s.db.orders + [] == s.db.orders;
    }
  }

  lemma RuleStepOneRow(c: Config, s: Sys, input: RuleInput)
    requires OneRowPerEvent(c, s)
    ensures OneRowPerEvent(c, RuleStep(c, s, input))
  {
    if s.rule.RCommit? {
      CommitOneRow(c, s, input);
      return;
    }
    RuleTablesFrame(c, s, input);
    if s.rule.RContext? && input.snapshot.netLiquidation > 0.0 {
      ContextIsCurrent(input.snapshot, s.db.orders, s.clock);
    } else if s.rule.RRecord? {
      ClearedIsFresh(c, s.db.orders, s.rule.work.order, s.rule.ctx);
    }
  }

  lemma StepOneRow(c: Config, s: Sys, step: Step)
    requires OneRowPerEvent(c, s)
    ensures OneRowPerEvent(c, Exec(c, s, step))
  {
    if step.Trade? {
      RuleStepOneRow(c, s, step.ruleInput);
    } else {
      RuleSideFrame(c, s, step);
    }
  }

  lemma {:induction false} RunOneRow(c: Config, s: Sys, steps: seq<Step>)
    requires OneRowPerEvent(c, s)
    ensures OneRowPerEvent(c, Run(c, s, steps))
  {
    if steps != [] {
      RunOneRow(c, s, steps[..|steps| - 1]);
      StepOneRow(c, Run(c, s, steps[..|steps| - 1]), steps[|steps| - 1]);
    }
  }

  // ---- Every broker order is accounted for ----

  function PlacedCount(placed: seq<ValidatedOrder>, id: string): nat {
    if placed == [] then 0
    else PlacedCount(placed[..|placed| - 1], id) + if placed[|placed| - 1].eventId == id then 1 else 0
  }

  function RowCount(orders: seq<OrderRow>, id: string): nat {
    if orders == [] then 0
    else RowCount(orders[..|orders| - 1], id) + if orders[|orders| - 1].order.eventId == id then 1 else 0
  }

  function LostCount(lost: seq<string>, id: string): nat {
    if lost == [] then 0
    else LostCount(lost[..|lost| - 1], id) + if lost[|lost| - 1] == id then 1 else 0
  }

  lemma {:induction false} RowCountOnce(orders: seq<OrderRow>, id: string)
    requires Distinct(OrderEvents(orders))
    ensures RowCount(orders, id) == if id in OrderEvents(orders) then 1 else 0
  {
    if orders != [] {
      var n := |orders| - 1;
      assert OrderEvents(orders) == OrderEvents(orders[..n]) + [orders[n].order.eventId];
      DistinctAppend(OrderEvents(orders[..n]), orders[n].order.eventId);
      RowCountOnce(orders[..n], id);
    }
  }

  // The orders, and the rows, of an event among the first k
  ghost function PlacedFor(placed: seq<ValidatedOrder>, k: nat, id: string): set<int>
    requires k <= |placed|
  {
    set i | 0 <= i < k && placed[i].eventId == id
  }

  ghost function RowsFor(orders: seq<OrderRow>, k: nat, id: string): set<int>
    requires k <= |orders|
  {
    set i | 0 <= i < k && orders[i].order.eventId == id
  }

  /** The counts are the numbers of placed orders and of rows of the event. */
  lemma {:induction false} OrderCountsAre(placed: seq<ValidatedOrder>, k: nat, id: string)
    requires k <= |placed|
    ensures PlacedCount(placed[..k], id) == |PlacedFor(placed, k, id)|
  {
    if k > 0 {
      OrderCountsAre(placed, k - 1, id);
      assert placed[..k][..k - 1] == placed[..k - 1];
      if placed[k - 1].eventId == id {
        assert PlacedFor(placed, k, id) == PlacedFor(placed, k - 1, id) + {k - 1};
      } else {
        assert PlacedFor(placed, k, id) == PlacedFor(placed, k - 1, id);
      }
    }
  }

  lemma {:induction false} RowCountsAre(orders: seq<OrderRow>, k: nat, id: string)
    requires k <= |orders|
    ensures RowCount(orders[..k], id) == |RowsFor(orders, k, id)|
  {
    if k > 0 {
      RowCountsAre(orders, k - 1, id);
      assert orders[..k][..k - 1] == orders[..k - 1];
      if orders[k - 1].order.eventId == id {
        assert RowsFor(orders, k, id) == RowsFor(orders, k - 1, id) + {k - 1};
      } else {
        assert RowsFor(orders, k, id) == RowsFor(orders, k - 1, id);
      }
    }
  }

  predicate Accounted(placed: seq<ValidatedOrder>, orders: seq<OrderRow>, lost: seq<string>, pc: RulePc, id: string) {
    PlacedCount(placed, id)
      == RowCount(orders, id) + LostCount(lost, id) + if UnrecordedEvent(pc) == Some(id) then 1 else 0
  }

  predicate SubmittedMatches(pc: RulePc) {
    pc.RCommit? && pc.batch.submitted.Some? ==>
      pc.batch.submitted.value.1.order.eventId == pc.batch.submitted.value.0.eventId
  }

  lemma CommitAccounted(c: Config, s: Sys, input: RuleInput, id: string)
    requires Accounted(s.placed, s.db.orders, s.hist.lost, s.rule, id) && SubmittedMatches(s.rule) && s.rule.RCommit?
    ensures var s' := RuleStep(c, s, input); Accounted(s'.placed, s'.db.orders, s'.hist.lost, s'.rule, id)
  {
    if s.rule.batch.submitted.Some? {
      assert (s.db.orders + [s.rule.batch.submitted.value.1])[..|s.db.orders|] == s.db.orders;
    } else {
      assert s.db.orders + [] == s.db.orders;
    }
  }

  lemma PlaceAccounted(c: Config, s: Sys, input: RuleInput, id: string)
    requires Accounted(s.placed, s.db.orders, s.hist.lost, s.rule, id) && s.rule.RPlace?
    ensures var s' := RuleStep(c, s, input); Accounted(s'.placed, s'.db.orders, s'.hist.lost, s'.rule, id)
  {
    assert (s.placed + [ToValidated(s.rule.work.order)])[..|s.placed|] == s.placed;
  }

  lemma RecordAccounted(c: Config, s: Sys, input: RuleInput, id: string)
    requires Accounted(s.placed, s.db.orders, s.hist.lost, s.rule, id) && s.rule.RRecord?
    ensures var s' := RuleStep(c, s, input); Accounted(s'.placed, s'.db.orders, s'.hist.lost, s'.rule, id)
  {
    RecordEnds(c, s, input);
    LostAppend(s.hist.lost, s.rule.work.order.eventId, id);
  }

  // The order stays unrecorded until the commit, or its row is lost
  lemma RecordEnds(c: Config, s: Sys, input: RuleInput)
    requires s.rule.RRecord?
    ensures var s', e := RuleStep(c, s, input), s.rule.work.order.eventId;
            && s'.placed == s.placed && s'.db.orders == s.db.orders
            && ((UnrecordedEvent(s'.rule) == Some(e) && s'.hist.lost == s.hist.lost)
                || (UnrecordedEvent(s'.rule) == None && s'.hist.lost == s.hist.lost + [e]))
  {
  }

  lemma LostAppend(lost: seq<string>, x: string, id: string)
    ensures LostCount(lost + [x], id) == LostCount(lost, id) + if x == id then 1 else 0
  {
    assert (lost + [x])[..|lost|] == lost;
  }

  lemma RuleStepAccounted(c: Config, s: Sys, input: RuleInput, id: string)
    requires Accounted(s.placed, s.db.orders, s.hist.lost, s.rule, id) && SubmittedMatches(s.rule)
    ensures var s' := RuleStep(c, s, input); Accounted(s'.placed, s'.db.orders, s'.hist.lost, s'.rule, id)
  {
    if s.rule.RPlace? {
      PlaceAccounted(c, s, input, id);
    } else if s.rule.RCommit? {
      CommitAccounted(c, s, input, id);
    } else if s.rule.RRecord? {
      RecordAccounted(c, s, input, id);
    } else {
      RuleQuietFrame(c, s, input);
    }
  }

  lemma CrashAccounted(s: Sys, id: string)
    requires Accounted(s.placed, s.db.orders, s.hist.lost, s.rule, id)
    ensures var s' := CrashRule(s); Accounted(s'.placed, s'.db.orders, s'.hist.lost, s'.rule, id)
  {
    match UnrecordedEvent(s.rule) {
      case Some(e) => assert (s.hist.lost + [e])[..|s.hist.lost|] == s.hist.lost;
      case None => assert s.hist.lost + [] == s.hist.lost;
    }
  }

  lemma StepAccounted(c: Config, s: Sys, step: Step, id: string)
    requires Accounted(s.placed, s.db.orders, s.hist.lost, s.rule, id) && SubmittedMatches(s.rule)
    ensures var s' := Exec(c, s, step); Accounted(s'.placed, s'.db.orders, s'.hist.lost, s'.rule, id)
  {
    if step.Trade? {
      RuleStepAccounted(c, s, step.ruleInput, id);
      return;
    }
    RuleSideFrame(c, s, step);
    if step.RuleCrash? { CrashAccounted(s, id); }
  }

  lemma {:induction false} RunAccounted(c: Config, s0: Sys, steps: seq<Step>, id: string)
    requires Init(s0)
    ensures var s := Run(c, s0, steps); Accounted(s.placed, s.db.orders, s.hist.lost, s.rule, id)
  {
    if steps != [] {
      var n := |steps| - 1;
      RunAccounted(c, s0, steps[..n], id);
      RunOneRow(c, s0, steps[..n]);
      StepAccounted(c, Run(c, s0, steps[..n]), steps[n], id);
    }
  }

  /** The orders table never holds two rows for one event, even when anyone may push any event id any
      number of times. */
  lemma AtMostOneRowPerEvent(c: Config, s0: Sys, steps: seq<Step>)
    requires Init(s0)
    ensures Distinct(OrderEvents(Run(c, s0, steps).db.orders))
  {
    RunOneRow(c, s0, steps);
  }

  /** Orders at the broker for an event: exactly its rows, plus the orders whose row was lost between the
      broker call and the commit, plus the one in flight; hence at most one more than were lost. */
  lemma BrokerOrdersAccounted(c: Config, s0: Sys, steps: seq<Step>, id: string)
    requires Init(s0)
    ensures var s := Run(c, s0, steps);
            && PlacedCount(s.placed, id) == RowCount(s.db.orders, id) + LostCount(s.hist.lost, id)
                                            + (if UnrecordedEvent(s.rule) == Some(id) then 1 else 0)
            && PlacedCount(s.placed, id) <= 1 + LostCount(s.hist.lost, id)
  {
    RunOneRow(c, s0, steps);
    RunAccounted(c, s0, steps, id);
    RowsAndFlightAtMostOne(c, Run(c, s0, steps), id);
  }

  lemma RowsAndFlightAtMostOne(c: Config, s: Sys, id: string)
    requires OneRowPerEvent(c, s)
    ensures RowCount(s.db.orders, id) + (if UnrecordedEvent(s.rule) == Some(id) then 1 else 0) <= 1
  {
    RowCountOnce(s.db.orders, id);
    if UnrecordedEvent(s.rule) == Some(id) { InFlightHasNoRow(c, s.db.orders, s.rule); }
  }

  lemma InFlightHasNoRow(c: Config, orders: seq<OrderRow>, pc: RulePc)
    requires PendingOrderOk(c, orders, pc) && UnrecordedEvent(pc).Some?
    ensures UnrecordedEvent(pc).value !in OrderEvents(orders)
  {
    if pc.RRecord? { ClearedIsFresh(c, orders, pc.work.order, pc.ctx); }
  }

  /** Recording a placed order fails exactly when its row breaks the CHECK of the orders table; the UNIQUE key
      never causes it. A rule that passes the rule schema has a positive quantity, which leaves the limit price;
      module Losses draws the consequences over whole runs. */
  lemma RowLostIff(c: Config, s: Sys, input: RuleInput)
    requires OneRowPerEvent(c, s) && s.rule.RRecord?
    ensures RuleStep(c, s, input).hist.lost != s.hist.lost
       <==> var o := s.rule.work.order; !(o.quantity > 0 && (o.orderType == Limit <==> o.limitPrice.Some?))
  {
    ClearedIsFresh(c, s.db.orders, s.rule.work.order, s.rule.ctx);
  }

  // ---- The daily cap ----

  lemma DayMonotone(a: int, b: int)
    requires a <= b
    ensures Day(a) <= Day(b)
  {
  }

  predicate CreatedBy(orders: seq<OrderRow>, instant: int) {
    forall o :: o in orders ==> o.createdAt <= instant
  }

  predicate TimesOk(orders: seq<OrderRow>, pc: RulePc, clock: int) {
    && CreatedBy(orders, clock)
    && match pc
       case RGate(_, ctx, _) => CreatedBy(orders, ctx.now) && ctx.now <= clock
       case RValidate(_, ctx) => CreatedBy(orders, ctx.now) && ctx.now <= clock
       case RPlace(_, ctx) => CreatedBy(orders, ctx.now) && ctx.now <= clock
       case RRecord(_, ctx) => CreatedBy(orders, ctx.now) && ctx.now <= clock
       case RCommit(b) => b.submitted.Some? ==> b.submitted.value.1.createdAt <= clock
       case _ => true
  }

  function Cap(c: Config): nat {
    if c.limits.maxTradesPerDay > 0 then c.limits.maxTradesPerDay else 0
  }

  ghost predicate WithinCap(c: Config, orders: seq<OrderRow>) {
    forall day :: CountDay(orders, day) <= Cap(c)
  }

  predicate RoomToday(c: Config, orders: seq<OrderRow>, pc: RulePc) {
    pc.RCommit? && pc.batch.submitted.Some? ==>
      CountDay(orders, Day(pc.batch.submitted.value.1.createdAt)) < Cap(c)
  }

  ghost predicate Capped(c: Config, s: Sys) {
    TimesOk(s.db.orders, s.rule, s.clock) && WithinCap(c, s.db.orders) && RoomToday(c, s.db.orders, s.rule)
  }

  /** The row of an approved order finds room on the day it is created, also when that is a later day than
      the one the snapshot counted. */
  lemma RoomOnCreationDay(c: Config, orders: seq<OrderRow>, order: ProposedOrder, ctx: Context, clock: int)
    requires Cleared(c, orders, order, ctx) && CreatedBy(orders, ctx.now) && ctx.now <= clock
    ensures CountDay(orders, Day(clock)) < Cap(c)
  {
    ClearedIsFresh(c, orders, order, ctx);
    DayMonotone(ctx.now, clock);
    if Day(clock) != Day(ctx.now) {
      forall o | o in orders ensures Day(o.createdAt) != Day(clock) {
        DayMonotone(o.createdAt, ctx.now);
      }
      CountDayNone(orders, Day(clock));
    }
  }

  lemma CommitCapped(c: Config, s: Sys, input: RuleInput)
    requires Capped(c, s) && s.rule.RCommit?
    ensures Capped(c, RuleStep(c, s, input))
  {
    if s.rule.batch.submitted.Some? {
      var row := s.rule.batch.submitted.value.1;
      forall day ensures CountDay(s.db.orders + [row], day) <= Cap(c) {
        CountDayAppend(s.db.orders, row, day);
      }
    } else {
      assert s.db.orders + [] == s.db.orders;
    }
  }

  lemma RuleStepCapped(c: Config, s: Sys, input: RuleInput)
    requires Capped(c, s) && PendingOrderOk(c, s.db.orders, s.rule)
    ensures Capped(c, RuleStep(c, s, input))
  {
    if s.rule.RCommit? {
      CommitCapped(c, s, input);
      return;
    }
    RuleTablesFrame(c, s, input);
    RuleFrame(c, s, input);
    if s.rule.RRecord? {
      RoomOnCreationDay(c, s.db.orders, s.rule.work.order, s.rule.ctx, s.clock);
    }
  }

  lemma StepCapped(c: Config, s: Sys, step: Step)
    requires Capped(c, s) && PendingOrderOk(c, s.db.orders, s.rule)
    ensures Capped(c, Exec(c, s, step))
  {
    if step.Trade? {
      RuleStepCapped(c, s, step.ruleInput);
    } else {
      RuleSideFrame(c, s, step);
    }
  }

  lemma {:induction false} RunCapped(c: Config, s0: Sys, steps: seq<Step>)
    requires Init(s0)
    ensures Capped(c, Run(c, s0, steps))
  {
    if steps != [] {
      var n := |steps| - 1;
      RunCapped(c, s0, steps[..n]);
      RunOneRow(c, s0, steps[..n]);
      StepCapped(c, Run(c, s0, steps[..n]), steps[n]);
    }
  }

  /** Daily cap: no day holds more orders rows than the limit allows, in any reachable state. */
  lemma DailyCap(c: Config, s0: Sys, steps: seq<Step>, day: int)
    requires Init(s0)
    ensures CountDay(Run(c, s0, steps).db.orders, day)
              <= if c.limits.maxTradesPerDay > 0 then c.limits.maxTradesPerDay else 0
  {
    RunCapped(c, s0, steps);
  }

  // ---- The daily notional ----

  // The summed notional of the orders whose rows were created on a day
  function DayNotional(orders: seq<OrderRow>, refs: seq<ProposedOrder>, day: int): real
    requires |orders| == |refs|
  {
    if orders == [] then 0.0
    else
      var n := |orders| - 1;
      DayNotional(orders[..n], refs[..n], day) + if Day(orders[n].createdAt) == day then Notional(refs[n]) else 0.0
  }

  lemma DayNotionalAppend(orders: seq<OrderRow>, refs: seq<ProposedOrder>, row: OrderRow, ref: ProposedOrder, day: int)
    requires |orders| == |refs|
    ensures DayNotional(orders + [row], refs + [ref], day)
         == DayNotional(orders, refs, day)
            + if row.createdAt / 86400 == day then ref.quantity as real * ref.referencePrice else 0.0
  {
    assert (orders + [row])[..|orders|] == orders && (refs + [ref])[..|refs|] == refs;
  }

  predicate RefsMatch(orders: seq<OrderRow>, refs: seq<ProposedOrder>) {
    |orders| == |refs| && forall i :: 0 <= i < |orders| ==> orders[i].order == ToValidated(refs[i])
  }

  predicate NotionalWithin(c: Config, capital: real, order: ProposedOrder) {
    Notional(order) * 100.0 <= c.limits.maxPositionPct * capital
  }

  predicate SizesOk(c: Config, capital: real, refs: seq<ProposedOrder>, pc: RulePc) {
    && (forall p :: p in refs ==> NotionalWithin(c, capital, p))
    && match pc
       case RGate(_, ctx, _) => ctx.capital <= capital
       case RValidate(_, ctx) => ctx.capital <= capital
       case RPlace(w, ctx) => NotionalWithin(c, capital, w.order)
       case RRecord(w, ctx) => NotionalWithin(c, capital, w.order)
       case RCommit(b) => b.submitted.Some? ==> NotionalWithin(c, capital, b.submitted.value.0)
       case _ => true
  }

  // Every account snapshot the rule worker was given shows at most this net liquidation
  predicate CapitalBounded(steps: seq<Step>, capital: real) {
    forall i :: 0 <= i < |steps| && steps[i].Trade? ==> steps[i].ruleInput.snapshot.netLiquidation <= capital
  }

  lemma ApprovedSize(c: Config, capital: real, order: ProposedOrder, ctx: Context)
    requires Approved(c.limits, c.isOpen, order, ctx) && ctx.capital <= capital && c.limits.maxPositionPct >= 0.0
    ensures NotionalWithin(c, capital, order)
  {
    ApprovedIff(c.limits, c.isOpen, order, ctx);
    assert c.limits.maxPositionPct * ctx.capital <= c.limits.maxPositionPct * capital;
  }

  lemma RuleStepSizes(c: Config, capital: real, s: Sys, input: RuleInput)
    requires SizesOk(c, capital, s.hist.orderRefs, s.rule) && c.limits.maxPositionPct >= 0.0
    requires input.snapshot.netLiquidation <= capital
    ensures var s' := RuleStep(c, s, input); SizesOk(c, capital, s'.hist.orderRefs, s'.rule)
  {
    if s.rule.RValidate? {
      var w, ctx := s.rule.work, s.rule.ctx;
      if Approved(c.limits, c.isOpen, w.order, ctx) { ApprovedSize(c, capital, w.order, ctx); }
    }
  }

  lemma StepSizes(c: Config, capital: real, s: Sys, step: Step)
    requires SizesOk(c, capital, s.hist.orderRefs, s.rule) && c.limits.maxPositionPct >= 0.0
    requires step.Trade? ==> step.ruleInput.snapshot.netLiquidation <= capital
    ensures var s' := Exec(c, s, step); SizesOk(c, capital, s'.hist.orderRefs, s'.rule)
  {
    if step.Trade? {
      RuleStepSizes(c, capital, s, step.ruleInput);
    } else {
      RuleSideFrame(c, s, step);
    }
  }

  lemma RuleStepRefs(c: Config, s: Sys, input: RuleInput)
    requires RefsMatch(s.db.orders, s.hist.orderRefs) && PendingOrderOk(c, s.db.orders, s.rule)
    ensures var s' := RuleStep(c, s, input); RefsMatch(s'.db.orders, s'.hist.orderRefs)
  {
  }

  lemma StepRefs(c: Config, s: Sys, step: Step)
    requires RefsMatch(s.db.orders, s.hist.orderRefs) && PendingOrderOk(c, s.db.orders, s.rule)
    ensures var s' := Exec(c, s, step); RefsMatch(s'.db.orders, s'.hist.orderRefs)
  {
    if step.Trade? {
      RuleStepRefs(c, s, step.ruleInput);
    } else {
      RuleSideFrame(c, s, step);
    }
  }

  lemma {:induction false} RunSizes(c: Config, capital: real, s0: Sys, steps: seq<Step>)
    requires Init(s0) && CapitalBounded(steps, capital) && c.limits.maxPositionPct >= 0.0
    ensures var s := Run(c, s0, steps);
            SizesOk(c, capital, s.hist.orderRefs, s.rule) && RefsMatch(s.db.orders, s.hist.orderRefs)
  {
    if steps != [] {
      var n := |steps| - 1;
      RunSizes(c, capital, s0, steps[..n]);
      RunOneRow(c, s0, steps[..n]);
      StepSizes(c, capital, Run(c, s0, steps[..n]), steps[n]);
      StepRefs(c, Run(c, s0, steps[..n]), steps[n]);
    }
  }

  lemma {:induction false} NotionalBound(c: Config, capital: real, orders: seq<OrderRow>, refs: seq<ProposedOrder>, day: int)
    requires |orders| == |refs| && forall p :: p in refs ==> NotionalWithin(c, capital, p)
    ensures DayNotional(orders, refs, day) * 100.0 <= CountDay(orders, day) as real * (c.limits.maxPositionPct * capital)
  {
    if orders != [] {
      var n := |orders| - 1;
      NotionalBound(c, capital, orders[..n], refs[..n], day);
      var each := c.limits.maxPositionPct * capital;
      var before := CountDay(orders[..n], day);
      assert (before + 1) as real * each == before as real * each + each;
      assert refs[n] in refs;
    }
  }

  /** Daily notional: the summed reference notional of a day's rows is at most the daily cap times the
      position limit of the largest account snapshot used. */
  lemma DailyNotional(c: Config, s0: Sys, steps: seq<Step>, capital: real, day: int)
    requires Init(s0) && CapitalBounded(steps, capital) && c.limits.maxPositionPct >= 0.0 && capital >= 0.0
    ensures var s := Run(c, s0, steps);
            && RefsMatch(s.db.orders, s.hist.orderRefs)
            && DayNotional(s.db.orders, s.hist.orderRefs, day)
                 <= Cap(c) as real * (c.limits.maxPositionPct / 100.0 * capital)
  {
    RunSizes(c, capital, s0, steps);
    DailyCap(c, s0, steps, day);
    var s := Run(c, s0, steps);
    DayNotionalWithin(c, capital, s.db.orders, s.hist.orderRefs, day);
  }

  lemma DayNotionalWithin(c: Config, capital: real, orders: seq<OrderRow>, refs: seq<ProposedOrder>, day: int)
    requires |orders| == |refs| && forall p :: p in refs ==> NotionalWithin(c, capital, p)
    requires CountDay(orders, day) <= Cap(c) && c.limits.maxPositionPct >= 0.0 && capital >= 0.0
    ensures DayNotional(orders, refs, day) <= Cap(c) as real * (c.limits.maxPositionPct / 100.0 * capital)
  {
    NotionalBound(c, capital, orders, refs, day);
    ScaleUp(DayNotional(orders, refs, day), CountDay(orders, day), Cap(c), c.limits.maxPositionPct, capital);
  }

  lemma ScaleUp(total: real, a: nat, b: nat, pct: real, capital: real)
    requires total * 100.0 <= a as real * (pct * capital) && a <= b && pct >= 0.0 && capital >= 0.0
    ensures total <= b as real * (pct / 100.0 * capital)
  {
    var each := pct * capital;
    assert each >= 0.0;
    assert a as real * each <= b as real * each;
    assert pct / 100.0 * capital == each / 100.0;
    assert b as real * (each / 100.0) == b as real * each / 100.0;
  }
}
