/** Where orders come from: every order that ever reached the broker was held by the rule worker from the
    evaluation that produced it to the call that placed it, and in between the worker read the context of
    this order, read all three sources of the kill switch as off and found every gate open. */
module Provenance {
  import opened Basics
  import opened Records
  import opened Rules
  import opened Risk
  import opened Protocol

  // The states of a run: before its first step, and after each step
  ghost function Trace(c: Config, s0: Sys, steps: seq<Step>): (trace: seq<Sys>)
    ensures |trace| == |steps| + 1
  {
    if steps == [] then [s0]
    else
      var before := Trace(c, s0, steps[..|steps| - 1]);
      before + [Exec(c, before[|steps| - 1], steps[|steps| - 1])]
  }

  lemma {:induction false} TraceIsRun(c: Config, s0: Sys, steps: seq<Step>, m: nat)
    requires m <= |steps|
    ensures Trace(c, s0, steps)[m] == Run(c, s0, steps[..m])
  {
    if steps != [] {
      var n := |steps| - 1;
      if m <= n {
        TraceIsRun(c, s0, steps[..n], m);
        assert steps[..n][..m] == steps[..m];
      } else {
        TraceIsRun(c, s0, steps[..n], n);
        assert steps[..m] == steps && steps[..n][..n] == steps[..n];
      }
    }
  }

  // ---- What happened at one step ----

  // At step i the worker, about to evaluate e, ran rules of which r is the best to fire on it
  ghost predicate EvaluatedAt(c: Config, steps: seq<Step>, trace: seq<Sys>, i: int, e: EventRow, r: RuleSpec)
    requires |trace| > |steps|
  {
    && 0 <= i < |steps| && steps[i].Trade? && trace[i].rule == RLoad(e.eventId)
    && e in trace[i].db.events && Best(steps[i].ruleInput.rules, e, c.parse, r)
  }

  // At step j the worker, with the order p in hand, built its context from the account and the orders table
  predicate ReadAt(steps: seq<Step>, trace: seq<Sys>, j: int, p: ProposedOrder, ctx: Context)
    requires |trace| > |steps|
  {
    && 0 <= j < |steps| && steps[j].Trade?
    && trace[j].rule.RContext? && trace[j].rule.work.order == p
    && BuildContext(steps[j].ruleInput.snapshot, trace[j].db.orders, trace[j].clock) == Some(ctx)
  }

  // At step m the gate of order p read one source of the kill switch, and it was off
  predicate OffAt(steps: seq<Step>, trace: seq<Sys>, m: int, p: ProposedOrder, read: Read)
    requires |trace| > |steps|
  {
    && 0 <= m < |steps| && steps[m].Trade?
    && trace[m].rule.RGate? && trace[m].rule.work.order == p && trace[m].rule.read == read
    && match read
       case ReadEnv => !steps[m].ruleInput.envOn
       case ReadFlag => !trace[m].redis.flag
       case ReadLog => !LatestActivated(trace[m].db.switchLog)
  }

  // At step k the worker placed p, judged against ctx, as the n-th order of the broker
  predicate PlacedAt(steps: seq<Step>, trace: seq<Sys>, k: int, n: nat, p: ProposedOrder, ctx: Context)
    requires |trace| > |steps|
  {
    && 0 <= k < |steps| && steps[k].Trade? && |trace[k].placed| == n
    && trace[k].rule.RPlace? && trace[k].rule.work.order == p && trace[k].rule.ctx == ctx
  }

  // The order in the worker's hand, and the context it is judged against
  function Held(pc: RulePc): Option<ProposedOrder> {
    match pc
    case RContext(w) => Some(w.order)
    case RGate(w, _, _) => Some(w.order)
    case RValidate(w, _) => Some(w.order)
    case RPlace(w, _) => Some(w.order)
    case _ => None
  }

  function HeldContext(pc: RulePc): Option<Context> {
    match pc
    case RGate(_, ctx, _) => Some(ctx)
    case RValidate(_, ctx) => Some(ctx)
    case RPlace(_, ctx) => Some(ctx)
    case _ => None
  }

  // p has been in hand in every state after step i up to state k
  predicate HeldThrough(trace: seq<Sys>, i: int, k: int, p: ProposedOrder)
    requires 0 <= i && k < |trace|
  {
    forall m :: i < m <= k ==> Held(trace[m].rule) == Some(p)
  }

  predicate JudgedThrough(trace: seq<Sys>, j: int, k: int, ctx: Context)
    requires 0 <= j && k < |trace|
  {
    forall m :: j < m <= k ==> HeldContext(trace[m].rule) == Some(ctx)
  }

  // ---- The trail of the order in hand ----

  // The steps behind an order: its evaluation, its context, the three reads of its gate
  datatype Trail = Trail(event: EventRow, rule: RuleSpec, ctx: Context, evaluated: int, read: int, env: int, flag: int, log: int)

  function OrderOf(t: Trail): ProposedOrder { BuildProposedOrder(t.rule, t.event) }

  predicate Passed(c: Config, p: ProposedOrder, ctx: Context) {
    (p.mode == Live ==> c.isLiveTrading) && Approved(c.limits, c.isOpen, p, ctx)
  }

  // How many of the marks of a trail a counter has behind it
  function Stage(pc: RulePc): nat {
    match pc
    case RContext(_) => 1
    case RGate(_, _, ReadEnv) => 2
    case RGate(_, _, ReadFlag) => 3
    case RGate(_, _, ReadLog) => 4
    case RValidate(_, _) => 5
    case RPlace(_, _) => 6
    case _ => 0
  }

  ghost predicate Chosen(c: Config, steps: seq<Step>, trace: seq<Sys>, t: Trail, k: int)
    requires |trace| > |steps|
  {
    0 <= t.evaluated < k < |trace| && EvaluatedAt(c, steps, trace, t.evaluated, t.event, t.rule)
    && HeldThrough(trace, t.evaluated, k, OrderOf(t))
  }

  predicate Contexted(steps: seq<Step>, trace: seq<Sys>, t: Trail, k: int)
    requires |trace| > |steps|
  {
    0 <= t.evaluated < t.read < k < |trace| && ReadAt(steps, trace, t.read, OrderOf(t), t.ctx)
    && JudgedThrough(trace, t.read, k, t.ctx)
  }

  // The first marks of the gate, up to the stage
  predicate Gated(steps: seq<Step>, trace: seq<Sys>, t: Trail, k: int, stage: nat)
    requires |trace| > |steps|
  {
    && (stage >= 3 ==> t.read < t.env < k && OffAt(steps, trace, t.env, OrderOf(t), ReadEnv))
    && (stage >= 4 ==> t.env < t.flag < k && OffAt(steps, trace, t.flag, OrderOf(t), ReadFlag))
    && (stage >= 5 ==> t.flag < t.log < k && OffAt(steps, trace, t.log, OrderOf(t), ReadLog))
  }

  // The trail of the order in hand in state k
  ghost predicate Trailed(c: Config, steps: seq<Step>, trace: seq<Sys>, t: Trail, k: int)
    requires |trace| > |steps| && 0 <= k < |trace|
  {
    var stage := Stage(trace[k].rule);
    && (stage >= 1 ==> Chosen(c, steps, trace, t, k))
    && (stage >= 2 ==> Contexted(steps, trace, t, k))
    && Gated(steps, trace, t, k, stage)
    && (stage >= 6 ==> Passed(c, OrderOf(t), t.ctx))
  }

  // ---- Longer runs keep what shorter ones showed ----

  lemma TrailedKept(c: Config, steps: seq<Step>, trace: seq<Sys>, step: Step, s': Sys, t: Trail, k: int)
    requires |trace| == |steps| + 1 && 0 <= k < |trace| && Trailed(c, steps, trace, t, k)
    ensures Trailed(c, steps + [step], trace + [s'], t, k)
  {
    var steps', trace' := steps + [step], trace + [s'];
    assert forall m :: 0 <= m < |steps| ==> steps'[m] == steps[m];
    assert forall m :: 0 <= m < |trace| ==> trace'[m] == trace[m];
  }

  // A step that keeps order and context in hand and marks nothing
  lemma TrailedOn(c: Config, steps: seq<Step>, trace: seq<Sys>, t: Trail, k: int)
    requires |trace| > |steps| && 0 <= k < |steps| && Trailed(c, steps, trace, t, k)
    requires trace[k + 1].rule == trace[k].rule || Stage(trace[k + 1].rule) == 0
    ensures Trailed(c, steps, trace, t, k + 1)
  {
  }

  // ---- How each step moves the trail ----

  lemma QuietStage(c: Config, s: Sys, input: RuleInput)
    requires Stage(s.rule) == 0 && !s.rule.RLoad?
    ensures Stage(RuleStep(c, s, input).rule) == 0
  {
  }

  lemma LoadStage(c: Config, s: Sys, input: RuleInput) returns (e: EventRow, r: RuleSpec)
    requires s.rule.RLoad?
    ensures var pc := RuleStep(c, s, input).rule;
            Stage(pc) == 0 ||
            (Stage(pc) == 1 && Held(pc) == Some(BuildProposedOrder(r, e)) && s.rule == RLoad(e.eventId)
             && e in s.db.events && Best(input.rules, e, c.parse, r))
  {
    var found := FindEvent(s.db.events, s.rule.eventId);
    if found.Some? && Evaluate(input.rules, found.value, c.parse).matched.Some? {
      e := found.value;
      NoMatchIffNoneFires(input.rules, e, c.parse);
      r := BestExists(input.rules, e, c.parse);
    } else {
      e, r := *, *;
    }
  }

  lemma ContextStage(c: Config, s: Sys, input: RuleInput)
    requires s.rule.RContext?
    ensures var pc := RuleStep(c, s, input).rule;
            Stage(pc) == 0 ||
            (Stage(pc) == 2 && pc.work == s.rule.work
             && BuildContext(input.snapshot, s.db.orders, s.clock) == Some(pc.ctx))
  {
  }

  lemma GateStage(c: Config, s: Sys, input: RuleInput)
    requires s.rule.RGate?
    ensures var pc := RuleStep(c, s, input).rule;
            Stage(pc) == 0 ||
            (Stage(pc) == Stage(s.rule) + 1 && Held(pc) == Held(s.rule) && HeldContext(pc) == HeldContext(s.rule)
             && match s.rule.read
                case ReadEnv => !input.envOn
                case ReadFlag => !s.redis.flag
                case ReadLog => !LatestActivated(s.db.switchLog))
  {
  }

  lemma ValidateStage(c: Config, s: Sys, input: RuleInput)
    requires s.rule.RValidate?
    ensures var pc := RuleStep(c, s, input).rule;
            Stage(pc) == 0 ||
            (Stage(pc) == 6 && Held(pc) == Held(s.rule) && HeldContext(pc) == HeldContext(s.rule)
             && Passed(c, s.rule.work.order, s.rule.ctx))
  {
  }

  lemma PlaceStage(c: Config, s: Sys, input: RuleInput)
    requires s.rule.RPlace?
    ensures Stage(RuleStep(c, s, input).rule) == 0
  {
  }

  // Step k, taken by the rule worker with an order in hand or about to have one
  lemma NextTrail(c: Config, steps: seq<Step>, trace: seq<Sys>, t: Trail, k: int) returns (t': Trail)
    requires 0 <= k < |steps| < |trace| && Trailed(c, steps, trace, t, k)
    requires steps[k].Trade? && trace[k + 1].rule == RuleStep(c, trace[k], steps[k].ruleInput).rule
    ensures Trailed(c, steps, trace, t', k + 1)
  {
    t' := t;
    var s, input := trace[k], steps[k].ruleInput;
    match s.rule {
      case RLoad(_) => t' := LoadTrail(c, steps, trace, t, k);
      case RContext(_) => t' := ContextTrail(c, steps, trace, t, k);
      case RGate(_, _, _) => t' := GateTrail(c, steps, trace, t, k);
      case RValidate(_, _) => ValidateStage(c, s, input);
      case RPlace(_, _) => PlaceStage(c, s, input);
      case _ => QuietStage(c, s, input);
    }
  }

  lemma LoadTrail(c: Config, steps: seq<Step>, trace: seq<Sys>, t: Trail, k: int) returns (t': Trail)
    requires 0 <= k < |steps| < |trace| && trace[k].rule.RLoad?
    requires steps[k].Trade? && trace[k + 1].rule == RuleStep(c, trace[k], steps[k].ruleInput).rule
    ensures Trailed(c, steps, trace, t', k + 1)
  {
    var e, r := LoadStage(c, trace[k], steps[k].ruleInput);
    t' := t.(event := e, rule := r, evaluated := k);
  }

  lemma ContextTrail(c: Config, steps: seq<Step>, trace: seq<Sys>, t: Trail, k: int) returns (t': Trail)
    requires 0 <= k < |steps| < |trace| && trace[k].rule.RContext? && Trailed(c, steps, trace, t, k)
    requires steps[k].Trade? && trace[k + 1].rule == RuleStep(c, trace[k], steps[k].ruleInput).rule
    ensures Trailed(c, steps, trace, t', k + 1)
  {
    ContextStage(c, trace[k], steps[k].ruleInput);
    assert Held(trace[k].rule) == Some(OrderOf(t));
    t' := t;
    if trace[k + 1].rule.RGate? {
      t' := t.(ctx := trace[k + 1].rule.ctx, read := k);
      assert OrderOf(t') == OrderOf(t);
    }
  }

  lemma GateTrail(c: Config, steps: seq<Step>, trace: seq<Sys>, t: Trail, k: int) returns (t': Trail)
    requires 0 <= k < |steps| < |trace| && trace[k].rule.RGate? && Trailed(c, steps, trace, t, k)
    requires steps[k].Trade? && trace[k + 1].rule == RuleStep(c, trace[k], steps[k].ruleInput).rule
    ensures Trailed(c, steps, trace, t', k + 1)
  {
    GateStage(c, trace[k], steps[k].ruleInput);
    assert Held(trace[k].rule) == Some(OrderOf(t)) && HeldContext(trace[k].rule) == Some(t.ctx);
    t' := match trace[k].rule.read
      case ReadEnv => t.(env := k)
      case ReadFlag => t.(flag := k)
      case ReadLog => t.(log := k);
    assert OrderOf(t') == OrderOf(t);
  }

  lemma OtherStage(c: Config, s: Sys, step: Step)
    requires !step.Trade?
    ensures var s' := Exec(c, s, step); s'.placed == s.placed && (s'.rule == s.rule || s'.rule == RCheck(ReadEnv))
  {
    RuleSideFrame(c, s, step);
  }

  lemma StepTrail(c: Config, steps: seq<Step>, trace: seq<Sys>, t: Trail, k: int) returns (t': Trail)
    requires 0 <= k < |steps| < |trace| && Trailed(c, steps, trace, t, k)
    requires trace[k + 1] == Exec(c, trace[k], steps[k])
    ensures Trailed(c, steps, trace, t', k + 1)
  {
    if steps[k].Trade? {
      t' := NextTrail(c, steps, trace, t, k);
    } else {
      OtherStage(c, trace[k], steps[k]);
      t' := t;
      TrailedOn(c, steps, trace, t, k);
    }
  }

  // ---- The trails of the orders at the broker ----

  datatype Account = Account(trail: Trail, placed: int)

  ghost predicate Accounted(c: Config, steps: seq<Step>, trace: seq<Sys>, o: ValidatedOrder, n: nat, a: Account)
    requires |trace| > |steps|
  {
    && PlacedAt(steps, trace, a.placed, n, OrderOf(a.trail), a.trail.ctx)
    && Trailed(c, steps, trace, a.trail, a.placed) && o == ToValidated(OrderOf(a.trail))
  }

  ghost predicate AllAccounted(c: Config, steps: seq<Step>, trace: seq<Sys>, placed: seq<ValidatedOrder>, accounts: seq<Account>)
    requires |trace| > |steps|
  {
    |accounts| == |placed| && forall n :: 0 <= n < |placed| ==> Accounted(c, steps, trace, placed[n], n, accounts[n])
  }

  lemma AllAccountedKept(c: Config, steps: seq<Step>, trace: seq<Sys>, step: Step, s': Sys, placed: seq<ValidatedOrder>, accounts: seq<Account>)
    requires |trace| == |steps| + 1 && AllAccounted(c, steps, trace, placed, accounts)
    ensures AllAccounted(c, steps + [step], trace + [s'], placed, accounts)
  {
    forall n | 0 <= n < |placed| ensures Accounted(c, steps + [step], trace + [s'], placed[n], n, accounts[n]) {
      assert Accounted(c, steps, trace, placed[n], n, accounts[n]);
      TrailedKept(c, steps, trace, step, s', accounts[n].trail, accounts[n].placed);
    }
  }

  lemma PlacedIsHeld(c: Config, s: Sys, step: Step)
    ensures var s' := Exec(c, s, step);
            s'.placed == s.placed ||
            (step.Trade? && s.rule.RPlace? && s'.placed == s.placed + [ToValidated(s.rule.work.order)])
  {
    if !step.Trade? { RuleSideFrame(c, s, step); }
  }

  lemma PlacedTrail(c: Config, steps: seq<Step>, trace: seq<Sys>, hand: Trail, k: int)
    requires 0 <= k < |steps| < |trace| && Trailed(c, steps, trace, hand, k)
    requires steps[k].Trade? && trace[k].rule.RPlace?
    ensures Accounted(c, steps, trace, ToValidated(trace[k].rule.work.order), |trace[k].placed|, Account(hand, k))
  {
    assert Held(trace[k].rule) == Some(OrderOf(hand)) && HeldContext(trace[k].rule) == Some(hand.ctx);
  }

  lemma {:induction false} RunTrails(c: Config, s0: Sys, steps: seq<Step>) returns (hand: Trail, accounts: seq<Account>)
    requires Init(s0)
    ensures var trace := Trace(c, s0, steps);
            Trailed(c, steps, trace, hand, |steps|) && AllAccounted(c, steps, trace, trace[|steps|].placed, accounts)
  {
    if steps == [] {
      hand, accounts := *, [];
    } else {
      var n := |steps| - 1;
      var front, step := steps[..n], steps[n];
      var trace := Trace(c, s0, front);
      var s' := Exec(c, trace[n], step);
      assert steps == front + [step] && Trace(c, s0, steps) == trace + [s'];
      hand, accounts := RunTrails(c, s0, front);
      hand, accounts := ExtendTrails(c, front, trace, step, s', hand, accounts);
    }
  }

  lemma ExtendTrails(c: Config, front: seq<Step>, trace: seq<Sys>, step: Step, s': Sys, hand: Trail, accounts: seq<Account>)
    returns (hand': Trail, accounts': seq<Account>)
    requires |trace| == |front| + 1 && s' == Exec(c, trace[|front|], step)
    requires Trailed(c, front, trace, hand, |front|) && AllAccounted(c, front, trace, trace[|front|].placed, accounts)
    ensures Trailed(c, front + [step], trace + [s'], hand', |front| + 1)
    ensures AllAccounted(c, front + [step], trace + [s'], s'.placed, accounts')
  {
    var n := |front|;
    var steps, trace' := front + [step], trace + [s'];
    assert steps[n] == step && trace'[n] == trace[n] && trace'[n + 1] == s';
    TrailedKept(c, front, trace, step, s', hand, n);
    AllAccountedKept(c, front, trace, step, s', trace[n].placed, accounts);
    PlacedIsHeld(c, trace[n], step);
    accounts' := accounts;
    if s'.placed != trace[n].placed {
      PlacedTrail(c, steps, trace', hand, n);
      accounts' := accounts + [Account(hand, n)];
    }
    hand' := StepTrail(c, steps, trace', hand, n);
  }

  // ---- The account of one order ----

  // The order asks for what the rule's action says, on the event's ticker, under the joined key
  predicate Carries(o: ValidatedOrder, r: RuleSpec, e: EventRow) {
    && o.eventId == e.eventId && o.symbol == e.ticker
    && o.strategyId == r.action.strategyId && o.key == e.eventId + ":" + r.action.strategyId
    && o.mode == r.action.mode && o.side == r.action.side && o.orderType == r.action.orderType
    && o.quantity == r.action.quantity && o.limitPrice == r.action.limitPrice
  }

  // The six limits for an action on an event, against the account, the orders table and the moment
  ghost predicate WithinLimits(c: Config, action: Action, eventId: string, account: BrokerSnapshot, orders: seq<OrderRow>, now: int) {
    var notional := action.quantity as real * action.referencePrice;
    && account.netLiquidation > 0.0
    && notional * 100.0 <= c.limits.maxPositionPct * account.netLiquidation
    && (Exposure(account.positions) + notional) * 100.0 <= c.limits.maxExposurePct * account.netLiquidation
    && |RowsOfDay(orders, now)| < c.limits.maxTradesPerDay
    && 0.0 < c.limits.maxDrawdownPct
    && (c.limits.allowAfterHours || c.isOpen(now))
    && forall o :: o in orders ==> o.order.eventId != eventId && o.order.key != eventId + ":" + action.strategyId
  }

  lemma PassedWithinLimits(c: Config, r: RuleSpec, e: EventRow, ctx: Context, account: BrokerSnapshot, orders: seq<OrderRow>, now: int)
    requires Passed(c, BuildProposedOrder(r, e), ctx) && BuildContext(account, orders, now) == Some(ctx)
    ensures Carries(ToValidated(BuildProposedOrder(r, e)), r, e)
    ensures WithinLimits(c, r.action, e.eventId, account, orders, now)
  {
    ApprovedIff(c.limits, c.isOpen, BuildProposedOrder(r, e), ctx);
    ContextIs(account, orders, now);
    DrawdownIs(ctx);
    forall o | o in orders ensures o.order.eventId != e.eventId && o.order.key != e.eventId + ":" + r.action.strategyId {
      assert o.order.eventId in ctx.seenEvents && o.order.key in ctx.seenKeys;
    }
  }

  /** Every order that ever reached the broker, in any run with any crashes and any foreign pushes, has these
      steps behind it, in this order: the worker evaluated the committed event and r was the best rule to fire;
      with that order in hand it read the account and the orders table; the order's gate read the environment,
      the flag and the log, and each was off; the order was placed. In all states in between the worker held
      this order and, from the reading on, judged it against this context. The order carries r's action on the
      event's ticker. All six limits hold against what was read: the net liquidation, the summed exposure of the
      reported positions, the order rows of the day and of the event. A live order means live trading was on. */
  lemma EveryOrderIsAccountedFor(c: Config, s0: Sys, steps: seq<Step>, n: nat) returns (t: Trail, k: int)
    requires Init(s0) && n < |Run(c, s0, steps).placed|
    ensures var trace, p := Trace(c, s0, steps), OrderOf(t);
            && 0 <= t.evaluated < t.read < t.env < t.flag < t.log < k < |steps|
            && EvaluatedAt(c, steps, trace, t.evaluated, t.event, t.rule)
            && ReadAt(steps, trace, t.read, p, t.ctx)
            && OffAt(steps, trace, t.env, p, ReadEnv) && OffAt(steps, trace, t.flag, p, ReadFlag)
            && OffAt(steps, trace, t.log, p, ReadLog)
            && PlacedAt(steps, trace, k, n, p, t.ctx)
            && HeldThrough(trace, t.evaluated, k, p) && JudgedThrough(trace, t.read, k, t.ctx)
    ensures var o := Run(c, s0, steps).placed[n];
            && Carries(o, t.rule, t.event)
            && (var s := Trace(c, s0, steps)[t.read];
                WithinLimits(c, t.rule.action, t.event.eventId, steps[t.read].ruleInput.snapshot, s.db.orders, s.clock))
            && (o.mode == Live ==> c.isLiveTrading)
  {
    TraceIsRun(c, s0, steps, |steps|);
    assert steps[..|steps|] == steps;
    var hand, accounts := RunTrails(c, s0, steps);
    t, k := UnpackAccount(c, steps, Trace(c, s0, steps), Run(c, s0, steps).placed, accounts, n);
    var s := Trace(c, s0, steps)[t.read];
    PassedWithinLimits(c, t.rule, t.event, t.ctx, steps[t.read].ruleInput.snapshot, s.db.orders, s.clock);
  }

  lemma UnpackAccount(c: Config, steps: seq<Step>, trace: seq<Sys>, placed: seq<ValidatedOrder>, accounts: seq<Account>, n: nat)
    returns (t: Trail, k: int)
    requires |trace| > |steps| && n < |placed| && AllAccounted(c, steps, trace, placed, accounts)
    ensures var p := OrderOf(t);
            && 0 <= t.evaluated < t.read < t.env < t.flag < t.log < k < |steps|
            && EvaluatedAt(c, steps, trace, t.evaluated, t.event, t.rule)
            && ReadAt(steps, trace, t.read, p, t.ctx)
            && OffAt(steps, trace, t.env, p, ReadEnv) && OffAt(steps, trace, t.flag, p, ReadFlag)
            && OffAt(steps, trace, t.log, p, ReadLog)
            && PlacedAt(steps, trace, k, n, p, t.ctx)
            && HeldThrough(trace, t.evaluated, k, p) && JudgedThrough(trace, t.read, k, t.ctx)
            && placed[n] == ToValidated(p) && Passed(c, p, t.ctx)
  {
    assert Accounted(c, steps, trace, placed[n], n, accounts[n]);
    t, k := accounts[n].trail, accounts[n].placed;
  }
}
