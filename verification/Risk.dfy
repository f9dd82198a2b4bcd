/** The validation snapshot, the six risk checks and the manager that runs them
    (backend/execution/context.py, backend/risk/rules.py, backend/risk/manager.py). */
module Risk {
  import opened Basics
  import opened Records
  import opened Keys

  // ---- Instants are whole seconds since the epoch, in UTC ----

  const DAY := 86400

  function Day(instant: int): int { instant / DAY }

  // ---- The snapshot ----

  datatype Context = Context(
    now: int, capital: real, exposure: real, tradesToday: nat, dailyPnl: real, dailyPeak: real,
    seenEvents: set<string>, seenKeys: set<string>)

  function Abs(x: int): int { if x < 0 then -x else x }

  function Exposure(positions: seq<BrokerPosition>): real {
    if positions == [] then 0.0
    else Abs(positions[0].quantity) as real * positions[0].avgPrice + Exposure(positions[1..])
  }

  // Rows with midnight <= created_at < next midnight of the day that holds now
  function TradesInWindow(orders: seq<OrderRow>, now: int): nat {
    if orders == [] then 0
    else
      var midnight := now - now % DAY;
      var row := orders[|orders| - 1];
      TradesInWindow(orders[..|orders| - 1], now) + if midnight <= row.createdAt < midnight + DAY then 1 else 0
  }

  // None: ValidationContextError, the broker reported no usable net liquidation
  function BuildContext(snapshot: BrokerSnapshot, orders: seq<OrderRow>, now: int): Option<Context> {
    if snapshot.netLiquidation <= 0.0 then None
    else Some(Context(
      now, snapshot.netLiquidation, Exposure(snapshot.positions), TradesInWindow(orders, now),
      0.0, snapshot.netLiquidation,
      set id | id in OrderEvents(orders), set key | key in OrderKeys(orders)))
  }

  // Rows whose creation falls on a day
  function CountDay(orders: seq<OrderRow>, day: int): nat {
    if orders == [] then 0
    else CountDay(orders[..|orders| - 1], day) + if Day(orders[|orders| - 1].createdAt) == day then 1 else 0
  }

  /** The window query counts exactly the rows created on the day of the snapshot. */
  lemma {:induction false} WindowIsDay(orders: seq<OrderRow>, now: int)
    ensures TradesInWindow(orders, now) == CountDay(orders, Day(now))
  {
    if orders != [] {
      WindowIsDay(orders[..|orders| - 1], now);
    }
  }

  // ---- What the snapshot says ----

  /** Exposure adds up: over two lists it is the sum of both. */
  lemma {:induction false} ExposureAppend(a: seq<BrokerPosition>, b: seq<BrokerPosition>)
    ensures Exposure(a + b) == Exposure(a) + Exposure(b)
  {
    if a == [] {
      assert a + b == b;
    } else {
      assert (a + b)[1..] == a[1..] + b;
      ExposureAppend(a[1..], b);
    }
  }

  /** One position counts with its size, long or short, at its average price; no position counts nothing. */
  lemma ExposureOfOne(p: BrokerPosition)
    ensures Exposure([]) == 0.0
    ensures Exposure([p]) == (if p.quantity >= 0 then p.quantity else -p.quantity) as real * p.avgPrice
  {
    assert [p][1..] == [];
  }

  /** The order in which the broker lists its positions does not matter. */
  lemma {:induction false} ExposurePermutes(a: seq<BrokerPosition>, b: seq<BrokerPosition>)
    requires multiset(a) == multiset(b)
    ensures Exposure(a) == Exposure(b)
  {
    if a == [] {
      SameMembers(a, b);
    } else {
      var i := FindHead(a, b);
      ExposurePermutes(a[1..], b[..i] + b[i + 1..]);
      ExposureWithout(b, i);
      assert a == [a[0]] + a[1..];
      ExposureAppend([a[0]], a[1..]);
    }
  }

  lemma ExposureWithout(b: seq<BrokerPosition>, i: nat)
    requires i < |b|
    ensures Exposure(b) == Exposure([b[i]]) + Exposure(b[..i] + b[i + 1..])
  {
    assert b == b[..i] + ([b[i]] + b[i + 1..]);
    ExposureAppend(b[..i], [b[i]] + b[i + 1..]);
    ExposureAppend([b[i]], b[i + 1..]);
    ExposureAppend(b[..i], b[i + 1..]);
  }

  // The rows created on the UTC day of an instant, in seconds since the epoch
  ghost function RowsOfDay(orders: seq<OrderRow>, now: int): set<int> {
    set i | 0 <= i < |orders| && orders[i].createdAt / 86400 == now / 86400
  }

  lemma {:induction false} WindowCountsRows(orders: seq<OrderRow>, now: int)
    ensures TradesInWindow(orders, now) == |RowsOfDay(orders, now)|
  {
    if orders != [] {
      var n := |orders| - 1;
      WindowCountsRows(orders[..n], now);
      WindowIsDay(orders, now);
      WindowIsDay(orders[..n], now);
      assert RowsOfDay(orders, now) ==
               RowsOfDay(orders[..n], now) + if orders[n].createdAt / 86400 == now / 86400 then {n} else {};
    }
  }

  /** There is a context exactly when the broker reports a positive net liquidation. It holds the moment, that
      capital, the exposure of the reported positions, the number of order rows of the UTC day, no profit or loss, a
      peak equal to the capital, and exactly the events and keys of the orders table. */
  lemma ContextIs(snapshot: BrokerSnapshot, orders: seq<OrderRow>, now: int)
    ensures BuildContext(snapshot, orders, now).Some? <==> snapshot.netLiquidation > 0.0
    ensures snapshot.netLiquidation > 0.0 ==>
      var ctx := BuildContext(snapshot, orders, now).value;
      && ctx.now == now && ctx.capital == snapshot.netLiquidation && ctx.exposure == Exposure(snapshot.positions)
      && ctx.tradesToday == |RowsOfDay(orders, now)|
      && ctx.dailyPnl == 0.0 && ctx.dailyPeak == snapshot.netLiquidation
      && (forall id :: id in ctx.seenEvents <==> exists o :: o in orders && o.order.eventId == id)
      && (forall key :: key in ctx.seenKeys <==> exists o :: o in orders && o.order.key == key)
  {
    if snapshot.netLiquidation > 0.0 {
      WindowCountsRows(orders, now);
      forall id ensures id in OrderEvents(orders) <==> exists o :: o in orders && o.order.eventId == id {
        EventColumn(orders, id);
      }
      forall key ensures key in OrderKeys(orders) <==> exists o :: o in orders && o.order.key == key {
        KeyColumn(orders, key);
      }
    }
  }

  lemma EventColumn(orders: seq<OrderRow>, id: string)
    ensures id in OrderEvents(orders) <==> exists o :: o in orders && o.order.eventId == id
  {
    if k :| 0 <= k < |orders| && OrderEvents(orders)[k] == id { assert orders[k] in orders; }
    if o :| o in orders && o.order.eventId == id {
      var k :| 0 <= k < |orders| && orders[k] == o;
      assert OrderEvents(orders)[k] == id;
    }
  }

  lemma KeyColumn(orders: seq<OrderRow>, key: string)
    ensures key in OrderKeys(orders) <==> exists o :: o in orders && o.order.key == key
  {
    if k :| 0 <= k < |orders| && OrderKeys(orders)[k] == key { assert orders[k] in orders; }
    if o :| o in orders && o.order.key == key {
      var k :| 0 <= k < |orders| && orders[k] == o;
      assert OrderKeys(orders)[k] == key;
    }
  }

  // ---- The checks ----

  datatype Limits = Limits(
    maxPositionPct: real, maxExposurePct: real, maxTradesPerDay: int, maxDrawdownPct: real, allowAfterHours: bool)

  datatype RiskRule =
    | PositionSize(maxPct: real)
    | TotalExposure(maxPct: real)
    | MaxTradesPerDay(maxTrades: int)
    | DailyDrawdown(maxPct: real)
    | MarketHours(isOpen: int -> bool, allow: bool)
    | Idempotency

  function RuleName(rule: RiskRule): string {
    match rule
    case PositionSize(_) => "position_size"
    case TotalExposure(_) => "total_exposure"
    case MaxTradesPerDay(_) => "max_trades_per_day"
    case DailyDrawdown(_) => "daily_drawdown"
    case MarketHours(_, _) => "market_hours"
    case Idempotency => "idempotency"
  }

  function Notional(order: ProposedOrder): real {
    order.quantity as real * order.referencePrice
  }

  function DrawdownPct(ctx: Context): real {
    if ctx.dailyPeak <= 0.0 then 0.0
    else
      var pct := (ctx.dailyPeak - (ctx.dailyPeak + ctx.dailyPnl)) / ctx.dailyPeak * 100.0;
      if pct > 0.0 then pct else 0.0
  }

  /** The drawdown is the loss of the day in percent of the peak, never negative; without a loss it is zero. */
  lemma DrawdownIs(ctx: Context)
    ensures ctx.dailyPeak > 0.0 && ctx.dailyPnl < 0.0 ==> DrawdownPct(ctx) * ctx.dailyPeak == -ctx.dailyPnl * 100.0
    ensures ctx.dailyPeak <= 0.0 || ctx.dailyPnl >= 0.0 ==> DrawdownPct(ctx) == 0.0
  {
    if ctx.dailyPeak > 0.0 {
      LossShare(ctx.dailyPeak, -ctx.dailyPnl);
      assert ctx.dailyPeak - (ctx.dailyPeak + ctx.dailyPnl) == -ctx.dailyPnl;
    }
  }

  lemma LossShare(peak: real, loss: real)
    requires peak > 0.0
    ensures loss / peak * 100.0 * peak == loss * 100.0
    ensures loss / peak * 100.0 > 0.0 <==> loss > 0.0
  {
    var q := loss / peak;
    assert q * peak == loss;
    if q > 0.0 { assert q * peak > 0.0; }
    if q <= 0.0 { assert q * peak <= 0.0; }
  }

  predicate Passes(rule: RiskRule, order: ProposedOrder, ctx: Context) {
    match rule
    case PositionSize(max) => !(Notional(order) > max / 100.0 * ctx.capital)
    case TotalExposure(max) => !(ctx.exposure + Notional(order) > max / 100.0 * ctx.capital)
    case MaxTradesPerDay(max) => !(ctx.tradesToday >= max)
    case DailyDrawdown(max) => !(DrawdownPct(ctx) >= max)
    case MarketHours(isOpen, allow) => allow || isOpen(ctx.now)
    case Idempotency =>
      order.eventId !in ctx.seenEvents
      && ComputeIdempotencyKey(order.eventId, order.strategyId) !in ctx.seenKeys
  }

  // build_risk_manager: the canonical six, in order
  function CanonicalRules(limits: Limits, isOpen: int -> bool): seq<RiskRule> {
    [PositionSize(limits.maxPositionPct), TotalExposure(limits.maxExposurePct),
     MaxTradesPerDay(limits.maxTradesPerDay), DailyDrawdown(limits.maxDrawdownPct),
     MarketHours(isOpen, limits.allowAfterHours), Idempotency]
  }

  datatype CheckResult = CheckResult(ruleName: string, passed: bool)

  // No early return: one result per rule
  function RunChecks(rules: seq<RiskRule>, order: ProposedOrder, ctx: Context): seq<CheckResult> {
    seq(|rules|, i requires 0 <= i < |rules| => CheckResult(RuleName(rules[i]), Passes(rules[i], order, ctx)))
  }

  predicate AllPassed(checks: seq<CheckResult>) {
    forall c :: c in checks ==> c.passed
  }

  function AuditRow(order: ProposedOrder, check: CheckResult, idx: int): EvalRow {
    EvalRow(order.eventId, "risk." + check.ruleName, idx, if check.passed then Matched else Failed, None)
  }

  function AuditRows(order: ProposedOrder, checks: seq<CheckResult>): seq<EvalRow> {
    seq(|checks|, i requires 0 <= i < |checks| => AuditRow(order, checks[i], i))
  }

  /** RiskManager: aggregates the verdicts of its rules and writes the audit rows into the session. */
  class RiskManager {
    const rules: seq<RiskRule>

    constructor (rules: seq<RiskRule>)
      requires rules != []
      ensures this.rules == rules
    {
      this.rules := rules;
    }

    method Validate(order: ProposedOrder, ctx: Context, pending: seq<EvalRow>)
      returns (checks: seq<CheckResult>, ok: bool, pending': seq<EvalRow>)
      ensures checks == RunChecks(rules, order, ctx)
      ensures ok <==> forall i :: 0 <= i < |rules| ==> Passes(rules[i], order, ctx)
      ensures pending' == pending + AuditRows(order, checks)
    {
      checks := RunChecks(rules, order, ctx);
      ok := AllPassed(checks);
      AllPassedIff(rules, order, ctx);
      pending' := pending;
      for i := 0 to |checks|
        invariant pending' == pending + AuditRows(order, checks)[..i]
      {
        pending' := pending' + [AuditRow(order, checks[i], i)];
      }
    }
  }

  // ---- What a pass means ----

  // Approved by the six canonical rules
  predicate Approved(limits: Limits, isOpen: int -> bool, order: ProposedOrder, ctx: Context) {
    AllPassed(RunChecks(CanonicalRules(limits, isOpen), order, ctx))
  }

  /** An order is approved exactly when it meets all six limits. */
  lemma ApprovedIff(limits: Limits, isOpen: int -> bool, order: ProposedOrder, ctx: Context)
    ensures Approved(limits, isOpen, order, ctx) <==>
      && Notional(order) * 100.0 <= limits.maxPositionPct * ctx.capital
      && (ctx.exposure + Notional(order)) * 100.0 <= limits.maxExposurePct * ctx.capital
      && ctx.tradesToday < limits.maxTradesPerDay
      && DrawdownPct(ctx) < limits.maxDrawdownPct
      && (limits.allowAfterHours || isOpen(ctx.now))
      && order.eventId !in ctx.seenEvents
      && ComputeIdempotencyKey(order.eventId, order.strategyId) !in ctx.seenKeys
  {
    var rules := CanonicalRules(limits, isOpen);
    AllPassedIff(rules, order, ctx);
    assert rules[0].PositionSize? && rules[1].TotalExposure? && rules[2].MaxTradesPerDay?;
    assert rules[3].DailyDrawdown? && rules[4].MarketHours? && rules[5].Idempotency?;
    PercentPasses(limits.maxPositionPct, limits.maxExposurePct, order, ctx);
  }

  lemma AllPassedIff(rules: seq<RiskRule>, order: ProposedOrder, ctx: Context)
    ensures AllPassed(RunChecks(rules, order, ctx)) <==> forall i :: 0 <= i < |rules| ==> Passes(rules[i], order, ctx)
  {
    var checks := RunChecks(rules, order, ctx);
    assert forall i :: 0 <= i < |rules| ==> checks[i] == CheckResult(RuleName(rules[i]), Passes(rules[i], order, ctx));
    assert forall i :: 0 <= i < |rules| ==> checks[i] in checks;
  }

  lemma PercentPasses(maxPosition: real, maxExposure: real, order: ProposedOrder, ctx: Context)
    ensures Passes(PositionSize(maxPosition), order, ctx) <==> Notional(order) * 100.0 <= maxPosition * ctx.capital
    ensures Passes(TotalExposure(maxExposure), order, ctx)
       <==> (ctx.exposure + Notional(order)) * 100.0 <= maxExposure * ctx.capital
  {
    Percent(Notional(order), maxPosition, ctx.capital);
    Percent(ctx.exposure + Notional(order), maxExposure, ctx.capital);
  }

  lemma Percent(x: real, pct: real, capital: real)
    ensures x <= pct / 100.0 * capital <==> x * 100.0 <= pct * capital
  {
    assert pct / 100.0 * capital == pct * capital / 100.0;
  }

  /** With colon-free strategy ids the key clause of the idempotency check is implied by the event
      clause: a key is in the table only if its event is. */
  lemma KeyClauseRedundant(orders: seq<OrderRow>, order: ProposedOrder)
    requires ColonFree(order.strategyId)
    requires forall row :: row in orders ==>
               ColonFree(row.order.strategyId)
               && row.order.key == ComputeIdempotencyKey(row.order.eventId, row.order.strategyId)
    requires ComputeIdempotencyKey(order.eventId, order.strategyId) in OrderKeys(orders)
    ensures order.eventId in OrderEvents(orders)
  {
    var key := ComputeIdempotencyKey(order.eventId, order.strategyId);
    var i :| 0 <= i < |orders| && OrderKeys(orders)[i] == key;
    var row := orders[i].order;
    assert orders[i] in orders;
    JoinRoundTrip(order.eventId, order.strategyId);
    JoinRoundTrip(row.eventId, row.strategyId);
    assert OrderEvents(orders)[i] == order.eventId;
  }

  // ---- Counting by day ----

  lemma CountDayAppend(orders: seq<OrderRow>, row: OrderRow, day: int)
    ensures CountDay(orders + [row], day) == CountDay(orders, day) + if Day(row.createdAt) == day then 1 else 0
  {
    assert (orders + [row])[..|orders|] == orders;
  }

  lemma {:induction false} CountDayNone(orders: seq<OrderRow>, day: int)
    requires forall row :: row in orders ==> Day(row.createdAt) != day
    ensures CountDay(orders, day) == 0
  {
    if orders != [] { CountDayNone(orders[..|orders| - 1], day); }
  }
}
