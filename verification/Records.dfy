/** The rows, messages and settings that pass between the workers. */
module Records {
  import opened Basics

  // ---- backend/models/enums.py ----

  datatype TradingMode = Paper | Live
  datatype Intent = Bullish | Bearish | Neutral | Noise
  datatype TimeHorizon = Intraday | Swing | LongTerm
  datatype OrderSide = Buy | Sell
  datatype OrderType = Market | Limit
  datatype LLMStatus = Success | InvalidJson | ErrorStatus
  datatype RuleOutcome = Matched | Skipped | Failed
  datatype SwitchTrigger = Manual | EnvVar | Drawdown | BudgetLLM | BudgetTwitter

  // ---- Messages ----

  datatype Tweet = Tweet(tweetId: string, username: string, content: string, receivedAt: int)

  datatype Decision = Decision(
    tickers: seq<string>, intent: Intent, confidence: real, horizon: TimeHorizon, costUsd: real)

  datatype Analysis = Analysis(decision: Decision, status: LLMStatus)

  datatype ProposedOrder = ProposedOrder(
    eventId: string, strategyId: string, mode: TradingMode, side: OrderSide, orderType: OrderType,
    symbol: string, quantity: int, limitPrice: Option<real>, referencePrice: real)

  datatype BrokerPosition = BrokerPosition(symbol: string, quantity: int, avgPrice: real)

  // get_account_summary() and get_positions(), read together when a context is built
  datatype BrokerSnapshot = BrokerSnapshot(netLiquidation: real, positions: seq<BrokerPosition>)

  // What broker.place_order receives
  datatype ValidatedOrder = ValidatedOrder(
    key: string, eventId: string, strategyId: string, mode: TradingMode, side: OrderSide,
    orderType: OrderType, symbol: string, quantity: int, limitPrice: Option<real>)

  // ---- Table rows. The id of a row is its position in its table plus one. ----

  datatype AliasRow = AliasRow(mention: string, ticker: string, priority: int)

  datatype DecisionRow = DecisionRow(rawTweetId: int, decision: Decision, status: LLMStatus)

  datatype EventRow = EventRow(
    eventId: string, rawTweetId: int, decisionId: int, ticker: string, intent: Intent,
    confidence: real, horizon: TimeHorizon)

  datatype EvalRow = EvalRow(
    eventId: string, ruleId: string, priority: int, outcome: RuleOutcome,
    proposed: Option<ProposedOrder>)

  datatype OrderRow = OrderRow(order: ValidatedOrder, createdAt: int)

  datatype FillRow = FillRow(
    orderId: int, externalFillId: string, symbol: string, quantity: int, price: real, commission: real)

  datatype SwitchRow = SwitchRow(activated: bool, trigger: SwitchTrigger, actor: string)

  datatype Db = Db(
    tweets: seq<Tweet>, decisions: seq<DecisionRow>, events: seq<EventRow>, evals: seq<EvalRow>,
    orders: seq<OrderRow>, fills: seq<FillRow>, switchLog: seq<SwitchRow>)

  function EventIds(events: seq<EventRow>): (ids: seq<string>)
    ensures |ids| == |events| && forall i :: 0 <= i < |events| ==> ids[i] == events[i].eventId
  {
    Map((e: EventRow) => e.eventId, events)
  }

  function OrderEvents(orders: seq<OrderRow>): (ids: seq<string>)
    ensures |ids| == |orders| && forall i :: 0 <= i < |orders| ==> ids[i] == orders[i].order.eventId
  {
    Map((o: OrderRow) => o.order.eventId, orders)
  }

  function OrderKeys(orders: seq<OrderRow>): (ids: seq<string>)
    ensures |ids| == |orders| && forall i :: 0 <= i < |orders| ==> ids[i] == orders[i].order.key
  {
    Map((o: OrderRow) => o.order.key, orders)
  }

  lemma EventIdsAppend(a: seq<EventRow>, b: seq<EventRow>)
    ensures EventIds(a + b) == EventIds(a) + EventIds(b)
  {
  }

  lemma OrderColumnsAppend(a: seq<OrderRow>, b: seq<OrderRow>)
    ensures OrderEvents(a + b) == OrderEvents(a) + OrderEvents(b)
    ensures OrderKeys(a + b) == OrderKeys(a) + OrderKeys(b)
  {
  }
}
