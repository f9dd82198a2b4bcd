/** The pipeline as one transition system: an ingestion worker, an LLM worker, a rule worker,
    kill-switch operators, Redis, the database and the broker. Every effect of a worker (one switch
    read, pop, insert, commit, push, charge, place) is one step, and a crash can come between any two.

    Exec is total: a step that cannot happen in a state leaves the state as it is. A theorem about
    every sequence of steps is therefore a theorem about every interleaving. */
module Protocol {
  import opened Basics
  import opened Records
  import opened Keys
  import opened Aliases
  import opened Rules
  import opened Risk

  // ---- Settings ----

  datatype Config = Config(
    limits: Limits, isLiveTrading: bool, isOpen: int -> bool, parse: FloatParser,
    llmLimit: real, tweetCost: real, tweetLimit: real, month: int -> int)

  // What the budget trackers' constructors accept
  predicate ValidConfig(c: Config) {
    c.llmLimit > 0.0 && c.tweetCost >= 0.0 && c.tweetLimit > 0.0
  }

  // ---- Shared state ----

  datatype Redis = Redis(
    tweetQueue: seq<int>, eventQueue: seq<string>, flag: bool, llmSpend: map<int, real>, tweetSpend: map<int, real>)

  function Spend(spend: map<int, real>, key: int): real {
    if key in spend then spend[key] else 0.0
  }

  // A switch row between flush and commit; its owner holds the single-writer lock
  datatype Owner = IngestionWorker | LLMWorker | Operator
  datatype SwitchTx = SwitchTx(owner: Owner, row: SwitchRow, written: bool)

  // is_active() reads its three sources one after the other
  datatype Read = ReadEnv | ReadFlag | ReadLog
  datatype ReadResult = Active | ReadNext(read: Read) | Inactive

  // ---- Program counters, with what each worker holds in hand ----

  datatype IngestPc =
    | IWait
    | ICheck(tweet: Tweet, read: Read)
    | IInsert(tweet: Tweet)
    | ICommit(tweet: Tweet)
    | IPublish(id: int)
    | ICharge
    | ITrip
    | IActivating
    | IStopped

  datatype LlmPc =
    | LCheck(read: Read)
    | LPop
    | LLoad(id: int)
    | LCommit(row: DecisionRow, added: seq<EventRow>)
    | LPublish(ids: seq<string>, cost: real)
    | LCharge(cost: real)
    | LTrip
    | LActivating
    | LStopped

  // A matched order with the audit rows pending in the session
  datatype Work = Work(order: ProposedOrder, rows: seq<EvalRow>)

  // What one transaction of the rule worker commits
  datatype Batch = Batch(eventId: string, rows: seq<EvalRow>, submitted: Option<(ProposedOrder, OrderRow)>)

  datatype RulePc =
    | RCheck(read: Read)
    | RPop
    | RLoad(eventId: string)
    | RContext(work: Work)
    | RGate(work: Work, ctx: Context, read: Read)
    | RValidate(work: Work, ctx: Context)
    | RPlace(work: Work, ctx: Context)
    | RRecord(work: Work, ctx: Context)
    | RCommit(batch: Batch)
    | RStopped

  // What happened so far. No step depends on it.
  datatype History = History(
    received: seq<Tweet>,           // tweets handed to the ingestion loop
    tweetPops: seq<int>,
    eventPushes: seq<string>,       // pushed by the LLM worker
    eventPops: seq<string>,
    orderRefs: seq<ProposedOrder>,  // the order behind each orders row
    batches: seq<Batch>,            // committed by the rule worker
    lost: seq<string>,              // events whose placed order lost its row to a crash
    accounts: seq<real>,            // net liquidations the rule worker read
    tweetCharges: map<int, nat>,    // per month
    deactivations: nat,             // committed
    ingestCrashes: nat,
    llmCrashes: nat)

  datatype Sys = Sys(
    db: Db, redis: Redis, ingest: IngestPc, llm: LlmPc, rule: RulePc, tx: Option<SwitchTx>,
    placed: seq<ValidatedOrder>, clock: int, hist: History)

  predicate Init(s: Sys) {
    && s.db == Db([], [], [], [], [], [], [])
    && s.redis == Redis([], [], false, map[], map[])
    && s.ingest == IWait && s.llm == LCheck(ReadEnv) && s.rule == RCheck(ReadEnv)
    && s.tx == None && s.placed == []
    && s.hist == History([], [], [], [], [], [], [], [], map[], 0, 0, 0)
  }

  // ---- The kill switch ----

  predicate LatestActivated(log: seq<SwitchRow>) {
    log != [] && log[|log| - 1].activated
  }

  function ReadSwitch(s: Sys, read: Read, envOn: bool): ReadResult {
    match read
    case ReadEnv => if envOn then Active else ReadNext(ReadFlag)
    case ReadFlag => if s.redis.flag then Active else ReadNext(ReadLog)
    case ReadLog => if LatestActivated(s.db.switchLog) then Active else Inactive
  }

  // add + flush: takes the lock
  function OpenTx(s: Sys, owner: Owner, row: SwitchRow): Sys {
    s.(tx := Some(SwitchTx(owner, row, false)))
  }

  // The Redis write, then the commit
  function AdvanceTx(s: Sys): Sys
    requires s.tx.Some?
  {
    var tx := s.tx.value;
    if !tx.written then
      s.(redis := s.redis.(flag := tx.row.activated), tx := Some(tx.(written := true)))
    else
      s.(db := s.db.(switchLog := s.db.switchLog + [tx.row]), tx := None,
         hist := s.hist.(deactivations := s.hist.deactivations + if tx.row.activated then 0 else 1))
  }

  function AbortTx(s: Sys, owner: Owner): Sys {
    if s.tx.Some? && s.tx.value.owner == owner then s.(tx := None) else s
  }

  predicate Holds(s: Sys, owner: Owner) {
    s.tx.Some? && s.tx.value.owner == owner
  }

  // POST /kill-switch and POST /kill-switch/deactivate
  datatype Request = Activate(actor: string) | Deactivate(confirm: Option<string>, actor: string, reason: string)

  predicate Admitted(request: Request) {
    request.Deactivate? ==> request.confirm == Some("I-understand") && request.reason != ""
  }

  // ---- Ingestion worker ----

  datatype IngestInput = IngestInput(tweet: Tweet, envOn: bool)

  function TweetIds(tweets: seq<Tweet>): (ids: seq<string>)
    ensures |ids| == |tweets| && forall i :: 0 <= i < |tweets| ==> ids[i] == tweets[i].tweetId
  {
    Map((t: Tweet) => t.tweetId, tweets)
  }

  function IngestStep(c: Config, s: Sys, input: IngestInput): Sys {
    match s.ingest
    case IWait =>
      s.(ingest := ICheck(input.tweet, ReadEnv), hist := s.hist.(received := s.hist.received + [input.tweet]))
    case ICheck(t, read) =>
      (match ReadSwitch(s, read, input.envOn)
       case Active => s.(ingest := IStopped)
       case ReadNext(next) => s.(ingest := ICheck(t, next))
       case Inactive => s.(ingest := IInsert(t)))
    case IInsert(t) =>
      s.(ingest := if t.tweetId in TweetIds(s.db.tweets) then IWait else ICommit(t))
    case ICommit(t) =>
      s.(db := s.db.(tweets := s.db.tweets + [t]), ingest := IPublish(|s.db.tweets| + 1))
    case IPublish(id) =>
      s.(redis := s.redis.(tweetQueue := s.redis.tweetQueue + [id]), ingest := ICharge)
    case ICharge =>
      var m := c.month(s.clock);
      var spend := Spend(s.redis.tweetSpend, m) + c.tweetCost;
      s.(redis := s.redis.(tweetSpend := s.redis.tweetSpend[m := spend]),
         ingest := if spend >= c.tweetLimit then ITrip else IWait,
         hist := s.hist.(tweetCharges := s.hist.tweetCharges[m := Charges(s.hist, m) + 1]))
    case ITrip =>
      if s.tx.Some? then s
      else OpenTx(s, IngestionWorker, SwitchRow(true, BudgetTwitter, "twitterapi_budget_tracker")).(ingest := IActivating)
    case IActivating =>
      if !Holds(s, IngestionWorker) then s
      else AdvanceTx(s).(ingest := if s.tx.value.written then IStopped else IActivating)
    case IStopped => s
  }

  function Charges(h: History, month: int): nat {
    if month in h.tweetCharges then h.tweetCharges[month] else 0
  }

  function CrashIngest(s: Sys): Sys {
    if s.ingest.IStopped? then s
    else AbortTx(s, IngestionWorker).(ingest := IWait, hist := s.hist.(ingestCrashes := s.hist.ingestCrashes + 1))
  }

  // ---- LLM worker ----

  datatype LlmInput = LlmInput(envOn: bool, analysis: Analysis, aliases: seq<AliasRow>)

  function FreshEvents(
      tweet: Tweet, rawId: int, decisionId: int, decision: Decision, tickers: seq<string>, existing: seq<string>)
    : seq<EventRow>
  {
    if tickers == [] then []
    else
      var id := BuildEventId(tweet.tweetId, tickers[0]);
      var rest := FreshEvents(tweet, rawId, decisionId, decision, tickers[1..], existing);
      if id in existing then rest
      else [EventRow(id, rawId, decisionId, tickers[0], decision.intent, decision.confidence, decision.horizon)] + rest
  }

  function TickersOf(decision: Decision, aliases: seq<AliasRow>): seq<string> {
    if decision.intent == Noise then [] else ResolveTickers(decision.tickers, aliases)
  }

  lemma TickersSorted(decision: Decision, aliases: seq<AliasRow>)
    ensures StrictlySorted(TickersOf(decision, aliases))
  {
  }

  // The session filled for an analysed tweet: its decision row and one row per ticker that is new
  function Loaded(s: Sys, id: int, analysis: Analysis, tickers: seq<string>): Sys
    requires 1 <= id <= |s.db.tweets|
  {
    s.(llm := LCommit(
      DecisionRow(id, analysis.decision, analysis.status),
      FreshEvents(s.db.tweets[id - 1], id, |s.db.decisions| + 1, analysis.decision, tickers, EventIds(s.db.events))))
  }

  function LlmStep(c: Config, s: Sys, input: LlmInput): Sys {
    match s.llm
    case LCheck(read) =>
      (match ReadSwitch(s, read, input.envOn)
       case Active => s.(llm := LStopped)
       case ReadNext(next) => s.(llm := LCheck(next))
       case Inactive => s.(llm := LPop))
    case LPop =>
      if s.redis.tweetQueue == [] then s.(llm := LCheck(ReadEnv))
      else
        s.(redis := s.redis.(tweetQueue := s.redis.tweetQueue[1..]), llm := LLoad(s.redis.tweetQueue[0]),
           hist := s.hist.(tweetPops := s.hist.tweetPops + [s.redis.tweetQueue[0]]))
    case LLoad(id) =>
      if !(1 <= id <= |s.db.tweets|) then s.(llm := LCheck(ReadEnv))
      else Loaded(s, id, input.analysis, TickersOf(input.analysis.decision, input.aliases))
    case LCommit(row, added) =>
      s.(db := s.db.(decisions := s.db.decisions + [row], events := s.db.events + added),
         llm := LPublish(EventIds(added), row.decision.costUsd))
    case LPublish(ids, cost) =>
      if ids == [] then s.(llm := LCharge(cost))
      else
        s.(redis := s.redis.(eventQueue := s.redis.eventQueue + [ids[0]]), llm := LPublish(ids[1..], cost),
           hist := s.hist.(eventPushes := s.hist.eventPushes + [ids[0]]))
    case LCharge(cost) =>
      if cost < 0.0 then CrashLlm(s)  // record_call raises ValueError
      else
        var spend := Spend(s.redis.llmSpend, Day(s.clock)) + cost;
        s.(redis := s.redis.(llmSpend := s.redis.llmSpend[Day(s.clock) := spend]),
           llm := if spend >= c.llmLimit then LTrip else LCheck(ReadEnv))
    case LTrip =>
      if s.tx.Some? then s
      else OpenTx(s, LLMWorker, SwitchRow(true, BudgetLLM, "llm_budget_tracker")).(llm := LActivating)
    case LActivating =>
      if !Holds(s, LLMWorker) then s
      else AdvanceTx(s).(llm := if s.tx.value.written then LStopped else LActivating)
    case LStopped => s
  }

  function CrashLlm(s: Sys): Sys {
    if s.llm.LStopped? then s
    else AbortTx(s, LLMWorker).(llm := LCheck(ReadEnv), hist := s.hist.(llmCrashes := s.hist.llmCrashes + 1))
  }

  // ---- Rule worker ----

  datatype RuleInput = RuleInput(envOn: bool, rules: seq<RuleSpec>, snapshot: BrokerSnapshot)

  function FindEvent(events: seq<EventRow>, eventId: string): (r: Option<EventRow>)
    ensures r.Some? <==> eventId in EventIds(events)
    ensures r.Some? ==> r.value in events && r.value.eventId == eventId
  {
    if events == [] then None
    else if events[0].eventId == eventId then
      assert EventIds(events)[0] == eventId;
      Some(events[0])
    else
      assert EventIds(events) == [events[0].eventId] + EventIds(events[1..]);
      FindEvent(events[1..], eventId)
  }

  function EngineRows(eventId: string, out: EngineOutcome): seq<EvalRow> {
    Map((r: Record) => EvalRow(eventId, r.ruleId, r.priority, r.outcome, r.proposed), out.evaluations)
  }

  // With a match the order goes on to its gates; without one the records are committed
  function Judged(eventId: string, out: EngineOutcome): RulePc {
    var rows := EngineRows(eventId, out);
    if out.matched.Some? && out.matched.value.proposed.Some? then RContext(Work(out.matched.value.proposed.value, rows))
    else RCommit(Batch(eventId, rows, None))
  }

  function ToValidated(p: ProposedOrder): ValidatedOrder {
    ValidatedOrder(ComputeIdempotencyKey(p.eventId, p.strategyId), p.eventId, p.strategyId, p.mode, p.side,
                   p.orderType, p.symbol, p.quantity, p.limitPrice)
  }

  // The CHECK constraints of the orders table that can fail
  predicate RowAllowed(order: ValidatedOrder) {
    order.quantity > 0 && (order.orderType == Limit <==> order.limitPrice.Some?)
  }

  function RuleStep(c: Config, s: Sys, input: RuleInput): Sys {
    match s.rule
    case RCheck(read) =>
      (match ReadSwitch(s, read, input.envOn)
       case Active => s.(rule := RStopped)
       case ReadNext(next) => s.(rule := RCheck(next))
       case Inactive => s.(rule := RPop))
    case RPop =>
      if s.redis.eventQueue == [] then s.(rule := RCheck(ReadEnv))
      else
        s.(redis := s.redis.(eventQueue := s.redis.eventQueue[1..]), rule := RLoad(s.redis.eventQueue[0]),
           hist := s.hist.(eventPops := s.hist.eventPops + [s.redis.eventQueue[0]]))
    case RLoad(eventId) =>
      (match FindEvent(s.db.events, eventId)
       case None => s.(rule := RCheck(ReadEnv))
       case Some(event) =>
         s.(rule := Judged(eventId, Evaluate(input.rules, event, c.parse))))
    case RContext(w) =>
      var read := s.(hist := s.hist.(accounts := s.hist.accounts + [input.snapshot.netLiquidation]));
      (match BuildContext(input.snapshot, s.db.orders, s.clock)
       case None => CrashRule(read)  // ValidationContextError
       case Some(ctx) => read.(rule := RGate(w, ctx, ReadEnv)))
    case RGate(w, ctx, read) =>
      (match ReadSwitch(s, read, input.envOn)
       case Active => s.(rule := RCommit(Batch(w.order.eventId, w.rows, None)))
       case ReadNext(next) => s.(rule := RGate(w, ctx, next))
       case Inactive => s.(rule := RValidate(w, ctx)))
    case RValidate(w, ctx) =>
      if w.order.mode == Live && !c.isLiveTrading then s.(rule := RCommit(Batch(w.order.eventId, w.rows, None)))
      else
        var checks := RunChecks(CanonicalRules(c.limits, c.isOpen), w.order, ctx);
        var rows := w.rows + AuditRows(w.order, checks);
        s.(rule := if AllPassed(checks) then RPlace(Work(w.order, rows), ctx)
                   else RCommit(Batch(w.order.eventId, rows, None)))
    case RPlace(w, ctx) =>
      s.(placed := s.placed + [ToValidated(w.order)], rule := RRecord(w, ctx))
    case RRecord(w, ctx) =>
      var row := OrderRow(ToValidated(w.order), s.clock);
      if !RowAllowed(row.order) || row.order.key in OrderKeys(s.db.orders) then CrashRule(s)  // IntegrityError
      else s.(rule := RCommit(Batch(w.order.eventId, w.rows, Some((w.order, row)))))
    case RCommit(b) =>
      var orders := if b.submitted.Some? then [b.submitted.value.1] else [];
      var refs := if b.submitted.Some? then [b.submitted.value.0] else [];
      s.(db := s.db.(evals := s.db.evals + b.rows, orders := s.db.orders + orders),
         rule := RCheck(ReadEnv),
         hist := s.hist.(orderRefs := s.hist.orderRefs + refs, batches := s.hist.batches + [b]))
    case RStopped => s
  }

  // An order that reached the broker while its row is not committed
  function UnrecordedEvent(pc: RulePc): Option<string> {
    match pc
    case RRecord(w, _) => Some(w.order.eventId)
    case RCommit(b) => if b.submitted.Some? then Some(b.submitted.value.0.eventId) else None
    case _ => None
  }

  function CrashRule(s: Sys): Sys {
    if s.rule.RStopped? then s
    else
      var lost := match UnrecordedEvent(s.rule) case Some(e) => [e] case None => [];
      s.(rule := RCheck(ReadEnv), hist := s.hist.(lost := s.hist.lost + lost))
  }

  // ---- Everything else ----

  predicate FillAllowed(db: Db, fill: FillRow) {
    && 1 <= fill.orderId <= |db.orders|
    && fill.quantity > 0 && fill.price > 0.0
    && forall f :: f in db.fills ==> f.externalFillId != fill.externalFillId
  }

  datatype Step =
    | Tick(seconds: nat)
    | Ingest(ingestInput: IngestInput) | IngestCrash | IngestRestart
    | Analyze(llmInput: LlmInput) | LlmCrash | LlmRestart
    | Trade(ruleInput: RuleInput) | RuleCrash | RuleRestart
    | OpenRequest(request: Request) | AdvanceRequest | AbortRequest
    | RecordFill(fill: FillRow)
    | LoseFlag | LoseLlmSpend(day: int) | LoseTweetSpend(month: int)
    | Inject(eventId: string)  // someone other than the LLM worker pushes an event id

  function Exec(c: Config, s: Sys, step: Step): Sys {
    match step
    case Tick(seconds) => s.(clock := s.clock + seconds)
    case Ingest(input) => IngestStep(c, s, input)
    case IngestCrash => CrashIngest(s)
    case IngestRestart => if s.ingest.IStopped? then s.(ingest := IWait) else s
    case Analyze(input) => LlmStep(c, s, input)
    case LlmCrash => CrashLlm(s)
    case LlmRestart => if s.llm.LStopped? then s.(llm := LCheck(ReadEnv)) else s
    case Trade(input) => RuleStep(c, s, input)
    case RuleCrash => CrashRule(s)
    case RuleRestart => if s.rule.RStopped? then s.(rule := RCheck(ReadEnv)) else s
    case OpenRequest(request) =>
      if s.tx.Some? || !Admitted(request) then s
      else OpenTx(s, Operator, SwitchRow(request.Activate?, Manual, request.actor))
    case AdvanceRequest => if Holds(s, Operator) then AdvanceTx(s) else s
    case AbortRequest => AbortTx(s, Operator)
    case RecordFill(fill) => if FillAllowed(s.db, fill) then s.(db := s.db.(fills := s.db.fills + [fill])) else s
    case LoseFlag => s.(redis := s.redis.(flag := false))
    case LoseLlmSpend(day) => s.(redis := s.redis.(llmSpend := s.redis.llmSpend - {day}))
    case LoseTweetSpend(month) => s.(redis := s.redis.(tweetSpend := s.redis.tweetSpend - {month}))
    case Inject(eventId) => s.(redis := s.redis.(eventQueue := s.redis.eventQueue + [eventId]))
  }

  function Run(c: Config, s: Sys, steps: seq<Step>): Sys {
    if steps == [] then s
    else Exec(c, Run(c, s, steps[..|steps| - 1]), steps[|steps| - 1])
  }

  // Some run from the empty system leads to s
  ghost predicate Reachable(c: Config, s: Sys) {
    exists s0: Sys, steps: seq<Step> :: Init(s0) && Run(c, s0, steps) == s
  }

  lemma {:induction false} RunAppend(c: Config, s: Sys, a: seq<Step>, b: seq<Step>)
    ensures Run(c, s, a + b) == Run(c, Run(c, s, a), b)
  {
    if b == [] {
      assert a + b == a;
    } else {
      assert (a + b)[..|a + b| - 1] == a + b[..|b| - 1];
      RunAppend(c, s, a, b[..|b| - 1]);
    }
  }

  // ---- What a step leaves alone ----

  lemma RuleQuietFrame(c: Config, s: Sys, input: RuleInput)
    requires !s.rule.RPlace? && !s.rule.RRecord? && !s.rule.RCommit?
    ensures var s' := RuleStep(c, s, input);
            && s'.placed == s.placed && s'.db == s.db && s'.hist.lost == s.hist.lost
            && s'.hist.orderRefs == s.hist.orderRefs && s'.hist.batches == s.hist.batches
            && UnrecordedEvent(s'.rule) == UnrecordedEvent(s.rule) == None
  {
    assert s.hist.lost + [] == s.hist.lost;
  }

  lemma RuleFrame(c: Config, s: Sys, input: RuleInput)
    ensures var s' := RuleStep(c, s, input);
            && s'.ingest == s.ingest && s'.llm == s.llm && s'.tx == s.tx && s'.clock == s.clock
            && s'.db.tweets == s.db.tweets && s'.db.decisions == s.db.decisions && s'.db.events == s.db.events
            && s'.db.fills == s.db.fills && s'.db.switchLog == s.db.switchLog
            && s'.redis == s.redis.(eventQueue := s'.redis.eventQueue)
            && s'.hist.eventPushes == s.hist.eventPushes
  {
  }

  lemma RuleTablesFrame(c: Config, s: Sys, input: RuleInput)
    requires !s.rule.RCommit?
    ensures RuleStep(c, s, input).db == s.db
  {
  }

  lemma LlmHistoryFrame(c: Config, s: Sys, input: LlmInput)
    ensures var s' := LlmStep(c, s, input);
            && s'.hist.eventPops == s.hist.eventPops && s'.hist.lost == s.hist.lost
            && s'.hist.orderRefs == s.hist.orderRefs && s'.hist.batches == s.hist.batches
            && s'.hist.ingestCrashes == s.hist.ingestCrashes && s'.hist.tweetCharges == s.hist.tweetCharges
            && s'.hist.received == s.hist.received
  {
  }

  lemma LlmFrame(c: Config, s: Sys, input: LlmInput)
    ensures var s' := LlmStep(c, s, input);
            && s'.ingest == s.ingest && s'.rule == s.rule && s'.clock == s.clock && s'.placed == s.placed
            && s'.db.tweets == s.db.tweets && s'.db.evals == s.db.evals && s'.db.orders == s.db.orders
            && s'.db.fills == s.db.fills
            && s'.redis.tweetSpend == s.redis.tweetSpend
            && s'.hist.eventPops == s.hist.eventPops && s'.hist.lost == s.hist.lost
            && s'.hist.orderRefs == s.hist.orderRefs && s'.hist.batches == s.hist.batches
            && s'.hist.ingestCrashes == s.hist.ingestCrashes && s'.hist.tweetCharges == s.hist.tweetCharges
            && s'.hist.received == s.hist.received
  {
    LlmHistoryFrame(c, s, input);
  }

  lemma IngestFrame(c: Config, s: Sys, input: IngestInput)
    ensures var s' := IngestStep(c, s, input);
            && s'.llm == s.llm && s'.rule == s.rule && s'.clock == s.clock && s'.placed == s.placed
            && s'.db == s.db.(tweets := s'.db.tweets, switchLog := s'.db.switchLog)
            && s'.redis.eventQueue == s.redis.eventQueue && s'.redis.llmSpend == s.redis.llmSpend
            && s'.hist == s.hist.(received := s'.hist.received, tweetCharges := s'.hist.tweetCharges,
                                  deactivations := s'.hist.deactivations)
  {
  }

  // Steps that belong to no worker, and crashes and restarts of workers
  predicate Outside(step: Step) {
    !step.Ingest? && !step.Analyze? && !step.Trade?
  }

  lemma OutsideFrame(c: Config, s: Sys, step: Step)
    requires Outside(step)
    ensures var s' := Exec(c, s, step);
            && s'.placed == s.placed && s'.clock >= s.clock && s'.db == s.db.(fills := s'.db.fills, switchLog := s'.db.switchLog)
            && s'.redis.tweetQueue == s.redis.tweetQueue && (!step.Inject? ==> s'.redis.eventQueue == s.redis.eventQueue)
            && s'.hist == s.hist.(lost := s'.hist.lost, deactivations := s'.hist.deactivations,
                                  ingestCrashes := s'.hist.ingestCrashes, llmCrashes := s'.hist.llmCrashes)
  {
  }

  lemma OutsideSpendFrame(c: Config, s: Sys, step: Step)
    requires Outside(step)
    ensures var s' := Exec(c, s, step);
            && (!step.LoseLlmSpend? ==> s'.redis.llmSpend == s.redis.llmSpend)
            && (!step.LoseTweetSpend? ==> s'.redis.tweetSpend == s.redis.tweetSpend)
            && (!step.LlmCrash? ==> s'.hist.llmCrashes == s.hist.llmCrashes)
            && (!step.IngestCrash? ==> s'.hist.ingestCrashes == s.hist.ingestCrashes)
  {
  }

  /** Only the rule worker places orders, writes audit and order rows, and moves its own counter. */
  lemma RuleSideFrame(c: Config, s: Sys, step: Step)
    requires !step.Trade?
    ensures var s' := Exec(c, s, step);
            && s'.placed == s.placed && s'.db.evals == s.db.evals && s'.db.orders == s.db.orders
            && s'.hist.orderRefs == s.hist.orderRefs && s'.hist.batches == s.hist.batches
            && s'.hist.eventPops == s.hist.eventPops && s'.clock >= s.clock
            && (!step.RuleCrash? ==> s'.hist.lost == s.hist.lost)
            && (!step.RuleCrash? && !step.RuleRestart? ==> s'.rule == s.rule)
            && (step.RuleRestart? ==> s'.rule == s.rule || s'.rule == RCheck(ReadEnv))
  {
    match step {
      case Ingest(input) => IngestFrame(c, s, input);
      case Analyze(input) => LlmFrame(c, s, input);
      case _ =>
    }
  }

  // What only the LLM worker and what only ingestion writes
  predicate LlmKept(s: Sys, s': Sys) {
    && s'.db.decisions == s.db.decisions && s'.db.events == s.db.events
    && s'.hist.eventPushes == s.hist.eventPushes && s'.hist.tweetPops == s.hist.tweetPops
    && s'.redis.llmSpend == s.redis.llmSpend && s'.hist.llmCrashes == s.hist.llmCrashes && s'.llm == s.llm
  }

  predicate IngestKept(s: Sys, s': Sys) {
    && s'.db.tweets == s.db.tweets && s'.hist.received == s.hist.received && s'.hist.tweetCharges == s.hist.tweetCharges
    && s'.redis.tweetSpend == s.redis.tweetSpend && s'.hist.ingestCrashes == s.hist.ingestCrashes && s'.ingest == s.ingest
  }

  lemma RuleKeepsLlm(c: Config, s: Sys, input: RuleInput)
    ensures LlmKept(s, RuleStep(c, s, input))
  {
    RuleFrame(c, s, input);
  }

  lemma RuleKeepsIngest(c: Config, s: Sys, input: RuleInput)
    ensures IngestKept(s, RuleStep(c, s, input))
  {
    RuleFrame(c, s, input);
  }

  lemma IngestKeepsLlm(c: Config, s: Sys, input: IngestInput)
    ensures LlmKept(s, IngestStep(c, s, input))
  {
    IngestFrame(c, s, input);
  }

  lemma LlmKeepsIngest(c: Config, s: Sys, input: LlmInput)
    ensures IngestKept(s, LlmStep(c, s, input))
  {
    LlmFrame(c, s, input);
  }

  lemma OutsideCounters(c: Config, s: Sys, step: Step)
    requires Outside(step)
    ensures var s' := Exec(c, s, step);
            && (!step.LlmCrash? && !step.LlmRestart? ==> s'.llm == s.llm)
            && (!step.IngestCrash? && !step.IngestRestart? ==> s'.ingest == s.ingest)
  {
  }

  /** Only the LLM worker writes decisions and events, pushes event ids and moves its own counter. */
  lemma LlmSideFrame(c: Config, s: Sys, step: Step)
    requires !step.Analyze?
    ensures var s' := Exec(c, s, step);
            && s'.db.decisions == s.db.decisions && s'.db.events == s.db.events
            && s'.hist.eventPushes == s.hist.eventPushes && s'.hist.tweetPops == s.hist.tweetPops
            && (!step.LoseLlmSpend? ==> s'.redis.llmSpend == s.redis.llmSpend)
            && (!step.LlmCrash? ==> s'.hist.llmCrashes == s.hist.llmCrashes)
            && (!step.LlmCrash? && !step.LlmRestart? ==> s'.llm == s.llm)
  {
    match step {
      case Ingest(input) => IngestKeepsLlm(c, s, input);
      case Trade(input) => RuleKeepsLlm(c, s, input);
      case _ => OutsideFrame(c, s, step); OutsideSpendFrame(c, s, step); OutsideCounters(c, s, step);
    }
  }

  /** Only ingestion writes tweets, pushes tweet ids, charges for tweets and moves its own counter. */
  lemma IngestSideFrame(c: Config, s: Sys, step: Step)
    requires !step.Ingest?
    ensures var s' := Exec(c, s, step);
            && s'.db.tweets == s.db.tweets && s'.hist.received == s.hist.received
            && s'.hist.tweetCharges == s.hist.tweetCharges
            && (!step.LoseTweetSpend? ==> s'.redis.tweetSpend == s.redis.tweetSpend)
            && (!step.IngestCrash? ==> s'.hist.ingestCrashes == s.hist.ingestCrashes)
            && (!step.IngestCrash? && !step.IngestRestart? ==> s'.ingest == s.ingest)
  {
    match step {
      case Analyze(input) => LlmKeepsIngest(c, s, input);
      case Trade(input) => RuleKeepsIngest(c, s, input);
      case _ => OutsideFrame(c, s, step); OutsideSpendFrame(c, s, step); OutsideCounters(c, s, step);
    }
  }
}
