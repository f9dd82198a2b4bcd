/** Referential integrity. No foreign key is enforced by the database, so it is proved from the steps:
    it holds in every reachable state, also with crashes and with foreign pushes on the event queue. */
module Integrity {
  import opened Basics
  import opened Records
  import opened Keys
  import opened Risk
  import opened Rules
  import opened Protocol

  // ---- The tables ----

  predicate TweetRef(tweets: seq<Tweet>, id: int) { 1 <= id <= |tweets| }

  // An event repeats the verdict of its decision, which is never noise
  predicate Repeats(e: EventRow, d: Decision) {
    d.intent != Noise && e.intent == d.intent && e.confidence == d.confidence && e.horizon == d.horizon
  }

  predicate EventOk(tweets: seq<Tweet>, decisions: seq<DecisionRow>, e: EventRow) {
    && TweetRef(tweets, e.rawTweetId)
    && 1 <= e.decisionId <= |decisions|
    && decisions[e.decisionId - 1].rawTweetId == e.rawTweetId
    && Repeats(e, decisions[e.decisionId - 1].decision)
    && e.eventId == BuildEventId(tweets[e.rawTweetId - 1].tweetId, e.ticker)
  }

  predicate OrderOk(events: seq<EventRow>, o: OrderRow) {
    && o.order.eventId in EventIds(events)
    && o.order.key == ComputeIdempotencyKey(o.order.eventId, o.order.strategyId)
  }

  predicate SoundEvents(tweets: seq<Tweet>, decisions: seq<DecisionRow>, events: seq<EventRow>) {
    && (forall d :: d in decisions ==> TweetRef(tweets, d.rawTweetId))
    && Distinct(EventIds(events))
    && (forall e :: e in events ==> EventOk(tweets, decisions, e))
  }

  predicate SoundRows(events: seq<EventRow>, rows: seq<EvalRow>) {
    forall r :: r in rows ==> r.eventId in EventIds(events)
  }

  predicate SoundOrders(events: seq<EventRow>, orders: seq<OrderRow>) {
    forall o :: o in orders ==> OrderOk(events, o)
  }

  predicate SoundFills(orders: seq<OrderRow>, fills: seq<FillRow>) {
    && (forall f :: f in fills ==> 1 <= f.orderId <= |orders|)
    && (forall i, j :: 0 <= i < j < |fills| ==> fills[i].externalFillId != fills[j].externalFillId)
  }

  predicate SoundTables(db: Db) {
    && Distinct(TweetIds(db.tweets))
    && SoundEvents(db.tweets, db.decisions, db.events)
    && SoundRows(db.events, db.evals)
    && SoundOrders(db.events, db.orders)
    && SoundFills(db.orders, db.fills)
  }

  // ---- What the workers hold in their sessions ----

  predicate SoundIngest(tweets: seq<Tweet>, pc: IngestPc) {
    pc.ICommit? ==> pc.tweet.tweetId !in TweetIds(tweets)
  }

  predicate PendingEventOk(tweets: seq<Tweet>, decisions: seq<DecisionRow>, row: DecisionRow, e: EventRow) {
    && e.rawTweetId == row.rawTweetId && e.decisionId == |decisions| + 1 && Repeats(e, row.decision)
    && TweetRef(tweets, row.rawTweetId)
    && e.eventId == BuildEventId(tweets[row.rawTweetId - 1].tweetId, e.ticker)
  }

  predicate SoundLlm(tweets: seq<Tweet>, decisions: seq<DecisionRow>, events: seq<EventRow>, pc: LlmPc) {
    pc.LCommit? ==>
      && TweetRef(tweets, pc.row.rawTweetId)
      && Distinct(EventIds(events) + EventIds(pc.added))
      && forall e :: e in pc.added ==> PendingEventOk(tweets, decisions, pc.row, e)
  }

  predicate SoundWork(events: seq<EventRow>, w: Work) {
    w.order.eventId in EventIds(events) && SoundRows(events, w.rows)
  }

  predicate SoundRule(events: seq<EventRow>, pc: RulePc) {
    match pc
    case RContext(w) => SoundWork(events, w)
    case RGate(w, _, _) => SoundWork(events, w)
    case RValidate(w, _) => SoundWork(events, w)
    case RPlace(w, _) => SoundWork(events, w)
    case RRecord(w, _) => SoundWork(events, w)
    case RCommit(b) => SoundRows(events, b.rows) && (b.submitted.Some? ==> OrderOk(events, b.submitted.value.1))
    case _ => true
  }

  predicate Sound(s: Sys) {
    && SoundTables(s.db)
    && SoundIngest(s.db.tweets, s.ingest)
    && SoundLlm(s.db.tweets, s.db.decisions, s.db.events, s.llm)
    && SoundRule(s.db.events, s.rule)
  }

  // ---- Tables only grow, so references stay good ----

  predicate Grows(db: Db, db': Db) {
    && db.tweets <= db'.tweets && db.decisions <= db'.decisions && db.events <= db'.events
    && db.evals <= db'.evals && db.orders <= db'.orders && db.fills <= db'.fills && db.switchLog <= db'.switchLog
  }

  /** Every step only appends to the tables. */
  lemma RuleGrows(c: Config, s: Sys, input: RuleInput)
    ensures Grows(s.db, RuleStep(c, s, input).db)
  {
    if !s.rule.RCommit? { RuleTablesFrame(c, s, input); }
  }

  lemma LlmGrows(c: Config, s: Sys, input: LlmInput)
    ensures Grows(s.db, LlmStep(c, s, input).db)
  {
  }

  lemma IngestGrows(c: Config, s: Sys, input: IngestInput)
    ensures Grows(s.db, IngestStep(c, s, input).db)
  {
  }

  lemma OutsideGrows(c: Config, s: Sys, step: Step)
    requires Outside(step)
    ensures Grows(s.db, Exec(c, s, step).db)
  {
  }

  lemma TablesGrow(c: Config, s: Sys, step: Step)
    ensures Grows(s.db, Exec(c, s, step).db)
  {
    match step {
      case Ingest(input) => IngestGrows(c, s, input);
      case Analyze(input) => LlmGrows(c, s, input);
      case Trade(input) => RuleGrows(c, s, input);
      case _ => OutsideGrows(c, s, step);
    }
  }

  lemma SoundEventsGrow(tweets: seq<Tweet>, decisions: seq<DecisionRow>, events: seq<EventRow>, more: seq<Tweet>)
    requires SoundEvents(tweets, decisions, events)
    ensures SoundEvents(tweets + more, decisions, events)
  {
    forall e | e in events ensures EventOk(tweets + more, decisions, e) {
      assert EventOk(tweets, decisions, e);
    }
  }

  lemma EventNamesStay(events: seq<EventRow>, more: seq<EventRow>, evals: seq<EvalRow>, orders: seq<OrderRow>, pc: RulePc)
    requires SoundRows(events, evals) && SoundOrders(events, orders) && SoundRule(events, pc)
    ensures SoundRows(events + more, evals) && SoundOrders(events + more, orders) && SoundRule(events + more, pc)
  {
    EventIdsAppend(events, more);
    forall o | o in orders ensures OrderOk(events + more, o) {
      assert OrderOk(events, o);
    }
  }

  // ---- Steps keep the invariant ----

  lemma IngestKeepsSound(c: Config, s: Sys, input: IngestInput)
    requires Sound(s)
    ensures Sound(IngestStep(c, s, input))
  {
    if s.ingest.ICommit? {
      var t := s.ingest.tweet;
      assert TweetIds(s.db.tweets + [t]) == TweetIds(s.db.tweets) + [t.tweetId];
      DistinctAppend(TweetIds(s.db.tweets), t.tweetId);
      SoundEventsGrow(s.db.tweets, s.db.decisions, s.db.events, [t]);
    }
  }

  lemma {:induction false} FreshEventsSound(
      tweet: Tweet, rawId: int, decisionId: int, decision: Decision, tickers: seq<string>, existing: seq<string>)
    requires StrictlySorted(tickers)
    ensures var added := FreshEvents(tweet, rawId, decisionId, decision, tickers, existing);
            && Distinct(EventIds(added))
            && forall e :: e in added ==>
                 && e.rawTweetId == rawId && e.decisionId == decisionId && e.ticker in tickers
                 && e.intent == decision.intent && e.confidence == decision.confidence && e.horizon == decision.horizon
                 && e.eventId == BuildEventId(tweet.tweetId, e.ticker) && e.eventId !in existing
  {
    if tickers != [] {
      assert tickers == [tickers[0]] + tickers[1..];
      FreshEventsSound(tweet, rawId, decisionId, decision, tickers[1..], existing);
      var rest := FreshEvents(tweet, rawId, decisionId, decision, tickers[1..], existing);
      var added := FreshEvents(tweet, rawId, decisionId, decision, tickers, existing);
      if added != rest {
        forall i | 0 <= i < |rest| ensures rest[i].eventId != added[0].eventId {
          assert rest[i] in rest;
          TailMember(tickers, rest[i].ticker);
          EventIdSameTweet(tweet.tweetId, tickers[0], rest[i].ticker);
        }
      }
    }
  }

  lemma LlmKeepsSound(c: Config, s: Sys, input: LlmInput)
    requires Sound(s)
    ensures Sound(LlmStep(c, s, input))
  {
    if s.llm.LLoad? && TweetRef(s.db.tweets, s.llm.id) {
      var d := input.analysis.decision;
      TickersSorted(d, input.aliases);
      FreshEventsSound(s.db.tweets[s.llm.id - 1], s.llm.id, |s.db.decisions| + 1, d,
                       TickersOf(d, input.aliases), EventIds(s.db.events));
      var added := LlmStep(c, s, input).llm.added;
      assert forall i :: 0 <= i < |added| ==> added[i] in added;
    } else if s.llm.LCommit? {
      CommitKeepsSound(s.db, s.llm.row, s.llm.added);
      EventNamesStay(s.db.events, s.llm.added, s.db.evals, s.db.orders, s.rule);
    }
  }

  lemma CommitKeepsSound(db: Db, row: DecisionRow, added: seq<EventRow>)
    requires SoundTables(db) && SoundLlm(db.tweets, db.decisions, db.events, LCommit(row, added))
    ensures SoundEvents(db.tweets, db.decisions + [row], db.events + added)
  {
    EventIdsAppend(db.events, added);
    forall e | e in db.events + added ensures EventOk(db.tweets, db.decisions + [row], e) {
      if e in db.events {
        assert EventOk(db.tweets, db.decisions, e);
      } else {
        assert PendingEventOk(db.tweets, db.decisions, row, e);
      }
    }
  }

  lemma LoadKeepsSound(c: Config, s: Sys, input: RuleInput)
    requires s.rule.RLoad?
    ensures SoundRule(s.db.events, RuleStep(c, s, input).rule)
  {
    var found := FindEvent(s.db.events, s.rule.eventId);
    if found.Some? {
      MatchedOrderEvent(Canonical(input.rules), found.value, c.parse);
    }
  }

  lemma ValidateKeepsSound(c: Config, s: Sys, input: RuleInput)
    requires s.rule.RValidate? && SoundRule(s.db.events, s.rule)
    ensures SoundRule(s.db.events, RuleStep(c, s, input).rule)
  {
    var w, checks := s.rule.work, RunChecks(CanonicalRules(c.limits, c.isOpen), s.rule.work.order, s.rule.ctx);
    assert SoundRows(s.db.events, w.rows + AuditRows(w.order, checks));
  }

  lemma WorkKeepsSound(c: Config, s: Sys, input: RuleInput)
    requires !s.rule.RCommit? && SoundRule(s.db.events, s.rule)
    ensures SoundRule(s.db.events, RuleStep(c, s, input).rule)
  {
    if s.rule.RLoad? {
      LoadKeepsSound(c, s, input);
    } else if s.rule.RValidate? {
      ValidateKeepsSound(c, s, input);
    }
  }

  lemma RuleKeepsSound(c: Config, s: Sys, input: RuleInput)
    requires Sound(s)
    ensures Sound(RuleStep(c, s, input))
  {
    RuleFrame(c, s, input);
    if !s.rule.RCommit? {
      WorkKeepsSound(c, s, input);
      RuleTablesFrame(c, s, input);
    }
  }

  lemma {:induction false} MatchedOrderEvent(rules: seq<RuleSpec>, event: EventRow, parse: FloatParser)
    ensures var out := EvaluateInOrder(rules, event, parse);
            out.matched.Some? ==> out.matched.value.proposed.Some? && out.matched.value.proposed.value.eventId == event.eventId
  {
    if rules != [] { MatchedOrderEvent(rules[..|rules| - 1], event, parse); }
  }

  lemma OutsideKeepsSound(c: Config, s: Sys, step: Step)
    requires Outside(step) && Sound(s)
    ensures Sound(Exec(c, s, step))
  {
    OutsideFrame(c, s, step);
  }

  lemma StepKeepsSound(c: Config, s: Sys, step: Step)
    requires Sound(s)
    ensures Sound(Exec(c, s, step))
  {
    match step {
      case Ingest(input) => IngestKeepsSound(c, s, input);
      case Analyze(input) => LlmKeepsSound(c, s, input);
      case Trade(input) => RuleKeepsSound(c, s, input);
      case _ => OutsideKeepsSound(c, s, step);
    }
  }

  lemma {:induction false} RunKeepsSound(c: Config, s: Sys, steps: seq<Step>)
    requires Sound(s)
    ensures Sound(Run(c, s, steps))
  {
    if steps != [] {
      RunKeepsSound(c, s, steps[..|steps| - 1]);
      StepKeepsSound(c, Run(c, s, steps[..|steps| - 1]), steps[|steps| - 1]);
    }
  }

  /** In every reachable state every reference names a committed row, event ids and tweet ids are
      unique, and each event carries the tweet id and ticker it was derived from. */
  lemma ReachableTablesSound(c: Config, s: Sys)
    requires Reachable(c, s)
    ensures SoundTables(s.db)
  {
    var s0: Sys, steps: seq<Step> :| Init(s0) && Run(c, s0, steps) == s;
    RunKeepsSound(c, s0, steps);
  }

  /** The tables are append-only over a whole run: no row is changed or removed. */
  lemma {:induction false} RunTablesGrow(c: Config, s: Sys, steps: seq<Step>)
    ensures Grows(s.db, Run(c, s, steps).db)
  {
    if steps != [] {
      RunTablesGrow(c, s, steps[..|steps| - 1]);
      TablesGrow(c, Run(c, s, steps[..|steps| - 1]), steps[|steps| - 1]);
    }
  }
}
