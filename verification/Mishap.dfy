/** A run without a crash in which a placed order loses its row: one tweet, one analysis, and one rule that asks
    for a limit order without a limit price. The rule passes the bounds of the rule schema. */
module Mishap {
  import opened Basics
  import opened Records
  import opened Keys
  import opened Aliases
  import opened Rules
  import opened Risk
  import opened Protocol
  import opened Losses

  // Some run of rule-crash-free steps, with rules that pass the schema, leads from a to b
  ghost predicate Leads(c: Config, a: Sys, b: Sys) {
    exists steps: seq<Step> :: NoRuleCrash(steps) && SchemaValid(steps) && Run(c, a, steps) == b
  }

  predicate Harmless(step: Step) {
    !step.RuleCrash? && (step.Trade? ==> forall r :: r in step.ruleInput.rules ==> WellFormed(r))
  }

  lemma Go(c: Config, a: Sys, b: Sys, step: Step) returns (next: Sys)
    requires Leads(c, a, b) && Harmless(step)
    ensures next == Exec(c, b, step) && Leads(c, a, next)
  {
    var steps: seq<Step> :| NoRuleCrash(steps) && SchemaValid(steps) && Run(c, a, steps) == b;
    Append(c, a, steps, step);
    next := Exec(c, b, step);
  }

  lemma Append(c: Config, a: Sys, steps: seq<Step>, step: Step)
    requires NoRuleCrash(steps) && SchemaValid(steps) && Harmless(step)
    ensures Leads(c, a, Exec(c, Run(c, a, steps), step))
  {
    var more := steps + [step];
    assert more[..|steps|] == steps && more[|steps|] == step;
    assert NoRuleCrash(more) && SchemaValid(more);
    assert Run(c, a, more) == Exec(c, Run(c, a, steps), step);
  }

  lemma Start(c: Config, a: Sys)
    ensures Leads(c, a, a)
  {
    assert NoRuleCrash([]) && SchemaValid([]) && Run(c, a, []) == a;
  }

  // ---- The inputs ----

  const BullishIntent := Condition(IntentField, Eq, Text("bullish"))

  // A limit order without a limit price
  const Unpriced := RuleSpec("r", 0, true, [BullishIntent], Action(Paper, Buy, OrderType.Limit, 1, None, 1.0, "s"))

  const Post := Tweet("1", "u", "buy", 0)

  const Verdict := Decision(["A"], Bullish, 1.0, Swing, 0.0)

  const Found := EventRow("1:A", 1, 1, "A", Bullish, 1.0, Swing)

  const Account := BrokerSnapshot(100.0, [])

  const Asked := ProposedOrder("1:A", "s", Paper, Buy, OrderType.Limit, "A", 1, None, 1.0)

  // The switch reads off on every source but perhaps the environment
  predicate Calm(s: Sys) { !s.redis.flag && !LatestActivated(s.db.switchLog) }

  lemma TickerShape()
    ensures Upper(Bare("A")) == "A" && LooksLikeTicker("A")
  {
    assert Bare("A") == "A" && Upper("A") == "A";
  }

  lemma TickerResolves()
    ensures ResolveOne("A", []) == Some("A")
  {
    TickerShape();
    assert Chosen([], Normalize("A")).None?;
  }

  lemma OneResolved()
    ensures ResolveEach(["A"], []) == ["A"]
  {
    TickerResolves();
    OneMention("A", []);
  }

  lemma OneTicker()
    ensures ResolveTickers(["A"], []) == ["A"]
  {
    NothingFetched(["A"]);
    OneResolved();
    OneSorted("A");
  }

  lemma NothingFetched(mentions: seq<string>)
    ensures Fetched(mentions, []) == []
  {
  }

  lemma UnpricedMatches(parse: FloatParser)
    ensures Evaluate([Unpriced], Found, parse).matched == Some(MatchRecord(Unpriced, Found))
    ensures BuildProposedOrder(Unpriced, Found) == Asked && WellFormed(Unpriced) && !RuleFits(Unpriced)
  {
    assert Check(BullishIntent, Found, parse) == Some(true);
    AllHoldIff(Unpriced.conditions, Found, parse);
    assert Fires(Unpriced, Found, parse);
    StringLeRefl("r");
    assert Best([Unpriced], Found, parse, Unpriced);
    MatchIsBest([Unpriced], Found, parse, Unpriced);
  }

  // ---- The ingestion worker stores and queues the tweet ----

  function Reading(tweet: Tweet): Step { Ingest(IngestInput(tweet, false)) }

  lemma IngestReads(c: Config, s: Sys, read: Read)
    requires Calm(s) && s.ingest == ICheck(Post, read)
    ensures Exec(c, s, Reading(Post)) ==
              s.(ingest := match read
                           case ReadEnv => ICheck(Post, ReadFlag)
                           case ReadFlag => ICheck(Post, ReadLog)
                           case ReadLog => IInsert(Post))
  {
  }

  lemma IngestWrites(c: Config, s: Sys)
    requires s.db.tweets == [] && s.redis.tweetQueue == []
    ensures s.ingest == IWait ==>
              Exec(c, s, Reading(Post)) == s.(ingest := ICheck(Post, ReadEnv), hist := s.hist.(received := s.hist.received + [Post]))
    ensures s.ingest == IInsert(Post) ==> Exec(c, s, Reading(Post)) == s.(ingest := ICommit(Post))
    ensures s.ingest == ICommit(Post) ==> Exec(c, s, Reading(Post)) == s.(db := s.db.(tweets := [Post]), ingest := IPublish(1))
  {
  }

  lemma IngestPublishes(c: Config, s: Sys)
    requires s.ingest == IPublish(1) && s.redis.tweetQueue == []
    ensures Exec(c, s, Reading(Post)) == s.(redis := s.redis.(tweetQueue := [1]), ingest := ICharge)
  {
  }

  // The system after the tweet was queued
  predicate Stored(s: Sys) {
    && s.db == Db([Post], [], [], [], [], [], []) && s.redis.tweetQueue == [1] && s.redis.eventQueue == [] && !s.redis.flag
    && s.llm == LCheck(ReadEnv) && s.rule == RCheck(ReadEnv) && s.placed == [] && s.hist.lost == []
  }

  lemma StorePost(c: Config, s0: Sys) returns (s: Sys)
    requires Init(s0)
    ensures Leads(c, s0, s) && Stored(s)
  {
    s := s0;
    Start(c, s0);
    IngestWrites(c, s); s := Go(c, s0, s, Reading(Post));
    IngestReads(c, s, ReadEnv); s := Go(c, s0, s, Reading(Post));
    IngestReads(c, s, ReadFlag); s := Go(c, s0, s, Reading(Post));
    IngestReads(c, s, ReadLog); s := Go(c, s0, s, Reading(Post));
    IngestWrites(c, s); s := Go(c, s0, s, Reading(Post));
    IngestWrites(c, s); s := Go(c, s0, s, Reading(Post));
    IngestPublishes(c, s); s := Go(c, s0, s, Reading(Post));
  }

  // ---- The LLM worker turns it into one event ----

  function Analysing(): Step { Analyze(LlmInput(false, Analysis(Verdict, Success), [])) }

  lemma LlmReads(c: Config, s: Sys, read: Read)
    requires Calm(s) && s.llm == LCheck(read)
    ensures Exec(c, s, Analysing()) ==
              s.(llm := match read
                        case ReadEnv => LCheck(ReadFlag)
                        case ReadFlag => LCheck(ReadLog)
                        case ReadLog => LPop)
  {
  }

  lemma LlmPops(c: Config, s: Sys)
    requires s.llm == LPop && s.redis.tweetQueue == [1]
    ensures Exec(c, s, Analysing()) ==
              s.(redis := s.redis.(tweetQueue := []), llm := LLoad(1), hist := s.hist.(tweetPops := s.hist.tweetPops + [1]))
  {
  }

  lemma OneEvent()
    ensures FreshEvents(Post, 1, 1, Verdict, ["A"], []) == [Found]
  {
    assert ["A"][1..] == [] && BuildEventId("1", "A") == "1:A";
    assert FreshEvents(Post, 1, 1, Verdict, [], []) == [];
  }

  lemma VerdictTickers()
    ensures TickersOf(Verdict, []) == ["A"]
  {
    OneTicker();
  }

  lemma LlmLoadsFor(c: Config, s: Sys, tickers: seq<string>)
    requires s.llm == LLoad(1) && s.db.tweets == [Post] && tickers == TickersOf(Verdict, [])
    ensures Exec(c, s, Analysing()) == Loaded(s, 1, Analysis(Verdict, Success), tickers)
  {
  }

  lemma LoadedOne(s: Sys)
    requires s.db.tweets == [Post] && s.db.decisions == [] && s.db.events == []
    ensures Loaded(s, 1, Analysis(Verdict, Success), ["A"]) == s.(llm := LCommit(DecisionRow(1, Verdict, Success), [Found]))
  {
    OneEvent();
    assert EventIds([]) == [];
  }

  lemma LlmLoads(c: Config, s: Sys)
    requires s.llm == LLoad(1) && s.db.tweets == [Post] && s.db.decisions == [] && s.db.events == []
    ensures Exec(c, s, Analysing()) == s.(llm := LCommit(DecisionRow(1, Verdict, Success), [Found]))
  {
    VerdictTickers();
    LlmLoadsFor(c, s, ["A"]);
    LoadedOne(s);
  }

  lemma LlmCommits(c: Config, s: Sys)
    requires s.llm == LCommit(DecisionRow(1, Verdict, Success), [Found]) && s.db.decisions == [] && s.db.events == []
    ensures Exec(c, s, Analysing()) ==
              s.(db := s.db.(decisions := [DecisionRow(1, Verdict, Success)], events := [Found]), llm := LPublish(["1:A"], 0.0))
  {
    assert EventIds([Found]) == ["1:A"];
  }

  lemma LlmPublishes(c: Config, s: Sys)
    requires s.llm == LPublish(["1:A"], 0.0) && s.redis.eventQueue == []
    ensures var s' := Exec(c, s, Analysing());
            s'.redis == s.redis.(eventQueue := ["1:A"]) && s'.db == s.db && s'.rule == s.rule
            && s'.placed == s.placed && s'.hist.lost == s.hist.lost && s'.tx == s.tx
  {
  }

  // The system after the event was queued
  predicate Queued(s: Sys) {
    && s.db.events == [Found] && s.db.orders == [] && s.db.switchLog == []
    && s.redis.eventQueue == ["1:A"] && !s.redis.flag
    && s.rule == RCheck(ReadEnv) && s.placed == [] && s.hist.lost == []
  }

  lemma QueueEvent(c: Config, s0: Sys, stored: Sys) returns (s: Sys)
    requires Leads(c, s0, stored) && Stored(stored)
    ensures Leads(c, s0, s) && Queued(s)
  {
    s := stored;
    LlmReads(c, s, ReadEnv); s := Go(c, s0, s, Analysing());
    LlmReads(c, s, ReadFlag); s := Go(c, s0, s, Analysing());
    LlmReads(c, s, ReadLog); s := Go(c, s0, s, Analysing());
    LlmPops(c, s); s := Go(c, s0, s, Analysing());
    LlmLoads(c, s); s := Go(c, s0, s, Analysing());
    LlmCommits(c, s); s := Go(c, s0, s, Analysing());
    LlmPublishes(c, s); s := Go(c, s0, s, Analysing());
  }

  // ---- The rule worker places the order and loses its row ----

  function Trading(): Step { Trade(RuleInput(false, [Unpriced], Account)) }

  lemma RuleReads(c: Config, s: Sys, read: Read)
    requires Calm(s) && s.rule == RCheck(read)
    ensures Exec(c, s, Trading()) ==
              s.(rule := match read
                         case ReadEnv => RCheck(ReadFlag)
                         case ReadFlag => RCheck(ReadLog)
                         case ReadLog => RPop)
  {
  }

  lemma RulePops(c: Config, s: Sys)
    requires s.rule == RPop && s.redis.eventQueue == ["1:A"]
    ensures Exec(c, s, Trading()) ==
              s.(redis := s.redis.(eventQueue := []), rule := RLoad("1:A"), hist := s.hist.(eventPops := s.hist.eventPops + ["1:A"]))
  {
  }

  lemma RuleLoads(c: Config, s: Sys)
    requires s.rule == RLoad("1:A") && s.db.events == [Found]
    ensures var s' := Exec(c, s, Trading());
            s'.rule.RContext? && s'.rule.work.order == Asked && s' == s.(rule := s'.rule)
  {
    UnpricedMatches(c.parse);
    assert FindEvent([Found], "1:A") == Some(Found);
  }

  // The limits of the run: one trade a day, no limit on its size, any hour
  predicate Generous(c: Config) {
    && c.limits == Limits(100.0, 100.0, 1, 100.0, true)
  }

  const Seen := Context(0, 100.0, 0.0, 0, 0.0, 100.0, {}, {})

  lemma RuleReadsAccount(c: Config, s: Sys)
    requires s.rule.RContext? && s.db.orders == []
    ensures Exec(c, s, Trading()) == s.(rule := RGate(s.rule.work, Seen.(now := s.clock), ReadEnv),
                                        hist := s.hist.(accounts := s.hist.accounts + [100.0]))
  {
    FirstContext(s.clock);
  }

  lemma FirstContext(now: int)
    ensures BuildContext(Account, [], now) == Some(Seen.(now := now))
  {
    assert OrderEvents([]) == [] && OrderKeys([]) == [];
    assert (set id | id in OrderEvents([])) == {} && (set key | key in OrderKeys([])) == {};
  }

  lemma RuleGates(c: Config, s: Sys)
    requires Calm(s) && s.rule.RGate?
    ensures Exec(c, s, Trading()) ==
              s.(rule := match s.rule.read
                         case ReadEnv => RGate(s.rule.work, s.rule.ctx, ReadFlag)
                         case ReadFlag => RGate(s.rule.work, s.rule.ctx, ReadLog)
                         case ReadLog => RValidate(s.rule.work, s.rule.ctx))
  {
  }

  lemma AskedApproved(c: Config, now: int)
    requires Generous(c)
    ensures Approved(c.limits, c.isOpen, Asked, Seen.(now := now))
  {
    ApprovedIff(c.limits, c.isOpen, Asked, Seen.(now := now));
  }

  lemma RuleValidates(c: Config, s: Sys)
    requires Generous(c) && s.rule.RValidate? && s.rule.work.order == Asked && s.rule.ctx == Seen.(now := s.rule.ctx.now)
    ensures var s' := Exec(c, s, Trading());
            s'.rule.RPlace? && s'.rule.work.order == Asked && s' == s.(rule := s'.rule)
  {
    AskedApproved(c, s.rule.ctx.now);
  }

  lemma RulePlaces(c: Config, s: Sys)
    requires s.rule.RPlace? && s.rule.work.order == Asked
    ensures var s' := Exec(c, s, Trading());
            && s'.rule.RRecord? && s'.rule.work.order == Asked
            && s' == s.(rule := s'.rule, placed := s.placed + [ToValidated(Asked)])
  {
  }

  lemma RuleLoses(c: Config, s: Sys)
    requires s.rule.RRecord? && s.rule.work.order == Asked
    ensures var s' := Exec(c, s, Trading());
            s'.hist.lost == s.hist.lost + ["1:A"] && s'.placed == s.placed && s'.db == s.db
  {
  }

  lemma PlaceAndLose(c: Config, s0: Sys, queued: Sys) returns (s: Sys)
    requires Generous(c) && Leads(c, s0, queued) && Queued(queued)
    ensures Leads(c, s0, s) && s.hist.lost == ["1:A"] && s.placed == [ToValidated(Asked)] && s.db.orders == []
  {
    UnpricedMatches(c.parse);
    s := queued;
    RuleReads(c, s, ReadEnv); s := Go(c, s0, s, Trading());
    RuleReads(c, s, ReadFlag); s := Go(c, s0, s, Trading());
    RuleReads(c, s, ReadLog); s := Go(c, s0, s, Trading());
    RulePops(c, s); s := Go(c, s0, s, Trading());
    RuleLoads(c, s); s := Go(c, s0, s, Trading());
    RuleReadsAccount(c, s); s := Go(c, s0, s, Trading());
    RuleGates(c, s); s := Go(c, s0, s, Trading());
    RuleGates(c, s); s := Go(c, s0, s, Trading());
    RuleGates(c, s); s := Go(c, s0, s, Trading());
    RuleValidates(c, s); s := Go(c, s0, s, Trading());
    RulePlaces(c, s); s := Go(c, s0, s, Trading());
    RuleLoses(c, s); s := Go(c, s0, s, Trading());
  }

  /** A run from the empty system, with no crash of the rule worker and one schema-valid rule that asks for a
      limit order without a limit price: the order is at the broker, it passed every gate, and no row of the
      orders table shows it. */
  lemma UnpricedLimitOrderLosesItsRow(c: Config, s0: Sys) returns (steps: seq<Step>)
    requires Init(s0) && Generous(c)
    ensures NoRuleCrash(steps) && SchemaValid(steps)
    ensures var s := Run(c, s0, steps);
            && s.placed == [ValidatedOrder("1:A:s", "1:A", "s", Paper, Buy, OrderType.Limit, "A", 1, None)]
            && s.hist.lost == ["1:A"] && s.db.orders == []
  {
    var stored := StorePost(c, s0);
    var queued := QueueEvent(c, s0, stored);
    var s := PlaceAndLose(c, s0, queued);
    steps :| NoRuleCrash(steps) && SchemaValid(steps) && Run(c, s0, steps) == s;
    assert ToValidated(Asked) == ValidatedOrder("1:A:s", "1:A", "s", Paper, Buy, OrderType.Limit, "A", 1, None);
  }
}
