/** The LLM worker's loop (backend/services/llm_pipeline.py): pop, analyse, commit, publish, charge. */
module LlmPipeline {
  import opened Basics
  import opened Records
  import opened Keys
  import opened Aliases
  import opened Protocol
  import opened Analyses
  import opened Worlds
  import opened KillSwitch
  import opened Trackers

  datatype StopReason = SwitchActive(source: Source) | BudgetBreached(spend: real)

  datatype LlmReport = LlmReport(analyzed: nat, invalidJson: nat, eventsPublished: nat, stopped: Option<StopReason>)

  function CountInvalid(rows: seq<DecisionRow>): nat {
    if rows == [] then 0
    else CountInvalid(rows[..|rows| - 1]) + if rows[|rows| - 1].status == InvalidJson then 1 else 0
  }

  /** The count of invalid answers is the number of rows with that status. */
  lemma {:induction false} CountInvalidIs(rows: seq<DecisionRow>, k: nat)
    requires k <= |rows|
    ensures CountInvalid(rows[..k]) == |InvalidRows(rows, k)|
  {
    if k > 0 {
      CountInvalidIs(rows, k - 1);
      assert rows[..k][..k - 1] == rows[..k - 1];
      if rows[k - 1].status == InvalidJson {
        assert InvalidRows(rows, k) == InvalidRows(rows, k - 1) + {k - 1};
      } else {
        assert InvalidRows(rows, k) == InvalidRows(rows, k - 1);
      }
    }
  }

  ghost function InvalidRows(rows: seq<DecisionRow>, k: nat): set<int>
    requires k <= |rows|
  {
    set i | 0 <= i < k && rows[i].status == InvalidJson
  }

  // Analyses left a decision row, published ids left an event row and stand in the queue
  ghost predicate Tallied(was: Sys, now: Sys, analyzed: nat, invalidJson: nat, published: nat) {
    && |now.db.decisions| == |was.db.decisions| + analyzed
    && CountInvalid(now.db.decisions) == CountInvalid(was.db.decisions) + invalidJson
    && |now.db.events| == |was.db.events| + published
    && |now.hist.eventPushes| == |was.hist.eventPushes| + published
    && |now.redis.eventQueue| == |was.redis.eventQueue| + published
    && |now.redis.tweetQueue| + |now.hist.tweetPops| == |was.redis.tweetQueue| + |was.hist.tweetPops|
    && now.db.tweets == was.db.tweets
  }

  lemma TalliesAdd(a: Sys, b: Sys, c: Sys, n: nat, i: nat, p: nat, n': nat, i': nat, p': nat)
    requires Tallied(a, b, n, i, p) && Tallied(b, c, n', i', p')
    ensures Tallied(a, c, n + n', i + i', p + p')
  {
  }

  predicate NamesTweets(queue: seq<int>, tweets: seq<Tweet>) {
    forall id :: id in queue ==> 1 <= id <= |tweets|
  }

  lemma NamesTail(queue: seq<int>, tweets: seq<Tweet>)
    requires queue != []
    ensures NamesTweets(queue, tweets) <==> 1 <= queue[0] <= |tweets| && NamesTweets(queue[1..], tweets)
  {
    assert queue[0] in queue && forall id :: id in queue[1..] ==> id in queue;
    forall id | id in queue && id !in queue[1..] ensures id == queue[0] {
      assert queue == [queue[0]] + queue[1..];
    }
  }

  ghost predicate AtTop(w: World)
    reads w
  {
    w.Valid() && w.actor.Analyst? && w.tx.None? && w.sys.llm == LCheck(ReadEnv)
  }

  method CheckSwitch(w: World) returns (state: SwitchState)
    requires AtTop(w)
    modifies w`sys
    ensures w.Valid() && w.sys == old(w.sys).(llm := if state.active then LStopped else LPop)
  {
    var service := new KillSwitchService(w);
    var env: Option<string> := *;
    state := service.IsActive(env);
    ReadCheck(w, ReadEnv, EnvOn(env));
  }

  ghost method ReadCheck(w: World, read: Read, envOn: bool)
    requires w.Valid() && w.actor.Analyst? && w.sys.llm == LCheck(read)
    requires (read.ReadFlag? || read.ReadLog? ==> !envOn) && (read.ReadLog? ==> !w.redis.flag)
    modifies w`sys
    ensures w.Valid()
    ensures w.sys == old(w.sys).(llm := if SwitchOn(w.redis, w.db.switchLog, envOn) then LStopped else LPop)
    decreases match read case ReadEnv => 2 case ReadFlag => 1 case ReadLog => 0
  {
    w.Do(Analyze(NoAnalysis().(envOn := envOn)));
    if read.ReadEnv? && !envOn {
      ReadCheck(w, ReadFlag, envOn);
    } else if read.ReadFlag? && !w.redis.flag {
      ReadCheck(w, ReadLog, envOn);
    }
  }

  method Pop(w: World) returns (raw: Option<int>)
    requires w.Valid() && w.actor.Analyst? && w.sys.llm == LPop
    modifies w`redis, w`sys
    ensures w.Valid() && (raw.None? <==> old(w.redis.tweetQueue) == [])
    ensures raw.None? ==> w.sys == old(w.sys).(llm := LCheck(ReadEnv))
    ensures raw.Some? ==>
      var queue := old(w.redis.tweetQueue);
      && raw.value == queue[0]
      && w.sys == old(w.sys).(redis := old(w.redis).(tweetQueue := queue[1..]), llm := LLoad(queue[0]),
                              hist := old(w.sys.hist).(tweetPops := old(w.sys.hist.tweetPops) + [queue[0]]))
  {
    var queue := w.redis.tweetQueue;
    if queue == [] {
      raw := None;
    } else {
      raw := Some(queue[0]);
      w.redis := w.redis.(tweetQueue := queue[1..]);
    }
    w.Do(Analyze(NoAnalysis()));
  }

  // Rows added for the tickers of one tweet
  predicate OwnRows(tweetId: string, tickers: seq<string>, rows: seq<EventRow>) {
    forall e :: e in rows ==> e.eventId == BuildEventId(tweetId, e.ticker) && e.ticker in tickers
  }

  /** One row per resolved ticker whose event is not there yet. The lookup also sees the rows the session
      has already added; distinct tickers keep it from ever finding one of those. */
  method FanOut(tweet: Tweet, rawId: int, decisionId: int, decision: Decision, tickers: seq<string>, existing: seq<string>)
    returns (added: seq<EventRow>)
    requires StrictlySorted(tickers)
    ensures added == FreshEvents(tweet, rawId, decisionId, decision, tickers, existing)
  {
    added := [];
    for i := 0 to |tickers|
      invariant added + FreshEvents(tweet, rawId, decisionId, decision, tickers[i..], existing)
             == FreshEvents(tweet, rawId, decisionId, decision, tickers, existing)
      invariant OwnRows(tweet.tweetId, tickers[..i], added)
    {
      var id := BuildEventId(tweet.tweetId, tickers[i]);
      NotYetAdded(tweet.tweetId, tickers, i, added);
      FreshEventsAt(tweet, rawId, decisionId, decision, tickers, i, existing);
      if id in existing || id in EventIds(added) {
        continue;
      }
      added := added + [EventRow(id, rawId, decisionId, tickers[i], decision.intent, decision.confidence, decision.horizon)];
    }
  }

  lemma FreshEventsAt(tweet: Tweet, rawId: int, decisionId: int, decision: Decision, tickers: seq<string>, i: nat, existing: seq<string>)
    requires i < |tickers|
    ensures var id := BuildEventId(tweet.tweetId, tickers[i]);
            FreshEvents(tweet, rawId, decisionId, decision, tickers[i..], existing) ==
              (if id in existing then []
               else [EventRow(id, rawId, decisionId, tickers[i], decision.intent, decision.confidence, decision.horizon)])
              + FreshEvents(tweet, rawId, decisionId, decision, tickers[i + 1..], existing)
  {
    assert tickers[i..][0] == tickers[i] && tickers[i..][1..] == tickers[i + 1..];
  }

  lemma NotYetAdded(tweetId: string, tickers: seq<string>, i: nat, added: seq<EventRow>)
    requires i < |tickers| && StrictlySorted(tickers) && OwnRows(tweetId, tickers[..i], added)
    ensures BuildEventId(tweetId, tickers[i]) !in EventIds(added)
    ensures OwnRows(tweetId, tickers[..i + 1], added)
  {
    assert tickers[..i + 1] == tickers[..i] + [tickers[i]];
    if k :| 0 <= k < |added| && EventIds(added)[k] == BuildEventId(tweetId, tickers[i]) {
      assert added[k] in added;
      EventIdSameTweet(tweetId, added[k].ticker, tickers[i]);
    }
  }

  /** Loads the tweet and fills the session with the provider's result: the decision row, and an event for each
      resolved ticker of a verdict that is not noise, unless it is there; None when the id names no tweet. */
  method Analyse(w: World, id: int, result: Analysis, aliases: seq<AliasRow>) returns (r: Option<(DecisionRow, seq<EventRow>)>)
    requires w.Valid() && w.actor.Analyst? && w.sys.llm == LLoad(id)
    modifies w`sys
    ensures w.Valid() && (r.None? <==> !(1 <= id <= |w.db.tweets|))
    ensures w.sys == old(w.sys).(llm := if r.Some? then LCommit(r.value.0, r.value.1) else LCheck(ReadEnv))
    ensures r.Some? ==>
              var tweetId, d := w.db.tweets[id - 1].tweetId, result.decision;
              && r.value.0 == DecisionRow(id, d, result.status)
              && (d.intent == Noise ==> r.value.1 == [])
              && (d.intent != Noise ==> forall t :: t in ResolveTickers(d.tickers, aliases) ==>
                    tweetId + ":" + t in EventIds(w.db.events) + EventIds(r.value.1))
              && (forall e :: e in r.value.1 ==> StandsFor(tweetId, d, aliases, e))
  {
    if !(1 <= id <= |w.db.tweets|) {
      w.Do(Analyze(NoAnalysis()));
      return None;
    }
    var d := result.decision;
    var tickers := [];
    if d.intent != Noise {
      tickers := ResolveTickersLoop(d.tickers, aliases);
    }
    var added := FanOut(w.db.tweets[id - 1], id, |w.db.decisions| + 1, d, tickers, EventIds(w.db.events));
    LoadStep(w, id, result, aliases, tickers);
    VerdictEvents(w.db.tweets[id - 1], id, |w.db.decisions| + 1, d, aliases, EventIds(w.db.events));
    return Some((DecisionRow(id, d, result.status), added));
  }

  ghost method LoadStep(w: World, id: int, result: Analysis, aliases: seq<AliasRow>, tickers: seq<string>)
    requires w.Valid() && w.actor.Analyst? && w.sys.llm == LLoad(id) && 1 <= id <= |w.db.tweets|
    requires tickers == TickersOf(result.decision, aliases)
    modifies w`sys
    ensures w.Valid()
    ensures w.sys == Loaded(old(w.sys), id, result, tickers)
  {
    w.Do(Analyze(LlmInput(false, result, aliases)));
  }

  method Commit(w: World, row: DecisionRow, added: seq<EventRow>)
    requires w.Valid() && w.actor.Analyst? && w.sys.llm == LCommit(row, added)
    modifies w`db, w`sys
    ensures w.Valid()
    ensures w.db == old(w.db).(decisions := old(w.db.decisions) + [row], events := old(w.db.events) + added)
    ensures w.sys == old(w.sys).(db := w.db, llm := LPublish(EventIds(added), row.decision.costUsd))
    ensures CountInvalid(w.db.decisions) == CountInvalid(old(w.db.decisions)) + (if row.status == InvalidJson then 1 else 0)
  {
    w.db := w.db.(decisions := w.db.decisions + [row], events := w.db.events + added);
    w.Do(Analyze(NoAnalysis()));
    assert w.db.decisions[..|w.db.decisions| - 1] == old(w.db.decisions);
  }

  // RPUSH, id by id
  method Publish(w: World, ids: seq<string>, cost: real)
    requires w.Valid() && w.actor.Analyst? && w.sys.llm == LPublish(ids, cost)
    modifies w`redis, w`sys
    ensures w.Valid() && w.redis == old(w.redis).(eventQueue := old(w.redis.eventQueue) + ids)
    ensures w.sys == old(w.sys).(redis := w.redis, llm := LCharge(cost),
                                 hist := old(w.sys.hist).(eventPushes := old(w.sys.hist.eventPushes) + ids))
  {
    for i := 0 to |ids|
      invariant w.Valid() && w.redis == old(w.redis).(eventQueue := old(w.redis.eventQueue) + ids[..i])
      invariant w.sys == old(w.sys).(redis := w.redis, llm := LPublish(ids[i..], cost),
                                     hist := old(w.sys.hist).(eventPushes := old(w.sys.hist.eventPushes) + ids[..i]))
    {
      PushOne(w, ids[i..], cost);
      assert ids[..i + 1] == ids[..i] + [ids[i]];
    }
    assert ids[..|ids|] == ids;
    w.Do(Analyze(NoAnalysis()));
  }

  method PushOne(w: World, ids: seq<string>, cost: real)
    requires w.Valid() && w.actor.Analyst? && ids != [] && w.sys.llm == LPublish(ids, cost)
    modifies w`redis, w`sys
    ensures w.Valid() && w.redis == old(w.redis).(eventQueue := old(w.redis.eventQueue) + [ids[0]])
    ensures w.sys == old(w.sys).(redis := w.redis, llm := LPublish(ids[1..], cost),
                                 hist := old(w.sys.hist).(eventPushes := old(w.sys.hist.eventPushes) + [ids[0]]))
  {
    w.redis := w.redis.(eventQueue := w.redis.eventQueue + [ids[0]]);
    w.Do(Analyze(NoAnalysis()));
  }

  // Charges the call; Some when the budget is breached and the switch is on for it
  method Charge(w: World, budget: LLMBudgetTracker, cost: real) returns (r: Result<Option<real>, ValueError>)
    requires w.Valid() && w.actor.Analyst? && w.tx.None? && w.sys.llm == LCharge(cost)
    requires budget.world == w && budget.limit == w.c.llmLimit
    modifies w`redis, w`db, w`tx, w`clock, w`sys
    ensures w.Valid() && w.tx.None? && (r.Err? <==> cost < 0.0)
    ensures r.Ok? && r.value.None? ==> w.sys.llm == LCheck(ReadEnv) && w.db == old(w.db)
    ensures r.Ok? && r.value.Some? ==>
              && w.sys.llm == LStopped && r.value.value >= w.c.llmLimit
              && w.db == old(w.db).(switchLog := old(w.db.switchLog) + [SwitchRow(true, BudgetLLM, "llm_budget_tracker")])
    ensures r.Ok? ==> SameQueues(old(w.sys), w.sys)
    ensures r.Err? ==> w.sys.llm == LCheck(ReadEnv) && w.db == old(w.db)
  {
    w.Elapse();
    var status := budget.RecordCall(cost);
    if status.Err? {
      return Err(status.error);
    }
    if OverBudget(status.value) {
      var service := new KillSwitchService(w);
      var activated := TriggerFromLlmBudget(service, status.value);
      service.Commit();
      if activated {
        return Ok(Some(status.value.spend));
      }
    }
    return Ok(None);
  }

  ghost predicate SameQueues(was: Sys, now: Sys) {
    && now.redis.tweetQueue == was.redis.tweetQueue && now.redis.eventQueue == was.redis.eventQueue
    && now.hist.tweetPops == was.hist.tweetPops && now.hist.eventPushes == was.hist.eventPushes
  }

  datatype Outcome = NotFound | Analysed(invalidJson: bool, published: nat, breached: Option<real>)

  function AnalysisCount(o: Outcome): nat { if o.Analysed? then 1 else 0 }

  function Invalids(o: Outcome): nat { if o.Analysed? && o.invalidJson then 1 else 0 }

  function Breached(o: Outcome): Option<real> { if o.Analysed? then o.breached else None }

  function Published(o: Outcome): nat { if o.Analysed? then o.published else 0 }

  // One decision was added, and its cost is as said
  predicate OneMore(was: seq<DecisionRow>, now: seq<DecisionRow>, negativeCost: bool) {
    |now| == |was| + 1 && now[..|was|] == was && (now[|was|].decision.costUsd < 0.0 <==> negativeCost)
  }

  // No decision from a place on has a negative cost
  predicate NoneNegative(rows: seq<DecisionRow>, from: nat) {
    forall i :: from <= i < |rows| ==> rows[i].decision.costUsd >= 0.0
  }

  predicate SomeNegative(rows: seq<DecisionRow>, from: nat) {
    exists i :: from <= i < |rows| && rows[i].decision.costUsd < 0.0
  }

  lemma OneMoreNonnegative(was: seq<DecisionRow>, now: seq<DecisionRow>, from: nat)
    requires NoneNegative(was, from) && from <= |was| && OneMore(was, now, false)
    ensures NoneNegative(now, from)
  {
    assert forall i :: 0 <= i < |was| ==> now[i] == now[..|was|][i];
  }

  lemma OneMoreNegative(was: seq<DecisionRow>, now: seq<DecisionRow>, from: nat)
    requires from <= |was| && OneMore(was, now, true)
    ensures SomeNegative(now, from)
  {
    assert now[|was|].decision.costUsd < 0.0;
  }

  method Process(w: World, budget: LLMBudgetTracker, id: int) returns (r: Result<Outcome, ValueError>)
    requires w.Valid() && w.actor.Analyst? && w.tx.None? && w.sys.llm == LLoad(id)
    requires budget.world == w && budget.limit == w.c.llmLimit
    modifies w`redis, w`db, w`tx, w`clock, w`sys
    ensures w.Valid() && w.tx.None? && (r == Ok(NotFound) <==> !(1 <= id <= |old(w.db.tweets)|))
    ensures r.Ok? ==> w.sys.llm == (if Breached(r.value).Some? then LStopped else LCheck(ReadEnv))
    ensures r.Ok? && Breached(r.value).Some? ==> Breached(r.value).value >= w.c.llmLimit && LatestActivated(w.db.switchLog)
    ensures r.Ok? ==> Tallied(old(w.sys), w.sys, AnalysisCount(r.value), Invalids(r.value), Published(r.value))
    ensures r.Ok? ==> w.redis.tweetQueue == old(w.redis.tweetQueue) && w.sys.hist.tweetPops == old(w.sys.hist.tweetPops)
    ensures if r == Ok(NotFound) then w.db.decisions == old(w.db.decisions)
            else OneMore(old(w.db.decisions), w.db.decisions, r.Err?)
  {
    var result: Analysis := *;
    var aliases: seq<AliasRow> := *;
    var analysis := Analyse(w, id, result, aliases);
    if analysis.None? {
      return Ok(NotFound);
    }
    var row, added := analysis.value.0, analysis.value.1;
    Commit(w, row, added);
    var ids := EventIds(added);
    Publish(w, ids, row.decision.costUsd);
    var charged := Charge(w, budget, row.decision.costUsd);
    if charged.Err? {
      return Err(charged.error);
    }
    return Ok(Analysed(row.status == InvalidJson, |ids|, charged.value));
  }

  // What one turn of the loop comes to
  datatype Turn = Halted(source: Source) | Drained | Handled(outcome: Outcome)

  method TakeTurn(w: World, budget: LLMBudgetTracker) returns (r: Result<Turn, ValueError>)
    requires AtTop(w) && budget.world == w && budget.limit == w.c.llmLimit
    modifies w`redis, w`db, w`tx, w`clock, w`sys
    ensures w.Valid() && w.tx.None?
    ensures r.Ok? && r.value.Halted? ==> w.sys == old(w.sys).(llm := LStopped)
    ensures r.Ok? && r.value.Drained? ==> w.sys == old(w.sys) && w.redis.tweetQueue == []
    ensures r.Ok? && r.value.Handled? ==>
              var queue, o := old(w.redis.tweetQueue), r.value.outcome;
              && Tallied(old(w.sys), w.sys, AnalysisCount(o), Invalids(o), Published(o))
              && queue != [] && w.redis.tweetQueue == queue[1..]
              && (o.NotFound? <==> !(1 <= queue[0] <= |w.db.tweets|))
              && w.sys.llm == (if Breached(o).Some? then LStopped else LCheck(ReadEnv))
              && (Breached(o).Some? ==> Breached(o).value >= w.c.llmLimit && LatestActivated(w.db.switchLog))
    ensures if r.Ok? && (r.value.Handled? ==> r.value.outcome.NotFound?) then w.db.decisions == old(w.db.decisions)
            else OneMore(old(w.db.decisions), w.db.decisions, r.Err?)
  {
    var state := CheckSwitch(w);
    if state.active {
      return Ok(Halted(state.source));
    }
    var raw := Pop(w);
    if raw.None? {
      return Ok(Drained);
    }
    var done := Process(w, budget, raw.value);
    match done {
      case Ok(outcome) => return Ok(Handled(outcome));
      case Err(e) => return Err(e);
    }
  }

  /** A drain run ends, because every turn of the loop shortens the tweet queue. Its report matches the
      tables; it stops early only when the switch reads on or when its own charge breached the budget, and
      then the activation it committed is the latest row of the log. It is left by an exception exactly when an
      analysis came with a negative cost. */
  method RunLlmPipeline(w: World, budget: LLMBudgetTracker) returns (r: Result<LlmReport, ValueError>)
    requires AtTop(w) && budget.world == w && budget.limit == w.c.llmLimit
    modifies w
    ensures w.Valid() && w.tx.None?
    ensures w.states == Reached(w.c, Analyst, old(w.sys)) ==> LeadsTo(w.c, Analyst, old(w.sys), w.sys)
    ensures r.Err? <==> SomeNegative(w.db.decisions, |old(w.db.decisions)|)
    ensures r.Ok? ==> Tallied(old(w.sys), w.sys, r.value.analyzed, r.value.invalidJson, r.value.eventsPublished)
    ensures r.Ok? && NamesTweets(old(w.redis.tweetQueue), old(w.db.tweets)) ==>
              |w.sys.hist.tweetPops| == |old(w.sys.hist.tweetPops)| + r.value.analyzed
    ensures r.Ok? && r.value.stopped.None? ==> w.redis.tweetQueue == [] && w.sys.llm == LCheck(ReadEnv)
    ensures r.Ok? && r.value.stopped.Some? ==> w.sys.llm == LStopped
    ensures r.Ok? && r.value.stopped.Some? && r.value.stopped.value.BudgetBreached? ==>
              r.value.stopped.value.spend >= w.c.llmLimit && LatestActivated(w.db.switchLog)
  {
    var analyzed: nat, invalidJson: nat, published: nat := 0, 0, 0;
    ghost var start := w.sys;
    while true
      invariant AtTop(w) && Tallied(start, w.sys, analyzed, invalidJson, published)
      invariant |start.db.decisions| <= |w.db.decisions| && NoneNegative(w.db.decisions, |start.db.decisions|)
      invariant NamesTweets(start.redis.tweetQueue, start.db.tweets) ==>
                  NamesTweets(w.redis.tweetQueue, w.db.tweets) && |w.redis.tweetQueue| + analyzed == |start.redis.tweetQueue|
      decreases |w.redis.tweetQueue|
    {
      ghost var before := w.sys;
      var turn := TakeTurn(w, budget);
      if turn.Err? {
        OneMoreNegative(before.db.decisions, w.db.decisions, |start.db.decisions|);
        return Err(turn.error);
      }
      if turn.value.Handled? && turn.value.outcome.Analysed? {
        OneMoreNonnegative(before.db.decisions, w.db.decisions, |start.db.decisions|);
      }
      match turn.value {
        case Halted(source) => return Ok(LlmReport(analyzed, invalidJson, published, Some(SwitchActive(source))));
        case Drained => return Ok(LlmReport(analyzed, invalidJson, published, None));
        case Handled(o) =>
          NamesTail(before.redis.tweetQueue, w.db.tweets);
          TalliesAdd(start, before, w.sys, analyzed, invalidJson, published, AnalysisCount(o), Invalids(o), Published(o));
          analyzed, invalidJson, published := analyzed + AnalysisCount(o), invalidJson + Invalids(o), published + Published(o);
          if Breached(o).Some? {
            return Ok(LlmReport(analyzed, invalidJson, published, Some(BudgetBreached(Breached(o).value))));
          }
      }
    }
  }
}
