/** Confluence: without crashes, every interleaving that drains the queue pushes exactly the event sequence
    of a simple fold over the distinct tweets in stream order. */
module Confluence {
  import opened Basics
  import opened Records
  import opened Keys
  import opened Aliases
  import opened Risk
  import opened Protocol
  import opened Integrity
  import opened Delivery

  // The tickers found for a tweet, as a function of the tweet
  type Resolver = Tweet -> seq<string>

  // ---- The fold ----

  // A table of tweets after a feed: every tweet whose id is not there yet is appended
  function Ingested(tweets: seq<Tweet>, feed: seq<Tweet>): seq<Tweet> {
    if feed == [] then tweets
    else
      var before := Ingested(tweets, feed[..|feed| - 1]);
      var t := feed[|feed| - 1];
      if t.tweetId in TweetIds(before) then before else before + [t]
  }

  // The first tweet of each tweet id, in stream order
  function Dedupe(stream: seq<Tweet>): seq<Tweet> { Ingested([], stream) }

  function NewIds(tweetId: string, tickers: seq<string>, existing: seq<string>): seq<string> {
    if tickers == [] then []
    else
      var id := BuildEventId(tweetId, tickers[0]);
      (if id in existing then [] else [id]) + NewIds(tweetId, tickers[1..], existing)
  }

  function FoldEvents(tweets: seq<Tweet>, tickers: Resolver): seq<string> {
    if tweets == [] then []
    else
      var before := FoldEvents(tweets[..|tweets| - 1], tickers);
      var t := tweets[|tweets| - 1];
      before + NewIds(t.tweetId, tickers(t), before)
  }

  // ---- The runs considered ----

  predicate CrashFree(step: Step) {
    !step.IngestCrash? && !step.IngestRestart? && !step.LlmCrash? && !step.Inject?
  }

  // The step analyses the tweet in hand as the resolver says
  predicate Consistent(s: Sys, step: Step, tickers: Resolver) {
    step.Analyze? && s.llm.LLoad? && TweetRef(s.db.tweets, s.llm.id) ==>
      var d := step.llmInput.analysis.decision;
      tickers(s.db.tweets[s.llm.id - 1]) == if d.intent == Noise then [] else ResolveTickers(d.tickers, step.llmInput.aliases)
  }

  predicate SmoothRun(c: Config, s: Sys, steps: seq<Step>, tickers: Resolver) {
    steps == [] ||
    (SmoothRun(c, s, steps[..|steps| - 1], tickers)
     && CrashFree(steps[|steps| - 1])
     && Consistent(Run(c, s, steps[..|steps| - 1]), steps[|steps| - 1], tickers))
  }

  predicate Drained(s: Sys) {
    s.ingest.IWait? && s.redis.tweetQueue == [] && !s.llm.LLoad? && !s.llm.LCommit? && !s.llm.LPublish?
  }

  // ---- The invariant ----

  predicate StreamOk(received: seq<Tweet>, tweets: seq<Tweet>, pc: IngestPc) {
    match pc
    case IStopped => true
    case ICheck(t, _) => HandOk(received, tweets, t)
    case IInsert(t) => HandOk(received, tweets, t)
    case ICommit(t) => HandOk(received, tweets, t) && t.tweetId !in TweetIds(tweets)
    case _ => tweets == Dedupe(received)
  }

  predicate HandOk(received: seq<Tweet>, tweets: seq<Tweet>, t: Tweet) {
    received != [] && received[|received| - 1] == t && tweets == Dedupe(received[..|received| - 1])
  }

  function UpTo(n: nat): seq<int> {
    if n == 0 then [] else UpTo(n - 1) + [n]
  }

  function Publishing(pc: IngestPc): seq<int> {
    if pc.IPublish? then [pc.id] else []
  }

  // Tweet ids are popped in the order 1, 2, 3, ... and none is skipped
  predicate IdsOk(pops: seq<int>, queue: seq<int>, pc: IngestPc, tweets: seq<Tweet>) {
    pops + queue + Publishing(pc) == UpTo(|tweets|)
  }

  predicate Analysing(pc: LlmPc) { pc.LLoad? || pc.LCommit? }

  predicate ProgressOk(pops: seq<int>, decisions: seq<DecisionRow>, pc: LlmPc) {
    && |pops| == |decisions| + (if Analysing(pc) then 1 else 0)
    && (pc.LLoad? ==> pc.id == |pops|)
    && (pc.LCommit? ==> pc.row.rawTweetId == |pops|)
  }

  predicate EventsOk(tweets: seq<Tweet>, done: nat, events: seq<EventRow>, pc: LlmPc, tickers: Resolver) {
    && done <= |tweets|
    && EventIds(events) == FoldEvents(tweets[..done], tickers)
    && (pc.LCommit? ==>
          done < |tweets| && EventIds(pc.added) == NewIds(tweets[done].tweetId, tickers(tweets[done]), EventIds(events)))
  }

  predicate PushesOk(s: Sys) {
    Announced(s.hist.eventPushes, s.llm) == EventIds(s.db.events)
  }

  // ---- Steps keep it ----

  lemma StepStream(c: Config, s: Sys, step: Step)
    requires StreamOk(s.hist.received, s.db.tweets, s.ingest) && CrashFree(step)
    ensures var s' := Exec(c, s, step); StreamOk(s'.hist.received, s'.db.tweets, s'.ingest)
  {
    if step.Ingest? {
      IngestStream(c, s, step.ingestInput);
    } else {
      IngestSideFrame(c, s, step);
    }
  }

  lemma IngestStream(c: Config, s: Sys, input: IngestInput)
    requires StreamOk(s.hist.received, s.db.tweets, s.ingest)
    ensures var s' := IngestStep(c, s, input); StreamOk(s'.hist.received, s'.db.tweets, s'.ingest)
  {
    if s.ingest.IWait? {
      assert (s.hist.received + [input.tweet])[..|s.hist.received|] == s.hist.received;
    }
  }

  lemma {:induction false} UpToLength(n: nat)
    ensures |UpTo(n)| == n && forall i :: 0 <= i < n ==> UpTo(n)[i] == i + 1
  {
    if n > 0 { UpToLength(n - 1); }
  }

  lemma IngestIds(c: Config, s: Sys, input: IngestInput)
    requires IdsOk(s.hist.tweetPops, s.redis.tweetQueue, s.ingest, s.db.tweets)
    ensures var s' := IngestStep(c, s, input); IdsOk(s'.hist.tweetPops, s'.redis.tweetQueue, s'.ingest, s'.db.tweets)
  {
    var pops, queue := s.hist.tweetPops, s.redis.tweetQueue;
    assert pops + queue + [] == pops + queue;
    if s.ingest.IPublish? {
      assert pops + (queue + [s.ingest.id]) + [] == pops + queue + [s.ingest.id];
    }
  }

  lemma LlmIds(c: Config, s: Sys, input: LlmInput)
    requires IdsOk(s.hist.tweetPops, s.redis.tweetQueue, s.ingest, s.db.tweets)
    ensures var s' := LlmStep(c, s, input); IdsOk(s'.hist.tweetPops, s'.redis.tweetQueue, s'.ingest, s'.db.tweets)
  {
    LlmFrame(c, s, input);
    var pops, queue := s.hist.tweetPops, s.redis.tweetQueue;
    if s.llm.LPop? && queue != [] {
      assert (pops + [queue[0]]) + queue[1..] == pops + queue;
    } else {
      LlmQueueFrame(c, s, input);
    }
  }

  lemma LlmQueueFrame(c: Config, s: Sys, input: LlmInput)
    requires !s.llm.LPop? || s.redis.tweetQueue == []
    ensures var s' := LlmStep(c, s, input);
            s'.hist.tweetPops == s.hist.tweetPops && s'.redis.tweetQueue == s.redis.tweetQueue
  {
  }

  lemma OtherIds(c: Config, s: Sys, step: Step)
    requires CrashFree(step) && !step.Ingest? && !step.Analyze?
    ensures var s' := Exec(c, s, step);
            && s'.hist.tweetPops == s.hist.tweetPops && s'.redis.tweetQueue == s.redis.tweetQueue
            && s'.ingest == s.ingest && s'.db.tweets == s.db.tweets && s'.db.decisions == s.db.decisions
            && s'.db.events == s.db.events && s'.hist.eventPushes == s.hist.eventPushes
            && (s'.llm == s.llm || (s.llm == LStopped && s'.llm == LCheck(ReadEnv)))
  {
    if step.Trade? { RuleFrame(c, s, step.ruleInput); }
  }

  lemma LlmProgress(c: Config, s: Sys, input: LlmInput)
    requires IdsOk(s.hist.tweetPops, s.redis.tweetQueue, s.ingest, s.db.tweets)
    requires ProgressOk(s.hist.tweetPops, s.db.decisions, s.llm)
    requires s.llm.LLoad? ==> TweetRef(s.db.tweets, s.llm.id)
    ensures var s' := LlmStep(c, s, input); ProgressOk(s'.hist.tweetPops, s'.db.decisions, s'.llm)
  {
    if s.llm.LPop? && s.redis.tweetQueue != [] {
      NextId(s.hist.tweetPops, s.redis.tweetQueue, s.ingest, s.db.tweets);
    }
  }

  lemma NextId(pops: seq<int>, queue: seq<int>, pc: IngestPc, tweets: seq<Tweet>)
    requires IdsOk(pops, queue, pc, tweets) && queue != []
    ensures queue[0] == |pops| + 1
  {
    UpToLength(|tweets|);
    assert (pops + queue + Publishing(pc))[|pops|] == queue[0];
  }

  lemma {:induction false} FreshEventIds(
      tweet: Tweet, rawId: int, decisionId: int, decision: Decision, tickers: seq<string>, existing: seq<string>)
    ensures EventIds(FreshEvents(tweet, rawId, decisionId, decision, tickers, existing))
         == NewIds(tweet.tweetId, tickers, existing)
  {
    if tickers != [] {
      FreshEventIds(tweet, rawId, decisionId, decision, tickers[1..], existing);
      var rest := FreshEvents(tweet, rawId, decisionId, decision, tickers[1..], existing);
      var all := FreshEvents(tweet, rawId, decisionId, decision, tickers, existing);
      if BuildEventId(tweet.tweetId, tickers[0]) !in existing {
        assert all == [all[0]] + rest;
        EventIdsAppend([all[0]], rest);
      }
    }
  }

  lemma LoadEvents(c: Config, s: Sys, input: LlmInput, tickers: Resolver)
    requires s.llm.LLoad? && TweetRef(s.db.tweets, s.llm.id) && Consistent(s, Analyze(input), tickers)
    requires ProgressOk(s.hist.tweetPops, s.db.decisions, s.llm)
    requires EventsOk(s.db.tweets, |s.db.decisions|, s.db.events, s.llm, tickers)
    ensures var s' := LlmStep(c, s, input); EventsOk(s'.db.tweets, |s'.db.decisions|, s'.db.events, s'.llm, tickers)
  {
    var id, d := s.llm.id, input.analysis.decision;
    FreshEventIds(s.db.tweets[id - 1], id, |s.db.decisions| + 1, d, TickersOf(d, input.aliases), EventIds(s.db.events));
  }

  lemma CommitEvents(c: Config, s: Sys, input: LlmInput, tickers: Resolver)
    requires s.llm.LCommit? && EventsOk(s.db.tweets, |s.db.decisions|, s.db.events, s.llm, tickers)
    ensures var s' := LlmStep(c, s, input); EventsOk(s'.db.tweets, |s'.db.decisions|, s'.db.events, s'.llm, tickers)
  {
    var done := |s.db.decisions|;
    EventIdsAppend(s.db.events, s.llm.added);
    assert s.db.tweets[..done + 1][..done] == s.db.tweets[..done];
  }

  lemma LlmEvents(c: Config, s: Sys, input: LlmInput, tickers: Resolver)
    requires s.llm.LLoad? ==> TweetRef(s.db.tweets, s.llm.id)
    requires Consistent(s, Analyze(input), tickers) && ProgressOk(s.hist.tweetPops, s.db.decisions, s.llm)
    requires EventsOk(s.db.tweets, |s.db.decisions|, s.db.events, s.llm, tickers)
    ensures var s' := LlmStep(c, s, input); EventsOk(s'.db.tweets, |s'.db.decisions|, s'.db.events, s'.llm, tickers)
  {
    if s.llm.LLoad? {
      LoadEvents(c, s, input, tickers);
    } else if s.llm.LCommit? {
      CommitEvents(c, s, input, tickers);
    }
  }

  lemma TweetsEvents(tweets: seq<Tweet>, more: seq<Tweet>, done: nat, events: seq<EventRow>, pc: LlmPc, tickers: Resolver)
    requires EventsOk(tweets, done, events, pc, tickers)
    ensures EventsOk(tweets + more, done, events, pc, tickers)
  {
    assert (tweets + more)[..done] == tweets[..done];
  }

  lemma LlmPushes(c: Config, s: Sys, input: LlmInput)
    requires PushesOk(s)
    ensures PushesOk(LlmStep(c, s, input))
  {
    var pushes := s.hist.eventPushes;
    if s.llm.LCommit? {
      EventIdsAppend(s.db.events, s.llm.added);
    } else if s.llm.LPublish? {
      if s.llm.ids == [] {
        assert pushes + [] == pushes;
      } else {
        assert (pushes + [s.llm.ids[0]]) + s.llm.ids[1..] == pushes + s.llm.ids;
      }
    }
  }

  ghost predicate Smooth(s: Sys, tickers: Resolver) {
    && StreamOk(s.hist.received, s.db.tweets, s.ingest)
    && IdsOk(s.hist.tweetPops, s.redis.tweetQueue, s.ingest, s.db.tweets)
    && ProgressOk(s.hist.tweetPops, s.db.decisions, s.llm)
    && EventsOk(s.db.tweets, |s.db.decisions|, s.db.events, s.llm, tickers)
    && PushesOk(s)
  }

  lemma IngestSmooth(c: Config, s: Sys, input: IngestInput, tickers: Resolver)
    requires Smooth(s, tickers)
    ensures Smooth(IngestStep(c, s, input), tickers)
  {
    IngestStream(c, s, input);
    IngestIds(c, s, input);
    IngestFrame(c, s, input);
    var s' := IngestStep(c, s, input);
    assert s.db.tweets <= s'.db.tweets;
    assert s'.db.tweets == s.db.tweets + s'.db.tweets[|s.db.tweets|..];
    TweetsEvents(s.db.tweets, s'.db.tweets[|s.db.tweets|..], |s.db.decisions|, s.db.events, s.llm, tickers);
  }

  lemma LlmSmooth(c: Config, s: Sys, input: LlmInput, tickers: Resolver)
    requires Smooth(s, tickers) && Consistent(s, Analyze(input), tickers)
    requires s.llm.LLoad? ==> TweetRef(s.db.tweets, s.llm.id)
    ensures Smooth(LlmStep(c, s, input), tickers)
  {
    LlmIds(c, s, input);
    LlmProgress(c, s, input);
    LlmEvents(c, s, input, tickers);
    LlmPushes(c, s, input);
    LlmFrame(c, s, input);
  }

  lemma StepSmooth(c: Config, s: Sys, step: Step, tickers: Resolver)
    requires Smooth(s, tickers) && CrashFree(step) && Consistent(s, step, tickers)
    requires s.llm.LLoad? ==> TweetRef(s.db.tweets, s.llm.id)
    ensures Smooth(Exec(c, s, step), tickers)
  {
    match step {
      case Ingest(input) => IngestSmooth(c, s, input, tickers);
      case Analyze(input) => LlmSmooth(c, s, input, tickers);
      case _ =>
        OtherIds(c, s, step);
        StepStream(c, s, step);
    }
  }

  lemma {:induction false} SmoothOwnPushes(c: Config, s: Sys, steps: seq<Step>, tickers: Resolver)
    requires SmoothRun(c, s, steps, tickers)
    ensures OwnPushesOnly(steps)
  {
    if steps != [] { SmoothOwnPushes(c, s, steps[..|steps| - 1], tickers); }
  }

  lemma {:induction false} RunSmooth(c: Config, s0: Sys, steps: seq<Step>, tickers: Resolver)
    requires Init(s0) && SmoothRun(c, s0, steps, tickers)
    ensures Smooth(Run(c, s0, steps), tickers)
  {
    if steps == [] {
      InitSmooth(s0, tickers);
    } else {
      var n := |steps| - 1;
      RunSmooth(c, s0, steps[..n], tickers);
      SmoothOwnPushes(c, s0, steps[..n], tickers);
      RunDelivers(c, s0, steps[..n]);
      StepSmooth(c, Run(c, s0, steps[..n]), steps[n], tickers);
    }
  }

  lemma InitSmooth(s0: Sys, tickers: Resolver)
    requires Init(s0)
    ensures Smooth(s0, tickers)
  {
  }

  // ---- Main results ----

  /** Every crash-free interleaving of ingestion and LLM workers, with anything else going on besides, that
      ends with the queue drained has pushed exactly the fold of the distinct tweets in stream order, and has
      written one decision row per distinct tweet. */
  lemma DrainedRunIsFold(c: Config, s0: Sys, steps: seq<Step>, tickers: Resolver)
    requires Init(s0) && SmoothRun(c, s0, steps, tickers) && Drained(Run(c, s0, steps))
    ensures var s := Run(c, s0, steps);
            && s.hist.eventPushes == FoldEvents(Dedupe(s.hist.received), tickers)
            && EventIds(s.db.events) == s.hist.eventPushes
            && s.db.tweets == Dedupe(s.hist.received)
            && |s.db.decisions| == |s.db.tweets|
  {
    RunSmooth(c, s0, steps, tickers);
    DrainedSmooth(Run(c, s0, steps), tickers);
  }

  lemma DrainedSmooth(s: Sys, tickers: Resolver)
    requires Smooth(s, tickers) && Drained(s)
    ensures s.db.tweets == Dedupe(s.hist.received) && |s.db.decisions| == |s.db.tweets|
    ensures s.hist.eventPushes == EventIds(s.db.events) == FoldEvents(s.db.tweets, tickers)
  {
    UpToLength(|s.db.tweets|);
    assert s.db.tweets[..|s.db.tweets|] == s.db.tweets;
  }

  /** Two drained runs over the same stream push the same events in the same order. */
  lemma DrainedRunsAgree(c: Config, a0: Sys, a: seq<Step>, b0: Sys, b: seq<Step>, tickers: Resolver)
    requires Init(a0) && SmoothRun(c, a0, a, tickers) && Drained(Run(c, a0, a))
    requires Init(b0) && SmoothRun(c, b0, b, tickers) && Drained(Run(c, b0, b))
    requires Run(c, a0, a).hist.received == Run(c, b0, b).hist.received
    ensures Run(c, a0, a).hist.eventPushes == Run(c, b0, b).hist.eventPushes
  {
    DrainedRunIsFold(c, a0, a, tickers);
    DrainedRunIsFold(c, b0, b, tickers);
  }

  // ---- With colon-free tickers nothing is filtered ----

  function TweetEvents(tweetId: string, tickers: seq<string>): (ids: seq<string>)
    ensures |ids| == |tickers| && forall i :: 0 <= i < |ids| ==> ids[i] == BuildEventId(tweetId, tickers[i])
  {
    Map(k => BuildEventId(tweetId, k), tickers)
  }

  function AllEvents(tweets: seq<Tweet>, tickers: Resolver): seq<string> {
    if tweets == [] then []
    else
      var t := tweets[|tweets| - 1];
      AllEvents(tweets[..|tweets| - 1], tickers) + TweetEvents(t.tweetId, tickers(t))
  }

  predicate ColonFreeTickers(tweets: seq<Tweet>, tickers: Resolver) {
    forall t :: t in tweets ==> forall k :: k in tickers(t) ==> ColonFree(k)
  }

  lemma {:induction false} NothingFiltered(tweetId: string, tickers: seq<string>, existing: seq<string>)
    requires forall k :: k in tickers ==> BuildEventId(tweetId, k) !in existing
    ensures NewIds(tweetId, tickers, existing) == TweetEvents(tweetId, tickers)
  {
    if tickers != [] {
      NothingFiltered(tweetId, tickers[1..], existing);
      assert TweetEvents(tweetId, tickers) == [BuildEventId(tweetId, tickers[0])] + TweetEvents(tweetId, tickers[1..]);
    }
  }

  lemma {:induction false} NewIdsDistinct(tweetId: string, tickers: seq<string>, existing: seq<string>)
    requires Distinct(tickers)
    ensures Distinct(NewIds(tweetId, tickers, existing))
    ensures forall id :: id in NewIds(tweetId, tickers, existing) ==>
              id !in existing && exists k :: k in tickers && id == BuildEventId(tweetId, k)
  {
    if tickers != [] {
      var rest := NewIds(tweetId, tickers[1..], existing);
      assert forall i :: 0 <= i < |tickers| - 1 ==> tickers[1..][i] == tickers[i + 1] != tickers[0];
      NewIdsDistinct(tweetId, tickers[1..], existing);
      var id := BuildEventId(tweetId, tickers[0]);
      if id in rest {
        var k :| k in tickers[1..] && id == BuildEventId(tweetId, k);
        EventIdSameTweet(tweetId, tickers[0], k);
        assert false;
      }
    }
  }

  predicate DistinctTickers(tweets: seq<Tweet>, tickers: Resolver) {
    forall t :: t in tweets ==> Distinct(tickers(t))
  }

  lemma {:induction false} FoldDistinct(tweets: seq<Tweet>, tickers: Resolver)
    requires DistinctTickers(tweets, tickers)
    ensures Distinct(FoldEvents(tweets, tickers))
  {
    if tweets != [] {
      var n := |tweets| - 1;
      FoldDistinct(tweets[..n], tickers);
      assert tweets[n] in tweets;
      var before := FoldEvents(tweets[..n], tickers);
      NewIdsDistinct(tweets[n].tweetId, tickers(tweets[n]), before);
      DistinctConcat(before, NewIds(tweets[n].tweetId, tickers(tweets[n]), before));
    }
  }

  /** The fold is the plain list (for each tweet in order, one event per ticker) exactly when the plain list
      repeats no event id. */
  lemma {:induction false} FoldIsPlainListIff(tweets: seq<Tweet>, tickers: Resolver)
    requires DistinctTickers(tweets, tickers)
    ensures FoldEvents(tweets, tickers) == AllEvents(tweets, tickers) <==> Distinct(AllEvents(tweets, tickers))
  {
    FoldDistinct(tweets, tickers);
    if tweets != [] && Distinct(AllEvents(tweets, tickers)) {
      var n := |tweets| - 1;
      var before, last := AllEvents(tweets[..n], tickers), TweetEvents(tweets[n].tweetId, tickers(tweets[n]));
      DistinctConcat(before, last);
      FoldIsPlainListIff(tweets[..n], tickers);
      forall k | k in tickers(tweets[n]) ensures BuildEventId(tweets[n].tweetId, k) !in before {
        var i :| 0 <= i < |tickers(tweets[n])| && tickers(tweets[n])[i] == k;
        assert last[i] in last;
      }
      NothingFiltered(tweets[n].tweetId, tickers(tweets[n]), before);
    }
  }

  lemma {:induction false} EventOfEarlierTweet(tweets: seq<Tweet>, tickers: Resolver, id: string) returns (i: nat, k: string)
    requires id in AllEvents(tweets, tickers)
    ensures i < |tweets| && k in tickers(tweets[i]) && id == BuildEventId(tweets[i].tweetId, k)
  {
    var n := |tweets| - 1;
    if id in AllEvents(tweets[..n], tickers) {
      i, k := EventOfEarlierTweet(tweets[..n], tickers, id);
    } else {
      i := n;
      var j :| 0 <= j < |tickers(tweets[n])| && TweetEvents(tweets[n].tweetId, tickers(tweets[n]))[j] == id;
      k := tickers(tweets[n])[j];
    }
  }

  /** With colon-free tickers the fold is the plain list: for each distinct tweet in stream order, one event
      per ticker in sorted order. */
  lemma {:induction false} FoldIsPlainList(tweets: seq<Tweet>, tickers: Resolver)
    requires Distinct(TweetIds(tweets)) && ColonFreeTickers(tweets, tickers)
    ensures FoldEvents(tweets, tickers) == AllEvents(tweets, tickers)
  {
    if tweets != [] {
      var n := |tweets| - 1;
      var t := tweets[n];
      assert forall i, j :: 0 <= i < j < n ==> TweetIds(tweets[..n])[i] == TweetIds(tweets)[i] != TweetIds(tweets)[j];
      FoldIsPlainList(tweets[..n], tickers);
      forall k | k in tickers(t) ensures BuildEventId(t.tweetId, k) !in AllEvents(tweets[..n], tickers) {
        NoEarlierEvent(tweets, tickers, k);
      }
      NothingFiltered(t.tweetId, tickers(t), AllEvents(tweets[..n], tickers));
    }
  }

  // With colon-free tickers no earlier tweet has an event of the last tweet
  lemma NoEarlierEvent(tweets: seq<Tweet>, tickers: Resolver, k: string)
    requires tweets != [] && Distinct(TweetIds(tweets)) && ColonFreeTickers(tweets, tickers) && k in tickers(tweets[|tweets| - 1])
    ensures var n := |tweets| - 1; BuildEventId(tweets[n].tweetId, k) !in AllEvents(tweets[..n], tickers)
  {
    var n := |tweets| - 1;
    var id := BuildEventId(tweets[n].tweetId, k);
    if id in AllEvents(tweets[..n], tickers) {
      var i, k' := EventOfEarlierTweet(tweets[..n], tickers, id);
      assert tweets[i] in tweets && tweets[n] in tweets;
      assert TweetIds(tweets)[i] != TweetIds(tweets)[n];
      EventIdInjective(tweets[i].tweetId, k', tweets[n].tweetId, k);
      assert false;
    }
  }

  /** The whole pipeline front end as one function of the stream, for colon-free tickers. */
  lemma DrainedRunIsPlainList(c: Config, s0: Sys, steps: seq<Step>, tickers: Resolver)
    requires Init(s0) && SmoothRun(c, s0, steps, tickers) && Drained(Run(c, s0, steps))
    requires ColonFreeTickers(Dedupe(Run(c, s0, steps).hist.received), tickers)
    ensures Run(c, s0, steps).hist.eventPushes == AllEvents(Dedupe(Run(c, s0, steps).hist.received), tickers)
  {
    DrainedRunIsFold(c, s0, steps, tickers);
    RunKeepsSound(c, s0, steps);
    FoldIsPlainList(Run(c, s0, steps).db.tweets, tickers);
  }

  // ---- With one verdict per tweet and one alias table ----

  // The provider gives each tweet its verdict, and the alias rows stay as they are
  predicate FixedStep(s: Sys, step: Step, verdict: Tweet -> Decision, aliases: seq<AliasRow>) {
    step.Analyze? && s.llm.LLoad? && TweetRef(s.db.tweets, s.llm.id) ==>
      step.llmInput.analysis.decision == verdict(s.db.tweets[s.llm.id - 1]) && step.llmInput.aliases == aliases
  }

  predicate FixedRun(c: Config, s: Sys, steps: seq<Step>, verdict: Tweet -> Decision, aliases: seq<AliasRow>) {
    steps == [] ||
    (FixedRun(c, s, steps[..|steps| - 1], verdict, aliases)
     && CrashFree(steps[|steps| - 1])
     && FixedStep(Run(c, s, steps[..|steps| - 1]), steps[|steps| - 1], verdict, aliases))
  }

  function Resolved(verdict: Tweet -> Decision, aliases: seq<AliasRow>): Resolver {
    t => if verdict(t).intent == Noise then [] else ResolveTickers(verdict(t).tickers, aliases)
  }

  lemma {:induction false} FixedIsSmooth(c: Config, s: Sys, steps: seq<Step>, verdict: Tweet -> Decision, aliases: seq<AliasRow>)
    requires FixedRun(c, s, steps, verdict, aliases)
    ensures SmoothRun(c, s, steps, Resolved(verdict, aliases))
  {
    if steps != [] {
      var n := |steps| - 1;
      FixedIsSmooth(c, s, steps[..n], verdict, aliases);
      FixedIsConsistent(Run(c, s, steps[..n]), steps[n], verdict, aliases);
    }
  }

  lemma FixedIsConsistent(s: Sys, step: Step, verdict: Tweet -> Decision, aliases: seq<AliasRow>)
    requires FixedStep(s, step, verdict, aliases)
    ensures Consistent(s, step, Resolved(verdict, aliases))
  {
  }

  /** With a fixed verdict per tweet and a fixed alias table, every crash-free drained run pushes, for each distinct tweet
      in stream order whose verdict is not noise, one event for each ticker its tickers resolve to, in sorted order. */
  lemma DrainedRunOfVerdicts(c: Config, s0: Sys, steps: seq<Step>, verdict: Tweet -> Decision, aliases: seq<AliasRow>)
    requires Init(s0) && FixedRun(c, s0, steps, verdict, aliases) && Drained(Run(c, s0, steps))
    requires forall t :: t in Run(c, s0, steps).hist.received && verdict(t).intent != Noise ==>
               forall k :: k in ResolveTickers(verdict(t).tickers, aliases) ==> ColonFree(k)
    ensures var stream := Dedupe(Run(c, s0, steps).hist.received);
            Run(c, s0, steps).hist.eventPushes ==
              AllEvents(stream, t => if verdict(t).intent == Noise then [] else ResolveTickers(verdict(t).tickers, aliases))
  {
    FixedIsSmooth(c, s0, steps, verdict, aliases);
    var received := Run(c, s0, steps).hist.received;
    DedupeSubset(received);
    DrainedRunIsPlainList(c, s0, steps, Resolved(verdict, aliases));
  }

  lemma {:induction false} DedupeSubset(stream: seq<Tweet>)
    ensures forall t :: t in Dedupe(stream) ==> t in stream
  {
    if stream != [] {
      var n := |stream| - 1;
      assert stream == stream[..n] + [stream[n]];
      DedupeSubset(stream[..n]);
    }
  }
}
