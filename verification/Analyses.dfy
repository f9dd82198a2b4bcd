/** What an analysis leads to: every committed decision is the verdict of one analysis of its tweet; a verdict that is
    not noise has an event for each resolved ticker, a noise verdict has none. */
module Analyses {
  import opened Basics
  import opened Records
  import opened Keys
  import opened Aliases
  import opened Protocol
  import opened Integrity
  import opened Provenance

  // At step i the worker, with the row's tweet in hand, got the row's verdict from the provider
  predicate AnalysedAt(steps: seq<Step>, trace: seq<Sys>, i: int, row: DecisionRow)
    requires |trace| > |steps|
  {
    && 0 <= i < |steps| && steps[i].Analyze? && trace[i].llm == LLoad(row.rawTweetId)
    && row.decision == steps[i].llmInput.analysis.decision && row.status == steps[i].llmInput.analysis.status
  }

  // Each resolved ticker of a verdict that is not noise has its event id
  ghost predicate Complete(tweetId: string, d: Decision, aliases: seq<AliasRow>, ids: seq<string>) {
    d.intent != Noise ==> forall t :: t in ResolveTickers(d.tickers, aliases) ==> tweetId + ":" + t in ids
  }

  // The event stands for one resolved ticker of a verdict that is not noise
  ghost predicate StandsFor(tweetId: string, d: Decision, aliases: seq<AliasRow>, e: EventRow) {
    && d.intent != Noise && e.ticker in ResolveTickers(d.tickers, aliases) && e.eventId == tweetId + ":" + e.ticker
    && e.intent == d.intent && e.confidence == d.confidence && e.horizon == d.horizon
  }

  // ---- One analysis ----

  lemma {:induction false} FreshEventsComplete(
      tweet: Tweet, rawId: int, decisionId: int, decision: Decision, tickers: seq<string>, existing: seq<string>, t: string)
    requires t in tickers
    ensures var added := FreshEvents(tweet, rawId, decisionId, decision, tickers, existing);
            BuildEventId(tweet.tweetId, t) in existing || BuildEventId(tweet.tweetId, t) in EventIds(added)
  {
    assert tickers == [tickers[0]] + tickers[1..];
    var added := FreshEvents(tweet, rawId, decisionId, decision, tickers, existing);
    var rest := FreshEvents(tweet, rawId, decisionId, decision, tickers[1..], existing);
    if t == tickers[0] {
      assert BuildEventId(tweet.tweetId, t) in existing || EventIds(added)[0] == BuildEventId(tweet.tweetId, t);
    } else {
      FreshEventsComplete(tweet, rawId, decisionId, decision, tickers[1..], existing, t);
      if added != rest {
        assert added == [added[0]] + rest;
        EventIdsAppend([added[0]], rest);
      }
    }
  }

  lemma VerdictEvents(tweet: Tweet, rawId: int, decisionId: int, d: Decision, aliases: seq<AliasRow>, existing: seq<string>)
    ensures var added := FreshEvents(tweet, rawId, decisionId, d, TickersOf(d, aliases), existing);
            && Complete(tweet.tweetId, d, aliases, existing + EventIds(added))
            && (forall e :: e in added ==> e.decisionId == decisionId && StandsFor(tweet.tweetId, d, aliases, e))
            && (d.intent == Noise ==> added == [])
  {
    if d.intent != Noise {
      var tickers := ResolveTickers(d.tickers, aliases);
      FreshEventsSound(tweet, rawId, decisionId, d, tickers, existing);
      forall t | t in tickers
        ensures tweet.tweetId + ":" + t in existing + EventIds(FreshEvents(tweet, rawId, decisionId, d, tickers, existing))
      {
        FreshEventsComplete(tweet, rawId, decisionId, d, tickers, existing, t);
      }
    }
  }

  /** An analysis that is loaded and then committed adds its own decision row, and an event for every resolved ticker
      that had none; a noise verdict leaves the events table as it is. */
  lemma AnalysisCommits(c: Config, s: Sys, input: LlmInput, later: LlmInput)
    requires s.llm.LLoad? && 1 <= s.llm.id <= |s.db.tweets|
    ensures var s' := LlmStep(c, LlmStep(c, s, input), later);
            var d, tweetId := input.analysis.decision, s.db.tweets[s.llm.id - 1].tweetId;
            && s'.db.decisions == s.db.decisions + [DecisionRow(s.llm.id, d, input.analysis.status)]
            && s.db.events <= s'.db.events
            && Complete(tweetId, d, input.aliases, EventIds(s'.db.events))
            && (forall e :: e in s'.db.events[|s.db.events|..] ==> StandsFor(tweetId, d, input.aliases, e))
            && (d.intent == Noise ==> s'.db.events == s.db.events)
  {
    var d, tweet := input.analysis.decision, s.db.tweets[s.llm.id - 1];
    VerdictEvents(tweet, s.llm.id, |s.db.decisions| + 1, d, input.aliases, EventIds(s.db.events));
    var added := FreshEvents(tweet, s.llm.id, |s.db.decisions| + 1, d, TickersOf(d, input.aliases), EventIds(s.db.events));
    LoadEffect(c, s, input, added);
    CommitEffect(c, LlmStep(c, s, input), later);
    EventIdsAppend(s.db.events, added);
  }

  lemma LoadEffect(c: Config, s: Sys, input: LlmInput, added: seq<EventRow>)
    requires s.llm.LLoad? && 1 <= s.llm.id <= |s.db.tweets|
    requires var d := input.analysis.decision;
             added == FreshEvents(s.db.tweets[s.llm.id - 1], s.llm.id, |s.db.decisions| + 1, d, TickersOf(d, input.aliases),
                                  EventIds(s.db.events))
    ensures LlmStep(c, s, input) ==
              s.(llm := LCommit(DecisionRow(s.llm.id, input.analysis.decision, input.analysis.status), added))
  {
    assert LlmStep(c, s, input) == Loaded(s, s.llm.id, input.analysis, TickersOf(input.analysis.decision, input.aliases));
  }

  lemma CommitEffect(c: Config, s: Sys, input: LlmInput)
    requires s.llm.LCommit?
    ensures LlmStep(c, s, input).db == s.db.(decisions := s.db.decisions + [s.llm.row], events := s.db.events + s.llm.added)
    ensures !LlmStep(c, s, input).llm.LCommit?
  {
  }

  lemma OtherLlmStep(c: Config, s: Sys, input: LlmInput)
    requires !s.llm.LCommit? && !(s.llm.LLoad? && 1 <= s.llm.id <= |s.db.tweets|)
    ensures var s' := LlmStep(c, s, input);
            s'.db.decisions == s.db.decisions && s'.db.events == s.db.events && !s'.llm.LCommit?
  {
  }

  // ---- All analyses of a run ----

  // Row n of the decisions is the verdict of step i, and its events are those of the verdict
  ghost predicate Covered(steps: seq<Step>, trace: seq<Sys>, tweets: seq<Tweet>, row: DecisionRow, n: nat, events: seq<EventRow>, i: int)
    requires |trace| > |steps|
  {
    && AnalysedAt(steps, trace, i, row) && 1 <= row.rawTweetId <= |tweets|
    && var tweetId, aliases := tweets[row.rawTweetId - 1].tweetId, steps[i].llmInput.aliases;
       && Complete(tweetId, row.decision, aliases, EventIds(events))
       && forall e :: e in events && e.decisionId == n + 1 ==> StandsFor(tweetId, row.decision, aliases, e)
  }

  ghost predicate AllCovered(steps: seq<Step>, trace: seq<Sys>, db: Db, at: seq<int>)
    requires |trace| > |steps|
  {
    |at| == |db.decisions| && forall n :: 0 <= n < |at| ==> Covered(steps, trace, db.tweets, db.decisions[n], n, db.events, at[n])
  }

  // The verdict in hand, filled into the session at step i
  ghost predicate InHandCovered(steps: seq<Step>, trace: seq<Sys>, db: Db, pc: LlmPc, i: int)
    requires |trace| > |steps|
  {
    pc.LCommit? ==>
      && AnalysedAt(steps, trace, i, pc.row) && 1 <= pc.row.rawTweetId <= |db.tweets|
      && var tweetId, aliases := db.tweets[pc.row.rawTweetId - 1].tweetId, steps[i].llmInput.aliases;
         && Complete(tweetId, pc.row.decision, aliases, EventIds(db.events) + EventIds(pc.added))
         && forall e :: e in pc.added ==> e.decisionId == |db.decisions| + 1 && StandsFor(tweetId, pc.row.decision, aliases, e)
  }

  // Events refer to rows that are there
  predicate Refer(db: Db) {
    forall e :: e in db.events ==> 1 <= e.decisionId <= |db.decisions|
  }

  lemma CoveredKept(steps: seq<Step>, trace: seq<Sys>, step: Step, s': Sys, tweets: seq<Tweet>, tweets': seq<Tweet>,
                    row: DecisionRow, n: nat, events: seq<EventRow>, added: seq<EventRow>, i: int)
    requires |trace| == |steps| + 1 && Covered(steps, trace, tweets, row, n, events, i) && tweets <= tweets'
    requires forall e :: e in added ==> e.decisionId != n + 1
    ensures Covered(steps + [step], trace + [s'], tweets', row, n, events + added, i)
  {
    assert (steps + [step])[i] == steps[i] && (trace + [s'])[i] == trace[i];
    EventIdsAppend(events, added);
  }

  lemma HandKeptCovered(steps: seq<Step>, trace: seq<Sys>, step: Step, s': Sys, db: Db, db': Db, pc: LlmPc, i: int)
    requires |trace| == |steps| + 1 && InHandCovered(steps, trace, db, pc, i)
    requires db.tweets <= db'.tweets && db'.decisions == db.decisions && db'.events == db.events
    ensures InHandCovered(steps + [step], trace + [s'], db', pc, i)
  {
    if pc.LCommit? {
      assert (steps + [step])[i] == steps[i] && (trace + [s'])[i] == trace[i];
    }
  }

  lemma AllCoveredKept(steps: seq<Step>, trace: seq<Sys>, step: Step, s': Sys, db: Db, db': Db, at: seq<int>)
    requires |trace| == |steps| + 1 && AllCovered(steps, trace, db, at)
    requires db.tweets <= db'.tweets && db'.decisions == db.decisions && db'.events == db.events
    ensures AllCovered(steps + [step], trace + [s'], db', at)
  {
    forall n | 0 <= n < |at| ensures Covered(steps + [step], trace + [s'], db'.tweets, db'.decisions[n], n, db'.events, at[n]) {
      assert db.events + [] == db.events;
      CoveredKept(steps, trace, step, s', db.tweets, db'.tweets, db.decisions[n], n, db.events, [], at[n]);
    }
  }

  lemma CommitCovers(steps: seq<Step>, trace: seq<Sys>, step: Step, s': Sys, db: Db, db': Db, row: DecisionRow, added: seq<EventRow>,
                     at: seq<int>, i: int)
    requires |trace| == |steps| + 1 && AllCovered(steps, trace, db, at) && InHandCovered(steps, trace, db, LCommit(row, added), i)
    requires Refer(db) && db' == db.(decisions := db.decisions + [row], events := db.events + added)
    ensures AllCovered(steps + [step], trace + [s'], db', at + [i])
  {
    var n := |at|;
    forall m | 0 <= m < n
      ensures Covered(steps + [step], trace + [s'], db'.tweets, db'.decisions[m], m, db'.events, at[m])
    {
      CoveredKept(steps, trace, step, s', db.tweets, db.tweets, db.decisions[m], m, db.events, added, at[m]);
    }
    assert (steps + [step])[i] == steps[i] && (trace + [s'])[i] == trace[i];
    EventIdsAppend(db.events, added);
    assert Covered(steps + [step], trace + [s'], db'.tweets, row, n, db'.events, i);
  }

  lemma LoadCovers(c: Config, steps: seq<Step>, trace: seq<Sys>, input: LlmInput)
    requires |trace| == |steps| + 1
    requires var s := trace[|steps|]; s.llm.LLoad? && 1 <= s.llm.id <= |s.db.tweets|
    ensures var s := trace[|steps|];
            var s' := LlmStep(c, s, input);
            s'.db == s.db && InHandCovered(steps + [Analyze(input)], trace + [s'], s'.db, s'.llm, |steps|)
  {
    var s := trace[|steps|];
    var d, tweet := input.analysis.decision, s.db.tweets[s.llm.id - 1];
    var added := FreshEvents(tweet, s.llm.id, |s.db.decisions| + 1, d, TickersOf(d, input.aliases), EventIds(s.db.events));
    VerdictEvents(tweet, s.llm.id, |s.db.decisions| + 1, d, input.aliases, EventIds(s.db.events));
    LoadEffect(c, s, input, added);
    LoadedCovers(steps, trace, input, s, LlmStep(c, s, input), added);
  }

  lemma LoadedCovers(steps: seq<Step>, trace: seq<Sys>, input: LlmInput, s: Sys, s': Sys, added: seq<EventRow>)
    requires |trace| == |steps| + 1 && trace[|steps|] == s && s.llm.LLoad? && 1 <= s.llm.id <= |s.db.tweets|
    requires s' == s.(llm := LCommit(DecisionRow(s.llm.id, input.analysis.decision, input.analysis.status), added))
    requires Complete(s.db.tweets[s.llm.id - 1].tweetId, input.analysis.decision, input.aliases,
                      EventIds(s.db.events) + EventIds(added))
    requires forall e :: e in added ==>
               e.decisionId == |s.db.decisions| + 1
               && StandsFor(s.db.tweets[s.llm.id - 1].tweetId, input.analysis.decision, input.aliases, e)
    ensures InHandCovered(steps + [Analyze(input)], trace + [s'], s'.db, s'.llm, |steps|)
  {
    LoadedAt(steps, trace, input, s, s');
    HandIsCovered(steps + [Analyze(input)], trace + [s'], s'.db, s'.llm.row, added, |steps|);
  }

  lemma LoadedAt(steps: seq<Step>, trace: seq<Sys>, input: LlmInput, s: Sys, s': Sys)
    requires |trace| == |steps| + 1 && trace[|steps|] == s && s.llm.LLoad?
    ensures var row := DecisionRow(s.llm.id, input.analysis.decision, input.analysis.status);
            && AnalysedAt(steps + [Analyze(input)], trace + [s'], |steps|, row)
            && (steps + [Analyze(input)])[|steps|] == Analyze(input)
  {
  }

  lemma HandIsCovered(steps: seq<Step>, trace: seq<Sys>, db: Db, row: DecisionRow, added: seq<EventRow>, i: int)
    requires |trace| > |steps| && AnalysedAt(steps, trace, i, row) && 1 <= row.rawTweetId <= |db.tweets|
    requires Complete(db.tweets[row.rawTweetId - 1].tweetId, row.decision, steps[i].llmInput.aliases,
                      EventIds(db.events) + EventIds(added))
    requires forall e :: e in added ==>
               e.decisionId == |db.decisions| + 1
               && StandsFor(db.tweets[row.rawTweetId - 1].tweetId, row.decision, steps[i].llmInput.aliases, e)
    ensures InHandCovered(steps, trace, db, LCommit(row, added), i)
  {
  }

  lemma StepCovers(c: Config, steps: seq<Step>, trace: seq<Sys>, step: Step, at: seq<int>, i: int) returns (at': seq<int>, i': int)
    requires |trace| == |steps| + 1
    requires var s := trace[|steps|]; Refer(s.db) && AllCovered(steps, trace, s.db, at) && InHandCovered(steps, trace, s.db, s.llm, i)
    ensures var s' := Exec(c, trace[|steps|], step);
            && AllCovered(steps + [step], trace + [s'], s'.db, at')
            && InHandCovered(steps + [step], trace + [s'], s'.db, s'.llm, i')
  {
    var s, s' := trace[|steps|], Exec(c, trace[|steps|], step);
    at', i' := at, i;
    if !step.Analyze? {
      OtherStep(c, s, step);
      AllCoveredKept(steps, trace, step, s', s.db, s'.db, at);
      if s'.llm == s.llm { HandKeptCovered(steps, trace, step, s', s.db, s'.db, s.llm, i); }
    } else {
      at', i' := LlmStepCovers(c, steps, trace, step.llmInput, at, i);
    }
  }

  lemma OtherStep(c: Config, s: Sys, step: Step)
    requires !step.Analyze?
    ensures var s' := Exec(c, s, step);
            s.db.tweets <= s'.db.tweets && s'.db.decisions == s.db.decisions && s'.db.events == s.db.events
            && (s'.llm == s.llm || !s'.llm.LCommit?)
  {
    LlmSideFrame(c, s, step);
    TablesGrow(c, s, step);
  }

  lemma LlmStepCovers(c: Config, steps: seq<Step>, trace: seq<Sys>, input: LlmInput, at: seq<int>, i: int)
    returns (at': seq<int>, i': int)
    requires |trace| == |steps| + 1
    requires var s := trace[|steps|]; Refer(s.db) && AllCovered(steps, trace, s.db, at) && InHandCovered(steps, trace, s.db, s.llm, i)
    ensures var s' := LlmStep(c, trace[|steps|], input);
            && AllCovered(steps + [Analyze(input)], trace + [s'], s'.db, at')
            && InHandCovered(steps + [Analyze(input)], trace + [s'], s'.db, s'.llm, i')
  {
    var s, s', step := trace[|steps|], LlmStep(c, trace[|steps|], input), Analyze(input);
    at', i' := at, i;
    if s.llm.LCommit? {
      CommitEffect(c, s, input);
      CommitCovers(steps, trace, step, s', s.db, s'.db, s.llm.row, s.llm.added, at, i);
      at' := at + [i];
    } else if s.llm.LLoad? && 1 <= s.llm.id <= |s.db.tweets| {
      LoadCovers(c, steps, trace, input);
      AllCoveredKept(steps, trace, step, s', s.db, s'.db, at);
      i' := |steps|;
    } else {
      OtherLlmStep(c, s, input);
      LlmFrame(c, s, input);
      AllCoveredKept(steps, trace, step, s', s.db, s'.db, at);
    }
  }

  lemma {:induction false} RunCovers(c: Config, s0: Sys, steps: seq<Step>) returns (at: seq<int>, i: int)
    requires Init(s0)
    ensures var trace := Trace(c, s0, steps);
            var s := trace[|steps|];
            AllCovered(steps, trace, s.db, at) && InHandCovered(steps, trace, s.db, s.llm, i)
  {
    if steps == [] {
      at, i := [], 0;
    } else {
      var n := |steps| - 1;
      var front, step := steps[..n], steps[n];
      var trace := Trace(c, s0, front);
      assert steps == front + [step] && Trace(c, s0, steps) == trace + [Exec(c, trace[n], step)];
      at, i := RunCovers(c, s0, front);
      TraceSound(c, s0, front);
      at, i := StepCovers(c, front, trace, step, at, i);
    }
  }

  lemma TraceSound(c: Config, s0: Sys, steps: seq<Step>)
    requires Init(s0)
    ensures Refer(Trace(c, s0, steps)[|steps|].db)
  {
    TraceIsRun(c, s0, steps, |steps|);
    assert steps[..|steps|] == steps;
    RunKeepsSound(c, s0, steps);
    ReferSound(Run(c, s0, steps).db);
  }

  lemma ReferSound(db: Db)
    requires SoundTables(db)
    ensures Refer(db)
  {
    forall e | e in db.events ensures 1 <= e.decisionId <= |db.decisions| {
      assert EventOk(db.tweets, db.decisions, e);
    }
  }

  /** In every run each committed decision is the verdict that some step got for the row's tweet. If the verdict is not
      noise, then for each ticker that its tickers resolve to, with the alias rows of that step, the event id is in the
      events table; and the events that name the decision are exactly of that kind, so noise has none. */
  lemma EveryAnalysisIsCovered(c: Config, s0: Sys, steps: seq<Step>, n: nat) returns (i: int)
    requires Init(s0) && n < |Run(c, s0, steps).db.decisions|
    ensures var db := Run(c, s0, steps).db;
            Covered(steps, Trace(c, s0, steps), db.tweets, db.decisions[n], n, db.events, i)
  {
    TraceIsRun(c, s0, steps, |steps|);
    assert steps[..|steps|] == steps;
    var at, pending := RunCovers(c, s0, steps);
    i := at[n];
  }
}
