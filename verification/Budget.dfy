/** The two spend counters (backend/services/llm_budget.py, backend/services/twitterapi_budget.py): how far
    a counter can run past its limit, over any run. */
module Budget {
  import opened Basics
  import opened Records
  import opened Risk
  import opened Protocol
  import opened Switch

  // Below the limit, or past it by less than n units
  predicate Within(spend: real, limit: real, n: nat, unit: real) {
    spend < limit || spend < limit + n as real * unit
  }

  // Below the limit plus one unit and one more for each setback
  predicate OvershootAtMost(spend: real, limit: real, setbacks: int, unit: real) {
    spend < limit + (1 + setbacks) as real * unit
  }

  lemma WithinMore(spend: real, limit: real, n: nat, m: nat, unit: real)
    requires Within(spend, limit, n, unit) && n <= m && unit >= 0.0
    ensures Within(spend, limit, m, unit)
  {
    assert n as real * unit <= m as real * unit;
  }

  lemma WithinCharge(spend: real, limit: real, n: nat, unit: real, cost: real)
    requires Within(spend, limit, n, unit) && 0.0 <= cost <= unit
    ensures Within(spend + cost, limit, n + 1, unit)
  {
    assert (n + 1) as real * unit == n as real * unit + unit;
    assert n as real * unit >= 0.0;
  }

  // ---- The LLM counter ----

  // No charge can come before a deactivation or a crash: the worker is activating the switch, or it is at
  // its check with the switch on.
  predicate LlmBlocked(s: Sys) {
    s.llm.LTrip? || s.llm.LActivating? || (LatestActivated(s.db.switchLog) && (s.llm.LCheck? || s.llm.LStopped?))
  }

  predicate CostBounded(pc: LlmPc, unit: real) {
    match pc
    case LCommit(row, _) => row.decision.costUsd <= unit
    case LPublish(_, cost) => cost <= unit
    case LCharge(cost) => cost <= unit
    case _ => true
  }

  predicate AnalysesCostAtMost(steps: seq<Step>, unit: real) {
    forall i :: 0 <= i < |steps| && steps[i].Analyze? ==> steps[i].llmInput.analysis.decision.costUsd <= unit
  }

  // Deactivations and LLM-worker crashes so far
  function LlmSetbacks(s: Sys): nat { s.hist.deactivations + s.hist.llmCrashes }

  function LlmSlack(s: Sys, since: nat): nat
    requires since <= LlmSetbacks(s)
  {
    LlmSetbacks(s) - since + if LlmBlocked(s) then 1 else 0
  }

  predicate LlmSpendOk(c: Config, s: Sys, day: int, unit: real, since: nat) {
    && since <= LlmSetbacks(s)
    && Within(Spend(s.redis.llmSpend, day), c.llmLimit, LlmSlack(s, since), unit)
  }

  /** A worker step that charges nothing keeps the worker blocked if it was. */
  lemma LlmStaysBlocked(c: Config, s: Sys, input: LlmInput)
    requires OwnerOk(s.tx, s.ingest, s.llm) && LlmBlocked(s)
    ensures var s' := LlmStep(c, s, input);
            LlmBlocked(s') && s'.redis.llmSpend == s.redis.llmSpend && LlmSetbacks(s') >= LlmSetbacks(s)
  {
  }

  lemma LlmChargeSpend(c: Config, s: Sys, input: LlmInput, day: int)
    requires s.llm.LCharge?
    ensures var s' := LlmStep(c, s, input);
            var was, now := Spend(s.redis.llmSpend, day), Spend(s'.redis.llmSpend, day);
            && LlmSetbacks(s') >= LlmSetbacks(s)
            && (now == was || (s.llm.cost >= 0.0 && now == was + s.llm.cost && (now >= c.llmLimit ==> LlmBlocked(s'))))
  {
  }

  lemma LlmQuietSpend(c: Config, s: Sys, input: LlmInput)
    requires !s.llm.LCharge?
    ensures var s' := LlmStep(c, s, input);
            s'.redis.llmSpend == s.redis.llmSpend && LlmSetbacks(s') >= LlmSetbacks(s)
  {
  }

  lemma LlmStepSpend(c: Config, s: Sys, input: LlmInput, day: int, unit: real, since: nat)
    requires OwnerOk(s.tx, s.ingest, s.llm) && CostBounded(s.llm, unit) && unit >= 0.0
    requires LlmSpendOk(c, s, day, unit, since)
    ensures LlmSpendOk(c, LlmStep(c, s, input), day, unit, since)
  {
    var s' := LlmStep(c, s, input);
    var spend := Spend(s.redis.llmSpend, day);
    if LlmBlocked(s) {
      LlmStaysBlocked(c, s, input);
      WithinMore(spend, c.llmLimit, LlmSlack(s, since), LlmSlack(s', since), unit);
    } else if s.llm.LCharge? {
      LlmChargeSpend(c, s, input, day);
      var spend' := Spend(s'.redis.llmSpend, day);
      if spend' == spend {
        WithinMore(spend, c.llmLimit, LlmSlack(s, since), LlmSlack(s', since), unit);
      } else if spend' >= c.llmLimit {
        WithinCharge(spend, c.llmLimit, LlmSlack(s, since), unit, s.llm.cost);
        WithinMore(spend', c.llmLimit, LlmSlack(s, since) + 1, LlmSlack(s', since), unit);
      }
    } else {
      LlmQuietSpend(c, s, input);
      WithinMore(spend, c.llmLimit, LlmSlack(s, since), LlmSlack(s', since), unit);
    }
  }

  lemma LlmOtherSpend(c: Config, s: Sys, step: Step, day: int)
    requires !step.Analyze? && OwnerOk(s.tx, s.ingest, s.llm)
    ensures var s' := Exec(c, s, step);
            && LlmSetbacks(s') >= LlmSetbacks(s)
            && (LlmSetbacks(s') == LlmSetbacks(s) && LlmBlocked(s) ==> LlmBlocked(s'))
            && (Spend(s'.redis.llmSpend, day) == Spend(s.redis.llmSpend, day) || Spend(s'.redis.llmSpend, day) == 0.0)
  {
    LlmSideFrame(c, s, step);
    StepKeepsActivation(c, s, step);
    if step.LlmCrash? || step.LlmRestart? { LlmResetSetbacks(c, s, step); }
  }

  lemma LlmResetSetbacks(c: Config, s: Sys, step: Step)
    requires step.LlmCrash? || step.LlmRestart?
    ensures var s' := Exec(c, s, step);
            && (step.LlmCrash? && !s.llm.LStopped? ==> LlmSetbacks(s') == LlmSetbacks(s) + 1)
            && (s.llm.LStopped? ==> s'.llm.LStopped? || s'.llm.LCheck?)
            && (step.LlmRestart? && !s.llm.LStopped? ==> s' == s)
            && s'.db == s.db
  {
  }

  lemma StepSpend(c: Config, s: Sys, step: Step, day: int, unit: real, since: nat)
    requires ValidConfig(c) && OwnerOk(s.tx, s.ingest, s.llm) && CostBounded(s.llm, unit) && unit >= 0.0
    requires LlmSpendOk(c, s, day, unit, since)
    ensures LlmSpendOk(c, Exec(c, s, step), day, unit, since)
  {
    if step.Analyze? {
      LlmStepSpend(c, s, step.llmInput, day, unit, since);
      return;
    }
    LlmOtherSpend(c, s, step, day);
    var s' := Exec(c, s, step);
    WithinMore(Spend(s.redis.llmSpend, day), c.llmLimit, LlmSlack(s, since), LlmSlack(s', since), unit);
  }

  lemma StepCost(c: Config, s: Sys, step: Step, unit: real)
    requires CostBounded(s.llm, unit) && (step.Analyze? ==> step.llmInput.analysis.decision.costUsd <= unit)
    ensures CostBounded(Exec(c, s, step).llm, unit)
  {
    if !step.Analyze? { LlmSideFrame(c, s, step); }
  }

  lemma {:induction false} RunSpend(c: Config, s: Sys, steps: seq<Step>, day: int, unit: real)
    requires ValidConfig(c) && OwnerOk(s.tx, s.ingest, s.llm) && CostBounded(s.llm, unit) && unit >= 0.0
    requires AnalysesCostAtMost(steps, unit) && Spend(s.redis.llmSpend, day) < c.llmLimit
    ensures LlmSpendOk(c, Run(c, s, steps), day, unit, LlmSetbacks(s)) && CostBounded(Run(c, s, steps).llm, unit)
  {
    if steps != [] {
      var n := |steps| - 1;
      RunSpend(c, s, steps[..n], day, unit);
      RunOwnerOk(c, s, steps[..n]);
      StepSpend(c, Run(c, s, steps[..n]), steps[n], day, unit, LlmSetbacks(s));
      StepCost(c, Run(c, s, steps[..n]), steps[n], unit);
    }
  }

  /** LLM overshoot: a day's counter that starts below the limit stays below the limit plus one analysis, plus
      one more for each deactivation and each crash of the LLM worker since. */
  lemma LlmOvershoot(c: Config, s: Sys, steps: seq<Step>, day: int, unit: real)
    requires ValidConfig(c) && OwnerOk(s.tx, s.ingest, s.llm) && CostBounded(s.llm, unit) && unit >= 0.0
    requires AnalysesCostAtMost(steps, unit) && Spend(s.redis.llmSpend, day) < c.llmLimit
    ensures var s' := Run(c, s, steps);
            OvershootAtMost(Spend(s'.redis.llmSpend, day), c.llmLimit, LlmSetbacks(s') - LlmSetbacks(s), unit)
  {
    RunSpend(c, s, steps, day, unit);
    LlmOvershootAt(c, s, Run(c, s, steps), day, unit);
  }

  lemma LlmOvershootAt(c: Config, s: Sys, s': Sys, day: int, unit: real)
    requires LlmSpendOk(c, s', day, unit, LlmSetbacks(s)) && unit >= 0.0
    ensures OvershootAtMost(Spend(s'.redis.llmSpend, day), c.llmLimit, LlmSetbacks(s') - LlmSetbacks(s), unit)
  {
    OvershootArithmetic(Spend(s'.redis.llmSpend, day), c.llmLimit, LlmSlack(s', LlmSetbacks(s)),
                        LlmSetbacks(s') - LlmSetbacks(s), unit);
  }

  lemma OvershootArithmetic(spend: real, limit: real, slack: nat, setbacks: nat, unit: real)
    requires Within(spend, limit, slack, unit) && slack <= setbacks + 1 && unit >= 0.0
    ensures spend < limit + (1 + setbacks) as real * unit
  {
    WithinMore(spend, limit, slack, setbacks + 1, unit);
    assert (1 + setbacks) as real * unit >= 0.0;
  }

  // ---- The tweet counter ----

  predicate IngestBlocked(s: Sys) {
    s.ingest.ITrip? || s.ingest.IActivating?
    || (LatestActivated(s.db.switchLog) && (s.ingest.IWait? || s.ingest.ICheck? || s.ingest.IStopped?))
  }

  function IngestSetbacks(s: Sys): nat { s.hist.deactivations + s.hist.ingestCrashes }

  function IngestSlack(s: Sys, since: nat): nat
    requires since <= IngestSetbacks(s)
  {
    IngestSetbacks(s) - since + if IngestBlocked(s) then 1 else 0
  }

  predicate TweetSpendOk(c: Config, s: Sys, month: int, since: nat) {
    && since <= IngestSetbacks(s)
    && Within(Spend(s.redis.tweetSpend, month), c.tweetLimit, IngestSlack(s, since), c.tweetCost)
  }

  lemma IngestStaysBlocked(c: Config, s: Sys, input: IngestInput)
    requires OwnerOk(s.tx, s.ingest, s.llm) && IngestBlocked(s)
    ensures var s' := IngestStep(c, s, input);
            IngestBlocked(s') && s'.redis.tweetSpend == s.redis.tweetSpend && IngestSetbacks(s') >= IngestSetbacks(s)
  {
  }

  lemma IngestChargeSpend(c: Config, s: Sys, input: IngestInput, month: int)
    requires s.ingest.ICharge?
    ensures var s' := IngestStep(c, s, input);
            var was, now := Spend(s.redis.tweetSpend, month), Spend(s'.redis.tweetSpend, month);
            && IngestSetbacks(s') == IngestSetbacks(s)
            && (now == was || (now == was + c.tweetCost && (now >= c.tweetLimit ==> IngestBlocked(s'))))
  {
  }

  lemma IngestQuietSpend(c: Config, s: Sys, input: IngestInput)
    requires !s.ingest.ICharge?
    ensures var s' := IngestStep(c, s, input);
            s'.redis.tweetSpend == s.redis.tweetSpend && IngestSetbacks(s') >= IngestSetbacks(s)
  {
  }

  lemma IngestStepSpend(c: Config, s: Sys, input: IngestInput, month: int, since: nat)
    requires ValidConfig(c) && OwnerOk(s.tx, s.ingest, s.llm) && TweetSpendOk(c, s, month, since)
    ensures TweetSpendOk(c, IngestStep(c, s, input), month, since)
  {
    var s' := IngestStep(c, s, input);
    var spend := Spend(s.redis.tweetSpend, month);
    if IngestBlocked(s) {
      IngestStaysBlocked(c, s, input);
      WithinMore(spend, c.tweetLimit, IngestSlack(s, since), IngestSlack(s', since), c.tweetCost);
    } else if s.ingest.ICharge? {
      IngestChargeSpend(c, s, input, month);
      var spend' := Spend(s'.redis.tweetSpend, month);
      if spend' == spend {
        WithinMore(spend, c.tweetLimit, IngestSlack(s, since), IngestSlack(s', since), c.tweetCost);
      } else if spend' >= c.tweetLimit {
        WithinCharge(spend, c.tweetLimit, IngestSlack(s, since), c.tweetCost, c.tweetCost);
      }
    } else {
      IngestQuietSpend(c, s, input);
      WithinMore(spend, c.tweetLimit, IngestSlack(s, since), IngestSlack(s', since), c.tweetCost);
    }
  }

  lemma IngestOtherSpend(c: Config, s: Sys, step: Step, month: int)
    requires !step.Ingest? && OwnerOk(s.tx, s.ingest, s.llm)
    ensures var s' := Exec(c, s, step);
            && IngestSetbacks(s') >= IngestSetbacks(s)
            && (IngestSetbacks(s') == IngestSetbacks(s) && IngestBlocked(s) ==> IngestBlocked(s'))
            && (Spend(s'.redis.tweetSpend, month) == Spend(s.redis.tweetSpend, month)
                || Spend(s'.redis.tweetSpend, month) == 0.0)
  {
    IngestSideFrame(c, s, step);
    StepKeepsActivation(c, s, step);
    if step.IngestCrash? || step.IngestRestart? { IngestResetSetbacks(c, s, step); }
  }

  lemma IngestResetSetbacks(c: Config, s: Sys, step: Step)
    requires step.IngestCrash? || step.IngestRestart?
    ensures var s' := Exec(c, s, step);
            && (step.IngestCrash? && !s.ingest.IStopped? ==> IngestSetbacks(s') == IngestSetbacks(s) + 1)
            && (s.ingest.IStopped? ==> s'.ingest.IStopped? || s'.ingest.IWait?)
            && (step.IngestRestart? && !s.ingest.IStopped? ==> s' == s)
            && s'.db == s.db
  {
  }

  lemma StepTweetSpend(c: Config, s: Sys, step: Step, month: int, since: nat)
    requires ValidConfig(c) && OwnerOk(s.tx, s.ingest, s.llm) && TweetSpendOk(c, s, month, since)
    ensures TweetSpendOk(c, Exec(c, s, step), month, since)
  {
    if step.Ingest? {
      IngestStepSpend(c, s, step.ingestInput, month, since);
      return;
    }
    IngestOtherSpend(c, s, step, month);
    WithinMore(Spend(s.redis.tweetSpend, month), c.tweetLimit, IngestSlack(s, since),
               IngestSlack(Exec(c, s, step), since), c.tweetCost);
  }

  lemma {:induction false} RunTweetSpend(c: Config, s: Sys, steps: seq<Step>, month: int)
    requires ValidConfig(c) && OwnerOk(s.tx, s.ingest, s.llm) && Spend(s.redis.tweetSpend, month) < c.tweetLimit
    ensures TweetSpendOk(c, Run(c, s, steps), month, IngestSetbacks(s))
  {
    if steps != [] {
      var n := |steps| - 1;
      RunTweetSpend(c, s, steps[..n], month);
      RunOwnerOk(c, s, steps[..n]);
      StepTweetSpend(c, Run(c, s, steps[..n]), steps[n], month, IngestSetbacks(s));
    }
  }

  // Every charge of the month is still on its counter
  predicate CounterExact(c: Config, s: Sys, month: int) {
    Spend(s.redis.tweetSpend, month) == Charges(s.hist, month) as real * c.tweetCost
  }

  predicate CounterKept(steps: seq<Step>, month: int) {
    forall i :: 0 <= i < |steps| ==> steps[i] != LoseTweetSpend(month)
  }

  lemma StepCounterExact(c: Config, s: Sys, step: Step, month: int)
    requires CounterExact(c, s, month) && step != LoseTweetSpend(month)
    ensures CounterExact(c, Exec(c, s, step), month)
  {
    if step.Ingest? {
      IngestCounterExact(c, s, step.ingestInput, month);
    } else {
      IngestSideFrame(c, s, step);
    }
  }

  lemma IngestCounterExact(c: Config, s: Sys, input: IngestInput, month: int)
    requires CounterExact(c, s, month)
    ensures CounterExact(c, IngestStep(c, s, input), month)
  {
    if s.ingest.ICharge? {
      var n := Charges(s.hist, month);
      assert (n + 1) as real * c.tweetCost == n as real * c.tweetCost + c.tweetCost;
    } else {
      IngestQuietSpend(c, s, input);
      IngestQuietCharges(c, s, input);
    }
  }

  lemma IngestQuietCharges(c: Config, s: Sys, input: IngestInput)
    requires !s.ingest.ICharge?
    ensures IngestStep(c, s, input).hist.tweetCharges == s.hist.tweetCharges
  {
  }

  lemma {:induction false} RunCounterExact(c: Config, s: Sys, steps: seq<Step>, month: int)
    requires CounterExact(c, s, month) && CounterKept(steps, month)
    ensures CounterExact(c, Run(c, s, steps), month)
  {
    if steps != [] {
      var n := |steps| - 1;
      RunCounterExact(c, s, steps[..n], month);
      StepCounterExact(c, Run(c, s, steps[..n]), steps[n], month);
    }
  }

  // The least integer that is not below x
  function Ceiling(x: real): (r: int)
    ensures r as real >= x > (r - 1) as real
  {
    -((-x).Floor)
  }

  /** Tweet budget: from an empty counter, n charged tweets of a positive cost satisfy
      n <= ceil(limit / cost) + deactivations + ingestion crashes since; with neither, at most
      ceil(limit / cost) tweets are charged in the month. */
  lemma TweetsChargedBound(c: Config, s: Sys, steps: seq<Step>, month: int)
    requires ValidConfig(c) && c.tweetCost > 0.0 && OwnerOk(s.tx, s.ingest, s.llm)
    requires Spend(s.redis.tweetSpend, month) == 0.0 && Charges(s.hist, month) == 0 && CounterKept(steps, month)
    ensures var s' := Run(c, s, steps);
            Charges(s'.hist, month) <= Ceiling(c.tweetLimit / c.tweetCost)
              + (s'.hist.deactivations - s.hist.deactivations) + (s'.hist.ingestCrashes - s.hist.ingestCrashes)
  {
    RunTweetSpend(c, s, steps, month);
    RunCounterExact(c, s, steps, month);
    var s' := Run(c, s, steps);
    var setbacks := IngestSetbacks(s') - IngestSetbacks(s);
    OvershootArithmetic(Spend(s'.redis.tweetSpend, month), c.tweetLimit, IngestSlack(s', IngestSetbacks(s)), setbacks, c.tweetCost);
    ChargesArithmetic(Charges(s'.hist, month), setbacks, c.tweetLimit, c.tweetCost);
  }

  lemma ChargesArithmetic(n: nat, setbacks: nat, limit: real, cost: real)
    requires cost > 0.0 && n as real * cost < limit + (1 + setbacks) as real * cost
    ensures n <= Ceiling(limit / cost) + setbacks
  {
    var q := limit / cost;
    assert q * cost == limit;
    assert (n - 1 - setbacks) as real * cost < q * cost by {
      assert (n - 1 - setbacks) as real * cost == n as real * cost - (1 + setbacks) as real * cost;
    }
    CancelFactor((n - 1 - setbacks) as real, q, cost);
    assert (n - 1 - setbacks) as real < q;
  }

  lemma CancelFactor(a: real, b: real, x: real)
    requires x > 0.0 && a * x < b * x
    ensures a < b
  {
    assert (b - a) * x == b * x - a * x;
  }
}
