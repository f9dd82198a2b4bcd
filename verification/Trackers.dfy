/** The two spend trackers and the switch activations they trigger
    (backend/services/llm_budget.py, backend/services/twitterapi_budget.py). */
module Trackers {
  import opened Basics
  import opened Records
  import opened Risk
  import opened Protocol
  import opened Worlds
  import opened KillSwitch

  // period: the day of the LLM counter, the month of the tweet counter
  datatype BudgetStatus = BudgetStatus(period: int, spend: real, limit: real)

  predicate OverBudget(status: BudgetStatus) {
    status.spend >= status.limit
  }

  function Remaining(status: BudgetStatus): (r: real)
    ensures r >= 0.0 && (r == 0.0 <==> status.spend >= status.limit)
    ensures status.spend < status.limit ==> r == status.limit - status.spend
  {
    if status.limit - status.spend > 0.0 then status.limit - status.spend else 0.0
  }

  datatype ValueError = ValueError(message: string)

  class LLMBudgetTracker {
    const world: World
    const limit: real

    constructor (world: World)
      requires world.c.llmLimit > 0.0
      ensures this.world == world && limit == world.c.llmLimit > 0.0
    {
      this.world, this.limit := world, world.c.llmLimit;
    }

    /** Adds one call to the counter of the current day and to no other; a negative cost is refused. */
    method RecordCall(cost: real) returns (r: Result<BudgetStatus, ValueError>)
      requires world.Valid() && world.actor.Analyst? && world.tx.None?
      requires limit == world.c.llmLimit && world.sys.llm == LCharge(cost)
      modifies world`redis, world`sys
      ensures world.Valid() && (r.Err? <==> cost < 0.0)
      ensures r.Err? ==> world.sys == CrashLlm(old(world.sys))
      ensures r.Ok? ==>
        var day := Day(world.clock);
        && r.value == BudgetStatus(day, (if day in old(world.redis.llmSpend) then old(world.redis.llmSpend)[day] else 0.0) + cost, limit)
        && world.redis.llmSpend == old(world.redis.llmSpend)[day := r.value.spend]
        && world.sys == old(world.sys).(redis := old(world.redis).(llmSpend := world.redis.llmSpend),
                                        llm := if r.value.spend >= limit then LTrip else LCheck(ReadEnv))
    {
      if cost < 0.0 {
        world.Do(Analyze(NoAnalysis()));
        return Err(ValueError("cost_usd must be >= 0"));
      }
      var day := Day(world.clock);
      var spend := Spend(world.redis.llmSpend, day) + cost;
      world.redis := world.redis.(llmSpend := world.redis.llmSpend[day := spend]);
      world.Do(Analyze(NoAnalysis()));
      return Ok(BudgetStatus(day, spend, limit));
    }

    method CurrentStatus() returns (status: BudgetStatus)
      ensures status.period == Day(world.clock) && status.limit == limit
      ensures status.spend == if Day(world.clock) in world.redis.llmSpend then world.redis.llmSpend[Day(world.clock)] else 0.0
    {
      var day := Day(world.clock);
      status := BudgetStatus(day, if day in world.redis.llmSpend then world.redis.llmSpend[day] else 0.0, limit);
    }
  }

  /** Activates exactly when the status is over budget; the caller commits. */
  method TriggerFromLlmBudget(service: KillSwitchService, status: BudgetStatus) returns (activated: bool)
    requires service.world.Valid() && service.world.actor.Analyst? && service.world.tx.None?
    requires OverBudget(status) ==> service.world.sys.llm.LTrip?
    modifies service.world`tx, service.world`redis, service.world`sys
    ensures service.world.Valid() && (activated <==> status.spend >= status.limit)
    ensures !activated ==> service.world.sys == old(service.world.sys)
    ensures activated ==>
              && InTx(service.world.sys, Analyst, true)
              && service.world.sys == Written(old(service.world.sys), Analyst, SwitchRow(true, BudgetLLM, "llm_budget_tracker"))
  {
    if !OverBudget(status) {
      return false;
    }
    service.Activate(BudgetLLM, "llm_budget_tracker");
    return true;
  }

  class TwitterApiBudgetTracker {
    const world: World
    const cost: real
    const limit: real

    constructor (world: World)
      requires world.c.tweetCost >= 0.0 && world.c.tweetLimit > 0.0
      ensures this.world == world && cost == world.c.tweetCost >= 0.0 && limit == world.c.tweetLimit > 0.0
    {
      this.world, this.cost, this.limit := world, world.c.tweetCost, world.c.tweetLimit;
    }

    /** Adds one tweet to the counter of the current month and to no other. */
    method RecordTweet() returns (status: BudgetStatus)
      requires world.Valid() && world.actor.Ingestor? && world.sys.ingest == ICharge
      requires cost == world.c.tweetCost && limit == world.c.tweetLimit
      modifies world`redis, world`sys
      ensures world.Valid()
      ensures var month := world.c.month(world.clock);
              && status == BudgetStatus(month, (if month in old(world.redis.tweetSpend) then old(world.redis.tweetSpend)[month] else 0.0) + cost, limit)
              && world.redis.tweetSpend == old(world.redis.tweetSpend)[month := status.spend]
      ensures world.sys == old(world.sys).(redis := old(world.redis).(tweetSpend := world.redis.tweetSpend),
                                           ingest := if status.spend >= limit then ITrip else IWait, hist := world.sys.hist)
      ensures world.sys.hist == old(world.sys.hist).(tweetCharges := world.sys.hist.tweetCharges)
    {
      var month := world.c.month(world.clock);
      var spend := Spend(world.redis.tweetSpend, month) + cost;
      world.redis := world.redis.(tweetSpend := world.redis.tweetSpend[month := spend]);
      world.Do(Ingest(NoTweet()));
      return BudgetStatus(month, spend, limit);
    }
  }

  method TriggerFromBudget(service: KillSwitchService, status: BudgetStatus) returns (activated: bool)
    requires service.world.Valid() && service.world.actor.Ingestor? && service.world.tx.None?
    requires OverBudget(status) ==> service.world.sys.ingest.ITrip?
    modifies service.world`tx, service.world`redis, service.world`sys
    ensures service.world.Valid() && (activated <==> status.spend >= status.limit)
    ensures !activated ==> service.world.sys == old(service.world.sys)
    ensures activated ==>
              && InTx(service.world.sys, Ingestor, true)
              && service.world.sys == Written(old(service.world.sys), Ingestor, SwitchRow(true, BudgetTwitter, "twitterapi_budget_tracker"))
  {
    if !OverBudget(status) {
      return false;
    }
    service.Activate(BudgetTwitter, "twitterapi_budget_tracker");
    return true;
  }
}
