/** The kill-switch service and its two endpoints (backend/kill_switch/service.py, backend/api/kill_switch.py). */
module KillSwitch {
  import opened Basics
  import opened Records
  import Aliases
  import opened Protocol
  import opened Worlds

  datatype Source = FromEnv | FromRedis | FromDb | Nowhere
  datatype SwitchState = SwitchState(active: bool, source: Source)

  // (os.environ.get("KILL_SWITCH") or "").strip() in {"1", "true", "yes"}
  predicate EnvOn(env: Option<string>) {
    env.Some? && Aliases.Strip(env.value) in {"1", "true", "yes"}
  }

  // What a complete read sees
  predicate SwitchOn(redis: Redis, log: seq<SwitchRow>, envOn: bool) {
    envOn || redis.flag || LatestActivated(log)
  }

  predicate OwnsRows(actor: Actor) {
    actor.Ingestor? || actor.Analyst? || actor.Web?
  }

  function OwnerOf(actor: Actor): Owner
    requires OwnsRows(actor)
  {
    match actor
    case Ingestor => IngestionWorker
    case Analyst => LLMWorker
    case Web => Operator
  }

  // The counters around a switch transaction: a budget trip opens it, its commit ends the loop
  function Opening(s: Sys, actor: Actor): Sys {
    match actor
    case Ingestor => s.(ingest := IActivating)
    case Analyst => s.(llm := LActivating)
    case _ => s
  }

  function Closing(s: Sys, actor: Actor): Sys {
    match actor
    case Ingestor => s.(ingest := IStopped)
    case Analyst => s.(llm := LStopped)
    case _ => s
  }

  // Who may write which row: a worker that tripped its budget, or an operator
  predicate MayOpen(s: Sys, actor: Actor, row: SwitchRow) {
    match actor
    case Ingestor => s.ingest.ITrip? && row == SwitchRow(true, BudgetTwitter, "twitterapi_budget_tracker")
    case Analyst => s.llm.LTrip? && row == SwitchRow(true, BudgetLLM, "llm_budget_tracker")
    case Web => row.trigger == Manual
    case _ => false
  }

  predicate InTx(s: Sys, actor: Actor, written: bool) {
    OwnsRows(actor) && Holds(s, OwnerOf(actor)) && s.tx.value.written == written
    && (actor.Ingestor? ==> s.ingest.IActivating?) && (actor.Analyst? ==> s.llm.LActivating?)
  }

  class KillSwitchService {
    const world: World

    constructor (world: World)
      ensures this.world == world
    {
      this.world := world;
    }

    /** Three sources, the environment first, then Redis, then the latest row of the log. */
    method IsActive(env: Option<string>) returns (state: SwitchState)
      ensures var log := world.db.switchLog;
              var envOn := env.Some? && Aliases.Strip(env.value) in {"1", "true", "yes"};
              && (state.active <==> envOn || world.redis.flag || (log != [] && log[|log| - 1].activated))
              && (state.source.FromEnv? <==> envOn)
              && (state.source.FromRedis? <==> !envOn && world.redis.flag)
      ensures state.source.Nowhere? <==> !state.active
    {
      if EnvOn(env) {
        return SwitchState(true, FromEnv);
      }
      if world.redis.flag {
        return SwitchState(true, FromRedis);
      }
      if LatestActivated(world.db.switchLog) {
        return SwitchState(true, FromDb);
      }
      return SwitchState(false, Nowhere);
    }

    // session.add and flush: the row is pending and its session holds the write lock
    method Flush(row: SwitchRow)
      requires world.Valid() && world.tx.None? && MayOpen(world.sys, world.actor, row)
      modifies world`tx, world`sys
      ensures world.Valid() && InTx(world.sys, world.actor, false)
      ensures world.sys == Opening(OpenTx(old(world.sys), OwnerOf(world.actor), row), world.actor)
    {
      world.tx := Some(SwitchTx(OwnerOf(world.actor), row, false));
      match world.actor {
        case Ingestor => world.Do(Ingest(NoTweet()));
        case Analyst => world.Do(Analyze(NoAnalysis()));
        case Web =>
          var request := if row.activated then Request.Activate(row.actor) else Request.Deactivate(Some("I-understand"), row.actor, "-");
          world.Do(OpenRequest(request));
      }
    }

    /** activate(): the row is flushed, then the key is set; the caller commits. */
    method Activate(trigger: SwitchTrigger, actor: string)
      requires world.Valid() && world.tx.None? && MayOpen(world.sys, world.actor, SwitchRow(true, trigger, actor))
      modifies world`tx, world`redis, world`sys
      ensures world.Valid() && InTx(world.sys, world.actor, true) && world.redis == old(world.redis).(flag := true)
      ensures world.sys == Written(old(world.sys), world.actor, SwitchRow(true, trigger, actor))
    {
      Flush(SwitchRow(true, trigger, actor));
      WriteKey(true);
    }

    /** deactivate(): the row is flushed, then the key is deleted; the caller commits. */
    method Deactivate(actor: string)
      requires world.Valid() && world.tx.None? && world.actor.Web?
      modifies world`tx, world`redis, world`sys
      ensures world.Valid() && InTx(world.sys, world.actor, true) && world.redis == old(world.redis).(flag := false)
      ensures world.sys == Written(old(world.sys), world.actor, SwitchRow(false, Manual, actor))
    {
      Flush(SwitchRow(false, Manual, actor));
      WriteKey(false);
    }

    // set or delete the key, as the pending row says
    method WriteKey(on: bool)
      requires world.Valid() && InTx(world.sys, world.actor, false) && world.tx.value.row.activated == on
      modifies world`tx, world`redis, world`sys
      ensures world.Valid() && InTx(world.sys, world.actor, true)
      ensures var tx := old(world.tx).value;
              world.sys == old(world.sys).(redis := old(world.redis).(flag := on), tx := Some(tx.(written := true)))
    {
      world.redis := world.redis.(flag := on);
      world.tx := Some(world.tx.value.(written := true));
      AdvanceStep();
    }

    // session.commit() by the caller of activate and deactivate
    method Commit()
      requires world.Valid() && InTx(world.sys, world.actor, true)
      modifies world`tx, world`db, world`sys
      ensures world.Valid() && world.tx.None?
      ensures world.sys == Closing(AdvanceTx(old(world.sys)), world.actor)
    {
      world.db := world.db.(switchLog := world.db.switchLog + [world.tx.value.row]);
      world.tx := None;
      AdvanceStep();
    }

    ghost method AdvanceStep()
      requires Closed(world.c, world.actor, world.states) && world.sys in world.states
      requires exists written :: InTx(world.sys, world.actor, written)
      modifies world`sys
      ensures world.sys in world.states
      ensures world.sys == if old(world.sys).tx.value.written then Closing(AdvanceTx(old(world.sys)), world.actor)
                           else AdvanceTx(old(world.sys))
    {
      match world.actor {
        case Ingestor => world.Do(Ingest(NoTweet()));
        case Analyst => world.Do(Analyze(NoAnalysis()));
        case Web => world.Do(AdvanceRequest);
      }
    }
  }

  // A step that reads no message
  ghost function NoTweet(): IngestInput {
    IngestInput(Tweet("", "", "", 0), false)
  }

  ghost function NoAnalysis(): LlmInput {
    LlmInput(false, Analysis(Decision([], Noise, 0.0, Swing, 0.0), Success), [])
  }

  // Flushed and written, not committed
  function Written(s: Sys, actor: Actor, row: SwitchRow): Sys
    requires OwnsRows(actor)
  {
    Opening(s, actor).(redis := s.redis.(flag := row.activated), tx := Some(SwitchTx(OwnerOf(actor), row, true)))
  }

  // ---- POST /kill-switch and POST /kill-switch/deactivate ----

  datatype HttpError = HttpError(status: int, detail: string)

  /** Activation needs no confirmation. One row, activated, is the latest in the log, and the key is set. */
  method PostActivate(service: KillSwitchService, xActor: string)
    requires service.world.Valid() && service.world.tx.None? && service.world.actor.Web?
    modifies service.world`tx, service.world`redis, service.world`db, service.world`sys
    ensures service.world.Valid() && service.world.tx.None?
    ensures service.world.redis == old(service.world.redis).(flag := true)
    ensures service.world.db == old(service.world.db).(switchLog := old(service.world.db.switchLog) + [SwitchRow(true, Manual, xActor)])
    ensures service.world.sys.hist.deactivations == old(service.world.sys.hist.deactivations)
  {
    service.Activate(Manual, xActor);
    service.Commit();
  }

  /** Deactivation happens exactly when the caller confirms and gives a reason; otherwise nothing changes. */
  method PostDeactivate(service: KillSwitchService, xConfirm: Option<string>, xActor: string, reason: string)
    returns (r: Result<bool, HttpError>)
    requires service.world.Valid() && service.world.tx.None? && service.world.actor.Web?
    modifies service.world`tx, service.world`redis, service.world`db, service.world`sys
    ensures service.world.Valid() && service.world.tx.None?
    ensures r.Ok? <==> xConfirm == Some("I-understand") && reason != ""
    ensures r.Err? ==> service.world.sys == old(service.world.sys) && r.error.status == 400
    ensures r.Ok? ==>
              && service.world.redis == old(service.world.redis).(flag := false)
              && service.world.db == old(service.world.db).(switchLog := old(service.world.db.switchLog) + [SwitchRow(false, Manual, xActor)])
              && service.world.sys.hist.deactivations == old(service.world.sys.hist.deactivations) + 1
  {
    if xConfirm != Some("I-understand") {
      return Err(HttpError(400, "Deactivation requires header `X-Confirm: I-understand`"));
    }
    if reason == "" {
      return Err(HttpError(400, "Deactivation requires a non-empty `X-Reason` header"));
    }
    service.Deactivate(xActor);
    service.Commit();
    return Ok(true);
  }
}
