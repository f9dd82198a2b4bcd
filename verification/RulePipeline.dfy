/** The rule worker's loop (backend/services/rule_pipeline.py): pop, evaluate, submit, commit. */
module RulePipeline {
  import opened Basics
  import opened Records
  import opened Rules
  import opened RuleStores
  import opened Risk
  import opened Protocol
  import opened Integrity
  import opened Audit
  import opened Worlds
  import opened KillSwitch
  import opened Executor

  datatype RuleReport = RuleReport(evaluated: nat, matched: nat, submitted: nat, rejected: nat, stopped: Option<Source>)

  // Evaluated events left a batch, submitted orders left a row and went to the broker, matched events left
  // one MATCHED engine row in the audit table, every queue item gone was popped, and nothing was lost.
  ghost predicate Tallied(was: Sys, now: Sys, evaluated: nat, matched: nat, submitted: nat, rejected: nat) {
    && matched == submitted + rejected
    && |now.hist.batches| == |was.hist.batches| + evaluated
    && EngineMatches(now.db.evals) == EngineMatches(was.db.evals) + matched
    && |now.db.orders| == |was.db.orders| + submitted
    && |now.placed| == |was.placed| + submitted
    && |now.redis.eventQueue| + |now.hist.eventPops| == |was.redis.eventQueue| + |was.hist.eventPops|
    && now.hist.lost == was.hist.lost && now.db.events == was.db.events
  }

  lemma TalliesAdd(a: Sys, b: Sys, c: Sys, e: nat, m: nat, s: nat, r: nat, e': nat, m': nat, s': nat, r': nat)
    requires Tallied(a, b, e, m, s, r) && Tallied(b, c, e', m', s', r')
    ensures Tallied(a, c, e + e', m + m', s + s', r + r')
  {
  }

  predicate NamesEvents(queue: seq<string>, events: seq<EventRow>) {
    forall id :: id in queue ==> id in EventIds(events)
  }

  // The orders table refuses the row of the order
  predicate Unstorable(o: ValidatedOrder, orders: seq<OrderRow>) {
    !RowAllowed(o) || o.key in OrderKeys(orders)
  }

  // The order placed last lost its row, because the table refuses it
  predicate LostLast(was: Sys, now: Sys) {
    now.placed != [] &&
    var o := now.placed[|now.placed| - 1];
    now.hist.lost == was.hist.lost + [o.eventId] && Unstorable(o, now.db.orders)
  }

  // Every account read in between had a net liquidation
  predicate ReadsUsable(was: Sys, now: Sys) {
    && was.hist.accounts <= now.hist.accounts
    && forall k :: |was.hist.accounts| <= k < |now.hist.accounts| ==> now.hist.accounts[k] > 0.0
  }

  // Some account read in between had none
  predicate ReadUnusable(was: Sys, now: Sys) {
    && was.hist.accounts <= now.hist.accounts
    && exists k :: |was.hist.accounts| <= k < |now.hist.accounts| && now.hist.accounts[k] <= 0.0
  }

  // Why a turn was left by an exception
  predicate Explained(was: Sys, now: Sys, fault: Fault) {
    match fault
    case NoNetLiquidation => ReadUnusable(was, now) && now.hist.lost == was.hist.lost
    case IntegrityError => ReadsUsable(was, now) && LostLast(was, now)
  }

  // The worker at the top of its loop
  ghost predicate AtTop(w: World)
    reads w
  {
    w.Valid() && w.actor.Trader? && w.sys.rule == RCheck(ReadEnv)
  }

  method CheckSwitch(w: World) returns (state: SwitchState)
    requires AtTop(w)
    modifies w`sys
    ensures w.Valid() && w.sys == old(w.sys).(rule := if state.active then RStopped else RPop)
  {
    var service := new KillSwitchService(w);
    var env: Option<string> := *;
    state := service.IsActive(env);
    ReadCheck(w, ReadEnv, EnvOn(env));
  }

  // The check's three reads, one step each
  ghost method ReadCheck(w: World, read: Read, envOn: bool)
    requires w.Valid() && w.actor.Trader? && w.sys.rule == RCheck(read)
    requires (read.ReadFlag? || read.ReadLog? ==> !envOn) && (read.ReadLog? ==> !w.redis.flag)
    modifies w`sys
    ensures w.Valid()
    ensures w.sys == old(w.sys).(rule := if SwitchOn(w.redis, w.db.switchLog, envOn) then RStopped else RPop)
    decreases match read case ReadEnv => 2 case ReadFlag => 1 case ReadLog => 0
  {
    w.Do(Trade(NoRules(envOn)));
    if read.ReadEnv? && !envOn {
      ReadCheck(w, ReadFlag, envOn);
    } else if read.ReadFlag? && !w.redis.flag {
      ReadCheck(w, ReadLog, envOn);
    }
  }

  // LPOP
  method Pop(w: World) returns (raw: Option<string>)
    requires w.Valid() && w.actor.Trader? && w.sys.rule == RPop
    modifies w`redis, w`sys
    ensures w.Valid() && (raw.None? <==> old(w.redis.eventQueue) == [])
    ensures raw.None? ==> w.sys == old(w.sys).(rule := RCheck(ReadEnv))
    ensures raw.Some? ==>
      var queue := old(w.redis.eventQueue);
      && raw.value == queue[0]
      && w.sys == old(w.sys).(redis := old(w.redis).(eventQueue := queue[1..]), rule := RLoad(queue[0]),
                              hist := old(w.sys.hist).(eventPops := old(w.sys.hist.eventPops) + [queue[0]]))
  {
    var queue := w.redis.eventQueue;
    if queue == [] {
      raw := None;
    } else {
      raw := Some(queue[0]);
      w.redis := w.redis.(eventQueue := queue[1..]);
    }
    w.Do(Trade(NoRules(false)));
  }

  function ProposedOf(outcome: EngineOutcome): Option<ProposedOrder> {
    if outcome.matched.Some? then outcome.matched.value.proposed else None
  }

  // Runs the engine and adds one evaluation row per rule to the session
  method EvaluateAndPersist(w: World, rules: seq<RuleSpec>, event: EventRow, eventId: string, session: Session)
    returns (proposed: Option<ProposedOrder>)
    requires w.Valid() && w.actor.Trader? && w.sys.rule == RLoad(eventId) && FindEvent(w.db.events, eventId) == Some(event)
    requires session.evals == []
    modifies w`sys, session`evals
    ensures w.Valid() && EngineMatches(session.evals) == (if proposed.Some? then 1 else 0)
    ensures proposed.Some? ==> proposed.value.eventId == eventId
    ensures w.sys == old(w.sys).(rule := w.sys.rule) && w.sys.rule == Evaluated(eventId, proposed, session.evals)
  {
    proposed := RunEngine(rules, event, eventId, w.c.parse, session);
    EngineVerdict(rules, event, eventId, w.c.parse);
    EvaluateStep(w, rules, event, eventId);
  }

  method RunEngine(rules: seq<RuleSpec>, event: EventRow, eventId: string, parse: FloatParser, session: Session)
    returns (proposed: Option<ProposedOrder>)
    requires session.evals == []
    modifies session`evals
    ensures session.evals == EngineRows(eventId, Evaluate(rules, event, parse))
    ensures proposed == ProposedOf(Evaluate(rules, event, parse))
  {
    var engine := new RuleEngine(rules);
    var outcome := engine.Evaluate(event, parse);
    PersistEvaluations(session, eventId, outcome);
    proposed := ProposedOf(outcome);
  }

  lemma EngineVerdict(rules: seq<RuleSpec>, event: EventRow, eventId: string, parse: FloatParser)
    requires event.eventId == eventId
    ensures var out := Evaluate(rules, event, parse);
            && EngineMatches(EngineRows(eventId, out)) == (if ProposedOf(out).Some? then 1 else 0)
            && (ProposedOf(out).Some? ==> ProposedOf(out).value.eventId == eventId)
  {
    EngineCounts(eventId, Canonical(rules), event, parse);
    MatchedOrderEvent(Canonical(rules), event, parse);
  }

  function Evaluated(eventId: string, proposed: Option<ProposedOrder>, rows: seq<EvalRow>): RulePc {
    match proposed
    case Some(order) => RContext(Work(order, rows))
    case None => RCommit(Batch(eventId, rows, None))
  }

  ghost method EvaluateStep(w: World, rules: seq<RuleSpec>, event: EventRow, eventId: string)
    requires w.Valid() && w.actor.Trader? && w.sys.rule == RLoad(eventId) && FindEvent(w.db.events, eventId) == Some(event)
    modifies w`sys
    ensures w.Valid()
    ensures var outcome := Evaluate(rules, event, w.c.parse);
            w.sys == old(w.sys).(rule := Judged(eventId, outcome))
  {
    w.Do(Trade(RuleInput(false, rules, BrokerSnapshot(0.0, []))));
  }

  method PersistEvaluations(session: Session, eventId: string, outcome: EngineOutcome)
    modifies session`evals
    ensures session.evals == old(session.evals) + EngineRows(eventId, outcome)
  {
    for i := 0 to |outcome.evaluations|
      invariant session.evals == old(session.evals) + EngineRows(eventId, outcome)[..i]
    {
      var r := outcome.evaluations[i];
      session.evals := session.evals + [EvalRow(eventId, r.ruleId, r.priority, r.outcome, r.proposed)];
    }
  }

  // build_validation_context: reads the account and the orders table
  method ReadContext(w: World, ghost work: Work) returns (ctx: Option<Context>)
    requires w.Valid() && w.actor.Trader? && w.sys.rule == RContext(work)
    modifies w`sys
    ensures w.Valid()
    ensures w.sys == old(w.sys).(rule := if ctx.Some? then RGate(work, ctx.value, ReadEnv) else RCheck(ReadEnv), hist := w.sys.hist)
    ensures w.sys.hist == old(w.sys.hist).(accounts := w.sys.hist.accounts)
    ensures if ctx.None? then ReadUnusable(old(w.sys), w.sys) else ReadsUsable(old(w.sys), w.sys)
  {
    var snapshot: BrokerSnapshot := *;
    ctx := BuildContext(snapshot, w.db.orders, w.clock);
    w.Do(Trade(RuleInput(false, [], snapshot)));
    assert w.sys.hist.accounts[|old(w.sys.hist.accounts)|] == snapshot.netLiquidation;
    assert w.sys.hist.lost == old(w.sys.hist.lost);
  }

  // session.commit()
  method Commit(w: World, session: Session, ghost batch: Batch)
    requires w.Valid() && w.actor.Trader? && w.sys.rule == RCommit(batch)
    requires batch.rows == session.evals
    requires session.orders == if batch.submitted.Some? then [batch.submitted.value.1] else []
    modifies w`db, w`sys
    ensures AtTop(w)
    ensures w.db == old(w.db).(evals := old(w.db.evals) + session.evals, orders := old(w.db.orders) + session.orders)
    ensures w.sys == old(w.sys).(db := w.db, rule := RCheck(ReadEnv), hist := w.sys.hist)
    ensures w.sys.hist == old(w.sys.hist).(orderRefs := w.sys.hist.orderRefs, batches := old(w.sys.hist.batches) + [batch])
    ensures EngineMatches(w.db.evals) == EngineMatches(old(w.db.evals)) + EngineMatches(session.evals)
  {
    CountsAdd(w.db.evals, session.evals);
    w.db := w.db.(evals := w.db.evals + session.evals, orders := w.db.orders + session.orders);
    w.Do(Trade(NoRules(false)));
  }

  // What happened to one popped event
  datatype Outcome = NotFound | NoMatch | Accepted | Turned

  function Evaluations(o: Outcome): nat { if o.NotFound? then 0 else 1 }

  function Accepts(o: Outcome): nat { if o.Accepted? then 1 else 0 }

  function Turns(o: Outcome): nat { if o.Turned? then 1 else 0 }

  method Process(w: World, store: RuleStore, eventId: string) returns (r: Result<Outcome, Fault>)
    requires w.Valid() && w.actor.Trader? && w.sys.rule == RLoad(eventId)
    modifies w`db, w`placed, w`clock, w`sys
    ensures w.Valid() && w.sys.rule == RCheck(ReadEnv) && w.clock >= old(w.clock)
    ensures r == Ok(NotFound) <==> eventId !in EventIds(old(w.db.events))
    ensures if r.Err? then Explained(old(w.sys), w.sys, r.error) else ReadsUsable(old(w.sys), w.sys)
    ensures r.Ok? ==>
              Tallied(old(w.sys), w.sys, Evaluations(r.value), Accepts(r.value) + Turns(r.value), Accepts(r.value), Turns(r.value))
  {
    var found := FindEvent(w.db.events, eventId);
    if found.None? {
      SkipStep(w, eventId);
      return Ok(NotFound);
    }
    var session := new Session();
    var rules := store.GetRules();
    var proposed := EvaluateAndPersist(w, rules, found.value, eventId, session);
    if proposed.None? {
      CommitUnmatched(w, session, eventId);
      return Ok(NoMatch);
    }
    r := SubmitMatch(w, session, proposed.value);
  }

  ghost method SkipStep(w: World, eventId: string)
    requires w.Valid() && w.actor.Trader? && w.sys.rule == RLoad(eventId) && FindEvent(w.db.events, eventId).None?
    modifies w`sys
    ensures w.Valid() && w.sys == old(w.sys).(rule := RCheck(ReadEnv))
  {
    w.Do(Trade(NoRules(false)));
  }

  method CommitUnmatched(w: World, session: Session, eventId: string)
    requires w.Valid() && w.actor.Trader? && w.sys.rule == RCommit(Batch(eventId, session.evals, None))
    requires session.orders == [] && EngineMatches(session.evals) == 0
    modifies w`db, w`sys
    ensures w.Valid() && w.sys.rule == RCheck(ReadEnv) && Tallied(old(w.sys), w.sys, 1, 0, 0, 0)
    ensures w.sys.hist.accounts == old(w.sys.hist.accounts)
  {
    Commit(w, session, Batch(eventId, session.evals, None));
  }

  method SubmitMatch(w: World, session: Session, order: ProposedOrder) returns (r: Result<Outcome, Fault>)
    requires w.Valid() && w.actor.Trader? && w.sys.rule == RContext(Work(order, session.evals))
    requires session.orders == [] && EngineMatches(session.evals) == 1
    modifies w`db, w`placed, w`clock, w`sys, session
    ensures w.Valid() && w.sys.rule == RCheck(ReadEnv) && w.clock >= old(w.clock)
    ensures r.Ok? ==> r.value.Accepted? || r.value.Turned?
    ensures r.Ok? ==>
              Tallied(old(w.sys), w.sys, 1, 1, Accepts(r.value), Turns(r.value))
    ensures if r.Err? then Explained(old(w.sys), w.sys, r.error) else ReadsUsable(old(w.sys), w.sys)
  {
    var ctx := ReadContext(w, Work(order, session.evals));
    if ctx.None? {
      return Err(NoNetLiquidation);
    }
    r := SubmitAndCommit(w, session, order, ctx.value);
  }

  method SubmitAndCommit(w: World, session: Session, order: ProposedOrder, ctx: Context) returns (r: Result<Outcome, Fault>)
    requires w.Valid() && w.actor.Trader? && w.sys.rule == RGate(Work(order, session.evals), ctx, ReadEnv)
    requires session.orders == [] && EngineMatches(session.evals) == 1
    modifies w`db, w`placed, w`clock, w`sys, session
    ensures w.Valid() && w.sys.rule == RCheck(ReadEnv) && w.clock >= old(w.clock)
    ensures r.Ok? ==> r.value.Accepted? || r.value.Turned?
    ensures r.Ok? ==>
              Tallied(old(w.sys), w.sys, 1, 1, Accepts(r.value), Turns(r.value))
    ensures r.Err? ==> r.error.IntegrityError? && LostLast(old(w.sys), w.sys)
    ensures w.sys.hist.accounts == old(w.sys.hist.accounts)
  {
    var submission := TrySubmit(w, session, order, ctx);
    if submission.Err? {
      return Err(submission.error);
    }
    var outcome := Settle(w, session, submission.value, order);
    return Ok(outcome);
  }

  // A submission and the session it leaves, ready to commit
  ghost predicate Pending(sys: Sys, session: Session, order: ProposedOrder, submission: Submission)
    reads session
  {
    EngineMatches(session.evals) == 1 &&
    match submission
    case Submitted(row) =>
      session.orders == [row] && sys.rule == RCommit(Batch(order.eventId, session.evals, Some((order, row))))
    case Refused(_) =>
      session.orders == [] && sys.rule == RCommit(Batch(order.eventId, session.evals, None))
  }

  method TrySubmit(w: World, session: Session, order: ProposedOrder, ctx: Context) returns (r: Result<Submission, Fault>)
    requires w.Valid() && w.actor.Trader? && w.sys.rule == RGate(Work(order, session.evals), ctx, ReadEnv)
    requires session.orders == [] && EngineMatches(session.evals) == 1
    modifies w`placed, w`clock, w`sys, session
    ensures w.Valid() && w.clock >= old(w.clock)
    ensures r.Ok? ==> Pending(w.sys, session, order, r.value)
    ensures r.Ok? ==> w.sys.hist == old(w.sys.hist) && |w.placed| == |old(w.placed)| + if r.value.Submitted? then 1 else 0
    ensures r.Err? ==> r.error.IntegrityError? && w.sys.rule == RCheck(ReadEnv) && LostLast(old(w.sys), w.sys)
    ensures w.sys.hist.accounts == old(w.sys.hist.accounts)
  {
    var executor := BuildExecutor(w);
    var env: Option<string> := *;
    ghost var rows := session.evals;
    r := executor.Submit(order, ctx, session, env);
    AuditAddsNoMatch(rows, order, ctx, w.c);
  }

  // executor_factory(session)
  method BuildExecutor(w: World) returns (executor: OrderExecutor)
    requires w.Valid() && w.actor.Trader?
    ensures fresh(executor) && executor.world == w && executor.Ready()
  {
    var manager := new RiskManager(CanonicalRules(w.c.limits, w.c.isOpen));
    var service := new KillSwitchService(w);
    executor := new OrderExecutor(w, manager, service);
  }

  // The commit that follows submit() or a refusal
  method Settle(w: World, session: Session, submission: Submission, order: ProposedOrder) returns (outcome: Outcome)
    requires w.Valid() && w.actor.Trader? && Pending(w.sys, session, order, submission)
    modifies w`db, w`sys
    ensures AtTop(w) && outcome == if submission.Submitted? then Accepted else Turned
    ensures |w.sys.hist.batches| == |old(w.sys.hist.batches)| + 1 && w.sys.hist.lost == old(w.sys.hist.lost)
    ensures |w.db.orders| == |old(w.db.orders)| + (if submission.Submitted? then 1 else 0)
    ensures EngineMatches(w.db.evals) == EngineMatches(old(w.db.evals)) + 1
    ensures w.db.events == old(w.db.events) && w.sys.hist.eventPops == old(w.sys.hist.eventPops)
    ensures w.sys.hist.accounts == old(w.sys.hist.accounts)
  {
    match submission {
      case Submitted(row) =>
        Commit(w, session, Batch(order.eventId, session.evals, Some((order, row))));
        return Accepted;
      case Refused(_) =>
        Commit(w, session, Batch(order.eventId, session.evals, None));
        return Turned;
    }
  }

  lemma AuditAddsNoMatch(rows: seq<EvalRow>, order: ProposedOrder, ctx: Context, c: Config)
    ensures EngineMatches(rows + AuditRows(order, RunChecks(CanonicalRules(c.limits, c.isOpen), order, ctx))) == EngineMatches(rows)
    ensures rows + [] == rows
  {
    var checks := RunChecks(CanonicalRules(c.limits, c.isOpen), order, ctx);
    CountsAdd(rows, AuditRows(order, checks));
    AuditCounts(order, checks);
  }

  // What one turn of the loop comes to
  datatype Turn = Halted(source: Source) | Drained | Handled(outcome: Outcome)

  method TakeTurn(w: World, store: RuleStore) returns (r: Result<Turn, Fault>)
    requires AtTop(w)
    modifies w`redis, w`db, w`placed, w`clock, w`sys
    ensures w.Valid() && w.clock >= old(w.clock)
    ensures r.Ok? && r.value.Halted? ==> w.sys == old(w.sys).(rule := RStopped)
    ensures r.Ok? && r.value.Drained? ==> w.sys == old(w.sys) && w.redis.eventQueue == []
    ensures r.Ok? && r.value.Handled? ==>
              var queue, o := old(w.redis.eventQueue), r.value.outcome;
              && AtTop(w) && Tallied(old(w.sys), w.sys, Evaluations(o), Accepts(o) + Turns(o), Accepts(o), Turns(o))
              && queue != [] && w.redis.eventQueue == queue[1..]
              && (o.NotFound? <==> queue[0] !in EventIds(w.db.events))
    ensures if r.Err? then Explained(old(w.sys), w.sys, r.error) else ReadsUsable(old(w.sys), w.sys)
  {
    var state := CheckSwitch(w);
    if state.active {
      return Ok(Halted(state.source));
    }
    var raw := Pop(w);
    if raw.None? {
      return Ok(Drained);
    }
    var done := Process(w, store, raw.value);
    match done {
      case Ok(outcome) => return Ok(Handled(outcome));
      case Err(e) => return Err(e);
    }
  }

  lemma NamesTail(queue: seq<string>, events: seq<EventRow>)
    requires queue != []
    ensures NamesEvents(queue, events) <==> queue[0] in EventIds(events) && NamesEvents(queue[1..], events)
  {
    assert forall id :: id in queue <==> id == queue[0] || id in queue[1..];
  }

  /** A drain run ends, because every turn of the loop shortens the queue. Without an exception its report
      matches the tables; it stops early only when the switch reads on. The loop is left by an exception exactly
      when an account it read had no net liquidation, or when a placed order lost its row because the table
      refuses it; what the loop did until then is still a run of the protocol. */
  method RunRulePipeline(w: World, store: RuleStore) returns (r: Result<RuleReport, Fault>)
    requires AtTop(w)
    modifies w
    ensures w.Valid() && w.clock >= old(w.clock)
    ensures w.states == Reached(w.c, Trader, old(w.sys)) ==> LeadsTo(w.c, Trader, old(w.sys), w.sys)
    ensures r == Err(NoNetLiquidation) <==> ReadUnusable(old(w.sys), w.sys)
    ensures r == Err(IntegrityError) <==> w.sys.hist.lost != old(w.sys.hist.lost)
    ensures r == Err(IntegrityError) ==> LostLast(old(w.sys), w.sys)
    ensures r.Ok? ==> Tallied(old(w.sys), w.sys, r.value.evaluated, r.value.matched, r.value.submitted, r.value.rejected)
    ensures r.Ok? && NamesEvents(old(w.redis.eventQueue), old(w.db.events)) ==>
              |w.sys.hist.eventPops| == |old(w.sys.hist.eventPops)| + r.value.evaluated
    ensures r.Ok? && r.value.stopped.None? ==> w.redis.eventQueue == [] && w.sys.rule == RCheck(ReadEnv)
    ensures r.Ok? && r.value.stopped.Some? ==> w.sys.rule == RStopped
  {
    var evaluated: nat, matched: nat, submitted: nat, rejected: nat := 0, 0, 0, 0;
    ghost var start := w.sys;
    while true
      invariant AtTop(w) && w.clock >= old(w.clock)
      invariant ReadsUsable(start, w.sys)
      invariant Tallied(start, w.sys, evaluated, matched, submitted, rejected)
      invariant NamesEvents(start.redis.eventQueue, start.db.events) ==>
                  NamesEvents(w.redis.eventQueue, w.db.events) && |w.redis.eventQueue| + evaluated == |start.redis.eventQueue|
      decreases |w.redis.eventQueue|
    {
      ghost var before := w.sys;
      var turn := TakeTurn(w, store);
      if turn.Err? {
        return Err(turn.error);
      }
      match turn.value {
        case Halted(source) => return Ok(RuleReport(evaluated, matched, submitted, rejected, Some(source)));
        case Drained => return Ok(RuleReport(evaluated, matched, submitted, rejected, None));
        case Handled(o) =>
          NamesTail(before.redis.eventQueue, w.db.events);
          TalliesAdd(start, before, w.sys, evaluated, matched, submitted, rejected,
                     Evaluations(o), Accepts(o) + Turns(o), Accepts(o), Turns(o));
          evaluated, matched := evaluated + Evaluations(o), matched + Accepts(o) + Turns(o);
          submitted, rejected := submitted + Accepts(o), rejected + Turns(o);
      }
    }
  }
}
