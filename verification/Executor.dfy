/** The order executor: the only path to the broker (backend/execution/executor.py). */
module Executor {
  import opened Basics
  import opened Records
  import opened Keys
  import opened Risk
  import opened Protocol
  import opened Worlds
  import opened KillSwitch

  // The rows a session has added and not yet committed
  class Session {
    var evals: seq<EvalRow>
    var orders: seq<OrderRow>

    constructor ()
      ensures evals == [] && orders == []
    {
      evals, orders := [], [];
    }
  }

  // The three ways to be refused, and the exceptions that are not refusals
  datatype Refusal = KillSwitchActive | LiveModeNotPermitted | RiskRejected
  datatype Submission = Submitted(row: OrderRow) | Refused(refusal: Refusal)
  datatype Fault = NoNetLiquidation | IntegrityError

  ghost function NoRules(envOn: bool): RuleInput {
    RuleInput(envOn, [], BrokerSnapshot(0.0, []))
  }

  class OrderExecutor {
    const world: World
    const riskManager: RiskManager
    const killSwitch: KillSwitchService

    constructor (world: World, riskManager: RiskManager, killSwitch: KillSwitchService)
      ensures this.world == world && this.riskManager == riskManager && this.killSwitch == killSwitch
    {
      this.world, this.riskManager, this.killSwitch := world, riskManager, killSwitch;
    }

    ghost predicate Ready()
      reads world
    {
      && world.Valid() && world.actor.Trader? && killSwitch.world == world
      && riskManager.rules == CanonicalRules(world.c.limits, world.c.isOpen)
    }

    // Live orders need the live settings
    predicate ModePermitted(order: ProposedOrder) {
      order.mode == Live ==> world.c.isLiveTrading
    }

    ghost predicate Cleared(order: ProposedOrder, ctx: Context) {
      ModePermitted(order) && Approved(world.c.limits, world.c.isOpen, order, ctx)
    }

    ghost function Audit(order: ProposedOrder, ctx: Context): seq<EvalRow> {
      AuditRows(order, RunChecks(CanonicalRules(world.c.limits, world.c.isOpen), order, ctx))
    }

    // The constraints of the orders table admit its row
    ghost predicate Storable(order: ProposedOrder)
      reads world
    {
      RowAllowed(ToValidated(order)) && ToValidated(order).key !in OrderKeys(world.db.orders)
    }

    /** The broker sees the order exactly when the switch reads off, the mode is permitted and all six
        checks pass; the six audit rows are written whenever the checks ran. The row follows the order, so
        an integrity error leaves an order at the broker without a row. */
    method Submit(order: ProposedOrder, ctx: Context, session: Session, env: Option<string>) returns (r: Result<Submission, Fault>)
      requires Ready() && world.sys.rule == RGate(Work(order, session.evals), ctx, ReadEnv) && session.orders == []
      modifies world`placed, world`clock, world`sys, session
      ensures world.Valid() && world.clock >= old(world.clock)
      ensures var on := SwitchOn(world.redis, world.db.switchLog, EnvOn(env));
              var permitted := order.mode == Live ==> world.c.isLiveTrading;
              var approved := Approved(world.c.limits, world.c.isOpen, order, ctx);
              && (world.placed == old(world.placed) + if !on && permitted && approved then [ToValidated(order)] else [])
              && (r == Ok(Refused(KillSwitchActive)) <==> on)
              && (r == Ok(Refused(LiveModeNotPermitted)) <==> !on && !permitted)
              && (r == Ok(Refused(RiskRejected)) <==> !on && permitted && !approved)
              && (r.Err? <==> !on && permitted && approved && !Storable(order))
              && (r.Ok? ==> session.evals == old(session.evals) + if !on && permitted then Audit(order, ctx) else [])
      ensures r.Ok? ==>
        match r.value
        case Submitted(row) =>
          && session.orders == [row] && row == OrderRow(ToValidated(order), world.clock)
          && world.sys == old(world.sys).(placed := world.placed, clock := world.clock,
               rule := RCommit(Batch(order.eventId, session.evals, Some((order, row)))))
        case Refused(_) =>
          && session.orders == []
          && world.sys == old(world.sys).(rule := RCommit(Batch(order.eventId, session.evals, None)))
      ensures r.Err? ==>
        && r.error.IntegrityError? && world.sys.rule == RCheck(ReadEnv)
        && world.sys.hist == old(world.sys.hist).(lost := old(world.sys.hist.lost) + [order.eventId])
    {
      var state := killSwitch.IsActive(env);
      ReadGate(order, ctx, session, ReadEnv, EnvOn(env));
      if state.active {
        return Ok(Refused(KillSwitchActive));
      }
      if order.mode == Live && !world.c.isLiveTrading {
        Reject(order, ctx, session);
        return Ok(Refused(LiveModeNotPermitted));
      }
      var ok := Validate(order, ctx, session);
      if !ok {
        return Ok(Refused(RiskRejected));
      }
      r := Execute(order, ctx, session);
    }

    // The order goes out first; its row is added afterwards, with a later time stamp
    method Execute(order: ProposedOrder, ctx: Context, session: Session) returns (r: Result<Submission, Fault>)
      requires Ready() && world.sys.rule == RPlace(Work(order, session.evals), ctx) && session.orders == []
      modifies world`placed, world`clock, world`sys, session`orders
      ensures world.Valid() && world.clock >= old(world.clock) && world.placed == old(world.placed) + [ToValidated(order)]
      ensures r.Ok? <==> Storable(order)
      ensures r.Ok? ==> r.value == Submitted(OrderRow(ToValidated(order), world.clock)) && session.orders == [r.value.row]
      ensures r.Ok? ==>
                world.sys == old(world.sys).(placed := world.placed, clock := world.clock,
                  rule := RCommit(Batch(order.eventId, session.evals, Some((order, r.value.row)))))
      ensures r.Err? ==>
        && r.error.IntegrityError? && world.sys.rule == RCheck(ReadEnv)
        && world.sys.hist == old(world.sys.hist).(lost := old(world.sys.hist.lost) + [order.eventId])
    {
      var validated := ToValidated(order);
      PlaceOrder(order, ctx, session.evals, validated);
      world.Elapse();
      var row := OrderRow(validated, world.clock);
      var written := Record(order, ctx, session, row);
      if !written {
        return Err(IntegrityError);
      }
      return Ok(Submitted(row));
    }

    // The gate's three reads, one step each
    ghost method ReadGate(order: ProposedOrder, ctx: Context, session: Session, read: Read, envOn: bool)
      requires Ready() && world.sys.rule == RGate(Work(order, session.evals), ctx, read)
      requires (read.ReadFlag? || read.ReadLog? ==> !envOn) && (read.ReadLog? ==> !world.redis.flag)
      modifies world`sys
      ensures world.Valid()
      ensures world.sys == old(world.sys).(rule :=
                if SwitchOn(world.redis, world.db.switchLog, envOn) then RCommit(Batch(order.eventId, session.evals, None))
                else RValidate(Work(order, session.evals), ctx))
      decreases match read case ReadEnv => 2 case ReadFlag => 1 case ReadLog => 0
    {
      world.Do(Trade(NoRules(envOn)));
      if read.ReadEnv? && !envOn {
        ReadGate(order, ctx, session, ReadFlag, envOn);
      } else if read.ReadFlag? && !world.redis.flag {
        ReadGate(order, ctx, session, ReadLog, envOn);
      }
    }

    ghost method Reject(order: ProposedOrder, ctx: Context, session: Session)
      requires Ready() && world.sys.rule == RValidate(Work(order, session.evals), ctx) && !ModePermitted(order)
      modifies world`sys
      ensures world.Valid() && world.sys == old(world.sys).(rule := RCommit(Batch(order.eventId, session.evals, None)))
    {
      world.Do(Trade(NoRules(false)));
    }

    // riskManager.validate: every rule is checked and audited, then the verdicts are combined
    method Validate(order: ProposedOrder, ctx: Context, session: Session) returns (ok: bool)
      requires Ready() && world.sys.rule == RValidate(Work(order, session.evals), ctx) && ModePermitted(order)
      modifies world`sys, session`evals
      ensures world.Valid() && (ok <==> Cleared(order, ctx)) && session.evals == old(session.evals) + Audit(order, ctx)
      ensures world.sys == old(world.sys).(rule :=
                if ok then RPlace(Work(order, session.evals), ctx) else RCommit(Batch(order.eventId, session.evals, None)))
    {
      var checks, verdict, pending := riskManager.Validate(order, ctx, session.evals);
      ok := verdict;
      AllPassedIff(riskManager.rules, order, ctx);
      session.evals := pending;
      world.Do(Trade(NoRules(false)));
    }

    // broker.place_order
    method PlaceOrder(order: ProposedOrder, ctx: Context, ghost rows: seq<EvalRow>, validated: ValidatedOrder)
      requires Ready() && world.sys.rule == RPlace(Work(order, rows), ctx) && validated == ToValidated(order)
      modifies world`placed, world`sys
      ensures world.Valid() && world.placed == old(world.placed) + [validated]
      ensures world.sys == old(world.sys).(placed := world.placed, rule := RRecord(Work(order, rows), ctx))
    {
      world.placed := world.placed + [validated];
      world.Do(Trade(NoRules(false)));
    }

    // session.add and flush: false when a constraint of the orders table refuses the row
    method Record(order: ProposedOrder, ctx: Context, session: Session, row: OrderRow) returns (written: bool)
      requires Ready() && world.sys.rule == RRecord(Work(order, session.evals), ctx) && session.orders == []
      requires row == OrderRow(ToValidated(order), world.clock)
      modifies world`sys, session`orders
      ensures world.Valid() && session.orders == (if written then [row] else [])
      ensures written <==> RowAllowed(row.order) && row.order.key !in OrderKeys(world.db.orders)
      ensures world.sys ==
        if written then old(world.sys).(rule := RCommit(Batch(order.eventId, session.evals, Some((order, row)))))
        else CrashRule(old(world.sys))
    {
      written := RowAllowed(row.order) && row.order.key !in OrderKeys(world.db.orders);
      if written {
        session.orders := [row];
      }
      world.Do(Trade(NoRules(false)));
    }
  }

  /** One row per broker fill of a stored order; a repeated external id, or a quantity or price that is not
      positive, is refused by the fills table. */
  method PersistFill(world: World, orderId: int, externalFillId: string, symbol: string, quantity: int, price: real, commission: real)
    returns (r: Result<FillRow, Fault>)
    requires world.Valid() && world.actor.FillListener? && 1 <= orderId <= |world.db.orders|
    modifies world`db, world`sys
    ensures world.Valid()
    ensures r.Ok? <==> quantity > 0 && price > 0.0 && forall f :: f in old(world.db.fills) ==> f.externalFillId != externalFillId
    ensures r.Ok? ==> r.value == FillRow(orderId, externalFillId, symbol, quantity, price, commission)
    ensures world.sys == old(world.sys).(db := world.db)
    ensures world.db == old(world.db).(fills := old(world.db.fills) + if r.Ok? then [r.value] else [])
  {
    var row := FillRow(orderId, externalFillId, symbol, quantity, price, commission);
    var allowed := FillAllowed(world.db, row);
    if allowed {
      world.db := world.db.(fills := world.db.fills + [row]);
    }
    world.Do(RecordFill(row));
    r := if allowed then Ok(row) else Err(IntegrityError);
  }
}
