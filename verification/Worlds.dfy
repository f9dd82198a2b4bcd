/** What the workers share, updated in place: the tables, Redis, the broker's orders, the clock and the
    open switch transaction. A world also carries the protocol state its fields show, so that a worker
    written as a loop is proved to take only steps of the protocol. */
module Worlds {
  import opened Basics
  import opened Records
  import opened Protocol

  datatype Actor = Ingestor | Analyst | Trader | FillListener | Web

  // Time passes beside everyone; every other step has one actor
  predicate StepBy(actor: Actor, step: Step) {
    step.Tick? ||
    match actor
    case Ingestor => step.Ingest?
    case Analyst => step.Analyze?
    case Trader => step.Trade?
    case FillListener => step.RecordFill?
    case Web => step.OpenRequest? || step.AdvanceRequest?
  }

  predicate AllBy(actor: Actor, steps: seq<Step>) {
    forall i :: 0 <= i < |steps| ==> StepBy(actor, steps[i])
  }

  // A set of states that the actor's steps never leave
  ghost predicate Closed(c: Config, actor: Actor, states: iset<Sys>) {
    forall s, step {:trigger Exec(c, s, step)} :: s in states && StepBy(actor, step) ==> Exec(c, s, step) in states
  }

  // The states some run of the actor leads to
  ghost predicate LeadsTo(c: Config, actor: Actor, start: Sys, s: Sys) {
    exists steps :: AllBy(actor, steps) && Run(c, start, steps) == s
  }

  ghost function Reached(c: Config, actor: Actor, start: Sys): iset<Sys> {
    iset s: Sys | LeadsTo(c, actor, start, s)
  }

  /** The states reached from a start are the least set that holds the start and that no step leaves. */
  lemma ReachedIsLeast(c: Config, actor: Actor, start: Sys)
    ensures start in Reached(c, actor, start) && Closed(c, actor, Reached(c, actor, start))
    ensures forall states: iset<Sys> :: start in states && Closed(c, actor, states) ==> Reached(c, actor, start) <= states
  {
    assert AllBy(actor, []) && Run(c, start, []) == start;
    forall s, step | s in Reached(c, actor, start) && StepBy(actor, step)
      ensures Exec(c, s, step) in Reached(c, actor, start)
    {
      var steps :| AllBy(actor, steps) && Run(c, start, steps) == s;
      OneMore(c, actor, start, steps, step);
    }
    forall states: iset<Sys>, s | start in states && Closed(c, actor, states) && s in Reached(c, actor, start)
      ensures s in states
    {
      var steps :| AllBy(actor, steps) && Run(c, start, steps) == s;
      RunStaysIn(c, actor, start, steps, states);
    }
  }

  lemma OneMore(c: Config, actor: Actor, start: Sys, steps: seq<Step>, step: Step)
    requires AllBy(actor, steps) && StepBy(actor, step)
    ensures Exec(c, Run(c, start, steps), step) in Reached(c, actor, start)
  {
    var more := steps + [step];
    assert more[..|steps|] == steps && more[|steps|] == step;
    assert AllBy(actor, more) && Run(c, start, more) == Exec(c, Run(c, start, steps), step);
  }

  lemma {:induction false} RunStaysIn(c: Config, actor: Actor, start: Sys, steps: seq<Step>, states: iset<Sys>)
    requires start in states && Closed(c, actor, states) && AllBy(actor, steps)
    ensures Run(c, start, steps) in states
  {
    if steps != [] {
      RunStaysIn(c, actor, start, steps[..|steps| - 1], states);
    }
  }

  /** What a worker's loop does to a reachable state leads to a reachable state, so every theorem about
      reachable states holds after the loop. */
  lemma WorkersStayReachable(c: Config, actor: Actor, start: Sys, s: Sys)
    requires Reachable(c, start) && LeadsTo(c, actor, start, s)
    ensures Reachable(c, s)
  {
    var s0: Sys, before: seq<Step> :| Init(s0) && Run(c, s0, before) == start;
    var steps :| AllBy(actor, steps) && Run(c, start, steps) == s;
    RunAppend(c, s0, before, steps);
  }

  class World {
    const c: Config
    var db: Db
    var redis: Redis
    var placed: seq<ValidatedOrder>
    var clock: int
    var tx: Option<SwitchTx>
    const actor: Actor
    ghost const states: iset<Sys>
    ghost var sys: Sys

    ghost predicate Shown()
      reads this
    {
      db == sys.db && redis == sys.redis && placed == sys.placed && clock == sys.clock && tx == sys.tx
    }

    // The fields show the protocol state, and that state is one the actor's steps can lead to
    ghost predicate Valid()
      reads this
    {
      Closed(c, actor, states) && sys in states && Shown()
    }

    constructor (c: Config, db: Db, redis: Redis, placed: seq<ValidatedOrder>, clock: int, actor: Actor, ghost start: Sys)
      requires db == start.db && redis == start.redis && placed == start.placed && clock == start.clock && start.tx.None?
      ensures Valid() && sys == start
      ensures this.c == c && this.actor == actor && states == Reached(c, actor, start)
    {
      this.c, this.db, this.redis, this.placed, this.clock, this.tx := c, db, redis, placed, clock, None;
      this.actor, this.states, this.sys := actor, Reached(c, actor, start), start;
      new;
      ReachedIsLeast(c, actor, start);
    }

    // One step of the protocol; the caller updates the fields to match
    ghost method Do(step: Step)
      requires Closed(c, actor, states) && sys in states && StepBy(actor, step)
      modifies this`sys
      ensures sys in states && sys == Exec(c, old(sys), step)
    {
      sys := Exec(c, sys, step);
    }

    // Some time passes
    method Elapse()
      requires Valid()
      modifies this`clock, this`sys
      ensures Valid() && clock >= old(clock) && sys == old(sys).(clock := clock)
    {
      var seconds: int := *;
      if seconds > 0 {
        clock := clock + seconds;
        Do(Tick(seconds));
      }
    }
  }
}
