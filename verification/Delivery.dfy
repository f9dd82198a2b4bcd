/** Delivery through the queues when only the LLM worker pushes events: each event id is pushed, popped
    and placed at most once, and every id in flight names a committed row. Crashes may come anywhere and
    the feed may replay tweets. */
module Delivery {
  import opened Basics
  import opened Records
  import opened Protocol
  import opened Integrity
  import opened Rules

  predicate OwnPushesOnly(steps: seq<Step>) {
    forall i :: 0 <= i < |steps| ==> !steps[i].Inject?
  }

  function PlacedEvents(placed: seq<ValidatedOrder>): (ids: seq<string>)
    ensures |ids| == |placed| && forall i :: 0 <= i < |placed| ==> ids[i] == placed[i].eventId
  {
    Map((o: ValidatedOrder) => o.eventId, placed)
  }

  // ---- The invariant ----

  // Event ids pushed, followed by the committed ones the LLM worker has still to push
  function Announced(pushes: seq<string>, pc: LlmPc): seq<string> {
    if pc.LPublish? then pushes + pc.ids else pushes
  }

  predicate NamedOnce(events: seq<EventRow>, ids: seq<string>) {
    Distinct(ids) && forall id :: id in ids ==> id in EventIds(events)
  }

  predicate TweetQueueOk(tweets: seq<Tweet>, queue: seq<int>, ingest: IngestPc, llm: LlmPc) {
    && (forall id :: id in queue ==> TweetRef(tweets, id))
    && (ingest.IPublish? ==> TweetRef(tweets, ingest.id))
    && (llm.LLoad? ==> TweetRef(tweets, llm.id))
  }

  // The event popped by the rule worker whose order has not reached the broker yet
  function InHand(pc: RulePc): Option<string> {
    match pc
    case RLoad(e) => Some(e)
    case RContext(w) => Some(w.order.eventId)
    case RGate(w, _, _) => Some(w.order.eventId)
    case RValidate(w, _) => Some(w.order.eventId)
    case RPlace(w, _) => Some(w.order.eventId)
    case _ => None
  }

  predicate PlacedOnce(placed: seq<ValidatedOrder>, hand: Option<string>, pops: seq<string>) {
    && Distinct(PlacedEvents(placed))
    && (forall id :: id in PlacedEvents(placed) ==> id in pops)
    && (hand.Some? ==> hand.value in pops && hand.value !in PlacedEvents(placed))
  }

  predicate Fifo(s: Sys) { s.hist.eventPops + s.redis.eventQueue == s.hist.eventPushes }

  predicate Named(s: Sys) { NamedOnce(s.db.events, Announced(s.hist.eventPushes, s.llm)) }

  predicate TweetsNamed(s: Sys) { TweetQueueOk(s.db.tweets, s.redis.tweetQueue, s.ingest, s.llm) }

  predicate Once(s: Sys) { PlacedOnce(s.placed, InHand(s.rule), s.hist.eventPops) }

  // ---- Steps keep it ----

  lemma NamedOnceCommit(events: seq<EventRow>, added: seq<EventRow>, out: seq<string>)
    requires NamedOnce(events, out) && Distinct(EventIds(events) + EventIds(added))
    ensures NamedOnce(events + added, out + EventIds(added))
  {
    EventIdsAppend(events, added);
    DistinctConcat(EventIds(events), EventIds(added));
    DistinctConcat(out, EventIds(added));
  }

  lemma NamedOncePrefix(events: seq<EventRow>, out: seq<string>, n: nat)
    requires NamedOnce(events, out) && n <= |out|
    ensures NamedOnce(events, out[..n])
  {
    assert forall id :: id in out[..n] ==> id in out;
  }

  lemma FifoStep(c: Config, s: Sys, step: Step)
    requires Fifo(s) && !step.Inject?
    ensures Fifo(Exec(c, s, step))
  {
    match step {
      case Ingest(input) => IngestFrame(c, s, input);
      case Analyze(input) => LlmFifo(c, s, input);
      case Trade(input) => RuleFifo(c, s, input);
      case _ => OutsideFrame(c, s, step);
    }
  }

  lemma LlmFifo(c: Config, s: Sys, input: LlmInput)
    requires Fifo(s)
    ensures Fifo(LlmStep(c, s, input))
  {
    if s.llm.LPublish? && s.llm.ids != [] {
      var id := s.llm.ids[0];
      assert s.hist.eventPops + (s.redis.eventQueue + [id]) == (s.hist.eventPops + s.redis.eventQueue) + [id];
    }
  }

  lemma RuleFifo(c: Config, s: Sys, input: RuleInput)
    requires Fifo(s)
    ensures Fifo(RuleStep(c, s, input))
  {
    if s.rule.RPop? && s.redis.eventQueue != [] {
      assert (s.hist.eventPops + [s.redis.eventQueue[0]]) + s.redis.eventQueue[1..] == s.hist.eventPushes;
    }
  }

  lemma NamedStep(c: Config, s: Sys, step: Step)
    requires Named(s) && SoundLlm(s.db.tweets, s.db.decisions, s.db.events, s.llm)
    ensures Named(Exec(c, s, step))
  {
    if step.Analyze? {
      NamedLlmStep(c, s, step.llmInput);
      return;
    }
    LlmSideFrame(c, s, step);
    if step.LlmCrash? {
      NamedCrash(s);
    }
  }

  lemma NamedCrash(s: Sys)
    requires Named(s)
    ensures Named(CrashLlm(s))
  {
    var out := Announced(s.hist.eventPushes, s.llm);
    assert out[..|s.hist.eventPushes|] == s.hist.eventPushes;
    NamedOncePrefix(s.db.events, out, |s.hist.eventPushes|);
  }

  lemma NamedLlmStep(c: Config, s: Sys, input: LlmInput)
    requires Named(s) && SoundLlm(s.db.tweets, s.db.decisions, s.db.events, s.llm)
    ensures Named(LlmStep(c, s, input))
  {
    var pushes := s.hist.eventPushes;
    if s.llm.LCommit? {
      NamedOnceCommit(s.db.events, s.llm.added, pushes);
    } else if s.llm.LPublish? {
      if s.llm.ids == [] {
        assert pushes + [] == pushes;
      } else {
        assert (pushes + [s.llm.ids[0]]) + s.llm.ids[1..] == pushes + s.llm.ids;
      }
    }
  }

  lemma IngestTweetsNamed(c: Config, s: Sys, input: IngestInput)
    requires TweetsNamed(s)
    ensures TweetsNamed(IngestStep(c, s, input))
  {
  }

  lemma LlmTweetsNamed(c: Config, s: Sys, input: LlmInput)
    requires TweetsNamed(s)
    ensures TweetsNamed(LlmStep(c, s, input))
  {
  }

  lemma TweetsNamedStep(c: Config, s: Sys, step: Step)
    requires TweetsNamed(s)
    ensures TweetsNamed(Exec(c, s, step))
  {
    match step {
      case Ingest(input) => IngestTweetsNamed(c, s, input);
      case Analyze(input) => LlmTweetsNamed(c, s, input);
      case Trade(input) => RuleFrame(c, s, input);
      case _ => OutsideFrame(c, s, step);
    }
  }

  lemma PopIsNew(pops: seq<string>, queue: seq<string>, pushes: seq<string>)
    requires pops + queue == pushes && Distinct(pushes) && queue != []
    ensures queue[0] !in pops
  {
    DistinctConcat(pops, queue);
  }

  lemma OncePop(c: Config, s: Sys, input: RuleInput)
    requires Once(s) && Fifo(s) && Distinct(s.hist.eventPushes) && s.rule.RPop?
    ensures Once(RuleStep(c, s, input))
  {
    if s.redis.eventQueue != [] {
      PopIsNew(s.hist.eventPops, s.redis.eventQueue, s.hist.eventPushes);
    }
  }

  lemma OncePlace(c: Config, s: Sys, input: RuleInput)
    requires Once(s) && s.rule.RPlace?
    ensures Once(RuleStep(c, s, input))
  {
    var order := ToValidated(s.rule.work.order);
    assert PlacedEvents(s.placed + [order]) == PlacedEvents(s.placed) + [order.eventId];
    DistinctAppend(PlacedEvents(s.placed), order.eventId);
  }

  lemma HandKept(c: Config, s: Sys, input: RuleInput)
    requires !s.rule.RPop? && !s.rule.RPlace?
    ensures var s' := RuleStep(c, s, input);
            && s'.placed == s.placed && s'.hist.eventPops == s.hist.eventPops
            && (InHand(s'.rule) == InHand(s.rule) || InHand(s'.rule) == None)
  {
    if s.rule.RLoad? {
      var found := FindEvent(s.db.events, s.rule.eventId);
      if found.Some? {
        MatchedOrderEvent(Canonical(input.rules), found.value, c.parse);
      }
    }
  }

  lemma OnceRuleStep(c: Config, s: Sys, input: RuleInput)
    requires Once(s) && Fifo(s) && Distinct(s.hist.eventPushes)
    ensures Once(RuleStep(c, s, input))
  {
    if s.rule.RPop? {
      OncePop(c, s, input);
    } else if s.rule.RPlace? {
      OncePlace(c, s, input);
    } else {
      HandKept(c, s, input);
    }
  }

  lemma OnceStep(c: Config, s: Sys, step: Step)
    requires Once(s) && Fifo(s) && Distinct(s.hist.eventPushes)
    ensures Once(Exec(c, s, step))
  {
    if step.Trade? {
      OnceRuleStep(c, s, step.ruleInput);
    } else {
      RuleSideFrame(c, s, step);
    }
  }

  lemma PushesDistinct(s: Sys)
    requires Named(s)
    ensures Distinct(s.hist.eventPushes) && NamedOnce(s.db.events, s.hist.eventPushes)
  {
    NamedCrash(s);
    var out := Announced(s.hist.eventPushes, s.llm);
    assert out[..|s.hist.eventPushes|] == s.hist.eventPushes;
    NamedOncePrefix(s.db.events, out, |s.hist.eventPushes|);
  }

  lemma {:induction false} RunDelivers(c: Config, s0: Sys, steps: seq<Step>)
    requires Init(s0) && OwnPushesOnly(steps)
    ensures var s := Run(c, s0, steps); Fifo(s) && Named(s) && TweetsNamed(s) && Once(s)
  {
    if steps != [] {
      var n := |steps| - 1;
      var s := Run(c, s0, steps[..n]);
      RunDelivers(c, s0, steps[..n]);
      RunKeepsSound(c, s0, steps[..n]);
      PushesDistinct(s);
      FifoStep(c, s, steps[n]);
      NamedStep(c, s, steps[n]);
      TweetsNamedStep(c, s, steps[n]);
      OnceStep(c, s, steps[n]);
    }
  }

  // ---- Main results ----

  /** At most once to the broker: in every run from the empty system, under every interleaving, with
      crashes at any step and replayed tweets, no event id reaches place_order twice. */
  lemma AtMostOnceToBroker(c: Config, s0: Sys, steps: seq<Step>)
    requires Init(s0) && OwnPushesOnly(steps)
    ensures Distinct(PlacedEvents(Run(c, s0, steps).placed))
  {
    RunDelivers(c, s0, steps);
  }

  /** No phantom ids: every id in a queue or just popped from one names a committed row, so neither
      worker ever meets an unknown id. */
  lemma NoPhantomIds(c: Config, s0: Sys, steps: seq<Step>)
    requires Init(s0) && OwnPushesOnly(steps)
    ensures var s := Run(c, s0, steps);
            && (forall id :: id in s.redis.tweetQueue ==> 1 <= id <= |s.db.tweets|)
            && (s.llm.LLoad? ==> 1 <= s.llm.id <= |s.db.tweets|)
            && (forall id :: id in s.redis.eventQueue ==> id in EventIds(s.db.events))
            && (s.rule.RLoad? ==> FindEvent(s.db.events, s.rule.eventId).Some?)
  {
    RunDelivers(c, s0, steps);
    var s := Run(c, s0, steps);
    PushesDistinct(s);
    forall id | id in s.redis.eventQueue || id in s.hist.eventPops ensures id in EventIds(s.db.events) {
      assert id in s.hist.eventPops + s.redis.eventQueue;
    }
  }

  /** Queues are first in, first out and lose nothing: what was popped and what is queued, in that
      order, is what the LLM worker pushed, without repetition. */
  lemma QueueIsFaithful(c: Config, s0: Sys, steps: seq<Step>)
    requires Init(s0) && OwnPushesOnly(steps)
    ensures var s := Run(c, s0, steps);
            s.hist.eventPops + s.redis.eventQueue == s.hist.eventPushes && Distinct(s.hist.eventPushes)
  {
    RunDelivers(c, s0, steps);
    PushesDistinct(Run(c, s0, steps));
  }
}
