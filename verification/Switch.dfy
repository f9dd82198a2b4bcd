/** The kill switch as a protocol: agreement of the Redis flag with the log, activations that stay
    visible through crashes and key loss, and the bound on what slips through after one. */
module Switch {
  import opened Basics
  import opened Records
  import opened Risk
  import opened Protocol

  // ---- Who holds the switch transaction ----

  predicate OwnerOk(tx: Option<SwitchTx>, ingest: IngestPc, llm: LlmPc) {
    tx.Some? ==>
      match tx.value.owner
      case IngestionWorker => ingest.IActivating? && tx.value.row.activated
      case LLMWorker => llm.LActivating? && tx.value.row.activated
      case Operator => true
  }

  lemma StepOwnerOk(c: Config, s: Sys, step: Step)
    requires OwnerOk(s.tx, s.ingest, s.llm)
    ensures var s' := Exec(c, s, step); OwnerOk(s'.tx, s'.ingest, s'.llm)
  {
    if step.Trade? { RuleFrame(c, s, step.ruleInput); }
  }

  lemma {:induction false} RunOwnerOk(c: Config, s: Sys, steps: seq<Step>)
    requires OwnerOk(s.tx, s.ingest, s.llm)
    ensures var s' := Run(c, s, steps); OwnerOk(s'.tx, s'.ingest, s'.llm)
  {
    if steps != [] {
      RunOwnerOk(c, s, steps[..|steps| - 1]);
      StepOwnerOk(c, Run(c, s, steps[..|steps| - 1]), steps[|steps| - 1]);
    }
  }

  // ---- What a step does to the flag, the transaction and the log ----

  predicate SwitchUnchanged(s: Sys, s': Sys) {
    s'.redis.flag == s.redis.flag && s'.tx == s.tx && s'.db.switchLog == s.db.switchLog
    && s'.hist.deactivations == s.hist.deactivations
  }

  // AdvanceTx, as seen by the switch
  predicate Advanced(s: Sys, s': Sys) {
    s.tx.Some?
    && s'.redis.flag == AdvanceTx(s).redis.flag && s'.tx == AdvanceTx(s).tx
    && s'.db.switchLog == AdvanceTx(s).db.switchLog && s'.hist.deactivations == AdvanceTx(s).hist.deactivations
  }

  predicate Opened(s: Sys, s': Sys) {
    s.tx.None? && s'.tx.Some? && !s'.tx.value.written
    && s'.redis.flag == s.redis.flag && s'.db.switchLog == s.db.switchLog
    && s'.hist.deactivations == s.hist.deactivations
  }

  predicate Aborted(s: Sys, s': Sys) {
    s.tx.Some? && s'.tx.None?
    && s'.redis.flag == s.redis.flag && s'.db.switchLog == s.db.switchLog
    && s'.hist.deactivations == s.hist.deactivations
  }

  predicate FlagLost(s: Sys, s': Sys) {
    !s'.redis.flag && s'.tx == s.tx && s'.db.switchLog == s.db.switchLog
    && s'.hist.deactivations == s.hist.deactivations
  }

  predicate Disturbs(step: Step) {
    step.IngestCrash? || step.LlmCrash? || step.AbortRequest? || step.LoseFlag?
  }

  lemma IngestSwitchQuiet(c: Config, s: Sys, input: IngestInput)
    requires !s.ingest.ITrip? && !s.ingest.IActivating?
    ensures SwitchUnchanged(s, IngestStep(c, s, input))
  {
  }

  lemma IngestSwitchEffect(c: Config, s: Sys, input: IngestInput)
    ensures var s' := IngestStep(c, s, input); SwitchUnchanged(s, s') || Advanced(s, s') || Opened(s, s')
  {
    if !s.ingest.ITrip? && !s.ingest.IActivating? { IngestSwitchQuiet(c, s, input); }
  }

  lemma LlmSwitchQuiet(c: Config, s: Sys, input: LlmInput)
    requires OwnerOk(s.tx, s.ingest, s.llm) && !s.llm.LTrip? && !s.llm.LActivating?
    ensures SwitchUnchanged(s, LlmStep(c, s, input))
  {
  }

  lemma LlmSwitchEffect(c: Config, s: Sys, input: LlmInput)
    requires OwnerOk(s.tx, s.ingest, s.llm)
    ensures var s' := LlmStep(c, s, input); SwitchUnchanged(s, s') || Advanced(s, s') || Opened(s, s')
  {
    if !s.llm.LTrip? && !s.llm.LActivating? { LlmSwitchQuiet(c, s, input); }
  }

  lemma RuleSwitchFrame(c: Config, s: Sys, input: RuleInput)
    ensures SwitchUnchanged(s, RuleStep(c, s, input))
  {
  }

  lemma OutsideSwitchEffect(c: Config, s: Sys, step: Step)
    requires Outside(step)
    ensures var s' := Exec(c, s, step);
            && (SwitchUnchanged(s, s') || Advanced(s, s') || Opened(s, s') || Aborted(s, s') || FlagLost(s, s'))
            && (!Disturbs(step) ==> SwitchUnchanged(s, s') || Advanced(s, s') || Opened(s, s'))
  {
  }

  lemma SwitchEffect(c: Config, s: Sys, step: Step)
    requires OwnerOk(s.tx, s.ingest, s.llm)
    ensures var s' := Exec(c, s, step);
            && (SwitchUnchanged(s, s') || Advanced(s, s') || Opened(s, s') || Aborted(s, s') || FlagLost(s, s'))
            && (!Disturbs(step) ==> SwitchUnchanged(s, s') || Advanced(s, s') || Opened(s, s'))
  {
    match step {
      case Ingest(input) => IngestSwitchEffect(c, s, input);
      case Analyze(input) => LlmSwitchEffect(c, s, input);
      case Trade(input) => RuleSwitchFrame(c, s, input);
      case _ => OutsideSwitchEffect(c, s, step);
    }
  }

  // ---- Agreement of flag and log ----

  // In the middle of a transaction the flag may be ahead of the log
  predicate Agrees(flag: bool, tx: Option<SwitchTx>, log: seq<SwitchRow>) {
    flag == if tx.Some? && tx.value.written then tx.value.row.activated else LatestActivated(log)
  }

  // The owner dies between key write and commit, and its row would have changed the latest value
  predicate DiesWritten(s: Sys, owner: Owner) {
    Holds(s, owner) && s.tx.value.written && s.tx.value.row.activated != LatestActivated(s.db.switchLog)
  }

  // The steps that part flag and log: such a death, or the loss of a key that is set
  predicate Parts(s: Sys, step: Step) {
    match step
    case IngestCrash => DiesWritten(s, IngestionWorker)
    case LlmCrash => DiesWritten(s, LLMWorker)
    case AbortRequest => DiesWritten(s, Operator)
    case LoseFlag => s.redis.flag
    case _ => false
  }

  ghost predicate Undisturbed(c: Config, s: Sys, steps: seq<Step>) {
    steps == [] ||
    (Undisturbed(c, s, steps[..|steps| - 1]) && !Parts(Run(c, s, steps[..|steps| - 1]), steps[|steps| - 1]))
  }

  ghost predicate AgreesThroughout(c: Config, s: Sys, steps: seq<Step>) {
    && Agrees(Run(c, s, steps).redis.flag, Run(c, s, steps).tx, Run(c, s, steps).db.switchLog)
    && (steps == [] || AgreesThroughout(c, s, steps[..|steps| - 1]))
  }

  lemma CrashAgreesIff(c: Config, s: Sys, step: Step)
    requires OwnerOk(s.tx, s.ingest, s.llm) && Agrees(s.redis.flag, s.tx, s.db.switchLog) && Disturbs(step)
    ensures var s' := Exec(c, s, step); Agrees(s'.redis.flag, s'.tx, s'.db.switchLog) <==> !Parts(s, step)
  {
  }

  lemma StepAgreesIff(c: Config, s: Sys, step: Step)
    requires OwnerOk(s.tx, s.ingest, s.llm) && Agrees(s.redis.flag, s.tx, s.db.switchLog)
    ensures var s' := Exec(c, s, step); Agrees(s'.redis.flag, s'.tx, s'.db.switchLog) <==> !Parts(s, step)
  {
    if Disturbs(step) {
      CrashAgreesIff(c, s, step);
    } else {
      SwitchEffect(c, s, step);
    }
  }

  /** From agreement, flag and log agree after every step of a run exactly when no step of it parts them. */
  lemma {:induction false} AgreesThroughoutIff(c: Config, s: Sys, steps: seq<Step>)
    requires OwnerOk(s.tx, s.ingest, s.llm) && Agrees(s.redis.flag, s.tx, s.db.switchLog)
    ensures AgreesThroughout(c, s, steps) <==> Undisturbed(c, s, steps)
  {
    if steps != [] {
      var n := |steps| - 1;
      AgreesThroughoutIff(c, s, steps[..n]);
      if Undisturbed(c, s, steps[..n]) {
        LastAgrees(c, s, steps[..n]);
        RunOwnerOk(c, s, steps[..n]);
        StepAgreesIff(c, Run(c, s, steps[..n]), steps[n]);
      }
    }
  }

  lemma LastAgrees(c: Config, s: Sys, steps: seq<Step>)
    requires AgreesThroughout(c, s, steps)
    ensures var s' := Run(c, s, steps); Agrees(s'.redis.flag, s'.tx, s'.db.switchLog)
  {
  }

  /** Agreement: the Redis flag equals the latest log row whenever no switch transaction is open, in every run
      from the empty system in which no owner of a switch transaction dies between key write and commit with a
      row that changes the value, and in which no key that is set is lost. Every other crash is allowed. */
  lemma FlagMatchesLog(c: Config, s0: Sys, steps: seq<Step>)
    requires Init(s0) && Undisturbed(c, s0, steps)
    ensures var s := Run(c, s0, steps); s.tx.None? ==> s.redis.flag == LatestActivated(s.db.switchLog)
  {
    AgreesThroughoutIff(c, s0, steps);
    LastAgrees(c, s0, steps);
  }

  /** A transaction that crashes leaves flag and log in agreement exactly when it had not yet written the
      flag or would not have changed the latest value. */
  lemma AbortAgreesIff(s: Sys, owner: Owner)
    requires Holds(s, owner) && Agrees(s.redis.flag, s.tx, s.db.switchLog)
    ensures var s' := AbortTx(s, owner);
            Agrees(s'.redis.flag, s'.tx, s'.db.switchLog) <==>
              !s.tx.value.written || s.tx.value.row.activated == LatestActivated(s.db.switchLog)
  {
  }

  /** Losing the key breaks the agreement exactly when the switch is on. */
  lemma KeyLossAgreesIff(c: Config, s: Sys)
    requires s.tx.None? && Agrees(s.redis.flag, s.tx, s.db.switchLog)
    ensures var s' := Exec(c, s, LoseFlag);
            Agrees(s'.redis.flag, s'.tx, s'.db.switchLog) <==> !LatestActivated(s.db.switchLog)
  {
  }

  // The step by which the owner of the open transaction writes the key
  predicate WritesKey(s: Sys, step: Step) {
    s.tx.Some? && !s.tx.value.written &&
    match s.tx.value.owner
    case IngestionWorker => step.Ingest?
    case LLMWorker => step.Analyze?
    case Operator => step.AdvanceRequest?
  }

  /** However flag and log came apart, the next key write by a worker or an operator brings them back together,
      for as long as no step parts them again. */
  lemma AgreementRecovers(c: Config, s: Sys, write: Step, steps: seq<Step>)
    requires OwnerOk(s.tx, s.ingest, s.llm) && WritesKey(s, write) && Undisturbed(c, Exec(c, s, write), steps)
    ensures var s' := Run(c, Exec(c, s, write), steps);
            s'.tx.None? ==> s'.redis.flag == LatestActivated(s'.db.switchLog)
  {
    StepOwnerOk(c, s, write);
    WriteAgrees(c, s, write);
    AgreesThroughoutIff(c, Exec(c, s, write), steps);
    LastAgrees(c, Exec(c, s, write), steps);
  }

  lemma WriteAgrees(c: Config, s: Sys, write: Step)
    requires OwnerOk(s.tx, s.ingest, s.llm) && WritesKey(s, write)
    ensures var s' := Exec(c, s, write); Agrees(s'.redis.flag, s'.tx, s'.db.switchLog)
  {
  }

  // ---- A committed activation stays in force ----

  lemma StepKeepsActivation(c: Config, s: Sys, step: Step)
    requires OwnerOk(s.tx, s.ingest, s.llm)
    ensures var s' := Exec(c, s, step);
            && s'.hist.deactivations >= s.hist.deactivations
            && (LatestActivated(s.db.switchLog) && s'.hist.deactivations == s.hist.deactivations ==>
                  LatestActivated(s'.db.switchLog))
  {
    SwitchEffect(c, s, step);
  }

  /** Only a committed deactivation takes a committed activation out of force, whatever crashes and
      whatever Redis loses. */
  lemma {:induction false} ActivationStays(c: Config, s: Sys, steps: seq<Step>)
    requires OwnerOk(s.tx, s.ingest, s.llm)
    ensures var s' := Run(c, s, steps);
            && s'.hist.deactivations >= s.hist.deactivations
            && (LatestActivated(s.db.switchLog) && s'.hist.deactivations == s.hist.deactivations ==>
                  LatestActivated(s'.db.switchLog))
  {
    if steps != [] {
      var n := |steps| - 1;
      ActivationStays(c, s, steps[..n]);
      RunOwnerOk(c, s, steps[..n]);
      StepKeepsActivation(c, Run(c, s, steps[..n]), steps[n]);
    }
  }

  /** Deactivations come from operator requests only, never from a worker. */
  lemma OnlyOperatorsDeactivate(c: Config, s: Sys, step: Step)
    requires OwnerOk(s.tx, s.ingest, s.llm) && Exec(c, s, step).hist.deactivations != s.hist.deactivations
    ensures step.AdvanceRequest? && Holds(s, Operator) && s.tx.value.written && !s.tx.value.row.activated
  {
    if step.Trade? { RuleSwitchFrame(c, s, step.ruleInput); }
  }

  // POST /kill-switch/deactivate with the confirmation header and a reason
  predicate ConfirmedBy(step: Step, actor: string) {
    step.OpenRequest? && step.request.Deactivate? && step.request.actor == actor
    && step.request.confirm == Some("I-understand") && step.request.reason != ""
  }

  predicate Confirmed(step: Step) {
    step.OpenRequest? && step.request.Deactivate? && ConfirmedBy(step, step.request.actor)
  }

  function ConfirmedCount(steps: seq<Step>): nat {
    if steps == [] then 0
    else ConfirmedCount(steps[..|steps| - 1]) + if Confirmed(steps[|steps| - 1]) then 1 else 0
  }

  // A deactivating row on its way
  function Pending(tx: Option<SwitchTx>): nat {
    if tx.Some? && !tx.value.row.activated then 1 else 0
  }

  lemma StepDeactivates(c: Config, s: Sys, step: Step)
    requires OwnerOk(s.tx, s.ingest, s.llm)
    ensures var s' := Exec(c, s, step);
            s'.hist.deactivations + Pending(s'.tx) <= s.hist.deactivations + Pending(s.tx) + if Confirmed(step) then 1 else 0
  {
    if step.OpenRequest? {
      OpeningDeactivates(c, s, step.request);
    } else {
      SwitchEffect(c, s, step);
      if s.tx.None? { OnlyRequestsOpenDeactivations(c, s, step); }
    }
  }

  lemma OpeningDeactivates(c: Config, s: Sys, request: Request)
    ensures var s' := Exec(c, s, OpenRequest(request));
            s'.hist.deactivations + Pending(s'.tx)
              <= s.hist.deactivations + Pending(s.tx) + if Confirmed(OpenRequest(request)) then 1 else 0
  {
  }

  lemma OnlyRequestsOpenDeactivations(c: Config, s: Sys, step: Step)
    requires OwnerOk(s.tx, s.ingest, s.llm) && !step.OpenRequest? && s.tx.None?
    ensures Pending(Exec(c, s, step).tx) == 0
  {
    if step.Trade? { RuleSwitchFrame(c, s, step.ruleInput); }
  }

  lemma {:induction false} RunDeactivates(c: Config, s: Sys, steps: seq<Step>)
    requires OwnerOk(s.tx, s.ingest, s.llm)
    ensures var s' := Run(c, s, steps);
            s'.hist.deactivations + Pending(s'.tx) <= s.hist.deactivations + Pending(s.tx) + ConfirmedCount(steps)
  {
    if steps != [] {
      var n := |steps| - 1;
      RunDeactivates(c, s, steps[..n]);
      RunOwnerOk(c, s, steps[..n]);
      StepDeactivates(c, Run(c, s, steps[..n]), steps[n]);
    }
  }

  // Every deactivating row, committed or on its way, names the actor of a confirmed request
  predicate RowConfirmed(steps: seq<Step>, row: SwitchRow) {
    !row.activated ==> exists k :: 0 <= k < |steps| && ConfirmedBy(steps[k], row.actor)
  }

  predicate RowsConfirmed(steps: seq<Step>, tx: Option<SwitchTx>, log: seq<SwitchRow>) {
    && (forall row :: row in log ==> RowConfirmed(steps, row))
    && (tx.Some? ==> RowConfirmed(steps, tx.value.row))
  }

  lemma RowsConfirmedKept(steps: seq<Step>, step: Step, tx: Option<SwitchTx>, log: seq<SwitchRow>)
    requires RowsConfirmed(steps, tx, log)
    ensures RowsConfirmed(steps + [step], tx, log)
  {
    forall row | RowConfirmed(steps, row) ensures RowConfirmed(steps + [step], row) {
      if !row.activated {
        var k :| 0 <= k < |steps| && ConfirmedBy(steps[k], row.actor);
        assert (steps + [step])[k] == steps[k];
      }
    }
  }

  // What a step can put into the log or on its way there
  lemma StepRows(c: Config, s: Sys, step: Step)
    requires OwnerOk(s.tx, s.ingest, s.llm)
    ensures var s' := Exec(c, s, step);
            && (s'.db.switchLog == s.db.switchLog || (s.tx.Some? && s'.db.switchLog == s.db.switchLog + [s.tx.value.row]))
            && (s'.tx.Some? ==>
                  (s.tx.Some? && s'.tx.value.row == s.tx.value.row) || s'.tx.value.row.activated
                  || ConfirmedBy(step, s'.tx.value.row.actor))
  {
    SwitchEffect(c, s, step);
    if step.OpenRequest? {
      OpeningRow(c, s, step.request);
    } else if s.tx.None? {
      OnlyRequestsOpenDeactivations(c, s, step);
    }
  }

  lemma OpeningRow(c: Config, s: Sys, request: Request)
    ensures var s' := Exec(c, s, OpenRequest(request));
            s'.tx == s.tx ||
            (s'.tx.Some? && (s'.tx.value.row.activated || ConfirmedBy(OpenRequest(request), s'.tx.value.row.actor)))
  {
  }

  lemma {:induction false} RunRowsConfirmed(c: Config, s0: Sys, steps: seq<Step>)
    requires Init(s0)
    ensures var s := Run(c, s0, steps); RowsConfirmed(steps, s.tx, s.db.switchLog)
  {
    if steps != [] {
      var n := |steps| - 1;
      var front, s := steps[..n], Run(c, s0, steps[..n]);
      assert steps == front + [steps[n]];
      RunRowsConfirmed(c, s0, front);
      RunOwnerOk(c, s0, front);
      RowsConfirmedKept(front, steps[n], s.tx, s.db.switchLog);
      StepRows(c, s, steps[n]);
    }
  }

  /** In every run the committed deactivations are at most as many as the requests that carried the confirmation
      header and a reason, and each row that deactivates names the actor of such a request. Workers, crashes and
      Redis never deactivate. */
  lemma DeactivationsAreConfirmed(c: Config, s0: Sys, steps: seq<Step>)
    requires Init(s0)
    ensures var s := Run(c, s0, steps);
            && s.hist.deactivations <= ConfirmedCount(steps)
            && forall row :: row in s.db.switchLog && !row.activated ==>
                 exists k :: 0 <= k < |steps| && ConfirmedBy(steps[k], row.actor)
  {
    RunDeactivates(c, s0, steps);
    RunRowsConfirmed(c, s0, steps);
    var s := Run(c, s0, steps);
    forall row | row in s.db.switchLog && !row.activated
      ensures exists k :: 0 <= k < |steps| && ConfirmedBy(steps[k], row.actor)
    {
      assert RowConfirmed(steps, row);
    }
  }

  // ---- What slips through ----

  // Each worker's allowance: one unit while it is past its check and the effect is still to come
  function OrderAllowance(pc: RulePc): nat {
    if pc.RValidate? || pc.RPlace? then 1 else 0
  }

  function PopAllowance(pc: RulePc): nat {
    if pc.RPop? then 1 else 0
  }

  function TweetAllowance(pc: IngestPc): nat {
    if pc.IInsert? || pc.ICommit? then 1 else 0
  }

  function AnalysisAllowance(pc: LlmPc): nat {
    if pc.LPop? || pc.LLoad? || pc.LCommit? then 1 else 0
  }

  lemma RuleLeak(c: Config, s: Sys, input: RuleInput)
    requires LatestActivated(s.db.switchLog)
    ensures var s' := RuleStep(c, s, input);
            |s'.placed| + OrderAllowance(s'.rule) <= |s.placed| + OrderAllowance(s.rule)
  {
    if s.rule.RLoad? { LoadLeaksNothing(c, s, input); }
  }

  lemma LoadLeaksNothing(c: Config, s: Sys, input: RuleInput)
    requires s.rule.RLoad?
    ensures var s' := RuleStep(c, s, input);
            s'.placed == s.placed && s'.hist.eventPops == s.hist.eventPops && OrderAllowance(s'.rule) == PopAllowance(s'.rule) == 0
  {
  }

  lemma RulePopLeak(c: Config, s: Sys, input: RuleInput)
    requires LatestActivated(s.db.switchLog)
    ensures var s' := RuleStep(c, s, input);
            |s'.hist.eventPops| + PopAllowance(s'.rule) <= |s.hist.eventPops| + PopAllowance(s.rule)
  {
    if s.rule.RLoad? { LoadLeaksNothing(c, s, input); }
  }

  lemma StepLeaksOrders(c: Config, s: Sys, step: Step)
    requires LatestActivated(s.db.switchLog)
    ensures var s' := Exec(c, s, step);
            && |s'.placed| + OrderAllowance(s'.rule) <= |s.placed| + OrderAllowance(s.rule)
            && |s'.hist.eventPops| + PopAllowance(s'.rule) <= |s.hist.eventPops| + PopAllowance(s.rule)
  {
    if step.Trade? {
      RuleLeak(c, s, step.ruleInput);
      RulePopLeak(c, s, step.ruleInput);
    } else {
      RuleSideFrame(c, s, step);
      if step.RuleCrash? { assert CrashRule(s).rule.RStopped? || CrashRule(s).rule == RCheck(ReadEnv); }
    }
  }

  lemma StepLeaksTweets(c: Config, s: Sys, step: Step)
    requires LatestActivated(s.db.switchLog)
    ensures var s' := Exec(c, s, step);
            |s'.db.tweets| + TweetAllowance(s'.ingest) <= |s.db.tweets| + TweetAllowance(s.ingest)
  {
    if !step.Ingest? { IngestSideFrame(c, s, step); }
  }

  lemma StepLeaksAnalyses(c: Config, s: Sys, step: Step)
    requires LatestActivated(s.db.switchLog)
    ensures var s' := Exec(c, s, step);
            |s'.db.decisions| + AnalysisAllowance(s'.llm) <= |s.db.decisions| + AnalysisAllowance(s.llm)
  {
    if !step.Analyze? { LlmSideFrame(c, s, step); }
  }

  lemma {:induction false} RunLeaks(c: Config, s: Sys, steps: seq<Step>)
    requires OwnerOk(s.tx, s.ingest, s.llm) && LatestActivated(s.db.switchLog)
    requires Run(c, s, steps).hist.deactivations == s.hist.deactivations
    ensures var s' := Run(c, s, steps);
            && |s'.placed| + OrderAllowance(s'.rule) <= |s.placed| + OrderAllowance(s.rule)
            && |s'.hist.eventPops| + PopAllowance(s'.rule) <= |s.hist.eventPops| + PopAllowance(s.rule)
            && |s'.db.tweets| + TweetAllowance(s'.ingest) <= |s.db.tweets| + TweetAllowance(s.ingest)
            && |s'.db.decisions| + AnalysisAllowance(s'.llm) <= |s.db.decisions| + AnalysisAllowance(s.llm)
  {
    if steps != [] {
      var n := |steps| - 1;
      var before := Run(c, s, steps[..n]);
      ActivationStays(c, s, steps[..n]);
      RunOwnerOk(c, s, steps[..n]);
      StepKeepsActivation(c, before, steps[n]);
      RunLeaks(c, s, steps[..n]);
      StepLeaksOrders(c, before, steps[n]);
      StepLeaksTweets(c, before, steps[n]);
      StepLeaksAnalyses(c, before, steps[n]);
    }
  }

  /** Bounded leakage: from a committed activation to the next committed deactivation, at most one order
      reaches the broker, one event is popped, one tweet is persisted and one tweet is analysed; each only
      if its worker was already past its check. Crashes and key loss change nothing. */
  lemma BoundedLeakage(c: Config, s0: Sys, before: seq<Step>, after: seq<Step>)
    requires Init(s0)
    requires LatestActivated(Run(c, s0, before).db.switchLog)
    requires Run(c, s0, before + after).hist.deactivations == Run(c, s0, before).hist.deactivations
    ensures var s, s' := Run(c, s0, before), Run(c, s0, before + after);
            && |s'.placed| <= |s.placed| + OrderAllowance(s.rule) <= |s.placed| + 1
            && |s'.hist.eventPops| <= |s.hist.eventPops| + PopAllowance(s.rule)
            && |s'.db.tweets| <= |s.db.tweets| + TweetAllowance(s.ingest)
            && |s'.db.decisions| <= |s.db.decisions| + AnalysisAllowance(s.llm)
  {
    RunAppend(c, s0, before, after);
    RunOwnerOk(c, s0, before);
    RunLeaks(c, Run(c, s0, before), after);
  }

  /** A committed activation is seen by every read that starts after it: a worker that is at its check
      stays at it or stops, until a deactivation commits. */
  lemma {:induction false} ReadersSeeActivation(c: Config, s: Sys, steps: seq<Step>)
    requires OwnerOk(s.tx, s.ingest, s.llm) && LatestActivated(s.db.switchLog)
    requires Run(c, s, steps).hist.deactivations == s.hist.deactivations
    ensures var s' := Run(c, s, steps);
            && (s.rule.RCheck? || s.rule.RStopped? ==> s'.rule.RCheck? || s'.rule.RStopped?)
            && (s.llm.LCheck? || s.llm.LStopped? ==> s'.llm.LCheck? || s'.llm.LStopped?)
            && (s.ingest.IWait? || s.ingest.ICheck? || s.ingest.IStopped? ==>
                  s'.ingest.IWait? || s'.ingest.ICheck? || s'.ingest.IStopped?)
  {
    if steps != [] {
      var n := |steps| - 1;
      var before := Run(c, s, steps[..n]);
      ActivationStays(c, s, steps[..n]);
      RunOwnerOk(c, s, steps[..n]);
      StepKeepsActivation(c, before, steps[n]);
      ReadersSeeActivation(c, s, steps[..n]);
      if s.rule.RCheck? || s.rule.RStopped? { RuleReaderStops(c, before, steps[n]); }
      OtherReadersStop(c, before, steps[n]);
    }
  }

  lemma RuleReaderStops(c: Config, s: Sys, step: Step)
    requires LatestActivated(s.db.switchLog) && (s.rule.RCheck? || s.rule.RStopped?)
    ensures var s' := Exec(c, s, step); s'.rule.RCheck? || s'.rule.RStopped?
  {
    if !step.Trade? { RuleSideFrame(c, s, step); }
  }

  lemma OtherReadersStop(c: Config, s: Sys, step: Step)
    requires LatestActivated(s.db.switchLog)
    ensures var s' := Exec(c, s, step);
            && (s.llm.LCheck? || s.llm.LStopped? ==> s'.llm.LCheck? || s'.llm.LStopped?)
            && (s.ingest.IWait? || s.ingest.ICheck? || s.ingest.IStopped? ==>
                  s'.ingest.IWait? || s'.ingest.ICheck? || s'.ingest.IStopped?)
  {
    if step.Trade? { RuleFrame(c, s, step.ruleInput); }
  }
}
