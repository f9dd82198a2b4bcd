# Tweet-to-order pipeline: a verified model

The system turns tweets into broker orders. An ingestion worker stores each tweet once and queues its row
id. An LLM worker pops ids, stores one decision per tweet and one event per resolved ticker, and queues the
event ids. A rule worker pops event ids, runs the rule engine, sends a matched order through the kill switch,
the trading mode gate and six risk checks to the broker, and commits audit and order rows. Operators and the
two budget trackers can activate the kill switch.

## How the model is built

- **The protocol** (`Protocol.dfy`). One state holds the tables, the two Redis lists, the spend counters, the
  kill flag, the broker's orders, a monotone clock, one program counter per worker and a history of pushes,
  pops and commits. Each effect (one of the three switch reads, a pop, an insert, a commit, a push, a charge,
  a placed order, a flush, a key write) is one step. A crash may come between any two steps, Redis may lose
  keys, and a step that does not apply leaves the state as it is. A theorem about every list of steps is
  therefore a theorem about every interleaving.
- **Theorems over whole runs**: `Integrity`, `Delivery`, `Orders`, `Losses`, `Mishap`, `Provenance`, `Analyses`, `Audit`,
  `Switch`, `Budget`, `Confluence` and `Journal`.
- **The algorithms the steps call**: `Rules`, `Conditions`, `RuleStores`, `Risk`, `Aliases`, `Keys`,
  `Positions`, with their loops as methods proved against specification functions, and what those functions mean
  stated without them.
- **The workers as they are written**: `Worlds` holds the shared tables, lists and counters as fields that are
  updated in place; `KillSwitch`, `Executor`, `Trackers`, `RulePipeline`, `LlmPipeline` and `Ingestion` are the
  services and loops over it. Each update is tied to one protocol step, so a loop run is proved to be a run of
  the protocol (`Worlds.WorkersStayReachable`) and every run theorem holds after it. The loops also carry their
  own results: termination and the accounting of their reports.

`dafny verify dfyconfig.toml` checks the whole project.

## Where the code and its documentation disagree

The model follows the code.

- `backend/services/aliases.py:16-18` promises the lexicographically smaller ticker on equal priority; the code
  (lines 74-77) compares first letters only. `Aliases.TieKeepsFirstRow` is an input on which the larger ticker is
  kept; `Aliases.DocumentedTieBreakIff` is the exact condition under which the promise holds for every row order.
- `backend/services/llm_pipeline.py:8-17` lists the budget charge before the publication of events; the code
  publishes first (lines 183-187, then 191).
- Both trackers trip when the spend reaches the limit, not only when it exceeds it
  (`backend/services/llm_budget.py:35-37`).
- `backend/models/order.py:17` calls the idempotency key a hash; it is the event id and the strategy id joined by
  a colon (`backend/execution/executor.py:74`). The key clause of the idempotency check is implied by its event
  clause for colon-free strategy ids (`Risk.KeyClauseRedundant`).
- A rule may leave out the limit price of a limit order, or give one to a market order, but the orders table
  refuses the row, and it does so after the order was placed. `Mishap.UnpricedLimitOrderLosesItsRow` is a run on
  which this happens; `Losses.LostAreTheMisfits` says over every run which orders lose their row, and
  `Losses.FittingRulesLoseNothing` that none does when every rule's limit price fits its order type.
- A negative LLM cost makes `record_call` raise after the decision was committed and published; the model treats
  that as a crash of the LLM worker.

## Model

| member | source | states |
|---|---|---|
| Keys.JoinRoundTrip | backend/services/llm_pipeline.py:75-77 | splitting at the last colon recovers both parts of a join if and only if the right part has no colon |
| Keys.EventIdInjective | backend/services/llm_pipeline.py:75-77 | for colon-free tickers two event ids are equal if and only if tweet id and ticker are |
| Keys.EventIdSameTweet | backend/services/llm_pipeline.py:153-154 | within one tweet event ids are equal if and only if the tickers are, with no condition on colons |
| Keys.IdempotencyKeyInjective | backend/execution/executor.py:72-74 | the key determines tweet id, ticker and strategy id when both suffixes are colon-free |
| Keys.ColonTickerCollides | backend/services/llm_pipeline.py:75-77 | a ticker holds a colon exactly when some longer tweet id with another ticker yields the same event id |
| Aliases.ResolveTickersLoop | backend/services/aliases.py:44-87 | strictly sorted; a ticker is in the result exactly when some mention yields it: the upper-cased ticker of the best row of its key, and only without such a row the mention itself, when one to five letters are left of it |
| Aliases.ResolvedIff | backend/services/aliases.py:80-87 | the same for the specification the LLM worker is proved against |
| Aliases.BareIs | backend/services/aliases.py:35-41 | what is left of a mention stands between leading dollar signs with the white space after them and trailing white space |
| Aliases.CaseIs | backend/services/aliases.py:36-40 | upper and lower case keep a letter's place in the alphabet and every other character |
| Aliases.TickerShapeIff | backend/services/aliases.py:32-41 | ticker-shaped means one to five letters after stripping |
| Aliases.FetchedIff | backend/services/aliases.py:57-67 | a row is fetched exactly when its lower-cased mention is the key of a mention that is not blank |
| Aliases.FetchedAppend | backend/services/aliases.py:61-67 | fetching keeps table order and multiplicity |
| Aliases.KeptIffFirstBest | backend/services/aliases.py:74-78 | the kept row: highest priority, then smallest first letter, then first in order |
| Aliases.TeslaIsTSLA | backend/services/aliases.py:3-4 | "Tesla" with its alias row gives TSLA and not itself |
| Aliases.ChosenIsFirstBest | backend/services/aliases.py:70-78 | the row kept for a key is the first one no other row beats by priority, then by smaller first letter |
| Aliases.ResolveIsSetFunction | backend/services/aliases.py:80-87 | the result depends only on the set of mentions |
| Aliases.OrderIndependentIff | backend/services/aliases.py:69-78 | the ticker kept for a key is independent of row order if and only if all its rows of the best priority and first letter carry one ticker |
| Aliases.DocumentedTieBreakIff | backend/services/aliases.py:16-18 | in every row order the kept row has the highest priority and, among the rows that have it, the lexicographically least ticker, if and only if the rows of the best priority and first letter carry one ticker |
| Aliases.ResolveOrderIndependent | backend/services/aliases.py:61-87 | with that condition on every mentioned key the whole output is the same for every permutation of the table |
| Aliases.TieKeepsFirstRow | backend/services/aliases.py:74-78 | two tickers with equal priority and first letter: the first row wins in both orders, so the documented tie-break fails in one |
| Rules.RuleEngine.Evaluate | backend/rules/engine.py:111-182 | the recording loop computes the outcome that the rows below describe |
| Conditions.ConfidenceThreshold | backend/rules/engine.py:44-51 | a confidence condition with a number holds exactly for >=, >, <=, < of the event's confidence |
| Conditions.OrderingMeans | backend/rules/engine.py:44-51 | for every field: the orderings compare the number made of the field with the number made of the value |
| Conditions.OrderingRaisesIff | backend/rules/engine.py:44-51 | an ordering raises exactly when one side is no number |
| Conditions.EqualityMeans | backend/rules/engine.py:40-43 | eq and neq never raise and hold exactly on equal and unequal field and value, with the stored texts of intent and horizon |
| Conditions.MembershipMeans | backend/rules/engine.py:52-55 | in raises exactly for a value that is no list and holds exactly when an item equals the field |
| Conditions.ShippedRuleFiresIff | rules/example_bullish_swing.yaml:9-18 | the shipped rule fires exactly on bullish events of confidence 0.6 or more with intraday or swing horizon |
| Conditions.ShippedRuleMatchesIff | rules/example_bullish_swing.yaml:1-26 | alone it matches exactly those and asks for one share at the market on paper |
| Rules.AllHoldIff | backend/rules/engine.py:139-140 | conditions hold exactly when each one is true |
| Rules.AllHoldRaisesIff | backend/rules/engine.py:139-158 | evaluation raises exactly when some condition raises and all before it are true |
| Rules.FirstMatchWins | backend/rules/engine.py:160-169 | the match is the first rule to fire, and there is one exactly when some rule fires |
| Rules.OneRecordPerRule | backend/rules/engine.py:115-180 | one record per rule in order; only the first firing rule is MATCHED and carries its order; a raising rule is FAILED, every other SKIPPED |
| Rules.EngineOrderIndependent | backend/rules/engine.py:107-109 | with unique ids the whole outcome is the same for every permutation of the rules |
| Rules.CanonicalOrderIff | backend/rules/engine.py:109 | the evaluation order forgets the input order exactly when no two different rules share priority and id |
| Rules.MatchIsBest | backend/rules/engine.py:107-182 | the match is the firing rule that is first by descending priority, then id |
| Rules.BestExists | backend/rules/engine.py:84-101 | with or without unique ids a match is the record of a firing rule that no other firing rule precedes |
| Rules.LosersDoNotMatter | backend/rules/engine.py:126-180 | removing rules that are disabled, fail or rank lower never changes the match |
| RuleStores.LoadRulesFromDir | backend/rules/loader.py:37-63 | the loop equals the specified load, with the same error for the same first bad file |
| RuleStores.LoadIff | backend/rules/loader.py:46-61 | a successful load yields exactly the rules of the live files, ids unique, by descending priority then id |
| RuleStores.LoadsIff | backend/rules/loader.py:49-59 | an existing directory loads exactly when each live file parses and no two declare one id, whatever the listing order |
| RuleStores.LiveIff | backend/rules/loader.py:49-54 | live means a non-empty stem with suffix .yaml or .yml and no leading underscore |
| RuleStores.LoadFails | backend/rules/loader.py:46-58 | a failed load names the first file, by name, that does not parse or repeats an id, or the missing directory |
| RuleStores.RulePathsAre | backend/rules/loader.py:49 | the files are read in the order of their names |
| RuleStores.LoadedIsCanonical | backend/rules/loader.py:61 | the engine's own sort leaves a loaded list unchanged |
| RuleStores.RuleStore.Reload | backend/rules/store.py:26-36 | all or nothing: the new rules replace the old ones, or the old ones stay |
| Risk.WindowIsDay | backend/execution/context.py:50-64 | the window query counts exactly the order rows created on the UTC day of the snapshot |
| Risk.RiskManager.Validate | backend/risk/manager.py:39-70 | the verdict is the conjunction of all rules and one audit row is written per rule, without early return |
| Risk.ApprovedIff | backend/risk/rules.py:42-189 | an order is approved exactly when all six limits hold, the percentage limits stated without division |
| Risk.ContextIs | backend/execution/context.py:37-82 | a context exists exactly for a positive net liquidation and holds that capital, the exposure of the positions, the number of order rows of the UTC day, and exactly the events and keys of the orders table |
| Risk.ExposureAppend | backend/execution/context.py:47-48 | exposure of two lists is the sum of both |
| Risk.ExposureOfOne | backend/execution/context.py:48 | one position counts max(q, -q) * price, none counts zero |
| Risk.ExposurePermutes | backend/execution/context.py:48 | the order of the positions does not matter |
| Risk.DrawdownIs | backend/risk/rules.py:130-133 | the drawdown is the day's loss in percent of the peak, zero without a loss |
| Risk.KeyClauseRedundant | backend/risk/rules.py:176-189 | a key is in the table only if its event is, for colon-free strategy ids |
| Integrity.ReachableTablesSound | backend/db/session.py:22-33 | in every reachable state references among tweets, decisions, events, evaluations and orders name committed rows, tweet and event ids are unique, and an event repeats its decision's verdict, which is never noise, although no foreign key is enforced; a fill is assumed to be stored for a committed order |
| Integrity.RunTablesGrow | alembic/versions/20260423_1536_initial.py:402-431 | over any run every table is only appended to |
| Integrity.FreshEventsSound | backend/services/llm_pipeline.py:150-174 | the events of one analysis are new, distinct and refer to its tweet and decision |
| Analyses.EveryAnalysisIsCovered | backend/services/llm_pipeline.py:126-175 | in every run each decision row is the verdict of one analysis of its tweet; if it is not noise every resolved ticker has its event, and the decision's events are exactly of that kind, so noise has none |
| Analyses.AnalysisCommits | backend/services/llm_pipeline.py:126-175 | one analysis and its commit add its row and the missing events of its resolved tickers, and for noise leave the events table unchanged |
| LlmPipeline.Analyse | backend/services/llm_pipeline.py:126-174 | the method fills the session with exactly that |
| Delivery.AtMostOnceToBroker | backend/services/rule_pipeline.py:116-151 | under every interleaving, with crashes anywhere and replayed tweets, no event reaches the broker twice |
| Delivery.NoPhantomIds | backend/services/llm_pipeline.py:126-129 | every id in a queue or just popped names a committed row, so neither not-found branch is taken |
| Delivery.QueueIsFaithful | backend/services/llm_pipeline.py:181-187 | popped ids followed by queued ids are the pushed ids, which are all different |
| Orders.AtMostOneRowPerEvent | backend/risk/rules.py:176-189 | at most one orders row per event, even if anyone pushes any ids any number of times |
| Orders.BrokerOrdersAccounted | backend/execution/executor.py:146-162 | orders at the broker for an event are its rows plus those whose row was lost between placing and commit, so at most one plus the losses |
| Orders.RowLostIff | backend/models/order.py:31-36 | recording a placed order fails exactly when the CHECK refuses its row; the UNIQUE key never does |
| Losses.LostAreTheMisfits | backend/models/order.py:32-36 | over every run with no rule-worker crash and schema-valid rules, the orders of an event that lost their row are exactly its placed orders whose limit price does not fit their type, but for one still to be refused |
| Losses.NothingLostIff | backend/execution/executor.py:146-162 | between orders such a run has lost no row if and only if every placed order fits |
| Losses.FittingRulesLoseNothing | backend/rules/models.py:31-47 | when every supplied rule's limit price fits its type, no row is lost and an event has at most one order at the broker |
| Mishap.UnpricedLimitOrderLosesItsRow | backend/execution/executor.py:146-162 | a run from the empty system with one schema-valid rule, a limit order without a price: the order is at the broker and the orders table is empty |
| Orders.RoomOnCreationDay | backend/execution/context.py:50-64 | an approved order finds room under the cap on the day its row is created, also after midnight |
| Orders.DailyCap | backend/risk/rules.py:98-114 | no UTC day holds more order rows than max_trades_per_day, in any reachable state |
| Orders.DailyNotional | backend/risk/rules.py:42-66 | a day's summed notional is at most the cap times max_position_pct of the largest capital seen |
| Provenance.EveryOrderIsAccountedFor | backend/services/rule_pipeline.py:123-143 | behind every order that ever reached the broker stand, in this order, the evaluation of a committed event with its best firing rule, the reading of this order's context, the three reads of the kill switch at its gate, all off, and the placing; in between the worker held this order and this context; the order carries the rule's action; its notional, and with it the summed exposure of the positions read, are within their percentages of the net liquidation read, the day's and the event's order rows leave room, and it is live only if live trading is permitted |
| Provenance.TraceIsRun | backend/services/rule_pipeline.py:104-151 | the states that theorem speaks of are the states of the run |
| Audit.BatchAuditDecides | backend/services/rule_pipeline.py:131-151 | a committed batch has an order exactly when one engine row is MATCHED and six risk rows passed, and then the order is the proposed one |
| Audit.AuditTrailDecides | backend/risk/manager.py:52-76 | from the audit table alone one can tell whether an event has an orders row and what it holds |
| Audit.EngineRowsAre | backend/services/rule_pipeline.py:62-83 | the engine's rows: one per rule by descending priority then id, with its id, priority, verdict and order |
| Audit.RiskRowsAre | backend/risk/manager.py:51-76 | the six risk rows in order, each with its name, index and the verdict of its limit |
| Switch.FlagMatchesLog | backend/kill_switch/service.py:63-99 | flag equals latest row whenever no switch transaction is open, as long as no owner dies between key write and commit of a row that changes the value and no set key is lost; all other crashes are allowed |
| Switch.AgreesThroughoutIff | backend/kill_switch/service.py:63-99 | from agreement, flag and log agree after every step of a run if and only if no step of it is such a death or such a loss |
| Switch.AbortAgreesIff | backend/kill_switch/service.py:63-81 | a transaction that dies leaves flag and log in agreement exactly when the key was not yet written or the row changes nothing |
| Switch.KeyLossAgreesIff | backend/kill_switch/service.py:103-105 | losing the key breaks the agreement exactly when the switch is on |
| Switch.AgreementRecovers | backend/kill_switch/service.py:63-99 | from any state, however flag and log came apart, the next key write by an operator or a worker restores agreement for as long as no step parts them again |
| Switch.ActivationStays | backend/kill_switch/service.py:51-59 | under any crashes and key loss a committed activation stays in force until a deactivation commits |
| Switch.ReadersSeeActivation | backend/kill_switch/service.py:51-59 | a worker at its check never gets past it while an activation is in force |
| Switch.OnlyOperatorsDeactivate | backend/api/kill_switch.py:75-76 | the step that commits a deactivation is the operator's commit of a written deactivating row |
| Switch.DeactivationsAreConfirmed | backend/api/kill_switch.py:56-77 | over every run deactivations are at most as many as requests with the confirmation header and a reason, and each deactivating row names the actor of such a request |
| Switch.BoundedLeakage | backend/execution/executor.py:103-146 | between a committed activation and the next deactivation at most one order, one pop, one tweet and one analysis slip through, each only from a worker already past its check |
| Budget.LlmOvershoot | backend/services/llm_pipeline.py:190-209 | a day's counter stays below limit plus one analysis, plus one for each deactivation and each LLM worker crash |
| Budget.TweetsChargedBound | backend/services/ingestion.py:129-143 | for a positive cost, a counter that starts empty and a month whose key is not lost: charged tweets are at most ceil(limit / cost) plus deactivations plus ingestion crashes |
| Confluence.DrainedRunIsFold | backend/services/ingestion.py:94-121 | every crash-free drained interleaving pushes exactly the fold over the distinct tweets in stream order |
| Confluence.DrainedRunsAgree | backend/services/llm_pipeline.py:101-188 | two drained runs over one stream push the same events in the same order |
| Confluence.FoldIsPlainListIff | backend/services/llm_pipeline.py:150-174 | the fold drops nothing exactly when no two (tweet, ticker) pairs share an event id |
| Confluence.DrainedRunIsPlainList | backend/services/llm_pipeline.py:150-187 | with colon-free tickers the pushed ids are, per distinct tweet, one per sorted ticker |
| Confluence.DrainedRunOfVerdicts | backend/services/llm_pipeline.py:150-187 | with a fixed verdict per tweet and a fixed alias table: per distinct tweet whose verdict is not noise, one id per ticker its tickers resolve to |
| Journal.JournalConserves | alembic/versions/20260426_0900_trade_journal_view.py:21-55 | any quantity attached to fills sums over the view to its sum over the fills table |
| Journal.JournalCount | alembic/versions/20260426_0900_trade_journal_view.py:50-54 | the row count is the sum over events of max(1, sum over orders of max(1, fills)) |
| Journal.JournalIsFaithful | alembic/versions/20260426_0900_trade_journal_view.py:21-55 | in every reachable state each fill appears in exactly one row, on the row of its own order, event, decision and tweet |
| Positions.SyncPositions | backend/services/positions_sync.py:32-70 | the two loops leave the specified table; inserted counts the rows added, updated the reported rows whose quantity or price changed, cleared the unreported rows that went to zero |
| Positions.SnapshotIsLast | backend/services/positions_sync.py:41 | a symbol's last report counts |
| Positions.AddedInReportOrder | backend/services/positions_sync.py:48-58 | new rows come in the order of first reports |
| Positions.SyncedIsReconciled | backend/services/positions_sync.py:40-67 | every reported symbol has its last report, every other row quantity 0 and its old price, no row is lost, realized P&L is untouched |
| Positions.SyncIsIdempotent | backend/services/positions_sync.py:50-70 | a second sync changes nothing and reports (0, 0, 0) |
| Worlds.ReachedIsLeast | backend/services/rule_pipeline.py:103-151 | the states a worker's runs lead to are the least set its steps never leave |
| Worlds.WorkersStayReachable | backend/services/rule_pipeline.py:103-151 | from a reachable state a worker's loop leads to a reachable state |
| KillSwitch.KillSwitchService.IsActive | backend/kill_switch/service.py:51-59 | active exactly when the stripped environment value is 1, true or yes, or the key is set, or the latest row is activated; the source named is the first one on |
| KillSwitch.KillSwitchService.Activate | backend/kill_switch/service.py:63-81 | row pending and key set, not yet committed, as two protocol steps |
| KillSwitch.KillSwitchService.Deactivate | backend/kill_switch/service.py:83-99 | row pending and key deleted, not yet committed |
| KillSwitch.PostActivate | backend/api/kill_switch.py:35-53 | one activated row and the key, committed, nothing else changed |
| KillSwitch.PostDeactivate | backend/api/kill_switch.py:56-77 | succeeds exactly with the confirmation header and a reason; otherwise nothing changes |
| Executor.OrderExecutor.Submit | backend/execution/executor.py:96-178 | the broker sees the order exactly when the switch is off, the mode is permitted and all six checks pass; each refusal and the integrity error exactly when their gate fails |
| Executor.PersistFill | backend/execution/executor.py:186-203 | one row per fill, refused exactly for a repeated external id or a non-positive quantity or price |
| Trackers.LLMBudgetTracker.RecordCall | backend/services/llm_budget.py:63-69 | adds to the current day and no other, refuses a negative cost |
| Trackers.LLMBudgetTracker.CurrentStatus | backend/services/llm_budget.py:71-75 | reports the day's counter, zero for an absent key, and changes nothing |
| Trackers.Remaining | backend/services/llm_budget.py:39-41 | never negative, and zero exactly when over budget |
| Trackers.TriggerFromLlmBudget | backend/services/llm_budget.py:78-98 | activates exactly when over budget |
| Trackers.TwitterApiBudgetTracker.RecordTweet | backend/services/twitterapi_budget.py:69-74 | adds one tweet to the current month and no other |
| Trackers.TriggerFromBudget | backend/services/twitterapi_budget.py:84-105 | activates exactly when over budget |
| RulePipeline.RunRulePipeline | backend/services/rule_pipeline.py:86-159 | a drain run ends; matched = submitted + rejected, submitted = new order rows = orders placed, evaluated = new batches, matched = new MATCHED engine rows; an exception ends it exactly when an account read has no net liquidation or a placed order's row is refused; it is a run of the protocol |
| LlmPipeline.FanOut | backend/services/llm_pipeline.py:150-174 | the loop adds exactly the missing events, though its lookups also see its own pending rows |
| LlmPipeline.RunLlmPipeline | backend/services/llm_pipeline.py:80-216 | a drain run ends; analyzed = new decisions, invalid_json exact, events_published = new event rows = pushes; a budget stop leaves an activation as latest row; an exception ends it exactly when a new decision has a negative cost |
| Ingestion.RunIngestion | backend/services/ingestion.py:79-150 | persists exactly the first tweet of every new id in order and queues exactly those row ids; persisted + duplicates = tweets taken |
| Ingestion.FeedAddsFirsts | backend/services/ingestion.py:52-71 | a feed adds to the table exactly the tweets that are the first of an id the table lacks, in feed order |
| Ingestion.ReplayAfterFeedIff | backend/services/ingestion.py:106-112 | what follows a feed adds nothing if and only if the table or the feed has already shown each of its ids |
| Ingestion.ReplayAddsNothing | backend/services/ingestion.py:106-112 | a feed of stored tweet ids leaves the table unchanged |

## Left out

- Concurrency inside the worker methods: the loops in `RulePipeline`, `LlmPipeline` and `Ingestion` run alone (time passes, nobody else acts); interleavings are the protocol's subject.
- Blocking mode (`drain=False`): the loops model the draining form, which ends; the protocol covers the endless one.
- The database write lock: only switch rows hold it in the model; other commits may interleave freely, which allows more runs than the database does.
- Timestamps: instants are whole seconds and compared as numbers; the text comparison of stored timestamps, which matters at the exact second of midnight, is not modelled.
- Money, prices, confidences: real numbers; rounding, infinities and NaN are not modelled. `float(text)` in rule conditions is a parameter.
- Unicode: stripping, upper and lower case cover ASCII only.
- A queue payload that is not a number (backend/services/llm_pipeline.py:120-124): the tweet queue is typed as row ids.
- Hashes and JSON copies of inputs in the audit rows, string length limits, model and prompt fields, order and fill external ids of the broker.
- The market calendar is an arbitrary predicate on instants; the LLM provider returns any analysis; the broker reports any snapshot and accepts every order.
- Redis pub/sub, metrics, logging, the backpressure warning, HTTP wiring: no state that a property depends on.
- Integrity.ReachableTablesSound: the fill-to-order reference is not derived, because the code that records fills takes the order row from its caller; the model assumes that the caller passes a committed order (backend/execution/executor.py:186-203).
- trigger_from_drawdown, watched accounts, RiskLimit overrides: not called by the pipeline.
- YAML parsing and schema validation: a rule file parses to a rule or fails as a whole.
- Calendar months: the month of an instant is an arbitrary function; live trading permission is one Boolean setting.
- Environment reads: each read of the variable is arbitrary, so no property relies on it staying the same.
- Constructor arguments that make `RiskManager` or a tracker raise (no rules, a limit that is not positive, a negative cost per tweet): preconditions of the constructors.
