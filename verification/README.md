# VentureOS verification model

VentureOS runs squads of agents. This project models the algorithms and state machines in its `lib/`
directory in Dafny and proves what they promise for all inputs, all runs and all interleavings.

| module | models |
|---|---|
| `CycleDetector`, `XpCurve` | the skill-graph cycle detector and the XP arithmetic of the progression engine |
| `ProgressionStore`, `ProgressionHistory` | the progression ledger: XP events, unlocks, prestige, the skill tree; and what its tables say of a run |
| `SquadCoordinator` | plan execution, sequential and parallel, with skip propagation |
| `MissionStateMachine`, `GateChecks`, `MissionRunner`, `MissionRecords`, `MissionSafety`, `MissionHistory` | the mission lifecycle: phases, gates, crash and resume, rollback, and what a history tells about a record |
| `ConversationLock`, `Hitl`, `HitlDecisions`, `ConversationEngine`, `ConversationOutcomes`, `ConversationSafety`, `ConversationLimits` | conversations: the per-conversation lock, sending, pausing for a human, rolling summaries, what becomes of each request, and the engine with its rate limiter |
| `RateLimiter`, `RateLimitHistory`, `RateLimitOverrides`, `RateLimitRetry`, `RateLimitDefaults`, `RateLimitOverlap` | the sliding-window rate limiter, its bounds over histories, its configured limits, retries, runs under the defaults, overlapping calls |
| `ObservationStore`, `Observer`, `Reflector`, `ReflectorDecisions`, `ObservationMemory`, `ObservationCache` | observational memory: two agents on one table, the model's decisions, retention floor, counters, prompt cache |
| `TokenCompactor`, `TokenPruning`, `Compaction`, `CompactionFields` | the token compaction pipeline, and what it does to each file by its marks |
| `Wrappers`, `Tokens` | optional values and the shared token estimate |

## How it is modelled

Code that changes state is imperative Dafny: classes for the objects with mutable fields, loops where the
source loops, each method proved against a function or predicate on values. What is proved about whole runs
is proved about those functions. A database transaction is one step. Code with awaits is a step machine
split at the awaits (`SquadCoordinator`, `ConversationLock`, `ObservationMemory`), or a pair of methods, one
for each side of the await (`Observer`, `Reflector`). Models, agents, role cards, affinities, sanitizers and
clocks are parameters with arbitrary values; new ids are assumed not to be in use. Token counts, XP and
milliseconds are integers, ratios and scores are reals.

In the lemmas about runs, the operations are data: a sequence of operations (`ProgressionStore.Op`,
`ConversationEngine.Operation`, `RateLimitHistory.Call`) or of worlds and events (`MissionSafety`,
`ObservationMemory`), and the statement is about every such sequence.

## What the proofs found

* The only check on a rollback is that the phase was visited (lib/mission-state-machine.ts:329-333). So a
  mission can be closed that its gates did not pass, or with the pass of an earlier execution, or with the
  execution of an earlier plan: `MissionHistory.UnrestrictedRollbackClosesUnverified`,
  `StaleVerificationCanBeDelivered` and `StaleExecutionCanBeDelivered` are such runs. Whether a record is
  affected can be read off its history (`VerificationCurrentIff`, `ExecutionCurrentIff`), and which rollbacks
  an operator may allow is settled by `ReverifyingIff` and `ReexecutingIff`.
* A session that raises marks the record it started from as failed and saves that, dropping the progress the
  session had saved since (lib/mission-runner.ts:134-142, 158-165). `MissionHistory.RaiseDropsThePlan` is
  such a run; nothing is lost exactly when the session has not taken a step (`MissionSafety.RaiseLosesNothingIff`).
* The counts a reflection reports are wrong exactly when a merge stands beside a rescue
  (`Reflector.CountsAddUpIff`, lib/reflector-agent.ts:504-520); `Reflector.CountsFallShort` is such a pass. A
  merge target may itself be dropped in the same pass, with the merged content
  (lib/reflector-agent.ts:466-474): `Reflector.MutualMergeLosesBoth` is such a pass, `Reflector.MergedContentIff`
  the condition.
* The counters in memory_state are exact after a reflection if and only if at most 500 rows stay active
  (`ObservationMemory.NextExactIff`; `ObservationMemory.TooMany` is a run with more).
* Messages buffered while the observer waits for its model are cleared with the rest and counted as
  compressed, although the model never saw them (lib/observer-agent.ts:342, 447). No message is lost in this
  way exactly when none arrives during a pass of its agent that ends well (`ObservationMemory.NothingLostIff`);
  `ObservationMemory.MessageLost` is a run of four events that loses one.
* The header of lib/observation-cache.ts says that new observations invalidate the cache. The reflector
  invalidates it after a pass, but nothing does when the observer inserts. `ObservationCache.StaleRead`
  is a read that misses a new observation; `MissedInsertionIff`, `MissedMarkIff` and `MissedUpdateIff` tell when
  a read is still right.
* Waiting exactly the advised time can be rejected again, because windows include their old end and because
  the growing backoff is cut to five minutes; `RateLimitRetry.RetryOnAdviceIff` tells when, and
  `RateLimitDefaults.AdviceFallsShort` is a run under the default configuration. A timestamp of 0
  counts as absent in lib/rate-limiter.ts:264-270; checkAll merges its reports so that the conversation's
  zero agent counts win.
* The lock is kept per conversation, while an agent's limits span its conversations. An agent with n messages
  between check and record at once can exceed its limits by n - 1; `RateLimitOverlap.OverlapBoundIff` gives the
  least bounds, and a run that reaches them.
* A summarizer that throws takes its message with it, but the rate limiter has been told of the delivery by
  then (lib/conversation-engine.ts:609-634; `ConversationSafety.RecordsAreDeliveries`, and
  `ConversationSafety.ChargedForNothing` for a run).
* Engines share the built-in triggers, so disabling one in an engine disables it in all of them
  (lib/hitl.ts:256; `Hitl.DisableInOne`).
* A file without an update time counts as neither new nor old, so that its first update can lower its score
  (`TokenPruning.FirstUpdateIff`).
* The comment on xpForLevel speaks of level^1.5 and lists example values; the code computes
  floor(100 * (level - 1)^1.5) (lib/progression-engine.ts:22-35). The model follows the code.
* The comment in lib/progression-store.ts:268 speaks of the last 50 events, but the query groups by category, so
  every event ever recorded counts for the diversification multiplier (`ProgressionHistory.EarningsAre`).
* Saving a skill node is not a transaction (`ProgressionStore.UpsertKeepsIff`), and a node without
  prerequisites on a tier other than 1 is shown differently by the store and the engine
  (`ProgressionStore.StatesAgreeIff`).
* Sequential mode skips a task listed before a dependency that parallel mode would run
  (`SquadCoordinator.ModesAgreeIff`; `SquadCoordinator.ListedTooEarly` is the least such plan).

## Model

| member | source | states |
|---|---|---|
| `CycleDetector.DetectCycles` | lib/progression-engine.ts:226-262 | the search terminates and returns the empty list exactly when the edges have no cycle; any other answer is a closed walk along edges |
| `CycleDetector.RankedIsAcyclic` | lib/progression-engine.ts:238-261 | if every edge out of a finished node leads to a node finished earlier, and every node is finished, no closed walk exists |
| `CycleDetector.Enter` | lib/progression-engine.ts:242-245 | taking a white node from the top of the stack keeps the search invariant, whatever stale copies the stack holds |
| `CycleDetector.Look` | lib/progression-engine.ts:253 | pushing a white neighbour, and overwriting the parent it may already have, keeps the search invariant |
| `CycleDetector.Pop` | lib/progression-engine.ts:255-258 | popping a node keeps the invariant: a duplicate entry is harmless, the last entry finishes a node whose successors are all finished |
| `CycleDetector.ReportCycle` | lib/progression-engine.ts:247-252 | the parent chain walked back from a gray neighbour, reversed, is a closed walk |
| `CycleDetector.BuildAdjacency` | lib/progression-engine.ts:227-234 | the adjacency lists are the successors in edge order, and the node list has every endpoint once |
| `XpCurve.Isqrt` | lib/progression-engine.ts:34 | the integer square root that floor(100 * n^1.5) = isqrt(10000 * n^3) rests on |
| `XpCurve.StrictlyIncreasing` | lib/progression-engine.ts:32-35 | from level 1 on, a higher level needs strictly more XP |
| `XpCurve.CurveIs` | lib/progression-engine.ts:32-35 | the threshold n levels above the first is floor(100 * n^1.5): its square is the last one not above 10000 * n^3 |
| `XpCurve.LevelIsUnique` | lib/progression-engine.ts:41-50 | the level of a non-negative amount is the one level whose XP band contains it, with the top level's band open-ended |
| `XpCurve.LevelInvertsThreshold` | lib/progression-engine.ts:32-50 | the threshold of each level up to 999 is where that level starts: levelFromXp undoes xpForLevel |
| `XpCurve.LevelMonotone` | lib/progression-engine.ts:41-50 | more XP never means a lower level |
| `XpCurve.ReachesLevel` | lib/progression-engine.ts:41-50 | a level is reached exactly when its threshold is met |
| `XpCurve.TopLevel` | lib/progression-engine.ts:41-50 | 999 is the highest level, and every amount from its threshold on has it |
| `XpCurve.ComputeLevel` | lib/progression-engine.ts:41-50 | the scanning loop finds that level and stops at the cap |
| `XpCurve.ProgressInRange` | lib/progression-engine.ts:55-64 | the percentage lies in 0..100 if and only if the XP is not negative |
| `XpCurve.ProgressIs` | lib/progression-engine.ts:55-64 | within a level the bar shows the nearest whole percentage of the way from its threshold to the next one, and the XP still missing |
| `XpCurve.ProgressAtCap` | lib/progression-engine.ts:55-64 | XP remains to be earned exactly below the threshold of level 1000; from there on the bar is full |
| `ProgressionStore.RunBalanced` | lib/progression-store.ts:252-337 | over every run, for every agent: lifetime XP is the sum of its events and equals current XP plus XP reset by prestige plus XP spent; current XP is not negative, the level fits it, and prestige records climb 0, 1, 2, ... to the rank, at most 10 |
| `ProgressionStore.CreditBalanced` | lib/progression-store.ts:252-337 | an XP event keeps every agent's books balanced |
| `ProgressionStore.SpendBalanced` | lib/progression-store.ts:546-615 | an affordable unlock keeps every agent's books balanced |
| `ProgressionStore.PrestigeBalanced` | lib/progression-store.ts:408-467 | a prestige transition keeps every agent's books balanced and extends the rank ladder by one step |
| `ProgressionStore.EligibleHoldsRequirement` | lib/progression-engine.ts:151-173 | the level half of the prestige test holds exactly when current XP meets the XP requirement |
| `ProgressionStore.LifetimeHalfIsImplied` | lib/progression-engine.ts:165-173 | balanced books and non-negative spending put lifetime XP above current XP plus the thresholds of all ranks passed, so the lifetime half never decides |
| `ProgressionStore.ReachableLifetimeHalfIsImplied` | lib/progression-store.ts:408-454 | the same in every reachable database whose skill costs are not negative |
| `ProgressionStore.NegativeCostPaysLevels` | lib/progression-store.ts:527-615 | the cost condition is needed: a negative cost reaches a prestige level the lifetime half then refuses |
| `ProgressionStore.TransactionsKeepPrerequisites` | lib/progression-store.ts:546-592 | ingest, unlock, prestige and deletion keep every agent's unlocks closed under prerequisites and the edges mirroring them |
| `ProgressionStore.UpsertKeepsIff` | lib/progression-store.ts:654-666 | saving a node keeps the edges mirrored exactly when its prerequisites exist, and the unlocks closed exactly when every owner has the new prerequisites |
| `ProgressionStore.RunKeepsPrerequisites` | lib/progression-store.ts:669-678 | unlocks stay closed over every run whose saves meet that condition |
| `ProgressionHistory.UnlockedIff` | lib/progression-store.ts:546-592 | over every run: an agent has a node unlocked exactly when it unlocked it with success and since then neither was the agent promoted nor the node deleted |
| `ProgressionHistory.SecondUnlockRefused` | lib/progression-store.ts:546-550 | until one of the two happens a second unlock is refused, and the database stays as it was |
| `ProgressionHistory.UnlockSucceedsIff` | lib/progression-store.ts:535-569 | an unlock goes through exactly when the node is there, is not unlocked since, its prerequisites are, and its cost is held |
| `ProgressionHistory.NodeIsAsWritten` | lib/progression-store.ts:654-678 | over every run a node is as it was last saved, and gone if it was last deleted |
| `ProgressionHistory.NodeIsAsSeeded` | lib/progression-store.ts:654-678 | a node never saved nor deleted is as in the first tree |
| `ProgressionHistory.DeleteSucceedsIff` | lib/progression-store.ts:669-673 | with edges that mirror the prerequisites, a deletion goes through exactly when no node asks for this one |
| `ProgressionHistory.EarningsAre` | lib/progression-store.ts:252-310 | what the events of an agent add up to, and the categories they count, read off the accepted events of the run: each earns by the number of categories reached by then |
| `ProgressionHistory.ProfileIs` | lib/progression-store.ts:252-602 | over every run: lifetime XP is what the accepted events earned, the rank is the number of prestiges, and current XP is what was earned less the costs of the unlocks, each as it was then, and what was held at each prestige |
| `ProgressionHistory.PrestigeIsRecorded` | lib/progression-store.ts:423-446 | each prestige is on record with the ranks, the XP, the level and the number of nodes unlocked at the time |
| `ProgressionHistory.PrestigeSucceedsIff` | lib/progression-store.ts:408-421 | without negative costs, a prestige goes through exactly when the agent had fewer than ten and holds the XP of level 20 + 5 * rank |
| `ProgressionHistory.MultiplierIs` | lib/progression-engine.ts:103-116 | the multiplier by number of categories: one half for one, in full for three, 1.3 for six, 1.5 from ten on |
| `ProgressionHistory.EffectiveIsNearest` | lib/progression-store.ts:287-288 | the XP granted is the nearest whole number to raw XP times the multiplier, the higher of two, and at least 1 |
| `ProgressionHistory.MoreCategoriesEarnMore` | lib/progression-engine.ts:103-116 | more categories never earn less |
| `ProgressionStore.StatesAgreeIff` | lib/progression-store.ts:483-520 | the store and the engine classify nodes alike for every set of unlocks exactly when all prerequisite-free nodes are of tier 1 |
| `ProgressionStore.Store.IngestXpEvent` | lib/progression-store.ts:252-337 | the step-by-step transaction commits exactly the ledger step, or nothing |
| `ProgressionStore.Store.UnlockSkill` | lib/progression-store.ts:527-615 | the same for unlocking, with its error cases |
| `ProgressionStore.Store.PrestigeTransition` | lib/progression-store.ts:408-467 | the same for prestige: record, reset profile, clear unlocks |
| `ProgressionStore.Store.DeleteSkillNode` | lib/progression-store.ts:669-678 | deletion refuses a node that is a prerequisite and otherwise removes node, edges and unlocks, and tells whether there was such a node |
| `ProgressionStore.Store.UpsertSkillNode` | lib/progression-store.ts:654-666 | not a transaction: an unknown prerequisite leaves the node and the edges before it written |
| `SquadCoordinator.WillSucceedExactly` | lib/squad-coordinator.ts:212-216 | in the least set closed under running, a task is present exactly when its agent works and all its dependencies are present; cycles and unknown ids never are |
| `SquadCoordinator.OutcomeIs` | lib/squad-coordinator.ts:212-299 | in that outcome a task is skipped when a dependency has not succeeded; else it succeeds when its role has an agent and the agent succeeds, and fails when there is none or it does not |
| `SquadCoordinator.SuccessIsFounded` | lib/squad-coordinator.ts:312-340 | and success rests on no cycle: among any tasks that succeeded one depends on none of them |
| `SquadCoordinator.BuildDependents` | lib/squad-coordinator.ts:202-210 | the dependents table inverts the dependency lists |
| `SquadCoordinator.MarkSkippedDependents` | lib/squad-coordinator.ts:219-239 | the breadth-first search skips exactly the pending tasks downstream of the root |
| `SquadCoordinator.Advance` | lib/squad-coordinator.ts:241-299 | any single resumption of runOne, from await to await, keeps the run on the way to its outcome and touches other tasks only by skipping pending ones |
| `SquadCoordinator.Drain` | lib/squad-coordinator.ts:335-338 | waiting for all started tasks, resumed in any order, ends with all of them settled |
| `SquadCoordinator.StuckWillBeSkipped` | lib/squad-coordinator.ts:327-333 | when nothing can run, every pending task is one the least fixpoint skips |
| `SquadCoordinator.RunParallel` | lib/squad-coordinator.ts:312-340 | every interleaving ends with the same map: success is the least fixpoint, failure means dependencies succeeded but the agent failed or is missing, the rest is skipped without a result; results come once each, after those of their dependencies |
| `SquadCoordinator.RunSequential` | lib/squad-coordinator.ts:301-311 | sequential mode ends with what one pass in list order can complete |
| `SquadCoordinator.PassIs` | lib/squad-coordinator.ts:301-311 | in that outcome a task is skipped unless every dependency is listed before it and has succeeded; an agent is needed as above |
| `SquadCoordinator.PassEqualsOutcomeIff` | lib/squad-coordinator.ts:301-340 | for given agents, both modes end alike exactly when every task that will run is listed after its dependencies |
| `SquadCoordinator.ModesAgreeIff` | lib/squad-coordinator.ts:301-340 | for all agents at once, exactly when every task that could ever run is listed after its dependencies |
| `SquadCoordinator.ListedTooEarly` | lib/squad-coordinator.ts:301-340 | a plan of two tasks, one listed before its dependency: the sequential mode skips what the parallel mode completes |
| `SquadCoordinator.OrderedPlansAgree` | lib/squad-coordinator.ts:301-340 | plans in dependency order give the same outcome in both modes |
| `SquadCoordinator.CreatedPlanIsChain` | lib/squad-coordinator.ts:111-182 | a plan made from a brief is a chain with distinct ids in dependency order |
| `SquadCoordinator.CreatedPlanRoles` | lib/squad-coordinator.ts:111-182 | the plan has one task for the implementation and one for each role of the brief except the curator, in this order: research, implementation, security, verification, documents, packaging |
| `SquadCoordinator.ChainOutcome` | lib/squad-coordinator.ts:111-182 | such a chain succeeds up to its first task that does not work; that one fails and the rest are skipped |
| `SquadCoordinator.NoFailureMeansSuccess` | lib/squad-coordinator.ts:212-216 | without a failed task, everything that any squad could complete has succeeded |
| `MissionStateMachine.TransitionKeeps` | lib/mission-state-machine.ts:271-303 | a transition extends the walk of allowed edges and loses no field any visited phase needs |
| `MissionStateMachine.RollbackSucceedsIff` | lib/mission-state-machine.ts:324-353 | from error, rollback to a phase passes validation exactly when that phase was visited |
| `MissionStateMachine.ClosedIsAbsorbing` | lib/mission-state-machine.ts:223-231 | closed is visited only as the current phase, and no transition or rollback leaves it |
| `MissionStateMachine.TransitionSucceedsIff` | lib/mission-state-machine.ts:271-303 | a transition succeeds exactly along an allowed edge with the one field the next phase is about: whatever earlier phases needed is already in the record |
| `MissionRecords.AnyTransitionIff` | lib/mission-state-machine.ts:271-303 | of any record, well-formed or not: a transition succeeds exactly one phase ahead, or to error from an open phase, with an id and every field the next phase builds on |
| `MissionStateMachine.FailThenRollback` | lib/mission-state-machine.ts:305-353 | failing succeeds from every open phase, and rolling back to that phase undoes it up to two entries in the history |
| `GateChecks.RunAll` | lib/gate-checks.ts:50-69 | the results are those of the gates in order up to the first terminal one, which decides the verdict |
| `GateChecks.PassedIff` | lib/gate-checks.ts:50-69 | the verdict is a pass exactly when no gate fails or asks for approval and none warns where warnings are refused |
| `GateChecks.DefaultPassMeans` | lib/gate-checks.ts:88-198 | a pass of the default gates is exactly: a non-empty plan, no failed task, no leaked secret, no refusal |
| `MissionRunner.Runner.RunFromPhase` | lib/mission-runner.ts:179-284 | every record saved on the way is one step from the one before, the store holds the last, and a return without exception is in closed or error |
| `MissionRecords.RecordsAreFilled` | lib/mission-runner.ts:125-284 | over every run of crashes, raises and rollbacks: plan, execution, verification and delivery are there exactly when their phases have been visited, the plan is for the roles of the brief, and a failed record names the phase it failed in |
| `MissionSafety.NextSound` | lib/mission-runner.ts:125-175 | advancing, raising, crashing, resuming, and rolling back to brief, plan or execute or not past the failed phase, keep the verification current wherever the phase relies on it |
| `MissionSafety.DeliveredMeansVerified` | lib/mission-runner.ts:179-284 | over every run of crashes, resumes and such rollbacks, a mission in deliver or closed carries a pass computed on its current plan and execution |
| `MissionSafety.HistoriesAreWalks` | lib/mission-state-machine.ts:223-353 | over every run, whatever its rollbacks, a history is a walk of allowed edges and error jumps ending in the current phase, and a closed mission never changes again |
| `MissionSafety.ClosedMeansAllSucceeded` | lib/mission-runner.ts:179-284 | under the default gates, with rollbacks to brief or plan or not past the failed phase, every task of a closed mission's non-empty plan has succeeded |
| `MissionSafety.RaiseLosesNothingIff` | lib/mission-runner.ts:134-166 | a session that raises saves the failure of the record saved last, so that nothing is lost, exactly when it has not taken a step |
| `MissionHistory.RaiseDropsThePlan` | lib/mission-runner.ts:128-142 | a run whose session raises after its first step: the plan it had saved is gone |
| `MissionHistory.VerificationCurrentIff` | lib/mission-runner.ts:179-284 | for every walk: the verification in a record with this history is a verdict on its plan and execution, in every run that leads there, exactly when the last transition into verify comes after those into plan and execute |
| `MissionHistory.ExecutionCurrentIff` | lib/mission-runner.ts:179-284 | the same for the execution: it is one of the record's plan exactly when the last transition into execute comes after the one into plan |
| `MissionHistory.RollbackKeepsCurrent` | lib/mission-state-machine.ts:324-353 | an error and a rollback never change either answer |
| `MissionHistory.ClosedByHistory` | lib/mission-runner.ts:179-284 | whatever the rollbacks: a closed mission with a pass of the default gates and a current history has completed every task |
| `MissionHistory.ReverifyingIff` | lib/mission-state-machine.ts:329-333 | of all policies that allow rollbacks not past the failed phase, exactly those whose other rollbacks go to brief, plan or execute keep every delivered or closed mission verified |
| `MissionHistory.ReexecutingIff` | lib/mission-state-machine.ts:329-333 | and exactly those whose other rollbacks go to brief or plan keep every closed mission's tasks completed |
| `MissionHistory.UnrestrictedRollbackClosesUnverified` | lib/mission-state-machine.ts:329-333 | a run whose rollback to deliver closes a mission whose gates withheld approval |
| `MissionHistory.StaleVerificationCanBeDelivered` | lib/mission-state-machine.ts:329-333 | a run whose rollback to verify closes a mission with the pass of its first execution and the failure of its second |
| `MissionHistory.StaleExecutionCanBeDelivered` | lib/mission-runner.ts:171-177 | a run whose rollback to execute delivers a new plan none of whose tasks ever started |
| `ConversationLock.MutualExclusion` | lib/conversation-engine.ts:800-817 | at most one body per conversation runs at a time, and bodies start in call order, also after one that throws |
| `ConversationLock.Serializable` | lib/conversation-engine.ts:800-817 | when all calls are over, under any interleaving, every conversation holds the state of running its bodies one by one in call order: no update is lost |
| `ConversationLock.Progress` | lib/conversation-engine.ts:800-817 | while a call is not over, its conversation can take a step: no deadlock |
| `Hitl.BuildResult` | lib/hitl.ts:580-607 | the reported action and urgency are the worst among the matched triggers |
| `Hitl.WorstIsWorst` | lib/hitl.ts:580-607 | no matched trigger is worse than the result in action or urgency, and each of the two is that of a matched trigger |
| `Hitl.ExhaustionPauses` | lib/hitl.ts:384-429 | at the challenge limit or the pausing share of the budget, every message is at least paused |
| `HitlDecisions.MatchedIff` | lib/hitl.ts:342-566 | the matched triggers are exactly the first enabled ones of their names whose condition on the message or the conversation holds |
| `HitlDecisions.ActionIs` | lib/hitl.ts:580-607 | over any table of triggers: approval if a firing trigger asks for it, else a pause, else a notice |
| `HitlDecisions.BuiltinActionIs` | lib/hitl.ts:154-243 | with the built-in table: approval exactly when an injection score, of the message or kept of the conversation, reaches its threshold or an infrastructure ban is broken; else a pause exactly when challenges or budget are used up; else a notice for the lesser signs |
| `HitlDecisions.BuiltinUrgencyIs` | lib/hitl.ts:154-243 | and the urgency that goes with it |
| `Hitl.BuiltinsGuardExhaustion` | lib/hitl.ts:154-243 | the built-in triggers do guard both limits |
| `Hitl.HitlEngine.SetTriggerEnabled` | lib/hitl.ts:256-276 | of the cells this engine holds, only the first with the id changes; the cell itself changes, for whoever shares it |
| `Hitl.DisableInOne` | lib/hitl.ts:256-276 | two engines on one table: disabling a trigger in one disables it in the other |
| `Hitl.SwitchedOffGuards` | lib/hitl.ts:273-276 | with a trigger disabled its limit is no longer guarded, and every other limit is guarded as before |
| `ConversationEngine.Mediate` | lib/conversation-engine.ts:468-486 | an agent message is rerouted to the mediator exactly when some recipient's affinity is below the threshold and the mediator is not among the recipients |
| `ConversationEngine.Check` | lib/conversation-engine.ts:447-571 | the gates, routing, security and hand-off checks, in their order, give one verdict on the message |
| `ConversationEngine.MaybeSummarize` | lib/conversation-engine.ts:738-768 | one chunk of the oldest uncovered messages is summarized, once there are enough; only then can the summarizer throw |
| `ConversationEngine.ConversationEngine.SendMessage` | lib/conversation-engine.ts:444-637 | a send saves exactly the state of its verdict: nothing when dropped or throwing, an audit entry when rate-limited or a hand-off fails, else pause or delivery with its bookkeeping; the limiter is told of a delivery, and of its challenge, also when the summarizer then throws |
| `ConversationOutcomes.TextIsSanitized` | lib/conversation-engine.ts:499-603 | over every run, each logged message has the id and sender of its request; delivered or stopped by the escalation check it holds the sanitized text, and over the rate limit or without a valid hand-off it is blocked and holds the sender's own |
| `ConversationOutcomes.StoredIsFrom` | lib/conversation-engine.ts:720-768 | so does each stored message, unless its text was discarded as summarized |
| `ConversationOutcomes.LoggedIsFrom` | lib/conversation-engine.ts:444-637 | every logged message is from a request of the run that was heard, routed, well-formed and not lost with its summary, logged in its place with the recipients and the status it should have |
| `ConversationOutcomes.RequestIsLogged` | lib/conversation-engine.ts:444-637 | and every such request is logged |
| `ConversationOutcomes.OutcomeIs` | lib/conversation-engine.ts:447-637 | what the caller is told: rejected exactly out of turn, an exception exactly without a route or with a failing part, delivered exactly when every check passes and the escalation check does not stop it |
| `ConversationOutcomes.StatusIs` | lib/conversation-engine.ts:574-588 | over every run the status is what the last operation to set one left: paused after a pause, waiting for approval after a request for approval |
| `ConversationOutcomes.ActionByTable` | lib/conversation-engine.ts:487-500 | with the built-in triggers the escalation check decides by its table on the conversation's counters and the message's signals |
| `ConversationOutcomes.LowestNext` | lib/conversation-engine.ts:624-628 | the lowest affinity is the one of the last join or message carried through |
| `ConversationOutcomes.RecordsAre` | lib/conversation-engine.ts:607-613 | the limiter is told of each delivery under its sender and conversation, of a challenge also under its first recipient, and of nothing else |
| `ConversationOutcomes.ParticipantsAre` | lib/conversation-engine.ts:418-442 | over every run the participants are those at the start and those that joined |
| `ConversationSafety.RunFaithful` | lib/conversation-engine.ts:720-768 | over every run: messageCount is the number of messages, scores are the last fifty, counters are sums over the log, summaries cover equal chunks that form a prefix of the ids, and only covered messages lose content |
| `ConversationSafety.SummariesDisjoint` | lib/conversation-engine.ts:738-768 | no message is covered by two summaries |
| `ConversationSafety.ChallengesBounded` | lib/conversation-engine.ts:607-622 | consecutiveChallenges never exceeds its limit |
| `ConversationSafety.DeliveriesDecide` | lib/conversation-engine.ts:607-622 | over every run only deliveries move the counters and the turn: challengeCount counts delivered challenges, consecutiveChallenges those since the last other delivery, and the turn is with the first participant reached last |
| `ConversationSafety.ExhaustedForGood` | lib/conversation-engine.ts:487-622 | once the challenge limit or the budget share is reached, no later message is ever delivered, also after setStatus |
| `ConversationSafety.StopSilences` | lib/conversation-engine.ts:448-454 | over every run: the message the escalation check stops is logged as blocked, and after it nothing but operators' messages is logged until the status is set |
| `ConversationSafety.RecordsAreDeliveries` | lib/conversation-engine.ts:607-628 | over every run the limiter is told of exactly the deliveries and of the messages lost because their summary failed |
| `ConversationSafety.ChargedForNothing` | lib/conversation-engine.ts:607-634 | a run of one message that is recorded as sent and lost to a summarizer that throws |
| `ConversationLimits.LoggedAreRecorded` | lib/conversation-engine.ts:487-611 | over every run of the engine with its limiter, of all conversations, each logged delivery is among the messages the limiter has recorded |
| `ConversationLimits.DeliveriesAreBounded` | lib/conversation-engine.ts:444-637 | so in every closed minute and hour the engine delivers no more messages of an agent, no more to a conversation and no more challenges of a pair than the limits allow |
| `ConversationSafety.StartedRunFaithful` | lib/conversation-engine.ts:351-388 | the same from the start of every conversation, with the deliveries deciding its counters and turn |
| `ConversationSafety.SilentUntilReopened` | lib/conversation-engine.ts:448-454 | a closed conversation logs nothing, a paused one only operator messages, until its status is set |
| `ConversationSafety.DeliveredIsMediated` | lib/conversation-engine.ts:463-571 | a delivered agent message went to the mediator alone or only to agents with a valid hand-off and enough affinity, from the holder of the turn |
| `ConversationSafety.ConcurrentCallsAreARun` | lib/conversation-engine.ts:418-445 | concurrent sends, joins and status changes leave each conversation as one run in call order, so the invariants above hold under concurrency |
| `Tokens.EstimateIsLeast` | lib/conversation-engine.ts:272-274 | the estimate is the least positive number of tokens that holds the text |
| `RateLimiter.FromSelects` | lib/rate-limiter.ts:117-142 | counting and pruning select exactly the entries at or after the cutoff, each where it was and in their order |
| `RateLimiter.RateLimiter.CheckAll` | lib/rate-limiter.ts:391-438 | the combined check gives the first rejection of agent, conversation and challenge limits, and leaves the windows as they were but for new empty ones and the rejection count |
| `RateLimiter.BackoffGrows` | lib/rate-limiter.ts:223-236 | the advised wait never shrinks with more rejections and, for exponential backoff, never exceeds five minutes |
| `RateLimitOverrides.BackoffSteps` | lib/rate-limiter.ts:223-236 | with each rejection in a row the wait stays, grows by the base, or doubles up to five minutes, by the strategy |
| `RateLimitOverrides.RejectionsAreStreak` | lib/rate-limiter.ts:238-246 | the rejections counted are those of the agent's own limits since its last check they let through |
| `RateLimiter.RateLimiter.RecordMessage` | lib/rate-limiter.ts:445-449 | a message is added to the two windows it belongs to and to no other |
| `RateLimiter.RateLimiter.Prune` | lib/rate-limiter.ts:549-554 | all windows of all kinds are cut to the last hour, nothing else changes |
| `RateLimitHistory.RunIsBounded` | lib/rate-limiter.ts:253-335 | over every run, with or without challenges, and however late after its check a message is recorded, every closed minute and hour holds at most the agent's and the conversation's limit, burst allowance included |
| `RateLimitHistory.ChallengesAreBounded` | lib/rate-limiter.ts:341-385 | over every run each closed hour holds at most the limit of challenges per pair, overrides included |
| `RateLimitOverrides.OverridesBound` | lib/rate-limiter.ts:341-385 | over every run each closed hour holds at most the challenges the first override of the pair allows, by its place in the configuration, or the general limit without one |
| `RateLimitOverrides.OverridesCool` | lib/rate-limiter.ts:345-365 | in every run in turn a challenge within the cooldown of that override, or the general one, is rejected |
| `RateLimitOverrides.PassesIff` | lib/rate-limiter.ts:253-335 | over every run a message passes exactly when agent and conversation have sent too little in the last minute and hour by the configured numbers, the burst multiplier counted only where bursts are allowed |
| `RateLimitOverrides.ChallengePassesIff` | lib/rate-limiter.ts:341-425 | and a challenge exactly when besides its pair is not cooling and has had too few challenges, by its first override or the general numbers |
| `RateLimitOverrides.ReportsIdeal` | lib/rate-limiter.ts:391-438 | a rejection names the first limit reached, and each verdict comes with the counts that belong to it |
| `RateLimitHistory.VerdictIsIdeal` | lib/rate-limiter.ts:391-448 | every verdict, for a challenge too where its cooldown is within what a prune keeps, is the one of a limiter that never forgets |
| `RateLimitOverlap.OverlapIsBounded` | lib/rate-limiter.ts:391-448 | with at most n messages of an agent between check and record at once, a closed minute holds at most n - 1 more than the smaller limit, a closed hour at most n - 1 more than its limit and no more than sixty such minutes |
| `RateLimitOverlap.OverlapBoundIff` | lib/conversation-engine.ts:499-611 | for all limits: these are the least bounds that hold over every run, for the minute and for the hour |
| `RateLimitHistory.PruneIsInvisible` | lib/rate-limiter.ts:549-554 | dropping every prune from a run changes no verdict, usage, advised wait or message |
| `RateLimitHistory.PruneHiddenIff` | lib/rate-limiter.ts:341-385 | a challenge check can never tell a prune happened exactly when the cooldown is at most one hour and a millisecond |
| `RateLimitRetry.StaysFullIff` | lib/rate-limiter.ts:117-142 | a window without new entries stays as full exactly as long as its oldest entry is in it, the old end included |
| `RateLimitRetry.RetryIff` | lib/rate-limiter.ts:253-335 | in every run in turn, for the minute and hour limits of agent and conversation: a retry with nothing in between meets the same limit exactly when it waited no longer than the oldest entry stays in the window, or the limit is not positive |
| `RateLimitRetry.RetryOnAdviceIff` | lib/rate-limiter.ts:223-335 | for every limit, positive or not: after exactly the advised wait the retry meets the same limit if and only if the limit is not positive or the advice was short: with fixed backoff, and for conversations, the oldest entry had at least the least wait to go (1 s, or 5 s for the hour); with linear backoff never; with exponential backoff it had at least the cap of five minutes to go; for an oldest entry stamped 0 the fallback is compared instead |
| `RateLimitDefaults.AdviceFallsShort` | lib/rate-limiter.ts:87-98 | a run under the default configuration: eight minutes of talk use up the hour, the advice is five minutes, and the retry on advice is rejected again |
| `RateLimitRetry.CooldownAdviceSuffices` | lib/rate-limiter.ts:341-385 | after a rejected challenge, waiting out the advised cooldown is always enough for the cooldown |
| `RateLimitRetry.ChallengeRetryOnAdviceIff` | lib/rate-limiter.ts:341-385 | after exactly the advised wait for the hourly limit of a pair, the retry meets it again if and only if the limit is not positive or the oldest challenge of the hour had a second or more to go (a minute, if it is stamped 0) |
| `RateLimitDefaults.ChallengeAdviceFallsShort` | lib/rate-limiter.ts:87-109 | a run under the default configuration: five challenges ten minutes apart, and the retry of the sixth on advice is rejected again |
| `ObservationStore.SortedIsOrdered` | lib/observation-store.ts:403-415 | active rows come by priority, then most recent first |
| `ObservationStore.ListingIs` | lib/observation-store.ts:403-415 | a listing holds active rows of the agent, high before medium before info before none, newer before older |
| `ObservationStore.LeftOutIs` | lib/observation-store.ts:403-415 | an active row is left out only of a full listing, whose rows may all precede it |
| `ObservationStore.CountIsExactIff` | lib/observation-store.ts:403-415 | recounting through the limited query is exact if and only if no active row is beyond the limit |
| `ObservationStore.ObservationStore.InsertBatch` | lib/observation-store.ts:201-211 | a batch is inserted whole or, on a duplicate id, not at all |
| `ObservationStore.ObservationStore.MarkReflected` | lib/observation-store.ts:421-428 | exactly the listed rows become reflected, and the result counts those that were not before |
| `Observer.ObserverAgent.FinishPass` | lib/observer-agent.ts:331-468 | a success adds the batch and its counts and empties the buffer; success and failed call report all that is in the buffer by then, a failed insert nothing; a failure changes nothing |
| `Observer.ObserverAgent.BufferMessage` | lib/observer-agent.ts:293-298 | a message goes to the end of its agent's buffer, into the same list a running pass holds |
| `Reflector.FloorHolds` | lib/reflector-agent.ts:433-534 | for any decision list only rows last decided for discard or a valid merge are dropped, and the floor stays: exactly the floor when a rescue fires |
| `Reflector.RescuesLeastImportant` | lib/reflector-agent.ts:481-500 | rescued observations are never more important than dropped ones |
| `ReflectorDecisions.RescuedInOrder` | lib/reflector-agent.ts:481-500 | of two observations to be removed, the less important one, info and none alike, or the first listed of equals, is rescued whenever the other is |
| `ReflectorDecisions.DecisionsCarriedOut` | lib/reflector-agent.ts:437-534 | where at least the floor is kept, exactly the observations whose last decision is a discard, or a merge with content into an evaluated one, are dropped, and the reported numbers are theirs |
| `ReflectorDecisions.RowsCarriedOut` | lib/reflector-agent.ts:437-534 | on the table an evaluated row is soft-deleted exactly then |
| `ReflectorDecisions.DecisionsRescued` | lib/reflector-agent.ts:481-500 | with a rescue only such observations are dropped, as many as the floor allows |
| `ReflectorDecisions.ContentCarriedOut` | lib/reflector-agent.ts:466-525 | where at least the floor is kept, a row holds what the last evaluated observation merged into it brings by its last decision |
| `ReflectorDecisions.ContentStands` | lib/reflector-agent.ts:466-525 | and what it held where none is merged into it |
| `Reflector.CountsAddUpIff` | lib/reflector-agent.ts:481-534 | the reported counts add up to the number evaluated if and only if no merge stands beside a rescue; then they fall short by exactly those merges |
| `Reflector.CountsFallShort` | lib/reflector-agent.ts:481-534 | two equally important observations merged into a third with a floor of two: the counts report two of three evaluated |
| `Reflector.ReflectedTable` | lib/observation-store.ts:421-484 | on the table, the pass soft-deletes exactly the dropped rows, touches only evaluated ones, and lowers the active count by their number |
| `Reflector.LastMergeWins` | lib/reflector-agent.ts:507-524 | a merge target ends with the content of the last standing merge into it; all other content is unchanged |
| `Reflector.TargetSurvivesIff` | lib/reflector-agent.ts:459-500 | the target of a standing merge is kept exactly when its own last decision keeps it or the floor rescues it |
| `Reflector.MergedContentIff` | lib/reflector-agent.ts:459-534 | on the table: the target holds the last merged content, and is still active exactly under that condition |
| `Reflector.MutualMergeLosesBoth` | lib/reflector-agent.ts:459-534 | two observations merged into each other are both dropped, and with them both merged contents |
| `Reflector.PlanRemovals` | lib/reflector-agent.ts:437-479 | the loops over the decisions collect exactly the planned removals and merges and count them |
| `Reflector.ReflectorAgent.ApplyDecisions` | lib/reflector-agent.ts:433-534 | both paths leave the table in the state of the planned effect and report its counts |
| `Reflector.ReflectorAgent.FinishPass` | lib/reflector-agent.ts:305-401 | a failed or empty answer changes nothing; otherwise the decisions are applied and the memory state is recounted |
| `ObservationMemory.CountersExact` | lib/observer-agent.ts:404-447 | under any interleaving of observer and reflector passes, an agent's counters are the tokens and number of its active rows, as long as its reflections see all of them |
| `ObservationMemory.NextExactIff` | lib/reflector-agent.ts:390-401 | a reflection leaves its agent's counters exact if and only if at most 500 rows stay active; no other event breaks them |
| `ObservationMemory.TooMany` | lib/reflector-agent.ts:390-401 | a run that observes more than 500 things and keeps them all in a reflection ends with wrong counters |
| `ObservationMemory.FloorSurvives` | lib/reflector-agent.ts:305-314 | however long the model takes, a finished pass leaves at least the retention floor active |
| `ObservationMemory.NextKeeps` | lib/reflector-agent.ts:281-401 | rows under evaluation stay in the table, active and unchanged, until their pass ends |
| `ObservationMemory.RowsSurvive` | lib/observation-store.ts:417-428 | no row is ever deleted or revived |
| `ObservationMemory.BufferedIsKept` | lib/observer-agent.ts:293-319 | over every run, what was buffered for an agent is what its passes cleared followed by what is in its buffer, in the order of arrival |
| `ObservationMemory.LosesIff` | lib/observer-agent.ts:342-447 | a pass clears messages the model was not asked about exactly when one was buffered for its agent while it was asking; it clears what it asked about and then exactly those |
| `ObservationMemory.NothingLostIff` | lib/observer-agent.ts:342-447 | over a whole run no message leaves a buffer unseen exactly when none arrives during a pass of its agent that ends well |
| `ObservationMemory.MessageLost` | lib/observer-agent.ts:342-447 | a run of four events in which a message that arrives while the model is asked is cleared unseen |
| `ObservationCache.ObservationCache.Rebuild` | lib/observation-cache.ts:119-153 | the cache becomes the longest prefix that fits the budget, or the first observation alone, with its exact token sum |
| `ObservationCache.CacheIsUnique` | lib/observation-cache.ts:134-146 | that prefix is unique, so fresh reads equal a recomputation |
| `ObservationCache.ObservationCache.GetObservations` | lib/observation-cache.ts:173-176 | one read of a history: a dirty cache is rebuilt, a clean one answers as it stands |
| `ObservationCache.ReadsAreRight` | lib/observation-cache.ts:107-176 | over every history of inserts, marks, updates, invalidations and reads: when each change is followed by an invalidation before the next read, every read returns what a rebuild would |
| `ObservationCache.MissedInsertionIff` | lib/observation-cache.ts:119-176 | after one insertion without an invalidation the cache is still right exactly when the row is not active for the agent, or is placed after the first row left out, or is itself left out for want of room |
| `ObservationCache.StaleRead` | lib/observation-cache.ts:107-176 | a run of read, insertion and read whose second read misses a more important observation |
| `ObservationCache.MissedMarkIff` | lib/observation-cache.ts:119-176 | after one mark without an invalidation the cache is still right exactly when no cached row is marked and there is no room for the first unmarked row left out |
| `ObservationCache.MissedUpdateIff` | lib/observation-cache.ts:119-176 | after one update without an invalidation it is still right exactly when no cached content changes and no room is made for the first row left out |
| `ObservationCache.ObservationCache.ExceedsBudget` | lib/observation-cache.ts:190-193 | for any threshold, on a right cache: true exactly when some prefix that fits exceeds it; by default exactly when the budget is negative or the first observation alone is over it |
| `TokenCompactor.TokensShrink` | lib/token-compactor.ts:269-283 | less content, shorter headers or fewer files never make a bundle cost more |
| `CompactionFields.LinesAre` | lib/token-compactor.ts:275-283 | a bundle has one part for each file that is not empty, nor pruned unless pruned ones are included: header, line break, content, in path order |
| `TokenCompactor.CrossFileDedup` | lib/token-compactor.ts:285-313 | files are deduplicated in path order; when the deadline strikes, the file at work and the rest stay as they were |
| `TokenCompactor.DedupedGlobally` | lib/token-compactor.ts:285-313 | each file keeps the blocks that are kept among the blocks of all files |
| `TokenCompactor.LongBlocksSurviveOnce` | lib/token-compactor.ts:296-306 | every long block survives exactly once, at its first occurrence in path order |
| `CompactionFields.SurvivorsAreKept` | lib/token-compactor.ts:285-311 | by file and place: a block stays exactly when it is not blank and is shorter than 80 characters or the first of its kind among the blocks of the files that are not skipped |
| `CompactionFields.JoinSplits` | lib/token-compactor.ts:309 | the blocks that stay are joined with an empty line between each two |
| `TokenPruning.PriorityPruning` | lib/token-compactor.ts:325-371 | the first k files in pruning order go; of the result, the kept files meet the target or number the minimum, never fewer, and with the last file pruned put back the target would be missed |
| `TokenPruning.PruningLeaves` | lib/token-compactor.ts:346-366 | exactly k files are pruned, with exactly the tokens the order lists for them |
| `TokenPruning.PrunesUniquely` | lib/token-compactor.ts:358-366 | there is only one such number |
| `TokenPruning.PrunedAreLowest` | lib/token-compactor.ts:346-366 | no retained candidate scores lower than a pruned one, ties going by input order |
| `TokenPruning.ScoreGrows` | lib/token-compactor.ts:315-323 | higher priority or a later update never lowers a score |
| `TokenPruning.FirstUpdateIff` | lib/token-compactor.ts:315-323 | a first update time does not lower the score exactly when it is at most ten and a half days back |
| `CompactionFields.TargetIs` | lib/token-compactor.ts:325-338 | the target is the larger of the tokens of the protected and non-text files and half, three tenths or one tenth of the tokens before |
| `CompactionFields.CandidateIff` | lib/token-compactor.ts:333-334 | open to pruning are exactly the files that are text, not protected and not empty |
| `CompactionFields.LeastIs` | lib/token-compactor.ts:341-344 | two of them stay at the conservative level and one at the others, or all where there are fewer |
| `CompactionFields.PrunedByMark` | lib/token-compactor.ts:356-370 | only such a file is pruned, and nothing else of a file changes but the layer mark |
| `CompactionFields.PrunedByScore` | lib/token-compactor.ts:346-366 | no such file that stays scores below a pruned one, nor like it from an earlier place in the input |
| `CompactionFields.PriorityCounts` | lib/token-compactor.ts:315-323 | a point of priority, clamped to ten either way, is worth three |
| `CompactionFields.AgeCounts` | lib/token-compactor.ts:315-323 | a dated file loses a third of a point a day over twelve days, of four at first, and a file without a date has half a point |
| `CompactionFields.SizeCounts` | lib/token-compactor.ts:315-323 | each 1500 tokens cost a point, of two at first |
| `CompactionFields.PriorityDecides` | lib/token-compactor.ts:315-323 | two points of priority outweigh age and size together |
| `Compaction.SavingsAddUp` | lib/token-compactor.ts:252-267 | contributions that start where the last ended sum to the whole saving |
| `Compaction.RunTokenCompaction` | lib/token-compactor.ts:382-466 | whatever the clock does, each layer only shrinks the bundle, the savings add up, protected and non-text files come out verbatim, and a run in time is the five layers in full |
| `CompactionFields.LayersByMark` | lib/token-compactor.ts:411-449 | in a run in time a protected file or one that is not text passes every rewriting layer as it was; every other file is squeezed, stripped, and, where it has blocks, reduced to the ones that stay |

## Left out

- RunTokenCompaction: takes whitespace normalization, comment stripping, block splitting and block
  normalization as arbitrary functions that only remove text, because they are regular-expression rules; the
  percentages and cost estimates of the metrics are not modelled, and the target is met in the sum of the
  files' tokens, as in the code, not in the bundle with its headers.
- RunIsBounded: between a message's check and its records there is no other call on the same windows;
  overlapping calls are the subject of OverlapIsBounded, on the windows of one agent. DeliveriesAreBounded
  rests on RunIsBounded.
- CrossFileDedup: files come in path order and digests are taken to be injective; sorting by locale and
  SHA-1 are not modelled.
- IngestXpEvent: the multiplier is a real number rounded half up, and the XP curve is the exact integer
  square root; double-precision rounding is not modelled, in any module.
- SendMessage: the security pipeline, role-card routing, hand-off contracts, affinity updates and the
  summarizer are parameters of the call; their own state, and the alerts a check sends, are not modelled. The
  set of triggers does not change during a run of a conversation.
- GetObservations: the snapshot and the prompt block made from it are not modelled; a cache is read by itself,
  not beside the agents of ObservationMemory.
- FinishPass: the retries, the prompts and the parsing of model answers are not modelled; only the rows or
  decisions they end in are.
- RunParallel: continueOnFailure = true and distinct task ids; a run that stops at the first failure throws
  and leaves its mission to the runner, and duplicate ids are refused nowhere but never produced.
- RunFromPhase: hooks, reports, artifacts and metrics of a mission; concurrent resumes of one mission.
- DefaultPassMeans: the scan of artifacts for secret markers is a parameter.
- CheckAll: challenge pairs are unordered pairs of names, so names that contain the key separator do not
  collide as they could in the source; rate limiter state export and import.
- Starting a conversation under an id that exists, which overwrites it; listing conversations; contexts.
- HTTP handlers, dashboards, SQL text and migrations, file stores, symlinks, webhooks.
- The importing of skill trees, node layouts, leaderboards, the diversification score (an entropy).
- Sanitizer, voice rules, role-card enforcement and quality rubric: rules over regular expressions.
- lib/model-router*.ts, lib/queue-router.ts, lib/authority-map.ts, lib/policy-gate.ts, lib/affinity-manager.ts
  and lib/qa-framework.ts are not modelled: what they decide enters the modelled code as a parameter, or not
  at all.
