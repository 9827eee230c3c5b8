# Fleet's controller, journal and snapshots: a verified model

Fleet drives a goal through clarification, planning, execution of a DAG of Tasks, verification and
publication. Its controller may die between any two appends to an append-only journal and derives
everything from that journal when it continues. This project models the deterministic code behind its
guarantees and proves them for every run: every schedule of threads, every answer of a model, a check
or a daemon, every crash.

How the pieces fit:

- `Models`: the immutable contracts (Task, Plan, Goal, Authority, Candidate, snapshot entries).
- `PlanGraph`, `Scheduler`: plan validation by its two worklist loops, and the scheduling loop.
- `StageContract`: what a proposed plan may contain, above all a recovery plan.
- `Evidence`: findings, receipts, preservation comparison and the acceptance decision.
- `Hosts`, `Leases`: host patterns against the host sets they stand for, and cross-run leases.
- `RunLog`: one Run's journal as a sequence of events and what is read from it. `HistoryOk` says that
  every event was justified by the events before it.
- `Replay`, `Guarantees`, `Completion`, `Reuse`, `Recheck`: what follows for every such log, and the
  rereading loops themselves.
- `EngineInvariant`, `EngineSteps`, `EngineMoves`, `EngineMain`, `Engine`, `Runs`: the controller as a
  class whose methods are its steps. Each step's contract states the new log and positions, and each
  keeps the invariant that includes `HistoryOk`; `Runs.RunSchedule` puts arbitrary schedules on top.
- `Proof`: what stands behind an acceptance and a completion, from end to end.
- `Granting`, `Fleets`: several Runs over one lease table; external writers never share a host.
- `Tables`, `History`, `WallClock`, `Retry`: the journal's tables with interleaved runs, budget
  reservations, wall-clock accounting and the durable retry loop.
- `Paths`, `Snapshot`, `Validation`, `Capture`, `Archive`, `Transport`: names, symbolic links against
  real pathname resolution, capture, materialization and the archive round trip.
- `Ledger`: the write-ahead ledger of containers and networks, with creations that land late.
- `Commands`: the bounded store of command snapshots.

Conventions. A digest (SHA-256 over canonical JSON) is taken as injective, so the model stores the value
where the program stores its digest. A journal transaction is one atomic step. Model replies, check
results, clock readings, daemon replies and crashes are nondeterministic. Attempt and reservation IDs
are fresh. Where the source iterates a sorted collection the model iterates in any order, unless the
order matters to the result.

## Model

| member | source | states |
|---|---|---|
| PlanGraph.ResolveOrder | src/ai_employee/models.py:434-442 | The peeling loop succeeds exactly when the dependencies are closed and a rank function exists (acyclic), both directions. |
| PlanGraph.SomeTaskIsReady | src/ai_employee/models.py:436-441 | With closed dependencies and a rank, whatever has been resolved, some pending Task has all parents resolved. |
| PlanGraph.ReadyIsNotEmpty | src/ai_employee/engine.py:2048-2053 | On a closed acyclic plan the set of ready Tasks is never empty while Tasks are pending: `GRAPH_CANNOT_PROGRESS` cannot be raised. |
| PlanGraph.PushParents | src/ai_employee/models.py:447-451 | One iteration of the backward walk keeps its stack invariant, adds only parents, and grows the set or shortens the stack. |
| PlanGraph.Ancestors | src/ai_employee/models.py:443-451 | The backward walk finds exactly the Tasks from which a dependency chain leads to the result. |
| PlanGraph.Dag | src/ai_employee/models.py:430-453 | The verdict is adoption exactly for plans with unique IDs, closed acyclic dependencies and every Task contributing to the result; otherwise it names the first condition that fails. |
| Scheduler.TakeBatch | src/ai_employee/engine.py:2065 | A batch is a part of the ready Tasks, as large as the concurrency cap allows. |
| Scheduler.Round | src/ai_employee/engine.py:2048-2086 | One round launches a nonempty batch whose parents are all accepted, and strictly increases the accepted set. |
| Scheduler.RunToCompletion | src/ai_employee/engine.py:2048-2086 | For every cap, every starting set and every choice of batches, a failure-free run accepts the whole plan in at most one round per pending Task. |
| StageContract.ValidateTask | src/ai_employee/stage_contracts.py:334-358 | No violation exactly when the Task respects declared checks, supported authority, exact history, known repair target and failed dependencies; each reported violation is real. |
| StageContract.Validate | src/ai_employee/stage_contracts.py:279-358 | No violation exactly when every clause of the Plan contract holds. |
| StageContract.HistoryIsClosed | src/ai_employee/stage_contracts.py:191-198 | The history of closed plans keeps the parents of every historical Task. |
| StageContract.ChainFromHistory | src/ai_employee/stage_contracts.py:334-349 | Whatever a historical Task was built from, along any chain, is historical too. |
| StageContract.RecoveryResultIsNew | src/ai_employee/stage_contracts.py:320-349 | Every accepted recovery plan has a result Task that was never planned before, although no single check says so. |
| StageContract.RecoveryDropsFailedTasks | src/ai_employee/stage_contracts.py:350-358 | An accepted recovery plan contains no failed Task at all, not only no dependency on one. |
| StageContract.RecoveryGrowth | src/ai_employee/stage_contracts.py:320-333 | Whenever a recovery is accepted, the IDs beyond the first plan stay within `added_tasks`. |
| Evidence.AcceptsMeaning | src/ai_employee/models.py:618-623 | A count, a set of IDs and the verdicts together mean exactly one passing finding per criterion and none about anything else. |
| Evidence.CompareMeaning | src/ai_employee/candidates.py:24-50 | The comparison matches exactly when every declared path keeps its promise entry by entry, for both modes. |
| Evidence.MatchingMeaning | src/ai_employee/engine.py:1094-1118 | The attached comparison matches exactly when every criterion keeps every path it declares. |
| Evidence.ResultKeepsGoalInputs | src/ai_employee/stage_contracts.py:282-299 | A result that matches the inputs for a Task declaring the Goal's paths matches them for the Goal. |
| Hosts.GlobMeaning | src/ai_employee/models.py:46 | Matching a pattern means everything, one name, or every name below one, for hosts and for pattern texts alike. |
| Hosts.GlobTransitive | src/ai_employee/models.py:369-387 | Text matching is transitive. |
| Hosts.WitnessDecides | src/ai_employee/models.py:369-387 | One suitable host decides whether a pattern matches the text of another. |
| Hosts.PatternInclusion | src/ai_employee/models.py:369-387 | Matching pattern text against pattern text holds exactly when the host sets are included. |
| Hosts.PatternOverlap | src/ai_employee/history.py:588-597 | Two patterns share a host exactly when one matches the text of the other. |
| Hosts.HostsWithinMeaning | src/ai_employee/models.py:369-387 | The host part of `within` holds exactly when every granted host is granted by the ceiling, also where the ceiling lists several patterns. |
| Hosts.WithinReflexive | src/ai_employee/models.py:369-387 | Every authority is within itself. |
| Hosts.WithinTransitive | src/ai_employee/models.py:369-387 | `within` is transitive, so delegation never widens a grant. |
| Leases.OverlapMeaning | src/ai_employee/history.py:588-597 | On nonempty lists the textual overlap test holds exactly when some host is granted twice. |
| Leases.OverlapsIsIncompatible | src/ai_employee/history.py:588-597 | The test holds exactly when the two grants cannot be held at once. |
| Leases.OneHolderPerHost | src/ai_employee/history.py:578-617 | No concrete host is ever granted to two holders. |
| Leases.LeaseTable.Acquire | src/ai_employee/history.py:578-617 | A lease is granted exactly when every other holder's grant is compatible; table and events change accordingly and exclusivity is kept. |
| Leases.LeaseTable.Release | src/ai_employee/history.py:619-624 | Releasing removes exactly the holder's lease. |
| RunLog.HistoryPrefix | src/ai_employee/engine.py:1986-2103 | A log every event of which was justified has only such prefixes, whatever the crash point. |
| Replay.StepKeeps | src/ai_employee/engine.py:2187-2197 | One more event never changes the Goal nor an accepted Candidate. |
| Replay.AttemptIsUnique | src/ai_employee/engine.py:2204-2211 | An attempt ID has exactly one context on record, so the uniqueness test of `_accepted` never fails. |
| Replay.AttemptIsCurrent | src/ai_employee/engine.py:1507-1512 | The Goal and the upstream Candidates an attempt was started with are those the log still shows. |
| Replay.OneCandidatePerAttempt | src/ai_employee/engine.py:1412-1434 | Across restarts an attempt freezes at most one Candidate. |
| Replay.TaskRecordIsUnique | src/ai_employee/engine.py:1435-1441 | Across restarts an attempt is verified at Task level at most once. |
| Replay.TaskRecordComparison | src/ai_employee/engine.py:1120-1139 | A passing Task record carries the comparison its Candidate still gives, and it matches. |
| Replay.AcceptedIsVerified | src/ai_employee/engine.py:1741-1749 | Every acceptance is of the Task's own Candidate with a passing verification on record. |
| Replay.AcceptedDefinition | src/ai_employee/stage_contracts.py:334-349 | The definition a Task was accepted under stays its historical definition through all recoveries. |
| Replay.PlanAgreesWithAcceptance | src/ai_employee/engine.py:2190-2197 | The plan in force gives an accepted Task the definition it was accepted under: `FOREIGN_TASK_CANDIDATE` cannot be raised. |
| Replay.AcceptedCandidateAttested | src/ai_employee/engine.py:2187-2230 | Every accepted Candidate has one matching context, a passing verification, a standing comparison and current lineage. |
| Replay.AcceptedNeverRejects | src/ai_employee/engine.py:2187-2230 | On every log the engine can have written, with any crashes and recovery plans, `_accepted` never rejects; kept Tasks still have all parents accepted with the same digests. |
| Replay.AdoptedRecovery | src/ai_employee/engine.py:2129-2144 | An adopted recovery plan ends in a Task never planned before and keeps no failed Task. |
| Proof.AcceptanceIsProven | src/ai_employee/engine.py:1141-1335 | Behind every acceptance stand one passing finding per criterion, a passing receipt about exactly this Candidate for every required check, preserved inputs and, where needed, external evidence. |
| Proof.CompletionIsProven | src/ai_employee/engine.py:1141-1335 | The same behind every completion for the whole Goal, whether it was verified in full or by reuse. |
| Replay.NoPlanSinceResult | src/ai_employee/engine.py:2086-2103 | While the result of the current plan is accepted, no plan has been adopted since. |
| Guarantees.AcceptanceOrder | src/ai_employee/engine.py:1597-1749 | Before an acceptance come, in this order, the start of exactly this attempt on the upstream work the log showed, the freezing of its Candidate and a passing verification of it. |
| Guarantees.CompletionOrder | src/ai_employee/engine.py:2086-2103 | Before a completion come the acceptance of its Candidate and then a passing Goal-level verification of it. |
| Guarantees.ExternalAttemptIsLast | src/ai_employee/engine.py:1553-1583 | An attempt with external-write authority is never followed by another attempt of the same Task. |
| Guarantees.AtMostOneExternalCall | src/ai_employee/engine.py:1553-1607 | Over all crashes and restarts at most one worker invocation with external-write authority is reserved for a Task. |
| Guarantees.NoCompletionAfterUncertain | src/ai_employee/engine.py:2010-2015 | After an uncertain external effect the Run never completes. |
| Guarantees.NoDecisionAfterStop | src/ai_employee/history.py:193-205 | After a stop nothing that advances the Run is appended. |
| Guarantees.BoundedAttempts | src/ai_employee/engine.py:1597 | A Task definition is attempted at most `task_attempts` times. |
| EngineMain.DirectAttemptedOnce | src/ai_employee/engine.py:1597 | A Task is attempted at most once while it is direct. |
| Guarantees.OneFallback | src/ai_employee/engine.py:926-968 | There is at most one direct fallback in a Run. |
| Guarantees.BoundedPlans | src/ai_employee/engine.py:2121-2122 | At most `replans + 1` plans are adopted, or `max(2, replans + 1)` after a fallback. |
| Guarantees.ReplanningTerminates | src/ai_employee/engine.py:2074-2103 | Every event by which `_execute` calls itself lowers a measure that never falls below zero; no other event raises it. |
| Guarantees.GrowthAtRecovery | src/ai_employee/stage_contracts.py:320-333 | Adopting a recovery plan keeps the growth of the whole history within `added_tasks`. |
| Guarantees.BoundedGrowth | src/ai_employee/stage_contracts.py:320-333 | While a recovery plan is in force, at most `added_tasks` IDs lie beyond the first plan. |
| Completion.NoSecondTaskRecord | src/ai_employee/engine.py:1435-1441 | The Task record of an accepted Candidate is never followed by another. |
| Completion.JointRecordStable | src/ai_employee/engine.py:991-1030 | While a Candidate stays the result of the plan in force, its reusable record stays the same. |
| Completion.CompletionIsFinal | src/ai_employee/engine.py:2232-2265 | What a completion rests on still holds after anything appended later. |
| Completion.ReuseStillStands | src/ai_employee/engine.py:2266-2281 | A reused Goal record still points at the record `_joint_record` returns, with the same findings. |
| Completion.CompletionNeverRejects | src/ai_employee/engine.py:2232-2283 | `_completion` never rejects a log in which the engine recorded a completion. |
| Recheck.CollectAccepted | src/ai_employee/engine.py:2187-2197 | The first loop finds the latest acceptance of every planned Task, or a foreign definition, exactly. |
| Recheck.CheckLineage | src/ai_employee/engine.py:2198-2203 | The second loop accepts exactly current lineages. |
| Recheck.CheckAttestations | src/ai_employee/engine.py:2204-2229 | The third loop accepts exactly attested Candidates. |
| Recheck.RereadAccepted | src/ai_employee/engine.py:2187-2230 | `_accepted` on any log whatever: it returns exactly when all checks hold, and then the latest accepted Candidates. |
| Recheck.RereadCompletion | src/ai_employee/engine.py:2232-2283 | `_completion` on any log: it returns the completed Candidate exactly when every recheck succeeds. |
| Reuse.DirectMeansLocal | src/ai_employee/engine.py:880-891 | A direct start is on record only under an empty authority ceiling. |
| Reuse.AttemptWithinCeiling | src/ai_employee/engine.py:1903-1984 | No attempt of a Run ever runs with authority beyond the ceiling, applied grants included. |
| Reuse.ReuseRefinesVerification | src/ai_employee/engine.py:970-1049 | Whenever a Task record may be reused for the Goal, the same findings and receipts, all recorded before it, meet the full Goal-level test and no external evidence is needed. |
| Reuse.ReuseCoversCriteria | src/ai_employee/engine.py:1006-1030 | Every Goal criterion has exactly one finding in the reused record, a passing one. |
| EngineInvariant.WorkerFrame | src/ai_employee/engine.py:2054-2066 | A thread's position stays valid under every event the other threads append. |
| EngineSteps.WorkerStep | src/ai_employee/engine.py:1497-1800 | One thread's append, justified by the log it reads, keeps the whole invariant for every interleaving. |
| EngineSteps.ResumedCandidate | src/ai_employee/engine.py:1412-1441 | A Candidate found on resuming has the identity of its context, and a verdict on record is about exactly it: `CANDIDATE_CONTEXT_CHANGED` cannot be raised. |
| EngineSteps.AttemptsAreCurrent | src/ai_employee/engine.py:1410-1411 | Every prior attempt of a Task has the Goal and the upstream Candidates the log shows now. |
| EngineSteps.NothingStale | src/ai_employee/engine.py:1507-1565 | The tests for stale inputs on starting never fail: `STALE_UPSTREAM_LINEAGE` and `STALE_GOAL_CONTEXT` cannot be raised. |
| EngineSteps.BeginOk | src/ai_employee/engine.py:1388-1583 | Starting a thread leaves it in a valid position whatever an earlier controller left behind. |
| EngineMain.DirectPoolIsAlone | src/ai_employee/engine.py:2074-2076 | A direct Task that falls back is alone in its batch, and nothing has been accepted. |
| EngineMain.LaunchOk | src/ai_employee/engine.py:2054-2066 | Every launched Task has all of its upstream Candidates. |
| EngineMain.CollectFinished | src/ai_employee/engine.py:2070-2073 | Collecting a finished thread keeps the invariant. |
| EngineMain.RecoveryStep | src/ai_employee/engine.py:2105-2185 | Adopting an allowed recovery plan keeps the invariant. |
| EngineMain.GoalRecordStep | src/ai_employee/engine.py:2086-2092 | Recording the Goal verdict keeps the invariant. |
| EngineMain.OutsideEvent | src/ai_employee/history.py:362-363 | A stop appended by any process at any time keeps the invariant. |
| Engine.Controller.Begin | src/ai_employee/engine.py:1507-1583 | Testing the inputs, reading prior attempts and deciding where to continue; no test fails. The new log and positions are stated outright and the invariant is kept. |
| Engine.Controller.StartAttempt | src/ai_employee/engine.py:1597-1619 | Another attempt on the current Goal, upstream, grant and version, unless the limit is reached. The new log and positions are stated outright and the invariant is kept. |
| Engine.Controller.ReserveCall | src/ai_employee/history.py:433-440 | The reservation of one worker call for the attempt. The new log and positions are stated outright and the invariant is kept. |
| Engine.Controller.AppendUncertain | src/ai_employee/engine.py:1750-1798 | An exception after which an external effect may have happened leaves `uncertain` and ends the thread. The new log and positions are stated outright and the invariant is kept. |
| Engine.Controller.RetryCall | src/ai_employee/engine.py:243-246 | A failed call is repeated for local work only; otherwise it becomes uncertain. The new log and positions are stated outright and the invariant is kept. |
| Engine.Controller.ReportResult | src/ai_employee/engine.py:1667-1725 | Every status has its action: recorded results, a request, or a stop on usage, after which an external attempt is uncertain. The new log and positions are stated outright and the invariant is kept. |
| Engine.Controller.RequestAuthority | src/ai_employee/engine.py:1684-1718 | A direct Task hands over, a request beyond the ceiling fails the attempt, any other one pauses the Run with its three events in one transaction. The new log and positions are stated outright and the invariant is kept. |
| Engine.Controller.StopOnUsage | src/ai_employee/engine.py:1668-1670 | An exhausted allowance stops the Run. The new log and positions are stated outright and the invariant is kept. |
| Engine.Controller.FailAttempt | src/ai_employee/engine.py:1719-1800 | A failed local attempt is recorded; an external one becomes uncertain. The new log and positions are stated outright and the invariant is kept. |
| Engine.Controller.FreezeCandidate | src/ai_employee/engine.py:1726-1727 | The quiesced workspace becomes the attempt's Candidate. The new log and positions are stated outright and the invariant is kept. |
| Engine.Controller.RunCheck | src/ai_employee/engine.py:1150-1223 | The next required check leaves its receipt, in configuration order. The new log and positions are stated outright and the invariant is kept. |
| Engine.Controller.Conclude | src/ai_employee/engine.py:1295-1335 | The Task record carries exactly the decision on the findings, receipts and comparison. The new log and positions are stated outright and the invariant is kept. |
| Engine.Controller.Accept | src/ai_employee/engine.py:1741-1749 | Acceptance of the verified Candidate. The new log and positions are stated outright and the invariant is kept. |
| Engine.Controller.FailTask | src/ai_employee/engine.py:2077-2079 | A failed Task ends its thread. The new log and positions are stated outright and the invariant is kept. |
| Engine.Controller.FallBack | src/ai_employee/engine.py:1798-1800 | A direct attempt hands over to planning. The new log and positions are stated outright and the invariant is kept. |
| Engine.Controller.Enter | src/ai_employee/engine.py:1986-2016 | A stopped, completed, waiting or uncertain Run goes no further; waits are for approvals and for answers. The new log and positions are stated outright and the invariant is kept. |
| Engine.Controller.AskClarification | src/ai_employee/engine.py:814-818 | A question pauses the Run, which then goes no further. The new log and positions are stated outright and the invariant is kept. |
| Engine.Controller.AnswerClarification | src/ai_employee/engine.py:1875-1887 | An answer is recorded exactly while a question is open. The new log and positions are stated outright and the invariant is kept. |
| Engine.Controller.StartDirect | src/ai_employee/engine.py:880-914 | The direct plan is tried exactly under its conditions, with both events in one transaction; a Task that is not ready stops the Run. The new log and positions are stated outright and the invariant is kept. |
| Engine.Controller.AdoptPlan | src/ai_employee/engine.py:1051-1092 | A plan is adopted exactly when it is reviewed, well formed and within the planning contract. The new log and positions are stated outright and the invariant is kept. |
| Engine.Controller.LoadAccepted | src/ai_employee/engine.py:2045-2048 | Rereading the accepted work of the plan in force succeeds. The new log and positions are stated outright and the invariant is kept. |
| Engine.Controller.LaunchBatch | src/ai_employee/engine.py:2050-2066 | A nonempty batch of ready Tasks, never more than the concurrency cap, each with its upstream. The new log and positions are stated outright and the invariant is kept. |
| Engine.Controller.Collect | src/ai_employee/engine.py:2068-2079 | One finished future: accepted, failed, fallen back or aborted. The new log and positions are stated outright and the invariant is kept. |
| Engine.Controller.Recover | src/ai_employee/engine.py:2105-2185 | A recovery plan is adopted exactly when it is reviewed, within the replan limit, well formed and within every constraint. The new log and positions are stated outright and the invariant is kept. |
| Engine.Controller.BeginGoal | src/ai_employee/engine.py:2086 | Nothing pending means the result Task is accepted. The new log and positions are stated outright and the invariant is kept. |
| Engine.Controller.ReuseGoal | src/ai_employee/engine.py:1032-1049 | The direct verification is reused exactly when `_joint_record` finds it. The new log and positions are stated outright and the invariant is kept. |
| Engine.Controller.ConcludeGoal | src/ai_employee/engine.py:1295-1335 | The Goal record carries exactly the decision on its evidence. The new log and positions are stated outright and the invariant is kept. |
| Engine.Controller.Complete | src/ai_employee/engine.py:2097-2103 | Completion of the attested result. The new log and positions are stated outright and the invariant is kept. |
| Engine.Controller.RejectGoal | src/ai_employee/engine.py:2091-2096 | A rejected Goal is recovered unless a Task of the plan could write externally. The new log and positions are stated outright and the invariant is kept. |
| Engine.Controller.DoubtGoal | src/ai_employee/engine.py:2092-2094 | In that case `uncertain` follows in an append of its own. The new log and positions are stated outright and the invariant is kept. |
| Engine.Controller.Crash | src/ai_employee/engine.py:1802-1818 | The process dies between any two appends; only the log survives. The new log and positions are stated outright and the invariant is kept. |
| Engine.Controller.StopRun | src/ai_employee/history.py:362-363 | A stop by any process. The new log and positions are stated outright and the invariant is kept. |
| Engine.Controller.DecideAuthority | src/ai_employee/engine.py:1903-1984 | A decision counts only for an open request; an approval takes effect exactly when the Task with the grant is still supported. The new log and positions are stated outright and the invariant is kept. |
| Engine.NextBatch | src/ai_employee/engine.py:2050-2066 | The next batch is nonempty, ready and exactly as large as the cap allows. |
| Granting.LocalEventsKeep | src/ai_employee/engine.py:1541-1557 | Nothing a thread appends changes the plan or the authority granted to any Task. |
| Granting.OwnAuthority | src/ai_employee/engine.py:1530-1545 | Until a grant is applied every attempt of a Task has the Task's own authority. |
| Fleets.Fleet.Begin | src/ai_employee/engine.py:1541-1551 | A thread begins only with the lease its grant calls for; without it the thread waits. |
| Fleets.Fleet.Step | src/ai_employee/engine.py:1986-2103 | Any other step of any Run keeps every live thread's lease. |
| Fleets.Fleet.Release | src/ai_employee/history.py:619-624 | A lease is given back while no thread works on its Task. |
| Fleets.Fleet.Approve | src/ai_employee/engine.py:1947-1984 | A grant is leased before it is applied. |
| Fleets.Fleet.WriterHoldsLease | src/ai_employee/history.py:578-617 | An external call that may be running holds the lease of its Task under exactly its authority. |
| Fleets.Fleet.WritersAreCompatible | src/ai_employee/history.py:578-617 | Two external calls at once, of one Run or of several, name their hosts and share none. |
| Fleets.Fleet.OneWriterPerHost | src/ai_employee/history.py:578-617 | No host is ever granted to two external calls at once. |
| Fleets.RunFleet | src/ai_employee/engine.py:1541-1551 | For every schedule of every Run, with crashes, external writers are kept apart. |
| Runs.RunSchedule | src/ai_employee/engine.py:1986-2283 | For every schedule of threads, environment answers, stops and crashes, the log is justified event by event, and `_accepted` and `_completion` accept it. |
| Tables.InsertKeepsChains | src/ai_employee/history.py:97-111 | A row inserted for any run keeps every run's chain valid. |
| Tables.SameTipSameHistory | src/ai_employee/history.py:249-264 | Two verifying tables with the same last digest for a run hold identical histories of it. |
| Tables.PrefixVerifies | src/ai_employee/history.py:249-264 | The exact limit of the chain: every prefix verifies too, so a removed tail does not show. |
| Tables.InsertKeepsFence | src/ai_employee/history.py:193-205 | No guarded entry is ever added after a fence. |
| Tables.InsertKeepsFinals | src/ai_employee/history.py:184-191 | `accepted` and `completed` bodies stay distinct. |
| Tables.OrdinalsIncrease | src/ai_employee/history.py:451-458 | Reservations under one call key never share an ordinal, and later ones have larger ones. |
| Tables.CallsBounded | src/ai_employee/history.py:451-458 | Calls admitted below a limit number at most that limit. |
| Tables.Conservation | src/ai_employee/history.py:465-512 | Invocations stay within `attempts`; charged tokens and cost stay within the limit plus the sum of overruns. |
| Tables.ChargesSplit | src/ai_employee/history.py:539-576 | Every charge is what admission allowed plus a nonnegative overrun. |
| History.Journal.constructor | src/ai_employee/history.py:55-84 | An empty journal satisfies every invariant. |
| History.Journal.Create | src/ai_employee/history.py:113-133 | A new run is one `created` row with its limits. |
| History.Journal.Append | src/ai_employee/history.py:180-191 | The row, unless the fence refuses it or a final decision is already on record. |
| History.Journal.AppendMany | src/ai_employee/history.py:207-218 | All rows or none, nothing after a fence; the journal stays sound exactly when no inserted decision follows a stop in the batch. |
| History.Journal.Read | src/ai_employee/history.py:249-264 | The run's rows exactly when its chain verifies. |
| History.Journal.Supersede | src/ai_employee/history.py:135-156 | Three rows of the successor and two of the replaced run in one transaction, unless it is stopped. |
| History.Journal.Check | src/ai_employee/history.py:413-431 | Reports a stop, or records one when time or budget has run out. |
| History.Journal.Reserve | src/ai_employee/history.py:433-512 | Admits one invocation exactly when no limit, fence or ordinal refuses it, and charges it. |
| History.Journal.Settle | src/ai_employee/history.py:539-576 | Closes an open reservation; a repeated delivery changes nothing and a different one is refused. |
| History.Journal.RecoverReservations | src/ai_employee/history.py:514-537 | Closes every interrupted reservation once, keeping charges and invocation count. |
| History.InsertKeepsLog | src/ai_employee/history.py:97-111 | Insertion keeps chains, fence, distinct decisions and ordinals of all runs. |
| History.BatchKeepsSound | src/ai_employee/history.py:207-218 | A batch in order keeps every invariant of the journal. |
| History.BatchBreaksFence | src/ai_employee/history.py:207-218 | A batch out of order always breaks the fence, so the order is the exact condition. |
| History.StopThenPlan | src/ai_employee/history.py:207-218 | Such a batch exists: a stop followed by a plan. |
| History.AdmissionKeepsLimits | src/ai_employee/history.py:465-495 | An admission keeps every run within its limits. |
| History.AdmissionKeepsTable | src/ai_employee/history.py:433-512 | An admission keeps the reservation table sound. |
| History.ClosingKeepsTable | src/ai_employee/history.py:514-576 | Closing a reservation once keeps the table sound whatever was measured. |
| History.RecoveryClosesAll | src/ai_employee/history.py:514-537 | After recovery nothing of the run is open and no charge or invocation has been released. |
| History.SettledOnce | src/ai_employee/history.py:539-576 | In every sound state, whatever transactions came since: a settlement on record makes the same delivery change nothing and every different one refused. |
| History.RecoveredIsClosed | src/ai_employee/history.py:514-537 | A recovered reservation can no longer be settled. |
| WallClock.PendingMeaning | src/ai_employee/history.py:394-405 | The set the single pass tracks is exactly the attempts that wait. |
| WallClock.BlockedMeaning | src/ai_employee/history.py:396-405 | Time is blocked exactly while some attempt waits: overlapping waits count once. |
| WallClock.RemainingWall | src/ai_employee/history.py:386-411 | The single pass returns the limit minus the time outside the union of waits, clamped at zero. |
| WallClock.AllowanceInRange | src/ai_employee/history.py:386-411 | The result lies within zero and the limit for nondecreasing times. |
| WallClock.AllowanceOverTime | src/ai_employee/history.py:386-411 | The allowance never grows, stands still exactly while some attempt waits, and otherwise shrinks by the time that passed. |
| WallClock.AllowanceAtEvent | src/ai_employee/history.py:386-411 | Recording an event at its own time changes nothing. |
| WallClock.AllowanceNeverGrows | src/ai_employee/history.py:386-411 | However the run continues, with whatever ordered events and waits, the allowance never grows. |
| Retry.DelayValues | src/ai_employee/engine.py:361 | The delay is 5, 10, 20, 40 and then 60 seconds. |
| Retry.BoundedCalls | src/ai_employee/engine.py:239-242 | Over all restarts invocations number at most `revisions + 1 + transport_retries`. |
| Retry.CapacityWait | src/ai_employee/engine.py:357-375 | A transport retry reserved after a capacity failure is never reserved before the failure time plus the delay, in any log the controllers leave. |
| Retry.WaitIsKept | src/ai_employee/engine.py:361-375 | A restart during a wait does not put the next retry off. |
| Retry.Caller.TransportRetry | src/ai_employee/engine.py:335-375 | Refuses under external authority or when retries are used up; otherwise waits until the failure time plus the delay. |
| Retry.Caller.ReserveCall | src/ai_employee/history.py:451-458 | A call is admitted exactly below the limit of its action. |
| Retry.Caller.Recover | src/ai_employee/engine.py:261-327 | The handlers of a failed call: transport retry, repair, or the end. |
| Retry.Caller.Generate | src/ai_employee/engine.py:226-330 | One controller's loop keeps the bounds and waits; under external authority it makes at most one call. |
| Retry.Restarts | src/ai_employee/engine.py:226-330 | Any number of controllers one after the other stay within the bound together. |
| Paths.JoinSplit | src/ai_employee/snapshot.py:37-45 | Joining the components of a text gives it back. |
| Paths.SplitJoin | src/ai_employee/snapshot.py:37-45 | Splitting the text of components gives them back. |
| Paths.SafePathMeaning | src/ai_employee/snapshot.py:37-45 | A text is a safe path exactly when all its components are safe ones. |
| Paths.SafePathsAreSafeParts | src/ai_employee/snapshot.py:37-45 | Safe component sequences and safe texts correspond one to one. |
| Snapshot.WalkIsResolution | src/ai_employee/snapshot.py:76-99 | The lexical walk and the resolution end at the same file, from any directory and along any components. |
| Snapshot.TargetOkIsResolution | src/ai_employee/snapshot.py:70-104 | A link is accepted exactly when it resolves, within the root and through no second link, to the regular file the walk computed. |
| Snapshot.NoSecondLink | src/ai_employee/snapshot.py:103-104 | The resolution of an accepted link is the same whatever number of links is allowed. |
| Snapshot.NamespaceMeaning | src/ai_employee/snapshot.py:69-104 | A namespace is accepted exactly when its entries form a tree in which every link resolves to a file. |
| Validation.CheckTarget | src/ai_employee/snapshot.py:75-104 | The loop over the components decides exactly the check of one target. |
| Validation.CheckNamespace | src/ai_employee/snapshot.py:69-104 | One namespace is refused exactly when some entry is at fault, and the entry named is one. |
| Validation.GroupEntries | src/ai_employee/snapshot.py:58-68 | Entries are grouped into exactly their namespaces, or some name is unsafe. |
| Validation.ValidateEntries | src/ai_employee/snapshot.py:53-104 | No fault exactly when all names are safe and every namespace is accepted. |
| Validation.ValidMeaning | src/ai_employee/snapshot.py:53-104 | For artifact entries acceptance is exactly safe names, a tree, and every link resolving to a file. |
| Validation.ValidIsFlat | src/ai_employee/snapshot.py:59-72 | Namespaces never overlap: accepted entries form one tree. |
| Validation.LinksStayInTheirNamespace | src/ai_employee/snapshot.py:53-58 | With inputs, an accepted link resolved in the full tree ends at a regular file of its own namespace. |
| Capture.LookMeaning | src/ai_employee/snapshot.py:135-150 | A name is seen only below real directories. |
| Capture.ReadBounded | src/ai_employee/snapshot.py:164 | At most one byte beyond the limit is read, and within the limit everything. |
| Capture.ReadOne | src/ai_employee/snapshot.py:131-176 | One name reads exactly when it is safe, not behind a link, not special and fits; then its entry is complete. |
| Capture.ReadEntries | src/ai_employee/snapshot.py:107-186 | Succeeds exactly when all names read and the whole fits and is valid, and returns every entry in full. |
| Capture.NameAlone | src/ai_employee/snapshot.py:130-131 | Checking a name alone is validating it as the only entry. |
| Archive.NothingInTheWay | src/ai_employee/candidates.py:157-162 | Among entries of one tree no write meets a link, a file or itself. |
| Archive.WriteTree | src/ai_employee/candidates.py:152-163 | Files, then links: writing succeeds and the result is exactly the tree of the entries. |
| Archive.ReadsBack | src/ai_employee/snapshot.py:107-186 | Capturing a written tree gives back its entries, exactly when they are within the limits. |
| Archive.FitsManifest | src/ai_employee/candidates.py:126-149 | The running total decides exactly whether the whole fits. |
| Archive.Materialize | src/ai_employee/candidates.py:118-166 | Succeeds exactly for valid manifests within limits into an empty target; what is captured is the manifest. |
| Transport.Pack | src/ai_employee/snapshot.py:189-218 | Packing yields members for exactly the entries and their parent directories, directories first, then files, then links, under both limits. |
| Transport.PackedIsAccepted | src/ai_employee/snapshot.py:221-279 | Whatever is packed from a valid workspace is a good archive of the same entries. |
| Transport.ScanOne | src/ai_employee/snapshot.py:231-262 | The tests on one more member are exactly those for a good archive. |
| Transport.Scan | src/ai_employee/snapshot.py:231-262 | The loop accepts exactly duplicate-free, safe, bounded member lists. |
| Transport.Unpack | src/ai_employee/snapshot.py:221-279 | Succeeds exactly for a good archive and an empty target, which then holds exactly its entries. |
| Transport.Transfer | src/ai_employee/snapshot.py:189-279 | There and back: what packs unpacks under the same limit and captures as the same map, inputs included. |
| Ledger.Host.Append | src/ai_employee/isolated_worker.py:83-93 | A line sets the state of one resource and of no other. |
| Ledger.Host.ReadLedger | src/ai_employee/container.py:325-338 | The loop over the lines computes the latest state of every resource. |
| Ledger.Host.AllRemovedMeansGone | src/ai_employee/container.py:317-355 | If every resource is recorded as removed nothing exists and nothing can appear. |
| Ledger.Host.ReconcileOne | src/ai_employee/container.py:340-353 | A resource is removed, and recorded as removed only when its creation had been confirmed. |
| Ledger.Host.ReconcileFile | src/ai_employee/container.py:322-353 | A ledger without intents ends with everything removed. |
| Ledger.Host.Reconcile | src/ai_employee/container.py:317-355 | A normal return means nothing the Run asked for exists or can appear, whatever lands meanwhile; repeating it removes nothing. |
| Ledger.Candidate.constructor | src/ai_employee/isolated_worker.py:117-127 | A fresh environment remembers nothing and keeps the record sound. |
| Ledger.Candidate.Intend | src/ai_employee/isolated_worker.py:184-193 | The intent is on record and pending before the creation is sent. |
| Ledger.Candidate.Send | src/ai_employee/isolated_worker.py:211-216 | A creation in flight has its intent on record. |
| Ledger.Candidate.Reply | src/ai_employee/isolated_worker.py:237-241 | A reply turns the intent into a confirmed creation. |
| Ledger.Candidate.CloseOne | src/ai_employee/isolated_worker.py:683-706 | Removal is recorded only for confirmed creations. |
| Ledger.Candidate.Close | src/ai_employee/isolated_worker.py:680-711 | Disposal is confirmed exactly when everything was removed and no creation is pending. |
| Ledger.Candidate.ConfirmedMeansGone | src/ai_employee/isolated_worker.py:659-662 | Confirmed disposal means nothing of the environment exists or can appear. |
| Ledger.Candidate.Undisturbed | src/ai_employee/isolated_worker.py:184-193 | Other environments and passing time leave an environment's memory right. |
| Ledger.AnyRun | src/ai_employee/isolated_worker.py:184-193 | For every interleaving of environments, landing creations, crashes and restarts the record stays ahead of the daemon. |
| Commands.TotalShrinks | src/ai_employee/command_diagnostics.py:113-119 | Emptying rows never adds a byte. |
| Commands.NextKeepsBounds | src/ai_employee/command_diagnostics.py:155-266 | Every delivery keeps the total within `run_bytes`, each body within `command_bytes` and the rows within `max_commands`, revives no row and rewrites no complete one. |
| Commands.MergeKeepsHistory | src/ai_employee/command_diagnostics.py:203-236 | One more event keeps a snapshot one command's history: end, start and duration belong together, a seen start is kept, texts stay clipped. |
| Commands.NothingOverdue | src/ai_employee/command_diagnostics.py:113-119 | Nothing is kept beyond its time. |
| Commands.RedeliveryChangesNothing | src/ai_employee/command_diagnostics.py:190-201 | A delivery repeated while nothing expires changes no row; with other clocks too, unless it had not fitted. |
| Commands.Store.Used | src/ai_employee/command_diagnostics.py:244-247 | The sum of the stored sizes. |
| Commands.Store.Expire | src/ai_employee/command_diagnostics.py:113-119 | Overdue rows become tombstones, within the bounds. |
| Commands.Store.Judge | src/ai_employee/command_diagnostics.py:166-261 | The early returns, the merge, the size test and the fallback without texts decide exactly what the rules say. |
| Commands.Store.Record | src/ai_employee/command_diagnostics.py:155-266 | The rows become what the rules say, within the bounds; what was gone or complete stays so. |
| Commands.Store.Purge | src/ai_employee/command_diagnostics.py:329-339 | Every row becomes a tombstone, the count is of the rows that were kept, and nothing is recorded afterwards. |
| Commands.Serve | src/ai_employee/command_diagnostics.py:155-339 | Any order of deliveries, duplicates, readings and purges keeps the bounds and revives or rewrites nothing. |

## Left out

- Foreign effects: Docker, subprocesses, signals, the gateway, the owner watch and the seccomp guard; only the ledger states and an abstract daemon remain.
- SQLite, file locks and fsync as mechanisms: transactions are atomic and one controller runs per Run.
- SHA-256, JSON text and tar encoding: digests are injective, rows and members are typed; the byte limit on a whole archive is not modelled.
- Prompts, provider schemas, worker selection and escalation, review policies: a review is a nondeterministic verdict.
- Redaction, secret scanning, diagnostics, usage normalisation, CLI, Inspector and projections: they decide nothing.
- `source_fragments` and `resolve_source_refs`: the partition of an input text would only add easy members.
- The exceptions a worker thread can meet are over-approximated: a thread may abort or fail at any point where the source could raise.
- Budget reservations are proved on their own table; the controller's steps do not interleave with them. Leases are interleaved with the controllers in Fleets.
- Clock: the retry and wall models assume that time does not run backwards; WallClock's range result states it as a condition.
- Text sizes count one byte per character, and scope numbers are ASCII digits only.
- A tree does not change while it is captured; the source's change detection (`CANDIDATE_CHANGED_DURING_CAPTURE`) is not modelled, nor are hard links and permissions other than the executable bit.
- Parsing of ledger lines and the refusal of malformed, linked or oversized ledgers.
- `promoted` is not fenced against a concurrent stop and is not part of the controller's steps; a parallel Task may still append `accepted` after another Task's `uncertain`; the plan adopted after a direct fallback is checked as a planning plan. The model keeps all three as they are.
- Hosts.PatternInclusion: host names have no length limit here. With a limit the inclusion and overlap still follow from the texts, but a pattern whose name fills the limit stands for no host and then needs no match; the same holds for PatternOverlap and HostsWithinMeaning.
- Fleets.Fleet.Begin: authorities are valid ones, as their own validator guarantees.
- Proof.AcceptanceIsProven: criteria of one Task have distinct IDs, as the Task's own validator guarantees (`models.py:408-413`).
- History.Journal.Reserve: one clock reading per transaction, where the source reads the clock more than once.
- History.Journal.Settle: a settlement may exceed its reservation, so charges are bounded only up to the overruns; the source promises no more.
- Tables.PrefixVerifies: the chain alone does not detect the removal of a tail, and the model shows that it does not.
- Engine.Controller.RetryCall: keeps the position only; the bound on retries and their waits are proved in Retry.
- Retry.Caller.Generate: events of other contracts and the `stopped` entry of a rejected usage-limit report are not part of it.
