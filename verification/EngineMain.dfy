/** The steps of the controller thread, between batches and at their joins. */
module EngineMain {
  import opened Models
  import opened PlanGraph
  import opened StageContract
  import opened Evidence
  import opened RunLog
  import opened Replay
  import opened EngineInvariant
  import opened EngineSteps
  import opened EngineMoves

  // ---- direct execution ----

  lemma {:induction false} DirectStartIsFirstPlan(run: Run, log: Log)
    requires HistoryOk(run, log)
    ensures |DirectStarts(log)| <= 1
    ensures DirectStarts(log) != [] ==>
              |DirectStarts(log)[0].plan.tasks| == 1
              && DirectStarts(log)[0].plan.tasks[0].id == DirectStarts(log)[0].plan.resultTask
              && (Plans(log) != [] ==> Plans(log)[0] == DirectStarts(log)[0].plan)
  {
    if log != [] {
      DirectStartIsFirstPlan(run, Init(log));
      PlansInit(log);
    }
  }

  lemma PlanInHistory(plans: seq<Plan>, p: Plan)
    requires p in plans && p.resultTask in Ids(p.tasks)
    ensures p.resultTask in History(plans)
  {
    var front, last := plans[..|plans| - 1], plans[|plans| - 1];
    assert plans == front + [last];
    if p != last {
      PlanInHistory(front, p);
    }
  }

  lemma RecoveryIsNotDirect(run: Run, p: Log, plan: Plan)
    requires HistoryOk(run, p) && Plans(p) != [] && DirectStarts(p) != []
    requires JustifiedPlan(run, p, plan, true)
    ensures plan != DirectStarts(p)[0].plan
  {
    DirectStartIsFirstPlan(run, p);
    EveryPlanIsWellFormed(run, p, Plans(p)[0]);
    PlanInHistory(Plans(p), Plans(p)[0]);
    AdoptedRecovery(run, p, plan);
  }

  lemma NoFallbackBefore(log: Log)
    requires log != [] && !HasFallback(log)
    ensures !HasFallback(Init(log)) && !Last(log).DirectFellBack?
  {
    assert log == Init(log) + [Last(log)];
  }

  lemma SecondPlanIsNotDirect(run: Run, log: Log)
    requires log != [] && HistoryOk(run, log) && Last(log).PlanAdopted? && Plans(Init(log)) != []
    requires !HasFallback(log) && DirectStarts(log) != []
    ensures LastPlan(log) != DirectStarts(log)[0].plan
  {
    NoFallbackBefore(log);
    RecoveryIsNotDirect(run, Init(log), Last(log).plan);
  }

  lemma {:induction false} DirectPlanIsOnlyPlan(run: Run, log: Log)
    requires HistoryOk(run, log) && Plans(log) != [] && DirectStarts(log) != [] && !HasFallback(log)
    requires LastPlan(log) == DirectStarts(log)[0].plan
    ensures |Plans(log)| == 1
  {
    NoFallbackBefore(log);
    if !Last(log).PlanAdopted? {
      assert !Last(log).DirectStarted?;
      DirectPlanIsOnlyPlan(run, Init(log));
    } else if Plans(Init(log)) != [] {
      SecondPlanIsNotDirect(run, log);
    }
  }

  /** While a direct Task is current, its plan is the only one there has been. */
  lemma DirectIsOnlyPlan(run: Run, log: Log, key: Key)
    requires HistoryOk(run, log) && DirectTask(log, key)
    ensures |Plans(log)| == 1 && LastPlan(log) == DirectStarts(log)[0].plan
  {
    DirectStartIsFirstPlan(run, log);
    DirectPlanIsOnlyPlan(run, log);
  }

  lemma NothingAcceptedWithoutPlan(run: Run, log: Log)
    requires HistoryOk(run, log) && Plans(log) == []
    ensures AcceptedMap(log) == map[]
  {
    forall k | k in AcceptedMap(log) ensures false {
      AcceptedDefinition(run, log, k);
    }
  }

  lemma {:induction false} NothingAcceptedWhileStale(run: Run, log: Log)
    requires HistoryOk(run, log) && StaleDirect(log)
    ensures AcceptedMap(log) == map[]
  {
    var p := Init(log);
    assert log == p + [Last(log)];
    PlansInit(log);
    if !Last(log).DirectFellBack? && !Last(log).PlanAdopted? {
      NothingAcceptedWhileStale(run, p);
    }
  }

  // ---- steps of the controller thread while no batch runs ----

  /** Attempts that wait for an approval decision. */
  function Pending(log: Log): set<Key> {
    if log == [] then {}
    else match Last(log)
      case ApprovalWait(a, _) => Pending(Init(log)) + {a}
      case AuthorityApplied(a, _, _) => Pending(Init(log)) - {a}
      case AuthorityRejected(a) => Pending(Init(log)) - {a}
      case _ => Pending(Init(log))
  }

  /** A question has been asked and not answered since. */
  predicate ClarificationPending(log: Log) {
    log != [] && (Last(log).ClarificationWait? || (!Last(log).ClarificationAnswer? && ClarificationPending(Init(log))))
  }

  /** What `answer` accepts: of questions, answers and Goals the latest is a question. */
  predicate AwaitsAnswer(log: Log) {
    log != [] && (Last(log).ClarificationWait?
                  || (!Last(log).ClarificationAnswer? && !Last(log).GoalSet? && AwaitsAnswer(Init(log))))
  }

  /** `_execute` returns, raises or waits before doing anything. */
  predicate Blocked(log: Log) {
    Fenced(log) || HasCompleted(log) || Pending(log) != {} || ClarificationPending(log) || Uncertain in log
  }

  /** The only thread appends an event and moves on. */
  lemma SoloStep(run: Run, log: Log, main: Main, e: Event, main': Main)
    requires Inv(run, log, main, map[]) && Justified(run, log, e) && Whole(log + [e])
    requires !main'.Idle? && !main'.Head? && !main'.Draining? ==> PlanInForce(log + [e])
    requires MainOk(run, log + [e], main', map[])
    ensures Inv(run, log + [e], main', map[])
  {
    Appended(log, e);
  }

  lemma HeadStep(run: Run, log: Log, main: Main, e: Event)
    requires Inv(run, log, main, map[]) && Justified(run, log, e) && Whole(log + [e])
    requires Uncertain !in log && !HasCompleted(log) && !e.Uncertain? && !e.Completed?
    ensures Inv(run, log + [e], Head, map[])
  {
    assert !HasCompleted(log + [e]);
    SoloStep(run, log, main, e, Head);
  }

  lemma DirectPlanIsWellFormed(g: Goal, description: string)
    ensures WellFormed(DirectPlan(g, description))
  {
    var plan := DirectPlan(g, description);
    assert Ids(plan.tasks) == {"direct"};
    assert RankedBy(plan.tasks, map["direct" := 0]);
    ResultContributes(plan);
  }

  lemma DirectPlanAllowed(run: Run, g: Goal, description: string)
    requires var t := DirectPlan(g, description).tasks[0];
             TaskSupported(t, run.config) && ChecksDeclared(t.criteria, run.config)
    requires !HasExternalCriterion(g.criteria)
    ensures PlanAllowed(BindPlanning(g), run.config, DirectPlan(g, description))
  {
    var plan := DirectPlan(g, description);
    TaskMapLookup(plan.tasks, plan.tasks[0]);
  }

  /** Policy, authority and evidence suit a direct plan. */
  predicate DirectSuits(run: Run, g: Goal) {
    && run.config.directExecution && !run.config.planningReview && !run.config.workerOptions
    && run.config.ceiling == NO_AUTHORITY
    && !HasExternalCriterion(g.criteria) && ProvingChecks(run.config) == {}
  }

  datatype DirectOutcome = Begun | Unsuitable | NotReady | Undeclared

  /** `_start_direct`: an unsuitable Run goes on to planning; a Task that is not ready stops the Run,
      undeclared checks fail it. */
  function DirectOutcomeOf(run: Run, g: Goal, description: string): DirectOutcome {
    if !DirectSuits(run, g) then Unsuitable
    else if !TaskSupported(DirectPlan(g, description).tasks[0], run.config) then NotReady
    else if !ChecksDeclared(g.criteria, run.config) then Undeclared
    else Begun
  }

  predicate DirectAllowed(run: Run, g: Goal, description: string) {
    DirectOutcomeOf(run, g, description).Begun?
  }

  lemma DirectEventsJustified(run: Run, log: Log, g: Goal, description: string)
    requires HistoryOk(run, log) && !Fenced(log) && !HasCompleted(log)
    requires GoalOf(log) == Some(g) && Plans(log) == [] && DirectStarts(log) == []
    requires DirectAllowed(run, g, description)
    ensures var plan := DirectPlan(g, description);
            && Justified(run, log, DirectStarted(plan, g))
            && Justified(run, log + [DirectStarted(plan, g)], PlanAdopted(plan, false))
  {
    var plan := DirectPlan(g, description);
    Appended(log, DirectStarted(plan, g));
    assert JustifiedDirect(run, log, plan, g);
    NothingAcceptedWithoutPlan(run, log);
    DirectPlanIsWellFormed(g, description);
    DirectPlanAllowed(run, g, description);
    assert !HasCompleted(log + [DirectStarted(plan, g)]);
  }

  lemma DirectStep(run: Run, log: Log, plan: Plan, g: Goal)
    requires Inv(run, log, Head, map[]) 
    requires Justified(run, log, DirectStarted(plan, g))
    requires Justified(run, log + [DirectStarted(plan, g)], PlanAdopted(plan, false))
    ensures Inv(run, log + [DirectStarted(plan, g)] + [PlanAdopted(plan, false)], Head, map[])
  {
    var l1 := log + [DirectStarted(plan, g)];
    Appended(log, DirectStarted(plan, g));
    Appended(l1, PlanAdopted(plan, false));
    assert !HasCompleted(l1 + [PlanAdopted(plan, false)]);
  }

  lemma HeadFacts(run: Run, log: Log)
    requires Inv(run, log, Head, map[]) && Plans(log) == []
    ensures HistoryOk(run, log) && !HasCompleted(log) && DirectStarts(log) == []
  {
  }

  lemma HeadHasNoThreads(run: Run, log: Log, pool: map<Key, Worker>)
    requires Inv(run, log, Head, pool)
    ensures pool == map[]
  {
  }

  lemma TwoAppends(log: Log, first: Event, second: Event)
    ensures log + [first] + [second] == log + [first, second]
  {
  }

  lemma DirectAdopted(run: Run, log: Log, g: Goal, description: string)
    requires Inv(run, log, Head, map[]) && !Fenced(log) && GoalOf(log) == Some(g) && Plans(log) == []
    requires DirectAllowed(run, g, description)
    ensures var plan := DirectPlan(g, description);
            Inv(run, log + [DirectStarted(plan, g), PlanAdopted(plan, false)], Head, map[])
  {
    hide Inv, HistoryOk, Justified, DirectPlan, DirectAllowed;
    HeadFacts(run, log);
    DirectEventsJustified(run, log, g, description);
    var plan := DirectPlan(g, description);
    DirectStep(run, log, plan, g);
    TwoAppends(log, DirectStarted(plan, g), PlanAdopted(plan, false));
  }

  lemma PlanningJustified(run: Run, log: Log, plan: Plan)
    requires HistoryOk(run, log) && !Fenced(log) && !HasCompleted(log) && GoalOf(log).Some?
    requires (Plans(log) == [] && DirectStarts(log) == []) || StaleDirect(log)
    requires WellFormed(plan) && PlanAllowed(BindPlanning(GoalOf(log).value), run.config, plan)
    ensures Justified(run, log, PlanAdopted(plan, false))
  {
    if Plans(log) == [] {
      NothingAcceptedWithoutPlan(run, log);
    } else {
      NothingAcceptedWhileStale(run, log);
    }
  }

  lemma AdoptionIsWhole(log: Log, plan: Plan, recovery: bool)
    ensures Whole(log + [PlanAdopted(plan, recovery)])
  {
    Appended(log, PlanAdopted(plan, recovery));
  }

  // ---- launching and joining a batch ----

  /** Where the threads of a new batch start. */
  function Launched(accepted: map<Key, Candidate>, tasks: map<Key, Task>, batch: set<Key>): map<Key, Worker>
    requires batch <= tasks.Keys
    requires forall k :: k in batch ==> Upstream(accepted, tasks[k].dependencies).Some?
  {
    map k | k in batch :: Starting(Upstream(accepted, tasks[k].dependencies).value)
  }

  lemma ReadyHasUpstream(accepted: map<Key, Candidate>, tasks: map<Key, Task>, pending: set<Key>)
    requires pending <= tasks.Keys
    ensures forall k :: k in ReadyTasks(tasks, pending, accepted.Keys) ==>
              Upstream(accepted, tasks[k].dependencies).Some?
  {
    forall k, d | k in ReadyTasks(tasks, pending, accepted.Keys) && d in tasks[k].dependencies ensures d in accepted {
      assert d in Parents(tasks[k]);
    }
  }

  /** A batch of ready Tasks, as large as the cap allows, each with all of its upstream Candidates. */
  predicate BatchOk(plan: Plan, accepted: map<Key, Candidate>, concurrency: nat, batch: set<Key>) {
    var tasks := TaskMap(plan.tasks);
    var ready := ReadyTasks(tasks, tasks.Keys - accepted.Keys, accepted.Keys);
    && batch <= ready
    && |batch| == (if |ready| < concurrency then |ready| else concurrency)
    && forall k | k in batch :: Upstream(accepted, tasks[k].dependencies).Some?
  }

  lemma SchedulingFacts(run: Run, log: Log, accepted: map<Key, Candidate>, pool: map<Key, Worker>)
    requires Inv(run, log, Scheduling(accepted), pool)
    ensures pool == map[] && Plans(log) != [] && WellFormed(LastPlan(log))
    ensures accepted.Keys <= Ids(LastPlan(log).tasks)
  {
    EveryPlanIsWellFormed(run, log, LastPlan(log));
  }

  lemma LaunchOk(run: Run, log: Log, accepted: map<Key, Candidate>, concurrency: nat, batch: set<Key>)
    requires Inv(run, log, Scheduling(accepted), map[])
    requires Plans(log) != [] && BatchOk(LastPlan(log), accepted, concurrency, batch)
    ensures batch <= TaskMap(LastPlan(log).tasks).Keys
    ensures Inv(run, log, Joining(accepted, false), Launched(accepted, TaskMap(LastPlan(log).tasks), batch))
  {
    var tasks := TaskMap(LastPlan(log).tasks);
    var pool := Launched(accepted, tasks, batch);
    forall k | k in pool ensures WorkerOk(run, log, k, pool[k]) {
      UpstreamGrows(accepted, AcceptedMap(log), tasks[k].dependencies);
    }
  }

  lemma CollectOne(log: Log, accepted: map<Key, Candidate>, pool: map<Key, Worker>, k: Key)
    requires Plans(log) != [] && Collected(log, accepted, pool) && k in pool && pool[k].Finished?
    requires k in AcceptedIn(log, LastPlan(log)) && AcceptedIn(log, LastPlan(log))[k] == pool[k].candidate
    ensures Collected(log, accepted[k := pool[k].candidate], pool - {k})
  {
  }

  lemma AbortedRemains(pool: map<Key, Worker>, k: Key)
    requires SomeAborted(pool) && k in pool && !pool[k].Aborted?
    ensures SomeAborted(pool - {k})
  {
    var j :| j in pool && pool[j].Aborted?;
    assert j in pool - {k} && (pool - {k})[j].Aborted?;
  }

  lemma CollectFinished(run: Run, log: Log, main: Main, pool: map<Key, Worker>, k: Key)
    requires Inv(run, log, main, pool) && main.Joining? && k in pool && pool[k].Finished?
    ensures Inv(run, log, Joining(main.accepted[k := pool[k].candidate], main.failed), pool - {k})
  {
    assert WorkerOk(run, log, k, pool[k]);
    CollectOne(log, main.accepted, pool, k);
    if Uncertain in log {
      AbortedRemains(pool, k);
    }
  }

  lemma OthersKept(run: Run, log: Log, pool: map<Key, Worker>, e: Event)
    requires PoolOk(run, log, pool) && !IsGlobal(e) && !e.AttemptStarted? && !e.Accepted? && AttemptOf(e).None?
    ensures PoolOk(run, log + [e], pool)
  {
    forall j | j in pool ensures WorkerOk(run, log + [e], j, pool[j]) {
      WorkerFrame(run, log, e, j, pool[j]);
    }
  }

  lemma CollectedKept(log: Log, accepted: map<Key, Candidate>, pool: map<Key, Worker>, e: Event)
    requires Plans(log) != [] && Collected(log, accepted, pool) && !IsGlobal(e) && !e.Accepted?
    ensures Plans(log + [e]) != [] && Collected(log + [e], accepted, pool)
  {
    LocalEventKeeps(log, e);
    AcceptedInStep(log, e);
  }

  lemma CollectFailed(run: Run, log: Log, main: Main, pool: map<Key, Worker>, k: Key)
    requires Inv(run, log, main, pool) && main.Joining? && k in pool && pool[k].Failing?
    ensures Inv(run, log + [TaskFailed(k)], Joining(main.accepted, true), pool - {k})
  {
    var e, rest := TaskFailed(k), pool - {k};
    FailureIsKnown(run, log, pool, k);
    OthersKept(run, log, rest, e);
    JoiningWithout(run, log, main, pool, k);
    AfterFailure(run, log, main.accepted, rest, k);
  }

  lemma FailureIsKnown(run: Run, log: Log, pool: map<Key, Worker>, k: Key)
    requires PoolOk(run, log, pool) && k in pool
    ensures Justified(run, log, TaskFailed(k))
  {
    assert WorkerOk(run, log, k, pool[k]);
  }

  lemma JoiningWithout(run: Run, log: Log, main: Main, pool: map<Key, Worker>, k: Key)
    requires PlanInForce(log) && MainOk(run, log, main, pool) && main.Joining? && k in pool && pool[k].Failing?
    ensures Collected(log, main.accepted, pool - {k})
    ensures Uncertain in log ==> SomeAborted(pool - {k})
  {
    if Uncertain in log {
      AbortedRemains(pool, k);
    }
  }

  lemma AfterFailure(run: Run, log: Log, accepted: map<Key, Candidate>, rest: map<Key, Worker>, k: Key)
    requires HistoryOk(run, log) && Whole(log) && PlanInForce(log) && Justified(run, log, TaskFailed(k))
    requires PoolOk(run, log + [TaskFailed(k)], rest)
    requires Collected(log, accepted, rest) && (Uncertain in log ==> SomeAborted(rest))
    ensures Inv(run, log + [TaskFailed(k)], Joining(accepted, true), rest)
  {
    var e := TaskFailed(k);
    Appended(log, e);
    LocalEventKeeps(log, e);
    CollectedKept(log, accepted, rest, e);
  }

  lemma DirectHistory(run: Run, log: Log, k: Key)
    requires HistoryOk(run, log) && DirectTask(log, k)
    ensures |Plans(log)| == 1 && Ids(LastPlan(log).tasks) == {k}
  {
    DirectIsOnlyPlan(run, log, k);
    DirectStartIsFirstPlan(run, log);
    var plan := LastPlan(log);
    assert plan.tasks == [plan.tasks[0]];
  }

  lemma HistoryOfOnePlan(log: Log)
    requires |Plans(log)| == 1
    ensures History(Plans(log)).Keys == Ids(LastPlan(log).tasks)
  {
    assert Plans(log)[..0] == [];
  }

  /** While a direct Task is current and not accepted, nothing is. */
  lemma DirectNothingAccepted(run: Run, log: Log, k: Key)
    requires HistoryOk(run, log) && DirectTask(log, k) && k !in AcceptedMap(log)
    ensures AcceptedMap(log) == map[]
  {
    DirectHistory(run, log, k);
    HistoryOfOnePlan(log);
    forall j | j in AcceptedMap(log) ensures j in History(Plans(log)).Keys {
      AcceptedDefinition(run, log, j);
    }
  }

  lemma DirectPoolIsAlone(run: Run, log: Log, pool: map<Key, Worker>, k: Key)
    requires HistoryOk(run, log) && PoolOk(run, log, pool) && k in pool && pool[k].Falling?
    ensures pool.Keys == {k} && |Plans(log)| == 1 && AcceptedMap(log) == map[]
  {
    assert WorkerOk(run, log, k, pool[k]);
    DirectHistory(run, log, k);
    DirectNothingAccepted(run, log, k);
    forall j | j in pool ensures j == k {
      assert WorkerOk(run, log, j, pool[j]);
    }
  }

  lemma CollectFalling(run: Run, log: Log, main: Main, pool: map<Key, Worker>, k: Key)
    requires Inv(run, log, main, pool) && main.Joining? && k in pool && pool[k].Falling? && !Fenced(log)
    ensures pool.Keys == {k} && GoalOf(log).Some? && Uncertain !in log
    ensures Inv(run, log + [DirectFellBack(GoalOf(log).value)], Head, map[])
  {
    DirectPoolIsAlone(run, log, pool, k);
    assert WorkerOk(run, log, k, pool[k]);
    var e := DirectFellBack(GoalOf(log).value);
    Appended(log, e);
    assert JustifiedFallback(log, GoalOf(log).value);
    assert !HasCompleted(log + [e]);
  }

  /** After any other outcome of a thread the batch is only drained. */
  lemma DrainingStep(run: Run, log: Log, main: Main, pool: map<Key, Worker>, k: Key)
    requires Inv(run, log, main, pool)
    ensures Inv(run, log, Draining, pool - {k})
  {
  }

  // ---- recovery ----

  /** The plan is within the replan limit, well formed and within every recovery constraint. */
  ghost predicate RecoveryAllowed(run: Run, log: Log, accepted: map<Key, Candidate>, plan: Plan)
    requires GoalOf(log).Some? && Plans(log) != []
  {
    && |Plans(log)| - 1 < run.config.replans && WellFormed(plan)
    && PlanAllowed(BindRecovery(GoalOf(log).value, Plans(log), FailedTasks(log) - accepted.Keys, run.config),
                   run.config, plan)
  }

  lemma RecoveryJustified(run: Run, log: Log, accepted: map<Key, Candidate>, plan: Plan)
    requires PlanInForce(log) && !Fenced(log) && accepted == AcceptedIn(log, LastPlan(log))
    requires RecoveryAllowed(run, log, accepted, plan)
    ensures Justified(run, log, PlanAdopted(plan, true))
  {
    assert RecoveryBinding(run, log, GoalOf(log).value)
        == BindRecovery(GoalOf(log).value, Plans(log), FailedTasks(log) - accepted.Keys, run.config);
  }

  lemma RecoveringFacts(run: Run, log: Log, accepted: map<Key, Candidate>)
    requires Inv(run, log, Recovering(accepted), map[])
    ensures PlanInForce(log) && accepted == AcceptedIn(log, LastPlan(log))
    ensures Uncertain !in log && !HasCompleted(log) && GoalOf(log).Some? && Plans(log) != []
  {
  }

  lemma RecoveryStep(run: Run, log: Log, accepted: map<Key, Candidate>, plan: Plan)
    requires Inv(run, log, Recovering(accepted), map[]) && !Fenced(log)
    requires GoalOf(log).Some? && Plans(log) != [] && RecoveryAllowed(run, log, accepted, plan)
    ensures Inv(run, log + [PlanAdopted(plan, true)], Head, map[])
  {
    hide Inv, Justified, RecoveryAllowed, HistoryOk, PlanInForce;
    RecoveringFacts(run, log, accepted);
    RecoveryJustified(run, log, accepted, plan);
    AdoptionIsWhole(log, plan, true);
    HeadStep(run, log, Recovering(accepted), PlanAdopted(plan, true));
  }

  lemma LeaveStep(run: Run, log: Log, main: Main, pool: map<Key, Worker>)
    requires Inv(run, log, main, pool)
    ensures Inv(run, log, Idle, map[])
  {
  }

  // ---- deciding the Goal ----

  /** The record `_verify` appends for the Goal. */
  function GoalRecord(run: Run, log: Log, goal: Goal, final: Candidate, receipts: seq<Receipt>,
                      reviewed: bool, findings: seq<Finding>): Record {
    var comparison := ComparisonFor(run.initial, goal, None, final);
    var passed := reviewed
      && Decision(goal.criteria, findings, receipts, SupportingReceipts(log, None), comparison,
                  NeedsExternal(log, goal, None, final));
    Record(final, true, passed, findings, comparison, None, None)
  }

  /** The record appended instead when the Task's verification already covers the Goal. */
  function ReusedRecord(run: Run, goal: Goal, r: Record): Record {
    Record(r.candidate, true, true, r.findings, ComparisonFor(run.initial, goal, None, r.candidate), None, Some(r))
  }

  lemma GoalRecordStep(run: Run, log: Log, main: Main, r: Record)
    requires Inv(run, log, main, map[]) && main.Finishing? && !Fenced(log)
    requires r.goalLevel && r.candidate == main.final && JustifiedGoalRecord(run, log, r)
    ensures Inv(run, log + [Verified(r)], if r.passed then Attested(main.final) else Unproven(main.final), map[])
  {
    var e := Verified(r);
    LocalEventKeeps(log, e);
    AcceptedStep(log, e);
    Appended(log, e);
  }

  lemma GoalRecordJustified(run: Run, log: Log, main: Main, reviewed: bool, findings: seq<Finding>)
    requires Inv(run, log, main, map[]) && main.Finishing?
    requires |main.receipts| == |RequiredChecks(run.config.checks, CheckIds(GoalOf(log).value, None))|
    ensures JustifiedGoalRecord(run, log,
              GoalRecord(run, log, GoalOf(log).value, main.final, main.receipts, reviewed, findings))
  {
    var goal := GoalOf(log).value;
    var required := RequiredChecks(run.config.checks, CheckIds(goal, None));
    assert required[..|main.receipts|] == required;
    assert DecidedOn(run, log, goal, None, GoalRecord(run, log, goal, main.final, main.receipts, reviewed, findings),
                     main.receipts);
  }

  lemma ReuseJustified(run: Run, log: Log, main: Main)
    requires Inv(run, log, main, map[]) && main.Finishing?
    requires JointRecord(run, log, GoalOf(log).value, main.final.task, main.final).Some?
    ensures var r := JointRecord(run, log, GoalOf(log).value, main.final.task, main.final).value;
            r.candidate == main.final && JustifiedGoalRecord(run, log, ReusedRecord(run, GoalOf(log).value, r))
  {
  }

  lemma GoalCheckStep(run: Run, log: Log, main: Main, q: Receipt)
    requires Inv(run, log, main, map[]) && main.Finishing?
    requires NextReceipt(run, GoalOf(log).value, None, main.final, main.receipts, q)
    ensures Inv(run, log + [CheckResult(q)], Finishing(main.final, main.receipts + [q]), map[])
  {
    hide HistoryOk;
    var e := CheckResult(q);
    GatherMore(run, log, GoalOf(log).value, None, main.final, main.receipts, q);
    LocalEventKeeps(log, e);
    AcceptedStep(log, e);
    Appended(log, e);
    HistoryStep(run, log, e);
  }

  lemma CompleteStep(run: Run, log: Log, final: Candidate)
    requires Inv(run, log, Attested(final), map[]) && !Fenced(log)
    ensures GoalOf(log).Some? && Inv(run, log + [Completed(final, GoalOf(log).value)], Idle, map[])
  {
    CompletionJustified(run, log, final);
    AfterCompletion(run, log, Completed(final, GoalOf(log).value));
  }

  lemma CompletionJustified(run: Run, log: Log, final: Candidate)
    requires Inv(run, log, Attested(final), map[]) && !Fenced(log)
    ensures GoalOf(log).Some? && Justified(run, log, Completed(final, GoalOf(log).value))
  {
    assert JustifiedCompletion(log, final, GoalOf(log).value);
  }

  lemma AfterCompletion(run: Run, log: Log, e: Event)
    requires HistoryOk(run, log) && Whole(log) && Justified(run, log, e) && e.Completed?
    ensures Inv(run, log + [e], Idle, map[])
  {
    Appended(log, e);
  }

  /** Events that leave every position as it is. */
  predicate IsOutside(e: Event) {
    e.Stopped? || e.AuthorityRejected? || e.ClarificationWait? || e.ClarificationAnswer? || e.GoalRejected?
  }

  lemma OutsideEvent(run: Run, log: Log, main: Main, pool: map<Key, Worker>, e: Event)
    requires Inv(run, log, main, pool) && IsOutside(e) && Justified(run, log, e)
    ensures Inv(run, log + [e], main, pool)
  {
    Appended(log, e);
    LocalEventKeeps(log, e);
    AcceptedStep(log, e);
    OthersKept(run, log, pool, e);
    OutsideMain(run, log, main, pool, e);
  }

  lemma OutsideMain(run: Run, log: Log, main: Main, pool: map<Key, Worker>, e: Event)
    requires Inv(run, log, main, pool) && IsOutside(e)
    requires !main.Idle? && !main.Head? && !main.Draining? ==> PlanInForce(log + [e])
    ensures MainOk(run, log + [e], main, pool)
  {
    LocalEventKeeps(log, e);
    AcceptedStep(log, e);
    match main
    case Joining(accepted, _) => CollectedKept(log, accepted, pool, e);
    case Finishing(final, receipts) => GatheredKept(run, log, e, GoalOf(log).value, None, final, receipts);
    case Attested(final) =>
      Appended(log, e);
      LastRecordInit(log + [e], final, true);
    case _ =>
  }

  lemma PendingIsNotEmpty(accepted: map<Key, Candidate>, tasks: map<Key, Task>)
    requires accepted.Keys <= tasks.Keys && accepted.Keys != tasks.Keys
    ensures tasks.Keys - accepted.Keys != {}
  {
    assert !(tasks.Keys <= accepted.Keys);
    var k :| k in tasks.Keys && k !in accepted.Keys;
    assert k in tasks.Keys - accepted.Keys;
  }

  /** A rejected Goal: the position after the event is the one the plan's authority calls for. */
  lemma RejectionStep(run: Run, log: Log, final: Candidate)
    requires Inv(run, log, Unproven(final), map[])
    ensures Plans(log) != []
    ensures Inv(run, log + [GoalRejected(final)], Doubting(final), map[])
    ensures Inv(run, log + [GoalRejected(final)], Recovering(AcceptedIn(log, LastPlan(log))), map[])
  {
    var e := GoalRejected(final);
    OutsideEvent(run, log, Unproven(final), map[], e);
    LocalEventKeeps(log, e);
    AcceptedStep(log, e);
  }

  lemma UnprovenFacts(run: Run, log: Log, main: Main, pool: map<Key, Worker>)
    requires Inv(run, log, main, pool) && main.Unproven?
    ensures pool == map[] && Plans(log) != []
  {
  }

  lemma DoubtStep(run: Run, log: Log, final: Candidate)
    requires Inv(run, log, Doubting(final), map[])
    ensures Inv(run, log + [Uncertain], Idle, map[])
  {
    Appended(log, Uncertain);
    LocalEventKeeps(log, Uncertain);
  }

  /** A direct Task is attempted at most once while it is direct. */
  lemma NoAttemptWithoutPlan(run: Run, log: Log, task: Task)
    requires HistoryOk(run, log) && Plans(log) == []
    ensures Attempts(log, task) == []
  {
    if log != [] {
      PlansInit(log);
      NoAttemptWithoutPlan(run, Init(log), task);
    }
  }

  lemma {:induction false} DirectAttemptedOnce(run: Run, log: Log, task: Task)
    requires HistoryOk(run, log) && DirectTask(log, task.id)
    ensures |Attempts(log, task)| <= 1
  {
    DirectIsOnlyPlan(run, log, task.id);
    PlansInit(log);
    if Last(log).PlanAdopted? {
      NoAttemptWithoutPlan(run, Init(log), task);
    } else {
      DirectBefore(run, log, task.id);
      DirectAttemptedOnce(run, Init(log), task);
    }
  }

  /** No event but the adoption of its plan makes a Task direct. */
  lemma DirectBefore(run: Run, log: Log, key: Key)
    requires HistoryOk(run, log) && DirectTask(log, key) && !Last(log).PlanAdopted?
    ensures DirectTask(Init(log), key)
  {
    assert log == Init(log) + [Last(log)];
    PlansInit(log);
  }
}
