/** What every log the controller can have written satisfies, whenever and however often the
    controller was restarted: consequences of `HistoryOk` alone. */
module Replay {
  import opened Models
  import opened PlanGraph
  import opened StageContract
  import opened Evidence
  import opened RunLog

  // ---- facts that never change once they are on record ----

  ghost predicate Grows(a: map<Key, Candidate>, b: map<Key, Candidate>) {
    forall k :: k in a ==> k in b && b[k] == a[k]
  }

  lemma UpstreamGrows(a: map<Key, Candidate>, b: map<Key, Candidate>, dependencies: seq<Key>)
    requires Grows(a, b) && Upstream(a, dependencies).Some?
    ensures Upstream(b, dependencies) == Upstream(a, dependencies)
  {
    assert Upstream(a, dependencies).value == Upstream(b, dependencies).value;
  }

  /** One more event never changes the Goal nor a Candidate that is already accepted. */
  lemma StepKeeps(run: Run, log: Log)
    requires log != [] && HistoryOk(run, log)
    ensures GoalOf(Init(log)).Some? ==> GoalOf(log) == GoalOf(Init(log))
    ensures Grows(AcceptedMap(Init(log)), AcceptedMap(log))
  {
  }

  lemma {:induction false} GoalIsFixed(run: Run, log: Log, g: Goal)
    requires HistoryOk(run, log) && GoalSet(g) in log
    ensures GoalOf(log) == Some(g)
  {
    if Last(log) != GoalSet(g) {
      GoalIsFixed(run, Init(log), g);
      StepKeeps(run, log);
    }
  }

  lemma {:induction false} AttemptIsUnique(run: Run, log: Log, x: Context)
    requires HistoryOk(run, log) && AttemptStarted(x) in log
    ensures Contexts(log, x.attempt) == [x]
    ensures forall e :: e in log && e.AttemptStarted? && e.context.attempt == x.attempt ==> e.context == x
  {
    var p := Init(log);
    if Last(log) == AttemptStarted(x) {
      NoContexts(p, x.attempt);
    } else {
      AttemptIsUnique(run, p, x);
    }
  }

  lemma {:induction false} NoContexts(log: Log, attempt: Key)
    requires forall e :: e in log && e.AttemptStarted? ==> e.context.attempt != attempt
    ensures Contexts(log, attempt) == []
  {
    if log != [] {
      NoContexts(Init(log), attempt);
    }
  }

  /** The Goal and the upstream Candidates of an attempt are those the log still shows. */
  lemma {:induction false} AttemptIsCurrent(run: Run, log: Log, x: Context)
    requires HistoryOk(run, log) && AttemptStarted(x) in log
    ensures GoalOf(log) == Some(x.goal)
    ensures Upstream(AcceptedMap(log), x.task.dependencies) == Some(x.upstream)
  {
    StepKeeps(run, log);
    if Last(log) != AttemptStarted(x) {
      AttemptIsCurrent(run, Init(log), x);
      UpstreamGrows(AcceptedMap(Init(log)), AcceptedMap(log), x.task.dependencies);
    }
  }

  // ---- Candidates ----

  lemma {:induction false} CandidateHasContext(run: Run, log: Log, c: Candidate) returns (x: Context)
    requires HistoryOk(run, log) && CandidateFrozen(c) in log
    ensures AttemptStarted(x) in log && Stems(x, c)
  {
    if Last(log) == CandidateFrozen(c) {
      x :| AttemptStarted(x) in Init(log) && Stems(x, c);
    } else {
      x := CandidateHasContext(run, Init(log), c);
    }
  }

  lemma {:induction false} OneCandidatePerAttempt(run: Run, log: Log, c: Candidate, d: Candidate)
    requires HistoryOk(run, log) && CandidateFrozen(c) in log && CandidateFrozen(d) in log
    requires c.attempt == d.attempt
    ensures c == d
  {
    var p := Init(log);
    if CandidateFrozen(c) in p && CandidateFrozen(d) in p {
      OneCandidatePerAttempt(run, p, c, d);
    }
  }

  ghost predicate IsTaskRecord(e: Event) {
    e.Verified? && !e.record.goalLevel
  }

  /** Each attempt is verified at Task level at most once, on the Candidate it froze. */
  lemma {:induction false} TaskRecordIsUnique(run: Run, log: Log, r: Record)
    requires HistoryOk(run, log) && Verified(r) in log && !r.goalLevel
    ensures CandidateFrozen(r.candidate) in log
    ensures forall e :: e in log && IsTaskRecord(e) && e.record.candidate.attempt == r.candidate.attempt ==>
              e.record == r
    ensures LastRecord(log, r.candidate, false) == Some(r)
  {
    var p := Init(log);
    if Last(log) == Verified(r) {
    } else {
      TaskRecordIsUnique(run, p, r);
      LastRecordInit(log, r.candidate, false);
    }
  }

  lemma LastRecordInit(log: Log, c: Candidate, goalLevel: bool)
    requires log != [] && !IsRecord(Last(log), c, goalLevel)
    ensures LastRecordEnd(log, c, goalLevel) == LastRecordEnd(Init(log), c, goalLevel)
    ensures LastRecord(log, c, goalLevel) == LastRecord(Init(log), c, goalLevel)
  {
  }

  /** A passing Task-level record carries the comparison that the Candidate still gives, and it matches. */
  lemma {:induction false} TaskRecordComparison(run: Run, log: Log, r: Record)
    requires HistoryOk(run, log) && Verified(r) in log && !r.goalLevel && GoalOf(log).Some?
    ensures r.comparison == ComparisonFor(run.initial, GoalOf(log).value, Some(r.candidate.task), r.candidate)
    ensures r.passed ==> Matching(r.comparison)
  {
    StepKeeps(run, log);
    if Last(log) == Verified(r) {
      assert JustifiedTaskRecord(run, Init(log), r);
    } else {
      RecordHasGoal(run, Init(log), r);
      TaskRecordComparison(run, Init(log), r);
    }
  }

  lemma {:induction false} RecordHasGoal(run: Run, log: Log, r: Record)
    requires HistoryOk(run, log) && Verified(r) in log
    ensures GoalOf(log).Some?
  {
    StepKeeps(run, log);
    if Last(log) != Verified(r) {
      RecordHasGoal(run, Init(log), r);
    }
  }

  // ---- accepted work ----

  /** Every acceptance on record is the one the log shows for its Task. */
  lemma {:induction false} AcceptanceIsFinal(run: Run, log: Log, key: Key, c: Candidate)
    requires HistoryOk(run, log) && Accepted(key, c) in log
    ensures key in AcceptedMap(log) && AcceptedMap(log)[key] == c
  {
    StepKeeps(run, log);
    if Last(log) != Accepted(key, c) {
      AcceptanceIsFinal(run, Init(log), key, c);
    }
  }

  lemma {:induction false} AcceptedIsVerified(run: Run, log: Log, key: Key)
    requires HistoryOk(run, log) && key in AcceptedMap(log)
    ensures AcceptedMap(log)[key].task.id == key
    ensures PassedTaskLevel(log, AcceptedMap(log)[key])
  {
    var p := Init(log);
    if Last(log).Accepted? && Last(log).key == key {
      assert JustifiedAcceptance(p, key, Last(log).candidate);
    } else {
      AcceptedIsVerified(run, p, key);
    }
  }

  lemma PlansInit(log: Log)
    requires log != []
    ensures !Last(log).PlanAdopted? ==> Plans(log) == Plans(Init(log))
    ensures Last(log).PlanAdopted? ==>
              Plans(log) == Plans(Init(log)) + [Last(log).plan]
              && History(Plans(log)) == History(Plans(Init(log))) + TaskMap(Last(log).plan.tasks)
  {
    if Last(log).PlanAdopted? {
      assert Plans(log)[..|Plans(log)| - 1] == Plans(Init(log));
    }
  }

  lemma {:induction false} EveryPlanIsWellFormed(run: Run, log: Log, plan: Plan)
    requires HistoryOk(run, log) && plan in Plans(log)
    ensures WellFormed(plan)
  {
    PlansInit(log);
    if plan in Plans(Init(log)) {
      EveryPlanIsWellFormed(run, Init(log), plan);
    }
  }

  /** A plan in force agrees with the history on all of its Tasks. */
  lemma LastPlanInHistory(log: Log, t: Task)
    requires Plans(log) != [] && UniqueIds(LastPlan(log).tasks) && t in LastPlan(log).tasks
    ensures t.id in History(Plans(log)) && History(Plans(log))[t.id] == t
  {
    TaskMapLookup(LastPlan(log).tasks, t);
  }

  /** On acceptance the definition is the planned one. */
  lemma AcceptedNow(run: Run, log: Log)
    requires HistoryOk(run, log) && log != [] && Last(log).Accepted?
    ensures var key := Last(log).key;
            && key in AcceptedMap(log) && key in History(Plans(log))
            && History(Plans(log))[key] == AcceptedMap(log)[key].task
  {
    LastJustified(run, log);
    hide HistoryOk;
    var p := Init(log);
    PlansInit(log);
    EveryPlanIsWellFormed(run, p, LastPlan(p));
    LastPlanInHistory(p, Last(log).candidate.task);
  }

  /** Any other event leaves an earlier acceptance and its definition as they are. */
  lemma DefinitionKept(run: Run, log: Log, key: Key)
    requires HistoryOk(run, log) && log != [] && key in AcceptedMap(Init(log))
    requires key in History(Plans(Init(log)))
    ensures key in AcceptedMap(log) && AcceptedMap(log)[key] == AcceptedMap(Init(log))[key]
    ensures key in History(Plans(log)) && History(Plans(log))[key] == History(Plans(Init(log)))[key]
  {
    PlansInit(log);
    StepKeeps(run, log);
    if Last(log).PlanAdopted? && key in Ids(Last(log).plan.tasks) {
      RecoveryKeepsDefinition(run, Init(log), Last(log).plan, Last(log).recovery, key);
    }
  }

  /** The definition an accepted Task was accepted under stays its historical definition. */
  lemma {:induction false} AcceptedDefinition(run: Run, log: Log, key: Key)
    requires HistoryOk(run, log) && key in AcceptedMap(log)
    ensures key in History(Plans(log)) && History(Plans(log))[key] == AcceptedMap(log)[key].task
  {
    if Last(log).Accepted? && Last(log).key == key {
      AcceptedNow(run, log);
    } else {
      AcceptedDefinition(run, Init(log), key);
      DefinitionKept(run, log, key);
    }
  }

  lemma RecoveryKeepsDefinition(run: Run, p: Log, plan: Plan, recovery: bool, key: Key)
    requires JustifiedPlan(run, p, plan, recovery) && key in AcceptedMap(p)
    requires key in History(Plans(p)) && key in Ids(plan.tasks)
    ensures TaskMap(plan.tasks)[key] == History(Plans(p))[key]
  {
    var t := TaskMap(plan.tasks)[key];
    assert recovery;
    assert TaskAllowed(RecoveryBinding(run, p, GoalOf(p).value), run.config, t);
  }

  // ---- lineage: `_accepted` never rejects a log the controller wrote ----

  lemma AcceptedOrigin(run: Run, log: Log, key: Key) returns (x: Context, r: Record)
    requires HistoryOk(run, log) && key in AcceptedMap(log)
    ensures var c := AcceptedMap(log)[key];
            && AttemptStarted(x) in log && Stems(x, c)
            && CandidateFrozen(c) in log
            && Verified(r) in log && IsRecord(Verified(r), c, false) && r.passed
  {
    var c := AcceptedMap(log)[key];
    AcceptedIsVerified(run, log, key);
    var e :| e in log && IsRecord(e, c, false) && e.record.passed;
    r := e.record;
    TaskRecordIsUnique(run, log, r);
    x := CandidateHasContext(run, log, c);
  }

  lemma AcceptedCandidateAttested(run: Run, log: Log, key: Key)
    requires HistoryOk(run, log) && key in AcceptedMap(log)
    ensures CandidateAttested(run, log, AcceptedMap(log)[key])
    ensures LineageCurrent(AcceptedMap(log), AcceptedMap(log)[key].task, AcceptedMap(log)[key])
  {
    var c := AcceptedMap(log)[key];
    var x, r := AcceptedOrigin(run, log, key);
    AttemptIsUnique(run, log, x);
    AttemptIsCurrent(run, log, x);
    AcceptedIsVerified(run, log, key);
    TaskRecordIsUnique(run, log, r);
    TaskRecordComparison(run, log, r);
  }

  lemma UpstreamWithin(log: Log, plan: Plan, t: Task)
    requires Parents(t) <= Ids(plan.tasks) && Upstream(AcceptedMap(log), t.dependencies).Some?
    ensures Upstream(AcceptedIn(log, plan), t.dependencies) == Upstream(AcceptedMap(log), t.dependencies)
  {
    assert forall d :: d in t.dependencies ==> d in Parents(t);
    UpstreamGrows(AcceptedIn(log, plan), AcceptedMap(log), t.dependencies);
  }

  /** The definition a plan in force gives an accepted Task is the one it was accepted under. */
  lemma PlanAgreesWithAcceptance(run: Run, log: Log, key: Key)
    requires HistoryOk(run, log) && Plans(log) != []
    requires key in AcceptedMap(log) && key in Ids(LastPlan(log).tasks)
    ensures TaskMap(LastPlan(log).tasks)[key] == AcceptedMap(log)[key].task
  {
    EveryPlanIsWellFormed(run, log, LastPlan(log));
    AcceptedDefinition(run, log, key);
    LastPlanInHistory(log, TaskMap(LastPlan(log).tasks)[key]);
  }

  /** In every log the controller can have written, with any number of restarts and recovery
      plans, rereading the accepted work succeeds: no foreign definition, no stale lineage, no
      unattested, unverified or mismatching Candidate. */
  lemma AcceptedNeverRejects(run: Run, log: Log)
    requires HistoryOk(run, log) && Plans(log) != []
    ensures AllAttested(run, log, LastPlan(log))
  {
    var plan := LastPlan(log);
    var accepted := AcceptedIn(log, plan);
    EveryPlanIsWellFormed(run, log, plan);
    forall e | e in log && e.Accepted? && e.key in Ids(plan.tasks)
      ensures e.candidate.task == TaskMap(plan.tasks)[e.key]
    {
      AcceptanceIsFinal(run, log, e.key, e.candidate);
      PlanAgreesWithAcceptance(run, log, e.key);
    }
    forall k | k in accepted
      ensures CandidateAttested(run, log, accepted[k])
      ensures LineageCurrent(accepted, TaskMap(plan.tasks)[k], accepted[k])
    {
      AcceptedCandidateAttested(run, log, k);
      PlanAgreesWithAcceptance(run, log, k);
      UpstreamWithin(log, plan, TaskMap(plan.tasks)[k]);
    }
  }

  // ---- recovery plans ----

  lemma HistoryOfLogIsClosed(run: Run, log: Log)
    requires HistoryOk(run, log)
    ensures HistoryClosed(History(Plans(log)))
  {
    forall p | p in Plans(log) ensures DependencyClosed(p.tasks) {
      EveryPlanIsWellFormed(run, log, p);
    }
    HistoryIsClosed(Plans(log));
  }

  lemma {:induction false} FailedAreHistorical(run: Run, log: Log)
    requires HistoryOk(run, log)
    ensures FailedTasks(log) <= History(Plans(log)).Keys
  {
    if log != [] {
      PlansInit(log);
      FailedAreHistorical(run, Init(log));
    }
  }

  /** An adopted recovery plan ends in a Task never planned before and keeps no failed Task. */
  lemma AdoptedRecovery(run: Run, log: Log, plan: Plan)
    requires HistoryOk(run, log) && Plans(log) != [] && JustifiedPlan(run, log, plan, true)
    ensures plan.resultTask !in History(Plans(log))
    ensures forall t :: t in plan.tasks ==> t.id in FailedTasks(log) ==> t.id in AcceptedIn(log, LastPlan(log))
  {
    var binding := RecoveryBinding(run, log, GoalOf(log).value);
    HistoryOfLogIsClosed(run, log);
    RecoveryResultIsNew(binding, run.config, plan);
    FailedAreHistorical(run, log);
    forall t | t in plan.tasks
      ensures t.id in FailedTasks(log) ==> t.id in AcceptedIn(log, LastPlan(log))
    {
      RecoveryDropsFailedTasks(binding, run.config, plan, t);
    }
  }

  /** While the result of the current plan is an accepted Candidate, no plan was adopted since. */
  lemma {:induction false} NoPlanSinceResult(run: Run, log: Log, n: nat)
    requires HistoryOk(run, log) && n <= |log| && Plans(log) != []
    requires LastPlan(log).resultTask in AcceptedMap(log[..n])
    ensures Plans(log) == Plans(log[..n])
    decreases |log|
  {
    if n == |log| {
      assert log[..n] == log;
    } else {
      var p := Init(log);
      assert p[..n] == log[..n];
      PlansInit(log);
      AcceptedGrowsFrom(run, p, n);
      if Last(log).PlanAdopted? {
        var key := LastPlan(log).resultTask;
        assert key in AcceptedMap(p);
        AcceptedDefinition(run, p, key);
        assert Plans(p) != [];
        AdoptedRecovery(run, p, Last(log).plan);
        assert false;
      } else {
        NoPlanSinceResult(run, p, n);
      }
    }
  }

  lemma {:induction false} AcceptedGrowsFrom(run: Run, log: Log, n: nat)
    requires HistoryOk(run, log) && n <= |log|
    ensures Grows(AcceptedMap(log[..n]), AcceptedMap(log))
    decreases |log|
  {
    if n == |log| {
      assert log[..n] == log;
    } else {
      assert Init(log)[..n] == log[..n];
      AcceptedGrowsFrom(run, Init(log), n);
      StepKeeps(run, log);
    }
  }
}
