/** Completion: what a finished Run is rechecked for, and when one verification may serve both a
    direct Task and its Goal. */
module Completion {
  import opened Models
  import opened Evidence
  import opened RunLog
  import opened Replay

  /** The latest `completed` event, which `_completion` starts from. */
  function LastCompletion(log: Log): Option<(Candidate, Goal)> {
    if log == [] then None
    else if Last(log).Completed? then Some((Last(log).candidate, Last(log).goal))
    else LastCompletion(Init(log))
  }

  /** A reused Goal record still points at the Task record it was taken from. */
  predicate ReuseStands(run: Run, log: Log, goal: Goal, task: Task, c: Candidate) {
    var r := LastRecord(log, c, true);
    r.Some? && (r.value.reusedFrom.Some? ==>
      && JointRecord(run, log, goal, task, c) == r.value.reusedFrom
      && r.value.reusedFrom.value.findings == r.value.findings)
  }

  /** The completed Candidate is the accepted result of the plan in force, for the Goal in force. */
  predicate ResultCurrent(log: Log, plan: Plan, goal: Goal, completed: (Candidate, Goal)) {
    && plan.resultTask in Ids(plan.tasks)
    && plan.resultTask in AcceptedIn(log, plan) && AcceptedIn(log, plan)[plan.resultTask] == completed.0
    && completed.1 == goal
  }

  /** The Goal-level evidence for the Candidate still holds. */
  predicate GoalAttested(run: Run, log: Log, goal: Goal, task: Task, c: Candidate) {
    && PassedGoalLevel(log, c)
    && ReuseStands(run, log, goal, task, c)
    && SavedComparisonOk(run, log, goal, None, c)
  }

  /** Everything `_completion` checks before it returns the final Candidate. */
  predicate CompletionOk(run: Run, log: Log) {
    && LastCompletion(log).Some? && GoalOf(log).Some? && Plans(log) != []
    && var completed, goal, plan := LastCompletion(log).value, GoalOf(log).value, LastPlan(log);
       && goal.original == run.original && goal.mandatoryChecks == run.config.mandatoryChecks
       && AllAttested(run, log, plan)
       && ResultCurrent(log, plan, goal, completed)
       && GoalAttested(run, log, goal, TaskMap(plan.tasks)[plan.resultTask], completed.0)
  }

  // ---- what stays as it is while an accepted result is in force ----

  lemma {:induction false} GoalProvenance(run: Run, log: Log)
    requires HistoryOk(run, log) && GoalOf(log).Some?
    ensures var g := GoalOf(log).value;
            g.original == run.original && g.mandatoryChecks == run.config.mandatoryChecks && UniqueCriteria(g.criteria)
  {
    if !Last(log).GoalSet? {
      GoalProvenance(run, Init(log));
    }
  }

  /** The latest record of an accepted Candidate at Task level never changes again. */
  lemma NoSecondTaskRecord(run: Run, log: Log, key: Key)
    requires log != [] && HistoryOk(run, log) && key in AcceptedMap(Init(log))
    ensures !IsRecord(Last(log), AcceptedMap(Init(log))[key], false)
  {
    var x, r := AcceptedOrigin(run, Init(log), key);
    assert IsTaskRecord(Verified(r));
  }

  /** Once work is accepted, neither a direct start nor a fallback can follow. */
  lemma DirectModeFixed(run: Run, log: Log, key: Key)
    requires log != [] && HistoryOk(run, log) && key in AcceptedMap(Init(log)) && Plans(Init(log)) != []
    ensures DirectStarts(log) == DirectStarts(Init(log))
    ensures HasFallback(log) == HasFallback(Init(log))
  {
    assert log == Init(log) + [Last(log)];
  }

  lemma JointEligibleInit(run: Run, log: Log, goal: Goal, task: Task, c: Candidate)
    requires log != [] && Plans(log) == Plans(Init(log))
    requires DirectStarts(log) == DirectStarts(Init(log)) && HasFallback(log) == HasFallback(Init(log))
    ensures JointEligible(run, log, goal, task, c) == JointEligible(run, Init(log), goal, task, c)
  {
    assert DirectTask(log, task.id) == DirectTask(Init(log), task.id);
  }

  lemma SavedComparisonInit(run: Run, log: Log, goal: Goal, task: Option<Task>, c: Candidate)
    requires log != [] && !IsRecord(Last(log), c, task.None?)
    ensures SavedComparisonOk(run, log, goal, task, c) == SavedComparisonOk(run, Init(log), goal, task, c)
  {
    LastRecordInit(log, c, task.None?);
  }

  lemma JointRecordInit(run: Run, log: Log, goal: Goal, task: Task, c: Candidate)
    requires log != [] && Plans(log) == Plans(Init(log))
    requires DirectStarts(log) == DirectStarts(Init(log)) && HasFallback(log) == HasFallback(Init(log))
    requires !IsRecord(Last(log), c, false)
    ensures JointRecord(run, log, goal, task, c) == JointRecord(run, Init(log), goal, task, c)
  {
    hide JointEligible, JointCovers, SavedComparisonOk;
    JointEligibleInit(run, log, goal, task, c);
    SavedComparisonInit(run, log, goal, Some(task), c);
    LastRecordInit(log, c, false);
    var n := LastRecordEnd(log, c, false);
    assert n > 0 ==> log[..n - 1] == Init(log)[..n - 1];
  }

  /** While a Candidate stays the result of the plan in force, its reusable record stays the same. */
  lemma {:induction false} JointRecordStable(run: Run, log: Log, n: nat, goal: Goal, task: Task, c: Candidate)
    requires HistoryOk(run, log) && n <= |log| && Plans(log) != []
    requires LastPlan(log).resultTask in AcceptedMap(log[..n]) && AcceptedMap(log[..n])[LastPlan(log).resultTask] == c
    ensures JointRecord(run, log, goal, task, c) == JointRecord(run, log[..n], goal, task, c)
    decreases |log|
  {
    if n == |log| {
      assert log[..n] == log;
    } else {
      var p, key := Init(log), LastPlan(log).resultTask;
      assert p[..n] == log[..n];
      NoPlanSinceResult(run, log, n);
      PlansBetween(log, n);
      AcceptedGrowsFrom(run, p, n);
      NoSecondTaskRecord(run, log, key);
      DirectModeFixed(run, log, key);
      JointRecordInit(run, log, goal, task, c);
      JointRecordStable(run, p, n, goal, task, c);
    }
  }

  lemma {:induction false} PlansPrefix(log: Log, n: nat)
    requires n <= |log|
    ensures |Plans(log[..n])| <= |Plans(log)|
    decreases |log|
  {
    if n == |log| {
      assert log[..n] == log;
    } else {
      assert Init(log)[..n] == log[..n];
      PlansPrefix(Init(log), n);
    }
  }

  lemma PlansBetween(log: Log, n: nat)
    requires n < |log| && Plans(log) == Plans(log[..n])
    ensures Plans(Init(log)) == Plans(log)
  {
    assert Init(log)[..n] == log[..n];
    PlansPrefix(Init(log), n);
  }

  // ---- Goal-level records ----

  lemma JointComparisonMatches(run: Run, log: Log, goal: Goal, task: Task, c: Candidate)
    requires JointRecord(run, log, goal, task, c).Some?
    ensures Matching(ComparisonFor(run.initial, goal, None, c))
  {
    assert StageContract.PreservedPaths(goal.criteria) == StageContract.PreservedPaths(task.criteria);
    ResultKeepsGoalInputs(run.initial, goal, task, c);
  }

  lemma {:induction false} GoalRecordComparison(run: Run, log: Log, r: Record)
    requires HistoryOk(run, log) && Verified(r) in log && r.goalLevel && GoalOf(log).Some?
    ensures r.comparison == ComparisonFor(run.initial, GoalOf(log).value, None, r.candidate)
    ensures r.passed ==> Matching(r.comparison)
  {
    StepKeeps(run, log);
    if Last(log) == Verified(r) {
      assert JustifiedGoalRecord(run, Init(log), r);
      if r.reusedFrom.Some? {
        JointComparisonMatches(run, Init(log), GoalOf(log).value, r.candidate.task, r.candidate);
      }
    } else {
      RecordHasGoal(run, Init(log), r);
      GoalRecordComparison(run, Init(log), r);
    }
  }

  /** The facts a completion leaves behind, whatever was appended after it. */
  ghost predicate Finished(log: Log, c: Candidate, g: Goal) {
    && LastCompletion(log) == Some((c, g)) && GoalOf(log) == Some(g) && Plans(log) != []
    && LastPlan(log).resultTask in AcceptedMap(log) && AcceptedMap(log)[LastPlan(log).resultTask] == c
    && LastRecord(log, c, true).Some? && LastRecord(log, c, true).value.passed
  }

  lemma {:induction false} CompletionIsFinal(run: Run, log: Log)
    requires HistoryOk(run, log) && HasCompleted(log)
    ensures LastCompletion(log).Some?
    ensures Finished(log, LastCompletion(log).value.0, LastCompletion(log).value.1)
  {
    var p := Init(log);
    assert log == p + [Last(log)];
    PlansInit(log);
    StepKeeps(run, log);
    if Last(log).Completed? {
      LastRecordInit(log, Last(log).candidate, true);
    } else {
      CompletionIsFinal(run, p);
      LastRecordInit(log, LastCompletion(p).value.0, true);
    }
  }

  lemma GoalRecordAt(run: Run, log: Log, n: nat)
    requires HistoryOk(run, log) && n < |log| && log[n].Verified? && log[n].record.goalLevel
    ensures JustifiedGoalRecord(run, log[..n], log[n].record)
  {
    HistoryPrefix(run, log, n);
  }

  /** What a reused Goal record was taken from is still what `_joint_record` returns. */
  lemma ReusedIsJoint(run: Run, log: Log, n: nat, c: Candidate, g: Goal)
    requires HistoryOk(run, log) && Finished(log, c, g)
    requires n < |log| && IsRecord(log[n], c, true) && log[n].record.reusedFrom.Some?
    ensures JointRecord(run, log, g, c.task, c) == log[n].record.reusedFrom
    ensures log[n].record.reusedFrom.value.findings == log[n].record.findings
  {
    GoalRecordAt(run, log, n);
    ResultOfRecord(run, log, n, c);
    GoalOfPrefix(run, log, n);
    JointRecordStable(run, log, n, g, c.task, c);
  }

  lemma ReuseStillStands(run: Run, log: Log, c: Candidate, g: Goal)
    requires HistoryOk(run, log) && Finished(log, c, g)
    ensures ReuseStands(run, log, g, c.task, c)
  {
    var n := LastRecordEnd(log, c, true);
    if log[n - 1].record.reusedFrom.Some? {
      ReusedIsJoint(run, log, n - 1, c, g);
    }
  }

  lemma {:induction false} GoalOfPrefix(run: Run, log: Log, n: nat)
    requires HistoryOk(run, log) && n <= |log| && GoalOf(log[..n]).Some?
    ensures GoalOf(log) == GoalOf(log[..n])
    decreases |log|
  {
    if n == |log| {
      assert log[..n] == log;
    } else {
      assert Init(log)[..n] == log[..n];
      GoalOfPrefix(run, Init(log), n);
      StepKeeps(run, log);
    }
  }

  /** The Candidate of a Goal record was already accepted, under its own Task ID, when recorded. */
  lemma ResultOfRecord(run: Run, log: Log, n: nat, c: Candidate)
    requires HistoryOk(run, log) && n < |log| && IsRecord(log[n], c, true)
    ensures c.task.id in AcceptedMap(log[..n]) && AcceptedMap(log[..n])[c.task.id] == c
    ensures (Plans(log) != [] && LastPlan(log).resultTask in AcceptedMap(log)
             && AcceptedMap(log)[LastPlan(log).resultTask] == c) ==> LastPlan(log).resultTask == c.task.id
  {
    HistoryPrefix(run, log, n);
    assert JustifiedGoalRecord(run, log[..n], log[n].record);
    AcceptedIsVerified(run, log[..n], LastPlan(log[..n]).resultTask);
    if Plans(log) != [] && LastPlan(log).resultTask in AcceptedMap(log) {
      AcceptedIsVerified(run, log, LastPlan(log).resultTask);
    }
  }

  lemma CompletionEvidence(run: Run, log: Log, c: Candidate, g: Goal)
    requires HistoryOk(run, log) && Finished(log, c, g)
    ensures GoalAttested(run, log, g, c.task, c)
  {
    ReuseStillStands(run, log, c, g);
    var n := LastRecordEnd(log, c, true);
    assert log[n - 1] in log;
    GoalRecordComparison(run, log, log[n - 1].record);
  }

  lemma CompletedResult(run: Run, log: Log, c: Candidate, g: Goal)
    requires HistoryOk(run, log) && Finished(log, c, g)
    ensures ResultCurrent(log, LastPlan(log), g, (c, g))
    ensures TaskMap(LastPlan(log).tasks)[LastPlan(log).resultTask] == c.task
  {
    EveryPlanIsWellFormed(run, log, LastPlan(log));
    PlanAgreesWithAcceptance(run, log, LastPlan(log).resultTask);
  }

  /** `_completion` never rejects a log in which the controller recorded a completion. */
  lemma CompletionNeverRejects(run: Run, log: Log)
    requires HistoryOk(run, log) && HasCompleted(log)
    ensures CompletionOk(run, log)
  {
    CompletionIsFinal(run, log);
    var (c, g) := LastCompletion(log).value;
    GoalProvenance(run, log);
    CompletedResult(run, log, c, g);
    CompletionEvidence(run, log, c, g);
    AcceptedNeverRejects(run, log);
  }
}
