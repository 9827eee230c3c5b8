/** Reusing a direct Task's verification for its Goal agrees with verifying the Goal in full. */
module Reuse {
  import opened Models
  import opened StageContract
  import opened Evidence
  import opened RunLog
  import opened Replay
  import opened Completion
  import Hosts

  // ---- a direct run has no external authority at all ----

  lemma {:induction false} DirectMeansLocal(run: Run, log: Log)
    requires HistoryOk(run, log) && DirectStarts(log) != []
    ensures run.config.ceiling == NO_AUTHORITY
  {
    if !Last(log).DirectStarted? {
      DirectMeansLocal(run, Init(log));
    }
  }

  lemma {:induction false} PlannedTaskAllowed(run: Run, log: Log, t: Task)
    requires HistoryOk(run, log) && Plans(log) != [] && t in LastPlan(log).tasks
    ensures Hosts.Within(t.authority, run.config.ceiling)
  {
    PlansInit(log);
    if Last(log).PlanAdopted? {
      var p := Init(log);
      var goal := GoalOf(p).value;
      if Last(log).recovery {
        assert TaskAllowed(RecoveryBinding(run, p, goal), run.config, t);
      } else {
        assert TaskAllowed(BindPlanning(goal), run.config, t);
      }
    } else {
      PlannedTaskAllowed(run, Init(log), t);
    }
  }

  lemma {:induction false} AppliedGrantAllowed(run: Run, log: Log, task: Task, grant: Grant)
    requires HistoryOk(run, log) && grant in AppliedGrants(log, task)
    ensures Hosts.Within(grant.authority, run.config.ceiling)
  {
    if grant in AppliedGrants(Init(log), task) {
      AppliedGrantAllowed(run, Init(log), task, grant);
    }
  }

  lemma {:induction false} AttemptOnRecord(log: Log, task: Task, x: Context)
    requires x in Attempts(log, task)
    ensures AttemptStarted(x) in log
  {
    if x in Attempts(Init(log), task) {
      AttemptOnRecord(Init(log), task, x);
    }
  }

  /** The authority an attempt runs with never exceeds the ceiling of the Run. */
  lemma {:induction false} AttemptWithinCeiling(run: Run, log: Log, x: Context)
    requires HistoryOk(run, log) && AttemptStarted(x) in log
    ensures Hosts.Within(x.authority, run.config.ceiling)
    decreases |log|
  {
    var p := Init(log);
    if AttemptStarted(x) in p {
      AttemptWithinCeiling(run, p, x);
    } else {
      assert JustifiedAttempt(run, p, x);
      var applied, prior := AppliedGrants(p, x.task), Attempts(p, x.task);
      if applied != [] {
        AppliedGrantAllowed(run, p, x.task, applied[|applied| - 1]);
      } else if prior != [] {
        AttemptOnRecord(p, x.task, prior[|prior| - 1]);
        AttemptWithinCeiling(run, p, prior[|prior| - 1]);
      } else {
        PlannedTaskAllowed(run, p, x.task);
      }
    }
  }

  lemma DirectNeedsNoExternal(run: Run, log: Log, goal: Goal, c: Candidate)
    requires HistoryOk(run, log) && DirectStarts(log) != [] && !HasExternalCriterion(goal.criteria)
    ensures !NeedsExternal(log, goal, None, c)
  {
    DirectMeansLocal(run, log);
    forall e | e in log && e.AttemptStarted? ensures !e.context.authority.externalWrites {
      AttemptWithinCeiling(run, log, e.context);
    }
  }

  // ---- the shortcut refines the full check ----

  /** The record `_verify` would append for the Goal on the reused evidence. */
  function FullRecord(run: Run, goal: Goal, r: Record): Record {
    Record(r.candidate, true, true, r.findings, ComparisonFor(run.initial, goal, None, r.candidate), None, None)
  }

  lemma SameChecks(goal: Goal, task: Task)
    requires task.criteria == goal.criteria
    requires KeySet(goal.mandatoryChecks) <= CheckIds(goal, Some(task))
    ensures CheckIds(goal, None) == CheckIds(goal, Some(task))
  {
  }

  lemma JointOrigin(run: Run, log: Log, goal: Goal, task: Task, c: Candidate)
    returns (n: nat, receipts: seq<Receipt>)
    requires HistoryOk(run, log) && GoalOf(log) == Some(goal)
    requires JointRecord(run, log, goal, task, c).Some?
    ensures n < |log| && log[n] == Verified(JointRecord(run, log, goal, task, c).value)
    ensures DecidedOn(run, log[..n], goal, Some(task), log[n].record, receipts)
    ensures log[n].record.joint == Some(Joint(goal, task, receipts))
    ensures log[n].record.candidate == c && log[n].record.passed
  {
    n := LastRecordEnd(log, c, false) - 1;
    var r := log[n].record;
    HistoryPrefix(run, log, n);
    assert JustifiedTaskRecord(run, log[..n], r);
    GoalOfPrefix(run, log, n);
    receipts :| DecidedOn(run, log[..n], goal, Some(task), r, receipts)
      && r.joint == if JointEligible(run, log[..n], goal, c.task, c) then Some(Joint(goal, c.task, receipts)) else None;
  }

  /** Whenever a Task record may be reused for the Goal, the same findings and the same receipts,
      all recorded before it, meet the full Goal-level acceptance test. */
  lemma ReuseRefinesVerification(run: Run, log: Log, goal: Goal, task: Task, c: Candidate)
    requires HistoryOk(run, log) && GoalOf(log) == Some(goal)
    requires JointRecord(run, log, goal, task, c).Some?
    ensures var r := JointRecord(run, log, goal, task, c).value;
            && r.joint.Some? && r.candidate == c
            && DecidedOn(run, log, goal, None, FullRecord(run, goal, r), r.joint.value.receipts)
            && !NeedsExternal(log, goal, None, c)
  {
    var n, receipts := JointOrigin(run, log, goal, task, c);
    SameChecks(goal, task);
    DirectNeedsNoExternal(run, log, goal, c);
    JointComparisonMatches(run, log, goal, task, c);
    assert forall q :: q in receipts ==> CheckResult(q) in log;
  }

  /** In particular every Goal criterion has exactly one finding in the reused record, a passing one. */
  lemma ReuseCoversCriteria(run: Run, log: Log, goal: Goal, task: Task, c: Candidate, k: Criterion)
    requires HistoryOk(run, log) && GoalOf(log) == Some(goal) && k in goal.criteria
    requires JointRecord(run, log, goal, task, c).Some?
    ensures OnePassingFinding(JointRecord(run, log, goal, task, c).value.findings, k.id)
  {
    GoalProvenance(run, log);
    AcceptsMeaning(JointRecord(run, log, goal, task, c).value.findings, goal.criteria);
  }
}
