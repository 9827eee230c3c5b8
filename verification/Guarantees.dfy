/** The controller's promises, for every log it can have written. */
module Guarantees {
  import opened Models
  import opened StageContract
  import opened RunLog
  import opened Replay

  // ---- order of evidence and acceptance ----

  lemma VerifiedBefore(run: Run, log: Log, i: nat) returns (verified: nat)
    requires HistoryOk(run, log) && i < |log| && log[i].Accepted?
    ensures verified < i && IsRecord(log[verified], log[i].candidate, false) && log[verified].record.passed
  {
    HistoryPrefix(run, log, i);
    var e :| e in log[..i] && IsRecord(e, log[i].candidate, false) && e.record.passed;
    verified :| verified < i && log[verified] == e;
  }

  lemma FrozenBefore(run: Run, log: Log, i: nat, c: Candidate) returns (frozen: nat)
    requires HistoryOk(run, log) && i < |log| && IsRecord(log[i], c, false)
    ensures frozen < i && log[frozen] == CandidateFrozen(c)
  {
    HistoryPrefix(run, log, i);
    assert CandidateFrozen(c) in log[..i];
    frozen :| frozen < i && log[..i][frozen] == CandidateFrozen(c);
  }

  lemma StartedBefore(run: Run, log: Log, i: nat, c: Candidate) returns (started: nat)
    requires HistoryOk(run, log) && i < |log| && log[i] == CandidateFrozen(c)
    ensures started < i && log[started].AttemptStarted? && Stems(log[started].context, c)
    ensures Upstream(AcceptedMap(log[..started]), c.task.dependencies) == Some(c.upstream)
  {
    HistoryPrefix(run, log, i);
    var x :| AttemptStarted(x) in log[..i] && Stems(x, c);
    started :| started < i && log[..i][started] == AttemptStarted(x);
    HistoryPrefix(run, log, started);
    assert JustifiedAttempt(run, log[..started], x);
  }

  /** Before an acceptance: the attempt of exactly this Candidate started on the upstream work the
      log showed then, its Candidate was frozen, and a passing verification of it was recorded. */
  lemma AcceptanceOrder(run: Run, log: Log, i: nat) returns (started: nat, frozen: nat, verified: nat)
    requires HistoryOk(run, log) && i < |log| && log[i].Accepted?
    ensures started < frozen < verified < i
    ensures log[started].AttemptStarted? && Stems(log[started].context, log[i].candidate)
    ensures Upstream(AcceptedMap(log[..started]), log[i].candidate.task.dependencies) == Some(log[i].candidate.upstream)
    ensures log[frozen] == CandidateFrozen(log[i].candidate)
    ensures IsRecord(log[verified], log[i].candidate, false) && log[verified].record.passed
  {
    verified := VerifiedBefore(run, log, i);
    frozen := FrozenBefore(run, log, verified, log[i].candidate);
    started := StartedBefore(run, log, frozen, log[i].candidate);
  }

  lemma GoalVerifiedBefore(run: Run, log: Log, i: nat) returns (verified: nat)
    requires HistoryOk(run, log) && i < |log| && log[i].Completed?
    ensures verified < i && IsRecord(log[verified], log[i].candidate, true) && log[verified].record.passed
  {
    HistoryPrefix(run, log, i);
    verified := LastRecordEnd(log[..i], log[i].candidate, true) - 1;
    assert log[verified] == log[..i][verified];
  }

  lemma AcceptedBefore(run: Run, log: Log, i: nat, c: Candidate) returns (accepted: nat)
    requires HistoryOk(run, log) && i < |log| && IsRecord(log[i], c, true)
    ensures accepted < i && log[accepted] == Accepted(c.task.id, c)
  {
    HistoryPrefix(run, log, i);
    var p := log[..i];
    assert JustifiedGoalRecord(run, p, log[i].record);
    var key := LastPlan(p).resultTask;
    AcceptedIsVerified(run, p, key);
    accepted := AcceptanceEvent(p, key);
  }

  /** A completion follows the acceptance and then a passing Goal-level verification of its Candidate. */
  lemma CompletionOrder(run: Run, log: Log, i: nat) returns (accepted: nat, verified: nat)
    requires HistoryOk(run, log) && i < |log| && log[i].Completed?
    ensures accepted < verified < i
    ensures log[accepted] == Accepted(log[i].candidate.task.id, log[i].candidate)
    ensures IsRecord(log[verified], log[i].candidate, true) && log[verified].record.passed
  {
    verified := GoalVerifiedBefore(run, log, i);
    accepted := AcceptedBefore(run, log, verified, log[i].candidate);
  }

  lemma {:induction false} AcceptanceEvent(log: Log, key: Key) returns (i: nat)
    requires key in AcceptedMap(log)
    ensures i < |log| && log[i] == Accepted(key, AcceptedMap(log)[key])
  {
    if Last(log).Accepted? && Last(log).key == key {
      i := |log| - 1;
    } else {
      i := AcceptanceEvent(Init(log), key);
    }
  }

  // ---- external effects ----

  lemma {:induction false} AttemptListed(log: Log, x: Context)
    requires AttemptStarted(x) in log
    ensures x in Attempts(log, x.task)
  {
    if Last(log) != AttemptStarted(x) {
      AttemptListed(Init(log), x);
    }
  }

  /** Only the last attempt of a Task can have had external-write authority. */
  lemma ExternalAttemptIsLast(run: Run, log: Log, i: nat, j: nat)
    requires HistoryOk(run, log) && i < j < |log|
    requires log[i].AttemptStarted? && log[j].AttemptStarted? && log[i].context.task == log[j].context.task
    ensures !log[i].context.authority.externalWrites
  {
    HistoryPrefix(run, log, j);
    assert log[i] == log[..j][i];
    AttemptListed(log[..j], log[i].context);
  }

  ghost predicate ExternalContext(x: Context, attempt: Key, task: Task) {
    x.attempt == attempt && x.task == task && x.authority.externalWrites
  }

  /** The invocation reserved at `i` could write externally for the Task. */
  ghost predicate ExternalCall(log: Log, i: nat, task: Task)
    requires i < |log|
  {
    && log[i].WorkerReserved?
    && exists x :: AttemptStarted(x) in log && ExternalContext(x, log[i].attempt, task)
  }

  /** Over all crashes and restarts, at most one worker invocation with external-write authority
      is ever reserved for a Task. */
  lemma AtMostOneExternalCall(run: Run, log: Log, task: Task, i: nat, j: nat)
    requires HistoryOk(run, log) && i < |log| && j < |log|
    requires ExternalCall(log, i, task) && ExternalCall(log, j, task)
    ensures i == j
  {
    if i < j {
      LaterCallIsNotExternal(run, log, task, i, j);
    } else if j < i {
      LaterCallIsNotExternal(run, log, task, j, i);
    }
  }

  lemma LaterCallIsNotExternal(run: Run, log: Log, task: Task, i: nat, j: nat)
    requires HistoryOk(run, log) && i < j < |log| && ExternalCall(log, i, task)
    ensures !ExternalCall(log, j, task)
  {
    if ExternalCall(log, j, task) {
      var x :| AttemptStarted(x) in log && ExternalContext(x, log[i].attempt, task);
      var y :| AttemptStarted(y) in log && ExternalContext(y, log[j].attempt, task);
      SameExternalAttempt(run, log, x, y);
      ReservedOnce(run, log, x, i, j);
      assert false;
    }
  }

  lemma SameExternalAttempt(run: Run, log: Log, x: Context, y: Context)
    requires HistoryOk(run, log) && AttemptStarted(x) in log && AttemptStarted(y) in log
    requires x.task == y.task && x.authority.externalWrites && y.authority.externalWrites
    ensures x == y
  {
    var a :| 0 <= a < |log| && log[a] == AttemptStarted(x);
    var b :| 0 <= b < |log| && log[b] == AttemptStarted(y);
    if a < b {
      ExternalAttemptIsLast(run, log, a, b);
    } else if b < a {
      ExternalAttemptIsLast(run, log, b, a);
    }
  }

  lemma ReservedOnce(run: Run, log: Log, x: Context, i: nat, j: nat)
    requires HistoryOk(run, log) && AttemptStarted(x) in log && x.authority.externalWrites
    requires i < j < |log| && log[i] == WorkerReserved(x.attempt)
    ensures log[j] != WorkerReserved(x.attempt)
  {
    HistoryPrefix(run, log, j);
    AttemptIsUnique(run, log, x);
    assert log[i] == log[..j][i];
    assert forall e :: e in log[..j] ==> e in log;
  }

  lemma NoCompletionAfterUncertain(run: Run, log: Log, i: nat, j: nat)
    requires HistoryOk(run, log) && i < j < |log| && log[i].Uncertain?
    ensures !log[j].Completed?
  {
    HistoryPrefix(run, log, j);
    assert log[i] == log[..j][i];
  }

  /** Once the Run is stopped nothing that advances it is appended. */
  lemma NoDecisionAfterStop(run: Run, log: Log, i: nat, j: nat)
    requires HistoryOk(run, log) && i < j < |log| && log[i].Stopped?
    ensures !IsDecision(log[j])
  {
    HistoryPrefix(run, log, j);
    assert log[i] == log[..j][i];
  }

  lemma {:induction false} BoundedAttempts(run: Run, log: Log, task: Task)
    requires HistoryOk(run, log)
    ensures |Attempts(log, task)| <= if run.config.taskAttempts == 0 then 1 else run.config.taskAttempts
  {
    if log != [] {
      BoundedAttempts(run, Init(log), task);
    }
  }

  // ---- bounded replanning ----

  function Fallbacks(log: Log): nat {
    if log == [] then 0
    else Fallbacks(Init(log)) + if Last(log).DirectFellBack? then 1 else 0
  }

  lemma {:induction false} FallbacksCount(log: Log)
    ensures Fallbacks(log) > 0 <==> HasFallback(log)
  {
    if log != [] {
      FallbacksCount(Init(log));
      assert log == Init(log) + [Last(log)];
    }
  }

  lemma OneFallback(run: Run, log: Log)
    requires HistoryOk(run, log)
    ensures Fallbacks(log) <= 1
  {
    if log != [] {
      OneFallback(run, Init(log));
      FallbacksCount(Init(log));
    }
  }

  /** The number of plans ever adopted, with the direct plan and its replacement counted. */
  lemma {:induction false} BoundedPlans(run: Run, log: Log)
    requires HistoryOk(run, log)
    ensures !HasFallback(log) ==> |Plans(log)| <= run.config.replans + 1
    ensures |Plans(log)| <= if run.config.replans == 0 then 2 else run.config.replans + 1
  {
    if log != [] {
      BoundedPlans(run, Init(log));
      assert log == Init(log) + [Last(log)];
    }
  }

  /** What each recursion of `_execute` uses up: recoveries, one fallback, one replacement plan. */
  function ReplanningLeft(run: Run, log: Log): int {
    (if run.config.replans == 0 then 2 else run.config.replans + 1) - |Plans(log)| + (1 - Fallbacks(log))
  }

  /** Every event by which `_execute` starts over leaves less replanning than before, never below zero. */
  lemma ReplanningTerminates(run: Run, log: Log)
    requires log != [] && HistoryOk(run, log)
    ensures ReplanningLeft(run, log) >= 0
    ensures Last(log).PlanAdopted? || Last(log).DirectFellBack? ==>
              ReplanningLeft(run, log) < ReplanningLeft(run, Init(log))
    ensures !Last(log).PlanAdopted? && !Last(log).DirectFellBack? ==>
              ReplanningLeft(run, log) == ReplanningLeft(run, Init(log))
  {
    BoundedPlans(run, log);
    OneFallback(run, log);
  }

  function FirstPlanIds(log: Log): set<Key> {
    if Plans(log) == [] then {} else Ids(Plans(log)[0].tasks)
  }

  lemma GrowthAtRecovery(run: Run, p: Log, plan: Plan)
    requires Plans(p) != [] && JustifiedPlan(run, p, plan, true)
    ensures |History(Plans(p) + [plan]).Keys - Ids(Plans(p)[0].tasks)| <= run.config.addedTasks
  {
    var failed := FailedTasks(p) - AcceptedIn(p, LastPlan(p)).Keys;
    assert GrowthAllowed(BindRecovery(GoalOf(p).value, Plans(p), failed, run.config), plan);
    RecoveryGrowth(GoalOf(p).value, Plans(p), failed, run.config, plan);
  }

  /** The plan in force was adopted by a recovery. */
  predicate InRecovery(log: Log) {
    log != [] && if Last(log).PlanAdopted? then Last(log).recovery else InRecovery(Init(log))
  }

  /** While a recovery plan is in force, at most `added_tasks` IDs lie beyond the first plan. */
  lemma {:induction false} BoundedGrowth(run: Run, log: Log)
    requires HistoryOk(run, log) && InRecovery(log)
    ensures |History(Plans(log)).Keys - FirstPlanIds(log)| <= run.config.addedTasks
  {
    PlansInit(log);
    if Last(log).PlanAdopted? {
      GrowthAtRecovery(run, Init(log), Last(log).plan);
    } else {
      BoundedGrowth(run, Init(log));
    }
  }
}
