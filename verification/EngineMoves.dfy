/** The appends of one `_execute_task` thread, in program order: each is justified by what the
    thread knows and leads to the position the code reaches next. */
module EngineMoves {
  import opened Models
  import opened Evidence
  import opened RunLog
  import opened Replay
  import opened EngineInvariant
  import opened EngineSteps

  /** What the append of `e` and the move to `w'` have to satisfy. */
  ghost predicate GoodStep(run: Run, log: Log, k: Key, e: Event, w': Worker) {
    Justified(run, log, e) && Own(log, e, k, w') && WorkerOk(run, log + [e], k, w')
  }

  /** An event about the thread's own attempt that neither starts an attempt nor accepts anything. */
  predicate Progress(e: Event) {
    !IsGlobal(e) && !e.AttemptStarted? && !e.Accepted? && !e.Uncertain? && !e.TaskFailed?
  }

  lemma ProgressKeeps(run: Run, log: Log, k: Key, e: Event, x: Context)
    requires Progress(e) && PlanInForce(log) && k in Ids(LastPlan(log).tasks) && Mine(log, TaskOf(log, k), x)
    ensures PlanInForce(log + [e]) && LastPlan(log + [e]) == LastPlan(log) && TaskOf(log + [e], k) == TaskOf(log, k)
    ensures Mine(log + [e], TaskOf(log, k), x) && GoalOf(log + [e]) == GoalOf(log)
    ensures AcceptedMap(log + [e]) == AcceptedMap(log)
    ensures Attempts(log + [e], TaskOf(log, k)) == Attempts(log, TaskOf(log, k))
    ensures forall key :: DirectTask(log + [e], key) <==> DirectTask(log, key)
  {
    LocalEventKeeps(log, e);
    AcceptedStep(log, e);
    AttemptsStep(log, e, TaskOf(log, k));
    ElsewhereKeepsMine(log, e, TaskOf(log, k), x);
  }

  lemma MineIsOwn(log: Log, k: Key, x: Context)
    requires PlanInForce(log) && k in Ids(LastPlan(log).tasks) && Mine(log, TaskOf(log, k), x)
    ensures exists y :: AttemptStarted(y) in log && y.attempt == x.attempt && y.task.id == k
  {
    assert AttemptStarted(x) in log && x.task.id == k;
  }

  lemma StartJustified(run: Run, log: Log, k: Key, x: Context)
    requires !Fenced(log) && WorkerOk(run, log, k, Ready)
    requires GoalOf(log) == Some(x.goal) && x.task == TaskOf(log, k)
    requires Upstream(AcceptedMap(log), x.task.dependencies) == Some(x.upstream)
    requires Unused(log, x.attempt) && Grant(x.authority, x.version) == GrantFor(log, x.task)
    requires |Attempts(log, x.task)| < AttemptLimit(run, log, x.task)
    ensures Justified(run, log, AttemptStarted(x)) && Own(log, AttemptStarted(x), k, Invoking(x))
  {
    assert JustifiedAttempt(run, log, x);
  }

  lemma StartedIsMine(run: Run, log: Log, k: Key, x: Context)
    requires WorkerOk(run, log, k, Ready) && x.task == TaskOf(log, k) && Justified(run, log, AttemptStarted(x))
    requires x.authority == GrantFor(log, x.task).authority
    requires Unjudged(log, x.attempt) && WorkerReserved(x.attempt) !in log
    ensures WorkerOk(run, log + [AttemptStarted(x)], k, Invoking(x))
  {
    var e := AttemptStarted(x);
    LocalEventKeeps(log, e);
    AcceptedStep(log, e);
    AttemptsStep(log, e, x.task);
    ElsewhereKeepsUnjudged(log, e, x.attempt);
    StillAsGranted(log, e, x);
  }

  /** The authority of the latest attempt stays the granted one. */
  lemma StillAsGranted(log: Log, e: Event, x: Context)
    requires x.authority == GrantFor(log, x.task).authority && !e.AuthorityApplied?
    requires e.AttemptStarted? && e.context.task == x.task ==> e.context == x
    ensures AsGranted(log + [e], x)
  {
    Appended(log, e);
    AttemptsStep(log, e, x.task);
  }

  /** `attempt_started`. */
  lemma StartOk(run: Run, log: Log, k: Key, x: Context)
    requires HistoryOk(run, log) && !Fenced(log) && WorkerOk(run, log, k, Ready)
    requires GoalOf(log) == Some(x.goal) && x.task == TaskOf(log, k)
    requires Upstream(AcceptedMap(log), x.task.dependencies) == Some(x.upstream)
    requires Unused(log, x.attempt) && Grant(x.authority, x.version) == GrantFor(log, x.task)
    requires |Attempts(log, x.task)| < AttemptLimit(run, log, x.task)
    ensures GoodStep(run, log, k, AttemptStarted(x), Invoking(x))
  {
    UnusedIsUntouched(run, log, x.attempt);
    StartJustified(run, log, k, x);
    StartedIsMine(run, log, k, x);
  }

  lemma ReservationJustified(run: Run, log: Log, k: Key, x: Context)
    requires !Fenced(log) && WorkerOk(run, log, k, Invoking(x))
    ensures Justified(run, log, WorkerReserved(x.attempt)) && Own(log, WorkerReserved(x.attempt), k, Calling(x))
  {
    MineIsOwn(log, k, x);
  }

  lemma ReservedIsMine(run: Run, log: Log, k: Key, x: Context)
    requires WorkerOk(run, log, k, Invoking(x))
    ensures WorkerOk(run, log + [WorkerReserved(x.attempt)], k, Calling(x))
  {
    var e := WorkerReserved(x.attempt);
    ProgressKeeps(run, log, k, e, x);
    assert Unjudged(log + [e], x.attempt);
  }

  /** `reserved` for one worker call. */
  lemma ReserveOk(run: Run, log: Log, k: Key, x: Context)
    requires HistoryOk(run, log) && !Fenced(log) && WorkerOk(run, log, k, Invoking(x))
    ensures GoodStep(run, log, k, WorkerReserved(x.attempt), Calling(x))
  {
    ReservationJustified(run, log, k, x);
    ReservedIsMine(run, log, k, x);
  }

  lemma UnjudgedKept(log: Log, e: Event, attempt: Key)
    requires Unjudged(log, attempt) && !e.CandidateFrozen? && !e.Verified?
    ensures Unjudged(log + [e], attempt)
  {
  }

  lemma AfterCall(run: Run, log: Log, k: Key, x: Context, e: Event, w': Worker)
    requires WorkerOk(run, log, k, Calling(x))
    requires Progress(e) && !e.CandidateFrozen? && !e.Verified?
    requires w' in {Calling(x), Returned(x, false), Doubtful}
             || (w' == Failed(x) && !x.authority.externalWrites)
             || (w' == Falling && DirectTask(log, k))
    ensures WorkerOk(run, log + [e], k, w')
  {
    ProgressKeeps(run, log, k, e, x);
    UnjudgedKept(log, e, x.attempt);
  }

  /** `worker_result`, with whatever position the reported status leads to. */
  lemma ResultOk(run: Run, log: Log, k: Key, x: Context, status: WorkerStatus, w': Worker)
    requires HistoryOk(run, log) && !Fenced(log) && WorkerOk(run, log, k, Calling(x))
    requires w' in {Calling(x), Returned(x, false), Doubtful}
             || (w' == Failed(x) && !x.authority.externalWrites)
             || (w' == Falling && DirectTask(log, k))
    ensures GoodStep(run, log, k, WorkerResult(x.attempt, status), w')
  {
    AfterCall(run, log, k, x, WorkerResult(x.attempt, status), w');
  }

  /** `authority_requested` and `approval_wait` follow an authority request in the same transaction. */
  lemma RequestOk(run: Run, log: Log, k: Key, x: Context, grant: Grant)
    requires HistoryOk(run, log) && !Fenced(log) && WorkerOk(run, log, k, Calling(x))
    ensures GoodStep(run, log, k, AuthorityRequested(x.attempt, grant), Calling(x))
  {
    AfterCall(run, log, k, x, AuthorityRequested(x.attempt, grant), Calling(x));
  }

  lemma WaitOk(run: Run, log: Log, k: Key, x: Context)
    requires !Fenced(log) && PlanInForce(log) && k in Ids(LastPlan(log).tasks)
    ensures GoodStep(run, log, k, ApprovalWait(x.attempt, x.task), Aborted)
  {
    LocalEventKeeps(log, ApprovalWait(x.attempt, x.task));
  }

  lemma ReadyAfter(run: Run, log: Log, k: Key, x: Context, e: Event)
    requires WorkerOk(run, log, k, Ready) && Mine(log, TaskOf(log, k), x) && Progress(e)
    ensures WorkerOk(run, log + [e], k, Ready)
    ensures DirectTask(log, k) ==> WorkerOk(run, log + [e], k, Falling)
  {
    ProgressKeeps(run, log, k, e, x);
  }

  lemma FailureJustified(run: Run, log: Log, k: Key, x: Context, w': Worker)
    requires PlanInForce(log) && k in Ids(LastPlan(log).tasks)
    requires Mine(log, TaskOf(log, k), x) && !x.authority.externalWrites
    ensures Justified(run, log, AttemptFailed(x.attempt)) && Own(log, AttemptFailed(x.attempt), k, w')
  {
    MineIsOwn(log, k, x);
  }

  /** `attempt_failed`: only an attempt without external authority is ever followed by another. */
  lemma GiveUpOk(run: Run, log: Log, k: Key, x: Context)
    requires HistoryOk(run, log) && PlanInForce(log) && k in Ids(LastPlan(log).tasks)
    requires Mine(log, TaskOf(log, k), x) && !x.authority.externalWrites
    ensures GoodStep(run, log, k, AttemptFailed(x.attempt), Ready)
    ensures DirectTask(log, k) ==> GoodStep(run, log, k, AttemptFailed(x.attempt), Falling)
  {
    hide HistoryOk;
    AttemptIsCurrent(run, log, x);
    ReadyOk(run, log, k);
    ReadyAfter(run, log, k, x, AttemptFailed(x.attempt));
    FailureJustified(run, log, k, x, Ready);
    FailureJustified(run, log, k, x, Falling);
  }

  /** `uncertain`. */
  lemma DoubtOk(run: Run, log: Log, k: Key)
    requires PlanInForce(log) && k in Ids(LastPlan(log).tasks)
    ensures GoodStep(run, log, k, Uncertain, Aborted)
  {
    LocalEventKeeps(log, Uncertain);
  }

  lemma CandidateJustified(run: Run, log: Log, k: Key, x: Context, tree: Tree, resumed: bool)
    requires !Fenced(log) && WorkerOk(run, log, k, Returned(x, resumed))
    ensures Justified(run, log, CandidateFrozen(Freeze(x, tree)))
  {
    assert AttemptStarted(x) in log && Stems(x, Freeze(x, tree));
  }

  lemma FrozenIsMine(run: Run, log: Log, k: Key, x: Context, c: Candidate, resumed: bool)
    requires WorkerOk(run, log, k, Returned(x, resumed)) && Stems(x, c)
    ensures Own(log, CandidateFrozen(c), k, Judging(x, c, [], resumed))
    ensures WorkerOk(run, log + [CandidateFrozen(c)], k, Judging(x, c, [], resumed))
  {
    MineIsOwn(log, k, x);
    ProgressKeeps(run, log, k, CandidateFrozen(c), x);
    assert NoVerdictYet(log + [CandidateFrozen(c)], x.attempt);
  }

  /** `candidate`. */
  lemma FreezeOk(run: Run, log: Log, k: Key, x: Context, tree: Tree, resumed: bool)
    requires HistoryOk(run, log) && !Fenced(log) && WorkerOk(run, log, k, Returned(x, resumed))
    ensures GoodStep(run, log, k, CandidateFrozen(Freeze(x, tree)), Judging(x, Freeze(x, tree), [], resumed))
  {
    CandidateJustified(run, log, k, x, tree, resumed);
    FrozenIsMine(run, log, k, x, Freeze(x, tree), resumed);
  }

  /** `q` is the receipt of the next required check. */
  predicate NextReceipt(run: Run, goal: Goal, task: Option<Task>, c: Candidate, receipts: seq<Receipt>, q: Receipt) {
    var required := RequiredChecks(run.config.checks, CheckIds(goal, task));
    && |receipts| < |required|
    && q.check == required[|receipts|].id && q.externalEffect == required[|receipts|].externalEffect
    && q.candidate == c
  }

  lemma GatherMore(run: Run, log: Log, goal: Goal, task: Option<Task>, c: Candidate, receipts: seq<Receipt>, q: Receipt)
    requires Gathered(run, log, goal, task, c, receipts) && NextReceipt(run, goal, task, c, receipts, q)
    ensures Gathered(run, log + [CheckResult(q)], goal, task, c, receipts + [q])
  {
    var required := RequiredChecks(run.config.checks, CheckIds(goal, task));
    assert required[..|receipts| + 1] == required[..|receipts|] + [required[|receipts|]];
  }

  lemma JudgingAfter(run: Run, log: Log, k: Key, x: Context, c: Candidate, receipts: seq<Receipt>, resumed: bool,
                     q: Receipt)
    requires WorkerOk(run, log, k, Judging(x, c, receipts, resumed))
    requires NextReceipt(run, GoalOf(log).value, Some(TaskOf(log, k)), c, receipts, q)
    ensures WorkerOk(run, log + [CheckResult(q)], k, Judging(x, c, receipts + [q], resumed))
  {
    hide NextReceipt;
    GatherMore(run, log, GoalOf(log).value, Some(TaskOf(log, k)), c, receipts, q);
    ProgressKeeps(run, log, k, CheckResult(q), x);
    ElsewhereKeepsUnjudged(log, CheckResult(q), x.attempt);
  }

  lemma CheckIsLocal(run: Run, log: Log, k: Key, q: Receipt, w': Worker)
    ensures Justified(run, log, CheckResult(q)) && Own(log, CheckResult(q), k, w')
  {
  }

  /** `check_result`. */
  lemma CheckOk(run: Run, log: Log, k: Key, x: Context, c: Candidate, receipts: seq<Receipt>, resumed: bool, q: Receipt)
    requires WorkerOk(run, log, k, Judging(x, c, receipts, resumed))
    requires NextReceipt(run, GoalOf(log).value, Some(TaskOf(log, k)), c, receipts, q)
    ensures GoodStep(run, log, k, CheckResult(q), Judging(x, c, receipts + [q], resumed))
  {
    hide NextReceipt;
    JudgingAfter(run, log, k, x, c, receipts, resumed, q);
    CheckIsLocal(run, log, k, q, Judging(x, c, receipts + [q], resumed));
  }

  /** The record `_verify` appends for a Task. */
  function TaskRecord(run: Run, log: Log, goal: Goal, t: Task, c: Candidate, receipts: seq<Receipt>,
                      reviewed: bool, findings: seq<Finding>): Record {
    var comparison := ComparisonFor(run.initial, goal, Some(t), c);
    var passed := reviewed
      && Decision(t.criteria, findings, receipts, [], comparison, NeedsExternal(log, goal, Some(t), c));
    var joint := if JointEligible(run, log, goal, t, c) then Some(Joint(goal, t, receipts)) else None;
    Record(c, false, passed, findings, comparison, joint, None)
  }

  lemma TaskRecordJustified(run: Run, log: Log, k: Key, x: Context, c: Candidate, receipts: seq<Receipt>,
                            resumed: bool, reviewed: bool, findings: seq<Finding>)
    requires HistoryOk(run, log) && WorkerOk(run, log, k, Judging(x, c, receipts, resumed))
    requires |receipts| == |RequiredChecks(run.config.checks, CheckIds(GoalOf(log).value, Some(TaskOf(log, k))))|
    ensures JustifiedTaskRecord(run, log,
              TaskRecord(run, log, GoalOf(log).value, TaskOf(log, k), c, receipts, reviewed, findings))
  {
    var goal, t := GoalOf(log).value, TaskOf(log, k);
    var r := TaskRecord(run, log, goal, t, c, receipts, reviewed, findings);
    var required := RequiredChecks(run.config.checks, CheckIds(goal, Some(t)));
    assert required[..|receipts|] == required;
    assert DecidedOn(run, log, goal, Some(t), r, receipts);
  }

  lemma JudgedIsMine(run: Run, log: Log, k: Key, x: Context, c: Candidate, receipts: seq<Receipt>, resumed: bool,
                     r: Record)
    requires WorkerOk(run, log, k, Judging(x, c, receipts, resumed)) && r.candidate == c && !r.goalLevel
    ensures Own(log, Verified(r), k, Refused(x, resumed)) && Own(log, Verified(r), k, Passed(x, c, resumed))
    ensures WorkerOk(run, log + [Verified(r)], k, Refused(x, resumed))
    ensures r.passed ==> WorkerOk(run, log + [Verified(r)], k, Passed(x, c, resumed))
  {
    MineIsOwn(log, k, x);
    ProgressKeeps(run, log, k, Verified(r), x);
    assert IsRecord(Verified(r), c, false) && Verified(r) in log + [Verified(r)];
  }

  /** `verification` of a Task. */
  lemma VerdictOk(run: Run, log: Log, k: Key, x: Context, c: Candidate, receipts: seq<Receipt>, resumed: bool,
                  reviewed: bool, findings: seq<Finding>)
    requires HistoryOk(run, log) && !Fenced(log) && WorkerOk(run, log, k, Judging(x, c, receipts, resumed))
    requires |receipts| == |RequiredChecks(run.config.checks, CheckIds(GoalOf(log).value, Some(TaskOf(log, k))))|
    ensures var r := TaskRecord(run, log, GoalOf(log).value, TaskOf(log, k), c, receipts, reviewed, findings);
            GoodStep(run, log, k, Verified(r), if r.passed then Passed(x, c, resumed) else Refused(x, resumed))
  {
    var r := TaskRecord(run, log, GoalOf(log).value, TaskOf(log, k), c, receipts, reviewed, findings);
    TaskRecordJustified(run, log, k, x, c, receipts, resumed, reviewed, findings);
    JudgedIsMine(run, log, k, x, c, receipts, resumed, r);
  }

  lemma AcceptanceJustified(run: Run, log: Log, k: Key, x: Context, c: Candidate, resumed: bool)
    requires !Fenced(log) && WorkerOk(run, log, k, Passed(x, c, resumed))
    ensures Justified(run, log, Accepted(k, c))
  {
    assert c.task == TaskOf(log, k);
  }

  lemma AcceptedIsMine(run: Run, log: Log, k: Key, c: Candidate)
    requires PlanInForce(log) && k in Ids(LastPlan(log).tasks)
    ensures Own(log, Accepted(k, c), k, Finished(c)) && WorkerOk(run, log + [Accepted(k, c)], k, Finished(c))
  {
    LocalEventKeeps(log, Accepted(k, c));
    AcceptedStep(log, Accepted(k, c));
  }

  /** `accepted`. */
  lemma AcceptOk(run: Run, log: Log, k: Key, x: Context, c: Candidate, resumed: bool)
    requires HistoryOk(run, log) && !Fenced(log) && WorkerOk(run, log, k, Passed(x, c, resumed))
    ensures GoodStep(run, log, k, Accepted(k, c), Finished(c))
  {
    AcceptanceJustified(run, log, k, x, c, resumed);
    AcceptedIsMine(run, log, k, c);
  }
}
