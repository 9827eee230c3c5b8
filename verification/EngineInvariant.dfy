/** What holds at every point of a run: the log is justified, and each thread's position agrees
    with what the log says about its Task. */
module EngineInvariant {
  import opened Models
  import opened Evidence
  import opened RunLog
  import opened Replay

  /** Where one `_execute_task` thread stands. */
  datatype Worker =
    | Starting(upstream: seq<Candidate>)
    | Ready
    | Invoking(context: Context)
    | Calling(context: Context)
    | Failed(context: Context)
    | Returned(context: Context, resumed: bool)
    | Judging(context: Context, candidate: Candidate, receipts: seq<Receipt>, resumed: bool)
    | Passed(context: Context, candidate: Candidate, resumed: bool)
    | Refused(context: Context, resumed: bool)
    | Doubtful
    | Finished(candidate: Candidate)
    | Failing
    | Falling
    | Aborted

  /** Where the controller thread stands. */
  datatype Main =
    | Idle
    | Head
    | Scheduling(accepted: map<Key, Candidate>)
    | Joining(accepted: map<Key, Candidate>, failed: bool)
    | Draining
    | Recovering(accepted: map<Key, Candidate>)
    | Finishing(final: Candidate, receipts: seq<Receipt>)
    | Attested(final: Candidate)
    | Unproven(final: Candidate)
    | Doubting(final: Candidate)

  predicate Terminal(w: Worker) {
    w.Finished? || w.Failing? || w.Falling? || w.Aborted?
  }

  predicate HasContext(w: Worker) {
    w.Invoking? || w.Calling? || w.Failed? || w.Returned? || w.Judging? || w.Passed? || w.Refused?
  }

  /** The Task a thread of the current plan works on. */
  function TaskOf(log: Log, k: Key): Task
    requires Plans(log) != [] && k in Ids(LastPlan(log).tasks)
  {
    TaskMap(LastPlan(log).tasks)[k]
  }

  /** The attempt belongs to this thread and is the latest of its Task, which is not accepted. */
  ghost predicate Mine(log: Log, t: Task, x: Context) {
    && AttemptStarted(x) in log && x.task == t && t.id !in AcceptedMap(log)
    && Attempts(log, t) != [] && Attempts(log, t)[|Attempts(log, t)| - 1] == x
  }

  /** A call uses exactly the authority the log grants its Task. */
  ghost predicate AsGranted(log: Log, x: Context) {
    x.authority == GrantFor(log, x.task).authority
  }

  ghost predicate Unjudged(log: Log, attempt: Key) {
    NoCandidateYet(log, attempt) && NoVerdictYet(log, attempt)
  }

  /** The receipts gathered so far are the required ones in order, and they are on record. */
  ghost predicate Gathered(run: Run, log: Log, goal: Goal, task: Option<Task>, c: Candidate, receipts: seq<Receipt>) {
    var required := RequiredChecks(run.config.checks, CheckIds(goal, task));
    && |receipts| <= |required|
    && ReceiptsFor(receipts, required[..|receipts|], c)
    && forall q :: q in receipts ==> CheckResult(q) in log
  }

  ghost predicate PlanInForce(log: Log) {
    GoalOf(log).Some? && Plans(log) != [] && !HasCompleted(log) && !StaleDirect(log)
  }

  ghost predicate WorkerOk(run: Run, log: Log, k: Key, w: Worker) {
    && PlanInForce(log) && k in Ids(LastPlan(log).tasks)
    && var t := TaskOf(log, k);
       match w
       case Starting(up) =>
         k !in AcceptedMap(log) && Upstream(AcceptedMap(log), t.dependencies) == Some(up)
       case Ready =>
         && k !in AcceptedMap(log) && Upstream(AcceptedMap(log), t.dependencies).Some?
         && forall x :: x in Attempts(log, t) ==> !x.authority.externalWrites
       case Invoking(x) =>
         && Mine(log, t, x) && Unjudged(log, x.attempt) && AsGranted(log, x)
         && (x.authority.externalWrites ==> WorkerReserved(x.attempt) !in log)
       case Calling(x) => Mine(log, t, x) && Unjudged(log, x.attempt) && AsGranted(log, x)
       case Failed(x) => Mine(log, t, x) && !x.authority.externalWrites
       case Returned(x, _) => Mine(log, t, x) && Unjudged(log, x.attempt)
       case Judging(x, c, receipts, _) =>
         && Mine(log, t, x) && Stems(x, c) && CandidateFrozen(c) in log && NoVerdictYet(log, x.attempt)
         && Gathered(run, log, GoalOf(log).value, Some(t), c, receipts)
       case Passed(x, c, _) => Mine(log, t, x) && Stems(x, c) && PassedTaskLevel(log, c)
       case Refused(x, _) => Mine(log, t, x)
       case Finished(c) => k in AcceptedMap(log) && AcceptedMap(log)[k] == c
       case Failing => k !in AcceptedMap(log)
       case Falling => k !in AcceptedMap(log) && DirectTask(log, k)
       case Doubtful => k !in AcceptedMap(log)
       case Aborted => true
  }

  ghost predicate PoolOk(run: Run, log: Log, pool: map<Key, Worker>) {
    forall k :: k in pool ==> WorkerOk(run, log, k, pool[k])
  }

  /** Whatever the log shows as accepted has been collected, or its thread has finished. */
  ghost predicate Collected(log: Log, accepted: map<Key, Candidate>, pool: map<Key, Worker>)
    requires Plans(log) != []
  {
    && Grows(accepted, AcceptedIn(log, LastPlan(log)))
    && forall k :: k in AcceptedIn(log, LastPlan(log)) ==> k in accepted || (k in pool && pool[k].Finished?)
  }

  ghost predicate SomeAborted(pool: map<Key, Worker>) {
    exists k :: k in pool && pool[k].Aborted?
  }

  ghost predicate MainOk(run: Run, log: Log, main: Main, pool: map<Key, Worker>)
    requires !main.Idle? && !main.Head? && !main.Draining? ==> PlanInForce(log)
  {
    match main
    case Idle => pool == map[]
    case Head => pool == map[] && Uncertain !in log && !HasCompleted(log)
    case Scheduling(accepted) => pool == map[] && Uncertain !in log && accepted == AcceptedIn(log, LastPlan(log))
    case Joining(accepted, _) =>
      && Collected(log, accepted, pool)
      && (Uncertain in log ==> SomeAborted(pool))
    case Draining => true
    case Recovering(accepted) => pool == map[] && Uncertain !in log && accepted == AcceptedIn(log, LastPlan(log))
    case Finishing(final, receipts) =>
      && pool == map[] && Uncertain !in log && ResultIs(log, final)
      && Gathered(run, log, GoalOf(log).value, None, final, receipts)
    case Attested(final) =>
      && pool == map[] && Uncertain !in log && ResultIs(log, final)
      && LastRecord(log, final, true).Some? && LastRecord(log, final, true).value.passed
    case Unproven(final) => pool == map[] && Uncertain !in log && ResultIs(log, final)
    case Doubting(final) => pool == map[] && Uncertain !in log && ResultIs(log, final)
  }

  ghost predicate ResultIs(log: Log, c: Candidate)
    requires Plans(log) != []
  {
    LastPlan(log).resultTask in AcceptedMap(log) && AcceptedMap(log)[LastPlan(log).resultTask] == c
  }

  /** A direct start is always on record together with its plan. */
  ghost predicate Whole(log: Log) {
    Plans(log) == [] ==> DirectStarts(log) == []
  }

  ghost predicate Inv(run: Run, log: Log, main: Main, pool: map<Key, Worker>) {
    && HistoryOk(run, log) && Whole(log)
    && PoolOk(run, log, pool)
    && (!main.Idle? && !main.Head? && !main.Draining? ==> PlanInForce(log))
    && MainOk(run, log, main, pool)
  }

  // ---- one thread's step leaves the others alone ----

  /** Events only the controller thread appends. */
  predicate IsGlobal(e: Event) {
    e.GoalSet? || e.DirectStarted? || e.DirectFellBack? || e.PlanAdopted? || e.AuthorityApplied? || e.Completed?
  }

  /** The attempt an event speaks about, where it speaks about one that already exists. */
  function AttemptOf(e: Event): Option<Key> {
    match e
    case WorkerReserved(a) => Some(a)
    case CandidateFrozen(c) => Some(c.attempt)
    case Verified(r) => Some(r.candidate.attempt)
    case _ => None
  }

  /** The event is none of this Task's business. */
  ghost predicate Elsewhere(log: Log, e: Event, k: Key, w: Worker) {
    && !IsGlobal(e)
    && (e.AttemptStarted? ==> e.context.task.id != k)
    && (e.Accepted? ==> e.key != k && e.key !in AcceptedMap(log))
    && (HasContext(w) ==> AttemptOf(e) != Some(w.context.attempt))
  }

  lemma LocalEventKeeps(log: Log, e: Event)
    requires !IsGlobal(e)
    ensures GoalOf(log + [e]) == GoalOf(log) && Plans(log + [e]) == Plans(log)
    ensures DirectStarts(log + [e]) == DirectStarts(log)
    ensures HasFallback(log + [e]) == HasFallback(log) && HasCompleted(log + [e]) == HasCompleted(log)
    ensures forall key :: DirectTask(log + [e], key) <==> DirectTask(log, key)
    ensures PlanInForce(log) ==> PlanInForce(log + [e]) && LastPlan(log + [e]) == LastPlan(log)
  {
    Appended(log, e);
  }

  lemma AcceptedStep(log: Log, e: Event)
    ensures AcceptedMap(log + [e]) ==
              if e.Accepted? then AcceptedMap(log)[e.key := e.candidate] else AcceptedMap(log)
  {
    Appended(log, e);
  }

  lemma AttemptsStep(log: Log, e: Event, t: Task)
    ensures Attempts(log + [e], t) ==
              Attempts(log, t) + if e.AttemptStarted? && e.context.task == t then [e.context] else []
  {
    Appended(log, e);
  }

  lemma UpstreamUndisturbed(a: map<Key, Candidate>, key: Key, c: Candidate, dependencies: seq<Key>)
    requires key !in a && Upstream(a, dependencies).Some?
    ensures Upstream(a[key := c], dependencies) == Upstream(a, dependencies)
  {
    UpstreamGrows(a, a[key := c], dependencies);
  }

  lemma ElsewhereKeepsMine(log: Log, e: Event, t: Task, x: Context)
    requires Mine(log, t, x)
    requires (e.AttemptStarted? ==> e.context.task != t) && (e.Accepted? ==> e.key != t.id)
    ensures Mine(log + [e], t, x)
  {
    AttemptsStep(log, e, t);
    AcceptedStep(log, e);
  }

  lemma ElsewhereKeepsUnjudged(log: Log, e: Event, attempt: Key)
    requires AttemptOf(e) != Some(attempt)
    ensures NoCandidateYet(log, attempt) ==> NoCandidateYet(log + [e], attempt)
    ensures NoVerdictYet(log, attempt) ==> NoVerdictYet(log + [e], attempt)
  {
  }

  lemma GatheredKept(run: Run, log: Log, e: Event, goal: Goal, task: Option<Task>, c: Candidate, receipts: seq<Receipt>)
    requires Gathered(run, log, goal, task, c, receipts)
    ensures Gathered(run, log + [e], goal, task, c, receipts)
  {
  }

  lemma PassedKept(log: Log, e: Event, c: Candidate)
    requires PassedTaskLevel(log, c)
    ensures PassedTaskLevel(log + [e], c)
  {
    var v :| v in log && IsRecord(v, c, false) && v.record.passed;
    assert v in log + [e];
  }

  lemma ElsewhereKeepsGrant(log: Log, e: Event, t: Task)
    requires !IsGlobal(e) && (e.AttemptStarted? ==> e.context.task != t)
    ensures GrantFor(log + [e], t) == GrantFor(log, t)
  {
    AttemptsStep(log, e, t);
  }

  /** What every position with an attempt rests on stays as it is. */
  lemma ContextFrame(run: Run, log: Log, e: Event, k: Key, w: Worker)
    requires WorkerOk(run, log, k, w) && Elsewhere(log, e, k, w) && HasContext(w)
    ensures Mine(log + [e], TaskOf(log, k), w.context)
    ensures Unjudged(log, w.context.attempt) ==> Unjudged(log + [e], w.context.attempt)
    ensures NoVerdictYet(log, w.context.attempt) ==> NoVerdictYet(log + [e], w.context.attempt)
    ensures AsGranted(log, w.context) ==> AsGranted(log + [e], w.context)
  {
    ElsewhereKeepsMine(log, e, TaskOf(log, k), w.context);
    ElsewhereKeepsUnjudged(log, e, w.context.attempt);
    ElsewhereKeepsGrant(log, e, w.context.task);
  }

  lemma FrameWithContext(run: Run, log: Log, e: Event, k: Key, w: Worker)
    requires WorkerOk(run, log, k, w) && Elsewhere(log, e, k, w) && HasContext(w)
    ensures WorkerOk(run, log + [e], k, w)
  {
    LocalEventKeeps(log, e);
    ContextFrame(run, log, e, k, w);
    hide GrantFor, Mine, Unjudged, NoVerdictYet, AsGranted, Gathered, PassedTaskLevel;
    match w
    case Judging(x, c, receipts, _) => GatheredKept(run, log, e, GoalOf(log).value, Some(TaskOf(log, k)), c, receipts);
    case Passed(x, c, _) => PassedKept(log, e, c);
    case _ =>
  }

  /** A thread's position stays valid under the events of all other threads. */
  lemma WorkerFrame(run: Run, log: Log, e: Event, k: Key, w: Worker)
    requires WorkerOk(run, log, k, w) && Elsewhere(log, e, k, w)
    ensures WorkerOk(run, log + [e], k, w)
  {
    if HasContext(w) {
      FrameWithContext(run, log, e, k, w);
    } else {
      var t := TaskOf(log, k);
      LocalEventKeeps(log, e);
      AcceptedStep(log, e);
      AttemptsStep(log, e, t);
      if (w.Starting? || w.Ready?) && e.Accepted? {
        UpstreamUndisturbed(AcceptedMap(log), e.key, e.candidate, t.dependencies);
      }
    }
  }
}
