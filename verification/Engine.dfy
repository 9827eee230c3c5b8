/** The controller as a machine over its durable log. Each method is one step between two appends;
    its arguments are what the model, a check or the environment answered. Batch threads interleave
    in any order, a crash may happen after any step, and resuming rereads the log. */
module Engine {
  import opened Models
  import opened PlanGraph
  import opened StageContract
  import opened Evidence
  import opened RunLog
  import opened Replay
  import opened EngineInvariant
  import opened EngineSteps
  import opened EngineMoves
  import opened EngineMain
  import Hosts
  import Recheck
  import Scheduler

  /** The position `WORKER_STATES` assigns to a reported status. */
  function AfterResult(x: Context, status: WorkerStatus): Worker {
    match status
    case CompletedWork => Returned(x, false)
    case FailedWork => if x.authority.externalWrites then Doubtful else Failed(x)
    case UncertainWork => Doubtful
    case RequestedAuthority => Falling
    case UsageLimited => Aborted
  }

  lemma ResultRecorded(run: Run, log: Log, main: Main, pool: map<Key, Worker>, k: Key, x: Context)
    requires Inv(run, log, main, pool) && Running(main, pool, k) && pool[k] == Calling(x) && !Fenced(log)
    ensures var after := log + [WorkerResult(x.attempt, RequestedAuthority)];
            Inv(run, after, main, pool) && !Fenced(after)
  {
    ResultOk(run, log, k, x, RequestedAuthority, Calling(x));
    WorkerStep(run, log, main, pool, k, WorkerResult(x.attempt, RequestedAuthority), Calling(x));
    assert pool[k := Calling(x)] == pool;
  }

  lemma RequestRecorded(run: Run, log: Log, main: Main, pool: map<Key, Worker>, k: Key, x: Context, grant: Grant)
    requires Inv(run, log, main, pool) && Running(main, pool, k) && pool[k] == Calling(x) && !Fenced(log)
    ensures var after := log + [AuthorityRequested(x.attempt, grant)];
            Inv(run, after, main, pool) && !Fenced(after)
  {
    RequestOk(run, log, k, x, grant);
    WorkerStep(run, log, main, pool, k, AuthorityRequested(x.attempt, grant), Calling(x));
    assert pool[k := Calling(x)] == pool;
  }

  lemma WaitRecorded(run: Run, log: Log, main: Main, pool: map<Key, Worker>, k: Key, x: Context)
    requires Inv(run, log, main, pool) && Running(main, pool, k) && pool[k] == Calling(x) && !Fenced(log)
    ensures Inv(run, log + [ApprovalWait(x.attempt, x.task)], main, pool[k := Aborted])
  {
    WaitOk(run, log, k, x);
    WorkerStep(run, log, main, pool, k, ApprovalWait(x.attempt, x.task), Aborted);
  }

  /** The three events of a request, appended as one transaction. */
  function RequestEvents(x: Context, requested: Authority): seq<Event> {
    [WorkerResult(x.attempt, RequestedAuthority),
     AuthorityRequested(x.attempt, Grant(requested, x.version + 1)),
     ApprovalWait(x.attempt, x.task)]
  }

  lemma RequestAndWaitRecorded(run: Run, log: Log, main: Main, pool: map<Key, Worker>, k: Key, x: Context, grant: Grant)
    requires Inv(run, log, main, pool) && Running(main, pool, k) && pool[k] == Calling(x) && !Fenced(log)
    ensures Inv(run, log + [AuthorityRequested(x.attempt, grant)] + [ApprovalWait(x.attempt, x.task)], main,
                pool[k := Aborted])
  {
    RequestRecorded(run, log, main, pool, k, x, grant);
    WaitRecorded(run, log + [AuthorityRequested(x.attempt, grant)], main, pool, k, x);
  }

  lemma RequestEventsInOrder(log: Log, x: Context, requested: Authority)
    ensures log + RequestEvents(x, requested)
         == log + [WorkerResult(x.attempt, RequestedAuthority)]
                + [AuthorityRequested(x.attempt, Grant(requested, x.version + 1))]
                + [ApprovalWait(x.attempt, x.task)]
  {
  }

  lemma RequestOnRecord(run: Run, log: Log, main: Main, pool: map<Key, Worker>, k: Key, x: Context,
                        requested: Authority)
    requires Inv(run, log, main, pool) && Running(main, pool, k) && pool[k] == Calling(x) && !Fenced(log)
    ensures Inv(run, log + RequestEvents(x, requested), main, pool[k := Aborted])
  {
    RequestEventsInOrder(log, x, requested);
    ResultRecorded(run, log, main, pool, k, x);
    RequestAndWaitRecorded(run, log + [WorkerResult(x.attempt, RequestedAuthority)], main, pool, k, x,
                           Grant(requested, x.version + 1));
  }

  /** The context the next attempt of a Task is started with. */
  function NextContext(log: Log, t: Task, attempt: Key): Context
    requires GoalOf(log).Some? && Upstream(AcceptedMap(log), t.dependencies).Some?
  {
    Context(GoalOf(log).value, t, attempt, Upstream(AcceptedMap(log), t.dependencies).value,
            GrantFor(log, t).authority, GrantFor(log, t).version)
  }

  function RequiredFor(run: Run, log: Log, k: Key): seq<Check>
    requires PlanInForce(log) && k in Ids(LastPlan(log).tasks)
  {
    RequiredChecks(run.config.checks, CheckIds(GoalOf(log).value, Some(TaskOf(log, k))))
  }

  function RequiredForGoal(run: Run, log: Log): seq<Check>
    requires GoalOf(log).Some?
  {
    RequiredChecks(run.config.checks, CheckIds(GoalOf(log).value, None))
  }

  /** A proposed plan is parsed, then held to the stage contract. */
  method Admit(run: Run, binding: Binding, plan: Plan) returns (admitted: bool)
    ensures admitted <==> WellFormed(plan) && PlanAllowed(binding, run.config, plan)
  {
    var verdict := Dag(plan);
    if verdict != PlanGraph.Adopted { return false; }
    var violation := Validate(binding, run.config, plan);
    return violation.None?;
  }

  /** The ready Tasks to submit next; there always are some while work is pending. */
  method NextBatch(plan: Plan, accepted: map<Key, Candidate>, concurrency: nat) returns (batch: set<Key>)
    requires WellFormed(plan) && accepted.Keys <= Ids(plan.tasks) && accepted.Keys != Ids(plan.tasks) && concurrency > 0
    ensures batch != {} && BatchOk(plan, accepted, concurrency, batch)
  {
    var tasks := TaskMap(plan.tasks);
    var ready := ReadyTasks(tasks, tasks.Keys - accepted.Keys, accepted.Keys);
    PendingIsNotEmpty(accepted, tasks);
    ReadyIsNotEmpty(plan, tasks.Keys - accepted.Keys, accepted.Keys);
    ReadyHasUpstream(accepted, tasks, tasks.Keys - accepted.Keys);
    assert ready != {};
    batch := Scheduler.TakeBatch(ready, concurrency);
  }

  class Controller {
    const run: Run
    var log: Log
    var main: Main
    var pool: map<Key, Worker>

    ghost predicate Valid()
      reads this
    {
      Inv(run, log, main, pool)
    }

    constructor (run: Run)
      ensures Valid() && this.run == run && log == [] && main == Idle && pool == map[]
    {
      this.run := run;
      log, main, pool := [], Idle, map[];
    }

    // ---- the steps of one `_execute_task` thread ----

    /** The common shape of one append by one thread. */
    method Append(k: Key, e: Event, w: Worker)
      requires Valid() && Running(main, pool, k) && GoodStep(run, log, k, e, w)
      modifies this`log, this`pool
      ensures Valid() && log == old(log) + [e] && pool == old(pool)[k := w]
    {
      WorkerStep(run, log, main, pool, k, e, w);
      log, pool := log + [e], pool[k := w];
    }

    method Move(k: Key, w: Worker)
      requires Valid() && Running(main, pool, k) && WorkerOk(run, log, k, w)
      modifies this`pool
      ensures Valid() && pool == old(pool)[k := w]
    {
      WorkerMove(run, log, main, pool, k, w);
      pool := pool[k := w];
    }

    /** Tests the inputs, reads prior attempts and decides where to continue; no test ever fails. */
    method Begin(k: Key)
      requires Valid() && Running(main, pool, k) && pool[k].Starting?
      modifies this`pool
      ensures Valid()
      ensures pool == old(pool)[k := Begins(run, log, k, TaskOf(log, k), old(pool)[k].upstream)]
      ensures pool[k] == Resume(run, log, k, TaskOf(log, k))
    {
      NothingStale(run, log, k, pool[k].upstream);
      BeginOk(run, log, k, pool[k].upstream);
      Move(k, Begins(run, log, k, TaskOf(log, k), pool[k].upstream));
    }

    /** Starts another attempt unless the limit is reached. */
    method StartAttempt(k: Key, attempt: Key)
      requires Valid() && Running(main, pool, k) && pool[k].Ready? && !Fenced(log) && Unused(log, attempt)
      modifies this`log, this`pool
      ensures Valid()
      ensures var before, t := old(log), TaskOf(old(log), k);
              if |Attempts(before, t)| >= AttemptLimit(run, before, t) then
                log == before && pool == old(pool)[k := if DirectTask(before, k) then Falling else Failing]
              else
                log == before + [AttemptStarted(NextContext(before, t, attempt))]
                && pool == old(pool)[k := Invoking(NextContext(before, t, attempt))]
    {
      var t := TaskOf(log, k);
      if |Attempts(log, t)| >= AttemptLimit(run, log, t) {
        Move(k, if DirectTask(log, k) then Falling else Failing);
      } else {
        var x := NextContext(log, t, attempt);
        StartOk(run, log, k, x);
        Append(k, AttemptStarted(x), Invoking(x));
      }
    }

    method ReserveCall(k: Key)
      requires Valid() && Running(main, pool, k) && pool[k].Invoking? && !Fenced(log)
      modifies this`log, this`pool
      ensures Valid()
      ensures log == old(log) + [WorkerReserved(old(pool)[k].context.attempt)]
      ensures pool == old(pool)[k := Calling(old(pool)[k].context)]
    {
      ReserveOk(run, log, k, pool[k].context);
      Append(k, WorkerReserved(pool[k].context.attempt), Calling(pool[k].context));
    }

    /** An exception after which an external effect may have happened, or is reported to have. */
    method AppendUncertain(k: Key)
      requires Valid() && Running(main, pool, k)
      modifies this`log, this`pool
      ensures Valid() && log == old(log) + [Uncertain] && pool == old(pool)[k := Aborted]
    {
      DoubtOk(run, log, k);
      Append(k, Uncertain, Aborted);
    }

    /** A transport failure or an invalid response: another call for local work only. */
    method RetryCall(k: Key)
      requires Valid() && Running(main, pool, k) && pool[k].Calling?
      modifies this`log, this`pool
      ensures Valid()
      ensures var x := old(pool)[k].context;
              if x.authority.externalWrites then log == old(log) + [Uncertain] && pool == old(pool)[k := Aborted]
              else log == old(log) && pool == old(pool)[k := Invoking(x)]
    {
      if pool[k].context.authority.externalWrites {
        AppendUncertain(k);
      } else {
        Move(k, Invoking(pool[k].context));
      }
    }

    /** A result that is recorded as it is; the position follows from its action. */
    method RecordResult(k: Key, status: WorkerStatus)
      requires Valid() && Running(main, pool, k) && pool[k].Calling? && !Fenced(log)
      requires !status.UsageLimited? && (status.RequestedAuthority? ==> DirectTask(log, k))
      modifies this`log, this`pool
      ensures Valid()
      ensures log == old(log) + [WorkerResult(old(pool)[k].context.attempt, status)]
      ensures pool == old(pool)[k := AfterResult(old(pool)[k].context, status)]
    {
      var x := pool[k].context;
      var w := AfterResult(x, status);
      ResultOk(run, log, k, x, status, w);
      Append(k, WorkerResult(x.attempt, status), w);
    }

    /** A request within the ceiling pauses the Run. */
    method PauseForApproval(k: Key, requested: Authority)
      requires Valid() && Running(main, pool, k) && pool[k].Calling? && !Fenced(log)
      modifies this`log, this`pool
      ensures Valid()
      ensures log == old(log) + RequestEvents(old(pool)[k].context, requested)
      ensures pool == old(pool)[k := Aborted]
    {
      RequestOnRecord(run, log, main, pool, k, pool[k].context, requested);
      log, pool := log + RequestEvents(pool[k].context, requested), pool[k := Aborted];
    }

    /** A request for more authority: a direct Task hands over to planning, a request beyond the ceiling
        fails the attempt, any other one pauses the Run. */
    method RequestAuthority(k: Key, requested: Authority)
      requires Valid() && Running(main, pool, k) && pool[k].Calling? && !Fenced(log)
      modifies this`log, this`pool
      ensures Valid()
      ensures var x, before := old(pool)[k].context, old(log);
              if DirectTask(before, k) then
                log == before + [WorkerResult(x.attempt, RequestedAuthority)] && pool == old(pool)[k := Falling]
              else if Hosts.Within(requested, run.config.ceiling) then
                log == before + RequestEvents(x, requested) && pool == old(pool)[k := Aborted]
              else if x.authority.externalWrites then
                log == before + [Uncertain] && pool == old(pool)[k := Aborted]
              else
                log == before + [AttemptFailed(x.attempt)] && pool == old(pool)[k := Ready]
    {
      if DirectTask(log, k) {
        RecordResult(k, RequestedAuthority);
      } else if Hosts.Within(requested, run.config.ceiling) {
        PauseForApproval(k, requested);
      } else {
        FailAttempt(k);
      }
    }

    /** An exhausted allowance stops the Run; what an external attempt may have done is then uncertain. */
    method StopOnUsage(k: Key)
      requires Valid() && Running(main, pool, k) && pool[k].Calling?
      modifies this`log, this`pool
      ensures Valid() && log == old(log) + [Stopped]
      ensures pool == old(pool)[k := if old(pool)[k].context.authority.externalWrites then Doubtful else Aborted]
    {
      StopRun();
      Move(k, if pool[k].context.authority.externalWrites then Doubtful else Aborted);
    }

    /** The worker reported `status`, with a request where the status calls for one. */
    method ReportResult(k: Key, status: WorkerStatus, requested: Authority)
      requires Valid() && Running(main, pool, k) && pool[k].Calling? && !Fenced(log)
      modifies this`log, this`pool
      ensures Valid()
      ensures var x, before := old(pool)[k].context, old(log);
              status.UsageLimited? ==>
                && log == before + [Stopped]
                && pool == old(pool)[k := if x.authority.externalWrites then Doubtful else Aborted]
      ensures var x, before := old(pool)[k].context, old(log);
              status.RequestedAuthority? ==>
                if DirectTask(before, k) then
                  log == before + [WorkerResult(x.attempt, status)] && pool == old(pool)[k := Falling]
                else if Hosts.Within(requested, run.config.ceiling) then
                  log == before + RequestEvents(x, requested) && pool == old(pool)[k := Aborted]
                else if x.authority.externalWrites then
                  log == before + [Uncertain] && pool == old(pool)[k := Aborted]
                else
                  log == before + [AttemptFailed(x.attempt)] && pool == old(pool)[k := Ready]
      ensures var x, before := old(pool)[k].context, old(log);
              !status.UsageLimited? && !status.RequestedAuthority? ==>
                log == before + [WorkerResult(x.attempt, status)] && pool == old(pool)[k := AfterResult(x, status)]
    {
      match status
      case UsageLimited => StopOnUsage(k);
      case RequestedAuthority => RequestAuthority(k, requested);
      case _ => RecordResult(k, status);
    }

    /** A failed local attempt is recorded; external ones become uncertain instead. */
    method FailAttempt(k: Key)
      requires Valid() && Running(main, pool, k) && HasContext(pool[k])
      modifies this`log, this`pool
      ensures Valid()
      ensures var x := old(pool)[k].context;
              if x.authority.externalWrites then log == old(log) + [Uncertain] && pool == old(pool)[k := Aborted]
              else
                && log == old(log) + [AttemptFailed(x.attempt)]
                && pool == old(pool)[k := if Resumed(old(pool)[k]) && DirectTask(old(log), k) then Falling else Ready]
    {
      var x := pool[k].context;
      if x.authority.externalWrites {
        AppendUncertain(k);
      } else {
        GiveUpOk(run, log, k, x);
        Append(k, AttemptFailed(x.attempt), if Resumed(pool[k]) && DirectTask(log, k) then Falling else Ready);
      }
    }

    /** Captures the quiesced workspace as the attempt's Candidate. */
    method FreezeCandidate(k: Key, tree: Tree)
      requires Valid() && Running(main, pool, k) && pool[k].Returned? && !Fenced(log)
      modifies this`log, this`pool
      ensures Valid()
      ensures var x, c := old(pool)[k].context, Freeze(old(pool)[k].context, tree);
              && log == old(log) + [CandidateFrozen(c)]
              && pool == old(pool)[k := Judging(x, c, [], old(pool)[k].resumed)]
    {
      var x := pool[k].context;
      FreezeOk(run, log, k, x, tree, pool[k].resumed);
      Append(k, CandidateFrozen(Freeze(x, tree)), Judging(x, Freeze(x, tree), [], pool[k].resumed));
    }

    /** The next required check ran. */
    method RunCheck(k: Key, passed: bool)
      requires Valid() && Running(main, pool, k) && pool[k].Judging?
      requires |pool[k].receipts| < |RequiredFor(run, log, k)|
      modifies this`log, this`pool
      ensures Valid()
      ensures var w := old(pool)[k];
              var d := RequiredFor(run, old(log), k)[|w.receipts|];
              var q := Receipt(d.id, d.externalEffect, passed, w.candidate);
              log == old(log) + [CheckResult(q)] && pool == old(pool)[k := w.(receipts := w.receipts + [q])]
    {
      var w := pool[k];
      var d := RequiredFor(run, log, k)[|w.receipts|];
      var q := Receipt(d.id, d.externalEffect, passed, w.candidate);
      CheckOk(run, log, k, w.context, w.candidate, w.receipts, w.resumed, q);
      Append(k, CheckResult(q), w.(receipts := w.receipts + [q]));
    }

    /** Verification concludes with what the independent verifier found. */
    method Conclude(k: Key, reviewed: bool, findings: seq<Finding>)
      requires Valid() && Running(main, pool, k) && pool[k].Judging? && !Fenced(log)
      requires |pool[k].receipts| == |RequiredFor(run, log, k)|
      modifies this`log, this`pool
      ensures Valid()
      ensures var w := old(pool)[k];
              var r := TaskRecord(run, old(log), GoalOf(old(log)).value, TaskOf(old(log), k), w.candidate, w.receipts,
                                  reviewed, findings);
              && log == old(log) + [Verified(r)]
              && pool == old(pool)[k := if r.passed then Passed(w.context, w.candidate, w.resumed)
                                        else Refused(w.context, w.resumed)]
    {
      var w := pool[k];
      var r := TaskRecord(run, log, GoalOf(log).value, TaskOf(log, k), w.candidate, w.receipts, reviewed, findings);
      VerdictOk(run, log, k, w.context, w.candidate, w.receipts, w.resumed, reviewed, findings);
      Append(k, Verified(r),
             if r.passed then Passed(w.context, w.candidate, w.resumed) else Refused(w.context, w.resumed));
    }

    /** The worker review rejected the Candidate before any verification. */
    method RejectReview(k: Key)
      requires Valid() && Running(main, pool, k) && pool[k].Judging?
      modifies this`pool
      ensures Valid() && pool == old(pool)[k := Refused(old(pool)[k].context, old(pool)[k].resumed)]
    {
      Move(k, Refused(pool[k].context, pool[k].resumed));
    }

    method Accept(k: Key)
      requires Valid() && Running(main, pool, k) && pool[k].Passed? && !Fenced(log)
      modifies this`log, this`pool
      ensures Valid()
      ensures log == old(log) + [Accepted(k, old(pool)[k].candidate)]
      ensures pool == old(pool)[k := Finished(old(pool)[k].candidate)]
    {
      var w := pool[k];
      AcceptOk(run, log, k, w.context, w.candidate, w.resumed);
      Append(k, Accepted(k, w.candidate), Finished(w.candidate));
    }

    /** Any other exception ends the thread: a stop, a wait, an environment failure. */
    method Abort(k: Key)
      requires Valid() && Running(main, pool, k)
      modifies this`pool
      ensures Valid() && pool == old(pool)[k := Aborted]
    {
      Move(k, Aborted);
    }

    /** A ValueError or timeout outside the attempt loop fails the Task. */
    method FailTask(k: Key)
      requires Valid() && Running(main, pool, k)
      modifies this`pool
      ensures Valid() && pool == old(pool)[k := Failing]
    {
      StillUnaccepted(run, log, k, pool[k]);
      Move(k, Failing);
    }

    /** A direct attempt hands over to planning. */
    method FallBack(k: Key)
      requires Valid() && Running(main, pool, k) && DirectTask(log, k)
      modifies this`pool
      ensures Valid() && pool == old(pool)[k := Falling]
    {
      StillUnaccepted(run, log, k, pool[k]);
      Move(k, Falling);
    }

    // ---- the controller thread ----

    /** Entering `_execute`: a stopped, finished, waiting or uncertain Run goes no further. */
    method Enter()
      requires Valid() && main.Idle?
      modifies this`main
      ensures Valid() && main == if Blocked(log) then Idle else Head
    {
      if !Blocked(log) { main := Head; }
    }

    /** A question pauses the Run until it is answered. */
    method AskClarification()
      requires Valid() && main.Head? && GoalOf(log).None? && !Fenced(log)
      modifies this`log, this`main
      ensures Valid() && log == old(log) + [ClarificationWait] && main == Idle
      ensures Blocked(log)
    {
      OutsideEvent(run, log, main, pool, ClarificationWait);
      Appended(log, ClarificationWait);
      log := log + [ClarificationWait];
      LeaveStep(run, log, main, pool);
      main := Idle;
    }

    /** `answer`: recorded exactly while a question is open. */
    method AnswerClarification() returns (recorded: bool)
      requires Valid() && main.Idle?
      modifies this`log
      ensures Valid() && recorded == AwaitsAnswer(old(log))
      ensures log == old(log) + if recorded then [ClarificationAnswer] else []
    {
      recorded := AwaitsAnswer(log);
      if recorded {
        OutsideEvent(run, log, main, pool, ClarificationAnswer);
        log := log + [ClarificationAnswer];
      }
    }

    method Clarify(g: Goal)
      requires Valid() && main.Head? && GoalOf(log).None? && !Fenced(log) && JustifiedGoal(run, log, g)
      modifies this`log
      ensures Valid() && log == old(log) + [GoalSet(g)]
    {
      Appended(log, GoalSet(g));
      HeadStep(run, log, main, GoalSet(g));
      log := log + [GoalSet(g)];
    }

    /** A direct plan is tried first where policy, authority and evidence allow it. */
    method StartDirect(description: string) returns (outcome: DirectOutcome)
      requires Valid() && main.Head? && GoalOf(log).Some? && Plans(log) == [] && !Fenced(log)
      modifies this`log, this`main
      ensures Valid() && outcome == DirectOutcomeOf(run, GoalOf(old(log)).value, description)
      ensures var g := GoalOf(old(log)).value;
              var plan := DirectPlan(g, description);
              log == old(log) + match outcome
                                case Begun => [DirectStarted(plan, g), PlanAdopted(plan, false)]
                                case NotReady => [Stopped]
                                case _ => []
      ensures main == if outcome.NotReady? || outcome.Undeclared? then Idle else Head
    {
      hide HistoryOk, DirectPlan, Inv;
      HeadHasNoThreads(run, log, pool);
      var g := GoalOf(log).value;
      outcome := DirectOutcomeOf(run, g, description);
      match outcome {
        case Begun =>
          var plan := DirectPlan(g, description);
          DirectAdopted(run, log, g, description);
          log := log + [DirectStarted(plan, g), PlanAdopted(plan, false)];
        case NotReady =>
          StopRun();
          LeaveStep(run, log, main, pool);
          main := Idle;
        case Undeclared =>
          LeaveStep(run, log, main, pool);
          main := Idle;
        case Unsuitable =>
      }
    }

    /** Planning, for a fresh Run or after a direct fallback: only a valid, allowed plan is adopted. */
    method AdoptPlan(plan: Plan, reviewed: bool) returns (adopted: bool)
      requires Valid() && main.Head? && GoalOf(log).Some? && (Plans(log) == [] || StaleDirect(log)) && !Fenced(log)
      modifies this`log
      ensures Valid()
      ensures adopted <==>
                reviewed && WellFormed(plan) && PlanAllowed(BindPlanning(GoalOf(old(log)).value), run.config, plan)
      ensures log == old(log) + if adopted then [PlanAdopted(plan, false)] else []
    {
      adopted := Admit(run, BindPlanning(GoalOf(log).value), plan);
      adopted := adopted && reviewed;
      if !adopted { return; }
      PlanningJustified(run, log, plan);
      AdoptionIsWhole(log, plan, false);
      HeadStep(run, log, main, PlanAdopted(plan, false));
      log := log + [PlanAdopted(plan, false)];
    }

    /** Rereading the accepted work of the plan in force; on a log of this controller it succeeds. */
    method LoadAccepted()
      requires Valid() && main.Head? && GoalOf(log).Some? && Plans(log) != [] && !StaleDirect(log)
      modifies this`main
      ensures Valid() && main == Scheduling(AcceptedIn(log, LastPlan(log)))
    {
      AcceptedNeverRejects(run, log);
      var accepted := Recheck.RereadAccepted(run, log, LastPlan(log));
      main := Scheduling(accepted.value);
    }

    /** Submits ready Tasks, never more than `concurrency`; while work is pending some Task is ready. */
    method LaunchBatch() returns (batch: set<Key>)
      requires Valid() && main.Scheduling? && main.accepted.Keys != Ids(LastPlan(log).tasks)
      requires run.config.concurrency > 0
      modifies this`main, this`pool
      ensures Valid() && main == Joining(old(main).accepted, false) && batch != {}
      ensures BatchOk(LastPlan(log), old(main).accepted, run.config.concurrency, batch)
      ensures pool == Launched(old(main).accepted, TaskMap(LastPlan(log).tasks), batch)
    {
      hide Inv, HistoryOk, BatchOk;
      var accepted := main.accepted;
      SchedulingFacts(run, log, accepted, pool);
      batch := NextBatch(LastPlan(log), accepted, run.config.concurrency);
      LaunchOk(run, log, accepted, run.config.concurrency, batch);
      main, pool := Joining(accepted, false), Launched(accepted, TaskMap(LastPlan(log).tasks), batch);
    }

    /** One future of the batch is done. */
    method Collect(k: Key)
      requires Valid() && main.Joining? && k in pool && Terminal(pool[k]) && (pool[k].Falling? ==> !Fenced(log))
      modifies this`log, this`main, this`pool
      ensures Valid()
      ensures var m := old(main);
              match old(pool)[k]
              case Finished(c) => log == old(log) && main == Joining(m.accepted[k := c], m.failed)
              case Failing => log == old(log) + [TaskFailed(k)] && main == Joining(m.accepted, true)
              case Falling =>
                log == old(log) + [DirectFellBack(GoalOf(old(log)).value)] && main == Head && pool == map[]
              case _ => log == old(log) && main == Draining
      ensures pool == old(pool) - {k}
    {
      if pool[k].Finished? {
        CollectFinished(run, log, main, pool, k);
        main := Joining(main.accepted[k := pool[k].candidate], main.failed);
      } else if pool[k].Failing? {
        CollectFailed(run, log, main, pool, k);
        log, main := log + [TaskFailed(k)], Joining(main.accepted, true);
      } else if pool[k].Falling? {
        CollectFalling(run, log, main, pool, k);
        log, main := log + [DirectFellBack(GoalOf(log).value)], Head;
        assert pool - {k} == map[];
      } else {
        DrainingStep(run, log, main, pool, k);
        main := Draining;
      }
      pool := pool - {k};
    }

    /** All futures are collected: recover after a failure, otherwise schedule the next round. */
    method EndBatch()
      requires Valid() && main.Joining? && pool == map[]
      modifies this`main
      ensures Valid()
      ensures main == if old(main).failed then Recovering(old(main).accepted) else Scheduling(old(main).accepted)
    {
      assert main.accepted == AcceptedIn(log, LastPlan(log));
      main := if main.failed then Recovering(main.accepted) else Scheduling(main.accepted);
    }

    /** After another exception the remaining threads still finish before the Run is left. */
    method EndDrain()
      requires Valid() && main.Draining? && forall k :: k in pool ==> Terminal(pool[k])
      modifies this`main, this`pool
      ensures Valid() && main == Idle && pool == map[]
    {
      main, pool := Idle, map[];
    }

    method AdmitRecovery(accepted: map<Key, Candidate>, plan: Plan) returns (admitted: bool)
      requires GoalOf(log).Some? && Plans(log) != []
      ensures admitted <==> RecoveryAllowed(run, log, accepted, plan)
    {
      if |Plans(log)| - 1 >= run.config.replans { return false; }
      var binding := BindRecovery(GoalOf(log).value, Plans(log), FailedTasks(log) - accepted.Keys, run.config);
      admitted := Admit(run, binding, plan);
    }

    /** `_recover`: adopts a reviewed plan only within the replan limit and under every recovery constraint. */
    method Recover(plan: Plan, reviewed: bool) returns (adopted: bool)
      requires Valid() && main.Recovering? && !Fenced(log)
      modifies this`log, this`main
      ensures Valid()
      ensures adopted <==> reviewed && RecoveryAllowed(run, old(log), old(main).accepted, plan)
      ensures log == old(log) + if adopted then [PlanAdopted(plan, true)] else []
      ensures main == if adopted then Head else Idle
    {
      hide RecoveryAllowed, HistoryOk;
      adopted := AdmitRecovery(main.accepted, plan);
      adopted := adopted && reviewed;
      if adopted {
        RecoveryStep(run, log, main.accepted, plan);
        log, main := log + [PlanAdopted(plan, true)], Head;
      } else {
        LeaveStep(run, log, main, pool);
        main := Idle;
      }
    }

    /** Nothing is pending: the Goal is decided on the accepted result. */
    method BeginGoal()
      requires Valid() && main.Scheduling? && main.accepted.Keys == Ids(LastPlan(log).tasks)
      modifies this`main
      ensures Valid() && LastPlan(log).resultTask in old(main).accepted
      ensures main == Finishing(old(main).accepted[LastPlan(log).resultTask], [])
    {
      EveryPlanIsWellFormed(run, log, LastPlan(log));
      main := Finishing(main.accepted[LastPlan(log).resultTask], []);
    }

    /** Reuses the direct Task's verification when it covers the Goal. */
    method ReuseGoal() returns (reused: bool)
      requires Valid() && main.Finishing? && !Fenced(log)
      modifies this`log, this`main
      ensures Valid()
      ensures var goal, final := GoalOf(old(log)).value, old(main).final;
              match JointRecord(run, old(log), goal, final.task, final)
              case Some(r) =>
                reused && log == old(log) + [Verified(ReusedRecord(run, goal, r))] && main == Attested(final)
              case None => !reused && log == old(log) && main == old(main)
    {
      var goal := GoalOf(log).value;
      var joint := JointRecord(run, log, goal, main.final.task, main.final);
      if joint.None? { return false; }
      var r := ReusedRecord(run, goal, joint.value);
      ReuseJustified(run, log, main);
      GoalRecordStep(run, log, main, r);
      log, main := log + [Verified(r)], Attested(main.final);
      return true;
    }

    method RunGoalCheck(passed: bool)
      requires Valid() && main.Finishing?
      requires |main.receipts| < |RequiredChecks(run.config.checks, CheckIds(GoalOf(log).value, None))|
      modifies this`log, this`main
      ensures Valid()
      ensures var m := old(main);
              var d := RequiredChecks(run.config.checks, CheckIds(GoalOf(old(log)).value, None))[|m.receipts|];
              var q := Receipt(d.id, d.externalEffect, passed, m.final);
              log == old(log) + [CheckResult(q)] && main == Finishing(m.final, m.receipts + [q])
    {
      var d := RequiredChecks(run.config.checks, CheckIds(GoalOf(log).value, None))[|main.receipts|];
      var q := Receipt(d.id, d.externalEffect, passed, main.final);
      assert pool == map[];
      GoalCheckStep(run, log, main, q);
      log, main := log + [CheckResult(q)], Finishing(main.final, main.receipts + [q]);
    }

    method ConcludeGoal(reviewed: bool, findings: seq<Finding>)
      requires Valid() && main.Finishing? && !Fenced(log)
      requires |main.receipts| == |RequiredChecks(run.config.checks, CheckIds(GoalOf(log).value, None))|
      modifies this`log, this`main
      ensures Valid()
      ensures var m := old(main);
              var r := GoalRecord(run, old(log), GoalOf(old(log)).value, m.final, m.receipts, reviewed, findings);
              log == old(log) + [Verified(r)] && main == if r.passed then Attested(m.final) else Unproven(m.final)
    {
      var r := GoalRecord(run, log, GoalOf(log).value, main.final, main.receipts, reviewed, findings);
      GoalRecordJustified(run, log, main, reviewed, findings);
      GoalRecordStep(run, log, main, r);
      log, main := log + [Verified(r)], if r.passed then Attested(main.final) else Unproven(main.final);
    }

    method Complete()
      requires Valid() && main.Attested? && !Fenced(log)
      modifies this`log, this`main
      ensures Valid() && log == old(log) + [Completed(old(main).final, GoalOf(old(log)).value)] && main == Idle
    {
      CompleteStep(run, log, main.final);
      log, main := log + [Completed(main.final, GoalOf(log).value)], Idle;
    }

    /** A rejected Goal is recovered, unless a Task of the plan could write externally. */
    method RejectGoal()
      requires Valid() && main.Unproven?
      modifies this`log, this`main
      ensures Valid() && log == old(log) + [GoalRejected(old(main).final)]
      ensures var before, plan := old(log), LastPlan(old(log));
              main == if exists t :: t in plan.tasks && t.authority.externalWrites then Doubting(old(main).final)
                      else Recovering(AcceptedIn(before, plan))
    {
      hide Inv, HistoryOk;
      UnprovenFacts(run, log, main, pool);
      var final, plan := main.final, LastPlan(log);
      RejectionStep(run, log, final);
      main := if exists t | t in plan.tasks :: t.authority.externalWrites then Doubting(final)
              else Recovering(AcceptedIn(log, plan));
      log := log + [GoalRejected(final)];
    }

    /** The second append after such a rejection; the controller may die, or be stopped, before it. */
    method DoubtGoal()
      requires Valid() && main.Doubting?
      modifies this`log, this`main
      ensures Valid() && log == old(log) + [Uncertain] && main == Idle
    {
      assert pool == map[];
      DoubtStep(run, log, main.final);
      log, main := log + [Uncertain], Idle;
    }

    /** Any exception of the controller thread between batches, after which the Run is left. */
    method LeaveRun()
      requires Valid() && pool == map[]
      modifies this`main
      ensures Valid() && main == Idle
    {
      main := Idle;
    }

    // ---- the environment ----

    /** The process dies: only the log survives. */
    method Crash()
      requires Valid()
      modifies this`main, this`pool
      ensures Valid() && main == Idle && pool == map[]
    {
      main, pool := Idle, map[];
    }

    method StopRun()
      requires Valid()
      modifies this`log
      ensures Valid() && log == old(log) + [Stopped]
    {
      OutsideEvent(run, log, main, pool, Stopped);
      log := log + [Stopped];
    }

    /** The operator's decision on an open request, while no controller runs: a rejection is recorded, an
        approval takes effect exactly when the Task with the grant is still supported. */
    method DecideAuthority(attempt: Key, task: Task, grant: Grant, approve: bool)
      requires Valid() && main.Idle? && !Fenced(log)
      modifies this`log
      ensures Valid()
      ensures log == old(log) +
                if !RequestOpen(old(log), attempt, task, grant) then []
                else if !approve then [AuthorityRejected(attempt)]
                else if JustifiedGrant(run, old(log), attempt, task, grant) then
                  [AuthorityApplied(attempt, task, grant)]
                else []
    {
      if !RequestOpen(log, attempt, task, grant) { return; }
      if !approve {
        OutsideEvent(run, log, main, pool, AuthorityRejected(attempt));
        log := log + [AuthorityRejected(attempt)];
      } else if JustifiedGrant(run, log, attempt, task, grant) {
        Appended(log, AuthorityApplied(attempt, task, grant));
        log := log + [AuthorityApplied(attempt, task, grant)];
      }
    }
  }

  predicate Resumed(w: Worker) {
    (w.Returned? || w.Judging? || w.Passed? || w.Refused?) && w.resumed
  }
}
