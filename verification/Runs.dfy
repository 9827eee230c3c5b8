/** Whole runs: any schedule of steps of any threads, answers, stops, crashes and restarts. */
module Runs {
  import opened Models
  import opened RunLog
  import opened Replay
  import opened EngineInvariant
  import opened EngineSteps
  import opened EngineMoves
  import opened EngineMain
  import opened Engine
  import opened Granting
  import Completion

  /** One thing that happens next; `task` names the thread that moves. */
  datatype ThreadChoice =
    | Begins
    | Starts(attempt: Key)
    | Reserves
    | Retries
    | Reports(status: WorkerStatus, requested: Authority)
    | FailsAttempt
    | Freezes(tree: Tree)
    | Checks(passed: bool)
    | Concludes(reviewed: bool, findings: seq<Finding>)
    | RejectsReview
    | Accepts
    | Doubts
    | Aborts
    | FailsTask
    | FallsBack

  datatype Choice =
    | Thread(task: Key, move: ThreadChoice)
    | Enters
    | Asks
    | Answers
    | Clarifies(goal: Goal)
    | StartsDirect(description: string)
    | Proposes(plan: Plan, reviewed: bool)
    | Loads
    | Launches
    | Collects(task: Key)
    | EndsBatch
    | EndsDrain
    | Recovers(plan: Plan, reviewed: bool)
    | BeginsGoal
    | ReusesGoal
    | ChecksGoal(passed: bool)
    | ConcludesGoal(reviewed: bool, findings: seq<Finding>)
    | Completes
    | RejectsGoal
    | DoubtsGoal
    | Leaves
    | Crashes
    | IsStopped
    | Decides(attempt: Key, definition: Task, grant: Grant, approve: bool)

  lemma RunningFacts(run: Run, log: Log, main: Main, pool: map<Key, Worker>, k: Key)
    requires Inv(run, log, main, pool) && Running(main, pool, k)
    ensures PlanInForce(log) && k in Ids(LastPlan(log).tasks)
  {
    StillUnaccepted(run, log, k, pool[k]);
  }

  /** The next call of an attempt. */
  method MoveStart(c: Controller, k: Key, move: ThreadChoice)
    requires c.Valid() && Running(c.main, c.pool, k)
    modifies c
    ensures c.Valid() && (!move.Begins? ==> Follows(old(c.log), old(c.pool), c.log, c.pool))
  {
    hide Inv;
    var w, open := c.pool[k], !Fenced(c.log);
    match move {
      case Begins => if w.Starting? { c.Begin(k); }
      case Starts(attempt) => if w.Ready? && open && Unused(c.log, attempt) { c.StartAttempt(k, attempt); }
      case Reserves => if w.Invoking? && open { c.ReserveCall(k); }
      case _ =>
    }
  }

  /** What becomes of a call that is under way. */
  method MoveCall(c: Controller, k: Key, move: ThreadChoice)
    requires c.Valid() && Running(c.main, c.pool, k)
    modifies c
    ensures c.Valid() && Follows(old(c.log), old(c.pool), c.log, c.pool)
  {
    hide Inv;
    var w, open := c.pool[k], !Fenced(c.log);
    match move {
      case Retries => if w.Calling? { c.RetryCall(k); }
      case Reports(status, requested) => if w.Calling? && open { c.ReportResult(k, status, requested); }
      case FailsAttempt => if HasContext(w) { c.FailAttempt(k); }
      case _ =>
    }
  }

  /** Freezing what a call returned, and the verdicts on it. */
  method MoveJudging(c: Controller, k: Key, move: ThreadChoice)
    requires c.Valid() && Running(c.main, c.pool, k)
    modifies c
    ensures c.Valid() && Follows(old(c.log), old(c.pool), c.log, c.pool)
  {
    hide Inv;
    var w, open := c.pool[k], !Fenced(c.log);
    match move {
      case Freezes(tree) => if w.Returned? && open { c.FreezeCandidate(k, tree); }
      case RejectsReview => if w.Judging? { c.RejectReview(k); }
      case Accepts => if w.Passed? && open { c.Accept(k); }
      case _ =>
    }
  }

  method MoveCheck(c: Controller, k: Key, passed: bool)
    requires c.Valid() && Running(c.main, c.pool, k) && c.pool[k].Judging?
    modifies c
    ensures c.Valid() && Follows(old(c.log), old(c.pool), c.log, c.pool)
  {
    RunningFacts(c.run, c.log, c.main, c.pool, k);
    hide Inv, PlanInForce, RequiredFor;
    hide Follows;
    ghost var log, pool := c.log, c.pool;
    NothingMoved(log, pool);
    if |c.pool[k].receipts| < |RequiredFor(c.run, c.log, k)| {
      c.RunCheck(k, passed);
      OneAppended(log, pool, c.log, c.pool, k);
    }
  }

  method MoveVerdict(c: Controller, k: Key, reviewed: bool, findings: seq<Finding>)
    requires c.Valid() && Running(c.main, c.pool, k) && c.pool[k].Judging?
    modifies c
    ensures c.Valid() && Follows(old(c.log), old(c.pool), c.log, c.pool)
  {
    RunningFacts(c.run, c.log, c.main, c.pool, k);
    hide Inv, PlanInForce, RequiredFor, TaskRecord;
    hide Follows;
    ghost var log, pool := c.log, c.pool;
    NothingMoved(log, pool);
    if !Fenced(c.log) && |c.pool[k].receipts| == |RequiredFor(c.run, c.log, k)| {
      c.Conclude(k, reviewed, findings);
      OneAppended(log, pool, c.log, c.pool, k);
    }
  }

  /** An end of the thread without a result. */
  method MoveEnd(c: Controller, k: Key, move: ThreadChoice)
    requires c.Valid() && Running(c.main, c.pool, k)
    modifies c
    ensures c.Valid() && Follows(old(c.log), old(c.pool), c.log, c.pool)
  {
    hide Inv;
    match move {
      case Doubts => c.AppendUncertain(k);
      case Aborts => c.Abort(k);
      case FailsTask => c.FailTask(k);
      case FallsBack => if DirectTask(c.log, k) { c.FallBack(k); }
      case _ =>
    }
  }

  /** One thread moves if its position allows the choice; otherwise nothing happens. */
  method MoveThread(c: Controller, k: Key, move: ThreadChoice)
    requires c.Valid()
    modifies c
    ensures c.Valid() && (!move.Begins? ==> Follows(old(c.log), old(c.pool), c.log, c.pool))
  {
    hide Inv;
    if (c.main.Joining? || c.main.Draining?) && k in c.pool && !Terminal(c.pool[k]) {
      if move.Begins? || move.Starts? || move.Reserves? {
        MoveStart(c, k, move);
      } else if move.Retries? || move.Reports? || move.FailsAttempt? {
        MoveCall(c, k, move);
      } else if move.Doubts? || move.Aborts? || move.FailsTask? || move.FallsBack? {
        MoveEnd(c, k, move);
      } else if move.Checks? {
        if c.pool[k].Judging? { MoveCheck(c, k, move.passed); }
      } else if move.Concludes? {
        if c.pool[k].Judging? { MoveVerdict(c, k, move.reviewed, move.findings); }
      } else {
        MoveJudging(c, k, move);
      }
    }
  }

  /** The controller thread decides or waits between batches. */
  method MoveHead(c: Controller, choice: Choice)
    requires c.Valid()
    modifies c
    ensures c.Valid() && Follows(old(c.log), old(c.pool), c.log, c.pool)
  {
    var open := !Fenced(c.log);
    match choice
    case Enters => if c.main.Idle? { c.Enter(); }
    case Asks => if c.main.Head? && GoalOf(c.log).None? && open { c.AskClarification(); }
    case Answers => if c.main.Idle? { var _ := c.AnswerClarification(); }
    case Clarifies(g) =>
      if c.main.Head? && GoalOf(c.log).None? && open && JustifiedGoal(c.run, c.log, g) { c.Clarify(g); }
    case StartsDirect(description) =>
      if c.main.Head? && GoalOf(c.log).Some? && Plans(c.log) == [] && open { var _ := c.StartDirect(description); }
    case Proposes(plan, reviewed) =>
      if c.main.Head? && GoalOf(c.log).Some? && (Plans(c.log) == [] || StaleDirect(c.log)) && open {
        var _ := c.AdoptPlan(plan, reviewed);
      }
    case Loads =>
      if c.main.Head? && GoalOf(c.log).Some? && Plans(c.log) != [] && !StaleDirect(c.log) { c.LoadAccepted(); }
    case Decides(attempt, definition, grant, approve) =>
      if c.main.Idle? && open { c.DecideAuthority(attempt, definition, grant, approve); }
    case Leaves => if c.pool == map[] { c.LeaveRun(); }
    case Crashes => c.Crash();
    case IsStopped => c.StopRun();
    case _ =>
  }

  method MoveLaunch(c: Controller)
    requires c.Valid() && c.run.config.concurrency > 0
    modifies c
    ensures c.Valid() && Follows(old(c.log), old(c.pool), c.log, c.pool)
  {
    if c.main.Scheduling? && c.main.accepted.Keys != Ids(LastPlan(c.log).tasks) {
      hide Inv, BatchOk;
      var _ := c.LaunchBatch();
    }
  }

  method MoveCollect(c: Controller, k: Key)
    requires c.Valid()
    modifies c
    ensures c.Valid() && Follows(old(c.log), old(c.pool), c.log, c.pool)
  {
    hide Inv;
    if c.main.Joining? && k in c.pool && Terminal(c.pool[k]) && (c.pool[k].Falling? ==> !Fenced(c.log)) {
      c.Collect(k);
    }
  }

  /** The ends of a batch. */
  method MoveBatch(c: Controller, choice: Choice)
    requires c.Valid()
    modifies c
    ensures c.Valid() && Follows(old(c.log), old(c.pool), c.log, c.pool)
  {
    match choice
    case EndsBatch => if c.main.Joining? && c.pool == map[] { c.EndBatch(); }
    case EndsDrain => if c.main.Draining? && forall k | k in c.pool :: Terminal(c.pool[k]) { c.EndDrain(); }
    case Recovers(plan, reviewed) => if c.main.Recovering? && !Fenced(c.log) { var _ := c.Recover(plan, reviewed); }
    case _ =>
  }

  /** While the Goal is decided no thread runs. */
  lemma DecidingAlone(run: Run, log: Log, main: Main, pool: map<Key, Worker>)
    requires Inv(run, log, main, pool)
    requires main.Scheduling? || main.Finishing? || main.Attested? || main.Unproven? || main.Doubting?
    ensures pool == map[] && PlanInForce(log) && GoalOf(log).Some? && Plans(log) != []
  {
  }

  method MoveGoal(c: Controller, choice: Choice)
    requires c.Valid()
    modifies c
    ensures c.Valid() && Follows(old(c.log), old(c.pool), c.log, c.pool)
  {
    var open := !Fenced(c.log);
    if c.main.Scheduling? || c.main.Finishing? || c.main.Attested? || c.main.Unproven? || c.main.Doubting? {
      DecidingAlone(c.run, c.log, c.main, c.pool);
      hide Inv, PlanInForce, RequiredForGoal;
      match choice {
        case BeginsGoal =>
          if c.main.Scheduling? && c.main.accepted.Keys == Ids(LastPlan(c.log).tasks) { c.BeginGoal(); }
        case ReusesGoal => if c.main.Finishing? && open { var _ := c.ReuseGoal(); }
        case ChecksGoal(passed) => if c.main.Finishing? { MoveGoalCheck(c, passed); }
        case ConcludesGoal(reviewed, findings) =>
          if c.main.Finishing? && open { MoveGoalVerdict(c, reviewed, findings); }
        case Completes => if c.main.Attested? && open { c.Complete(); }
        case RejectsGoal => if c.main.Unproven? { c.RejectGoal(); }
        case DoubtsGoal => if c.main.Doubting? { c.DoubtGoal(); }
        case _ =>
      }
    }
  }

  method MoveGoalCheck(c: Controller, passed: bool)
    requires c.Valid() && c.main.Finishing?
    modifies c
    ensures c.Valid() && c.pool == old(c.pool)
  {
    DecidingAlone(c.run, c.log, c.main, c.pool);
    hide Inv, PlanInForce;
    if |c.main.receipts| < |RequiredForGoal(c.run, c.log)| { c.RunGoalCheck(passed); }
  }

  method MoveGoalVerdict(c: Controller, reviewed: bool, findings: seq<Finding>)
    requires c.Valid() && c.main.Finishing? && !Fenced(c.log)
    modifies c
    ensures c.Valid() && c.pool == old(c.pool)
  {
    DecidingAlone(c.run, c.log, c.main, c.pool);
    hide Inv, PlanInForce;
    if |c.main.receipts| == |RequiredForGoal(c.run, c.log)| { c.ConcludeGoal(reviewed, findings); }
  }

  method Move(c: Controller, choice: Choice)
    requires c.Valid() && c.run.config.concurrency > 0
    modifies c
    ensures c.Valid()
    ensures (choice.Thread? ==> !choice.move.Begins?) ==> Follows(old(c.log), old(c.pool), c.log, c.pool)
  {
    hide Inv, Follows;
    match choice
    case Thread(k, move) => MoveThread(c, k, move);
    case Launches => MoveLaunch(c);
    case Collects(k) => MoveCollect(c, k);
    case EndsBatch => MoveBatch(c, choice);
    case EndsDrain => MoveBatch(c, choice);
    case Recovers(_, _) => MoveBatch(c, choice);
    case BeginsGoal => MoveGoal(c, choice);
    case ReusesGoal => MoveGoal(c, choice);
    case ChecksGoal(_) => MoveGoal(c, choice);
    case ConcludesGoal(_, _) => MoveGoal(c, choice);
    case Completes => MoveGoal(c, choice);
    case RejectsGoal => MoveGoal(c, choice);
    case DoubtsGoal => MoveGoal(c, choice);
    case _ => MoveHead(c, choice);
  }

  /** Every run of the controller, for every schedule: its log is justified event by event, so
      rereading the accepted work and the completed result never fails. */
  method RunSchedule(run: Run, schedule: seq<Choice>) returns (c: Controller)
    requires run.config.concurrency > 0
    ensures fresh(c) && c.Valid() && HistoryOk(run, c.log)
    ensures Plans(c.log) != [] ==> AllAttested(run, c.log, LastPlan(c.log))
    ensures HasCompleted(c.log) ==> Completion.CompletionOk(run, c.log)
  {
    c := new Controller(run);
    for i := 0 to |schedule|
      invariant fresh(c) && c.run == run && c.Valid()
    {
      Move(c, schedule[i]);
    }
    if Plans(c.log) != [] { AcceptedNeverRejects(run, c.log); }
    if HasCompleted(c.log) { Completion.CompletionNeverRejects(run, c.log); }
  }
}
