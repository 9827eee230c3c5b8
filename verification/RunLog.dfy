/** The event log of one Run: what the controller reads back from it, and which appends each of
    its steps can justify. The log is the controller's only durable state. */
module RunLog {
  import opened Models
  import opened PlanGraph
  import opened StageContract
  import opened Evidence

  /** What is fixed when a Run is created. */
  datatype Run = Run(config: RunConfig, original: string, initial: Tree)

  datatype WorkerStatus = CompletedWork | FailedWork | RequestedAuthority | UncertainWork | UsageLimited

  datatype Grant = Grant(authority: Authority, version: nat)

  datatype Joint = Joint(goal: Goal, task: Task, receipts: seq<Receipt>)

  /** The body of a `verification` event. */
  datatype Record = Record(
    candidate: Candidate,
    goalLevel: bool,
    passed: bool,
    findings: seq<Finding>,
    comparison: Option<InputComparison>,
    joint: Option<Joint>,
    reusedFrom: Option<Record>)

  datatype Event =
    | ClarificationWait
    | ClarificationAnswer
    | GoalSet(goal: Goal)
    | DirectStarted(plan: Plan, goal: Goal)
    | DirectFellBack(goal: Goal)
    | PlanAdopted(plan: Plan, recovery: bool)
    | AttemptStarted(context: Context)
    | WorkerReserved(attempt: Key)
    | WorkerResult(attempt: Key, status: WorkerStatus)
    | AuthorityRequested(attempt: Key, grant: Grant)
    | ApprovalWait(attempt: Key, task: Task)
    | AuthorityApplied(attempt: Key, task: Task, grant: Grant)
    | AuthorityRejected(attempt: Key)
    | CandidateFrozen(candidate: Candidate)
    | CheckResult(receipt: Receipt)
    | Verified(record: Record)
    | Accepted(key: Key, candidate: Candidate)
    | AttemptFailed(attempt: Key)
    | TaskFailed(key: Key)
    | GoalRejected(candidate: Candidate)
    | Uncertain
    | Completed(candidate: Candidate, goal: Goal)
    | Stopped

  type Log = seq<Event>

  function Init(log: Log): Log
    requires log != []
  {
    log[..|log| - 1]
  }

  function Last(log: Log): Event
    requires log != []
  {
    log[|log| - 1]
  }

  // ---- what the controller reads back ----

  function GoalOf(log: Log): Option<Goal> {
    if log == [] then None
    else if Last(log).GoalSet? then Some(Last(log).goal) else GoalOf(Init(log))
  }

  function Plans(log: Log): seq<Plan> {
    if log == [] then []
    else Plans(Init(log)) + if Last(log).PlanAdopted? then [Last(log).plan] else []
  }

  function LastPlan(log: Log): Plan
    requires Plans(log) != []
  {
    Plans(log)[|Plans(log)| - 1]
  }

  /** Latest accepted Candidate of every Task ID. */
  function AcceptedMap(log: Log): map<Key, Candidate> {
    if log == [] then map[]
    else if Last(log).Accepted? then AcceptedMap(Init(log))[Last(log).key := Last(log).candidate]
    else AcceptedMap(Init(log))
  }

  function FailedTasks(log: Log): set<Key> {
    if log == [] then {}
    else FailedTasks(Init(log)) + if Last(log).TaskFailed? then {Last(log).key} else {}
  }

  /** Contexts of the attempts of one Task definition, oldest first. */
  function Attempts(log: Log, task: Task): seq<Context> {
    if log == [] then []
    else
      Attempts(Init(log), task)
      + if Last(log).AttemptStarted? && Last(log).context.task == task then [Last(log).context] else []
  }

  /** Contexts recorded under one attempt ID. */
  function Contexts(log: Log, attempt: Key): seq<Context> {
    if log == [] then []
    else
      Contexts(Init(log), attempt)
      + if Last(log).AttemptStarted? && Last(log).context.attempt == attempt then [Last(log).context] else []
  }

  function Results(log: Log, attempt: Key): seq<WorkerStatus> {
    if log == [] then []
    else
      Results(Init(log), attempt)
      + if Last(log).WorkerResult? && Last(log).attempt == attempt then [Last(log).status] else []
  }

  function FrozenBy(log: Log, attempt: Key): seq<Candidate> {
    if log == [] then []
    else
      FrozenBy(Init(log), attempt)
      + if Last(log).CandidateFrozen? && Last(log).candidate.attempt == attempt then [Last(log).candidate] else []
  }

  function AppliedGrants(log: Log, task: Task): seq<Grant> {
    if log == [] then []
    else
      AppliedGrants(Init(log), task)
      + if Last(log).AuthorityApplied? && Last(log).task == task then [Last(log).grant] else []
  }

  predicate IsRecord(e: Event, candidate: Candidate, goalLevel: bool) {
    e.Verified? && e.record.goalLevel == goalLevel && e.record.candidate == candidate
  }

  /** Position just after the latest verification of the candidate at that level, 0 if there is none. */
  function LastRecordEnd(log: Log, candidate: Candidate, goalLevel: bool): (n: nat)
    ensures n <= |log|
    ensures n > 0 ==> IsRecord(log[n - 1], candidate, goalLevel)
  {
    if log == [] then 0
    else if IsRecord(Last(log), candidate, goalLevel) then |log|
    else LastRecordEnd(Init(log), candidate, goalLevel)
  }

  function LastRecord(log: Log, candidate: Candidate, goalLevel: bool): Option<Record> {
    var n := LastRecordEnd(log, candidate, goalLevel);
    if n == 0 then None else Some(log[n - 1].record)
  }

  predicate Fenced(log: Log) {
    Stopped in log
  }

  predicate HasCompleted(log: Log) {
    exists e | e in log :: e.Completed?
  }

  predicate HasFallback(log: Log) {
    exists e | e in log :: e.DirectFellBack?
  }

  datatype Start = Start(plan: Plan, goal: Goal)

  function DirectStarts(log: Log): seq<Start> {
    if log == [] then []
    else
      DirectStarts(Init(log))
      + if Last(log).DirectStarted? then [Start(Last(log).plan, Last(log).goal)] else []
  }

  /** `_direct_task`: the Task is the whole of a direct plan that is still current. */
  predicate DirectTask(log: Log, key: Key) {
    && DirectStarts(log) != []
    && Plans(log) != []
    && !HasFallback(log)
    && DirectStarts(log)[|DirectStarts(log)| - 1].plan == LastPlan(log)
    && key == LastPlan(log).resultTask
  }

  /** The accepted Candidates of a Task's dependencies, in order, once all of them are accepted. */
  function Upstream(accepted: map<Key, Candidate>, dependencies: seq<Key>): Option<seq<Candidate>> {
    if forall d | d in dependencies :: d in accepted then
      Some(seq(|dependencies|, i requires 0 <= i < |dependencies| && dependencies[i] in accepted =>
        accepted[dependencies[i]]))
    else None
  }

  /** The authority and version the next attempt of a Task starts with. */
  function GrantFor(log: Log, task: Task): Grant {
    var applied, prior := AppliedGrants(log, task), Attempts(log, task);
    if applied != [] then applied[|applied| - 1]
    else if prior != [] then Grant(prior[|prior| - 1].authority, prior[|prior| - 1].version)
    else Grant(task.authority, 0)
  }

  /** The Candidate carries exactly the identity its context prescribes. */
  predicate Stems(x: Context, c: Candidate) {
    c == Freeze(x, c.tree)
  }

  // ---- saved comparisons, lineage and completion, as they are rechecked ----

  /** `_check_saved_comparison` finds nothing wrong. */
  predicate SavedComparisonOk(run: Run, log: Log, goal: Goal, task: Option<Task>, c: Candidate) {
    var expected := ComparisonFor(run.initial, goal, task, c);
    expected.None? || (
      && LastRecord(log, c, task.None?).Some?
      && LastRecord(log, c, task.None?).value.comparison == expected
      && Matching(expected))
  }

  predicate PassedTaskLevel(log: Log, c: Candidate) {
    exists e | e in log :: IsRecord(e, c, false) && e.record.passed
  }

  predicate PassedGoalLevel(log: Log, c: Candidate) {
    exists e | e in log :: IsRecord(e, c, true) && e.record.passed
  }

  function AcceptedIn(log: Log, plan: Plan): map<Key, Candidate> {
    map k | k in AcceptedMap(log) && k in Ids(plan.tasks) :: AcceptedMap(log)[k]
  }

  predicate NotForeign(log: Log, plan: Plan) {
    forall e | e in log :: e.Accepted? && e.key in Ids(plan.tasks) ==> e.candidate.task == TaskMap(plan.tasks)[e.key]
  }

  predicate LineageCurrent(accepted: map<Key, Candidate>, t: Task, c: Candidate) {
    Upstream(accepted, t.dependencies) == Some(c.upstream)
  }

  /** One context attests the Candidate, a passing verification is on record and its comparison stands. */
  predicate CandidateAttested(run: Run, log: Log, c: Candidate) {
    && |Contexts(log, c.attempt)| == 1
    && var x := Contexts(log, c.attempt)[0];
       && Stems(x, c)
       && PassedTaskLevel(log, c)
       && SavedComparisonOk(run, log, x.goal, Some(x.task), c)
  }

  /** What `_accepted` checks before it returns. */
  predicate AllAttested(run: Run, log: Log, plan: Plan) {
    var accepted := AcceptedIn(log, plan);
    && NotForeign(log, plan)
    && (forall k | k in accepted :: LineageCurrent(accepted, TaskMap(plan.tasks)[k], accepted[k]))
    && (forall k | k in accepted :: CandidateAttested(run, log, accepted[k]))
  }

  // ---- reuse of a direct Task's verification for its Goal ----

  predicate JointEligible(run: Run, log: Log, goal: Goal, task: Task, c: Candidate) {
    && DirectTask(log, task.id)
    && DirectStarts(log)[|DirectStarts(log)| - 1].goal == goal
    && DirectStarts(log)[|DirectStarts(log)| - 1].plan.tasks == [task]
    && task.criteria == goal.criteria
    && KeySet(goal.mandatoryChecks) <= CheckIds(goal, Some(task))
    && task.authority == NO_AUTHORITY
    && task.dependencies == []
    && c.task == task && c.upstream == [] && c.version == 0
    && !(exists k | k in task.criteria :: k.externalEffect)
  }

  predicate JointCovers(log: Log, goal: Goal, task: Task, c: Candidate, r: Record) {
    && r.passed
    && r.joint.Some? && r.joint.value.goal == goal && r.joint.value.task == task
    && Accepts(r.findings, goal.criteria)
    && var receipts := r.joint.value.receipts;
       && (set q | q in receipts :: q.check) == KeySet(goal.mandatoryChecks) + CheckIds(goal, Some(task))
       && forall q | q in receipts :: q.passed && q.candidate == c && CheckResult(q) in log
  }

  /** `_joint_record`: the latest Task-level record of the candidate, if it also covers the Goal. */
  function JointRecord(run: Run, log: Log, goal: Goal, task: Task, c: Candidate): Option<Record> {
    var n := LastRecordEnd(log, c, false);
    if JointEligible(run, log, goal, task, c) && n > 0
       && JointCovers(log[..n - 1], goal, task, c, log[n - 1].record)
       && SavedComparisonOk(run, log, goal, Some(task), c)
    then Some(log[n - 1].record)
    else None
  }

  // ---- external evidence read from the log ----

  predicate HasExternalCriterion(criteria: seq<Criterion>) {
    exists k | k in criteria :: k.externalEffect
  }

  /** Whether acceptance needs external evidence: for a Task by its criteria or its own attempt,
      for the Goal by any attempt of the Run. */
  predicate NeedsExternal(log: Log, goal: Goal, task: Option<Task>, c: Candidate) {
    || HasExternalCriterion(Criteria(goal, task))
    || exists e | e in log ::
         && e.AttemptStarted? && e.context.authority.externalWrites
         && (task.None? || e.context.attempt == c.attempt)
  }

  /** Passed receipts of accepted Candidates; they support the Goal decision only. */
  function PriorReceipts(log: Log, upto: nat): seq<Receipt>
    requires upto <= |log|
  {
    if upto == 0 then []
    else
      PriorReceipts(log, upto - 1)
      + match log[upto - 1] {
          case CheckResult(q) =>
            if q.passed && (exists e | e in log :: e.Accepted? && e.candidate == q.candidate) then [q] else []
          case _ => []
        }
  }

  function SupportingReceipts(log: Log, task: Option<Task>): seq<Receipt> {
    if task.Some? then [] else PriorReceipts(log, |log|)
  }

  // ---- which appends a step can justify ----

  predicate JustifiedGoal(run: Run, p: Log, g: Goal) {
    && GoalOf(p).None?
    && g.original == run.original && g.mandatoryChecks == run.config.mandatoryChecks
    && UniqueCriteria(g.criteria)
  }

  function DirectPlan(g: Goal, description: string): Plan {
    Plan([Task("direct", description, g.criteria, [], NO_AUTHORITY, None)], "direct")
  }

  ghost predicate JustifiedDirect(run: Run, p: Log, plan: Plan, g: Goal) {
    && GoalOf(p) == Some(g) && Plans(p) == [] && DirectStarts(p) == []
    && run.config.directExecution && run.config.ceiling == NO_AUTHORITY
    && !HasExternalCriterion(g.criteria)
    && exists description :: plan == DirectPlan(g, description)
  }

  /** A fallback replaces a direct plan none of whose work has been accepted. */
  ghost predicate JustifiedFallback(p: Log, g: Goal) {
    && GoalOf(p) == Some(g)
    && |Plans(p)| == 1 && AcceptedMap(p) == map[]
    && DirectTask(p, LastPlan(p).resultTask)
    && Uncertain !in p
  }

  function RecoveryBinding(run: Run, p: Log, g: Goal): Binding
    requires Plans(p) != []
  {
    BindRecovery(g, Plans(p), FailedTasks(p) - AcceptedIn(p, LastPlan(p)).Keys, run.config)
  }

  /** A direct plan was given up and its replacement has not been adopted yet. */
  predicate StaleDirect(log: Log) {
    HasFallback(log) && |Plans(log)| == 1
  }

  ghost predicate JustifiedPlan(run: Run, p: Log, plan: Plan, recovery: bool) {
    && GoalOf(p).Some? && WellFormed(plan) && !HasCompleted(p)
    && if recovery then
         && Plans(p) != [] && |Plans(p)| <= run.config.replans
         && PlanAllowed(RecoveryBinding(run, p, GoalOf(p).value), run.config, plan)
       else
         && (if Plans(p) == [] then DirectStarts(p) == [] || DirectStarts(p)[0].plan == plan else StaleDirect(p))
         && AcceptedMap(p) == map[]
         && PlanAllowed(BindPlanning(GoalOf(p).value), run.config, plan)
  }

  function AttemptLimit(run: Run, log: Log, task: Task): nat {
    if DirectTask(log, task.id) then 1 else run.config.taskAttempts
  }

  ghost predicate JustifiedAttempt(run: Run, p: Log, x: Context) {
    && GoalOf(p) == Some(x.goal) && Plans(p) != [] && x.task in LastPlan(p).tasks
    && x.task.id !in AcceptedMap(p)
    && Upstream(AcceptedMap(p), x.task.dependencies) == Some(x.upstream)
    && (forall e :: e in p && e.AttemptStarted? ==> e.context.attempt != x.attempt)
    && (forall y :: y in Attempts(p, x.task) ==> !y.authority.externalWrites)
    && |Attempts(p, x.task)| < AttemptLimit(run, p, x.task)
    && Grant(x.authority, x.version) == GrantFor(p, x.task)
  }

  ghost predicate JustifiedReserve(p: Log, attempt: Key) {
    exists x :: AttemptStarted(x) in p && x.attempt == attempt
      && (x.authority.externalWrites ==> WorkerReserved(attempt) !in p)
  }

  ghost predicate Attempted(p: Log, attempt: Key) {
    exists x :: AttemptStarted(x) in p && x.attempt == attempt
  }

  /** A request of the attempt is on record and has not been decided yet. */
  predicate RequestOpen(p: Log, attempt: Key, task: Task, grant: Grant) {
    && ApprovalWait(attempt, task) in p && AuthorityRequested(attempt, grant) in p
    && AuthorityRejected(attempt) !in p
    && !(exists e | e in p :: e.AuthorityApplied? && e.attempt == attempt)
  }

  /** The grant may be applied: its request is open, and the Task with it is still supported. */
  predicate JustifiedGrant(run: Run, p: Log, attempt: Key, task: Task, grant: Grant) {
    && RequestOpen(p, attempt, task, grant)
    && TaskSupported(task.(authority := grant.authority), run.config)
  }

  ghost predicate NoCandidateYet(p: Log, attempt: Key) {
    forall e :: e in p && e.CandidateFrozen? ==> e.candidate.attempt != attempt
  }

  ghost predicate NoVerdictYet(p: Log, attempt: Key) {
    forall e :: e in p && e.Verified? && !e.record.goalLevel ==> e.record.candidate.attempt != attempt
  }

  ghost predicate JustifiedCandidate(p: Log, c: Candidate) {
    && (exists x :: AttemptStarted(x) in p && Stems(x, c))
    && NoCandidateYet(p, c.attempt)
  }

  /** The record reports a decision taken on receipts that are in the log. */
  ghost predicate DecidedOn(run: Run, p: Log, goal: Goal, task: Option<Task>, r: Record, receipts: seq<Receipt>) {
    && ReceiptsFor(receipts, RequiredChecks(run.config.checks, CheckIds(goal, task)), r.candidate)
    && (forall q :: q in receipts ==> CheckResult(q) in p)
    && (r.passed ==>
          Decision(Criteria(goal, task), r.findings, receipts, SupportingReceipts(p, task), r.comparison,
                  NeedsExternal(p, goal, task, r.candidate)))
  }

  ghost predicate JustifiedTaskRecord(run: Run, p: Log, r: Record) {
    && GoalOf(p).Some? && CandidateFrozen(r.candidate) in p && NoVerdictYet(p, r.candidate.attempt)
    && var goal, task := GoalOf(p).value, r.candidate.task;
       && r.comparison == ComparisonFor(run.initial, goal, Some(task), r.candidate)
       && r.reusedFrom.None?
       && exists receipts :: DecidedOn(run, p, goal, Some(task), r, receipts)
            && r.joint ==
                 if JointEligible(run, p, goal, task, r.candidate) then Some(Joint(goal, task, receipts)) else None
  }

  ghost predicate JustifiedGoalRecord(run: Run, p: Log, r: Record) {
    && GoalOf(p).Some? && Plans(p) != [] && !HasCompleted(p)
    && LastPlan(p).resultTask in AcceptedMap(p) && AcceptedMap(p)[LastPlan(p).resultTask] == r.candidate
    && var goal := GoalOf(p).value;
       && r.comparison == ComparisonFor(run.initial, goal, None, r.candidate)
       && r.joint.None?
       && if r.reusedFrom.None? then exists receipts :: DecidedOn(run, p, goal, None, r, receipts)
          else
            && r.passed && r.reusedFrom == JointRecord(run, p, goal, r.candidate.task, r.candidate)
            && r.findings == r.reusedFrom.value.findings
  }

  ghost predicate JustifiedAcceptance(p: Log, key: Key, c: Candidate) {
    && Plans(p) != [] && !HasCompleted(p) && !StaleDirect(p)
    && c.task in LastPlan(p).tasks && key == c.task.id && key !in AcceptedMap(p)
    && PassedTaskLevel(p, c)
  }

  ghost predicate JustifiedCompletion(p: Log, c: Candidate, g: Goal) {
    && GoalOf(p) == Some(g) && Plans(p) != [] && !HasCompleted(p)
    && LastPlan(p).resultTask in AcceptedMap(p) && AcceptedMap(p)[LastPlan(p).resultTask] == c
    && LastRecord(p, c, true).Some? && LastRecord(p, c, true).value.passed
    && Uncertain !in p
  }

  /** Events the journal refuses once the Run is stopped. */
  predicate IsDecision(e: Event) {
    e.ClarificationWait? || e.GoalSet? || e.DirectStarted? || e.DirectFellBack? || e.PlanAdopted? || e.AttemptStarted?
    || e.WorkerReserved? || e.WorkerResult? || e.AuthorityRequested? || e.ApprovalWait?
    || e.AuthorityApplied? || e.CandidateFrozen? || e.Verified? || e.Accepted? || e.Completed?
  }

  ghost predicate Grounded(run: Run, p: Log, e: Event) {
    match e
    case ClarificationWait => GoalOf(p).None?
    case GoalSet(g) => JustifiedGoal(run, p, g)
    case DirectStarted(plan, g) => JustifiedDirect(run, p, plan, g)
    case DirectFellBack(g) => JustifiedFallback(p, g)
    case PlanAdopted(plan, recovery) => JustifiedPlan(run, p, plan, recovery)
    case AttemptStarted(x) => JustifiedAttempt(run, p, x)
    case WorkerReserved(a) => JustifiedReserve(p, a)
    case WorkerResult(a, _) => Attempted(p, a)
    case AuthorityApplied(a, task, grant) => JustifiedGrant(run, p, a, task, grant)
    case CandidateFrozen(c) => JustifiedCandidate(p, c)
    case Verified(r) => if r.goalLevel then JustifiedGoalRecord(run, p, r) else JustifiedTaskRecord(run, p, r)
    case Accepted(key, c) => JustifiedAcceptance(p, key, c)
    case TaskFailed(key) => Plans(p) != [] && key in Ids(LastPlan(p).tasks)
    case Completed(c, g) => JustifiedCompletion(p, c, g)
    case _ => true
  }

  ghost predicate Justified(run: Run, p: Log, e: Event) {
    (IsDecision(e) ==> !Fenced(p)) && Grounded(run, p, e)
  }

  /** Every event was justified by the events before it. */
  ghost predicate HistoryOk(run: Run, log: Log) {
    log != [] ==> HistoryOk(run, Init(log)) && Justified(run, Init(log), Last(log))
  }

  lemma Appended(log: Log, e: Event)
    ensures Init(log + [e]) == log && Last(log + [e]) == e
  {
  }

  lemma HistoryStep(run: Run, log: Log, e: Event)
    requires HistoryOk(run, log) && Justified(run, log, e)
    ensures HistoryOk(run, log + [e])
  {
    Appended(log, e);
  }

  lemma LastJustified(run: Run, log: Log)
    requires HistoryOk(run, log) && log != []
    ensures HistoryOk(run, Init(log)) && Justified(run, Init(log), Last(log)) && log == Init(log) + [Last(log)]
  {
  }

  lemma {:induction false} HistoryPrefix(run: Run, log: Log, n: nat)
    requires HistoryOk(run, log) && n <= |log|
    ensures HistoryOk(run, log[..n])
    ensures n < |log| ==> Justified(run, log[..n], log[n])
    decreases |log|
  {
    if n == |log| {
      assert log[..n] == log;
    } else if n == |log| - 1 {
      assert log[..n] == Init(log);
    } else {
      HistoryPrefix(run, Init(log), n);
      assert Init(log)[..n] == log[..n];
    }
  }
}
