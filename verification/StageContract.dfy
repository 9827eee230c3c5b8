/** What a proposed Plan must satisfy before it is adopted, at planning and at recovery. */
module StageContract {
  import opened Models
  import opened PlanGraph
  import Hosts

  datatype Violation =
    | InputPreservationWeakened
    | ExternalGoalWeakened(criterion: Key)
    | GraphGrowthLimit
    | UndeclaredCheck(task: Key)
    | UnsupportedAuthority(task: Key)
    | HistoricalTaskRewritten(task: Key)
    | ForeignRepairTarget(task: Key)
    | FailedDependency(task: Key)

  /** Runtime-owned references of one invocation. Planning binds no history. */
  datatype Binding = Binding(
    recovery: bool,
    goal: Goal,
    historical: map<Key, Task>,
    remainingAddedTasks: int,
    failedTasks: set<Key>)

  /** Constraints of a recovery: every Task ever planned, later definitions replacing earlier
      ones, and the growth still allowed beyond the first Plan. */
  function BindRecovery(goal: Goal, plans: seq<Plan>, failed: set<Key>, config: RunConfig): Binding
    requires plans != []
  {
    var historical := History(plans);
    Binding(true, goal, historical, config.addedTasks - |historical.Keys - Ids(plans[0].tasks)|, failed)
  }

  function BindPlanning(goal: Goal): Binding {
    Binding(false, goal, map[], 0, {})
  }

  function History(plans: seq<Plan>): map<Key, Task> {
    if plans == [] then map[]
    else History(plans[..|plans| - 1]) + TaskMap(plans[|plans| - 1].tasks)
  }

  // ---- the clauses ----

  function PreservedPaths(criteria: seq<Criterion>): set<(Path, PreservationMode)> {
    set c, p | c in criteria && p in c.preservedPaths :: (p, c.mode)
  }

  function ExternalChecks(tasks: seq<Task>): set<Key> {
    set t, c, k | t in tasks && c in t.criteria && c.externalEffect && k in c.checks :: k
  }

  predicate PreservationKept(binding: Binding, plan: Plan)
    requires plan.resultTask in Ids(plan.tasks)
  {
    PreservedPaths(binding.goal.criteria) <= PreservedPaths(TaskMap(plan.tasks)[plan.resultTask].criteria)
  }

  predicate ExternalKept(plan: Plan, c: Criterion) {
    c.externalEffect ==> (set k | k in c.checks) <= ExternalChecks(plan.tasks)
  }

  function Added(binding: Binding, plan: Plan): set<Key> {
    Ids(plan.tasks) - binding.historical.Keys
  }

  predicate GrowthAllowed(binding: Binding, plan: Plan) {
    binding.recovery ==> Added(binding, plan) != {} && |Added(binding, plan)| <= binding.remainingAddedTasks
  }

  predicate ChecksDeclared(criteria: seq<Criterion>, config: RunConfig) {
    forall c | c in criteria :: forall k | k in c.checks :: exists d | d in config.checks :: d.id == k
  }

  function ProvingChecks(config: RunConfig): set<Key> {
    set d | d in config.checks && d.externalEffect :: d.id
  }

  predicate SharesCheck(c: Criterion, keys: set<Key>) {
    exists k | k in c.checks :: k in keys
  }

  /** `authority_policy_failure` and `authority_support_failure` both find nothing. */
  predicate AuthoritySupported(a: Authority, config: RunConfig) {
    && Hosts.Within(a, config.ceiling)
    && (a.externalWrites && config.strict ==> a.operationApproval && a.duplicatePrevention)
    && a.credentials == {} && !a.operationApproval && !a.duplicatePrevention
    && (a.hosts != [] ==> a.externalWrites)
  }

  /** `task_violation` finds nothing. */
  predicate TaskSupported(t: Task, config: RunConfig) {
    && AuthoritySupported(t.authority, config)
    && (t.authority.externalWrites ==> exists c | c in t.criteria :: SharesCheck(c, ProvingChecks(config)))
    && (forall c | c in t.criteria :: c.externalEffect ==> SharesCheck(c, ProvingChecks(config)))
  }

  predicate HistoryExact(binding: Binding, t: Task) {
    t.id in binding.historical ==> t == binding.historical[t.id]
  }

  predicate RepairTargetKnown(binding: Binding, t: Task) {
    t.supersedes.Some? ==> t.supersedes.value in binding.historical
  }

  predicate NoFailedDependency(binding: Binding, t: Task) {
    Parents(t) !! binding.failedTasks
  }

  predicate TaskAllowed(binding: Binding, config: RunConfig, t: Task) {
    && ChecksDeclared(t.criteria, config)
    && TaskSupported(t, config)
    && HistoryExact(binding, t)
    && RepairTargetKnown(binding, t)
    && NoFailedDependency(binding, t)
  }

  /** The whole contract for a Plan that already passed `Dag`. */
  ghost predicate PlanAllowed(binding: Binding, config: RunConfig, plan: Plan) {
    && plan.resultTask in Ids(plan.tasks)
    && PreservationKept(binding, plan)
    && (forall c :: c in binding.goal.criteria ==> ExternalKept(plan, c))
    && GrowthAllowed(binding, plan)
    && (forall t :: t in plan.tasks ==> TaskAllowed(binding, config, t))
  }

  /** The violation reported for one Task, in the order the clauses are examined. */
  method ValidateTask(binding: Binding, config: RunConfig, t: Task) returns (violation: Option<Violation>)
    ensures violation.None? <==> TaskAllowed(binding, config, t)
    ensures violation.Some? && violation.value.UndeclaredCheck? ==>
              violation.value.task == t.id && !ChecksDeclared(t.criteria, config)
    ensures violation.Some? && violation.value.UnsupportedAuthority? ==>
              violation.value.task == t.id && !TaskSupported(t, config)
    ensures violation.Some? && violation.value.ForeignRepairTarget? ==>
              violation.value.task == t.id && !RepairTargetKnown(binding, t)
    ensures violation.Some? && violation.value.HistoricalTaskRewritten? ==>
              violation.value.task == t.id && t.id in binding.historical && t != binding.historical[t.id]
    ensures violation.Some? && violation.value.FailedDependency? ==>
              violation.value.task == t.id && !NoFailedDependency(binding, t)
    ensures violation.Some? ==>
              !violation.value.GraphGrowthLimit? && !violation.value.InputPreservationWeakened?
              && !violation.value.ExternalGoalWeakened?
  {
    if !ChecksDeclared(t.criteria, config) { return Some(UndeclaredCheck(t.id)); }
    if !TaskSupported(t, config) { return Some(UnsupportedAuthority(t.id)); }
    if t.id in binding.historical && t != binding.historical[t.id] {
      return Some(HistoricalTaskRewritten(t.id));
    }
    if t.supersedes.Some? && t.supersedes.value !in binding.historical {
      return Some(ForeignRepairTarget(t.id));
    }
    if !(Parents(t) !! binding.failedTasks) { return Some(FailedDependency(t.id)); }
    return None;
  }

  /** The Plan branch of `StageContract.validate`: no violation exactly when every clause holds. */
  method Validate(binding: Binding, config: RunConfig, plan: Plan) returns (violation: Option<Violation>)
    requires plan.resultTask in Ids(plan.tasks)
    ensures violation.None? <==> PlanAllowed(binding, config, plan)
    ensures violation == Some(InputPreservationWeakened) ==> !PreservationKept(binding, plan)
    ensures violation.Some? && violation.value.ExternalGoalWeakened? ==>
              exists c :: c in binding.goal.criteria && c.id == violation.value.criterion && !ExternalKept(plan, c)
    ensures violation == Some(GraphGrowthLimit) ==> !GrowthAllowed(binding, plan)
  {
    if !PreservationKept(binding, plan) { return Some(InputPreservationWeakened); }
    for i := 0 to |binding.goal.criteria|
      invariant forall j :: 0 <= j < i ==> ExternalKept(plan, binding.goal.criteria[j])
    {
      if !ExternalKept(plan, binding.goal.criteria[i]) {
        return Some(ExternalGoalWeakened(binding.goal.criteria[i].id));
      }
    }
    if !GrowthAllowed(binding, plan) { return Some(GraphGrowthLimit); }
    for i := 0 to |plan.tasks|
      invariant forall j :: 0 <= j < i ==> TaskAllowed(binding, config, plan.tasks[j])
    {
      violation := ValidateTask(binding, config, plan.tasks[i]);
      if violation.Some? { return; }
    }
    return None;
  }

  // ---- consequences of acceptance ----

  /** Every Task in the history keeps its parents in the history. */
  ghost predicate HistoryClosed(historical: map<Key, Task>) {
    forall k :: k in historical ==> historical[k].id == k && Parents(historical[k]) <= historical.Keys
  }

  lemma {:induction false} HistoryIsClosed(plans: seq<Plan>)
    requires forall p :: p in plans ==> DependencyClosed(p.tasks)
    ensures HistoryClosed(History(plans))
    ensures forall p, t :: p in plans && t in p.tasks ==> t.id in History(plans)
  {
    if plans != [] {
      var front, last := plans[..|plans| - 1], plans[|plans| - 1];
      assert plans == front + [last];
      HistoryIsClosed(front);
      forall p, t | p in plans && t in p.tasks ensures t.id in History(plans) {
        if p in front {
          assert t.id in History(front);
        }
      }
    }
  }

  /** Whatever a historical Task was built from is historical too, all the way back along a chain. */
  lemma {:induction false} ChainFromHistory(binding: Binding, config: RunConfig, plan: Plan, chain: seq<Key>)
    requires HistoryClosed(binding.historical) && PlanAllowed(binding, config, plan)
    requires Chain(plan.tasks, chain) && chain[|chain| - 1] in binding.historical
    ensures chain[0] in binding.historical
  {
    if |chain| > 1 {
      var rest := chain[1..];
      forall i | 0 <= i < |rest| - 1 ensures Feeds(plan.tasks, rest[i], rest[i + 1]) {
        assert Feeds(plan.tasks, chain[i + 1], chain[i + 2]);
      }
      ChainFromHistory(binding, config, plan, rest);
      assert Feeds(plan.tasks, chain[0], chain[1]);
      var t :| t in plan.tasks && t.id == chain[1] && chain[0] in t.dependencies;
      assert HistoryExact(binding, t);
      assert chain[0] in Parents(t);
    }
  }

  /** An accepted recovery Plan produces its result with a Task that was never planned before. */
  lemma RecoveryResultIsNew(binding: Binding, config: RunConfig, plan: Plan)
    requires binding.recovery && HistoryClosed(binding.historical)
    requires WellFormed(plan) && PlanAllowed(binding, config, plan)
    ensures plan.resultTask !in binding.historical
  {
    var added :| added in Added(binding, plan);
    assert Contributes(plan, added);
    var chain :| Chain(plan.tasks, chain) && chain[0] == added && chain[|chain| - 1] == plan.resultTask;
    if plan.resultTask in binding.historical {
      ChainFromHistory(binding, config, plan, chain);
      assert false;
    }
  }

  lemma FailedParent(binding: Binding, child: Task, key: Key)
    requires key in child.dependencies && key in binding.failedTasks
    ensures !NoFailedDependency(binding, child)
  {
    assert key in Parents(child);
  }

  /** An accepted recovery Plan contains no failed Task at all, not only no dependency on one. */
  lemma RecoveryDropsFailedTasks(binding: Binding, config: RunConfig, plan: Plan, t: Task)
    requires binding.recovery && HistoryClosed(binding.historical)
    requires binding.failedTasks <= binding.historical.Keys
    requires WellFormed(plan) && PlanAllowed(binding, config, plan)
    requires t in plan.tasks
    ensures t.id !in binding.failedTasks
  {
    RecoveryResultIsNew(binding, config, plan);
    if t.id in binding.failedTasks {
      var child := NextOnChain(plan, t.id);
      FailedParent(binding, child, t.id);
    }
  }

  lemma GrowthOfUnion<T>(before: set<T>, more: set<T>, original: set<T>)
    ensures |(before + more) - original| <= |before - original| + |more - before|
  {
    var kept, beyond := before - original, (more - before) - original;
    assert (before + more) - original == kept + beyond;
    assert kept !! beyond;
    assert |kept + beyond| == |kept| + |beyond|;
    var rest := (more - before) * original;
    assert more - before == beyond + rest;
    assert |beyond + rest| == |beyond| + |rest|;
  }

  /** Growth beyond the first Plan stays within `added_tasks` whenever a recovery is accepted. */
  lemma RecoveryGrowth(goal: Goal, plans: seq<Plan>, failed: set<Key>, config: RunConfig, plan: Plan)
    requires plans != [] && GrowthAllowed(BindRecovery(goal, plans, failed, config), plan)
    ensures |History(plans + [plan]).Keys - Ids(plans[0].tasks)| <= config.addedTasks
  {
    assert (plans + [plan])[..|plans|] == plans;
    GrowthOfUnion(History(plans).Keys, Ids(plan.tasks), Ids(plans[0].tasks));
    assert History(plans + [plan]).Keys == History(plans).Keys + Ids(plan.tasks);
  }
}
