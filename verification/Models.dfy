/** The immutable contracts exchanged between the stages of a Run.

    A digest (SHA-256 over canonical JSON) is treated as injective, so wherever the
    program stores the digest of a Task, Goal, Candidate or tree, the model stores
    the value itself. */
module Models {

  type Key = string

  /** A workspace-relative name, as the sequence of its components. */
  type Path = seq<string>

  datatype Option<+T> = None | Some(value: T)

  datatype Authority = Authority(
    hosts: seq<string>,
    credentials: set<Key>,
    externalWrites: bool,
    operationApproval: bool,
    duplicatePrevention: bool)

  const NO_AUTHORITY := Authority([], {}, false, false, false)

  datatype PreservationMode = Exact | Existing

  datatype Criterion = Criterion(
    id: Key,
    description: string,
    checks: seq<Key>,
    externalEffect: bool,
    preservedPaths: seq<Path>,
    mode: PreservationMode)

  datatype Task = Task(
    id: Key,
    description: string,
    criteria: seq<Criterion>,
    dependencies: seq<Key>,
    authority: Authority,
    supersedes: Option<Key>)

  datatype Plan = Plan(tasks: seq<Task>, resultTask: Key)

  datatype Goal = Goal(original: string, criteria: seq<Criterion>, mandatoryChecks: seq<Key>)

  /** An operator-owned check; `externalEffect` is its evidence kind. */
  datatype Check = Check(id: Key, externalEffect: bool)

  /** The snapshotted parts of a Run's configuration that decide something here. */
  datatype RunConfig = RunConfig(
    checks: seq<Check>,
    mandatoryChecks: seq<Key>,
    ceiling: Authority,
    strict: bool,
    directExecution: bool,
    planningReview: bool,
    workerOptions: bool,
    addedTasks: nat,
    replans: nat,
    taskAttempts: nat,
    concurrency: nat)

  datatype Entry = File(data: seq<bv8>, executable: bool) | Link(target: string)

  type Tree = map<Path, Entry>

  // ---- evidence about one piece of work ----

  /** The immutable identity of a result: what was built, from what, by which attempt. */
  datatype Candidate = Candidate(tree: Tree, task: Task, attempt: Key, upstream: seq<Candidate>, version: nat)

  /** What an attempt was started with. */
  datatype Context = Context(
    goal: Goal, task: Task, attempt: Key, upstream: seq<Candidate>, authority: Authority, version: nat)

  function Freeze(context: Context, tree: Tree): Candidate {
    Candidate(tree, context.task, context.attempt, context.upstream, context.version)
  }

  datatype Finding = Finding(criterion: Key, passed: bool)

  datatype Receipt = Receipt(check: Key, externalEffect: bool, passed: bool, candidate: Candidate)

  function Ids(tasks: seq<Task>): set<Key> {
    set t | t in tasks :: t.id
  }

  predicate UniqueIds(tasks: seq<Task>) {
    forall i, j :: 0 <= i < j < |tasks| ==> tasks[i].id != tasks[j].id
  }

  /** The dictionary `{task.id: task for task in tasks}`: a repeated ID keeps the last definition. */
  function TaskMap(tasks: seq<Task>): (m: map<Key, Task>)
    ensures m.Keys == Ids(tasks)
    ensures forall k :: k in m ==> m[k] in tasks && m[k].id == k
  {
    if tasks == [] then map[]
    else
      var front, last := tasks[..|tasks| - 1], tasks[|tasks| - 1];
      assert tasks == front + [last];
      TaskMap(front)[last.id := last]
  }

  lemma UniqueIdsSnoc(front: seq<Task>, last: Task)
    ensures UniqueIds(front + [last]) <==> UniqueIds(front) && last.id !in Ids(front)
  {
    var all := front + [last];
    assert forall i :: 0 <= i < |front| ==> all[i] == front[i];
    if UniqueIds(all) {
      assert forall i :: 0 <= i < |front| ==> all[i].id != all[|front|].id;
    }
    if UniqueIds(front) && last.id !in Ids(front) {
      assert forall i :: 0 <= i < |front| ==> front[i] in front;
    }
  }

  /** Adding one key to a map grows it by one exactly when the key is new. */
  lemma MapUpdateSize<K, V>(m: map<K, V>, k: K, v: V)
    ensures |m[k := v]| == if k in m then |m| else |m| + 1
  {
    var n := m[k := v];
    assert n.Keys == m.Keys + {k};
    assert |n.Keys| == |n| && |m.Keys| == |m|;
  }

  /** Building the dictionary loses no Task exactly when no ID repeats. */
  lemma {:induction false} TaskMapSize(tasks: seq<Task>)
    ensures |TaskMap(tasks)| <= |tasks|
    ensures |TaskMap(tasks)| == |tasks| <==> UniqueIds(tasks)
  {
    if tasks != [] {
      var front, last := tasks[..|tasks| - 1], tasks[|tasks| - 1];
      assert tasks == front + [last];
      TaskMapSize(front);
      UniqueIdsSnoc(front, last);
      MapUpdateSize(TaskMap(front), last.id, last);
    }
  }

  lemma TaskMapLookup(tasks: seq<Task>, t: Task)
    requires UniqueIds(tasks) && t in tasks
    ensures TaskMap(tasks)[t.id] == t
  {
    var u := TaskMap(tasks)[t.id];
    var i :| 0 <= i < |tasks| && tasks[i] == t;
    var j :| 0 <= j < |tasks| && tasks[j] == u;
    assert i < j ==> tasks[i].id != tasks[j].id;
    assert j < i ==> tasks[j].id != tasks[i].id;
  }
}
