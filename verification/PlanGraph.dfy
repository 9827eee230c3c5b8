/** Plan validation: `Plan.dag` decides exactly the connected acyclic graphs. */
module PlanGraph {
  import opened Models

  datatype Verdict = Adopted | InvalidIdentity | CyclicOrMissing | Unconnected

  function Parents(t: Task): set<Key> {
    set d | d in t.dependencies
  }

  /** Some Task named `child` depends on `parent`. */
  ghost predicate Feeds(tasks: seq<Task>, parent: Key, child: Key) {
    exists t :: t in tasks && t.id == child && parent in t.dependencies
  }

  ghost predicate Identified(plan: Plan) {
    UniqueIds(plan.tasks) && plan.resultTask in Ids(plan.tasks)
  }

  ghost predicate DependencyClosed(tasks: seq<Task>) {
    forall t :: t in tasks ==> Parents(t) <= Ids(tasks)
  }

  /** Every Task ranks strictly above each of its dependencies. */
  ghost predicate RankedBy(tasks: seq<Task>, rank: map<Key, nat>) {
    && Ids(tasks) <= rank.Keys
    && forall t, d :: t in tasks && d in t.dependencies && d in rank ==> rank[d] < rank[t.id]
  }

  ghost predicate Acyclic(tasks: seq<Task>) {
    exists rank: map<Key, nat> :: RankedBy(tasks, rank)
  }

  ghost predicate Chain(tasks: seq<Task>, chain: seq<Key>) {
    && chain != []
    && forall i :: 0 <= i < |chain| - 1 ==> Feeds(tasks, chain[i], chain[i + 1])
  }

  /** A chain of dependencies leads from `key` to the result Task. */
  ghost predicate Contributes(plan: Plan, key: Key) {
    exists chain :: Chain(plan.tasks, chain) && chain[0] == key && chain[|chain| - 1] == plan.resultTask
  }

  ghost predicate Connected(plan: Plan) {
    forall k :: k in Ids(plan.tasks) ==> Contributes(plan, k)
  }

  ghost predicate WellFormed(plan: Plan) {
    && Identified(plan)
    && DependencyClosed(plan.tasks)
    && Acyclic(plan.tasks)
    && Connected(plan)
  }

  // ---- progress: a ranked graph always has a Task whose parents are done ----

  lemma {:induction false} LowestRank(keys: set<Key>, rank: map<Key, nat>) returns (low: Key)
    requires keys != {} && keys <= rank.Keys
    ensures low in keys && forall k :: k in keys ==> rank[low] <= rank[k]
  {
    low :| low in keys;
    if keys != {low} {
      var other := LowestRank(keys - {low}, rank);
      if rank[other] < rank[low] {
        low := other;
      }
    }
  }

  /** With a rank and closed dependencies, whatever has been resolved so far, some pending
      Task has all of its parents resolved. */
  lemma SomeTaskIsReady(tasks: seq<Task>, pending: set<Key>, resolved: set<Key>)
    requires DependencyClosed(tasks) && Acyclic(tasks)
    requires pending != {} && pending == Ids(tasks) - resolved
    ensures exists t :: t in tasks && t.id in pending && Parents(t) <= resolved
  {
    var rank: map<Key, nat> :| RankedBy(tasks, rank);
    var low := LowestRank(pending, rank);
    var t :| t in tasks && t.id == low;
    forall d | d in Parents(t) ensures d in resolved {
      assert d in Ids(tasks);
      assert rank[d] < rank[low];
    }
  }

  // ---- contribution ----

  lemma ExtendChain(plan: Plan, parent: Key, child: Key)
    requires Contributes(plan, child) && Feeds(plan.tasks, parent, child)
    ensures Contributes(plan, parent)
  {
    var chain :| Chain(plan.tasks, chain) && chain[0] == child && chain[|chain| - 1] == plan.resultTask;
    var longer := [parent] + chain;
    forall i | 0 <= i < |longer| - 1 ensures Feeds(plan.tasks, longer[i], longer[i + 1]) {
      if i > 0 {
        assert longer[i] == chain[i - 1] && longer[i + 1] == chain[i];
      }
    }
    assert Chain(plan.tasks, longer);
  }

  /** A set holding the result and closed under dependencies holds everything that contributes. */
  lemma {:induction false} ClosedHoldsChain(plan: Plan, found: set<Key>, chain: seq<Key>)
    requires plan.resultTask in found
    requires forall a, b :: b in found && Feeds(plan.tasks, a, b) ==> a in found
    requires Chain(plan.tasks, chain) && chain[|chain| - 1] == plan.resultTask
    ensures chain[0] in found
  {
    if |chain| > 1 {
      var rest := chain[1..];
      forall i | 0 <= i < |rest| - 1 ensures Feeds(plan.tasks, rest[i], rest[i + 1]) {
        assert Feeds(plan.tasks, chain[i + 1], chain[i + 2]);
      }
      ClosedHoldsChain(plan, found, rest);
      assert Feeds(plan.tasks, chain[0], chain[1]);
    }
  }

  /** The next Task on a chain towards the result. */
  lemma NextOnChain(plan: Plan, key: Key) returns (child: Task)
    requires Contributes(plan, key) && key != plan.resultTask
    ensures child in plan.tasks && key in child.dependencies
  {
    var chain :| Chain(plan.tasks, chain) && chain[0] == key && chain[|chain| - 1] == plan.resultTask;
    assert Feeds(plan.tasks, chain[0], chain[1]);
    child :| child in plan.tasks && child.id == chain[1] && key in child.dependencies;
  }

  lemma ResultContributes(plan: Plan)
    ensures Contributes(plan, plan.resultTask)
  {
    assert Chain(plan.tasks, [plan.resultTask]);
  }

  // ---- the two worklist loops ----

  /** What the first loop keeps: every resolved Task has resolved parents of smaller rank. */
  ghost predicate Peeled(tasks: map<Key, Task>, resolved: set<Key>, rank: map<Key, nat>, round: nat) {
    && rank.Keys == resolved <= tasks.Keys
    && (forall k :: k in resolved ==> rank[k] < round && Parents(tasks[k]) <= resolved)
    && (forall k, d :: k in resolved && d in Parents(tasks[k]) && d in resolved ==> rank[d] < rank[k])
  }

  lemma PeelStep(tasks: map<Key, Task>, resolved: set<Key>, rank: map<Key, nat>, round: nat, ready: set<Key>)
    requires Peeled(tasks, resolved, rank, round)
    requires ready <= tasks.Keys && ready !! resolved
    requires forall k :: k in ready ==> Parents(tasks[k]) <= resolved
    ensures Peeled(tasks, resolved + ready, rank + map k | k in ready :: round, round + 1)
  {
  }

  lemma PeeledCompletely(plan: Plan, rank: map<Key, nat>, round: nat)
    requires UniqueIds(plan.tasks) && Peeled(TaskMap(plan.tasks), Ids(plan.tasks), rank, round)
    ensures DependencyClosed(plan.tasks) && Acyclic(plan.tasks)
  {
    forall t | t in plan.tasks
      ensures Parents(t) <= Ids(plan.tasks)
      ensures forall d :: d in t.dependencies ==> rank[d] < rank[t.id]
    {
      TaskMapLookup(plan.tasks, t);
      assert forall d :: d in t.dependencies ==> d in Parents(t);
    }
    assert RankedBy(plan.tasks, rank);
  }

  lemma ReadyIsNotEmpty(plan: Plan, pending: set<Key>, resolved: set<Key>)
    requires UniqueIds(plan.tasks) && DependencyClosed(plan.tasks) && Acyclic(plan.tasks)
    requires pending != {} && pending == Ids(plan.tasks) - resolved
    ensures exists k :: k in ReadyTasks(TaskMap(plan.tasks), pending, resolved)
  {
    SomeTaskIsReady(plan.tasks, pending, resolved);
    var t :| t in plan.tasks && t.id in pending && Parents(t) <= resolved;
    TaskMapLookup(plan.tasks, t);
    assert t.id in ReadyTasks(TaskMap(plan.tasks), pending, resolved);
  }

  /** The pending Tasks all of whose dependencies are resolved (or accepted). */
  function ReadyTasks(tasks: map<Key, Task>, pending: set<Key>, resolved: set<Key>): set<Key>
    requires pending <= tasks.Keys
  {
    set k | k in pending && Parents(tasks[k]) <= resolved
  }

  lemma Remaining<T>(all: set<T>, done: set<T>, batch: set<T>)
    ensures (all - done) - batch == all - (done + batch)
  {
  }

  /** First loop: peel off the Tasks whose dependencies are resolved. */
  method ResolveOrder(plan: Plan) returns (resolvable: bool)
    requires UniqueIds(plan.tasks)
    ensures resolvable <==> DependencyClosed(plan.tasks) && Acyclic(plan.tasks)
  {
    var tasks := TaskMap(plan.tasks);
    var pending, resolved := tasks.Keys, {};
    ghost var rank: map<Key, nat>, round: nat := map[], 0;
    while pending != {}
      invariant pending == tasks.Keys - resolved
      invariant Peeled(tasks, resolved, rank, round)
      decreases pending
    {
      var ready := ReadyTasks(tasks, pending, resolved);
      if ready == {} {
        if DependencyClosed(plan.tasks) && Acyclic(plan.tasks) {
          ReadyIsNotEmpty(plan, pending, resolved);
          assert false;
        }
        return false;
      }
      PeelStep(tasks, resolved, rank, round, ready);
      rank, round := rank + map k | k in ready :: round, round + 1;
      Remaining(tasks.Keys, resolved, ready);
      resolved, pending := resolved + ready, pending - ready;
    }
    assert resolved == tasks.Keys;
    PeeledCompletely(plan, rank, round);
    return true;
  }

  /** What the second loop keeps: found Tasks contribute, and only Tasks still on the stack may
      have a parent that has not been found. */
  ghost predicate Walked(plan: Plan, ancestors: set<Key>, frontier: seq<Key>) {
    && plan.resultTask in ancestors && ancestors <= Ids(plan.tasks)
    && (forall k :: k in frontier ==> k in ancestors)
    && (forall k :: k in ancestors ==> Contributes(plan, k))
    && (forall k :: k in ancestors && k !in frontier ==> Parents(TaskMap(plan.tasks)[k]) <= ancestors)
  }

  lemma WalkStarts(plan: Plan)
    requires Identified(plan)
    ensures Walked(plan, {plan.resultTask}, [plan.resultTask]) && {plan.resultTask} <= Ids(plan.tasks)
  {
    ResultContributes(plan);
  }

  lemma WalkedTop(plan: Plan, ancestors: set<Key>, rest: seq<Key>, child: Key)
    requires Walked(plan, ancestors, rest + [child])
    ensures child in ancestors
  {
  }

  lemma WalkedWithin(plan: Plan, ancestors: set<Key>, frontier: seq<Key>)
    requires Walked(plan, ancestors, frontier)
    ensures ancestors <= Ids(plan.tasks)
  {
  }

  lemma WalkedCompletely(plan: Plan, ancestors: set<Key>)
    requires Identified(plan) && Walked(plan, ancestors, [])
    ensures forall k :: k in ancestors <==> Contributes(plan, k)
  {
    forall a, b | b in ancestors && Feeds(plan.tasks, a, b) ensures a in ancestors {
      var t :| t in plan.tasks && t.id == b && a in t.dependencies;
      TaskMapLookup(plan.tasks, t);
      assert a in Parents(t);
    }
    forall k | Contributes(plan, k) ensures k in ancestors {
      var chain :| Chain(plan.tasks, chain) && chain[0] == k && chain[|chain| - 1] == plan.resultTask;
      ClosedHoldsChain(plan, ancestors, chain);
    }
  }

  lemma FoundParent(plan: Plan, ancestors: set<Key>, frontier: seq<Key>, child: Key, parent: Key)
    requires DependencyClosed(plan.tasks) && Walked(plan, ancestors, frontier + [child])
    requires child in ancestors && parent in TaskMap(plan.tasks)[child].dependencies
    ensures Walked(plan, ancestors + {parent}, (frontier + [parent]) + [child])
  {
    var t := TaskMap(plan.tasks)[child];
    assert parent in Parents(t);
    assert Feeds(plan.tasks, parent, child);
    ExtendChain(plan, parent, child);
  }

  lemma ChildDone(plan: Plan, ancestors: set<Key>, frontier: seq<Key>, child: Key)
    requires Walked(plan, ancestors, frontier + [child])
    requires child in ancestors
    requires forall d :: d in TaskMap(plan.tasks)[child].dependencies ==> d in ancestors
    ensures Walked(plan, ancestors, frontier)
  {
  }

  /** One pass of the inner loop: a parent that was not found before is found and pushed. */
  method PushParent(plan: Plan, child: Key, parent: Key, found: set<Key>, stack: seq<Key>)
    returns (ancestors: set<Key>, frontier: seq<Key>)
    requires DependencyClosed(plan.tasks) && child in found && Walked(plan, found, stack + [child])
    requires parent in TaskMap(plan.tasks)[child].dependencies
    ensures Walked(plan, ancestors, frontier + [child])
    ensures found <= ancestors && parent in ancestors
    ensures ancestors == found ==> frontier == stack
  {
    ancestors, frontier := found, stack;
    if parent !in found {
      FoundParent(plan, found, stack, child, parent);
      ancestors, frontier := found + {parent}, stack + [parent];
    }
  }

  /** The inner loop: push the parents that were not found before. */
  method PushParents(plan: Plan, child: Key, found: set<Key>, stack: seq<Key>)
    returns (ancestors: set<Key>, frontier: seq<Key>)
    requires DependencyClosed(plan.tasks)
    requires child in found && Walked(plan, found, stack + [child])
    ensures Walked(plan, ancestors, frontier)
    ensures found <= ancestors && (ancestors == found ==> frontier == stack)
  {
    hide Walked;
    WalkedWithin(plan, found, stack + [child]);
    var parents := TaskMap(plan.tasks)[child].dependencies;
    ancestors, frontier := found, stack;
    for i := 0 to |parents|
      invariant found <= ancestors && (ancestors == found ==> frontier == stack)
      invariant forall j :: 0 <= j < i ==> parents[j] in ancestors
      invariant Walked(plan, ancestors, frontier + [child])
    {
      ancestors, frontier := PushParent(plan, child, parents[i], ancestors, frontier);
    }
    ChildDone(plan, ancestors, frontier, child);
  }

  /** Second loop: walk back from the result over a stack of newly found ancestors. */
  method Ancestors(plan: Plan) returns (ancestors: set<Key>)
    requires Identified(plan) && DependencyClosed(plan.tasks)
    ensures ancestors <= Ids(plan.tasks)
    ensures forall k :: k in ancestors <==> Contributes(plan, k)
  {
    hide Walked, Contributes;
    ancestors := {plan.resultTask};
    var frontier := [plan.resultTask];
    WalkStarts(plan);
    while frontier != []
      invariant Walked(plan, ancestors, frontier) && ancestors <= Ids(plan.tasks)
      decreases Ids(plan.tasks) - ancestors, |frontier|
    {
      var child := frontier[|frontier| - 1];
      var rest := frontier[..|frontier| - 1];
      assert frontier == rest + [child];
      WalkedTop(plan, ancestors, rest, child);
      ancestors, frontier := PushParents(plan, child, ancestors, rest);
      WalkedWithin(plan, ancestors, frontier);
    }
    WalkedCompletely(plan, ancestors);
  }

  /** `Plan.dag`: the verdict names the first of the three conditions that fails. */
  method Dag(plan: Plan) returns (verdict: Verdict)
    ensures verdict == Adopted <==> WellFormed(plan)
    ensures verdict == InvalidIdentity <==> !Identified(plan)
    ensures verdict == CyclicOrMissing <==>
              Identified(plan) && !(DependencyClosed(plan.tasks) && Acyclic(plan.tasks))
    ensures verdict == Unconnected <==>
              Identified(plan) && DependencyClosed(plan.tasks) && Acyclic(plan.tasks) && !Connected(plan)
  {
    hide Acyclic, Contributes, DependencyClosed;
    var tasks := TaskMap(plan.tasks);
    TaskMapSize(plan.tasks);
    if |tasks| != |plan.tasks| || plan.resultTask !in tasks {
      return InvalidIdentity;
    }
    var resolvable := ResolveOrder(plan);
    if !resolvable {
      return CyclicOrMissing;
    }
    var ancestors := Ancestors(plan);
    if ancestors != tasks.Keys {
      return Unconnected;
    }
    return Adopted;
  }
}
