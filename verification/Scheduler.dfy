/** The scheduling loop of a failure-free run: rounds of ready Tasks, at most `concurrency` at a time. */
module Scheduler {
  import opened Models
  import opened PlanGraph

  /** The Tasks accepted once the given batches, in this order, have been accepted. */
  function Done(start: set<Key>, batches: seq<set<Key>>): set<Key> {
    if batches == [] then start
    else Done(start, batches[..|batches| - 1]) + batches[|batches| - 1]
  }

  /** One round launches only Tasks whose parents are already accepted, and as many as it may. */
  ghost predicate RoundOk(plan: Plan, accepted: set<Key>, batch: set<Key>, concurrency: nat) {
    && accepted <= Ids(plan.tasks)
    && var ready := ReadyTasks(TaskMap(plan.tasks), Ids(plan.tasks) - accepted, accepted);
       batch <= ready && |batch| == if |ready| < concurrency then |ready| else concurrency
  }

  /** Some `n` of the ready Tasks; which ones depends on the order of the keys. */
  method TakeBatch(ready: set<Key>, n: nat) returns (batch: set<Key>)
    ensures batch <= ready && |batch| == if |ready| < n then |ready| else n
  {
    batch := {};
    var rest := ready;
    while rest != {} && |batch| < n
      invariant batch <= ready && rest == ready - batch && |batch| <= n
      invariant |batch| + |rest| == |ready|
      decreases rest
    {
      var k :| k in rest;
      batch, rest := batch + {k}, rest - {k};
    }
  }

  lemma SmallerSet<T>(a: set<T>, b: set<T>)
    requires a <= b
    ensures |a| <= |b|
  {
    assert b == (b - a) + a;
  }

  lemma LargerUnion<T>(a: set<T>, batch: set<T>)
    requires batch != {} && a !! batch
    ensures |a + batch| > |a|
  {
    assert |a + batch| == |a| + |batch|;
  }

  /** Every batch is a round of its own, started when exactly the earlier ones were accepted. */
  ghost predicate RoundsOk(plan: Plan, start: set<Key>, batches: seq<set<Key>>, concurrency: nat) {
    batches != [] ==>
      var earlier, batch := batches[..|batches| - 1], batches[|batches| - 1];
      && RoundsOk(plan, start, earlier, concurrency)
      && batch != {}
      && RoundOk(plan, Done(start, earlier), batch, concurrency)
  }

  lemma AnotherRound(plan: Plan, start: set<Key>, batches: seq<set<Key>>, batch: set<Key>, concurrency: nat)
    requires RoundsOk(plan, start, batches, concurrency)
    requires batch != {} && RoundOk(plan, Done(start, batches), batch, concurrency)
    ensures RoundsOk(plan, start, batches + [batch], concurrency)
    ensures Done(start, batches + [batch]) == Done(start, batches) + batch
  {
    assert (batches + [batch])[..|batches|] == batches;
  }

  lemma PendingLeft(plan: Plan, accepted: set<Key>)
    requires UniqueIds(plan.tasks) && accepted < Ids(plan.tasks)
    ensures TaskMap(plan.tasks).Keys == Ids(plan.tasks)
    ensures Ids(plan.tasks) - accepted != {}
  {
    var k :| k in Ids(plan.tasks) && k !in accepted;
    assert k in Ids(plan.tasks) - accepted;
  }

  /** One iteration of the loop; the batch it launches is never empty. */
  method Round(plan: Plan, tasks: map<Key, Task>, accepted: set<Key>, concurrency: nat)
    returns (now: set<Key>, batch: set<Key>)
    requires WellFormed(plan) && tasks == TaskMap(plan.tasks) && concurrency > 0
    requires accepted < Ids(plan.tasks)
    ensures accepted < now <= Ids(plan.tasks) && |now| > |accepted|
    ensures now == accepted + batch && batch != {} && RoundOk(plan, accepted, batch, concurrency)
  {
    var pending := tasks.Keys - accepted;
    PendingLeft(plan, accepted);
    var ready := ReadyTasks(tasks, pending, accepted);
    ReadyIsNotEmpty(plan, pending, accepted);
    batch := TakeBatch(ready, concurrency);
    assert ready != {};
    now := accepted + batch;
    LargerUnion(accepted, batch);
  }

  /** Every round finds a ready Task, whatever part of the plan was accepted before; so the run
      accepts the whole plan after at most one round per Task that was still pending. */
  method RunToCompletion(plan: Plan, start: set<Key>, concurrency: nat)
    returns (accepted: set<Key>, batches: seq<set<Key>>)
    requires WellFormed(plan) && start <= Ids(plan.tasks) && concurrency > 0
    ensures accepted == Ids(plan.tasks) && accepted == Done(start, batches)
    ensures RoundsOk(plan, start, batches, concurrency)
    ensures |start| + |batches| <= |Ids(plan.tasks)|
  {
    var tasks := TaskMap(plan.tasks);
    accepted, batches := start, [];
    while accepted != tasks.Keys
      invariant accepted <= tasks.Keys && accepted == Done(start, batches)
      invariant RoundsOk(plan, start, batches, concurrency)
      invariant |start| + |batches| <= |accepted|
      decreases tasks.Keys - accepted
    {
      var now, batch := Round(plan, tasks, accepted, concurrency);
      AnotherRound(plan, start, batches, batch, concurrency);
      batches, accepted := batches + [batch], now;
    }
    SmallerSet(accepted, tasks.Keys);
  }
}
