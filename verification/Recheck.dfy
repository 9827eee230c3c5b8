/** The loops by which the controller rereads accepted work and the completed result. */
module Recheck {
  import opened Models
  import opened RunLog
  import opened Completion

  datatype Rejection =
    | ForeignTaskCandidate
    | StaleUpstreamLineage
    | UnattestedCandidate
    | CandidateContextChanged
    | CandidateNotVerified
    | InputComparisonContextMismatch
    | GoalNotVerified
    | GoalProvenanceChanged
    | StaleCompletion
    | JointVerificationContextChanged
    | RecordMissing // no Goal or plan on record: the source fails on the empty search

  datatype Reread<+T> = Current(value: T) | Rejected(reason: Rejection)

  /** One event of the first loop, which is foreign or counts. */
  lemma CollectOne(log: Log, plan: Plan, i: nat)
    requires i < |log|
    ensures AcceptedIn(log[..i + 1], plan)
         == if log[i].Accepted? && log[i].key in Ids(plan.tasks)
            then AcceptedIn(log[..i], plan)[log[i].key := log[i].candidate] else AcceptedIn(log[..i], plan)
  {
    assert Init(log[..i + 1]) == log[..i];
  }

  lemma ForeignIsRejected(log: Log, plan: Plan, i: nat)
    requires i < |log| && log[i].Accepted? && log[i].key in Ids(plan.tasks)
    requires log[i].candidate.task != TaskMap(plan.tasks)[log[i].key]
    ensures !NotForeign(log, plan)
  {
    assert log[i] in log;
  }

  lemma NotForeignStep(log: Log, plan: Plan, i: nat)
    requires i < |log| && NotForeign(log[..i], plan)
    requires log[i].Accepted? && log[i].key in Ids(plan.tasks) ==>
               log[i].candidate.task == TaskMap(plan.tasks)[log[i].key]
    ensures NotForeign(log[..i + 1], plan)
  {
    assert log[..i + 1] == log[..i] + [log[i]];
  }

  lemma NothingCollected(log: Log, plan: Plan)
    ensures NotForeign(log[..0], plan) && AcceptedIn(log[..0], plan) == map[]
  {
  }

  /** First loop of `_accepted`: the latest acceptance of every Task of the plan. */
  method CollectAccepted(log: Log, plan: Plan) returns (r: Reread<map<Key, Candidate>>)
    ensures r.Current? <==> NotForeign(log, plan)
    ensures r.Current? ==> r.value == AcceptedIn(log, plan)
    ensures r.Rejected? ==> r.reason == ForeignTaskCandidate
  {
    hide NotForeign, AcceptedIn;
    var tasks := TaskMap(plan.tasks);
    NothingCollected(log, plan);
    var accepted: map<Key, Candidate> := map[];
    for i := 0 to |log|
      invariant NotForeign(log[..i], plan) && accepted == AcceptedIn(log[..i], plan)
    {
      CollectOne(log, plan, i);
      if log[i].Accepted? && log[i].key in tasks {
        if log[i].candidate.task != tasks[log[i].key] {
          ForeignIsRejected(log, plan, i);
          return Rejected(ForeignTaskCandidate);
        }
        accepted := accepted[log[i].key := log[i].candidate];
      }
      NotForeignStep(log, plan, i);
    }
    assert log[..|log|] == log;
    return Current(accepted);
  }

  /** What the third loop finds about one Candidate. */
  function Attestation(run: Run, log: Log, c: Candidate): Reread<()> {
    var contexts := Contexts(log, c.attempt);
    if |contexts| != 1 then Rejected(UnattestedCandidate)
    else if !Stems(contexts[0], c) then Rejected(CandidateContextChanged)
    else if !PassedTaskLevel(log, c) then Rejected(CandidateNotVerified)
    else if !SavedComparisonOk(run, log, contexts[0].goal, Some(contexts[0].task), c) then
      Rejected(InputComparisonContextMismatch)
    else Current(())
  }

  method CheckLineage(accepted: map<Key, Candidate>, tasks: map<Key, Task>) returns (current: bool)
    requires accepted.Keys <= tasks.Keys
    ensures current <==> forall k :: k in accepted ==> LineageCurrent(accepted, tasks[k], accepted[k])
  {
    var rest := accepted.Keys;
    while rest != {}
      invariant rest <= accepted.Keys
      invariant forall k :: k in accepted && k !in rest ==> LineageCurrent(accepted, tasks[k], accepted[k])
      decreases rest
    {
      var k :| k in rest;
      if !LineageCurrent(accepted, tasks[k], accepted[k]) { return false; }
      rest := rest - {k};
    }
    return true;
  }

  method CheckAttestations(run: Run, log: Log, accepted: map<Key, Candidate>) returns (r: Reread<()>)
    ensures r.Current? <==> forall k :: k in accepted ==> CandidateAttested(run, log, accepted[k])
  {
    var rest := accepted.Keys;
    while rest != {}
      invariant rest <= accepted.Keys
      invariant forall k :: k in accepted && k !in rest ==> CandidateAttested(run, log, accepted[k])
      decreases rest
    {
      var k :| k in rest;
      r := Attestation(run, log, accepted[k]);
      if r.Rejected? { return; }
      rest := rest - {k};
    }
    return Current(());
  }

  /** `_accepted`, on any log whatever. */
  method RereadAccepted(run: Run, log: Log, plan: Plan) returns (r: Reread<map<Key, Candidate>>)
    ensures r.Current? <==> AllAttested(run, log, plan)
    ensures r.Current? ==> r.value == AcceptedIn(log, plan)
  {
    r := CollectAccepted(log, plan);
    if r.Rejected? { return; }
    var current := CheckLineage(r.value, TaskMap(plan.tasks));
    if !current { return Rejected(StaleUpstreamLineage); }
    var attested := CheckAttestations(run, log, r.value);
    if attested.Rejected? { return Rejected(attested.reason); }
  }

  /** `_completion`, on any log whatever: returns the final Candidate exactly when every recheck succeeds. */
  method RereadCompletion(run: Run, log: Log) returns (r: Reread<Candidate>)
    ensures r.Current? <==> CompletionOk(run, log)
    ensures r.Current? ==> r.value == LastCompletion(log).value.0
  {
    var completed := LastCompletion(log);
    if completed.None? { return Rejected(GoalNotVerified); }
    if GoalOf(log).None? || Plans(log) == [] { return Rejected(RecordMissing); }
    var goal, plan, c := GoalOf(log).value, LastPlan(log), completed.value.0;
    if goal.original != run.original || goal.mandatoryChecks != run.config.mandatoryChecks {
      return Rejected(GoalProvenanceChanged);
    }
    var accepted := RereadAccepted(run, log, plan);
    if accepted.Rejected? { return Rejected(accepted.reason); }
    if !ResultCurrent(log, plan, goal, completed.value) { return Rejected(StaleCompletion); }
    if !PassedGoalLevel(log, c) { return Rejected(GoalNotVerified); }
    if !ReuseStands(run, log, goal, TaskMap(plan.tasks)[plan.resultTask], c) {
      return Rejected(JointVerificationContextChanged);
    }
    if !SavedComparisonOk(run, log, goal, None, c) { return Rejected(InputComparisonContextMismatch); }
    return Current(c);
  }
}
