/** What stands behind an acceptance and a completion, from end to end. */
module Proof {
  import opened Models
  import opened Evidence
  import opened RunLog
  import opened Guarantees
  import opened Completion
  import opened Reuse

  ghost predicate CheckPassed(log: Log, check: Key, c: Candidate) {
    exists q :: CheckResult(q) in log && q.check == check && q.candidate == c && q.passed
  }

  ghost predicate ExternalPassed(log: Log) {
    exists q :: CheckResult(q) in log && q.externalEffect && q.passed
  }

  /** One passing finding per criterion, a passing receipt about exactly this Candidate for every
      required check, every declared input preserved and, where needed, external evidence. */
  ghost predicate ProvenBy(run: Run, p: Log, goal: Goal, task: Option<Task>, c: Candidate, findings: seq<Finding>) {
    && (forall k :: k in Criteria(goal, task) ==> OnePassingFinding(findings, k.id))
    && (forall d :: d in RequiredChecks(run.config.checks, CheckIds(goal, task)) ==> CheckPassed(p, d.id, c))
    && (forall k, s :: k in Criteria(goal, task) && s in k.preservedPaths ==> Preserved(run.initial, c.tree, s, k.mode))
    && (NeedsExternal(p, goal, task, c) ==> ExternalPassed(p))
  }

  lemma ReceiptsProve(p: Log, receipts: seq<Receipt>, required: seq<Check>, c: Candidate)
    requires ReceiptsFor(receipts, required, c) && AllPassed(receipts)
    requires forall q :: q in receipts ==> CheckResult(q) in p
    ensures forall d :: d in required ==> CheckPassed(p, d.id, c)
  {
    forall d | d in required ensures CheckPassed(p, d.id, c) {
      var i :| 0 <= i < |required| && required[i] == d;
      assert receipts[i] in receipts && CheckResult(receipts[i]) in p;
    }
  }

  lemma {:induction false} PriorOnRecord(p: Log, upto: nat)
    requires upto <= |p|
    ensures forall q :: q in PriorReceipts(p, upto) ==> CheckResult(q) in p && q.passed
  {
    if upto > 0 {
      PriorOnRecord(p, upto - 1);
      assert p[upto - 1] in p;
    }
  }

  lemma ExternalProves(p: Log, receipts: seq<Receipt>, task: Option<Task>)
    requires ExternallyProven(receipts + SupportingReceipts(p, task))
    requires forall q :: q in receipts ==> CheckResult(q) in p
    ensures ExternalPassed(p)
  {
    PriorOnRecord(p, |p|);
    var q :| q in receipts + SupportingReceipts(p, task) && q.externalEffect && q.passed;
    assert q in receipts || q in SupportingReceipts(p, task);
  }

  lemma DecisionProves(run: Run, p: Log, goal: Goal, task: Option<Task>, r: Record, receipts: seq<Receipt>)
    requires DecidedOn(run, p, goal, task, r, receipts) && r.passed && UniqueCriteria(Criteria(goal, task))
    requires r.comparison == ComparisonFor(run.initial, goal, task, r.candidate)
    ensures ProvenBy(run, p, goal, task, r.candidate, r.findings)
  {
    AcceptsMeaning(r.findings, Criteria(goal, task));
    MatchingMeaning(run.initial, goal, task, r.candidate);
    ReceiptsProve(p, receipts, RequiredChecks(run.config.checks, CheckIds(goal, task)), r.candidate);
    if NeedsExternal(p, goal, task, r.candidate) {
      ExternalProves(p, receipts, task);
    }
  }

  lemma GoalRecordProves(run: Run, p: Log, r: Record)
    requires HistoryOk(run, p) && JustifiedGoalRecord(run, p, r) && r.passed
    ensures ProvenBy(run, p, GoalOf(p).value, None, r.candidate, r.findings)
  {
    var goal := GoalOf(p).value;
    GoalProvenance(run, p);
    if r.reusedFrom.None? {
      var receipts :| DecidedOn(run, p, goal, None, r, receipts);
      DecisionProves(run, p, goal, None, r, receipts);
    } else {
      var source := r.reusedFrom.value;
      ReuseRefinesVerification(run, p, goal, r.candidate.task, r.candidate);
      DecisionProves(run, p, goal, None, FullRecord(run, goal, source), source.joint.value.receipts);
    }
  }

  lemma ProvenAt(run: Run, log: Log, n: nat)
    requires HistoryOk(run, log) && n < |log| && log[n].Verified? && log[n].record.goalLevel && log[n].record.passed
    ensures GoalOf(log[..n]).Some?
    ensures ProvenBy(run, log[..n], GoalOf(log[..n]).value, None, log[n].record.candidate, log[n].record.findings)
  {
    hide ProvenBy;
    GoalRecordAt(run, log, n);
    HistoryPrefix(run, log, n);
    GoalRecordProves(run, log[..n], log[n].record);
  }

  /** The Goal of a completion is the Goal at every earlier point that had one. */
  lemma CompletedGoal(run: Run, log: Log, i: nat, n: nat)
    requires HistoryOk(run, log) && n <= i < |log| && log[i].Completed? && GoalOf(log[..n]).Some?
    ensures GoalOf(log[..n]) == Some(log[i].goal)
  {
    HistoryPrefix(run, log, i);
    assert log[..i][..n] == log[..n];
    GoalOfPrefix(run, log[..i], n);
  }

  /** Before a completion the whole Goal was proven of exactly its Candidate, by a full verification or
      by a reused one alike. */
  lemma CompletionIsProven(run: Run, log: Log, i: nat) returns (verified: nat)
    requires HistoryOk(run, log) && i < |log| && log[i].Completed?
    ensures verified < i && IsRecord(log[verified], log[i].candidate, true) && log[verified].record.passed
    ensures ProvenBy(run, log[..verified], log[i].goal, None, log[i].candidate, log[verified].record.findings)
  {
    hide ProvenBy, JustifiedGoalRecord, HistoryOk;
    verified := GoalVerifiedBefore(run, log, i);
    ProvenAt(run, log, verified);
    CompletedGoal(run, log, i, verified);
  }

  /** Before an acceptance the Task was proven of exactly its Candidate. Criteria of one Task have
      distinct IDs by its own definition. */
  lemma AcceptanceIsProven(run: Run, log: Log, i: nat) returns (verified: nat)
    requires HistoryOk(run, log) && i < |log| && log[i].Accepted?
    requires UniqueCriteria(log[i].candidate.task.criteria)
    ensures verified < i && IsRecord(log[verified], log[i].candidate, false) && log[verified].record.passed
    ensures GoalOf(log[..verified]).Some?
    ensures ProvenBy(run, log[..verified], GoalOf(log[..verified]).value, Some(log[i].candidate.task),
                     log[i].candidate, log[verified].record.findings)
  {
    verified := VerifiedBefore(run, log, i);
    HistoryPrefix(run, log, verified);
    TaskRecordProves(run, log[..verified], log[verified].record);
  }

  lemma TaskRecordProves(run: Run, p: Log, r: Record)
    requires JustifiedTaskRecord(run, p, r) && r.passed && UniqueCriteria(r.candidate.task.criteria)
    ensures ProvenBy(run, p, GoalOf(p).value, Some(r.candidate.task), r.candidate, r.findings)
  {
    var goal, task := GoalOf(p).value, r.candidate.task;
    var receipts :| DecidedOn(run, p, goal, Some(task), r, receipts)
      && r.joint == if JointEligible(run, p, goal, task, r.candidate) then Some(Joint(goal, task, receipts)) else None;
    DecisionProves(run, p, goal, Some(task), r, receipts);
  }
}
