/** Deciding acceptance from evidence: findings, protected checks and input preservation. */
module Evidence {
  import opened Models
  import StageContract

  // ---- findings ----

  function KeySet(keys: seq<Key>): set<Key> {
    set k | k in keys
  }

  predicate Distinct(keys: seq<Key>) {
    forall i, j :: 0 <= i < |keys| && i < j < |keys| ==> keys[i] != keys[j]
  }

  lemma DistinctLast(keys: seq<Key>)
    requires keys != []
    ensures var front, last := keys[..|keys| - 1], keys[|keys| - 1];
            Distinct(keys) <==> Distinct(front) && last !in KeySet(front)
  {
    var front, last := keys[..|keys| - 1], keys[|keys| - 1];
    if last in front {
      var i :| 0 <= i < |front| && front[i] == last;
      assert keys[i] == keys[|keys| - 1];
    } else {
      assert forall i :: 0 <= i < |front| ==> keys[i] == front[i] && front[i] in front;
    }
  }

  lemma {:induction false} DistinctSize(keys: seq<Key>)
    ensures |KeySet(keys)| <= |keys|
    ensures |KeySet(keys)| == |keys| <==> Distinct(keys)
  {
    if keys != [] {
      var front, last := keys[..|keys| - 1], keys[|keys| - 1];
      DistinctSize(front);
      assert KeySet(keys) == KeySet(front) + {last};
      DistinctLast(keys);
    }
  }

  function CriterionKeys(criteria: seq<Criterion>): (keys: seq<Key>)
    ensures |keys| == |criteria|
    ensures forall i :: 0 <= i < |keys| ==> keys[i] == criteria[i].id
  {
    seq(|criteria|, i requires 0 <= i < |criteria| => criteria[i].id)
  }

  function FindingKeys(findings: seq<Finding>): (keys: seq<Key>)
    ensures |keys| == |findings|
    ensures forall i :: 0 <= i < |keys| ==> keys[i] == findings[i].criterion
  {
    seq(|findings|, i requires 0 <= i < |findings| => findings[i].criterion)
  }

  predicate UniqueCriteria(criteria: seq<Criterion>) {
    Distinct(CriterionKeys(criteria))
  }

  /** `Verification.accepts`: it compares a count, a set of IDs and the verdicts. */
  predicate Accepts(findings: seq<Finding>, criteria: seq<Criterion>) {
    && |findings| == |criteria|
    && KeySet(FindingKeys(findings)) == KeySet(CriterionKeys(criteria))
    && forall f | f in findings :: f.passed
  }

  /** Exactly one finding speaks about the criterion, and it passes. */
  ghost predicate OnePassingFinding(findings: seq<Finding>, criterion: Key) {
    exists i :: 0 <= i < |findings| && findings[i] == Finding(criterion, true)
      && forall j :: 0 <= j < |findings| && j != i ==> findings[j].criterion != criterion
  }

  /** On criteria with unique IDs the count and the set force one passing finding per criterion
      and no finding about anything else. */
  lemma AcceptsMeaning(findings: seq<Finding>, criteria: seq<Criterion>)
    requires UniqueCriteria(criteria)
    ensures Accepts(findings, criteria) <==>
              && (forall c :: c in criteria ==> OnePassingFinding(findings, c.id))
              && (forall f :: f in findings ==> f.criterion in CriterionKeys(criteria))
  {
    DistinctSize(CriterionKeys(criteria));
    DistinctSize(FindingKeys(findings));
    if Accepts(findings, criteria) {
      forall c | c in criteria ensures OnePassingFinding(findings, c.id) {
        AcceptedCriterion(findings, criteria, c);
      }
      forall f | f in findings ensures f.criterion in CriterionKeys(criteria) {
        FindingListed(findings, f);
        assert f.criterion in KeySet(CriterionKeys(criteria));
      }
    }
    if (forall c :: c in criteria ==> OnePassingFinding(findings, c.id))
      && (forall f :: f in findings ==> f.criterion in CriterionKeys(criteria))
    {
      OneEachIsAccepted(findings, criteria);
    }
  }

  lemma FindingListed(findings: seq<Finding>, f: Finding)
    requires f in findings
    ensures f.criterion in FindingKeys(findings)
  {
    var i :| 0 <= i < |findings| && findings[i] == f;
    assert FindingKeys(findings)[i] == f.criterion;
  }

  lemma CriterionListed(criteria: seq<Criterion>, c: Criterion)
    requires c in criteria
    ensures c.id in CriterionKeys(criteria)
  {
    var i :| 0 <= i < |criteria| && criteria[i] == c;
    assert CriterionKeys(criteria)[i] == c.id;
  }

  lemma AcceptedCriterion(findings: seq<Finding>, criteria: seq<Criterion>, c: Criterion)
    requires Accepts(findings, criteria) && Distinct(FindingKeys(findings)) && c in criteria
    ensures OnePassingFinding(findings, c.id)
  {
    CriterionListed(criteria, c);
    assert c.id in KeySet(FindingKeys(findings));
    var i :| 0 <= i < |findings| && FindingKeys(findings)[i] == c.id;
    assert findings[i] in findings;
    forall j | 0 <= j < |findings| && j != i ensures findings[j].criterion != c.id {
      var keys := FindingKeys(findings);
      assert if i < j then keys[i] != keys[j] else keys[j] != keys[i];
    }
  }

  lemma OneEachIsAccepted(findings: seq<Finding>, criteria: seq<Criterion>)
    requires UniqueCriteria(criteria)
    requires forall c :: c in criteria ==> OnePassingFinding(findings, c.id)
    requires forall f :: f in findings ==> f.criterion in CriterionKeys(criteria)
    ensures Accepts(findings, criteria)
  {
    var keys, ids := FindingKeys(findings), CriterionKeys(criteria);
    forall i | 0 <= i < |findings|
      ensures OnePassingFinding(findings, keys[i]) && keys[i] in ids
    {
      assert findings[i] in findings;
      var n :| 0 <= n < |ids| && ids[n] == keys[i];
      assert criteria[n] in criteria;
    }
    assert Distinct(keys);
    forall f | f in findings ensures f.passed {
      var i :| 0 <= i < |findings| && findings[i] == f;
      assert OnePassingFinding(findings, keys[i]);
    }
    forall k | k in ids ensures k in keys {
      var n :| 0 <= n < |ids| && ids[n] == k;
      assert criteria[n] in criteria;
      assert OnePassingFinding(findings, criteria[n].id);
      var i :| 0 <= i < |findings| && findings[i] == Finding(k, true);
      assert keys[i] == k;
    }
    assert KeySet(keys) == KeySet(ids);
    DistinctSize(keys);
    DistinctSize(ids);
  }

  // ---- input preservation ----

  /** `name` is the scope or lies below it; the empty scope selects the whole workspace. */
  predicate Selected(name: Path, scope: Path) {
    scope <= name
  }

  function At(tree: Tree, name: Path): Option<Entry> {
    if name in tree then Some(tree[name]) else None
  }

  datatype Comparison = Comparison(missing: set<Path>, changed: set<Path>) {
    predicate Matches() {
      missing == {} && changed == {}
    }
  }

  /** `compare_inputs`: the details of the report are bounded, the verdict never is. */
  function CompareInputs(initial: Tree, candidate: Tree, paths: seq<Path>, mode: PreservationMode): Comparison {
    var missing := set s | s in paths && !(exists p | p in initial :: Selected(p, s));
    var compared := if mode.Existing? then initial.Keys else initial.Keys + candidate.Keys;
    var names := set p | p in compared && exists s | s in paths :: Selected(p, s);
    Comparison(missing, set p | p in names && At(initial, p) != At(candidate, p))
  }

  /** What one declared path promises. */
  ghost predicate Preserved(initial: Tree, candidate: Tree, scope: Path, mode: PreservationMode) {
    && (exists p :: p in initial && Selected(p, scope))
    && forall p :: Selected(p, scope) && (mode.Exact? || p in initial) ==> At(candidate, p) == At(initial, p)
  }

  lemma CompareMeaning(initial: Tree, candidate: Tree, paths: seq<Path>, mode: PreservationMode)
    ensures CompareInputs(initial, candidate, paths, mode).Matches() <==>
              forall s :: s in paths ==> Preserved(initial, candidate, s, mode)
  {
    var c := CompareInputs(initial, candidate, paths, mode);
    if c.Matches() {
      forall s | s in paths ensures Preserved(initial, candidate, s, mode) {
        assert s !in c.missing;
        forall p | Selected(p, s) && (mode.Exact? || p in initial)
          ensures At(candidate, p) == At(initial, p)
        {
          assert p !in c.changed;
        }
      }
    }
    if forall s :: s in paths ==> Preserved(initial, candidate, s, mode) {
      forall s | s in paths ensures s !in c.missing {
        assert Preserved(initial, candidate, s, mode);
      }
      assert c.missing == {} && c.changed == {};
    }
  }

  /** The comparison attached to a verification: its identity and one verdict per criterion that
      declares paths. The identity fixes the criteria, so verdicts are listed in their order. */
  datatype InputComparison = InputComparison(
    initial: Tree, goal: Goal, task: Option<Task>, candidate: Candidate, results: seq<Comparison>)

  function Criteria(goal: Goal, task: Option<Task>): seq<Criterion> {
    match task
    case None => goal.criteria
    case Some(t) => t.criteria
  }

  function CompareAll(initial: Tree, candidate: Tree, criteria: seq<Criterion>): (r: seq<Comparison>)
    ensures |r| == |criteria|
    ensures forall i :: 0 <= i < |criteria| ==>
              r[i] == CompareInputs(initial, candidate, criteria[i].preservedPaths, criteria[i].mode)
  {
    seq(|criteria|, i requires 0 <= i < |criteria| =>
      CompareInputs(initial, candidate, criteria[i].preservedPaths, criteria[i].mode))
  }

  predicate DeclaresPaths(criteria: seq<Criterion>) {
    exists c | c in criteria :: c.preservedPaths != []
  }

  /** `_input_comparison`: nothing is compared where no criterion declares paths. */
  function ComparisonFor(initial: Tree, goal: Goal, task: Option<Task>, candidate: Candidate): Option<InputComparison> {
    var criteria := Criteria(goal, task);
    if !DeclaresPaths(criteria) then None
    else Some(InputComparison(initial, goal, task, candidate, CompareAll(initial, candidate.tree, criteria)))
  }

  predicate Matching(comparison: Option<InputComparison>) {
    comparison.Some? ==> forall r | r in comparison.value.results :: r.Matches()
  }

  lemma MatchingMeaning(initial: Tree, goal: Goal, task: Option<Task>, candidate: Candidate)
    ensures Matching(ComparisonFor(initial, goal, task, candidate)) <==>
              forall c, p :: c in Criteria(goal, task) && p in c.preservedPaths ==>
                Preserved(initial, candidate.tree, p, c.mode)
  {
    var criteria := Criteria(goal, task);
    var all := CompareAll(initial, candidate.tree, criteria);
    forall i | 0 <= i < |criteria|
      ensures all[i].Matches() <==>
                forall p :: p in criteria[i].preservedPaths ==> Preserved(initial, candidate.tree, p, criteria[i].mode)
    {
      CompareMeaning(initial, candidate.tree, criteria[i].preservedPaths, criteria[i].mode);
    }
    assert forall i :: 0 <= i < |all| ==> all[i] in all;
    if !DeclaresPaths(criteria) {
      assert forall c :: c in criteria ==> c.preservedPaths == [];
    }
  }

  /** Where a plan keeps the Goal's declared paths on its result Task, a result that matches the
      inputs for the Task matches them for the Goal. */
  lemma ResultKeepsGoalInputs(initial: Tree, goal: Goal, task: Task, candidate: Candidate)
    requires StageContract.PreservedPaths(goal.criteria) <= StageContract.PreservedPaths(task.criteria)
    requires Matching(ComparisonFor(initial, goal, Some(task), candidate))
    ensures Matching(ComparisonFor(initial, goal, None, candidate))
  {
    MatchingMeaning(initial, goal, Some(task), candidate);
    MatchingMeaning(initial, goal, None, candidate);
    forall c, p | c in goal.criteria && p in c.preservedPaths
      ensures Preserved(initial, candidate.tree, p, c.mode)
    {
      assert (p, c.mode) in StageContract.PreservedPaths(goal.criteria);
      assert (p, c.mode) in StageContract.PreservedPaths(task.criteria);
      var d :| d in task.criteria && p in d.preservedPaths && d.mode == c.mode;
      assert d in Criteria(goal, Some(task));
    }
  }

  // ---- protected checks and the decision ----

  /** The checks an acceptance decision runs: those its criteria name, and at Goal level the
      mandatory ones. */
  function CheckIds(goal: Goal, task: Option<Task>): set<Key> {
    (if task.None? then KeySet(goal.mandatoryChecks) else {})
    + set c, k | c in Criteria(goal, task) && k in c.checks :: k
  }

  function RequiredChecks(checks: seq<Check>, ids: set<Key>): seq<Check> {
    if checks == [] then []
    else
      RequiredChecks(checks[..|checks| - 1], ids)
      + if checks[|checks| - 1].id in ids then [checks[|checks| - 1]] else []
  }

  /** One receipt per required check, in configuration order, all about this candidate. */
  predicate ReceiptsFor(receipts: seq<Receipt>, required: seq<Check>, candidate: Candidate) {
    && |receipts| == |required|
    && forall i | 0 <= i < |receipts| ::
         && receipts[i].check == required[i].id
         && receipts[i].externalEffect == required[i].externalEffect
         && receipts[i].candidate == candidate
  }

  predicate AllPassed(receipts: seq<Receipt>) {
    forall r | r in receipts :: r.passed
  }

  predicate ExternallyProven(receipts: seq<Receipt>) {
    exists r | r in receipts :: r.externalEffect && r.passed
  }

  /** The verdict of `_verify` once its review has passed. */
  predicate Decision(criteria: seq<Criterion>, findings: seq<Finding>, receipts: seq<Receipt>, prior: seq<Receipt>,
                    comparison: Option<InputComparison>, external: bool)
  {
    && Accepts(findings, criteria)
    && AllPassed(receipts)
    && Matching(comparison)
    && (external ==> ExternallyProven(receipts + prior))
  }
}
