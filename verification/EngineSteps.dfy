/** Every step of a thread is justified by the log it reads and keeps the invariant. */
module EngineSteps {
  import opened Models
  import opened RunLog
  import opened Replay
  import opened EngineInvariant

  // ---- composing one thread's step with the rest of the pool ----

  /** The event concerns the thread's own Task or attempt. */
  ghost predicate Own(log: Log, e: Event, k: Key, w': Worker) {
    && !IsGlobal(e)
    && (e.AttemptStarted? ==> e.context.task.id == k)
    && (e.Accepted? ==> e.key == k && w' == Finished(e.candidate))
    && (e.Uncertain? ==> w'.Aborted?)
    && (AttemptOf(e).Some? ==>
          exists x :: AttemptStarted(x) in log && x.attempt == AttemptOf(e).value && x.task.id == k)
  }

  lemma ContextIsMine(run: Run, log: Log, k: Key, w: Worker)
    requires WorkerOk(run, log, k, w) && HasContext(w)
    ensures AttemptStarted(w.context) in log && w.context.task.id == k
  {
  }

  lemma OtherAttempt(run: Run, log: Log, e: Event, k: Key, y: Context)
    requires HistoryOk(run, log) && AttemptStarted(y) in log && y.task.id != k
    requires exists x :: AttemptStarted(x) in log && Some(x.attempt) == AttemptOf(e) && x.task.id == k
    ensures AttemptOf(e) != Some(y.attempt)
  {
    AttemptIsUnique(run, log, y);
  }

  lemma OwnIsElsewhere(run: Run, log: Log, e: Event, k: Key, w': Worker, j: Key, w: Worker)
    requires HistoryOk(run, log) && Justified(run, log, e) && Own(log, e, k, w')
    requires j != k && WorkerOk(run, log, j, w)
    ensures Elsewhere(log, e, j, w)
  {
    if HasContext(w) && AttemptOf(e).Some? {
      ContextIsMine(run, log, j, w);
      OtherAttempt(run, log, e, k, w.context);
    }
  }

  lemma PoolFrame(run: Run, log: Log, pool: map<Key, Worker>, k: Key, e: Event, w': Worker)
    requires HistoryOk(run, log) && PoolOk(run, log, pool)
    requires Justified(run, log, e) && Own(log, e, k, w') && WorkerOk(run, log + [e], k, w')
    ensures PoolOk(run, log + [e], pool[k := w'])
  {
    var after := pool[k := w'];
    forall j | j in after ensures WorkerOk(run, log + [e], j, after[j]) {
      if j != k {
        OwnIsElsewhere(run, log, e, k, w', j, pool[j]);
        WorkerFrame(run, log, e, j, pool[j]);
      }
    }
  }

  lemma AcceptedInStep(log: Log, e: Event)
    requires !IsGlobal(e) && Plans(log) != []
    ensures LastPlan(log + [e]) == LastPlan(log)
    ensures AcceptedIn(log + [e], LastPlan(log)) ==
              if e.Accepted? && e.key in Ids(LastPlan(log).tasks)
              then AcceptedIn(log, LastPlan(log))[e.key := e.candidate] else AcceptedIn(log, LastPlan(log))
  {
    LocalEventKeeps(log, e);
    AcceptedStep(log, e);
  }

  lemma CollectedStep(run: Run, log: Log, accepted: map<Key, Candidate>, pool: map<Key, Worker>, k: Key, e: Event,
                      w': Worker)
    requires Plans(log) != [] && Collected(log, accepted, pool) && k in pool && !Terminal(pool[k])
    requires Own(log, e, k, w') && (e.Accepted? ==> e.key !in AcceptedMap(log))
    ensures LastPlan(log + [e]) == LastPlan(log) && Plans(log + [e]) != []
    ensures Collected(log + [e], accepted, pool[k := w'])
  {
    LocalEventKeeps(log, e);
    AcceptedInStep(log, e);
  }

  /** The controller thread and the threads of a batch. */
  ghost predicate Running(main: Main, pool: map<Key, Worker>, k: Key) {
    (main.Joining? || main.Draining?) && k in pool && !Terminal(pool[k])
  }

  lemma AbortedKept(pool: map<Key, Worker>, k: Key, w': Worker)
    requires k in pool && !Terminal(pool[k]) && SomeAborted(pool)
    ensures SomeAborted(pool[k := w'])
  {
    var after := pool[k := w'];
    var j :| j in pool && pool[j].Aborted?;
    assert j in after && after[j].Aborted?;
  }

  /** While a batch is joined, what the controller thread relies on survives the step as well. */
  lemma JoiningStep(run: Run, log: Log, main: Main, pool: map<Key, Worker>, k: Key, e: Event, w': Worker)
    requires main.Joining? && PlanInForce(log) && MainOk(run, log, main, pool) && Running(main, pool, k)
    requires Own(log, e, k, w') && (e.Accepted? ==> e.key !in AcceptedMap(log))
    ensures PlanInForce(log + [e]) && MainOk(run, log + [e], main, pool[k := w'])
  {
    LocalEventKeeps(log, e);
    CollectedStep(run, log, main.accepted, pool, k, e, w');
    if Uncertain in log {
      AbortedKept(pool, k, w');
    }
    assert pool[k := w'][k] == w';
  }

  /** One thread appends one event of its own and moves on; everything else stays valid. */
  lemma WorkerStep(run: Run, log: Log, main: Main, pool: map<Key, Worker>, k: Key, e: Event, w': Worker)
    requires Inv(run, log, main, pool) && Running(main, pool, k)
    requires Justified(run, log, e) && Own(log, e, k, w') && WorkerOk(run, log + [e], k, w')
    ensures Inv(run, log + [e], main, pool[k := w'])
  {
    Appended(log, e);
    PoolFrame(run, log, pool, k, e, w');
    LocalEventKeeps(log, e);
    if main.Joining? {
      JoiningStep(run, log, main, pool, k, e, w');
    }
  }

  /** One thread moves on without appending anything. */
  lemma WorkerMove(run: Run, log: Log, main: Main, pool: map<Key, Worker>, k: Key, w': Worker)
    requires Inv(run, log, main, pool) && Running(main, pool, k) && WorkerOk(run, log, k, w')
    ensures Inv(run, log, main, pool[k := w'])
  {
    if main.Joining? && Uncertain in log {
      AbortedKept(pool, k, w');
    }
  }

  lemma StillUnaccepted(run: Run, log: Log, k: Key, w: Worker)
    requires WorkerOk(run, log, k, w) && !Terminal(w)
    ensures PlanInForce(log) && k in Ids(LastPlan(log).tasks) && k !in AcceptedMap(log)
  {
  }

  // ---- what a thread finds when it starts ----

  lemma {:induction false} FrozenListed(log: Log, c: Candidate)
    ensures CandidateFrozen(c) in log <==> c in FrozenBy(log, c.attempt)
  {
    if log != [] {
      FrozenListed(Init(log), c);
      assert log == Init(log) + [Last(log)];
    }
  }

  lemma {:induction false} FrozenAttempt(log: Log, attempt: Key)
    ensures forall c :: c in FrozenBy(log, attempt) ==> c.attempt == attempt
  {
    if log != [] {
      FrozenAttempt(Init(log), attempt);
    }
  }

  lemma {:induction false} EarlierAttemptsAreLocal(run: Run, log: Log, t: Task)
    requires HistoryOk(run, log)
    ensures forall i :: 0 <= i < |Attempts(log, t)| - 1 ==> !Attempts(log, t)[i].authority.externalWrites
  {
    if log != [] {
      EarlierAttemptsAreLocal(run, Init(log), t);
    }
  }

  lemma {:induction false} AttemptsOnRecord(log: Log, t: Task)
    ensures forall x :: x in Attempts(log, t) ==> AttemptStarted(x) in log && x.task == t
  {
    if log != [] {
      AttemptsOnRecord(Init(log), t);
    }
  }

  lemma NoCandidateNoVerdict(run: Run, log: Log, attempt: Key)
    requires HistoryOk(run, log) && NoCandidateYet(log, attempt)
    ensures NoVerdictYet(log, attempt)
  {
    forall e | e in log && e.Verified? && !e.record.goalLevel ensures e.record.candidate.attempt != attempt {
      TaskRecordIsUnique(run, log, e.record);
    }
  }

  lemma {:induction false} ReservedHasContext(run: Run, log: Log, attempt: Key)
    requires HistoryOk(run, log) && WorkerReserved(attempt) in log
    ensures Attempted(log, attempt)
  {
    if Last(log) != WorkerReserved(attempt) {
      ReservedHasContext(run, Init(log), attempt);
      var x :| AttemptStarted(x) in Init(log) && x.attempt == attempt;
      assert AttemptStarted(x) in log;
    } else {
      var x :| AttemptStarted(x) in Init(log) && x.attempt == attempt;
      assert AttemptStarted(x) in log;
    }
  }

  predicate Unused(log: Log, attempt: Key) {
    forall e | e in log :: e.AttemptStarted? ==> e.context.attempt != attempt
  }

  lemma UnusedIsUntouched(run: Run, log: Log, attempt: Key)
    requires HistoryOk(run, log) && Unused(log, attempt)
    ensures Unjudged(log, attempt) && WorkerReserved(attempt) !in log
  {
    forall e | e in log && e.CandidateFrozen? ensures e.candidate.attempt != attempt {
      var x := CandidateHasContext(run, log, e.candidate);
    }
    NoCandidateNoVerdict(run, log, attempt);
    if WorkerReserved(attempt) in log {
      ReservedHasContext(run, log, attempt);
    }
  }

  // ---- resuming ----

  /** The latest attempt left a completed result behind and was not given up. */
  predicate Resumable(log: Log, x: Context) {
    var results := Results(log, x.attempt);
    results != [] && results[|results| - 1].CompletedWork? && AttemptFailed(x.attempt) !in log
  }

  /** Where a thread continues, from the log alone. */
  function Resume(run: Run, log: Log, k: Key, t: Task): Worker {
    var prior := Attempts(log, t);
    if prior == [] then Ready
    else
      var x := prior[|prior| - 1];
      if Resumable(log, x) then ResumeCompleted(log, x)
      else if DirectTask(log, k) then Falling
      else if x.authority.externalWrites then Doubtful
      else Ready
  }

  /** What `_execute_task` does on starting, its tests for stale inputs included: a stale upstream
      stops, a stale prior attempt or Goal fails the Task. */
  function Begins(run: Run, log: Log, k: Key, t: Task, up: seq<Candidate>): Worker
    requires Plans(log) != []
  {
    var prior := Attempts(log, t);
    if Upstream(AcceptedIn(log, LastPlan(log)), t.dependencies) != Some(up) then Aborted
    else if prior == [] then Resume(run, log, k, t)
    else
      var x := prior[|prior| - 1];
      if x.upstream != up || x.task != t then Failing
      else if Resumable(log, x) && GoalOf(log) != Some(x.goal) then Failing
      else Resume(run, log, k, t)
  }

  function ResumeCompleted(log: Log, x: Context): Worker {
    var frozen := FrozenBy(log, x.attempt);
    if frozen == [] then Returned(x, true)
    else
      var c := frozen[|frozen| - 1];
      match LastRecord(log, c, false)
      case None => Judging(x, c, [], true)
      case Some(r) => if r.passed then Passed(x, c, true) else Refused(x, true)
  }

  lemma ResumedIdentity(run: Run, log: Log, t: Task, x: Context, c: Candidate)
    requires HistoryOk(run, log) && Mine(log, t, x) && c in FrozenBy(log, x.attempt)
    ensures Stems(x, c) && CandidateFrozen(c) in log && c.attempt == x.attempt
  {
    FrozenAttempt(log, x.attempt);
    FrozenListed(log, c);
    var y := CandidateHasContext(run, log, c);
    AttemptIsUnique(run, log, x);
  }

  lemma ResumedVerdict(run: Run, log: Log, c: Candidate, e: Event)
    requires HistoryOk(run, log) && CandidateFrozen(c) in log
    requires e in log && IsTaskRecord(e) && e.record.candidate.attempt == c.attempt
    ensures LastRecord(log, c, false) == Some(e.record)
  {
    TaskRecordIsUnique(run, log, e.record);
    OneCandidatePerAttempt(run, log, c, e.record.candidate);
  }

  lemma ResumedPass(run: Run, log: Log, t: Task, c: Candidate)
    requires HistoryOk(run, log) && GoalOf(log).Some? && c.task == t
    requires LastRecord(log, c, false).Some? && LastRecord(log, c, false).value.passed
    ensures PassedTaskLevel(log, c) && SavedComparisonOk(run, log, GoalOf(log).value, Some(t), c)
  {
    var n := LastRecordEnd(log, c, false);
    assert log[n - 1] in log && log[n - 1] == Verified(log[n - 1].record);
    TaskRecordComparison(run, log, log[n - 1].record);
  }

  /** A frozen Candidate found on resuming still carries the identity of its context, and a recorded
      verdict is about exactly this Candidate. */
  lemma ResumedCandidate(run: Run, log: Log, t: Task, x: Context, c: Candidate)
    requires HistoryOk(run, log) && GoalOf(log).Some? && Mine(log, t, x)
    requires c in FrozenBy(log, x.attempt)
    ensures Stems(x, c) && CandidateFrozen(c) in log
    ensures LastRecord(log, c, false).None? ==> NoVerdictYet(log, x.attempt)
    ensures LastRecord(log, c, false).Some? && LastRecord(log, c, false).value.passed ==>
              PassedTaskLevel(log, c) && SavedComparisonOk(run, log, GoalOf(log).value, Some(t), c)
  {
    ResumedIdentity(run, log, t, x, c);
    forall e | e in log && IsTaskRecord(e) && e.record.candidate.attempt == x.attempt
      ensures LastRecord(log, c, false) == Some(e.record)
    {
      ResumedVerdict(run, log, c, e);
    }
    if LastRecord(log, c, false).Some? && LastRecord(log, c, false).value.passed {
      ResumedPass(run, log, t, c);
    }
  }

  lemma NothingFrozen(run: Run, log: Log, attempt: Key)
    requires HistoryOk(run, log) && FrozenBy(log, attempt) == []
    ensures Unjudged(log, attempt)
  {
    forall e | e in log && e.CandidateFrozen? ensures e.candidate.attempt != attempt {
      FrozenListed(log, e.candidate);
    }
    NoCandidateNoVerdict(run, log, attempt);
  }

  lemma ResumeCompletedOk(run: Run, log: Log, k: Key, x: Context)
    requires HistoryOk(run, log) && PlanInForce(log) && k in Ids(LastPlan(log).tasks)
    requires Mine(log, TaskOf(log, k), x)
    ensures WorkerOk(run, log, k, ResumeCompleted(log, x))
  {
    var frozen := FrozenBy(log, x.attempt);
    if frozen == [] {
      NothingFrozen(run, log, x.attempt);
    } else {
      ResumedCandidate(run, log, TaskOf(log, k), x, frozen[|frozen| - 1]);
    }
  }

  lemma AttemptsAreCurrent(run: Run, log: Log, t: Task, up: seq<Candidate>)
    requires HistoryOk(run, log) && Upstream(AcceptedMap(log), t.dependencies) == Some(up)
    ensures forall x :: x in Attempts(log, t) ==>
              AttemptStarted(x) in log && x.task == t && x.upstream == up && GoalOf(log) == Some(x.goal)
  {
    AttemptsOnRecord(log, t);
    forall x | x in Attempts(log, t) ensures x.upstream == up && GoalOf(log) == Some(x.goal) {
      AttemptIsCurrent(run, log, x);
    }
  }

  /** Nothing is ever stale on starting: neither the inputs the scheduler passes nor a prior attempt. */
  lemma NothingStale(run: Run, log: Log, k: Key, up: seq<Candidate>)
    requires HistoryOk(run, log) && WorkerOk(run, log, k, Starting(up))
    ensures Begins(run, log, k, TaskOf(log, k), up) == Resume(run, log, k, TaskOf(log, k))
  {
    var t := TaskOf(log, k);
    var prior := Attempts(log, t);
    AttemptsAreCurrent(run, log, t, up);
    assert prior != [] ==> prior[|prior| - 1] in prior;
    EveryPlanIsWellFormed(run, log, LastPlan(log));
    UpstreamWithin(log, LastPlan(log), t);
  }

  lemma ReadyOk(run: Run, log: Log, k: Key)
    requires HistoryOk(run, log) && PlanInForce(log) && k in Ids(LastPlan(log).tasks)
    requires k !in AcceptedMap(log) && Upstream(AcceptedMap(log), TaskOf(log, k).dependencies).Some?
    requires var prior := Attempts(log, TaskOf(log, k));
             prior == [] || !prior[|prior| - 1].authority.externalWrites
    ensures WorkerOk(run, log, k, Ready)
  {
    EarlierAttemptsAreLocal(run, log, TaskOf(log, k));
  }

  /** Starting a thread leaves it in a valid position, whatever an earlier controller left behind. */
  lemma BeginOk(run: Run, log: Log, k: Key, up: seq<Candidate>)
    requires HistoryOk(run, log) && WorkerOk(run, log, k, Starting(up))
    ensures WorkerOk(run, log, k, Resume(run, log, k, TaskOf(log, k)))
  {
    var t := TaskOf(log, k);
    var prior := Attempts(log, t);
    if prior == [] {
      ReadyOk(run, log, k);
    } else {
      var x := prior[|prior| - 1];
      AttemptsOnRecord(log, t);
      assert x in prior;
      if Resumable(log, x) {
        ResumeCompletedOk(run, log, k, x);
      } else if !DirectTask(log, k) && !x.authority.externalWrites {
        ReadyOk(run, log, k);
      }
    }
  }
}
