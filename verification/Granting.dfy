/** The authority a Task's next attempt runs with, and how the steps of a controller leave it alone. */
module Granting {
  import opened Models
  import opened RunLog
  import opened EngineInvariant

  /** A thread that has begun and not ended. */
  predicate Live(w: Worker) {
    !w.Starting? && !Terminal(w)
  }

  /** No plan was adopted, no grant applied, and nothing else decided for the whole Run. */
  ghost predicate OnlyLocal(log: Log, log': Log) {
    log <= log' && forall i :: |log| <= i < |log'| ==> !IsGlobal(log'[i])
  }

  /** The step begins no thread: whatever thread is live was live before, and only local events were
      appended while it is. */
  ghost predicate Follows(log: Log, pool: map<Key, Worker>, log': Log, pool': map<Key, Worker>) {
    forall k :: k in pool' && Live(pool'[k]) ==> k in pool && Live(pool[k]) && OnlyLocal(log, log')
  }

  lemma NothingMoved(log: Log, pool: map<Key, Worker>)
    ensures Follows(log, pool, log, pool)
  {
  }

  lemma OneAppended(log: Log, pool: map<Key, Worker>, log': Log, pool': map<Key, Worker>, k: Key)
    requires |log'| == |log| + 1 && log' == log + [log'[|log|]] && !IsGlobal(log'[|log|])
    requires k in pool && Live(pool[k]) && k in pool' && pool' == pool[k := pool'[k]]
    ensures Follows(log, pool, log', pool')
  {
  }

  lemma GrantAfter(run: Run, log: Log, e: Event, t: Task)
    requires Justified(run, log, e) && !e.AuthorityApplied?
    ensures GrantFor(log + [e], t).authority == GrantFor(log, t).authority
  {
    Appended(log, e);
    AttemptsStep(log, e, t);
  }

  /** Local events change neither the plan nor the authority granted to any Task. */
  lemma {:induction false} LocalEventsKeep(run: Run, log: Log, log': Log, t: Task)
    requires HistoryOk(run, log') && OnlyLocal(log, log')
    ensures Plans(log') == Plans(log) && GrantFor(log', t).authority == GrantFor(log, t).authority
    decreases |log'|
  {
    if |log'| == |log| {
      assert log' == log;
    } else {
      hide HistoryOk, Justified, GrantFor, Plans;
      LastJustified(run, log');
      LocalEventsKeep(run, log, Init(log'), t);
      LocalEventKeeps(Init(log'), Last(log'));
      GrantAfter(run, Init(log'), Last(log'), t);
    }
  }

  lemma AppliedBefore(log: Log, t: Task)
    requires log != [] && AppliedGrants(log, t) == []
    ensures AppliedGrants(Init(log), t) == []
    ensures Last(log).AuthorityApplied? ==> GrantFor(log, t).authority == GrantFor(Init(log), t).authority
  {
  }

  /** Until a grant is applied every attempt of a Task has the Task's own authority. */
  lemma {:induction false} OwnAuthority(run: Run, log: Log, t: Task)
    requires HistoryOk(run, log) && AppliedGrants(log, t) == []
    ensures GrantFor(log, t).authority == t.authority
  {
    if log != [] {
      hide HistoryOk, Justified, GrantFor, AppliedGrants;
      LastJustified(run, log);
      AppliedBefore(log, t);
      OwnAuthority(run, Init(log), t);
      if !Last(log).AuthorityApplied? {
        GrantAfter(run, Init(log), Last(log), t);
      }
    }
  }
}
