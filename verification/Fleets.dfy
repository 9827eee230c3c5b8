/** Several Runs at once over one lease table: the controllers of the Runs, each with its threads, and
    the leases that keep external writers of different Tasks apart. */
module Fleets {
  import opened Models
  import opened Hosts
  import opened Leases
  import opened RunLog
  import opened EngineInvariant
  import opened EngineSteps
  import opened Engine
  import opened Granting
  import opened Runs

  /** External authority is held as a lease under exactly this grant. */
  predicate LeaseHeld(leases: map<Holder, Authority>, run: string, t: Task, a: Authority) {
    a.externalWrites ==> Holder(run, t) in leases && leases[Holder(run, t)] == a
  }

  /** Every live thread of the run holds the lease its Task's grant calls for. */
  ghost predicate Leased(leases: map<Holder, Authority>, run: string, log: Log, pool: map<Key, Worker>) {
    forall k :: k in pool && Live(pool[k]) ==> ThreadLeased(leases, run, log, k)
  }

  ghost predicate ThreadLeased(leases: map<Holder, Authority>, run: string, log: Log, k: Key) {
    && Plans(log) != [] && k in Ids(LastPlan(log).tasks)
    && LeaseHeld(leases, run, TaskOf(log, k), GrantFor(log, TaskOf(log, k)).authority)
  }

  /** Steps that begin no thread and apply no grant under a live one keep the leases right. */
  lemma LeasedAfter(leases: map<Holder, Authority>, name: string, run: Run, log: Log, pool: map<Key, Worker>,
                    log': Log, pool': map<Key, Worker>)
    requires Leased(leases, name, log, pool) && HistoryOk(run, log') && Follows(log, pool, log', pool')
    ensures Leased(leases, name, log', pool')
  {
    forall k | k in pool' && Live(pool'[k]) ensures ThreadLeased(leases, name, log', k) {
      assert ThreadLeased(leases, name, log, k);
      LocalEventsKeep(run, log, log', TaskOf(log, k));
    }
  }

  lemma LeasedUnder(leases: map<Holder, Authority>, leases': map<Holder, Authority>, name: string, log: Log,
                    pool: map<Key, Worker>)
    requires Leased(leases, name, log, pool)
    requires forall x: Holder :: x.run == name ==>
               (x in leases <==> x in leases') && (x in leases' ==> leases'[x] == leases[x])
    ensures Leased(leases', name, log, pool)
  {
    forall k | k in pool && Live(pool[k]) ensures ThreadLeased(leases', name, log, k) {
      assert ThreadLeased(leases, name, log, k);
    }
  }

  /** The lease a thread is about to begin with: its own threads and its own claim. */
  lemma LeasedOnBeginning(leases: map<Holder, Authority>, leases': map<Holder, Authority>, name: string, log: Log,
                          pool: map<Key, Worker>, k: Key, w: Worker)
    requires Leased(leases, name, log, pool) && k in pool && !Live(pool[k])
    requires Plans(log) != [] && k in Ids(LastPlan(log).tasks)
    requires leases' == leases
             || leases' == leases[Holder(name, TaskOf(log, k)) := GrantFor(log, TaskOf(log, k)).authority]
    requires Live(w) ==> LeaseHeld(leases', name, TaskOf(log, k), GrantFor(log, TaskOf(log, k)).authority)
    ensures Leased(leases', name, log, pool[k := w])
  {
    var after := pool[k := w];
    forall j | j in after && Live(after[j]) ensures ThreadLeased(leases', name, log, j) {
      if j != k {
        assert ThreadLeased(leases, name, log, j);
        assert TaskOf(log, j).id == j && TaskOf(log, k).id == k;
      }
    }
  }

  lemma LeasedSince(leases: map<Holder, Authority>, name: string, run: Run, log: Log, pool: map<Key, Worker>,
                    log': Log, main': Main, pool': map<Key, Worker>)
    requires Leased(leases, name, log, pool) && Inv(run, log', main', pool') && Follows(log, pool, log', pool')
    ensures Leased(leases, name, log', pool')
  {
    LeasedAfter(leases, name, run, log, pool, log', pool');
  }

  lemma LeasedWithout(leases: map<Holder, Authority>, name: string, log: Log, pool: map<Key, Worker>, t: Task)
    requires Leased(leases, name, log, pool) && forall k :: k in pool && Live(pool[k]) ==> k != t.id
    ensures Leased(leases - {Holder(name, t)}, name, log, pool)
  {
    forall k | k in pool && Live(pool[k]) ensures ThreadLeased(leases - {Holder(name, t)}, name, log, k) {
      assert ThreadLeased(leases, name, log, k) && TaskOf(log, k).id == k;
    }
  }

  lemma IdleHasNoThreads(run: Run, log: Log, main: Main, pool: map<Key, Worker>)
    requires Inv(run, log, main, pool) && main.Idle?
    ensures pool == map[]
  {
  }

  lemma NoThreads(leases: map<Holder, Authority>, name: string, log: Log)
    ensures Leased(leases, name, log, map[])
  {
  }

  class Fleet {
    const table: LeaseTable
    var controllers: map<string, Controller>

    constructor ()
      ensures Valid() && fresh(table) && controllers == map[]
    {
      table := new LeaseTable();
      controllers := map[];
    }

    ghost predicate Valid()
      reads this, table, controllers.Values
    {
      && table.Valid()
      && (forall a, b :: a in controllers && b in controllers && a != b ==> controllers[a] != controllers[b])
      && (forall name :: name in controllers ==> RunOk(name))
    }

    ghost predicate RunOk(name: string)
      requires name in controllers
      reads this, table, controllers.Values
    {
      var c := controllers[name];
      c.Valid() && c.run.config.concurrency > 0 && Leased(table.leases, name, c.log, c.pool)
    }

    /** The thread has a call that may be running with authority to write externally. */
    ghost predicate Writes(name: string, k: Key, x: Context)
      reads this, table, controllers.Values
    {
      && name in controllers && k in controllers[name].pool
      && (controllers[name].pool[k] == Invoking(x) || controllers[name].pool[k] == Calling(x))
      && x.authority.externalWrites
    }

    lemma WriterHoldsLease(name: string, k: Key, x: Context)
      requires Valid() && Writes(name, k, x)
      ensures x.task.id == k && Holder(name, x.task) in table.leases
      ensures table.leases[Holder(name, x.task)] == x.authority
    {
      var c := controllers[name];
      assert RunOk(name);
      assert WorkerOk(c.run, c.log, k, c.pool[k]);
      assert ThreadLeased(table.leases, name, c.log, k);
    }

    /** Two external calls at once, of one Run or of several, name their hosts and share none. */
    lemma WritersAreCompatible(name: string, k: Key, x: Context, other: string, j: Key, y: Context)
      requires Valid() && Writes(name, k, x) && Writes(other, j, y) && (name != other || k != j)
      ensures Compatible(x.authority, y.authority)
    {
      WriterHoldsLease(name, k, x);
      WriterHoldsLease(other, j, y);
      assert Holder(name, x.task) != Holder(other, y.task);
    }

    /** In particular no host is ever granted to two of them. */
    lemma OneWriterPerHost(name: string, k: Key, x: Context, other: string, j: Key, y: Context, h: string)
      requires Valid() && Writes(name, k, x) && Writes(other, j, y)
      requires IsHost(h) && Grants(x.authority, h) && Grants(y.authority, h)
      ensures name == other && k == j && x == y
    {
      if name != other || k != j {
        WritersAreCompatible(name, k, x, other, j, y);
        assert ShareHost(x.authority, y.authority);
      }
    }

    // ---- steps ----

    /** A new Run, with a controller of its own. */
    method Start(name: string, run: Run)
      requires Valid() && name !in controllers && run.config.concurrency > 0
      modifies this`controllers
      ensures Valid() && name in controllers && fresh(controllers[name])
      ensures controllers == old(controllers)[name := controllers[name]]
    {
      var c := new Controller(run);
      controllers := controllers[name := c];
    }

    /** Runs other than the one that moved keep their leases. */
    twostate lemma OthersKept(name: string)
      requires old(Valid()) && table.Valid() && controllers == old(controllers) && name in controllers
      requires forall other :: other in controllers && other != name ==> unchanged(controllers[other])
      requires forall x: Holder :: x.run != name ==>
                 (x in table.leases <==> x in old(table.leases))
                 && (x in table.leases ==> table.leases[x] == old(table.leases)[x])
      ensures forall other :: other in controllers && other != name ==> RunOk(other)
    {
      forall other | other in controllers && other != name ensures RunOk(other) {
        var c := controllers[other];
        assert old(RunOk(other));
        LeasedUnder(old(table.leases), table.leases, other, c.log, c.pool);
      }
    }

    /** A thread begins only with the lease its grant calls for; without it the thread waits. */
    method Begin(name: string, k: Key) returns (granted: bool)
      requires Valid() && name in controllers
      requires Running(controllers[name].main, controllers[name].pool, k) && controllers[name].pool[k].Starting?
      requires Plans(controllers[name].log) != [] && k in Ids(LastPlan(controllers[name].log).tasks)
      requires ValidAuthority(GrantFor(controllers[name].log, TaskOf(controllers[name].log, k)).authority)
      modifies table, controllers[name]
      ensures Valid() && controllers == old(controllers)
      ensures var c, log := controllers[name], old(controllers[name].log);
              && c.log == log
              && c.pool == old(c.pool)[k := if granted then Resume(c.run, log, k, TaskOf(log, k)) else Aborted]
    {
      hide Leased, Inv;
      var c := controllers[name];
      ghost var leases, log, pool := table.leases, c.log, c.pool;
      assert RunOk(name);
      var t := TaskOf(c.log, k);
      granted := table.Acquire(name, t, GrantFor(c.log, t).authority);
      if granted { c.Begin(k); } else { c.Abort(k); }
      LeasedOnBeginning(leases, table.leases, name, log, pool, k, c.pool[k]);
      OthersKept(name);
    }

    /** Any other step of a Run's controller, its threads, an operator or a stop. */
    method Step(name: string, choice: Choice)
      requires Valid() && name in controllers && (choice.Thread? ==> !choice.move.Begins?)
      modifies controllers[name]
      ensures Valid() && controllers == old(controllers)
    {
      hide Leased, Inv, Follows;
      var c := controllers[name];
      ghost var log, pool := c.log, c.pool;
      assert RunOk(name);
      Move(c, choice);
      LeasedSince(table.leases, name, c.run, log, pool, c.log, c.main, c.pool);
      OthersKept(name);
    }

    /** The lease of a Task no thread works on any more is given back: after its acceptance, or when its
        direct plan was given up. */
    method Release(name: string, t: Task)
      requires Valid() && name in controllers
      requires forall k :: k in controllers[name].pool && Live(controllers[name].pool[k]) ==> k != t.id
      modifies table
      ensures Valid() && table.leases == old(table.leases) - {Holder(name, t)}
    {
      hide Leased, Inv;
      var c := controllers[name];
      ghost var leases := table.leases;
      assert RunOk(name);
      table.Release(name, t);
      LeasedWithout(leases, name, c.log, c.pool, t);
      OthersKept(name);
    }

    /** An approved grant is leased before it is applied, while no controller of the Run is at work. */
    method Approve(name: string, attempt: Key, t: Task, grant: Grant) returns (granted: bool)
      requires Valid() && name in controllers && controllers[name].main.Idle? && ValidAuthority(grant.authority)
      modifies table, controllers[name]
      ensures Valid() && controllers == old(controllers)
    {
      hide Leased, Inv, Follows;
      var c := controllers[name];
      ghost var leases, log, pool := table.leases, c.log, c.pool;
      assert RunOk(name);
      IdleHasNoThreads(c.run, log, c.main, pool);
      granted := false;
      if !Fenced(c.log) && JustifiedGrant(c.run, c.log, attempt, t, grant) {
        granted := table.Acquire(name, t, grant.authority);
        if granted {
          c.DecideAuthority(attempt, t, grant, true);
        }
      }
      NoThreads(table.leases, name, c.log);
      OthersKept(name);
    }
  }

  /** What may happen next to a fleet. */
  datatype FleetMove =
    | Opens(name: string, run: Run)
    | BeginsThread(name: string, k: Key)
    | Steps(name: string, choice: Choice)
    | Releases(name: string, t: Task)
    | Approves(name: string, attempt: Key, t: Task, grant: Grant)

  /** Every schedule of every Run keeps external writers apart. */
  method RunFleet(moves: seq<FleetMove>) returns (f: Fleet)
    ensures fresh(f) && f.Valid()
    ensures forall name, k, x, other, j, y ::
              f.Writes(name, k, x) && f.Writes(other, j, y) && (name != other || k != j) ==>
                Compatible(x.authority, y.authority)
  {
    f := new Fleet();
    for i := 0 to |moves|
      invariant fresh(f) && f.Valid() && fresh(f.table)
      invariant forall name :: name in f.controllers ==> fresh(f.controllers[name])
    {
      OneMove(f, moves[i]);
    }
    forall name, k, x, other, j, y | f.Writes(name, k, x) && f.Writes(other, j, y) && (name != other || k != j)
      ensures Compatible(x.authority, y.authority)
    {
      f.WritersAreCompatible(name, k, x, other, j, y);
    }
  }

  method OneMove(f: Fleet, move: FleetMove)
    requires f.Valid()
    modifies f, f.table, f.controllers.Values
    ensures f.Valid()
    ensures forall name :: name in f.controllers ==>
              || (name in old(f.controllers) && f.controllers[name] == old(f.controllers[name]))
              || fresh(f.controllers[name])
  {
    match move
    case Opens(name, run) => if name !in f.controllers && run.config.concurrency > 0 { f.Start(name, run); }
    case BeginsThread(name, k) =>
      if name in f.controllers {
        var c := f.controllers[name];
        if (c.main.Joining? || c.main.Draining?) && k in c.pool && c.pool[k].Starting?
           && Plans(c.log) != [] && k in Ids(LastPlan(c.log).tasks)
           && ValidAuthority(GrantFor(c.log, TaskOf(c.log, k)).authority)
        {
          var _ := f.Begin(name, k);
        }
      }
    case Steps(name, choice) =>
      if name in f.controllers && (choice.Thread? ==> !choice.move.Begins?) { f.Step(name, choice); }
    case Releases(name, t) =>
      if name in f.controllers {
        var c := f.controllers[name];
        if forall k | k in c.pool :: Live(c.pool[k]) ==> k != t.id { f.Release(name, t); }
      }
    case Approves(name, attempt, t, grant) =>
      if name in f.controllers && f.controllers[name].main.Idle? && ValidAuthority(grant.authority) {
        var _ := f.Approve(name, attempt, t, grant);
      }
  }
}
