/** The write-ahead ledger of execution resources, and the container daemon behind it. A creation that
    was sent to the daemon may take effect at any later moment, also after the controller died. */
module Ledger {
  import opened Models

  datatype Part = Worker | Proxy | Network

  /** A resource, named after its environment, and the ledger file that environment writes. */
  datatype Resource = Resource(file: Key, environment: Key, part: Part)

  datatype State = Intent | Created | Removed

  datatype Line = Line(resource: Resource, state: State)

  datatype Disposal = NotCreated | Pending | Unconfirmed | Confirmed

  datatype Outcome = Done | Failed | TimedOut

  function Latest(ledger: seq<Line>, r: Resource): Option<State> {
    if ledger == [] then None
    else
      var last := ledger[|ledger| - 1];
      if last.resource == r then Some(last.state) else Latest(ledger[..|ledger| - 1], r)
  }

  lemma LatestOfAppended(ledger: seq<Line>, line: Line)
    ensures forall r :: Latest(ledger + [line], r) == if r == line.resource then Some(line.state) else Latest(ledger, r)
  {
    assert (ledger + [line])[..|ledger|] == ledger;
  }

  /** The durable ledgers of one Run and what the daemon holds for it. */
  class Host {
    var ledgers: map<Key, seq<Line>>
    var existing: set<Resource>
    var inflight: set<Resource>
    var removals: nat

    constructor ()
      ensures Valid() && existing == {} && inflight == {} && ledgers == map[]
    {
      ledgers, existing, inflight, removals := map[], {}, {}, 0;
    }

    function StateOf(r: Resource): Option<State>
      reads this`ledgers
    {
      if r.file in ledgers then Latest(ledgers[r.file], r) else None
    }

    /** Whatever exists, or may still appear, is on record as intended or created. */
    ghost predicate Valid()
      reads this
    {
      && (forall r :: r in inflight ==> StateOf(r) == Some(Intent))
      && (forall r :: r in existing ==> StateOf(r) == Some(Intent) || StateOf(r) == Some(Created))
    }

    /** `append_resource_event`. */
    method Append(r: Resource, state: State)
      modifies this`ledgers
      ensures StateOf(r) == Some(state)
      ensures forall q :: q != r ==> StateOf(q) == old(StateOf(q))
      ensures var before := if r.file in old(ledgers) then old(ledgers)[r.file] else [];
              ledgers == old(ledgers)[r.file := before + [Line(r, state)]]
    {
      var before := if r.file in ledgers then ledgers[r.file] else [];
      LatestOfAppended(before, Line(r, state));
      ledgers := ledgers[r.file := before + [Line(r, state)]];
    }

    /** Time passes: creations in flight land or are lost, and resources may be removed by others. */
    method Elapse()
      requires Valid()
      modifies this`existing, this`inflight
      ensures Valid()
      ensures inflight <= old(inflight) && existing <= old(existing) + old(inflight)
      ensures forall r :: r in old(existing) && r !in old(inflight) ==> r !in inflight
    {
      var landing, lost, removed: set<Resource> := *, *, *;
      var landed := landing * inflight;
      existing, inflight := existing + landed - removed, inflight - landed - lost;
    }

    /** `docker rm`: succeeds, also when the resource is missing, or fails, or does not answer. A creation
        still in flight is not affected. */
    method Remove(r: Resource) returns (outcome: Outcome)
      requires Valid()
      modifies this`existing, this`removals
      ensures Valid() && removals == old(removals) + 1
      ensures existing <= old(existing) && old(existing) - {r} <= existing
      ensures outcome == Done ==> r !in existing
    {
      removals := removals + 1;
      var gone: bool := *;
      if gone || r !in existing {
        existing := existing - {r};
        var answered: bool := *;
        return if answered then Done else TimedOut;
      }
      var answered: bool := *;
      return if answered then Failed else TimedOut;
    }

    // ---- reconcile ----

    /** The states that the lines of a ledger leave. */
    method ReadLedger(file: Key) returns (latest: map<Resource, State>)
      requires file in ledgers
      ensures forall r :: r in latest <==> Latest(ledgers[file], r).Some?
      ensures forall r :: r in latest ==> Latest(ledgers[file], r) == Some(latest[r])
    {
      var lines := ledgers[file];
      latest := map[];
      for i := 0 to |lines|
        invariant forall r :: r in latest <==> Latest(lines[..i], r).Some?
        invariant forall r :: r in latest ==> Latest(lines[..i], r) == Some(latest[r])
      {
        assert lines[..i + 1] == lines[..i] + [lines[i]];
        LatestOfAppended(lines[..i], lines[i]);
        latest := latest[lines[i].resource := lines[i].state];
      }
      assert lines[..|lines|] == lines;
    }

    /** Every resource on record is recorded as removed. */
    ghost predicate AllRemoved()
      reads this`ledgers
    {
      forall r :: StateOf(r).Some? ==> StateOf(r) == Some(Removed)
    }

    /** Then nothing exists and nothing can appear. */
    lemma AllRemovedMeansGone()
      requires Valid() && AllRemoved()
      ensures existing == {} && inflight == {}
    {
      assert forall r :: r in existing ==> StateOf(r).Some?;
      assert forall r :: r in inflight ==> StateOf(r).Some?;
    }

    /** One resource of a ledger: removed, and recorded as such when its creation had been confirmed. */
    method ReconcileOne(r: Resource, state: State) returns (ok: bool)
      requires Valid() && StateOf(r) == Some(state)
      modifies this
      ensures Valid()
      ensures forall q :: q != r ==> StateOf(q) == old(StateOf(q))
      ensures StateOf(r) == if ok && state == Created then Some(Removed) else Some(state)
      ensures ledgers.Keys == old(ledgers).Keys
      ensures state == Removed ==> ok && removals == old(removals) && ledgers == old(ledgers)
    {
      if state == Removed { return true; }
      Elapse();
      var outcome := Remove(r);
      if outcome != Done { return false; }
      if state == Created {
        Append(r, Removed);
      }
      return true;
    }

    /** What reconciling may change: states only go from created to removed. */
    twostate predicate Shrinks()
      reads this
    {
      && ledgers.Keys == old(ledgers).Keys
      && (forall r ::
            StateOf(r) == old(StateOf(r)) || (old(StateOf(r)) == Some(Created) && StateOf(r) == Some(Removed)))
      && (old(AllRemoved()) ==> removals == old(removals) && ledgers == old(ledgers))
    }

    /** The resources of one kind, in any order. */
    method ReconcileSome(latest: map<Resource, State>, chosen: set<Resource>) returns (ok: bool)
      requires Valid() && chosen <= latest.Keys
      requires forall r :: r in chosen ==> StateOf(r) == Some(latest[r])
      modifies this
      ensures Valid() && Shrinks()
      ensures forall r :: r !in chosen ==> StateOf(r) == old(StateOf(r))
      ensures ok ==> forall r :: r in chosen ==> StateOf(r) == Some(if latest[r] == Created then Removed else latest[r])
      ensures old(AllRemoved()) ==> ok
    {
      var remaining := chosen;
      while remaining != {}
        invariant Valid() && remaining <= chosen && ledgers.Keys == old(ledgers).Keys
        invariant forall r :: StateOf(r) == if r in chosen && r !in remaining && latest[r] == Created then Some(Removed)
                                            else old(StateOf(r))
        invariant old(AllRemoved()) ==> removals == old(removals) && ledgers == old(ledgers)
        decreases |remaining|
      {
        var r :| r in remaining;
        ok := ReconcileOne(r, latest[r]);
        if !ok { return false; }
        remaining := remaining - {r};
      }
      return true;
    }

    /** The containers of a ledger, then its networks. */
    method ReconcileAll(latest: map<Resource, State>, recorded: set<Resource>) returns (ok: bool)
      requires Valid() && recorded <= latest.Keys
      requires forall r :: r in recorded ==> StateOf(r) == Some(latest[r])
      modifies this
      ensures Valid() && Shrinks()
      ensures forall r :: r !in recorded ==> StateOf(r) == old(StateOf(r))
      ensures ok ==> forall r :: r in recorded ==>
                StateOf(r) == Some(if latest[r] == Created then Removed else latest[r])
      ensures old(AllRemoved()) ==> ok
    {
      var containers := set r | r in recorded && !r.part.Network?;
      ok := ReconcileSome(latest, containers);
      if !ok { return; }
      ok := ReconcileSome(latest, recorded - containers);
    }

    method ReconcileFile(file: Key) returns (ok: bool, uncertain: bool)
      requires Valid() && file in ledgers
      modifies this
      ensures Valid() && Shrinks()
      ensures forall r: Resource :: r.file != file ==> StateOf(r) == old(StateOf(r))
      ensures ok && !uncertain ==>
                forall r: Resource :: r.file == file && StateOf(r).Some? ==> StateOf(r) == Some(Removed)
      ensures old(AllRemoved()) ==> ok && !uncertain
    {
      var latest := ReadLedger(file);
      var recorded := set r | r in latest.Keys && r.file == file;
      assert forall r: Resource :: r.file == file && StateOf(r).Some? ==> r in recorded;
      uncertain := exists r :: r in recorded && latest[r] == Intent;
      assert forall r :: r in recorded ==> StateOf(r) == Some(latest[r]);
      ok := ReconcileAll(latest, recorded);
    }

    /** `reconcile`. If it returns normally, nothing the Run ever asked for exists or can appear; in
        particular repeating it removes nothing. */
    method Reconcile() returns (ok: bool)
      requires Valid()
      modifies this
      ensures Valid() && Shrinks()
      ensures ok ==> AllRemoved() && existing == {} && inflight == {}
      ensures old(AllRemoved()) ==> ok
    {
      var files, uncertain := ledgers.Keys, false;
      while files != {}
        invariant Valid() && Shrinks() && files <= ledgers.Keys
        invariant forall r: Resource :: r.file in files ==> StateOf(r) == old(StateOf(r))
        invariant !uncertain ==>
                    forall r: Resource :: r.file !in files && StateOf(r).Some? ==> StateOf(r) == Some(Removed)
        invariant old(AllRemoved()) ==> !uncertain
        decreases |files|
      {
        var file :| file in files;
        var here;
        ok, here := ReconcileFile(file);
        if !ok { return; }
        uncertain := uncertain || here;
        files := files - {file};
      }
      if uncertain { return false; }
      AllRemovedMeansGone();
      return true;
    }
  }

  /** One worker environment and what its controller process remembers of its resources. */
  class Candidate {
    const host: Host
    const file: Key
    const name: Key
    var present: set<Part>
    var confirmed: set<Part>
    var pending: set<Part>
    var disposal: Disposal

    function Of(part: Part): Resource {
      Resource(file, name, part)
    }

    ghost predicate PartOk(part: Part)
      reads this, host
    {
      var r, state := Of(part), host.StateOf(Of(part));
      && (r in host.inflight ==> part in pending)
      && (r in host.existing ==> part in present || part in pending)
      && (state == Some(Intent) <==> part in pending)
      && (state == Some(Created) ==> part in confirmed && part in present)
      && (part in confirmed ==> part !in pending && state.Some?)
      && (disposal.Confirmed? ==> part !in present && part !in pending)
    }

    ghost predicate Valid()
      reads this, host
    {
      host.Valid() && PartOk(Worker) && PartOk(Proxy) && PartOk(Network)
    }

    /** No other environment's record is touched. */
    twostate predicate OthersKept()
      reads this, host
    {
      forall r: Resource :: r.environment != name ==>
        && host.StateOf(r) == old(host.StateOf(r))
        && (r in host.existing <==> r in old(host.existing))
        && (r in host.inflight <==> r in old(host.inflight))
    }

    /** A fresh environment: its name is not on record. */
    constructor (host: Host, file: Key, name: Key)
      requires host.Valid() && forall part :: host.StateOf(Resource(file, name, part)).None?
      ensures Valid() && this.host == host && this.file == file && this.name == name
      ensures disposal == NotCreated
    {
      this.host, this.file, this.name := host, file, name;
      present, confirmed, pending, disposal := {}, {}, {}, NotCreated;
      new;
      assert forall part :: host.StateOf(Of(part)).None?;
    }

    /** The intent is on record before the creation is sent. */
    method Intend(part: Part)
      requires Valid() && host.StateOf(Of(part)).None?
      modifies this, host`ledgers
      ensures Valid() && OthersKept()
      ensures host.StateOf(Of(part)) == Some(Intent) && part in present && part in pending && disposal.Pending?
    {
      present, pending, disposal := present + {part}, pending + {part}, Pending;
      host.Append(Of(part), Intent);
    }

    /** The creation is sent: from here on the daemon may carry it out at any time. */
    method Send(part: Part)
      requires Valid() && part in pending
      modifies host`inflight
      ensures Valid() && OthersKept()
      ensures Of(part) in host.inflight
    {
      host.inflight := host.inflight + {Of(part)};
    }

    /** The daemon reports success, which it does once the resource exists. */
    method Reply(part: Part)
      requires Valid() && part in pending && part in present
      requires Of(part) in host.existing && Of(part) !in host.inflight
      modifies this, host`ledgers
      ensures Valid() && OthersKept()
      ensures host.StateOf(Of(part)) == Some(Created) && part in confirmed && part !in pending
    {
      disposal, confirmed, pending := Pending, confirmed + {part}, pending - {part};
      host.Append(Of(part), Created);
    }

    /** Closing one resource; only a confirmed creation may be recorded as removed. */
    method CloseOne(part: Part) returns (outcome: Outcome)
      requires Valid() && !disposal.Confirmed? && part in present
      modifies this, host
      ensures Valid() && OthersKept() && disposal == old(disposal) && pending == old(pending)
      ensures present == if outcome.Done? then old(present) - {part} else old(present)
    {
      outcome := host.Remove(Of(part));
      if outcome != Done { return; }
      if part in confirmed {
        host.Append(Of(part), Removed);
      }
      present := present - {part};
    }

    /** `_close_resources`: disposal is confirmed only when every resource is gone and no creation may
        still land. */
    method Close() returns (ok: bool)
      requires Valid()
      modifies this, host
      ensures Valid() && OthersKept()
      ensures disposal.Confirmed? <==> ok && pending == {}
      ensures ok ==> present == {} && (disposal.Confirmed? || disposal.Unconfirmed?)
      ensures pending == old(pending)
    {
      disposal := Unconfirmed;
      var failed := false;
      for i := 0 to 3
        invariant Valid() && OthersKept() && disposal == Unconfirmed && pending == old(pending)
        invariant !failed ==> (i > 0 ==> Worker !in present) && (i > 1 ==> Proxy !in present)
                              && (i > 2 ==> Network !in present)
        invariant present <= old(present)
      {
        var part := if i == 0 then Worker else if i == 1 then Proxy else Network;
        if part in present {
          var outcome := CloseOne(part);
          if outcome == TimedOut { return false; }
          failed := failed || outcome == Failed;
        }
      }
      if failed { return false; }
      forall part ensures part !in present {
        match part case Worker => case Proxy => case Network =>
      }
      if pending == {} { disposal := Confirmed; }
      return true;
    }

    /** Confirmed disposal: nothing of this environment exists or can still appear. */
    lemma ConfirmedMeansGone()
      requires Valid() && disposal.Confirmed?
      ensures forall part :: Of(part) !in host.existing && Of(part) !in host.inflight
    {
      forall part ensures Of(part) !in host.existing && Of(part) !in host.inflight {
        assert PartOk(part) by {
          match part case Worker => case Proxy => case Network =>
        }
      }
    }

    /** Others at work, and time, leave this environment's memory right. */
    twostate lemma Undisturbed()
      requires old(Valid()) && host.Valid()
      requires present == old(present) && confirmed == old(confirmed) && pending == old(pending)
      requires disposal == old(disposal)
      requires forall part :: host.StateOf(Of(part)) == old(host.StateOf(Of(part)))
      requires forall part :: Of(part) in host.inflight ==> Of(part) in old(host.inflight)
      requires forall part :: Of(part) in host.existing ==>
                 Of(part) in old(host.existing) || Of(part) in old(host.inflight)
      ensures Valid()
    {
      assert old(PartOk(Worker)) && old(PartOk(Proxy)) && old(PartOk(Network));
    }
  }

  /** One thing that may happen to a Run's resources. */
  datatype Move =
    | Open(file: Key, name: Key)
    | Act(who: nat, step: Step)
    | Wait
    | Restart

  datatype Step = Intends(part: Part) | Sends(part: Part) | HearsBack(part: Part) | Closes

  ghost predicate AllValid(candidates: seq<Candidate>, host: Host)
    reads candidates, host
  {
    && (forall c :: c in candidates ==> c.host == host && c.Valid())
    && (forall i, j :: 0 <= i < j < |candidates| ==> candidates[i].name != candidates[j].name)
  }

  /** One step of one environment, if it is due. */
  method TakeStep(c: Candidate, step: Step)
    requires c.Valid()
    modifies c, c.host
    ensures c.Valid() && c.OthersKept()
  {
    match step
    case Intends(part) =>
      if c.host.StateOf(c.Of(part)).None? { c.Intend(part); }
    case Sends(part) =>
      if part in c.pending { c.Send(part); }
    case HearsBack(part) =>
      if part in c.pending && part in c.present && c.Of(part) in c.host.existing && c.Of(part) !in c.host.inflight {
        c.Reply(part);
      }
    case Closes =>
      var ok := c.Close();
  }

  /** Any interleaving of environments, the daemon, crashes and restarts, where a restart forgets every
      environment and reconciles: the record stays ahead of the daemon throughout, and every restart
      that reconciles normally starts from nothing. */
  method AnyRun(moves: seq<Move>) returns (host: Host, candidates: seq<Candidate>)
    ensures host.Valid() && AllValid(candidates, host)
    ensures forall c :: c in candidates && c.disposal.Confirmed? ==>
              forall part :: c.Of(part) !in host.existing && c.Of(part) !in host.inflight
  {
    host := new Host();
    candidates := [];
    for k := 0 to |moves|
      invariant fresh(host) && fresh(set c | c in candidates) && host.Valid() && AllValid(candidates, host)
    {
      match moves[k] {
        case Open(file, name) =>
          if NameIsNew(host, candidates, file, name) {
            var c := new Candidate(host, file, name);
            candidates := candidates + [c];
          }
        case Act(who, step) =>
          if who < |candidates| {
            ActOf(candidates, host, who, step);
          }
        case Wait =>
          ElapseFor(candidates, host);
        case Restart =>
          candidates := [];
          var ok := host.Reconcile();
      }
    }
    forall c | c in candidates && c.disposal.Confirmed?
      ensures forall part :: c.Of(part) !in host.existing && c.Of(part) !in host.inflight
    {
      c.ConfirmedMeansGone();
    }
  }

  predicate NameIsNew(host: Host, candidates: seq<Candidate>, file: Key, name: Key)
    reads host, candidates
  {
    && (forall part :: host.StateOf(Resource(file, name, part)).None?)
    && (forall c :: c in candidates ==> c.name != name)
  }

  method ElapseFor(candidates: seq<Candidate>, host: Host)
    requires host.Valid() && AllValid(candidates, host)
    modifies host
    ensures host.Valid() && AllValid(candidates, host)
  {
    host.Elapse();
    forall c | c in candidates ensures c.Valid() {
      c.Undisturbed();
    }
  }

  method ActOf(candidates: seq<Candidate>, host: Host, who: nat, step: Step)
    requires host.Valid() && AllValid(candidates, host) && who < |candidates|
    modifies candidates[who], host
    ensures host.Valid() && AllValid(candidates, host)
  {
    var c := candidates[who];
    TakeStep(c, step);
    forall d | d in candidates ensures d.Valid() {
      if d != c {
        d.Undisturbed();
      }
    }
  }
}
