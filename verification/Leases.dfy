/** Coarse write leases shared by all Runs: one holder per host, across restarts. */
module Leases {
  import opened Models
  import opened Hosts

  datatype Holder = Holder(run: string, task: Task)

  datatype LeaseEvent =
    | ResourceWait(run: string, task: Task)
    | ResourceAcquired(run: string, task: Task, authority: Authority)
    | ResourceReleased(run: string, task: Task)

  /** The `overlaps` test: an empty host list overlaps everything, otherwise pattern texts are
      matched both ways. */
  predicate Overlaps(a: Authority, b: Authority) {
    || a.hosts == []
    || b.hosts == []
    || exists p | p in a.hosts :: exists q | q in b.hosts :: Glob(p, q) || Glob(q, p)
  }

  ghost predicate ShareHost(a: Authority, b: Authority) {
    exists h :: IsHost(h) && Grants(a, h) && Grants(b, h)
  }

  /** On nonempty lists the textual test holds exactly when some concrete host is granted twice. */
  lemma OverlapMeaning(a: Authority, b: Authority)
    requires ValidAuthority(a) && ValidAuthority(b) && a.hosts != [] && b.hosts != []
    ensures Overlaps(a, b) <==> ShareHost(a, b)
  {
    if Overlaps(a, b) {
      var p :| p in a.hosts && exists q | q in b.hosts :: Glob(p, q) || Glob(q, p);
      var q :| q in b.hosts && (Glob(p, q) || Glob(q, p));
      PatternOverlap(p, q);
      var h :| IsHost(h) && Glob(h, p) && Glob(h, q);
      assert Grants(a, h) && Grants(b, h);
    }
    if ShareHost(a, b) {
      var h :| IsHost(h) && Grants(a, h) && Grants(b, h);
      var p :| p in a.hosts && Glob(h, p);
      var q :| q in b.hosts && Glob(h, q);
      PatternOverlap(p, q);
    }
  }

  /** The two grants can be held at once: both name their hosts and share none. */
  ghost predicate Compatible(a: Authority, b: Authority) {
    a.hosts != [] && b.hosts != [] && !ShareHost(a, b)
  }

  lemma OverlapsIsIncompatible(a: Authority, b: Authority)
    requires ValidAuthority(a) && ValidAuthority(b)
    ensures Overlaps(a, b) <==> !Compatible(a, b)
  {
    if a.hosts != [] && b.hosts != [] {
      OverlapMeaning(a, b);
    }
  }

  ghost predicate Exclusive(leases: map<Holder, Authority>) {
    forall x, y :: x in leases && y in leases && x != y ==> Compatible(leases[x], leases[y])
  }

  /** No concrete host is ever granted to two holders. */
  lemma OneHolderPerHost(leases: map<Holder, Authority>, x: Holder, y: Holder, h: string)
    requires Exclusive(leases) && x in leases && y in leases
    requires IsHost(h) && Grants(leases[x], h) && Grants(leases[y], h)
    ensures x == y
  {
    assert ShareHost(leases[x], leases[y]);
  }

  class LeaseTable {
    var leases: map<Holder, Authority>
    var events: seq<LeaseEvent>

    ghost predicate Valid()
      reads this
    {
      && (forall x :: x in leases ==> ValidAuthority(leases[x]) && leases[x].externalWrites)
      && Exclusive(leases)
    }

    constructor ()
      ensures Valid() && leases == map[] && events == []
    {
      leases, events := map[], [];
    }

    /** Grants the lease exactly when every other holder's grant is compatible with it. */
    method Acquire(run: string, task: Task, authority: Authority) returns (granted: bool)
      requires Valid() && ValidAuthority(authority)
      modifies this
      ensures Valid()
      ensures granted <==>
                authority.externalWrites ==>
                  forall x :: x in old(leases) && x != Holder(run, task) ==>
                    Compatible(old(leases)[x], authority)
      ensures leases ==
                if granted && authority.externalWrites then old(leases)[Holder(run, task) := authority]
                else old(leases)
      ensures events == old(events) +
                if !authority.externalWrites then []
                else if granted then [ResourceAcquired(run, task, authority)]
                else [ResourceWait(run, task)]
    {
      if !authority.externalWrites {
        return true;
      }
      forall x | x in leases
        ensures Overlaps(authority, leases[x]) <==> !Compatible(leases[x], authority)
      {
        OverlapsIsIncompatible(authority, leases[x]);
      }
      if exists x | x in leases :: x != Holder(run, task) && Overlaps(authority, leases[x]) {
        events := events + [ResourceWait(run, task)];
        return false;
      }
      leases := leases[Holder(run, task) := authority];
      events := events + [ResourceAcquired(run, task, authority)];
      return true;
    }

    method Release(run: string, task: Task)
      requires Valid()
      modifies this
      ensures Valid()
      ensures leases == old(leases) - {Holder(run, task)}
      ensures events == old(events) +
                if Holder(run, task) in old(leases) then [ResourceReleased(run, task)] else []
    {
      if Holder(run, task) in leases {
        leases := leases - {Holder(run, task)};
        events := events + [ResourceReleased(run, task)];
      }
    }
  }
}
