/** Wall-time allowance of a run, excluding the union of its approval waits. */
module WallClock {
  import opened Models

  /** The events that matter here: an approval wait of an attempt, and its decision. */
  datatype Timed = Wait(attempt: string, at: real) | Decided(attempt: string, at: real) | Other(at: real)

  // ---- waits as intervals ----

  /** Attempt `a` began a wait at or before event `i` and no decision about it followed by then. */
  ghost predicate Waiting(events: seq<Timed>, i: int, a: string) {
    exists w :: 0 <= w <= i < |events| && WaitsSince(events, w, i, a)
  }

  ghost predicate WaitsSince(events: seq<Timed>, w: int, i: int, a: string)
    requires 0 <= w <= i < |events|
  {
    events[w].Wait? && events[w].attempt == a
    && forall d :: w < d <= i ==> !(events[d].Decided? && events[d].attempt == a)
  }

  /** The time right after event `i` lies in some wait. */
  ghost predicate Blocked(events: seq<Timed>, i: int) {
    exists a :: Waiting(events, i, a)
  }

  function Gap(events: seq<Timed>, i: nat, now: real): real
    requires i < |events|
  {
    (if i + 1 < |events| then events[i + 1].at else now) - events[i].at
  }

  /** Total length of the first `n` gaps that lie inside some wait: the measure of the union. */
  ghost function Waited(events: seq<Timed>, n: nat, now: real): real
    requires n <= |events|
  {
    if n == 0 then 0.0
    else Waited(events, n - 1, now) + if Blocked(events, n - 1) then Gap(events, n - 1, now) else 0.0
  }

  /** Time that counts against the allowance: everything, or everything outside the waits. */
  ghost function Consumed(events: seq<Timed>, countsWaits: bool, now: real): real
    requires events != []
  {
    now - events[0].at - if countsWaits then 0.0 else Waited(events, |events|, now)
  }

  ghost function Allowance(events: seq<Timed>, limit: real, countsWaits: bool, now: real): real
    requires events != []
  {
    if limit - Consumed(events, countsWaits, now) > 0.0 then limit - Consumed(events, countsWaits, now) else 0.0
  }

  // ---- the single pass ----

  /** Attempts pending after the first `n` events, as the pass tracks them. */
  function Pending(events: seq<Timed>, n: nat): set<string>
    requires n <= |events|
  {
    if n == 0 then {}
    else match events[n - 1]
      case Wait(a, _) => Pending(events, n - 1) + {a}
      case Decided(a, _) => Pending(events, n - 1) - {a}
      case Other(_) => Pending(events, n - 1)
  }

  lemma {:induction false} PendingMeaning(events: seq<Timed>, n: nat, a: string)
    requires n <= |events|
    ensures a in Pending(events, n) <==> n > 0 && Waiting(events, n - 1, a)
  {
    if n > 0 {
      PendingMeaning(events, n - 1, a);
      var e := events[n - 1];
      if e.Wait? && e.attempt == a {
        assert WaitsSince(events, n - 1, n - 1, a);
      } else if n > 1 && Waiting(events, n - 2, a) && !(e.Decided? && e.attempt == a) {
        var w :| 0 <= w <= n - 2 && WaitsSince(events, w, n - 2, a);
        assert WaitsSince(events, w, n - 1, a);
      }
      if Waiting(events, n - 1, a) && !(e.Wait? && e.attempt == a) {
        var w :| 0 <= w <= n - 1 && WaitsSince(events, w, n - 1, a);
        assert w < n - 1 && WaitsSince(events, w, n - 2, a);
      }
    }
  }

  lemma BlockedMeaning(events: seq<Timed>, n: nat)
    requires 0 < n <= |events|
    ensures Blocked(events, n - 1) <==> Pending(events, n) != {}
  {
    if Blocked(events, n - 1) {
      var a :| Waiting(events, n - 1, a);
      PendingMeaning(events, n, a);
    }
    if Pending(events, n) != {} {
      var a :| a in Pending(events, n);
      PendingMeaning(events, n, a);
    }
  }

  /** `remaining_wall`: `None` without a wall limit, otherwise the allowance left at `now`. */
  method RemainingWall(events: seq<Timed>, limit: Option<real>, countsWaits: bool, now: real)
    returns (left: Option<real>)
    requires events != []
    ensures left == if limit.None? then None else Some(Allowance(events, limit.value, countsWaits, now))
  {
    if limit.None? { return None; }
    var waiting := 0.0;
    var began: Option<real> := None;
    var pending: set<string> := {};
    for i := 0 to |events|
      invariant pending == Pending(events, i)
      invariant began.Some? <==> pending != {}
      invariant i > 0 ==> Waited(events, i - 1, now) ==
                            waiting + if began.Some? then events[i - 1].at - began.value else 0.0
      invariant i == 0 ==> waiting == 0.0
    {
      if i > 0 { BlockedMeaning(events, i); }
      match events[i] {
        case Wait(a, at) =>
          if pending == {} { began := Some(at); }
          pending := pending + {a};
        case Decided(a, at) =>
          pending := pending - {a};
          if pending == {} && began.Some? {
            waiting := waiting + (at - began.value);
            began := None;
          }
        case Other(_) =>
      }
    }
    BlockedMeaning(events, |events|);
    if began.Some? { waiting := waiting + (now - began.value); }
    var elapsed := now - events[0].at;
    if !countsWaits { elapsed := elapsed - waiting; }
    left := Some(if limit.value - elapsed > 0.0 then limit.value - elapsed else 0.0);
  }

  // ---- what the allowance promises ----

  predicate Ordered(events: seq<Timed>, now: real) {
    && (forall i, j :: 0 <= i < |events| && i < j < |events| ==> events[i].at <= events[j].at)
    && (events != [] ==> events[|events| - 1].at <= now)
  }

  lemma {:induction false} WaitedBounds(events: seq<Timed>, n: nat, now: real)
    requires Ordered(events, now) && 0 < n <= |events|
    ensures 0.0 <= Waited(events, n, now) <= (if n < |events| then events[n].at else now) - events[0].at
  {
    if n > 1 {
      WaitedBounds(events, n - 1, now);
    }
  }

  lemma AllowanceInRange(events: seq<Timed>, limit: real, countsWaits: bool, now: real)
    requires events != [] && Ordered(events, now) && limit > 0.0
    ensures 0.0 <= Allowance(events, limit, countsWaits, now) <= limit
  {
    WaitedBounds(events, |events|, now);
  }

  lemma {:induction false} WaitedBefore(events: seq<Timed>, n: nat, now: real, later: real)
    requires n < |events|
    ensures Waited(events, n, now) == Waited(events, n, later)
  {
    if n > 0 {
      WaitedBefore(events, n - 1, now, later);
    }
  }

  /** As time passes without new events, the allowance stands still exactly while some attempt
      waits; otherwise it shrinks by the time that passed, down to zero. */
  lemma AllowanceOverTime(events: seq<Timed>, limit: real, now: real, later: real)
    requires events != [] && now <= later
    ensures Pending(events, |events|) != {} ==>
              Allowance(events, limit, false, later) == Allowance(events, limit, false, now)
    ensures Pending(events, |events|) == {} ==>
              Consumed(events, false, later) == Consumed(events, false, now) + (later - now)
    ensures Pending(events, |events|) == {} && now < later && Allowance(events, limit, false, now) > 0.0 ==>
              Allowance(events, limit, false, later) < Allowance(events, limit, false, now)
    ensures Consumed(events, true, later) == Consumed(events, true, now) + (later - now)
    ensures forall counts :: Allowance(events, limit, counts, later) <= Allowance(events, limit, counts, now)
  {
    BlockedMeaning(events, |events|);
    WaitedBefore(events, |events| - 1, now, later);
  }

  lemma {:induction false} BlockedPrefix(events: seq<Timed>, e: Timed, n: nat)
    requires n <= |events|
    ensures Pending(events + [e], n) == Pending(events, n)
  {
    if n > 0 {
      BlockedPrefix(events, e, n - 1);
    }
  }

  lemma {:induction false} WaitedPrefix(events: seq<Timed>, e: Timed, n: nat, now: real)
    requires n <= |events|
    ensures Waited(events + [e], n, now) == Waited(events, n, e.at)
  {
    if n > 0 {
      WaitedPrefix(events, e, n - 1, now);
      BlockedPrefix(events, e, n);
      BlockedMeaning(events, n);
      BlockedMeaning(events + [e], n);
    }
  }

  /** Recording an event at its own time changes nothing yet. */
  lemma AllowanceAtEvent(events: seq<Timed>, e: Timed, limit: real, countsWaits: bool)
    requires events != []
    ensures Allowance(events + [e], limit, countsWaits, e.at) == Allowance(events, limit, countsWaits, e.at)
  {
    WaitedPrefix(events, e, |events|, e.at);
  }

  lemma OrderedFront(events: seq<Timed>, front: seq<Timed>, e: Timed, later: real)
    requires Ordered(events + (front + [e]), later)
    ensures Ordered(events + front, e.at) && e.at <= later
  {
    var all, part := events + (front + [e]), events + front;
    assert all[|part|] == e && forall i :: 0 <= i < |part| ==> all[i] == part[i];
  }

  /** However the run continues, with whatever events and waits, the allowance never grows. */
  lemma {:induction false} AllowanceNeverGrows(events: seq<Timed>, more: seq<Timed>, limit: real, countsWaits: bool,
                                               now: real, later: real)
    requires events != [] && Ordered(events + more, later) && now <= later
    requires more != [] ==> now <= more[0].at
    ensures Allowance(events + more, limit, countsWaits, later) <= Allowance(events, limit, countsWaits, now)
    decreases |more|
  {
    if more == [] {
      assert events + more == events;
      AllowanceOverTime(events, limit, now, later);
    } else {
      var front, e := more[..|more| - 1], more[|more| - 1];
      assert more == front + [e];
      OrderedFront(events, front, e, later);
      assert more[0].at <= e.at by {
        assert (events + more)[|events|] == more[0] && (events + more)[|events + more| - 1] == e;
      }
      AllowanceNeverGrows(events, front, limit, countsWaits, now, e.at);
      AllowanceAtEvent(events + front, e, limit, countsWaits);
      assert events + front + [e] == events + more;
      AllowanceOverTime(events + more, limit, e.at, later);
    }
  }
}
