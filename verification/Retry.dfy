/** The bounded retry loop of one contract identity over its durable events. The controller may die
    at any point; the next one starts `Generate` again on the same events. */
module Retry {
  import opened Models

  datatype Action = Output | Transport

  datatype CallEvent =
    | Reserved(action: Action, at: real)
    | TransportFailed(capacity: bool, at: real)
    | OutputRejected(at: real)
    | RetryWait(notBefore: real, at: real)

  function Used(log: seq<CallEvent>, action: Action): nat {
    if log == [] then 0
    else
      var last := log[|log| - 1];
      Used(log[..|log| - 1], action) + if last.Reserved? && last.action == action then 1 else 0
  }

  function Reservations(log: seq<CallEvent>): nat {
    Used(log, Output) + Used(log, Transport)
  }

  /** The latest failure on record, if any: a transport failure or a rejected output. */
  function LastFailure(log: seq<CallEvent>): Option<CallEvent> {
    if log == [] then None
    else
      var last := log[|log| - 1];
      if last.TransportFailed? || last.OutputRejected? then Some(last) else LastFailure(log[..|log| - 1])
  }

  function Power2(n: nat): nat {
    if n == 0 then 1 else 2 * Power2(n - 1)
  }

  /** Seconds a retry after a capacity failure waits, counted from the failure. */
  function Delay(used: nat): nat {
    if 5 * Power2(used) < 60 then 5 * Power2(used) else 60
  }

  lemma {:induction false} PowerGrows(n: nat)
    ensures Power2(n) >= 1 && (n >= 4 ==> Power2(n) >= 16)
  {
    if n > 4 {
      PowerGrows(n - 1);
    } else if n > 0 {
      PowerGrows(n - 1);
      assert n == 4 ==> Power2(4) == 2 * Power2(3) && Power2(3) == 2 * Power2(2) && Power2(2) == 2 * Power2(1);
    }
  }

  /** The delay doubles from five seconds and stays at sixty from the fourth retry on. */
  lemma DelayValues(used: nat)
    ensures Delay(0) == 5 && Delay(1) == 10 && Delay(2) == 20 && Delay(3) == 40
    ensures used >= 4 ==> Delay(used) == 60
  {
    PowerGrows(used);
    assert Power2(3) == 2 * Power2(2) && Power2(2) == 2 * Power2(1) && Power2(1) == 2;
  }

  function Limit(revisions: nat, retries: nat, action: Action): nat {
    if action.Output? then revisions + 1 else retries
  }

  /** The earliest time at which the next transport retry may be reserved. */
  function NotBefore(log: seq<CallEvent>): real {
    match LastFailure(log)
    case Some(TransportFailed(capacity, at)) => if capacity then at + Delay(Used(log, Transport)) as real else at
    case _ => 0.0
  }

  predicate FollowsTransportFailure(log: seq<CallEvent>) {
    LastFailure(log).Some? && LastFailure(log).value.TransportFailed?
  }

  /** A reservation is a call within its limit; a transport retry follows a transport failure and,
      after a capacity failure, its wait. */
  predicate CallOk(before: seq<CallEvent>, call: CallEvent, revisions: nat, retries: nat) {
    call.Reserved? ==>
      && Used(before, call.action) < Limit(revisions, retries, call.action)
      && (call.action.Transport? ==> FollowsTransportFailure(before) && call.at >= NotBefore(before))
  }

  ghost predicate CallsOk(log: seq<CallEvent>, revisions: nat, retries: nat) {
    forall i :: 0 <= i < |log| ==> CallOk(log[..i], log[i], revisions, retries)
  }

  lemma OneMore(log: seq<CallEvent>, e: CallEvent, revisions: nat, retries: nat)
    requires CallsOk(log, revisions, retries) && CallOk(log, e, revisions, retries)
    ensures CallsOk(log + [e], revisions, retries)
    ensures forall a :: Used(log + [e], a) == Used(log, a) + if e.Reserved? && e.action == a then 1 else 0
    ensures LastFailure(log + [e]) == if e.TransportFailed? || e.OutputRejected? then Some(e) else LastFailure(log)
  {
    var after := log + [e];
    assert after[..|log|] == log;
    forall i | 0 <= i < |after| ensures CallOk(after[..i], after[i], revisions, retries) {
      if i < |log| {
        assert after[..i] == log[..i];
      }
    }
  }

  /** Over all restarts no action exceeds its limit, so neither does the number of invocations. */
  lemma {:induction false} BoundedCalls(log: seq<CallEvent>, revisions: nat, retries: nat)
    requires CallsOk(log, revisions, retries)
    ensures Used(log, Output) <= revisions + 1 && Used(log, Transport) <= retries
    ensures Reservations(log) <= revisions + 1 + retries
  {
    if log != [] {
      var front := log[..|log| - 1];
      assert forall i :: 0 <= i < |front| ==> front[..i] == log[..i] && front[i] == log[i];
      BoundedCalls(front, revisions, retries);
      assert CallOk(log[..|log| - 1], log[|log| - 1], revisions, retries);
    }
  }

  ghost predicate InThePast(log: seq<CallEvent>, clock: real) {
    forall e :: e in log ==> e.at <= clock
  }

  lemma {:induction false} FailureIsPast(log: seq<CallEvent>, clock: real)
    requires InThePast(log, clock) && LastFailure(log).Some?
    ensures LastFailure(log).value.at <= clock
  {
    var last, front := log[|log| - 1], log[..|log| - 1];
    assert last in log;
    if !last.TransportFailed? && !last.OutputRejected? {
      FailureIsPast(front, clock);
    }
  }

  ghost predicate NoFailureBetween(log: seq<CallEvent>, i: int, j: int)
    requires -1 <= i && j <= |log|
  {
    forall k :: i < k < j ==> !log[k].TransportFailed? && !log[k].OutputRejected?
  }

  lemma {:induction false} LatestFailure(log: seq<CallEvent>, i: nat, j: nat)
    requires i < j <= |log| && log[i].TransportFailed? && NoFailureBetween(log, i, j)
    ensures LastFailure(log[..j]) == Some(log[i])
  {
    assert log[..j][..j - 1] == log[..j - 1];
    if i < j - 1 {
      LatestFailure(log, i, j - 1);
    }
  }

  /** Whatever the restarts in between, a retry after a capacity failure is reserved no earlier than
      the delay after that failure. */
  lemma CapacityWait(log: seq<CallEvent>, revisions: nat, retries: nat, i: nat, j: nat)
    requires CallsOk(log, revisions, retries) && i < j < |log|
    requires log[i].TransportFailed? && log[i].capacity && NoFailureBetween(log, i, j)
    requires log[j].Reserved? && log[j].action == Transport
    ensures log[j].at >= log[i].at + Delay(Used(log[..j], Transport)) as real
  {
    LatestFailure(log, i, j);
    assert CallOk(log[..j], log[j], revisions, retries);
  }

  /** Restarts while a wait is on record do not put it off: waits, however many, leave the time of the
      next retry where it was. */
  lemma {:induction false} WaitIsKept(log: seq<CallEvent>, waits: seq<CallEvent>)
    requires forall w :: w in waits ==> w.RetryWait?
    ensures NotBefore(log + waits) == NotBefore(log) && LastFailure(log + waits) == LastFailure(log)
    ensures forall a :: Used(log + waits, a) == Used(log, a)
  {
    if waits == [] {
      assert log + waits == log;
    } else {
      var front := waits[..|waits| - 1];
      WaitIsKept(log, front);
      var all := log + waits;
      assert all[..|all| - 1] == log + front && all[|all| - 1] == waits[|waits| - 1] && waits[|waits| - 1] in waits;
      assert forall a :: Used(all, a) == Used(log + front, a);
    }
  }

  class Caller {
    const revisions: nat
    const retries: nat
    const external: bool
    var log: seq<CallEvent>
    var clock: real

    ghost predicate Valid()
      reads this
    {
      CallsOk(log, revisions, retries) && InThePast(log, clock)
    }

    constructor (revisions: nat, retries: nat, external: bool)
      ensures Valid() && log == [] && this.revisions == revisions && this.retries == retries
    {
      this.revisions, this.retries, this.external := revisions, retries, external;
      log, clock := [], 0.0;
    }

    method Append(e: CallEvent)
      requires Valid() && CallOk(log, e, revisions, retries) && e.at <= clock
      modifies this`log
      ensures Valid() && log == old(log) + [e]
      ensures LastFailure(log) == if e.TransportFailed? || e.OutputRejected? then Some(e) else LastFailure(old(log))
      ensures forall a :: Used(log, a) == Used(old(log), a) + if e.Reserved? && e.action == a then 1 else 0
    {
      hide CallsOk;
      OneMore(log, e, revisions, retries);
      log := log + [e];
    }

    /** Time passes. */
    method Wait(until: real)
      modifies this`clock
      ensures clock >= old(clock) && clock >= until
    {
      var later: real := *;
      if later > clock { clock := later; }
      if until > clock { clock := until; }
    }

    /** What holds when `Generate` is about to reserve a call for `action`. */
    ghost predicate Ready(action: Action)
      reads this
    {
      action.Transport? ==> FollowsTransportFailure(log) && clock >= NotBefore(log)
    }

    /** `_transport_retry`: refuses under external authority or when the retries are used up, otherwise
        waits out the delay. The wait reserves nothing and forgets no failure. */
    method TransportRetry() returns (ready: bool)
      requires Valid() && FollowsTransportFailure(log)
      modifies this
      ensures Valid() && clock >= old(clock)
      ensures ready ==> !external && Used(old(log), Transport) < retries && Ready(Transport)
      ensures Reservations(log) == Reservations(old(log)) && LastFailure(log) == LastFailure(old(log))
    {
      if external { return false; }
      var used := Used(log, Transport);
      if used >= retries { return false; }
      FailureIsPast(log, clock);
      var failure := LastFailure(log).value;
      if failure.capacity {
        var until := failure.at + Delay(used) as real;
        Append(RetryWait(until, clock));
        Wait(until);
      }
      var stopped: bool := *;
      return !stopped;
    }

    /** `reserve` under the call limit of the action. */
    method ReserveCall(action: Action) returns (admitted: bool)
      requires Valid() && Ready(action)
      modifies this`log
      ensures Valid()
      ensures admitted <==> Used(old(log), action) < Limit(revisions, retries, action)
      ensures log == old(log) + if admitted then [Reserved(action, clock)] else []
      ensures Reservations(log) == Reservations(old(log)) + if admitted then 1 else 0
    {
      admitted := Used(log, action) < Limit(revisions, retries, action);
      if admitted { Append(Reserved(action, clock)); }
    }

    /** The handlers of a failed call: the action of the next one, if the loop goes on. */
    method Recover(transport: bool, capacity: bool) returns (next: Option<Action>)
      requires Valid()
      modifies this
      ensures Valid() && clock >= old(clock) && Reservations(log) == Reservations(old(log))
      ensures next.Some? ==> !external && Ready(next.value) && next.value.Transport? == transport
    {
      if transport {
        Append(TransportFailed(capacity, clock));
        var crash: bool := *;
        if crash { return None; }
        var ready := TransportRetry();
        return if ready then Some(Transport) else None;
      }
      Append(OutputRejected(clock));
      var stopped: bool := *;
      return if stopped || external then None else Some(Output);
    }

    /** One iteration of the loop: a reservation, a call and its outcome. */
    method Attempt(action: Action) returns (answered: bool, next: Option<Action>)
      requires Valid() && Ready(action)
      modifies this
      ensures Valid() && clock >= old(clock)
      ensures Reservations(log) <= Reservations(old(log)) + 1
      ensures next.Some? ==> !external && Ready(next.value)
    {
      answered, next := false, None;
      var admitted := ReserveCall(action);
      if !admitted { return; }
      Wait(clock);
      var fails, transport, capacity: bool, died: bool := *, *, *, *;
      if died { return; }
      if !fails { return true, None; }
      next := Recover(transport, capacity);
    }

    /** `_generate`, up to an answer, a stop or a crash; it may be started again on what it left. Under
        external authority it makes at most one call. */
    method Generate() returns (answered: bool)
      requires Valid()
      modifies this
      ensures Valid() && clock >= old(clock)
      ensures external ==> Reservations(log) <= Reservations(old(log)) + 1
    {
      var action := Output;
      if FollowsTransportFailure(log) {
        var ready := TransportRetry();
        if !ready { return false; }
        action := Transport;
      }
      for i := 0 to revisions + retries + 1
        invariant Valid() && clock >= old(clock) && Ready(action)
        invariant external ==> i == 0 && Reservations(log) == Reservations(old(log))
      {
        var done, next := Attempt(action);
        if next.None? { return done; }
        action := next.value;
      }
      return false;
    }
  }

  /** Any number of controllers, one after the other, on the same durable events. */
  method Restarts(revisions: nat, retries: nat, external: bool, controllers: nat) returns (c: Caller)
    ensures fresh(c) && CallsOk(c.log, revisions, retries)
    ensures Reservations(c.log) <= revisions + 1 + retries
  {
    c := new Caller(revisions, retries, external);
    for i := 0 to controllers
      invariant fresh(c) && c.Valid() && c.revisions == revisions && c.retries == retries
    {
      var answered := c.Generate();
    }
    BoundedCalls(c.log, revisions, retries);
  }
}
