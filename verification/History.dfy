/** The journal's transactions over its tables. */
module History {
  import opened Models
  import opened Tables

  /** Chains verify, the fence holds, final decisions are distinct and call ordinals count up. */
  ghost predicate LogOk(events: seq<Row>) {
    && (forall run :: ChainsOk(events, run))
    && FenceOk(events) && FinalsDistinct(events) && OrdinalsOk(events)
  }

  /** Reservations are unique, closed exactly once, charged at admission while open and within limits. */
  ghost predicate TableOk(events: seq<Row>, table: seq<Reservation>, configs: map<string, Limits>) {
    && UniqueReservations(table) && ClosedOnce(events, table) && NoStrayClosings(events, table)
    && (forall i :: 0 <= i < |table| && !table[i].settled ==>
          table[i].tokens == table[i].admittedTokens && table[i].cost == table[i].admittedCost)
    && (forall run :: run in configs ==> WithinLimits(table, run, configs[run]))
    && (forall i :: 0 <= i < |table| ==> table[i].run in configs)
    && (forall run :: run in configs && configs[run].cost.Some? ==> configs[run].cost.value > 0.0)
  }

  predicate IsBookkeeping(e: Record) {
    e.Reserved? || e.Settled? || e.Recovered?
  }

  lemma InsertKeepsLog(events: seq<Row>, run: string, entry: Record, now: real)
    requires LogOk(events)
    requires IsGuarded(entry) ==> !Fenced(events, run)
    requires IsFinal(entry) ==> !OnRecord(events, run, entry)
    requires entry.Reserved? && entry.callKey.Some? ==> entry.ordinal == Calls(events, run, entry.callKey.value)
    ensures LogOk(events + [NextRow(events, run, entry, now)])
  {
    var row := NextRow(events, run, entry, now);
    forall other ensures ChainsOk(events + [row], other) {
      InsertKeepsChains(events, run, entry, now, other);
    }
    InsertKeepsFence(events, row);
    InsertKeepsFinals(events, row);
    InsertKeepsOrdinals(events, row);
  }

  /** A row that closes nothing leaves the closings as they are. */
  lemma InsertKeepsTable(events: seq<Row>, table: seq<Reservation>, configs: map<string, Limits>, row: Row)
    requires TableOk(events, table, configs) && !row.entry.Settled? && !row.entry.Recovered?
    ensures TableOk(events + [row], table, configs)
  {
    forall i | 0 <= i < |table|
      ensures Closings(events + [row], table[i].run, table[i].id) == if table[i].settled then 1 else 0
    {
      ClosingsInsert(events, row, table[i].run, table[i].id);
    }
  }

  // ---- admission ----

  datatype Refusal = RunStopped | ContractVersionChanged | StageInvocationLimit | WallExhausted | RunBudgetExhausted

  datatype Admission = Admitted(seconds: Option<real>) | Refused(reason: Refusal)

  datatype Outcome = Appended | AlreadyRecorded | Rejected(reason: Refusal)

  /** Contract version in the run's creation row. */
  function CreatedVersion(events: seq<Row>, run: string): Option<string> {
    if events == [] then None
    else
      var earlier := CreatedVersion(events[..|events| - 1], run);
      var last := events[|events| - 1];
      if earlier.Some? then earlier
      else if last.run == run && last.entry.Created? then Some(last.entry.contractVersion) else None
  }

  /** `_decision_guard`. */
  function Guard(events: seq<Row>, run: string): Option<Refusal> {
    if Fenced(events, run) then Some(RunStopped)
    else if CreatedVersion(events, run) != Some(VERSION) then Some(ContractVersionChanged)
    else None
  }

  function Minimum(a: Option<real>, b: Option<real>): Option<real> {
    if a.None? then b else if b.None? then a else Some(Least(a.value, b.value))
  }

  predicate Exhausted(seconds: Option<real>) {
    seconds.Some? && seconds.value <= 0.0
  }

  /** Active time a reservation is charged at `now`: its measured seconds, or the time since it opened. */
  function ActiveSeconds(r: Reservation, now: real): real {
    if r.settled then r.seconds else if now - r.started > 0.0 then now - r.started else 0.0
  }

  function Active(table: seq<Reservation>, run: string, now: real): real {
    Total(table, run, (r: Reservation) => ActiveSeconds(r, now))
  }

  datatype Request = Request(id: string, modelUsage: bool, callKey: Option<string>, callLimit: Option<nat>,
                             secondsLimit: Option<real>, wall: Option<real>)

  function TokensAsked(q: Request, limits: Limits): nat {
    if q.modelUsage && limits.tokens.Some? then limits.reservationTokens else 0
  }

  function CostAsked(q: Request, limits: Limits): real {
    if q.modelUsage && limits.cost.Some? then limits.reservationCost else 0.0
  }

  function SecondsGranted(table: seq<Reservation>, run: string, q: Request, limits: Limits, now: real): Option<real> {
    var active :=
      if limits.activeSeconds.None? then None else Some(limits.activeSeconds.value - Active(table, run, now));
    Minimum(Minimum(q.secondsLimit, limits.invocationSeconds), Minimum(active, q.wall))
  }

  function OrdinalOf(events: seq<Row>, run: string, q: Request): nat {
    if q.callKey.None? then 0 else Calls(events, run, q.callKey.value)
  }

  /** The reason, if any, for which `reserve` admits nothing. */
  function Refuses(events: seq<Row>, table: seq<Reservation>, run: string, q: Request, limits: Limits, now: real)
    : Option<Refusal>
  {
    if Guard(events, run).Some? then Guard(events, run)
    else if q.callKey.Some? && q.callLimit.Some? && OrdinalOf(events, run, q) >= q.callLimit.value then
      Some(StageInvocationLimit)
    else if Exhausted(q.wall) then Some(WallExhausted)
    else if Count(table, run) >= limits.attempts
      || Exhausted(SecondsGranted(table, run, q, limits, now))
      || (limits.tokens.Some?
          && Total(table, run, Tokens) + TokensAsked(q, limits) as real > limits.tokens.value as real)
      || (limits.cost.Some? && Total(table, run, Cost) + CostAsked(q, limits) > limits.cost.value)
    then Some(RunBudgetExhausted)
    else None
  }

  function NewReservation(run: string, q: Request, limits: Limits, now: real): Reservation {
    Reservation(q.id, run, now, 0.0, TokensAsked(q, limits), CostAsked(q, limits), false,
                TokensAsked(q, limits), CostAsked(q, limits))
  }

  function ReservedEntry(events: seq<Row>, run: string, q: Request, limits: Limits): Record {
    Reserved(q.id, TokensAsked(q, limits), CostAsked(q, limits), q.callKey, OrdinalOf(events, run, q))
  }

  lemma AdmissionKeepsLimits(events: seq<Row>, table: seq<Reservation>, run: string, q: Request, limits: Limits,
                             now: real, other: string, otherLimits: Limits)
    requires Refuses(events, table, run, q, limits, now).None?
    requires WithinLimits(table, other, otherLimits) && (other == run ==> otherLimits == limits)
    ensures WithinLimits(table + [NewReservation(run, q, limits, now)], other, otherLimits)
  {
    var r := NewReservation(run, q, limits, now);
    TotalInsert(table, r, other, TokensWithinAdmission);
    TotalInsert(table, r, other, CostWithinAdmission);
    ChargesSplit(table, other);
  }

  lemma AdmissionKeepsTable(events: seq<Row>, table: seq<Reservation>, configs: map<string, Limits>, run: string,
                            q: Request, now: real, row: Row)
    requires TableOk(events, table, configs) && run in configs
    requires Refuses(events, table, run, q, configs[run], now).None?
    requires row.entry.Reserved? && forall i :: 0 <= i < |table| ==> table[i].id != q.id
    ensures TableOk(events + [row], table + [NewReservation(run, q, configs[run], now)], configs)
  {
    var r := NewReservation(run, q, configs[run], now);
    var after := table + [r];
    InsertKeepsTable(events, table, configs, row);
    NewIsOpen(events + [row], table, r);
    forall other | other in configs ensures WithinLimits(after, other, configs[other]) {
      AdmissionKeepsLimits(events, table, run, q, configs[run], now, other, configs[other]);
    }
    assert forall i :: 0 <= i < |table| ==> after[i] == table[i];
  }

  lemma NewIsOpen(events: seq<Row>, table: seq<Reservation>, r: Reservation)
    requires ClosedOnce(events, table) && NoStrayClosings(events, table) && !r.settled
    requires forall i :: 0 <= i < |table| ==> table[i].id != r.id
    ensures ClosedOnce(events, table + [r]) && NoStrayClosings(events, table + [r])
  {
    NoClosings(events, r.run, r.id);
    var after := table + [r];
    forall e | e in events && (e.entry.Settled? || e.entry.Recovered?)
      ensures exists i :: 0 <= i < |after| && after[i].id == e.entry.id && after[i].run == e.run
    {
      var i :| 0 <= i < |table| && table[i].id == e.entry.id && table[i].run == e.run;
      assert after[i] == table[i];
    }
  }

  // ---- closing ----

  /** Closing an open row by an entry of its own keeps the table sound, whatever was measured. */
  lemma ClosingKeepsTable(events: seq<Row>, table: seq<Reservation>, configs: map<string, Limits>, i: nat,
                          closed: Reservation, row: Row)
    requires TableOk(events, table, configs) && i < |table| && !table[i].settled
    requires closed.settled && closed.id == table[i].id && closed.run == table[i].run
    requires closed.admittedTokens == table[i].admittedTokens && closed.admittedCost == table[i].admittedCost
    requires Closes(row, table[i].run, table[i].id)
    ensures TableOk(events + [row], table[i := closed], configs)
  {
    var after := table[i := closed];
    forall j | 0 <= j < |after|
      ensures Closings(events + [row], after[j].run, after[j].id) == if after[j].settled then 1 else 0
    {
      ClosingsInsert(events, row, after[j].run, after[j].id);
      assert j < i ==> table[j].id != table[i].id;
      assert i < j ==> table[i].id != table[j].id;
    }
    ClosingIsListed(events, table, i, closed, row);
    forall run | run in configs ensures WithinLimits(after, run, configs[run]) {
      TotalUpdate(table, i, closed, run, TokensWithinAdmission);
      TotalUpdate(table, i, closed, run, CostWithinAdmission);
    }
  }

  lemma ClosingIsListed(events: seq<Row>, table: seq<Reservation>, i: nat, closed: Reservation, row: Row)
    requires NoStrayClosings(events, table) && i < |table|
    requires closed.id == table[i].id && closed.run == table[i].run && Closes(row, table[i].run, table[i].id)
    ensures NoStrayClosings(events + [row], table[i := closed])
  {
    var after := table[i := closed];
    forall e | e in events + [row] && (e.entry.Settled? || e.entry.Recovered?)
      ensures exists j :: 0 <= j < |after| && after[j].id == e.entry.id && after[j].run == e.run
    {
      if e in events {
        var j :| 0 <= j < |table| && table[j].id == e.entry.id && table[j].run == e.run;
        assert after[j].id == e.entry.id;
      } else {
        assert after[i].id == e.entry.id;
      }
    }
  }

  // ---- batches and recovery as functions of the tables ----

  /** Rows after a batch: a final decision that is already on record is skipped. */
  function AppendAll(events: seq<Row>, run: string, entries: seq<(string, string)>, now: real): seq<Row> {
    if entries == [] then events
    else
      var before := AppendAll(events, run, entries[..|entries| - 1], now);
      var entry := Event(entries[|entries| - 1].0, entries[|entries| - 1].1);
      if IsFinal(entry) && OnRecord(before, run, entry) then before else before + [NextRow(before, run, entry, now)]
  }

  /** The `j`th entry of a batch is a final decision on record by then, so it is not inserted. */
  predicate Skipped(events: seq<Row>, run: string, entries: seq<(string, string)>, j: nat, now: real)
    requires j < |entries|
  {
    var entry := Event(entries[j].0, entries[j].1);
    IsFinal(entry) && OnRecord(AppendAll(events, run, entries[..j], now), run, entry)
  }

  /** No entry of the batch that is inserted and advances authority comes after a stop of the batch. */
  ghost predicate InOrder(events: seq<Row>, run: string, entries: seq<(string, string)>, now: real) {
    forall i, j :: 0 <= i < j < |entries| && entries[i].0 in FENCES && entries[j].0 in DECISIONS ==>
      Skipped(events, run, entries, j, now)
  }

  lemma {:induction false} BatchGrows(events: seq<Row>, run: string, entries: seq<(string, string)>, n: nat, now: real)
    requires n <= |entries|
    ensures AppendAll(events, run, entries[..n], now) <= AppendAll(events, run, entries, now)
    decreases |entries|
  {
    if n == |entries| {
      assert entries[..n] == entries;
    } else {
      var front := entries[..|entries| - 1];
      assert front[..n] == entries[..n];
      BatchGrows(events, run, front, n, now);
    }
  }

  /** A batch fences the run exactly when one of its entries is a stop. */
  lemma {:induction false} FencedByBatch(events: seq<Row>, run: string, entries: seq<(string, string)>, now: real)
    requires !Fenced(events, run)
    ensures Fenced(AppendAll(events, run, entries, now), run)
       <==> exists i :: 0 <= i < |entries| && entries[i].0 in FENCES
  {
    if entries != [] {
      var front, last := entries[..|entries| - 1], entries[|entries| - 1];
      FencedByBatch(events, run, front, now);
      LastOfBatch(events, run, entries, now);
      assert forall i :: 0 <= i < |front| ==> front[i] == entries[i];
    }
  }

  lemma LastOfBatch(events: seq<Row>, run: string, entries: seq<(string, string)>, now: real)
    requires entries != []
    ensures var front, last := entries[..|entries| - 1], entries[|entries| - 1];
            var before := AppendAll(events, run, front, now);
            Fenced(AppendAll(events, run, entries, now), run) <==>
              Fenced(before, run) || last.0 in FENCES
  {
    var front, last := entries[..|entries| - 1], entries[|entries| - 1];
    var before, entry := AppendAll(events, run, front, now), Event(last.0, last.1);
    var after := before + [NextRow(before, run, entry, now)];
    assert after[|before|].entry == entry && after[|before|].run == run;
    assert forall r :: r in after <==> r in before || r == after[|before|];
  }

  lemma {:induction false} BatchKeepsSound(events: seq<Row>, table: seq<Reservation>, configs: map<string, Limits>,
                                           run: string, entries: seq<(string, string)>, now: real)
    requires LogOk(events) && TableOk(events, table, configs) && !Fenced(events, run)
    requires InOrder(events, run, entries, now)
    ensures LogOk(AppendAll(events, run, entries, now))
    ensures TableOk(AppendAll(events, run, entries, now), table, configs)
  {
    if entries != [] {
      var front, last := entries[..|entries| - 1], entries[|entries| - 1];
      OrderOfFront(events, run, entries, now);
      BatchKeepsSound(events, table, configs, run, front, now);
      var before, entry := AppendAll(events, run, front, now), Event(last.0, last.1);
      if !(IsFinal(entry) && OnRecord(before, run, entry)) {
        FencedByBatch(events, run, front, now);
        LastInOrder(events, run, entries, now);
        InsertKeepsLog(before, run, entry, now);
        InsertKeepsTable(before, table, configs, NextRow(before, run, entry, now));
      }
    }
  }

  lemma OrderOfFront(events: seq<Row>, run: string, entries: seq<(string, string)>, now: real)
    requires entries != [] && InOrder(events, run, entries, now)
    ensures InOrder(events, run, entries[..|entries| - 1], now)
  {
    var front := entries[..|entries| - 1];
    forall i, j | 0 <= i < j < |front| && front[i].0 in FENCES && front[j].0 in DECISIONS
      ensures Skipped(events, run, front, j, now)
    {
      assert front[..j] == entries[..j];
      assert Skipped(events, run, entries, j, now);
    }
  }

  lemma LastInOrder(events: seq<Row>, run: string, entries: seq<(string, string)>, now: real)
    requires entries != [] && InOrder(events, run, entries, now) && !Skipped(events, run, entries, |entries| - 1, now)
    ensures (exists i :: 0 <= i < |entries| - 1 && entries[i].0 in FENCES) ==> entries[|entries| - 1].0 !in DECISIONS
  {
  }

  lemma InsertedAt(events: seq<Row>, run: string, entries: seq<(string, string)>, j: nat, now: real)
    requires j < |entries| && !Skipped(events, run, entries, j, now)
    ensures var at, all := |AppendAll(events, run, entries[..j], now)|, AppendAll(events, run, entries, now);
            at < |all| && all[at].run == run && all[at].entry == Event(entries[j].0, entries[j].1)
            && |AppendAll(events, run, entries[..j + 1], now)| == at + 1
  {
    assert entries[..j + 1][..j] == entries[..j];
    BatchGrows(events, run, entries, j + 1, now);
  }

  /** Out of order, a batch does put an entry after a stop: the fence holds only for batches in order. */
  lemma BatchBreaksFence(events: seq<Row>, run: string, entries: seq<(string, string)>, now: real)
    requires !InOrder(events, run, entries, now)
    ensures !FenceOk(AppendAll(events, run, entries, now))
  {
    var i, j :| 0 <= i < j < |entries| && entries[i].0 in FENCES && entries[j].0 in DECISIONS
      && !Skipped(events, run, entries, j, now);
    InsertedAt(events, run, entries, i, now);
    InsertedAt(events, run, entries, j, now);
    assert entries[..j][..i + 1] == entries[..i + 1];
    BatchGrows(events, run, entries[..j], i + 1, now);
  }

  /** Such a batch exists: a stop followed by a plan. */
  lemma StopThenPlan(events: seq<Row>, run: string, now: real)
    ensures !FenceOk(AppendAll(events, run, [("stopped", ""), ("plan", "")], now))
  {
    var entries := [("stopped", ""), ("plan", "")];
    assert entries[0].0 in FENCES && entries[1].0 in DECISIONS;
    assert !Skipped(events, run, entries, 1, now);
    BatchBreaksFence(events, run, entries, now);
  }

  function RecoverRow(r: Reservation, now: real): Reservation {
    r.(seconds := ActiveSeconds(r, now), settled := true)
  }

  /** The table once the first `n` rows have been recovered for the run. */
  function RecoverTable(table: seq<Reservation>, n: nat, run: string, now: real): (after: seq<Reservation>)
    requires n <= |table|
    ensures |after| == |table|
    ensures forall i :: 0 <= i < |table| ==>
              after[i] ==
                if i < n && table[i].run == run && !table[i].settled then RecoverRow(table[i], now) else table[i]
  {
    seq(|table|, i requires 0 <= i < |table| =>
      if i < n && table[i].run == run && !table[i].settled then RecoverRow(table[i], now) else table[i])
  }

  function RecoverEvents(events: seq<Row>, table: seq<Reservation>, n: nat, run: string, now: real): seq<Row>
    requires n <= |table|
  {
    if n == 0 then events
    else
      var before := RecoverEvents(events, table, n - 1, run, now);
      var r := table[n - 1];
      if r.run == run && !r.settled then before + [NextRow(before, run, Recovered(r.id, ActiveSeconds(r, now)), now)]
      else before
  }

  lemma RecoverStep(table: seq<Reservation>, n: nat, run: string, now: real)
    requires n < |table|
    ensures RecoverTable(table, n + 1, run, now) ==
              if table[n].run == run && !table[n].settled
              then RecoverTable(table, n, run, now)[n := RecoverRow(table[n], now)]
              else RecoverTable(table, n, run, now)
  {
  }

  /** After recovery nothing of the run is open, and no charge or invocation has been released. */
  lemma RecoveryClosesAll(table: seq<Reservation>, run: string, now: real)
    ensures var after := RecoverTable(table, |table|, run, now);
            && (forall i :: 0 <= i < |after| && after[i].run == run ==> after[i].settled)
            && (forall i :: 0 <= i < |after| ==> after[i].tokens == table[i].tokens && after[i].cost == table[i].cost)
            && Count(after, run) == Count(table, run)
  {
    RecoveryKeepsCount(table, |table|, run, now);
  }

  lemma {:induction false} RecoveryKeepsCount(table: seq<Reservation>, n: nat, run: string, now: real)
    requires n <= |table|
    ensures Count(RecoverTable(table, n, run, now), run) == Count(table, run)
  {
    if n == 0 {
      assert RecoverTable(table, 0, run, now) == table;
    } else {
      RecoverStep(table, n - 1, run, now);
      RecoveryKeepsCount(table, n - 1, run, now);
      var before := RecoverTable(table, n - 1, run, now);
      TotalUpdate(before, n - 1, RecoverRow(table[n - 1], now), run, Tokens);
    }
  }

  /** Position of a reservation of the run, or the table's length. */
  function IndexOf(table: seq<Reservation>, run: string, id: string): (n: nat)
    ensures n <= |table|
    ensures n < |table| ==> table[n].run == run && table[n].id == id
    ensures n == |table| ==> forall i :: 0 <= i < |table| ==> !(table[i].run == run && table[i].id == id)
  {
    if table == [] then 0
    else if table[0].run == run && table[0].id == id then 0
    else
      var n := IndexOf(table[1..], run, id);
      assert forall i :: 1 <= i < |table| ==> table[i] == table[1..][i - 1];
      n + 1
  }

  predicate Stopped(events: seq<Row>, run: string) {
    exists r | r in events :: r.run == run && r.entry.Event? && r.entry.kind == "stopped"
  }

  /** The budget conditions under which `check` stops a run. */
  predicate Overspent(table: seq<Reservation>, run: string, limits: Limits, now: real) {
    || (limits.activeSeconds.Some? && Active(table, run, now) >= limits.activeSeconds.value)
    || (limits.tokens.Some? && Total(table, run, Tokens) > limits.tokens.value as real)
    || (limits.cost.Some? && Total(table, run, Cost) > limits.cost.value)
  }

  function Next(events: seq<Row>, run: string, entry: Record, now: real): seq<Row> {
    events + [NextRow(events, run, entry, now)]
  }

  /** The five rows of a replacement: three for the successor, two for the run it replaces. */
  function Superseded(events: seq<Row>, run: string, successor: string, tree: string, now: real): seq<Row> {
    var e1 := Next(events, successor, Created(VERSION), now);
    var e2 := Next(e1, successor, Event("input", tree), now);
    var e3 := Next(e2, successor, Event("goal_version", run), now);
    var e4 := Next(e3, run, Event("goal_superseded", successor), now);
    Next(e4, run, Event("stopped", "GOAL_SUPERSEDED"), now)
  }

  /** Kinds that neither advance authority nor finish anything. */
  predicate IsPlain(kind: string) {
    kind !in DECISIONS && kind != "accepted" && kind != "completed"
  }

  lemma PlainKinds()
    ensures IsPlain("input") && IsPlain("goal_version") && IsPlain("goal_superseded") && IsPlain("stopped")
  {
  }

  // ---- the journal ----

  datatype Delivery = Settles | Redelivered | Foreign | Conflicting | Invalid

  function SettleRow(r: Reservation, seconds: real, usage: Usage): Reservation {
    r.(seconds := seconds,
       tokens := if usage.tokens.None? then r.tokens else usage.tokens.value,
       cost := if usage.cost.None? then r.cost else usage.cost.value,
       settled := true)
  }

  /** What `settle` does with a delivery. */
  function DeliveryOf(events: seq<Row>, table: seq<Reservation>, run: string, id: string, seconds: real, usage: Usage)
    : Delivery
  {
    var n := IndexOf(table, run, id);
    if seconds < 0.0 then Invalid
    else if n == |table| then Foreign
    else if !table[n].settled then Settles
    else if OnRecord(events, run, Settled(id, seconds, usage)) then Redelivered
    else Conflicting
  }

  lemma {:induction false} ClosingCounted(events: seq<Row>, r: Row, run: string, id: string)
    requires r in events && Closes(r, run, id)
    ensures Closings(events, run, id) >= 1
  {
    if events[|events| - 1] != r {
      ClosingCounted(events[..|events| - 1], r, run, id);
    }
  }

  lemma {:induction false} TwoClosings(events: seq<Row>, r: Row, s: Row, run: string, id: string)
    requires r in events && s in events && r != s && Closes(r, run, id) && Closes(s, run, id)
    ensures Closings(events, run, id) >= 2
  {
    var front, last := events[..|events| - 1], events[|events| - 1];
    assert events == front + [last];
    if last == r {
      ClosingCounted(front, s, run, id);
    } else if last == s {
      ClosingCounted(front, r, run, id);
    } else {
      TwoClosings(front, r, s, run, id);
    }
  }

  lemma ClosingHasRow(events: seq<Row>, table: seq<Reservation>, r: Row, run: string, id: string)
    requires ClosedOnce(events, table) && NoStrayClosings(events, table) && r in events && Closes(r, run, id)
    ensures var n := IndexOf(table, run, id); n < |table| && table[n].settled
  {
    ClosingCounted(events, r, run, id);
  }

  lemma OneClosing(events: seq<Row>, table: seq<Reservation>, r: Row, s: Row, run: string, id: string)
    requires ClosedOnce(events, table) && NoStrayClosings(events, table)
    requires r in events && s in events && Closes(r, run, id) && Closes(s, run, id)
    ensures r == s
  {
    ClosingHasRow(events, table, r, run, id);
    if r != s {
      TwoClosings(events, r, s, run, id);
    }
  }

  /** In every sound state, whatever happened since: once a settlement is on record the same delivery
      changes nothing and every different one is refused. */
  lemma SettledOnce(events: seq<Row>, table: seq<Reservation>, configs: map<string, Limits>, run: string, id: string,
                    seconds: real, usage: Usage, seconds': real, usage': Usage, settled: Row)
    requires TableOk(events, table, configs) && seconds' >= 0.0
    requires settled in events && settled.run == run && settled.entry == Settled(id, seconds, usage)
    ensures DeliveryOf(events, table, run, id, seconds', usage')
         == if seconds' == seconds && usage' == usage then Redelivered else Conflicting
  {
    ClosingHasRow(events, table, settled, run, id);
    if OnRecord(events, run, Settled(id, seconds', usage')) {
      var r :| r in events && r.run == run && r.entry == Settled(id, seconds', usage');
      OneClosing(events, table, settled, r, run, id);
    }
  }

  /** A call that was closed by recovery never accepts a late settlement. */
  lemma RecoveredIsClosed(events: seq<Row>, table: seq<Reservation>, configs: map<string, Limits>, run: string,
                          id: string, seconds: real, usage: Usage, recovered: Row)
    requires TableOk(events, table, configs) && IndexOf(table, run, id) < |table|
    requires recovered in events && recovered.run == run && recovered.entry.Recovered? && recovered.entry.id == id
    requires seconds >= 0.0
    ensures DeliveryOf(events, table, run, id, seconds, usage) == Conflicting
  {
    ClosingCounted(events, recovered, run, id);
    if OnRecord(events, run, Settled(id, seconds, usage)) {
      var r :| r in events && r.run == run && r.entry == Settled(id, seconds, usage);
      TwoClosings(events, recovered, r, run, id);
    }
  }

  lemma {:induction false} NothingReserved(table: seq<Reservation>, run: string)
    requires forall i :: 0 <= i < |table| ==> table[i].run != run
    ensures Count(table, run) == 0
    ensures Total(table, run, TokensWithinAdmission) == 0.0 && Total(table, run, CostWithinAdmission) == 0.0
  {
    if table != [] {
      NothingReserved(table[..|table| - 1], run);
    }
  }

  class Journal {
    var events: seq<Row>
    var reservations: seq<Reservation>
    var configs: map<string, Limits>

    ghost predicate Valid()
      reads this
    {
      LogOk(events) && TableOk(events, reservations, configs)
    }

    constructor ()
      ensures Valid() && events == [] && reservations == [] && configs == map[]
    {
      events, reservations, configs := [], [], map[];
    }

    /** `_event` for anything but the reservation bookkeeping. */
    method Insert(run: string, entry: Record, now: real)
      requires Valid() && !IsBookkeeping(entry)
      requires IsGuarded(entry) ==> !Fenced(events, run)
      requires IsFinal(entry) ==> !OnRecord(events, run, entry)
      modifies this`events
      ensures Valid() && events == old(events) + [NextRow(old(events), run, entry, now)]
    {
      var row := NextRow(events, run, entry, now);
      InsertKeepsLog(events, run, entry, now);
      InsertKeepsTable(events, reservations, configs, row);
      events := events + [row];
    }

    method Create(run: string, limits: Limits, now: real)
      requires Valid() && run !in configs && (limits.cost.Some? ==> limits.cost.value > 0.0)
      modifies this
      ensures Valid() && configs == old(configs)[run := limits] && reservations == old(reservations)
      ensures events == old(events) + [NextRow(old(events), run, Created(VERSION), now)]
    {
      NothingReserved(reservations, run);
      configs := configs[run := limits];
      Insert(run, Created(VERSION), now);
    }

    method Append(run: string, kind: string, body: string, now: real) returns (outcome: Outcome)
      requires Valid()
      modifies this`events
      ensures Valid()
      ensures outcome ==
                var entry := Event(kind, body);
                if kind in DECISIONS && Guard(old(events), run).Some? then Rejected(Guard(old(events), run).value)
                else if kind in DECISIONS && IsFinal(entry) && OnRecord(old(events), run, entry) then AlreadyRecorded
                else Appended
      ensures events ==
                if outcome.Appended? then old(events) + [NextRow(old(events), run, Event(kind, body), now)]
                else old(events)
    {
      var entry := Event(kind, body);
      if kind in DECISIONS {
        var refusal := Guard(events, run);
        if refusal.Some? { return Rejected(refusal.value); }
        if IsFinal(entry) && OnRecord(events, run, entry) { return AlreadyRecorded; }
      }
      Insert(run, entry, now);
      return Appended;
    }

    /** A batch is refused as a whole once the run is fenced. The journal stays sound exactly for
        batches in order, such as those whose only stop comes last. */
    method AppendMany(run: string, entries: seq<(string, string)>, now: real) returns (outcome: Outcome)
      requires Valid()
      modifies this`events
      ensures outcome == if Guard(old(events), run).Some? then Rejected(Guard(old(events), run).value) else Appended
      ensures events == if outcome.Appended? then AppendAll(old(events), run, entries, now) else old(events)
      ensures Valid() <==> (outcome.Appended? ==> InOrder(old(events), run, entries, now))
    {
      var refusal := Guard(events, run);
      if refusal.Some? { return Rejected(refusal.value); }
      for i := 0 to |entries|
        invariant events == AppendAll(old(events), run, entries[..i], now)
      {
        assert entries[..i + 1][..i] == entries[..i];
        var entry := Event(entries[i].0, entries[i].1);
        if !(IsFinal(entry) && OnRecord(events, run, entry)) {
          events := events + [NextRow(events, run, entry, now)];
        }
      }
      assert entries[..|entries|] == entries;
      if InOrder(old(events), run, entries, now) {
        BatchKeepsSound(old(events), reservations, configs, run, entries, now);
      } else {
        BatchBreaksFence(old(events), run, entries, now);
      }
      return Appended;
    }

    /** `events`: the run's rows, unless some row does not continue the chain. */
    method Read(run: string) returns (rows: Option<seq<Row>>)
      ensures rows.Some? <==> ChainsOk(events, run)
      ensures rows.Some? ==> rows.value == RowsOf(events, run)
    {
      var all := RowsOf(events, run);
      var previous := Genesis;
      for i := 0 to |all|
        invariant ChainOk(run, all[..i]) && previous == Tip(all[..i])
      {
        assert all[..i + 1][..i] == all[..i];
        var expected := Sealed(run, all[i].entry, all[i].at, previous);
        if all[i].previous != previous || all[i].digest != expected {
          if ChainOk(run, all) { PrefixVerifies(run, all, i + 1); assert false; }
          return None;
        }
        previous := expected;
      }
      assert all[..|all|] == all;
      return Some(all);
    }

    /** Replacing the goal stops the run and starts a successor in one transaction. */
    method Supersede(run: string, successor: string, tree: string, now: real) returns (outcome: Outcome)
      requires Valid() && run in configs && successor !in configs
      modifies this
      ensures Valid() && reservations == old(reservations)
      ensures outcome == if Stopped(old(events), run) then Rejected(RunStopped) else Appended
      ensures configs == if outcome.Appended? then old(configs)[successor := old(configs)[run]] else old(configs)
      ensures events == if outcome.Appended? then Superseded(old(events), run, successor, tree, now) else old(events)
    {
      if Stopped(events, run) { return Rejected(RunStopped); }
      Create(successor, configs[run], now);
      PlainKinds();
      Insert(successor, Event("input", tree), now);
      Insert(successor, Event("goal_version", run), now);
      Insert(run, Event("goal_superseded", successor), now);
      Insert(run, Event("stopped", "GOAL_SUPERSEDED"), now);
      return Appended;
    }

    /** `check`: reports a stop, or records one when time or budget has run out. */
    method Check(run: string, wall: Option<real>, now: real) returns (refusal: Option<Refusal>)
      requires Valid() && run in configs
      modifies this`events
      ensures Valid()
      ensures refusal ==
                if Stopped(old(events), run) then Some(RunStopped)
                else if Exhausted(wall) then Some(WallExhausted)
                else if Overspent(reservations, run, configs[run], now) then Some(RunBudgetExhausted)
                else None
      ensures events ==
                match refusal
                case Some(WallExhausted) => Next(old(events), run, Event("stopped", "WALL_BUDGET_EXHAUSTED"), now)
                case Some(RunBudgetExhausted) => Next(old(events), run, Event("stopped", "RUN_BUDGET_EXHAUSTED"), now)
                case _ => old(events)
    {
      if Stopped(events, run) { return Some(RunStopped); }
      PlainKinds();
      if Exhausted(wall) {
        Insert(run, Event("stopped", "WALL_BUDGET_EXHAUSTED"), now);
        return Some(WallExhausted);
      }
      if Overspent(reservations, run, configs[run], now) {
        Insert(run, Event("stopped", "RUN_BUDGET_EXHAUSTED"), now);
        return Some(RunBudgetExhausted);
      }
      return None;
    }

    /** Admits one invocation against every limit, or nothing. */
    method Reserve(run: string, q: Request, now: real) returns (outcome: Admission)
      requires Valid() && run in configs && forall i :: 0 <= i < |reservations| ==> reservations[i].id != q.id
      modifies this`events, this`reservations
      ensures Valid()
      ensures var refusal := Refuses(old(events), old(reservations), run, q, configs[run], now);
              outcome == if refusal.Some? then Refused(refusal.value)
                         else Admitted(SecondsGranted(old(reservations), run, q, configs[run], now))
      ensures events ==
                if outcome.Refused? then old(events)
                else old(events) + [NextRow(old(events), run, ReservedEntry(old(events), run, q, configs[run]), now)]
      ensures reservations ==
                if outcome.Refused? then old(reservations)
                else old(reservations) + [NewReservation(run, q, configs[run], now)]
    {
      var limits := configs[run];
      var refusal := Refuses(events, reservations, run, q, limits, now);
      if refusal.Some? { return Refused(refusal.value); }
      var entry := ReservedEntry(events, run, q, limits);
      var row := NextRow(events, run, entry, now);
      outcome := Admitted(SecondsGranted(reservations, run, q, limits, now));
      InsertKeepsLog(events, run, entry, now);
      AdmissionKeepsTable(events, reservations, configs, run, q, now, row);
      events, reservations := events + [row], reservations + [NewReservation(run, q, limits, now)];
    }

    /** One closing entry together with its row. */
    method Close(n: nat, entry: Record, closed: Reservation, now: real)
      requires Valid() && n < |reservations| && !reservations[n].settled && closed.settled
      requires closed.id == reservations[n].id && closed.run == reservations[n].run
      requires closed.admittedTokens == reservations[n].admittedTokens
      requires closed.admittedCost == reservations[n].admittedCost
      requires (entry.Settled? || entry.Recovered?) && entry.id == closed.id
      modifies this`events, this`reservations
      ensures Valid()
      ensures events == old(events) + [NextRow(old(events), closed.run, entry, now)]
      ensures reservations == old(reservations)[n := closed]
    {
      var row := NextRow(events, closed.run, entry, now);
      InsertKeepsLog(events, closed.run, entry, now);
      ClosingKeepsTable(events, reservations, configs, n, closed, row);
      events, reservations := events + [row], reservations[n := closed];
    }

    /** Closes an open reservation with what was measured; a repeated delivery changes nothing and a
        different one is refused. */
    method Settle(run: string, id: string, seconds: real, usage: Usage, now: real) returns (delivery: Delivery)
      requires Valid()
      modifies this`events, this`reservations
      ensures Valid()
      ensures delivery == DeliveryOf(old(events), old(reservations), run, id, seconds, usage)
      ensures events ==
                if delivery.Settles? then old(events) + [NextRow(old(events), run, Settled(id, seconds, usage), now)]
                else old(events)
      ensures var n := IndexOf(old(reservations), run, id);
              reservations ==
                if delivery.Settles? then old(reservations)[n := SettleRow(old(reservations)[n], seconds, usage)]
                else old(reservations)
    {
      delivery := DeliveryOf(events, reservations, run, id, seconds, usage);
      if delivery.Settles? {
        var n := IndexOf(reservations, run, id);
        Close(n, Settled(id, seconds, usage), SettleRow(reservations[n], seconds, usage), now);
      }
    }

    /** Row `i` of the table, as it was when recovery began. */
    method RecoverRowAt(i: nat, table: seq<Reservation>, run: string, now: real)
      requires Valid() && i < |table| == |reservations| && reservations[i] == table[i]
      modifies this`events, this`reservations
      ensures Valid()
      ensures var open := table[i].run == run && !table[i].settled;
              && reservations == (if open then old(reservations)[i := RecoverRow(table[i], now)] else old(reservations))
              && events ==
                  if open then Next(old(events), run, Recovered(table[i].id, ActiveSeconds(table[i], now)), now)
                  else old(events)
    {
      if table[i].run == run && !table[i].settled {
        Close(i, Recovered(table[i].id, ActiveSeconds(table[i], now)), RecoverRow(table[i], now), now);
      }
    }

    /** Closes every interrupted call of a run, keeping its charges and its invocation count. */
    method RecoverReservations(run: string, now: real)
      requires Valid()
      modifies this`events, this`reservations
      ensures Valid()
      ensures reservations == RecoverTable(old(reservations), |old(reservations)|, run, now)
      ensures events == RecoverEvents(old(events), old(reservations), |old(reservations)|, run, now)
    {
      var table := reservations;
      for i := 0 to |table|
        invariant Valid() && reservations == RecoverTable(table, i, run, now)
        invariant events == RecoverEvents(old(events), table, i, run, now)
      {
        RecoverStep(table, i, run, now);
        RecoverRowAt(i, table, run, now);
      }
    }
  }
}
