/** The shared journal: hash chains of several runs interleaved in one table, the decision fence,
    and reservations that are admitted, settled and recovered in single transactions. Every method
    that changes state is one transaction, so any interleaving of threads is a sequence of calls. */
module Tables {
  import opened Models

  // ---- rows and their chain ----

  datatype Usage = Usage(tokens: Option<nat>, cost: Option<real>)

  /** What a row says. The bookkeeping entries are written by their own methods only. */
  datatype Record =
    | Created(contractVersion: string)
    | Reserved(id: string, tokens: nat, cost: real, callKey: Option<string>, ordinal: nat)
    | Settled(id: string, seconds: real, usage: Usage)
    | Recovered(id: string, seconds: real)
    | Event(kind: string, body: string)

  /** SHA-256 of run, kind, body, time and the previous digest, taken as injective and nonempty. */
  datatype Digest = Genesis | Sealed(run: string, entry: Record, at: real, previous: Digest)

  datatype Row = Row(run: string, entry: Record, at: real, previous: Digest, digest: Digest)

  const VERSION := "stage-contract-7"

  const DECISIONS: set<string> := {
    "goal", "plan", "accepted", "completed", "stage_result", "attempt_started", "worker_selected",
    "worker_result", "candidate", "verification", "authority_applied", "authority_approved",
    "clarification_wait", "readiness", "preflight", "direct_started", "direct_fallback"}

  const FENCES: set<string> := {"stopped", "authority_revocation_requested"}

  predicate IsFence(e: Record) {
    e.Event? && e.kind in FENCES
  }

  /** Entries that advance execution authority. */
  predicate IsGuarded(e: Record) {
    e.Reserved? || (e.Event? && e.kind in DECISIONS)
  }

  predicate IsFinal(e: Record) {
    e.Event? && (e.kind == "accepted" || e.kind == "completed")
  }

  /** The rows of one run, in insertion order. */
  function RowsOf(events: seq<Row>, run: string): seq<Row> {
    if events == [] then []
    else
      var last := events[|events| - 1];
      RowsOf(events[..|events| - 1], run) + if last.run == run then [last] else []
  }

  function Tip(rows: seq<Row>): Digest {
    if rows == [] then Genesis else rows[|rows| - 1].digest
  }

  /** Each row names its predecessor's digest and carries its own. */
  predicate ChainOk(run: string, rows: seq<Row>) {
    rows == [] || (
      var front, last := rows[..|rows| - 1], rows[|rows| - 1];
      && ChainOk(run, front)
      && last.previous == Tip(front)
      && last.digest == Sealed(run, last.entry, last.at, last.previous))
  }

  lemma RowsOfInsert(events: seq<Row>, row: Row, run: string)
    ensures RowsOf(events + [row], run) == RowsOf(events, run) + if row.run == run then [row] else []
  {
    assert (events + [row])[..|events|] == events;
  }

  lemma {:induction false} RowsOfRun(events: seq<Row>, run: string)
    ensures forall r :: r in RowsOf(events, run) <==> r in events && r.run == run
  {
    if events != [] {
      var front, last := events[..|events| - 1], events[|events| - 1];
      assert events == front + [last];
      RowsOfRun(front, run);
    }
  }

  /** The row `_event` inserts for a run. */
  function NextRow(events: seq<Row>, run: string, entry: Record, now: real): Row {
    var previous := Tip(RowsOf(events, run));
    Row(run, entry, now, previous, Sealed(run, entry, now, previous))
  }

  predicate ChainsOk(events: seq<Row>, run: string) {
    ChainOk(run, RowsOf(events, run))
  }

  /** Inserting a row of any run keeps the chain of every run. */
  lemma InsertKeepsChains(events: seq<Row>, run: string, entry: Record, now: real, other: string)
    requires ChainsOk(events, other)
    ensures ChainsOk(events + [NextRow(events, run, entry, now)], other)
  {
    var row := NextRow(events, run, entry, now);
    RowsOfInsert(events, row, other);
    assert RowsOf(events, other) + [] == RowsOf(events, other);
    if other == run {
      var rows := RowsOf(events, run);
      assert (rows + [row])[..|rows|] == rows;
    }
  }

  /** The last digest of a verifying history determines the whole history, its length included. */
  lemma {:induction false} SameTipSameHistory(run: string, a: seq<Row>, b: seq<Row>)
    requires ChainOk(run, a) && ChainOk(run, b) && Tip(a) == Tip(b)
    requires forall r :: r in a || r in b ==> r.run == run
    ensures a == b
    decreases |a|
  {
    if a != [] && b != [] {
      var front, last := a[..|a| - 1], a[|a| - 1];
      var front', last' := b[..|b| - 1], b[|b| - 1];
      assert last in a && last' in b;
      SameTipSameHistory(run, front, front');
      assert a == front + [last] && b == front' + [last'];
    }
  }

  /** The chain alone cannot show that its tail was removed: every prefix verifies as well. */
  lemma {:induction false} PrefixVerifies(run: string, rows: seq<Row>, n: nat)
    requires ChainOk(run, rows) && n <= |rows|
    ensures ChainOk(run, rows[..n])
    decreases |rows|
  {
    if n == |rows| {
      assert rows[..n] == rows;
    } else {
      assert rows[..|rows| - 1][..n] == rows[..n];
      PrefixVerifies(run, rows[..|rows| - 1], n);
    }
  }

  // ---- the fence and the distinct final decisions ----

  predicate Fenced(events: seq<Row>, run: string) {
    exists r | r in events :: r.run == run && IsFence(r.entry)
  }

  ghost predicate FenceOk(events: seq<Row>) {
    forall i, j :: 0 <= i < j < |events| && events[i].run == events[j].run && IsFence(events[i].entry) ==>
      !IsGuarded(events[j].entry)
  }

  ghost predicate FinalsDistinct(events: seq<Row>) {
    forall i, j :: 0 <= i < j < |events| && events[i].run == events[j].run && IsFinal(events[i].entry) ==>
      events[i].entry != events[j].entry
  }

  predicate OnRecord(events: seq<Row>, run: string, entry: Record) {
    exists r | r in events :: r.run == run && r.entry == entry
  }

  lemma InsertKeepsFence(events: seq<Row>, row: Row)
    requires FenceOk(events) && (IsGuarded(row.entry) ==> !Fenced(events, row.run))
    ensures FenceOk(events + [row])
  {
    var after := events + [row];
    forall i, j | 0 <= i < j < |after| && after[i].run == after[j].run && IsFence(after[i].entry)
      ensures !IsGuarded(after[j].entry)
    {
      assert events[i] in events;
    }
  }

  lemma InsertKeepsFinals(events: seq<Row>, row: Row)
    requires FinalsDistinct(events) && (IsFinal(row.entry) ==> !OnRecord(events, row.run, row.entry))
    ensures FinalsDistinct(events + [row])
  {
    var after := events + [row];
    forall i, j | 0 <= i < j < |after| && after[i].run == after[j].run && IsFinal(after[i].entry)
      ensures after[i].entry != after[j].entry
    {
      assert events[i] in events;
    }
  }

  // ---- call ordinals ----

  function Calls(events: seq<Row>, run: string, key: string): nat {
    if events == [] then 0
    else
      var last := events[|events| - 1];
      Calls(events[..|events| - 1], run, key)
      + if last.run == run && last.entry.Reserved? && last.entry.callKey == Some(key) then 1 else 0
  }

  /** Each reservation under a call key carries the number of earlier ones: 0, 1, 2, ... */
  ghost predicate OrdinalsOk(events: seq<Row>) {
    forall j :: 0 <= j < |events| && events[j].entry.Reserved? && events[j].entry.callKey.Some? ==>
      events[j].entry.ordinal == Calls(events[..j], events[j].run, events[j].entry.callKey.value)
  }

  lemma InsertKeepsOrdinals(events: seq<Row>, row: Row)
    requires OrdinalsOk(events)
    requires row.entry.Reserved? && row.entry.callKey.Some? ==>
               row.entry.ordinal == Calls(events, row.run, row.entry.callKey.value)
    ensures OrdinalsOk(events + [row])
  {
    var after := events + [row];
    assert after[..|events|] == events;
    forall j | 0 <= j < |events| ensures after[..j] == events[..j] {
    }
  }

  lemma {:induction false} CallsGrow(events: seq<Row>, run: string, key: string, n: nat)
    requires n <= |events|
    ensures Calls(events[..n], run, key) <= Calls(events, run, key)
    decreases |events|
  {
    if n == |events| {
      assert events[..n] == events;
    } else {
      assert events[..|events| - 1][..n] == events[..n];
      CallsGrow(events[..|events| - 1], run, key, n);
    }
  }

  /** Two reservations under one key never share an ordinal, and later ones have larger ordinals. */
  lemma OrdinalsIncrease(events: seq<Row>, i: nat, j: nat)
    requires OrdinalsOk(events) && i < j < |events| && events[i].run == events[j].run
    requires events[i].entry.Reserved? && events[j].entry.Reserved?
    requires events[i].entry.callKey.Some? && events[i].entry.callKey == events[j].entry.callKey
    ensures events[i].entry.ordinal < events[j].entry.ordinal
  {
    var run, key := events[i].run, events[i].entry.callKey.value;
    var upto := events[..i + 1];
    assert upto[..i] == events[..i];
    assert events[..j][..i + 1] == upto;
    CallsGrow(events[..j], run, key, i + 1);
  }

  /** If every call under a key was admitted below `limit`, there are at most `limit` of them. */
  lemma {:induction false} CallsBounded(events: seq<Row>, run: string, key: string, limit: nat)
    requires OrdinalsOk(events)
    requires forall r :: r in events && r.run == run && r.entry.Reserved? && r.entry.callKey == Some(key) ==>
               r.entry.ordinal < limit
    ensures Calls(events, run, key) <= limit
  {
    if events != [] {
      var front, last := events[..|events| - 1], events[|events| - 1];
      assert events == front + [last];
      assert forall j :: 0 <= j < |front| ==> front[j] == events[j] && front[..j] == events[..j];
      CallsBounded(front, run, key, limit);
      assert last in events;
    }
  }

  // ---- reservations ----

  datatype Limits = Limits(
    attempts: nat, tokens: Option<nat>, cost: Option<real>, activeSeconds: Option<real>,
    invocationSeconds: Option<real>, reservationTokens: nat, reservationCost: real)

  /** A row of the reservations table, with the amounts its admission was charged. */
  datatype Reservation = Reservation(
    id: string, run: string, started: real, seconds: real, tokens: nat, cost: real, settled: bool,
    admittedTokens: nat, admittedCost: real)

  /** Sum of a quantity over the reservations of a run. */
  function Total(table: seq<Reservation>, run: string, of: Reservation -> real): real {
    if table == [] then 0.0
    else
      var last := table[|table| - 1];
      Total(table[..|table| - 1], run, of) + if last.run == run then of(last) else 0.0
  }

  function Count(table: seq<Reservation>, run: string): nat {
    if table == [] then 0
    else Count(table[..|table| - 1], run) + if table[|table| - 1].run == run then 1 else 0
  }

  lemma TotalInsert(table: seq<Reservation>, r: Reservation, run: string, of: Reservation -> real)
    ensures Total(table + [r], run, of) == Total(table, run, of) + if r.run == run then of(r) else 0.0
    ensures Count(table + [r], run) == Count(table, run) + if r.run == run then 1 else 0
  {
    assert (table + [r])[..|table|] == table;
  }

  lemma {:induction false} TotalUpdate(table: seq<Reservation>, i: nat, r: Reservation, run: string,
                                       of: Reservation -> real)
    requires i < |table| && r.run == table[i].run
    ensures Total(table[i := r], run, of) ==
              Total(table, run, of) + if r.run == run then of(r) - of(table[i]) else 0.0
    ensures Count(table[i := r], run) == Count(table, run)
  {
    var front, last := table[..|table| - 1], table[|table| - 1];
    var after := table[i := r];
    if i == |front| {
      assert after[..|front|] == front;
    } else {
      assert after[..|front|] == front[i := r];
      TotalUpdate(front, i, r, run, of);
    }
  }

  function Tokens(r: Reservation): real {
    r.tokens as real
  }

  function Cost(r: Reservation): real {
    r.cost
  }

  function Least(a: real, b: real): real {
    if a <= b then a else b
  }

  /** What is charged without the part by which a settlement exceeded its admission. */
  function TokensWithinAdmission(r: Reservation): real {
    Least(r.tokens as real, r.admittedTokens as real)
  }

  function CostWithinAdmission(r: Reservation): real {
    Least(r.cost, r.admittedCost)
  }

  function TokenOverrun(r: Reservation): real {
    if r.tokens > r.admittedTokens then (r.tokens - r.admittedTokens) as real else 0.0
  }

  function CostOverrun(r: Reservation): real {
    if r.cost > r.admittedCost then r.cost - r.admittedCost else 0.0
  }

  lemma {:induction false} ChargesSplit(table: seq<Reservation>, run: string)
    ensures Total(table, run, Tokens) == Total(table, run, TokensWithinAdmission) + Total(table, run, TokenOverrun)
    ensures Total(table, run, Cost) == Total(table, run, CostWithinAdmission) + Total(table, run, CostOverrun)
    ensures Total(table, run, TokenOverrun) >= 0.0 && Total(table, run, CostOverrun) >= 0.0
  {
    if table != [] {
      ChargesSplit(table[..|table| - 1], run);
    }
  }

  /** Admissions never exceed the limits of the run; only measured overruns can come on top. */
  predicate WithinLimits(table: seq<Reservation>, run: string, limits: Limits) {
    && Count(table, run) <= limits.attempts
    && (limits.tokens.Some? ==> Total(table, run, TokensWithinAdmission) <= limits.tokens.value as real)
    && (limits.cost.Some? ==> Total(table, run, CostWithinAdmission) <= limits.cost.value)
  }

  /** Charged tokens and cost stay below the limit plus the sum of overruns. */
  lemma Conservation(table: seq<Reservation>, run: string, limits: Limits)
    requires WithinLimits(table, run, limits)
    ensures Count(table, run) <= limits.attempts
    ensures limits.tokens.Some? ==>
              Total(table, run, Tokens) <= limits.tokens.value as real + Total(table, run, TokenOverrun)
    ensures limits.cost.Some? ==> Total(table, run, Cost) <= limits.cost.value + Total(table, run, CostOverrun)
  {
    ChargesSplit(table, run);
  }

  // ---- closings ----

  predicate Closes(r: Row, run: string, id: string) {
    r.run == run && ((r.entry.Settled? && r.entry.id == id) || (r.entry.Recovered? && r.entry.id == id))
  }

  function Closings(events: seq<Row>, run: string, id: string): nat {
    if events == [] then 0
    else Closings(events[..|events| - 1], run, id) + if Closes(events[|events| - 1], run, id) then 1 else 0
  }

  lemma ClosingsInsert(events: seq<Row>, row: Row, run: string, id: string)
    ensures Closings(events + [row], run, id) == Closings(events, run, id) + if Closes(row, run, id) then 1 else 0
  {
    assert (events + [row])[..|events|] == events;
  }

  ghost predicate UniqueReservations(table: seq<Reservation>) {
    forall i, j :: 0 <= i < j < |table| ==> table[i].id != table[j].id
  }

  /** A reservation is closed exactly once, by settlement or recovery, and open ones not at all. */
  ghost predicate ClosedOnce(events: seq<Row>, table: seq<Reservation>) {
    forall i :: 0 <= i < |table| ==>
      Closings(events, table[i].run, table[i].id) == if table[i].settled then 1 else 0
  }

  ghost predicate NoStrayClosings(events: seq<Row>, table: seq<Reservation>) {
    forall r :: r in events && (r.entry.Settled? || r.entry.Recovered?) ==>
      exists i :: 0 <= i < |table| && table[i].id == r.entry.id && table[i].run == r.run
  }

  lemma {:induction false} NoClosings(events: seq<Row>, run: string, id: string)
    requires forall r :: r in events ==> !Closes(r, run, id)
    ensures Closings(events, run, id) == 0
  {
    if events != [] {
      var front, last := events[..|events| - 1], events[|events| - 1];
      assert events == front + [last] && last in events;
      NoClosings(front, run, id);
    }
  }
}
