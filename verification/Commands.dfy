/** The bounded store of command snapshots of one Run: observations that never decide anything. The
    length of a snapshot's encoding is a parameter; every encoding takes at least the two bytes of
    an empty object. Redaction is not modelled. */
module Commands {
  import opened Models

  datatype Limits = Limits(commandBytes: nat, runBytes: nat, maxCommands: nat, retention: real)

  datatype Field = Command | Cwd | Stdout | Stderr | Combined

  datatype Phase = Started | Updated | Completed

  /** What a snapshot says, without the clocks of its reception. */
  datatype Content = Content(phase: Phase, status: Option<string>, exitCode: Option<int>, duration: Option<real>,
                             fields: map<Field, string>)

  datatype Event = Event(key: Option<Key>, content: Content, at: real, elapsed: real)

  datatype Text = Unavailable | Available(text: string) | Truncated(text: string)

  datatype Snapshot = Snapshot(
    startedAt: Option<real>, finishedAt: Option<real>, startElapsed: Option<real>, observed: Option<real>,
    provider: Option<real>, completed: bool, status: Option<string>, exitCode: Option<int>,
    digest: Option<Content>, fields: map<Field, Text>)

  datatype Row =
    | Kept(expires: real, body: Snapshot)
    | Expired
    | Purged

  type Rows = map<Key, Row>

  const FIELDS: set<Field> := {Command, Cwd, Stdout, Stderr, Combined}

  const NOTHING := Snapshot(None, None, None, None, None, false, None, None, None, map f | f in FIELDS :: Unavailable)

  // ---- sizes ----

  function Bytes(row: Row, encoded: Snapshot -> nat): nat {
    if row.Kept? then encoded(row.body) else 2
  }

  ghost function Total(rows: Rows, encoded: Snapshot -> nat): nat {
    if rows == map[] then 0
    else
      var k :| k in rows;
      Bytes(rows[k], encoded) + Total(rows - {k}, encoded)
  }

  lemma {:induction false} TotalWithout(rows: Rows, k: Key, encoded: Snapshot -> nat)
    requires k in rows
    ensures Total(rows, encoded) == Bytes(rows[k], encoded) + Total(rows - {k}, encoded)
    decreases |rows|
  {
    var j :| j in rows && Total(rows, encoded) == Bytes(rows[j], encoded) + Total(rows - {j}, encoded);
    if j != k {
      TotalWithout(rows - {j}, k, encoded);
      TotalWithout(rows - {k}, j, encoded);
      assert rows - {j} - {k} == rows - {k} - {j};
    }
  }

  lemma TotalAfter(rows: Rows, k: Key, row: Row, encoded: Snapshot -> nat)
    ensures Total(rows[k := row], encoded)
         == Total(rows, encoded) + Bytes(row, encoded) - if k in rows then Bytes(rows[k], encoded) else 0
  {
    var after := rows[k := row];
    TotalWithout(after, k, encoded);
    if k in rows {
      TotalWithout(rows, k, encoded);
      assert after - {k} == rows - {k};
    } else {
      assert after - {k} == rows;
    }
  }

  /** Emptying rows, whichever and whyever, never adds a byte. */
  lemma {:induction false} TotalShrinks(before: Rows, after: Rows, encoded: Snapshot -> nat)
    requires before.Keys == after.Keys
    requires forall k :: k in before ==> Bytes(after[k], encoded) <= Bytes(before[k], encoded)
    ensures Total(after, encoded) <= Total(before, encoded)
    decreases |before|
  {
    if after != map[] {
      var k :| k in after;
      TotalWithout(before, k, encoded);
      TotalWithout(after, k, encoded);
      TotalShrinks(before - {k}, after - {k}, encoded);
    } else {
      assert before == map[];
    }
  }

  // ---- the rules ----

  /** `expire`. */
  function AfterExpiry(rows: Rows, now: real): Rows {
    map k | k in rows :: if rows[k].Kept? && rows[k].expires <= now then Expired else rows[k]
  }

  /** `_field`: at most `limit` bytes of what was reported. */
  function Clip(text: string, limit: nat): Text {
    if |text| > limit then Truncated(text[..limit]) else Available(text)
  }

  function FieldOf(s: Snapshot, f: Field): Text {
    if f in s.fields then s.fields[f] else Unavailable
  }

  function Timed(last: Snapshot, event: Event): Snapshot {
    match event.content.phase
    case Started => last.(startedAt := Some(event.at), startElapsed := Some(event.elapsed))
    case Updated => last
    case Completed =>
      var ended := last.(finishedAt := Some(event.at), completed := true);
      if last.startElapsed.None? then ended
      else
        var span := event.elapsed - last.startElapsed.value;
        ended.(observed := Some(if span > 0.0 then span else 0.0))
  }

  /** The snapshot after one more event. */
  function Merge(last: Snapshot, event: Event, limits: Limits): Snapshot {
    var content := event.content;
    Timed(last, event).(
      status := content.status, exitCode := content.exitCode, digest := Some(content),
      provider := if content.duration.Some? then content.duration else last.provider,
      fields := map f | f in FIELDS ::
        if f in content.fields then Clip(content.fields[f], limits.commandBytes / 10) else FieldOf(last, f))
  }

  /** Correlation and exit information without the texts. */
  function Bare(s: Snapshot): Snapshot {
    s.(fields := map f | f in s.fields :: if s.fields[f].Unavailable? then Unavailable else Truncated(""))
  }

  datatype Reason = MissingId | CountLimit | ByteLimit

  datatype Verdict = Ignored | Omitted(reason: Reason) | Stored(row: Row)

  function Known(rows: Rows, key: Key): Option<Row> {
    if key in rows then Some(rows[key]) else None
  }

  /** Nothing further is recorded for a command whose row is gone or complete, that repeats the last
      event, or that starts a second time. */
  predicate Ignorable(row: Row, content: Content) {
    !row.Kept? || row.body.digest == Some(content) || row.body.completed
    || (content.phase == Started && row.body.startedAt.Some?)
  }

  function Fit(full: Snapshot, allowed: int, encoded: Snapshot -> nat): Option<Snapshot> {
    if encoded(full) <= allowed then Some(full)
    else if encoded(Bare(full)) <= allowed then Some(Bare(full))
    else None
  }

  function Allowed(limits: Limits, used: nat, previous: nat): int {
    var left := limits.runBytes - used + previous;
    if limits.commandBytes < left then limits.commandBytes else left
  }

  /** What `record` does with an event, given the rows that have not expired and their total size. */
  function Decide(rows: Rows, used: nat, purged: bool, event: Event, limits: Limits, encoded: Snapshot -> nat,
                  now: real): Verdict
  {
    if purged then Ignored
    else if event.key.None? then Omitted(MissingId)
    else
      match Known(rows, event.key.value)
      case None =>
        if |rows| >= limits.maxCommands then Omitted(CountLimit)
        else
          var body := Fit(Merge(NOTHING, event, limits), Allowed(limits, used, 0), encoded);
          if body.None? then Omitted(ByteLimit) else Stored(Kept(now + limits.retention, body.value))
      case Some(row) =>
        if Ignorable(row, event.content) then Ignored
        else
          var body := Fit(Merge(row.body, event, limits), Allowed(limits, used, encoded(row.body)), encoded);
          if body.None? then Omitted(ByteLimit) else Stored(row.(body := body.value))
  }

  /** The rows after an event is delivered. */
  ghost function Next(rows: Rows, purged: bool, event: Event, limits: Limits, encoded: Snapshot -> nat, now: real)
    : Rows
  {
    var current := AfterExpiry(rows, now);
    var verdict := Decide(current, Total(current, encoded), purged, event, limits, encoded, now);
    if verdict.Stored? && event.key.Some? then current[event.key.value := verdict.row] else current
  }

  // ---- what the rules keep ----

  ghost predicate Encodes(encoded: Snapshot -> nat) {
    forall s :: encoded(s) >= 2
  }

  predicate LimitsOk(limits: Limits) {
    2 <= limits.commandBytes <= limits.runBytes && limits.retention > 0.0
  }

  /** A stored snapshot tells one command's history: its end is set exactly when it completed, its
      duration exactly when its start was seen too, and every text is clipped. */
  predicate SnapshotOk(s: Snapshot, limits: Limits) {
    && (s.completed <==> s.finishedAt.Some?)
    && (s.startedAt.Some? <==> s.startElapsed.Some?)
    && (s.observed.Some? <==> s.completed && s.startElapsed.Some?)
    && (s.observed.Some? ==> s.observed.value >= 0.0)
    && forall f :: f in s.fields && !s.fields[f].Unavailable? ==> |s.fields[f].text| <= limits.commandBytes / 10
  }

  predicate RowOk(row: Row, limits: Limits) {
    row.Kept? ==> SnapshotOk(row.body, limits)
  }

  lemma NothingIsOk(limits: Limits)
    ensures SnapshotOk(NOTHING, limits) && !NOTHING.completed && NOTHING.startedAt.None?
  {
  }

  lemma MergeKeepsHistory(last: Snapshot, event: Event, limits: Limits)
    requires SnapshotOk(last, limits) && !last.completed
    requires event.content.phase == Started ==> last.startedAt.None?
    ensures SnapshotOk(Merge(last, event, limits), limits) && SnapshotOk(Bare(Merge(last, event, limits)), limits)
    ensures Merge(last, event, limits).completed <==> event.content.phase == Completed
    ensures last.startedAt.Some? ==> Merge(last, event, limits).startedAt == last.startedAt
  {
  }

  ghost predicate Bounded(rows: Rows, limits: Limits, encoded: Snapshot -> nat) {
    && |rows| <= limits.maxCommands
    && Total(rows, encoded) <= limits.runBytes
    && forall k :: k in rows ==> Bytes(rows[k], encoded) <= limits.commandBytes && RowOk(rows[k], limits)
  }

  /** What can become of rows: none is dropped, a row that is gone stays gone, its time is never put
      off, and a complete row never changes while it is kept. */
  ghost predicate Later(before: Rows, after: Rows) {
    forall k :: k in before ==>
      && k in after
      && (!before[k].Kept? ==> !after[k].Kept?)
      && (before[k].Kept? && after[k].Kept? ==>
            && after[k].expires == before[k].expires
            && (before[k].body.completed ==> after[k] == before[k]))
  }

  lemma LaterIsTransitive(a: Rows, b: Rows, c: Rows)
    requires Later(a, b) && Later(b, c)
    ensures Later(a, c)
  {
    forall k | k in a
      ensures k in c && (!a[k].Kept? ==> !c[k].Kept?)
      ensures a[k].Kept? && c[k].Kept? ==> c[k].expires == a[k].expires && (a[k].body.completed ==> c[k] == a[k])
    {
      assert k in b;
    }
  }

  lemma ExpiryKeepsBounds(rows: Rows, limits: Limits, encoded: Snapshot -> nat, now: real)
    requires Encodes(encoded) && LimitsOk(limits) && Bounded(rows, limits, encoded)
    ensures Bounded(AfterExpiry(rows, now), limits, encoded) && Later(rows, AfterExpiry(rows, now))
  {
    var after := AfterExpiry(rows, now);
    assert after.Keys == rows.Keys;
    MapSize(rows);
    MapSize(after);
    TotalShrinks(rows, after, encoded);
  }

  lemma MapSize(rows: Rows)
    ensures |rows| == |rows.Keys|
  {
  }

  /** A stored row fits: its own limit, the Run's and the number of rows. */
  lemma StoringKeepsBounds(rows: Rows, purged: bool, event: Event, limits: Limits, encoded: Snapshot -> nat, now: real)
    requires Bounded(rows, limits, encoded)
    requires Decide(rows, Total(rows, encoded), purged, event, limits, encoded, now).Stored?
    ensures var row := Decide(rows, Total(rows, encoded), purged, event, limits, encoded, now).row;
            && Bounded(rows[event.key.value := row], limits, encoded)
            && Later(rows, rows[event.key.value := row])
            && (row.Kept? && (event.key.value !in rows ==> row.expires == now + limits.retention))
  {
    hide SnapshotOk, Merge, Bare;
    var key := event.key.value;
    var row := Decide(rows, Total(rows, encoded), purged, event, limits, encoded, now).row;
    TotalAfter(rows, key, row, encoded);
    MapUpdateSize(rows, key, row);
    FitsIsAllowed(rows, event, limits, encoded);
    var body := if key in rows then rows[key].body else NOTHING;
    NothingIsOk(limits);
    MergeKeepsHistory(body, event, limits);
  }

  lemma FitsIsAllowed(rows: Rows, event: Event, limits: Limits, encoded: Snapshot -> nat)
    requires event.key.Some?
    ensures forall full: Snapshot, allowed: int :: Fit(full, allowed, encoded).Some? ==>
              encoded(Fit(full, allowed, encoded).value) <= allowed
  {
  }

  /** Every delivery keeps the store within its bounds and revives or rewrites nothing. */
  lemma NextKeepsBounds(rows: Rows, purged: bool, event: Event, limits: Limits, encoded: Snapshot -> nat, now: real)
    requires Encodes(encoded) && LimitsOk(limits) && Bounded(rows, limits, encoded)
    ensures Bounded(Next(rows, purged, event, limits, encoded, now), limits, encoded)
    ensures Later(rows, Next(rows, purged, event, limits, encoded, now))
  {
    var current := AfterExpiry(rows, now);
    ExpiryKeepsBounds(rows, limits, encoded, now);
    if Decide(current, Total(current, encoded), purged, event, limits, encoded, now).Stored? {
      StoringKeepsBounds(current, purged, event, limits, encoded, now);
      LaterIsTransitive(rows, current, Next(rows, purged, event, limits, encoded, now));
    }
  }

  /** Nothing is readable beyond its time. */
  lemma NothingOverdue(rows: Rows, purged: bool, event: Event, limits: Limits, encoded: Snapshot -> nat, now: real)
    requires LimitsOk(limits)
    ensures var after := Next(rows, purged, event, limits, encoded, now);
            forall k :: k in after && after[k].Kept? ==> after[k].expires > now
  {
  }

  /** A delivery that is repeated while nothing expires changes no row: always when it is repeated
      exactly, and also with other reception clocks unless it had not fitted. */
  lemma RedeliveryChangesNothing(rows: Rows, purged: bool, event: Event, again: Event, limits: Limits,
                                 encoded: Snapshot -> nat, now: real, later: real)
    requires again.key == event.key && again.content == event.content
    requires AfterExpiry(Next(rows, purged, event, limits, encoded, now), later)
          == Next(rows, purged, event, limits, encoded, now)
    requires var current := AfterExpiry(rows, now);
             again == event
             || Decide(current, Total(current, encoded), purged, event, limits, encoded, now) != Omitted(ByteLimit)
    ensures Next(Next(rows, purged, event, limits, encoded, now), purged, again, limits, encoded, later)
         == Next(rows, purged, event, limits, encoded, now)
  {
    var current := AfterExpiry(rows, now);
    var first := Decide(current, Total(current, encoded), purged, event, limits, encoded, now);
    if first.Stored? {
      StoredIsIgnorable(current, purged, event, limits, encoded, now);
    }
  }

  lemma StoredIsIgnorable(rows: Rows, purged: bool, event: Event, limits: Limits, encoded: Snapshot -> nat, now: real)
    requires Decide(rows, Total(rows, encoded), purged, event, limits, encoded, now).Stored?
    ensures event.key.Some? && !purged
    ensures Ignorable(Decide(rows, Total(rows, encoded), purged, event, limits, encoded, now).row, event.content)
  {
  }

  // ---- the store ----

  class Store {
    const enabled: bool
    const limits: Limits
    const encoded: Snapshot -> nat
    var rows: Rows
    var purged: bool
    var omitted: nat
    var omittedBy: map<Reason, nat>

    ghost predicate Valid()
      reads this
    {
      Encodes(encoded) && LimitsOk(limits) && Bounded(rows, limits, encoded)
      && (purged ==> forall k :: k in rows ==> !rows[k].Kept?)
      && omittedBy.Keys == {MissingId, CountLimit, ByteLimit}
      && omitted == omittedBy[MissingId] + omittedBy[CountLimit] + omittedBy[ByteLimit]
    }

    constructor (enabled: bool, limits: Limits, encoded: Snapshot -> nat)
      requires Encodes(encoded) && LimitsOk(limits)
      ensures Valid() && rows == map[] && !purged
      ensures this.enabled == enabled && this.limits == limits && this.encoded == encoded
    {
      this.enabled, this.limits, this.encoded := enabled, limits, encoded;
      rows, purged, omitted := map[], false, 0;
      omittedBy := map[MissingId := 0, CountLimit := 0, ByteLimit := 0];
    }

    /** The sum of the stored sizes. */
    method Used() returns (used: nat)
      ensures used == Total(rows, encoded)
    {
      used := 0;
      var remaining := rows;
      while remaining != map[]
        invariant used + Total(remaining, encoded) == Total(rows, encoded)
        decreases |remaining|
      {
        var k :| k in remaining;
        TotalWithout(remaining, k, encoded);
        used := used + Bytes(remaining[k], encoded);
        remaining := remaining - {k};
      }
    }

    method Expire(now: real)
      requires Valid()
      modifies this`rows
      ensures Valid() && rows == AfterExpiry(old(rows), now) && Later(old(rows), rows)
    {
      ExpiryKeepsBounds(rows, limits, encoded, now);
      rows := AfterExpiry(rows, now);
    }

    method Omit(reason: Reason)
      requires Valid()
      modifies this`omitted, this`omittedBy
      ensures Valid() && omitted == old(omitted) + 1
      ensures omittedBy == old(omittedBy)[reason := old(omittedBy)[reason] + 1]
    {
      omitted, omittedBy := omitted + 1, omittedBy[reason := omittedBy[reason] + 1];
    }

    /** What is to be done with an event once the overdue rows are gone. */
    method Judge(event: Event, now: real) returns (verdict: Verdict)
      ensures verdict == Decide(rows, Total(rows, encoded), purged, event, limits, encoded, now)
    {
      if purged { return Ignored; }
      if event.key.None? { return Omitted(MissingId); }
      var previous := Known(rows, event.key.value);
      if previous.None? && |rows| >= limits.maxCommands { return Omitted(CountLimit); }
      if previous.Some? && Ignorable(previous.value, event.content) { return Ignored; }
      var result := Merge(if previous.Some? then previous.value.body else NOTHING, event, limits);
      var used := Used();
      var allowed := Allowed(limits, used, if previous.Some? then encoded(previous.value.body) else 0);
      if encoded(result) > allowed {
        result := Bare(result);
      }
      if encoded(result) > allowed { return Omitted(ByteLimit); }
      return Stored(if previous.Some? then previous.value.(body := result) else Kept(now + limits.retention, result));
    }

    /** `record`: the rows become what the rules say, within the bounds, and what was gone or complete
        stays so. */
    method Record(event: Event, now: real)
      requires Valid()
      modifies this`rows, this`omitted, this`omittedBy
      ensures Valid() && Later(old(rows), rows)
      ensures rows == if enabled then Next(old(rows), purged, event, limits, encoded, now) else old(rows)
    {
      if !enabled { return; }
      NextKeepsBounds(rows, purged, event, limits, encoded, now);
      Expire(now);
      var verdict := Judge(event, now);
      match verdict {
        case Ignored =>
        case Omitted(reason) => Omit(reason);
        case Stored(row) => rows := rows[event.key.value := row];
      }
    }

    /** `purge`. */
    method Purge() returns (count: nat)
      requires Valid()
      modifies this`rows, this`purged
      ensures Valid() && Later(old(rows), rows) && purged
      ensures rows.Keys == old(rows).Keys && forall k :: k in rows ==> rows[k] == Row.Purged
      ensures count == |set k | k in old(rows) && old(rows)[k].Kept?|
    {
      count := |set k | k in rows && rows[k].Kept?|;
      var after: Rows := map k | k in rows :: Row.Purged;
      assert after.Keys == rows.Keys;
      TotalShrinks(rows, after, encoded);
      rows, purged := after, true;
    }
  }

  datatype Op = Deliver(event: Event, now: real) | Look(now: real) | PurgeAll

  /** Any order of deliveries, duplicates, readings and purges. */
  method Serve(store: Store, ops: seq<Op>)
    requires store.Valid()
    modifies store
    ensures store.Valid() && Later(old(store.rows), store.rows)
    ensures old(store.purged) ==> store.purged
  {
    for i := 0 to |ops|
      invariant store.Valid() && Later(old(store.rows), store.rows)
      invariant old(store.purged) ==> store.purged
    {
      ghost var before := store.rows;
      match ops[i] {
        case Deliver(event, now) => store.Record(event, now);
        case Look(now) => store.Expire(now);
        case PurgeAll => var count := store.Purge();
      }
      LaterIsTransitive(old(store.rows), before, store.rows);
    }
  }
}
