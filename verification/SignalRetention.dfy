/** Signal retention: every signal gets an expiry once, and purges work through the due ones. */
module SignalRetention {
  import opened Common
  import opened EarliestFirst

  /** `override` fields hold a value only when they are integers. */
  datatype Signal = Signal(
    eventId: string, roomId: string, timestamp: Option<int>, matrixOverride: Option<int>, plainOverride: Option<int>)

  function ConfiguredTtl(hours: int): (ttl: int)
    ensures 24 <= ttl <= 72
  {
    Max(24, Min(72, hours))
  }

  function TtlHours(s: Signal, configured: int): int {
    var override := if s.matrixOverride.Some? then s.matrixOverride else s.plainOverride;
    if override.Some? && override.value > 0 then Max(1, Min(72, override.value / 3600)) else ConfiguredTtl(configured)
  }

  function TimestampOf(s: Signal, now: int): int { if s.timestamp.Some? then s.timestamp.value else now }

  /** Between one and 72 hours after the signal, whatever the signal or the config asks for. */
  function ExpiryOf(s: Signal, configured: int, now: int): (at: int)
    ensures TimestampOf(s, now) + HOUR_MS <= at <= TimestampOf(s, now) + 72 * HOUR_MS
  {
    TimestampOf(s, now) + TtlHours(s, configured) * HOUR_MS
  }

  /** A signal's own lifetime counts when it is a positive number of seconds, the field with the
      prefix first: whole hours, at least one and at most 72. Otherwise the configured one does:
      at least 24 hours and at most 72. */
  lemma LifetimeIs(s: Signal, configured: int, now: int)
    ensures var asked := if s.matrixOverride.Some? then s.matrixOverride else s.plainOverride;
            var sent := if s.timestamp.Some? then s.timestamp.value else now;
            var hours := (ExpiryOf(s, configured, now) - sent) / 3600000;
            && ExpiryOf(s, configured, now) == sent + hours * 3600000
            && (asked.Some? && asked.value > 0 ==>
                  && (asked.value < 7200 ==> hours == 1)
                  && (7200 <= asked.value < 72 * 3600 ==> hours * 3600 <= asked.value < (hours + 1) * 3600)
                  && (asked.value >= 72 * 3600 ==> hours == 72))
            && (asked.None? || asked.value <= 0 ==>
                  hours == if configured < 24 then 24 else if configured > 72 then 72 else configured)
  {}

  datatype Row = Row(roomId: string, expiresAt: int, purgedAt: Option<int>)
  type Table = map<string, Row>

  function Insert(rows: Table, id: string, row: Row): Table { if id in rows then rows else rows[id := row] }

  /** The expiry of every row that is due and not yet purged. */
  function Due(rows: Table, now: int): map<string, int> {
    map id | id in rows && rows[id].purgedAt.None? && rows[id].expiresAt <= now :: rows[id].expiresAt
  }

  function Marked(rows: Table, ids: set<string>, now: int): Table {
    map id | id in rows :: if id in ids then rows[id].(purgedAt := Some(now)) else rows[id]
  }

  /** A row is due when it has expired and has not been purged. */
  lemma DueIff(rows: Table, now: int, id: string)
    ensures id in Due(rows, now) <==> id in rows && rows[id].purgedAt == None && now >= rows[id].expiresAt
    ensures id in Due(rows, now) ==> Due(rows, now)[id] == rows[id].expiresAt
  {}

  /** A signal without a row was never due for purging. */
  predicate Retrievable(rows: Table, id: string) { id in rows ==> rows[id].purgedAt.None? }

  /** What a purge reports of a row. */
  datatype Tombstone = Tombstone(eventId: string, roomId: string, expiresAt: int, purgedAt: int)

  predicate Reports(t: Tombstone, row: Row, now: int) {
    t.roomId == row.roomId && t.expiresAt == row.expiresAt && t.purgedAt == now
  }

  function Ids(ts: seq<Tombstone>): seq<string> {
    seq(|ts|, i requires 0 <= i < |ts| => ts[i].eventId)
  }

  predicate AllReported(ts: seq<Tombstone>, rows: Table, now: int) {
    forall t <- ts :: t.eventId in rows && Reports(t, rows[t.eventId], now)
  }

  lemma MarkedNext(rows: Table, ids: set<string>, id: string, now: int)
    requires id in rows
    ensures var marked := Marked(rows, ids, now);
            Marked(rows, ids + {id}, now) == marked[id := marked[id].(purgedAt := Some(now))]
  {
  }

  class SignalRetentionStore {
    const ttlHours: int
    const batchSize: int
    var rows: Table

    constructor (ttlHours: int, batchSize: int)
      ensures this.ttlHours == ttlHours && this.batchSize == batchSize && rows == map[]
    {
      this.ttlHours, this.batchSize, rows := ttlHours, batchSize, map[];
    }

    method OnNewSignal(s: Signal, now: int)
      modifies this
      ensures rows == Insert(old(rows), s.eventId, Row(s.roomId, ExpiryOf(s, ttlHours, now), None))
    {
      if s.eventId !in rows {
        rows := rows[s.eventId := Row(s.roomId, ExpiryOf(s, ttlHours, now), None)];
      }
    }

    method PurgeRow(id: string, now: int) returns (t: Tombstone)
      requires id in rows
      modifies this
      ensures rows == old(rows)[id := old(rows)[id].(purgedAt := Some(now))]
      ensures t.eventId == id && Reports(t, old(rows)[id], now)
    {
      t := Tombstone(id, rows[id].roomId, rows[id].expiresAt, now);
      rows := rows[id := rows[id].(purgedAt := Some(now))];
    }

    /** Marks one batch as purged and reports its rows, in order of expiry. */
    method RunSignalPurge(now: int) returns (purged: seq<Tombstone>)
      modifies this
      ensures IsBatch(Due(old(rows), now), batchSize, Ids(purged))
      ensures rows == Marked(old(rows), Elements(Ids(purged)), now)
      ensures AllReported(purged, old(rows), now)
    {
      var due := SelectEarliest(Due(rows, now), batchSize);
      assert Elements(due) <= rows.Keys;
      purged := MarkAll(due, now);
    }

    method MarkAll(due: seq<string>, now: int) returns (purged: seq<Tombstone>)
      requires Elements(due) <= rows.Keys
      modifies this
      ensures rows == Marked(old(rows), Elements(due), now)
      ensures Ids(purged) == due && AllReported(purged, old(rows), now)
    {
      ghost var was := rows;
      purged := [];
      for i := 0 to |due|
        invariant rows == Marked(was, Elements(due[..i]), now)
        invariant Ids(purged) == due[..i] && AllReported(purged, was, now)
      {
        assert due[i] in Elements(due);
        ElementsNext(due, i);
        MarkedNext(was, Elements(due[..i]), due[i], now);
        var t := PurgeRow(due[i], now);
        purged := purged + [t];
      }
      assert due[..|due|] == due;
    }

    method IsRetrievable(eventId: string) returns (ok: bool)
      ensures ok <==> Retrievable(rows, eventId)
    {
      ok := true;
      if eventId in rows { ok := rows[eventId].purgedAt.None?; }
    }
  }

  // -------------------------------------------------------------------------- runs

  datatype Step = Arrive(signal: Signal, now: int) | Purge(now: int, ids: seq<string>)

  ghost predicate Takes(rows: Table, step: Step, ttlHours: int, limit: int, after: Table) {
    match step
    case Arrive(s, now) => after == Insert(rows, s.eventId, Row(s.roomId, ExpiryOf(s, ttlHours, now), None))
    case Purge(now, ids) => IsBatch(Due(rows, now), limit, ids) && after == Marked(rows, Elements(ids), now)
  }

  /** A run of the store: `tables[i + 1]` is what step `i` makes of `tables[i]`. */
  ghost predicate IsRun(tables: seq<Table>, steps: seq<Step>, ttlHours: int, limit: int) {
    && |tables| == |steps| + 1 && tables[0] == map[]
    && forall i | 0 <= i < |steps| :: Takes(tables[i], steps[i], ttlHours, limit, tables[i + 1])
  }

  /** A later row of the same signal: expiry and room as they were, a purge mark kept as it
      was, and a new one only once the row had expired. */
  predicate Ages(before: Row, after: Row) {
    && after.roomId == before.roomId && after.expiresAt == before.expiresAt
    && (before.purgedAt.Some? ==> after.purgedAt == before.purgedAt)
    && (before.purgedAt.None? && after.purgedAt.Some? ==> before.expiresAt <= after.purgedAt.value)
  }

  /** Over every run an expiry is never rewritten, and a row is purged at most once and
      never before it expires. */
  lemma {:induction false} RowsOnlyAge(tables: seq<Table>, steps: seq<Step>, ttlHours: int, limit: int, m: nat, n: nat, id: string)
    requires IsRun(tables, steps, ttlHours, limit) && m <= n <= |steps| && id in tables[m]
    ensures id in tables[n] && Ages(tables[m][id], tables[n][id])
  {
    if m < n {
      RowsOnlyAge(tables, steps, ttlHours, limit, m, n - 1, id);
      assert Takes(tables[n - 1], steps[n - 1], ttlHours, limit, tables[n]);
      if steps[n - 1].Purge? && id in Elements(steps[n - 1].ids) {
        assert id in Due(tables[n - 1], steps[n - 1].now);
      }
    }
  }

  lemma {:induction false} PurgedIsMarked(tables: seq<Table>, steps: seq<Step>, ttlHours: int, limit: int, i: nat, id: string)
    requires IsRun(tables, steps, ttlHours, limit) && i < |steps| && steps[i].Purge? && id in Elements(steps[i].ids)
    ensures id in tables[i] && tables[i][id].purgedAt.None? && tables[i][id].expiresAt <= steps[i].now
    ensures id in tables[i + 1] && tables[i + 1][id].purgedAt == Some(steps[i].now)
  {
    assert Takes(tables[i], steps[i], ttlHours, limit, tables[i + 1]);
    assert id in Due(tables[i], steps[i].now);
  }

  /** No signal is reported by two purges. */
  lemma PurgedOnce(tables: seq<Table>, steps: seq<Step>, ttlHours: int, limit: int, i: nat, j: nat, id: string)
    requires IsRun(tables, steps, ttlHours, limit) && i < j < |steps| && steps[i].Purge? && steps[j].Purge?
    requires id in Elements(steps[i].ids)
    ensures id !in Elements(steps[j].ids)
  {
    PurgedIsMarked(tables, steps, ttlHours, limit, i, id);
    RowsOnlyAge(tables, steps, ttlHours, limit, i + 1, j, id);
    if id in Elements(steps[j].ids) { PurgedIsMarked(tables, steps, ttlHours, limit, j, id); }
  }

  predicate ReportedBefore(steps: seq<Step>, n: nat, id: string)
    requires n <= |steps|
  {
    exists i | 0 <= i < n :: steps[i].Purge? && id in Elements(steps[i].ids)
  }

  /** Over every run a signal can be retrieved until a purge reports it, and never again. */
  lemma {:induction false} RetrievableUntilReported(tables: seq<Table>, steps: seq<Step>, ttlHours: int, limit: int, n: nat, id: string)
    requires IsRun(tables, steps, ttlHours, limit) && n <= |steps|
    ensures Retrievable(tables[n], id) <==> !ReportedBefore(steps, n, id)
  {
    if n > 0 {
      RetrievableUntilReported(tables, steps, ttlHours, limit, n - 1, id);
      assert Takes(tables[n - 1], steps[n - 1], ttlHours, limit, tables[n]);
      if steps[n - 1].Purge? && id in Elements(steps[n - 1].ids) {
        PurgedIsMarked(tables, steps, ttlHours, limit, n - 1, id);
      } else {
        assert Retrievable(tables[n], id) <==> Retrievable(tables[n - 1], id);
        assert ReportedBefore(steps, n, id) <==> ReportedBefore(steps, n - 1, id);
      }
    }
  }

  /** Every row in every table of a run got its expiry from its signal: 1 to 72 hours on. */
  lemma {:induction false} ExpiryComesFromSignal(tables: seq<Table>, steps: seq<Step>, ttlHours: int, limit: int, n: nat, id: string)
    returns (k: nat)
    requires IsRun(tables, steps, ttlHours, limit) && n <= |steps| && id in tables[n]
    ensures k < n && steps[k].Arrive? && steps[k].signal.eventId == id
    ensures var at := TimestampOf(steps[k].signal, steps[k].now);
            at + HOUR_MS <= tables[n][id].expiresAt <= at + 72 * HOUR_MS
  {
    assert Takes(tables[n - 1], steps[n - 1], ttlHours, limit, tables[n]);
    if id in tables[n - 1] {
      k := ExpiryComesFromSignal(tables, steps, ttlHours, limit, n - 1, id);
      RowsOnlyAge(tables, steps, ttlHours, limit, n - 1, n, id);
    } else {
      k := n - 1;
    }
  }

  function DueCount(rows: Table, now: int): nat { |Due(rows, now).Keys| }

  lemma PurgeShrinksDue(rows: Table, now: int, limit: int, ids: seq<string>)
    requires IsBatch(Due(rows, now), limit, ids)
    ensures DueCount(Marked(rows, Elements(ids), now), now) == DueCount(rows, now) - Taken(DueCount(rows, now), limit)
  {
    DistinctLength(ids);
    assert Due(Marked(rows, Elements(ids), now), now).Keys == Due(rows, now).Keys - Elements(ids);
  }

  ghost predicate PurgesInto(rows: Table, now: int, limit: int, after: Table) {
    exists ids :: IsBatch(Due(rows, now), limit, ids) && after == Marked(rows, Elements(ids), now)
  }

  /** Each purge takes a full batch off the due rows until none is left. */
  lemma {:induction false} PurgesCount(tables: seq<Table>, now: int, limit: int, k: nat)
    requires limit >= 1 && k < |tables|
    requires forall i | 0 <= i < |tables| - 1 :: PurgesInto(tables[i], now, limit, tables[i + 1])
    ensures DueCount(tables[k], now) == Max(0, DueCount(tables[0], now) - k * limit)
  {
    if k > 0 {
      PurgesCount(tables, now, limit, k - 1);
      assert PurgesInto(tables[k - 1], now, limit, tables[k - 1 + 1]);
      var ids :| IsBatch(Due(tables[k - 1], now), limit, ids) && tables[k] == Marked(tables[k - 1], Elements(ids), now);
      PurgeShrinksDue(tables[k - 1], now, limit, ids);
      assert (k - 1) * limit + limit == k * limit;
    }
  }

  /** `n` due rows are gone after `k` purges exactly when `k` is at least ceil(n / limit). */
  lemma PurgesDrain(tables: seq<Table>, now: int, limit: int, k: nat)
    requires limit >= 1 && k < |tables|
    requires forall i | 0 <= i < |tables| - 1 :: PurgesInto(tables[i], now, limit, tables[i + 1])
    ensures Due(tables[k], now) == map[] <==> (DueCount(tables[0], now) + limit - 1) / limit <= k
  {
    PurgesCount(tables, now, limit, k);
    CeilingCovers(DueCount(tables[0], now), limit, k);
    assert DueCount(tables[k], now) == 0 <==> Due(tables[k], now).Keys == {};
    assert Due(tables[k], now).Keys == {} <==> Due(tables[k], now) == map[];
  }

  lemma CeilingCovers(n: nat, b: int, k: nat)
    requires b >= 1
    ensures (n + b - 1) / b <= k <==> n <= k * b
  {
    var q, r := (n + b - 1) / b, (n + b - 1) % b;
    assert n + b - 1 == q * b + r;
    if q <= k {
      assert q * b <= k * b;
    } else {
      assert q * b >= (k + 1) * b == k * b + b;
    }
  }
}
