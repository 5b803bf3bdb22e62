/** The reputation store: running statistics, a cache in front of them, and the table they
    are rebuilt from. */
module Reputation {
  import opened Common

  /** A field holds its value only when it has the expected JSON type. */
  datatype Content = Content(
    nodeId: Option<string>, delta: Option<real>, reason: Option<string>, rating: Option<real>,
    attestation: Option<string>, standing: Option<string>)

  datatype Event = Event(isUpdate: bool, eventId: string, content: Option<Content>)

  datatype Stats = Stats(
    events: nat, totalDelta: real, deliverySuccesses: nat, deliveryEvents: nat,
    ratingSum: real, ratingCount: nat, attestation: string, standing: string)

  const NO_STATS := Stats(0, 0.0, 0, 0, 0.0, 0, "unknown", "unknown")

  predicate Given(s: Option<string>) { s.Some? && s.value != "" }

  predicate Acceptable(c: Content) { Given(c.nodeId) && c.delta.Some? && Given(c.reason) }

  predicate Accepted(e: Event) { e.isUpdate && e.content.Some? && Acceptable(e.content.value) }

  type AcceptedEvent = e: Event | Accepted(e)
    witness Event(true, "", Some(Content(Some("n"), Some(0.0), Some("r"), None, None, None)))

  function Counted(s: Stats, c: Content): Stats
    requires Acceptable(c)
  {
    var isDelivery := "delivery" <= c.reason.value;
    Stats(
      s.events + 1,
      s.totalDelta + c.delta.value,
      s.deliverySuccesses + (if isDelivery && c.delta.value > 0.0 then 1 else 0),
      s.deliveryEvents + (if isDelivery then 1 else 0),
      s.ratingSum + (if c.rating.Some? then c.rating.value else 0.0),
      s.ratingCount + (if c.rating.Some? then 1 else 0),
      if Given(c.attestation) then c.attestation.value else s.attestation,
      if Given(c.standing) then c.standing.value else s.standing)
  }

  datatype Summary = Summary(
    nodeId: string, events: nat, score: real, deliverySuccessRate: Option<real>, averageRating: Option<real>,
    attestation: string, standing: string)

  datatype Report = Report(summary: Summary, computedAt: int)

  /** `rounded` stands for rounding to four digits. */
  function Summarise(node: string, s: Option<Stats>, rounded: real -> real): Summary {
    if s.None? then Summary(node, 0, 0.0, None, None, "unknown", "unknown")
    else
      var t := s.value;
      Summary(node, t.events, rounded(t.totalDelta),
              if t.deliveryEvents == 0 then None else Some(t.deliverySuccesses as real / t.deliveryEvents as real),
              if t.ratingCount == 0 then None else Some(t.ratingSum / t.ratingCount as real),
              t.attestation, t.standing)
  }

  // -------------------------------------------------------------------- reference

  datatype Row = Row(
    eventId: string, nodeId: string, delta: real, reason: string, rating: Option<real>,
    attestation: Option<string>, standing: Option<string>)

  function RowOf(e: AcceptedEvent): Row
  {
    var c := e.content.value;
    Row(e.eventId, c.nodeId.value, c.delta.value, c.reason.value, c.rating, c.attestation, c.standing)
  }

  function ContentOf(r: Row): Content {
    Content(Some(r.nodeId), Some(r.delta), Some(r.reason), r.rating, r.attestation, r.standing)
  }

  predicate Known(log: seq<AcceptedEvent>, id: string) { exists e <- log :: e.eventId == id }

  /** The accepted events among those delivered, each id once, at its first delivery. */
  function DistinctAccepted(delivered: seq<Event>): seq<AcceptedEvent> {
    if delivered == [] then []
    else
      var log := DistinctAccepted(delivered[..|delivered| - 1]);
      var e := delivered[|delivered| - 1];
      if Accepted(e) && !Known(log, e.eventId) then log + [e] else log
  }

  /** A plain fold over the events of one node. */
  function NodeFold(log: seq<AcceptedEvent>, node: string): Option<Stats>
  {
    if log == [] then None
    else
      var before := NodeFold(log[..|log| - 1], node);
      var c := log[|log| - 1].content.value;
      if c.nodeId.value != node then before
      else Some(Counted(if before.Some? then before.value else NO_STATS, c))
  }

  function StatsOf(stats: map<string, Stats>, node: string): Option<Stats> {
    if node in stats then Some(stats[node]) else None
  }

  // ---------------------------------------------------------------------- classes

  class UpdateTable {
    var rows: seq<Row>

    constructor ()
      ensures rows == []
    {
      rows := [];
    }

    method InsertOrIgnore(row: Row)
      modifies this
      ensures rows == if exists r <- old(rows) :: r.eventId == row.eventId then old(rows) else old(rows) + [row]
    {
      if !exists r <- rows :: r.eventId == row.eventId { rows := rows + [row]; }
    }
  }

  /** The table holds one row per event of the log, in order. */
  ghost predicate Mirrors(rows: seq<Row>, log: seq<AcceptedEvent>)
  {
    |rows| == |log| && forall i | 0 <= i < |log| :: rows[i] == RowOf(log[i])
  }

  /** The running statistics are, for each node, the plain fold over its events. */
  ghost predicate InStep(stats: map<string, Stats>, log: seq<AcceptedEvent>)
  {
    forall node: string :: StatsOf(stats, node) == NodeFold(log, node)
  }

  lemma NodeFoldAppend(log: seq<AcceptedEvent>, e: AcceptedEvent, node: string)
    ensures NodeFold(log + [e], node)
            == var before := NodeFold(log, node);
               if e.content.value.nodeId.value != node then before
               else Some(Counted(if before.Some? then before.value else NO_STATS, e.content.value))
  {
    var next := log + [e];
    assert next[..|next| - 1] == log && next[|next| - 1] == e;
  }

  lemma StatsFollow(stats: map<string, Stats>, log: seq<AcceptedEvent>, e: AcceptedEvent)
    requires InStep(stats, log)
    ensures var node := e.content.value.nodeId.value;
            var current := if node in stats then stats[node] else NO_STATS;
            InStep(stats[node := Counted(current, e.content.value)], log + [e])
  {
    var node := e.content.value.nodeId.value;
    var current := if node in stats then stats[node] else NO_STATS;
    forall n: string ensures StatsOf(stats[node := Counted(current, e.content.value)], n) == NodeFold(log + [e], n) {
      NodeFoldAppend(log, e, n);
      assert StatsOf(stats, n) == NodeFold(log, n);
    }
  }

  class ReputationStore {
    const table: UpdateTable
    const rounded: real -> real
    const cacheTtl: int
    var stats: map<string, Stats>
    var cache: map<string, Report>
    var lastCacheMs: map<string, int>
    var seenEventIds: set<string>

    /** Table, statistics and cache all tell the story of `log`. */
    ghost predicate Valid(log: seq<AcceptedEvent>)
        reads this, table
    {
      && Mirrors(table.rows, log)
      && InStep(stats, log)
      && (forall id :: id in seenEventIds <==> Known(log, id))
      && (forall node <- cache :: cache[node].summary == Summarise(node, NodeFold(log, node), rounded))
    }

    /** A restart: everything is rebuilt from the table. */
    constructor (table: UpdateTable, rounded: real -> real, ghost log: seq<AcceptedEvent>)
      requires Mirrors(table.rows, log)
      ensures this.table == table && this.rounded == rounded && Valid(log) && cacheTtl == 30000
    {
      this.table, this.rounded, cacheTtl := table, rounded, 30000;
      var current: map<string, Stats> := map[];
      var seen: set<string> := {};
      var rows := table.rows;
      for i := 0 to |rows|
        invariant InStep(current, log[..i])
        invariant forall id :: id in seen <==> Known(log[..i], id)
      {
        assert log[..i + 1] == log[..i] + [log[i]] && log[i] in log;
        var row := rows[i];
        seen := seen + {row.eventId};
        var s := if row.nodeId in current then current[row.nodeId] else NO_STATS;
        assert Counted(s, ContentOf(row)) == Counted(s, log[i].content.value);
        StatsFollow(current, log[..i], log[i]);
        current := current[row.nodeId := Counted(s, ContentOf(row))];
      }
      assert log[..|rows|] == log;
      stats, cache, lastCacheMs, seenEventIds := current, map[], map[], seen;
    }

    method Apply(c: Content) returns (ok: bool)
      modifies this`stats, this`cache, this`lastCacheMs
      ensures ok <==> Acceptable(c)
      ensures !ok ==> stats == old(stats) && cache == old(cache)
      ensures ok ==> var node := c.nodeId.value;
                     && stats == old(stats)[node := Counted(if node in old(stats) then old(stats)[node] else NO_STATS, c)]
                     && cache == old(cache) - {node}
    {
      if !Acceptable(c) { return false; }
      var node := c.nodeId.value;
      stats := stats[node := Counted(if node in stats then stats[node] else NO_STATS, c)];
      cache := cache - {node};
      lastCacheMs := lastCacheMs - {node};
      return true;
    }

    method IngestEvent(e: Event, ghost log: seq<AcceptedEvent>) returns (counted: bool)
      requires Valid(log)
      modifies this, table
      ensures counted <==> Accepted(e) && !Known(log, e.eventId)
      ensures counted ==> Valid(log + [e])
      ensures !counted ==> Valid(log)
    {
      if !e.isUpdate || e.eventId in seenEventIds || e.content.None? { return false; }
      StatsFollowIfAccepted(stats, log, e);
      counted := Apply(e.content.value);
      if !counted { return; }
      FoldElsewhereUnchanged(log, e);
      MirrorGrows(table.rows, log, e);
      table.InsertOrIgnore(RowOf(e));
      seenEventIds := seenEventIds + {e.eventId};
    }

    /** A report is the plain fold over the node's events, however old the cache is. */
    method Get(node: string, now: int, ghost log: seq<AcceptedEvent>) returns (r: Report)
      requires Valid(log)
      modifies this`cache, this`lastCacheMs
      ensures Valid(log) && r.summary == Summarise(node, NodeFold(log, node), rounded)
    {
      if node in cache && node in lastCacheMs && now - lastCacheMs[node] < cacheTtl { return cache[node]; }
      r := Report(Summarise(node, StatsOf(stats, node), rounded), now);
      cache := cache[node := r];
      lastCacheMs := lastCacheMs[node := now];
    }
  }

  lemma MirrorGrows(rows: seq<Row>, log: seq<AcceptedEvent>, e: AcceptedEvent)
    requires Mirrors(rows, log) && !Known(log, e.eventId)
    ensures forall r <- rows :: r.eventId != e.eventId
    ensures Mirrors(rows + [RowOf(e)], log + [e])
  {
    forall i | 0 <= i < |rows| ensures rows[i].eventId != e.eventId {
      assert log[i] in log;
    }
  }

  lemma StatsFollowIfAccepted(stats: map<string, Stats>, log: seq<AcceptedEvent>, e: Event)
    requires InStep(stats, log)
    ensures Accepted(e) ==>
              var node := e.content.value.nodeId.value;
              InStep(stats[node := Counted(if node in stats then stats[node] else NO_STATS, e.content.value)], log + [e])
  {
    if Accepted(e) { StatsFollow(stats, log, e); }
  }

  lemma FoldElsewhereUnchanged(log: seq<AcceptedEvent>, e: AcceptedEvent)
    ensures forall node: string | node != e.content.value.nodeId.value :: NodeFold(log + [e], node) == NodeFold(log, node)
    ensures forall id :: Known(log + [e], id) <==> Known(log, id) || id == e.eventId
  {
    forall node: string | node != e.content.value.nodeId.value
      ensures NodeFold(log + [e], node) == NodeFold(log, node)
    {
      NodeFoldAppend(log, e, node);
    }
    assert (log + [e])[|log|] == e;
  }

  // -------------------------------------------------------------------------- runs

  datatype Step = Deliver(event: Event) | Read(node: string, now: int) | Restart

  function Delivered(steps: seq<Step>): seq<Event> {
    if steps == [] then []
    else Delivered(steps[..|steps| - 1])
         + (if steps[|steps| - 1].Deliver? then [steps[|steps| - 1].event] else [])
  }

  function LogAt(steps: seq<Step>, n: nat): seq<AcceptedEvent>
    requires n <= |steps|
  {
    DistinctAccepted(Delivered(steps[..n]))
  }

  /** What the events delivered before step `n` say about a node. */
  function Expected(steps: seq<Step>, n: nat, node: string, rounded: real -> real): Summary
    requires n <= |steps|
  {
    Summarise(node, NodeFold(LogAt(steps, n), node), rounded)
  }

  predicate Truthful(steps: seq<Step>, n: nat, r: Option<Report>, rounded: real -> real)
    requires n < |steps|
  {
    steps[n].Read? ==> r.Some? && r.value.summary == Expected(steps, n, steps[n].node, rounded)
  }

  predicate AllTruthful(steps: seq<Step>, reports: seq<Option<Report>>, rounded: real -> real) {
    |reports| <= |steps| && forall i | 0 <= i < |reports| :: Truthful(steps, i, reports[i], rounded)
  }

  lemma TruthfulNext(steps: seq<Step>, reports: seq<Option<Report>>, r: Option<Report>, rounded: real -> real)
    requires AllTruthful(steps, reports, rounded)
    requires |reports| < |steps| && Truthful(steps, |reports|, r, rounded)
    ensures AllTruthful(steps, reports + [r], rounded)
  {
    forall i | 0 <= i <= |reports| ensures Truthful(steps, i, (reports + [r])[i], rounded) {
      if i < |reports| { assert (reports + [r])[i] == reports[i]; }
    }
  }

  /** Over any run of deliveries (duplicates included), reads at any time and restarts, each
      read reports the plain fold over the node's distinct accepted events so far. */
  method RunSteps(steps: seq<Step>, rounded: real -> real) returns (reports: seq<Option<Report>>)
    ensures |reports| == |steps| && AllTruthful(steps, reports, rounded)
  {
    var table := new UpdateTable();
    var store := new ReputationStore(table, rounded, []);
    reports := [];
    for i := 0 to |steps|
      invariant fresh(table) && fresh(store) && store.table == table && store.rounded == rounded
      invariant store.Valid(LogAt(steps, i))
      invariant |reports| == i && AllTruthful(steps, reports, rounded)
    {
      DeliveredNext(steps, i);
      var next, report := RunStep(store, table, steps[i], LogAt(steps, i));
      TruthfulNext(steps, reports, report, rounded);
      store, reports := next, reports + [report];
    }
  }

  method RunStep(store: ReputationStore, table: UpdateTable, step: Step, ghost log: seq<AcceptedEvent>)
    returns (next: ReputationStore, report: Option<Report>)
    requires store.Valid(log) && store.table == table
    modifies store, table
    ensures next.table == table && next.rounded == store.rounded && (next == store || fresh(next))
    ensures next.Valid(if step.Deliver? && Accepted(step.event) && !Known(log, step.event.eventId)
                       then log + [step.event] else log)
    ensures step.Read? ==>
              report.Some? && report.value.summary == Summarise(step.node, NodeFold(log, step.node), store.rounded)
  {
    next, report := store, None;
    match step {
      case Deliver(e) =>
        var _ := store.IngestEvent(e, log);
      case Read(node, now) =>
        var r := store.Get(node, now, log);
        report := Some(r);
      case Restart =>
        next := new ReputationStore(table, store.rounded, log);
    }
  }

  lemma DeliveredNext(steps: seq<Step>, n: nat)
    requires n < |steps|
    ensures var log := LogAt(steps, n);
            LogAt(steps, n + 1) == if steps[n].Deliver? && Accepted(steps[n].event) && !Known(log, steps[n].event.eventId)
                    then log + [steps[n].event] else log
  {
    assert steps[..n + 1][..n] == steps[..n];
    var before := Delivered(steps[..n]);
    if steps[n].Deliver? {
      assert (before + [steps[n].event])[..|before|] == before;
    } else {
      assert before + [] == before;
    }
  }

  // ------------------------------------------------------------------ the figures

  /** An update counts if it names a node and a reason and states a change. */
  lemma AcceptedIff(e: Event)
    ensures Accepted(e) <==>
            && e.isUpdate && e.content.Some?
            && e.content.value.nodeId.Some? && |e.content.value.nodeId.value| > 0
            && e.content.value.delta.Some?
            && e.content.value.reason.Some? && |e.content.value.reason.value| > 0
  {}

  /** The contents of a node's events, in order. */
  function ContentsOf(log: seq<AcceptedEvent>, node: string): seq<Content> {
    if log == [] then []
    else
      var c := log[|log| - 1].content.value;
      ContentsOf(log[..|log| - 1], node) + (if c.nodeId == Some(node) then [c] else [])
  }

  function Sum(cs: seq<Content>, part: Content -> Option<real>): real {
    if cs == [] then 0.0
    else Sum(cs[..|cs| - 1], part) + (var x := part(cs[|cs| - 1]); if x.Some? then x.value else 0.0)
  }

  function Count(cs: seq<Content>, which: Content -> bool): nat {
    if cs == [] then 0 else Count(cs[..|cs| - 1], which) + (if which(cs[|cs| - 1]) then 1 else 0)
  }

  /** The last text given, or "unknown". */
  function LastText(cs: seq<Content>, part: Content -> Option<string>): string {
    if cs == [] then "unknown"
    else
      var x := part(cs[|cs| - 1]);
      if x.Some? && x.value != "" then x.value else LastText(cs[..|cs| - 1], part)
  }

  function DeltaOf(c: Content): Option<real> { c.delta }
  function RatingOf(c: Content): Option<real> { c.rating }
  function AttestationOf(c: Content): Option<string> { c.attestation }
  function StandingOf(c: Content): Option<string> { c.standing }

  predicate IsRated(c: Content) { c.rating.Some? }

  predicate IsDelivery(c: Content) { c.reason.Some? && |c.reason.value| >= 8 && c.reason.value[..8] == "delivery" }

  predicate IsSuccess(c: Content) { IsDelivery(c) && c.delta.Some? && c.delta.value > 0.0 }

  /** The figures a node's events add up to. */
  function Figures(cs: seq<Content>): Stats {
    Stats(|cs|, Sum(cs, DeltaOf), Count(cs, IsSuccess), Count(cs, IsDelivery),
          Sum(cs, RatingOf), Count(cs, IsRated),
          LastText(cs, AttestationOf), LastText(cs, StandingOf))
  }

  lemma FiguresNext(cs: seq<Content>, c: Content)
    requires Acceptable(c)
    ensures Counted(Figures(cs), c) == Figures(cs + [c])
  {
    assert (cs + [c])[..|cs|] == cs;
    assert "delivery" <= c.reason.value <==> IsDelivery(c);
  }

  /** The running statistics of a node are the sums, counts and last texts of its events. */
  lemma {:induction false} FoldIsFigures(log: seq<AcceptedEvent>, node: string)
    ensures var cs := ContentsOf(log, node);
            NodeFold(log, node) == if cs == [] then None else Some(Figures(cs))
  {
    if log != [] {
      var rest, c := log[..|log| - 1], log[|log| - 1].content.value;
      FoldIsFigures(rest, node);
      if c.nodeId.value == node {
        assert Figures([]) == NO_STATS;
        FiguresNext(ContentsOf(rest, node), c);
        assert ContentsOf(log, node) == ContentsOf(rest, node) + [c];
      } else {
        assert ContentsOf(log, node) == ContentsOf(rest, node);
      }
    }
  }

  /** What a report says: the number of events, the rounded sum of their changes, the share of
      successful deliveries, the mean rating, and the last texts; a node without events has none. */
  lemma ReportSays(log: seq<AcceptedEvent>, node: string, rounded: real -> real)
    ensures var cs, r := ContentsOf(log, node), Summarise(node, NodeFold(log, node), rounded);
            var deliveries, ratings := Count(cs, IsDelivery), Count(cs, IsRated);
            && r.nodeId == node && r.events == |cs|
            && r.score == (if cs == [] then 0.0 else rounded(Sum(cs, DeltaOf)))
            && r.deliverySuccessRate == (if deliveries == 0 then None else Some(Count(cs, IsSuccess) as real / deliveries as real))
            && r.averageRating == (if ratings == 0 then None else Some(Sum(cs, RatingOf) / ratings as real))
            && r.attestation == LastText(cs, AttestationOf)
            && r.standing == LastText(cs, StandingOf)
  {
    FoldIsFigures(log, node);
  }
}
