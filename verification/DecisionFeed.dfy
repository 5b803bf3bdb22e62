/** The governance decision store and the feed its readers poll. */
module DecisionFeed {
  import opened Common

  /** A JSON value where a text is expected. */
  datatype Value = Text(text: string) | OtherValue(truthy: bool)

  predicate Truthy(v: Value) { if v.Text? then v.text != "" else v.truthy }

  /** Python's `a or b or c`; missing keys read as a falsy value. */
  function FirstTruthy(a: Value, b: Value, c: Value): Value {
    if Truthy(a) then a else if Truthy(b) then b else c
  }

  predicate NonEmptyText(v: Value) { v.Text? && v.text != "" }

  datatype VoteContent = VoteContent(proposalId: Value, decision: Value, result: Value, outcome: Value)

  datatype Event = Event(
    isVote: bool, eventId: string, roomId: string, sender: Value, timestamp: Option<int>, content: Option<VoteContent>)

  datatype Row = Row(
    token: int, roomId: string, eventId: string, proposalId: string, decision: string,
    finalizedAt: Option<int>, sender: string)

  function DecisionOf(c: VoteContent): Value { FirstTruthy(c.decision, c.result, c.outcome) }

  /** A vote that names its proposal and sender. */
  predicate IsBallot(e: Event) {
    e.isVote && e.content.Some? && NonEmptyText(e.content.value.proposalId) && NonEmptyText(e.sender)
  }

  /** A ballot that also carries a decision. */
  predicate Decides(e: Event) { IsBallot(e) && NonEmptyText(DecisionOf(e.content.value)) }

  function NextToken(rows: seq<Row>): int { if rows == [] then 1 else rows[|rows| - 1].token + 1 }

  function RowOf(e: Event, token: int): Row
    requires Decides(e)
  {
    Row(token, e.roomId, e.eventId, e.content.value.proposalId.text, DecisionOf(e.content.value).text, e.timestamp, e.sender.text)
  }

  /** What a running store knows: the decisions, and which events and voters it has seen. */
  datatype Store = Store(rows: seq<Row>, seen: set<string>, voters: set<(string, string, string)>)

  function Ingest(s: Store, e: Event): (Store, bool) {
    if !e.isVote || e.eventId in s.seen || !IsBallot(e) then (s, false)
    else
      var voters := s.voters + {(e.roomId, e.content.value.proposalId.text, e.sender.text)};
      if !Decides(e) then (Store(s.rows, s.seen + {e.eventId}, voters), false)
      else (Store(s.rows + [RowOf(e, NextToken(s.rows))], s.seen + {e.eventId}, voters), true)
  }

  /** A new process starts from the table alone. */
  function Loaded(rows: seq<Row>): Store {
    Store(rows, set r | r in rows :: r.eventId, set r | r in rows :: (r.roomId, r.proposalId, r.sender))
  }

  /** The rows of a room after a token, in order. */
  function Select(rows: seq<Row>, room: string, since: int): seq<Row> {
    if rows == [] then []
    else Select(rows[..|rows| - 1], room, since)
         + (var last := rows[|rows| - 1]; if last.roomId == room && last.token > since then [last] else [])
  }

  predicate TokensIncrease(rows: seq<Row>) {
    forall i, j | 0 <= i < j < |rows| :: rows[i].token < rows[j].token
  }

  predicate Ordered(rows: seq<Row>) {
    && TokensIncrease(rows)
    && (forall i, j | 0 <= i < j < |rows| :: rows[i].eventId != rows[j].eventId)
    && (forall i | 0 <= i < |rows| :: rows[i].token >= 1)
  }

  predicate WellKept(s: Store) { Ordered(s.rows) && forall r <- s.rows :: r.eventId in s.seen }

  // ---------------------------------------------------------------------- classes

  class DecisionTable {
    var rows: seq<Row>

    constructor ()
      ensures rows == []
    {
      rows := [];
    }

    /** `token` is the primary key and `event_id` is unique. */
    method InsertOrIgnore(row: Row)
      modifies this
      ensures rows == if exists r <- old(rows) :: r.token == row.token || r.eventId == row.eventId
                      then old(rows) else old(rows) + [row]
    {
      if !exists r <- rows :: r.token == row.token || r.eventId == row.eventId {
        rows := rows + [row];
      }
    }
  }

  class GovernanceDecisionStore {
    const table: DecisionTable
    var nextToken: int
    var decisions: seq<Row>
    var seenEventIds: set<string>
    var voterRegistry: set<(string, string, string)>

    predicate Valid()
      reads this, table
    {
      && decisions == table.rows
      && nextToken == NextToken(decisions)
      && WellKept(View())
    }

    function View(): Store
      reads this
    {
      Store(decisions, seenEventIds, voterRegistry)
    }

    constructor (table: DecisionTable)
      requires Ordered(table.rows)
      ensures this.table == table && Valid() && View() == Loaded(table.rows)
    {
      this.table := table;
      var kept: seq<Row> := [];
      var seen: set<string> := {};
      var voters: set<(string, string, string)> := {};
      var rows := table.rows;
      for i := 0 to |rows|
        invariant kept == rows[..i]
        invariant seen == set r | r in rows[..i] :: r.eventId
        invariant voters == set r | r in rows[..i] :: (r.roomId, r.proposalId, r.sender)
      {
        assert rows[..i + 1] == rows[..i] + [rows[i]];
        kept := kept + [rows[i]];
        seen := seen + {rows[i].eventId};
        voters := voters + {(rows[i].roomId, rows[i].proposalId, rows[i].sender)};
      }
      assert rows[..|rows|] == rows;
      decisions, seenEventIds, voterRegistry := kept, seen, voters;
      nextToken := if kept == [] then 1 else kept[|kept| - 1].token + 1;
    }

    method IngestEvent(e: Event) returns (recorded: bool)
      requires Valid()
      modifies this, table
      ensures Valid() && (View(), recorded) == Ingest(old(View()), e)
    {
      if !e.isVote || e.eventId in seenEventIds { return false; }
      if e.content.None? { return false; }
      var content := e.content.value;
      var decision := FirstTruthy(content.decision, content.result, content.outcome);
      if !NonEmptyText(content.proposalId) || !NonEmptyText(e.sender) { return false; }
      voterRegistry := voterRegistry + {(e.roomId, content.proposalId.text, e.sender.text)};
      if !NonEmptyText(decision) {
        seenEventIds := seenEventIds + {e.eventId};
        return false;
      }
      var record := Row(nextToken, e.roomId, e.eventId, content.proposalId.text, decision.text, e.timestamp, e.sender.text);
      NewRowIsNew(View(), record);
      decisions := decisions + [record];
      seenEventIds := seenEventIds + {e.eventId};
      nextToken := nextToken + 1;
      table.InsertOrIgnore(record);
      return true;
    }

    method Query(room: string, since: int) returns (nextSince: int, results: seq<Row>)
      requires Valid()
      ensures nextSince == NextToken(decisions) - 1 && results == Select(decisions, room, since)
    {
      results := [];
      for i := 0 to |decisions|
        invariant results == Select(decisions[..i], room, since)
      {
        assert decisions[..i + 1][..i] == decisions[..i] && decisions[..i + 1][i] == decisions[i];
        if decisions[i].roomId == room && decisions[i].token > since { results := results + [decisions[i]]; }
      }
      assert decisions[..|decisions|] == decisions;
      nextSince := nextToken - 1;
    }
  }

  lemma NewRowIsNew(s: Store, row: Row)
    requires WellKept(s) && row.token == NextToken(s.rows) && row.eventId !in s.seen
    ensures forall r <- s.rows :: r.token < row.token && r.eventId != row.eventId
    ensures row.token >= 1 && Ordered(s.rows + [row])
  {}

  // -------------------------------------------------------------------------- runs

  /** A reader's `since` and everything it has received. */
  datatype Reader = Reader(since: int, received: seq<Row>)

  datatype Step = Deliver(event: Event) | Restart | Poll

  datatype Feed = Feed(store: Store, reader: Reader)

  function Next(f: Feed, step: Step, room: string): Feed {
    match step
    case Deliver(e) => f.(store := Ingest(f.store, e).0)
    case Restart => f.(store := Loaded(f.store.rows))
    case Poll => f.(reader := Reader(NextToken(f.store.rows) - 1,
                                     f.reader.received + Select(f.store.rows, room, f.reader.since)))
  }

  function After(steps: seq<Step>, room: string): Feed {
    if steps == [] then Feed(Store([], {}, {}), Reader(0, []))
    else Next(After(steps[..|steps| - 1], room), steps[|steps| - 1], room)
  }

  lemma {:induction false} SelectSplit(rows: seq<Row>, room: string, since: int, seen: nat)
    requires Ordered(rows) && seen <= |rows|
    requires forall i | 0 <= i < |rows| :: rows[i].token <= since <==> i < seen
    ensures Select(rows[..seen], room, 0) + Select(rows, room, since) == Select(rows, room, 0)
  {
    if rows != [] {
      var rest := rows[..|rows| - 1];
      if seen == |rows| {
        NothingLater(rows, room, since);
        assert rows[..seen] == rows;
      } else {
        assert rest[..seen] == rows[..seen];
        SelectSplit(rest, room, since, seen);
      }
    }
  }

  lemma {:induction false} NothingLater(rows: seq<Row>, room: string, since: int)
    requires forall i | 0 <= i < |rows| :: rows[i].token <= since
    ensures Select(rows, room, since) == []
  {
    if rows != [] { NothingLater(rows[..|rows| - 1], room, since); }
  }

  /** The reader has the room's decisions among the first `seen` rows, exactly those, and
      its `since` marks that point. */
  ghost predicate Caught(f: Feed, room: string, seen: nat) {
    && seen <= |f.store.rows|
    && f.reader.received == Select(f.store.rows[..seen], room, 0)
    && (forall i | 0 <= i < |f.store.rows| :: f.store.rows[i].token <= f.reader.since <==> i < seen)
    && f.reader.since < NextToken(f.store.rows)
  }

  lemma IngestKeeps(s: Store, e: Event)
    requires WellKept(s)
    ensures WellKept(Ingest(s, e).0) && s.rows <= Ingest(s, e).0.rows
    ensures |Ingest(s, e).0.rows| <= |s.rows| + 1
    ensures |Ingest(s, e).0.rows| > |s.rows| ==> Ingest(s, e).0.rows[|s.rows|].token == NextToken(s.rows)
  {
    if Ingest(s, e).1 { NewRowIsNew(s, RowOf(e, NextToken(s.rows))); }
  }

  lemma DeliveryKeepsCaught(f: Feed, e: Event, room: string, seen: nat)
    requires WellKept(f.store) && Caught(f, room, seen)
    ensures Caught(Next(f, Deliver(e), room), room, seen)
  {
    IngestKeeps(f.store, e);
    var rows := Ingest(f.store, e).0.rows;
    assert rows[..seen] == f.store.rows[..seen];
    assert forall i | 0 <= i < |f.store.rows| :: rows[i] == f.store.rows[i];
  }

  lemma PollCatchesUp(f: Feed, room: string, seen: nat)
    requires WellKept(f.store) && Caught(f, room, seen)
    ensures Caught(Next(f, Poll, room), room, |f.store.rows|)
  {
    SelectSplit(f.store.rows, room, f.reader.since, seen);
    assert f.store.rows[..|f.store.rows|] == f.store.rows;
  }

  lemma StepKeepsCaught(f: Feed, step: Step, room: string, seen: nat) returns (now: nat)
    requires WellKept(f.store) && Caught(f, room, seen)
    ensures WellKept(Next(f, step, room).store) && Caught(Next(f, step, room), room, now)
    ensures step.Poll? ==> now == |f.store.rows|
  {
    match step
    case Deliver(e) =>
      IngestKeeps(f.store, e);
      DeliveryKeepsCaught(f, e, room, seen);
      now := seen;
    case Restart =>
      now := seen;
    case Poll =>
      PollCatchesUp(f, room, seen);
      now := |f.store.rows|;
  }

  lemma {:induction false} ReaderIsCaughtUp(steps: seq<Step>, room: string) returns (seen: nat)
    ensures WellKept(After(steps, room).store) && Caught(After(steps, room), room, seen)
    ensures steps != [] && steps[|steps| - 1].Poll? ==> seen == |After(steps, room).store.rows|
  {
    if steps == [] {
      seen := 0;
    } else {
      var before := ReaderIsCaughtUp(steps[..|steps| - 1], room);
      seen := StepKeepsCaught(After(steps[..|steps| - 1], room), steps[|steps| - 1], room, before);
    }
  }

  /** However ingests, duplicates, other rooms and restarts are mixed, a reader that starts
      at 0 and hands back `next_since` has received, after each poll, every decision of its
      room once and in token order. */
  lemma FeedIsExactlyOnce(steps: seq<Step>, room: string)
    requires steps != [] && steps[|steps| - 1].Poll?
    ensures var f := After(steps, room);
            && f.reader.received == Select(f.store.rows, room, 0)
            && TokensIncrease(f.reader.received)
            && (forall r :: r in f.reader.received <==> r in f.store.rows && r.roomId == room)
  {
    var seen := ReaderIsCaughtUp(steps, room);
    var rows := After(steps, room).store.rows;
    assert rows[..seen] == rows;
    SelectIsExact(rows, room);
    SelectIsOrdered(rows, room);
  }

  lemma {:induction false} SelectIsExact(rows: seq<Row>, room: string)
    requires Ordered(rows)
    ensures forall r :: r in Select(rows, room, 0) <==> r in rows && r.roomId == room
  {
    if rows != [] {
      var rest, last := rows[..|rows| - 1], rows[|rows| - 1];
      SelectIsExact(rest, room);
      assert rows == rest + [last];
    }
  }

  lemma {:induction false} SelectIsOrdered(rows: seq<Row>, room: string)
    requires Ordered(rows)
    ensures TokensIncrease(Select(rows, room, 0))
  {
    if rows != [] {
      var rest, last := rows[..|rows| - 1], rows[|rows| - 1];
      SelectIsOrdered(rest, room);
      SelectIsExact(rest, room);
      var s := Select(rest, room, 0);
      forall i | 0 <= i < |s| ensures s[i].token < last.token {
        assert s[i] in s;
        var k :| 0 <= k < |rest| && rest[k] == s[i];
        assert rows[k] == rest[k];
      }
    }
  }

  /** Events are immutable: an id stands for one event. */
  ghost predicate NamesOneEvent(steps: seq<Step>, e: Event) {
    forall step <- steps :: step.Deliver? && step.event.eventId == e.eventId ==> step.event == e
  }

  /** What makes a vote a decision: it names its proposal and sender, and the first of decision,
      result and outcome that says anything is a text. */
  lemma DecidesIff(e: Event)
    ensures Decides(e) <==>
            && e.isVote && e.content.Some?
            && e.sender.Text? && |e.sender.text| > 0
            && e.content.value.proposalId.Text? && |e.content.value.proposalId.text| > 0
            && exists text: string :: |text| > 0 && Says(e.content.value, text)
  {
    if Decides(e) { assert Says(e.content.value, DecisionOf(e.content.value).text); }
  }

  predicate Silent(v: Value) { v == Text("") || v == OtherValue(false) }

  /** The text a vote decides for. */
  predicate Says(c: VoteContent, text: string) {
    || (!Silent(c.decision) && c.decision == Text(text))
    || (Silent(c.decision) && !Silent(c.result) && c.result == Text(text))
    || (Silent(c.decision) && Silent(c.result) && c.outcome == Text(text))
  }

  /** A decision's row carries the event's room, id, proposal, text, time and sender. */
  lemma RowStates(e: Event, token: int)
    requires Decides(e)
    ensures var r := RowOf(e, token);
            && r.token == token && r.roomId == e.roomId && r.eventId == e.eventId && r.finalizedAt == e.timestamp
            && Text(r.proposalId) == e.content.value.proposalId && Text(r.sender) == e.sender
            && Says(e.content.value, r.decision)
  {}

  /** An ingest says whether it added a row, and it adds at most one. */
  lemma IngestReports(s: Store, e: Event)
    ensures Ingest(s, e).1 <==> |Ingest(s, e).0.rows| == |s.rows| + 1
    ensures !Ingest(s, e).1 ==> Ingest(s, e).0.rows == s.rows
  {}

  /** Once a ballot has been taken in, no event with its id is taken in again. */
  lemma BallotCountsOnce(s: Store, e: Event, again: Event)
    requires IsBallot(e) && again.eventId == e.eventId
    ensures var after := Ingest(s, e).0; Ingest(after, again) == (after, false)
  {}

  /** Every ballot not seen before puts its voter on the roll of its proposal, decision or not,
      and nothing else does. */
  lemma BallotIsNoted(s: Store, e: Event)
    ensures Ingest(s, e).0.voters == s.voters
              + (if e.isVote && e.eventId !in s.seen && e.content.Some? && e.sender.Text? && e.sender.text != ""
                    && e.content.value.proposalId.Text? && e.content.value.proposalId.text != ""
                 then {(e.roomId, e.content.value.proposalId.text, e.sender.text)} else {})
  {}

  /** The decision has its row, with its room, proposal, outcome, time and sender. */
  predicate HasRow(rows: seq<Row>, decision: Event)
    requires Decides(decision)
  {
    exists r <- rows :: r == RowOf(decision, r.token)
  }

  /** Nothing is missed either: every delivered event that decides has its row. */
  lemma EveryDecisionIsRecorded(steps: seq<Step>, room: string, decision: Event)
    requires NamesOneEvent(steps, decision) && Deliver(decision) in steps && Decides(decision)
    ensures HasRow(After(steps, room).store.rows, decision)
  {
    SeenDecisionsHaveRows(steps, room, decision);
  }

  /** An event this decision could have been shadowed by is the decision itself. */
  lemma IngestRecords(s: Store, e: Event, decision: Event)
    requires WellKept(s) && Decides(decision) && (e.eventId == decision.eventId ==> e == decision)
    requires Records(s, decision)
    ensures var t := Ingest(s, e).0;
            e == decision || decision.eventId in t.seen ==> HasRow(t.rows, decision)
  {
    var t := Ingest(s, e).0;
    if HasRow(s.rows, decision) {
      var r :| r in s.rows && r == RowOf(decision, r.token);
      assert r in t.rows;
    } else if e == decision {
      assert t.rows[|s.rows|] == RowOf(decision, NextToken(s.rows));
    }
  }

  ghost predicate Records(s: Store, decision: Event)
    requires Decides(decision)
  {
    decision.eventId in s.seen ==> HasRow(s.rows, decision)
  }

  lemma StepRecords(f: Feed, step: Step, room: string, decision: Event)
    requires WellKept(f.store) && Decides(decision) && Records(f.store, decision)
    requires step.Deliver? && step.event.eventId == decision.eventId ==> step.event == decision
    ensures Records(Next(f, step, room).store, decision)
    ensures HasRow(f.store.rows, decision) || step == Deliver(decision)
            ==> HasRow(Next(f, step, room).store.rows, decision)
  {
    if step.Deliver? {
      IngestRecords(f.store, step.event, decision);
      IngestKeeps(f.store, step.event);
      var after := Ingest(f.store, step.event).0.rows;
      assert forall r <- f.store.rows :: r in after;
    }
  }

  lemma StaysWellKept(steps: seq<Step>, room: string)
    ensures WellKept(After(steps, room).store)
  {
    var _ := ReaderIsCaughtUp(steps, room);
  }

  lemma {:induction false} SeenDecisionsHaveRows(steps: seq<Step>, room: string, decision: Event)
    requires Decides(decision)
    requires NamesOneEvent(steps, decision)
    ensures Records(After(steps, room).store, decision)
    ensures Deliver(decision) in steps ==> HasRow(After(steps, room).store.rows, decision)
  {
    if steps != [] {
      var rest, last := steps[..|steps| - 1], steps[|steps| - 1];
      assert steps == rest + [last];
      SeenDecisionsHaveRows(rest, room, decision);
      StaysWellKept(rest, room);
      StepRecords(After(rest, room), last, room, decision);
    }
  }

  /** The row is that of a delivered decision. */
  ghost predicate WasDelivered(steps: seq<Step>, r: Row) {
    exists e: Event :: Deliver(e) in steps && Decides(e) && r == RowOf(e, r.token)
  }

  /** And nothing is made up: every row is that of a delivered decision. */
  lemma {:induction false} RowsWereDelivered(steps: seq<Step>, room: string, r: Row)
    requires r in After(steps, room).store.rows
    ensures WasDelivered(steps, r)
  {
    var rest, last := steps[..|steps| - 1], steps[|steps| - 1];
    assert steps == rest + [last];
    var before := After(rest, room).store;
    if r in before.rows {
      RowsWereDelivered(rest, room, r);
      var e: Event :| Deliver(e) in rest && Decides(e) && r == RowOf(e, r.token);
      assert Deliver(e) in steps;
    } else {
      assert last == Deliver(last.event) && r == RowOf(last.event, r.token);
    }
  }

  lemma ReceivedIdsDiffer(rows: seq<Row>, received: seq<Row>)
    requires Ordered(rows) && TokensIncrease(received) && forall r <- received :: r in rows
    ensures forall i, j | 0 <= i < j < |received| :: received[i].eventId != received[j].eventId
  {
    forall i, j | 0 <= i < j < |received| ensures received[i].eventId != received[j].eventId {
      assert received[i] in received && received[j] in received;
      var k :| 0 <= k < |rows| && rows[k] == received[i];
      var l :| 0 <= l < |rows| && rows[l] == received[j];
      assert k != l;
    }
  }

  /** After each poll of any run, a reader has received exactly the decisions delivered in its
      room, each once and as its voter stated it. */
  lemma ReaderGetsTheDecisions(steps: seq<Step>, room: string)
    requires steps != [] && steps[|steps| - 1].Poll?
    requires forall e: Event | Deliver(e) in steps && Decides(e) :: NamesOneEvent(steps, e)
    ensures var received := After(steps, room).reader.received;
            && (forall e: Event | Deliver(e) in steps && Decides(e) && e.roomId == room :: HasRow(received, e))
            && (forall r <- received :: WasDelivered(steps, r) && r.roomId == room)
            && (forall i, j | 0 <= i < j < |received| :: received[i].eventId != received[j].eventId)
  {
    FeedIsExactlyOnce(steps, room);
    var rows, received := After(steps, room).store.rows, After(steps, room).reader.received;
    forall e: Event | Deliver(e) in steps && Decides(e) && e.roomId == room ensures HasRow(received, e) {
      EveryDecisionIsRecorded(steps, room, e);
      var r :| r in rows && r == RowOf(e, r.token);
      assert r in received;
    }
    forall r | r in received ensures WasDelivered(steps, r) { RowsWereDelivered(steps, room, r); }
    StaysWellKept(steps, room);
    ReceivedIdsDiffer(rows, received);
  }
}
