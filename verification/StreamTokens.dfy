/** Stream positions shared by the notifier models. */
module StreamTokens {
  import opened Common

  /** A position in a stream with several writers: each is at its own place, or at `stream`. */
  datatype WriterToken = WriterToken(stream: int, instances: map<string, int>)

  datatype EventPosition = EventPosition(instance: string, stream: int)

  function PositionOf(t: WriterToken, instance: string): int {
    if instance in t.instances then t.instances[instance] else t.stream
  }

  predicate PersistedAfter(p: EventPosition, t: WriterToken) { PositionOf(t, p.instance) < p.stream }

  function AdvanceWriters(a: WriterToken, b: WriterToken): WriterToken {
    WriterToken(Max(a.stream, b.stream),
                map i | i in a.instances.Keys + b.instances.Keys :: Max(PositionOf(a, i), PositionOf(b, i)))
  }

  /** An event is after the advanced token exactly when it is after both. */
  lemma AfterAdvancedIff(p: EventPosition, a: WriterToken, b: WriterToken)
    ensures PersistedAfter(p, AdvanceWriters(a, b)) <==> PersistedAfter(p, a) && PersistedAfter(p, b)
  {
    assert PositionOf(AdvanceWriters(a, b), p.instance) == Max(PositionOf(a, p.instance), PositionOf(b, p.instance));
  }

  /** A position in every stream; plain streams not mentioned are at 0. */
  datatype Token = Token(room: WriterToken, receipt: WriterToken, plain: map<string, int>)

  /** A stream's new position. */
  datatype Move = RoomMove(to: WriterToken) | ReceiptMove(to: WriterToken) | PlainMove(key: string, at: int)

  function PlainPosition(t: Token, key: string): int { if key in t.plain then t.plain[key] else 0 }

  /** Moves one stream forward, and never back. */
  function Advance(t: Token, m: Move): Token {
    match m
    case RoomMove(to) => t.(room := AdvanceWriters(t.room, to))
    case ReceiptMove(to) => t.(receipt := AdvanceWriters(t.receipt, to))
    case PlainMove(key, at) => if PlainPosition(t, key) < at then t.(plain := t.plain[key := at]) else t
  }

  /** A move changes its own stream only, and takes it to the later of the two positions, writer
      by writer where there are several. */
  lemma MoveAdvances(t: Token, to: WriterToken, key: string, at: int, writer: string, other: string)
    ensures Advance(t, RoomMove(to)) == Token(Advance(t, RoomMove(to)).room, t.receipt, t.plain)
    ensures PositionOf(Advance(t, RoomMove(to)).room, writer) == Max(PositionOf(t.room, writer), PositionOf(to, writer))
    ensures Advance(t, ReceiptMove(to)) == Token(t.room, Advance(t, ReceiptMove(to)).receipt, t.plain)
    ensures PositionOf(Advance(t, ReceiptMove(to)).receipt, writer) == Max(PositionOf(t.receipt, writer), PositionOf(to, writer))
    ensures var moved := Advance(t, PlainMove(key, at));
            && moved.room == t.room && moved.receipt == t.receipt
            && PlainPosition(moved, key) == (if PlainPosition(t, key) >= at then PlainPosition(t, key) else at)
            && (other != key ==> PlainPosition(moved, other) == PlainPosition(t, other))
            && (PlainPosition(t, key) >= at ==> moved == t)
  {}

  /** An event waits while its writer has not reached it: by the writer's own place if the token
      has one, else by the common one. */
  lemma StillWaitsIff(p: EventPosition, t: WriterToken)
    ensures PersistedAfter(p, t) <==>
            p.stream > if p.instance in t.instances then t.instances[p.instance] else t.stream
  {}
}
