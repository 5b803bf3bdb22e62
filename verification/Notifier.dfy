/** The notifier: user streams, the two indexes over them, and the queue of events that
    wait for earlier ones to be persisted. */
module Notifier {
  import opened Common
  import opened StreamTokens

  class Deferred {
    var fired: Option<Token>

    constructor (value: Option<Token>)
      ensures fired == value
    {
      fired := value;
    }
  }

  class UserStream {
    const userId: string
    var rooms: set<string>
    var currentToken: Token
    var lastNotifiedToken: Token
    var lastNotifiedMs: int
    var listeners: nat
    var notifyDeferred: Deferred
    ghost var wakeUps: nat

    constructor (userId: string, rooms: set<string>, token: Token, now: int)
      ensures this.userId == userId && this.rooms == rooms && currentToken == token && lastNotifiedMs == now
      ensures listeners == 0 && wakeUps == 0 && fresh(notifyDeferred) && Valid()
    {
      this.userId, this.rooms, currentToken, lastNotifiedToken := userId, rooms, token, token;
      lastNotifiedMs, listeners, wakeUps := now, 0, 0;
      notifyDeferred := new Deferred(None);
    }

    /** The current deferred has not fired, and the last wake-up told all there is. */
    predicate Valid()
      reads this, notifyDeferred
    {
      notifyDeferred.fired.None? && lastNotifiedToken == currentToken
    }

    /** Fires the deferred everybody listens on and puts a new one in its place. */
    method Notify(move: Move, now: int)
      requires Valid()
      modifies this`currentToken, this`lastNotifiedToken, this`lastNotifiedMs, this`listeners, this`notifyDeferred, this`wakeUps, notifyDeferred
      ensures Valid() && fresh(notifyDeferred) && listeners == 0 && wakeUps == old(wakeUps) + 1
      ensures currentToken == Advance(old(currentToken), move) && lastNotifiedMs == now
      ensures old(notifyDeferred).fired == Some(currentToken)
    {
      currentToken := Advance(currentToken, move);
      lastNotifiedToken := currentToken;
      lastNotifiedMs := now;
      var fires := notifyDeferred;
      notifyDeferred := new Deferred(None);
      listeners, wakeUps := 0, wakeUps + 1;
      fires.fired := Some(currentToken);
    }

    /** A listener is left waiting only if its token is the stream's current one. */
    method NewListener(token: Token) returns (d: Deferred)
      requires Valid()
      modifies this`listeners
      ensures Valid()
      ensures token != currentToken ==> fresh(d) && d.fired == Some(currentToken) && listeners == old(listeners)
      ensures token == currentToken ==> d == notifyDeferred && listeners == old(listeners) + 1
      ensures d.fired.None? <==> token == currentToken
    {
      if lastNotifiedToken != token {
        d := new Deferred(Some(currentToken));
      } else {
        d := notifyDeferred;
        listeners := listeners + 1;
      }
    }
  }

  /** No two streams share a deferred, so waking one wakes no listener of another. */
  ghost predicate StreamsValid(known: set<UserStream>)
    reads known, set s | s in known :: s.notifyDeferred
  {
    && (forall s <- known :: s.Valid())
    && (forall s, x | s in known && x in known && s != x :: s.notifyDeferred != x.notifyDeferred)
  }

  /** The stream was notified exactly once, and whoever was listening has been told. */
  twostate predicate WokenOnce(s: UserStream, was: Deferred, move: Move)
    reads s, was
  {
    && s.wakeUps == old(s.wakeUps) + 1
    && s.currentToken == Advance(old(s.currentToken), move)
    && was.fired == Some(s.currentToken) && s.notifyDeferred != was
  }

  twostate predicate LeftAlone(s: UserStream)
    reads s
  {
    s.wakeUps == old(s.wakeUps) && s.currentToken == old(s.currentToken) && s.notifyDeferred == old(s.notifyDeferred)
  }

  method NotifyAll(targets: set<UserStream>, ghost known: set<UserStream>, move: Move, now: int)
    requires targets <= known && StreamsValid(known)
    modifies targets`currentToken, targets`lastNotifiedToken, targets`lastNotifiedMs, targets`listeners, targets`notifyDeferred, targets`wakeUps
    modifies set s | s in targets :: s.notifyDeferred
    ensures StreamsValid(known)
    ensures forall s <- known - targets :: LeftAlone(s)
    ensures forall s <- targets :: WokenOnce(s, old(s.notifyDeferred), move)
  {
    var todo := targets;
    while todo != {}
      invariant todo <= targets && StreamsValid(known)
      invariant forall s <- todo :: LeftAlone(s)
      invariant forall s <- targets - todo :: WokenOnce(s, old(s.notifyDeferred), move)
    {
      var s :| s in todo;
      s.Notify(move, now);
      todo := todo - {s};
    }
  }

  datatype PendingEntry = PendingEntry(
    position: EventPosition, extraUsers: set<string>, roomId: string, joins: Option<string>)

  // ------------------------------------------------------------ the pending queue

  /** The entries that still have to wait at `token`, and those that may go, in order. */
  function Waiting(entries: seq<PendingEntry>, token: WriterToken): seq<PendingEntry> {
    if entries == [] then []
    else (if PersistedAfter(entries[0].position, token) then [entries[0]] else []) + Waiting(entries[1..], token)
  }

  function Ripe(entries: seq<PendingEntry>, token: WriterToken): seq<PendingEntry> {
    if entries == [] then []
    else (if PersistedAfter(entries[0].position, token) then [] else [entries[0]]) + Ripe(entries[1..], token)
  }

  lemma {:induction false} WaitingAppend(entries: seq<PendingEntry>, e: PendingEntry, token: WriterToken)
    ensures Waiting(entries + [e], token)
            == Waiting(entries, token) + (if PersistedAfter(e.position, token) then [e] else [])
    ensures Ripe(entries + [e], token)
            == Ripe(entries, token) + (if PersistedAfter(e.position, token) then [] else [e])
  {
    if entries == [] {
      assert entries + [e] == [e];
    } else {
      assert (entries + [e])[1..] == entries[1..] + [e];
      WaitingAppend(entries[1..], e, token);
    }
  }

  lemma WaitingNext(entries: seq<PendingEntry>, i: nat, token: WriterToken)
    requires i < |entries|
    ensures Waiting(entries[..i + 1], token)
            == Waiting(entries[..i], token) + (if PersistedAfter(entries[i].position, token) then [entries[i]] else [])
    ensures Ripe(entries[..i + 1], token)
            == Ripe(entries[..i], token) + (if PersistedAfter(entries[i].position, token) then [] else [entries[i]])
  {
    assert entries[..i + 1] == entries[..i] + [entries[i]];
    WaitingAppend(entries[..i], entries[i], token);
  }

  lemma {:induction false} SplitConserves(entries: seq<PendingEntry>, token: WriterToken)
    ensures multiset(Waiting(entries, token)) + multiset(Ripe(entries, token)) == multiset(entries)
    ensures forall e <- Waiting(entries, token) :: PersistedAfter(e.position, token)
    ensures forall e <- Ripe(entries, token) :: !PersistedAfter(e.position, token)
  {
    if entries != [] {
      SplitConserves(entries[1..], token);
      assert entries == [entries[0]] + entries[1..];
    }
  }

  datatype QueueStep = Append(entry: PendingEntry) | Flush(token: WriterToken)

  /** Entries released so far, each with the token that released it. */
  datatype Queue = Queue(pending: seq<PendingEntry>, released: seq<(PendingEntry, WriterToken)>)

  function WithToken(entries: seq<PendingEntry>, token: WriterToken): seq<(PendingEntry, WriterToken)> {
    seq(|entries|, i requires 0 <= i < |entries| => (entries[i], token))
  }

  function QueueAfter(steps: seq<QueueStep>): Queue {
    if steps == [] then Queue([], [])
    else
      var q := QueueAfter(steps[..|steps| - 1]);
      match steps[|steps| - 1]
      case Append(e) => q.(pending := q.pending + [e])
      case Flush(t) => Queue(Waiting(q.pending, t), q.released + WithToken(Ripe(q.pending, t), t))
  }

  function Appended(steps: seq<QueueStep>): multiset<PendingEntry> {
    if steps == [] then multiset{}
    else
      var last := steps[|steps| - 1];
      Appended(steps[..|steps| - 1]) + (if last.Append? then multiset{last.entry} else multiset{})
  }

  function ReleasedEntries(released: seq<(PendingEntry, WriterToken)>): seq<PendingEntry> {
    seq(|released|, i requires 0 <= i < |released| => released[i].0)
  }

  lemma FlushConserves(q: Queue, token: WriterToken)
    ensures multiset(Waiting(q.pending, token)) + multiset(ReleasedEntries(q.released + WithToken(Ripe(q.pending, token), token)))
            == multiset(q.pending) + multiset(ReleasedEntries(q.released))
  {
    var ripe := Ripe(q.pending, token);
    assert ReleasedEntries(q.released + WithToken(ripe, token)) == ReleasedEntries(q.released) + ripe;
    SplitConserves(q.pending, token);
  }

  lemma FlushIsNeverEarly(q: Queue, token: WriterToken)
    requires forall i | 0 <= i < |q.released| :: !PersistedAfter(q.released[i].0.position, q.released[i].1)
    ensures var released := q.released + WithToken(Ripe(q.pending, token), token);
            forall i | 0 <= i < |released| :: !PersistedAfter(released[i].0.position, released[i].1)
  {
    SplitConserves(q.pending, token);
    var ripe := Ripe(q.pending, token);
    assert forall i | 0 <= i < |ripe| :: ripe[i] in ripe;
  }

  /** Every entry is in the queue or was released, exactly once; none was released before
      its position was reached; and none is kept once a flush has reached it. */
  lemma {:induction false} ReleasedExactlyOnce(steps: seq<QueueStep>)
    ensures var q := QueueAfter(steps);
            && multiset(q.pending) + multiset(ReleasedEntries(q.released)) == Appended(steps)
            && (forall i | 0 <= i < |q.released| :: !PersistedAfter(q.released[i].0.position, q.released[i].1))
            && (steps != [] && steps[|steps| - 1].Flush? ==>
                  forall e <- q.pending :: PersistedAfter(e.position, steps[|steps| - 1].token))
  {
    if steps != [] {
      ReleasedExactlyOnce(steps[..|steps| - 1]);
      var last := steps[|steps| - 1];
      if last.Flush? {
        var before := QueueAfter(steps[..|steps| - 1]);
        FlushConserves(before, last.token);
        FlushIsNeverEarly(before, last.token);
        SplitConserves(before.pending, last.token);
      }
    }
  }

  // --------------------------------------------------------------- the notifier

  type RoomIndex = map<string, set<UserStream>>

  function InRoom(index: RoomIndex, room: string): set<UserStream> {
    if room in index then index[room] else {}
  }

  method AddToRooms(index: RoomIndex, rooms: set<string>, s: UserStream) returns (r: RoomIndex)
    ensures forall room :: InRoom(r, room) == InRoom(index, room) + (if room in rooms then {s} else {})
  {
    r := index;
    var todo := rooms;
    while todo != {}
      invariant todo <= rooms
      invariant forall room :: InRoom(r, room) == InRoom(index, room) + (if room in rooms - todo then {s} else {})
    {
      var room :| room in todo;
      r := r[room := InRoom(r, room) + {s}];
      todo := todo - {room};
    }
  }

  method DiscardFromRooms(index: RoomIndex, rooms: set<string>, s: UserStream) returns (r: RoomIndex)
    ensures forall room :: InRoom(r, room) == InRoom(index, room) - (if room in rooms then {s} else {})
  {
    r := index;
    var todo := rooms;
    while todo != {}
      invariant todo <= rooms
      invariant forall room :: InRoom(r, room) == InRoom(index, room) - (if room in rooms - todo then {s} else {})
    {
      var room :| room in todo;
      if room in r { r := r[room := r[room] - {s}]; }
      todo := todo - {room};
    }
  }

  predicate IsRegistered(users: map<string, UserStream>, s: UserStream) {
    s.userId in users && users[s.userId] == s
  }

  predicate Listed(index: RoomIndex, s: UserStream) { exists r <- index :: s in index[r] }

  /** The two indexes agree: a room lists registered streams only. */
  ghost predicate AgreeOn(users: map<string, UserStream>, index: RoomIndex) {
    forall r <- index, s <- index[r] :: IsRegistered(users, s)
  }

  lemma AgreeAfterRegisterIff(users: map<string, UserStream>, index: RoomIndex, after: RoomIndex, rooms: set<string>, s: UserStream)
    requires AgreeOn(users, index) && (s.userId in users ==> users[s.userId].userId == s.userId)
    requires forall r :: InRoom(after, r) == InRoom(index, r) + (if r in rooms then {s} else {})
    ensures AgreeOn(users[s.userId := s], after) <==>
            s.userId !in users || users[s.userId] == s || !Listed(index, users[s.userId])
  {
    var now := users[s.userId := s];
    if s.userId in users && users[s.userId] != s && Listed(index, users[s.userId]) {
      var r :| r in index && users[s.userId] in index[r];
      assert users[s.userId] in InRoom(after, r);
      assert r in after && !IsRegistered(now, users[s.userId]);
    } else {
      forall r, x | r in after && x in after[r] ensures IsRegistered(now, x) {
        assert x in InRoom(after, r);
        if x != s { assert x in InRoom(index, r) && IsRegistered(users, x) && Listed(index, x); }
      }
    }
  }

  lemma AgreeAfterRemove(users: map<string, UserStream>, index: RoomIndex, after: RoomIndex, s: UserStream)
    requires AgreeOn(users, index) && IsRegistered(users, s)
    requires forall r :: InRoom(after, r) == InRoom(index, r) - {s}
    ensures AgreeOn(users - {s.userId}, after)
  {
    forall r, x | r in after && x in after[r] ensures IsRegistered(users - {s.userId}, x) {
      assert x in InRoom(after, r);
      assert x in InRoom(index, r) && IsRegistered(users, x);
    }
  }

  class NotifierService {
    var userToUserStream: map<string, UserStream>
    var roomToUserStreams: map<string, set<UserStream>>
    var pendingNewRoomEvents: seq<PendingEntry>
    ghost var known: set<UserStream>

    constructor ()
      ensures Valid() && Agree() && userToUserStream == map[] && pendingNewRoomEvents == []
    {
      userToUserStream, roomToUserStreams, pendingNewRoomEvents, known := map[], map[], [], {};
    }

    predicate Registered(s: UserStream)
      reads this`userToUserStream
    {
      IsRegistered(userToUserStream, s)
    }

    /** A room lists only streams that name it, and every registered stream that does. */
    ghost predicate Valid()
      reads this, known`rooms
    {
      && (forall u <- userToUserStream :: userToUserStream[u].userId == u && userToUserStream[u] in known)
      && (forall r, s | s in InRoom(roomToUserStreams, r) :: s in known && r in s.rooms)
      && (forall u, r | u in userToUserStream && r in userToUserStream[u].rooms ::
            userToUserStream[u] in InRoom(roomToUserStreams, r))
    }

    ghost predicate Agree()
      reads this`userToUserStream, this`roomToUserStreams
    {
      AgreeOn(userToUserStream, roomToUserStreams)
    }

    /** A stream registered over another of the user leaves that one behind in its rooms: the
        indexes go on agreeing exactly when there was none, or it was in no room. */
    method RegisterWithKeys(s: UserStream)
      requires Valid()
      modifies this
      ensures Valid() && known == old(known) + {s}
      ensures userToUserStream == old(userToUserStream)[s.userId := s]
      ensures forall r :: InRoom(roomToUserStreams, r) == old(InRoom(roomToUserStreams, r)) + (if r in s.rooms then {s} else {})
      ensures pendingNewRoomEvents == old(pendingNewRoomEvents)
      ensures old(Agree()) ==>
                (Agree() <==> s.userId !in old(userToUserStream) || old(userToUserStream[s.userId]) == s
                              || !Listed(old(roomToUserStreams), old(userToUserStream[s.userId])))
    {
      ghost var users := userToUserStream;
      userToUserStream := userToUserStream[s.userId := s];
      known := known + {s};
      var before := roomToUserStreams;
      roomToUserStreams := AddToRooms(before, s.rooms, s);
      forall u, r | u in userToUserStream && r in userToUserStream[u].rooms
        ensures userToUserStream[u] in InRoom(roomToUserStreams, r)
      {
        assert u != s.userId ==> userToUserStream[u] in InRoom(before, r);
      }
      if old(Agree()) { AgreeAfterRegisterIff(users, before, roomToUserStreams, s.rooms, s); }
    }

    method UserJoinedRoom(userId: string, room: string)
      requires Valid()
      modifies this`roomToUserStreams, known`rooms
      ensures Valid() && (old(Agree()) ==> Agree())
      ensures userId !in userToUserStream ==> roomToUserStreams == old(roomToUserStreams) && unchanged(known)
      ensures userId in userToUserStream ==>
                var s := userToUserStream[userId];
                && s.rooms == old(s.rooms) + {room}
                && (forall x <- known :: x != s ==> x.rooms == old(x.rooms))
    {
      if userId in userToUserStream {
        var s := userToUserStream[userId];
        roomToUserStreams := roomToUserStreams[room := InRoom(roomToUserStreams, room) + {s}];
        s.rooms := s.rooms + {room};
        assert forall r :: old(InRoom(roomToUserStreams, r)) <= InRoom(roomToUserStreams, r);
      }
    }

    method RemoveStream(s: UserStream)
      requires Valid() && Registered(s)
      modifies this`userToUserStream, this`roomToUserStreams
      ensures Valid() && (old(Agree()) ==> Agree())
      ensures userToUserStream == old(userToUserStream) - {s.userId}
      ensures forall r :: InRoom(roomToUserStreams, r) == old(InRoom(roomToUserStreams, r)) - {s}
    {
      var before := roomToUserStreams;
      roomToUserStreams := DiscardFromRooms(before, s.rooms, s);
      userToUserStream := userToUserStream - {s.userId};
      forall r ensures InRoom(roomToUserStreams, r) == InRoom(before, r) - {s} {
        assert r !in s.rooms ==> s !in InRoom(before, r);
      }
      if old(Agree()) { AgreeAfterRemove(old(userToUserStream), before, roomToUserStreams, s); }
    }

    /** Drops exactly the streams nobody listens on that were last notified too long ago. */
    method RemoveExpiredStreams(now: int)
      requires Valid()
      modifies this`userToUserStream, this`roomToUserStreams
      ensures Valid() && (old(Agree()) ==> Agree())
      ensures userToUserStream == map u | u in old(userToUserStream)
                && !(old(userToUserStream)[u].listeners == 0 && old(userToUserStream)[u].lastNotifiedMs < now - 600000)
                :: old(userToUserStream)[u]
    {
      var all := userToUserStream;
      var expired := set u | u in all && all[u].listeners == 0 && all[u].lastNotifiedMs < now - 600000;
      var todo := expired;
      while todo != {}
        invariant Valid() && todo <= expired && (old(Agree()) ==> Agree())
        invariant userToUserStream == all - (expired - todo)
      {
        var u :| u in todo;
        RemoveStream(all[u]);
        todo := todo - {u};
        assert all - (expired - todo) == (all - (expired - todo - {u})) - {u};
      }
      assert expired - todo == expired;
    }

    /** The streams to wake for these users and rooms. */
    function Targets(users: set<string>, rooms: set<string>): set<UserStream>
      reads this`userToUserStream, this`roomToUserStreams
    {
      (set u | u in users && u in userToUserStream :: userToUserStream[u])
      + (set r, s | r in rooms && s in InRoom(roomToUserStreams, r) :: s)
    }

    /** Those of the users who have a stream, and all that a room lists. */
    lemma TargetsIff(users: set<string>, rooms: set<string>, s: UserStream)
      requires Valid()
      ensures s in Targets(users, rooms) <==>
              || (s.userId in users && s.userId in userToUserStream && userToUserStream[s.userId] == s)
              || exists r <- rooms :: r in roomToUserStreams && s in roomToUserStreams[r]
    {
      if r :| r in rooms && r in roomToUserStreams && s in roomToUserStreams[r] {
        assert s in InRoom(roomToUserStreams, r);
      }
    }

    lemma TargetsAreKnown(users: set<string>, rooms: set<string>)
      requires Valid()
      ensures Targets(users, rooms) <= known
    {
    }

    lemma TargetsHearOfRooms(users: set<string>, rooms: set<string>)
      requires Valid()
      ensures forall u <- users :: u in userToUserStream ==> userToUserStream[u] in Targets(users, rooms)
      ensures forall u <- userToUserStream :: !(userToUserStream[u].rooms !! rooms) ==> userToUserStream[u] in Targets(users, rooms)
      ensures forall s <- known :: s.userId !in users && s.rooms !! rooms ==> s !in Targets(users, rooms)
    {
      forall u | u in userToUserStream && !(userToUserStream[u].rooms !! rooms)
        ensures userToUserStream[u] in Targets(users, rooms)
      {
        var r :| r in userToUserStream[u].rooms && r in rooms;
        assert userToUserStream[u] in InRoom(roomToUserStreams, r);
      }
    }

    /** Wakes every targeted stream exactly once and no other. */
    method OnNewEvent(move: Move, users: set<string>, rooms: set<string>, now: int)
      requires Valid() && StreamsValid(known)
      modifies known`currentToken, known`lastNotifiedToken, known`lastNotifiedMs, known`listeners, known`notifyDeferred, known`wakeUps
      modifies set s | s in known :: s.notifyDeferred
      ensures Valid() && StreamsValid(known)
      ensures forall s <- Targets(users, rooms) :: WokenOnce(s, old(s.notifyDeferred), move)
      ensures forall s <- known - Targets(users, rooms) :: LeftAlone(s)
      ensures forall u <- users :: u in userToUserStream ==>
                WokenOnce(userToUserStream[u], old(userToUserStream[u].notifyDeferred), move)
      ensures forall u <- userToUserStream :: !(userToUserStream[u].rooms !! rooms) ==>
                WokenOnce(userToUserStream[u], old(userToUserStream[u].notifyDeferred), move)
      ensures forall s <- known :: s.userId !in users && s.rooms !! rooms ==> LeftAlone(s)
    {
      var targets := Targets(users, rooms);
      TargetsAreKnown(users, rooms);
      TargetsHearOfRooms(users, rooms);
      NotifyAll(targets, known, move, now);
    }

    /** Releases the ripe entries, in order, and keeps the others, in order. */
    method SplitPending(token: WriterToken) returns (ripe: seq<PendingEntry>)
      modifies this`pendingNewRoomEvents
      ensures ripe == Ripe(old(pendingNewRoomEvents), token)
      ensures pendingNewRoomEvents == Waiting(old(pendingNewRoomEvents), token)
    {
      var pending := pendingNewRoomEvents;
      pendingNewRoomEvents, ripe := [], [];
      for i := 0 to |pending|
        invariant pendingNewRoomEvents == Waiting(pending[..i], token) && ripe == Ripe(pending[..i], token)
      {
        WaitingNext(pending, i, token);
        if PersistedAfter(pending[i].position, token) {
          pendingNewRoomEvents := pendingNewRoomEvents + [pending[i]];
        } else {
          ripe := ripe + [pending[i]];
        }
      }
      assert pending[..|pending|] == pending;
    }

    /** The rooms these entries put a stream into. */
    function JoinedRooms(entries: seq<PendingEntry>, s: UserStream): set<string>
      reads this`userToUserStream
    {
      set e | e in entries && e.joins == Some(s.userId) && Registered(s) :: e.roomId
    }

    method AdmitJoiner(e: PendingEntry)
      requires Valid() && StreamsValid(known)
      modifies this`roomToUserStreams, known`rooms
      ensures Valid() && StreamsValid(known)
      ensures forall s <- known :: s.rooms == old(s.rooms) + JoinedRooms([e], s)
    {
      if e.joins.Some? {
        UserJoinedRoom(e.joins.value, e.roomId);
      }
    }

    lemma JoinedRoomsNext(entries: seq<PendingEntry>, i: nat)
      requires i < |entries|
      ensures forall s <- known ::
                JoinedRooms(entries[..i + 1], s) == JoinedRooms(entries[..i], s) + JoinedRooms([entries[i]], s)
    {
      assert entries[..i + 1] == entries[..i] + [entries[i]];
    }

    /** Puts the users who join by these entries into their rooms, in both indexes. */
    method AdmitJoiners(entries: seq<PendingEntry>)
      requires Valid() && StreamsValid(known)
      modifies this`roomToUserStreams, known`rooms
      ensures Valid() && StreamsValid(known)
      ensures forall s <- known :: s.rooms == old(s.rooms) + JoinedRooms(entries, s)
    {
      for i := 0 to |entries|
        invariant Valid() && StreamsValid(known)
        invariant forall s <- known :: s.rooms == old(s.rooms) + JoinedRooms(entries[..i], s)
      {
        JoinedRoomsNext(entries, i);
        AdmitJoiner(entries[i]);
      }
      assert entries[..|entries|] == entries;
    }

    /** Some entry names the stream, by user or by room. */
    predicate Concerned(entries: seq<PendingEntry>, s: UserStream)
      reads this`userToUserStream, this`roomToUserStreams
    {
      exists e <- entries :: s in Targets(e.extraUsers, {e.roomId})
    }

    lemma TargetsAreConcerned(entries: seq<PendingEntry>, users: set<string>, rooms: set<string>, s: UserStream)
      requires users == (set e, u | e in entries && u in e.extraUsers :: u) && rooms == (set e | e in entries :: e.roomId)
      ensures s in Targets(users, rooms) <==> Concerned(entries, s)
    {
      if u :| u in users && u in userToUserStream && userToUserStream[u] == s {
        var e :| e in entries && u in e.extraUsers;
        assert s in Targets(e.extraUsers, {e.roomId});
      } else if r :| r in rooms && s in InRoom(roomToUserStreams, r) {
        var e :| e in entries && e.roomId == r;
        assert s in Targets(e.extraUsers, {e.roomId});
      }
    }

    /** Wakes every stream an entry concerns, once, and no other. */
    method WakeFor(entries: seq<PendingEntry>, token: WriterToken, now: int)
      requires Valid() && StreamsValid(known)
      modifies known`currentToken, known`lastNotifiedToken, known`lastNotifiedMs, known`listeners, known`notifyDeferred, known`wakeUps
      modifies set s | s in known :: s.notifyDeferred
      ensures Valid() && StreamsValid(known)
      ensures forall s <- known :: if Concerned(entries, s) then WokenOnce(s, old(s.notifyDeferred), RoomMove(token)) else LeftAlone(s)
    {
      var users := set e, u | e in entries && u in e.extraUsers :: u;
      var rooms := set e | e in entries :: e.roomId;
      forall s | s in known ensures s in Targets(users, rooms) <==> Concerned(entries, s) {
        TargetsAreConcerned(entries, users, rooms, s);
      }
      if users != {} || rooms != {} {
        OnNewEvent(RoomMove(token), users, rooms, now);
      }
    }

    method ReleaseEntries(entries: seq<PendingEntry>, token: WriterToken, now: int)
      requires Valid() && StreamsValid(known)
      modifies this`roomToUserStreams
      modifies known`rooms, known`currentToken, known`lastNotifiedToken, known`lastNotifiedMs, known`listeners, known`notifyDeferred, known`wakeUps
      modifies set s | s in known :: s.notifyDeferred
      ensures Valid() && StreamsValid(known)
      ensures forall s <- known :: if Concerned(entries, s) then WokenOnce(s, old(s.notifyDeferred), RoomMove(token)) else LeftAlone(s)
      ensures forall s <- known :: s.rooms == old(s.rooms) + JoinedRooms(entries, s)
    {
      AdmitJoiners(entries);
      WakeFor(entries, token, now);
    }

    /** Lets go of every entry the room stream has reached, and wakes each stream of its
        extra users and of its room, a member who just joined included, and no other. */
    method NotifyPendingNewRoomEvents(token: WriterToken, now: int)
      requires Valid() && StreamsValid(known)
      modifies this`pendingNewRoomEvents, this`roomToUserStreams
      modifies known`rooms, known`currentToken, known`lastNotifiedToken, known`lastNotifiedMs, known`listeners, known`notifyDeferred, known`wakeUps
      modifies set s | s in known :: s.notifyDeferred
      ensures Valid() && StreamsValid(known)
      ensures pendingNewRoomEvents == Waiting(old(pendingNewRoomEvents), token)
      ensures forall s <- known :: if Concerned(Ripe(old(pendingNewRoomEvents), token), s) then WokenOnce(s, old(s.notifyDeferred), RoomMove(token)) else LeftAlone(s)
      ensures forall s <- known :: s.rooms == old(s.rooms) + JoinedRooms(Ripe(old(pendingNewRoomEvents), token), s)
    {
      var ripe := SplitPending(token);
      ReleaseEntries(ripe, token, now);
    }
  }
}
