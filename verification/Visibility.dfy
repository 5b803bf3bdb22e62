/** History visibility: the three filters that decide who is shown an event. */
module Visibility {
  import opened Common
  import RoomEvents

  type Membership = RoomEvents.Membership

  datatype Kind = Member | HistoryVisibility | Dummy | Aliases | OtherKind(name: string)

  datatype Setting = WorldReadable | Shared | Invited | Joined | UnknownSetting(text: string)

  /** `membership` and `setting` are the content fields of membership and history-visibility
      events, the `prev` fields those of the content they replaced. */
  datatype Event = Event(
    eventId: string, kind: Kind, stateKey: Option<string>, sender: string, roomId: string, timestamp: int,
    softFailed: bool, outlier: bool,
    membership: Option<Membership>, prevMembership: Option<Membership>,
    setting: Option<Setting>, prevSetting: Option<Setting>)

  type Key = (Kind, string)
  type StateIds = map<Key, string>
  type StateMap = map<Key, Event>

  const VISIBILITY_KEY: Key := (HistoryVisibility, "")

  /** What the filters read from the database: events by id, the state before each event,
      who ignores whom, how long rooms keep messages, and erased users. */
  datatype Storage = Storage(
    events: map<string, Event>,
    stateBefore: map<string, StateIds>,
    ignores: set<(string, string)>,
    maxLifetime: map<string, int>,
    erased: set<string>,
    partialRooms: set<string>)

  function IdsBefore(db: Storage, e: Event): StateIds {
    if e.eventId in db.stateBefore then db.stateBefore[e.eventId] else map[]
  }

  /** The state at an event, its own effect included. */
  function IdsAt(db: Storage, e: Event): StateIds {
    if e.stateKey.Some? then IdsBefore(db, e)[(e.kind, e.stateKey.value) := e.eventId] else IdsBefore(db, e)
  }

  function EventsOf(db: Storage, ids: StateIds): StateMap {
    map key | key in ids && ids[key] in db.events :: db.events[ids[key]]
  }

  // ------------------------------------------------------------- pure decisions

  datatype Shown = Whole(event: Event) | Pruned(event: Event)

  datatype MembershipCheck = MembershipCheck(allowed: bool, joined: bool)

  function Priority(m: Membership): nat
    requires !m.UnknownMembership?
  {
    match m
    case Join => 0
    case Invite => 1
    case Knock => 2
    case Leave => 3
    case Ban => 4
  }

  function KnownOrLeave(m: Option<Membership>): (k: Membership)
    ensures !k.UnknownMembership?
  {
    if m.None? || m.value.UnknownMembership? then RoomEvents.Leave else m.value
  }

  predicate OwnMembership(e: Event, user: string) { e.kind == Member && e.stateKey == Some(user) }

  function MembershipAt(user: string, state: StateMap): Option<Membership> {
    if (Member, user) in state then state[(Member, user)].membership else None
  }

  function CheckGivenMembership(m: Option<Membership>, setting: Setting, peeking: bool): MembershipCheck {
    if m == Some(RoomEvents.Join) then MembershipCheck(true, true)
    else if setting == Joined then MembershipCheck(false, false)
    else if setting == Invited then MembershipCheck(m == Some(RoomEvents.Invite), false)
    else if setting == Shared && peeking then MembershipCheck(false, false)
    else MembershipCheck(true, false)
  }

  function CheckMembership(user: string, e: Event, setting: Setting, state: StateMap, peeking: bool): MembershipCheck {
    if OwnMembership(e, user) then
      var now := KnownOrLeave(e.membership);
      var before := KnownOrLeave(e.prevMembership);
      if now == RoomEvents.Leave && (before == RoomEvents.Join || before == RoomEvents.Invite) then
        MembershipCheck(true, false)
      else
        CheckGivenMembership(Some(if Priority(before) < Priority(now) then before else now), setting, peeking)
    else CheckGivenMembership(MembershipAt(user, state), setting, peeking)
  }

  /** Checks that only apply to events on their way to a client. */
  predicate DeniedToClient(e: Event, now: int, maxLifetime: Option<int>, senderIgnored: bool) {
    || e.kind == Dummy
    || (e.stateKey.None? && senderIgnored)
    || e.kind == Aliases
    || (e.stateKey.None? && maxLifetime.Some? && e.timestamp < now - maxLifetime.value)
  }

  function Rank(s: Setting): nat
    requires !s.UnknownSetting?
  {
    match s
    case WorldReadable => 0
    case Shared => 1
    case Invited => 2
    case Joined => 3
  }

  function KnownOrShared(s: Option<Setting>): (k: Setting)
    ensures !k.UnknownSetting?
  {
    if s.None? || s.value.UnknownSetting? then Shared else s.value
  }

  /** A change of visibility counts as the laxer of its two sides. */
  predicate LaxHistory(e: Event, setting: Setting, peeking: bool)
    requires !setting.UnknownSetting?
  {
    var before := KnownOrShared(e.prevSetting);
    var effective := if e.kind == HistoryVisibility && Rank(before) < Rank(setting) then before else setting;
    (effective == Shared && !peeking) || effective == WorldReadable
  }

  function EffectiveSetting(state: StateMap): (s: Setting)
    ensures !s.UnknownSetting?
  {
    if VISIBILITY_KEY in state then KnownOrShared(state[VISIBILITY_KEY].setting) else Shared
  }

  function LifetimeOf(db: Storage, room: string): Option<int> {
    if room in db.maxLifetime then Some(db.maxLifetime[room]) else None
  }

  // --------------------------------------------------------- one client, many events

  function StateForClient(db: Storage, user: string, e: Event): StateMap {
    var wanted := {VISIBILITY_KEY, (Member, user)};
    map key | key in EventsOf(db, IdsAt(db, e)) && key in wanted :: EventsOf(db, IdsAt(db, e))[key]
  }

  /** What this user gets to see of the event. */
  function ClientView(db: Storage, user: string, e: Event, peeking: bool, always: set<string>, now: int): Option<Shown> {
    if e.softFailed then None
    else if DeniedToClient(e, now, LifetimeOf(db, e.roomId), (user, e.sender) in db.ignores) then None
    else if e.eventId in always then Some(Whole(e))
    else if e.outlier then (if OwnMembership(e, user) then Some(Whole(e)) else None)
    else
      var state := StateForClient(db, user, e);
      var setting := EffectiveSetting(state);
      var isErased := e.sender in db.erased;
      if !isErased && LaxHistory(e, setting, peeking) then Some(Whole(e))
      else
        var check := CheckMembership(user, e, setting, state, peeking);
        if !check.allowed then None
        else if isErased && !check.joined then Some(Pruned(e))
        else Some(Whole(e))
  }

  function ClientViews(db: Storage, user: string, events: seq<Event>, peeking: bool, always: set<string>, now: int): seq<Shown> {
    if events == [] then []
    else
      var last := ClientView(db, user, events[|events| - 1], peeking, always, now);
      ClientViews(db, user, events[..|events| - 1], peeking, always, now) + (if last.Some? then [last.value] else [])
  }

  /** The events of one room, in order, as this user may see them. */
  method FilterEventsForClient(db: Storage, user: string, events: seq<Event>, room: string, peeking: bool,
                               always: set<string>, now: int) returns (shown: seq<Shown>)
    requires forall e <- events :: e.roomId == room
    ensures shown == ClientViews(db, user, events, peeking, always, now)
  {
    var lifetime := LifetimeOf(db, room);
    var ignored := set pair | pair in db.ignores && pair.0 == user :: pair.1;
    shown := [];
    for i := 0 to |events|
      invariant shown == ClientViews(db, user, events[..i], peeking, always, now)
    {
      assert events[..i + 1][..i] == events[..i] && events[..i + 1][i] == events[i];
      var e := events[i];
      assert e in events && (e.sender in ignored <==> (user, e.sender) in db.ignores);
      if e.softFailed || DeniedToClient(e, now, lifetime, e.sender in ignored) { continue; }
      if e.eventId in always {
        shown := shown + [Whole(e)];
        continue;
      }
      if e.outlier {
        if OwnMembership(e, user) { shown := shown + [Whole(e)]; }
        continue;
      }
      var state := StateForClient(db, user, e);
      var setting := EffectiveSetting(state);
      if e.sender !in db.erased && LaxHistory(e, setting, peeking) {
        shown := shown + [Whole(e)];
        continue;
      }
      var check := CheckMembership(user, e, setting, state, peeking);
      if !check.allowed { continue; }
      shown := shown + [if e.sender in db.erased && !check.joined then Pruned(e) else Whole(e)];
    }
    assert events[..|events|] == events;
  }

  // --------------------------------------------------------- one event, many clients

  /** The state at an event that may not be stored yet: what was stored before it, read
      through a filter, plus the event itself. */
  function StateThroughFilter(db: Storage, e: Event, wanted: set<Key>): StateMap {
    var before := EventsOf(db, IdsBefore(db, e));
    var read := map key | key in before && key in wanted :: before[key];
    if e.stateKey.Some? then read[(e.kind, e.stateKey.value) := e] else read
  }

  /** Takes out, one by one, the users the event must not be sent to. */
  method DropDenied(db: Storage, users: set<string>, e: Event, now: int) returns (allowed: set<string>)
    ensures allowed == set user | user in users
                       && !DeniedToClient(e, now, LifetimeOf(db, e.roomId), (user, e.sender) in db.ignores)
  {
    var lifetime := LifetimeOf(db, e.roomId);
    var ignoredBy := set pair | pair in db.ignores && pair.1 == e.sender :: pair.0;
    allowed := users;
    var todo := users;
    while todo != {}
      invariant todo <= users && allowed <= users
      invariant forall user <- users :: user in allowed <==>
                  user in todo || !DeniedToClient(e, now, lifetime, (user, e.sender) in db.ignores)
    {
      var user :| user in todo;
      assert user in ignoredBy <==> (user, e.sender) in db.ignores;
      if DeniedToClient(e, now, lifetime, user in ignoredBy) { allowed := allowed - {user}; }
      todo := todo - {user};
    }
  }

  lemma FilterKeepsMembership(db: Storage, e: Event, users: set<string>, user: string)
    requires user in users
    ensures MembershipAt(user, StateThroughFilter(db, e, (set u | u in users :: (Member, u)) + {VISIBILITY_KEY}))
            == MembershipAt(user, StateThroughFilter(db, e, {(Member, user)}))
  {
    assert (Member, user) in (set u | u in users :: (Member, u));
  }

  /** The users whose membership lets them see an event when the history is not open. */
  method KeepMembers(db: Storage, users: set<string>, e: Event, setting: Setting, peeking: bool) returns (allowed: set<string>)
    ensures allowed == set user | user in users
              && CheckMembership(user, e, setting, StateThroughFilter(db, e, {(Member, user)}), peeking).allowed
  {
    var state := StateThroughFilter(db, e, (set user | user in users :: (Member, user)) + {VISIBILITY_KEY});
    forall user | user in users
      ensures CheckMembership(user, e, setting, state, peeking)
              == CheckMembership(user, e, setting, StateThroughFilter(db, e, {(Member, user)}), peeking)
    {
      FilterKeepsMembership(db, e, users, user);
    }
    allowed := set user | user in users && CheckMembership(user, e, setting, state, peeking).allowed;
  }

  /** The users, of those asked about, who may be told of an event going out to clients. */
  method FilterEventForClients(db: Storage, users: set<string>, e: Event, peeking: bool, now: int)
    returns (allowed: set<string>)
    ensures allowed == set user | user in users && MayBeTold(db, user, e, peeking, now)
  {
    if e.softFailed || users == {} { return {}; }
    allowed := DropDenied(db, users, e, now);
    if e.outlier {
      if e.kind == Member && e.stateKey.Some? && e.stateKey.value in allowed { return {e.stateKey.value}; }
      return {};
    }
    var setting := EffectiveSetting(StateThroughFilter(db, e, {VISIBILITY_KEY}));
    if LaxHistory(e, setting, peeking) { return; }
    allowed := KeepMembers(db, allowed, e, setting, peeking);
  }

  /** The per-event filter, for one user. */
  predicate MayBeTold(db: Storage, user: string, e: Event, peeking: bool, now: int) {
    && !e.softFailed
    && !DeniedToClient(e, now, LifetimeOf(db, e.roomId), (user, e.sender) in db.ignores)
    && if e.outlier then OwnMembership(e, user)
       else
         var setting := EffectiveSetting(StateThroughFilter(db, e, {VISIBILITY_KEY}));
         || LaxHistory(e, setting, peeking)
         || CheckMembership(user, e, setting, StateThroughFilter(db, e, {(Member, user)}), peeking).allowed
  }

  // -------------------------------------------------------------------- one server

  /** State ids name stored events of that type and state key. */
  ghost predicate Consistent(db: Storage) {
    && (forall id <- db.events :: db.events[id].eventId == id)
    && (forall id, key | id in db.stateBefore && key in db.stateBefore[id] ::
          && db.stateBefore[id][key] in db.events
          && db.events[db.stateBefore[id][key]].kind == key.0
          && db.events[db.stateBefore[id][key]].stateKey == Some(key.1))
  }

  ghost predicate Stored(db: Storage, e: Event) {
    e.eventId in db.events && db.events[e.eventId] == e
  }

  /** The raw visibility setting at an event; outliers count as shared. */
  function SettingForServer(db: Storage, e: Event): Setting {
    var state := EventsOf(db, IdsAt(db, e));
    if e.outlier || VISIBILITY_KEY !in state || state[VISIBILITY_KEY].setting.None? then Shared
    else state[VISIBILITY_KEY].setting.value
  }

  predicate LetsServerIn(m: Option<Membership>, setting: Setting) {
    m == Some(RoomEvents.Join) || (m == Some(RoomEvents.Invite) && setting == Invited)
  }

  /** The server may see the event: the history is open, or one of its users is in. */
  predicate VisibleToServer(db: Storage, target: string, e: Event) {
    var setting := SettingForServer(db, e);
    var state := EventsOf(db, IdsAt(db, e));
    || (setting != Invited && setting != Joined)
    || exists key <- state :: key.0 == Member && Domain(key.1) == Some(target) && LetsServerIn(state[key].membership, setting)
  }

  function MembershipsOfServer(db: Storage, e: Event, target: string): StateMap {
    var state := EventsOf(db, IdsAt(db, e));
    map key | key in state && key.0 == Member && Domain(key.1) == Some(target) :: state[key]
  }

  /** Every membership looked at belongs to the target server. */
  method CheckEventVisible(db: Storage, e: Event, target: string) returns (visible: bool)
    requires Consistent(db) && Stored(db, e)
    ensures visible == VisibleToServer(db, target, e)
  {
    var setting := SettingForServer(db, e);
    if setting != Invited && setting != Joined { return true; }
    var memberships := MembershipsOfServer(db, e, target);
    var todo := memberships.Keys;
    while todo != {}
      invariant todo <= memberships.Keys
      invariant forall key <- memberships.Keys - todo :: !LetsServerIn(memberships[key].membership, setting)
    {
      var key :| key in todo;
      assert memberships[key].stateKey.Some? && Domain(memberships[key].stateKey.value) == Some(target);
      if LetsServerIn(memberships[key].membership, setting) { return true; }
      todo := todo - {key};
    }
    var state := EventsOf(db, IdsAt(db, e));
    forall key | key in state && key.0 == Member && Domain(key.1) == Some(target)
      ensures !LetsServerIn(state[key].membership, setting)
    {
      assert key in memberships.Keys - todo;
    }
    return false;
  }

  function ServerView(db: Storage, target: string, local: string, e: Event, redact: bool,
                      dropErased: bool, dropPartial: bool): Option<Shown>
  {
    if VisibleToServer(db, target, e)
       && !(dropErased && e.sender in db.erased)
       && !(dropPartial && Domain(e.sender) != Some(local) && e.roomId in db.partialRooms)
    then Some(Whole(e))
    else if redact then Some(Pruned(e)) else None
  }

  function ServerViews(db: Storage, target: string, local: string, events: seq<Event>, redact: bool,
                       dropErased: bool, dropPartial: bool): seq<Shown>
  {
    if events == [] then []
    else
      var last := ServerView(db, target, local, events[|events| - 1], redact, dropErased, dropPartial);
      ServerViews(db, target, local, events[..|events| - 1], redact, dropErased, dropPartial)
      + (if last.Some? then [last.value] else [])
  }

  method FilterEventsForServer(db: Storage, target: string, local: string, events: seq<Event>, redact: bool,
                               dropErased: bool, dropPartial: bool) returns (shown: seq<Shown>)
    requires Consistent(db) && forall e <- events :: Stored(db, e)
    ensures shown == ServerViews(db, target, local, events, redact, dropErased, dropPartial)
  {
    var hidden: set<string> := if dropPartial
      then set e | e in events && Domain(e.sender) != Some(local) && e.roomId in db.partialRooms :: e.eventId else {};
    shown := [];
    for i := 0 to |events|
      invariant shown == ServerViews(db, target, local, events[..i], redact, dropErased, dropPartial)
    {
      assert events[..i + 1][..i] == events[..i] && events[..i + 1][i] == events[i];
      var e := events[i];
      var visible := CheckEventVisible(db, e, target);
      if e.eventId in hidden { visible := false; }
      if visible && !(dropErased && e.sender in db.erased) {
        shown := shown + [Whole(e)];
      } else if redact {
        shown := shown + [Pruned(e)];
      }
    }
    assert events[..|events|] == events;
  }

  // --------------------------------------------------------------------- agreement

  lemma SameState(db: Storage, user: string, e: Event)
    requires Stored(db, e)
    ensures EffectiveSetting(StateForClient(db, user, e)) == EffectiveSetting(StateThroughFilter(db, e, {VISIBILITY_KEY}))
    ensures !OwnMembership(e, user) ==>
              MembershipAt(user, StateForClient(db, user, e)) == MembershipAt(user, StateThroughFilter(db, e, {(Member, user)}))
  {}

  /** The two client filters agree; they can part only over erased senders, whom the
      per-event filter does not consider: there the per-client one also asks for a
      membership that lets the user in. */
  lemma ClientFiltersAgree(db: Storage, user: string, e: Event, peeking: bool, now: int)
    requires Stored(db, e)
    ensures ClientView(db, user, e, peeking, {}, now).Some? <==>
            && MayBeTold(db, user, e, peeking, now)
            && (e.sender in db.erased && !e.outlier ==>
                  var state := StateForClient(db, user, e);
                  CheckMembership(user, e, EffectiveSetting(state), state, peeking).allowed)
    ensures e.sender !in db.erased ==>
              (ClientView(db, user, e, peeking, {}, now).Some? <==> MayBeTold(db, user, e, peeking, now))
    ensures e.sender !in db.erased && MayBeTold(db, user, e, peeking, now) ==>
              ClientView(db, user, e, peeking, {}, now) == Some(Whole(e))
  {
    SameState(db, user, e);
  }

  /** Erased senders make a difference exactly at a change of visibility whose old side was
      open and whose new side shuts the user out. */
  lemma ErasedSendersMatterIff(db: Storage, user: string, e: Event, peeking: bool, now: int)
    requires Stored(db, e) && e.sender in db.erased
    ensures (ClientView(db, user, e, peeking, {}, now).Some? <==> MayBeTold(db, user, e, peeking, now))
            <==> !(&& !e.softFailed
                   && !DeniedToClient(e, now, LifetimeOf(db, e.roomId), (user, e.sender) in db.ignores)
                   && !e.outlier && e.kind == HistoryVisibility
                   && var state := StateForClient(db, user, e);
                      && LaxHistory(e, EffectiveSetting(state), peeking)
                      && !CheckMembership(user, e, EffectiveSetting(state), state, peeking).allowed)
  {
    ClientFiltersAgree(db, user, e, peeking, now);
    SameState(db, user, e);
  }

  /** That case occurs: somebody later erased closes the history of an open room, and a user
      outside it may be told of the event but is not shown it. */
  lemma ErasedSendersDoMatter(user: string, sender: string) returns (db: Storage, e: Event)
    ensures Consistent(db) && Stored(db, e) && e.sender == sender && sender in db.erased
    ensures MayBeTold(db, user, e, false, 0) && ClientView(db, user, e, false, {}, 0).None?
  {
    e := Event("$1", HistoryVisibility, Some(""), sender, "!r", 0, false, false, None, None, Some(Joined), Some(Shared));
    db := Storage(map[e.eventId := e], map[], {}, map[], {sender}, {});
    SameState(db, user, e);
    assert EventsOf(db, IdsAt(db, e)) == map[VISIBILITY_KEY := e];
  }

  lemma ServerSeesMember(db: Storage, target: string, user: string, e: Event)
    requires Domain(user) == Some(target) && !e.outlier
    requires var state := StateForClient(db, user, e);
             LetsServerIn(MembershipAt(user, state), SettingForServer(db, e))
    ensures VisibleToServer(db, target, e)
  {
    var key: Key := (Member, user);
    assert key in EventsOf(db, IdsAt(db, e));
  }

  /** Whatever a user is shown, their server is shown in full: for events that are neither
      the user's own membership nor a change of history visibility. */
  lemma ClientSeesOnlyWhatServerSees(db: Storage, target: string, local: string, user: string, e: Event, peeking: bool, now: int)
    requires Domain(user) == Some(target)
    requires !OwnMembership(e, user) && e.kind != HistoryVisibility
    requires e.sender !in db.erased
    requires ClientView(db, user, e, peeking, {}, now).Some?
    ensures forall redact, dropErased :: ServerView(db, target, local, e, redact, dropErased, false) == Some(Whole(e))
  {
    var state := StateForClient(db, user, e);
    var raw := SettingForServer(db, e);
    assert EffectiveSetting(state) == KnownOrShared(Some(raw));
    if raw == Invited || raw == Joined {
      ServerSeesMember(db, target, user, e);
    }
  }

  /** A room's change from shared to joined history, and then a user's departure. */
  function ClosingChange(user: string): Event {
    Event("$1", HistoryVisibility, Some(""), user, "!r", 0, false, false, None, None, Some(Joined), Some(Shared))
  }

  function Departure(user: string): Event {
    Event("$22", Member, Some(user), user, "!r", 0, false, false,
          Some(RoomEvents.Leave), Some(RoomEvents.Join), None, None)
  }

  function ClosedRoom(user: string): Storage {
    Storage(map["$1" := ClosingChange(user), "$22" := Departure(user)],
            map["$22" := map[VISIBILITY_KEY := "$1"]], {}, map[], {}, {})
  }

  lemma ClosedRoomState(user: string)
    ensures var db := ClosedRoom(user);
            && Consistent(db) && Stored(db, ClosingChange(user)) && Stored(db, Departure(user))
            && EventsOf(db, IdsAt(db, ClosingChange(user))) == map[VISIBILITY_KEY := ClosingChange(user)]
            && EventsOf(db, IdsAt(db, Departure(user)))
               == map[VISIBILITY_KEY := ClosingChange(user), (Member, user) := Departure(user)]
  {
    assert |"$1"| != |"$22"|;
  }

  lemma ClosingChangeStaysHere(target: string, user: string)
    ensures ClientView(ClosedRoom(user), user, ClosingChange(user), false, {}, 0).Some?
    ensures !VisibleToServer(ClosedRoom(user), target, ClosingChange(user))
  {
    ClosedRoomState(user);
  }

  lemma DepartureStaysHere(target: string, user: string)
    ensures ClientView(ClosedRoom(user), user, Departure(user), false, {}, 0).Some?
    ensures !VisibleToServer(ClosedRoom(user), target, Departure(user))
  {
    ClosedRoomState(user);
  }

  /** Both exceptions are needed: a user is shown the change that closes the history, and
      their own departure from a closed room, while their server is shown neither. */
  lemma ExceptionsAreNeeded(target: string, user: string) returns (db: Storage, change: Event, leave: Event)
    requires Domain(user) == Some(target)
    ensures Consistent(db) && Stored(db, change) && Stored(db, leave)
    ensures change.kind == HistoryVisibility && OwnMembership(leave, user)
    ensures ClientView(db, user, change, false, {}, 0).Some? && !VisibleToServer(db, target, change)
    ensures ClientView(db, user, leave, false, {}, 0).Some? && !VisibleToServer(db, target, leave)
  {
    db, change, leave := ClosedRoom(user), ClosingChange(user), Departure(user);
    ClosedRoomState(user);
    ClosingChangeStaysHere(target, user);
    DepartureStaysHere(target, user);
  }
}
