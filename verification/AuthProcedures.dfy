/** The two authorization checks that work through lists, proved against the rules. */
module AuthProcedures {
  import opened Common
  import opened RoomEvents
  import opened EventAuth

  method AppendRefs<K(!new)>(refs: seq<LevelRef>, keys: set<K>, toRef: K -> LevelRef) returns (r: seq<LevelRef>)
    ensures forall ref :: ref in r <==> ref in refs || exists k <- keys :: toRef(k) == ref
  {
    r := refs;
    var todo := keys;
    while todo != {}
      invariant todo <= keys
      invariant forall ref :: ref in r <==> ref in refs || exists k <- keys - todo :: toRef(k) == ref
    {
      var k :| k in todo;
      var done := keys - todo;
      assert keys - (todo - {k}) == done + {k};
      todo := todo - {k};
      r := r + [toRef(k)];
    }
    assert keys - todo == keys;
  }

  /** Every entry that must be compared, and no other, is on the list. */
  method LevelsToCheck(version: RoomVersion, current: Powers, proposed: Powers) returns (refs: seq<LevelRef>)
    ensures forall ref :: ref in refs <==> MustCompare(version, current, proposed, ref)
  {
    refs := [NamedRef(UsersDefault), NamedRef(EventsDefault), NamedRef(StateDefault), NamedRef(BanLevel),
             NamedRef(RedactLevel), NamedRef(KickLevel), NamedRef(InviteLevel)];
    forall ref: LevelRef ensures ref in refs <==> ref.NamedRef? {
      if ref.NamedRef? {
        match ref.name
        case UsersDefault => assert refs[0] == ref;
        case EventsDefault => assert refs[1] == ref;
        case StateDefault => assert refs[2] == ref;
        case BanLevel => assert refs[3] == ref;
        case RedactLevel => assert refs[4] == ref;
        case KickLevel => assert refs[5] == ref;
        case InviteLevel => assert refs[6] == ref;
      }
    }
    refs := AppendRefs(refs, current.users.Keys + proposed.users.Keys, (user: UserId) => UserRef(user));
    assert forall ref :: ref in refs <==>
      ref.NamedRef? || (ref.UserRef? && MustCompare(version, current, proposed, ref));
    refs := AppendRefs(refs, current.events.Keys + proposed.events.Keys, (kind: EventType) => EventRef(kind));
    assert forall ref :: ref in refs <==>
      ref.NamedRef? || ((ref.UserRef? || ref.EventRef?) && MustCompare(version, current, proposed, ref));
    if version.limitNotificationLevels {
      refs := AppendRefs(refs, current.notifications.Keys + proposed.notifications.Keys, (key: string) => NotificationRef(key));
    }
  }

  /** Walking the list entry by entry decides exactly the power-level rules. */
  method CheckPowerLevelsEvent(version: RoomVersion, e: Event, state: StateMap) returns (r: Verdict)
    ensures r == CheckPowerLevels(version, e, state)
  {
    var p := e.content.powers;
    if !ValidUserList(p) { return Err(BadUserId); }
    if version.enforceIntPowerLevels && !AllIntegers(p) { return Err(BadLevel); }
    if e.stateKey.None? { return Err(NotState); }
    var key := (e.kind, e.stateKey.value);
    if key !in state { return Ok(()); }
    var level := UserLevel(version, e.sender, state);
    if level.Err? { return Err(level.error); }
    var current := state[key].content.powers;
    var refs := LevelsToCheck(version, current, p);
    for i := 0 to |refs|
      invariant forall j | 0 <= j < i :: ChangeAllowed(current, p, refs[j], e.sender, level.value)
    {
      if !ChangeAllowed(current, p, refs[i], e.sender, level.value) {
        assert refs[i] in refs;
        return Err(PowerTooHigh);
      }
    }
    return Ok(());
  }

  datatype StoredEvent = StoredEvent(event: Event, rejected: bool)

  function KeyOf(a: StoredEvent): (EventType, Option<string>) {
    (a.event.kind, a.event.stateKey)
  }

  predicate GoodAuthEvent(e: Event, a: StoredEvent, expected: set<StateKey>) {
    && a.event.roomId == e.roomId
    && a.event.stateKey.Some?
    && (a.event.kind, a.event.stateKey.value) in expected
    && !a.rejected
  }

  /** The declared auth events exist, are in this room, accepted and of the
      selected types, and no two share a type and state key. */
  ghost predicate GoodAuthEvents(e: Event, auth: seq<Option<StoredEvent>>, expected: set<StateKey>) {
    && (forall i | 0 <= i < |auth| :: auth[i].Some? && GoodAuthEvent(e, auth[i].value, expected))
    && (forall i, j | 0 <= i < j < |auth| :: KeyOf(auth[i].value) != KeyOf(auth[j].value))
  }

  /** All declared auth events are good, and the create event is among them. */
  ghost predicate WellAuthorized(version: RoomVersion, e: Event, auth: seq<Option<StoredEvent>>) {
    && AuthTypes(version, e).Ok?
    && GoodAuthEvents(e, auth, AuthTypes(version, e).value)
    && exists i | 0 <= i < |auth| :: KeyOf(auth[i].value) == (Create, Some(""))
  }

  /** What is found for each declared auth event: in the batch, or else in the store. */
  function Fetched(batch: map<string, StoredEvent>, store: map<string, StoredEvent>, ids: seq<string>)
    : seq<Option<StoredEvent>>
  {
    seq(|ids|, i requires 0 <= i < |ids| =>
      if ids[i] in batch then Some(batch[ids[i]]) else if ids[i] in store then Some(store[ids[i]]) else None)
  }

  /** The state-independent rules hold exactly of create events that pass their own rules
      and of other events with well-chosen auth events. */
  method CheckStateIndependent(version: RoomVersion, e: Event, ids: seq<string>,
                               batch: map<string, StoredEvent>, store: map<string, StoredEvent>) returns (r: Verdict)
    ensures e.kind == Create ==> r == CheckCreate(version, e)
    ensures e.kind != Create ==> (r.Ok? <==> WellAuthorized(version, e, Fetched(batch, store, ids)))
  {
    if e.kind == Create { return CheckCreate(version, e); }
    var auth := Fetched(batch, store, ids);
    var expected := AuthTypes(version, e);
    if expected.Err? { return Err(expected.error); }
    r := WalkAuthEvents(e, auth, expected.value);
  }

  method WalkAuthEvents(e: Event, auth: seq<Option<StoredEvent>>, expected: set<StateKey>) returns (r: Verdict)
    ensures r.Ok? <==> GoodAuthEvents(e, auth, expected)
                       && exists i | 0 <= i < |auth| :: KeyOf(auth[i].value) == (Create, Some(""))
  {
    var authDict: map<(EventType, Option<string>), nat> := map[];
    for i := 0 to |auth|
      invariant GoodAuthEvents(e, auth[..i], expected)
      invariant forall key <- authDict :: authDict[key] < i && KeyOf(auth[authDict[key]].value) == key
      invariant forall j | 0 <= j < i :: KeyOf(auth[j].value) in authDict
    {
      if auth[i].None? { return Err(UnknownAuthEvent); }
      var a := auth[i].value;
      if a.event.roomId != e.roomId { return Err(WrongRoom); }
      if a.event.stateKey.None? { return Err(NotState); }
      if KeyOf(a) in authDict { return Err(DuplicateAuthEvent); }
      if (a.event.kind, a.event.stateKey.value) !in expected { return Err(UnexpectedAuthEvent); }
      if a.rejected { return Err(RejectedAuthEvent); }
      authDict := authDict[KeyOf(a) := i];
    }
    assert auth[..|auth|] == auth;
    if (Create, Some("")) !in authDict { return Err(NoCreateEvent); }
    return Ok(());
  }
}
