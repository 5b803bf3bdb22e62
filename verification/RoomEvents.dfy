/** Matrix room events and the room state a homeserver folds them into. */
module RoomEvents {
  import opened Common

  type UserId = string

  datatype EventType =
    | Create
    | Member
    | PowerLevels
    | JoinRules
    | ThirdPartyInvite
    | Aliases
    | Redaction
    | OtherType(name: string)

  datatype Membership = Invite | Join | Knock | Leave | Ban | UnknownMembership(text: string)

  datatype JoinRule =
    | PublicRule
    | InviteRule
    | KnockRule
    | RestrictedRule
    | KnockRestrictedRule
    | OtherRule(text: string)

  /** The scalar keys of a power-levels event. */
  datatype LevelName =
    UsersDefault | EventsDefault | StateDefault | BanLevel | RedactLevel | KickLevel | InviteLevel

  /** A JSON value found where a level is expected. `Other` carries what Python's `int()`
      makes of a value that is neither null nor an integer, or nothing when it raises. */
  datatype LevelValue = Null | Number(n: int) | Other(parsed: Option<int>)

  /** Python's `int(v)`. */
  function AsInt(v: LevelValue): Option<int> {
    match v
    case Null => None
    case Number(n) => Some(n)
    case Other(parsed) => parsed
  }

  datatype Powers = Powers(
    named: map<LevelName, LevelValue>,
    users: map<UserId, LevelValue>,
    events: map<EventType, LevelValue>,
    notifications: map<string, LevelValue>)

  /** A `third_party_invite` block. `acceptedKeys` are the public keys under which the
      signature check of the signed part succeeds. */
  datatype InviteProof =
    | MalformedProof
    | SignedProof(mxid: UserId, token: string, acceptedKeys: set<string>)

  /** The content fields that the authorization rules read. */
  datatype Content = Content(
    membership: Option<Membership>,
    creator: Option<UserId>,
    knownRoomVersion: bool,
    federate: bool,
    joinRule: Option<JoinRule>,
    proof: Option<InviteProof>,
    authorisingUser: Option<UserId>,
    publicKeys: seq<string>,
    powers: Powers)

  datatype Event = Event(
    eventId: string,
    kind: EventType,
    stateKey: Option<string>,
    sender: UserId,
    roomId: string,
    prevEvents: seq<string>,
    redacts: Option<string>,
    content: Content)

  datatype RoomVersion = RoomVersion(
    specialCaseAliases: bool,
    restrictedJoinRule: bool,
    knockJoinRule: bool,
    knockRestrictedJoinRule: bool,
    implicitCreator: bool,
    enforceIntPowerLevels: bool,
    limitNotificationLevels: bool,
    eventFormatV1: bool)

  type StateKey = (EventType, string)
  type StateMap = map<StateKey, Event>

  function Lookup(state: StateMap, key: StateKey): (e: Option<Event>)
    ensures e.Some? <==> key in state
    ensures e.Some? ==> e.value == state[key]
  {
    if key in state then Some(state[key]) else None
  }

  /** The room state after an accepted event. */
  function Fold(state: StateMap, e: Event): StateMap {
    if e.stateKey.Some? then state[(e.kind, e.stateKey.value) := e] else state
  }

  function FoldAll(state: StateMap, events: seq<Event>): StateMap {
    if events == [] then state
    else Fold(FoldAll(state, events[..|events| - 1]), events[|events| - 1])
  }

  lemma FoldAllNext(state: StateMap, events: seq<Event>, n: nat)
    requires n < |events|
    ensures FoldAll(state, events[..n + 1]) == Fold(FoldAll(state, events[..n]), events[n])
  {
    assert events[..n + 1][..n] == events[..n];
  }
}
