/** The room authorization rules: which event a room in a given state accepts. */
module EventAuth {
  import opened Common
  import opened RoomEvents

  datatype Reason =
    | InvalidId
    | Unfederatable
    | MissingField
    | NotState
    | AliasStateKey
    | NotInRoom
    | NotInvited
    | Banned
    | AlreadyJoined
    | AlreadyInvited
    | InsufficientPower
    | OthersMembership
    | MissingAuthoriser
    | JoinRuleForbids
    | UnknownMembershipChange
    | OthersState
    | BadUserId
    | BadLevel
    | PowerTooHigh
    | CannotRedact
    | HasPreviousEvents
    | WrongCreateDomain
    | UnknownRoomVersion
    | UnknownAuthEvent
    | WrongRoom
    | DuplicateAuthEvent
    | UnexpectedAuthEvent
    | RejectedAuthEvent
    | NoCreateEvent

  type Verdict = Result<(), Reason>

  function DomainOf(id: string): Result<string, Reason> {
    var d := Domain(id);
    if d.Some? then Ok(d.value) else Err(InvalidId)
  }

  function StateKeyOf(e: Event): Result<string, Reason> {
    if e.stateKey.Some? then Ok(e.stateKey.value) else Err(NotState)
  }

  function Creator(version: RoomVersion, create: Event): Result<UserId, Reason> {
    if version.implicitCreator then Ok(create.sender)
    else if create.content.creator.Some? then Ok(create.content.creator.value)
    else Err(MissingField)
  }

  function CanFederate(state: StateMap): bool {
    (Create, "") in state && state[(Create, "")].content.federate
  }

  // ---------------------------------------------------------------- power levels

  function PowersOf(state: StateMap): Option<Powers> {
    if (PowerLevels, "") in state then Some(state[(PowerLevels, "")].content.powers) else None
  }

  function IntOrError(v: LevelValue): Result<int, Reason> {
    var n := AsInt(v);
    if n.Some? then Ok(n.value) else Err(BadLevel)
  }

  /** A user's level once a power-levels event exists. */
  function ExplicitOrDefaultLevel(user: UserId, powers: Powers): Result<int, Reason> {
    if user in powers.users && !powers.users[user].Null? then IntOrError(powers.users[user])
    else if UsersDefault in powers.named && !powers.named[UsersDefault].Null? then
      IntOrError(powers.named[UsersDefault])
    else Ok(0)
  }

  function UserLevel(version: RoomVersion, user: UserId, state: StateMap): Result<int, Reason> {
    var powers := PowersOf(state);
    if powers.Some? then ExplicitOrDefaultLevel(user, powers.value)
    else if (Create, "") in state then
      var creator :- Creator(version, state[(Create, "")]);
      Ok(if creator == user then 100 else 0)
    else Ok(0)
  }

  function NamedLevel(state: StateMap, name: LevelName, default: int): Result<int, Reason> {
    var powers := PowersOf(state);
    if powers.Some? && name in powers.value.named && !powers.value.named[name].Null? then
      IntOrError(powers.value.named[name])
    else Ok(default)
  }

  function SendLevel(kind: EventType, isState: bool, state: StateMap): Result<int, Reason> {
    var powers := PowersOf(state);
    if powers.None? then Ok(if isState then 50 else 0)
    else
      var p := powers.value;
      if kind in p.events && !p.events[kind].Null? then IntOrError(p.events[kind])
      else
        var name := if isState then StateDefault else EventsDefault;
        if name in p.named then IntOrError(p.named[name]) else Ok(if isState then 50 else 0)
  }

  function CanSendEvent(version: RoomVersion, e: Event, state: StateMap): Verdict {
    var sendLevel :- SendLevel(e.kind, e.stateKey.Some?, state);
    var userLevel :- UserLevel(version, e.sender, state);
    var _ :- Need(userLevel >= sendLevel, InsufficientPower);
    Need(e.stateKey.Some? && e.stateKey.value != "" && e.stateKey.value[0] == '@'
           ==> e.stateKey.value == e.sender,
         OthersState)
  }

  predicate IsUserId(s: string) {
    s != "" && s[0] == '@' && ':' in s[1..]
  }

  /** One entry of the list of levels that a new power-levels event may not touch freely. */
  datatype LevelRef =
    | NamedRef(name: LevelName)
    | UserRef(user: UserId)
    | EventRef(kind: EventType)
    | NotificationRef(key: string)

  function At(p: Powers, ref: LevelRef): Option<LevelValue> {
    match ref
    case NamedRef(name) => if name in p.named then Some(p.named[name]) else None
    case UserRef(user) => if user in p.users then Some(p.users[user]) else None
    case EventRef(kind) => if kind in p.events then Some(p.events[kind]) else None
    case NotificationRef(key) => if key in p.notifications then Some(p.notifications[key]) else None
  }

  /** Whether a sender of level `userLevel` may turn the old value at `ref` into the new one. */
  predicate ChangeAllowed(current: Powers, proposed: Powers, ref: LevelRef, sender: UserId, userLevel: int) {
    var before := At(current, ref);
    var after := At(proposed, ref);
    && (before.Some? ==> AsInt(before.value).Some?)
    && (after.Some? ==> AsInt(after.value).Some?)
    && var o := if before.Some? then AsInt(before.value) else None;
       var n := if after.Some? then AsInt(after.value) else None;
       || (o.Some? && n.Some? && o == n)
       || (&& !(ref.UserRef? && ref.user != sender && o == Some(userLevel))
           && !(o.Some? && o.value > userLevel)
           && !(n.Some? && n.value > userLevel))
  }

  /** Which entries are compared: all scalar keys and whatever either event lists. */
  predicate MustCompare(version: RoomVersion, current: Powers, proposed: Powers, ref: LevelRef) {
    match ref
    case NamedRef(_) => true
    case UserRef(user) => user in current.users || user in proposed.users
    case EventRef(kind) => kind in current.events || kind in proposed.events
    case NotificationRef(key) =>
      version.limitNotificationLevels && (key in current.notifications || key in proposed.notifications)
  }

  ghost predicate ChangesAllowed(version: RoomVersion, current: Powers, proposed: Powers, sender: UserId, userLevel: int) {
    forall ref :: MustCompare(version, current, proposed, ref) ==> ChangeAllowed(current, proposed, ref, sender, userLevel)
  }

  predicate ValidUserList(p: Powers) {
    forall user <- p.users :: IsUserId(user) && AsInt(p.users[user]).Some?
  }

  predicate AllIntegers(p: Powers) {
    && (forall name <- p.named :: p.named[name].Number?)
    && (forall user <- p.users :: p.users[user].Number?)
    && (forall kind <- p.events :: p.events[kind].Number?)
    && (forall key <- p.notifications :: p.notifications[key].Number?)
  }

  /** The rules for a new power-levels event, as a relation on the old and new contents. */
  ghost function CheckPowerLevels(version: RoomVersion, e: Event, state: StateMap): Verdict {
    var p := e.content.powers;
    var _ :- Need(ValidUserList(p), BadUserId);
    var _ :- Need(version.enforceIntPowerLevels ==> AllIntegers(p), BadLevel);
    var key :- StateKeyOf(e);
    if (e.kind, key) !in state then Ok(())
    else
      var userLevel :- UserLevel(version, e.sender, state);
      Need(ChangesAllowed(version, state[(e.kind, key)].content.powers, p, e.sender, userLevel), PowerTooHigh)
  }

  // ------------------------------------------------------------------ membership

  function MembershipOf(state: StateMap, user: UserId): Result<Option<Membership>, Reason> {
    if (Member, user) !in state then Ok(None)
    else if state[(Member, user)].content.membership.None? then Err(MissingField)
    else Ok(state[(Member, user)].content.membership)
  }

  predicate HasMembership(state: StateMap, user: UserId, m: Membership) {
    (Member, user) in state && state[(Member, user)].content.membership == Some(m)
  }

  function JoinRuleOf(state: StateMap): JoinRule {
    if (JoinRules, "") in state && state[(JoinRules, "")].content.joinRule.Some? then
      state[(JoinRules, "")].content.joinRule.value
    else InviteRule
  }

  function CheckJoined(state: StateMap, user: UserId): Verdict {
    var membership :- MembershipOf(state, user);
    Need(membership == Some(Join), NotInRoom)
  }

  /** The room creator's own first join, which skips every other check. */
  function IsCreatorJoin(version: RoomVersion, e: Event, state: StateMap): Result<bool, Reason> {
    if |e.prevEvents| == 1 && e.content.membership == Some(Join)
       && (Create, "") in state && e.prevEvents[0] == state[(Create, "")].eventId
    then
      var creator :- Creator(version, state[(Create, "")]);
      var target :- StateKeyOf(e);
      Ok(creator == target)
    else Ok(false)
  }

  function ProofVerified(e: Event, state: StateMap): bool {
    && e.content.proof.Some?
    && e.content.proof.value.SignedProof?
    && var proof := e.content.proof.value;
       && (ThirdPartyInvite, proof.token) in state
       && var issued := state[(ThirdPartyInvite, proof.token)];
          && issued.sender == e.sender
          && e.stateKey == Some(proof.mxid)
          && exists k <- issued.content.publicKeys :: k in proof.acceptedKeys
  }

  /** What the membership rules look up about sender and target before branching. */
  datatype MembershipContext = MembershipContext(
    caller: Option<Membership>,
    target: Option<Membership>,
    joinRule: JoinRule,
    userLevel: int,
    targetLevel: int,
    inviteLevel: int,
    banLevel: int)

  function GetContext(version: RoomVersion, sender: UserId, target: UserId, state: StateMap)
    : Result<MembershipContext, Reason>
  {
    var callerMembership :- MembershipOf(state, sender);
    var targetMembership :- MembershipOf(state, target);
    var userLevel :- UserLevel(version, sender, state);
    var targetLevel :- UserLevel(version, target, state);
    var inviteLevel :- NamedLevel(state, InviteLevel, 0);
    var banLevel :- NamedLevel(state, BanLevel, 50);
    Ok(MembershipContext(callerMembership, targetMembership, JoinRuleOf(state),
                         userLevel, targetLevel, inviteLevel, banLevel))
  }

  function CheckJoin(version: RoomVersion, e: Event, target: UserId, c: MembershipContext, state: StateMap): Verdict {
    var _ :- Need(e.sender == target, OthersMembership);
    var _ :- Need(c.target != Some(Ban), Banned);
    var inOrInvited := c.caller == Some(Join) || c.caller == Some(Invite);
    if c.joinRule == PublicRule then Ok(())
    else if (version.restrictedJoinRule && c.joinRule == RestrictedRule)
            || (version.knockRestrictedJoinRule && c.joinRule == KnockRestrictedRule) then
      if inOrInvited then Ok(())
      else
        var _ :- Need(e.content.authorisingUser.Some?, MissingAuthoriser);
        var authoriser := e.content.authorisingUser.value;
        var _ :- CheckJoined(state, authoriser);
        var level :- UserLevel(version, authoriser, state);
        Need(level >= c.inviteLevel, InsufficientPower)
    else if c.joinRule == InviteRule || (version.knockJoinRule && c.joinRule == KnockRule) then
      Need(inOrInvited, NotInvited)
    else Err(JoinRuleForbids)
  }

  function CheckLeave(e: Event, target: UserId, c: MembershipContext, state: StateMap): Verdict {
    if c.target == Some(Ban) && c.userLevel < c.banLevel then Err(InsufficientPower)
    else if target != e.sender then
      var kickLevel :- NamedLevel(state, KickLevel, 50);
      Need(!(c.userLevel < kickLevel || c.userLevel <= c.targetLevel), InsufficientPower)
    else Ok(())
  }

  function CheckKnock(version: RoomVersion, e: Event, target: UserId, c: MembershipContext): Verdict {
    var _ :- Need(c.joinRule == KnockRule || (version.knockRestrictedJoinRule && c.joinRule == KnockRestrictedRule),
                  JoinRuleForbids);
    var _ :- Need(target == e.sender, OthersMembership);
    var _ :- Need(c.target != Some(Join), AlreadyJoined);
    var _ :- Need(c.caller != Some(Invite), AlreadyInvited);
    Need(c.target != Some(Ban), Banned)
  }

  function CheckMembershipBranch(version: RoomVersion, e: Event, membership: Membership, target: UserId,
                                 c: MembershipContext, state: StateMap): Verdict
  {
    if membership == Invite then
      var _ :- Need(c.target != Some(Ban), Banned);
      var _ :- Need(c.target != Some(Join), AlreadyJoined);
      Need(c.userLevel >= c.inviteLevel, InsufficientPower)
    else if membership == Join then CheckJoin(version, e, target, c, state)
    else if membership == Leave then CheckLeave(e, target, c, state)
    else if membership == Ban then
      Need(c.userLevel >= c.banLevel && c.userLevel > c.targetLevel, InsufficientPower)
    else if version.knockJoinRule && membership == Knock then CheckKnock(version, e, target, c)
    else Err(UnknownMembershipChange)
  }

  /** The checks that remain once sender and target have been looked up. */
  function CheckInContext(version: RoomVersion, e: Event, membership: Membership, target: UserId,
                          c: MembershipContext, state: StateMap): Verdict
  {
    if membership == Invite && e.content.proof.Some? then
      var _ :- Need(ProofVerified(e, state), NotInvited);
      Need(c.target != Some(Ban), Banned)
    else if (c.caller == Some(Invite) || (version.knockJoinRule && c.caller == Some(Knock)))
            && membership == Leave && target == e.sender then
      Ok(())
    else
      var _ :- Need(membership == Join || membership == Knock || c.caller == Some(Join), NotInRoom);
      CheckMembershipBranch(version, e, membership, target, c, state)
  }

  function CheckOrdinaryMembership(version: RoomVersion, e: Event, membership: Membership, state: StateMap): Verdict {
    var target :- StateKeyOf(e);
    var creatingDomain :- DomainOf(e.roomId);
    var targetDomain :- DomainOf(target);
    var _ :- Need(creatingDomain == targetDomain || CanFederate(state), Unfederatable);
    var c :- GetContext(version, e.sender, target, state);
    CheckInContext(version, e, membership, target, c, state)
  }

  function CheckMembership(version: RoomVersion, e: Event, state: StateMap): Verdict {
    var _ :- Need(e.content.membership.Some?, MissingField);
    var creatorJoin :- IsCreatorJoin(version, e, state);
    if creatorJoin then Ok(()) else CheckOrdinaryMembership(version, e, e.content.membership.value, state)
  }

  // ------------------------------------------------------------------- the rules

  function CheckAliases(e: Event): Verdict {
    var key :- StateKeyOf(e);
    var _ :- Need(key != "", AliasStateKey);
    var senderDomain :- DomainOf(e.sender);
    Need(key == senderDomain, AliasStateKey)
  }

  function CheckThirdPartyInvite(version: RoomVersion, e: Event, state: StateMap): Verdict {
    var userLevel :- UserLevel(version, e.sender, state);
    var inviteLevel :- NamedLevel(state, InviteLevel, 0);
    Need(userLevel >= inviteLevel, InsufficientPower)
  }

  function CheckRedaction(version: RoomVersion, e: Event, state: StateMap): Verdict {
    var userLevel :- UserLevel(version, e.sender, state);
    var redactLevel :- NamedLevel(state, RedactLevel, 50);
    if userLevel >= redactLevel || !version.eventFormatV1 then Ok(())
    else
      var redacter :- DomainOf(e.eventId);
      if e.redacts.None? then Ok(())
      else
        var redactee :- DomainOf(e.redacts.value);
        Need(redacter == redactee, CannotRedact)
  }

  /** The rules for events other than create, alias and membership events. */
  ghost function CheckMessage(version: RoomVersion, e: Event, state: StateMap): Verdict {
    var _ :- CheckJoined(state, e.sender);
    if e.kind == ThirdPartyInvite then CheckThirdPartyInvite(version, e, state)
    else
      var _ :- CanSendEvent(version, e, state);
      if e.kind == PowerLevels then CheckPowerLevels(version, e, state)
      else if e.kind == Redaction then CheckRedaction(version, e, state)
      else Ok(())
  }

  ghost function CheckStateDependent(version: RoomVersion, e: Event, state: StateMap): Verdict {
    if e.kind == Create then Ok(())
    else
      var creatingDomain :- DomainOf(e.roomId);
      var originatingDomain :- DomainOf(e.sender);
      var _ :- Need(creatingDomain == originatingDomain || CanFederate(state), Unfederatable);
      if e.kind == Aliases && version.specialCaseAliases then CheckAliases(e)
      else if e.kind == Member then CheckMembership(version, e, state)
      else CheckMessage(version, e, state)
  }

  function CheckCreate(version: RoomVersion, e: Event): Verdict {
    var _ :- Need(e.prevEvents == [], HasPreviousEvents);
    var senderDomain :- DomainOf(e.sender);
    var roomDomain :- DomainOf(e.roomId);
    var _ :- Need(roomDomain == senderDomain, WrongCreateDomain);
    var _ :- Need(e.content.knownRoomVersion, UnknownRoomVersion);
    Need(version.implicitCreator || e.content.creator.Some?, MissingField)
  }

  /** What a room in this state lets in: the create rules, or the state-dependent ones. */
  ghost predicate Accepts(version: RoomVersion, state: StateMap, e: Event) {
    if e.kind == Create then CheckCreate(version, e).Ok? else CheckStateDependent(version, e, state).Ok?
  }

  // -------------------------------------------------------- auth event selection

  /** The state keys that may be needed to authorize an event. */
  function AuthTypes(version: RoomVersion, e: Event): Result<set<StateKey>, Reason> {
    if e.kind == Create then Ok({})
    else
      var base := {(PowerLevels, ""), (Member, e.sender), (Create, "")};
      if e.kind != Member then Ok(base)
      else
        var _ :- Need(e.content.membership.Some?, MissingField);
        var membership := e.content.membership.value;
        var key :- StateKeyOf(e);
        var rules := if membership in {Join, Invite, Knock} then {(JoinRules, "")} else {};
        var _ :- Need(!(membership == Invite && e.content.proof == Some(MalformedProof)), MissingField);
        var proof := if membership == Invite && e.content.proof.Some?
                     then {(ThirdPartyInvite, e.content.proof.value.token)} else {};
        var authoriser := if version.restrictedJoinRule && membership == Join && e.content.authorisingUser.Some?
                          then {(Member, e.content.authorisingUser.value)} else {};
        Ok(base + rules + {(Member, key)} + proof + authoriser)
  }
}
