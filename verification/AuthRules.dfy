/** What the authorization rules let in, rule by rule, in terms of the fields of the event and
    of the room state. */
module AuthRules {
  import opened Common
  import opened RoomEvents
  import opened EventAuth

  // ---------------------------------------------------------------- what is read

  /** The level that a JSON value stands for. */
  predicate ReadsAs(v: LevelValue, n: int) { v == Number(n) || v == Other(Some(n)) }

  predicate HasEntry<K>(levels: map<K, LevelValue>, key: K) { key in levels && levels[key] != Null }

  /** The user's entry, else `users_default`, else 0; without a power-levels event, 100 for the
      creator of the room and 0 for everybody else. */
  predicate LevelIs(version: RoomVersion, state: StateMap, user: UserId, n: int) {
    if (PowerLevels, "") in state then
      var p := state[(PowerLevels, "")].content.powers;
      if HasEntry(p.users, user) then ReadsAs(p.users[user], n)
      else if HasEntry(p.named, UsersDefault) then ReadsAs(p.named[UsersDefault], n)
      else n == 0
    else if (Create, "") in state then
      var create := state[(Create, "")];
      if version.implicitCreator then n == if create.sender == user then 100 else 0
      else create.content.creator.Some? && n == if create.content.creator.value == user then 100 else 0
    else n == 0
  }

  /** A scalar level of the room, or what the rules take for it when it is missing. */
  predicate NamedIs(state: StateMap, name: LevelName, missing: int, n: int) {
    if (PowerLevels, "") in state && HasEntry(state[(PowerLevels, "")].content.powers.named, name)
    then ReadsAs(state[(PowerLevels, "")].content.powers.named[name], n)
    else n == missing
  }

  /** The level that sending an event takes: its own entry, else the default for state or other
      events, else 50 or 0. */
  predicate SendIs(kind: EventType, isState: bool, state: StateMap, n: int) {
    var missing := if isState then 50 else 0;
    if (PowerLevels, "") !in state then n == missing
    else
      var p := state[(PowerLevels, "")].content.powers;
      var name := if isState then StateDefault else EventsDefault;
      if HasEntry(p.events, kind) then ReadsAs(p.events[kind], n)
      else if name in p.named then ReadsAs(p.named[name], n)
      else n == missing
  }

  predicate MemberIs(state: StateMap, user: UserId, m: Option<Membership>) {
    if (Member, user) in state then m.Some? && state[(Member, user)].content.membership == m else m.None?
  }

  predicate RuleIs(state: StateMap, rule: JoinRule) {
    if (JoinRules, "") in state && state[(JoinRules, "")].content.joinRule.Some?
    then state[(JoinRules, "")].content.joinRule.value == rule else rule == InviteRule
  }

  /** The room lets users of that server take part. */
  predicate MayTakePart(e: Event, user: UserId, state: StateMap) {
    && Domain(e.roomId).Some? && Domain(user).Some?
    && (Domain(user) == Domain(e.roomId) || ((Create, "") in state && state[(Create, "")].content.federate))
  }

  lemma UserLevelIs(version: RoomVersion, user: UserId, state: StateMap, n: int)
    ensures UserLevel(version, user, state) == Ok(n) <==> LevelIs(version, state, user, n)
  {}

  lemma NamedLevelIs(state: StateMap, name: LevelName, missing: int, n: int)
    ensures NamedLevel(state, name, missing) == Ok(n) <==> NamedIs(state, name, missing, n)
  {}

  lemma SendLevelIs(kind: EventType, isState: bool, state: StateMap, n: int)
    ensures SendLevel(kind, isState, state) == Ok(n) <==> SendIs(kind, isState, state, n)
  {}

  // ------------------------------------------------------------------ membership

  /** What the rules read about sender, target and room before they decide. */
  predicate Reads(version: RoomVersion, sender: UserId, target: UserId, state: StateMap, c: MembershipContext) {
    && MemberIs(state, sender, c.caller) && MemberIs(state, target, c.target) && RuleIs(state, c.joinRule)
    && LevelIs(version, state, sender, c.userLevel) && LevelIs(version, state, target, c.targetLevel)
    && NamedIs(state, InviteLevel, 0, c.inviteLevel) && NamedIs(state, BanLevel, 50, c.banLevel)
  }

  lemma ContextIs(version: RoomVersion, sender: UserId, target: UserId, state: StateMap, c: MembershipContext)
    ensures GetContext(version, sender, target, state) == Ok(c) <==> Reads(version, sender, target, state, c)
  {
    UserLevelIs(version, sender, state, c.userLevel);
    UserLevelIs(version, target, state, c.targetLevel);
    NamedLevelIs(state, InviteLevel, 0, c.inviteLevel);
    NamedLevelIs(state, BanLevel, 50, c.banLevel);
  }

  /** The creator's own first join: it follows the create event directly. */
  predicate IsFirstJoin(version: RoomVersion, e: Event, state: StateMap) {
    && e.content.membership == Some(Join) && (Create, "") in state && e.stateKey.Some?
    && e.prevEvents == [state[(Create, "")].eventId]
    && var create := state[(Create, "")];
       if version.implicitCreator then e.stateKey.value == create.sender else e.stateKey == create.content.creator
  }

  /** A join right after a create event that does not say who created the room. */
  predicate CreatorUnknown(version: RoomVersion, e: Event, state: StateMap) {
    && e.content.membership == Some(Join) && (Create, "") in state
    && e.prevEvents == [state[(Create, "")].eventId]
    && !version.implicitCreator && state[(Create, "")].content.creator.None?
  }

  lemma OrdinaryIff(version: RoomVersion, e: Event, m: Membership, target: UserId, state: StateMap)
    requires e.stateKey == Some(target)
    ensures CheckOrdinaryMembership(version, e, m, state).Ok? <==>
            && MayTakePart(e, target, state)
            && exists c :: Reads(version, e.sender, target, state, c) && CheckInContext(version, e, m, target, c, state).Ok?
  {
    var g := GetContext(version, e.sender, target, state);
    if g.Ok? { ContextIs(version, e.sender, target, state, g.value); }
    forall c | Reads(version, e.sender, target, state, c) ensures g == Ok(c) {
      ContextIs(version, e.sender, target, state, c);
    }
  }

  lemma CreatorJoinIs(version: RoomVersion, e: Event, target: UserId, state: StateMap)
    requires e.stateKey == Some(target)
    ensures IsCreatorJoin(version, e, state) == Ok(true) <==> IsFirstJoin(version, e, state)
    ensures IsCreatorJoin(version, e, state).Err? <==> CreatorUnknown(version, e, state)
  {}

  /** A member event passes if it is the creator's first join, or if the rest of the rules let
      it pass with what they read. */
  lemma MembershipIff(version: RoomVersion, e: Event, target: UserId, state: StateMap)
    requires e.kind == Member && e.stateKey == Some(target) && e.content.membership.Some?
    ensures CheckStateDependent(version, e, state).Ok? <==>
            && MayTakePart(e, e.sender, state)
            && (|| IsFirstJoin(version, e, state)
                || (&& !CreatorUnknown(version, e, state) && MayTakePart(e, target, state)
                    && exists c :: Reads(version, e.sender, target, state, c)
                         && CheckInContext(version, e, e.content.membership.value, target, c, state).Ok?))
  {
    OrdinaryIff(version, e, e.content.membership.value, target, state);
    CreatorJoinIs(version, e, target, state);
    assert CheckStateDependent(version, e, state).Ok? <==>
           MayTakePart(e, e.sender, state) && CheckMembership(version, e, state).Ok?;
  }

  /** With a third-party proof: the stored invite it redeems is the sender's own, is about the
      target, and one of its keys verifies. */
  predicate Redeems(e: Event, target: UserId, state: StateMap) {
    && e.content.proof.Some? && e.content.proof.value.SignedProof?
    && var proof := e.content.proof.value;
       && proof.mxid == target && (ThirdPartyInvite, proof.token) in state
       && var issued := state[(ThirdPartyInvite, proof.token)];
          issued.sender == e.sender && exists k :: k in issued.content.publicKeys && k in proof.acceptedKeys
  }

  /** An invite without a proof passes exactly when its sender is joined and has the room's
      invite level, and its target is neither joined nor banned. */
  lemma InviteIff(version: RoomVersion, e: Event, target: UserId, state: StateMap)
    requires e.kind == Member && e.stateKey == Some(target) && e.content.membership == Some(Invite)
    requires e.content.proof.None?
    ensures CheckStateDependent(version, e, state).Ok? <==>
            && MayTakePart(e, e.sender, state) && MayTakePart(e, target, state)
            && exists c :: Reads(version, e.sender, target, state, c)
                 && c.caller == Some(Join) && c.target != Some(Join) && c.target != Some(Ban)
                 && c.userLevel >= c.inviteLevel
  {
    MembershipIff(version, e, target, state);
    forall c
      ensures CheckInContext(version, e, Invite, target, c, state).Ok? <==>
              && c.caller == Some(Join) && c.target != Some(Join) && c.target != Some(Ban)
              && c.userLevel >= c.inviteLevel
    {}
  }

  /** With a proof, exactly when it redeems a stored invite of the sender for the target, who
      is not banned; the sender's membership and level do not matter. */
  lemma ProvenInviteIff(version: RoomVersion, e: Event, target: UserId, state: StateMap)
    requires e.kind == Member && e.stateKey == Some(target) && e.content.membership == Some(Invite)
    requires e.content.proof.Some?
    ensures CheckStateDependent(version, e, state).Ok? <==>
            && MayTakePart(e, e.sender, state) && MayTakePart(e, target, state)
            && Redeems(e, target, state)
            && exists c :: Reads(version, e.sender, target, state, c) && c.target != Some(Ban)
  {
    MembershipIff(version, e, target, state);
    forall c
      ensures CheckInContext(version, e, Invite, target, c, state).Ok? <==> Redeems(e, target, state) && c.target != Some(Ban)
    {}
  }

  /** Somebody in the room who may invite has vouched for the join. */
  ghost predicate Authorised(version: RoomVersion, e: Event, state: StateMap, inviteLevel: int) {
    && e.content.authorisingUser.Some?
    && MemberIs(state, e.content.authorisingUser.value, Some(Join))
    && exists n :: LevelIs(version, state, e.content.authorisingUser.value, n) && n >= inviteLevel
  }

  /** What each join rule asks of somebody who is not banned. */
  ghost predicate RuleAdmits(version: RoomVersion, e: Event, state: StateMap, c: MembershipContext) {
    var inOrInvited := c.caller == Some(Join) || c.caller == Some(Invite);
    match c.joinRule
    case PublicRule => true
    case InviteRule => inOrInvited
    case KnockRule => version.knockJoinRule && inOrInvited
    case RestrictedRule => version.restrictedJoinRule && (inOrInvited || Authorised(version, e, state, c.inviteLevel))
    case KnockRestrictedRule =>
      version.knockRestrictedJoinRule && (inOrInvited || Authorised(version, e, state, c.inviteLevel))
    case OtherRule(_) => false
  }

  lemma JoinRuleIff(version: RoomVersion, e: Event, target: UserId, c: MembershipContext, state: StateMap)
    ensures CheckJoin(version, e, target, c, state).Ok? <==>
            e.sender == target && c.target != Some(Ban) && RuleAdmits(version, e, state, c)
  {
    if e.content.authorisingUser.Some? {
      var user := e.content.authorisingUser.value;
      forall n ensures UserLevel(version, user, state) == Ok(n) <==> LevelIs(version, state, user, n) {
        UserLevelIs(version, user, state, n);
      }
      if UserLevel(version, user, state).Ok? {
        assert LevelIs(version, state, user, UserLevel(version, user, state).value);
      }
    }
  }

  /** A join that is not the creator's first passes exactly when it is the user's own, they are
      not banned, and the room's join rule admits them. */
  lemma JoinIff(version: RoomVersion, e: Event, target: UserId, state: StateMap)
    requires e.kind == Member && e.stateKey == Some(target) && e.content.membership == Some(Join)
    requires !IsFirstJoin(version, e, state)
    ensures CheckStateDependent(version, e, state).Ok? <==>
            && MayTakePart(e, e.sender, state) && MayTakePart(e, target, state)
            && !CreatorUnknown(version, e, state) && e.sender == target
            && exists c :: Reads(version, e.sender, target, state, c)
                 && c.target != Some(Ban) && RuleAdmits(version, e, state, c)
  {
    MembershipIff(version, e, target, state);
    forall c
      ensures CheckInContext(version, e, Join, target, c, state).Ok? <==>
              e.sender == target && c.target != Some(Ban) && RuleAdmits(version, e, state, c)
    {
      JoinRuleIff(version, e, target, c, state);
    }
  }

  /** The creator's first join needs nothing else. */
  lemma FirstJoinPasses(version: RoomVersion, e: Event, target: UserId, state: StateMap)
    requires e.kind == Member && e.stateKey == Some(target) && IsFirstJoin(version, e, state)
    ensures CheckStateDependent(version, e, state).Ok? <==> MayTakePart(e, e.sender, state)
  {
    MembershipIff(version, e, target, state);
  }

  /** Leaving: anybody who is joined or invited, or has knocked where that exists. */
  lemma OwnLeaveIff(version: RoomVersion, e: Event, state: StateMap)
    requires e.kind == Member && e.stateKey == Some(e.sender) && e.content.membership == Some(Leave)
    ensures CheckStateDependent(version, e, state).Ok? <==>
            && MayTakePart(e, e.sender, state)
            && exists c :: Reads(version, e.sender, e.sender, state, c)
                 && (c.caller == Some(Join) || c.caller == Some(Invite) || (version.knockJoinRule && c.caller == Some(Knock)))
  {
    MembershipIff(version, e, e.sender, state);
    forall c | Reads(version, e.sender, e.sender, state, c)
      ensures CheckInContext(version, e, Leave, e.sender, c, state).Ok? <==>
              c.caller == Some(Join) || c.caller == Some(Invite) || (version.knockJoinRule && c.caller == Some(Knock))
    {
      assert c.caller == c.target;
    }
  }

  /** Kicking and unbanning: a joined sender with the kick level and above the target, and with
      the ban level too if the target is banned. */
  lemma KickIff(version: RoomVersion, e: Event, target: UserId, state: StateMap)
    requires e.kind == Member && e.stateKey == Some(target) && e.content.membership == Some(Leave) && e.sender != target
    ensures CheckStateDependent(version, e, state).Ok? <==>
            && MayTakePart(e, e.sender, state) && MayTakePart(e, target, state)
            && exists c, kick :: Reads(version, e.sender, target, state, c) && NamedIs(state, KickLevel, 50, kick)
                 && c.caller == Some(Join) && c.userLevel >= kick && c.userLevel > c.targetLevel
                 && (c.target == Some(Ban) ==> c.userLevel >= c.banLevel)
  {
    MembershipIff(version, e, target, state);
    forall kick ensures NamedLevel(state, KickLevel, 50) == Ok(kick) <==> NamedIs(state, KickLevel, 50, kick) {
      NamedLevelIs(state, KickLevel, 50, kick);
    }
    forall c
      ensures CheckInContext(version, e, Leave, target, c, state).Ok? <==>
              exists kick :: NamedIs(state, KickLevel, 50, kick)
                && c.caller == Some(Join) && c.userLevel >= kick && c.userLevel > c.targetLevel
                && (c.target == Some(Ban) ==> c.userLevel >= c.banLevel)
    {
      if NamedLevel(state, KickLevel, 50).Ok? {
        assert NamedIs(state, KickLevel, 50, NamedLevel(state, KickLevel, 50).value);
      }
    }
  }

  /** Banning: a joined sender with the ban level and above the target. */
  lemma BanIff(version: RoomVersion, e: Event, target: UserId, state: StateMap)
    requires e.kind == Member && e.stateKey == Some(target) && e.content.membership == Some(Ban)
    ensures CheckStateDependent(version, e, state).Ok? <==>
            && MayTakePart(e, e.sender, state) && MayTakePart(e, target, state)
            && exists c :: Reads(version, e.sender, target, state, c)
                 && c.caller == Some(Join) && c.userLevel >= c.banLevel && c.userLevel > c.targetLevel
  {
    MembershipIff(version, e, target, state);
    forall c
      ensures CheckInContext(version, e, Ban, target, c, state).Ok? <==>
              c.caller == Some(Join) && c.userLevel >= c.banLevel && c.userLevel > c.targetLevel
    {}
  }

  /** Knocking: for oneself, where the version and the room's rule have it, and neither joined,
      invited nor banned. */
  lemma KnockIff(version: RoomVersion, e: Event, target: UserId, state: StateMap)
    requires e.kind == Member && e.stateKey == Some(target) && e.content.membership == Some(Knock)
    ensures CheckStateDependent(version, e, state).Ok? <==>
            && MayTakePart(e, e.sender, state) && version.knockJoinRule && e.sender == target
            && exists c :: Reads(version, target, target, state, c)
                 && (c.joinRule == KnockRule || (c.joinRule == KnockRestrictedRule && version.knockRestrictedJoinRule))
                 && c.target != Some(Join) && c.target != Some(Invite) && c.target != Some(Ban)
  {
    MembershipIff(version, e, target, state);
    forall c | Reads(version, e.sender, target, state, c)
      ensures CheckInContext(version, e, Knock, target, c, state).Ok? <==>
              && version.knockJoinRule && e.sender == target
              && (c.joinRule == KnockRule || (c.joinRule == KnockRestrictedRule && version.knockRestrictedJoinRule))
              && c.target != Some(Join) && c.target != Some(Invite) && c.target != Some(Ban)
    {}
  }

  /** No other membership passes, nor an event without one or without a target. */
  lemma UnknownMembershipFails(version: RoomVersion, e: Event, state: StateMap)
    requires e.kind == Member
    requires e.content.membership.None? || e.stateKey.None? || e.content.membership.value.UnknownMembership?
    ensures CheckStateDependent(version, e, state).Err?
  {}

  // ---------------------------------------------------------------- other events

  /** The sender is joined and has the level the event takes, and an event under a user's state
      key is that user's own. */
  ghost predicate MaySend(version: RoomVersion, e: Event, state: StateMap) {
    && MemberIs(state, e.sender, Some(Join))
    && (exists needed, n :: SendIs(e.kind, e.stateKey.Some?, state, needed) && LevelIs(version, state, e.sender, n) && n >= needed)
    && (e.stateKey.Some? && e.stateKey.value != "" && e.stateKey.value[0] == '@' ==> e.stateKey.value == e.sender)
  }

  lemma SendIff(version: RoomVersion, e: Event, state: StateMap)
    ensures MaySend(version, e, state) <==> CheckJoined(state, e.sender).Ok? && CanSendEvent(version, e, state).Ok?
  {
    forall n ensures UserLevel(version, e.sender, state) == Ok(n) <==> LevelIs(version, state, e.sender, n) {
      UserLevelIs(version, e.sender, state, n);
    }
    forall n ensures SendLevel(e.kind, e.stateKey.Some?, state) == Ok(n) <==> SendIs(e.kind, e.stateKey.Some?, state, n) {
      SendLevelIs(e.kind, e.stateKey.Some?, state, n);
    }
    var needed, level := SendLevel(e.kind, e.stateKey.Some?, state), UserLevel(version, e.sender, state);
    if needed.Ok? && level.Ok? {
      assert SendIs(e.kind, e.stateKey.Some?, state, needed.value) && LevelIs(version, state, e.sender, level.value);
    }
  }

  /** Events no rule singles out pass exactly when their sender may take part and may send them. */
  lemma MessageIff(version: RoomVersion, e: Event, state: StateMap)
    requires e.kind.JoinRules? || e.kind.OtherType? || (e.kind.Aliases? && !version.specialCaseAliases)
    ensures CheckStateDependent(version, e, state).Ok? <==> MayTakePart(e, e.sender, state) && MaySend(version, e, state)
  {
    SendIff(version, e, state);
  }

  /** In versions with alias events, they pass for the sender's own server and nothing else. */
  lemma AliasesIff(version: RoomVersion, e: Event, state: StateMap)
    requires e.kind == Aliases && version.specialCaseAliases
    ensures CheckStateDependent(version, e, state).Ok? <==>
            MayTakePart(e, e.sender, state) && e.stateKey.Some? && e.stateKey.value != "" && e.stateKey == Domain(e.sender)
  {}

  /** A third-party invite takes a joined sender with the invite level. */
  lemma ThirdPartyInviteIff(version: RoomVersion, e: Event, state: StateMap)
    requires e.kind == ThirdPartyInvite
    ensures CheckStateDependent(version, e, state).Ok? <==>
            && MayTakePart(e, e.sender, state) && MemberIs(state, e.sender, Some(Join))
            && exists n, invite :: LevelIs(version, state, e.sender, n) && NamedIs(state, InviteLevel, 0, invite) && n >= invite
  {
    LevelsRead(version, e.sender, state, InviteLevel, 0);
  }

  lemma LevelsRead(version: RoomVersion, user: UserId, state: StateMap, name: LevelName, missing: int)
    ensures forall n :: UserLevel(version, user, state) == Ok(n) <==> LevelIs(version, state, user, n)
    ensures forall n :: NamedLevel(state, name, missing) == Ok(n) <==> NamedIs(state, name, missing, n)
    ensures UserLevel(version, user, state).Ok? ==> LevelIs(version, state, user, UserLevel(version, user, state).value)
    ensures NamedLevel(state, name, missing).Ok? ==> NamedIs(state, name, missing, NamedLevel(state, name, missing).value)
  {
    forall n ensures UserLevel(version, user, state) == Ok(n) <==> LevelIs(version, state, user, n) {
      UserLevelIs(version, user, state, n);
    }
    forall n ensures NamedLevel(state, name, missing) == Ok(n) <==> NamedIs(state, name, missing, n) {
      NamedLevelIs(state, name, missing, n);
    }
  }

  /** The event to redact is from the same server, as far as old event ids tell. */
  predicate SameServer(e: Event) {
    Domain(e.eventId).Some? && (e.redacts.None? || Domain(e.redacts.value) == Domain(e.eventId))
  }

  /** A redaction takes the redact level, but in the old event format one's own server's events
      may be redacted without, and in the new one the rules let it pass. */
  lemma RedactionIff(version: RoomVersion, e: Event, state: StateMap)
    requires e.kind == Redaction
    ensures CheckStateDependent(version, e, state).Ok? <==>
            && MayTakePart(e, e.sender, state) && MaySend(version, e, state)
            && exists n, redact :: LevelIs(version, state, e.sender, n) && NamedIs(state, RedactLevel, 50, redact)
                 && (n >= redact || !version.eventFormatV1 || SameServer(e))
  {
    SendIff(version, e, state);
    LevelsRead(version, e.sender, state, RedactLevel, 50);
  }

  // --------------------------------------------------------------- power levels

  predicate LooksLikeUser(id: string) {
    id != "" && id[0] == '@' && exists i | 0 < i < |id| :: id[i] == ':'
  }

  ghost predicate UsersWellFormed(p: Powers) {
    forall user <- p.users :: LooksLikeUser(user) && exists n :: ReadsAs(p.users[user], n)
  }

  /** All four groups of levels hold plain integers. */
  predicate PlainIntegers(p: Powers) {
    && (forall k <- p.named :: p.named[k].Number?) && (forall k <- p.users :: p.users[k].Number?)
    && (forall k <- p.events :: p.events[k].Number?) && (forall k <- p.notifications :: p.notifications[k].Number?)
  }

  function Entry<K>(levels: map<K, LevelValue>, key: K): Option<LevelValue> {
    if key in levels then Some(levels[key]) else None
  }

  /** A sender of level `n` may make this change: none at all, or from and to levels they have,
      and away from less than their own if the entry is another user's. */
  ghost predicate MayChange(before: Option<LevelValue>, after: Option<LevelValue>, n: int, others: bool) {
    || (before.Some? && after.Some? && exists x :: ReadsAs(before.value, x) && ReadsAs(after.value, x))
    || (&& (before.Some? ==> exists x :: ReadsAs(before.value, x) && x <= n && (others ==> x < n))
        && (after.Some? ==> exists x :: ReadsAs(after.value, x) && x <= n))
  }

  /** Every level the two events name may be changed as it is. */
  ghost predicate MayChangeAll(version: RoomVersion, current: Powers, proposed: Powers, sender: UserId, n: int) {
    && (forall k: LevelName :: MayChange(Entry(current.named, k), Entry(proposed.named, k), n, false))
    && (forall k: UserId :: MayChange(Entry(current.users, k), Entry(proposed.users, k), n, k != sender))
    && (forall k: EventType :: MayChange(Entry(current.events, k), Entry(proposed.events, k), n, false))
    && (version.limitNotificationLevels ==>
          forall k: string :: MayChange(Entry(current.notifications, k), Entry(proposed.notifications, k), n, false))
  }

  lemma ChangeAllowedIs(current: Powers, proposed: Powers, ref: LevelRef, sender: UserId, n: int)
    ensures ChangeAllowed(current, proposed, ref, sender, n) <==>
            MayChange(At(current, ref), At(proposed, ref), n, ref.UserRef? && ref.user != sender)
  {
    var before, after := At(current, ref), At(proposed, ref);
    if before.Some? && AsInt(before.value).Some? { assert ReadsAs(before.value, AsInt(before.value).value); }
    if after.Some? && AsInt(after.value).Some? { assert ReadsAs(after.value, AsInt(after.value).value); }
  }

  lemma AllowedAt(version: RoomVersion, current: Powers, proposed: Powers, ref: LevelRef, sender: UserId, n: int)
    requires ChangesAllowed(version, current, proposed, sender, n) && (ref.NotificationRef? ==> version.limitNotificationLevels)
    ensures MayChange(At(current, ref), At(proposed, ref), n, ref.UserRef? && ref.user != sender)
  {
    ChangeAllowedIs(current, proposed, ref, sender, n);
    if MustCompare(version, current, proposed, ref) { assert ChangeAllowed(current, proposed, ref, sender, n); }
  }

  lemma AllowedMeansMay(version: RoomVersion, current: Powers, proposed: Powers, sender: UserId, n: int)
    requires ChangesAllowed(version, current, proposed, sender, n)
    ensures MayChangeAll(version, current, proposed, sender, n)
  {
    forall k: LevelName ensures MayChange(Entry(current.named, k), Entry(proposed.named, k), n, false) {
      AllowedAt(version, current, proposed, NamedRef(k), sender, n);
    }
    forall k: UserId ensures MayChange(Entry(current.users, k), Entry(proposed.users, k), n, k != sender) {
      AllowedAt(version, current, proposed, UserRef(k), sender, n);
    }
    forall k: EventType ensures MayChange(Entry(current.events, k), Entry(proposed.events, k), n, false) {
      AllowedAt(version, current, proposed, EventRef(k), sender, n);
    }
    if version.limitNotificationLevels {
      forall k: string ensures MayChange(Entry(current.notifications, k), Entry(proposed.notifications, k), n, false) {
        AllowedAt(version, current, proposed, NotificationRef(k), sender, n);
      }
    }
  }

  lemma MayAt(version: RoomVersion, current: Powers, proposed: Powers, ref: LevelRef, sender: UserId, n: int)
    requires MayChangeAll(version, current, proposed, sender, n) && MustCompare(version, current, proposed, ref)
    ensures ChangeAllowed(current, proposed, ref, sender, n)
  {
    ChangeAllowedIs(current, proposed, ref, sender, n);
    match ref
    case NamedRef(k) => assert MayChange(Entry(current.named, k), Entry(proposed.named, k), n, false);
    case UserRef(k) => assert MayChange(Entry(current.users, k), Entry(proposed.users, k), n, k != sender);
    case EventRef(k) => assert MayChange(Entry(current.events, k), Entry(proposed.events, k), n, false);
    case NotificationRef(k) => assert MayChange(Entry(current.notifications, k), Entry(proposed.notifications, k), n, false);
  }

  lemma ChangesAllowedIs(version: RoomVersion, current: Powers, proposed: Powers, sender: UserId, n: int)
    ensures ChangesAllowed(version, current, proposed, sender, n) <==> MayChangeAll(version, current, proposed, sender, n)
  {
    if ChangesAllowed(version, current, proposed, sender, n) { AllowedMeansMay(version, current, proposed, sender, n); }
    if MayChangeAll(version, current, proposed, sender, n) {
      forall ref | MustCompare(version, current, proposed, ref) ensures ChangeAllowed(current, proposed, ref, sender, n) {
        MayAt(version, current, proposed, ref, sender, n);
      }
    }
  }

  lemma UsersWellFormedIs(p: Powers)
    ensures ValidUserList(p) <==> UsersWellFormed(p)
  {
    forall user | user in p.users
      ensures IsUserId(user) && AsInt(p.users[user]).Some? <==> LooksLikeUser(user) && exists n :: ReadsAs(p.users[user], n)
    {
      if AsInt(p.users[user]).Some? { assert ReadsAs(p.users[user], AsInt(p.users[user]).value); }
      if IsUserId(user) {
        var i :| 0 <= i < |user[1..]| && user[1..][i] == ':';
        assert user[i + 1] == ':';
      }
      if LooksLikeUser(user) {
        var i :| 0 < i < |user| && user[i] == ':';
        assert user[1..][i - 1] == ':';
      }
    }
  }

  /** A power-levels event passes exactly when its sender may send it, its users are user ids with
      levels, its levels are integers where the version insists, and every change against the
      event it replaces is one a sender of that level may make. */
  lemma PowerLevelsIff(version: RoomVersion, e: Event, key: string, state: StateMap)
    requires e.kind == PowerLevels && e.stateKey == Some(key)
    ensures CheckStateDependent(version, e, state).Ok? <==>
            && MayTakePart(e, e.sender, state) && MaySend(version, e, state)
            && UsersWellFormed(e.content.powers) && (version.enforceIntPowerLevels ==> PlainIntegers(e.content.powers))
            && ((PowerLevels, key) in state ==>
                  exists n :: LevelIs(version, state, e.sender, n)
                    && MayChangeAll(version, state[(PowerLevels, key)].content.powers, e.content.powers, e.sender, n))
  {
    SendIff(version, e, state);
    UsersWellFormedIs(e.content.powers);
    if MaySend(version, e, state) { PowerChangeIff(version, e, key, state); }
  }

  lemma PowerChangeIff(version: RoomVersion, e: Event, key: string, state: StateMap)
    requires e.kind == PowerLevels && e.stateKey == Some(key) && MaySend(version, e, state)
    ensures CheckPowerLevels(version, e, state).Ok? <==>
            && ValidUserList(e.content.powers) && (version.enforceIntPowerLevels ==> PlainIntegers(e.content.powers))
            && ((PowerLevels, key) in state ==>
                  exists n :: LevelIs(version, state, e.sender, n)
                    && MayChangeAll(version, state[(PowerLevels, key)].content.powers, e.content.powers, e.sender, n))
  {
    SendIff(version, e, state);
    LevelsRead(version, e.sender, state, BanLevel, 50);
    if (PowerLevels, key) in state {
      ChangesAllowedIs(version, state[(PowerLevels, key)].content.powers, e.content.powers, e.sender,
                       UserLevel(version, e.sender, state).value);
    }
  }

  /** Without a state key it never passes. */
  lemma PowerLevelsAreState(version: RoomVersion, e: Event, state: StateMap)
    requires e.kind == PowerLevels && e.stateKey.None?
    ensures CheckStateDependent(version, e, state).Err?
  {}

  // ------------------------------------------------------------ creation, selection

  /** A create event passes exactly when it comes first, its room is on its sender's server, its
      room version is known and its creator is. */
  lemma CreateIff(version: RoomVersion, e: Event)
    ensures CheckCreate(version, e).Ok? <==>
            && |e.prevEvents| == 0 && Domain(e.sender).Some? && Domain(e.sender) == Domain(e.roomId)
            && e.content.knownRoomVersion && (version.implicitCreator || e.content.creator.Some?)
  {}

  /** Every event has auth types, but a member event only with a membership, a target and, if it
      is an invite, no malformed proof. */
  lemma AuthTypesExistIff(version: RoomVersion, e: Event)
    ensures AuthTypes(version, e).Ok? <==>
            || e.kind != Member
            || (&& e.content.membership.Some? && e.stateKey.Some?
                && (e.content.membership == Some(Invite) ==> e.content.proof != Some(MalformedProof)))
  {}

  /** The auth types of an event, one by one. */
  lemma AuthTypesAre(version: RoomVersion, e: Event, key: StateKey)
    requires AuthTypes(version, e).Ok?
    ensures key in AuthTypes(version, e).value <==>
            && e.kind != Create
            && (|| key == (Create, "") || key == (PowerLevels, "") || key == (Member, e.sender)
                || (e.kind == Member && e.stateKey.Some? && key == (Member, e.stateKey.value))
                || (e.kind == Member && key == (JoinRules, "")
                    && e.content.membership in {Some(Join), Some(Invite), Some(Knock)})
                || (e.kind == Member && e.content.membership == Some(Invite) && e.content.proof.Some?
                    && e.content.proof.value.SignedProof? && key == (ThirdPartyInvite, e.content.proof.value.token))
                || (e.kind == Member && e.content.membership == Some(Join) && version.restrictedJoinRule
                    && e.content.authorisingUser.Some? && key == (Member, e.content.authorisingUser.value)))
  {}
}
