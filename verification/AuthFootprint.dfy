/** Which part of the room state a decision can read. */
module AuthFootprint {
  import opened Common
  import opened RoomEvents
  import opened EventAuth

  ghost predicate Agree(a: StateMap, b: StateMap, keys: set<StateKey>) {
    forall key <- keys :: Lookup(a, key) == Lookup(b, key)
  }

  function Restrict(state: StateMap, keys: set<StateKey>): StateMap {
    map key | key in state && key in keys :: state[key]
  }

  /** Every state key the rules consult for this event, read off the rules themselves. */
  function ReadSet(version: RoomVersion, e: Event): set<StateKey> {
    if e.kind == Create then {}
    else
      {(PowerLevels, ""), (Member, e.sender), (Create, "")}
      + (if e.kind == PowerLevels && e.stateKey.Some? then {(PowerLevels, e.stateKey.value)} else {})
      + (if e.kind == Member then MemberReads(version, e) else {})
  }

  function MemberReads(version: RoomVersion, e: Event): set<StateKey> {
    var m := e.content.membership;
    (if m in {Some(Join), Some(Knock)} then {(JoinRules, "")} else {})
    + (if e.stateKey.Some? then {(Member, e.stateKey.value)} else {})
    + (if m == Some(Invite) && e.content.proof.Some? && e.content.proof.value.SignedProof?
       then {(ThirdPartyInvite, e.content.proof.value.token)} else {})
    + (if m == Some(Join) && (version.restrictedJoinRule || version.knockRestrictedJoinRule)
          && e.content.authorisingUser.Some?
       then {(Member, e.content.authorisingUser.value)} else {})
  }

  lemma AgreeAt(a: StateMap, b: StateMap, keys: set<StateKey>, key: StateKey)
    requires Agree(a, b, keys) && key in keys
    ensures Lookup(a, key) == Lookup(b, key)
  {}

  lemma SameLevels(version: RoomVersion, user: UserId, a: StateMap, b: StateMap)
    requires Lookup(a, (PowerLevels, "")) == Lookup(b, (PowerLevels, ""))
    requires Lookup(a, (Create, "")) == Lookup(b, (Create, ""))
    ensures PowersOf(a) == PowersOf(b)
    ensures UserLevel(version, user, a) == UserLevel(version, user, b)
    ensures CanFederate(a) == CanFederate(b)
  {}

  lemma SameContext(version: RoomVersion, sender: UserId, target: UserId, a: StateMap, b: StateMap)
    requires Lookup(a, (PowerLevels, "")) == Lookup(b, (PowerLevels, ""))
    requires Lookup(a, (Create, "")) == Lookup(b, (Create, ""))
    requires Lookup(a, (Member, sender)) == Lookup(b, (Member, sender))
    requires Lookup(a, (Member, target)) == Lookup(b, (Member, target))
    ensures var ca := GetContext(version, sender, target, a);
            var cb := GetContext(version, sender, target, b);
            && (ca.Err? ==> cb == ca)
            && (ca.Ok? ==> cb.Ok? && cb.value == ca.value.(joinRule := JoinRuleOf(b)))
  {
    SameLevels(version, sender, a, b);
    SameLevels(version, target, a, b);
    assert MembershipOf(a, sender) == MembershipOf(b, sender);
    assert MembershipOf(a, target) == MembershipOf(b, target);
    assert NamedLevel(a, InviteLevel, 0) == NamedLevel(b, InviteLevel, 0);
    assert NamedLevel(a, BanLevel, 50) == NamedLevel(b, BanLevel, 50);
  }

  lemma SameJoinVerdict(version: RoomVersion, e: Event, target: UserId, c: MembershipContext, a: StateMap, b: StateMap)
    requires e.kind == Member && e.content.membership == Some(Join)
    requires c.joinRule == JoinRuleOf(a) == JoinRuleOf(b)
    requires Agree(a, b, ReadSet(version, e))
    ensures CheckJoin(version, e, target, c, a) == CheckJoin(version, e, target, c, b)
  {
    if (version.restrictedJoinRule || version.knockRestrictedJoinRule) && e.content.authorisingUser.Some? {
      var keys := ReadSet(version, e);
      var authoriser := e.content.authorisingUser.value;
      assert (Member, authoriser) in MemberReads(version, e);
      AgreeAt(a, b, keys, (Member, authoriser));
      AgreeAt(a, b, keys, (PowerLevels, ""));
      AgreeAt(a, b, keys, (Create, ""));
      SameLevels(version, authoriser, a, b);
      assert CheckJoined(a, authoriser) == CheckJoined(b, authoriser);
    }
  }

  lemma SameProof(version: RoomVersion, e: Event, a: StateMap, b: StateMap)
    requires e.kind == Member && e.content.membership == Some(Invite)
    requires Agree(a, b, ReadSet(version, e))
    ensures ProofVerified(e, a) == ProofVerified(e, b)
  {
    if e.content.proof.Some? && e.content.proof.value.SignedProof? {
      var key := (ThirdPartyInvite, e.content.proof.value.token);
      assert key in MemberReads(version, e);
      AgreeAt(a, b, ReadSet(version, e), key);
    }
  }

  lemma SameBranchVerdict(version: RoomVersion, e: Event, target: UserId, c: MembershipContext, a: StateMap, b: StateMap)
    requires e.kind == Member && e.content.membership.Some?
    requires c.joinRule == JoinRuleOf(a)
    requires Agree(a, b, ReadSet(version, e))
    ensures CheckMembershipBranch(version, e, e.content.membership.value, target, c, a)
            == CheckMembershipBranch(version, e, e.content.membership.value, target, c.(joinRule := JoinRuleOf(b)), b)
  {
    var keys := ReadSet(version, e);
    var m := e.content.membership.value;
    if m == Join || m == Knock {
      assert (JoinRules, "") in MemberReads(version, e);
      AgreeAt(a, b, keys, (JoinRules, ""));
      if m == Join { SameJoinVerdict(version, e, target, c, a, b); }
    } else if m == Leave {
      AgreeAt(a, b, keys, (PowerLevels, ""));
      assert NamedLevel(a, KickLevel, 50) == NamedLevel(b, KickLevel, 50);
    }
  }

  lemma SameInContext(version: RoomVersion, e: Event, target: UserId, c: MembershipContext, a: StateMap, b: StateMap)
    requires e.kind == Member && e.content.membership.Some?
    requires c.joinRule == JoinRuleOf(a)
    requires Agree(a, b, ReadSet(version, e))
    ensures CheckInContext(version, e, e.content.membership.value, target, c, a)
            == CheckInContext(version, e, e.content.membership.value, target, c.(joinRule := JoinRuleOf(b)), b)
  {
    if e.content.membership == Some(Invite) { SameProof(version, e, a, b); }
    SameBranchVerdict(version, e, target, c, a, b);
  }

  lemma SameOrdinaryVerdict(version: RoomVersion, e: Event, a: StateMap, b: StateMap)
    requires e.kind == Member && e.content.membership.Some?
    requires Agree(a, b, ReadSet(version, e))
    ensures CheckOrdinaryMembership(version, e, e.content.membership.value, a)
            == CheckOrdinaryMembership(version, e, e.content.membership.value, b)
  {
    var keys := ReadSet(version, e);
    AgreeAt(a, b, keys, (Create, ""));
    assert CanFederate(a) == CanFederate(b);
    if e.stateKey.Some? {
      var target := e.stateKey.value;
      var ca, cb := GetContext(version, e.sender, target, a), GetContext(version, e.sender, target, b);
      assert (ca.Err? ==> cb == ca) && (ca.Ok? ==> cb.Ok? && cb.value == ca.value.(joinRule := JoinRuleOf(b))) by {
        assert (Member, target) in MemberReads(version, e);
        AgreeAt(a, b, keys, (PowerLevels, ""));
        AgreeAt(a, b, keys, (Member, e.sender));
        AgreeAt(a, b, keys, (Member, target));
        SameContext(version, e.sender, target, a, b);
      }
      if ca.Ok? { SameInContext(version, e, target, ca.value, a, b); }
    }
  }

  lemma SameMembershipVerdict(version: RoomVersion, e: Event, a: StateMap, b: StateMap)
    requires e.kind == Member && Agree(a, b, ReadSet(version, e))
    ensures CheckMembership(version, e, a) == CheckMembership(version, e, b)
  {
    AgreeAt(a, b, ReadSet(version, e), (Create, ""));
    assert IsCreatorJoin(version, e, a) == IsCreatorJoin(version, e, b);
    if e.content.membership.Some? { SameOrdinaryVerdict(version, e, a, b); }
  }

  lemma SameMessageVerdict(version: RoomVersion, e: Event, a: StateMap, b: StateMap)
    requires e.kind != Create && e.kind != Member && Agree(a, b, ReadSet(version, e))
    ensures CheckMessage(version, e, a) == CheckMessage(version, e, b)
  {
    var keys := ReadSet(version, e);
    AgreeAt(a, b, keys, (PowerLevels, ""));
    AgreeAt(a, b, keys, (Create, ""));
    AgreeAt(a, b, keys, (Member, e.sender));
    SameLevels(version, e.sender, a, b);
    if e.kind == PowerLevels && e.stateKey.Some? {
      AgreeAt(a, b, keys, (PowerLevels, e.stateKey.value));
    }
  }

  /** The verdict on any event is a function of the state at its read set. */
  lemma VerdictReadsOnlyReadSet(version: RoomVersion, e: Event, a: StateMap, b: StateMap)
    requires Agree(a, b, ReadSet(version, e))
    ensures CheckStateDependent(version, e, a) == CheckStateDependent(version, e, b)
  {
    if e.kind != Create {
      AgreeAt(a, b, ReadSet(version, e), (Create, ""));
      if e.kind == Member {
        SameMembershipVerdict(version, e, a, b);
      } else {
        SameMessageVerdict(version, e, a, b);
      }
    }
  }

  /** Exactly when the selected auth types cover everything the rules read. */
  lemma AuthTypesCoverReadsIff(version: RoomVersion, e: Event)
    requires AuthTypes(version, e).Ok?
    ensures ReadSet(version, e) <= AuthTypes(version, e).value <==>
            && (e.kind == PowerLevels && e.stateKey.Some? ==> e.stateKey.value == "")
            && (e.kind == Member && e.content.membership == Some(Join) && e.content.authorisingUser.Some?
                && version.knockRestrictedJoinRule && !version.restrictedJoinRule
                ==> e.content.authorisingUser.value in {e.sender, e.stateKey.value})
  {
    var selected := AuthTypes(version, e).value;
    if e.kind == PowerLevels && e.stateKey.Some? {
      assert (PowerLevels, e.stateKey.value) in ReadSet(version, e);
    }
    if e.kind == Member && e.content.membership == Some(Join) && e.content.authorisingUser.Some?
       && version.knockRestrictedJoinRule {
      assert (Member, e.content.authorisingUser.value) in MemberReads(version, e);
      assert (Member, e.content.authorisingUser.value) in ReadSet(version, e);
    }
  }

  /** The selected auth types determine the verdict. */
  lemma AuthTypesDetermineVerdict(version: RoomVersion, e: Event, a: StateMap, b: StateMap)
    requires AuthTypes(version, e).Ok?
    requires version.knockRestrictedJoinRule ==> version.restrictedJoinRule
    requires e.kind == PowerLevels && e.stateKey.Some? ==> e.stateKey.value == ""
    requires Agree(a, b, AuthTypes(version, e).value)
    ensures CheckStateDependent(version, e, a) == CheckStateDependent(version, e, b)
  {
    AuthTypesCoverReadsIff(version, e);
    VerdictReadsOnlyReadSet(version, e, a, b);
  }

  /** Checking against the fetched auth events is checking against the whole room. */
  lemma SelectedStateSuffices(version: RoomVersion, e: Event, state: StateMap)
    requires AuthTypes(version, e).Ok?
    requires version.knockRestrictedJoinRule ==> version.restrictedJoinRule
    requires e.kind == PowerLevels && e.stateKey.Some? ==> e.stateKey.value == ""
    ensures CheckStateDependent(version, e, Restrict(state, AuthTypes(version, e).value))
            == CheckStateDependent(version, e, state)
  {
    AuthTypesDetermineVerdict(version, e, Restrict(state, AuthTypes(version, e).value), state);
  }

  /** Outside the premise the law fails for the whole family: whenever a room accepts a
      power-levels event under a non-empty state key, some room that agrees with it on every
      selected auth type rejects the same event. */
  lemma KeyedPowerLevelsEscapeAuthTypes(version: RoomVersion, e: Event, state: StateMap) returns (other: StateMap)
    requires e.kind == PowerLevels && e.stateKey.Some? && e.stateKey.value != ""
    requires CheckStateDependent(version, e, state).Ok?
    ensures AuthTypes(version, e).Ok? && Agree(state, other, AuthTypes(version, e).value)
    ensures CheckStateDependent(version, e, other).Err?
  {
    var level := UserLevel(version, e.sender, state).value;
    var key := (PowerLevels, e.stateKey.value);
    var taken := if BanLevel in e.content.powers.named && AsInt(e.content.powers.named[BanLevel]) == Some(level + 1)
                 then 2 else 1;
    var blocking := Powers(map[BanLevel := Number(level + taken)], map[], map[], map[]);
    other := state[key := e.(content := e.content.(powers := blocking))];
    SameLevels(version, e.sender, state, other);
    var ref := NamedRef(BanLevel);
    assert MustCompare(version, blocking, e.content.powers, ref);
    assert !ChangeAllowed(blocking, e.content.powers, ref, e.sender, level);
  }

  // ------------------------------------------------------------ the exact condition

  predicate DomainsRead(e: Event) { Domain(e.roomId).Some? && Domain(e.sender).Some? }

  /** A well-formed power-levels event under a state key of its own that its sender may use. */
  predicate KeyedPowerLevels(version: RoomVersion, e: Event) {
    && e.kind == PowerLevels && e.stateKey.Some? && e.stateKey.value != "" && DomainsRead(e)
    && (e.stateKey.value[0] == '@' ==> e.stateKey.value == e.sender)
    && ValidUserList(e.content.powers) && (version.enforceIntPowerLevels ==> AllIntegers(e.content.powers))
  }

  /** A user's own join that names a third user as its authoriser, in a room version that has
      knock-restricted rooms but not restricted ones. */
  predicate ForeignAuthoriser(version: RoomVersion, e: Event) {
    && e.kind == Member && e.content.membership == Some(Join) && e.content.authorisingUser.Some?
    && version.knockRestrictedJoinRule && !version.restrictedJoinRule
    && DomainsRead(e) && e.stateKey == Some(e.sender) && e.content.authorisingUser.value != e.sender
  }

  /** The auth types tell all: states that agree on them give the event the same verdict. */
  ghost predicate Determined(version: RoomVersion, e: Event)
    requires AuthTypes(version, e).Ok?
  {
    forall a, b | Agree(a, b, AuthTypes(version, e).value) ::
      CheckStateDependent(version, e, a) == CheckStateDependent(version, e, b)
  }

  /** A room just created, as the event's own sender or another user would have created it. */
  function CreatedBy(e: Event, creator: UserId): Event {
    e.(kind := Create, stateKey := Some(""), sender := creator, content := e.content.(federate := true, creator := Some(creator)))
  }

  function JoinedAs(e: Event, user: UserId): Event {
    e.(kind := Member, stateKey := Some(user), sender := user, content := e.content.(membership := Some(Join)))
  }

  lemma KeyedIsAccepted(version: RoomVersion, e: Event) returns (state: StateMap)
    requires KeyedPowerLevels(version, e)
    ensures CheckStateDependent(version, e, state).Ok?
  {
    state := map[(Create, "") := CreatedBy(e, e.sender), (Member, e.sender) := JoinedAs(e, e.sender)];
    assert UserLevel(version, e.sender, state) == Ok(100);
  }

  lemma KeyedEscapes(version: RoomVersion, e: Event)
    requires KeyedPowerLevels(version, e) && AuthTypes(version, e).Ok?
    ensures !Determined(version, e)
  {
    var state := KeyedIsAccepted(version, e);
    var other := KeyedPowerLevelsEscapeAuthTypes(version, e, state);
    assert Agree(state, other, AuthTypes(version, e).value);
  }

  lemma AuthoriserEscapes(version: RoomVersion, e: Event)
    requires ForeignAuthoriser(version, e) && AuthTypes(version, e).Ok?
    ensures !Determined(version, e)
  {
    var user := e.content.authorisingUser.value;
    var rules := e.(kind := JoinRules, stateKey := Some(""), content := e.content.(joinRule := Some(KnockRestrictedRule)));
    var without: StateMap := map[(Create, "") := CreatedBy(e, user), (JoinRules, "") := rules];
    var state := without[(Member, user) := JoinedAs(e, user)];
    assert Agree(state, without, AuthTypes(version, e).value);
    assert UserLevel(version, user, state) == Ok(100) && UserLevel(version, e.sender, state) == Ok(0);
    assert IsCreatorJoin(version, e, state) == Ok(false) == IsCreatorJoin(version, e, without);
    assert CheckOrdinaryMembership(version, e, Join, state).Ok?;
    assert CheckOrdinaryMembership(version, e, Join, without) == Err(NotInRoom);
  }

  lemma UnusableKeyIsRefused(version: RoomVersion, e: Event, a: StateMap, b: StateMap)
    requires e.kind == PowerLevels && !KeyedPowerLevels(version, e) && Agree(a, b, AuthTypes(version, e).value)
    ensures CheckStateDependent(version, e, a) == CheckStateDependent(version, e, b)
  {
    var keys := AuthTypes(version, e).value;
    AgreeAt(a, b, keys, (PowerLevels, ""));
    AgreeAt(a, b, keys, (Create, ""));
    AgreeAt(a, b, keys, (Member, e.sender));
    SameLevels(version, e.sender, a, b);
    assert CanSendEvent(version, e, a) == CanSendEvent(version, e, b);
  }

  lemma OthersJoinFails(version: RoomVersion, e: Event, target: UserId, a: StateMap, b: StateMap)
    requires e.kind == Member && e.stateKey == Some(target) && target != e.sender
    requires Lookup(a, (PowerLevels, "")) == Lookup(b, (PowerLevels, ""))
    requires Lookup(a, (Create, "")) == Lookup(b, (Create, ""))
    requires Lookup(a, (Member, e.sender)) == Lookup(b, (Member, e.sender))
    requires Lookup(a, (Member, target)) == Lookup(b, (Member, target))
    ensures CheckOrdinaryMembership(version, e, Join, a) == CheckOrdinaryMembership(version, e, Join, b)
  {
    SameContext(version, e.sender, target, a, b);
    SameLevels(version, e.sender, a, b);
  }

  lemma OthersJoinIsRefused(version: RoomVersion, e: Event, a: StateMap, b: StateMap)
    requires e.kind == Member && e.content.membership == Some(Join) && AuthTypes(version, e).Ok?
    requires e.stateKey != Some(e.sender) || !DomainsRead(e)
    requires Agree(a, b, AuthTypes(version, e).value)
    ensures CheckStateDependent(version, e, a) == CheckStateDependent(version, e, b)
  {
    if DomainsRead(e) {
      var keys, target := AuthTypes(version, e).value, e.stateKey.value;
      AgreeAt(a, b, keys, (PowerLevels, ""));
      AgreeAt(a, b, keys, (Create, ""));
      AgreeAt(a, b, keys, (Member, e.sender));
      AgreeAt(a, b, keys, (Member, target));
      OthersJoinFails(version, e, target, a, b);
      assert IsCreatorJoin(version, e, a) == IsCreatorJoin(version, e, b);
      assert CanFederate(a) == CanFederate(b);
    }
  }

  /** The auth types determine the verdict if and only if the event is neither of the two. */
  lemma DeterminedIff(version: RoomVersion, e: Event)
    requires AuthTypes(version, e).Ok?
    ensures Determined(version, e) <==> !KeyedPowerLevels(version, e) && !ForeignAuthoriser(version, e)
  {
    if KeyedPowerLevels(version, e) {
      KeyedEscapes(version, e);
    } else if ForeignAuthoriser(version, e) {
      AuthoriserEscapes(version, e);
    } else {
      forall a, b | Agree(a, b, AuthTypes(version, e).value)
        ensures CheckStateDependent(version, e, a) == CheckStateDependent(version, e, b)
      {
        AuthTypesCoverReadsIff(version, e);
        if ReadSet(version, e) <= AuthTypes(version, e).value {
          VerdictReadsOnlyReadSet(version, e, a, b);
        } else if e.kind == PowerLevels {
          UnusableKeyIsRefused(version, e, a, b);
        } else {
          OthersJoinIsRefused(version, e, a, b);
        }
      }
    }
  }
}
