/** Who is shown what, in terms of the fields of the event and of the database. */
module VisibilityRules {
  import opened Common
  import opened Visibility
  import RoomEvents

  /** The state event at a key once the event has taken effect. */
  function StateEventAt(db: Storage, e: Event, key: Key): Option<Event> {
    if e.stateKey == Some(key.1) && e.kind == key.0 then Some(e)
    else if e.eventId in db.stateBefore && key in db.stateBefore[e.eventId]
            && db.stateBefore[e.eventId][key] in db.events
    then Some(db.events[db.stateBefore[e.eventId][key]])
    else None
  }

  lemma StateIs(db: Storage, e: Event, key: Key)
    requires Stored(db, e)
    ensures key in EventsOf(db, IdsAt(db, e)) <==> StateEventAt(db, e, key).Some?
    ensures StateEventAt(db, e, key).Some? ==> EventsOf(db, IdsAt(db, e))[key] == StateEventAt(db, e, key).value
  {}

  lemma FilteredStateIs(db: Storage, e: Event, wanted: set<Key>, key: Key)
    requires key in wanted
    ensures key in StateThroughFilter(db, e, wanted) <==> StateEventAt(db, e, key).Some?
    ensures StateEventAt(db, e, key).Some? ==> StateThroughFilter(db, e, wanted)[key] == StateEventAt(db, e, key).value
  {}

  predicate MemberAt(db: Storage, e: Event, user: string, m: Option<Membership>) {
    var found := StateEventAt(db, e, (Member, user));
    m == if found.Some? then found.value.membership else None
  }

  /** A setting that is missing or unknown counts as shared. */
  predicate CountsAs(given: Option<Setting>, s: Setting) {
    if given.Some? && !given.value.UnknownSetting? then s == given.value else s == Shared
  }

  predicate SettingAt(db: Storage, e: Event, s: Setting) {
    var found := StateEventAt(db, e, (HistoryVisibility, ""));
    CountsAs(if found.Some? then found.value.setting else None, s)
  }

  /** Open to everybody who asks. */
  predicate Open(s: Setting, peeking: bool) { s == WorldReadable || (s == Shared && !peeking) }

  /** Open to somebody with that membership. */
  predicate OpenTo(s: Setting, peeking: bool, m: Option<Membership>) {
    Open(s, peeking) || m == Some(RoomEvents.Join) || (s == Invited && m == Some(RoomEvents.Invite))
  }

  /** Nothing keeps the event from going out to this client: it has not been soft-failed, is not
      of a kind clients never get, and, unless it is state, its sender is not ignored and it is
      no older than the room keeps messages. */
  predicate MayGoOut(db: Storage, user: string, e: Event, now: int) {
    && !e.softFailed && e.kind != Dummy && e.kind != Aliases
    && (e.stateKey.None? ==>
          && (user, e.sender) !in db.ignores
          && (e.roomId in db.maxLifetime ==> e.timestamp >= now - db.maxLifetime[e.roomId]))
  }

  lemma GoesOutIff(db: Storage, user: string, e: Event, now: int)
    ensures MayGoOut(db, user, e, now) <==>
            !e.softFailed && !DeniedToClient(e, now, LifetimeOf(db, e.roomId), (user, e.sender) in db.ignores)
  {}

  lemma ClientStateIs(db: Storage, user: string, e: Event, s: Setting, m: Option<Membership>)
    requires Stored(db, e) && SettingAt(db, e, s) && MemberAt(db, e, user, m)
    ensures EffectiveSetting(StateForClient(db, user, e)) == s && MembershipAt(user, StateForClient(db, user, e)) == m
    ensures EffectiveSetting(StateThroughFilter(db, e, {VISIBILITY_KEY})) == s
    ensures MembershipAt(user, StateThroughFilter(db, e, {(Member, user)})) == m
  {
    StateIs(db, e, (HistoryVisibility, ""));
    StateIs(db, e, (Member, user));
    FilteredStateIs(db, e, {VISIBILITY_KEY}, VISIBILITY_KEY);
    FilteredStateIs(db, e, {(Member, user)}, (Member, user));
  }

  /** Ordinary events: both filters let a user have them whole exactly when they may go out and
      the history was open to the user's membership at the time. */
  lemma OrdinaryEventIff(db: Storage, user: string, e: Event, peeking: bool, now: int, s: Setting, m: Option<Membership>)
    requires Stored(db, e) && !e.outlier && e.kind != HistoryVisibility && !OwnMembership(e, user) && e.sender !in db.erased
    requires SettingAt(db, e, s) && MemberAt(db, e, user, m)
    ensures ClientView(db, user, e, peeking, {}, now) == Some(Whole(e)) <==> MayGoOut(db, user, e, now) && OpenTo(s, peeking, m)
    ensures MayBeTold(db, user, e, peeking, now) <==> MayGoOut(db, user, e, now) && OpenTo(s, peeking, m)
  {
    ClientStateIs(db, user, e, s, m);
    GoesOutIff(db, user, e, now);
  }

  /** A message to somebody joined: shown exactly when they do not ignore its sender and the room
      has not let it lapse. */
  lemma MessageToMemberIff(db: Storage, user: string, e: Event, peeking: bool, now: int)
    requires Stored(db, e) && e.stateKey.None? && e.kind.OtherKind? && !e.softFailed && !e.outlier
    requires e.sender !in db.erased && MemberAt(db, e, user, Some(RoomEvents.Join))
    ensures ClientView(db, user, e, peeking, {}, now) == Some(Whole(e)) <==>
            && (user, e.sender) !in db.ignores
            && (e.roomId in db.maxLifetime ==> e.timestamp >= now - db.maxLifetime[e.roomId])
    ensures MayBeTold(db, user, e, peeking, now) <==>
            && (user, e.sender) !in db.ignores
            && (e.roomId in db.maxLifetime ==> e.timestamp >= now - db.maxLifetime[e.roomId])
  {
    var found := StateEventAt(db, e, (HistoryVisibility, ""));
    var s := if found.Some? && found.value.setting.Some? && !found.value.setting.value.UnknownSetting?
             then found.value.setting.value else Shared;
    OrdinaryEventIff(db, user, e, peeking, now, s, Some(RoomEvents.Join));
  }

  /** A change of history visibility is shown if it was open before or is after, or is open to
      the user's membership after. */
  lemma VisibilityChangeIff(db: Storage, user: string, e: Event, peeking: bool, now: int,
                            s: Setting, before: Setting, m: Option<Membership>)
    requires Stored(db, e) && !e.outlier && e.kind == HistoryVisibility && e.sender !in db.erased
    requires SettingAt(db, e, s) && CountsAs(e.prevSetting, before) && MemberAt(db, e, user, m)
    ensures ClientView(db, user, e, peeking, {}, now) == Some(Whole(e)) <==>
            MayGoOut(db, user, e, now) && (Open(before, peeking) || OpenTo(s, peeking, m))
    ensures MayBeTold(db, user, e, peeking, now) <==>
            MayGoOut(db, user, e, now) && (Open(before, peeking) || OpenTo(s, peeking, m))
  {
    ClientStateIs(db, user, e, s, m);
    GoesOutIff(db, user, e, now);
  }

  predicate WasOrIs(e: Event, m: Membership) { e.membership == Some(m) || e.prevMembership == Some(m) }

  /** From joined or invited to leave, which a missing or unknown membership counts as. */
  predicate Departs(e: Event) {
    && (e.membership.None? || e.membership.value.UnknownMembership? || e.membership.value == RoomEvents.Leave)
    && (e.prevMembership == Some(RoomEvents.Join) || e.prevMembership == Some(RoomEvents.Invite))
  }

  /** One's own membership event counts as the better of what it was and is, and a departure is
      always shown. */
  lemma OwnMembershipIff(db: Storage, user: string, e: Event, peeking: bool, now: int, s: Setting)
    requires Stored(db, e) && !e.outlier && OwnMembership(e, user) && e.sender !in db.erased && SettingAt(db, e, s)
    ensures ClientView(db, user, e, peeking, {}, now) == Some(Whole(e)) <==>
            && MayGoOut(db, user, e, now)
            && (Open(s, peeking) || Departs(e) || WasOrIs(e, RoomEvents.Join) || (s == Invited && WasOrIs(e, RoomEvents.Invite)))
    ensures MayBeTold(db, user, e, peeking, now) <==>
            && MayGoOut(db, user, e, now)
            && (Open(s, peeking) || Departs(e) || WasOrIs(e, RoomEvents.Join) || (s == Invited && WasOrIs(e, RoomEvents.Invite)))
  {
    var found := StateEventAt(db, e, (Member, user));
    ClientStateIs(db, user, e, s, if found.Some? then found.value.membership else None);
    GoesOutIff(db, user, e, now);
  }

  /** Of events without state only one's own membership is shown. */
  lemma OutlierIff(db: Storage, user: string, e: Event, peeking: bool, now: int)
    requires e.outlier
    ensures ClientView(db, user, e, peeking, {}, now) == (if MayGoOut(db, user, e, now) && e.kind == Member && e.stateKey == Some(user)
                                                          then Some(Whole(e)) else None)
    ensures MayBeTold(db, user, e, peeking, now) <==> MayGoOut(db, user, e, now) && e.kind == Member && e.stateKey == Some(user)
  {
    GoesOutIff(db, user, e, now);
  }

  /** What an erased user sent is whole for those who were joined, pruned for others the history
      was open to, and gone for the rest. */
  lemma ErasedSenderView(db: Storage, user: string, e: Event, peeking: bool, now: int, s: Setting, m: Option<Membership>)
    requires Stored(db, e) && !e.outlier && !OwnMembership(e, user) && e.sender in db.erased
    requires SettingAt(db, e, s) && MemberAt(db, e, user, m)
    ensures ClientView(db, user, e, peeking, {}, now) ==
            if !MayGoOut(db, user, e, now) || !OpenTo(s, peeking, m) then None
            else if m == Some(RoomEvents.Join) then Some(Whole(e)) else Some(Pruned(e))
  {
    ClientStateIs(db, user, e, s, m);
    GoesOutIff(db, user, e, now);
  }

  /** So is an erased sender's event about the user's own membership: whole if it counts as
      joined and is no departure. */
  lemma ErasedOwnMembershipView(db: Storage, user: string, e: Event, peeking: bool, now: int, s: Setting)
    requires Stored(db, e) && !e.outlier && OwnMembership(e, user) && e.sender in db.erased && SettingAt(db, e, s)
    ensures ClientView(db, user, e, peeking, {}, now) ==
            if !MayGoOut(db, user, e, now) then None
            else if Departs(e) then Some(Pruned(e))
            else if WasOrIs(e, RoomEvents.Join) then Some(Whole(e))
            else if Open(s, peeking) || (s == Invited && WasOrIs(e, RoomEvents.Invite)) then Some(Pruned(e))
            else None
  {
    var found := StateEventAt(db, e, (Member, user));
    ClientStateIs(db, user, e, s, if found.Some? then found.value.membership else None);
    GoesOutIff(db, user, e, now);
  }

  /** Whoever counts as joined is let in. */
  lemma JoinedAreAllowed(user: string, e: Event, setting: Setting, state: StateMap, peeking: bool)
    ensures var check := CheckMembership(user, e, setting, state, peeking); check.joined ==> check.allowed
  {}

  /** Events asked for by id skip the history check and nothing else. */
  lemma AlwaysIncludedIff(db: Storage, user: string, e: Event, peeking: bool, always: set<string>, now: int)
    requires e.eventId in always
    ensures ClientView(db, user, e, peeking, always, now) == if MayGoOut(db, user, e, now) then Some(Whole(e)) else None
  {
    GoesOutIff(db, user, e, now);
  }

  /** The visibility field at the event as it stands; none counts as shared. */
  predicate RawSettingAt(db: Storage, e: Event, s: Setting) {
    var found := StateEventAt(db, e, (HistoryVisibility, ""));
    s == if !e.outlier && found.Some? && found.value.setting.Some? then found.value.setting.value else Shared
  }

  /** A server sees an event of any setting but invited and joined; of those, if one of its users
      was joined, or was invited and the setting is invited. */
  lemma ServerSeesIff(db: Storage, target: string, e: Event, s: Setting)
    requires Stored(db, e) && RawSettingAt(db, e, s)
    ensures VisibleToServer(db, target, e) <==>
            || (s != Invited && s != Joined)
            || exists user :: Domain(user) == Some(target)
                 && (|| MemberAt(db, e, user, Some(RoomEvents.Join))
                     || (s == Invited && MemberAt(db, e, user, Some(RoomEvents.Invite))))
  {
    StateIs(db, e, (HistoryVisibility, ""));
    assert SettingForServer(db, e) == s;
    var state := EventsOf(db, IdsAt(db, e));
    if key :| key in state && key.0 == Member && Domain(key.1) == Some(target) && LetsServerIn(state[key].membership, s) {
      StateIs(db, e, key);
      assert key == (Member, key.1);
      assert MemberAt(db, e, key.1, state[key].membership);
    }
    forall user: string | Domain(user) == Some(target)
         && (MemberAt(db, e, user, Some(RoomEvents.Join)) || (s == Invited && MemberAt(db, e, user, Some(RoomEvents.Invite))))
      ensures VisibleToServer(db, target, e)
    {
      StateIs(db, e, (Member, user));
      var key: Key := (Member, user);
      assert key in state;
    }
  }

  /** What a server is sent of an event. */
  lemma ServerViewIs(db: Storage, target: string, local: string, e: Event, redact: bool, dropErased: bool, dropPartial: bool)
    ensures var view := ServerView(db, target, local, e, redact, dropErased, dropPartial);
            && (view == Some(Whole(e)) <==>
                  && VisibleToServer(db, target, e)
                  && (dropErased ==> e.sender !in db.erased)
                  && (dropPartial ==> e.roomId !in db.partialRooms || Domain(e.sender) == Some(local)))
            && (view == None ==> !redact) && (view != None && view != Some(Whole(e)) ==> redact && view == Some(Pruned(e)))
  {}

  /** A batch is filtered event by event, in order. */
  lemma {:induction false} ClientBatchSplits(db: Storage, user: string, a: seq<Event>, b: seq<Event>, peeking: bool, always: set<string>, now: int)
    ensures ClientViews(db, user, a + b, peeking, always, now)
            == ClientViews(db, user, a, peeking, always, now) + ClientViews(db, user, b, peeking, always, now)
    ensures |b| == 1 ==> var view := ClientView(db, user, b[0], peeking, always, now);
                         ClientViews(db, user, b, peeking, always, now) == if view.Some? then [view.value] else []
  {
    if b == [] {
      assert a + b == a;
    } else {
      var rest := b[..|b| - 1];
      assert (a + b)[..|a + b| - 1] == a + rest;
      ClientBatchSplits(db, user, a, rest, peeking, always, now);
    }
  }

  lemma {:induction false} ServerBatchSplits(db: Storage, target: string, local: string, a: seq<Event>, b: seq<Event>, redact: bool, dropErased: bool, dropPartial: bool)
    ensures ServerViews(db, target, local, a + b, redact, dropErased, dropPartial)
            == ServerViews(db, target, local, a, redact, dropErased, dropPartial)
               + ServerViews(db, target, local, b, redact, dropErased, dropPartial)
    ensures |b| == 1 ==> var view := ServerView(db, target, local, b[0], redact, dropErased, dropPartial);
                         ServerViews(db, target, local, b, redact, dropErased, dropPartial) == if view.Some? then [view.value] else []
  {
    if b == [] {
      assert a + b == a;
    } else {
      var rest := b[..|b| - 1];
      assert (a + b)[..|a + b| - 1] == a + rest;
      ServerBatchSplits(db, target, local, a, rest, redact, dropErased, dropPartial);
    }
  }
}
