/** What holds over every linear run of accepted events, from the creation of the room. */
module AuthRuns {
  import opened Common
  import opened RoomEvents
  import opened EventAuth

  /** Every event of the run was accepted by the state the ones before it produced. */
  ghost predicate AcceptedFrom(version: RoomVersion, state: StateMap, run: seq<Event>) {
    forall i | 0 <= i < |run| :: AcceptedAt(version, state, run, i)
  }

  ghost predicate AcceptedAt(version: RoomVersion, state: StateMap, run: seq<Event>, i: nat)
    requires i < |run|
  {
    Accepts(version, FoldAll(state, run[..i]), run[i])
  }

  /** A room history without forks: it starts at a create event, and every later event
      follows the one before it. */
  ghost predicate LinearRun(version: RoomVersion, run: seq<Event>) {
    && |run| > 0
    && run[0].kind == Create
    && AcceptedFrom(version, map[], run)
    && (forall i | 0 < i < |run| :: run[i].prevEvents == [run[i - 1].eventId])
    && (forall i, j | 0 <= i < j < |run| :: run[i].eventId != run[j].eventId)
  }

  function StateAt(run: seq<Event>, n: nat): StateMap
    requires n <= |run|
  {
    FoldAll(map[], run[..n])
  }

  /** The create event stays in place: a later one has previous events and is refused. */
  lemma {:induction false} CreateEventKept(version: RoomVersion, run: seq<Event>, n: nat)
    requires LinearRun(version, run) && n <= |run|
    ensures (Create, "") in StateAt(run, n) ==> n > 0 && StateAt(run, n)[(Create, "")] == run[0]
  {
    if n > 0 {
      CreateEventKept(version, run, n - 1);
      FoldAllNext(map[], run, n - 1);
      assert n > 1 ==> AcceptedAt(version, map[], run, n - 1);
    }
  }

  /** The shortcut for the creator's first join is open to the second event only. */
  lemma CreatorJoinIsSecond(version: RoomVersion, run: seq<Event>, n: nat)
    requires LinearRun(version, run) && 0 < n < |run|
    requires IsCreatorJoin(version, run[n], StateAt(run, n)) == Ok(true)
    ensures n == 1 && run[n].stateKey.Some? && Creator(version, run[0]) == Ok(run[n].stateKey.value)
  {
    CreateEventKept(version, run, n);
    assert run[n].prevEvents == [run[n - 1].eventId];
  }

  // ---------------------------------------------------------------------- bans

  /** What it takes to lift a ban. */
  ghost predicate MayUnban(version: RoomVersion, e: Event, target: UserId, state: StateMap) {
    && e.content.membership == Some(Leave)
    && e.sender != target
    && HasMembership(state, e.sender, Join)
    && var level := UserLevel(version, e.sender, state);
       var targetLevel := UserLevel(version, target, state);
       var banLevel := NamedLevel(state, BanLevel, 50);
       var kickLevel := NamedLevel(state, KickLevel, 50);
       && level.Ok? && targetLevel.Ok? && banLevel.Ok? && kickLevel.Ok?
       && NamedLevel(state, InviteLevel, 0).Ok?
       && level.value >= banLevel.value
       && level.value >= kickLevel.value
       && level.value > targetLevel.value
  }

  /** Whether a sender or target from another server may take part in the room. */
  ghost predicate Federates(e: Event, user: UserId, state: StateMap) {
    && Domain(e.roomId).Some? && Domain(user).Some?
    && (Domain(e.roomId) == Domain(user) || CanFederate(state))
  }

  lemma ContextReadsState(version: RoomVersion, sender: UserId, target: UserId, state: StateMap)
    requires HasMembership(state, target, Ban)
    ensures var c := GetContext(version, sender, target, state);
            c.Ok? ==> c.value.target == Some(Ban)
                      && (c.value.caller == Some(Join) <==> HasMembership(state, sender, Join))
                      && (sender == target ==> c.value.caller == Some(Ban))
  {}

  lemma UnbanInContext(version: RoomVersion, e: Event, m: Membership, target: UserId, c: MembershipContext, state: StateMap)
    requires e.kind == Member && e.stateKey == Some(target) && e.content.membership == Some(m) && m != Ban
    requires HasMembership(state, target, Ban) && GetContext(version, e.sender, target, state) == Ok(c)
    ensures CheckInContext(version, e, m, target, c, state).Ok? <==> MayUnban(version, e, target, state)
  {
    ContextReadsState(version, e.sender, target, state);
  }

  /** In a room where the target is banned, a membership event that is not a ban again
      passes if and only if it is such an unban. */
  lemma UnbanIff(version: RoomVersion, e: Event, target: UserId, state: StateMap)
    requires e.kind == Member && e.stateKey == Some(target) && e.content.membership != Some(Ban)
    requires HasMembership(state, target, Ban)
    requires IsCreatorJoin(version, e, state) == Ok(false)
    ensures CheckStateDependent(version, e, state).Ok? <==>
            && Federates(e, e.sender, state) && Federates(e, target, state)
            && MayUnban(version, e, target, state)
  {
    var c := GetContext(version, e.sender, target, state);
    if e.content.membership.Some? && c.Ok? {
      UnbanInContext(version, e, e.content.membership.value, target, c.value, state);
    }
  }

  /** A banned user stays banned until somebody with the power to do so lets them go. */
  lemma BanPersists(version: RoomVersion, run: seq<Event>, n: nat, target: UserId)
    requires LinearRun(version, run) && 2 <= n < |run|
    requires HasMembership(StateAt(run, n), target, Ban)
    requires !HasMembership(StateAt(run, n + 1), target, Ban)
    ensures run[n].kind == Member && run[n].stateKey == Some(target)
    ensures MayUnban(version, run[n], target, StateAt(run, n))
  {
    FoldAllNext(map[], run, n);
    var e := run[n];
    var state := StateAt(run, n);
    assert AcceptedAt(version, map[], run, n);
    assert e.kind == Member && e.stateKey == Some(target);
    if IsCreatorJoin(version, e, state) == Ok(true) {
      CreatorJoinIsSecond(version, run, n);
    }
    UnbanIff(version, e, target, state);
  }

  // --------------------------------------------------------------- invitations

  ghost predicate InviteOnly(run: seq<Event>) {
    forall i | 0 <= i <= |run| :: JoinRuleOf(StateAt(run, i)) in {InviteRule, KnockRule}
  }

  /** Event `k` invites `user`, and was let in because its sender was a member, either
      right then or when they issued the third-party invite it redeems (event `issued`). */
  ghost predicate InvitesAt(run: seq<Event>, k: nat, issued: nat, user: UserId)
    requires k < |run|
  {
    && run[k].kind == Member && run[k].stateKey == Some(user) && run[k].content.membership == Some(Invite)
    && issued <= k
    && HasMembership(StateAt(run, issued), run[k].sender, Join)
    && (issued == k
        || (&& run[issued].kind == ThirdPartyInvite
            && run[issued].sender == run[k].sender
            && run[k].content.proof.Some? && run[k].content.proof.value.SignedProof?
            && run[issued].stateKey == Some(run[k].content.proof.value.token)))
  }

  /** `user` is tied to the creator by invitations among the first `n` events. */
  ghost predicate LinkedToCreator(version: RoomVersion, run: seq<Event>, n: nat, user: UserId)
    requires 0 < |run| && n <= |run|
    decreases n
  {
    || Creator(version, run[0]) == Ok(user)
    || exists k: nat, issued: nat ::
         k < n && issued <= k && InvitesAt(run, k, issued, user) && LinkedToCreator(version, run, issued, run[k].sender)
  }

  lemma {:induction false} LinkedMonotone(version: RoomVersion, run: seq<Event>, m: nat, n: nat, user: UserId)
    requires 0 < |run| && m <= n <= |run|
    requires LinkedToCreator(version, run, m, user)
    ensures LinkedToCreator(version, run, n, user)
  {
    if Creator(version, run[0]) != Ok(user) {
      var k: nat, issued: nat :| k < m && issued <= k && InvitesAt(run, k, issued, user)
                                 && LinkedToCreator(version, run, issued, run[k].sender);
    }
  }

  /** Joined and invited users are linked, and so is the issuer of every pending
      third-party invite, who was a member when they issued it. */
  ghost predicate Chained(version: RoomVersion, run: seq<Event>, n: nat)
    requires 0 < |run| && n <= |run|
  {
    var state := StateAt(run, n);
    && (forall user | HasMembership(state, user, Join) || HasMembership(state, user, Invite) ::
          LinkedToCreator(version, run, n, user))
    && (forall token | (ThirdPartyInvite, token) in state ::
          IssuedBefore(version, run, n, token, state[(ThirdPartyInvite, token)]))
  }

  ghost predicate IssuedBefore(version: RoomVersion, run: seq<Event>, n: nat, token: string, e: Event)
    requires n <= |run|
  {
    exists issued: nat :: issued < n && IssuedAt(version, run, issued, token, e)
  }

  ghost predicate IssuedAt(version: RoomVersion, run: seq<Event>, issued: nat, token: string, e: Event)
    requires issued < |run|
  {
    && run[issued] == e && e.kind == ThirdPartyInvite && e.stateKey == Some(token)
    && HasMembership(StateAt(run, issued), e.sender, Join)
    && LinkedToCreator(version, run, issued, e.sender)
  }

  /** In an invite-only room a join is the creator's first, or by a member or invitee. */
  lemma JoinNeedsInvite(version: RoomVersion, e: Event, user: UserId, state: StateMap)
    requires e.kind == Member && e.stateKey == Some(user) && e.content.membership == Some(Join)
    requires CheckMembership(version, e, state).Ok?
    requires JoinRuleOf(state) in {InviteRule, KnockRule}
    ensures || IsCreatorJoin(version, e, state) == Ok(true)
            || HasMembership(state, user, Join) || HasMembership(state, user, Invite)
  {}

  /** An invite is sent by a member, or redeems a third-party invite of its sender. */
  lemma InviteNeedsMember(version: RoomVersion, e: Event, user: UserId, state: StateMap)
    requires e.kind == Member && e.stateKey == Some(user) && e.content.membership == Some(Invite)
    requires CheckMembership(version, e, state).Ok?
    ensures HasMembership(state, e.sender, Join) || ProofVerified(e, state)
  {}

  lemma JoinKeepsChain(version: RoomVersion, run: seq<Event>, n: nat, user: UserId)
    requires LinearRun(version, run) && InviteOnly(run) && 0 < n < |run|
    requires Chained(version, run, n)
    requires run[n].kind == Member && run[n].stateKey == Some(user) && run[n].content.membership == Some(Join)
    ensures LinkedToCreator(version, run, n + 1, user)
  {
    assert AcceptedAt(version, map[], run, n);
    JoinNeedsInvite(version, run[n], user, StateAt(run, n));
    if IsCreatorJoin(version, run[n], StateAt(run, n)) == Ok(true) {
      CreatorJoinIsSecond(version, run, n);
    } else {
      LinkedMonotone(version, run, n, n + 1, user);
    }
  }

  /** An invite is issued by a linked member, now or by a third-party invite it redeems. */
  lemma InviteIsIssued(version: RoomVersion, run: seq<Event>, n: nat, user: UserId) returns (issued: nat)
    requires LinearRun(version, run) && 0 < n < |run|
    requires Chained(version, run, n)
    requires run[n].kind == Member && run[n].stateKey == Some(user) && run[n].content.membership == Some(Invite)
    ensures issued <= n && InvitesAt(run, n, issued, user) && LinkedToCreator(version, run, issued, run[n].sender)
  {
    var e, state := run[n], StateAt(run, n);
    assert AcceptedAt(version, map[], run, n);
    InviteNeedsMember(version, e, user, state);
    if HasMembership(state, e.sender, Join) {
      issued := n;
    } else {
      var token := e.content.proof.value.token;
      issued :| issued < n && IssuedAt(version, run, issued, token, state[(ThirdPartyInvite, token)]);
    }
  }

  lemma MemberEventKeepsChain(version: RoomVersion, run: seq<Event>, n: nat, user: UserId)
    requires LinearRun(version, run) && InviteOnly(run) && 0 < n < |run|
    requires Chained(version, run, n)
    requires run[n].kind == Member && run[n].stateKey == Some(user)
    requires run[n].content.membership == Some(Join) || run[n].content.membership == Some(Invite)
    ensures LinkedToCreator(version, run, n + 1, user)
  {
    if run[n].content.membership == Some(Join) {
      JoinKeepsChain(version, run, n, user);
    } else {
      var issued := InviteIsIssued(version, run, n, user);
    }
  }

  lemma SenderIsMember(version: RoomVersion, e: Event, state: StateMap)
    requires e.kind == ThirdPartyInvite && Accepts(version, state, e)
    ensures HasMembership(state, e.sender, Join)
  {
    assert CheckMessage(version, e, state).Ok?;
  }

  lemma NewInviteIsIssued(version: RoomVersion, run: seq<Event>, n: nat, token: string)
    requires LinearRun(version, run) && 0 < n < |run|
    requires Chained(version, run, n)
    requires run[n].kind == ThirdPartyInvite && run[n].stateKey == Some(token)
    ensures IssuedAt(version, run, n, token, run[n])
  {
    assert AcceptedAt(version, map[], run, n);
    SenderIsMember(version, run[n], StateAt(run, n));
  }

  lemma ChainStep(version: RoomVersion, run: seq<Event>, n: nat)
    requires LinearRun(version, run) && InviteOnly(run) && 0 < n < |run|
    requires Chained(version, run, n)
    ensures Chained(version, run, n + 1)
  {
    FoldAllNext(map[], run, n);
    var after := StateAt(run, n + 1);
    forall user | HasMembership(after, user, Join) || HasMembership(after, user, Invite)
      ensures LinkedToCreator(version, run, n + 1, user)
    {
      if run[n].kind == Member && run[n].stateKey == Some(user) {
        MemberEventKeepsChain(version, run, n, user);
      } else {
        LinkedMonotone(version, run, n, n + 1, user);
      }
    }
    forall token | (ThirdPartyInvite, token) in after
      ensures IssuedBefore(version, run, n + 1, token, after[(ThirdPartyInvite, token)])
    {
      InviteStaysIssued(version, run, n, token);
    }
  }

  lemma InviteStaysIssued(version: RoomVersion, run: seq<Event>, n: nat, token: string)
    requires LinearRun(version, run) && InviteOnly(run) && 0 < n < |run|
    requires Chained(version, run, n) && (ThirdPartyInvite, token) in StateAt(run, n + 1)
    ensures IssuedBefore(version, run, n + 1, token, StateAt(run, n + 1)[(ThirdPartyInvite, token)])
  {
    FoldAllNext(map[], run, n);
    if run[n].kind == ThirdPartyInvite && run[n].stateKey == Some(token) {
      NewInviteIsIssued(version, run, n, token);
    } else {
      var before := StateAt(run, n);
      var issued: nat :| issued < n && IssuedAt(version, run, issued, token, before[(ThirdPartyInvite, token)]);
    }
  }

  lemma {:induction false} RunIsChained(version: RoomVersion, run: seq<Event>, n: nat)
    requires LinearRun(version, run) && InviteOnly(run) && 0 < n <= |run|
    ensures Chained(version, run, n)
  {
    if n == 1 {
      FoldAllNext(map[], run, 0);
    } else {
      RunIsChained(version, run, n - 1);
      ChainStep(version, run, n - 1);
    }
  }

  /** Nobody gets into an invite-only room uninvited: whoever is a member at any point of
      any run is linked to the creator by a chain of invitations accepted before. */
  lemma MembersAreInvited(version: RoomVersion, run: seq<Event>, n: nat, user: UserId)
    requires LinearRun(version, run) && InviteOnly(run) && n <= |run|
    requires HasMembership(StateAt(run, n), user, Join)
    ensures LinkedToCreator(version, run, n, user)
  {
    if n > 0 { RunIsChained(version, run, n); }
  }
}
