/** Power never rises above what the room already grants, over every run. */
module PowerCeiling {
  import opened Common
  import opened RoomEvents
  import opened EventAuth
  import opened AuthRuns

  ghost function MaxOf(s: set<int>): (m: int)
    requires exists x :: x in s
    ensures m in s && forall x <- s :: x <= m
    decreases |s|
  {
    var x :| x in s;
    var rest := s - {x};
    assert forall y <- s :: y == x || y in rest;
    if exists y :: y in rest then
      var m := MaxOf(rest);
      if x > m then x else m
    else x
  }

  /** The levels a power-levels content hands out to anybody outside `except`. */
  function Levels(p: Powers, except: set<UserId>): (s: set<int>)
    ensures 0 in s
  {
    {0}
    + (if UsersDefault in p.named && AsInt(p.named[UsersDefault]).Some? then {AsInt(p.named[UsersDefault]).value} else {})
    + (set u | u in p.users && u !in except && AsInt(p.users[u]).Some? :: AsInt(p.users[u]).value)
  }

  ghost function Ceiling(p: Powers, except: set<UserId>): int {
    MaxOf(Levels(p, except))
  }

  ghost function CeilingOf(state: StateMap, except: set<UserId>): int
    requires PowersOf(state).Some?
  {
    Ceiling(PowersOf(state).value, except)
  }

  /** The user's own entry in the power-levels event. */
  function ExplicitLevel(p: Powers, user: UserId): Option<int> {
    if user in p.users then AsInt(p.users[user]) else None
  }

  /** Somebody whose entry lies strictly above what anybody else can reach. */
  ghost predicate OnTop(state: StateMap, user: UserId, level: int) {
    && PowersOf(state).Some?
    && ExplicitLevel(PowersOf(state).value, user) == Some(level)
    && level > CeilingOf(state, {user})
  }

  lemma SenderBelowCeiling(p: Powers, user: UserId, except: set<UserId>)
    requires user !in except && ExplicitOrDefaultLevel(user, p).Ok?
    ensures ExplicitOrDefaultLevel(user, p).value <= Ceiling(p, except)
  {
    assert ExplicitOrDefaultLevel(user, p).value in Levels(p, except);
  }

  /** The whole effect of an accepted change on the levels people hold. */
  lemma ChangeKeepsCeiling(version: RoomVersion, current: Powers, proposed: Powers, sender: UserId, except: set<UserId>)
    requires sender !in except
    requires var level := ExplicitOrDefaultLevel(sender, current);
             level.Ok? && ChangesAllowed(version, current, proposed, sender, level.value)
    ensures Ceiling(proposed, except) <= Ceiling(current, except)
    ensures forall user <- except :: ExplicitLevel(current, user).Some?
                && ExplicitLevel(current, user).value > Ceiling(current, except)
              ==> ExplicitLevel(proposed, user) == ExplicitLevel(current, user)
  {
    SenderBelowCeiling(current, sender, except);
    var level := ExplicitOrDefaultLevel(sender, current).value;
    var top := Ceiling(current, except);
    forall x | x in Levels(proposed, except)
      ensures x <= top
    {
      if u :| u in proposed.users && u !in except && AsInt(proposed.users[u]) == Some(x) {
        var ref := UserRef(u);
        assert MustCompare(version, current, proposed, ref) && At(proposed, ref) == Some(proposed.users[u]);
        assert ChangeAllowed(current, proposed, ref, sender, level);
        assert ExplicitLevel(current, u) == Some(x) ==> x in Levels(current, except);
      } else if UsersDefault in proposed.named && AsInt(proposed.named[UsersDefault]) == Some(x) {
        var ref := NamedRef(UsersDefault);
        assert MustCompare(version, current, proposed, ref) && At(proposed, ref) == Some(proposed.named[UsersDefault]);
        assert ChangeAllowed(current, proposed, ref, sender, level);
      }
    }
    forall user | user in except && ExplicitLevel(current, user).Some? && ExplicitLevel(current, user).value > top
      ensures ExplicitLevel(proposed, user) == ExplicitLevel(current, user)
    {
      var ref := UserRef(user);
      assert MustCompare(version, current, proposed, ref) && At(current, ref) == Some(current.users[user]);
      assert ChangeAllowed(current, proposed, ref, sender, level);
    }
  }

  lemma AcceptedChange(version: RoomVersion, state: StateMap, e: Event)
    requires PowersOf(state).Some? && Accepts(version, state, e)
    requires e.kind == PowerLevels && e.stateKey == Some("")
    ensures var level := ExplicitOrDefaultLevel(e.sender, PowersOf(state).value);
            level.Ok? && ChangesAllowed(version, PowersOf(state).value, e.content.powers, e.sender, level.value)
  {
    assert CheckPowerLevels(version, e, state).Ok?;
  }

  /** One accepted event from outside `except` cannot raise the ceiling of the others, nor
      touch an entry of `except` above it. */
  lemma StepKeepsCeiling(version: RoomVersion, state: StateMap, e: Event, except: set<UserId>)
    requires PowersOf(state).Some? && Accepts(version, state, e) && e.sender !in except
    ensures PowersOf(Fold(state, e)).Some?
    ensures CeilingOf(Fold(state, e), except) <= CeilingOf(state, except)
    ensures forall user <- except ::
              var before := ExplicitLevel(PowersOf(state).value, user);
              before.Some? && before.value > CeilingOf(state, except)
              ==> ExplicitLevel(PowersOf(Fold(state, e)).value, user) == before
  {
    if e.kind == PowerLevels && e.stateKey == Some("") {
      AcceptedChange(version, state, e);
      ChangeKeepsCeiling(version, PowersOf(state).value, e.content.powers, e.sender, except);
    }
  }

  lemma {:induction false} PowersStay(version: RoomVersion, state: StateMap, run: seq<Event>, n: nat)
    requires PowersOf(state).Some? && AcceptedFrom(version, state, run) && n <= |run|
    ensures PowersOf(FoldAll(state, run[..n])).Some?
  {
    if n > 0 {
      PowersStay(version, state, run, n - 1);
      FoldAllNext(state, run, n - 1);
      assert AcceptedAt(version, state, run, n - 1);
      StepKeepsCeiling(version, FoldAll(state, run[..n - 1]), run[n - 1], {});
    }
  }

  /** The ceiling after the first `n` events of a run. */
  ghost function CeilingAt(state: StateMap, run: seq<Event>, n: nat): int
    requires n <= |run|
  {
    var after := FoldAll(state, run[..n]);
    if PowersOf(after).Some? then CeilingOf(after, {}) else 0
  }

  lemma CeilingStep(version: RoomVersion, state: StateMap, run: seq<Event>, n: nat)
    requires PowersOf(state).Some? && AcceptedFrom(version, state, run) && n < |run|
    ensures CeilingAt(state, run, n + 1) <= CeilingAt(state, run, n)
  {
    PowersStay(version, state, run, n);
    FoldAllNext(state, run, n);
    assert AcceptedAt(version, state, run, n);
    StepKeepsCeiling(version, FoldAll(state, run[..n]), run[n], {});
  }

  lemma {:induction false} CeilingFalls(version: RoomVersion, state: StateMap, run: seq<Event>, m: nat, n: nat)
    requires PowersOf(state).Some? && AcceptedFrom(version, state, run) && m <= n <= |run|
    ensures CeilingAt(state, run, n) <= CeilingAt(state, run, m)
  {
    if m < n {
      CeilingFalls(version, state, run, m, n - 1);
      CeilingStep(version, state, run, n - 1);
    }
  }

  /** Over every run, max(0, users_default, explicit levels) never rises. */
  lemma CeilingNeverRises(version: RoomVersion, state: StateMap, run: seq<Event>, m: nat, n: nat)
    requires PowersOf(state).Some? && AcceptedFrom(version, state, run) && m <= n <= |run|
    ensures PowersOf(FoldAll(state, run[..m])).Some? && PowersOf(FoldAll(state, run[..n])).Some?
    ensures CeilingOf(FoldAll(state, run[..n]), {}) <= CeilingOf(FoldAll(state, run[..m]), {})
  {
    PowersStay(version, state, run, m);
    PowersStay(version, state, run, n);
    CeilingFalls(version, state, run, m, n);
  }

  /** Somebody on top is beyond the reach of every kick and ban. */
  lemma TopIsOutOfReach(version: RoomVersion, state: StateMap, e: Event, user: UserId, level: int)
    requires OnTop(state, user, level)
    requires e.kind == Member && e.stateKey == Some(user) && e.sender != user
    requires e.content.membership == Some(Leave) || e.content.membership == Some(Ban)
    ensures !Accepts(version, state, e)
  {
    var c := GetContext(version, e.sender, user, state);
    if c.Ok? {
      SenderBelowCeiling(PowersOf(state).value, e.sender, {user});
      assert c.value.userLevel < level == c.value.targetLevel;
      assert CheckInContext(version, e, e.content.membership.value, user, c.value, state).Err?;
    }
    assert IsCreatorJoin(version, e, state) == Ok(false);
  }

  lemma StepKeepsTop(version: RoomVersion, state: StateMap, e: Event, user: UserId, level: int)
    requires OnTop(state, user, level) && Accepts(version, state, e) && e.sender != user
    ensures OnTop(Fold(state, e), user, level)
    ensures e.kind == Member && e.stateKey == Some(user)
            ==> e.content.membership != Some(Leave) && e.content.membership != Some(Ban)
  {
    if e.kind == Member && e.stateKey == Some(user)
       && (e.content.membership == Some(Leave) || e.content.membership == Some(Ban)) {
      TopIsOutOfReach(version, state, e, user, level);
    }
    StepKeepsCeiling(version, state, e, {user});
    assert user in {user};
  }

  ghost predicate RemovesMember(e: Event, user: UserId) {
    && e.kind == Member && e.stateKey == Some(user)
    && (e.content.membership == Some(Leave) || e.content.membership == Some(Ban))
  }

  ghost predicate SendsNothing(run: seq<Event>, user: UserId) {
    forall i | 0 <= i < |run| :: run[i].sender != user
  }

  lemma {:induction false} TopLevelKept(version: RoomVersion, state: StateMap, run: seq<Event>, user: UserId, level: int, n: nat)
    requires OnTop(state, user, level) && AcceptedFrom(version, state, run) && n <= |run|
    requires SendsNothing(run, user)
    ensures OnTop(FoldAll(state, run[..n]), user, level)
  {
    if n > 0 {
      TopLevelKept(version, state, run, user, level, n - 1);
      FoldAllNext(state, run, n - 1);
      assert AcceptedAt(version, state, run, n - 1);
      StepKeepsTop(version, FoldAll(state, run[..n - 1]), run[n - 1], user, level);
    }
  }

  /** Over every run in which they send nothing, a user on top keeps exactly their level
      and is neither kicked nor banned. */
  lemma TopStaysOnTop(version: RoomVersion, state: StateMap, run: seq<Event>, user: UserId, level: int)
    requires OnTop(state, user, level) && AcceptedFrom(version, state, run)
    requires SendsNothing(run, user)
    ensures forall n | 0 <= n <= |run| :: OnTop(FoldAll(state, run[..n]), user, level)
    ensures forall i | 0 <= i < |run| :: !RemovesMember(run[i], user)
  {
    forall n | 0 <= n <= |run| ensures OnTop(FoldAll(state, run[..n]), user, level) {
      TopLevelKept(version, state, run, user, level, n);
    }
    forall i | 0 <= i < |run| ensures !RemovesMember(run[i], user) {
      assert AcceptedAt(version, state, run, i);
      StepKeepsTop(version, FoldAll(state, run[..i]), run[i], user, level);
    }
  }
}
