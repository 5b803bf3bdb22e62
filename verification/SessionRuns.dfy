/** What binding a length means over every later run, with token refreshes in progress. */
module SessionRuns {
  import opened Common
  import opened SessionLength

  /** A refresh between reading its token and adding the new pair: what it read of the token,
      and the lifetimes it was asked for. */
  datatype Refresh = Refresh(
    parent: nat, device: Device, ultimate: Option<int>, access: Option<int>, refresh: Option<int>, refreshAdded: bool)

  /** `sweeping` are devices a sweep has selected and not yet deleted, `forgetting` those it has
      deleted and whose length it has not yet forgotten. */
  datatype Server = Server(
    t: Tables, spent: set<nat>, pending: map<nat, Refresh>, nextAccess: nat, nextRefresh: nat, nextPending: nat,
    sweeping: set<Device>, forgetting: set<Device>, clock: int)

  /** `read` is a clock reading taken before an await, so it may be old by now. */
  datatype Step =
    | Pass(ms: nat)
    | MintAccess(token: AccessToken)
    | MintRefresh(newToken: RefreshToken)
    | BindLength(device: Device, length: Length, read: int)
    | LookUp(id: nat, access: Option<int>, refresh: Option<int>)
    | AddRefresh(p: nat)
    | AddAccess(p: nat)
    | Spend(id: nat)
    | Drop(accessIds: set<nat>, refreshIds: set<nat>)
    | Delete(device: Device)
    | SweepSelects(ended: set<Device>, read: int)
    | SweepDeletes(device: Device)
    | SweepForgets(device: Device)
    | SweepFails(device: Device)
    | LogOut(device: Device)

  /** The lifetime a refresh gives, once it knows when its session must be over. */
  function Lifetime(wanted: Option<int>, ultimate: Option<int>): Option<int> {
    if ultimate.None? then wanted
    else if wanted.None? then ultimate
    else Some(Min(wanted.value, ultimate.value))
  }

  predicate Refreshable(s: Server, id: nat) {
    && id in s.t.refresh && id !in s.spent
    && (s.t.refresh[id].expiry.Some? ==> s.clock <= s.t.refresh[id].expiry.value)
    && (s.t.refresh[id].ultimate.Some? ==> s.clock <= s.t.refresh[id].ultimate.value)
  }

  function WithAccess(s: Server, token: AccessToken): Server {
    s.(t := s.t.(access := s.t.access[s.nextAccess := token]), nextAccess := s.nextAccess + 1)
  }

  function WithRefresh(s: Server, token: RefreshToken): Server {
    s.(t := s.t.(refresh := s.t.refresh[s.nextRefresh := token]), nextRefresh := s.nextRefresh + 1)
  }

  function Started(s: Server, p: Refresh): Server {
    s.(pending := s.pending[s.nextPending := p], nextPending := s.nextPending + 1)
  }

  /** One step; a step the server refuses changes nothing. */
  function Next(s: Server, step: Step): Server {
    match step
    case Pass(ms) => s.(clock := s.clock + ms)
    case MintAccess(token) => WithAccess(s.(t := s.t.(devices := s.t.devices + {token.device})), token)
    case MintRefresh(token) => WithRefresh(s.(t := s.t.(devices := s.t.devices + {token.device})), token)
    case BindLength(d, length, read) =>
      if d in s.t.rows || read > s.clock then s else s.(t := Bound(s.t, d, RowFor(length, read)))
    case LookUp(id, access, refresh) =>
      if !Refreshable(s, id) then s
      else Started(s, Refresh(id, s.t.refresh[id].device, s.t.refresh[id].ultimate, access, refresh, false))
    case AddRefresh(p) =>
      if p !in s.pending || s.pending[p].refreshAdded then s
      else
        var r := s.pending[p];
        WithRefresh(s.(pending := s.pending[p := r.(refreshAdded := true)]),
                    RefreshToken(r.device, Lifetime(r.refresh, r.ultimate), r.ultimate))
    case AddAccess(p) =>
      if p !in s.pending || !s.pending[p].refreshAdded then s
      else
        var r := s.pending[p];
        WithAccess(s.(pending := s.pending - {p}), AccessToken(r.device, Lifetime(r.access, r.ultimate)))
    case Spend(id) => if id in s.t.refresh then s.(spent := s.spent + {id}) else s
    case Drop(access, refresh) => s.(t := s.t.(access := s.t.access - access, refresh := s.t.refresh - refresh))
    case Delete(d) => s.(t := WithoutDevices(s.t, {d}))
    case SweepSelects(ended, read) =>
      if ended <= Ended(s.t.rows, read).Keys && read <= s.clock then s.(sweeping := s.sweeping + ended) else s
    case SweepDeletes(d) =>
      if d in s.sweeping
      then s.(t := WithoutDevices(s.t, {d}), sweeping := s.sweeping - {d}, forgetting := s.forgetting + {d}) else s
    case SweepForgets(d) =>
      if d in s.forgetting then s.(t := Forgotten(s.t, {d}), forgetting := s.forgetting - {d}) else s
    case SweepFails(d) => s.(sweeping := s.sweeping - {d}, forgetting := s.forgetting - {d})
    case LogOut(d) => if d in s.t.devices then s else s.(t := Forgotten(s.t, {d}))
  }

  /** The tokens a session is made of: those there at the bind and those refreshed from them. */
  datatype Family = Family(access: set<nat>, refresh: set<nat>)

  function FamilyOf(t: Tables, d: Device): Family {
    Family(set id | id in t.access && t.access[id].device == d, set id | id in t.refresh && t.refresh[id].device == d)
  }

  function Grown(f: Family, s: Server, step: Step): Family {
    match step
    case AddRefresh(p) =>
      if p in s.pending && !s.pending[p].refreshAdded && s.pending[p].parent in f.refresh
      then f.(refresh := f.refresh + {s.nextRefresh}) else f
    case AddAccess(p) =>
      if p in s.pending && s.pending[p].refreshAdded && s.pending[p].parent in f.refresh
      then f.(access := f.access + {s.nextAccess}) else f
    case _ => f
  }

  function After(s: Server, steps: seq<Step>): Server
    decreases |steps|
  {
    if steps == [] then s else After(Next(s, steps[0]), steps[1..])
  }

  function FamilyAfter(f: Family, s: Server, steps: seq<Step>): Family
    decreases |steps|
  {
    if steps == [] then f else FamilyAfter(Grown(f, s, steps[0]), Next(s, steps[0]), steps[1..])
  }

  /** Every token of the family that is still there expires by `end`. */
  predicate OverBy(s: Server, f: Family, end: int) {
    && (forall id <- f.access :: id in s.t.access ==> Within(s.t.access[id].validUntil, end))
    && (forall id <- f.refresh :: id in s.t.refresh ==> Within(s.t.refresh[id].expiry, end))
  }

  /** Every refresh in progress of a token in the family can only lead to tokens that are over
      by `end`. */
  predicate PendingBy(s: Server, f: Family, end: int) {
    forall p <- s.pending :: s.pending[p].parent in f.refresh ==> RefreshBy(s.pending[p], end, s.clock)
  }

  /** It has only its access token left to add and that one is over by then; or it read such
      an end; or both its tokens are, and the new refresh token has expired already. */
  predicate RefreshBy(r: Refresh, end: int, clock: int) {
    var access, refresh := Lifetime(r.access, r.ultimate), Lifetime(r.refresh, r.ultimate);
    if r.refreshAdded then Within(access, end)
    else Within(r.ultimate, end) || (Within(access, end) && Within(refresh, end) && refresh.value < clock)
  }

  /** A refresh token of the family carries an end no later than `end`, or is past use. */
  predicate UltimateBy(s: Server, f: Family, end: int) {
    forall id <- f.refresh :: id in s.t.refresh ==>
      || Within(s.t.refresh[id].ultimate, end)
      || (s.t.refresh[id].expiry.Some? && s.t.refresh[id].expiry.value < s.clock)
  }

  /** Identifiers are handed out in order, so nothing refers to one not yet handed out. */
  predicate WellNumbered(s: Server) {
    && (forall id <- s.t.access :: id < s.nextAccess)
    && (forall id <- s.t.refresh :: id < s.nextRefresh)
    && (forall id <- s.spent :: id < s.nextRefresh)
    && (forall p <- s.pending :: p < s.nextPending && s.pending[p].parent < s.nextRefresh)
  }

  predicate Known(s: Server, f: Family) {
    (forall id <- f.access :: id < s.nextAccess) && (forall id <- f.refresh :: id < s.nextRefresh)
  }

  predicate Capped(s: Server, f: Family, end: int) {
    OverBy(s, f, end) && UltimateBy(s, f, end) && PendingBy(s, f, end)
  }

  // ------------------------------------------------------------------ the cap holds

  lemma StepKeepsNumbers(s: Server, f: Family, step: Step)
    requires WellNumbered(s) && Known(s, f)
    ensures WellNumbered(Next(s, step)) && Known(Next(s, step), Grown(f, s, step))
  {
  }

  lemma BindKeepsCap(s: Server, f: Family, end: int, d: Device, length: Length, read: int)
    requires Capped(s, f, end)
    ensures Capped(Next(s, BindLength(d, length, read)), f, end)
  {
  }

  lemma TableStepKeepsCap(s: Server, f: Family, end: int, step: Step)
    requires Capped(s, f, end)
    requires step.Drop? || step.Delete? || step.LogOut? || step.Pass?
             || step.SweepSelects? || step.SweepDeletes? || step.SweepForgets? || step.SweepFails?
    ensures Capped(Next(s, step), f, end)
  {
  }

  lemma TokenStepKeepsCap(s: Server, f: Family, end: int, step: Step)
    requires Capped(s, f, end) && Known(s, f)
    requires step.MintAccess? || step.MintRefresh? || step.LookUp? || step.Spend?
    ensures Capped(Next(s, step), f, end)
  {
  }

  lemma RefreshStepKeepsCap(s: Server, f: Family, end: int, step: Step)
    requires Capped(s, f, end) && Known(s, f) && WellNumbered(s)
    requires step.AddRefresh? || step.AddAccess?
    ensures Capped(Next(s, step), Grown(f, s, step), end)
  {
  }

  lemma {:induction false} CapHolds(s: Server, f: Family, end: int, steps: seq<Step>)
    requires WellNumbered(s) && Known(s, f) && Capped(s, f, end)
    ensures Capped(After(s, steps), FamilyAfter(f, s, steps), end)
    decreases |steps|
  {
    if steps != [] {
      var step := steps[0];
      if step.AddRefresh? || step.AddAccess? {
        RefreshStepKeepsCap(s, f, end, step);
      } else if step.MintAccess? || step.MintRefresh? || step.LookUp? || step.Spend? {
        TokenStepKeepsCap(s, f, end, step);
      } else if step.BindLength? {
        BindKeepsCap(s, f, end, step.device, step.length, step.read);
      } else {
        TableStepKeepsCap(s, f, end, step);
      }
      StepKeepsNumbers(s, f, step);
      CapHolds(Next(s, step), Grown(f, s, step), end, steps[1..]);
    }
  }

  /** Binding caps the whole family as it stands; only refreshes in progress can be left out. */
  lemma BindCapsFamily(s: Server, d: Device, length: Length, read: int)
    requires d !in s.t.rows && read <= s.clock && LengthMs(length).Some?
    ensures var b, f, end := Next(s, BindLength(d, length, read)), FamilyOf(s.t, d), read + LengthMs(length).value;
            OverBy(b, f, end) && UltimateBy(b, f, end) && (PendingBy(b, f, end) <==> PendingBy(s, f, end))
  {
  }

  lemma AfterNext(s: Server, f: Family, step: Step, rest: seq<Step>)
    ensures After(s, [step] + rest) == After(Next(s, step), rest)
    ensures FamilyAfter(f, s, [step] + rest) == FamilyAfter(Grown(f, s, step), Next(s, step), rest)
  {
    assert ([step] + rest)[1..] == rest;
  }

  /** A refresh that read its token too early leads to a token which outlives the cap. */
  lemma PendingEscapes(s: Server, f: Family, end: int, p: nat) returns (steps: seq<Step>)
    requires WellNumbered(s) && p in s.pending && s.pending[p].parent in f.refresh
    requires !RefreshBy(s.pending[p], end, s.clock)
    ensures !OverBy(After(s, steps), FamilyAfter(f, s, steps), end)
  {
    var r := s.pending[p];
    if r.refreshAdded {
      steps := LateAccessEscapes(s, f, end, p);
    } else {
      var added, f1 := Next(s, AddRefresh(p)), Grown(f, s, AddRefresh(p));
      assert s.nextRefresh in f1.refresh;
      var rest := [];
      if !Within(Lifetime(r.refresh, r.ultimate), end) {
        assert !OverBy(added, f1, end);
      } else if !Within(Lifetime(r.access, r.ultimate), end) {
        rest := LateAccessEscapes(added, f1, end, p);
      } else {
        rest := NewTokenEscapes(added, f1, end, s.nextRefresh);
      }
      steps := [AddRefresh(p)] + rest;
      AfterNext(s, f, AddRefresh(p), rest);
    }
  }

  lemma LateAccessEscapes(s: Server, f: Family, end: int, p: nat) returns (steps: seq<Step>)
    requires p in s.pending && s.pending[p].parent in f.refresh && s.pending[p].refreshAdded
    requires !Within(Lifetime(s.pending[p].access, s.pending[p].ultimate), end)
    ensures !OverBy(After(s, steps), FamilyAfter(f, s, steps), end)
  {
    steps := [AddAccess(p)] + [];
    AfterNext(s, f, AddAccess(p), []);
    assert s.nextAccess in Grown(f, s, AddAccess(p)).access;
  }

  lemma NewTokenEscapes(s: Server, f: Family, end: int, id: nat) returns (steps: seq<Step>)
    requires Refreshable(s, id) && id in f.refresh && !Within(s.t.refresh[id].ultimate, end)
    ensures !OverBy(After(s, steps), FamilyAfter(f, s, steps), end)
  {
    var p := s.nextPending;
    var s1 := Next(s, LookUp(id, None, None));
    var s2 := Next(s1, AddRefresh(p));
    var f2 := Grown(f, s1, AddRefresh(p));
    var rest := LateAccessEscapes(s2, f2, end, p);
    steps := [LookUp(id, None, None)] + ([AddRefresh(p)] + rest);
    AfterNext(s, f, LookUp(id, None, None), [AddRefresh(p)] + rest);
    AfterNext(s1, f, AddRefresh(p), rest);
  }

  ghost predicate AlwaysOverBy(s: Server, f: Family, end: int) {
    forall steps :: OverBy(After(s, steps), FamilyAfter(f, s, steps), end)
  }

  /** After a bind, every token of the session expires by its end in every run, with a clock
      that never goes back, exactly when no refresh of the session is in progress at the bind
      that can still lead to a later token. */
  lemma SessionEndsIff(s: Server, d: Device, length: Length, read: int)
    requires WellNumbered(s) && d !in s.t.rows && read <= s.clock && LengthMs(length).Some?
    ensures var f, end := FamilyOf(s.t, d), read + LengthMs(length).value;
            AlwaysOverBy(Next(s, BindLength(d, length, read)), f, end) <==> PendingBy(s, f, end)
  {
    var b, f, end := Next(s, BindLength(d, length, read)), FamilyOf(s.t, d), read + LengthMs(length).value;
    BindCapsFamily(s, d, length, read);
    StepKeepsNumbers(s, f, BindLength(d, length, read));
    if PendingBy(s, f, end) {
      forall steps ensures OverBy(After(b, steps), FamilyAfter(f, b, steps), end) {
        CapHolds(b, f, end, steps);
      }
    } else {
      var p :| p in b.pending && b.pending[p].parent in f.refresh && !RefreshBy(b.pending[p], end, b.clock);
      var steps := PendingEscapes(b, f, end, p);
    }
  }

  // ------------------------------------------------------------------- the row stays

  predicate StaysPresent(s: Server, d: Device, steps: seq<Step>)
    decreases |steps|
  {
    d in s.t.devices && (steps != [] ==> StaysPresent(Next(s, steps[0]), d, steps[1..]))
  }

  predicate KeepsLength(s: Server, d: Device, after: Server)
    requires d in s.t.rows
  {
    d in after.t.rows && after.t.rows[d] == s.t.rows[d]
  }

  lemma StepKeepsLength(s: Server, d: Device, step: Step)
    requires d in s.t.rows && d in s.t.devices && d !in s.forgetting && d in Next(s, step).t.devices
    ensures KeepsLength(s, d, Next(s, step)) && d !in Next(s, step).forgetting
  {
  }

  lemma {:induction false} LengthIsKept(s: Server, d: Device, steps: seq<Step>)
    requires d in s.t.rows && d !in s.forgetting && StaysPresent(s, d, steps)
    ensures KeepsLength(s, d, After(s, steps))
    decreases |steps|
  {
    if steps != [] {
      StepKeepsLength(s, d, steps[0]);
      LengthIsKept(Next(s, steps[0]), d, steps[1..]);
    }
  }

  /** A bound length is never changed, nor dropped while its device is there, exactly when no
      sweep has deleted the device before and has still to forget it: that one drops the
      length although its device has signed in again. */
  lemma LengthIsKeptIff(s: Server, d: Device)
    requires d in s.t.rows && d in s.t.devices
    ensures (forall steps | StaysPresent(s, d, steps) :: KeepsLength(s, d, After(s, steps))) <==> d !in s.forgetting
  {
    if d !in s.forgetting {
      forall steps | StaysPresent(s, d, steps) ensures KeepsLength(s, d, After(s, steps)) {
        LengthIsKept(s, d, steps);
      }
    } else {
      var forgotten := Next(s, SweepForgets(d));
      var steps := [SweepForgets(d)] + [];
      AfterNext(s, Family({}, {}), SweepForgets(d), []);
      assert StaysPresent(forgotten, d, steps[1..]);
      assert StaysPresent(s, d, steps);
    }
  }

  /** No sweep is about to touch the device, and its session is not over. */
  predicate Unswept(s: Server, d: Device) {
    && d in s.t.devices && d in s.t.rows && d !in s.sweeping && d !in s.forgetting
    && (s.t.rows[d].expires.Some? ==> s.clock < s.t.rows[d].expires.value)
  }

  lemma {:induction false} ClockNeverGoesBack(s: Server, steps: seq<Step>)
    ensures s.clock <= After(s, steps).clock
    decreases |steps|
  {
    if steps != [] { ClockNeverGoesBack(Next(s, steps[0]), steps[1..]); }
  }

  lemma StepLeavesUnswept(s: Server, d: Device, step: Step)
    requires Unswept(s, d) && step != Delete(d)
    requires s.t.rows[d].expires.Some? ==> Next(s, step).clock < s.t.rows[d].expires.value
    ensures Unswept(Next(s, step), d) && KeepsLength(s, d, Next(s, step))
  {
  }

  /** Sweeps leave a session alone in every run until it is over, and one without an end for
      good, unless its user deletes the device. */
  lemma {:induction false} SweepsOnlyEnded(s: Server, d: Device, steps: seq<Step>)
    requires Unswept(s, d) && Delete(d) !in steps
    requires s.t.rows[d].expires.Some? ==> After(s, steps).clock < s.t.rows[d].expires.value
    ensures Unswept(After(s, steps), d) && KeepsLength(s, d, After(s, steps))
    decreases |steps|
  {
    if steps != [] {
      var next := Next(s, steps[0]);
      ClockNeverGoesBack(next, steps[1..]);
      StepLeavesUnswept(s, d, steps[0]);
      SweepsOnlyEnded(next, d, steps[1..]);
    }
  }

  // ------------------------------------------------------------- what each step does

  /** A refresh starts exactly when its token is there, has not been spent, and neither the token
      nor its session is past its time; it takes along what it read of the token. */
  lemma RefreshStartsIff(s: Server, id: nat, access: Option<int>, refresh: Option<int>)
    ensures var next := Next(s, LookUp(id, access, refresh));
            var starts := && id in s.t.refresh && id !in s.spent
                          && !(s.t.refresh[id].expiry.Some? && s.t.refresh[id].expiry.value < s.clock)
                          && !(s.t.refresh[id].ultimate.Some? && s.t.refresh[id].ultimate.value < s.clock);
            && (!starts ==> next == s)
            && (starts ==>
                  && next.pending.Keys == s.pending.Keys + {s.nextPending}
                  && next.pending[s.nextPending] == Refresh(id, s.t.refresh[id].device, s.t.refresh[id].ultimate, access, refresh, false)
                  && next.t == s.t && next.spent == s.spent && next.clock == s.clock)
  {}

  /** It adds a refresh token and then an access token of its device, each for the time asked for
      or to the end of the session, whichever is first, and the refresh token carries that end. */
  lemma RefreshAddsPair(s: Server, p: nat)
    requires p in s.pending && !s.pending[p].refreshAdded
    ensures var r, added := s.pending[p], Next(s, AddRefresh(p));
            var done := Next(added, AddAccess(p));
            && added.t.access == s.t.access && done.t.refresh == added.t.refresh && p !in done.pending
            && added.t.refresh == s.t.refresh[s.nextRefresh := added.t.refresh[s.nextRefresh]]
            && done.t.access == s.t.access[s.nextAccess := done.t.access[s.nextAccess]]
            && var refresh, access := added.t.refresh[s.nextRefresh], done.t.access[s.nextAccess];
               && refresh.device == r.device && refresh.ultimate == r.ultimate && IsFirstOf(refresh.expiry, r.refresh, r.ultimate)
               && access.device == r.device && IsFirstOf(access.validUntil, r.access, r.ultimate)
  {}

  /** The earlier of two times, either of which may be missing. */
  predicate IsFirstOf(t: Option<int>, a: Option<int>, b: Option<int>) {
    && (t == a || t == b)
    && (a.Some? ==> t.Some? && t.value <= a.value) && (b.Some? ==> t.Some? && t.value <= b.value)
  }

  /** A sweep may select whatever had ended at its reading of the clock and nothing else, deletes
      what it selected, and forgets what it deleted. */
  lemma SweepSteps(s: Server, ended: set<Device>, read: int, d: Device)
    requires read <= s.clock
    ensures (forall x <- ended :: x in s.t.rows && s.t.rows[x].expires.Some? && s.t.rows[x].expires.value <= read)
            ==> Next(s, SweepSelects(ended, read)) == s.(sweeping := s.sweeping + ended)
    ensures d in ended && !(d in s.t.rows && s.t.rows[d].expires.Some? && s.t.rows[d].expires.value <= read)
            ==> Next(s, SweepSelects(ended, read)) == s
    ensures d in s.sweeping ==>
              var next := Next(s, SweepDeletes(d));
              d !in next.t.devices && d !in next.sweeping && d in next.forgetting && next.t.rows == s.t.rows
    ensures d in s.forgetting ==>
              var next := Next(s, SweepForgets(d)); d !in next.t.rows && d !in next.forgetting && next.t.devices == s.t.devices
  {}

  /** A minted token's device is known from then on, and the token is there beside all others. */
  lemma MintingAdds(s: Server, access: AccessToken, refresh: RefreshToken)
    ensures var next := Next(s, MintAccess(access));
            next.t.devices == s.t.devices + {access.device} && next.t.access == s.t.access[s.nextAccess := access]
            && next.t.refresh == s.t.refresh && next.t.rows == s.t.rows
    ensures var next := Next(s, MintRefresh(refresh));
            next.t.devices == s.t.devices + {refresh.device} && next.t.refresh == s.t.refresh[s.nextRefresh := refresh]
            && next.t.access == s.t.access && next.t.rows == s.t.rows
  {}

  /** A spent refresh token starts no refresh ever after, whatever happens. */
  lemma SpentStartsNothing(s: Server, steps: seq<Step>, id: nat, access: Option<int>, refresh: Option<int>)
    requires id in s.t.refresh
    ensures var after := After(Next(s, Spend(id)), steps); Next(after, LookUp(id, access, refresh)) == after
  {
    SpentStays(Next(s, Spend(id)), steps, id);
  }

  lemma {:induction false} SpentStays(s: Server, steps: seq<Step>, id: nat)
    requires id in s.spent
    ensures id in After(s, steps).spent
    decreases |steps|
  {
    if steps != [] { SpentStays(Next(s, steps[0]), steps[1..], id); }
  }

  /** Dropping takes away exactly the tokens named. */
  lemma DropTakesExactly(s: Server, access: set<nat>, refresh: set<nat>, id: nat)
    ensures var next := Next(s, Drop(access, refresh));
            && (id in next.t.access <==> id in s.t.access && id !in access)
            && (id in next.t.access ==> next.t.access[id] == s.t.access[id])
            && (id in next.t.refresh <==> id in s.t.refresh && id !in refresh)
            && (id in next.t.refresh ==> next.t.refresh[id] == s.t.refresh[id])
            && next.t.devices == s.t.devices && next.t.rows == s.t.rows
  {}

  /** A device whose sweep failed is neither deleted nor forgotten until selected again. */
  lemma FailedSweepLeavesDevice(s: Server, d: Device)
    ensures var next := Next(s, SweepFails(d));
            && Next(next, SweepDeletes(d)) == next && Next(next, SweepForgets(d)) == next && next.t == s.t
            && forall x | x != d :: (x in next.sweeping <==> x in s.sweeping) && (x in next.forgetting <==> x in s.forgetting)
  {}
}
