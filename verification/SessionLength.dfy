/** Panel session lengths: binding a length caps a device's tokens, and a sweep signs it out. */
module SessionLength {
  import opened Common
  import opened EarliestFirst

  const DAY_MS := 24 * HOUR_MS
  const SWEEP_BATCH_SIZE := 500

  datatype Length = OneHour | OneDay | SevenDays | ThirtyDays | UntilSignOut

  function LengthMs(length: Length): Option<int> {
    match length
    case OneHour => Some(HOUR_MS)
    case OneDay => Some(DAY_MS)
    case SevenDays => Some(7 * DAY_MS)
    case ThirtyDays => Some(30 * DAY_MS)
    case UntilSignOut => None
  }

  datatype Device = Device(userId: string, deviceId: string)
  datatype AccessToken = AccessToken(device: Device, validUntil: Option<int>)
  datatype RefreshToken = RefreshToken(device: Device, expiry: Option<int>, ultimate: Option<int>)
  datatype Row = Row(length: Length, created: int, expires: Option<int>)

  datatype Tables = Tables(
    access: map<nat, AccessToken>, refresh: map<nat, RefreshToken>, rows: map<Device, Row>, devices: set<Device>)

  /** A time with a bound on it; no time at all is later than every time. */
  function CapAt(at: Option<int>, end: int): Option<int> {
    if at.None? || at.value > end then Some(end) else at
  }

  predicate Within(at: Option<int>, end: int) { at.Some? && at.value <= end }

  function CapAccess(tokens: map<nat, AccessToken>, d: Device, end: int): map<nat, AccessToken> {
    map id | id in tokens ::
      var t := tokens[id]; if t.device == d then t.(validUntil := CapAt(t.validUntil, end)) else t
  }

  function CapRefresh(tokens: map<nat, RefreshToken>, d: Device, end: int): map<nat, RefreshToken> {
    map id | id in tokens ::
      var t := tokens[id];
      if t.device == d then t.(expiry := CapAt(t.expiry, end), ultimate := CapAt(t.ultimate, end)) else t
  }

  function RowFor(length: Length, now: int): Row {
    Row(length, now, if LengthMs(length).None? then None else Some(now + LengthMs(length).value))
  }

  /** The tables after binding a device that has no row yet. */
  function Bound(t: Tables, d: Device, row: Row): Tables {
    var t := t.(rows := t.rows[d := row]);
    if row.expires.None? then t
    else t.(access := CapAccess(t.access, d, row.expires.value), refresh := CapRefresh(t.refresh, d, row.expires.value))
  }

  /** The tables without some devices and their tokens. */
  function WithoutDevices(t: Tables, gone: set<Device>): Tables {
    t.(access := map id | id in t.access && t.access[id].device !in gone :: t.access[id],
    refresh := map id | id in t.refresh && t.refresh[id].device !in gone :: t.refresh[id],
    devices := t.devices - gone)
  }

  function Forgotten(t: Tables, gone: set<Device>): Tables { t.(rows := t.rows - gone) }

  /** The tables once devices have been deleted and their lengths forgotten, except for some. */
  function SweptOut(t: Tables, gone: set<Device>, kept: set<Device>): Tables {
    Forgotten(WithoutDevices(t, gone), gone - kept)
  }

  /** The end of every session that is over. */
  function Ended(rows: map<Device, Row>, now: int): map<Device, int> {
    map d | d in rows && rows[d].expires.Some? && rows[d].expires.value <= now :: rows[d].expires.value
  }

  datatype Requester = Requester(
    userId: string, deviceId: Option<string>, isGuest: bool, isAppService: bool, authenticatedEntity: string)
  datatype BindError = Forbidden | AlreadySet

  predicate OwnDevice(r: Requester) {
    !r.isGuest && !r.isAppService && r.deviceId.Some? && r.authenticatedEntity == r.userId
  }

  class SessionLengthStore {
    var access: map<nat, AccessToken>
    var refresh: map<nat, RefreshToken>
    var rows: map<Device, Row>
    var devices: set<Device>

    function View(): Tables
      reads this
    {
      Tables(access, refresh, rows, devices)
    }

    constructor (t: Tables)
      ensures View() == t
    {
      access, refresh, rows, devices := t.access, t.refresh, t.rows, t.devices;
    }

    method CapAccessTokens(d: Device, cap: int)
      modifies `access
      ensures access == CapAccess(old(access), d, cap)
    {
      access := map id | id in access ::
        if access[id].device == d && (access[id].validUntil.None? || access[id].validUntil.value > cap)
        then access[id].(validUntil := Some(cap)) else access[id];
    }

    /** One update per column, as the transaction issues them. */
    method CapRefreshTokens(d: Device, cap: int)
      modifies `refresh
      ensures refresh == CapRefresh(old(refresh), d, cap)
    {
      refresh := map id | id in refresh ::
        if refresh[id].device == d && (refresh[id].expiry.None? || refresh[id].expiry.value > cap)
        then refresh[id].(expiry := Some(cap)) else refresh[id];
      refresh := map id | id in refresh ::
        if refresh[id].device == d && (refresh[id].ultimate.None? || refresh[id].ultimate.value > cap)
        then refresh[id].(ultimate := Some(cap)) else refresh[id];
    }

    method Bind(r: Requester, length: Length, now: int) returns (end: Result<Option<int>, BindError>)
      modifies this
      ensures end == Err(Forbidden) <==> !OwnDevice(r)
      ensures end == Err(AlreadySet) <==> OwnDevice(r) && Device(r.userId, r.deviceId.value) in old(rows)
      ensures end.Err? ==> View() == old(View())
      ensures end.Ok? ==> View() == Bound(old(View()), Device(r.userId, r.deviceId.value), RowFor(length, now))
      ensures end.Ok? ==> end.value == RowFor(length, now).expires
    {
      if !OwnDevice(r) { return Err(Forbidden); }
      var d, row := Device(r.userId, r.deviceId.value), RowFor(length, now);
      if d in rows { return Err(AlreadySet); }
      rows := rows[d := row];
      if row.expires.Some? {
        var cap := row.expires.value;
        CapAccessTokens(d, cap);
        CapRefreshTokens(d, cap);
      }
      end := Ok(row.expires);
    }

    method DeleteDevice(d: Device)
      modifies this
      ensures View() == WithoutDevices(old(View()), {d})
    {
      var t := WithoutDevices(View(), {d});
      access, refresh, devices := t.access, t.refresh, t.devices;
    }

    method Forget(d: Device)
      modifies this`rows
      ensures View() == Forgotten(old(View()), {d})
    {
      rows := rows - {d};
    }

    method SignOut(d: Device, forgettingFails: bool)
      modifies this
      ensures View() == if forgettingFails then WithoutDevices(old(View()), {d})
                        else Forgotten(WithoutDevices(old(View()), {d}), {d})
    {
      DeleteDevice(d);
      if !forgettingFails { Forget(d); }
    }

    /** Deletes every ended device and forgets its length, until one of the two fails for it;
        counts those for which neither does. */
    method SignOutAll(ended: seq<Device>, deletionFails: set<Device>, forgettingFails: set<Device>) returns (count: nat)
      requires forall i, j | 0 <= i < j < |ended| :: ended[i] != ended[j]
      modifies this
      ensures View() == SweptOut(old(View()), Elements(ended) - deletionFails, forgettingFails)
      ensures count == |Elements(ended) - deletionFails - forgettingFails|
    {
      count := 0;
      ghost var was, gone: set<Device> := View(), {};
      SweptOutNobody(was, forgettingFails);
      for i := 0 to |ended|
        invariant gone == Elements(ended[..i]) - deletionFails
        invariant View() == SweptOut(was, gone, forgettingFails) && count == |gone - forgettingFails|
      {
        GoneNext(ended, i, deletionFails, forgettingFails);
        if ended[i] !in deletionFails {
          SweptOutNext(was, gone, forgettingFails, ended[i]);
          SignOut(ended[i], ended[i] in forgettingFails);
          if ended[i] !in forgettingFails { count := count + 1; }
          gone := gone + {ended[i]};
        }
      }
      assert ended[..|ended|] == ended;
    }

    /** Signs out the earliest-ended sessions, up to a batch. A device that could not be deleted
        keeps its row for the next sweep, and so does one whose row could not be forgotten. */
    method SweepExpired(now: int, deletionFails: set<Device>, forgettingFails: set<Device>)
      returns (count: nat, ghost ended: seq<Device>)
      modifies this
      ensures IsBatch(Ended(old(rows), now), SWEEP_BATCH_SIZE, ended)
      ensures View() == SweptOut(old(View()), Elements(ended) - deletionFails, forgettingFails)
      ensures count == |Elements(ended) - deletionFails - forgettingFails|
    {
      var batch := SelectEarliest(Ended(rows, now), SWEEP_BATCH_SIZE);
      count := SignOutAll(batch, deletionFails, forgettingFails);
      ended := batch;
    }

    method OnLoggedOut(userId: string, deviceId: Option<string>)
      modifies this
      ensures deviceId.None? || deviceId.value == "" || Device(userId, deviceId.value) in devices ==> View() == old(View())
      ensures deviceId.Some? && deviceId.value != "" && Device(userId, deviceId.value) !in devices
              ==> View() == Forgotten(old(View()), {Device(userId, deviceId.value)})
    {
      if deviceId.Some? && deviceId.value != "" && Device(userId, deviceId.value) !in devices {
        rows := rows - {Device(userId, deviceId.value)};
      }
    }
  }

  lemma GoneNext(ended: seq<Device>, i: nat, spared: set<Device>, kept: set<Device>)
    requires i < |ended| && forall j, k | 0 <= j < k < |ended| :: ended[j] != ended[k]
    ensures var before, after := Elements(ended[..i]) - spared, Elements(ended[..i + 1]) - spared;
            if ended[i] in spared then after == before
            else after == before + {ended[i]}
                 && |after - kept| == |before - kept| + if ended[i] in kept then 0 else 1
  {
    ElementsNext(ended, i);
    var before, d := Elements(ended[..i]) - spared, ended[i];
    assert d !in before;
    assert (before + {d}) - kept == if d in kept then before - kept else before - kept + {d};
  }

  lemma SweptOutNobody(t: Tables, kept: set<Device>)
    ensures SweptOut(t, {}, kept) == t
  {
    var b := SweptOut(t, {}, kept);
    assert t.access == b.access && t.refresh == b.refresh && t.rows == b.rows && t.devices == b.devices;
  }

  lemma SweptOutNext(t: Tables, gone: set<Device>, kept: set<Device>, d: Device)
    ensures SweptOut(t, gone + {d}, kept)
            == var deleted := WithoutDevices(SweptOut(t, gone, kept), {d});
               if d in kept then deleted else Forgotten(deleted, {d})
  {
    var a, b := SweptOut(t, gone + {d}, kept), WithoutDevices(SweptOut(t, gone, kept), {d});
    assert a.access == b.access && a.refresh == b.refresh && a.devices == b.devices;
    assert a.rows == if d in kept then b.rows else b.rows - {d};
  }

  // ----------------------------------------------------------- lengths, ends and sweeps

  /** How long each choice lasts, and when a session bound now is over. */
  lemma LengthLasts(now: int)
    ensures RowFor(OneHour, now).expires == Some(now + 3600000)
    ensures RowFor(OneDay, now).expires == Some(now + 86400000)
    ensures RowFor(SevenDays, now).expires == Some(now + 604800000)
    ensures RowFor(ThirtyDays, now).expires == Some(now + 2592000000)
    ensures RowFor(UntilSignOut, now).expires == None
    ensures forall length :: RowFor(length, now).length == length && RowFor(length, now).created == now
  {}

  /** After binding to a length with an end, the device has its row, and each of its tokens runs
      to its own time or to that end, whichever is first. */
  lemma BindingCaps(t: Tables, d: Device, row: Row, end: int, id: nat)
    requires row.expires == Some(end)
    ensures var b := Bound(t, d, row);
            && b.rows == t.rows[d := row] && b.devices == t.devices
            && b.access.Keys == t.access.Keys && b.refresh.Keys == t.refresh.Keys
            && (id in t.access ==>
                  var before, after := t.access[id], b.access[id];
                  && after.device == before.device && (before.device != d ==> after == before)
                  && (before.device == d ==>
                        after.validUntil == Some(if before.validUntil.Some? && before.validUntil.value < end
                                                 then before.validUntil.value else end)))
            && (id in t.refresh ==>
                  var before, after := t.refresh[id], b.refresh[id];
                  && after.device == before.device && (before.device != d ==> after == before)
                  && (before.device == d ==>
                        && after.expiry == Some(if before.expiry.Some? && before.expiry.value < end then before.expiry.value else end)
                        && after.ultimate == Some(if before.ultimate.Some? && before.ultimate.value < end
                                                  then before.ultimate.value else end)))
  {}

  /** Binding until sign-out records the choice and touches no token. */
  lemma BindingWithoutEnd(t: Tables, d: Device, row: Row)
    requires row.expires.None?
    ensures Bound(t, d, row) == t.(rows := t.rows[d := row])
  {}

  /** A session is over from its end on; one without an end never is. */
  lemma EndedIff(rows: map<Device, Row>, now: int, d: Device)
    ensures d in Ended(rows, now) <==> d in rows && rows[d].expires.Some? && now >= rows[d].expires.value
    ensures d in Ended(rows, now) ==> rows[d].expires == Some(Ended(rows, now)[d])
  {}

  /** Of a device that is signed out nothing is left, neither token nor, unless forgetting fails,
      its length; everything of other devices is. */
  lemma SignedOutIsGone(t: Tables, gone: set<Device>, kept: set<Device>, d: Device, id: nat)
    ensures var b := SweptOut(t, gone, kept);
            && (id in b.access <==> id in t.access && t.access[id].device !in gone)
            && (id in b.access ==> b.access[id] == t.access[id])
            && (id in b.refresh <==> id in t.refresh && t.refresh[id].device !in gone)
            && (id in b.refresh ==> b.refresh[id] == t.refresh[id])
            && (d in b.devices <==> d in t.devices && d !in gone)
            && (d in b.rows <==> d in t.rows && (d !in gone || d in kept))
            && (d in b.rows ==> b.rows[d] == t.rows[d])
  {}

  /** Only a signed-in user's own device may bind. */
  lemma OwnDeviceIff(r: Requester)
    ensures OwnDevice(r) <==> !(r.isGuest || r.isAppService || r.deviceId == None || r.authenticatedEntity != r.userId)
  {}
}
