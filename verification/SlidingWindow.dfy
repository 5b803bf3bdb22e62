/** The sliding-window rate limiters: one queue of admission times per key. */
module SlidingWindow {

  /** What remains of a queue once everything at or before `cutoff` is dropped from its front. */
  function DropOld(q: seq<int>, cutoff: int): seq<int> {
    if q != [] && q[0] <= cutoff then DropOld(q[1..], cutoff) else q
  }

  /** A key's queue after a request: admitted while fewer than `limit` remain in the window. */
  function NextQueue(q: seq<int>, now: int, window: int, limit: int): seq<int> {
    var r := DropOld(q, now - window);
    if |r| < limit then r + [now] else r
  }

  type Queues<K> = map<K, seq<int>>

  function QueueOf<K>(queues: Queues<K>, key: K): seq<int> { if key in queues then queues[key] else [] }

  class RateLimiter<K(==,!new)> {
    const window: int
    const limit: int
    var times: Queues<K>

    constructor (window: int, limit: int)
      ensures this.window == window && this.limit == limit && times == map[]
    {
      this.window, this.limit, times := window, limit, map[];
    }

    method Request(key: K, now: int) returns (admitted: bool)
      modifies this
      ensures admitted == (|DropOld(QueueOf(old(times), key), now - window)| < limit)
      ensures times == old(times)[key := NextQueue(QueueOf(old(times), key), now, window, limit)]
    {
      var q := QueueOf(times, key);
      while q != [] && q[0] <= now - window
        invariant DropOld(q, now - window) == DropOld(QueueOf(old(times), key), now - window)
        decreases |q|
      {
        q := q[1..];
      }
      admitted := |q| < limit;
      times := times[key := if admitted then q + [now] else q];
    }
  }

  // -------------------------------------------------------------------------- runs

  datatype Call<K> = Call(key: K, now: int)

  /** The queue of a key, and everything it has ever admitted, after a run of calls. */
  datatype History = History(queue: seq<int>, admitted: seq<int>)

  function Step(h: History, now: int, window: int, limit: int): History {
    History(NextQueue(h.queue, now, window, limit),
            if |DropOld(h.queue, now - window)| < limit then h.admitted + [now] else h.admitted)
  }

  /** What calls at these times leave behind. */
  function Replayed(times: seq<int>, window: int, limit: int): History {
    if times == [] then History([], [])
    else Step(Replayed(times[..|times| - 1], window, limit), times[|times| - 1], window, limit)
  }

  /** The times at which a key is called, in order of the calls. */
  function TimesOf<K(==)>(calls: seq<Call<K>>, key: K): seq<int> {
    if calls == [] then []
    else
      var last := calls[|calls| - 1];
      TimesOf(calls[..|calls| - 1], key) + (if last.key == key then [last.now] else [])
  }

  function HistoryOf<K(==)>(calls: seq<Call<K>>, key: K, window: int, limit: int): History {
    Replayed(TimesOf(calls, key), window, limit)
  }

  lemma ReplayedNext(times: seq<int>, now: int, window: int, limit: int)
    ensures Replayed(times + [now], window, limit) == Step(Replayed(times, window, limit), now, window, limit)
  {
    assert (times + [now])[..|times|] == times;
  }

  lemma HistoryNext<K>(calls: seq<Call<K>>, n: nat, key: K, window: int, limit: int)
    requires n < |calls|
    ensures HistoryOf(calls[..n + 1], key, window, limit)
            == var h := HistoryOf(calls[..n], key, window, limit);
               if calls[n].key == key then Step(h, calls[n].now, window, limit) else h
  {
    assert calls[..n + 1][..n] == calls[..n];
    ReplayedNext(TimesOf(calls[..n], key), calls[n].now, window, limit);
    assert TimesOf(calls[..n], key) + [] == TimesOf(calls[..n], key);
  }

  ghost predicate QueuesFollow<K(!new)>(queues: Queues<K>, calls: seq<Call<K>>, window: int, limit: int) {
    forall key :: QueueOf(queues, key) == HistoryOf(calls, key, window, limit).queue
  }

  lemma QueuesFollowNext<K(!new)>(before: Queues<K>, after: Queues<K>, calls: seq<Call<K>>, i: nat, window: int, limit: int)
    requires i < |calls| && QueuesFollow(before, calls[..i], window, limit)
    requires after == before[calls[i].key := NextQueue(QueueOf(before, calls[i].key), calls[i].now, window, limit)]
    ensures QueuesFollow(after, calls[..i + 1], window, limit)
  {
    forall key ensures QueueOf(after, key) == HistoryOf(calls[..i + 1], key, window, limit).queue {
      QueueFollowsNext(before, calls, i, key, window, limit);
    }
  }

  lemma QueueFollowsNext<K(!new)>(before: Queues<K>, calls: seq<Call<K>>, i: nat, key: K, window: int, limit: int)
    requires i < |calls| && QueueOf(before, key) == HistoryOf(calls[..i], key, window, limit).queue
    ensures HistoryOf(calls[..i + 1], key, window, limit).queue
            == if calls[i].key == key then NextQueue(QueueOf(before, key), calls[i].now, window, limit) else QueueOf(before, key)
  {
    HistoryNext(calls, i, key, window, limit);
  }

  /** The limiter's queue for every key is the one its own calls alone produce. */
  method RunCalls<K(==,!new)>(limiter: RateLimiter<K>, calls: seq<Call<K>>) returns (verdicts: seq<bool>)
    requires limiter.times == map[]
    modifies limiter
    ensures |verdicts| == |calls|
    ensures QueuesFollow(limiter.times, calls, limiter.window, limiter.limit)
    ensures forall i | 0 <= i < |calls| ::
              verdicts[i] <==> Admits(calls, i, limiter.window, limiter.limit)
  {
    verdicts := [];
    for i := 0 to |calls|
      invariant |verdicts| == i
      invariant QueuesFollow(limiter.times, calls[..i], limiter.window, limiter.limit)
      invariant forall j | 0 <= j < i :: verdicts[j] <==> Admits(calls, j, limiter.window, limiter.limit)
    {
      ghost var before := limiter.times;
      var admitted := limiter.Request(calls[i].key, calls[i].now);
      verdicts := verdicts + [admitted];
      QueuesFollowNext(before, limiter.times, calls, i, limiter.window, limiter.limit);
    }
    assert calls[..|calls|] == calls;
  }

  /** Whether call `i` of the run goes through. */
  predicate Admits<K(==)>(calls: seq<Call<K>>, i: nat, window: int, limit: int)
    requires i < |calls|
  {
    |DropOld(HistoryOf(calls[..i], calls[i].key, window, limit).queue, calls[i].now - window)| < limit
  }

  // ------------------------------------------------------------------ the queue

  lemma {:induction false} DropOldIsSuffix(q: seq<int>, cutoff: int)
    ensures var r := DropOld(q, cutoff);
            && |r| <= |q| && r == q[|q| - |r|..]
            && (forall i | 0 <= i < |q| - |r| :: q[i] <= cutoff)
            && (r != [] ==> r[0] > cutoff)
  {
    if q != [] && q[0] <= cutoff {
      DropOldIsSuffix(q[1..], cutoff);
      assert forall i | 0 < i < |q| :: q[i] == q[1..][i - 1];
    }
  }

  /** `q` is the end of `a`, and all that comes before it is no later than `cutoff`. */
  ghost predicate IsRecentEnd(a: seq<int>, q: seq<int>, cutoff: int) {
    && |q| <= |a| && q == a[|a| - |q|..]
    && (forall i | 0 <= i < |a| - |q| :: a[i] <= cutoff)
  }

  lemma LaterCutoff(a: seq<int>, q: seq<int>, cutoff: int, later: int)
    requires IsRecentEnd(a, q, cutoff) && cutoff <= later
    ensures IsRecentEnd(a, q, later)
  {
    forall i | 0 <= i < |a| - |q| ensures a[i] <= later {
      assert a[i] <= cutoff;
    }
  }

  lemma DropKeepsRecentEnd(a: seq<int>, q: seq<int>, cutoff: int)
    requires IsRecentEnd(a, q, cutoff)
    ensures |DropOld(q, cutoff)| <= |q| && IsRecentEnd(a, DropOld(q, cutoff), cutoff)
    ensures DropOld(q, cutoff) != [] ==> DropOld(q, cutoff)[0] > cutoff
  {
    DropOldIsSuffix(q, cutoff);
    var r := DropOld(q, cutoff);
    forall i | |a| - |q| <= i < |a| - |r| ensures a[i] <= cutoff {
      assert a[i] == q[i - (|a| - |q|)];
    }
  }

  lemma AppendKeepsRecentEnd(a: seq<int>, q: seq<int>, cutoff: int, t: int)
    requires IsRecentEnd(a, q, cutoff)
    ensures IsRecentEnd(a + [t], q + [t], cutoff)
  {
  }

  /** A step keeps the queue a recent end if what has left it is a window older than now. */
  lemma StepKeepsRecentEnd(h: History, now: int, window: int, limit: int)
    requires IsRecentEnd(h.admitted, h.queue, now - window)
    ensures var next := Step(h, now, window, limit);
            IsRecentEnd(next.admitted, next.queue, now - window)
  {
    DropKeepsRecentEnd(h.admitted, h.queue, now - window);
    AppendKeepsRecentEnd(h.admitted, DropOld(h.queue, now - window), now - window, now);
  }

  // ---------------------------------------------------------------- the spacing

  /** Admission `i` comes a full window before the one `limit` later. */
  predicate ApartAt(admitted: seq<int>, window: int, limit: nat, i: nat)
    requires i + limit < |admitted|
  {
    admitted[i] + window <= admitted[i + limit]
  }

  /** Any two admissions `limit` apart are a full window apart. */
  ghost predicate Spaced(admitted: seq<int>, window: int, limit: nat) {
    forall i | 0 <= i && i + limit < |admitted| :: ApartAt(admitted, window, limit, i)
  }

  lemma StepSpaces(h: History, now: int, window: int, limit: nat)
    requires IsRecentEnd(h.admitted, h.queue, now - window) && Spaced(h.admitted, window, limit)
    ensures Spaced(Step(h, now, window, limit).admitted, window, limit)
  {
    DropKeepsRecentEnd(h.admitted, h.queue, now - window);
    if |DropOld(h.queue, now - window)| < limit {
      AppendKeepsSpaced(h.admitted, DropOld(h.queue, now - window), now, window, limit);
    }
  }

  lemma AppendKeepsSpaced(admitted: seq<int>, q: seq<int>, now: int, window: int, limit: nat)
    requires IsRecentEnd(admitted, q, now - window) && |q| < limit && Spaced(admitted, window, limit)
    ensures Spaced(admitted + [now], window, limit)
  {
    var longer := admitted + [now];
    forall i | 0 <= i && i + limit < |longer| ensures ApartAt(longer, window, limit, i) {
      if i + limit < |admitted| {
        assert ApartAt(admitted, window, limit, i);
      } else {
        assert admitted[i] <= now - window;
      }
    }
  }

  /** Once the clock has gone past the key's first call, it does not go back. */
  ghost predicate SettlesForward(times: seq<int>) {
    forall j, k | 0 <= j < k < |times| :: times[j] > times[0] ==> times[j] <= times[k]
  }

  /** Until then nothing leaves the queue; from then on what has left is a window old. */
  ghost predicate Settled(times: seq<int>, h: History, window: int) {
    if times == [] then h == History([], [])
    else if times[|times| - 1] <= times[0] then h.queue == h.admitted && h.queue != [] && h.queue[0] == times[0]
    else IsRecentEnd(h.admitted, h.queue, times[|times| - 1] - window)
  }

  lemma EarlyStepSettles(times: seq<int>, h: History, now: int, window: int, limit: nat)
    requires window > 0 && limit > 0 && Settled(times, h, window) && Spaced(h.admitted, window, limit)
    requires times != [] ==> now <= times[0] && times[|times| - 1] <= times[0]
    ensures var next := Step(h, now, window, limit);
            Settled(times + [now], next, window) && Spaced(next.admitted, window, limit)
  {
    assert DropOld(h.queue, now - window) == h.queue;
    assert times != [] ==> (times + [now])[0] == times[0];
  }

  lemma LateStepSettles(times: seq<int>, h: History, now: int, window: int, limit: nat)
    requires times != [] && now > times[0] && Settled(times, h, window) && Spaced(h.admitted, window, limit)
    requires times[|times| - 1] > times[0] ==> times[|times| - 1] <= now
    ensures var next := Step(h, now, window, limit);
            Settled(times + [now], next, window) && Spaced(next.admitted, window, limit)
  {
    if times[|times| - 1] > times[0] {
      LaterCutoff(h.admitted, h.queue, times[|times| - 1] - window, now - window);
    }
    StepKeepsRecentEnd(h, now, window, limit);
    StepSpaces(h, now, window, limit);
    assert (times + [now])[0] == times[0];
  }

  lemma {:induction false} SettledRunIsSpaced(times: seq<int>, window: int, limit: nat)
    requires window > 0 && limit > 0 && SettlesForward(times)
    ensures Settled(times, Replayed(times, window, limit), window)
    ensures Spaced(Replayed(times, window, limit).admitted, window, limit)
  {
    if times != [] {
      var before, now := times[..|times| - 1], times[|times| - 1];
      assert times == before + [now];
      SettledRunIsSpaced(before, window, limit);
      var h := Replayed(before, window, limit);
      if before == [] || now <= times[0] {
        EarlyStepSettles(before, h, now, window, limit);
      } else {
        LateStepSettles(before, h, now, window, limit);
      }
    }
  }

  // ------------------------------------------------------- when the spacing fails

  lemma {:induction false} AdmittedGrows(times: seq<int>, n: nat, window: int, limit: int)
    requires n <= |times|
    ensures Replayed(times[..n], window, limit).admitted <= Replayed(times, window, limit).admitted
  {
    if n < |times| {
      AdmittedGrows(times[..|times| - 1], n, window, limit);
      assert times[..|times| - 1][..n] == times[..n];
    } else {
      assert times[..n] == times;
    }
  }

  /** All calls so far were admitted; the queue is all of them unless something has left. */
  predicate AllAdmitted(times: seq<int>, h: History) {
    h.admitted == times && |h.queue| <= |times| && (|h.queue| == |times| ==> h.queue == times)
  }

  lemma StepAdmits(times: seq<int>, h: History, now: int, window: int, limit: int)
    requires AllAdmitted(times, h) && (|times| < limit || |h.queue| < |times| <= limit)
    ensures var next := Step(h, now, window, limit);
            && AllAdmitted(times + [now], next)
            && (|h.queue| < |times| ==> |next.queue| <= |times|)
            && (times != [] && times[0] <= now - window ==> |next.queue| <= |times|)
  {
    DropOldIsSuffix(h.queue, now - window);
  }

  predicate HasLeft(times: seq<int>, h: History) { |h.queue| < |times| }

  /** Up to `limit` calls are all admitted. */
  lemma {:induction false} FirstCallsAdmitted(times: seq<int>, window: int, limit: int)
    requires |times| <= limit
    ensures AllAdmitted(times, Replayed(times, window, limit))
    decreases |times|
  {
    if times != [] {
      var before, now := times[..|times| - 1], times[|times| - 1];
      FirstCallsAdmitted(before, window, limit);
      StepAdmits(before, Replayed(before, window, limit), now, window, limit);
      assert times == before + [now];
    }
  }

  /** Once one of them has come a window after the first, the first has left the queue. */
  lemma {:induction false} FirstHasLeft(times: seq<int>, j: nat, window: int, limit: int)
    requires 0 < j < |times| <= limit && times[0] <= times[j] - window
    ensures HasLeft(times, Replayed(times, window, limit))
    decreases |times|
  {
    var before, now := times[..|times| - 1], times[|times| - 1];
    FirstCallsAdmitted(before, window, limit);
    assert before[0] == times[0];
    if j < |before| {
      assert before[j] == times[j];
      FirstHasLeft(before, j, window, limit);
    }
    StepAdmits(before, Replayed(before, window, limit), now, window, limit);
  }

  lemma AdmittedAfter(times: seq<int>, k: nat, window: int, limit: int)
    requires k < |times|
    ensures Step(Replayed(times[..k], window, limit), times[k], window, limit).admitted
            <= Replayed(times, window, limit).admitted
  {
    assert times[..k + 1] == times[..k] + [times[k]];
    ReplayedNext(times[..k], times[k], window, limit);
    AdmittedGrows(times, k + 1, window, limit);
  }

  /** A clock that goes past the first call and then back lets one call too many through. */
  lemma GoingBackCrowds(times: seq<int>, j: nat, k: nat)
    requires j < k < |times| && times[j] > times[0] && times[j] > times[k]
    ensures !Spaced(Replayed(times, times[j] - times[0], k).admitted, times[j] - times[0], k)
  {
    var window := times[j] - times[0];
    var first := times[..k];
    FirstCallsAdmitted(first, window, k);
    FirstHasLeft(first, j, window, k);
    OneTooMany(times, first, k, window);
  }

  lemma OneTooMany(times: seq<int>, first: seq<int>, k: nat, window: int)
    requires 0 < k < |times| && first == times[..k] && times[0] + window > times[k]
    requires AllAdmitted(first, Replayed(first, window, k)) && HasLeft(first, Replayed(first, window, k))
    ensures !Spaced(Replayed(times, window, k).admitted, window, k)
  {
    StepAdmits(first, Replayed(first, window, k), times[k], window, k);
    AdmittedAfter(times, k, window, k);
    CrowdedIsNotSpaced(Replayed(times, window, k).admitted, first, times[k], window);
  }

  lemma CrowdedIsNotSpaced(admitted: seq<int>, first: seq<int>, next: int, window: int)
    requires first != [] && first + [next] <= admitted && first[0] + window > next
    ensures !Spaced(admitted, window, |first|)
  {
    assert admitted[0] == first[0] && admitted[|first|] == (first + [next])[|first|] == next;
    assert !ApartAt(admitted, window, |first|, 0);
  }

  /** A call a window after the first, then one stamped before it: both follow the first. */
  lemma ClockGoingBackBreaksSpacing()
    ensures !Spaced(HistoryOf([Call(0, 0), Call(0, 100), Call(0, 5)], 0, 100, 2).admitted, 100, 2)
  {
    var first, second := [Call(0, 0)], [Call(0, 0), Call(0, 100)];
    var calls := [Call(0, 0), Call(0, 100), Call(0, 5)];
    assert first[..0] == [] && second[..1] == first && calls[..2] == second;
    assert TimesOf(first, 0) == [0];
    assert TimesOf(second, 0) == [0] + [100];
    assert TimesOf(calls, 0) == [0, 100, 5];
    GoingBackCrowds([0, 100, 5], 1, 2);
  }

  /** Over every run of calls, whatever the other keys do: admissions of a key that are
      `limit` apart are a full window apart, for every window and limit, if and only if the
      key's clock does not go back once it has gone past its first call. */
  lemma AdmissionsAreSpacedIff<K(!new)>(calls: seq<Call<K>>, key: K)
    ensures (forall window: int, limit: nat | window > 0 && limit > 0 ::
               Spaced(HistoryOf(calls, key, window, limit).admitted, window, limit))
            <==> SettlesForward(TimesOf(calls, key))
  {
    var times := TimesOf(calls, key);
    if SettlesForward(times) {
      forall window: int, limit: nat | window > 0 && limit > 0
        ensures Spaced(HistoryOf(calls, key, window, limit).admitted, window, limit)
      {
        SettledRunIsSpaced(times, window, limit);
      }
    } else {
      var j, k :| 0 <= j < k < |times| && times[j] > times[0] && times[j] > times[k];
      GoingBackCrowds(times, j, k);
      assert !Spaced(HistoryOf(calls, key, times[j] - times[0], k).admitted, times[j] - times[0], k);
    }
  }

  // ---------------------------------------------------------------- the refusals

  predicate InOrder(s: seq<int>, i: nat, j: nat)
    requires i < |s| && j < |s|
  {
    s[i] <= s[j]
  }

  predicate Sorted(s: seq<int>) { forall i, j | 0 <= i < j < |s| :: InOrder(s, i, j) }

  lemma SortedPrefix(s: seq<int>, t: int)
    requires Sorted(s + [t])
    ensures Sorted(s) && forall i | 0 <= i < |s| :: s[i] <= t
  {
    forall i, j | 0 <= i < j < |s| ensures InOrder(s, i, j) { assert InOrder(s + [t], i, j); }
    forall i | 0 <= i < |s| ensures s[i] <= t { assert InOrder(s + [t], i, |s|); }
  }

  lemma SortedAppend(s: seq<int>, t: int)
    requires Sorted(s) && forall i | 0 <= i < |s| :: s[i] <= t
    ensures Sorted(s + [t])
  {
    forall i, j | 0 <= i < j < |s + [t]| ensures InOrder(s + [t], i, j) {
      if j < |s| { assert InOrder(s, i, j); }
    }
  }

  /** How many of these times lie inside the window that ends at `now`. */
  function CountRecent(times: seq<int>, cutoff: int): nat {
    if times == [] then 0
    else CountRecent(times[..|times| - 1], cutoff) + (if times[|times| - 1] > cutoff then 1 else 0)
  }

  lemma {:induction false} CountIsLength(times: seq<int>, cutoff: int, stale: nat)
    requires stale <= |times|
    requires forall i | 0 <= i < stale :: times[i] <= cutoff
    requires forall i | stale <= i < |times| :: times[i] > cutoff
    ensures CountRecent(times, cutoff) == |times| - stale
  {
    if times != [] {
      CountIsLength(times[..|times| - 1], cutoff, if stale == |times| then stale - 1 else stale);
    }
  }

  lemma RecentEndIsCounted(a: seq<int>, q: seq<int>, cutoff: int)
    requires Sorted(a) && IsRecentEnd(a, q, cutoff) && (q != [] ==> q[0] > cutoff)
    ensures |q| == CountRecent(a, cutoff)
  {
    var stale := |a| - |q|;
    forall i | stale <= i < |a| ensures a[i] > cutoff {
      assert a[stale] == q[0];
      assert stale < i ==> InOrder(a, stale, i);
    }
    CountIsLength(a, cutoff, stale);
  }

  lemma DroppedIsCounted(h: History, now: int, window: int)
    requires OrderlyAt(h, now, window)
    ensures |DropOld(h.queue, now - window)| == CountRecent(h.admitted, now - window)
  {
    DropKeepsRecentEnd(h.admitted, h.queue, now - window);
    RecentEndIsCounted(h.admitted, DropOld(h.queue, now - window), now - window);
  }

  lemma StepKeepsSorted(h: History, now: int, window: int, limit: int)
    requires Sorted(h.admitted) && forall i | 0 <= i < |h.admitted| :: h.admitted[i] <= now
    ensures Sorted(Step(h, now, window, limit).admitted)
  {
    SortedAppend(h.admitted, now);
  }

  /** With times in order, the admissions are in order and what has left is a window old. */
  lemma {:induction false} SortedRun(times: seq<int>, now: int, window: int, limit: int)
    requires Sorted(times + [now])
    ensures OrderlyAt(Replayed(times, window, limit), now, window)
  {
    if times != [] {
      var before, last := times[..|times| - 1], times[|times| - 1];
      assert times == before + [last];
      SortedPrefix(times, now);
      SortedRun(before, last, window, limit);
      SortedStep(Replayed(before, window, limit), last, now, window, limit);
    }
  }

  /** The queue is the recent end of admissions in order, none later than now. */
  ghost predicate OrderlyAt(h: History, now: int, window: int) {
    && IsRecentEnd(h.admitted, h.queue, now - window)
    && Sorted(h.admitted) && forall i | 0 <= i < |h.admitted| :: h.admitted[i] <= now
  }

  lemma SortedStep(h: History, last: int, now: int, window: int, limit: int)
    requires OrderlyAt(h, last, window) && last <= now
    ensures OrderlyAt(Step(h, last, window, limit), now, window)
  {
    StepKeepsRecentEnd(h, last, window, limit);
    StepKeepsSorted(h, last, window, limit);
    var next := Step(h, last, window, limit);
    LaterCutoff(next.admitted, next.queue, last - window, now - window);
  }

  lemma RefusalCounts(times: seq<int>, now: int, window: int, limit: int)
    requires Sorted(times + [now])
    ensures var h := Replayed(times, window, limit);
            |DropOld(h.queue, now - window)| == CountRecent(h.admitted, now - window)
  {
    SortedRun(times, now, window, limit);
    DroppedIsCounted(Replayed(times, window, limit), now, window);
  }

  /** While the key's own clock has not gone back, a request is refused exactly when `limit`
      admissions of its key already lie inside the window that ends now. */
  lemma RefusedIffWindowFull<K(!new)>(calls: seq<Call<K>>, n: nat, window: int, limit: int)
    requires n < |calls| && Sorted(TimesOf(calls[..n], calls[n].key) + [calls[n].now])
    ensures var admitted := HistoryOf(calls[..n], calls[n].key, window, limit).admitted;
            !Admits(calls, n, window, limit) <==> CountRecent(admitted, calls[n].now - window) >= limit
  {
    RefusalCounts(TimesOf(calls[..n], calls[n].key), calls[n].now, window, limit);
  }
}
