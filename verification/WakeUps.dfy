/** The wake-up protocol of one user's event stream: updates, registrations, listeners and
    waiting loops in every interleaving. */
module WakeUps {
  import opened Common
  import opened StreamTokens

  /** A user stream object. `epoch` counts the deferreds it has gone through. */
  datatype Stream = Stream(current: Token, lastNotified: Token, epoch: nat)

  function Notified(s: Stream, move: Move): Stream {
    var next := Advance(s.current, move);
    Stream(next, next, s.epoch + 1)
  }

  /** A waiter that found no stream: it has read the current token and awaits its rooms. */
  datatype Arrival = Arrival(fromToken: Token, read: Token)

  /** Where a waiting loop stands. `Attached` holds the epoch of the deferred it awaits, or
      nothing when `new_listener` handed out one that had already fired. */
  datatype Stage = Ready | Attached(epoch: Option<nat>) | Checking(upTo: Token) | Done

  /** `spans` are the token ranges the callback has been asked about. */
  datatype Waiter = Waiter(stream: nat, fromToken: Token, prev: Token, stage: Stage, spans: seq<(Token, Token)>)

  /** `streams` are all stream objects ever made for the user, `registered` the one in the
      index by user, `listed` those in the index by room, and `latest` the position after
      every update so far. */
  datatype State = State(
    streams: seq<Stream>, registered: Option<nat>, listed: set<nat>,
    arrivals: map<nat, Arrival>, waiters: map<nat, Waiter>, latest: Token)

  /** `also`: streams the update reaches by room besides the registered one. */
  datatype Step =
    | Arrive(w: nat, fromToken: Token)
    | Register(w: nat)
    | Update(move: Move, also: set<nat>)
    | Listen(w: nat)
    | Resume(w: nat)
    | Return(w: nat, found: bool)
    | GiveUp(w: nat)
    | Expire

  predicate Sleeping(s: State, w: nat) {
    && w in s.waiters && s.waiters[w].stage.Attached? && s.waiters[w].stage.epoch.Some?
    && s.waiters[w].stream < |s.streams|
    && s.waiters[w].stage.epoch.value == s.streams[s.waiters[w].stream].epoch
  }

  predicate WellFormed(s: State) {
    && (s.registered.Some? ==> s.registered.value < |s.streams|)
    && (forall w <- s.waiters :: s.waiters[w].stream < |s.streams|)
    && s.arrivals.Keys !! s.waiters.Keys
  }

  predicate CanStep(s: State, step: Step) {
    match step
    case Arrive(w, _) => w !in s.waiters && w !in s.arrivals
    case Register(w) => w in s.arrivals
    case Update(_, also) => also <= s.listed
    case Listen(w) => w in s.waiters && s.waiters[w].stage.Ready?
    case Resume(w) => w in s.waiters && s.waiters[w].stage.Attached? && !Sleeping(s, w)
    case Return(w, _) => w in s.waiters && s.waiters[w].stage.Checking?
    case GiveUp(w) => w in s.waiters && (s.waiters[w].stage.Ready? || s.waiters[w].stage.Attached?)
    case Expire => s.registered.Some? && forall w <- s.waiters :: s.waiters[w].stream == s.registered.value ==> !Sleeping(s, w)
  }

  function SetStage(s: State, w: nat, stage: Stage): State
    requires w in s.waiters
  {
    s.(waiters := s.waiters[w := s.waiters[w].(stage := stage)])
  }

  function NotifyStreams(s: State, move: Move, also: set<nat>): seq<Stream> {
    seq(|s.streams|, i requires 0 <= i < |s.streams| =>
      if i in also || s.registered == Some(i) then Notified(s.streams[i], move) else s.streams[i])
  }

  /** One step; a step that cannot be taken changes nothing. */
  function Next(s: State, step: Step): State {
    if WellFormed(s) && CanStep(s, step) then Take(s, step) else s
  }

  function Take(s: State, step: Step): State
    requires WellFormed(s) && CanStep(s, step)
  {
    match step
    case Arrive(w, fromToken) =>
      if s.registered.Some? then s.(waiters := s.waiters[w := Waiter(s.registered.value, fromToken, fromToken, Ready, [])])
      else s.(arrivals := s.arrivals[w := Arrival(fromToken, s.latest)])
    case Register(w) =>
      var id, a := |s.streams|, s.arrivals[w];
      s.(streams := s.streams + [Stream(a.read, a.read, 0)], registered := Some(id), listed := s.listed + {id},
         arrivals := s.arrivals - {w},
         waiters := s.waiters[w := Waiter(id, a.fromToken, a.fromToken, Ready, [])])
    case Update(move, also) =>
      s.(latest := Advance(s.latest, move), streams := NotifyStreams(s, move, also))
    case Listen(w) =>
      var stream := s.streams[s.waiters[w].stream];
      SetStage(s, w, Attached(if stream.lastNotified != s.waiters[w].prev then None else Some(stream.epoch)))
    case Resume(w) =>
      var x := s.waiters[w];
      var upTo := s.streams[x.stream].current;
      s.(waiters := s.waiters[w := x.(stage := Checking(upTo), spans := x.spans + [(x.prev, upTo)])])
    case Return(w, found) =>
      var x := s.waiters[w];
      s.(waiters := s.waiters[w := if found then x.(stage := Done) else x.(prev := x.stage.upTo, stage := Ready)])
    case GiveUp(w) => SetStage(s, w, Done)
    case Expire => s.(registered := None, listed := s.listed - {s.registered.value})
  }

  function Run(s: State, steps: seq<Step>): State
    decreases |steps|
  {
    if steps == [] then s else Run(Next(s, steps[0]), steps[1..])
  }

  function Initial(start: Token): State { State([], None, {}, map[], map[], start) }

  // -------------------------------------------------------------------- invariant

  /** The spans leave no gap: each starts where the one before it ended. */
  predicate Contiguous(fromToken: Token, spans: seq<(Token, Token)>, upTo: Token) {
    && (spans == [] ==> upTo == fromToken)
    && (spans != [] ==> spans[0].0 == fromToken && spans[|spans| - 1].1 == upTo)
    && forall i | 0 < i < |spans| :: spans[i].0 == spans[i - 1].1
  }

  predicate WaiterInvariant(s: State, x: Waiter) {
    && x.stream < |s.streams|
    && var stream := s.streams[x.stream];
       match x.stage
       case Ready => Contiguous(x.fromToken, x.spans, x.prev)
       case Attached(epoch) =>
         && Contiguous(x.fromToken, x.spans, x.prev)
         && (epoch.Some? ==> epoch.value <= stream.epoch && (epoch.value == stream.epoch ==> x.prev == stream.current))
       case Checking(upTo) => Contiguous(x.fromToken, x.spans, upTo)
       case Done => true
  }

  ghost predicate Invariant(s: State) {
    && WellFormed(s)
    && (forall i | 0 <= i < |s.streams| :: s.streams[i].lastNotified == s.streams[i].current)
    && (forall w <- s.waiters :: WaiterInvariant(s, s.waiters[w]))
  }

  lemma StepKeepsWaiter(s: State, step: Step, w: nat)
    requires Invariant(s) && CanStep(s, step) && w in Take(s, step).waiters
    ensures WaiterInvariant(Take(s, step), Take(s, step).waiters[w])
  {
    if w in s.waiters { assert WaiterInvariant(s, s.waiters[w]); }
  }

  lemma StepKeepsInvariant(s: State, step: Step)
    requires Invariant(s)
    ensures Invariant(Next(s, step))
  {
    if CanStep(s, step) {
      forall w | w in Take(s, step).waiters
        ensures WaiterInvariant(Take(s, step), Take(s, step).waiters[w])
      {
        StepKeepsWaiter(s, step, w);
      }
    }
  }

  lemma {:induction false} RunKeepsInvariant(s: State, steps: seq<Step>)
    requires Invariant(s)
    ensures Invariant(Run(s, steps))
    decreases |steps|
  {
    if steps != [] {
      StepKeepsInvariant(s, steps[0]);
      RunKeepsInvariant(Next(s, steps[0]), steps[1..]);
    }
  }

  /** In every interleaving, a listener that has not been resolved waits from its stream's
      last-notified and current token, and its callbacks have covered everything from where
      it started up to there. */
  lemma NobodySleepsPastAnUpdate(start: Token, steps: seq<Step>, w: nat)
    requires Sleeping(Run(Initial(start), steps), w)
    ensures var s := Run(Initial(start), steps);
            var x := s.waiters[w];
            var stream := s.streams[x.stream];
            && x.prev == stream.lastNotified == stream.current
            && Contiguous(x.fromToken, x.spans, stream.current)
  {
    RunKeepsInvariant(Initial(start), steps);
    var s := Run(Initial(start), steps);
    assert WaiterInvariant(s, s.waiters[w]);
  }

  /** A waiter joins the registered stream at once; otherwise it makes one that starts at the
      position it read on arriving, whatever it asked to start from. */
  lemma ArrivalGetsStream(s: State, w: nat, fromToken: Token)
    requires WellFormed(s) && w !in s.waiters && w !in s.arrivals
    ensures var arrived := Next(s, Arrive(w, fromToken));
            if s.registered.Some? then
              arrived == s.(waiters := s.waiters[w := Waiter(s.registered.value, fromToken, fromToken, Ready, [])])
            else
              var id, next := |s.streams|, Next(arrived, Register(w));
              && next.streams == s.streams + [Stream(s.latest, s.latest, 0)] && next.registered == Some(id)
              && next.waiters == s.waiters[w := Waiter(id, fromToken, fromToken, Ready, [])]
              && next.arrivals.Keys == s.arrivals.Keys && next.latest == s.latest && next.listed == s.listed + {id}
  {}

  ghost predicate ListedWithRegistered(s: State) {
    && (forall i <- s.listed :: i < |s.streams|)
    && (s.registered.Some? ==> s.registered.value in s.listed)
  }

  /** The registered stream is always among those an update can reach by room, and an expired
      one never is again. */
  lemma {:induction false} ListingFollowsRegistration(s: State, steps: seq<Step>, gone: nat)
    requires ListedWithRegistered(s)
    ensures var after := Run(s, steps);
            && ListedWithRegistered(after)
            && (gone < |s.streams| && gone !in s.listed ==> gone < |after.streams| && gone !in after.listed)
    ensures WellFormed(s) && CanStep(s, Expire) ==> s.registered.value !in Next(s, Expire).listed
    decreases |steps|
  {
    if steps != [] { ListingFollowsRegistration(Next(s, steps[0]), steps[1..], gone); }
  }

  /** A stream expires only with nobody asleep on it, and then it may. */
  lemma ExpiryIff(s: State)
    ensures CanStep(s, Expire) <==>
            s.registered.Some? && forall w :: Sleeping(s, w) ==> s.waiters[w].stream != s.registered.value
  {}

  /** A waiter can give up at any time but inside a callback, and is then done. */
  lemma CanGiveUpIff(s: State, w: nat)
    requires WellFormed(s) && w in s.waiters
    ensures CanStep(s, GiveUp(w)) <==> !s.waiters[w].stage.Checking? && !s.waiters[w].stage.Done?
    ensures CanStep(s, GiveUp(w)) ==> Take(s, GiveUp(w)).waiters[w].stage == Done
  {}

  // --------------------------------------------- when the stream hears every update

  predicate Live(s: State, w: nat) {
    w in s.arrivals || (w in s.waiters && !s.waiters[w].stage.Done?)
  }

  /** No waiter is still to register, and whoever is live waits on the registered stream,
      which was registered before the next update. */
  predicate InTouch(s: State) {
    && s.arrivals == map[]
    && forall w <- s.waiters :: !s.waiters[w].stage.Done? ==>
         && s.registered == Some(s.waiters[w].stream)
         && s.waiters[w].stream < |s.streams|
         && s.streams[s.waiters[w].stream].current == s.latest
  }

  /** Asleep, with an update behind it that its callback was never asked about. */
  predicate Misses(s: State, w: nat) { Sleeping(s, w) && s.waiters[w].prev != s.latest }

  /** The registered stream has heard every update. */
  predicate UpToDate(s: State) {
    s.registered.Some? && s.registered.value < |s.streams| && s.streams[s.registered.value].current == s.latest
  }

  /** A step that leaves a live waiter without such a stream: expiry under it, or its arrival
      when there is none, so that it awaits its rooms, or only one that was registered late. */
  predicate Detaches(s: State, step: Step) {
    || (step.Expire? && exists w <- s.waiters :: !s.waiters[w].stage.Done?)
    || (step.Arrive? && !UpToDate(s))
  }

  lemma InTouchNobodyMisses(s: State, w: nat)
    requires Invariant(s) && InTouch(s)
    ensures !Misses(s, w)
  {
    if Sleeping(s, w) { assert WaiterInvariant(s, s.waiters[w]); }
  }

  lemma UpdateKeepsTouch(s: State, move: Move, also: set<nat>)
    requires Invariant(s) && InTouch(s) && also <= s.listed
    ensures InTouch(Take(s, Update(move, also)))
  {
    var after := Take(s, Update(move, also));
    forall w | w in after.waiters && !after.waiters[w].stage.Done?
      ensures after.registered == Some(after.waiters[w].stream)
              && after.streams[after.waiters[w].stream].current == after.latest
    {
      assert s.streams[s.waiters[w].stream].current == s.latest;
    }
  }

  /** A step keeps the waiters in touch exactly when it does not take their stream away. */
  lemma StepKeepsTouchIff(s: State, step: Step)
    requires Invariant(s) && InTouch(s) && CanStep(s, step)
    ensures InTouch(Take(s, step)) <==> !Detaches(s, step)
  {
    var after := Take(s, step);
    match step
    case Arrive(w, _) =>
      if s.registered.None? { assert w in after.arrivals; } else { assert w in after.waiters; }
    case Update(move, also) =>
      UpdateKeepsTouch(s, move, also);
    case Expire =>
      if w :| w in s.waiters && !s.waiters[w].stage.Done? { assert w in after.waiters; }
    case _ =>
  }

  /** A registration puts everybody in touch exactly when no update came during its await
      and nobody else is live. */
  lemma RegistrationInTimeIff(s: State, w: nat)
    requires Invariant(s) && w in s.arrivals
    ensures InTouch(Take(s, Register(w))) <==>
            s.arrivals[w].read == s.latest && forall v :: Live(s, v) ==> v == w
  {
    var after := Take(s, Register(w));
    assert after.waiters[w].stream == |s.streams| && after.streams[|s.streams|].current == s.arrivals[w].read;
    forall v | v != w && Live(s, v) ensures !InTouch(after) {
      if v in s.arrivals {
        assert v in after.arrivals;
      } else {
        assert v in after.waiters && after.waiters[v] == s.waiters[v];
      }
    }
    if forall v :: Live(s, v) ==> v == w {
      assert forall v <- after.arrivals :: Live(s, v);
      assert after.arrivals == map[];
      forall v | v in after.waiters && !after.waiters[v].stage.Done? ensures v == w {
        assert v != w ==> Live(s, v);
      }
    }
  }

  // ----------------------------------------------------------- the exact condition

  lemma HeldStep(s: State, step: Step)
    requires Invariant(s) && InTouch(s) && UpToDate(s) && !step.Expire?
    ensures InTouch(Next(s, step)) && UpToDate(Next(s, step))
  {
    if CanStep(s, step) { StepKeepsTouchIff(s, step); }
  }

  lemma {:induction false} HeldRun(s: State, steps: seq<Step>)
    requires Invariant(s) && InTouch(s) && UpToDate(s) && Expire !in steps
    ensures Invariant(Run(s, steps)) && InTouch(Run(s, steps))
    decreases |steps|
  {
    if steps != [] {
      HeldStep(s, steps[0]);
      StepKeepsInvariant(s, steps[0]);
      HeldRun(Next(s, steps[0]), steps[1..]);
    }
  }

  lemma {:induction false} RunAppend(s: State, a: seq<Step>, b: seq<Step>)
    ensures Run(s, a + b) == Run(Run(s, a), b)
    decreases |a|
  {
    if a == [] {
      assert a + b == b;
    } else {
      assert (a + b)[1..] == a[1..] + b;
      RunAppend(Next(s, a[0]), a[1..], b);
    }
  }

  lemma RunOne(s: State, step: Step)
    ensures Run(s, [step]) == Next(s, step)
  {
    assert Run(Next(s, step), []) == Next(s, step);
  }

  /** Everything but the waiters is as it was, and `w` sleeps on its old stream. */
  predicate FellAsleep(before: State, after: State, w: nat) {
    && after == before.(waiters := after.waiters)
    && w in before.waiters && Sleeping(after, w)
    && after.waiters[w].stream == before.waiters[w].stream
    && after.waiters[w].prev == before.streams[before.waiters[w].stream].current
  }

  /** A waiter that asks again from its stream's position goes to sleep. */
  lemma CaughtUpFallsAsleep(s: State, w: nat) returns (steps: seq<Step>)
    requires Invariant(s) && w in s.waiters && s.waiters[w].stage.Ready?
    requires s.waiters[w].prev == s.streams[s.waiters[w].stream].current
    ensures Expire !in steps && FellAsleep(s, Run(s, steps), w)
  {
    steps := [Listen(w)];
    RunOne(s, Listen(w));
  }

  /** A callback that finds nothing brings its waiter back with the token it was asked up to. */
  lemma CheckedFallsAsleep(s: State, w: nat) returns (steps: seq<Step>)
    requires Invariant(s) && w in s.waiters && s.waiters[w].stage.Checking?
    requires s.waiters[w].stage.upTo == s.streams[s.waiters[w].stream].current
    ensures Expire !in steps && FellAsleep(s, Run(s, steps), w)
  {
    var back := Next(s, Return(w, false));
    StepKeepsInvariant(s, Return(w, false));
    var rest := CaughtUpFallsAsleep(back, w);
    steps := [Return(w, false)] + rest;
    RunAppend(s, [Return(w, false)], rest);
    RunOne(s, Return(w, false));
  }

  lemma WokenFallsAsleep(s: State, w: nat) returns (steps: seq<Step>)
    requires Invariant(s) && w in s.waiters && s.waiters[w].stage.Attached? && !Sleeping(s, w)
    ensures Expire !in steps && FellAsleep(s, Run(s, steps), w)
  {
    var checking := Next(s, Resume(w));
    StepKeepsInvariant(s, Resume(w));
    var rest := CheckedFallsAsleep(checking, w);
    steps := [Resume(w)] + rest;
    RunAppend(s, [Resume(w)], rest);
    RunOne(s, Resume(w));
  }

  lemma ReadyFallsAsleep(s: State, w: nat) returns (steps: seq<Step>)
    requires Invariant(s) && w in s.waiters && s.waiters[w].stage.Ready?
    ensures Expire !in steps && FellAsleep(s, Run(s, steps), w)
  {
    if s.waiters[w].prev == s.streams[s.waiters[w].stream].current {
      steps := CaughtUpFallsAsleep(s, w);
    } else {
      var fired := Next(s, Listen(w));
      StepKeepsInvariant(s, Listen(w));
      var rest := WokenFallsAsleep(fired, w);
      steps := [Listen(w)] + rest;
      RunAppend(s, [Listen(w)], rest);
      RunOne(s, Listen(w));
    }
  }

  /** Left alone with callbacks that find nothing, every waiter falls asleep on its stream. */
  lemma FallsAsleep(s: State, w: nat) returns (steps: seq<Step>)
    requires Invariant(s) && w in s.waiters && !s.waiters[w].stage.Done?
    ensures Expire !in steps && FellAsleep(s, Run(s, steps), w)
  {
    assert WaiterInvariant(s, s.waiters[w]);
    if Sleeping(s, w) {
      steps := [];
    } else if s.waiters[w].stage.Attached? {
      steps := WokenFallsAsleep(s, w);
    } else if s.waiters[w].stage.Ready? {
      steps := ReadyFallsAsleep(s, w);
    } else {
      var back := Next(s, Return(w, false));
      StepKeepsInvariant(s, Return(w, false));
      var rest := ReadyFallsAsleep(back, w);
      steps := [Return(w, false)] + rest;
      RunAppend(s, [Return(w, false)], rest);
      RunOne(s, Return(w, false));
    }
  }

  /** An update that moves a stream past both positions, sent to the user alone. */
  function UpdatePast(a: Token, b: Token): Step {
    Update(PlainMove("to_device", Max(PlainPosition(a, "to_device"), PlainPosition(b, "to_device")) + 1), {})
  }

  lemma UpdatePastMoves(s: State, b: Token)
    requires WellFormed(s)
    ensures Next(s, UpdatePast(s.latest, b)).latest != b
  {
    assert PlainPosition(Next(s, UpdatePast(s.latest, b)).latest, "to_device") > PlainPosition(b, "to_device");
  }

  /** A live waiter whose stream is not the registered one sleeps through the next update. */
  lemma DetachedMisses(s: State, w: nat) returns (steps: seq<Step>)
    requires Invariant(s) && w in s.waiters && !s.waiters[w].stage.Done? && s.registered != Some(s.waiters[w].stream)
    ensures Expire !in steps && Misses(Run(s, steps), w)
  {
    var first := FallsAsleep(s, w);
    RunKeepsInvariant(s, first);
    var asleep := Run(s, first);
    var update := UpdatePast(asleep.latest, asleep.waiters[w].prev);
    UpdatePastMoves(asleep, asleep.waiters[w].prev);
    steps := first + [update];
    RunAppend(s, first, [update]);
    RunOne(asleep, update);
  }

  /** A live waiter whose stream is behind falls asleep behind. */
  lemma LateStreamMisses(s: State, w: nat) returns (steps: seq<Step>)
    requires Invariant(s) && w in s.waiters && !s.waiters[w].stage.Done?
    requires s.streams[s.waiters[w].stream].current != s.latest
    ensures Expire !in steps && Misses(Run(s, steps), w) && FellAsleep(s, Run(s, steps), w)
  {
    steps := FallsAsleep(s, w);
  }

  /** An update during the await is lost to the waiter that registers after it. */
  lemma ArrivalMisses(s: State, w: nat) returns (steps: seq<Step>)
    requires Invariant(s) && w in s.arrivals
    ensures Expire !in steps && Misses(Run(s, steps), w)
    ensures Run(s, steps).registered == Some(Run(s, steps).waiters[w].stream)
  {
    var update := UpdatePast(s.latest, s.arrivals[w].read);
    UpdatePastMoves(s, s.arrivals[w].read);
    var updated := Next(s, update);
    StepKeepsInvariant(s, update);
    var registered := Next(updated, Register(w));
    StepKeepsInvariant(updated, Register(w));
    var rest := LateStreamMisses(registered, w);
    steps := [update] + ([Register(w)] + rest);
    RunAppend(s, [update], [Register(w)] + rest);
    RunOne(s, update);
    RunAppend(updated, [Register(w)], rest);
    RunOne(updated, Register(w));
  }

  ghost predicate NoLiveWaiterMisses(s: State) {
    forall steps, w | Expire !in steps && Live(s, w) :: !Misses(Run(s, steps), w)
  }

  /** From every reachable state: as long as no stream expires, nobody who is waiting now
      will ever sleep through an update, if and only if nobody is still to register and all
      who are live wait on the registered stream, registered in time. */
  lemma NobodyMissesIff(start: Token, steps: seq<Step>)
    ensures var s := Run(Initial(start), steps); NoLiveWaiterMisses(s) <==> InTouch(s)
  {
    var s := Run(Initial(start), steps);
    RunKeepsInvariant(Initial(start), steps);
    if InTouch(s) {
      forall more, w | Expire !in more && Live(s, w) ensures !Misses(Run(s, more), w) {
        HeldRun(s, more);
        InTouchNobodyMisses(Run(s, more), w);
      }
    } else {
      var more, w := OutOfTouchMisses(s);
    }
  }

  lemma OutOfTouchMisses(s: State) returns (steps: seq<Step>, w: nat)
    requires Invariant(s) && !InTouch(s)
    ensures Expire !in steps && Live(s, w) && Misses(Run(s, steps), w)
  {
    if s.arrivals != map[] {
      w :| w in s.arrivals;
      steps := ArrivalMisses(s, w);
    } else {
      w :| w in s.waiters && !s.waiters[w].stage.Done?
           && !(s.registered == Some(s.waiters[w].stream) && s.streams[s.waiters[w].stream].current == s.latest);
      if s.registered != Some(s.waiters[w].stream) {
        steps := DetachedMisses(s, w);
      } else {
        steps := LateStreamMisses(s, w);
      }
    }
  }

  /** No step of the run takes the stream away from a live waiter. */
  predicate NeverDetaches(s: State, steps: seq<Step>)
    decreases |steps|
  {
    steps != [] ==>
      && !(CanStep(s, steps[0]) && Detaches(s, steps[0]))
      && NeverDetaches(Next(s, steps[0]), steps[1..])
  }

  /** Expiries included: once in touch, the waiters stay in touch for as long as no step
      takes their stream away. */
  lemma {:induction false} InTouchUntilDetached(s: State, steps: seq<Step>, w: nat)
    requires Invariant(s) && InTouch(s) && NeverDetaches(s, steps)
    ensures InTouch(Run(s, steps)) && !Misses(Run(s, steps), w)
    decreases |steps|
  {
    if steps == [] {
      InTouchNobodyMisses(s, w);
    } else {
      if CanStep(s, steps[0]) { StepKeepsTouchIff(s, steps[0]); }
      StepKeepsInvariant(s, steps[0]);
      InTouchUntilDetached(Next(s, steps[0]), steps[1..], w);
    }
  }

  /** The first step that does leaves a live waiter that can miss an update. */
  lemma DetachingMisses(s: State, step: Step) returns (steps: seq<Step>, w: nat)
    requires Invariant(s) && InTouch(s) && CanStep(s, step) && Detaches(s, step)
    ensures Live(Take(s, step), w) && Expire !in steps && Misses(Run(s, [step] + steps), w)
  {
    StepKeepsTouchIff(s, step);
    StepKeepsInvariant(s, step);
    steps, w := OutOfTouchMisses(Take(s, step));
    RunAppend(s, [step], steps);
    RunOne(s, step);
  }

  // ------------------------------------------------------------------------- runs

  /** A first waiter, with an update during its await: asleep on its registered stream, which
      never expired, and behind. */
  lemma UpdateDuringAwaitIsMissed(start: Token) returns (steps: seq<Step>)
    ensures var s := Run(Initial(start), steps);
            Expire !in steps && Misses(s, 0) && s.registered == Some(s.waiters[0].stream)
  {
    var arrive := Arrive(0, start);
    var arrived := Next(Initial(start), arrive);
    StepKeepsInvariant(Initial(start), arrive);
    var rest := ArrivalMisses(arrived, 0);
    steps := [arrive] + rest;
    RunAppend(Initial(start), [arrive], rest);
    RunOne(Initial(start), arrive);
  }

  /** A stream that expires while its only waiter is inside a callback is no longer notified,
      and the waiter then sleeps through the next update. */
  lemma ExpiryDuringCallbackMissesUpdate(s: State, w: nat) returns (steps: seq<Step>)
    requires Invariant(s) && w in s.waiters && s.waiters[w].stage.Checking? && CanStep(s, Expire)
    requires s.registered == Some(s.waiters[w].stream)
    ensures Misses(Run(s, steps), w)
  {
    var expired := Next(s, Expire);
    StepKeepsInvariant(s, Expire);
    var rest := DetachedMisses(expired, w);
    steps := [Expire] + rest;
    RunAppend(s, [Expire], rest);
    RunOne(s, Expire);
  }

  /** Two first waiters that both pass the await: the later registration takes the stream
      away from the earlier waiter. */
  lemma SupersededMissesUpdate(s: State, w: nat, later: nat) returns (steps: seq<Step>)
    requires Invariant(s) && w in s.waiters && !s.waiters[w].stage.Done? && later in s.arrivals
    ensures Expire !in steps && Misses(Run(s, [Register(later)] + steps), w)
  {
    StepKeepsInvariant(s, Register(later));
    steps := DetachedMisses(Next(s, Register(later)), w);
    RunAppend(s, [Register(later)], steps);
    RunOne(s, Register(later));
  }
}
