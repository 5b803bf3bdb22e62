/** What workers get done: a leader starts every enabled loop, a standby takes over, and a
    shutdown can always finish. */
module WorkerProgress {
  import opened Common
  import opened BackgroundWorker
  import opened Leadership

  // --------------------------------------------------------- a leader's loops

  /** Every enabled loop is loading, running or has failed to load, one of the three. */
  predicate Accounted(l: LoopsState, enabled: set<LoopId>) {
    && !l.stopped && l.loading + l.running + l.failed == enabled
    && l.loading !! l.running && l.loading !! l.failed && l.running !! l.failed
  }

  /** A worker that has got the lock and is not stopping launches: all enabled loops are on
      offer at once, and it leads and is watched. */
  lemma LaunchOffersEveryLoop(w: Worker, enabled: set<LoopId>)
    requires w.attempt.Granted? && !w.IsStopping()
    ensures Enabled(w, AttemptResumes(enabled))
    ensures var led := Run(w, AttemptResumes(enabled));
            && led.role == Leader && led.watching && led.loops.Some? && Accounted(led.loops.value, enabled)
            && (forall l <- enabled :: Enabled(led, ModuleLoads(l)) && Enabled(led, ModuleFails(l)))
  {}

  lemma TurnKeepsLocal(w: Worker, t: Turn)
    requires LocalInvariant(w) && CanTurn(w, t)
    ensures LocalInvariant(Turned(w, t))
  {
    match t
    case Takes(s) => StretchKeepsLocal(w, s);
    case LossReported => ShutdownKeepsLocal(w);
    case _ =>
  }

  lemma TurnKeepsLoops(w: Worker, t: Turn, enabled: set<LoopId>)
    requires LocalInvariant(w) && CanTurn(w, t) && !Turned(w, t).IsStopping()
    requires w.loops.Some? && Accounted(w.loops.value, enabled)
    ensures !w.IsStopping() && Turned(w, t).loops.Some? && Accounted(Turned(w, t).loops.value, enabled)
  {}

  lemma TurnKeepsStopping(w: Worker, t: Turn)
    requires CanTurn(w, t) && w.IsStopping()
    ensures Turned(w, t).IsStopping()
  {
    if t.Takes? { StretchKeepsFlags(w, t.stretch); }
  }

  lemma {:induction false} StoppingIsForGood(w: Worker, turns: seq<Turn>)
    requires CanTakeAll(w, turns) && w.IsStopping()
    ensures TakeAll(w, turns).IsStopping()
    decreases |turns|
  {
    if turns != [] {
      TurnKeepsStopping(w, turns[0]);
      StoppingIsForGood(Turned(w, turns[0]), turns[1..]);
    }
  }

  lemma {:induction false} LoopsStayAccounted(w: Worker, turns: seq<Turn>, enabled: set<LoopId>)
    requires LocalInvariant(w) && w.loops.Some? && Accounted(w.loops.value, enabled)
    requires CanTakeAll(w, turns) && !TakeAll(w, turns).IsStopping()
    ensures TakeAll(w, turns).loops.Some? && Accounted(TakeAll(w, turns).loops.value, enabled)
    decreases |turns|
  {
    if turns != [] {
      var next := Turned(w, turns[0]);
      if next.IsStopping() { StoppingIsForGood(next, turns[1..]); }
      TurnKeepsLocal(w, turns[0]);
      TurnKeepsLoops(w, turns[0], enabled);
      LoopsStayAccounted(next, turns[1..], enabled);
    }
  }

  /** In every continuation in which it does not begin to stop, a launched leader has each enabled
      loop loading, running or failed, and every one still loading may load; once all have
      loaded, exactly the enabled ones run. */
  lemma LeaderRunsItsLoops(w: Worker, enabled: set<LoopId>, turns: seq<Turn>)
    requires LocalInvariant(w) && w.attempt.Granted? && !w.IsStopping()
    requires var led := Run(w, AttemptResumes(enabled)); CanTakeAll(led, turns) && !TakeAll(led, turns).IsStopping()
    ensures var now := TakeAll(Run(w, AttemptResumes(enabled)), turns);
            && now.loops.Some? && Accounted(now.loops.value, enabled)
            && (forall l <- now.loops.value.loading :: Enabled(now, ModuleLoads(l)))
            && (now.loops.value.loading == {} && now.loops.value.failed == {} ==> now.loops.value.running == enabled)
  {
    LaunchOffersEveryLoop(w, enabled);
    StretchKeepsLocal(w, AttemptResumes(enabled));
    LoopsStayAccounted(Run(w, AttemptResumes(enabled)), turns, enabled);
  }

  // ------------------------------------------------------------ turns, put together

  lemma {:induction false} TakeAllSplits(w: Worker, a: seq<Turn>, b: seq<Turn>)
    requires CanTakeAll(w, a) && CanTakeAll(TakeAll(w, a), b)
    ensures CanTakeAll(w, a + b) && TakeAll(w, a + b) == TakeAll(TakeAll(w, a), b)
    decreases |a|
  {
    if a == [] {
      assert a + b == b;
    } else {
      assert (a + b)[1..] == a[1..] + b;
      TakeAllSplits(Turned(w, a[0]), a[1..], b);
    }
  }

  lemma TakeOne(w: Worker, t: Turn)
    requires CanTurn(w, t)
    ensures CanTakeAll(w, [t]) && TakeAll(w, [t]) == Turned(w, t)
  {
    assert CanTakeAll(Turned(w, t), []) && TakeAll(Turned(w, t), []) == Turned(w, t);
  }

  lemma Prepend(w: Worker, t: Turn, rest: seq<Turn>)
    requires CanTurn(w, t) && CanTakeAll(Turned(w, t), rest)
    ensures CanTakeAll(w, [t] + rest) && TakeAll(w, [t] + rest) == TakeAll(Turned(w, t), rest)
  {
    TakeOne(w, t);
    TakeAllSplits(w, [t], rest);
  }

  /** All that is still loading can load, and all of it then runs, unless the worker is stopping. */
  lemma {:induction false} LoadAll(w: Worker) returns (turns: seq<Turn>)
    requires w.loops.Some? && !w.phase.Exited?
    ensures CanTakeAll(w, turns) && forall t <- turns :: t.Takes?
    ensures var l := w.loops.value;
            TakeAll(w, turns) == w.(loops := Some(l.(loading := {}, running := if l.stopped then l.running else l.running + l.loading)))
    decreases w.loops.value.loading
  {
    if w.loops.value.loading == {} {
      turns := [];
      assert w.loops.value.running + w.loops.value.loading == w.loops.value.running;
    } else {
      var loop :| loop in w.loops.value.loading;
      var next := Turned(w, Takes(ModuleLoads(loop)));
      var rest := LoadAll(next);
      turns := [Takes(ModuleLoads(loop))] + rest;
      Prepend(w, Takes(ModuleLoads(loop)), rest);
      assert w.loops.value.running + {loop} + (w.loops.value.loading - {loop}) == w.loops.value.running + w.loops.value.loading;
    }
  }

  // -------------------------------------------------------------------- taking over

  /** A worker that leads, with exactly these loops running. */
  predicate Leads(w: Worker, enabled: set<LoopId>) {
    && w.role == Leader && w.watching && !w.IsStopping() && w.attempt == AttemptSettled(Led)
    && w.loops.Some? && w.loops.value.running == enabled && w.loops.value.loading == {} && !w.loops.value.stopped
  }

  /** From the lock on: launch, load everything, settle. */
  lemma GrantedLeads(w: Worker, enabled: set<LoopId>) returns (turns: seq<Turn>)
    requires w.attempt.Granted? && !w.IsStopping()
    ensures CanTakeAll(w, turns) && Leads(TakeAll(w, turns), enabled) && forall t <- turns :: t.Takes?
    ensures TakeAll(w, turns).(role := w.role, watching := w.watching, attempt := w.attempt, loops := w.loops) == w
  {
    var led := Turned(w, Takes(AttemptResumes(enabled)));
    var loads := LoadAll(led);
    var loaded := TakeAll(led, loads);
    TakeOne(loaded, Takes(LoopsReady));
    TakeAllSplits(led, loads, [Takes(LoopsReady)]);
    turns := [Takes(AttemptResumes(enabled))] + (loads + [Takes(LoopsReady)]);
    Prepend(w, Takes(AttemptResumes(enabled)), loads + [Takes(LoopsReady)]);
  }

  /** A new worker boots and asks for the lock at once. */
  lemma BootsAndAsks() returns (w: Worker)
    ensures CanTakeAll(FRESH, [Takes(Start(false)), Takes(BootSettles(true))])
    ensures w == TakeAll(FRESH, [Takes(Start(false)), Takes(BootSettles(true))])
    ensures w == FRESH.(startup := AwaitingLead, attempt := Acquiring)
  {
    var started := Turned(FRESH, Takes(Start(false)));
    TakeOne(started, Takes(BootSettles(true)));
    Prepend(FRESH, Takes(Start(false)), [Takes(BootSettles(true))]);
    assert [Takes(Start(false))] + [Takes(BootSettles(true))] == [Takes(Start(false)), Takes(BootSettles(true))];
    w := Turned(started, Takes(BootSettles(true)));
  }

  /** If it gets it, it comes to lead, with all enabled loops running. */
  lemma NewWorkerLeads(enabled: set<LoopId>) returns (turns: seq<Turn>)
    ensures CanTakeAll(FRESH, turns) && Leads(TakeAll(FRESH, turns), enabled)
    ensures TakeAll(FRESH, turns).startup.StartSettled? && !TakeAll(FRESH, turns).standbyTimer
  {
    var asking := BootsAndAsks();
    var granted := Turned(asking, LockGranted);
    var rest := GrantedLeads(granted, enabled);
    var leading := TakeAll(granted, rest);
    TakeOne(leading, Takes(StartResumes));
    TakeAllSplits(granted, rest, [Takes(StartResumes)]);
    Prepend(asking, LockGranted, rest + [Takes(StartResumes)]);
    turns := [Takes(Start(false)), Takes(BootSettles(true))] + ([LockGranted] + (rest + [Takes(StartResumes)]));
    TakeAllSplits(FRESH, [Takes(Start(false)), Takes(BootSettles(true))], [LockGranted] + (rest + [Takes(StartResumes)]));
  }

  /** Waiting for its timer, with nothing in progress. */
  predicate StandsBy(w: Worker) {
    && w.role == Standby && w.standbyTimer && !w.attempting && !w.IsStopping()
    && w.startup.StartSettled? && w.attempt == AttemptSettled(NotLed)
  }

  /** If it is refused, it stands by. */
  lemma RefusedStandsBy() returns (turns: seq<Turn>)
    ensures CanTakeAll(FRESH, turns) && StandsBy(TakeAll(FRESH, turns))
  {
    var asking := BootsAndAsks();
    var refused := Turned(asking, Takes(LockRefused));
    var settled := Turned(refused, Takes(AttemptResumes({})));
    TakeOne(settled, Takes(StartResumes));
    Prepend(refused, Takes(AttemptResumes({})), [Takes(StartResumes)]);
    var rest := [Takes(AttemptResumes({}))] + [Takes(StartResumes)];
    Prepend(asking, Takes(LockRefused), rest);
    turns := [Takes(Start(false)), Takes(BootSettles(true))] + ([Takes(LockRefused)] + rest);
    TakeAllSplits(FRESH, [Takes(Start(false)), Takes(BootSettles(true))], [Takes(LockRefused)] + rest);
  }

  /** The next tick of a standby asks for the lock; if it gets it, it comes to lead, with all
      enabled loops running and its timer cleared; if not, it stands by as before. */
  lemma StandbyTakesOver(w: Worker, enabled: set<LoopId>) returns (turns: seq<Turn>)
    requires StandsBy(w)
    ensures Enabled(w, TimerTicks) && Run(w, TimerTicks) == w.(attempting := true, attempt := Acquiring)
    ensures CanTakeAll(w, [Takes(TimerTicks), LockGranted] + turns)
    ensures var now := TakeAll(w, [Takes(TimerTicks), LockGranted] + turns); Leads(now, enabled) && !now.standbyTimer && !now.attempting
  {
    var asking := Turned(w, Takes(TimerTicks));
    var granted := Turned(asking, LockGranted);
    var rest := GrantedLeads(granted, enabled);
    var leading := TakeAll(granted, rest);
    TakeOne(leading, Takes(TimerResumes));
    TakeAllSplits(granted, rest, [Takes(TimerResumes)]);
    turns := rest + [Takes(TimerResumes)];
    Prepend(asking, LockGranted, turns);
    Prepend(w, Takes(TimerTicks), [LockGranted] + turns);
    assert [Takes(TimerTicks)] + ([LockGranted] + turns) == [Takes(TimerTicks), LockGranted] + turns;
  }

  lemma RefusedStandbyStays(w: Worker)
    requires StandsBy(w)
    ensures var turns := [Takes(TimerTicks), Takes(LockRefused), Takes(AttemptResumes({})), Takes(TimerResumes)];
            CanTakeAll(w, turns) && TakeAll(w, turns) == w
  {
    var asking := Turned(w, Takes(TimerTicks));
    var refused := Turned(asking, Takes(LockRefused));
    var settled := Turned(refused, Takes(AttemptResumes({})));
    TakeOne(settled, Takes(TimerResumes));
    Prepend(refused, Takes(AttemptResumes({})), [Takes(TimerResumes)]);
    Prepend(asking, Takes(LockRefused), [Takes(AttemptResumes({}))] + [Takes(TimerResumes)]);
    Prepend(w, Takes(TimerTicks), [Takes(LockRefused)] + ([Takes(AttemptResumes({}))] + [Takes(TimerResumes)]));
    assert [Takes(TimerTicks)] + ([Takes(LockRefused)] + ([Takes(AttemptResumes({}))] + [Takes(TimerResumes)]))
        == [Takes(TimerTicks), Takes(LockRefused), Takes(AttemptResumes({})), Takes(TimerResumes)];
  }

  // ----------------------------------------------------------------- shutting down

  /** A shutdown takes effect at once: no timer, no watch, every loop stopped, and it waits for a
      start if one had been made; a second one changes nothing. */
  lemma ShutdownStopsAtOnce(w: Worker)
    requires w.phase.Serving?
    ensures var s := BeginShutdown(w);
            && s.role == Stopping && s.phase == AwaitStart && !s.standbyTimer && !s.watching
            && (s.awaitedStart <==> w.startup != NotStarted)
            && s.startup == w.startup && s.attempt == w.attempt && s.attempting == w.attempting && s.flushed == w.flushed
            && (w.loops.None? ==> s.loops.None?)
            && (w.loops.Some? ==> s.loops == Some(LoopsState(w.loops.value.loading, {}, true, w.loops.value.failed)))
            && BeginShutdown(s) == s
  {}

  /** A worker that has exited does nothing more. */
  lemma ExitedIsFinal(w: Worker, t: Turn)
    requires LocalInvariant(w) && w.phase.Exited?
    ensures CanTurn(w, t) ==> t == Killed
  {}

  predicate AttemptOver(w: Worker) { w.attempt.NoAttempt? || w.attempt.AttemptSettled? }

  /** The rest of the worker is as it was. */
  predicate OnlyAttemptMoved(w: Worker, after: Worker) {
    after == w.(attempt := after.attempt, loops := after.loops) && (w.loops.Some? <==> after.loops.Some?)
  }

  /** A lock attempt in progress can come to its end while the worker is stopping. */
  lemma AttemptSettles(w: Worker) returns (turns: seq<Turn>)
    requires LocalInvariant(w) && w.IsStopping() && !w.phase.Exited?
    ensures CanTakeAll(w, turns) && AttemptOver(TakeAll(w, turns)) && OnlyAttemptMoved(w, TakeAll(w, turns))
    ensures !w.attempt.NoAttempt? ==> TakeAll(w, turns).attempt.AttemptSettled?
  {
    if AttemptOver(w) {
      turns := [];
    } else if w.attempt.Launching? {
      var loads := [];
      if w.loops.value.failed == {} { loads := LoadAll(w); }
      var loaded := TakeAll(w, loads);
      TakeOne(loaded, Takes(LoopsReady));
      turns := loads + [Takes(LoopsReady)];
      TakeAllSplits(w, loads, [Takes(LoopsReady)]);
    } else if w.attempt.Acquiring? {
      var refused := Turned(w, Takes(LockRefused));
      TakeOne(refused, Takes(AttemptResumes({})));
      turns := [Takes(LockRefused)] + [Takes(AttemptResumes({}))];
      Prepend(w, Takes(LockRefused), [Takes(AttemptResumes({}))]);
    } else {
      turns := [Takes(AttemptResumes({}))];
      TakeOne(w, Takes(AttemptResumes({})));
    }
  }

  /** So can its start. */
  lemma StartSettles(w: Worker) returns (turns: seq<Turn>)
    requires LocalInvariant(w) && w.IsStopping() && !w.phase.Exited?
    ensures CanTakeAll(w, turns) && TakeAll(w, turns).startup.StartSettled? && TakeAll(w, turns).phase == w.phase
  {
    match w.startup
    case NotStarted =>
      turns := [Takes(Start(true))];
      TakeOne(w, Takes(Start(true)));
    case LoadingStore =>
      turns := [Takes(BootSettles(false))];
      TakeOne(w, Takes(BootSettles(false)));
    case AwaitingLead =>
      var first := AttemptSettles(w);
      var settled := TakeAll(w, first);
      TakeOne(settled, Takes(StartResumes));
      turns := first + [Takes(StartResumes)];
      TakeAllSplits(w, first, [Takes(StartResumes)]);
    case StartSettled =>
      turns := [];
  }

  lemma {:induction false} TurnsKeepLocal(w: Worker, turns: seq<Turn>)
    requires LocalInvariant(w) && CanTakeAll(w, turns)
    ensures LocalInvariant(TakeAll(w, turns))
    decreases |turns|
  {
    if turns != [] {
      TurnKeepsLocal(w, turns[0]);
      TurnsKeepLocal(Turned(w, turns[0]), turns[1..]);
    }
  }

  /** What a shutdown does next. */
  function NextOf(p: Phase): Turn
    requires !p.Serving? && !p.Exited?
  {
    match p
    case AwaitStart => Takes(StartSeen)
    case AwaitAttempt => Takes(AttemptSeen)
    case AwaitTicks => Takes(TicksSeen)
    case Flushing => Takes(FlushAttempted)
    case Releasing => LockReleased
    case Closing => Takes(Exit)
  }

  /** How much of a shutdown is left. */
  function Left(p: Phase): nat {
    match p
    case Serving => 7
    case AwaitStart => 6
    case AwaitAttempt => 5
    case AwaitTicks => 4
    case Flushing => 3
    case Releasing => 2
    case Closing => 1
    case Exited => 0
  }

  /** What a shutdown awaits can settle, and then it can go on. */
  lemma AwaitedSettles(w: Worker) returns (turns: seq<Turn>)
    requires LocalInvariant(w) && w.IsStopping() && !w.phase.Exited?
    ensures CanTakeAll(w, turns)
    ensures var ready := TakeAll(w, turns);
            ready.phase == w.phase && LocalInvariant(ready) && CanTurn(ready, NextOf(w.phase))
  {
    turns := [];
    if w.phase.AwaitStart? {
      turns := StartSettles(w);
    } else if w.phase.AwaitAttempt? {
      turns := AttemptSettles(w);
    }
    TurnsKeepLocal(w, turns);
  }

  lemma NextAdvances(w: Worker)
    requires LocalInvariant(w) && w.IsStopping() && !w.phase.Exited? && CanTurn(w, NextOf(w.phase))
    ensures var next := Turned(w, NextOf(w.phase));
            LocalInvariant(next) && next.IsStopping() && Left(next.phase) == Left(w.phase) - 1
  {
    TurnKeepsLocal(w, NextOf(w.phase));
  }

  lemma PutTogether(w: Worker, first: seq<Turn>, next: Turn, rest: seq<Turn>)
    requires CanTakeAll(w, first) && CanTurn(TakeAll(w, first), next) && CanTakeAll(Turned(TakeAll(w, first), next), rest)
    ensures CanTakeAll(w, first + ([next] + rest))
    ensures TakeAll(w, first + ([next] + rest)) == TakeAll(Turned(TakeAll(w, first), next), rest)
  {
    Prepend(TakeAll(w, first), next, rest);
    TakeAllSplits(w, first, [next] + rest);
  }

  /** From its first await on a shutdown needs nothing but that what it awaits settles: it then
      flushes, releases the lock and exits. */
  lemma {:induction false} ShutdownFinishes(w: Worker) returns (turns: seq<Turn>)
    requires LocalInvariant(w) && w.IsStopping()
    ensures CanTakeAll(w, turns) && TakeAll(w, turns).phase.Exited?
    ensures Left(w.phase) >= 2 ==> LockReleased in turns
    decreases Left(w.phase)
  {
    if w.phase.Exited? {
      turns := [];
    } else {
      var first := AwaitedSettles(w);
      var ready := TakeAll(w, first);
      NextAdvances(ready);
      var rest := ShutdownFinishes(Turned(ready, NextOf(w.phase)));
      turns := first + ([NextOf(w.phase)] + rest);
      PutTogether(w, first, NextOf(w.phase), rest);
    }
  }

  /** Every worker can be shut down at any time, and its shutdown can release the lock and exit. */
  lemma ShutdownCanFinish(w: Worker) returns (turns: seq<Turn>)
    requires LocalInvariant(w) && w.phase.Serving?
    ensures Enabled(w, Shutdown) && CanTakeAll(w, [Takes(Shutdown)] + turns)
    ensures TakeAll(w, [Takes(Shutdown)] + turns).phase.Exited? && LockReleased in turns
  {
    TurnKeepsLocal(w, Takes(Shutdown));
    turns := ShutdownFinishes(Turned(w, Takes(Shutdown)));
    Prepend(w, Takes(Shutdown), turns);
  }

  // --------------------------------------------------------------- the whole system

  /** The step of the system that is this turn of a worker. */
  function StepOf(id: WorkerId, t: Turn): Step {
    match t
    case Takes(s) => Local(id, s)
    case LockGranted => Grant(id)
    case LossReported => ReportLoss(id)
    case LockReleased => Release(id)
    case Killed => Die(id)
  }

  predicate CanStepAll(s: System, steps: seq<Step>)
    decreases |steps|
  {
    steps != [] ==> CanStep(s, steps[0]) && CanStepAll(Take(s, steps[0]), steps[1..])
  }

  function StepAll(s: System, steps: seq<Step>): System
    requires CanStepAll(s, steps)
    decreases |steps|
  {
    if steps == [] then s else StepAll(Take(s, steps[0]), steps[1..])
  }

  /** Turns of a worker that the lock has no part in can be taken in the system as they are. */
  lemma {:induction false} OwnTurnsRun(s: System, id: WorkerId, turns: seq<Turn>) returns (steps: seq<Step>)
    requires id in s.workers && CanTakeAll(s.workers[id], turns) && forall t <- turns :: t.Takes?
    ensures CanStepAll(s, steps)
    ensures StepAll(s, steps) == s.(workers := s.workers[id := TakeAll(s.workers[id], turns)])
    decreases |turns|
  {
    if turns == [] {
      steps := [];
      assert s.workers == s.workers[id := s.workers[id]];
    } else {
      var first := StepOf(id, turns[0]);
      assert turns[0] in turns;
      var next := Take(s, first);
      var rest := OwnTurnsRun(next, id, turns[1..]);
      steps := [first] + rest;
      assert steps[1..] == rest;
      assert next.workers[id := TakeAll(next.workers[id], turns[1..])] == s.workers[id := TakeAll(s.workers[id], turns)];
    }
  }

  lemma Granting(s: System, id: WorkerId)
    requires id in s.workers && s.lock.None? && StandsBy(s.workers[id])
    ensures CanStepAll(s, [Local(id, TimerTicks), Grant(id)])
    ensures StepAll(s, [Local(id, TimerTicks), Grant(id)])
            == s.(workers := s.workers[id := s.workers[id].(attempting := true, attempt := Granted)], lock := Some(id))
  {
    var asking := Take(s, Local(id, TimerTicks));
    var granted := Take(asking, Grant(id));
    assert CanStepAll(granted, []) && StepAll(granted, []) == granted;
    var last := [Grant(id)];
    assert last[1..] == [];
    assert CanStepAll(asking, last) && StepAll(asking, last) == granted;
    assert [Local(id, TimerTicks), Grant(id)][1..] == last;
    assert granted.workers == s.workers[id := s.workers[id].(attempting := true, attempt := Granted)];
  }

  lemma {:induction false} StepAllSplits(s: System, a: seq<Step>, b: seq<Step>)
    requires CanStepAll(s, a) && CanStepAll(StepAll(s, a), b)
    ensures CanStepAll(s, a + b) && StepAll(s, a + b) == StepAll(StepAll(s, a), b)
    decreases |a|
  {
    if a == [] {
      assert a + b == b;
    } else {
      assert (a + b)[1..] == a[1..] + b;
      StepAllSplits(Take(s, a[0]), a[1..], b);
    }
  }

  /** Whenever the lock is free, every worker that stands by can take it and come to lead, with
      all enabled loops running, while the others do not move. */
  lemma FreeLockIsTaken(s: System, id: WorkerId, enabled: set<LoopId>) returns (steps: seq<Step>)
    requires id in s.workers && s.lock.None? && StandsBy(s.workers[id])
    ensures CanStepAll(s, steps)
    ensures var now := StepAll(s, steps);
            && now.lock == Some(id) && id in now.workers && Leads(now.workers[id], enabled)
            && now == s.(lock := Some(id), workers := s.workers[id := now.workers[id]])
  {
    Granting(s, id);
    var first := [Local(id, TimerTicks), Grant(id)];
    var granted := StepAll(s, first);
    var turns := GrantedLeads(granted.workers[id], enabled);
    var rest := OwnTurnsRun(granted, id, turns);
    steps := first + rest;
    StepAllSplits(s, first, rest);
  }
}
