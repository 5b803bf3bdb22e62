/** The background worker, cut into the stretches it runs between awaits, and the loops it owns. */
module BackgroundWorker {
  import opened Common

  type LoopId = string

  // -------------------------------------------------------------- background loops

  /** `loading`: modules still being imported; `running`: loops started and not stopped;
      `failed`: modules that could not be imported. */
  datatype LoopsState = LoopsState(loading: set<LoopId>, running: set<LoopId>, stopped: bool, failed: set<LoopId>)

  function LaunchLoops(enabled: set<LoopId>): LoopsState {
    LoopsState(enabled, {}, false, {})
  }

  function LoadModule(s: LoopsState, loop: LoopId): LoopsState {
    s.(loading := s.loading - {loop}, running := if s.stopped then s.running else s.running + {loop})
  }

  function FailModule(s: LoopsState, loop: LoopId): LoopsState {
    s.(loading := s.loading - {loop}, failed := s.failed + {loop})
  }

  function StopLoops(s: LoopsState): LoopsState {
    s.(running := {}, stopped := true)
  }

  class BackgroundLoops {
    var starting: set<LoopId>
    var stops: seq<LoopId>
    var stopped: bool
    var failed: set<LoopId>

    constructor (enabled: set<LoopId>)
      ensures View() == LaunchLoops(enabled)
    {
      starting, stops, stopped, failed := enabled, [], false, {};
    }

    function View(): LoopsState
      reads this
    {
      LoopsState(starting, (set loop | loop in stops), stopped, failed)
    }

    method ModuleLoaded(loop: LoopId)
      requires loop in starting
      modifies this
      ensures View() == LoadModule(old(View()), loop)
    {
      starting := starting - {loop};
      if !stopped { stops := stops + [loop]; }
    }

    method ModuleFailed(loop: LoopId)
      requires loop in starting
      modifies this
      ensures View() == FailModule(old(View()), loop)
    {
      starting, failed := starting - {loop}, failed + {loop};
    }

    /** Calls every stop handle once; returns the loops in the order they were stopped. */
    method Stop() returns (called: seq<LoopId>)
      modifies this
      ensures View() == StopLoops(old(View()))
      ensures called == old(stops)
    {
      stopped := true;
      called := [];
      while stops != []
        invariant stopped && starting == old(starting) && failed == old(failed)
        invariant called + stops == old(stops)
        decreases |stops|
      {
        called := called + [stops[0]];
        stops := stops[1..];
      }
    }
  }

  // ------------------------------------------------------------------- the worker

  datatype Role = Starting | Standby | Leader | Stopping

  /** The promise behind `start()`. */
  datatype Startup = NotStarted | LoadingStore | AwaitingLead | StartSettled

  datatype LeadResult = Led | NotLed | LeadFailed

  /** The promise behind the latest attempt at the lock. */
  datatype Attempt = NoAttempt | Acquiring | Granted | Refused | Launching | AttemptSettled(result: LeadResult)

  /** How far a shutdown has come. */
  datatype Phase = Serving | AwaitStart | AwaitAttempt | AwaitTicks | Flushing | Releasing | Closing | Exited

  datatype Worker = Worker(
    role: Role,
    startup: Startup,
    attempt: Attempt,
    loops: Option<LoopsState>,
    watching: bool,
    standbyTimer: bool,
    attempting: bool,
    phase: Phase,
    awaitedStart: bool,
    flushed: bool)
  {
    /** The flag `stopping`, raised once and for all when a shutdown begins. */
    predicate IsStopping() { !phase.Serving? }

    predicate HasRunningLoop() { loops.Some? && loops.value.running != {} }
  }

  const FRESH := Worker(Starting, NotStarted, NoAttempt, None, false, false, false, Serving, false, false)

  /** One stretch of the worker that touches nothing but the worker itself. */
  datatype Stretch =
    | Start(refused: bool)
    | BootSettles(ok: bool)
    | LockRefused
    | AttemptResumes(enabled: set<LoopId>)
    | ModuleLoads(loop: LoopId)
    | ModuleFails(loop: LoopId)
    | LoopsReady
    | StartResumes
    | TimerTicks
    | TimerResumes
    | Shutdown
    | StartSeen
    | AttemptSeen
    | TicksSeen
    | FlushAttempted
    | Exit

  predicate Enabled(w: Worker, s: Stretch) {
    && !w.phase.Exited?
    && match s
       case Start(_) => w.startup.NotStarted?
       case BootSettles(_) => w.startup.LoadingStore?
       case LockRefused => w.attempt.Acquiring?
       case AttemptResumes(_) => w.attempt.Granted? || w.attempt.Refused?
       case ModuleLoads(loop) => w.loops.Some? && loop in w.loops.value.loading
       case ModuleFails(loop) => w.loops.Some? && loop in w.loops.value.loading
       case LoopsReady => w.attempt.Launching? && w.loops.Some? && (w.loops.value.failed != {} || w.loops.value.loading == {})
       case StartResumes => w.startup.AwaitingLead? && w.attempt.AttemptSettled?
       case TimerTicks => w.standbyTimer
       case TimerResumes => w.attempting && w.attempt.AttemptSettled?
       case Shutdown => true
       case StartSeen => w.phase.AwaitStart? && (w.awaitedStart ==> w.startup.StartSettled?)
       case AttemptSeen => w.phase.AwaitAttempt? && (w.attempt.NoAttempt? || w.attempt.AttemptSettled?)
       case TicksSeen => w.phase.AwaitTicks?
       case FlushAttempted => w.phase.Flushing?
       case Exit => w.phase.Closing?
  }

  /** The synchronous part of `shutdown`; a later call joins the first. */
  function BeginShutdown(w: Worker): Worker {
    if w.IsStopping() then w
    else w.(role := Stopping, standbyTimer := false, watching := false, phase := AwaitStart,
            awaitedStart := !w.startup.NotStarted?,
            loops := if w.loops.Some? then Some(StopLoops(w.loops.value)) else None)
  }

  function Run(w: Worker, s: Stretch): Worker
    requires Enabled(w, s)
  {
    match s
    case Start(refused) => w.(startup := if refused then StartSettled else LoadingStore)
    case BootSettles(ok) =>
      if !ok || w.IsStopping() then w.(startup := StartSettled)
      else w.(startup := AwaitingLead, attempt := Acquiring)
    case LockRefused => w.(attempt := Refused)
    case AttemptResumes(enabled) =>
      if w.attempt.Refused? then w.(attempt := AttemptSettled(NotLed))
      else if w.IsStopping() then w.(attempt := AttemptSettled(Led))
      else w.(role := Leader, watching := true, loops := Some(LaunchLoops(enabled)), attempt := Launching)
    case ModuleLoads(loop) => w.(loops := Some(LoadModule(w.loops.value, loop)))
    case ModuleFails(loop) => w.(loops := Some(FailModule(w.loops.value, loop)))
    case LoopsReady => w.(attempt := AttemptSettled(if w.loops.value.failed != {} then LeadFailed else Led))
    case StartResumes =>
      if w.attempt.result.NotLed? && !w.IsStopping() then w.(startup := StartSettled, role := Standby, standbyTimer := true)
      else w.(startup := StartSettled)
    case TimerTicks =>
      if w.attempting || w.IsStopping() then w else w.(attempting := true, attempt := Acquiring)
    case TimerResumes =>
      var settled := w.(attempting := false);
      if w.attempt.result.Led? then settled.(standbyTimer := false)
      else if w.attempt.result.LeadFailed? then BeginShutdown(settled)
      else settled
    case Shutdown => BeginShutdown(w)
    case StartSeen => w.(phase := AwaitAttempt)
    case AttemptSeen => w.(phase := AwaitTicks)
    case TicksSeen => w.(phase := Flushing)
    case FlushAttempted => w.(phase := Releasing, flushed := true)
    case Exit => w.(phase := Exited)
  }

  /** A turn of one worker: a stretch of its own, or something the lock does to it. */
  datatype Turn = Takes(stretch: Stretch) | LockGranted | LossReported | LockReleased | Killed

  predicate CanTurn(w: Worker, t: Turn) {
    match t
    case Takes(s) => Enabled(w, s)
    case LockGranted => !w.phase.Exited? && w.attempt.Acquiring?
    case LossReported => w.watching
    case LockReleased => w.phase.Releasing?
    case Killed => true
  }

  function Turned(w: Worker, t: Turn): Worker
    requires CanTurn(w, t)
  {
    match t
    case Takes(s) => Run(w, s)
    case LockGranted => w.(attempt := Granted)
    case LossReported => BeginShutdown(w)
    case LockReleased => w.(phase := Closing)
    case Killed => w.(phase := Exited, watching := false, standbyTimer := false,
                      loops := if w.loops.Some? then Some(StopLoops(w.loops.value)) else None)
  }

  /** The turns can be taken one after the other. */
  predicate CanTakeAll(w: Worker, turns: seq<Turn>)
    decreases |turns|
  {
    turns != [] ==> CanTurn(w, turns[0]) && CanTakeAll(Turned(w, turns[0]), turns[1..])
  }

  function TakeAll(w: Worker, turns: seq<Turn>): Worker
    requires CanTakeAll(w, turns)
    decreases |turns|
  {
    if turns == [] then w else TakeAll(Turned(w, turns[0]), turns[1..])
  }

  lemma {:induction false} TakeAllAppend(w: Worker, turns: seq<Turn>, t: Turn)
    requires CanTakeAll(w, turns) && CanTurn(TakeAll(w, turns), t)
    ensures CanTakeAll(w, turns + [t]) && TakeAll(w, turns + [t]) == Turned(TakeAll(w, turns), t)
    decreases |turns|
  {
    if turns == [] {
      assert turns + [t] == [t] && CanTakeAll(Turned(w, t), []);
    } else {
      assert (turns + [t])[1..] == turns[1..] + [t];
      TakeAllAppend(Turned(w, turns[0]), turns[1..], t);
    }
  }

  /** The closure `createBackgroundWorker` builds; each method is one stretch. */
  class BackgroundWorker {
    var role: Role
    var startup: Startup
    var leadAttempt: Attempt
    var loops: BackgroundLoops?
    var watching: bool
    var standbyTimer: bool
    var attempting: bool
    var stopping: bool
    var phase: Phase
    var awaitedStart: bool
    var flushed: bool

    constructor ()
      ensures View() == FRESH && Valid()
    {
      role, startup, leadAttempt, loops := Starting, NotStarted, NoAttempt, null;
      watching, standbyTimer, attempting, stopping := false, false, false, false;
      phase, awaitedStart, flushed := Serving, false, false;
    }

    predicate Valid()
      reads this
    {
      stopping == !phase.Serving?
    }

    function View(): Worker
      reads this, loops
    {
      Worker(role, startup, leadAttempt, if loops == null then None else Some(loops.View()),
             watching, standbyTimer, attempting, phase, awaitedStart, flushed)
    }

    method BootSettled(ok: bool)
      requires Valid() && Enabled(View(), BootSettles(ok))
      modifies this
      ensures Valid() && loops == old(loops) && View() == Run(old(View()), BootSettles(ok))
    {
      if !ok || stopping {
        startup := StartSettled;
      } else {
        startup := AwaitingLead;
        leadAttempt := Acquiring;
      }
    }

    method ResumeAttempt(enabled: set<LoopId>)
      requires Valid() && Enabled(View(), AttemptResumes(enabled))
      modifies this
      ensures Valid() && (loops == old(loops) || fresh(loops)) && View() == Run(old(View()), AttemptResumes(enabled))
    {
      if leadAttempt.Refused? {
        leadAttempt := AttemptSettled(NotLed);
      } else if stopping {
        leadAttempt := AttemptSettled(Led);
      } else {
        role := Leader;
        watching := true;
        loops := new BackgroundLoops(enabled);
        leadAttempt := Launching;
      }
    }

    method ResumeStart()
      requires Valid() && Enabled(View(), StartResumes)
      modifies this
      ensures Valid() && loops == old(loops) && View() == Run(old(View()), StartResumes)
    {
      startup := StartSettled;
      if leadAttempt.result.NotLed? && !stopping {
        role, standbyTimer := Standby, true;
      }
    }

    method TimerTick()
      requires Valid() && Enabled(View(), TimerTicks)
      modifies this
      ensures Valid() && loops == old(loops) && View() == Run(old(View()), TimerTicks)
    {
      if attempting || stopping { return; }
      attempting := true;
      leadAttempt := Acquiring;
    }

    method ResumeTimer()
      requires Valid() && Enabled(View(), TimerResumes)
      modifies this, loops
      ensures Valid() && loops == old(loops) && View() == Run(old(View()), TimerResumes)
    {
      attempting := false;
      if leadAttempt.result.Led? {
        standbyTimer := false;
      } else if leadAttempt.result.LeadFailed? {
        ShutDown();
      }
    }

    method ShutDown()
      requires Valid()
      modifies this, loops
      ensures Valid() && loops == old(loops) && View() == BeginShutdown(old(View()))
    {
      if stopping { return; }
      stopping := true;
      role := Stopping;
      standbyTimer := false;
      watching := false;
      if loops != null { var _ := loops.Stop(); }
      awaitedStart := !startup.NotStarted?;
      phase := AwaitStart;
    }

    /** The stretches of a shutdown after its first await. */
    method ContinueShutdown(s: Stretch)
      requires Valid() && Enabled(View(), s)
      requires s.StartSeen? || s.AttemptSeen? || s.TicksSeen? || s.FlushAttempted? || s.Exit?
      modifies this
      ensures Valid() && loops == old(loops) && View() == Run(old(View()), s)
    {
      match s {
        case StartSeen => phase := AwaitAttempt;
        case AttemptSeen => phase := AwaitTicks;
        case TicksSeen => phase := Flushing;
        case FlushAttempted => phase, flushed := Releasing, true;
        case Exit => phase := Exited;
      }
    }

    /** The stretches that belong to the loops' handle. */
    method ContinueLaunch(s: Stretch)
      requires Valid() && Enabled(View(), s) && (s.ModuleLoads? || s.ModuleFails? || s.LoopsReady?)
      modifies this, loops
      ensures Valid() && loops == old(loops) && View() == Run(old(View()), s)
    {
      match s {
        case ModuleLoads(loop) => loops.ModuleLoaded(loop);
        case ModuleFails(loop) => loops.ModuleFailed(loop);
        case LoopsReady => leadAttempt := AttemptSettled(if loops.failed != {} then LeadFailed else Led);
      }
    }

    method TakeStretch(s: Stretch)
      requires Valid() && Enabled(View(), s)
      modifies this, loops
      ensures Valid() && (loops == old(loops) || fresh(loops)) && View() == Run(old(View()), s)
    {
      match s {
        case Start(refused) => startup := if refused then StartSettled else LoadingStore;
        case BootSettles(ok) => BootSettled(ok);
        case LockRefused => leadAttempt := Refused;
        case AttemptResumes(enabled) => ResumeAttempt(enabled);
        case ModuleLoads(_) => ContinueLaunch(s);
        case ModuleFails(_) => ContinueLaunch(s);
        case LoopsReady => ContinueLaunch(s);
        case StartResumes => ResumeStart();
        case TimerTicks => TimerTick();
        case TimerResumes => ResumeTimer();
        case Shutdown => ShutDown();
        case _ => ContinueShutdown(s);
      }
    }

    method Die()
      requires Valid()
      modifies this, loops
      ensures Valid() && loops == old(loops) && View() == Turned(old(View()), Killed)
    {
      stopping, phase, watching, standbyTimer := true, Exited, false, false;
      if loops != null { var _ := loops.Stop(); }
    }

    method TakeTurn(t: Turn)
      requires Valid() && CanTurn(View(), t)
      modifies this, loops
      ensures Valid() && (loops == old(loops) || fresh(loops)) && View() == Turned(old(View()), t)
    {
      match t {
        case Takes(s) => TakeStretch(s);
        case LockGranted => leadAttempt := Granted;
        case LossReported => ShutDown();
        case LockReleased => phase := Closing;
        case Killed => Die();
      }
    }
  }

  /** A worker object that takes any turns that can be taken, in order, from its creation. */
  method RunTurns(turns: seq<Turn>) returns (worker: BackgroundWorker)
    requires CanTakeAll(FRESH, turns)
    ensures worker.Valid() && worker.View() == TakeAll(FRESH, turns)
    ensures worker.loops != null ==>
              TakeAll(FRESH, turns).loops.Some? && Elements(worker.loops.stops) == TakeAll(FRESH, turns).loops.value.running
  {
    worker := new BackgroundWorker();
    for i := 0 to |turns|
      invariant fresh(worker) && (worker.loops != null ==> fresh(worker.loops))
      invariant worker.Valid() && CanTakeAll(worker.View(), turns[i..])
      invariant TakeAll(worker.View(), turns[i..]) == TakeAll(FRESH, turns)
    {
      assert turns[i..][0] == turns[i] && turns[i..][1..] == turns[i + 1..];
      worker.TakeTurn(turns[i]);
    }
  }
}
