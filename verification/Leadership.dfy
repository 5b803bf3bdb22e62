/** Any number of workers sharing one exclusive lock, in every interleaving. */
module Leadership {
  import opened Common
  import opened BackgroundWorker

  type WorkerId = nat

  /** `lost`: workers whose lock the database took away without their having been told. */
  datatype System = System(workers: map<WorkerId, Worker>, lock: Option<WorkerId>, lost: set<WorkerId>)

  datatype Step =
    | Spawn(id: WorkerId)
    | Local(id: WorkerId, stretch: Stretch)
    | Grant(id: WorkerId)
    | Lose(id: WorkerId)
    | ReportLoss(id: WorkerId)
    | Release(id: WorkerId)
    | Die(id: WorkerId)

  const INITIAL := System(map[], None, {})

  function Unlock(s: System, id: WorkerId): System {
    s.(lock := if s.lock == Some(id) then None else s.lock, lost := s.lost - {id})
  }

  predicate CanStep(s: System, step: Step) {
    match step
    case Spawn(id) => id !in s.workers
    case Local(id, stretch) => id in s.workers && Enabled(s.workers[id], stretch)
    case Grant(id) => id in s.workers && !s.workers[id].phase.Exited? && s.workers[id].attempt.Acquiring? && s.lock.None?
    case Lose(id) => s.lock == Some(id)
    case ReportLoss(id) => id in s.workers && s.workers[id].watching
    case Release(id) => id in s.workers && s.workers[id].phase.Releasing?
    case Die(id) => id in s.workers
  }

  function Take(s: System, step: Step): System
    requires CanStep(s, step)
  {
    match step
    case Spawn(id) => s.(workers := s.workers[id := FRESH])
    case Local(id, stretch) => s.(workers := s.workers[id := Run(s.workers[id], stretch)])
    case Grant(id) => s.(workers := s.workers[id := s.workers[id].(attempt := Granted)], lock := Some(id))
    case Lose(id) => s.(lock := None, lost := s.lost + {id})
    case ReportLoss(id) => Unlock(s, id).(workers := s.workers[id := BeginShutdown(s.workers[id])])
    case Release(id) => Unlock(s, id).(workers := s.workers[id := s.workers[id].(phase := Closing)])
    case Die(id) =>
      var w := s.workers[id];
      var dead := w.(phase := Exited, watching := false, standbyTimer := false,
                     loops := if w.loops.Some? then Some(StopLoops(w.loops.value)) else None);
      Unlock(s, id).(workers := s.workers[id := dead])
  }

  ghost predicate IsRun(steps: seq<Step>) {
    forall i | 0 <= i < |steps| :: CanTakeAt(steps, i)
  }

  ghost predicate CanTakeAt(steps: seq<Step>, i: nat)
    requires i < |steps|
  {
    CanStep(After(steps, i), steps[i])
  }

  /** The system after the first `n` steps, for as long as they can be taken. */
  ghost function After(steps: seq<Step>, n: nat): System
    requires n <= |steps|
  {
    if n == 0 then INITIAL
    else
      var before := After(steps, n - 1);
      if CanStep(before, steps[n - 1]) then Take(before, steps[n - 1]) else before
  }

  /** However a worker comes to lose, give back or die holding the lock, the lock is then free
      and any live worker waiting for it can have it; nobody else loses it. */
  lemma LockComesFree(s: System, step: Step, id: WorkerId, other: WorkerId)
    requires step in {Lose(id), ReportLoss(id), Release(id), Die(id)} && CanStep(s, step)
    ensures var next := Take(s, step);
            && (s.lock == Some(id) ==> next.lock == None)
            && (s.lock != Some(id) ==> next.lock == s.lock)
            && (s.lock == Some(id) && other != id && other in s.workers
                && !s.workers[other].phase.Exited? && s.workers[other].attempt.Acquiring?
                ==> CanStep(next, Grant(other)))
  {}

  // -------------------------------------------------------------------- invariant

  /** The attempt got the lock. */
  predicate Won(w: Worker) {
    w.attempt.Granted? || w.attempt.Launching? || (w.attempt.AttemptSettled? && !w.attempt.result.NotLed?)
  }

  predicate Released(w: Worker) { w.phase.Closing? || w.phase.Exited? }

  /** What every step keeps about one worker by itself. */
  predicate LocalInvariant(w: Worker) {
    && (w.IsStopping() ==> !w.watching && !w.standbyTimer && !w.HasRunningLoop())
    && (w.IsStopping() && w.loops.Some? ==> w.loops.value.stopped)
    && (!w.IsStopping() && w.loops.Some? ==> w.watching && Won(w) && !w.attempt.Granted?)
    && (!w.IsStopping() && w.loops.None? ==> !w.watching)
    && (w.attempt.Launching? ==> w.loops.Some?)
    && ((w.phase.AwaitTicks? || w.phase.Flushing? || w.phase.Releasing? || w.phase.Closing?)
        ==> w.attempt.NoAttempt? || w.attempt.AttemptSettled?)
    && (w.IsStopping() && !w.phase.AwaitStart? && !w.phase.Exited? && w.awaitedStart ==> w.startup.StartSettled?)
    && ((w.phase.Releasing? || w.phase.Closing?) ==> w.flushed)
    && (w.startup.NotStarted? || w.startup.LoadingStore? ==> w.attempt.NoAttempt? && !w.standbyTimer && !w.attempting)
    && (w.startup.AwaitingLead? ==> !w.standbyTimer && !w.attempting && !w.attempt.NoAttempt?)
    && (w.standbyTimer && !w.attempting ==> w.attempt == AttemptSettled(NotLed))
    && (w.attempting ==> !w.attempt.NoAttempt?)
    && (w.loops.Some? ==> Won(w))
  }

  /** Whoever won the lock and has not given it up holds it, or has yet to hear it is gone. */
  predicate LockInvariant(s: System, id: WorkerId)
    requires id in s.workers
  {
    var w := s.workers[id];
    && (Won(w) && !w.IsStopping() ==> s.lock == Some(id) || id in s.lost)
    && (s.lock == Some(id) || id in s.lost ==> Won(w) && !Released(w))
  }

  ghost predicate Invariant(s: System) {
    && (s.lock.Some? ==> s.lock.value in s.workers)
    && s.lost <= s.workers.Keys
    && forall id <- s.workers :: LocalInvariant(s.workers[id]) && LockInvariant(s, id)
  }

  /** A stretch keeps the worker's invariant and neither wins nor gives up the lock. */
  predicate KeepsLocal(w: Worker, after: Worker) {
    LocalInvariant(after) && Won(after) == Won(w) && Released(after) == Released(w)
  }

  lemma ShutdownKeepsLocal(w: Worker)
    requires LocalInvariant(w)
    ensures LocalInvariant(BeginShutdown(w)) && KeepsLocal(w, BeginShutdown(w))
  {}

  lemma StartStretchKeepsLocal(w: Worker, s: Stretch)
    requires LocalInvariant(w) && Enabled(w, s)
    requires s.Start? || s.BootSettles? || s.LockRefused? || s.StartResumes? || s.TimerTicks?
    ensures KeepsLocal(w, Run(w, s))
  {}

  lemma LaunchStretchKeepsLocal(w: Worker, s: Stretch)
    requires LocalInvariant(w) && Enabled(w, s)
    requires s.AttemptResumes? || s.ModuleLoads? || s.ModuleFails? || s.LoopsReady?
    ensures KeepsLocal(w, Run(w, s))
  {}

  lemma ShutdownStretchKeepsLocal(w: Worker, s: Stretch)
    requires LocalInvariant(w) && Enabled(w, s)
    requires s.StartSeen? || s.AttemptSeen? || s.TicksSeen? || s.FlushAttempted? || s.Exit?
    ensures KeepsLocal(w, Run(w, s))
  {}

  lemma TimerStretchKeepsLocal(w: Worker)
    requires LocalInvariant(w) && Enabled(w, TimerResumes)
    ensures KeepsLocal(w, Run(w, TimerResumes))
  {}

  lemma StretchKeepsLocal(w: Worker, stretch: Stretch)
    requires LocalInvariant(w) && Enabled(w, stretch)
    ensures LocalInvariant(Run(w, stretch))
    ensures Won(Run(w, stretch)) == Won(w)
    ensures Released(Run(w, stretch)) == Released(w)
  {
    assert KeepsLocal(w, Run(w, stretch)) by {
      if stretch.Shutdown? {
        ShutdownKeepsLocal(w);
      } else if stretch.TimerResumes? {
        TimerStretchKeepsLocal(w);
      } else if stretch.StartSeen? || stretch.AttemptSeen? || stretch.TicksSeen? || stretch.FlushAttempted? || stretch.Exit? {
        ShutdownStretchKeepsLocal(w, stretch);
      } else if stretch.AttemptResumes? || stretch.ModuleLoads? || stretch.ModuleFails? || stretch.LoopsReady? {
        LaunchStretchKeepsLocal(w, stretch);
      } else {
        StartStretchKeepsLocal(w, stretch);
      }
    }
  }

  lemma OwnStretchKeepsWorker(s: System, id: WorkerId, stretch: Stretch)
    requires Invariant(s) && CanStep(s, Local(id, stretch))
    ensures var after := Take(s, Local(id, stretch)); LocalInvariant(after.workers[id]) && LockInvariant(after, id)
  {
    assert LocalInvariant(s.workers[id]) && LockInvariant(s, id);
    StretchKeepsLocal(s.workers[id], stretch);
  }

  lemma LockStepKeepsWorker(s: System, step: Step, id: WorkerId)
    requires Invariant(s) && CanStep(s, step) && id in s.workers
    requires step == Grant(id) || step == ReportLoss(id) || step == Release(id) || step == Die(id)
    ensures LocalInvariant(Take(s, step).workers[id]) && LockInvariant(Take(s, step), id)
  {
    assert LocalInvariant(s.workers[id]) && LockInvariant(s, id);
    if step == ReportLoss(id) { ShutdownKeepsLocal(s.workers[id]); }
  }

  lemma OtherStepKeepsWorker(s: System, step: Step, id: WorkerId)
    requires Invariant(s) && CanStep(s, step) && id in s.workers
    requires step.Lose? || step.id != id
    ensures id in Take(s, step).workers && Take(s, step).workers[id] == s.workers[id]
    ensures LocalInvariant(Take(s, step).workers[id]) && LockInvariant(Take(s, step), id)
  {
    assert LocalInvariant(s.workers[id]) && LockInvariant(s, id);
  }

  lemma StepKeepsWorker(s: System, step: Step, id: WorkerId)
    requires Invariant(s) && CanStep(s, step) && id in Take(s, step).workers
    ensures LocalInvariant(Take(s, step).workers[id]) && LockInvariant(Take(s, step), id)
  {
    if id !in s.workers {
      assert step == Spawn(id);
    } else if step.Lose? || step.id != id {
      OtherStepKeepsWorker(s, step, id);
    } else if step.Local? {
      OwnStretchKeepsWorker(s, id, step.stretch);
    } else {
      LockStepKeepsWorker(s, step, id);
    }
  }

  lemma StepKeepsInvariant(s: System, step: Step)
    requires Invariant(s) && CanStep(s, step)
    ensures Invariant(Take(s, step))
  {
    forall id | id in Take(s, step).workers
      ensures LocalInvariant(Take(s, step).workers[id]) && LockInvariant(Take(s, step), id)
    {
      StepKeepsWorker(s, step, id);
    }
  }

  lemma {:induction false} InvariantHolds(steps: seq<Step>, n: nat)
    requires IsRun(steps) && n <= |steps|
    ensures Invariant(After(steps, n))
  {
    if n > 0 {
      InvariantHolds(steps, n - 1);
      assert CanTakeAt(steps, n - 1);
      StepKeepsInvariant(After(steps, n - 1), steps[n - 1]);
    }
  }

  // --------------------------------------------------------------------- theorems

  /** A worker with a started and unstopped loop holds the lock, or is being watched and its
      loss has not been reported yet; it is not shutting down. */
  lemma RunningLoopsAreLed(steps: seq<Step>, n: nat, id: WorkerId)
    requires IsRun(steps) && n <= |steps| && id in After(steps, n).workers
    requires After(steps, n).workers[id].HasRunningLoop()
    ensures var s := After(steps, n);
            && !s.workers[id].IsStopping()
            && s.workers[id].watching
            && (s.lock == Some(id) || id in s.lost)
  {
    InvariantHolds(steps, n);
    assert LocalInvariant(After(steps, n).workers[id]) && LockInvariant(After(steps, n), id);
  }

  /** Two workers run loops at once only while one of them has an unreported loss. */
  lemma AtMostOneLeader(steps: seq<Step>, n: nat, a: WorkerId, b: WorkerId)
    requires IsRun(steps) && n <= |steps| && a != b
    requires a in After(steps, n).workers && b in After(steps, n).workers
    requires After(steps, n).workers[a].HasRunningLoop() && After(steps, n).workers[b].HasRunningLoop()
    ensures a in After(steps, n).lost || b in After(steps, n).lost
  {
    RunningLoopsAreLed(steps, n, a);
    RunningLoopsAreLed(steps, n, b);
  }

  lemma StretchKeepsFlags(w: Worker, stretch: Stretch)
    requires Enabled(w, stretch)
    ensures w.IsStopping() ==> Run(w, stretch).IsStopping()
    ensures Released(w) ==> Released(Run(w, stretch))
  {}

  lemma StepKeepsFlags(s: System, step: Step, id: WorkerId)
    requires CanStep(s, step) && id in s.workers
    ensures id in Take(s, step).workers
    ensures s.workers[id].IsStopping() ==> Take(s, step).workers[id].IsStopping()
    ensures Released(s.workers[id]) ==> Released(Take(s, step).workers[id])
  {
    if step.Local? { StretchKeepsFlags(s.workers[step.id], step.stretch); }
  }

  lemma {:induction false} WorkersStay(steps: seq<Step>, m: nat, n: nat, id: WorkerId)
    requires m <= n <= |steps| && id in After(steps, m).workers
    ensures id in After(steps, n).workers
    ensures After(steps, m).workers[id].IsStopping() ==> After(steps, n).workers[id].IsStopping()
    ensures Released(After(steps, m).workers[id]) ==> Released(After(steps, n).workers[id])
    decreases n
  {
    if m < n {
      WorkersStay(steps, m, n - 1, id);
      var before := After(steps, n - 1);
      if CanStep(before, steps[n - 1]) { StepKeepsFlags(before, steps[n - 1], id); }
    }
  }

  /** Once a shutdown has begun no loop of that worker starts again. */
  lemma NoLoopAfterShutdown(steps: seq<Step>, m: nat, n: nat, id: WorkerId)
    requires IsRun(steps) && m <= n <= |steps| && id in After(steps, m).workers
    requires After(steps, m).workers[id].IsStopping()
    ensures id in After(steps, n).workers && !After(steps, n).workers[id].HasRunningLoop()
  {
    WorkersStay(steps, m, n, id);
    InvariantHolds(steps, n);
    assert LocalInvariant(After(steps, n).workers[id]);
  }

  /** The lock is released only by a worker whose loops are stopped, whose boot (if one was
      under way when the shutdown began) and lock attempt have settled, and whose flush has
      been attempted; and that worker never holds the lock again. */
  lemma ReleaseComesLast(steps: seq<Step>, k: nat, id: WorkerId)
    requires IsRun(steps) && k < |steps| && steps[k] == Release(id)
    ensures id in After(steps, k).workers
    ensures var w := After(steps, k).workers[id];
            && !w.HasRunningLoop() && (w.loops.Some? ==> w.loops.value.stopped)
            && (w.awaitedStart ==> w.startup.StartSettled?)
            && (w.attempt.NoAttempt? || w.attempt.AttemptSettled?)
            && w.flushed
    ensures forall n | k < n <= |steps| :: After(steps, n).lock != Some(id) && id !in After(steps, n).lost
  {
    InvariantHolds(steps, k);
    assert CanTakeAt(steps, k);
    assert LocalInvariant(After(steps, k).workers[id]);
    forall n | k < n <= |steps|
      ensures After(steps, n).lock != Some(id) && id !in After(steps, n).lost
    {
      WorkersStay(steps, k + 1, n, id);
      InvariantHolds(steps, n);
      assert LockInvariant(After(steps, n), id);
    }
  }

  // ------------------------------------------------------------------- the objects

  /** What a step of the system is to one worker. */
  function TurnOf(step: Step, id: WorkerId): Option<Turn> {
    match step
    case Local(i, stretch) => if i == id then Some(Takes(stretch)) else None
    case Grant(i) => if i == id then Some(LockGranted) else None
    case ReportLoss(i) => if i == id then Some(LossReported) else None
    case Release(i) => if i == id then Some(LockReleased) else None
    case Die(i) => if i == id then Some(Killed) else None
    case _ => None
  }

  function TurnsOf(steps: seq<Step>, n: nat, id: WorkerId): seq<Turn>
    requires n <= |steps|
  {
    if n == 0 then []
    else
      var turn := TurnOf(steps[n - 1], id);
      TurnsOf(steps, n - 1, id) + (if turn.Some? then [turn.value] else [])
  }

  /** A step moves a worker by its own turn in it, and not at all if it has none. */
  lemma StepIsTurn(s: System, step: Step, id: WorkerId)
    requires CanStep(s, step)
    ensures id !in s.workers ==> TurnOf(step, id).None?
    ensures id in s.workers && TurnOf(step, id).None? ==>
              id in Take(s, step).workers && Take(s, step).workers[id] == s.workers[id]
    ensures id in s.workers && TurnOf(step, id).Some? ==>
              && id in Take(s, step).workers && CanTurn(s.workers[id], TurnOf(step, id).value)
              && Take(s, step).workers[id] == Turned(s.workers[id], TurnOf(step, id).value)
  {}

  /** The turns bring a new worker to where it is in the system; without it there are none. */
  predicate Follows(s: System, id: WorkerId, turns: seq<Turn>) {
    if id !in s.workers then turns == [] else CanTakeAll(FRESH, turns) && TakeAll(FRESH, turns) == s.workers[id]
  }

  lemma FollowsNext(s: System, step: Step, id: WorkerId, turns: seq<Turn>)
    requires CanStep(s, step) && Follows(s, id, turns)
    ensures TurnOf(step, id).None? ==> Follows(Take(s, step), id, turns)
    ensures TurnOf(step, id).Some? ==> Follows(Take(s, step), id, turns + [TurnOf(step, id).value])
  {
    StepIsTurn(s, step, id);
    if TurnOf(step, id).Some? { TakeAllAppend(FRESH, turns, TurnOf(step, id).value); }
  }

  /** In every run of the system each worker is where its own turns alone bring it. */
  lemma {:induction false} WorkerFollowsItsTurns(steps: seq<Step>, n: nat, id: WorkerId)
    requires IsRun(steps) && n <= |steps|
    ensures Follows(After(steps, n), id, TurnsOf(steps, n, id))
  {
    if n > 0 {
      WorkerFollowsItsTurns(steps, n - 1, id);
      assert CanTakeAt(steps, n - 1);
      FollowsNext(After(steps, n - 1), steps[n - 1], id, TurnsOf(steps, n - 1, id));
      assert TurnsOf(steps, n - 1, id) + [] == TurnsOf(steps, n - 1, id);
    }
  }

  /** So every worker object of every run, carried through its own turns, has a stop handle
      left only while it is not stopping, is watched, and holds the lock or has not been told
      that it is gone. */
  method RunWorker(steps: seq<Step>, id: WorkerId) returns (worker: BackgroundWorker)
    requires IsRun(steps) && id in After(steps, |steps|).workers
    ensures worker.Valid() && worker.View() == After(steps, |steps|).workers[id]
    ensures worker.loops != null && worker.loops.stops != [] ==>
              && !worker.stopping && worker.watching
              && (After(steps, |steps|).lock == Some(id) || id in After(steps, |steps|).lost)
  {
    WorkerFollowsItsTurns(steps, |steps|, id);
    worker := RunTurns(TurnsOf(steps, |steps|, id));
    if worker.loops != null && worker.loops.stops != [] {
      assert worker.loops.stops[0] in worker.loops.View().running;
      RunningLoopsAreLed(steps, |steps|, id);
    }
  }
}
