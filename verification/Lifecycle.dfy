/** The per-service lifecycle record and its critical sections (src/lifecycle.rs, `ServiceLifecycle`). */
module Lifecycle {
  import opened Clock
  import Wake

  const IDLE_SCAN_INTERVAL: Duration := 100 * MILLISECOND
  const STOP_CHECK_TIMEOUT: Duration := 5 * SECOND
  const STOP_CHECK_RETRY: Duration := 30 * SECOND
  const STOP_COMMAND_TIMEOUT: Duration := 5 * SECOND
  const CHILD_REAP_TIMEOUT: Duration := 1 * SECOND
  const SHUTDOWN_DRAIN_TIMEOUT: Duration := 5 * SECOND
  const SHUTDOWN_POLL_INTERVAL: Duration := 20 * MILLISECOND

  datatype LifecycleState = LifecycleState(
    inFlight: nat,
    idleSince: Instant,
    generation: U64,
    attemptInProgress: bool,
    lastCheckFinished: Option<Instant>,
    stopAttemptedGeneration: Option<U64>)

  datatype StopAttempt = StopAttempt(generation: U64, requiresIdleTimeout: bool)

  datatype ShutdownPreparation = CleanupNeeded | ExistingAttempt | PreparedAlready

  datatype ShutdownAttempt = Ready(attempt: StopAttempt) | Busy | AlreadySignalled

  datatype StopStart = Started | Obsolete | Failed

  function Initial(now: Instant): LifecycleState {
    LifecycleState(0, now, 0, false, None, None)
  }

  /** What every activity does: a new generation, with no check failure and no stop recorded against it. */
  function NewGeneration(l: LifecycleState): LifecycleState {
    l.(generation := WrappingIncrement(l.generation), lastCheckFinished := None, stopAttemptedGeneration := None)
  }

  function Arrived(l: LifecycleState, now: Instant): LifecycleState {
    NewGeneration(l.(idleSince := now))
  }

  function Acquired(l: LifecycleState): LifecycleState {
    NewGeneration(l.(inFlight := l.inFlight + 1))
  }

  /** None stands for the panic on a lease that matches no request in flight. */
  function Released(l: LifecycleState, now: Instant): Option<LifecycleState> {
    if l.inFlight == 0 then None
    else Some(NewGeneration(l.(inFlight := l.inFlight - 1, idleSince := now)))
  }

  predicate IdleLongEnough(l: LifecycleState, idleTimeout: Duration, now: Instant) {
    SaturatingSince(now, l.idleSince) >= idleTimeout
  }

  predicate Signalled(l: LifecycleState) {
    l.stopAttemptedGeneration == Some(l.generation)
  }

  predicate RetryCoolingDown(l: LifecycleState, now: Instant) {
    l.lastCheckFinished.Some? && SaturatingSince(now, l.lastCheckFinished.value) < STOP_CHECK_RETRY
  }

  predicate MayBeginStop(l: LifecycleState, launching: bool, idleTimeout: Duration, now: Instant) {
    && l.inFlight == 0
    && !l.attemptInProgress
    && !launching
    && IdleLongEnough(l, idleTimeout, now)
    && !Signalled(l)
    && !RetryCoolingDown(l, now)
  }

  function Preparation(l: LifecycleState): ShutdownPreparation {
    if l.attemptInProgress then ExistingAttempt
    else if Signalled(l) then PreparedAlready
    else CleanupNeeded
  }

  function ShutdownDecision(l: LifecycleState, launching: bool): ShutdownAttempt {
    if Signalled(l) then AlreadySignalled
    else if l.inFlight != 0 || l.attemptInProgress || launching then Busy
    else Ready(StopAttempt(l.generation, false))
  }

  function CheckRefused(l: LifecycleState, attempt: StopAttempt, now: Instant): LifecycleState {
    var ended := l.(attemptInProgress := false);
    if l.generation == attempt.generation && l.inFlight == 0 then ended.(lastCheckFinished := Some(now)) else ended
  }

  /** The test under which an allowed attempt goes on to spawn the stop command. */
  predicate StillAllowed(l: LifecycleState, attempt: StopAttempt, launching: bool, idleTimeout: Duration, now: Instant) {
    && l.generation == attempt.generation
    && l.inFlight == 0
    && !launching
    && (attempt.requiresIdleTimeout ==> IdleLongEnough(l, idleTimeout, now))
  }

  function AttemptEnded(l: LifecycleState): LifecycleState {
    l.(attemptInProgress := false)
  }

  function StopRecorded(l: LifecycleState): LifecycleState {
    l.(stopAttemptedGeneration := Some(l.generation))
  }

  function SpawnFailureRecorded(l: LifecycleState, now: Instant): LifecycleState {
    l.(attemptInProgress := false, lastCheckFinished := Some(now))
  }

  class ServiceLifecycle {
    const idleTimeout: Duration
    const wakeTarget: Wake.WakeTarget
    var inFlight: nat
    var idleSince: Instant
    var generation: U64
    var attemptInProgress: bool
    var lastCheckFinished: Option<Instant>
    var stopAttemptedGeneration: Option<U64>

    function State(): LifecycleState
      reads this
    {
      LifecycleState(inFlight, idleSince, generation, attemptInProgress, lastCheckFinished, stopAttemptedGeneration)
    }

    /** A new generation has begun, with no check failure and no stop on record. */
    predicate NextGeneration(before: U64)
      reads this
    {
      && generation == (if before == 0xFFFF_FFFF_FFFF_FFFF then 0 else before + 1)
      && lastCheckFinished.None? && stopAttemptedGeneration.None?
    }

    constructor (idleTimeout: Duration, wakeTarget: Wake.WakeTarget, now: Instant)
      ensures this.idleTimeout == idleTimeout && this.wakeTarget == wakeTarget && State() == Initial(now)
      ensures inFlight == 0 && idleSince == now && generation == 0 && !attemptInProgress
      ensures lastCheckFinished.None? && stopAttemptedGeneration.None?
    {
      this.idleTimeout, this.wakeTarget := idleTimeout, wakeTarget;
      inFlight, idleSince, generation := 0, now, 0;
      attemptInProgress, lastCheckFinished, stopAttemptedGeneration := false, None, None;
    }

    method NoteRequestArrivalAt(now: Instant)
      modifies this
      ensures inFlight == old(inFlight) && idleSince == now && NextGeneration(old(generation))
      ensures attemptInProgress == old(attemptInProgress)
      ensures State() == Arrived(old(State()), now)
    {
      idleSince := now;
      generation := WrappingIncrement(generation);
      lastCheckFinished := None;
      stopAttemptedGeneration := None;
    }

    method Acquire()
      modifies this
      ensures inFlight == old(inFlight) + 1 && idleSince == old(idleSince) && NextGeneration(old(generation))
      ensures attemptInProgress == old(attemptInProgress)
      ensures State() == Acquired(old(State()))
    {
      inFlight := inFlight + 1;
      generation := WrappingIncrement(generation);
      lastCheckFinished := None;
      stopAttemptedGeneration := None;
    }

    /** `ok` is false where the original panics. */
    method ReleaseAt(now: Instant) returns (ok: bool)
      modifies this
      ensures ok <==> old(inFlight) > 0
      ensures ok ==> inFlight == old(inFlight) - 1 && idleSince == now && NextGeneration(old(generation))
      ensures attemptInProgress == old(attemptInProgress)
      ensures ok <==> Released(old(State()), now).Some?
      ensures State() == if ok then Released(old(State()), now).value else old(State())
    {
      if inFlight == 0 {
        return false;
      }
      inFlight := inFlight - 1;
      idleSince := now;
      generation := WrappingIncrement(generation);
      lastCheckFinished := None;
      stopAttemptedGeneration := None;
      return true;
    }

    method BeginStopAttemptAt(now: Instant) returns (attempt: Option<StopAttempt>)
      modifies this
      ensures attempt.Some? <==>
                && old(inFlight) == 0 && !old(attemptInProgress) && !wakeTarget.state.Launching?
                && (idleTimeout > 0 ==> idleSince + idleTimeout <= now)
                && stopAttemptedGeneration != Some(generation)
                && (lastCheckFinished.Some? ==> lastCheckFinished.value + 30 * SECOND <= now)
      ensures attempt.Some? <==> MayBeginStop(old(State()), wakeTarget.state.Launching?, idleTimeout, now)
      ensures attempt.Some? ==> attempt.value == StopAttempt(generation, true)
      ensures State() == old(State()).(attemptInProgress := old(attemptInProgress) || attempt.Some?)
    {
      if inFlight != 0 || attemptInProgress {
        return None;
      }
      var launching := wakeTarget.LaunchInProgress();
      if launching || SaturatingSince(now, idleSince) < idleTimeout || stopAttemptedGeneration == Some(generation) {
        return None;
      }
      match lastCheckFinished {
        case Some(finished) =>
          if SaturatingSince(now, finished) < STOP_CHECK_RETRY {
            return None;
          }
        case None =>
      }
      attemptInProgress := true;
      return Some(StopAttempt(generation, true));
    }

    method PrepareShutdown() returns (preparation: ShutdownPreparation)
      ensures preparation.CleanupNeeded? <==> !attemptInProgress && stopAttemptedGeneration != Some(generation)
      ensures preparation.ExistingAttempt? <==> attemptInProgress
      ensures preparation == Preparation(State())
    {
      if attemptInProgress {
        preparation := ExistingAttempt;
      } else if stopAttemptedGeneration == Some(generation) {
        preparation := PreparedAlready;
      } else {
        preparation := CleanupNeeded;
      }
    }

    method BeginShutdownAttempt() returns (decision: ShutdownAttempt)
      modifies this
      ensures decision.AlreadySignalled? <==> stopAttemptedGeneration == Some(generation)
      ensures decision.Ready? <==>
                && stopAttemptedGeneration != Some(generation)
                && inFlight == 0 && !old(attemptInProgress) && !wakeTarget.state.Launching?
      ensures decision.Ready? ==> decision.attempt == StopAttempt(generation, false)
      ensures decision == ShutdownDecision(old(State()), wakeTarget.state.Launching?)
      ensures State() == old(State()).(attemptInProgress := old(attemptInProgress) || decision.Ready?)
    {
      if stopAttemptedGeneration == Some(generation) {
        return AlreadySignalled;
      }
      if inFlight != 0 || attemptInProgress {
        return Busy;
      }
      var launching := wakeTarget.LaunchInProgress();
      if launching {
        return Busy;
      }
      attemptInProgress := true;
      return Ready(StopAttempt(generation, false));
    }

    method FinishVetoedAttemptAt(attempt: StopAttempt, now: Instant)
      modifies this
      ensures !attemptInProgress
      ensures lastCheckFinished == if generation == attempt.generation && inFlight == 0 then Some(now) else old(lastCheckFinished)
      ensures inFlight == old(inFlight) && idleSince == old(idleSince) && generation == old(generation)
      ensures stopAttemptedGeneration == old(stopAttemptedGeneration)
      ensures State() == CheckRefused(old(State()), attempt, now)
    {
      attemptInProgress := false;
      if generation == attempt.generation && inFlight == 0 {
        lastCheckFinished := Some(now);
      }
    }

    /** `spawned` is the outcome of spawning the stop command, which happens only when the test passes. */
    method StartAllowedAttemptAt(attempt: StopAttempt, now: Instant, spawned: bool) returns (start: StopStart)
      modifies this, wakeTarget
      ensures start.Obsolete? <==>
                || generation != attempt.generation || inFlight != 0 || old(wakeTarget.state).Launching?
                || (attempt.requiresIdleTimeout && idleTimeout > 0 && now < idleSince + idleTimeout)
      ensures !start.Obsolete? ==> (start.Started? <==> spawned)
      ensures attemptInProgress == if start.Started? then old(attemptInProgress) else false
      ensures stopAttemptedGeneration == if start.Started? then Some(generation) else old(stopAttemptedGeneration)
      ensures lastCheckFinished == if start.Failed? then Some(now) else old(lastCheckFinished)
      ensures inFlight == old(inFlight) && idleSince == old(idleSince) && generation == old(generation)
      ensures start == if !StillAllowed(old(State()), attempt, old(wakeTarget.state).Launching?, idleTimeout, now) then Obsolete
                       else if spawned then Started else Failed
      ensures State() == match start
                         case Obsolete => AttemptEnded(old(State()))
                         case Started => StopRecorded(old(State()))
                         case Failed => SpawnFailureRecorded(old(State()), now)
      ensures wakeTarget.state == if start.Started? then Wake.Eligible else old(wakeTarget.state)
    {
      var launching := wakeTarget.LaunchInProgress();
      if || generation != attempt.generation
         || inFlight != 0
         || launching
         || (attempt.requiresIdleTimeout && SaturatingSince(now, idleSince) < idleTimeout)
      {
        attemptInProgress := false;
        return Obsolete;
      }
      if spawned {
        wakeTarget.AllowLaunchAfterStop();
        stopAttemptedGeneration := Some(generation);
        return Started;
      }
      attemptInProgress := false;
      lastCheckFinished := Some(now);
      return Failed;
    }

    method FinishStartedStopCommand()
      modifies this`attemptInProgress
      ensures !attemptInProgress
      ensures State() == AttemptEnded(old(State()))
    {
      attemptInProgress := false;
    }
  }
}
