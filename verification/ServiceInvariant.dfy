/** What every critical section of one service keeps: the log stays legal, and the program's fields are what the log's
    digest says. */
module ServiceInvariant {
  import opened Clock
  import opened History
  import opened Lifecycle
  import opened ServiceModel
  import Wake

  predicate Undecided(stage: Stage) {
    stage.Checking? || stage.ReapingCheck? || stage.Locked?
  }

  predicate TaskMatches(c: Settings, now: Instant, d: Digest, t: Task) {
    && 0 <= d.seen <= d.activities
    && t.attempt.generation == Wrapped(d.seen)
    && t.attempt.requiresIdleTimeout == d.beganIdle
    && t.began == d.began <= now
    && d.deciding == Undecided(t.stage)
    && (d.deciding ==> !d.signalled)
    && (t.stage.Locked? ==>
          && t.began <= t.stage.at <= now
          && GenerationUnchanged(d)
          && d.leases == 0
          && (d.beganIdle ==> d.idleMark + c.idleTimeout <= t.stage.at))
    && (!d.beganIdle ==> d.drained && d.leases == 0 && d.seen == d.activities && !d.wake.Launching?)
  }

  predicate Matches(c: Settings, now: Instant, drained: bool, v: Service, d: Digest) {
    && d.lastTime <= now
    && d.drained == drained
    && v.life.inFlight == d.leases
    && v.life.generation == Wrapped(d.activities)
    && v.life.idleSince == d.idleMark
    && v.life.stopAttemptedGeneration == (if d.signalled then Some(v.life.generation) else None)
    && v.life.lastCheckFinished == d.lastFailure
    && v.life.attemptInProgress == (|v.tasks| == 1)
    && |v.tasks| == d.openAttempts <= 1
    && v.wake == d.wake
    && |v.launches| == d.openLaunches
    && (|v.tasks| == 0 ==> !d.deciding)
    && (|v.tasks| == 1 ==> TaskMatches(c, now, d, v.tasks[0]))
    && (!v.cleaner.NotSpawned? ==> drained)
    && (v.cleaner.Polling? ==> |v.tasks| == 0 && !d.signalled)
    && d.stopsSinceDrain <= 1
    && (d.stopsSinceDrain == 1 ==> drained && d.leases == 0 && d.signalled)
  }

  ghost predicate ServiceInv(c: Settings, now: Instant, drained: bool, v: Service) {
    && Legal(c.idleTimeout, v.log)
    && Matches(c, now, drained, v, DigestOf(v.log))
  }

  /** What the gate and the monitor allow: after the drain no request reaches the service any more and the monitor scans no
      more; before it nothing is prepared. */
  predicate Possible(drained: bool, a: ServiceAction) {
    if drained then !a.Arrive? && !a.Acquire? && !a.RequestLaunch? && !a.Scan? && !a.NoteDrain?
    else !a.Prepare?
  }

  function DrainedAfter(drained: bool, a: ServiceAction): bool {
    drained || a.NoteDrain?
  }

  lemma NewServiceInv(c: Settings, now: Instant)
    ensures ServiceInv(c, now, false, NewService(now))
  {
    DigestAppend([], Event(now, Created));
    assert [] + [Event(now, Created)] == [Event(now, Created)];
  }

  lemma LaterInv(c: Settings, now: Instant, later: Instant, drained: bool, v: Service)
    requires ServiceInv(c, now, drained, v) && now <= later
    ensures ServiceInv(c, later, drained, v)
  {
  }

  lemma SoleTask(v: Service, i: nat)
    requires |v.tasks| <= 1 && i < |v.tasks|
    ensures i == 0 && |v.tasks| == 1
    ensures WithoutTask(v, i).tasks == []
  {
  }

  /** What limits the stages of an attempt: a check and a stop command are cut off once 5 s have passed and no earlier, a
      child cut off is waited for 1 s, and without a checker nothing is waited for. */
  lemma StageTimers(c: Settings, now: Instant, drained: bool, v: Service, a: ServiceAction)
    requires ServiceInv(c, now, drained, v) && ServiceStep(c, now, v, a).Some?
    ensures var w := ServiceStep(c, now, v, a).value;
            match a
            case Scan(_) =>
              w.tasks == [Task(StopAttempt(v.life.generation, true), now, Checking(now + if c.hasChecker then 5 * SECOND else 0))]
            case TimeOutCheck(_) =>
              v.tasks[0].stage.deadline <= now && w.tasks == [v.tasks[0].(stage := ReapingCheck(now + 1 * SECOND))]
            case CommitStop(_) => w.tasks == [v.tasks[0].(stage := Stopping(now + 5 * SECOND))]
            case TimeOutStop(_) =>
              v.tasks[0].stage.deadline <= now && w.tasks == [v.tasks[0].(stage := ReapingStop(now + 1 * SECOND))]
            case _ => |w.tasks| <= 1
    ensures SECOND == 1_000 * MILLISECOND == 1_000_000_000
  {
    if a.TimeOutCheck? || a.CommitStop? || a.TimeOutStop? {
      SoleTask(v, a.task);
    }
  }

  lemma ArriveKeepsInv(c: Settings, now: Instant, v: Service)
    requires ServiceInv(c, now, false, v) && LockFree(v)
    ensures ServiceInv(c, now, false, ServiceStep(c, now, v, Arrive).value)
  {
    LegalAppend(c.idleTimeout, v.log, Event(now, Arrival));
    WrappedIncrement(DigestOf(v.log).activities);
  }

  lemma AcquireKeepsInv(c: Settings, now: Instant, v: Service)
    requires ServiceInv(c, now, false, v) && LockFree(v)
    ensures ServiceInv(c, now, false, ServiceStep(c, now, v, ServiceAction.Acquire).value)
  {
    LegalAppend(c.idleTimeout, v.log, Event(now, Kind.Acquire));
    WrappedIncrement(DigestOf(v.log).activities);
  }

  lemma ReleaseKeepsInv(c: Settings, now: Instant, drained: bool, v: Service)
    requires ServiceInv(c, now, drained, v) && ServiceStep(c, now, v, ServiceAction.Release).Some?
    ensures ServiceInv(c, now, drained, ServiceStep(c, now, v, ServiceAction.Release).value)
  {
    LegalAppend(c.idleTimeout, v.log, Event(now, Kind.Release));
    WrappedIncrement(DigestOf(v.log).activities);
  }

  lemma LaunchKeepsInv(c: Settings, now: Instant, drained: bool, v: Service)
    requires ServiceInv(c, now, drained, v) && !drained
    ensures ServiceInv(c, now, drained, ServiceStep(c, now, v, RequestLaunch).value)
  {
    if Wake.Startable(v.wake, now) {
      LegalAppend(c.idleTimeout, v.log, Event(now, LaunchStarted));
    }
  }

  lemma FinishLaunchKeepsInv(c: Settings, now: Instant, drained: bool, v: Service, i: nat)
    requires ServiceInv(c, now, drained, v) && i < |v.launches|
    ensures ServiceInv(c, now, drained, ServiceStep(c, now, v, FinishLaunch(i)).value)
  {
    LegalAppend(c.idleTimeout, v.log, Event(now, LaunchFinished));
    assert |v.launches[..i] + v.launches[i + 1..]| == |v.launches| - 1;
  }

  lemma BeginKeepsInv(c: Settings, now: Instant, drained: bool, v: Service, attempt: StopAttempt, at: Instant)
    requires ServiceInv(c, now, drained, v)
    requires at <= now && attempt.generation == v.life.generation
    requires if attempt.requiresIdleTimeout then
               !drained && MayBeginStop(v.life, v.wake.Launching?, c.idleTimeout, at)
             else
               drained && ShutdownDecision(v.life, v.wake.Launching?) == Ready(attempt)
    requires attempt.requiresIdleTimeout ==> c.idleTimeout > 0
    ensures ServiceInv(c, now, drained, Begun(c, v, now, attempt, at).(cleaner := if drained then Ended else v.cleaner))
  {
    LegalAppend(c.idleTimeout, v.log, Event(now, Began(attempt.requiresIdleTimeout, at)));
  }

  lemma RefusalKeepsInv(c: Settings, now: Instant, drained: bool, v: Service)
    requires ServiceInv(c, now, drained, v) && |v.tasks| == 1
    requires v.tasks[0].stage.Checking? || v.tasks[0].stage.ReapingCheck?
    ensures ServiceInv(c, now, drained,
                       EndedUnstarted(v, 0, CheckRefused(v.life, v.tasks[0].attempt, now), now, CheckFailed))
  {
    var d := DigestOf(v.log);
    SoleTask(v, 0);
    WrappedEqual(d.seen, d.activities);
    LegalAppend(c.idleTimeout, v.log, Event(now, CheckFailed));
  }

  lemma CheckKeepsInv(c: Settings, now: Instant, drained: bool, v: Service, a: ServiceAction)
    requires ServiceInv(c, now, drained, v)
    requires a.RefuseCheck? || a.ReapCheck?
    requires ServiceStep(c, now, v, a).Some?
    ensures ServiceInv(c, now, drained, ServiceStep(c, now, v, a).value)
  {
    SoleTask(v, a.task);
    RefusalKeepsInv(c, now, drained, v);
  }

  lemma CutOffKeepsInv(c: Settings, now: Instant, drained: bool, v: Service, a: ServiceAction)
    requires ServiceInv(c, now, drained, v)
    requires a.TimeOutCheck? || a.TimeOutStop?
    requires ServiceStep(c, now, v, a).Some?
    ensures ServiceInv(c, now, drained, ServiceStep(c, now, v, a).value)
  {
    SoleTask(v, a.task);
  }

  /** A shutdown attempt passes its test whenever it takes it. */
  lemma ShutdownTestPasses(c: Settings, now: Instant, drained: bool, v: Service, at: Instant)
    requires ServiceInv(c, now, drained, v) && |v.tasks| == 1 && !v.tasks[0].attempt.requiresIdleTimeout
    ensures StillAllowed(v.life, v.tasks[0].attempt, v.wake.Launching?, c.idleTimeout, at)
  {
  }

  lemma PassedKeepsInv(c: Settings, now: Instant, drained: bool, v: Service, at: Instant)
    requires ServiceInv(c, now, drained, v) && c.idleTimeout > 0 && |v.tasks| == 1 && v.tasks[0].stage.Checking?
    requires v.tasks[0].began <= at <= now
    requires StillAllowed(v.life, v.tasks[0].attempt, v.wake.Launching?, c.idleTimeout, at)
    ensures ServiceInv(c, now, drained, AtStage(v, 0, Locked(at)))
  {
    WrappedEqual(DigestOf(v.log).seen, DigestOf(v.log).activities);
  }

  lemma ObsoleteKeepsInv(c: Settings, now: Instant, drained: bool, v: Service)
    requires ServiceInv(c, now, drained, v) && |v.tasks| == 1 && v.tasks[0].stage.Checking?
    requires v.tasks[0].attempt.requiresIdleTimeout
    ensures ServiceInv(c, now, drained, EndedUnstarted(v, 0, AttemptEnded(v.life), now, Kind.Obsolete))
  {
    SoleTask(v, 0);
    LegalAppend(c.idleTimeout, v.log, Event(now, Kind.Obsolete));
  }

  /** The test and what follows it. */
  lemma AllowKeepsInv(c: Settings, now: Instant, drained: bool, v: Service, a: ServiceAction)
    requires ServiceInv(c, now, drained, v) && c.idleTimeout > 0
    requires a.AllowStop?
    requires ServiceStep(c, now, v, a).Some?
    ensures ServiceInv(c, now, drained, ServiceStep(c, now, v, a).value)
    ensures !v.tasks[a.task].attempt.requiresIdleTimeout ==>
              ServiceStep(c, now, v, a).value.tasks[a.task].stage == Locked(a.at)
  {
    SoleTask(v, a.task);
    if !v.tasks[0].attempt.requiresIdleTimeout {
      ShutdownTestPasses(c, now, drained, v, a.at);
    }
    if StillAllowed(v.life, v.tasks[0].attempt, v.wake.Launching?, c.idleTimeout, a.at) {
      PassedKeepsInv(c, now, drained, v, a.at);
    } else {
      ObsoleteKeepsInv(c, now, drained, v);
    }
  }

  lemma CommitKeepsInv(c: Settings, now: Instant, drained: bool, v: Service, i: nat)
    requires ServiceInv(c, now, drained, v) && ServiceStep(c, now, v, CommitStop(i)).Some?
    ensures ServiceInv(c, now, drained, ServiceStep(c, now, v, CommitStop(i)).value)
  {
    SoleTask(v, i);
    var t := v.tasks[0];
    LegalAppend(c.idleTimeout, v.log, Event(now, Kind.StopStarted(t.attempt.requiresIdleTimeout, t.stage.at)));
  }

  lemma FailSpawnKeepsInv(c: Settings, now: Instant, drained: bool, v: Service, i: nat)
    requires ServiceInv(c, now, drained, v) && ServiceStep(c, now, v, FailSpawn(i)).Some?
    ensures ServiceInv(c, now, drained, ServiceStep(c, now, v, FailSpawn(i)).value)
  {
    SoleTask(v, i);
    LegalAppend(c.idleTimeout, v.log, Event(now, Kind.SpawnFailed(v.tasks[0].stage.at)));
  }

  lemma StopEndKeepsInv(c: Settings, now: Instant, drained: bool, v: Service)
    requires ServiceInv(c, now, drained, v) && |v.tasks| == 1
    requires v.tasks[0].stage.Stopping? || v.tasks[0].stage.ReapingStop?
    ensures ServiceInv(c, now, drained, EndedUnstarted(v, 0, AttemptEnded(v.life), now, StopFinished))
  {
    SoleTask(v, 0);
    LegalAppend(c.idleTimeout, v.log, Event(now, StopFinished));
  }

  lemma StopKeepsInv(c: Settings, now: Instant, drained: bool, v: Service, a: ServiceAction)
    requires ServiceInv(c, now, drained, v)
    requires a.ExitStop? || a.ReapStop?
    requires ServiceStep(c, now, v, a).Some?
    ensures ServiceInv(c, now, drained, ServiceStep(c, now, v, a).value)
  {
    SoleTask(v, a.task);
    StopEndKeepsInv(c, now, drained, v);
  }

  lemma DrainKeepsInv(c: Settings, now: Instant, v: Service)
    requires ServiceInv(c, now, false, v)
    ensures ServiceInv(c, now, true, ServiceStep(c, now, v, NoteDrain).value)
  {
    LegalAppend(c.idleTimeout, v.log, Event(now, Drained));
  }

  lemma PrepareKeepsInv(c: Settings, now: Instant, v: Service)
    requires ServiceInv(c, now, true, v) && LockFree(v)
    ensures ServiceInv(c, now, true, ServiceStep(c, now, v, Prepare).value)
  {
  }

  /** While the cleaner polls, it never finds the service already signalled. */
  lemma PollKeepsInv(c: Settings, now: Instant, drained: bool, v: Service, drainDeadline: Instant)
    requires ServiceInv(c, now, drained, v)
    requires ServiceStep(c, now, v, Poll(drainDeadline)).Some?
    ensures ServiceInv(c, now, drained, ServiceStep(c, now, v, Poll(drainDeadline)).value)
    ensures drained && !ShutdownDecision(v.life, v.wake.Launching?).AlreadySignalled?
  {
    var decision := ShutdownDecision(v.life, v.wake.Launching?);
    if decision.Ready? {
      BeginKeepsInv(c, now, drained, v, decision.attempt, now);
    }
  }

  /** Every critical section of a service keeps its invariant. */
  lemma StepKeepsInv(c: Settings, now: Instant, drained: bool, v: Service, a: ServiceAction)
    requires ServiceInv(c, now, drained, v) && c.idleTimeout > 0 && Possible(drained, a)
    requires ServiceStep(c, now, v, a).Some?
    ensures ServiceInv(c, now, DrainedAfter(drained, a), ServiceStep(c, now, v, a).value)
  {
    match a
    case Arrive => ArriveKeepsInv(c, now, v);
    case Acquire => AcquireKeepsInv(c, now, v);
    case Release => ReleaseKeepsInv(c, now, drained, v);
    case RequestLaunch => LaunchKeepsInv(c, now, drained, v);
    case FinishLaunch(i) => FinishLaunchKeepsInv(c, now, drained, v, i);
    case Scan(at) => BeginKeepsInv(c, now, drained, v, StopAttempt(v.life.generation, true), at);
    case RefuseCheck(_) => CheckKeepsInv(c, now, drained, v, a);
    case TimeOutCheck(_) => CutOffKeepsInv(c, now, drained, v, a);
    case ReapCheck(_) => CheckKeepsInv(c, now, drained, v, a);
    case AllowStop(_, _) => AllowKeepsInv(c, now, drained, v, a);
    case CommitStop(i) => CommitKeepsInv(c, now, drained, v, i);
    case FailSpawn(i) => FailSpawnKeepsInv(c, now, drained, v, i);
    case ExitStop(_) => StopKeepsInv(c, now, drained, v, a);
    case TimeOutStop(_) => CutOffKeepsInv(c, now, drained, v, a);
    case ReapStop(_) => StopKeepsInv(c, now, drained, v, a);
    case NoteDrain => DrainKeepsInv(c, now, v);
    case Prepare => PrepareKeepsInv(c, now, v);
    case Poll(deadline) => PollKeepsInv(c, now, drained, v, deadline);
  }
}
