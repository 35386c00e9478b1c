/** What holds as well in a run of prompt requests: at most one kickstart at a time, and an attempt that sees no activity
    never finds its decision obsolete. */
module PromptInvariant {
  import opened Clock
  import opened ServiceModel
  import opened ServiceInvariant
  import opened History
  import opened HistoryTheorems
  import opened Lifecycle
  import Wake

  predicate PromptDigest(idleTimeout: Duration, d: Digest) {
    && d.openLaunches == (if d.wake.Launching? then 1 else 0)
    && (d.deciding && d.beganIdle && d.seen == d.activities ==>
          d.leases == 0 && d.idleMark + idleTimeout <= d.began && !d.wake.Launching?)
  }

  /** Between the test of an attempt and its commit no launch is in progress. */
  predicate NoLaunchUnderLock(v: Service) {
    v.wake.Launching? ==> LockFree(v)
  }

  ghost predicate PromptServiceInv(c: Settings, v: Service) {
    && PromptLegal(v.log)
    && PromptDigest(c.idleTimeout, DigestOf(v.log))
    && NoLaunchUnderLock(v)
  }

  /** A launch is requested only while the service's idle clock is younger than its idle timeout. */
  predicate PromptPossible(c: Settings, now: Instant, drained: bool, v: Service, a: ServiceAction) {
    && Possible(drained, a)
    && (a.RequestLaunch? ==> now < v.life.idleSince + c.idleTimeout)
  }

  lemma NewPromptServiceInv(c: Settings, now: Instant)
    ensures PromptServiceInv(c, NewService(now))
  {
    DigestAppend([], Event(now, Created));
    assert [] + [Event(now, Created)] == [Event(now, Created)];
  }

  /** The event that a step logs, if it logs one. */
  lemma LoggedBy(c: Settings, now: Instant, v: Service, a: ServiceAction) returns (e: Option<Event>)
    requires ServiceStep(c, now, v, a).Some?
    ensures ServiceStep(c, now, v, a).value.log == (if e.None? then v.log else v.log + [e.value])
    ensures e.Some? ==> e.value.time == now
    ensures e.Some? ==>
              match a
              case Arrive => e.value.kind.Arrival?
              case Acquire => e.value.kind.Acquire?
              case Release => e.value.kind.Release?
              case RequestLaunch => e.value == Event(now, LaunchStarted) && Wake.Startable(v.wake, now)
              case FinishLaunch(_) => e.value.kind.LaunchFinished?
              case Scan(at) => e.value == Event(now, Began(true, at))
              case Poll(_) => e.value.kind.Began? && !e.value.kind.idle
              case AllowStop(i, _) =>
                e.value.kind.Obsolete? && i < |v.tasks|
                && !StillAllowed(v.life, v.tasks[i].attempt, v.wake.Launching?, c.idleTimeout, a.at)
              case CommitStop(i) => e.value.kind.StopStarted? && i < |v.tasks| && v.tasks[i].stage.Locked?
              case NoteDrain => e.value.kind.Drained?
              case _ => e.value.kind.CheckFailed? || e.value.kind.SpawnFailed? || e.value.kind.StopFinished?
  {
    var after := ServiceStep(c, now, v, a).value.log;
    e := if |after| == |v.log| then None else Some(after[|after| - 1]);
  }

  lemma EventIsPromptSound(c: Settings, now: Instant, drained: bool, v: Service, a: ServiceAction, e: Event)
    requires ServiceInv(c, now, drained, v) && PromptServiceInv(c, v) && c.idleTimeout > 0
    requires PromptPossible(c, now, drained, v, a)
    requires ServiceStep(c, now, v, a).Some?
    requires e.kind.Obsolete? ==>
               a.AllowStop? && a.task < |v.tasks|
               && !StillAllowed(v.life, v.tasks[a.task].attempt, v.wake.Launching?, c.idleTimeout, a.at)
    requires e.kind.StopStarted? ==> a.CommitStop? && a.task < |v.tasks| && v.tasks[a.task].stage.Locked?
    requires e.kind.LaunchStarted? ==> Wake.Startable(v.wake, now)
    ensures PromptSound(DigestOf(v.log), e)
  {
    var d := DigestOf(v.log);
    if e.kind.Obsolete? {
      SoleTask(v, a.task);
      WrappedEqual(d.seen, d.activities);
    }
  }

  lemma EventKeepsPromptDigest(idleTimeout: Duration, d: Digest, e: Event)
    requires PromptDigest(idleTimeout, d) && Sound(idleTimeout, d, e) && PromptSound(d, e)
    requires 0 <= d.seen <= d.activities && d.began <= d.lastTime
    requires e.kind.LaunchStarted? ==> e.time < d.idleMark + idleTimeout
    ensures PromptDigest(idleTimeout, Absorb(d, e))
  {
  }

  /** The gap between test and commit: a launch request of a prompt request finds the lock free, since the lock is held
      only with the idle clock at its timeout or, at shutdown, after the drain. */
  lemma NoLaunchInTheGap(c: Settings, now: Instant, drained: bool, v: Service)
    requires ServiceInv(c, now, drained, v) && !drained
    requires now < v.life.idleSince + c.idleTimeout
    ensures LockFree(v)
  {
    if !LockFree(v) {
      var i :| 0 <= i < |v.tasks| && v.tasks[i].stage.Locked?;
      SoleTask(v, i);
    }
  }

  lemma StepKeepsNoLaunchUnderLock(c: Settings, now: Instant, drained: bool, v: Service, a: ServiceAction)
    requires NoLaunchUnderLock(v) && ServiceStep(c, now, v, a).Some?
    requires |v.tasks| <= 1
    requires a.RequestLaunch? ==> LockFree(v)
    ensures NoLaunchUnderLock(ServiceStep(c, now, v, a).value)
  {
  }

  lemma SoundEvent(idleTimeout: Duration, log: Log, e: Event)
    requires log != [] && Legal(idleTimeout, log + [e])
    ensures Sound(idleTimeout, DigestOf(log), e)
  {
    assert SoundAt(idleTimeout, log + [e], |log|);
    assert (log + [e])[..|log|] == log;
  }

  lemma PromptStepKeepsInv(c: Settings, now: Instant, drained: bool, v: Service, a: ServiceAction)
    requires ServiceInv(c, now, drained, v) && PromptServiceInv(c, v) && c.idleTimeout > 0
    requires PromptPossible(c, now, drained, v, a)
    requires ServiceStep(c, now, v, a).Some?
    ensures PromptServiceInv(c, ServiceStep(c, now, v, a).value)
  {
    var e := LoggedBy(c, now, v, a);
    if e.Some? {
      EventIsPromptSound(c, now, drained, v, a, e.value);
      PromptLegalAppend(v.log, e.value);
      StepKeepsInv(c, now, drained, v, a);
      SoundEvent(c.idleTimeout, v.log, e.value);
      SeenInRange(c.idleTimeout, v.log);
      EventKeepsPromptDigest(c.idleTimeout, DigestOf(v.log), e.value);
      DigestAppend(v.log, e.value);
    }
    if a.RequestLaunch? {
      NoLaunchInTheGap(c, now, drained, v);
    }
    StepKeepsNoLaunchUnderLock(c, now, drained, v, a);
  }

  lemma SeenInRange(idleTimeout: Duration, log: Log)
    requires Legal(idleTimeout, log)
    ensures 0 <= DigestOf(log).seen <= DigestOf(log).activities && DigestOf(log).began <= DigestOf(log).lastTime
  {
    DigestInRange(idleTimeout, log);
  }
}
