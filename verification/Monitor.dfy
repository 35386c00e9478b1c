/** The loops of the background task (src/lifecycle.rs, `IdleMonitor` and `cleanup_service_at_shutdown`). */
module Monitor {
  import opened Clock
  import opened Gate
  import opened Lifecycle

  // ---- The scan and the preparation ----

  /** Each service has records of its own. */
  ghost predicate Separate(services: seq<ServiceLifecycle>) {
    forall i, j :: 0 <= i < j < |services| ==> services[i] != services[j] && services[i].wakeTarget != services[j].wakeTarget
  }

  /** What one scan does to the record of one service. */
  function Scanned(l: LifecycleState, launching: bool, idleTimeout: Duration, now: Instant): LifecycleState {
    l.(attemptInProgress := l.attemptInProgress || MayBeginStop(l, launching, idleTimeout, now))
  }

  function ScanDecision(l: LifecycleState, launching: bool, idleTimeout: Duration, now: Instant): Option<StopAttempt> {
    if MayBeginStop(l, launching, idleTimeout, now) then Some(StopAttempt(l.generation, true)) else None
  }

  /** One scan: every service that may begin a stop does, and nothing else changes on any service. `attempts` holds what is
      spawned for each service. */
  method ScanAt(services: seq<ServiceLifecycle>, now: Instant) returns (attempts: seq<Option<StopAttempt>>)
    requires Separate(services)
    modifies services
    ensures |attempts| == |services|
    ensures forall i :: 0 <= i < |services| ==>
              && services[i].State() == Scanned(old(services[i].State()), services[i].wakeTarget.state.Launching?,
                                                services[i].idleTimeout, now)
              && attempts[i] == ScanDecision(old(services[i].State()), services[i].wakeTarget.state.Launching?,
                                             services[i].idleTimeout, now)
    ensures forall i :: 0 <= i < |services| ==>
              (attempts[i].Some? <==>
                 && old(services[i].inFlight) == 0 && !old(services[i].attemptInProgress)
                 && !services[i].wakeTarget.state.Launching?
                 && (services[i].idleTimeout > 0 ==> old(services[i].idleSince) + services[i].idleTimeout <= now)
                 && old(services[i].stopAttemptedGeneration) != Some(old(services[i].generation))
                 && (old(services[i].lastCheckFinished).Some? ==>
                       old(services[i].lastCheckFinished).value + 30 * SECOND <= now))
  {
    attempts := [];
    for i := 0 to |services|
      invariant |attempts| == i
      invariant forall k :: 0 <= k < i ==>
                  && services[k].State() == Scanned(old(services[k].State()), services[k].wakeTarget.state.Launching?,
                                                    services[k].idleTimeout, now)
                  && attempts[k] == ScanDecision(old(services[k].State()), services[k].wakeTarget.state.Launching?,
                                                 services[k].idleTimeout, now)
      invariant forall k :: i <= k < |services| ==> services[k].State() == old(services[k].State())
    {
      var attempt := services[i].BeginStopAttemptAt(now);
      attempts := attempts + [attempt];
    }
  }

  /** No attempt is in progress, and no stop is on record for the current generation. */
  predicate NeedsCleanup(service: ServiceLifecycle)
    reads service
  {
    !service.attemptInProgress && service.stopAttemptedGeneration != Some(service.generation)
  }

  /** The services that cleanup works on after the drain: those with no attempt in progress and no stop on record. */
  method PrepareAll(services: seq<ServiceLifecycle>) returns (spawned: seq<nat>)
    ensures forall i :: 0 <= i < |services| ==> (i in spawned <==> NeedsCleanup(services[i]))
    ensures forall k :: 0 <= k < |spawned| ==> spawned[k] < |services|
    ensures forall k, m :: 0 <= k < m < |spawned| ==> spawned[k] < spawned[m]
  {
    spawned := [];
    for i := 0 to |services|
      invariant forall k :: 0 <= k < i ==> (k in spawned <==> NeedsCleanup(services[k]))
      invariant forall k :: 0 <= k < |spawned| ==> spawned[k] < i
      invariant forall k, m :: 0 <= k < m < |spawned| ==> spawned[k] < spawned[m]
    {
      var preparation := services[i].PrepareShutdown();
      if preparation.CleanupNeeded? {
        spawned := spawned + [i];
      }
    }
  }

  /** The start of cleanup at shutdown, up to the join of its tasks: the gate is closed, admissions drain until 5 s have
      passed, and cleaners are spawned for exactly the services that need them, if and only if every admission is dropped in
      time. `releases` lists the instants at which admissions still held are dropped. No service is changed. */
  method CleanupAtShutdown(gate: RequestGate, services: seq<ServiceLifecycle>, now: Instant, releases: seq<Instant>)
    returns (drained: bool, end: Instant, spawned: seq<nat>)
    requires |releases| <= gate.admitted && Schedule(releases, now)
    modifies gate
    ensures !gate.accepting && (drained <==> gate.admitted == 0)
    ensures drained <==> |releases| == old(gate.admitted)
                         && (releases == [] || releases[|releases| - 1] <= now + 5 * SECOND)
    ensures end == if !drained then now + 5 * SECOND
                   else if releases == [] then now else releases[|releases| - 1]
    ensures forall i :: 0 <= i < |services| ==>
              (i in spawned <==> drained && NeedsCleanup(services[i]))
    ensures forall k, m :: 0 <= k < m < |spawned| ==> spawned[k] < spawned[m]
  {
    gate.Close();
    var passes;
    drained, end, passes := gate.WaitForDrainUntil(now, now + SHUTDOWN_DRAIN_TIMEOUT, releases);
    spawned := [];
    if drained {
      spawned := PrepareAll(services);
    }
  }

  // ---- The poll loop of one service ----

  /** The first poll at or after `t`, of polls that start at `from`. */
  function PollAt(from: Instant, t: Instant): (poll: Instant)
    ensures t <= poll && from <= poll
    decreases t - from
  {
    if t <= from then from else PollAt(from + SHUTDOWN_POLL_INTERVAL, t)
  }

  /** Polls overshoot by less than one interval. */
  lemma {:induction false} PollOvershoot(from: Instant, t: Instant)
    ensures from <= t ==> PollAt(from, t) < t + 20 * MILLISECOND
    ensures t <= from ==> PollAt(from, t) == from
    ensures (PollAt(from, t) - from) % (20 * MILLISECOND) == 0
    decreases t - from
  {
    if from < t {
      var next := from + SHUTDOWN_POLL_INTERVAL;
      PollOvershoot(next, t);
      assert PollAt(from, t) - from == PollAt(next, t) - next + SHUTDOWN_POLL_INTERVAL;
    }
  }

  function Later(a: Instant, b: Instant): Instant {
    if a < b then b else a
  }

  /** When the last lease has gone and no launch runs any more; None when that never comes. */
  function QuietAt(l: LifecycleState, launching: bool, releases: seq<Instant>, launchEnd: Option<Instant>, now: Instant)
    : Option<Instant>
  {
    if |releases| < l.inFlight || (launching && launchEnd.None?) then None
    else
      var lastRelease := if releases == [] then now else releases[|releases| - 1];
      Some(if launching then Later(lastRelease, launchEnd.value) else lastRelease)
  }

  /** The cleanup of one service after the drain, from `now`. `releases` lists the instants at which leases still held are
      dropped, and `launchEnd` is when a launch still running ends; what is not listed never comes. The service is polled
      every 20 ms. A shutdown attempt begins exactly when the service falls quiet by the first poll at or after the deadline,
      and then at the first poll that finds it quiet; otherwise the loop gives up at that first poll after the deadline. */
  method CleanupServiceAtShutdown(service: ServiceLifecycle, now: Instant, deadline: Instant, releases: seq<Instant>,
                                  launchEnd: Option<Instant>)
    returns (attempt: Option<StopAttempt>, end: Instant)
    requires NeedsCleanup(service)
    requires |releases| <= service.inFlight && Schedule(releases, now)
    requires launchEnd.Some? ==> service.wakeTarget.state.Launching? && now <= launchEnd.value
    modifies service, service.wakeTarget
    ensures var quiet := old(QuietAt(service.State(), service.wakeTarget.state.Launching?, releases, launchEnd, now));
            && (attempt.Some? <==> quiet.Some? && quiet.value <= PollAt(now, deadline))
            && end == PollAt(now, if attempt.Some? then quiet.value else deadline)
    ensures attempt.Some? ==> attempt.value == StopAttempt(service.generation, false)
    ensures service.attemptInProgress <==> attempt.Some?
    ensures attempt.Some? ==> service.inFlight == 0 && !service.wakeTarget.state.Launching?
  {
    ghost var quiet := QuietAt(service.State(), service.wakeTarget.state.Launching?, releases, launchEnd, now);
    var next, launching := 0, service.wakeTarget.state.Launching?;
    end := now;
    while true
      invariant now <= end && 0 <= next <= |releases|
      invariant !service.attemptInProgress && !Signalled(service.State())
      invariant service.inFlight == old(service.inFlight) - next
      invariant launching == service.wakeTarget.state.Launching?
      invariant !launching && old(service.wakeTarget.state.Launching?) ==> launchEnd.Some? && launchEnd.value <= end
      invariant launching ==> old(service.wakeTarget.state.Launching?)
      invariant forall k :: 0 <= k < next ==> releases[k] <= end
      invariant PollAt(end, deadline) == PollAt(now, deadline)
      invariant quiet.Some? ==> PollAt(end, quiet.value) == PollAt(now, quiet.value)
      decreases deadline - end
    {
      while next < |releases| && releases[next] <= end
        invariant 0 <= next <= |releases|
        invariant !service.attemptInProgress && !Signalled(service.State())
        invariant service.inFlight == old(service.inFlight) - next
        invariant forall k :: 0 <= k < next ==> releases[k] <= end
        modifies service
      {
        var _ := service.ReleaseAt(releases[next]);
        next := next + 1;
      }
      if launching && launchEnd.Some? && launchEnd.value <= end {
        service.wakeTarget.LaunchFinishedAt(launchEnd.value);
        launching := false;
      }
      var decision := service.BeginShutdownAttempt();
      match decision
      case Ready(ready) =>
        return Some(ready), end;
      case AlreadySignalled =>
        assert false;
      case Busy =>
        if deadline <= end {
          return None, end;
        }
        end := end + SHUTDOWN_POLL_INTERVAL;
    }
  }
}
