/** Runs under exact timers: what is on time in every state, and how long shutdown cleanup takes. */
module Punctual {
  import opened Clock
  import opened Lifecycle
  import opened Protocol
  import opened ProtocolInvariant
  import opened ServiceModel

  /** The longest an attempt lasts: the check, the stop command, and the reaping of a child that timed out. */
  const ATTEMPT_LIMIT: Duration := STOP_CHECK_TIMEOUT + STOP_COMMAND_TIMEOUT + CHILD_REAP_TIMEOUT

  /** The longest cleanup lasts: the drain, one poll begun just before its deadline, and an attempt begun by that poll. */
  const CLEANUP_LIMIT: Duration := SHUTDOWN_DRAIN_TIMEOUT + SHUTDOWN_POLL_INTERVAL + ATTEMPT_LIMIT

  /** When an attempt at this stage has ended at the latest. */
  function LatestEnd(now: Instant, stage: Stage): Instant {
    match stage
    case Checking(deadline) => deadline + STOP_COMMAND_TIMEOUT + CHILD_REAP_TIMEOUT
    case ReapingCheck(deadline) => deadline
    case Locked(_) => now + STOP_COMMAND_TIMEOUT + CHILD_REAP_TIMEOUT
    case Stopping(deadline) => deadline + CHILD_REAP_TIMEOUT
    case ReapingStop(deadline) => deadline
  }

  predicate StageOnTime(now: Instant, limit: Instant, stage: Stage) {
    now <= StageDeadline(now, stage) && LatestEnd(now, stage) <= limit
  }

  ghost predicate ServiceOnTime(now: Instant, limit: Instant, pollLimit: Instant, v: Service) {
    && (forall i :: 0 <= i < |v.tasks| ==> StageOnTime(now, limit, v.tasks[i].stage))
    && (v.cleaner.Polling? ==> now <= v.cleaner.wakeAt < pollLimit && v.cleaner.wakeAt <= now + SHUTDOWN_POLL_INTERVAL)
  }

  function TaskLimit(s: State): Instant {
    if s.monitor.Monitoring? then s.now + ATTEMPT_LIMIT else s.cleanupStart + CLEANUP_LIMIT
  }

  function PollLimit(s: State): Instant {
    DrainDeadline(s) + SHUTDOWN_POLL_INTERVAL
  }

  ghost predicate ServicesOnTime(s: State) {
    forall sid :: sid in s.services ==> ServiceOnTime(s.now, TaskLimit(s), PollLimit(s), s.services[sid])
  }

  ghost predicate MonitorOnTime(s: State) {
    && (s.monitor.DrainTest? || s.monitor.DrainWait? || s.monitor.Preparing? ==> s.now <= DrainDeadline(s))
    && (!s.monitor.Monitoring? && !s.monitor.Stopped? ==> s.cleanupStart <= s.now <= s.cleanupStart + CLEANUP_LIMIT)
    && (s.monitor.Monitoring? ==> s.now <= s.scanDue <= s.now + IDLE_SCAN_INTERVAL)
    && (s.unscanned != {} ==> s.scanReading == s.now)
    && (s.phase.Requested? ==> if s.monitor.Monitoring? then s.now == s.requestedAt else s.cleanupStart == s.requestedAt)
  }

  ghost predicate OnTime(s: State) {
    ServicesOnTime(s) && MonitorOnTime(s)
  }

  // ---- Services ----

  predicate EndsTask(a: ServiceAction) {
    a.RefuseCheck? || a.ReapCheck? || a.FailSpawn? || a.ExitStop? || a.ReapStop?
  }

  predicate MovesTask(a: ServiceAction) {
    a.TimeOutCheck? || a.CommitStop? || a.TimeOutStop?
  }

  lemma MoveOnTime(c: Settings, now: Instant, limit: Instant, pollLimit: Instant, v: Service, a: ServiceAction)
    requires ServiceOnTime(now, limit, pollLimit, v) && ServiceStep(c, now, v, a).Some? && MovesTask(a)
    ensures ServiceOnTime(now, limit, pollLimit, ServiceStep(c, now, v, a).value)
  {
    assert StageOnTime(now, limit, v.tasks[a.task].stage);
  }

  lemma EndOnTime(c: Settings, now: Instant, limit: Instant, pollLimit: Instant, v: Service, a: ServiceAction)
    requires ServiceOnTime(now, limit, pollLimit, v) && ServiceStep(c, now, v, a).Some? && EndsTask(a)
    ensures ServiceOnTime(now, limit, pollLimit, ServiceStep(c, now, v, a).value)
  {
    var w := ServiceStep(c, now, v, a).value;
    assert w.tasks == WithoutTask(v, a.task).tasks && w.cleaner == v.cleaner;
  }

  lemma AllowOnTime(c: Settings, now: Instant, limit: Instant, pollLimit: Instant, v: Service, a: ServiceAction)
    requires ServiceOnTime(now, limit, pollLimit, v) && ServiceStep(c, now, v, a).Some? && a.AllowStop?
    ensures ServiceOnTime(now, limit, pollLimit, ServiceStep(c, now, v, a).value)
  {
    assert StageOnTime(now, limit, v.tasks[a.task].stage);
  }

  lemma StepOnTime(c: Settings, now: Instant, limit: Instant, pollLimit: Instant, v: Service, a: ServiceAction)
    requires ServiceOnTime(now, limit, pollLimit, v) && ServiceStep(c, now, v, a).Some?
    requires a.Scan? || a.Poll? ==> now + ATTEMPT_LIMIT <= limit
    requires a.Poll? && now < a.drainDeadline ==> now + SHUTDOWN_POLL_INTERVAL < pollLimit
    requires a.Prepare? ==> now < pollLimit
    ensures ServiceOnTime(now, limit, pollLimit, ServiceStep(c, now, v, a).value)
  {
    if MovesTask(a) {
      MoveOnTime(c, now, limit, pollLimit, v, a);
    } else if EndsTask(a) {
      EndOnTime(c, now, limit, pollLimit, v, a);
    } else if a.AllowStop? {
      AllowOnTime(c, now, limit, pollLimit, v, a);
    }
  }

  lemma OnServiceOnTime(c: Config, s: State, sid: ServiceId, a: ServiceAction)
    requires ServicesOnTime(s) && OnService(c, s, sid, a).Some?
    requires a.Scan? || a.Poll? ==> s.now + ATTEMPT_LIMIT <= TaskLimit(s)
    requires a.Poll? ==> a.drainDeadline == DrainDeadline(s)
    requires a.Prepare? ==> s.now <= DrainDeadline(s)
    ensures ServicesOnTime(OnService(c, s, sid, a).value)
  {
    StepOnTime(c[sid], s.now, TaskLimit(s), PollLimit(s), s.services[sid], a);
  }

  lemma TaskOnTime(c: Config, s: State, sid: ServiceId, work: ServiceAction)
    requires OnTime(s) && OrderOk(s) && TaskWork(s, work) && OnService(c, s, sid, work).Some?
    requires s.monitor.Monitoring? ==> !s.services[sid].cleaner.Polling?
    ensures OnTime(OnService(c, s, sid, work).value)
  {
    OnServiceOnTime(c, s, sid, work);
  }

  // ---- Requests ----

  lemma RequestOnTime(c: Config, s: State, r: RequestId, a: RequestAction)
    requires OnTime(s) && RequestStep(c, s, r, a).Some?
    ensures OnTime(RequestStep(c, s, r, a).value)
  {
    RequestStepServices(c, s, r, a);
    var s' := RequestStep(c, s, r, a).value;
    assert s'.cleanupStart == s.cleanupStart && s'.requestedAt == s.requestedAt;
    if TouchesService(a) {
      OnServiceOnTime(c, s, Touched(s.requests[r], a).value, ServiceActionOf(a));
    }
  }

  // ---- The scan ----

  lemma ScanOnTime(c: Config, s: State, a: ScanAction)
    requires OnTime(s) && ScanStep(c, s, a).Some?
    ensures OnTime(ScanStep(c, s, a).value)
  {
    ScanStepServices(c, s, a);
    if a.BeginScan? {
      assert s.now == s.scanDue;
    } else if OnService(c, s, a.sid, Scan(s.scanReading)).Some? {
      OnServiceOnTime(c, s, a.sid, Scan(s.scanReading));
    }
  }

  // ---- Shutdown ----

  lemma ShutdownOnTime(c: Config, s: State, a: ShutdownAction)
    requires OnTime(s) && ShutdownOk(s) && ShutdownStep(c, s, a).Some?
    requires s.monitor.Monitoring? ==> forall sid :: sid in s.services ==> !s.services[sid].cleaner.Polling?
    ensures OnTime(ShutdownStep(c, s, a).value)
  {
    if a.PrepareService? {
      OnServiceOnTime(c, s, a.sid, Prepare);
    }
  }

  // ---- Time ----

  lemma ServiceTick(now: Instant, later: Instant, limit: Instant, laterLimit: Instant, pollLimit: Instant, v: Service)
    requires ServiceOnTime(now, limit, pollLimit, v) && ServiceAllows(now, v, later)
    requires now <= later && limit <= laterLimit
    ensures ServiceOnTime(later, laterLimit, pollLimit, v)
    ensures v.tasks != [] ==> later <= limit
    ensures v.cleaner.Polling? ==> later < pollLimit
  {
    forall i | 0 <= i < |v.tasks|
      ensures StageOnTime(later, laterLimit, v.tasks[i].stage)
    {
      assert StageOnTime(now, limit, v.tasks[i].stage);
    }
    if v.tasks != [] {
      assert StageOnTime(now, limit, v.tasks[0].stage);
    }
  }

  lemma MonitorTick(c: Config, s: State, elapsed: Duration)
    requires OnTime(s) && ShutdownOk(s) && PunctualTick(c, s, Tick(elapsed))
    ensures MonitorOnTime(s.(now := s.now + elapsed))
  {
    if s.monitor.Joining? && !TasksJoined(s) {
      var sid :| sid in s.services && (s.services[sid].tasks != [] || s.services[sid].cleaner.Polling?);
      ServiceTick(s.now, s.now + elapsed, TaskLimit(s), TaskLimit(s), PollLimit(s), s.services[sid]);
    }
  }

  lemma TickOnTime(c: Config, s: State, elapsed: Duration)
    requires OnTime(s) && ShutdownOk(s) && PunctualTick(c, s, Tick(elapsed))
    ensures OnTime(s.(now := s.now + elapsed))
  {
    var s' := s.(now := s.now + elapsed);
    MonitorTick(c, s, elapsed);
    forall sid | sid in s.services
      ensures ServiceOnTime(s'.now, TaskLimit(s'), PollLimit(s'), s.services[sid])
    {
      ServiceTick(s.now, s'.now, TaskLimit(s), TaskLimit(s'), PollLimit(s), s.services[sid]);
    }
  }

  // ---- Every action ----

  lemma NoPollingBeforeDrain(c: Config, s: State)
    requires ServicesOk(c, s.now, false, s.services)
    ensures forall sid :: sid in s.services ==> !s.services[sid].cleaner.Polling?
  {
    forall sid | sid in s.services
      ensures !s.services[sid].cleaner.Polling?
    {
      assert ServiceOk(c, s.now, false, s.services, sid);
    }
  }

  lemma ActionOnTime(c: Config, s: State, a: Action)
    requires OnTime(s) && OrderOk(s) && Step(c, s, a).Some? && PunctualTick(c, s, a)
    requires s.monitor.Monitoring? ==> forall sid :: sid in s.services ==> !s.services[sid].cleaner.Polling?
    ensures OnTime(Step(c, s, a).value)
  {
    match a
    case OfRequest(r, request) => RequestOnTime(c, s, r, request);
    case OfService(sid, work) => TaskOnTime(c, s, sid, work);
    case OfScan(scan) => ScanOnTime(c, s, scan);
    case OfShutdown(shutdown) => ShutdownOnTime(c, s, shutdown);
    case Tick(elapsed) => TickOnTime(c, s, elapsed);
  }

  lemma NextOnTime(c: Config, states: seq<State>, actions: seq<Action>, i: nat)
    requires ValidConfig(c) && PunctualRun(c, states, actions) && i < |actions| && OnTime(states[i])
    ensures OnTime(states[i + 1])
  {
    RunInv(c, states, actions, i);
    assert StepsTo(c, states, actions, i);
    assert PunctualTick(c, states[i], actions[i]);
    if states[i].monitor.Monitoring? {
      NoPollingBeforeDrain(c, states[i]);
    }
    ActionOnTime(c, states[i], actions[i]);
  }

  lemma {:induction false} RunOnTime(c: Config, states: seq<State>, actions: seq<Action>, i: nat)
    requires ValidConfig(c) && PunctualRun(c, states, actions) && i < |states|
    ensures OnTime(states[i])
  {
    if i > 0 {
      RunOnTime(c, states, actions, i - 1);
      NextOnTime(c, states, actions, i - 1);
    }
  }

  /** Cleanup time bound: under exact timers, while cleanup runs no more than 16.02 s have passed since it began, whatever
      the number of services. */
  lemma CleanupWithinLimit(c: Config, states: seq<State>, actions: seq<Action>, i: nat)
    requires ValidConfig(c) && PunctualRun(c, states, actions) && i < |states|
    ensures var s := states[i];
            !s.monitor.Monitoring? && !s.monitor.Stopped? ==> s.cleanupStart <= s.now <= s.cleanupStart + 16_020 * MILLISECOND
  {
    RunOnTime(c, states, actions, i);
  }

  /** The coordination wait of 20 s always succeeds: 16.02 s after shutdown was first requested, cleanup has completed. */
  lemma CoordinationSucceeds(c: Config, states: seq<State>, actions: seq<Action>, i: nat)
    requires ValidConfig(c) && PunctualRun(c, states, actions) && i < |states|
    requires !states[i].phase.Running?
    ensures states[i].requestedAt + 16_020 * MILLISECOND < states[i].now ==> states[i].phase.Completed?
    ensures states[i].requestedAt + 20 * SECOND <= states[i].now ==> states[i].phase.Completed?
  {
    RunOnTime(c, states, actions, i);
    RunInv(c, states, actions, i);
  }
}
