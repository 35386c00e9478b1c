/** The whole gateway as a timed transition system: requests, kickstarts, stop attempts, the idle monitor and shutdown,
    interleaved one critical section at a time over the gate, the shutdown phase and every service. */
module Protocol {
  import opened Clock
  import opened Gate
  import opened ServiceModel
  import opened History
  import Lifecycle

  type ServiceId = nat
  type RequestId = nat

  type Config = map<ServiceId, Settings>

  /** Idle timeouts are nonzero whole seconds. */
  ghost predicate ValidConfig(c: Config) {
    forall sid :: sid in c ==> c[sid].idleTimeout >= SECOND
  }

  /** Where a request stands. `Probing` lasts from its arrival at the lifecycle to the outcome of the readiness probe;
      `Cold` has asked for a launch; `Done` no longer counts for anything once its guards are dropped. */
  datatype RequestStage =
    | Fresh
    | Rejected
    | Probing(sid: ServiceId, since: Instant)
    | Cold(sid: ServiceId)
    | Warm(sid: ServiceId)
    | Leased(sid: ServiceId)
    | Done

  datatype Request = Request(stage: RequestStage, admission: bool, lease: Option<ServiceId>)

  /** The background task. `DrainTest` and `DrainWait` are the passes of the drain wait. */
  datatype Monitor =
    | Monitoring
    | DrainTest(pass: nat)
    | DrainWait(pass: nat)
    | Preparing(todo: set<ServiceId>)
    | Joining
    | Stopped

  /** `unscanned` holds the services that the scan under way has still to visit, `scanReading` is the clock reading that it
      works with, and `scanDue` is when the next scan is due. */
  datatype State = State(
    now: Instant,
    gate: GateState,
    phase: Phase,
    requestedAt: Instant,
    monitor: Monitor,
    cleanupStart: Instant,
    drained: bool,
    unscanned: set<ServiceId>,
    scanReading: Instant,
    scanDue: Instant,
    services: map<ServiceId, Service>,
    requests: map<RequestId, Request>)

  datatype RequestAction =
    | Admit
    | Arrive(sid: ServiceId)
    | FindReady
    | AskLaunch
    | TakeLease
    | HandOff
    | DropLease
    | DropAdmission

  datatype ScanAction = BeginScan | Visit(sid: ServiceId)

  datatype ShutdownAction =
    | CloseGate
    | MarkRequested
    | StartCleanup
    | TestDrain
    | WakeFromDrain
    | TimeOutDrain
    | PrepareService(sid: ServiceId)
    | FinishPreparing
    | Complete

  /** What happens next: a request moves on, a task works on a service, the idle monitor scans, shutdown moves on, or time
      passes. */
  datatype Action =
    | OfRequest(r: RequestId, request: RequestAction)
    | OfService(sid: ServiceId, work: ServiceAction)
    | OfScan(scan: ScanAction)
    | OfShutdown(shutdown: ShutdownAction)
    | Tick(elapsed: Duration)

  function DrainDeadline(s: State): Instant {
    s.cleanupStart + Lifecycle.SHUTDOWN_DRAIN_TIMEOUT
  }

  function Start(c: Config, now: Instant): State {
    State(now, OPEN_GATE, Running, 0, Monitoring, 0, false, {}, now, now, map sid | sid in c :: NewService(now), map[])
  }

  /** One critical section of one service, as part of the whole. */
  function OnService(c: Config, s: State, sid: ServiceId, a: ServiceAction): Option<State> {
    if sid !in c || sid !in s.services then None
    else
      match ServiceStep(c[sid], s.now, s.services[sid], a)
      case None => None
      case Some(v) => Some(s.(services := s.services[sid := v]))
  }

  function WithRequest(s: State, r: RequestId, q: Request): State {
    s.(requests := s.requests[r := q])
  }

  /** What a request does next. The original would panic where a guard is dropped that nothing counts. */
  function RequestStep(c: Config, s: State, r: RequestId, a: RequestAction): Option<State> {
    if a.Admit? then
      if r in s.requests then None
      else
        var q := if s.gate.accepting then Request(Fresh, true, None) else Request(Rejected, false, None);
        Some(WithRequest(s, r, q).(gate := Admitted(s.gate)))
    else if r !in s.requests then None
    else
      var q := s.requests[r];
      match a
      case Admit => None
      case Arrive(sid) =>
        if !q.stage.Fresh? || !q.admission || OnService(c, s, sid, ServiceAction.Arrive).None? then None
        else Some(WithRequest(OnService(c, s, sid, ServiceAction.Arrive).value, r, q.(stage := Probing(sid, s.now))))
      case FindReady =>
        if !q.stage.Probing? then None
        else Some(WithRequest(s, r, q.(stage := Warm(q.stage.sid))))
      case AskLaunch =>
        if !q.stage.Probing? || OnService(c, s, q.stage.sid, RequestLaunch).None? then None
        else Some(WithRequest(OnService(c, s, q.stage.sid, RequestLaunch).value, r, q.(stage := Cold(q.stage.sid))))
      case TakeLease =>
        if !q.stage.Warm? || OnService(c, s, q.stage.sid, ServiceAction.Acquire).None? then None
        else
          Some(WithRequest(OnService(c, s, q.stage.sid, ServiceAction.Acquire).value, r,
                           q.(stage := Leased(q.stage.sid), lease := Some(q.stage.sid))))
      case HandOff =>
        if !q.stage.Leased? || !q.admission || Gate.Released(s.gate).None? then None
        else Some(WithRequest(s, r, q.(admission := false)).(gate := Gate.Released(s.gate).value))
      case DropLease =>
        if q.lease.None? || OnService(c, s, q.lease.value, ServiceAction.Release).None? then None
        else
          Some(WithRequest(OnService(c, s, q.lease.value, ServiceAction.Release).value, r,
                           q.(stage := Done, lease := None)))
      case DropAdmission =>
        if q.lease.Some? || !q.admission || Gate.Released(s.gate).None? then None
        else Some(WithRequest(s, r, q.(stage := Done, admission := false)).(gate := Gate.Released(s.gate).value))
  }

  /** The work that tasks do on a service by themselves. */
  predicate TaskWork(s: State, a: ServiceAction) {
    match a
    case Arrive => false
    case Acquire => false
    case Release => false
    case RequestLaunch => false
    case NoteDrain => false
    case Prepare => false
    case Scan(_) => false
    case Poll(deadline) => deadline == DrainDeadline(s)
    case _ => true
  }

  /** The first instant after `now` on the grid of scan instants that `due` lies on: ticks that were missed are skipped. */
  function NextScan(due: Instant, now: Instant): Instant
    requires due <= now
  {
    due + ((now - due) / Lifecycle.IDLE_SCAN_INTERVAL + 1) * Lifecycle.IDLE_SCAN_INTERVAL
  }

  /** The scan's visit to a service: it begins a stop attempt there, or passes the service over. */
  function Visited(c: Config, s: State, sid: ServiceId): State {
    match OnService(c, s, sid, Scan(s.scanReading))
    case None => s
    case Some(begun) => begun
  }

  function ScanStep(c: Config, s: State, a: ScanAction): Option<State> {
    match a
    case BeginScan =>
      if !s.monitor.Monitoring? || s.unscanned != {} || s.now < s.scanDue then None
      else Some(s.(unscanned := s.services.Keys, scanReading := s.now, scanDue := NextScan(s.scanDue, s.now)))
    case Visit(sid) =>
      if !s.monitor.Monitoring? || sid !in s.unscanned || sid !in s.services || !LockFree(s.services[sid]) then None
      else Some(Visited(c, s, sid).(unscanned := s.unscanned - {sid}))
  }

  /** The drain is over, with no request admitted. */
  function Drain(c: Config, s: State): State {
    s.(monitor := Preparing(s.services.Keys), drained := true,
       services := map sid | sid in s.services :: Logged(s.services[sid], s.now, Drained))
  }

  predicate TasksJoined(s: State) {
    forall sid :: sid in s.services ==> s.services[sid].tasks == [] && !s.services[sid].cleaner.Polling?
  }

  function ShutdownStep(c: Config, s: State, a: ShutdownAction): Option<State> {
    match a
    case CloseGate => Some(s.(gate := Closed(s.gate)))
    case MarkRequested =>
      if s.gate.accepting then None
      else
        Some(s.(phase := AfterShutdownRequest(s.phase), requestedAt := if s.phase.Running? then s.now else s.requestedAt))
    case StartCleanup =>
      if !s.monitor.Monitoring? || s.phase.Running? || s.unscanned != {} then None
      else Some(s.(gate := Closed(s.gate), monitor := DrainTest(1), cleanupStart := s.now))
    case TestDrain =>
      if !s.monitor.DrainTest? then None
      else if s.gate.admitted == 0 then Some(Drain(c, s))
      else if DrainDeadline(s) < s.now then Some(s.(monitor := Joining))
      else Some(s.(monitor := DrainWait(s.monitor.pass)))
    case WakeFromDrain =>
      if !s.monitor.DrainWait? || !s.gate.permit then None
      else Some(s.(monitor := DrainTest(s.monitor.pass + 1), gate := s.gate.(permit := false)))
    case TimeOutDrain =>
      if !s.monitor.DrainWait? || s.now < DrainDeadline(s) then None
      else if s.gate.admitted == 0 then Some(Drain(c, s))
      else Some(s.(monitor := Joining))
    case PrepareService(sid) =>
      if !s.monitor.Preparing? || sid !in s.monitor.todo || OnService(c, s, sid, Prepare).None? then None
      else Some(OnService(c, s, sid, Prepare).value.(monitor := Preparing(s.monitor.todo - {sid})))
    case FinishPreparing =>
      if !s.monitor.Preparing? || s.monitor.todo != {} then None
      else Some(s.(monitor := Joining))
    case Complete =>
      if !s.monitor.Joining? || !TasksJoined(s) then None
      else Some(s.(monitor := Stopped, phase := Completed))
  }

  /** The state after an action; None when the action is not possible. */
  function Step(c: Config, s: State, a: Action): Option<State> {
    match a
    case OfRequest(r, request) => RequestStep(c, s, r, request)
    case OfService(sid, work) => if TaskWork(s, work) then OnService(c, s, sid, work) else None
    case OfScan(scan) => ScanStep(c, s, scan)
    case OfShutdown(shutdown) => ShutdownStep(c, s, shutdown)
    case Tick(elapsed) => Some(s.(now := s.now + elapsed))
  }

  predicate StepsTo(c: Config, states: seq<State>, actions: seq<Action>, i: nat)
    requires i < |actions| && |states| == |actions| + 1
  {
    Step(c, states[i], actions[i]) == Some(states[i + 1])
  }

  /** A run of the gateway: `states[0]` is where it starts and `actions[i]` leads from `states[i]` to `states[i + 1]`. */
  ghost predicate IsRun(c: Config, states: seq<State>, actions: seq<Action>) {
    && |states| == |actions| + 1
    && states[0] == Start(c, states[0].now)
    && forall i :: 0 <= i < |actions| ==> StepsTo(c, states, actions, i)
  }

  // ---- Assumptions on time ----

  /** The environment assumption on requests: none is still in its probing stage one idle timeout after its arrival. The
      program limits the probe to 100 ms and every idle timeout to at least a second. */
  ghost predicate PromptTick(c: Config, s: State, a: Action) {
    a.Tick? ==>
      forall r :: r in s.requests && s.requests[r].stage.Probing? && s.requests[r].stage.sid in c ==>
        s.now + a.elapsed < s.requests[r].stage.since + c[s.requests[r].stage.sid].idleTimeout
  }

  ghost predicate PromptRun(c: Config, states: seq<State>, actions: seq<Action>) {
    && IsRun(c, states, actions)
    && forall i :: 0 <= i < |actions| ==> PromptTick(c, states[i], actions[i])
  }

  /** How far time may go before a stage of an attempt must end, under exact timers. What takes no wait takes no time. */
  function StageDeadline(now: Instant, stage: Stage): Instant {
    match stage
    case Checking(deadline) => deadline
    case ReapingCheck(deadline) => deadline
    case Locked(_) => now
    case Stopping(deadline) => deadline
    case ReapingStop(deadline) => deadline
  }

  ghost predicate ServiceAllows(now: Instant, v: Service, later: Instant) {
    && (forall i :: 0 <= i < |v.tasks| ==> later <= StageDeadline(now, v.tasks[i].stage))
    && (v.cleaner.Polling? ==> later <= v.cleaner.wakeAt)
  }

  ghost predicate MonitorAllows(s: State, later: Instant) {
    match s.monitor
    case Monitoring => if s.phase.Running? && s.unscanned == {} then later <= s.scanDue else later <= s.now
    case DrainTest(_) => later <= s.now
    case DrainWait(_) => if s.gate.permit then later <= s.now else later <= DrainDeadline(s)
    case Preparing(_) => later <= s.now
    case Joining => TasksJoined(s) ==> later <= s.now
    case Stopped => true
  }

  /** Exact timers: time does not pass a deadline while the work that it guards is pending. */
  ghost predicate PunctualTick(c: Config, s: State, a: Action) {
    a.Tick? ==>
      && MonitorAllows(s, s.now + a.elapsed)
      && forall sid :: sid in s.services ==> ServiceAllows(s.now, s.services[sid], s.now + a.elapsed)
  }

  ghost predicate PunctualRun(c: Config, states: seq<State>, actions: seq<Action>) {
    && IsRun(c, states, actions)
    && forall i :: 0 <= i < |actions| ==> PunctualTick(c, states[i], actions[i])
  }
}
