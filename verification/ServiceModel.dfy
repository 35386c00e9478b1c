/** One service as the protocol sees it: its two locked records, the tasks that work on them, and its event log.
    Each step is one critical section, or one outcome of a child process. */
module ServiceModel {
  import opened Clock
  import opened History
  import opened Lifecycle
  import Wake

  datatype Settings = Settings(idleTimeout: Duration, hasChecker: bool)

  /** Where the task of a stop attempt stands. In `Locked` it holds the lifecycle lock: it has passed its test at the clock
      reading `at` and has yet to spawn the stop command. */
  datatype Stage =
    | Checking(deadline: Instant)
    | ReapingCheck(deadline: Instant)
    | Locked(at: Instant)
    | Stopping(deadline: Instant)
    | ReapingStop(deadline: Instant)

  datatype Task = Task(attempt: StopAttempt, began: Instant, stage: Stage)

  /** The task that cleans the service up at shutdown. Once it has begun an attempt, the attempt's task stands for it. */
  datatype Cleaner = NotSpawned | Polling(wakeAt: Instant) | Ended

  /** `launches` holds the start of each running kickstart. */
  datatype Service = Service(
    life: LifecycleState,
    wake: Wake.LaunchState,
    launches: seq<Instant>,
    tasks: seq<Task>,
    cleaner: Cleaner,
    log: Log)

  function NewService(now: Instant): Service {
    Service(Initial(now), Wake.Eligible, [], [], NotSpawned, [Event(now, Created)])
  }

  datatype ServiceAction =
    // the request path
    | Arrive
    | Acquire
    | Release
    | RequestLaunch
    // a kickstart task
    | FinishLaunch(launch: nat)
    // the idle monitor
    | Scan(at: Instant)
    // the task of a stop attempt
    | RefuseCheck(task: nat)
    | TimeOutCheck(task: nat)
    | ReapCheck(task: nat)
    | AllowStop(task: nat, at: Instant)
    | CommitStop(task: nat)
    | FailSpawn(task: nat)
    | ExitStop(task: nat)
    | TimeOutStop(task: nat)
    | ReapStop(task: nat)
    // shutdown
    | NoteDrain
    | Prepare
    | Poll(drainDeadline: Instant)

  /** No task holds the lifecycle lock between two steps. */
  predicate LockFree(v: Service) {
    forall i :: 0 <= i < |v.tasks| ==> !v.tasks[i].stage.Locked?
  }

  function Logged(v: Service, now: Instant, kind: Kind): Service {
    v.(log := v.log + [Event(now, kind)])
  }

  function WithoutTask(v: Service, i: nat): Service
    requires i < |v.tasks|
  {
    v.(tasks := v.tasks[..i] + v.tasks[i + 1..])
  }

  function AtStage(v: Service, i: nat, stage: Stage): Service
    requires i < |v.tasks|
  {
    v.(tasks := v.tasks[i := v.tasks[i].(stage := stage)])
  }

  function Begun(c: Settings, v: Service, now: Instant, attempt: StopAttempt, at: Instant): Service {
    var checkEnds := if c.hasChecker then now + STOP_CHECK_TIMEOUT else now;
    Logged(v.(life := v.life.(attemptInProgress := true),
              tasks := v.tasks + [Task(attempt, now, Checking(checkEnds))]),
           now, Began(attempt.requiresIdleTimeout, at))
  }

  function EndedUnstarted(v: Service, i: nat, life: LifecycleState, now: Instant, kind: Kind): Service
    requires i < |v.tasks|
  {
    Logged(WithoutTask(v, i).(life := life), now, kind)
  }

  /** None when the action is not possible: the code is not at that point, or the lifecycle lock is held, or the original
      would panic. */
  function ServiceStep(c: Settings, now: Instant, v: Service, a: ServiceAction): Option<Service> {
    match a
    case Arrive =>
      if !LockFree(v) then None
      else Some(Logged(v.(life := Arrived(v.life, now)), now, Kind.Arrival))
    case Acquire =>
      if !LockFree(v) then None
      else Some(Logged(v.(life := Acquired(v.life)), now, Kind.Acquire))
    case Release =>
      if !LockFree(v) || Released(v.life, now).None? then None
      else Some(Logged(v.(life := Released(v.life, now).value), now, Kind.Release))
    case RequestLaunch =>
      if Wake.Startable(v.wake, now) then
        Some(Logged(v.(wake := Wake.AfterRequest(v.wake, now), launches := v.launches + [now]), now, LaunchStarted))
      else
        Some(v)
    case FinishLaunch(i) =>
      if i >= |v.launches| then None
      else
        Some(Logged(v.(wake := Wake.AfterLaunch(now), launches := v.launches[..i] + v.launches[i + 1..]),
                    now, LaunchFinished))
    case Scan(at) =>
      if !LockFree(v) || now < at || !MayBeginStop(v.life, v.wake.Launching?, c.idleTimeout, at) then None
      else Some(Begun(c, v, now, StopAttempt(v.life.generation, true), at))
    case RefuseCheck(i) =>
      if !c.hasChecker || i >= |v.tasks| || !v.tasks[i].stage.Checking? || !LockFree(v) then None
      else Some(EndedUnstarted(v, i, CheckRefused(v.life, v.tasks[i].attempt, now), now, CheckFailed))
    case TimeOutCheck(i) =>
      if !c.hasChecker || i >= |v.tasks| || !v.tasks[i].stage.Checking? || now < v.tasks[i].stage.deadline then None
      else Some(AtStage(v, i, ReapingCheck(now + CHILD_REAP_TIMEOUT)))
    case ReapCheck(i) =>
      if i >= |v.tasks| || !v.tasks[i].stage.ReapingCheck? || !LockFree(v) then None
      else Some(EndedUnstarted(v, i, CheckRefused(v.life, v.tasks[i].attempt, now), now, CheckFailed))
    case AllowStop(i, at) =>
      if i >= |v.tasks| || !v.tasks[i].stage.Checking? || !LockFree(v) || at < v.tasks[i].began || now < at then None
      else if StillAllowed(v.life, v.tasks[i].attempt, v.wake.Launching?, c.idleTimeout, at) then
        Some(AtStage(v, i, Locked(at)))
      else
        Some(EndedUnstarted(v, i, AttemptEnded(v.life), now, Kind.Obsolete))
    case CommitStop(i) =>
      if i >= |v.tasks| || !v.tasks[i].stage.Locked? then None
      else
        var t := v.tasks[i];
        Some(Logged(AtStage(v, i, Stopping(now + STOP_COMMAND_TIMEOUT))
                    .(wake := Wake.Eligible, life := StopRecorded(v.life)),
                    now, Kind.StopStarted(t.attempt.requiresIdleTimeout, t.stage.at)))
    case FailSpawn(i) =>
      if i >= |v.tasks| || !v.tasks[i].stage.Locked? then None
      else
        var at := v.tasks[i].stage.at;
        Some(EndedUnstarted(v, i, SpawnFailureRecorded(v.life, at), now, Kind.SpawnFailed(at)))
    case ExitStop(i) =>
      if i >= |v.tasks| || !v.tasks[i].stage.Stopping? || !LockFree(v) then None
      else Some(EndedUnstarted(v, i, AttemptEnded(v.life), now, StopFinished))
    case TimeOutStop(i) =>
      if i >= |v.tasks| || !v.tasks[i].stage.Stopping? || now < v.tasks[i].stage.deadline then None
      else Some(AtStage(v, i, ReapingStop(now + CHILD_REAP_TIMEOUT)))
    case ReapStop(i) =>
      if i >= |v.tasks| || !v.tasks[i].stage.ReapingStop? || !LockFree(v) then None
      else Some(EndedUnstarted(v, i, AttemptEnded(v.life), now, StopFinished))
    case NoteDrain =>
      Some(Logged(v, now, Drained))
    case Prepare =>
      if !LockFree(v) then None
      else Some(if Preparation(v.life).CleanupNeeded? then v.(cleaner := Polling(now)) else v)
    case Poll(drainDeadline) =>
      if !LockFree(v) || !v.cleaner.Polling? || now < v.cleaner.wakeAt then None
      else
        match ShutdownDecision(v.life, v.wake.Launching?)
        case Ready(attempt) => Some(Begun(c, v, now, attempt, now).(cleaner := Ended))
        case AlreadySignalled => Some(v.(cleaner := Ended))
        case Busy =>
          if drainDeadline <= now then Some(v.(cleaner := Ended))
          else Some(v.(cleaner := Polling(now + SHUTDOWN_POLL_INTERVAL)))
  }
}
