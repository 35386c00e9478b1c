/** What each critical section does in the states that runs reach: exactly when it is possible, and what the log gains. */
module Transitions {
  import opened Clock
  import opened Guarantees
  import opened History
  import opened HistoryTheorems
  import opened LogReading
  import opened Protocol
  import opened ProtocolInvariant
  import opened ServiceInvariant
  import opened ServiceModel
  import Lifecycle

  // ---- Requests ----

  ghost predicate Free(s: State, sid: ServiceId) {
    sid in s.services && LockFree(s.services[sid])
  }

  /** When a request may take a step: at its stage, and with the lifecycle lock free where it needs it. No guard stands in
      its way. */
  ghost predicate MayTake(s: State, r: RequestId, a: RequestAction) {
    if a.Admit? then r !in s.requests
    else
      && r in s.requests
      && var q := s.requests[r];
         match a
         case Admit => false
         case Arrive(sid) => q.stage.Fresh? && Free(s, sid)
         case FindReady => q.stage.Probing?
         case AskLaunch => q.stage.Probing?
         case TakeLease => q.stage.Warm? && Free(s, q.stage.sid)
         case HandOff => q.stage.Leased? && q.admission
         case DropLease => q.lease.Some? && Free(s, q.lease.value)
         case DropAdmission => q.lease.None? && q.admission
  }

  /** The request after a step: what it holds changes only where a guard is taken or dropped. */
  ghost predicate Taken(s: State, r: RequestId, a: RequestAction, q: Request) {
    if a.Admit? then q == (if s.gate.accepting then Request(Fresh, true, None) else Request(Rejected, false, None))
    else
      && r in s.requests
      && var before := s.requests[r];
         match a
         case Admit => false
         case Arrive(sid) => q == Request(Probing(sid, s.now), before.admission, None)
         case FindReady => before.stage.Probing? && q == Request(Warm(before.stage.sid), before.admission, None)
         case AskLaunch => before.stage.Probing? && q == Request(Cold(before.stage.sid), before.admission, None)
         case TakeLease =>
           before.stage.Warm? && q == Request(Leased(before.stage.sid), before.admission, Some(before.stage.sid))
         case HandOff => q == Request(before.stage, false, before.lease)
         case DropLease => q == Request(Done, before.admission, None)
         case DropAdmission => q == Request(Done, false, None)
  }

  /** What a step of a request adds to the log of a service. */
  ghost function AddedBy(s: State, r: RequestId, a: RequestAction, sid: ServiceId): Option<Event>
    requires sid in s.services
  {
    if a == RequestAction.Arrive(sid) then Some(Event(s.now, Arrival))
    else if a.Admit? || r !in s.requests then None
    else if a.TakeLease? && s.requests[r].stage == Warm(sid) then Some(Event(s.now, Kind.Acquire))
    else if a.DropLease? && s.requests[r].lease == Some(sid) then Some(Event(s.now, Kind.Release))
    else if a.AskLaunch? && s.requests[r].stage.Probing? && s.requests[r].stage.sid == sid
            && LaunchMayStart(s.services[sid].log, s.now) then Some(Event(s.now, LaunchStarted))
    else None
  }

  lemma RequestPossible(c: Config, s: State, r: RequestId, a: RequestAction)
    requires GuardsOk(c, s) && s.services.Keys == c.Keys
    ensures RequestStep(c, s, r, a).Some? <==> MayTake(s, r, a)
  {
    if r in s.requests {
      assert RequestOk(c, s.requests[r]);
      HeldGuardsCounted(c, s, r);
    }
  }

  lemma RequestAfter(c: Config, s: State, r: RequestId, a: RequestAction)
    requires GuardsOk(c, s) && RequestStep(c, s, r, a).Some?
    ensures var next := RequestStep(c, s, r, a).value;
            && r in next.requests && Taken(s, r, a, next.requests[r])
            && next.requests == s.requests[r := next.requests[r]]
  {
    if r in s.requests {
      assert RequestOk(c, s.requests[r]);
    }
  }

  lemma RequestLogs(c: Config, s: State, r: RequestId, a: RequestAction, sid: ServiceId)
    requires RequestStep(c, s, r, a).Some? && sid in c && sid in s.services
    requires ServiceInv(c[sid], s.now, s.drained, s.services[sid])
    ensures sid in RequestStep(c, s, r, a).value.services
    ensures AddsEvent(s.services[sid].log, RequestStep(c, s, r, a).value.services[sid].log, AddedBy(s, r, a, sid))
  {
    RequestStepServices(c, s, r, a);
    StartableIsShown(c[sid].idleTimeout, s.services[sid].log, s.now);
  }

  /** The request path, in every run: when each step of a request is possible, what the request is afterwards, and what the
      log of every service gains. No step is held up by a count, and a request that is turned away holds nothing. */
  lemma RequestPathExact(c: Config, states: seq<State>, actions: seq<Action>, i: nat, r: RequestId, a: RequestAction)
    requires ValidConfig(c) && IsRun(c, states, actions) && i < |states|
    ensures RequestStep(c, states[i], r, a).Some? <==> MayTake(states[i], r, a)
    ensures MayTake(states[i], r, a) ==>
              var s, next := states[i], RequestStep(c, states[i], r, a).value;
              && r in next.requests && Taken(s, r, a, next.requests[r])
              && next.requests == s.requests[r := next.requests[r]]
              && forall sid :: sid in c ==>
                   && sid in s.services && sid in next.services
                   && AddsEvent(s.services[sid].log, next.services[sid].log, AddedBy(s, r, a, sid))
  {
    RunGuards(c, states, actions, i);
    RequestPossible(c, states[i], r, a);
    if MayTake(states[i], r, a) {
      RequestAfter(c, states[i], r, a);
      forall sid | sid in c
        ensures sid in states[i].services && sid in RequestStep(c, states[i], r, a).value.services
        ensures AddsEvent(states[i].services[sid].log, RequestStep(c, states[i], r, a).value.services[sid].log,
                          AddedBy(states[i], r, a, sid))
      {
        RunLegal(c, states, actions, i, sid);
        RequestLogs(c, states[i], r, a, sid);
      }
    }
  }

  // ---- Tasks ----

  /** The stage at which a task may take a step, in a service with this checker setting. */
  predicate StageFor(hasChecker: bool, now: Instant, stage: Stage, a: ServiceAction) {
    match a
    case RefuseCheck(_) => hasChecker && stage.Checking?
    case TimeOutCheck(_) => hasChecker && stage.Checking? && stage.deadline <= now
    case ReapCheck(_) => stage.ReapingCheck?
    case CommitStop(_) => stage.Locked?
    case FailSpawn(_) => stage.Locked?
    case ExitStop(_) => stage.Stopping?
    case TimeOutStop(_) => stage.Stopping? && stage.deadline <= now
    case ReapStop(_) => stage.ReapingStop?
    case _ => false
  }

  predicate OfTask(a: ServiceAction) {
    || a.RefuseCheck? || a.TimeOutCheck? || a.ReapCheck? || a.CommitStop? || a.FailSpawn? || a.ExitStop? || a.TimeOutStop?
    || a.ReapStop?
  }

  /** What such a step adds to the log: nothing where a child is only cut off. */
  function TaskEvent(now: Instant, t: Task, a: ServiceAction): Option<Event> {
    match a
    case RefuseCheck(_) => Some(Event(now, CheckFailed))
    case ReapCheck(_) => Some(Event(now, CheckFailed))
    case CommitStop(_) =>
      if t.stage.Locked? then Some(Event(now, StopStarted(t.attempt.requiresIdleTimeout, t.stage.at))) else None
    case FailSpawn(_) => if t.stage.Locked? then Some(Event(now, SpawnFailed(t.stage.at))) else None
    case ExitStop(_) => Some(Event(now, StopFinished))
    case ReapStop(_) => Some(Event(now, StopFinished))
    case _ => None
  }

  /** The steps of a task in the states that runs reach. The one attempt of a service never waits for the lifecycle lock:
      each step is possible as soon as its stage is reached, it adds its one event, and the attempt is over exactly when
      that event ends it. Every running kickstart may end. */
  lemma TaskExact(c: Config, states: seq<State>, actions: seq<Action>, i: nat, sid: ServiceId, a: ServiceAction)
    requires ValidConfig(c) && IsRun(c, states, actions) && i < |states| && sid in c
    ensures sid in states[i].services
    ensures var v, step := states[i].services[sid], ServiceStep(c[sid], states[i].now, states[i].services[sid], a);
            && (OfTask(a) ==>
                  && (step.Some? <==> a.task == 0 && v.tasks != [] && StageFor(c[sid].hasChecker, states[i].now, v.tasks[0].stage, a))
                  && (step.Some? ==>
                        var e := TaskEvent(states[i].now, v.tasks[0], a);
                        && AddsEvent(v.log, step.value.log, e)
                        && (step.value.tasks == [] <==> e.Some? && e.value.kind.EndsAttempt())))
            && (a.FinishLaunch? ==>
                  && (step.Some? <==> a.launch < RunningLaunches(v.log))
                  && (step.Some? ==> step.value.log == v.log + [Event(states[i].now, LaunchFinished)]))
  {
    RunLegal(c, states, actions, i, sid);
    var v := states[i].services[sid];
    DigestCounts(v.log);
    if OfTask(a) {
      TaskStep(c[sid], states[i].now, v, a);
    }
  }

  lemma TaskStep(c: Settings, now: Instant, v: Service, a: ServiceAction)
    requires |v.tasks| <= 1 && OfTask(a)
    ensures ServiceStep(c, now, v, a).Some? <==> a.task == 0 && v.tasks != [] && StageFor(c.hasChecker, now, v.tasks[0].stage, a)
    ensures ServiceStep(c, now, v, a).Some? ==>
              var e := TaskEvent(now, v.tasks[0], a);
              && AddsEvent(v.log, ServiceStep(c, now, v, a).value.log, e)
              && (ServiceStep(c, now, v, a).value.tasks == [] <==> e.Some? && e.value.kind.EndsAttempt())
  {
    if ServiceStep(c, now, v, a).Some? {
      SoleTask(v, a.task);
    }
  }

  // ---- The test of an allowed attempt ----

  /** What the test of an attempt that began at event `b` must find: a whole number of 2^64 activities since then, no lease,
      no launch, and for an idle attempt the idle timeout over. */
  ghost predicate TestHolds(idleTimeout: Duration, log: Log, b: nat, at: Instant)
    requires b < |log| && log[b].kind.Began?
  {
    && ActivityCount(log, b, |log|) % 0x1_0000_0000_0000_0000 == 0
    && OpenLeases(log) == 0
    && !LaunchShown(log, |log|)
    && (log[b].kind.idle ==> forall k :: 0 <= k < |log| && log[k].kind.SetsIdleClock() ==> log[k].time + idleTimeout <= at)
  }

  lemma TestReadsLog(c: Settings, now: Instant, drained: bool, v: Service, b: nat, at: Instant)
    requires ServiceInv(c, now, drained, v) && |v.tasks| == 1 && 1 <= b && AttemptBeganAt(v.log, b, |v.log|)
    requires c.idleTimeout > 0
    ensures Lifecycle.StillAllowed(v.life, v.tasks[0].attempt, v.wake.Launching?, c.idleTimeout, at) <==>
              TestHolds(c.idleTimeout, v.log, b, at)
  {
    var log, n := v.log, |v.log|;
    assert log[..n] == log;
    SeenAtAttempt(c.idleTimeout, log, b, n);
    DigestCounts(log);
    LaunchingIsShown(c.idleTimeout, log, n);
    WrappedEqual(DigestOf(log).seen, DigestOf(log).activities);
    MarkIsLatest(c.idleTimeout, log, at);
  }

  /** The idle timeout is over exactly when it is over for every event that sets the idle clock. */
  lemma MarkIsLatest(idleTimeout: Duration, log: Log, at: Instant)
    requires Legal(idleTimeout, log)
    ensures DigestOf(log).idleMark + idleTimeout <= at <==>
              forall k :: 0 <= k < |log| && log[k].kind.SetsIdleClock() ==> log[k].time + idleTimeout <= at
  {
    var n := |log|;
    assert log[..n] == log;
    var latest := MarkAttained(idleTimeout, log, n);
    forall k | 0 <= k < n && log[k].kind.SetsIdleClock()
      ensures log[k].time <= DigestOf(log).idleMark
    {
      MarksBounded(idleTimeout, log, n, k);
    }
  }

  /** The attempt that a task works on. */
  lemma TaskAttempt(c: Settings, now: Instant, drained: bool, v: Service) returns (b: nat)
    requires ServiceInv(c, now, drained, v) && |v.tasks| == 1 && Undecided(v.tasks[0].stage)
    ensures 1 <= b && AttemptBeganAt(v.log, b, |v.log|)
  {
    assert v.log[..|v.log|] == v.log;
    b := LatestAttempt(c.idleTimeout, v.log, |v.log|);
  }

  /** The fate of an allowed attempt, in every run: it goes on to the spawn exactly when the log, since the attempt began
      and as a whole, passes the test; otherwise it ends obsolete, and the log says so. */
  lemma AllowExact(c: Config, states: seq<State>, actions: seq<Action>, i: nat, sid: ServiceId, task: nat, at: Instant)
    returns (b: nat)
    requires ValidConfig(c) && IsRun(c, states, actions) && i < |actions|
    requires actions[i] == OfService(sid, AllowStop(task, at))
    ensures sid in c && sid in states[i].services && sid in states[i + 1].services
    ensures var v, w := states[i].services[sid], states[i + 1].services[sid];
            && 1 <= b && AttemptBeganAt(v.log, b, |v.log|)
            && if TestHolds(c[sid].idleTimeout, v.log, b, at) then
                 w.log == v.log && |w.tasks| == 1 && w.tasks[0].stage == Locked(at)
               else
                 w.log == v.log + [Event(states[i].now, Kind.Obsolete)] && w.tasks == []
  {
    assert StepsTo(c, states, actions, i);
    RunLegal(c, states, actions, i, sid);
    var v := states[i].services[sid];
    SoleTask(v, task);
    b := TaskAttempt(c[sid], states[i].now, states[i].drained, v);
    TestReadsLog(c[sid], states[i].now, states[i].drained, v, b, at);
  }

  lemma QuietSinceBegan(idleTimeout: Duration, log: Log, b: nat, at: Instant)
    requires Legal(idleTimeout, log) && 1 <= b && AttemptBeganAt(log, b, |log|) && log[b].time <= at
    requires ActivityCount(log, b, |log|) < 0x1_0000_0000_0000_0000
    ensures TestHolds(idleTimeout, log, b, at) <==> !ActivityWithin(log, b, |log|) && !LaunchShown(log, |log|)
  {
    var n := |log|;
    CountZero(log[b..n], (k: Kind) => k.IsActivity());
    assert forall k :: b <= k < n ==> log[k] == log[b..n][k - b];
    if ActivityWithin(log, b, n) {
      var k :| b <= k < n && log[k].kind.IsActivity();
      assert log[b..n][k - b].kind.IsActivity();
    } else {
      QuietLog(idleTimeout, log, b, at);
    }
  }

  /** With no activity since an attempt began, no lease is open and the idle clock stands where the attempt found it. */
  lemma QuietLog(idleTimeout: Duration, log: Log, b: nat, at: Instant)
    requires Legal(idleTimeout, log) && 1 <= b < |log| && log[b].kind.Began? && log[b].time <= at
    requires !ActivityWithin(log, b, |log|)
    ensures OpenLeases(log) == 0
    ensures log[b].kind.idle ==> forall k :: 0 <= k < |log| && log[k].kind.SetsIdleClock() ==> log[k].time + idleTimeout <= at
  {
    var n := |log|;
    assert log[..n] == log;
    At(idleTimeout, log, b);
    forall k | b <= k < n
      ensures !log[k].kind.Release? && !log[k].kind.Acquire? && !log[k].kind.SetsIdleClock()
    {
      assert !log[k].kind.IsActivity();
      At(idleTimeout, log, k);
    }
    LeasesLevel(idleTimeout, log, b, n);
    DigestCounts(log);
    forall k | 0 <= k < n && log[k].kind.SetsIdleClock()
      ensures log[b].kind.idle ==> log[k].time + idleTimeout <= at
    {
      MarksBounded(idleTimeout, log, b, k);
    }
  }

  /** An allowed attempt with fewer than 2^64 activities goes on exactly when the log shows no activity since it began and no
      launch: no lease was open when it began, and an idle attempt's timeout was over. */
  lemma QuietAttemptGoesOn(c: Config, states: seq<State>, actions: seq<Action>, i: nat, sid: ServiceId, task: nat, at: Instant)
    returns (b: nat)
    requires ValidConfig(c) && IsRun(c, states, actions) && i < |actions|
    requires actions[i] == OfService(sid, AllowStop(task, at))
    ensures sid in c && sid in states[i].services && sid in states[i + 1].services
    ensures var v, w := states[i].services[sid], states[i + 1].services[sid];
            && 1 <= b && AttemptBeganAt(v.log, b, |v.log|)
            && (ActivityCount(v.log, b, |v.log|) < 0x1_0000_0000_0000_0000 ==>
                  (w.tasks != [] <==> !ActivityWithin(v.log, b, |v.log|) && !LaunchShown(v.log, |v.log|)))
  {
    b := AllowExact(c, states, actions, i, sid, task, at);
    RunLegal(c, states, actions, i, sid);
    assert StepsTo(c, states, actions, i);
    var v := states[i].services[sid];
    SoleTask(v, task);
    assert v.log[..|v.log|] == v.log;
    SeenAtAttempt(c[sid].idleTimeout, v.log, b, |v.log|);
    if ActivityCount(v.log, b, |v.log|) < 0x1_0000_0000_0000_0000 {
      QuietSinceBegan(c[sid].idleTimeout, v.log, b, at);
    }
  }
}
