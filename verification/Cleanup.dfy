/** What a drained shutdown does for every service: who is cleaned up, and how each cleanup came out. */
module Cleanup {
  import opened Clock
  import opened Guarantees
  import opened History
  import opened HistoryTheorems
  import opened LogReading
  import opened Protocol
  import opened ProtocolInvariant
  import opened ServiceInvariant
  import opened ServiceModel
  import Lifecycle

  /** The log shows a stop that no activity has followed. */
  ghost predicate StopStands(log: Log) {
    exists k :: 1 <= k < |log| && log[k].kind.StopStarted? && !ActivityWithin(log, k, |log|)
  }

  /** The log shows the end of an attempt after the drain. */
  ghost predicate EndedAfterDrain(log: Log) {
    exists m: nat, k: nat :: EndFollowsDrain(log, m, k)
  }

  predicate EndFollowsDrain(log: Log, m: nat, k: nat) {
    m < k < |log| && log[m].kind.Drained? && log[k].kind.EndsAttempt()
  }

  /** The log shows a service in use: a lease, an attempt or a launch. */
  ghost predicate ShownBusy(log: Log) {
    OpenLeases(log) > 0 || OpenAttempts(log) > 0 || LaunchShown(log, |log|)
  }

  // ---- What one step does to one service ----

  /** Between two states a service has had this critical section, if any, which may come after the drain. */
  predicate Worked(c: Config, s: State, next: State, sid: ServiceId, work: Option<ServiceAction>) {
    && sid in c && sid in s.services && sid in next.services
    && (work.None? ==> next.services[sid] == s.services[sid])
    && (work.Some? ==>
          && Possible(true, work.value)
          && ServiceStep(c[sid], s.now, s.services[sid], work.value) == Some(next.services[sid])
          && (work.value.Poll? ==> work.value.drainDeadline == DrainDeadline(s)))
  }

  lemma RequestWorks(c: Config, s: State, r: RequestId, a: RequestAction, sid: ServiceId) returns (work: Option<ServiceAction>)
    requires GuardsOk(c, s) && ClosedAndEmpty(s) && RequestStep(c, s, r, a).Some? && sid in c && sid in s.services
    ensures Worked(c, s, RequestStep(c, s, r, a).value, sid, work) && work != Some(Prepare)
  {
    NoPathWithoutAdmission(c, s, r, a);
    RequestStepServices(c, s, r, a);
    work := if a.DropLease? && s.requests[r].lease == Some(sid) then Some(ServiceAction.Release) else None;
  }

  lemma TaskWorks(c: Config, s: State, touched: ServiceId, task: ServiceAction, sid: ServiceId)
    returns (work: Option<ServiceAction>)
    requires TaskWork(s, task) && OnService(c, s, touched, task).Some? && sid in c && sid in s.services
    ensures Worked(c, s, OnService(c, s, touched, task).value, sid, work) && work != Some(Prepare)
  {
    work := if touched == sid then Some(task) else None;
  }

  lemma ShutdownWorks(c: Config, s: State, a: ShutdownAction, sid: ServiceId) returns (work: Option<ServiceAction>)
    requires ShutdownStep(c, s, a).Some? && s.drained && !s.monitor.DrainTest? && !s.monitor.DrainWait?
    requires sid in c && sid in s.services
    ensures Worked(c, s, ShutdownStep(c, s, a).value, sid, work) && (work == Some(Prepare) <==> a == PrepareService(sid))
  {
    ShutdownStepServices(c, s, a);
    work := if a == PrepareService(sid) then Some(Prepare) else None;
  }

  /** After the drain, a step is at most one critical section of a service, and none of the request path. */
  lemma WorkOf(c: Config, s: State, a: Action, next: State, sid: ServiceId) returns (work: Option<ServiceAction>)
    requires GuardsOk(c, s) && ShutdownOk(s) && s.drained && Step(c, s, a) == Some(next) && sid in c && sid in s.services
    ensures Worked(c, s, next, sid, work) && (work == Some(Prepare) <==> a == OfShutdown(PrepareService(sid)))
  {
    match a
    case OfRequest(r, request) => work := RequestWorks(c, s, r, request, sid);
    case OfService(touched, task) => work := TaskWorks(c, s, touched, task, sid);
    case OfScan(_) =>
      assert false;
    case OfShutdown(shutdown) => work := ShutdownWorks(c, s, shutdown, sid);
    case Tick(_) => work := None;
  }

  /** Only the shutdown sequence changes the background task out of its cleanup. */
  lemma MonitorAfter(c: Config, s: State, a: Action, next: State)
    requires Step(c, s, a) == Some(next) && !a.OfShutdown?
    ensures next.monitor == s.monitor && next.drained == s.drained
  {
    if a.OfRequest? {
      RequestStepServices(c, s, a.r, a.request);
    }
  }

  lemma ShutdownTodoAfter(c: Config, s: State, a: ShutdownAction, sid: ServiceId)
    requires ShutdownStep(c, s, a).Some?
    ensures var next := ShutdownStep(c, s, a).value;
            && (!s.drained && next.drained ==> next == Drain(c, s))
            && (s.drained ==> next.drained)
            && (InTodo(next, sid) && s.drained && !s.monitor.DrainTest? && !s.monitor.DrainWait? ==>
                  InTodo(s, sid) && a != PrepareService(sid))
            && (InTodo(s, sid) && !InTodo(next, sid) ==> a == PrepareService(sid))
  {
  }

  /** What a step does to the drain and to a service still to be prepared. */
  lemma TodoAfter(c: Config, s: State, a: Action, next: State, sid: ServiceId)
    requires Step(c, s, a) == Some(next)
    ensures !s.drained && next.drained ==> next == Drain(c, s)
    ensures s.drained ==> next.drained
    ensures InTodo(next, sid) && s.drained && !s.monitor.DrainTest? && !s.monitor.DrainWait? ==>
              InTodo(s, sid) && a != OfShutdown(PrepareService(sid))
    ensures InTodo(s, sid) && !InTodo(next, sid) ==> a == OfShutdown(PrepareService(sid))
  {
    if a.OfShutdown? {
      ShutdownTodoAfter(c, s, a.shutdown, sid);
    } else {
      MonitorAfter(c, s, a, next);
    }
  }

  // ---- Who is cleaned up ----

  /** A service is in need of cleanup: its log shows no open attempt and no stop since the last activity. */
  ghost predicate CleanupDue(log: Log) {
    OpenAttempts(log) == 0 && !StopStands(log)
  }

  lemma StopStandsIsSignal(idleTimeout: Duration, log: Log)
    requires Legal(idleTimeout, log)
    ensures StopStands(log) <==> DigestOf(log).signalled
  {
    var n := |log|;
    assert log[..n] == log;
    if DigestOf(log).signalled {
      var k := SignalAttained(idleTimeout, log, n);
    }
    if k :| 1 <= k < n && log[k].kind.StopStarted? && !ActivityWithin(log, k, n) {
      SignalKept(idleTimeout, log, k, n);
    }
  }

  /** The preparation of a service reads its log. */
  lemma PreparationReadsLog(c: Settings, now: Instant, drained: bool, v: Service)
    requires ServiceInv(c, now, drained, v)
    ensures Lifecycle.Preparation(v.life).CleanupNeeded? <==> CleanupDue(v.log)
    ensures Lifecycle.Preparation(v.life).ExistingAttempt? <==> OpenAttempts(v.log) != 0
  {
    StopStandsIsSignal(c.idleTimeout, v.log);
    DigestCounts(v.log);
  }

  ghost predicate InTodo(s: State, sid: ServiceId) {
    s.monitor.Preparing? && sid in s.monitor.todo
  }

  lemma TodoStep(c: Config, s: State, a: Action, next: State, sid: ServiceId)
    requires Inv(c, s) && Step(c, s, a) == Some(next) && sid in c && InTodo(next, sid) && next.drained
    requires sid in s.services && (InTodo(s, sid) ==> s.services[sid].cleaner.NotSpawned?)
    ensures sid in next.services && next.services[sid].cleaner.NotSpawned?
  {
    TodoAfter(c, s, a, next, sid);
    if s.drained {
      var work := WorkOf(c, s, a, next, sid);
      if work.Some? {
        CleanerKept(c[sid], s.now, s.services[sid], work.value);
      }
    } else {
      assert ServiceOk(c, s.now, s.drained, s.services, sid);
    }
  }

  lemma CleanerKept(c: Settings, now: Instant, v: Service, a: ServiceAction)
    requires ServiceStep(c, now, v, a).Some? && !a.Prepare? && v.cleaner.NotSpawned?
    ensures ServiceStep(c, now, v, a).value.cleaner.NotSpawned?
  {
  }

  /** A service that is still to be prepared has no cleaner. */
  lemma {:induction false} TodoHasNoCleaner(c: Config, states: seq<State>, actions: seq<Action>, i: nat, sid: ServiceId)
    requires ValidConfig(c) && IsRun(c, states, actions) && i < |states| && sid in c && InTodo(states[i], sid)
    ensures sid in states[i].services && states[i].services[sid].cleaner.NotSpawned?
  {
    RunOrder(c, states, actions, i);
    if i > 0 {
      var before := i - 1;
      RunInv(c, states, actions, before);
      assert StepsTo(c, states, actions, before);
      if InTodo(states[before], sid) {
        TodoHasNoCleaner(c, states, actions, before, sid);
      }
      TodoStep(c, states[before], actions[before], states[i], sid);
    }
  }

  /** Who is cleaned up, in every run: preparing a service is possible whenever its lifecycle lock is free, and it sets a
      cleaner to work at once exactly when the log shows no open attempt and no stop since the last activity. Nothing
      else changes on the service, which had no cleaner before. */
  lemma PreparationExact(c: Config, states: seq<State>, actions: seq<Action>, i: nat, sid: ServiceId)
    requires ValidConfig(c) && IsRun(c, states, actions) && i < |states| && sid in c && InTodo(states[i], sid)
    ensures sid in states[i].services && states[i].services[sid].cleaner.NotSpawned?
    ensures var s, next := states[i], Step(c, states[i], OfShutdown(PrepareService(sid)));
            && (next.Some? <==> LockFree(s.services[sid]))
            && (next.Some? ==>
                  && sid in next.value.services
                  && next.value.services[sid]
                       == s.services[sid].(cleaner := if CleanupDue(s.services[sid].log) then Polling(s.now) else NotSpawned))
  {
    TodoHasNoCleaner(c, states, actions, i, sid);
    RunLegal(c, states, actions, i, sid);
    PreparationReadsLog(c[sid], states[i].now, states[i].drained, states[i].services[sid]);
  }

  // ---- How each cleanup comes out ----

  /** With a stop on record no lease is open. */
  lemma {:induction false} SignalledHasNoLease(idleTimeout: Duration, log: Log, n: nat)
    requires Legal(idleTimeout, log) && 1 <= n <= |log| && DigestOf(log[..n]).signalled
    ensures DigestOf(log[..n]).leases == 0
  {
    FirstDigest(log);
    At(idleTimeout, log, n - 1);
    if !log[n - 1].kind.StopStarted? {
      SignalledHasNoLease(idleTimeout, log, n - 1);
    }
  }

  /** A service whose cleanup is under way or has come out: a stop is on record, an attempt is open, one has ended after
      the drain, or its cleaner polls. */
  ghost predicate Handled(v: Service) {
    DigestOf(v.log).signalled || v.tasks != [] || EndedAfterDrain(v.log) || v.cleaner.Polling?
  }

  /** The cleaner gives up on a service in use. */
  predicate GivesUp(now: Instant, v: Service, a: ServiceAction) {
    a.Poll? && a.drainDeadline <= now && v.cleaner.Polling? && Lifecycle.ShutdownDecision(v.life, v.wake.Launching?).Busy?
  }

  lemma EndedStays(log: Log, e: Event)
    requires EndedAfterDrain(log)
    ensures EndedAfterDrain(log + [e])
  {
    var m: nat, k: nat :| EndFollowsDrain(log, m, k);
    assert EndFollowsDrain(log + [e], m, k);
  }

  lemma EndRecorded(idleTimeout: Duration, log: Log, e: Event)
    requires Legal(idleTimeout, log) && DigestOf(log).drained && e.kind.EndsAttempt()
    ensures EndedAfterDrain(log + [e])
  {
    var n := |log|;
    assert log[..n] == log;
    DrainedBefore(idleTimeout, log, n);
    var m :| 1 <= m < n && log[m].kind.Drained?;
    assert EndFollowsDrain(log + [e], m, n);
  }

  lemma HandledLogged(c: Settings, now: Instant, v: Service, w: Service, e: Event)
    requires ServiceInv(c, now, true, v) && Handled(v)
    requires w.log == v.log + [e] && (e.kind.IsActivity() ==> e.kind.Release? && v.life.inFlight > 0)
    requires w.cleaner == v.cleaner && (|w.tasks| == |v.tasks| || e.kind.EndsAttempt())
    ensures Handled(w)
  {
    DigestAppend(v.log, e);
    if e.kind.EndsAttempt() {
      EndRecorded(c.idleTimeout, v.log, e);
    }
    if EndedAfterDrain(v.log) {
      EndedStays(v.log, e);
    }
    if DigestOf(v.log).signalled {
      assert v.log[..|v.log|] == v.log;
      SignalledHasNoLease(c.idleTimeout, v.log, |v.log|);
    }
  }

  /** The event of a critical section after the drain, if it logs one. */
  lemma StepEvent(c: Settings, now: Instant, v: Service, a: ServiceAction) returns (e: Option<Event>)
    requires ServiceInv(c, now, true, v) && Possible(true, a) && ServiceStep(c, now, v, a).Some? && !a.Poll?
    ensures var w := ServiceStep(c, now, v, a).value;
            if e.None? then
              w.log == v.log && |w.tasks| == |v.tasks| && (w.cleaner == v.cleaner || w.cleaner.Polling?)
            else
              && w.log == v.log + [e.value] && w.cleaner == v.cleaner
              && (e.value.kind.IsActivity() ==> e.value.kind.Release? && v.life.inFlight > 0)
              && (|w.tasks| == |v.tasks| || e.value.kind.EndsAttempt())
  {
    var w := ServiceStep(c, now, v, a).value;
    e := if |w.log| > |v.log| then Some(w.log[|v.log|]) else None;
  }

  /** Handled services stay so, unless the cleaner gives up. */
  lemma HandledStep(c: Settings, now: Instant, v: Service, a: ServiceAction)
    requires ServiceInv(c, now, true, v) && Possible(true, a) && ServiceStep(c, now, v, a).Some?
    requires Handled(v)
    ensures Handled(ServiceStep(c, now, v, a).value) || GivesUp(now, v, a)
  {
    var w := ServiceStep(c, now, v, a).value;
    if !a.Poll? {
      var e := StepEvent(c, now, v, a);
      if e.Some? {
        HandledLogged(c, now, v, w, e.value);
      }
    }
  }

  lemma PrepareHandles(c: Settings, now: Instant, v: Service)
    requires ServiceInv(c, now, true, v) && ServiceStep(c, now, v, Prepare).Some?
    ensures Handled(ServiceStep(c, now, v, Prepare).value)
  {
  }

  ghost predicate Prepared(s: State, sid: ServiceId) {
    s.drained && !InTodo(s, sid)
  }

  /** Between two states the cleaner of a service gives up: the service is in use, and the cleanup limit of 5 s is over. */
  ghost predicate GaveUp(s: State, next: State, sid: ServiceId) {
    && sid in s.services && sid in next.services
    && s.services[sid].cleaner.Polling? && next.services[sid].cleaner.Ended?
    && next.services[sid].log == s.services[sid].log
    && ShownBusy(s.services[sid].log)
    && s.cleanupStart + 5 * SECOND <= s.now
  }

  ghost predicate GaveUpAt(states: seq<State>, j: nat, sid: ServiceId) {
    j + 1 < |states| && GaveUp(states[j], states[j + 1], sid)
  }

  /** The decision of a cleaner reads the log. */
  lemma DecisionReadsLog(c: Settings, now: Instant, drained: bool, v: Service)
    requires ServiceInv(c, now, drained, v)
    ensures var decision := Lifecycle.ShutdownDecision(v.life, v.wake.Launching?);
            && (decision.AlreadySignalled? <==> StopStands(v.log))
            && (decision.Busy? <==> !StopStands(v.log) && ShownBusy(v.log))
            && (decision.Ready? <==> !StopStands(v.log) && !ShownBusy(v.log))
  {
    StopStandsIsSignal(c.idleTimeout, v.log);
    DigestCounts(v.log);
    assert v.log[..|v.log|] == v.log;
    LaunchingIsShown(c.idleTimeout, v.log, |v.log|);
  }

  /** What a poll does, in every run: with the lock free and its time come, the cleaner of a service in use polls again
      20 ms later, or gives up once 5 s have passed since cleanup started; of any other service it begins an attempt. */
  lemma PollExact(c: Config, states: seq<State>, actions: seq<Action>, i: nat, sid: ServiceId)
    requires ValidConfig(c) && IsRun(c, states, actions) && i < |states| && sid in c
    ensures sid in states[i].services
    ensures var s, v := states[i], states[i].services[sid];
            var polled := ServiceStep(c[sid], s.now, v, Poll(DrainDeadline(s)));
            && (polled.Some? <==> v.cleaner.Polling? && v.cleaner.wakeAt <= s.now)
            && (polled.Some? && ShownBusy(v.log) ==>
                  polled.value == v.(cleaner := if s.cleanupStart + 5 * SECOND <= s.now then Ended
                                                else Polling(s.now + 20 * MILLISECOND)))
            && (polled.Some? && !ShownBusy(v.log) ==>
                  && polled.value.log == v.log + [Event(s.now, Began(false, s.now))]
                  && |polled.value.tasks| == 1 && polled.value.cleaner.Ended?)
  {
    RunLegal(c, states, actions, i, sid);
    var s, v := states[i], states[i].services[sid];
    DecisionReadsLog(c[sid], s.now, s.drained, v);
    StopStandsIsSignal(c[sid].idleTimeout, v.log);
  }

  lemma PreparedWork(c: Config, s: State, next: State, sid: ServiceId, work: Option<ServiceAction>)
    requires Worked(c, s, next, sid, work) && ServiceInv(c[sid], s.now, true, s.services[sid])
    requires work == Some(Prepare) || Handled(s.services[sid])
    ensures Handled(next.services[sid]) || GaveUp(s, next, sid)
  {
    if work == Some(Prepare) {
      PrepareHandles(c[sid], s.now, s.services[sid]);
    } else if work.Some? {
      HandledStep(c[sid], s.now, s.services[sid], work.value);
      if GivesUp(s.now, s.services[sid], work.value) {
        DecisionReadsLog(c[sid], s.now, true, s.services[sid]);
      }
    }
  }

  lemma PreparedStep(c: Config, s: State, a: Action, next: State, sid: ServiceId)
    requires Inv(c, s) && Step(c, s, a) == Some(next) && sid in c && sid in s.services
    requires Prepared(next, sid) && next.services.Keys == c.Keys && (Prepared(s, sid) ==> Handled(s.services[sid]))
    ensures Handled(next.services[sid]) || GaveUp(s, next, sid)
  {
    assert ServiceOk(c, s.now, s.drained, s.services, sid);
    TodoAfter(c, s, a, next, sid);
    var work := WorkOf(c, s, a, next, sid);
    PreparedWork(c, s, next, sid, work);
  }

  /** Handled, unless its cleaner has given up at an earlier step. */
  ghost predicate HandledBy(states: seq<State>, i: nat, sid: ServiceId)
    requires i < |states|
  {
    && sid in states[i].services
    && (Handled(states[i].services[sid]) || exists j: nat :: j < i && GaveUpAt(states, j, sid))
  }

  lemma HandledNext(c: Config, states: seq<State>, actions: seq<Action>, i: nat, sid: ServiceId)
    requires ValidConfig(c) && IsRun(c, states, actions) && i < |actions| && sid in c && Prepared(states[i + 1], sid)
    requires Prepared(states[i], sid) ==> HandledBy(states, i, sid)
    ensures HandledBy(states, i + 1, sid)
  {
    var after := i + 1;
    RunInv(c, states, actions, i);
    RunOrder(c, states, actions, after);
    assert StepsTo(c, states, actions, i);
    if j: nat :| Prepared(states[i], sid) && j < i && GaveUpAt(states, j, sid) {
      assert j < after && GaveUpAt(states, j, sid);
    } else {
      PreparedStep(c, states[i], actions[i], states[after], sid);
      assert GaveUp(states[i], states[after], sid) ==> GaveUpAt(states, i, sid);
    }
  }

  /** Once a service is prepared it is handled, or its cleaner has given up. */
  lemma {:induction false} PreparedIsHandled(c: Config, states: seq<State>, actions: seq<Action>, i: nat, sid: ServiceId)
    requires ValidConfig(c) && IsRun(c, states, actions) && i < |states| && sid in c && Prepared(states[i], sid)
    ensures HandledBy(states, i, sid)
  {
    if i > 0 {
      if Prepared(states[i - 1], sid) {
        PreparedIsHandled(c, states, actions, i - 1, sid);
      }
      HandledNext(c, states, actions, i - 1, sid);
    }
  }

  /** No service is forgotten: when the phase is completed after a drain, every service's log shows a stop that no activity
      has followed, or the end of an attempt after the drain, or its cleaner gave up, at least 5 s after cleanup started,
      on a service that its log shows in use. */
  lemma CompletedAfterDrain(c: Config, states: seq<State>, actions: seq<Action>, i: nat, sid: ServiceId)
    requires ValidConfig(c) && IsRun(c, states, actions) && i < |states| && sid in c
    requires states[i].phase.Completed? && states[i].drained
    ensures sid in states[i].services
    ensures var log := states[i].services[sid].log;
            StopStands(log) || EndedAfterDrain(log) || exists j: nat :: j < i && GaveUpAt(states, j, sid)
  {
    RunOrder(c, states, actions, i);
    RunLegal(c, states, actions, i, sid);
    PreparedIsHandled(c, states, actions, i, sid);
    StopStandsIsSignal(c[sid].idleTimeout, states[i].services[sid].log);
  }
}
