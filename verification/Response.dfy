/** Bounded responses under exact timers, in every interleaving: how soon an idle service has its stop decision, the drain
    wait its end, and a quiet service its shutdown attempt. */
module Response {
  import opened Clock
  import opened Guarantees
  import opened History
  import opened HistoryTheorems
  import opened Lifecycle
  import opened LogReading
  import opened PromptInvariant
  import opened PromptRuns
  import opened Protocol
  import opened ProtocolInvariant
  import opened Punctual
  import opened ServiceInvariant
  import opened ServiceModel

  // ---- The order of the background task ----

  function MonitorStage(m: Monitor): nat {
    match m
    case Monitoring => 0
    case DrainTest(_) => 1
    case DrainWait(_) => 1
    case Preparing(_) => 2
    case Joining => 3
    case Stopped => 4
  }

  lemma MonitorOnward(c: Config, s: State, a: Action)
    requires Step(c, s, a).Some?
    ensures MonitorStage(s.monitor) <= MonitorStage(Step(c, s, a).value.monitor)
  {
    match a
    case OfRequest(r, request) => RequestStepServices(c, s, r, request);
    case OfScan(scan) => ScanStepServices(c, s, scan);
    case _ =>
  }

  lemma {:induction false} MonitorOnwardAlong(c: Config, states: seq<State>, actions: seq<Action>, i: nat, j: nat)
    requires IsRun(c, states, actions) && i <= j < |states|
    ensures MonitorStage(states[i].monitor) <= MonitorStage(states[j].monitor)
  {
    if i < j {
      MonitorOnwardAlong(c, states, actions, i, j - 1);
      assert StepsTo(c, states, actions, j - 1);
      MonitorOnward(c, states[j - 1], actions[j - 1]);
    }
  }

  lemma PunctualStepAt(c: Config, states: seq<State>, actions: seq<Action>, i: nat)
    requires PunctualRun(c, states, actions) && i < |actions|
    ensures Step(c, states[i], actions[i]) == Some(states[i + 1]) && PunctualTick(c, states[i], actions[i])
  {
    assert StepsTo(c, states, actions, i);
  }

  // ---- Stop decisions ----

  predicate MayBegin(c: Config, s: State, sid: ServiceId) {
    && sid in c && sid in s.services
    && MayBeginStop(s.services[sid].life, s.services[sid].wake.Launching?, c[sid].idleTimeout, s.now)
  }

  /** When the idle monitor comes to a service next. */
  function NextVisit(s: State, sid: ServiceId): Instant {
    if sid in s.unscanned then s.now else s.scanDue
  }

  lemma MayBeginLater(l: LifecycleState, launching: bool, idleTimeout: Duration, now: Instant, later: Instant)
    requires MayBeginStop(l, launching, idleTimeout, now) && now <= later
    ensures MayBeginStop(l, launching, idleTimeout, later)
  {
  }

  /** The log fixes the record and the launch state. */
  lemma SameLogSameRecord(c: Settings, now: Instant, drained: bool, v: Service, later: Instant, drainedLater: bool, w: Service)
    requires ServiceInv(c, now, drained, v) && ServiceInv(c, later, drainedLater, w) && v.log == w.log
    ensures v.life == w.life && v.wake == w.wake
  {
  }

  /** A visit to a service that may begin a stop begins one. */
  lemma VisitBegins(c: Config, s: State, sid: ServiceId)
    requires MayBegin(c, s, sid) && s.scanReading == s.now && ScanStep(c, s, Visit(sid)).Some?
    ensures sid in ScanStep(c, s, Visit(sid)).value.services
    ensures ScanStep(c, s, Visit(sid)).value.services[sid].log != s.services[sid].log
  {
    var log := s.services[sid].log;
    var e := Event(s.now, Began(true, s.now));
    assert OnService(c, s, sid, Scan(s.now)).Some?;
    assert ScanStep(c, s, Visit(sid)).value.services[sid].log == log + [e];
    assert |log + [e]| == |log| + 1;
  }

  /** While the idle monitor runs on and the log of a service that may begin a stop stands still, the next visit to the
      service is not put off. */
  lemma VisitNotPutOff(c: Config, s: State, a: Action, sid: ServiceId)
    requires OnTime(s) && ShutdownOk(s) && Step(c, s, a).Some? && PunctualTick(c, s, a) && MayBegin(c, s, sid)
    requires s.monitor.Monitoring? && Step(c, s, a).value.monitor.Monitoring?
    requires sid in Step(c, s, a).value.services && Step(c, s, a).value.services[sid].log == s.services[sid].log
    ensures NextVisit(Step(c, s, a).value, sid) <= NextVisit(s, sid)
  {
    match a
    case OfRequest(r, request) => RequestStepServices(c, s, r, request);
    case OfScan(scan) =>
      ScanStepServices(c, s, scan);
      if scan == Visit(sid) {
        VisitBegins(c, s, sid);
      }
    case _ =>
  }

  lemma LogOnward(c: Config, states: seq<State>, actions: seq<Action>, i: nat, sid: ServiceId)
    requires ValidConfig(c) && IsRun(c, states, actions) && i < |actions| && sid in c
    ensures sid in states[i].services && sid in states[i + 1].services
    ensures states[i].services[sid].log <= states[i + 1].services[sid].log
  {
    RunLegal(c, states, actions, i, sid);
    assert StepsTo(c, states, actions, i);
    var e := NewEvent(c, states[i], actions[i], sid);
  }

  lemma {:induction false} LogOnwardAlong(c: Config, states: seq<State>, actions: seq<Action>, i: nat, j: nat, sid: ServiceId)
    requires ValidConfig(c) && IsRun(c, states, actions) && i <= j < |states| && sid in c
    ensures sid in states[i].services && sid in states[j].services
    ensures states[i].services[sid].log <= states[j].services[sid].log
  {
    RunLegal(c, states, actions, i, sid);
    if i < j {
      LogOnwardAlong(c, states, actions, i, j - 1, sid);
      LogOnward(c, states, actions, j - 1, sid);
    }
  }

  lemma NowOnward(c: Config, states: seq<State>, actions: seq<Action>, i: nat)
    requires IsRun(c, states, actions) && i < |actions|
    ensures states[i].now <= states[i + 1].now
  {
    assert StepsTo(c, states, actions, i);
    NowAfter(c, states[i], actions[i]);
  }

  lemma StillMayBegin(c: Config, states: seq<State>, actions: seq<Action>, i: nat, j: nat, sid: ServiceId)
    requires ValidConfig(c) && IsRun(c, states, actions) && i < |states| && j < |states| && MayBegin(c, states[i], sid)
    requires sid in states[j].services && states[j].services[sid].log == states[i].services[sid].log
    requires states[i].now <= states[j].now
    ensures MayBegin(c, states[j], sid)
  {
    RunLegal(c, states, actions, i, sid);
    RunLegal(c, states, actions, j, sid);
    var v, w := states[i].services[sid], states[j].services[sid];
    SameLogSameRecord(c[sid], states[i].now, states[i].drained, v, states[j].now, states[j].drained, w);
    MayBeginLater(v.life, v.wake.Launching?, c[sid].idleTimeout, states[i].now, states[j].now);
  }

  lemma {:induction false} WaitsForItsVisit(c: Config, states: seq<State>, actions: seq<Action>, i: nat, j: nat, sid: ServiceId)
    requires ValidConfig(c) && PunctualRun(c, states, actions) && i <= j < |states|
    requires MayBegin(c, states[i], sid) && states[j].monitor.Monitoring?
    requires sid in states[j].services && states[j].services[sid].log == states[i].services[sid].log
    ensures NextVisit(states[j], sid) <= NextVisit(states[i], sid)
    ensures states[i].now <= states[j].now
  {
    if i < j {
      LogOnwardAlong(c, states, actions, i, j - 1, sid);
      LogOnward(c, states, actions, j - 1, sid);
      NowOnward(c, states, actions, j - 1);
      MonitorOnwardAlong(c, states, actions, j - 1, j);
      WaitsForItsVisit(c, states, actions, i, j - 1, sid);
      StillMayBegin(c, states, actions, i, j - 1, sid);
      RunOnTime(c, states, actions, j - 1);
      RunOrder(c, states, actions, j - 1);
      PunctualStepAt(c, states, actions, j - 1);
      VisitNotPutOff(c, states[j - 1], actions[j - 1], sid);
    }
  }

  /** The next scan is due at the first instant after the present one that lies on the 100 ms grid of the scan that was due. */
  lemma NextScanIsFirst(due: Instant, now: Instant, later: Instant)
    requires due <= now
    ensures now < NextScan(due, now) <= now + 100 * MILLISECOND
    ensures (NextScan(due, now) - due) % (100 * MILLISECOND) == 0
    ensures now < later && (later - due) % (100 * MILLISECOND) == 0 ==> NextScan(due, now) <= later
  {
    var n := (now - due) / (100 * MILLISECOND);
    if now < later && (later - due) % (100 * MILLISECOND) == 0 {
      var m := (later - due) / (100 * MILLISECOND);
      assert n < m;
    }
  }

  /** As long as its log stands still, a service that may begin a stop is visited within one scan interval. */
  lemma VisitedWithinOneScan(c: Config, states: seq<State>, actions: seq<Action>, i: nat, j: nat, sid: ServiceId)
    requires ValidConfig(c) && PunctualRun(c, states, actions) && i <= j < |states|
    requires MayBegin(c, states[i], sid) && states[j].monitor.Monitoring?
    requires sid in states[j].services && states[j].services[sid].log == states[i].services[sid].log
    ensures states[j].now <= states[i].now + IDLE_SCAN_INTERVAL
  {
    WaitsForItsVisit(c, states, actions, i, j, sid);
    RunOnTime(c, states, actions, i);
    RunOnTime(c, states, actions, j);
    MonitorOnwardAlong(c, states, actions, i, j);
  }

  lemma {:induction false} FirstGrowth(c: Config, states: seq<State>, actions: seq<Action>, i: nat, j: nat, sid: ServiceId)
    returns (k: nat)
    requires ValidConfig(c) && IsRun(c, states, actions) && i <= j < |states| && sid in c
    requires sid in states[i].services && sid in states[j].services
    requires states[i].services[sid].log != states[j].services[sid].log
    ensures i <= k < j && sid in states[k].services && sid in states[k + 1].services
    ensures states[k].services[sid].log == states[i].services[sid].log != states[k + 1].services[sid].log
  {
    k := j - 1;
    LogOnwardAlong(c, states, actions, i, k, sid);
    if states[k].services[sid].log != states[i].services[sid].log {
      k := FirstGrowth(c, states, actions, i, k, sid);
    }
  }

  /** What can come next on a service that may begin a stop, in a prompt run while the idle monitor runs. */
  predicate DecisionOrRequest(k: Kind) {
    (k.Began? && k.idle) || k.Arrival? || k.Acquire?
  }

  lemma NextKind(idleTimeout: Duration, log: Log, at: Instant, e: Event)
    requires Legal(idleTimeout, log) && Legal(idleTimeout, log + [e]) && Permits(idleTimeout, log, at)
    requires !DigestOf(log).drained && !e.kind.LaunchStarted? && !e.kind.Drained?
    ensures DecisionOrRequest(e.kind)
  {
    PermitsIffDigest(idleTimeout, log, at);
    DigestInRange(idleTimeout, log);
    SoundEvent(idleTimeout, log, e);
  }

  /** A prompt request asks for no launch of a service that may begin a stop. */
  lemma NoLaunchWhenIdle(c: Config, s: State, r: RequestId, sid: ServiceId)
    requires ValidConfig(c) && ProbesYoung(c, s) && MayBegin(c, s, sid)
    requires RequestStep(c, s, r, AskLaunch).Some?
    ensures s.requests[r].stage.Probing? && s.requests[r].stage.sid != sid
  {
    assert ProbeYoung(c, s, r);
  }

  /** What the log of such a service gains while the idle monitor runs is no launch and no drain. */
  lemma EventWhenIdle(c: Config, s: State, a: Action, sid: ServiceId) returns (e: Event)
    requires ValidConfig(c) && ShutdownOk(s) && ProbesYoung(c, s) && MayBegin(c, s, sid)
    requires s.monitor.Monitoring? && Step(c, s, a).Some?
    requires sid in Step(c, s, a).value.services && Step(c, s, a).value.services[sid].log != s.services[sid].log
    ensures Step(c, s, a).value.services[sid].log == s.services[sid].log + [e]
    ensures e.time == s.now && !e.kind.LaunchStarted? && !e.kind.Drained?
  {
    var found := NewEvent(c, s, a, sid);
    e := found.value;
    if e.kind.LaunchStarted? {
      NoLaunchWhenIdle(c, s, a.r, sid);
      RequestStepServices(c, s, a.r, a.request);
    }
  }

  /** Bounded response of idle stopping: under exact timers and with prompt requests, on a service whose log permits a stop
      decision the next thing to happen is such a decision, or a request that arrives or takes its lease, and it happens
      within one scan interval, unless cleanup has started by then. */
  lemma StopDecidedWithinOneScan(c: Config, states: seq<State>, actions: seq<Action>, i: nat, j: nat, sid: ServiceId)
    requires ValidConfig(c) && PunctualRun(c, states, actions) && PromptRun(c, states, actions) && i <= j < |states| && sid in c
    requires sid in states[i].services && sid in states[j].services
    requires Permits(c[sid].idleTimeout, states[i].services[sid].log, states[i].now)
    requires states[j].monitor.Monitoring? && states[i].now + 100 * MILLISECOND < states[j].now
    ensures var before, after := states[i].services[sid].log, states[j].services[sid].log;
            && before < after
            && after[|before|].time <= states[i].now + 100 * MILLISECOND
            && DecisionOrRequest(after[|before|].kind)
  {
    BeginRefinesLog(c, states, actions, i, sid, states[i].now);
    LogOnwardAlong(c, states, actions, i, j, sid);
    if states[j].services[sid].log == states[i].services[sid].log {
      VisitedWithinOneScan(c, states, actions, i, j, sid);
    }
    var k := FirstGrowth(c, states, actions, i, j, sid);
    MonitorOnwardAlong(c, states, actions, k, j);
    VisitedWithinOneScan(c, states, actions, i, k, sid);
    WaitsForItsVisit(c, states, actions, i, k, sid);
    StillMayBegin(c, states, actions, i, k, sid);
    var e := EventAfterIdle(c, states, actions, k, sid, states[i].now);
    LogOnwardAlong(c, states, actions, k + 1, j, sid);
  }

  lemma EventAfterIdle(c: Config, states: seq<State>, actions: seq<Action>, k: nat, sid: ServiceId, at: Instant)
    returns (e: Event)
    requires ValidConfig(c) && PromptRun(c, states, actions) && k < |actions| && MayBegin(c, states[k], sid)
    requires states[k].monitor.Monitoring? && sid in states[k + 1].services
    requires Permits(c[sid].idleTimeout, states[k].services[sid].log, at)
    requires states[k].services[sid].log != states[k + 1].services[sid].log
    ensures states[k + 1].services[sid].log == states[k].services[sid].log + [e]
    ensures e.time == states[k].now && DecisionOrRequest(e.kind)
  {
    assert StepsTo(c, states, actions, k);
    RunOrder(c, states, actions, k);
    PromptRunInv(c, states, actions, k);
    e := EventWhenIdle(c, states[k], actions[k], sid);
    RunLegal(c, states, actions, k, sid);
    RunLegal(c, states, actions, k + 1, sid);
    NextKind(c[sid].idleTimeout, states[k].services[sid].log, at, e);
  }

  // ---- The drain wait ----

  predicate Draining(m: Monitor) {
    m.DrainTest? || m.DrainWait?
  }

  lemma DrainHoldsTime(c: Config, s: State, a: Action)
    requires GuardsOk(c, s) && OrderOk(s) && Draining(s.monitor) && s.gate.admitted == 0
    requires Step(c, s, a).Some? && PunctualTick(c, s, a)
    ensures Step(c, s, a).value.now == s.now && Step(c, s, a).value.gate.admitted == 0
  {
    NowAfter(c, s, a);
    StaysClosedAndEmpty(c, s, a);
  }

  /** No lost wakeup, in time: from the instant at which the last admission is gone no time passes until the drain wait is
      over. */
  lemma {:induction false} DrainSeenAtOnce(c: Config, states: seq<State>, actions: seq<Action>, i: nat, j: nat)
    requires ValidConfig(c) && PunctualRun(c, states, actions) && i <= j < |states|
    requires Draining(states[i].monitor) && states[i].gate.admitted == 0 && Draining(states[j].monitor)
    ensures states[j].now == states[i].now && states[j].gate.admitted == 0
  {
    if i < j {
      MonitorOnwardAlong(c, states, actions, i, j - 1);
      MonitorOnwardAlong(c, states, actions, j - 1, j);
      DrainSeenAtOnce(c, states, actions, i, j - 1);
      RunGuards(c, states, actions, j - 1);
      RunOrder(c, states, actions, j - 1);
      PunctualStepAt(c, states, actions, j - 1);
      DrainHoldsTime(c, states[j - 1], actions[j - 1]);
    }
  }

  /** The result of the drain wait: drained exactly when nothing is admitted, and otherwise it gives up exactly at the
      deadline. */
  lemma DrainWaitResult(c: Config, states: seq<State>, actions: seq<Action>, i: nat)
    requires ValidConfig(c) && PunctualRun(c, states, actions) && i < |actions|
    requires Draining(states[i].monitor) && !Draining(states[i + 1].monitor)
    ensures states[i + 1].drained <==> states[i].gate.admitted == 0
    ensures states[i + 1].drained <==> states[i + 1].monitor.Preparing?
    ensures !states[i + 1].drained ==> states[i].now == states[i].cleanupStart + 5 * SECOND
    ensures states[i].now <= states[i].cleanupStart + 5 * SECOND
  {
    RunOnTime(c, states, actions, i);
    RunOrder(c, states, actions, i);
    PunctualStepAt(c, states, actions, i);
    DrainStepResult(c, states[i], actions[i]);
  }

  lemma DrainStepResult(c: Config, s: State, a: Action)
    requires ShutdownOk(s) && MonitorOnTime(s) && Draining(s.monitor) && Step(c, s, a).Some?
    requires !Draining(Step(c, s, a).value.monitor)
    ensures var s' := Step(c, s, a).value;
            && (s'.drained <==> s.gate.admitted == 0) && (s'.drained <==> s'.monitor.Preparing?)
            && (!s'.drained ==> s.now == DrainDeadline(s))
  {
    match a
    case OfRequest(r, request) => RequestStepServices(c, s, r, request);
    case _ =>
  }

  // ---- The cleanup polls ----

  /** The cleaner of a service that is ready for its shutdown attempt, with its wakeup at `wakeAt`. */
  predicate ReadyToPoll(s: State, sid: ServiceId, wakeAt: Instant) {
    && sid in s.services
    && s.services[sid].cleaner == Polling(wakeAt)
    && ShutdownDecision(s.services[sid].life, s.services[sid].wake.Launching?).Ready?
  }

  lemma TaskKeepsReady(c: Settings, now: Instant, drained: bool, v: Service, work: ServiceAction)
    requires ServiceInv(c, now, drained, v) && v.cleaner.Polling? && ShutdownDecision(v.life, v.wake.Launching?).Ready?
    requires ServiceStep(c, now, v, work).Some? && ServiceStep(c, now, v, work).value.cleaner.Polling?
    requires !work.Arrive? && !work.Acquire? && !work.RequestLaunch? && !work.Scan? && !work.Prepare?
    ensures var w := ServiceStep(c, now, v, work).value;
            w.cleaner == v.cleaner && ShutdownDecision(w.life, w.wake.Launching?).Ready?
  {
  }

  lemma OnServiceKeepsReady(c: Config, s: State, touched: ServiceId, work: ServiceAction, sid: ServiceId, wakeAt: Instant)
    requires ServicesOk(c, s.now, s.drained, s.services) && ReadyToPoll(s, sid, wakeAt)
    requires OnService(c, s, touched, work).Some?
    requires !work.Arrive? && !work.Acquire? && !work.RequestLaunch? && !work.Scan? && !work.Prepare?
    requires OnService(c, s, touched, work).value.services[sid].cleaner.Polling?
    ensures ReadyToPoll(OnService(c, s, touched, work).value, sid, wakeAt)
  {
    if touched == sid {
      assert ServiceOk(c, s.now, s.drained, s.services, sid);
      TaskKeepsReady(c[sid], s.now, s.drained, s.services[sid], work);
    }
  }

  lemma RequestKeepsReady(c: Config, s: State, r: RequestId, a: RequestAction, sid: ServiceId, wakeAt: Instant)
    requires ServicesOk(c, s.now, s.drained, s.services) && GuardsOk(c, s) && ClosedAndEmpty(s) && ReadyToPoll(s, sid, wakeAt)
    requires RequestStep(c, s, r, a).Some?
    ensures ReadyToPoll(RequestStep(c, s, r, a).value, sid, wakeAt)
  {
    NoPathWithoutAdmission(c, s, r, a);
    RequestStepServices(c, s, r, a);
    if a.DropLease? {
      var touched := Touched(s.requests[r], a).value;
      TasksAfterRequest(c[touched], s.now, s.services[touched], ServiceAction.Release);
      OnServiceKeepsReady(c, s, touched, ServiceAction.Release, sid, wakeAt);
    }
  }

  lemma WorkKeepsReady(c: Config, s: State, touched: ServiceId, work: ServiceAction, sid: ServiceId, wakeAt: Instant)
    requires ServicesOk(c, s.now, s.drained, s.services) && ReadyToPoll(s, sid, wakeAt)
    requires s.monitor.Joining? && TaskWork(s, work) && OnService(c, s, touched, work).Some?
    requires OnService(c, s, touched, work).value.services[sid].cleaner.Polling?
    ensures ReadyToPoll(OnService(c, s, touched, work).value, sid, wakeAt)
  {
    OnServiceKeepsReady(c, s, touched, work, sid, wakeAt);
  }

  /** While cleanup joins its tasks, only a cleaner that polls before an action polls after it, and a service that is ready
      stays so until its poll. */
  lemma ReadyKept(c: Config, s: State, a: Action, sid: ServiceId, wakeAt: Instant)
    requires ServicesOk(c, s.now, s.drained, s.services) && GuardsOk(c, s) && ClosedAndEmpty(s)
    requires s.monitor.Joining? && ReadyToPoll(s, sid, wakeAt)
    requires Step(c, s, a).Some?
    requires sid in Step(c, s, a).value.services && Step(c, s, a).value.services[sid].cleaner.Polling?
    ensures ReadyToPoll(Step(c, s, a).value, sid, wakeAt)
  {
    match a
    case OfRequest(r, request) => RequestKeepsReady(c, s, r, request, sid, wakeAt);
    case OfService(touched, work) => WorkKeepsReady(c, s, touched, work, sid, wakeAt);
    case OfScan(_) =>
    case OfShutdown(shutdown) => ShutdownStepServices(c, s, shutdown);
    case Tick(_) =>
  }

  lemma CleanerAfter(c: Settings, now: Instant, v: Service, work: ServiceAction)
    requires ServiceStep(c, now, v, work).Some? && !work.Prepare? && ServiceStep(c, now, v, work).value.cleaner.Polling?
    ensures v.cleaner.Polling?
  {
  }

  lemma PolledBefore(c: Config, s: State, a: Action, sid: ServiceId)
    requires Step(c, s, a).Some? && s.monitor.Joining? && sid in s.services
    requires sid in Step(c, s, a).value.services && Step(c, s, a).value.services[sid].cleaner.Polling?
    ensures s.services[sid].cleaner.Polling?
  {
    match a
    case OfRequest(r, request) =>
      RequestStepServices(c, s, r, request);
      if TouchesService(request) {
        var touched := Touched(s.requests[r], request).value;
        TasksAfterRequest(c[touched], s.now, s.services[touched], ServiceActionOf(request));
      }
    case OfService(touched, work) =>
      if touched == sid {
        CleanerAfter(c[sid], s.now, s.services[sid], work);
      }
    case OfScan(_) =>
    case OfShutdown(shutdown) => ShutdownStepServices(c, s, shutdown);
    case Tick(_) =>
  }

  lemma PollingIsDrained(c: Config, s: State, sid: ServiceId)
    requires ServicesOk(c, s.now, s.drained, s.services) && ShutdownOk(s) && sid in c && s.services[sid].cleaner.Polling?
    ensures ClosedAndEmpty(s)
  {
    assert ServiceOk(c, s.now, s.drained, s.services, sid);
  }

  lemma {:induction false} StaysReady(c: Config, states: seq<State>, actions: seq<Action>, i: nat, j: nat, sid: ServiceId,
                                      wakeAt: Instant)
    requires ValidConfig(c) && IsRun(c, states, actions) && i <= j < |states| && sid in c
    requires states[i].monitor.Joining? && states[j].monitor.Joining?
    requires ReadyToPoll(states[i], sid, wakeAt) && sid in states[j].services && states[j].services[sid].cleaner.Polling?
    ensures ReadyToPoll(states[j], sid, wakeAt)
  {
    if i < j {
      MonitorOnwardAlong(c, states, actions, i, j - 1);
      MonitorOnwardAlong(c, states, actions, j - 1, j);
      PolledJustBefore(c, states, actions, j - 1, sid);
      StaysReady(c, states, actions, i, j - 1, sid, wakeAt);
      NextReady(c, states, actions, j - 1, sid, wakeAt);
    }
  }

  lemma PolledJustBefore(c: Config, states: seq<State>, actions: seq<Action>, j: nat, sid: ServiceId)
    requires ValidConfig(c) && IsRun(c, states, actions) && j < |actions| && sid in c && states[j].monitor.Joining?
    requires sid in states[j + 1].services && states[j + 1].services[sid].cleaner.Polling?
    ensures sid in states[j].services && states[j].services[sid].cleaner.Polling?
  {
    RunLegal(c, states, actions, j, sid);
    assert StepsTo(c, states, actions, j);
    PolledBefore(c, states[j], actions[j], sid);
  }

  lemma NextReady(c: Config, states: seq<State>, actions: seq<Action>, j: nat, sid: ServiceId, wakeAt: Instant)
    requires ValidConfig(c) && IsRun(c, states, actions) && j < |actions| && sid in c
    requires states[j].monitor.Joining? && ReadyToPoll(states[j], sid, wakeAt)
    requires sid in states[j + 1].services && states[j + 1].services[sid].cleaner.Polling?
    ensures ReadyToPoll(states[j + 1], sid, wakeAt)
  {
    assert StepsTo(c, states, actions, j);
    RunInv(c, states, actions, j);
    PollingIsDrained(c, states[j], sid);
    ReadyKept(c, states[j], actions[j], sid, wakeAt);
  }

  /** Bounded response of cleanup: under exact timers, a service that is ready for its shutdown attempt while its cleaner
      polls is polled, and so has its attempt, within one poll interval. */
  lemma PolledWithinOneInterval(c: Config, states: seq<State>, actions: seq<Action>, i: nat, j: nat, sid: ServiceId)
    requires ValidConfig(c) && PunctualRun(c, states, actions) && i <= j < |states| && sid in c && sid in states[i].services
    requires states[i].monitor.Joining? && states[j].monitor.Joining? && states[i].services[sid].cleaner.Polling?
    requires ReadyToPoll(states[i], sid, states[i].services[sid].cleaner.wakeAt)
    requires sid in states[j].services && states[j].services[sid].cleaner.Polling?
    ensures states[j].now <= states[i].now + 20 * MILLISECOND
  {
    var wakeAt := states[i].services[sid].cleaner.wakeAt;
    StaysReady(c, states, actions, i, j, sid, wakeAt);
    RunOnTime(c, states, actions, i);
    RunOnTime(c, states, actions, j);
    assert ServiceOnTime(states[i].now, TaskLimit(states[i]), PollLimit(states[i]), states[i].services[sid]);
    assert ServiceOnTime(states[j].now, TaskLimit(states[j]), PollLimit(states[j]), states[j].services[sid]);
  }

  /** How the last poll leaves a service: with the attempt that it was ready for, or as it was, when it was busy at a time
      from the deadline on. */
  predicate PollOutcome(now: Instant, before: Service, after: Service, drainDeadline: Instant) {
    match ShutdownDecision(before.life, before.wake.Launching?)
    case Ready(attempt) => |after.tasks| == 1 && after.tasks[0].attempt == attempt
    case Busy => after == before.(cleaner := Ended) && drainDeadline <= now < drainDeadline + 20 * MILLISECOND
    case AlreadySignalled => false
  }

  /** The result of the cleanup polls of a service: its cleaner ends with an attempt begun, on a service that was ready, or
      it gives up on a busy service, at the drain deadline or less than one poll interval after it. */
  lemma CleanerResult(c: Config, states: seq<State>, actions: seq<Action>, i: nat, sid: ServiceId)
    requires ValidConfig(c) && PunctualRun(c, states, actions) && i < |actions| && sid in c
    requires sid in states[i].services && sid in states[i + 1].services
    requires states[i].services[sid].cleaner.Polling? && states[i + 1].services[sid].cleaner.Ended?
    ensures PollOutcome(states[i].now, states[i].services[sid], states[i + 1].services[sid],
                        states[i].cleanupStart + 5 * SECOND)
  {
    RunLegal(c, states, actions, i, sid);
    RunOnTime(c, states, actions, i);
    PunctualStepAt(c, states, actions, i);
    assert ServiceOnTime(states[i].now, TaskLimit(states[i]), PollLimit(states[i]), states[i].services[sid]);
    CleanerEnds(c, states[i], actions[i], sid);
    EndingPoll(c[sid], states[i].now, states[i].drained, states[i].services[sid], DrainDeadline(states[i]));
  }

  lemma EndingPoll(c: Settings, now: Instant, drained: bool, v: Service, drainDeadline: Instant)
    requires ServiceInv(c, now, drained, v) && ServiceStep(c, now, v, Poll(drainDeadline)).Some?
    requires ServiceStep(c, now, v, Poll(drainDeadline)).value.cleaner.Ended?
    requires v.cleaner.wakeAt < drainDeadline + SHUTDOWN_POLL_INTERVAL && now <= v.cleaner.wakeAt
    ensures PollOutcome(now, v, ServiceStep(c, now, v, Poll(drainDeadline)).value, drainDeadline)
  {
    PollKeepsInv(c, now, drained, v, drainDeadline);
  }

  /** Only its own poll ends a cleaner. */
  lemma CleanerEnds(c: Config, s: State, a: Action, sid: ServiceId)
    requires Step(c, s, a).Some? && sid in s.services && sid in Step(c, s, a).value.services
    requires s.services[sid].cleaner.Polling? && Step(c, s, a).value.services[sid].cleaner.Ended?
    ensures sid in c && ServiceStep(c[sid], s.now, s.services[sid], Poll(DrainDeadline(s))).Some?
    ensures Step(c, s, a).value.services[sid] == ServiceStep(c[sid], s.now, s.services[sid], Poll(DrainDeadline(s))).value
  {
    match a
    case OfRequest(r, request) =>
      RequestStepServices(c, s, r, request);
      if TouchesService(request) {
        var touched := Touched(s.requests[r], request).value;
        TasksAfterRequest(c[touched], s.now, s.services[touched], ServiceActionOf(request));
      }
    case OfService(_, _) =>
    case OfScan(scan) => ScanStepServices(c, s, scan);
    case OfShutdown(shutdown) => ShutdownStepServices(c, s, shutdown);
    case Tick(_) =>
  }
}
