/** Runs of prompt requests: the invariant of every state. */
module PromptRuns {
  import opened Clock
  import opened ServiceModel
  import opened ServiceInvariant
  import opened Protocol
  import opened ProtocolInvariant
  import opened PromptInvariant
  import opened HistoryTheorems

  ghost predicate PromptServiceOk(c: Config, services: map<ServiceId, Service>, sid: ServiceId)
    requires sid in c && sid in services
  {
    PromptServiceInv(c[sid], services[sid])
  }

  ghost predicate PromptServicesOk(c: Config, services: map<ServiceId, Service>) {
    forall sid :: sid in c && sid in services ==> PromptServiceOk(c, services, sid)
  }

  /** A request in its probing stage arrived no later than the idle clock was last set, and less than one idle timeout ago. */
  predicate ProbeYoung(c: Config, s: State, r: RequestId)
    requires r in s.requests
  {
    var q := s.requests[r];
    q.stage.Probing? && q.stage.sid in c && q.stage.sid in s.services ==>
      && q.stage.since <= s.services[q.stage.sid].life.idleSince
      && s.now < q.stage.since + c[q.stage.sid].idleTimeout
  }

  ghost predicate ProbesYoung(c: Config, s: State) {
    forall r :: r in s.requests ==> ProbeYoung(c, s, r)
  }

  ghost predicate PromptInv(c: Config, s: State) {
    && PromptServicesOk(c, s.services)
    && ProbesYoung(c, s)
  }

  lemma PromptStartInv(c: Config, now: Instant)
    ensures PromptInv(c, Start(c, now))
  {
    var s := Start(c, now);
    forall sid | sid in c && sid in s.services
      ensures PromptServiceOk(c, s.services, sid)
    {
      NewPromptServiceInv(c[sid], now);
    }
  }

  // ---- Services ----

  lemma OnServiceKeepsPrompt(c: Config, s: State, sid: ServiceId, a: ServiceAction)
    requires ValidConfig(c) && ServicesOk(c, s.now, s.drained, s.services) && PromptServicesOk(c, s.services)
    requires OnService(c, s, sid, a).Some? && PromptPossible(c[sid], s.now, s.drained, s.services[sid], a)
    ensures PromptServicesOk(c, OnService(c, s, sid, a).value.services)
  {
    var after := OnService(c, s, sid, a).value.services;
    assert ServiceOk(c, s.now, s.drained, s.services, sid);
    assert PromptServiceOk(c, s.services, sid);
    PromptStepKeepsInv(c[sid], s.now, s.drained, s.services[sid], a);
    forall other | other in c && other in after
      ensures PromptServiceOk(c, after, other)
    {
      assert PromptServiceOk(c, s.services, other);
    }
  }

  lemma DrainKeepsPrompt(c: Config, s: State)
    requires ValidConfig(c) && ServicesOk(c, s.now, false, s.services) && PromptServicesOk(c, s.services)
    ensures PromptServicesOk(c, Drain(c, s).services)
  {
    var after := Drain(c, s).services;
    forall sid | sid in c && sid in after
      ensures PromptServiceOk(c, after, sid)
    {
      assert ServiceOk(c, s.now, false, s.services, sid);
      assert PromptServiceOk(c, s.services, sid);
      PromptStepKeepsInv(c[sid], s.now, false, s.services[sid], NoteDrain);
      DrainedService(c, s, sid);
    }
  }

  lemma RequestKeepsPrompt(c: Config, s: State, r: RequestId, a: RequestAction)
    requires ValidConfig(c) && Inv(c, s) && PromptInv(c, s)
    requires RequestStep(c, s, r, a).Some?
    ensures PromptServicesOk(c, RequestStep(c, s, r, a).value.services)
  {
    RequestStepServices(c, s, r, a);
    if TouchesService(a) {
      HeldGuardsCounted(c, s, r);
      assert RequestOk(c, s.requests[r]);
      assert ProbeYoung(c, s, r);
      OnServiceKeepsPrompt(c, s, Touched(s.requests[r], a).value, ServiceActionOf(a));
    }
  }

  lemma TaskKeepsPrompt(c: Config, s: State, sid: ServiceId, work: ServiceAction)
    requires ValidConfig(c) && ServicesOk(c, s.now, s.drained, s.services) && ShutdownOk(s) && PromptServicesOk(c, s.services)
    requires TaskWork(s, work) && OnService(c, s, sid, work).Some?
    ensures PromptServicesOk(c, OnService(c, s, sid, work).value.services)
  {
    assert Possible(s.drained, work);
    OnServiceKeepsPrompt(c, s, sid, work);
  }

  lemma ScanKeepsPrompt(c: Config, s: State, a: ScanAction)
    requires ValidConfig(c) && ServicesOk(c, s.now, s.drained, s.services) && ShutdownOk(s) && PromptServicesOk(c, s.services)
    requires ScanStep(c, s, a).Some?
    ensures PromptServicesOk(c, ScanStep(c, s, a).value.services)
  {
    ScanStepServices(c, s, a);
    if a.Visit? && OnService(c, s, a.sid, Scan(s.scanReading)).Some? {
      OnServiceKeepsPrompt(c, s, a.sid, Scan(s.scanReading));
    }
  }

  lemma ShutdownKeepsPrompt(c: Config, s: State, a: ShutdownAction)
    requires ValidConfig(c) && ServicesOk(c, s.now, s.drained, s.services) && ShutdownOk(s) && PromptServicesOk(c, s.services)
    requires ShutdownStep(c, s, a).Some?
    ensures PromptServicesOk(c, ShutdownStep(c, s, a).value.services)
  {
    ShutdownStepServices(c, s, a);
    if a.PrepareService? {
      OnServiceKeepsPrompt(c, s, a.sid, Prepare);
    } else if (a.TestDrain? || a.TimeOutDrain?) && s.gate.admitted == 0 {
      DrainKeepsPrompt(c, s);
    }
  }

  // ---- Probes ----

  lemma IdleClockPast(c: Config, s: State, sid: ServiceId)
    requires ServicesOk(c, s.now, s.drained, s.services) && sid in c
    ensures s.services[sid].life.idleSince <= s.now
  {
    assert ServiceOk(c, s.now, s.drained, s.services, sid);
    DigestInRange(c[sid].idleTimeout, s.services[sid].log);
  }

  lemma IdleClockAfter(c: Settings, now: Instant, v: Service, a: ServiceAction)
    requires ServiceStep(c, now, v, a).Some?
    ensures ServiceStep(c, now, v, a).value.life.idleSince == if a.Arrive? || a.Release? then now else v.life.idleSince
  {
  }

  /** Idle clocks never go back, whatever happens. */
  lemma IdleClocksOnward(c: Config, s: State, a: Action, sid: ServiceId)
    requires sid in s.services && s.services[sid].life.idleSince <= s.now && Step(c, s, a).Some?
    ensures sid in Step(c, s, a).value.services
    ensures s.services[sid].life.idleSince <= Step(c, s, a).value.services[sid].life.idleSince
  {
    match a
    case OfRequest(r, request) =>
      RequestStepServices(c, s, r, request);
      if TouchesService(request) {
        var touched := Touched(s.requests[r], request).value;
        IdleClockAfter(c[touched], s.now, s.services[touched], ServiceActionOf(request));
      }
    case OfService(touched, work) =>
      IdleClockAfter(c[touched], s.now, s.services[touched], work);
    case OfScan(scan) =>
      ScanStepServices(c, s, scan);
      if scan.Visit? && OnService(c, s, scan.sid, Scan(s.scanReading)).Some? {
        IdleClockAfter(c[scan.sid], s.now, s.services[scan.sid], Scan(s.scanReading));
      }
    case OfShutdown(shutdown) =>
      if shutdown.PrepareService? {
        IdleClockAfter(c[shutdown.sid], s.now, s.services[shutdown.sid], Prepare);
      }
    case Tick(_) =>
  }

  lemma ProbingAfterRequest(c: Config, s: State, r: RequestId, a: RequestAction)
    requires RequestStep(c, s, r, a).Some?
    ensures var s' := RequestStep(c, s, r, a).value;
            && r in s'.requests && s'.requests == s.requests[r := s'.requests[r]]
            && (s'.requests[r].stage.Probing? ==>
                  var stage := s'.requests[r].stage;
                  || (r in s.requests && s.requests[r].stage == stage)
                  || (a == RequestAction.Arrive(stage.sid) && stage.since == s.now
                      && OnService(c, s, stage.sid, ServiceAction.Arrive).Some?
                      && s'.services == OnService(c, s, stage.sid, ServiceAction.Arrive).value.services))
  {
  }

  lemma RequestsElsewhere(c: Config, s: State, a: Action)
    requires !a.OfRequest? && Step(c, s, a).Some?
    ensures Step(c, s, a).value.requests == s.requests
  {
    if a.OfShutdown? {
      ShutdownStepServices(c, s, a.shutdown);
    } else if a.OfScan? {
      ScanStepServices(c, s, a.scan);
    }
  }

  /** A request that is probing after an action was probing before it, or has just arrived. */
  lemma ProbingAfter(c: Config, s: State, a: Action, r: RequestId)
    requires Step(c, s, a).Some? && r in Step(c, s, a).value.requests
    requires Step(c, s, a).value.requests[r].stage.Probing?
    ensures var q := Step(c, s, a).value.requests[r];
            || (r in s.requests && s.requests[r].stage == q.stage)
            || (a == OfRequest(r, RequestAction.Arrive(q.stage.sid)) && q.stage.since == s.now
                && OnService(c, s, q.stage.sid, ServiceAction.Arrive).Some?
                && Step(c, s, a).value.services == OnService(c, s, q.stage.sid, ServiceAction.Arrive).value.services)
  {
    if a.OfRequest? {
      ProbingAfterRequest(c, s, a.r, a.request);
    } else {
      RequestsElsewhere(c, s, a);
    }
  }

  lemma NowAfter(c: Config, s: State, a: Action)
    requires Step(c, s, a).Some?
    ensures Step(c, s, a).value.now == if a.Tick? then s.now + a.elapsed else s.now
  {
  }

  lemma ActionKeepsProbes(c: Config, s: State, a: Action)
    requires ValidConfig(c) && ServicesOk(c, s.now, s.drained, s.services) && ProbesYoung(c, s)
    requires PromptTick(c, s, a) && Step(c, s, a).Some?
    ensures ProbesYoung(c, Step(c, s, a).value)
  {
    var s' := Step(c, s, a).value;
    NowAfter(c, s, a);
    forall r | r in s'.requests
      ensures ProbeYoung(c, s', r)
    {
      var q := s'.requests[r];
      if q.stage.Probing? && q.stage.sid in c && q.stage.sid in s'.services {
        ProbingAfter(c, s, a, r);
        IdleClockPast(c, s, q.stage.sid);
        IdleClocksOnward(c, s, a, q.stage.sid);
        if r in s.requests && s.requests[r].stage == q.stage {
          assert ProbeYoung(c, s, r);
        } else {
          IdleClockAfter(c[q.stage.sid], s.now, s.services[q.stage.sid], ServiceAction.Arrive);
        }
      }
    }
  }

  // ---- Every action ----

  lemma ActionKeepsPromptServices(c: Config, s: State, a: Action)
    requires ValidConfig(c) && Inv(c, s) && PromptInv(c, s)
    requires Step(c, s, a).Some?
    ensures PromptServicesOk(c, Step(c, s, a).value.services)
  {
    match a
    case OfRequest(r, request) => RequestKeepsPrompt(c, s, r, request);
    case OfService(sid, work) => TaskKeepsPrompt(c, s, sid, work);
    case OfScan(scan) => ScanKeepsPrompt(c, s, scan);
    case OfShutdown(shutdown) => ShutdownKeepsPrompt(c, s, shutdown);
    case Tick(_) =>
  }

  lemma ActionKeepsPromptInv(c: Config, s: State, a: Action)
    requires ValidConfig(c) && Inv(c, s) && PromptInv(c, s)
    requires PromptTick(c, s, a) && Step(c, s, a).Some?
    ensures PromptInv(c, Step(c, s, a).value)
  {
    ActionKeepsProbes(c, s, a);
    ActionKeepsPromptServices(c, s, a);
  }

  lemma PromptStepAt(c: Config, states: seq<State>, actions: seq<Action>, i: nat)
    requires PromptRun(c, states, actions) && i < |actions|
    ensures Step(c, states[i], actions[i]) == Some(states[i + 1])
    ensures PromptTick(c, states[i], actions[i])
  {
    assert StepsTo(c, states, actions, i);
  }

  lemma NextPromptInv(c: Config, states: seq<State>, actions: seq<Action>, i: nat)
    requires ValidConfig(c) && PromptRun(c, states, actions) && i < |actions|
    requires PromptInv(c, states[i])
    ensures PromptInv(c, states[i + 1])
  {
    RunInv(c, states, actions, i);
    PromptStepAt(c, states, actions, i);
    ActionKeepsPromptInv(c, states[i], actions[i]);
  }

  /** The invariant of prompt requests holds in every state of every run of prompt requests. */
  lemma {:induction false} PromptRunInv(c: Config, states: seq<State>, actions: seq<Action>, i: nat)
    requires ValidConfig(c) && PromptRun(c, states, actions) && i < |states|
    ensures PromptInv(c, states[i])
  {
    if i == 0 {
      PromptStartInv(c, states[0].now);
    } else {
      PromptRunInv(c, states, actions, i - 1);
      NextPromptInv(c, states, actions, i - 1);
    }
  }

  /** The timer that the program sets is enough: with the readiness probe cut off after 100 ms and every idle timeout at
      least a second, requests are prompt. */
  lemma ReadinessTimerIsPrompt(c: Config, s: State, elapsed: Duration)
    requires ValidConfig(c)
    requires forall r :: r in s.requests && s.requests[r].stage.Probing? ==>
                           s.now + elapsed <= s.requests[r].stage.since + 100 * MILLISECOND
    ensures PromptTick(c, s, Tick(elapsed))
  {
  }
}
