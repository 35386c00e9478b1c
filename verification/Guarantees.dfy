/** What the protocol guarantees over whole runs. */
module Guarantees {
  import opened Clock
  import opened Gate
  import opened History
  import opened HistoryTheorems
  import opened LogReading
  import opened PromptInvariant
  import opened PromptRuns
  import opened Protocol
  import opened ProtocolInvariant
  import opened Rates
  import opened ServiceInvariant
  import opened ServiceModel
  import Lifecycle

  // ---- The logs of a run ----

  /** Every service's log is legal in every state of every run. */
  lemma RunLegal(c: Config, states: seq<State>, actions: seq<Action>, i: nat, sid: ServiceId)
    requires ValidConfig(c) && IsRun(c, states, actions) && i < |states| && sid in c
    ensures sid in states[i].services
    ensures ServiceInv(c[sid], states[i].now, states[i].drained, states[i].services[sid])
  {
    RunInv(c, states, actions, i);
    assert ServiceOk(c, states[i].now, states[i].drained, states[i].services, sid);
  }

  lemma RunPromptLegal(c: Config, states: seq<State>, actions: seq<Action>, i: nat, sid: ServiceId)
    requires ValidConfig(c) && PromptRun(c, states, actions) && i < |states| && sid in c && sid in states[i].services
    ensures PromptServiceInv(c[sid], states[i].services[sid])
  {
    PromptRunInv(c, states, actions, i);
    assert PromptServiceOk(c, states[i].services, sid);
  }

  lemma RunGuards(c: Config, states: seq<State>, actions: seq<Action>, i: nat)
    requires ValidConfig(c) && IsRun(c, states, actions) && i < |states|
    ensures GuardsOk(c, states[i]) && states[i].services.Keys == c.Keys
  {
    RunInv(c, states, actions, i);
  }

  lemma RunOrder(c: Config, states: seq<State>, actions: seq<Action>, i: nat)
    requires ValidConfig(c) && IsRun(c, states, actions) && i < |states|
    ensures OrderOk(states[i]) && states[i].services.Keys == c.Keys
  {
    RunInv(c, states, actions, i);
  }

  // ---- Kickstarts ----

  /** With prompt requests at most one kickstart of a service is ever outstanding, and one is outstanding exactly when the
      launch state is `Launching`. */
  lemma OneKickstart(c: Config, states: seq<State>, actions: seq<Action>, i: nat, sid: ServiceId)
    requires ValidConfig(c) && PromptRun(c, states, actions) && i < |states| && sid in c
    ensures sid in states[i].services
    ensures var v := states[i].services[sid]; |v.launches| == if v.wake.Launching? then 1 else 0
  {
    RunLegal(c, states, actions, i, sid);
    RunPromptLegal(c, states, actions, i, sid);
  }

  lemma AskLaunchSteps(c: Config, s: State, r: RequestId, sid: ServiceId)
    requires r in s.requests && s.requests[r].stage.Probing? && s.requests[r].stage.sid == sid && sid in c && sid in s.services
    ensures var next := Step(c, s, OfRequest(r, AskLaunch));
            && next.Some? && sid in next.value.services
            && ServiceStep(c[sid], s.now, s.services[sid], RequestLaunch) == Some(next.value.services[sid])
  {
  }

  /** Whether a launch request starts a kickstart, in every run: a probing request may always ask for a launch, and the
      request starts a kickstart, which the log records, exactly when the log shows no standing launch and no launch end of
      the last 5 s that no stop has followed. */
  lemma AskLaunchExact(c: Config, states: seq<State>, actions: seq<Action>, i: nat, r: RequestId)
    requires ValidConfig(c) && IsRun(c, states, actions) && i < |states|
    requires r in states[i].requests && states[i].requests[r].stage.Probing?
    ensures var s, sid := states[i], states[i].requests[r].stage.sid;
            && sid in s.services && Step(c, s, OfRequest(r, AskLaunch)).Some?
            && sid in Step(c, s, OfRequest(r, AskLaunch)).value.services
            && var v, w := s.services[sid], Step(c, s, OfRequest(r, AskLaunch)).value.services[sid];
               if LaunchMayStart(v.log, s.now) then
                 w.log == v.log + [Event(s.now, LaunchStarted)] && w.launches == v.launches + [s.now]
               else w == v
  {
    RunGuards(c, states, actions, i);
    assert RequestOk(c, states[i].requests[r]);
    var sid := states[i].requests[r].stage.sid;
    RunLegal(c, states, actions, i, sid);
    AskLaunchSteps(c, states[i], r, sid);
    StartableIsShown(c[sid].idleTimeout, states[i].services[sid].log, states[i].now);
  }

  /** The commit of a stop, although it takes the wake lock apart from the test, never overwrites `Launching`. */
  lemma CommitOverwritesNoLaunch(c: Config, states: seq<State>, actions: seq<Action>, i: nat, sid: ServiceId, task: nat)
    requires ValidConfig(c) && PromptRun(c, states, actions) && i < |actions|
    requires actions[i] == OfService(sid, CommitStop(task))
    ensures sid in states[i].services && !states[i].services[sid].wake.Launching?
  {
    PromptStepAt(c, states, actions, i);
    RunLegal(c, states, actions, i, sid);
    RunPromptLegal(c, states, actions, i, sid);
  }

  /** Whole-run launch bound: whatever the requests do, the kickstarts of one service in a window of any length number at
      most 2, plus one for each retry cooldown and one for each idle timeout that fits in the window. */
  lemma RunLaunchBound(c: Config, states: seq<State>, actions: seq<Action>, i: nat, sid: ServiceId, lo: Instant,
                       length: Duration)
    requires ValidConfig(c) && IsRun(c, states, actions) && i < |states| && sid in c
    ensures sid in states[i].services
    ensures LaunchesIn(states[i].services[sid].log, lo, lo + length)
              <= 2 + length / (5 * SECOND) + length / c[sid].idleTimeout
  {
    RunLegal(c, states, actions, i, sid);
    LaunchBound(c[sid].idleTimeout, states[i].services[sid].log, lo, length);
  }

  // ---- Stop decisions ----

  /** Refinement to the event log, in every run: a stop decision may begin at a clock reading exactly when the log, launches
      apart, permits it and shows no launch. A launch that a stop has passed over is not shown, though it may still run. */
  lemma BeginReadsLog(c: Config, states: seq<State>, actions: seq<Action>, i: nat, sid: ServiceId, at: Instant)
    requires ValidConfig(c) && IsRun(c, states, actions) && i < |states| && sid in c
    ensures sid in states[i].services
    ensures var v := states[i].services[sid];
            Lifecycle.MayBeginStop(v.life, v.wake.Launching?, c[sid].idleTimeout, at) <==>
            PermitsBarLaunch(c[sid].idleTimeout, v.log, at) && !LaunchShown(v.log, |v.log|)
  {
    RunLegal(c, states, actions, i, sid);
    var log := states[i].services[sid].log;
    assert log[..|log|] == log;
    PermitsIffDigest(c[sid].idleTimeout, log, at);
    LaunchingIsShown(c[sid].idleTimeout, log, |log|);
  }

  /** Refinement to the event log: with prompt requests a launch is shown exactly when one runs, and so a stop decision may
      begin at a clock reading exactly when the event log permits it. The compact fields are only a summary of the log. */
  lemma BeginRefinesLog(c: Config, states: seq<State>, actions: seq<Action>, i: nat, sid: ServiceId, at: Instant)
    requires ValidConfig(c) && PromptRun(c, states, actions) && i < |states| && sid in c
    ensures sid in states[i].services
    ensures var v := states[i].services[sid];
            && (LaunchShown(v.log, |v.log|) <==> RunningLaunches(v.log) != 0)
            && (Lifecycle.MayBeginStop(v.life, v.wake.Launching?, c[sid].idleTimeout, at) <==>
                  Permits(c[sid].idleTimeout, v.log, at))
  {
    RunLegal(c, states, actions, i, sid);
    RunPromptLegal(c, states, actions, i, sid);
    BeginReadsLog(c, states, actions, i, sid, at);
    var log := states[i].services[sid].log;
    assert log[..|log|] == log;
    LaunchingIsShown(c[sid].idleTimeout, log, |log|);
    DigestCounts(log);
  }

  /** Check-rate bound: in every run a stretch of the log without activity holds at most one stop decision of ordinary
      monitoring, plus one for each retry interval that fits in it, plus one for each of its attempts that ends obsolete.
      With prompt requests none ends so. */
  lemma RunDecisionBound(c: Config, states: seq<State>, actions: seq<Action>, i: nat, sid: ServiceId, from: nat, to: nat)
    requires ValidConfig(c) && IsRun(c, states, actions) && i < |states| && sid in c && sid in states[i].services
    requires 1 <= from < to <= |states[i].services[sid].log|
    requires !ActivityWithin(states[i].services[sid].log, from, to)
    ensures var log := states[i].services[sid].log;
            && log[from].time <= log[to - 1].time
            && IdleDecisions(log, from, to)
                 <= 1 + (log[to - 1].time - log[from].time) / (30 * SECOND) + Withdrawals(log, from, to)
            && (PromptRun(c, states, actions) ==> Withdrawals(log, from, to) == 0)
  {
    var log := states[i].services[sid].log;
    RunLegal(c, states, actions, i, sid);
    DecisionBound(c[sid].idleTimeout, log, from, to);
    if PromptRun(c, states, actions) {
      RunPromptLegal(c, states, actions, i, sid);
      NoWithdrawals(c[sid].idleTimeout, log, from, to);
    }
  }

  /** In every state the signalled generation is either none or the current one, and it is the current one exactly when a
      stop has started since the last activity. */
  lemma SignalledGenerationIsCurrent(c: Config, states: seq<State>, actions: seq<Action>, i: nat, sid: ServiceId)
    requires ValidConfig(c) && IsRun(c, states, actions) && i < |states| && sid in c
    ensures sid in states[i].services
    ensures var v := states[i].services[sid];
            && (v.life.stopAttemptedGeneration.None? || v.life.stopAttemptedGeneration == Some(v.life.generation))
            && (v.life.stopAttemptedGeneration.Some? <==>
                  exists k :: 1 <= k < |v.log| && v.log[k].kind.StopStarted? && !ActivityWithin(v.log, k, |v.log|))
  {
    RunLegal(c, states, actions, i, sid);
    var log := states[i].services[sid].log;
    var n := |log|;
    assert log[..n] == log;
    if DigestOf(log).signalled {
      var k := SignalAttained(c[sid].idleTimeout, log, n);
    }
    forall k | 1 <= k < n && log[k].kind.StopStarted? && !ActivityWithin(log, k, n)
      ensures DigestOf(log).signalled
    {
      SignalKept(c[sid].idleTimeout, log, k, n);
    }
  }

  // ---- Guards ----

  /** Conservation, with no gap at the handoff: the gate counts the requests that hold an admission, each service counts
      the requests that hold its lease, and a warm request holds an admission or a lease until its guards are dropped. */
  lemma Conservation(c: Config, states: seq<State>, actions: seq<Action>, i: nat)
    requires ValidConfig(c) && IsRun(c, states, actions) && i < |states|
    ensures var s := states[i];
            && s.gate.admitted == |AdmissionHolders(s.requests)|
            && (forall sid :: sid in c ==> sid in s.services && s.services[sid].life.inFlight == |LeaseHolders(s.requests, sid)|)
            && (forall r :: r in s.requests ==>
                  match s.requests[r].stage
                  case Warm(_) => s.requests[r].admission
                  case Leased(sid) => s.requests[r].lease == Some(sid)
                  case _ => true)
  {
    RunInv(c, states, actions, i);
    forall r | r in states[i].requests
      ensures RequestOk(c, states[i].requests[r])
    {
    }
  }

  lemma DropNeverPanics(c: Config, s: State, r: RequestId)
    requires GuardsOk(c, s) && s.services.Keys == c.Keys && r in s.requests
    ensures var q := s.requests[r];
            && (q.admission ==> Gate.Released(s.gate).Some?)
            && (forall sid :: q.lease == Some(sid) ==>
                  && sid in c
                  && Lifecycle.Released(s.services[sid].life, s.now).Some?
                  && (LockFree(s.services[sid]) ==> Step(c, s, OfRequest(r, DropLease)).Some?))
  {
    assert RequestOk(c, s.requests[r]);
    HeldGuardsCounted(c, s, r);
  }

  /** Dropping a guard that a request holds never panics, and a lease can be dropped whenever the lifecycle lock is free. */
  lemma NoPanicOnDrop(c: Config, states: seq<State>, actions: seq<Action>, i: nat, r: RequestId)
    requires ValidConfig(c) && IsRun(c, states, actions) && i < |states| && r in states[i].requests
    ensures var s, q := states[i], states[i].requests[r];
            && (q.admission ==> Gate.Released(s.gate).Some?)
            && (forall sid :: q.lease == Some(sid) ==>
                  && sid in c && sid in s.services
                  && Lifecycle.Released(s.services[sid].life, s.now).Some?
                  && (LockFree(s.services[sid]) ==> Step(c, s, OfRequest(r, DropLease)).Some?))
  {
    RunGuards(c, states, actions, i);
    DropNeverPanics(c, states[i], r);
  }

  // ---- What an action can add to a log ----

  predicate OfRequestPath(k: Kind) {
    k.Arrival? || k.Acquire? || k.LaunchStarted?
  }

  predicate OfAttempt(k: Kind) {
    k.Began? || k.StopStarted?
  }

  /** `after` is `before` with the event, if there is one. */
  predicate AddsEvent(before: Log, after: Log, e: Option<Event>) {
    after == before + (if e.None? then [] else [e.value])
  }

  lemma RequestEvent(c: Config, s: State, r: RequestId, a: RequestAction, sid: ServiceId) returns (e: Option<Event>)
    requires RequestStep(c, s, r, a).Some? && sid in s.services
    ensures sid in RequestStep(c, s, r, a).value.services
    ensures AddsEvent(s.services[sid].log, RequestStep(c, s, r, a).value.services[sid].log, e)
    ensures e.Some? ==> e.value.time == s.now && !OfAttempt(e.value.kind) && !e.value.kind.Drained?
    ensures e.Some? && OfRequestPath(e.value.kind) ==> a.Arrive? || a.AskLaunch? || a.TakeLease?
    ensures e.Some? && e.value.kind.LaunchStarted? ==> a.AskLaunch?
  {
    e := None;
    RequestStepServices(c, s, r, a);
    if TouchesService(a) && Touched(s.requests[r], a) == Some(sid) {
      e := LoggedBy(c[sid], s.now, s.services[sid], ServiceActionOf(a));
    }
  }

  lemma ScanEvent(c: Config, s: State, a: ScanAction, sid: ServiceId) returns (e: Option<Event>)
    requires ScanStep(c, s, a).Some? && sid in s.services
    ensures sid in ScanStep(c, s, a).value.services
    ensures AddsEvent(s.services[sid].log, ScanStep(c, s, a).value.services[sid].log, e)
    ensures e.Some? ==> a == Visit(sid) && e.value == Event(s.now, Began(true, s.scanReading))
  {
    e := None;
    ScanStepServices(c, s, a);
    if a == Visit(sid) && OnService(c, s, sid, Scan(s.scanReading)).Some? {
      e := LoggedBy(c[sid], s.now, s.services[sid], Scan(s.scanReading));
    }
  }

  lemma ShutdownEvent(c: Config, s: State, a: ShutdownAction, sid: ServiceId) returns (e: Option<Event>)
    requires ShutdownStep(c, s, a).Some? && sid in s.services
    ensures sid in ShutdownStep(c, s, a).value.services
    ensures AddsEvent(s.services[sid].log, ShutdownStep(c, s, a).value.services[sid].log, e)
    ensures e.Some? ==> e.value == Event(s.now, Drained) && (a.TestDrain? || a.TimeOutDrain?)
  {
    ShutdownStepServices(c, s, a);
    var drains := (a.TestDrain? || a.TimeOutDrain?) && s.gate.admitted == 0;
    e := if drains then Some(Event(s.now, Drained)) else None;
  }

  /** The event that an action adds to the log of a service, if it adds one, and which actions add which kinds. */
  lemma NewEvent(c: Config, s: State, a: Action, sid: ServiceId) returns (e: Option<Event>)
    requires Step(c, s, a).Some? && sid in s.services
    ensures sid in Step(c, s, a).value.services
    ensures AddsEvent(s.services[sid].log, Step(c, s, a).value.services[sid].log, e)
    ensures e.Some? ==> e.value.time == s.now
    ensures e.Some? && OfRequestPath(e.value.kind) ==>
              a.OfRequest? && (a.request.Arrive? || a.request.AskLaunch? || a.request.TakeLease?)
    ensures e.Some? && e.value.kind.LaunchStarted? ==> a.OfRequest? && a.request.AskLaunch?
    ensures e.Some? && OfAttempt(e.value.kind) ==>
              a == OfScan(Visit(sid)) || (a.OfService? && a.sid == sid && (a.work.Poll? || a.work.CommitStop?))
    ensures e.Some? && e.value.kind.Drained? ==> a.OfShutdown? && (a.shutdown.TestDrain? || a.shutdown.TimeOutDrain?)
  {
    e := None;
    match a
    case OfRequest(r, request) =>
      e := RequestEvent(c, s, r, request, sid);
    case OfService(touched, work) =>
      if touched == sid {
        e := LoggedBy(c[sid], s.now, s.services[sid], work);
      }
    case OfScan(scan) =>
      e := ScanEvent(c, s, scan, sid);
    case OfShutdown(shutdown) =>
      e := ShutdownEvent(c, s, shutdown, sid);
    case Tick(_) =>
  }

  // ---- The drain is final ----

  predicate ClosedAndEmpty(s: State) {
    !s.gate.accepting && s.gate.admitted == 0
  }

  /** `after` extends `before` by events that are none of the kinds in `excluded`. */
  ghost predicate ExtendsWithout(before: Log, after: Log, excluded: Kind -> bool) {
    && before <= after
    && forall k :: |before| <= k < |after| ==> !excluded(after[k].kind)
  }

  lemma ExtendsFurther(x: Log, y: Log, z: Log, excluded: Kind -> bool)
    requires ExtendsWithout(x, y, excluded) && ExtendsWithout(y, z, excluded)
    ensures ExtendsWithout(x, z, excluded)
  {
    forall k | |x| <= k < |z|
      ensures !excluded(z[k].kind)
    {
      assert k < |y| ==> z[k] == y[k];
    }
  }

  /** With no request admitted, the request path is closed. */
  lemma NoPathWithoutAdmission(c: Config, s: State, r: RequestId, a: RequestAction)
    requires GuardsOk(c, s) && ClosedAndEmpty(s) && RequestStep(c, s, r, a).Some?
    ensures a.Admit? || a.DropLease?
    ensures ClosedAndEmpty(RequestStep(c, s, r, a).value)
  {
    if r in s.requests {
      HeldGuardsCounted(c, s, r);
      assert RequestOk(c, s.requests[r]);
    }
  }

  lemma StaysClosedAndEmpty(c: Config, s: State, a: Action)
    requires GuardsOk(c, s) && ClosedAndEmpty(s) && Step(c, s, a).Some?
    ensures ClosedAndEmpty(Step(c, s, a).value)
  {
    if a.OfRequest? {
      NoPathWithoutAdmission(c, s, a.r, a.request);
    }
  }

  lemma LogAfterDrain(c: Config, s: State, a: Action, sid: ServiceId)
    requires GuardsOk(c, s) && ClosedAndEmpty(s) && Step(c, s, a).Some? && sid in s.services
    ensures sid in Step(c, s, a).value.services
    ensures ExtendsWithout(s.services[sid].log, Step(c, s, a).value.services[sid].log, OfRequestPath)
  {
    var e := NewEvent(c, s, a, sid);
    if a.OfRequest? {
      NoPathWithoutAdmission(c, s, a.r, a.request);
    }
  }

  lemma InFlightAfterDrain(c: Config, s: State, a: Action, sid: ServiceId)
    requires GuardsOk(c, s) && ClosedAndEmpty(s) && Step(c, s, a).Some? && sid in s.services
    ensures sid in Step(c, s, a).value.services
    ensures Step(c, s, a).value.services[sid].life.inFlight <= s.services[sid].life.inFlight
  {
    match a
    case OfRequest(r, request) =>
      NoPathWithoutAdmission(c, s, r, request);
      RequestStepServices(c, s, r, request);
      if request.DropLease? {
        var touched := Touched(s.requests[r], request).value;
        InFlightAfter(c[touched], s.now, s.services[touched], ServiceAction.Release);
      }
    case OfService(touched, work) =>
      InFlightAfter(c[touched], s.now, s.services[touched], work);
    case OfScan(scan) =>
      ScanStepServices(c, s, scan);
      if scan.Visit? && OnService(c, s, scan.sid, Scan(s.scanReading)).Some? {
        InFlightAfter(c[scan.sid], s.now, s.services[scan.sid], Scan(s.scanReading));
      }
    case OfShutdown(shutdown) =>
      if shutdown.PrepareService? {
        InFlightAfter(c[shutdown.sid], s.now, s.services[shutdown.sid], Prepare);
      }
    case Tick(_) =>
  }

  ghost predicate SinceDrain(s: State, later: State, sid: ServiceId) {
    && ClosedAndEmpty(later)
    && sid in s.services && sid in later.services
    && later.services[sid].life.inFlight <= s.services[sid].life.inFlight
    && ExtendsWithout(s.services[sid].log, later.services[sid].log, OfRequestPath)
  }

  lemma SinceDrainStep(c: Config, s: State, later: State, a: Action, sid: ServiceId)
    requires SinceDrain(s, later, sid) && GuardsOk(c, later) && Step(c, later, a).Some?
    ensures SinceDrain(s, Step(c, later, a).value, sid)
  {
    StaysClosedAndEmpty(c, later, a);
    LogAfterDrain(c, later, a, sid);
    InFlightAfterDrain(c, later, a, sid);
    ExtendsFurther(s.services[sid].log, later.services[sid].log, Step(c, later, a).value.services[sid].log, OfRequestPath);
  }

  lemma NextSinceDrain(c: Config, states: seq<State>, actions: seq<Action>, i: nat, j: nat, sid: ServiceId)
    requires ValidConfig(c) && IsRun(c, states, actions) && i <= j < |actions| && SinceDrain(states[i], states[j], sid)
    ensures SinceDrain(states[i], states[j + 1], sid)
  {
    RunGuards(c, states, actions, j);
    assert StepsTo(c, states, actions, j);
    SinceDrainStep(c, states[i], states[j], actions[j], sid);
  }

  lemma SinceDrainStart(c: Config, s: State, sid: ServiceId)
    requires ClosedAndEmpty(s) && sid in s.services
    ensures SinceDrain(s, s, sid)
  {
  }

  /** Drain is final: once the gate is closed with no request admitted, this stays so in every later state; on no service
      does a request arrive, take a lease or start a launch any more; and no in-flight count rises. */
  lemma {:induction false} DrainIsFinal(c: Config, states: seq<State>, actions: seq<Action>, i: nat, j: nat, sid: ServiceId)
    requires ValidConfig(c) && IsRun(c, states, actions) && i <= j < |states| && sid in c
    requires ClosedAndEmpty(states[i])
    ensures SinceDrain(states[i], states[j], sid)
  {
    if i < j {
      DrainIsFinal(c, states, actions, i, j - 1, sid);
      NextSinceDrain(c, states, actions, i, j - 1, sid);
    } else {
      RunGuards(c, states, actions, i);
      SinceDrainStart(c, states[i], sid);
    }
  }

  // ---- Shutdown attempts ----

  /** A shutdown attempt that became ready is never found obsolete: whenever an allowed check takes its test, the test
      passes and the attempt goes on to spawn the stop command. */
  lemma ShutdownAttemptNeverObsolete(c: Config, states: seq<State>, actions: seq<Action>, i: nat, sid: ServiceId, task: nat,
                                     at: Instant)
    requires ValidConfig(c) && IsRun(c, states, actions) && i < |actions|
    requires actions[i] == OfService(sid, AllowStop(task, at))
    ensures sid in states[i].services && task < |states[i].services[sid].tasks|
    ensures !states[i].services[sid].tasks[task].attempt.requiresIdleTimeout ==>
              && sid in states[i + 1].services
              && task < |states[i + 1].services[sid].tasks|
              && states[i + 1].services[sid].tasks[task].stage == Locked(at)
  {
    assert StepsTo(c, states, actions, i);
    RunLegal(c, states, actions, i, sid);
    AllowKeepsInv(c[sid], states[i].now, states[i].drained, states[i].services[sid], AllowStop(task, at));
  }

  /** While a cleaner polls its service, the service is never found already signalled: that arm of the cleanup loop is not
      reached after the preparation asked for cleanup. */
  lemma CleanerNeverFindsSignal(c: Config, states: seq<State>, actions: seq<Action>, i: nat, sid: ServiceId)
    requires ValidConfig(c) && IsRun(c, states, actions) && i < |states| && sid in c
    ensures sid in states[i].services
    ensures var v := states[i].services[sid];
            v.cleaner.Polling? ==> !Lifecycle.ShutdownDecision(v.life, v.wake.Launching?).AlreadySignalled?
  {
    RunLegal(c, states, actions, i, sid);
  }

  // ---- Completion ----

  lemma StepAfterCompletion(c: Config, s: State, a: Action, sid: ServiceId)
    requires OrderOk(s) && s.phase.Completed? && Step(c, s, a).Some? && sid in s.services
    ensures sid in Step(c, s, a).value.services
    ensures ExtendsWithout(s.services[sid].log, Step(c, s, a).value.services[sid].log, OfAttempt)
  {
    var e := NewEvent(c, s, a, sid);
    assert s.services[sid].tasks == [] && !s.services[sid].cleaner.Polling?;
  }

  lemma PhaseAfter(c: Config, s: State, a: Action)
    requires Step(c, s, a).Some?
    ensures s.phase.Rank() <= Step(c, s, a).value.phase.Rank()
  {
    if a.OfRequest? {
      RequestStepServices(c, s, a.r, a.request);
    }
  }

  ghost predicate QuietSince(s: State, later: State, sid: ServiceId) {
    && later.phase.Completed?
    && sid in s.services && sid in later.services
    && later.services[sid].tasks == [] && !later.services[sid].cleaner.Polling?
    && ExtendsWithout(s.services[sid].log, later.services[sid].log, OfAttempt)
  }

  lemma QuietSinceStep(c: Config, s: State, later: State, a: Action, sid: ServiceId)
    requires QuietSince(s, later, sid) && OrderOk(later) && Step(c, later, a).Some?
    ensures QuietSince(s, Step(c, later, a).value, sid)
  {
    var next := Step(c, later, a).value;
    PhaseAfter(c, later, a);
    StepAfterCompletion(c, later, a, sid);
    ExtendsFurther(s.services[sid].log, later.services[sid].log, next.services[sid].log, OfAttempt);
    JoinedAfterCompletion(c, later, a);
  }

  lemma JoinedAfterCompletion(c: Config, s: State, a: Action)
    requires OrderOk(s) && s.phase.Completed? && Step(c, s, a).Some?
    ensures TasksJoined(Step(c, s, a).value)
  {
    match a
    case OfRequest(r, request) =>
      RequestStepServices(c, s, r, request);
      if TouchesService(request) {
        var sid := Touched(s.requests[r], request).value;
        TasksAfterRequest(c[sid], s.now, s.services[sid], ServiceActionOf(request));
      }
    case OfService(sid, work) => NoTaskWorks(c[sid], s.now, s.services[sid], work);
    case OfScan(_) =>
    case OfShutdown(_) =>
    case Tick(_) =>
  }

  /** `Completed` is quiet: when the phase is `Completed` no service has a stop attempt or a polling cleaner, and in every
      later state that is still so, the phase is still `Completed`, and no attempt and no stop has started since. */
  lemma {:induction false} CompletedIsQuiet(c: Config, states: seq<State>, actions: seq<Action>, i: nat, j: nat, sid: ServiceId)
    requires ValidConfig(c) && IsRun(c, states, actions) && i <= j < |states| && sid in c
    requires states[i].phase.Completed?
    ensures QuietSince(states[i], states[j], sid)
  {
    if i < j {
      CompletedIsQuiet(c, states, actions, i, j - 1, sid);
      RunOrder(c, states, actions, j - 1);
      assert StepsTo(c, states, actions, j - 1);
      QuietSinceStep(c, states[i], states[j - 1], actions[j - 1], sid);
    } else {
      RunOrder(c, states, actions, i);
      assert TasksJoined(states[i]);
    }
  }

  // ---- The drain wait ----

  /** No lost wakeup: the waiter makes at most three passes, and while it sleeps with no admission left a permit is there to
      wake it. */
  lemma NoLostWakeup(c: Config, states: seq<State>, actions: seq<Action>, i: nat)
    requires ValidConfig(c) && IsRun(c, states, actions) && i < |states|
    ensures var s := states[i];
            && (s.monitor.DrainTest? || s.monitor.DrainWait? ==> 1 <= s.monitor.pass <= 3)
            && (s.monitor.DrainWait? && s.gate.admitted == 0 ==>
                  && s.gate.permit
                  && Step(c, s, OfShutdown(WakeFromDrain)).Some?
                  && Step(c, Step(c, s, OfShutdown(WakeFromDrain)).value, OfShutdown(TestDrain)).Some?
                  && Step(c, Step(c, s, OfShutdown(WakeFromDrain)).value, OfShutdown(TestDrain)).value.drained)
  {
    RunOrder(c, states, actions, i);
  }
}
