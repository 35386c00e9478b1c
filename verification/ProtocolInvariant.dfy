/** What every action of the gateway keeps, in every run: each service's invariant, the counts of guards, what a request
    holds at each stage, and the order of shutdown. No assumption on time is made here. */
module ProtocolInvariant {
  import opened Clock
  import opened ServiceModel
  import opened ServiceInvariant
  import opened Protocol

  type Requests = map<RequestId, Request>

  function AdmissionHolders(requests: Requests): set<RequestId> {
    set r | r in requests && requests[r].admission
  }

  function LeaseHolders(requests: Requests, sid: ServiceId): set<RequestId> {
    set r | r in requests && requests[r].lease == Some(sid)
  }

  ghost predicate ServiceOk(c: Config, now: Instant, drained: bool, services: map<ServiceId, Service>, sid: ServiceId)
    requires sid in c && sid in services
  {
    ServiceInv(c[sid], now, drained, services[sid])
  }

  ghost predicate ServicesOk(c: Config, now: Instant, drained: bool, services: map<ServiceId, Service>) {
    && services.Keys == c.Keys
    && forall sid :: sid in c ==> ServiceOk(c, now, drained, services, sid)
  }

  /** What a request holds at each stage: up to the lease an admission and nothing else, then its lease. */
  predicate RequestOk(c: Config, q: Request) {
    match q.stage
    case Fresh => q.admission && q.lease.None?
    case Rejected => !q.admission && q.lease.None?
    case Probing(sid, _) => q.admission && q.lease.None? && sid in c
    case Cold(sid) => q.admission && q.lease.None? && sid in c
    case Warm(sid) => q.admission && q.lease.None? && sid in c
    case Leased(sid) => q.lease == Some(sid) && sid in c
    case Done => q.lease.None?
  }

  ghost predicate RequestsOk(c: Config, requests: Requests) {
    forall r :: r in requests ==> RequestOk(c, requests[r])
  }

  /** Conservation: each counter is the number of guards that count in it. */
  ghost predicate CountsOk(c: Config, admitted: nat, services: map<ServiceId, Service>, requests: Requests) {
    && admitted == |AdmissionHolders(requests)|
    && forall sid :: sid in c && sid in services ==>
                       services[sid].life.inFlight == |LeaseHolders(requests, sid)|
  }

  ghost predicate ShutdownOk(s: State) {
    && (!s.phase.Running? ==> !s.gate.accepting)
    && (!s.monitor.Monitoring? ==> !s.gate.accepting && !s.phase.Running?)
    && (s.drained ==> !s.gate.accepting && s.gate.admitted == 0)
    && (s.monitor.Monitoring? || s.monitor.DrainTest? || s.monitor.DrainWait? ==> !s.drained)
    && (s.monitor.Preparing? ==> s.drained && s.monitor.todo <= s.services.Keys)
    && (s.phase.Completed? <==> s.monitor.Stopped?)
    && (s.monitor.Stopped? ==> TasksJoined(s))
    && s.unscanned <= s.services.Keys
    && (!s.monitor.Monitoring? ==> s.unscanned == {})
  }

  /** The drain wait: at most three passes, and no wakeup is lost, since with no admission left a permit is there. */
  predicate DrainOk(s: State) {
    match s.monitor
    case DrainTest(pass) =>
      && 1 <= pass <= 3
      && (pass == 2 && s.gate.permit ==> s.gate.admitted == 0)
      && (pass == 3 ==> s.gate.admitted == 0)
    case DrainWait(pass) =>
      && 1 <= pass <= 2
      && (s.gate.admitted == 0 ==> s.gate.permit)
      && (pass == 2 && s.gate.permit ==> s.gate.admitted == 0)
    case _ => true
  }

  ghost predicate Inv(c: Config, s: State) {
    && ServicesOk(c, s.now, s.drained, s.services)
    && GuardsOk(c, s)
    && OrderOk(s)
  }

  // ---- Counting guards ----

  lemma AdmissionsAfter(requests: Requests, r: RequestId, q: Request)
    ensures var before, after := AdmissionHolders(requests), AdmissionHolders(requests[r := q]);
            && (r in before && !q.admission ==> |after| == |before| - 1)
            && (r !in before && q.admission ==> |after| == |before| + 1)
            && ((r in before <==> q.admission) ==> |after| == |before|)
  {
    var before, after := AdmissionHolders(requests), AdmissionHolders(requests[r := q]);
    if q.admission {
      assert after == before + {r};
    } else {
      assert after == before - {r};
    }
  }

  lemma LeasesAfter(requests: Requests, r: RequestId, q: Request, sid: ServiceId)
    ensures var before, after := LeaseHolders(requests, sid), LeaseHolders(requests[r := q], sid);
            && (r in before && q.lease != Some(sid) ==> |after| == |before| - 1)
            && (r !in before && q.lease == Some(sid) ==> |after| == |before| + 1)
            && ((r in before <==> q.lease == Some(sid)) ==> |after| == |before|)
  {
    var before, after := LeaseHolders(requests, sid), LeaseHolders(requests[r := q], sid);
    if q.lease == Some(sid) {
      assert after == before + {r};
    } else {
      assert after == before - {r};
    }
  }

  /** A guard that is held is counted, so dropping it never panics. */
  lemma HeldGuardsCounted(c: Config, s: State, r: RequestId)
    requires CountsOk(c, s.gate.admitted, s.services, s.requests) && r in s.requests
    ensures s.requests[r].admission ==> s.gate.admitted > 0
    ensures forall sid :: sid in c && sid in s.services && s.requests[r].lease == Some(sid) ==>
                            s.services[sid].life.inFlight > 0
  {
    if s.requests[r].admission {
      assert r in AdmissionHolders(s.requests);
    }
    forall sid | sid in c && sid in s.services && s.requests[r].lease == Some(sid)
      ensures s.services[sid].life.inFlight > 0
    {
      assert r in LeaseHolders(s.requests, sid);
    }
  }

  // ---- Services ----

  lemma OnServiceKeeps(c: Config, s: State, sid: ServiceId, a: ServiceAction)
    requires ValidConfig(c) && ServicesOk(c, s.now, s.drained, s.services)
    requires Possible(s.drained, a) && !a.NoteDrain?
    requires OnService(c, s, sid, a).Some?
    ensures ServicesOk(c, s.now, s.drained, OnService(c, s, sid, a).value.services)
  {
    assert ServiceOk(c, s.now, s.drained, s.services, sid);
    var v := ServiceStep(c[sid], s.now, s.services[sid], a).value;
    StepKeepsInv(c[sid], s.now, s.drained, s.services[sid], a);
    UpdateKeeps(c, s.now, s.drained, s.services, sid, v);
  }

  lemma UpdateKeeps(c: Config, now: Instant, drained: bool, services: map<ServiceId, Service>, sid: ServiceId, v: Service)
    requires ServicesOk(c, now, drained, services) && sid in c && ServiceInv(c[sid], now, drained, v)
    ensures ServicesOk(c, now, drained, services[sid := v])
  {
    forall other | other in c
      ensures ServiceOk(c, now, drained, services[sid := v], other)
    {
      assert ServiceOk(c, now, drained, services, other);
    }
  }

  lemma DrainedService(c: Config, s: State, sid: ServiceId)
    requires sid in c && sid in s.services
    ensures sid in Drain(c, s).services
    ensures ServiceStep(c[sid], s.now, s.services[sid], NoteDrain) == Some(Drain(c, s).services[sid])
  {
  }

  lemma DrainKeepsServices(c: Config, s: State)
    requires ServicesOk(c, s.now, false, s.services)
    ensures ServicesOk(c, s.now, true, Drain(c, s).services)
  {
    var after := Drain(c, s).services;
    forall sid | sid in c
      ensures ServiceOk(c, s.now, true, after, sid)
    {
      assert ServiceOk(c, s.now, false, s.services, sid);
      DrainKeepsInv(c[sid], s.now, s.services[sid]);
      DrainedService(c, s, sid);
    }
  }

  lemma LaterKeepsServices(c: Config, s: State, later: Instant)
    requires ServicesOk(c, s.now, s.drained, s.services) && s.now <= later
    ensures ServicesOk(c, later, s.drained, s.services)
  {
    forall sid | sid in c
      ensures ServiceOk(c, later, s.drained, s.services, sid)
    {
      assert ServiceOk(c, s.now, s.drained, s.services, sid);
      LaterInv(c[sid], s.now, later, s.drained, s.services[sid]);
    }
  }

  /** The request of a step that touches a service, and what it does there. */
  predicate TouchesService(a: RequestAction) {
    a.Arrive? || a.AskLaunch? || a.TakeLease? || a.DropLease?
  }

  function Touched(q: Request, a: RequestAction): Option<ServiceId> {
    match a
    case Arrive(sid) => Some(sid)
    case DropLease => q.lease
    case AskLaunch => if q.stage.Probing? then Some(q.stage.sid) else None
    case TakeLease => if q.stage.Warm? then Some(q.stage.sid) else None
    case _ => None
  }

  function ServiceActionOf(a: RequestAction): ServiceAction
    requires TouchesService(a)
  {
    match a
    case Arrive(_) => ServiceAction.Arrive
    case AskLaunch => RequestLaunch
    case TakeLease => ServiceAction.Acquire
    case DropLease => ServiceAction.Release
  }

  lemma RequestStepServices(c: Config, s: State, r: RequestId, a: RequestAction)
    requires RequestStep(c, s, r, a).Some?
    ensures var s' := RequestStep(c, s, r, a).value;
            if TouchesService(a) then
              && r in s.requests && Touched(s.requests[r], a).Some?
              && OnService(c, s, Touched(s.requests[r], a).value, ServiceActionOf(a)).Some?
              && s'.services == OnService(c, s, Touched(s.requests[r], a).value, ServiceActionOf(a)).value.services
              && s'.gate == s.gate
            else s'.services == s.services
    ensures var s' := RequestStep(c, s, r, a).value;
            && s'.now == s.now && s'.drained == s.drained && s'.monitor == s.monitor && s'.phase == s.phase
            && s'.unscanned == s.unscanned && s'.scanReading == s.scanReading && s'.scanDue == s.scanDue
  {
  }

  lemma RequestKeepsServices(c: Config, s: State, r: RequestId, a: RequestAction)
    requires ValidConfig(c) && ServicesOk(c, s.now, s.drained, s.services) && RequestsOk(c, s.requests)
    requires CountsOk(c, s.gate.admitted, s.services, s.requests) && (s.drained ==> s.gate.admitted == 0)
    requires RequestStep(c, s, r, a).Some?
    ensures var s' := RequestStep(c, s, r, a).value; ServicesOk(c, s'.now, s'.drained, s'.services)
  {
    RequestStepServices(c, s, r, a);
    if TouchesService(a) {
      HeldGuardsCounted(c, s, r);
      assert RequestOk(c, s.requests[r]);
      OnServiceKeeps(c, s, Touched(s.requests[r], a).value, ServiceActionOf(a));
    }
  }

  lemma TaskKeepsServices(c: Config, s: State, sid: ServiceId, work: ServiceAction)
    requires ValidConfig(c) && ServicesOk(c, s.now, s.drained, s.services) && (s.monitor.Monitoring? ==> !s.drained)
    requires TaskWork(s, work) && OnService(c, s, sid, work).Some?
    ensures var s' := OnService(c, s, sid, work).value; ServicesOk(c, s'.now, s'.drained, s'.services)
  {
    assert Possible(s.drained, work);
    OnServiceKeeps(c, s, sid, work);
  }

  /** What a scan does: a visit is a critical section of one service or nothing, and everything else stands still. */
  lemma ScanStepServices(c: Config, s: State, a: ScanAction)
    requires ScanStep(c, s, a).Some?
    ensures var s' := ScanStep(c, s, a).value;
            && s'.services == (if a.Visit? then Visited(c, s, a.sid).services else s.services)
            && s' == s.(services := s'.services, unscanned := s'.unscanned, scanReading := s'.scanReading, scanDue := s'.scanDue)
            && s.monitor.Monitoring? && s'.unscanned <= s.services.Keys + s.unscanned
            && s'.services.Keys == s.services.Keys
  {
  }

  lemma ScanKeepsServices(c: Config, s: State, a: ScanAction)
    requires ValidConfig(c) && ServicesOk(c, s.now, s.drained, s.services) && (s.monitor.Monitoring? ==> !s.drained)
    requires ScanStep(c, s, a).Some?
    ensures var s' := ScanStep(c, s, a).value; ServicesOk(c, s'.now, s'.drained, s'.services)
  {
    ScanStepServices(c, s, a);
    if a.Visit? && OnService(c, s, a.sid, Scan(s.scanReading)).Some? {
      OnServiceKeeps(c, s, a.sid, Scan(s.scanReading));
    }
  }

  /** What shutdown does to the services: it prepares one, notes the drain on all, or leaves them alone. */
  lemma ShutdownStepServices(c: Config, s: State, a: ShutdownAction)
    requires ShutdownStep(c, s, a).Some?
    ensures var s' := ShutdownStep(c, s, a).value;
            && s'.now == s.now && s'.requests == s.requests
            && if a.PrepareService? then
                 && s.monitor.Preparing? && s'.drained == s.drained
                 && OnService(c, s, a.sid, Prepare).Some? && s'.services == OnService(c, s, a.sid, Prepare).value.services
               else if (a.TestDrain? || a.TimeOutDrain?) && s.gate.admitted == 0 then
                 && (s.monitor.DrainTest? || s.monitor.DrainWait?) && s' == Drain(c, s)
               else s'.services == s.services && s'.drained == s.drained
  {
  }

  lemma ShutdownKeepsServices(c: Config, s: State, a: ShutdownAction)
    requires ValidConfig(c) && ServicesOk(c, s.now, s.drained, s.services) && ShutdownOk(s)
    requires ShutdownStep(c, s, a).Some?
    ensures var s' := ShutdownStep(c, s, a).value; ServicesOk(c, s'.now, s'.drained, s'.services)
  {
    ShutdownStepServices(c, s, a);
    if a.PrepareService? {
      OnServiceKeeps(c, s, a.sid, Prepare);
    } else if (a.TestDrain? || a.TimeOutDrain?) && s.gate.admitted == 0 {
      DrainKeepsServices(c, s);
    }
  }

  // ---- Requests and counts ----

  /** Only an acquire and a release change the in-flight count. */
  lemma InFlightAfter(c: Settings, now: Instant, v: Service, a: ServiceAction)
    requires ServiceStep(c, now, v, a).Some?
    ensures var w := ServiceStep(c, now, v, a).value;
            w.life.inFlight == v.life.inFlight + (if a.Acquire? then 1 else if a.Release? then -1 else 0)
  {
  }

  ghost predicate GuardsOk(c: Config, s: State) {
    && RequestsOk(c, s.requests)
    && CountsOk(c, s.gate.admitted, s.services, s.requests)
  }

  lemma GateRequestKeepsGuards(c: Config, s: State, r: RequestId, a: RequestAction)
    requires GuardsOk(c, s) && !TouchesService(a) && RequestStep(c, s, r, a).Some?
    ensures GuardsOk(c, RequestStep(c, s, r, a).value)
  {
    var s' := RequestStep(c, s, r, a).value;
    RequestStepServices(c, s, r, a);
    var q := s'.requests[r];
    assert s'.requests == s.requests[r := q];
    assert r in s.requests ==> RequestOk(c, s.requests[r]);
    assert RequestOk(c, q);
    AdmissionsAfter(s.requests, r, q);
    forall sid | sid in c && sid in s'.services
      ensures s'.services[sid].life.inFlight == |LeaseHolders(s'.requests, sid)|
    {
      LeasesAfter(s.requests, r, q, sid);
    }
  }

  lemma ServiceRequestKeepsGuards(c: Config, s: State, r: RequestId, a: RequestAction)
    requires GuardsOk(c, s) && TouchesService(a) && RequestStep(c, s, r, a).Some?
    ensures GuardsOk(c, RequestStep(c, s, r, a).value)
  {
    var s' := RequestStep(c, s, r, a).value;
    RequestStepServices(c, s, r, a);
    var q := s'.requests[r];
    assert s'.requests == s.requests[r := q];
    assert RequestOk(c, s.requests[r]);
    assert RequestOk(c, q);
    AdmissionsAfter(s.requests, r, q);
    var sid := Touched(s.requests[r], a).value;
    InFlightAfter(c[sid], s.now, s.services[sid], ServiceActionOf(a));
    forall other | other in c && other in s'.services
      ensures s'.services[other].life.inFlight == |LeaseHolders(s'.requests, other)|
    {
      LeasesAfter(s.requests, r, q, other);
    }
  }

  lemma TaskKeepsGuards(c: Config, s: State, sid: ServiceId, work: ServiceAction)
    requires GuardsOk(c, s) && !work.Acquire? && !work.Release? && OnService(c, s, sid, work).Some?
    ensures GuardsOk(c, OnService(c, s, sid, work).value)
  {
    InFlightAfter(c[sid], s.now, s.services[sid], work);
  }

  lemma ScanKeepsGuards(c: Config, s: State, a: ScanAction)
    requires GuardsOk(c, s) && ScanStep(c, s, a).Some?
    ensures GuardsOk(c, ScanStep(c, s, a).value)
  {
    ScanStepServices(c, s, a);
    if a.Visit? && OnService(c, s, a.sid, Scan(s.scanReading)).Some? {
      TaskKeepsGuards(c, s, a.sid, Scan(s.scanReading));
    }
  }

  lemma ShutdownKeepsGuards(c: Config, s: State, a: ShutdownAction)
    requires GuardsOk(c, s) && ShutdownStep(c, s, a).Some?
    ensures GuardsOk(c, ShutdownStep(c, s, a).value)
  {
    if a.PrepareService? {
      TaskKeepsGuards(c, s, a.sid, Prepare);
    }
  }

  // ---- Shutdown ----

  ghost predicate OrderOk(s: State) {
    ShutdownOk(s) && DrainOk(s)
  }

  lemma RequestKeepsOrder(c: Config, s: State, r: RequestId, a: RequestAction)
    requires OrderOk(s) && GuardsOk(c, s) && RequestStep(c, s, r, a).Some?
    ensures OrderOk(RequestStep(c, s, r, a).value)
  {
    RequestStepServices(c, s, r, a);
    if r in s.requests {
      HeldGuardsCounted(c, s, r);
    }
    if TouchesService(a) {
      var sid := Touched(s.requests[r], a).value;
      TasksAfterRequest(c[sid], s.now, s.services[sid], ServiceActionOf(a));
    }
  }

  lemma TasksAfterRequest(c: Settings, now: Instant, v: Service, a: ServiceAction)
    requires a.Arrive? || a.Acquire? || a.Release? || a.RequestLaunch?
    requires ServiceStep(c, now, v, a).Some?
    ensures ServiceStep(c, now, v, a).value.tasks == v.tasks
    ensures ServiceStep(c, now, v, a).value.cleaner == v.cleaner
  {
  }

  /** With every task joined, no task does anything, except that a kickstart may still end. */
  lemma NoTaskWorks(c: Settings, now: Instant, v: Service, a: ServiceAction)
    requires v.tasks == [] && !v.cleaner.Polling?
    requires !a.Scan? && !a.Prepare? && ServiceStep(c, now, v, a).Some?
    ensures ServiceStep(c, now, v, a).value.tasks == [] && ServiceStep(c, now, v, a).value.cleaner == v.cleaner
  {
  }

  lemma TaskKeepsOrder(c: Config, s: State, sid: ServiceId, work: ServiceAction)
    requires OrderOk(s) && TaskWork(s, work) && OnService(c, s, sid, work).Some?
    ensures OrderOk(OnService(c, s, sid, work).value)
  {
    var s' := OnService(c, s, sid, work).value;
    assert s' == s.(services := s'.services) && s'.services.Keys == s.services.Keys;
    if s.monitor.Stopped? {
      NoTaskWorks(c[sid], s.now, s.services[sid], work);
    }
  }

  lemma ShutdownKeepsOrder(c: Config, s: State, a: ShutdownAction)
    requires OrderOk(s) && ShutdownStep(c, s, a).Some?
    ensures OrderOk(ShutdownStep(c, s, a).value)
  {
    if a.PrepareService? {
      var s' := OnService(c, s, a.sid, Prepare).value;
      assert s' == s.(services := s'.services) && s'.services.Keys == s.services.Keys;
    }
  }

  // ---- Every action ----

  lemma StartInv(c: Config, now: Instant)
    ensures Inv(c, Start(c, now))
  {
    var s := Start(c, now);
    forall sid | sid in c
      ensures ServiceOk(c, now, false, s.services, sid)
      ensures s.services[sid].life.inFlight == |LeaseHolders(s.requests, sid)|
    {
      NewServiceInv(c[sid], now);
      assert LeaseHolders(s.requests, sid) == {};
    }
    assert AdmissionHolders(s.requests) == {};
  }

  lemma ActionKeepsServices(c: Config, s: State, a: Action)
    requires ValidConfig(c) && Inv(c, s) && Step(c, s, a).Some?
    ensures var s' := Step(c, s, a).value; ServicesOk(c, s'.now, s'.drained, s'.services)
  {
    match a
    case OfRequest(r, request) =>
      RequestKeepsServices(c, s, r, request);
    case OfService(sid, work) => TaskKeepsServices(c, s, sid, work);
    case OfScan(scan) => ScanKeepsServices(c, s, scan);
    case OfShutdown(shutdown) => ShutdownKeepsServices(c, s, shutdown);
    case Tick(elapsed) => LaterKeepsServices(c, s, s.now + elapsed);
  }

  lemma ActionKeepsGuards(c: Config, s: State, a: Action)
    requires GuardsOk(c, s) && Step(c, s, a).Some?
    ensures GuardsOk(c, Step(c, s, a).value)
  {
    match a
    case OfRequest(r, request) =>
      if TouchesService(request) {
        ServiceRequestKeepsGuards(c, s, r, request);
      } else {
        GateRequestKeepsGuards(c, s, r, request);
      }
    case OfService(sid, work) => TaskKeepsGuards(c, s, sid, work);
    case OfScan(scan) => ScanKeepsGuards(c, s, scan);
    case OfShutdown(shutdown) => ShutdownKeepsGuards(c, s, shutdown);
    case Tick(_) =>
  }

  lemma ActionKeepsOrder(c: Config, s: State, a: Action)
    requires OrderOk(s) && GuardsOk(c, s) && Step(c, s, a).Some?
    ensures OrderOk(Step(c, s, a).value)
  {
    match a
    case OfRequest(r, request) => RequestKeepsOrder(c, s, r, request);
    case OfService(sid, work) => TaskKeepsOrder(c, s, sid, work);
    case OfScan(scan) => ScanStepServices(c, s, scan);
    case OfShutdown(shutdown) => ShutdownKeepsOrder(c, s, shutdown);
    case Tick(_) =>
  }

  lemma ActionKeepsInv(c: Config, s: State, a: Action)
    requires ValidConfig(c) && Inv(c, s) && Step(c, s, a).Some?
    ensures Inv(c, Step(c, s, a).value)
  {
    ActionKeepsServices(c, s, a);
    ActionKeepsGuards(c, s, a);
    ActionKeepsOrder(c, s, a);
  }

  /** The invariant holds in every state of every run. */
  lemma {:induction false} RunInv(c: Config, states: seq<State>, actions: seq<Action>, i: nat)
    requires ValidConfig(c) && IsRun(c, states, actions) && i < |states|
    ensures Inv(c, states[i])
  {
    if i == 0 {
      StartInv(c, states[0].now);
    } else {
      RunInv(c, states, actions, i - 1);
      assert StepsTo(c, states, actions, i - 1);
      ActionKeepsInv(c, states[i - 1], actions[i - 1]);
    }
  }
}
