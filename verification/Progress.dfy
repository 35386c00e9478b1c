/** Exact timers and prompt requests never stall the clock: the work that is due at one instant is finite, and when time
    cannot pass some of it can be done. */
module Progress {
  import opened Clock
  import opened Protocol
  import opened ProtocolInvariant
  import opened Punctual
  import opened ServiceModel

  // ---- Due work ----

  /** What a task or a cleaner does when its time has come. */
  predicate DueWork(work: ServiceAction) {
    || work.Poll? || work.TimeOutCheck? || work.AllowStop? || work.ReapCheck? || work.CommitStop? || work.TimeOutStop?
    || work.ReapStop?
  }

  /** The actions that timers and the program's own flow bring about: no new request, no shutdown request, and no child
      process that ends before its timer. A probe that has to end finds its service ready. */
  predicate Due(a: Action) {
    match a
    case OfRequest(_, request) => request.FindReady?
    case OfService(_, work) => DueWork(work)
    case OfScan(_) => true
    case OfShutdown(shutdown) => !shutdown.CloseGate? && !shutdown.MarkRequested?
    case Tick(_) => false
  }

  // ---- A measure of the work due at one instant ----

  function StageRank(stage: Stage): nat {
    match stage
    case Checking(_) => 5
    case ReapingCheck(_) => 1
    case Locked(_) => 3
    case Stopping(_) => 2
    case ReapingStop(_) => 1
  }

  function CleanerRank(now: Instant, cleaner: Cleaner): nat {
    if !cleaner.Polling? then 0 else if cleaner.wakeAt <= now then 7 else 6
  }

  function ServiceRank(now: Instant, v: Service): nat {
    (if |v.tasks| == 1 then StageRank(v.tasks[0].stage) else 0) + CleanerRank(now, v.cleaner)
  }

  /** The ranks of the services with an identifier below `n`. */
  function ServicesRank(now: Instant, services: map<ServiceId, Service>, n: nat): nat {
    if n == 0 then 0
    else ServicesRank(now, services, n - 1) + if n - 1 in services then ServiceRank(now, services[n - 1]) else 0
  }

  function Probers(requests: Requests): set<RequestId> {
    set r | r in requests && requests[r].stage.Probing?
  }

  function WorkRank(s: State, n: nat): nat {
    ServicesRank(s.now, s.services, n) + |Probers(s.requests)|
  }

  function PassesLeft(pass: nat): nat {
    if pass <= 4 then 2 * (4 - pass) else 0
  }

  function MonitorRank(s: State): nat {
    match s.monitor
    case Monitoring => |s.services| + 12 + |s.unscanned| + if s.scanDue <= s.now then |s.services| + 1 else 0
    case DrainTest(pass) => |s.services| + 4 + PassesLeft(pass)
    case DrainWait(pass) => |s.services| + 3 + PassesLeft(pass)
    case Preparing(todo) => 2 + |todo|
    case Joining => 1
    case Stopped => 0
  }

  predicate RankLess(after: State, before: State, n: nat) {
    || MonitorRank(after) < MonitorRank(before)
    || (MonitorRank(after) == MonitorRank(before) && WorkRank(after, n) < WorkRank(before, n))
  }

  // ---- Services ----

  predicate SoleTaskBegun(now: Instant, v: Service) {
    && |v.tasks| <= 1
    && (v.cleaner.Polling? ==> v.tasks == [])
    && (|v.tasks| == 1 ==> v.tasks[0].began <= now)
  }

  /** Whatever due work a service does, its rank falls. */
  lemma DueWorkDecreases(c: Settings, now: Instant, v: Service, work: ServiceAction)
    requires SoleTaskBegun(now, v) && DueWork(work) && ServiceStep(c, now, v, work).Some?
    ensures ServiceRank(now, ServiceStep(c, now, v, work).value) < ServiceRank(now, v)
  {
  }

  lemma {:induction false} RankElsewhere(now: Instant, services: map<ServiceId, Service>, sid: ServiceId, v: Service, n: nat)
    requires n <= sid
    ensures ServicesRank(now, services[sid := v], n) == ServicesRank(now, services, n)
  {
    if n > 0 {
      RankElsewhere(now, services, sid, v, n - 1);
    }
  }

  lemma {:induction false} RankUpdate(now: Instant, services: map<ServiceId, Service>, sid: ServiceId, v: Service, n: nat)
    requires sid in services && sid < n
    ensures ServicesRank(now, services[sid := v], n)
              == ServicesRank(now, services, n) - ServiceRank(now, services[sid]) + ServiceRank(now, v)
  {
    if sid == n - 1 {
      RankElsewhere(now, services, sid, v, n - 1);
    } else {
      RankUpdate(now, services, sid, v, n - 1);
    }
  }

  // ---- Every due action ----

  ghost predicate Bounded(services: map<ServiceId, Service>, n: nat) {
    forall sid :: sid in services ==> sid < n
  }

  ghost predicate SoleTasks(s: State) {
    forall sid :: sid in s.services ==> SoleTaskBegun(s.now, s.services[sid])
  }

  lemma TaskDecreases(c: Config, s: State, sid: ServiceId, work: ServiceAction, n: nat)
    requires SoleTasks(s) && Bounded(s.services, n) && DueWork(work) && OnService(c, s, sid, work).Some?
    ensures RankLess(OnService(c, s, sid, work).value, s, n) && OnService(c, s, sid, work).value.now == s.now
  {
    var v := ServiceStep(c[sid], s.now, s.services[sid], work).value;
    DueWorkDecreases(c[sid], s.now, s.services[sid], work);
    RankUpdate(s.now, s.services, sid, v, n);
    assert s.services[sid := v].Keys == s.services.Keys;
  }

  lemma ProbeDecreases(c: Config, s: State, r: RequestId, n: nat)
    requires RequestStep(c, s, r, FindReady).Some?
    ensures RankLess(RequestStep(c, s, r, FindReady).value, s, n) && RequestStep(c, s, r, FindReady).value.now == s.now
  {
    var s' := RequestStep(c, s, r, FindReady).value;
    assert Probers(s'.requests) == Probers(s.requests) - {r};
    assert r in Probers(s.requests);
  }

  lemma ScanDecreases(c: Config, s: State, a: ScanAction, n: nat)
    requires s.unscanned <= s.services.Keys && ScanStep(c, s, a).Some?
    ensures RankLess(ScanStep(c, s, a).value, s, n) && ScanStep(c, s, a).value.now == s.now
  {
    var s' := ScanStep(c, s, a).value;
    ScanStepServices(c, s, a);
    assert |s'.services.Keys| == |s.services.Keys|;
    if a.BeginScan? {
      assert s'.scanDue > s.now;
    } else {
      assert s'.unscanned == s.unscanned - {a.sid};
    }
  }

  lemma ShutdownDecreases(c: Config, s: State, a: ShutdownAction, n: nat)
    requires OrderOk(s) && ShutdownStep(c, s, a).Some? && !a.CloseGate? && !a.MarkRequested?
    ensures RankLess(ShutdownStep(c, s, a).value, s, n) && ShutdownStep(c, s, a).value.now == s.now
  {
    var s' := ShutdownStep(c, s, a).value;
    ShutdownStepServices(c, s, a);
    assert s'.services.Keys == s.services.Keys;
    assert |s'.services.Keys| == |s.services.Keys|;
    if a.PrepareService? {
      assert s'.monitor.todo == s.monitor.todo - {a.sid};
    }
  }

  /** Every due action takes no time and lowers the measure, so only finitely many can follow each other at one instant. */
  lemma DueDecreases(c: Config, s: State, a: Action, n: nat)
    requires OrderOk(s) && SoleTasks(s) && Bounded(s.services, n) && Due(a) && Step(c, s, a).Some?
    ensures RankLess(Step(c, s, a).value, s, n) && Step(c, s, a).value.now == s.now
  {
    match a
    case OfRequest(r, _) => ProbeDecreases(c, s, r, n);
    case OfService(sid, work) => TaskDecreases(c, s, sid, work, n);
    case OfScan(scan) => ScanDecreases(c, s, scan, n);
    case OfShutdown(shutdown) => ShutdownDecreases(c, s, shutdown, n);
  }

  // ---- When time cannot pass ----

  /** Time may pass by the smallest step, for the timers and for the requests. */
  ghost predicate MayTick(c: Config, s: State) {
    PunctualTick(c, s, Tick(1)) && PromptTick(c, s, Tick(1))
  }

  /** At the deadline of its stage a task, or at its wakeup a cleaner, has a step to take. */
  lemma DueWorkOf(c: Settings, now: Instant, limit: Instant, pollLimit: Instant, drainDeadline: Instant, v: Service)
    returns (work: ServiceAction)
    requires SoleTaskBegun(now, v) && ServiceOnTime(now, limit, pollLimit, v) && !ServiceAllows(now, v, now + 1)
    ensures ServiceStep(c, now, v, work).Some? && DueWork(work)
    ensures work.Poll? ==> work.drainDeadline == drainDeadline
  {
    work := Poll(drainDeadline);
    if |v.tasks| == 1 {
      match v.tasks[0].stage {
        case Checking(_) => work := if c.hasChecker then TimeOutCheck(0) else AllowStop(0, now);
        case ReapingCheck(_) => work := ReapCheck(0);
        case Locked(_) => work := CommitStop(0);
        case Stopping(_) => work := TimeOutStop(0);
        case ReapingStop(_) => work := ReapStop(0);
      }
    }
  }

  lemma ServiceHasDueWork(c: Config, s: State, sid: ServiceId) returns (a: Action)
    requires sid in c && sid in s.services && SoleTaskBegun(s.now, s.services[sid])
    requires ServiceOnTime(s.now, TaskLimit(s), PollLimit(s), s.services[sid])
    requires !ServiceAllows(s.now, s.services[sid], s.now + 1)
    ensures Due(a) && Step(c, s, a).Some?
  {
    var work := DueWorkOf(c[sid], s.now, TaskLimit(s), PollLimit(s), DrainDeadline(s), s.services[sid]);
    a := OfService(sid, work);
  }

  /** The background task has a step to take when it holds time up, unless a service's lock is held. */
  lemma MonitorHasDueWork(c: Config, s: State) returns (a: Action)
    requires OrderOk(s) && s.services.Keys == c.Keys && MonitorOnTime(s)
    requires forall sid :: sid in c ==> LockFree(s.services[sid])
    requires !MonitorAllows(s, s.now + 1)
    ensures Due(a) && Step(c, s, a).Some?
  {
    match s.monitor {
      case Monitoring =>
        if s.unscanned != {} {
          var sid :| sid in s.unscanned;
          a := OfScan(Visit(sid));
        } else if s.phase.Running? {
          a := OfScan(BeginScan);
        } else {
          a := OfShutdown(StartCleanup);
        }
      case DrainTest(_) => a := OfShutdown(TestDrain);
      case DrainWait(_) => a := OfShutdown(if s.gate.permit then WakeFromDrain else TimeOutDrain);
      case Preparing(todo) =>
        if todo == {} {
          a := OfShutdown(FinishPreparing);
        } else {
          var sid :| sid in todo;
          a := OfShutdown(PrepareService(sid));
        }
      case Joining => a := OfShutdown(Complete);
      case Stopped => assert false;
    }
  }

  lemma SoleTaskOf(c: Config, s: State, sid: ServiceId)
    requires ServicesOk(c, s.now, s.drained, s.services) && sid in c
    ensures SoleTaskBegun(s.now, s.services[sid])
  {
    assert ServiceOk(c, s.now, s.drained, s.services, sid);
  }

  lemma AllSoleTasks(c: Config, s: State)
    requires ServicesOk(c, s.now, s.drained, s.services)
    ensures SoleTasks(s)
  {
    forall sid | sid in s.services
      ensures SoleTaskBegun(s.now, s.services[sid])
    {
      SoleTaskOf(c, s, sid);
    }
  }

  lemma AllowedIsLockFree(now: Instant, v: Service)
    requires ServiceAllows(now, v, now + 1)
    ensures LockFree(v)
  {
  }

  lemma TimersHeldUp(c: Config, s: State) returns (a: Action)
    requires ServicesOk(c, s.now, s.drained, s.services) && OrderOk(s) && OnTime(s) && !PunctualTick(c, s, Tick(1))
    ensures Due(a) && Step(c, s, a).Some?
  {
    if sid :| sid in s.services && !ServiceAllows(s.now, s.services[sid], s.now + 1) {
      SoleTaskOf(c, s, sid);
      a := ServiceHasDueWork(c, s, sid);
    } else {
      forall sid | sid in c
        ensures LockFree(s.services[sid])
      {
        AllowedIsLockFree(s.now, s.services[sid]);
      }
      a := MonitorHasDueWork(c, s);
    }
  }

  lemma RequestsHeldUp(c: Config, s: State) returns (a: Action)
    requires !PromptTick(c, s, Tick(1))
    ensures Due(a) && Step(c, s, a).Some?
  {
    var r :| r in s.requests && s.requests[r].stage.Probing?;
    a := OfRequest(r, FindReady);
  }

  /** In every state on time, when time cannot pass there is due work that can be done. */
  lemma DueWhenHeldUp(c: Config, s: State) returns (a: Action)
    requires ServicesOk(c, s.now, s.drained, s.services) && OrderOk(s) && OnTime(s) && !MayTick(c, s)
    ensures Due(a) && Step(c, s, a).Some?
  {
    if PunctualTick(c, s, Tick(1)) {
      a := RequestsHeldUp(c, s);
    } else {
      a := TimersHeldUp(c, s);
    }
  }

  // ---- Going on ----

  function Last(states: seq<State>): State
    requires states != []
  {
    states[|states| - 1]
  }

  /** The longer run goes on from the shorter one with due work and the passage of time alone. */
  ghost predicate GoesOn(states: seq<State>, actions: seq<Action>, onStates: seq<State>, onActions: seq<Action>) {
    && states <= onStates && actions <= onActions
    && forall k :: |actions| <= k < |onActions| ==> Due(onActions[k]) || onActions[k] == Tick(1)
  }

  lemma GoesOnFurther(s1: seq<State>, a1: seq<Action>, s2: seq<State>, a2: seq<Action>, s3: seq<State>, a3: seq<Action>)
    requires GoesOn(s1, a1, s2, a2) && GoesOn(s2, a2, s3, a3)
    ensures GoesOn(s1, a1, s3, a3)
  {
    forall k | |a1| <= k < |a3|
      ensures Due(a3[k]) || a3[k] == Tick(1)
    {
      assert k < |a2| ==> a3[k] == a2[k];
    }
  }

  lemma RunExtend(c: Config, states: seq<State>, actions: seq<Action>, a: Action, next: State)
    requires IsRun(c, states, actions) && Step(c, Last(states), a) == Some(next)
    ensures IsRun(c, states + [next], actions + [a])
  {
    forall i | 0 <= i < |actions + [a]|
      ensures StepsTo(c, states + [next], actions + [a], i)
    {
      assert i < |actions| ==> StepsTo(c, states, actions, i);
    }
  }

  /** One more action of a punctual run; a prompt run stays prompt. */
  lemma PunctualExtend(c: Config, states: seq<State>, actions: seq<Action>, a: Action, next: State)
    requires PunctualRun(c, states, actions) && Step(c, Last(states), a) == Some(next)
    requires PunctualTick(c, Last(states), a) && PromptTick(c, Last(states), a)
    ensures PunctualRun(c, states + [next], actions + [a])
    ensures PromptRun(c, states, actions) ==> PromptRun(c, states + [next], actions + [a])
  {
    var onStates, onActions := states + [next], actions + [a];
    RunExtend(c, states, actions, a, next);
    forall i | 0 <= i < |onActions|
      ensures PunctualTick(c, onStates[i], onActions[i])
      ensures PromptRun(c, states, actions) ==> PromptTick(c, onStates[i], onActions[i])
    {
      if i < |actions| {
        assert onStates[i] == states[i] && onActions[i] == actions[i];
        assert PunctualTick(c, states[i], actions[i]);
      }
    }
  }
}
