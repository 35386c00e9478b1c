/** Why the bounds on launches and decisions need prompt requests: runs in which requests stay in their probing stage for a
    whole idle timeout and then ask for a launch in the middle of a stop attempt. */
module LateRequests {
  import opened Clock
  import opened Guarantees
  import opened History
  import opened HistoryTheorems
  import opened Lifecycle
  import opened LogReading
  import opened Progress
  import opened Protocol
  import opened Rates
  import opened ServiceModel

  const CONFIG: Config := map[0 := Settings(SECOND, false)]

  lemma Do(states: seq<State>, actions: seq<Action>, a: Action) returns (onStates: seq<State>, onActions: seq<Action>)
    requires IsRun(CONFIG, states, actions) && Step(CONFIG, Last(states), a).Some?
    ensures IsRun(CONFIG, onStates, onActions) && onActions == actions + [a]
    ensures onStates == states + [Step(CONFIG, Last(states), a).value]
  {
    onStates, onActions := states + [Step(CONFIG, Last(states), a).value], actions + [a];
    RunExtend(CONFIG, states, actions, a, Last(onStates));
  }

  // ---- Up to the decision ----

  /** Two requests are still in their probing stage one idle timeout after they arrived. */
  ghost predicate TwoWait(s: State) {
    && s.now == SECOND && s.monitor.Monitoring? && s.unscanned == {} && s.scanDue == 0
    && s.gate.accepting && s.requests.Keys == {0, 1}
    && s.requests[0].stage == Probing(0, 0) && s.requests[1].stage == Probing(0, 0)
    && s.services.Keys == {0} && var v := s.services[0];
       && v.tasks == [] && v.launches == [] && v.wake.Eligible?
       && v.life == LifecycleState(0, 0, 2, false, None, None)
       && v.log == [Event(0, Created), Event(0, Arrival), Event(0, Arrival)]
  }

  lemma TwoArrive() returns (states: seq<State>, actions: seq<Action>)
    ensures IsRun(CONFIG, states, actions) && Last(states).now == 0
    ensures TwoWait(Last(states).(now := SECOND))
  {
    var start := Start(CONFIG, 0);
    states, actions := [start], [];
    states, actions := Do(states, actions, OfRequest(0, Admit));
    states, actions := Do(states, actions, OfRequest(1, Admit));
    states, actions := Do(states, actions, OfRequest(0, RequestAction.Arrive(0)));
    states, actions := Do(states, actions, OfRequest(1, RequestAction.Arrive(0)));
  }

  /** A stop attempt has begun on the idle service, and its check has allowed it. */
  ghost predicate Deciding(s: State) {
    && s.now == SECOND && s.monitor.Monitoring? && s.unscanned == {} && s.scanDue == SECOND + IDLE_SCAN_INTERVAL
    && s.gate.accepting && s.requests.Keys == {0, 1}
    && s.requests[0].stage == Probing(0, 0) && s.requests[1].stage == Probing(0, 0)
    && s.services.Keys == {0} && var v := s.services[0];
       && v.tasks == [Task(StopAttempt(2, true), SECOND, Checking(SECOND))] && v.launches == [] && v.wake.Eligible?
       && v.life == LifecycleState(0, 0, 2, true, None, None)
       && v.log == [Event(0, Created), Event(0, Arrival), Event(0, Arrival), Event(SECOND, Began(true, SECOND))]
  }

  lemma ScanDecides(states: seq<State>, actions: seq<Action>) returns (onStates: seq<State>, onActions: seq<Action>)
    requires IsRun(CONFIG, states, actions) && TwoWait(Last(states))
    ensures IsRun(CONFIG, onStates, onActions) && Deciding(Last(onStates))
  {
    onStates, onActions := Do(states, actions, OfScan(BeginScan));
    var mid := Last(onStates);
    assert mid.unscanned == {0} && mid.scanReading == SECOND;
    onStates, onActions := Do(onStates, onActions, OfScan(Visit(0)));
  }

  lemma UpToDecision() returns (states: seq<State>, actions: seq<Action>)
    ensures IsRun(CONFIG, states, actions) && Deciding(Last(states))
  {
    states, actions := TwoArrive();
    states, actions := Do(states, actions, Tick(SECOND));
    states, actions := ScanDecides(states, actions);
  }

  // ---- A launch between the test and the commit ----

  /** The attempt holds the lifecycle lock, past its test, and a kickstart has just started. */
  ghost predicate StopOverLaunch(s: State) {
    && s.now == SECOND && s.monitor.Monitoring? && s.gate.accepting && s.requests.Keys == {0, 1}
    && s.requests[1].stage == Probing(0, 0)
    && s.services.Keys == {0} && var v := s.services[0];
       && v.tasks == [Task(StopAttempt(2, true), SECOND, Locked(SECOND))] && |v.launches| == 1 && v.wake.Launching?
       && v.life == LifecycleState(0, 0, 2, true, None, None)
  }

  lemma LaunchInTheGap() returns (states: seq<State>, actions: seq<Action>)
    ensures IsRun(CONFIG, states, actions) && StopOverLaunch(Last(states))
  {
    states, actions := UpToDecision();
    states, actions := Do(states, actions, OfService(0, AllowStop(0, SECOND)));
    states, actions := Do(states, actions, OfRequest(0, AskLaunch));
  }

  /** The stop command runs, and so does the kickstart that the commit has passed over. */
  ghost predicate LaunchPassedOver(s: State) {
    && s.now == SECOND && s.monitor.Monitoring? && s.gate.accepting && s.requests.Keys == {0, 1}
    && s.requests[1].stage == Probing(0, 0)
    && s.services.Keys == {0} && var v := s.services[0];
       && |v.tasks| == 1 && v.tasks[0].stage.Stopping? && |v.launches| == 1 && v.wake.Eligible?
       && v.life == LifecycleState(0, 0, 2, true, None, Some(2))
  }

  lemma CommitOverLaunch(states: seq<State>, actions: seq<Action>) returns (onStates: seq<State>, onActions: seq<Action>)
    requires IsRun(CONFIG, states, actions) && StopOverLaunch(Last(states))
    ensures IsRun(CONFIG, onStates, onActions) && LaunchPassedOver(Last(onStates))
    ensures states <= onStates && onActions == actions + [OfService(0, CommitStop(0))]
  {
    onStates, onActions := Do(states, actions, OfService(0, CommitStop(0)));
  }

  /** Without the assumption on requests a run exists in which the commit of a stop overwrites `Launching` and two kickstarts
      of one service are then outstanding. */
  lemma LateRequestsBreakOneKickstart() returns (states: seq<State>, actions: seq<Action>, i: nat)
    ensures ValidConfig(CONFIG) && IsRun(CONFIG, states, actions) && !PromptRun(CONFIG, states, actions)
    ensures i < |actions| && actions[i] == OfService(0, CommitStop(0))
    ensures 0 in states[i].services && states[i].services[0].wake.Launching?
    ensures 0 in Last(states).services && |Last(states).services[0].launches| == 2
  {
    states, actions := LaunchInTheGap();
    i := |actions|;
    states, actions := CommitOverLaunch(states, actions);
    states, actions := Do(states, actions, OfRequest(1, AskLaunch));
    if PromptRun(CONFIG, states, actions) {
      OneKickstart(CONFIG, states, actions, |states| - 1, 0);
    }
  }

  /** The service with its stop finished and a kickstart still running. */
  ghost predicate StoppedUnderLaunch(s: State) {
    && s.now == SECOND && s.gate.accepting && s.requests.Keys == {0, 1}
    && s.services.Keys == {0} && var v := s.services[0];
       && v.tasks == [] && |v.launches| == 1 && v.wake.Eligible? && v.life == LifecycleState(0, 0, 2, false, None, Some(2))
  }

  lemma StopFinishes() returns (states: seq<State>, actions: seq<Action>)
    ensures IsRun(CONFIG, states, actions) && StoppedUnderLaunch(Last(states))
  {
    states, actions := LaunchInTheGap();
    states, actions := CommitOverLaunch(states, actions);
    states, actions := Do(states, actions, OfService(0, ExitStop(0)));
  }

  /** Without the assumption on requests a run exists in which a stop decision may begin although a launch still runs: the
      program has lost sight of it. */
  lemma LateRequestsBreakRefinement() returns (states: seq<State>, actions: seq<Action>)
    ensures ValidConfig(CONFIG) && IsRun(CONFIG, states, actions) && !PromptRun(CONFIG, states, actions)
    ensures 0 in Last(states).services
    ensures var s, v := Last(states), Last(states).services[0];
            MayBeginStop(v.life, v.wake.Launching?, SECOND, s.now) && !Permits(SECOND, v.log, s.now)
  {
    states, actions := StopFinishes();
    states, actions := Do(states, actions, OfRequest(2, Admit));
    states, actions := Do(states, actions, OfRequest(2, RequestAction.Arrive(0)));
    states, actions := Do(states, actions, Tick(SECOND));
    var i := |states| - 1;
    RunLegal(CONFIG, states, actions, i, 0);
    DigestCounts(states[i].services[0].log);
    if PromptRun(CONFIG, states, actions) {
      BeginRefinesLog(CONFIG, states, actions, i, 0, states[i].now);
    }
  }

  // ---- A launch between the decision and the test ----

  /** The attempt has ended obsolete, and the launch that made it so has finished. */
  ghost predicate Withdrawn(s: State) {
    && s.now == SECOND && s.monitor.Monitoring? && s.unscanned == {} && s.scanDue == SECOND + IDLE_SCAN_INTERVAL
    && s.services.Keys == {0} && var v := s.services[0];
       && v.tasks == [] && v.launches == [] && v.wake.CoolingDownUntil?
       && v.life == LifecycleState(0, 0, 2, false, None, None)
       && v.log == [Event(0, Created), Event(0, Arrival), Event(0, Arrival), Event(SECOND, Began(true, SECOND)),
                    Event(SECOND, LaunchStarted), Event(SECOND, Kind.Obsolete), Event(SECOND, LaunchFinished)]
  }

  lemma LaunchBeforeTest() returns (states: seq<State>, actions: seq<Action>)
    ensures IsRun(CONFIG, states, actions) && Withdrawn(Last(states))
  {
    states, actions := UpToDecision();
    states, actions := Do(states, actions, OfRequest(0, AskLaunch));
    states, actions := Do(states, actions, OfService(0, AllowStop(0, SECOND)));
    states, actions := Do(states, actions, OfService(0, FinishLaunch(0)));
  }

  ghost predicate DecidedAgain(s: State) {
    && s.services.Keys == {0}
    && s.services[0].log == [Event(0, Created), Event(0, Arrival), Event(0, Arrival), Event(SECOND, Began(true, SECOND)),
                             Event(SECOND, LaunchStarted), Event(SECOND, Kind.Obsolete), Event(SECOND, LaunchFinished),
                             Event(SECOND + IDLE_SCAN_INTERVAL,
                                   Began(true, SECOND + IDLE_SCAN_INTERVAL))]
  }

  lemma NextScanDecides(states: seq<State>, actions: seq<Action>) returns (onStates: seq<State>, onActions: seq<Action>)
    requires IsRun(CONFIG, states, actions) && Withdrawn(Last(states))
    ensures IsRun(CONFIG, onStates, onActions) && DecidedAgain(Last(onStates))
  {
    onStates, onActions := Do(states, actions, Tick(IDLE_SCAN_INTERVAL));
    onStates, onActions := Do(onStates, onActions, OfScan(BeginScan));
    var mid := Last(onStates);
    assert mid.unscanned == {0} && mid.scanReading == SECOND + IDLE_SCAN_INTERVAL;
    onStates, onActions := Do(onStates, onActions, OfScan(Visit(0)));
  }

  lemma TwoDecisions(s: State)
    requires DecidedAgain(s)
    ensures var log := s.services[0].log;
            |log| == 8 && !ActivityWithin(log, 3, 8) && IdleDecisions(log, 3, 8) == 2
            && log[7].time - log[3].time == 100 * MILLISECOND
  {
    var log := s.services[0].log;
    assert log[3..3] == [];
    for n := 3 to 8
      invariant IdleDecisions(log, 3, n) == if n == 3 then 0 else if n < 8 then 1 else 2
    {
      CountDecision(log, 3, n);
    }
  }

  lemma CountDecision(log: Log, from: nat, n: nat)
    requires from <= n < |log|
    ensures IdleDecisions(log, from, n + 1)
              == IdleDecisions(log, from, n) + if log[n].kind.Began? && log[n].kind.idle then 1 else 0
  {
    assert log[from..n + 1][..n - from] == log[from..n];
  }

  /** Without the assumption on requests a run exists in which two stop decisions begin within one scan interval, with no
      activity between them. */
  lemma LateRequestsBreakDecisionRate() returns (states: seq<State>, actions: seq<Action>)
    ensures ValidConfig(CONFIG) && IsRun(CONFIG, states, actions) && !PromptRun(CONFIG, states, actions)
    ensures 0 in Last(states).services
    ensures var log := Last(states).services[0].log;
            && |log| == 8 && !ActivityWithin(log, 3, 8)
            && IdleDecisions(log, 3, 8) > 1 + (log[7].time - log[3].time) / (30 * SECOND)
  {
    states, actions := LaunchBeforeTest();
    states, actions := NextScanDecides(states, actions);
    TwoDecisions(Last(states));
    if PromptRun(CONFIG, states, actions) {
      RunDecisionBound(CONFIG, states, actions, |states| - 1, 0, 3, 8);
    }
  }
}
