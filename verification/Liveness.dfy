/** Runs under exact timers go on: to any later instant, and from a shutdown request to its completion. */
module Liveness {
  import opened Clock
  import opened Progress
  import opened Protocol
  import opened ProtocolInvariant
  import opened Punctual

  lemma {:induction false} BoundOf(ids: set<nat>) returns (n: nat)
    ensures forall id :: id in ids ==> id < n
  {
    n := 0;
    if ids != {} {
      var id :| id in ids;
      var m := BoundOf(ids - {id});
      n := if m <= id then id + 1 else m;
      forall other | other in ids
        ensures other < n
      {
        assert other == id || other in ids - {id};
      }
    }
  }

  /** Every punctual run goes on, in no time and in finitely many steps of due work, to a state in which time may pass. */
  lemma {:induction false} Settles(c: Config, states: seq<State>, actions: seq<Action>, n: nat)
    returns (onStates: seq<State>, onActions: seq<Action>)
    requires ValidConfig(c) && PunctualRun(c, states, actions) && forall sid :: sid in c ==> sid < n
    ensures PunctualRun(c, onStates, onActions) && GoesOn(states, actions, onStates, onActions)
    ensures PromptRun(c, states, actions) ==> PromptRun(c, onStates, onActions)
    ensures Last(onStates).now == Last(states).now && MayTick(c, Last(onStates))
    decreases MonitorRank(Last(states)), WorkRank(Last(states), n)
  {
    var s := Last(states);
    onStates, onActions := states, actions;
    if !MayTick(c, s) {
      var a, next := NextDue(c, states, actions, n);
      PunctualExtend(c, states, actions, a, next);
      onStates, onActions := Settles(c, states + [next], actions + [a], n);
      GoesOnFurther(states, actions, states + [next], actions + [a], onStates, onActions);
    }
  }

  /** The clock never stalls: in every state of a punctual run either time may pass, for the timers and for the requests, or
      there is due work that can be done. */
  lemma ClockNeverStalls(c: Config, states: seq<State>, actions: seq<Action>, i: nat)
    requires ValidConfig(c) && PunctualRun(c, states, actions) && i < |states|
    ensures MayTick(c, states[i]) || exists a :: Due(a) && Step(c, states[i], a).Some?
  {
    RunInv(c, states, actions, i);
    RunOnTime(c, states, actions, i);
    if !MayTick(c, states[i]) {
      var a := DueWhenHeldUp(c, states[i]);
    }
  }

  lemma NextDue(c: Config, states: seq<State>, actions: seq<Action>, n: nat) returns (a: Action, next: State)
    requires ValidConfig(c) && PunctualRun(c, states, actions) && forall sid :: sid in c ==> sid < n
    requires !MayTick(c, Last(states))
    ensures Due(a) && Step(c, Last(states), a) == Some(next)
    ensures RankLess(next, Last(states), n) && next.now == Last(states).now
  {
    var s := Last(states);
    RunInv(c, states, actions, |actions|);
    RunOnTime(c, states, actions, |actions|);
    a := DueWhenHeldUp(c, s);
    next := Step(c, s, a).value;
    AllSoleTasks(c, s);
    DueDecreases(c, s, a, n);
  }

  /** Time goes on: every punctual run goes on to any later instant, and stays prompt if it was. Nothing is needed for this
      but due work and the passage of time. */
  lemma {:induction false} TimeGoesOn(c: Config, states: seq<State>, actions: seq<Action>, later: Instant)
    returns (onStates: seq<State>, onActions: seq<Action>)
    requires ValidConfig(c) && PunctualRun(c, states, actions) && Last(states).now <= later
    ensures PunctualRun(c, onStates, onActions) && GoesOn(states, actions, onStates, onActions)
    ensures PromptRun(c, states, actions) ==> PromptRun(c, onStates, onActions)
    ensures Last(onStates).now == later
    decreases later - Last(states).now
  {
    onStates, onActions := states, actions;
    if Last(states).now < later {
      var n := BoundOf(c.Keys);
      var settled, settling := Settles(c, states, actions, n);
      var next := Step(c, Last(settled), Tick(1)).value;
      PunctualExtend(c, settled, settling, Tick(1), next);
      onStates, onActions := TimeGoesOn(c, settled + [next], settling + [Tick(1)], later);
      GoesOnFurther(states, actions, settled, settling, settled + [next], settling + [Tick(1)]);
      GoesOnFurther(states, actions, settled + [next], settling + [Tick(1)], onStates, onActions);
    }
  }

  // ---- Shutdown completes ----

  lemma RequestTimeKept(c: Config, s: State, a: Action)
    requires Step(c, s, a).Some? && (Due(a) || a == Tick(1)) && !s.phase.Running?
    ensures Step(c, s, a).value.requestedAt == s.requestedAt && !Step(c, s, a).value.phase.Running?
  {
    match a
    case OfScan(scan) => ScanStepServices(c, s, scan);
    case _ =>
  }

  lemma {:induction false} RequestTimeKeptAlong(c: Config, states: seq<State>, actions: seq<Action>, i: nat, j: nat)
    requires IsRun(c, states, actions) && i <= j < |states| && !states[i].phase.Running?
    requires forall k :: i <= k < j ==> Due(actions[k]) || actions[k] == Tick(1)
    ensures states[j].requestedAt == states[i].requestedAt && !states[j].phase.Running?
  {
    if i < j {
      RequestTimeKeptAlong(c, states, actions, i, j - 1);
      assert StepsTo(c, states, actions, j - 1);
      RequestTimeKept(c, states[j - 1], actions[j - 1]);
    }
  }

  /** The first instant after the longest cleanup. */
  function AfterCleanup(s: State): Instant {
    var end := s.requestedAt + CLEANUP_LIMIT + 1;
    if s.now < end then end else s.now
  }

  /** Shutdown completes: once shutdown is requested, every punctual run goes on to its completion, which comes before the
      first instant after 16.02 s have passed. */
  lemma ShutdownCompletes(c: Config, states: seq<State>, actions: seq<Action>)
    returns (onStates: seq<State>, onActions: seq<Action>)
    requires ValidConfig(c) && PunctualRun(c, states, actions) && !Last(states).phase.Running?
    ensures PunctualRun(c, onStates, onActions) && GoesOn(states, actions, onStates, onActions)
    ensures PromptRun(c, states, actions) ==> PromptRun(c, onStates, onActions)
    ensures Last(onStates).phase.Completed? && Last(onStates).now == AfterCleanup(Last(states))
  {
    var s := Last(states);
    onStates, onActions := TimeGoesOn(c, states, actions, AfterCleanup(s));
    assert onStates[|actions|] == s;
    RequestTimeKeptAlong(c, onStates, onActions, |actions|, |onActions|);
    CoordinationSucceeds(c, onStates, onActions, |onActions|);
  }

  /** Shutdown can be requested in every state, and then completes: every punctual run is the start of one that is
      `Completed`. */
  lemma EveryRunCanShutDown(c: Config, states: seq<State>, actions: seq<Action>)
    returns (onStates: seq<State>, onActions: seq<Action>)
    requires ValidConfig(c) && PunctualRun(c, states, actions)
    ensures PunctualRun(c, onStates, onActions) && states <= onStates && actions <= onActions
    ensures PromptRun(c, states, actions) ==> PromptRun(c, onStates, onActions)
    ensures Last(onStates).phase.Completed?
  {
    var closed := Step(c, Last(states), OfShutdown(CloseGate)).value;
    var requested := Step(c, closed, OfShutdown(MarkRequested)).value;
    PunctualExtend(c, states, actions, OfShutdown(CloseGate), closed);
    var mid, steps := states + [closed], actions + [OfShutdown(CloseGate)];
    PunctualExtend(c, mid, steps, OfShutdown(MarkRequested), requested);
    onStates, onActions := ShutdownCompletes(c, mid + [requested], steps + [OfShutdown(MarkRequested)]);
    assert (mid + [requested])[..|states|] == states;
    assert (steps + [OfShutdown(MarkRequested)])[..|actions|] == actions;
  }
}
