/** What runs guarantee about stops, read off the event logs of their states. */
module StopGuarantees {
  import opened Guarantees
  import opened History
  import opened HistoryTheorems
  import opened Protocol

  /** The log that the run has built for a service. */
  ghost predicate HasLog(c: Config, states: seq<State>, actions: seq<Action>, i: nat, sid: ServiceId, log: Log) {
    && ValidConfig(c) && IsRun(c, states, actions) && i < |states| && sid in c
    && sid in states[i].services && states[i].services[sid].log == log
  }

  lemma LogIsLegal(c: Config, states: seq<State>, actions: seq<Action>, i: nat, sid: ServiceId, log: Log)
    requires HasLog(c, states, actions, i, sid, log)
    ensures Legal(c[sid].idleTimeout, log)
  {
    RunLegal(c, states, actions, i, sid);
  }

  /** Idle-stop soundness, in every interleaving: an idle stop that starts on the clock reading `at` has had no arrival,
      acquire or release, and no lease open, from one idle timeout before `at` up to the start itself. */
  lemma IdleStopsAreIdle(c: Config, states: seq<State>, actions: seq<Action>, i: nat, sid: ServiceId, log: Log, n: nat)
    requires HasLog(c, states, actions, i, sid, log)
    requires 1 <= n < |log| && log[n].kind.StopStarted? && log[n].kind.idle
    ensures log[n].kind.at <= log[n].time
    ensures forall k :: 0 <= k < n && log[n].kind.at < log[k].time + c[sid].idleTimeout ==> !log[k].kind.IsActivity()
    ensures forall p :: 1 <= p <= n && (forall k :: p <= k < n ==> log[n].kind.at < log[k].time + c[sid].idleTimeout) ==>
              OpenLeases(log[..p]) == 0
    ensures OpenLeases(log[..n]) == 0
  {
    LogIsLegal(c, states, actions, i, sid, log);
    IdleStopInterval(c[sid].idleTimeout, log, n);
  }

  /** Any two stops of one service have an activity between them, and after the drain there is at most one stop. */
  lemma StopsAreSeparated(c: Config, states: seq<State>, actions: seq<Action>, i: nat, sid: ServiceId, log: Log, m: nat, n: nat)
    requires HasLog(c, states, actions, i, sid, log)
    requires 1 <= m < n < |log| && log[m].kind.StopStarted? && log[n].kind.StopStarted?
    ensures ActivityWithin(log, m, n)
    ensures forall k :: 1 <= k < |log| && log[k].kind.Drained? ==> m < k
  {
    LogIsLegal(c, states, actions, i, sid, log);
    StopsSeparated(c[sid].idleTimeout, log, m, n);
    forall k | 1 <= k < |log| && log[k].kind.Drained?
      ensures m < k
    {
      if k < m {
        QuietAfterDrain(c[sid].idleTimeout, log, k, n);
      }
    }
  }

  /** A stop starts from an attempt that saw no activity since it began, given fewer than 2^64 activities in the attempt;
      without that bound, exactly the multiples of 2^64 go unseen. */
  lemma StopsFollowQuietAttempts(c: Config, states: seq<State>, actions: seq<Action>, i: nat, sid: ServiceId, log: Log, b: nat,
                                 n: nat)
    requires HasLog(c, states, actions, i, sid, log)
    requires 1 <= b < n < |log| && AttemptBeganAt(log, b, n) && log[n].kind.StopStarted?
    ensures ActivityCount(log, b, n) % 0x1_0000_0000_0000_0000 == 0
    ensures ActivityCount(log, b, n) < 0x1_0000_0000_0000_0000 ==> !ActivityWithin(log, b, n)
  {
    LogIsLegal(c, states, actions, i, sid, log);
    StopFromQuietAttempt(c[sid].idleTimeout, log, b, n);
  }

  /** A request, a launch, or a stop decision of ordinary monitoring. */
  predicate BelongsBeforeDrain(k: Kind) {
    k.Arrival? || k.Acquire? || k.LaunchStarted? || (k.Began? && k.idle)
  }

  /** A stop at shutdown starts only after the drain, and what follows a drain is neither a request, a launch nor an idle
      decision. */
  lemma ShutdownStopsFollowDrain(c: Config, states: seq<State>, actions: seq<Action>, i: nat, sid: ServiceId, log: Log, n: nat)
    requires HasLog(c, states, actions, i, sid, log)
    requires 1 <= n < |log|
    ensures log[n].kind.StopStarted? && !log[n].kind.idle ==> exists k :: 1 <= k < n && log[k].kind.Drained?
    ensures BelongsBeforeDrain(log[n].kind) ==> forall k :: 1 <= k < n ==> !log[k].kind.Drained?
  {
    LogIsLegal(c, states, actions, i, sid, log);
    At(c[sid].idleTimeout, log, n);
    if DigestOf(log[..n]).drained {
      DrainedBefore(c[sid].idleTimeout, log, n);
    }
    forall k | 1 <= k < n && log[k].kind.Drained?
      ensures !BelongsBeforeDrain(log[n].kind)
    {
      QuietAfterDrain(c[sid].idleTimeout, log, k, n);
    }
  }
}
