/** When a stop decision may begin, read off the event log by counting and quantifying over its events. */
module LogReading {
  import opened Clock
  import opened History
  import opened HistoryTheorems
  import Lifecycle
  import Wake

  /** Event `n` is a refused check, of an attempt in which a whole number of 2^64 activities passed and at whose end no
      lease was open. */
  ghost predicate CountedRefusal(log: Log, n: nat)
    requires n < |log|
  {
    && log[n].kind.CheckFailed?
    && OpenLeases(log[..n]) == 0
    && exists b :: 1 <= b && AttemptBeganAt(log, b, n) && ActivityCount(log, b, n) % TWO_TO_THE_64 == 0
  }

  /** Event `n` is a failure that keeps the next decision waiting, stamped `stamp`. */
  ghost predicate CountedFailure(log: Log, n: nat, stamp: Instant)
    requires n < |log|
  {
    || (CountedRefusal(log, n) && stamp == log[n].time)
    || (log[n].kind.SpawnFailed? && stamp == log[n].kind.at)
  }

  /** Launches apart, the log permits a stop decision at `at`: no lease or attempt is open, creation and every arrival and
      release lie at least one idle timeout back, every stop has an activity after it, and every counted failure has an
      activity after it or lies at least one retry interval back. */
  ghost predicate PermitsBarLaunch(idleTimeout: Duration, log: Log, at: Instant) {
    && OpenLeases(log) == 0
    && OpenAttempts(log) == 0
    && (forall k :: 0 <= k < |log| && log[k].kind.SetsIdleClock() ==> log[k].time + idleTimeout <= at)
    && (forall k :: 0 <= k < |log| && log[k].kind.StopStarted? ==> ActivityWithin(log, k, |log|))
    && (forall k: nat, stamp: Instant :: k < |log| && CountedFailure(log, k, stamp) ==>
          ActivityWithin(log, k, |log|) || stamp + 30 * SECOND <= at)
  }

  /** The log permits a stop decision at `at`, and no launch is running. */
  ghost predicate Permits(idleTimeout: Duration, log: Log, at: Instant) {
    PermitsBarLaunch(idleTimeout, log, at) && RunningLaunches(log) == 0
  }

  /** Event `k` is a launch, and since then, before event `n`, no launch has finished and no stop has started. */
  ghost predicate LaunchStands(log: Log, k: nat, n: nat)
    requires n <= |log|
  {
    k < n && log[k].kind.LaunchStarted? && forall m :: k < m < n ==> !log[m].kind.LaunchFinished? && !log[m].kind.StopStarted?
  }

  ghost predicate LaunchShown(log: Log, n: nat)
    requires n <= |log|
  {
    exists k: nat :: LaunchStands(log, k, n)
  }

  // ---- The launch state ----

  lemma NextLaunchShown(log: Log, n: nat)
    requires n < |log|
    ensures LaunchShown(log, n + 1) <==>
              log[n].kind.LaunchStarted? || (LaunchShown(log, n) && !log[n].kind.LaunchFinished? && !log[n].kind.StopStarted?)
  {
    var after := n + 1;
    if log[n].kind.LaunchStarted? {
      assert LaunchStands(log, n, after);
    }
    if k: nat :| LaunchStands(log, k, after) && k < n {
      assert LaunchStands(log, k, n);
    }
    if k: nat :| LaunchStands(log, k, n) && !log[n].kind.LaunchFinished? && !log[n].kind.StopStarted? {
      assert LaunchStands(log, k, after);
    }
  }

  /** The launch state is `Launching` exactly when the log shows a launch. */
  lemma {:induction false} LaunchingIsShown(idleTimeout: Duration, log: Log, n: nat)
    requires Legal(idleTimeout, log) && 1 <= n <= |log|
    ensures DigestOf(log[..n]).wake.Launching? <==> LaunchShown(log, n)
  {
    FirstDigest(log);
    if n > 1 {
      LaunchingIsShown(idleTimeout, log, n - 1);
      At(idleTimeout, log, n - 1);
      NextLaunchShown(log, n - 1);
    }
  }

  /** Event `k` is the end of a launch, and since then, before event `n`, no stop has started. */
  ghost predicate EndStands(log: Log, k: nat, n: nat)
    requires n <= |log|
  {
    k < n && log[k].kind.LaunchFinished? && forall m :: k < m < n ==> !log[m].kind.StopStarted?
  }

  /** A launch request at `now` may start a kickstart: no launch stands, and every launch end that no stop has followed lies
      at least 5 s back. */
  ghost predicate LaunchMayStart(log: Log, now: Instant) {
    && !LaunchShown(log, |log|)
    && forall k: nat :: EndStands(log, k, |log|) ==> log[k].time + 5 * SECOND <= now
  }

  lemma NextEndStands(log: Log, k: nat, n: nat)
    requires n < |log|
    ensures EndStands(log, k, n + 1) <==>
              (k == n && log[n].kind.LaunchFinished?) || (EndStands(log, k, n) && !log[n].kind.StopStarted?)
  {
  }

  /** What the log shows of a launch state: none of its launch ends stands, or the latest of them ends the cooldown. */
  ghost predicate CooldownShown(log: Log, n: nat, wake: Wake.LaunchState)
    requires n <= |log|
  {
    && (wake.Eligible? ==> forall k: nat :: !EndStands(log, k, n))
    && (wake.CoolingDownUntil? ==>
          && (exists k: nat :: EndStands(log, k, n) && log[k].time + 5 * SECOND == wake.until)
          && (forall k: nat :: EndStands(log, k, n) ==> log[k].time + 5 * SECOND <= wake.until))
  }

  lemma NextCooldownShown(idleTimeout: Duration, log: Log, n: nat)
    requires Legal(idleTimeout, log) && 1 <= n < |log| && CooldownShown(log, n, DigestOf(log[..n]).wake)
    ensures CooldownShown(log, n + 1, DigestOf(log[..n + 1]).wake)
  {
    At(idleTimeout, log, n);
    var after := n + 1;
    forall k: nat
      ensures EndStands(log, k, after) <==>
                (k == n && log[n].kind.LaunchFinished?) || (EndStands(log, k, n) && !log[n].kind.StopStarted?)
      ensures EndStands(log, k, n) ==> log[k].time <= log[n].time
    {
      NextEndStands(log, k, n);
      if EndStands(log, k, n) {
        TimesSorted(idleTimeout, log, k, n);
      }
    }
    if log[n].kind.LaunchFinished? {
      assert EndStands(log, n, after);
    } else if DigestOf(log[..n + 1]).wake.CoolingDownUntil? {
      var k: nat :| EndStands(log, k, n) && log[k].time + 5 * SECOND == DigestOf(log[..n]).wake.until;
      assert EndStands(log, k, after);
    }
  }

  lemma {:induction false} CooldownIsShown(idleTimeout: Duration, log: Log, n: nat)
    requires Legal(idleTimeout, log) && 1 <= n <= |log|
    ensures CooldownShown(log, n, DigestOf(log[..n]).wake)
  {
    FirstDigest(log);
    if n > 1 {
      CooldownIsShown(idleTimeout, log, n - 1);
      NextCooldownShown(idleTimeout, log, n - 1);
    }
  }

  /** The launch state lets a request start a kickstart exactly when the log does. */
  lemma StartableIsShown(idleTimeout: Duration, log: Log, now: Instant)
    requires Legal(idleTimeout, log)
    ensures Wake.Startable(DigestOf(log).wake, now) <==> LaunchMayStart(log, now)
  {
    assert log[..|log|] == log;
    LaunchingIsShown(idleTimeout, log, |log|);
    CooldownIsShown(idleTimeout, log, |log|);
  }

  // ---- The idle clock ----

  lemma {:induction false} MarkAttained(idleTimeout: Duration, log: Log, n: nat) returns (k: nat)
    requires Legal(idleTimeout, log) && 1 <= n <= |log|
    ensures k < n && log[k].kind.SetsIdleClock() && log[k].time == DigestOf(log[..n]).idleMark
  {
    FirstDigest(log);
    k := 0;
    if n > 1 {
      At(idleTimeout, log, n - 1);
      if log[n - 1].kind.SetsIdleClock() {
        k := n - 1;
      } else {
        k := MarkAttained(idleTimeout, log, n - 1);
      }
    }
  }

  // ---- Stops ----

  lemma {:induction false} SignalAttained(idleTimeout: Duration, log: Log, n: nat) returns (k: nat)
    requires Legal(idleTimeout, log) && 1 <= n <= |log| && DigestOf(log[..n]).signalled
    ensures 1 <= k < n && log[k].kind.StopStarted? && !ActivityWithin(log, k, n)
  {
    FirstDigest(log);
    At(idleTimeout, log, n - 1);
    k := n - 1;
    if !log[k].kind.StopStarted? {
      k := SignalAttained(idleTimeout, log, n - 1);
    }
  }

  // ---- Failures ----

  /** The attempt whose refusal or spawn failure is event `n`. */
  lemma {:induction false} LatestAttempt(idleTimeout: Duration, log: Log, n: nat) returns (b: nat)
    requires Legal(idleTimeout, log) && 1 <= n <= |log| && DigestOf(log[..n]).deciding
    ensures 1 <= b && AttemptBeganAt(log, b, n)
  {
    FirstDigest(log);
    At(idleTimeout, log, n - 1);
    b := n - 1;
    if !log[b].kind.Began? {
      b := LatestAttempt(idleTimeout, log, n - 1);
    }
  }

  /** A refused check counts exactly when the digest takes it for a failure. */
  lemma RefusalCounts(idleTimeout: Duration, log: Log, n: nat)
    requires Legal(idleTimeout, log) && 1 <= n < |log| && log[n].kind.CheckFailed?
    ensures CountedRefusal(log, n) <==> GenerationUnchanged(DigestOf(log[..n])) && DigestOf(log[..n]).leases == 0
  {
    At(idleTimeout, log, n);
    DigestCounts(log[..n]);
    var b := LatestAttempt(idleTimeout, log, n);
    SeenAtAttempt(idleTimeout, log, b, n);
    if CountedRefusal(log, n) {
      var c :| 1 <= c && AttemptBeganAt(log, c, n) && ActivityCount(log, c, n) % TWO_TO_THE_64 == 0;
      assert b == c;
    }
  }

  /** A refused check of an attempt with fewer than 2^64 activities counts exactly when the attempt saw none. */
  lemma RefusalCountsWhenUntouched(idleTimeout: Duration, log: Log, b: nat, n: nat)
    requires Legal(idleTimeout, log) && 1 <= b < n < |log| && log[n].kind.CheckFailed? && AttemptBeganAt(log, b, n)
    requires ActivityCount(log, b, n) < TWO_TO_THE_64
    ensures CountedRefusal(log, n) <==> !ActivityWithin(log, b, n)
  {
    At(idleTimeout, log, n);
    RefusalCounts(idleTimeout, log, n);
    SeenAtAttempt(idleTimeout, log, b, n);
    CountZero(log[b..n], (k: Kind) => k.IsActivity());
    assert forall k :: b <= k < n ==> log[k] == log[b..n][k - b];
    if !ActivityWithin(log, b, n) {
      At(idleTimeout, log, b);
      forall k | b <= k < n
        ensures !log[k].kind.Release? && !log[k].kind.Acquire?
      {
        assert !log[k].kind.IsActivity();
      }
      LeasesLevel(idleTimeout, log, b, n);
    } else {
      var k :| b <= k < n && log[k].kind.IsActivity();
      assert log[b..n][k - b].kind.IsActivity();
    }
  }

  lemma {:induction false} LeasesLevel(idleTimeout: Duration, log: Log, p: nat, n: nat)
    requires Legal(idleTimeout, log) && 1 <= p <= n <= |log|
    requires forall k :: p <= k < n ==> !log[k].kind.Release? && !log[k].kind.Acquire?
    ensures DigestOf(log[..p]).leases == DigestOf(log[..n]).leases
  {
    if p < n {
      LeasesLevel(idleTimeout, log, p, n - 1);
      At(idleTimeout, log, n - 1);
    }
  }

  lemma FailureRecorded(idleTimeout: Duration, log: Log, k: nat, stamp: Instant)
    requires Legal(idleTimeout, log) && 1 <= k < |log| && CountedFailure(log, k, stamp)
    ensures stamp <= log[k].time
    ensures DigestOf(log[..k + 1]).lastFailure == Some(stamp) && !DigestOf(log[..k + 1]).deciding
  {
    At(idleTimeout, log, k);
    if log[k].kind.CheckFailed? {
      RefusalCounts(idleTimeout, log, k);
    }
  }

  /** With no activity after them, failures are stamped in the order of the log, so the digest's is the latest. */
  lemma {:induction false} FailureKept(idleTimeout: Duration, log: Log, k: nat, stamp: Instant, n: nat)
    requires Legal(idleTimeout, log) && 1 <= k < n <= |log|
    requires CountedFailure(log, k, stamp) && !ActivityWithin(log, k, n)
    ensures var d := DigestOf(log[..n]);
            && d.lastFailure.Some? && stamp <= d.lastFailure.value
            && (!d.deciding || stamp <= d.began)
    ensures stamp <= log[k].time
  {
    FailureRecorded(idleTimeout, log, k, stamp);
    if k < n - 1 {
      At(idleTimeout, log, n - 1);
      assert !log[n - 1].kind.IsActivity();
      assert !ActivityWithin(log, k, n - 1);
      FailureKept(idleTimeout, log, k, stamp, n - 1);
      TimesSorted(idleTimeout, log, k, n - 1);
    }
  }

  lemma {:induction false} FailureAttained(idleTimeout: Duration, log: Log, n: nat) returns (k: nat)
    requires Legal(idleTimeout, log) && 1 <= n <= |log| && DigestOf(log[..n]).lastFailure.Some?
    ensures 1 <= k < n && CountedFailure(log, k, DigestOf(log[..n]).lastFailure.value) && !ActivityWithin(log, k, n)
  {
    FirstDigest(log);
    At(idleTimeout, log, n - 1);
    if log[n - 1].kind.CheckFailed? {
      RefusalCounts(idleTimeout, log, n - 1);
    }
    k := n - 1;
    if !CountedFailure(log, k, DigestOf(log[..n]).lastFailure.value) {
      k := FailureAttained(idleTimeout, log, n - 1);
      assert !log[n - 1].kind.IsActivity();
    }
  }

  // ---- The reading ----

  predicate DigestPermits(idleTimeout: Duration, d: Digest, at: Instant) {
    && d.leases == 0
    && d.openAttempts == 0
    && d.idleMark + idleTimeout <= at
    && !d.signalled
    && (d.lastFailure.Some? ==> d.lastFailure.value + Lifecycle.STOP_CHECK_RETRY <= at)
  }

  lemma PermitsFromDigest(idleTimeout: Duration, log: Log, at: Instant)
    requires Legal(idleTimeout, log) && DigestPermits(idleTimeout, DigestOf(log), at)
    ensures PermitsBarLaunch(idleTimeout, log, at)
  {
    var n := |log|;
    assert log[..n] == log;
    DigestCounts(log);
    forall k | 0 <= k < n && log[k].kind.SetsIdleClock()
      ensures log[k].time + idleTimeout <= at
    {
      MarksBounded(idleTimeout, log, n, k);
    }
    forall k | 0 <= k < n && log[k].kind.StopStarted?
      ensures ActivityWithin(log, k, n)
    {
      if !ActivityWithin(log, k, n) {
        SignalKept(idleTimeout, log, k, n);
      }
    }
    forall k: nat, stamp: Instant | k < n && CountedFailure(log, k, stamp)
      ensures ActivityWithin(log, k, n) || stamp + Lifecycle.STOP_CHECK_RETRY <= at
    {
      if !ActivityWithin(log, k, n) {
        FailureKept(idleTimeout, log, k, stamp, n);
      }
    }
  }

  lemma DigestFromPermits(idleTimeout: Duration, log: Log, at: Instant)
    requires Legal(idleTimeout, log) && PermitsBarLaunch(idleTimeout, log, at)
    ensures DigestPermits(idleTimeout, DigestOf(log), at)
  {
    var n := |log|;
    assert log[..n] == log;
    var d := DigestOf(log);
    DigestCounts(log);
    var mark := MarkAttained(idleTimeout, log, n);
    if d.signalled {
      var k := SignalAttained(idleTimeout, log, n);
    }
    if d.lastFailure.Some? {
      var k := FailureAttained(idleTimeout, log, n);
    }
  }

  lemma PermitsIffDigest(idleTimeout: Duration, log: Log, at: Instant)
    requires Legal(idleTimeout, log)
    ensures PermitsBarLaunch(idleTimeout, log, at) <==> DigestPermits(idleTimeout, DigestOf(log), at)
    ensures Permits(idleTimeout, log, at) <==> DigestPermits(idleTimeout, DigestOf(log), at) && DigestOf(log).openLaunches == 0
  {
    DigestCounts(log);
    if PermitsBarLaunch(idleTimeout, log, at) {
      DigestFromPermits(idleTimeout, log, at);
    }
    if DigestPermits(idleTimeout, DigestOf(log), at) {
      PermitsFromDigest(idleTimeout, log, at);
    }
  }

  // ---- Launches ----

  /** In a log of prompt requests at most one launch runs at any time, and one runs exactly while the launch state says so. */
  lemma {:induction false} OneLaunch(idleTimeout: Duration, log: Log, n: nat)
    requires Legal(idleTimeout, log) && PromptLegal(log) && 1 <= n <= |log|
    ensures RunningLaunches(log[..n]) == if DigestOf(log[..n]).wake.Launching? then 1 else 0
  {
    DigestCounts(log[..n]);
    FirstDigest(log);
    if n > 1 {
      At(idleTimeout, log, n - 1);
      assert PromptSoundAt(log, n - 1);
      OneLaunch(idleTimeout, log, n - 1);
      DigestCounts(log[..n - 1]);
    }
  }
}
