/** What follows from the legality of an event log alone. */
module HistoryTheorems {
  import opened Clock
  import opened History

  // ---- Independent readings of a log ----

  function Count(log: Log, p: Kind -> bool): nat {
    if log == [] then 0
    else Count(log[..|log| - 1], p) + if p(log[|log| - 1].kind) then 1 else 0
  }

  function OpenLeases(log: Log): int {
    Count(log, (k: Kind) => k.Acquire?) - Count(log, (k: Kind) => k.Release?)
  }

  function OpenAttempts(log: Log): int {
    Count(log, (k: Kind) => k.Began?) - Count(log, (k: Kind) => k.EndsAttempt())
  }

  function RunningLaunches(log: Log): int {
    Count(log, (k: Kind) => k.LaunchStarted?) - Count(log, (k: Kind) => k.LaunchFinished?)
  }

  ghost predicate ActivityWithin(log: Log, from: nat, to: nat)
    requires to <= |log|
  {
    exists k :: from <= k < to && log[k].kind.IsActivity()
  }

  ghost predicate StopWithin(log: Log, from: nat, to: nat)
    requires to <= |log|
  {
    exists k :: from <= k < to && log[k].kind.StopStarted?
  }

  /** The attempt that event `n` belongs to began at event `b`. */
  ghost predicate AttemptBeganAt(log: Log, b: nat, n: nat)
    requires n <= |log|
  {
    b < n && log[b].kind.Began? && forall k :: b < k < n ==> !log[k].kind.Began?
  }

  // ---- The digest ----

  /** The digest's counters agree with the independent counts. */
  lemma {:induction false} DigestCounts(log: Log)
    ensures var d := DigestOf(log);
            && d.leases == OpenLeases(log)
            && d.openAttempts == OpenAttempts(log)
            && d.openLaunches == RunningLaunches(log)
            && d.activities == Count(log, (k: Kind) => k.IsActivity())
  {
    if log != [] {
      DigestCounts(log[..|log| - 1]);
    }
  }

  lemma FirstDigest(log: Log)
    requires log != []
    ensures DigestOf(log[..1]) == Absorb(EMPTY_DIGEST, log[0])
  {
    assert log[..0] == [];
    DigestPrefix(log, 0);
  }

  ghost predicate InRange(d: Digest) {
    && 0 <= d.leases && 0 <= d.openAttempts <= 1 && 0 <= d.openLaunches
    && (d.deciding ==> d.openAttempts == 1)
    && 0 <= d.seen <= d.activities
    && d.began <= d.lastTime && d.idleMark <= d.lastTime
    && (d.lastFailure.Some? ==> d.lastFailure.value <= d.lastTime)
    && d.stopsSinceDrain <= 1
  }

  lemma {:induction false} DigestInRange(idleTimeout: Duration, log: Log)
    requires Legal(idleTimeout, log)
    ensures InRange(DigestOf(log))
    ensures DigestOf(log).lastTime == log[|log| - 1].time
  {
    var n := |log| - 1;
    if n == 0 {
      assert log[..0] == [];
    } else {
      LegalPrefix(idleTimeout, log, n);
      DigestInRange(idleTimeout, log[..n]);
      assert SoundAt(idleTimeout, log, n);
    }
  }

  /** A legal prefix, its digest, and the step that event `n` makes. */
  lemma At(idleTimeout: Duration, log: Log, n: nat)
    requires Legal(idleTimeout, log) && 1 <= n < |log|
    ensures Legal(idleTimeout, log[..n])
    ensures InRange(DigestOf(log[..n]))
    ensures Sound(idleTimeout, DigestOf(log[..n]), log[n])
    ensures DigestOf(log[..n + 1]) == Absorb(DigestOf(log[..n]), log[n])
    ensures DigestOf(log[..n]).lastTime == log[n - 1].time <= log[n].time
  {
    LegalPrefix(idleTimeout, log, n);
    DigestInRange(idleTimeout, log[..n]);
    DigestPrefix(log, n);
    assert SoundAt(idleTimeout, log, n);
  }

  lemma {:induction false} TimesSorted(idleTimeout: Duration, log: Log, i: nat, j: nat)
    requires Legal(idleTimeout, log) && i <= j < |log|
    ensures log[i].time <= log[j].time
  {
    if i < j {
      At(idleTimeout, log, j);
      TimesSorted(idleTimeout, log, i, j - 1);
    }
  }

  // ---- Idle stops ----

  /** Every event that sets the idle clock is at or before the digest's mark. */
  lemma {:induction false} MarksBounded(idleTimeout: Duration, log: Log, n: nat, k: nat)
    requires Legal(idleTimeout, log) && k < n <= |log|
    requires log[k].kind.SetsIdleClock()
    ensures log[k].time <= DigestOf(log[..n]).idleMark
  {
    FirstDigest(log);
    if n > 1 {
      At(idleTimeout, log, n - 1);
      if k < n - 1 {
        MarksBounded(idleTimeout, log, n - 1, k);
        TimesSorted(idleTimeout, log, k, n - 1);
      }
    }
  }

  /** Between two prefixes with no release between them, the open leases never fall. */
  lemma {:induction false} LeasesRise(idleTimeout: Duration, log: Log, p: nat, n: nat)
    requires Legal(idleTimeout, log) && 1 <= p <= n <= |log|
    requires forall k :: p <= k < n ==> !log[k].kind.Release?
    ensures DigestOf(log[..p]).leases <= DigestOf(log[..n]).leases
    ensures (exists k :: p <= k < n && log[k].kind.Acquire?) ==> DigestOf(log[..p]).leases < DigestOf(log[..n]).leases
  {
    if p < n {
      LeasesRise(idleTimeout, log, p, n - 1);
      At(idleTimeout, log, n - 1);
    }
  }

  /** Idle-stop soundness over intervals: when an idle stop starts, the clock reading `at` that admitted it and the whole
      interval of one idle timeout before it hold no arrival, acquire or release, and no lease was open at any point of
      the interval, up to the start itself. Nor did the service come into being in the interval. */
  lemma IdleStopInterval(idleTimeout: Duration, log: Log, n: nat)
    requires Legal(idleTimeout, log) && 1 <= n < |log|
    requires log[n].kind.StopStarted? && log[n].kind.idle
    ensures log[n].kind.at <= log[n].time
    ensures forall k :: 0 <= k < n && log[n].kind.at < log[k].time + idleTimeout ==>
              !log[k].kind.IsActivity() && !log[k].kind.Created?
    ensures forall p :: 1 <= p <= n && (forall k :: p <= k < n ==> log[n].kind.at < log[k].time + idleTimeout) ==>
              OpenLeases(log[..p]) == 0
  {
    At(idleTimeout, log, n);
    var at := log[n].kind.at;
    forall k | 0 <= k < n && at < log[k].time + idleTimeout
      ensures !log[k].kind.SetsIdleClock()
    {
      if log[k].kind.SetsIdleClock() {
        MarksBounded(idleTimeout, log, n, k);
      }
    }
    forall k | 0 <= k < n && at < log[k].time + idleTimeout
      ensures !log[k].kind.Acquire?
    {
      if log[k].kind.Acquire? {
        forall m | k < m < n
          ensures !log[m].kind.Release?
        {
          TimesSorted(idleTimeout, log, k, m);
        }
        assert k > 0;
        At(idleTimeout, log, k);
        LeasesRise(idleTimeout, log, k, n);
      }
    }
    forall p | 1 <= p <= n && (forall k :: p <= k < n ==> at < log[k].time + idleTimeout)
      ensures OpenLeases(log[..p]) == 0
    {
      LeasesRise(idleTimeout, log, p, n);
      LegalPrefix(idleTimeout, log, p);
      DigestInRange(idleTimeout, log[..p]);
      DigestCounts(log[..p]);
    }
  }

  // ---- Stops and activity ----

  /** After a stop, with no activity since, the digest still shows the stop. */
  lemma {:induction false} SignalKept(idleTimeout: Duration, log: Log, i: nat, n: nat)
    requires Legal(idleTimeout, log) && 1 <= i < n <= |log|
    requires log[i].kind.StopStarted? && !ActivityWithin(log, i, n)
    ensures DigestOf(log[..n]).signalled
  {
    At(idleTimeout, log, n - 1);
    if i < n - 1 {
      assert forall k :: i <= k < n - 1 ==> !log[k].kind.IsActivity();
      assert !log[n - 1].kind.IsActivity();
      SignalKept(idleTimeout, log, i, n - 1);
    }
  }

  /** Any two stops of one service have an activity between them. */
  lemma StopsSeparated(idleTimeout: Duration, log: Log, i: nat, j: nat)
    requires Legal(idleTimeout, log) && 1 <= i < j < |log|
    requires log[i].kind.StopStarted? && log[j].kind.StopStarted?
    ensures ActivityWithin(log, i, j)
  {
    At(idleTimeout, log, j);
    if !ActivityWithin(log, i, j) {
      SignalKept(idleTimeout, log, i, j);
    }
  }

  function ActivityCount(log: Log, from: nat, to: nat): nat
    requires from <= to <= |log|
  {
    Count(log[from..to], (k: Kind) => k.IsActivity())
  }

  lemma {:induction false} SeenAtAttempt(idleTimeout: Duration, log: Log, b: nat, n: nat)
    requires Legal(idleTimeout, log) && 1 <= b < n <= |log| && AttemptBeganAt(log, b, n)
    ensures var d := DigestOf(log[..n]);
            && d.activities - d.seen == ActivityCount(log, b, n)
            && d.began == log[b].time && d.beganIdle == log[b].kind.idle
  {
    At(idleTimeout, log, n - 1);
    assert log[b..n][..|log[b..n]| - 1] == log[b..n - 1];
    assert ActivityCount(log, b, n) == ActivityCount(log, b, n - 1) + if log[n - 1].kind.IsActivity() then 1 else 0;
    if b < n - 1 {
      SeenAtAttempt(idleTimeout, log, b, n - 1);
    } else {
      assert log[b..b] == [];
    }
  }

  lemma {:induction false} CountZero(log: Log, p: Kind -> bool)
    ensures Count(log, p) == 0 <==> forall k :: 0 <= k < |log| ==> !p(log[k].kind)
  {
    if log != [] {
      var n := |log| - 1;
      CountZero(log[..n], p);
      assert forall k :: 0 <= k < n ==> log[..n][k] == log[k];
    }
  }

  /** A stop starts only from an attempt that saw a whole number of 2^64 activities since it began: with the wrapping
      generation this is all that the program can tell. With fewer than 2^64 it saw none. */
  lemma StopFromQuietAttempt(idleTimeout: Duration, log: Log, b: nat, n: nat)
    requires Legal(idleTimeout, log) && 1 <= b < n < |log| && AttemptBeganAt(log, b, n)
    requires log[n].kind.StopStarted?
    ensures ActivityCount(log, b, n) % TWO_TO_THE_64 == 0
    ensures ActivityCount(log, b, n) < TWO_TO_THE_64 ==> !ActivityWithin(log, b, n)
  {
    At(idleTimeout, log, n);
    SeenAtAttempt(idleTimeout, log, b, n);
    if ActivityCount(log, b, n) < TWO_TO_THE_64 {
      CountZero(log[b..n], (k: Kind) => k.IsActivity());
      forall k | b <= k < n
        ensures !log[k].kind.IsActivity()
      {
        assert log[k] == log[b..n][k - b];
      }
    }
  }

  // ---- After the drain ----

  lemma {:induction false} DrainKept(idleTimeout: Duration, log: Log, i: nat, n: nat)
    requires Legal(idleTimeout, log) && 1 <= i < n <= |log| && log[i].kind.Drained?
    ensures DigestOf(log[..n]).drained
    ensures (exists k :: i < k < n && log[k].kind.StopStarted?) ==> DigestOf(log[..n]).stopsSinceDrain > 0
  {
    At(idleTimeout, log, n - 1);
    if i < n - 1 {
      DrainKept(idleTimeout, log, i, n - 1);
    }
  }

  /** After the drain no request arrives, no lease is taken, no launch starts, and at most one stop starts. */
  lemma QuietAfterDrain(idleTimeout: Duration, log: Log, i: nat, j: nat)
    requires Legal(idleTimeout, log) && 1 <= i < j < |log| && log[i].kind.Drained?
    ensures !log[j].kind.Arrival? && !log[j].kind.Acquire? && !log[j].kind.LaunchStarted?
    ensures log[j].kind.Began? ==> !log[j].kind.idle
    ensures log[j].kind.StopStarted? ==> !StopWithin(log, i, j)
  {
    At(idleTimeout, log, j);
    DrainKept(idleTimeout, log, i, j);
  }

  /** A stop at shutdown starts only after the drain. */
  lemma {:induction false} DrainedBefore(idleTimeout: Duration, log: Log, n: nat)
    requires Legal(idleTimeout, log) && 1 <= n <= |log| && DigestOf(log[..n]).drained
    ensures exists i :: 1 <= i < n && log[i].kind.Drained?
  {
    FirstDigest(log);
    if n > 1 {
      At(idleTimeout, log, n - 1);
      if !log[n - 1].kind.Drained? {
        DrainedBefore(idleTimeout, log, n - 1);
      }
    }
  }
}
