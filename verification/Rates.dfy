/** How often one service can be launched and how often a stop can be decided, over any stretch of its log. */
module Rates {
  import opened Clock
  import opened History
  import opened HistoryTheorems
  import Lifecycle
  import Wake

  /** Events of a kind in `p` with a time from `lo` to `hi`. */
  function CountIn(log: Log, p: Kind -> bool, lo: Instant, hi: Instant): nat {
    if log == [] then 0
    else
      var e := log[|log| - 1];
      CountIn(log[..|log| - 1], p, lo, hi) + if p(e.kind) && lo <= e.time <= hi then 1 else 0
  }

  function LaunchesIn(log: Log, lo: Instant, hi: Instant): nat {
    CountIn(log, (k: Kind) => k.LaunchStarted?, lo, hi)
  }

  lemma {:induction false} MultiplyCompare(a: nat, b: nat, d: nat)
    ensures b < a || a * d <= b * d
  {
    if a <= b {
      assert b * d == a * d + (b - a) * d;
    }
  }

  lemma DivideBound(n: nat, d: nat, length: nat)
    requires d > 0 && n * d <= length
    ensures n <= length / d
  {
    var q := length / d;
    MultiplyCompare(q + 1, n, d);
    assert (q + 1) * d == q * d + d;
  }

  // ---- Launches ----

  lemma {:induction false} CooldownKept(idleTimeout: Duration, log: Log, i: nat, n: nat)
    requires Legal(idleTimeout, log) && 1 <= i < n <= |log|
    requires log[i].kind.LaunchStarted? && !StopWithin(log, i, n)
    ensures var w := DigestOf(log[..n]).wake;
            w.Launching? || (w.CoolingDownUntil? && log[i].time + Wake.RETRY_COOLDOWN <= w.until)
  {
    At(idleTimeout, log, n - 1);
    if i < n - 1 {
      assert !log[n - 1].kind.StopStarted?;
      assert !StopWithin(log, i, n - 1);
      CooldownKept(idleTimeout, log, i, n - 1);
      TimesSorted(idleTimeout, log, i, n - 1);
    }
  }

  /** Two launches with no stop between them are a cooldown apart. */
  lemma LaunchGap(idleTimeout: Duration, log: Log, i: nat, j: nat)
    requires Legal(idleTimeout, log) && 1 <= i < j < |log|
    requires log[i].kind.LaunchStarted? && log[j].kind.LaunchStarted? && !StopWithin(log, i, j)
    ensures log[i].time + 5 * SECOND <= log[j].time
  {
    At(idleTimeout, log, j);
    CooldownKept(idleTimeout, log, i, j);
  }

  lemma {:induction false} RestartOfIdleClock(idleTimeout: Duration, log: Log, i: nat, n: nat)
    requires Legal(idleTimeout, log) && 1 <= i < n <= |log| && log[i].kind.StopStarted?
    ensures var d := DigestOf(log[..n]); d.signalled || d.leases > 0 || log[i].time <= d.idleMark
  {
    At(idleTimeout, log, n - 1);
    if i < n - 1 {
      RestartOfIdleClock(idleTimeout, log, i, n - 1);
      TimesSorted(idleTimeout, log, i, n - 1);
    }
  }

  /** An idle stop starts at least one idle timeout after any earlier stop: an acquire leaves the idle clock alone, but it
      forces a later release. */
  lemma StopGap(idleTimeout: Duration, log: Log, i: nat, j: nat)
    requires Legal(idleTimeout, log) && 1 <= i < j < |log|
    requires log[i].kind.StopStarted? && log[j].kind.StopStarted? && log[j].kind.idle
    ensures log[i].time + idleTimeout <= log[j].time
  {
    At(idleTimeout, log, j);
    RestartOfIdleClock(idleTimeout, log, i, j);
  }

  /** No launch comes after a stop at shutdown. */
  lemma StopBeforeLaunchIsIdle(idleTimeout: Duration, log: Log, i: nat, j: nat)
    requires Legal(idleTimeout, log) && 1 <= i < j < |log|
    requires log[i].kind.StopStarted? && log[j].kind.LaunchStarted?
    ensures log[i].kind.idle
  {
    At(idleTimeout, log, i);
    if !log[i].kind.idle {
      DrainedBefore(idleTimeout, log, i);
      var k :| 1 <= k < i && log[k].kind.Drained?;
      QuietAfterDrain(idleTimeout, log, k, j);
    }
  }

  /** The launches of a window, split by what separates each from the one before it: `cooled` by a cooldown, `stopped` by
      an idle stop, of which the latest is event `stop`. `last` is the latest launch of the window. */
  datatype Tally = Tally(cooled: nat, stopped: nat, last: nat, stop: nat)

  /** Event `last` is the latest launch of the window before event `n`. */
  ghost predicate LatestLaunch(log: Log, n: nat, lo: Instant, hi: Instant, last: nat)
    requires n <= |log|
  {
    && 1 <= last < n
    && log[last].kind.LaunchStarted? && lo <= log[last].time <= hi
    && forall k :: last < k < n ==> !(log[k].kind.LaunchStarted? && lo <= log[k].time <= hi)
  }

  /** The tally's stops reach no further back than the window allows. */
  ghost predicate StopsSpaced(idleTimeout: Duration, log: Log, n: nat, lo: Instant, stopped: nat, stop: nat)
    requires n <= |log|
  {
    stopped > 0 ==>
      && 1 <= stop < n && log[stop].kind.StopStarted? && lo <= log[stop].time
      && (stopped - 1) * idleTimeout <= log[stop].time - lo
  }

  ghost predicate TallyOf(idleTimeout: Duration, log: Log, n: nat, lo: Instant, hi: Instant, t: Tally) {
    && n <= |log|
    && LatestLaunch(log, n, lo, hi, t.last)
    && LaunchesIn(log[..n], lo, hi) == 1 + t.cooled + t.stopped
    && t.cooled * Wake.RETRY_COOLDOWN <= log[t.last].time - lo
    && StopsSpaced(idleTimeout, log, t.last, lo, t.stopped, t.stop)
  }

  lemma {:induction false} TallyLaunches(idleTimeout: Duration, log: Log, n: nat, lo: Instant, hi: Instant)
    returns (t: Tally)
    requires Legal(idleTimeout, log) && n <= |log|
    ensures LaunchesIn(log[..n], lo, hi) == 0 || TallyOf(idleTimeout, log, n, lo, hi, t)
  {
    t := Tally(0, 0, 0, 0);
    if n > 0 {
      assert log[..n][..n - 1] == log[..n - 1];
      var e := log[n - 1];
      t := TallyLaunches(idleTimeout, log, n - 1, lo, hi);
      if e.kind.LaunchStarted? && lo <= e.time <= hi {
        if LaunchesIn(log[..n - 1], lo, hi) == 0 {
          t := Tally(0, 0, n - 1, 0);
        } else {
          TimesSorted(idleTimeout, log, t.last, n - 1);
          t := NextLaunch(idleTimeout, log, n - 1, lo, hi, t);
        }
      }
    }
  }

  lemma CountNextLaunch(log: Log, n: nat, lo: Instant, hi: Instant)
    requires n < |log| && log[n].kind.LaunchStarted? && lo <= log[n].time <= hi
    ensures LaunchesIn(log[..n + 1], lo, hi) == LaunchesIn(log[..n], lo, hi) + 1
  {
    assert log[..n + 1][..n] == log[..n];
  }

  lemma NextStop(idleTimeout: Duration, log: Log, n: nat, lo: Instant, last: nat, stopped: nat, stop: nat, k: nat)
    requires Legal(idleTimeout, log) && 1 <= last < k < n < |log| && lo <= log[last].time
    requires StopsSpaced(idleTimeout, log, last, lo, stopped, stop)
    requires log[k].kind.StopStarted? && log[k].kind.idle
    ensures StopsSpaced(idleTimeout, log, n, lo, stopped + 1, k)
  {
    TimesSorted(idleTimeout, log, last, k);
    if stopped > 0 {
      StopGap(idleTimeout, log, stop, k);
      assert stopped * idleTimeout == (stopped - 1) * idleTimeout + idleTimeout;
    }
  }

  lemma NextLaunch(idleTimeout: Duration, log: Log, n: nat, lo: Instant, hi: Instant, t: Tally) returns (u: Tally)
    requires Legal(idleTimeout, log) && n < |log| && TallyOf(idleTimeout, log, n, lo, hi, t)
    requires log[n].kind.LaunchStarted? && lo <= log[n].time <= hi
    ensures TallyOf(idleTimeout, log, n + 1, lo, hi, u)
  {
    CountNextLaunch(log, n, lo, hi);
    if StopWithin(log, t.last, n) {
      var k :| t.last <= k < n && log[k].kind.StopStarted?;
      TimesSorted(idleTimeout, log, t.last, n);
      StopBeforeLaunchIsIdle(idleTimeout, log, k, n);
      NextStop(idleTimeout, log, n, lo, t.last, t.stopped, t.stop, k);
      u := Tally(t.cooled, t.stopped + 1, n, k);
    } else {
      LaunchGap(idleTimeout, log, t.last, n);
      u := Tally(t.cooled + 1, t.stopped, n, t.stop);
    }
  }

  /** The whole-run launch bound: a window of any length holds at most two launches, one more for each cooldown that fits
      in it, and one more for each idle timeout that fits in it. */
  lemma LaunchBound(idleTimeout: Duration, log: Log, lo: Instant, length: Duration)
    requires Legal(idleTimeout, log) && idleTimeout > 0
    ensures LaunchesIn(log, lo, lo + length) <= 2 + length / (5 * SECOND) + length / idleTimeout
  {
    assert log[..|log|] == log;
    var t := TallyLaunches(idleTimeout, log, |log|, lo, lo + length);
    if LaunchesIn(log, lo, lo + length) > 0 {
      DivideBound(t.cooled, Wake.RETRY_COOLDOWN, length);
      if t.stopped > 0 {
        TimesSorted(idleTimeout, log, t.stop, t.last);
        DivideBound(t.stopped - 1, idleTimeout, length);
      }
    }
  }

  // ---- Stop decisions ----

  function IdleDecisions(log: Log, from: nat, to: nat): nat
    requires from <= to <= |log|
  {
    Count(log[from..to], (k: Kind) => k.Began? && k.idle)
  }

  /** The attempts of a stretch that end obsolete: the obsolete ends with a decision before them in the stretch. */
  ghost function Withdrawals(log: Log, from: nat, to: nat): nat
    requires from <= to <= |log|
  {
    if from == to then 0
    else Withdrawals(log, from, to - 1) + if WithdrawnAt(log, from, to - 1) then 1 else 0
  }

  ghost predicate WithdrawnAt(log: Log, from: nat, n: nat)
    requires n < |log|
  {
    log[n].kind.Obsolete? && exists b :: from <= b < n && log[b].kind.Began?
  }

  ghost predicate ObsoleteWithin(log: Log, from: nat, to: nat)
    requires to <= |log|
  {
    exists k :: from <= k < to && log[k].kind.Obsolete?
  }

  lemma {:induction false} WithdrawalsRise(log: Log, from: nat, mid: nat, to: nat)
    requires from <= mid <= to <= |log|
    ensures Withdrawals(log, from, mid) <= Withdrawals(log, from, to)
    ensures (exists k :: mid <= k < to && WithdrawnAt(log, from, k)) ==>
              Withdrawals(log, from, mid) < Withdrawals(log, from, to)
  {
    if mid < to {
      WithdrawalsRise(log, from, mid, to - 1);
    }
  }

  lemma {:induction false} DecisionKept(idleTimeout: Duration, log: Log, i: nat, n: nat)
    requires Legal(idleTimeout, log) && 1 <= i < n <= |log|
    requires log[i].kind.Began? && !ActivityWithin(log, i, n) && !ObsoleteWithin(log, i, n)
    ensures var d := DigestOf(log[..n]);
            && d.leases == 0 && d.seen == d.activities && log[i].time <= d.began
            && (d.deciding || d.signalled || (d.lastFailure.Some? && log[i].time <= d.lastFailure.value))
  {
    At(idleTimeout, log, n - 1);
    if i < n - 1 {
      assert !log[n - 1].kind.IsActivity() && !log[n - 1].kind.Obsolete?;
      assert !ActivityWithin(log, i, n - 1) && !ObsoleteWithin(log, i, n - 1);
      DecisionKept(idleTimeout, log, i, n - 1);
      TimesSorted(idleTimeout, log, i, n - 1);
    }
  }

  /** With no activity between them and no attempt withdrawn, two stop decisions are a retry interval apart, whatever ended
      the first. */
  lemma DecisionGap(idleTimeout: Duration, log: Log, i: nat, j: nat)
    requires Legal(idleTimeout, log) && 1 <= i < j < |log|
    requires log[i].kind.Began? && log[j].kind.Began? && log[j].kind.idle
    requires !ActivityWithin(log, i, j) && !ObsoleteWithin(log, i, j)
    ensures log[i].time + 30 * SECOND <= log[j].time
  {
    At(idleTimeout, log, j);
    DecisionKept(idleTimeout, log, i, j);
  }

  /** With `last` the latest decision of a stretch, all but one of its decisions are paid for by a retry interval or by a
      withdrawal before `last`. */
  ghost predicate DecisionsSpaced(log: Log, from: nat, n: nat, last: nat)
    requires from <= n <= |log|
  {
    && from <= last < n && log[last].kind.Began?
    && (IdleDecisions(log, from, n) - 1 - Withdrawals(log, from, last)) * Lifecycle.STOP_CHECK_RETRY
         <= log[last].time - log[from].time
  }

  lemma NextDecision(idleTimeout: Duration, log: Log, from: nat, n: nat, last: nat)
    requires Legal(idleTimeout, log) && 1 <= from < n < |log| && !ActivityWithin(log, from, n)
    requires log[n].kind.Began? && log[n].kind.idle && DecisionsSpaced(log, from, n, last)
    requires IdleDecisions(log, from, n + 1) == IdleDecisions(log, from, n) + 1
    ensures DecisionsSpaced(log, from, n + 1, n)
  {
    WithdrawalsRise(log, from, last, n);
    TimesSorted(idleTimeout, log, last, n);
    if ObsoleteWithin(log, last, n) {
      var k :| last <= k < n && log[k].kind.Obsolete?;
      assert WithdrawnAt(log, from, k);
    } else {
      assert !ActivityWithin(log, last, n);
      DecisionGap(idleTimeout, log, last, n);
    }
  }

  lemma {:induction false} TallyDecisions(idleTimeout: Duration, log: Log, from: nat, n: nat) returns (last: nat)
    requires Legal(idleTimeout, log) && 1 <= from <= n <= |log|
    requires !ActivityWithin(log, from, n)
    ensures IdleDecisions(log, from, n) > 0 ==> DecisionsSpaced(log, from, n, last)
  {
    last := from;
    if from < n {
      assert log[from..n][..|log[from..n]| - 1] == log[from..n - 1];
      assert !ActivityWithin(log, from, n - 1);
      last := TallyDecisions(idleTimeout, log, from, n - 1);
      if log[n - 1].kind.Began? && log[n - 1].kind.idle {
        if IdleDecisions(log, from, n - 1) > 0 {
          NextDecision(idleTimeout, log, from, n - 1, last);
        } else {
          TimesSorted(idleTimeout, log, from, n - 1);
        }
        last := n - 1;
      }
    } else {
      assert log[from..n] == [];
    }
  }

  /** The check-rate bound of every legal log: a stretch without activity holds at most one stop decision of ordinary
      monitoring, one more for each retry interval that fits in it, and one more for each of its attempts that ends
      obsolete. */
  lemma DecisionBound(idleTimeout: Duration, log: Log, from: nat, to: nat)
    requires Legal(idleTimeout, log) && 1 <= from < to <= |log|
    requires !ActivityWithin(log, from, to)
    ensures log[from].time <= log[to - 1].time
    ensures IdleDecisions(log, from, to)
              <= 1 + (log[to - 1].time - log[from].time) / (30 * SECOND) + Withdrawals(log, from, to)
  {
    TimesSorted(idleTimeout, log, from, to - 1);
    var last := TallyDecisions(idleTimeout, log, from, to);
    if IdleDecisions(log, from, to) > 0 {
      TimesSorted(idleTimeout, log, last, to - 1);
      WithdrawalsRise(log, from, last, to);
      var spaced := IdleDecisions(log, from, to) - 1 - Withdrawals(log, from, last);
      if spaced > 0 {
        DivideBound(spaced, Lifecycle.STOP_CHECK_RETRY, log[to - 1].time - log[from].time);
      }
    }
  }

  /** In a log of prompt requests no attempt of a stretch without activity is withdrawn. */
  lemma {:induction false} NoWithdrawals(idleTimeout: Duration, log: Log, from: nat, to: nat)
    requires Legal(idleTimeout, log) && PromptLegal(log) && 1 <= from <= to <= |log|
    requires !ActivityWithin(log, from, to)
    ensures Withdrawals(log, from, to) == 0
  {
    if from < to {
      var n := to - 1;
      assert !ActivityWithin(log, from, n);
      NoWithdrawals(idleTimeout, log, from, n);
      assert PromptSoundAt(log, n);
      if WithdrawnAt(log, from, n) {
        var b :| from <= b < n && log[b].kind.Began?;
        forall k | b <= k < n
          ensures !log[k].kind.Obsolete?
        {
          if log[k].kind.Obsolete? {
            assert WithdrawnAt(log, from, k);
            WithdrawalsRise(log, from, k, n);
          }
        }
        DecisionKept(idleTimeout, log, b, n);
      }
    }
  }
}
