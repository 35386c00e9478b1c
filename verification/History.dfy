/** The event log of one service, a digest of it, and what makes an event legal after a given log.
    The log is kept only by the model: the program stores none. */
module History {
  import opened Clock
  import Lifecycle
  import Wake

  datatype Kind =
    | Created
    | Arrival
    | Acquire
    | Release
    | Began(idle: bool, at: Instant)
    | CheckFailed
    | Obsolete
    | StopStarted(idle: bool, at: Instant)
    | SpawnFailed(at: Instant)
    | StopFinished
    | LaunchStarted
    | LaunchFinished
    | Drained
  {
    predicate IsActivity() {
      Arrival? || Acquire? || Release?
    }

    predicate SetsIdleClock() {
      Created? || Arrival? || Release?
    }

    predicate EndsAttempt() {
      CheckFailed? || Obsolete? || SpawnFailed? || StopFinished?
    }
  }

  /** `time` is when the critical section ran; `at` in a kind is the reading of the clock that the section was given. */
  datatype Event = Event(time: Instant, kind: Kind)

  type Log = seq<Event>

  datatype Digest = Digest(
    leases: int,
    activities: nat,
    openAttempts: int,
    deciding: bool,
    beganIdle: bool,
    began: Instant,
    seen: int,
    idleMark: Instant,
    signalled: bool,
    lastFailure: Option<Instant>,
    wake: Wake.LaunchState,
    openLaunches: int,
    drained: bool,
    stopsSinceDrain: nat,
    lastTime: Instant)

  const EMPTY_DIGEST: Digest :=
    Digest(0, 0, 0, false, false, 0, 0, 0, false, None, Wake.Eligible, 0, false, 0, 0)

  /** Nothing that a generation can show has changed since the attempt began. */
  predicate GenerationUnchanged(d: Digest) {
    (d.activities - d.seen) % TWO_TO_THE_64 == 0
  }

  /** The digest after one more event, field by field. */
  function Absorb(d: Digest, e: Event): Digest {
    var k := e.kind;
    Digest(
      leases := d.leases + (if k.Acquire? then 1 else if k.Release? then -1 else 0),
      activities := if k.IsActivity() then d.activities + 1 else d.activities,
      openAttempts := d.openAttempts + (if k.Began? then 1 else if k.EndsAttempt() then -1 else 0),
      deciding := k.Began? || (d.deciding && !k.StopStarted? && !k.EndsAttempt()),
      beganIdle := if k.Began? then k.idle else d.beganIdle,
      began := if k.Began? then e.time else d.began,
      seen := if k.Began? then d.activities else d.seen,
      idleMark := if k.SetsIdleClock() then e.time else d.idleMark,
      signalled := k.StopStarted? || (d.signalled && !k.IsActivity()),
      lastFailure := FailureAfter(d, e),
      wake := if k.LaunchStarted? then Wake.Launching
              else if k.LaunchFinished? then Wake.AfterLaunch(e.time)
              else if k.StopStarted? then Wake.Eligible
              else d.wake,
      openLaunches := d.openLaunches + (if k.LaunchStarted? then 1 else if k.LaunchFinished? then -1 else 0),
      drained := d.drained || k.Drained?,
      stopsSinceDrain := if d.drained && k.StopStarted? then d.stopsSinceDrain + 1 else d.stopsSinceDrain,
      lastTime := e.time)
  }

  /** A refused check counts as a failure only when the attempt can still see the generation it began with. */
  function FailureAfter(d: Digest, e: Event): Option<Instant> {
    if e.kind.IsActivity() then None
    else if e.kind.CheckFailed? && GenerationUnchanged(d) && d.leases == 0 then Some(e.time)
    else if e.kind.SpawnFailed? then Some(e.kind.at)
    else d.lastFailure
  }

  function DigestOf(log: Log): Digest {
    if log == [] then EMPTY_DIGEST else Absorb(DigestOf(log[..|log| - 1]), log[|log| - 1])
  }

  lemma DigestAppend(log: Log, e: Event)
    ensures DigestOf(log + [e]) == Absorb(DigestOf(log), e)
  {
    assert (log + [e])[..|log|] == log;
  }

  lemma DigestPrefix(log: Log, n: nat)
    requires n < |log|
    ensures DigestOf(log[..n + 1]) == Absorb(DigestOf(log[..n]), log[n])
  {
    assert log[..n + 1] == log[..n] + [log[n]];
    DigestAppend(log[..n], log[n]);
  }

  /** Event `e` may follow a log whose digest is `d`, for a service with this idle timeout. */
  predicate Sound(idleTimeout: Duration, d: Digest, e: Event) {
    d.lastTime <= e.time &&
    match e.kind
    case Created => false
    case Arrival => !d.drained
    case Acquire => !d.drained
    case Release => d.leases > 0
    case Began(idle, at) =>
      && d.leases == 0 && d.openAttempts == 0 && !d.signalled && !d.wake.Launching?
      && at <= e.time
      && (idle <==> !d.drained)
      && (idle ==> d.idleMark + idleTimeout <= at)
      && (idle && d.lastFailure.Some? ==> d.lastFailure.value + Lifecycle.STOP_CHECK_RETRY <= at)
    case CheckFailed => d.deciding
    case Obsolete => d.deciding && d.beganIdle
    case StopStarted(idle, at) =>
      && d.deciding && d.leases == 0 && !d.signalled && GenerationUnchanged(d)
      && d.began <= at <= e.time
      && idle == d.beganIdle
      && (idle ==> d.idleMark + idleTimeout <= at)
      && (!idle ==> d.drained)
      && d.stopsSinceDrain == 0
    case SpawnFailed(at) => d.deciding && d.began <= at <= e.time
    case StopFinished => d.openAttempts > 0 && !d.deciding
    case LaunchStarted => Wake.Startable(d.wake, e.time) && !d.drained
    case LaunchFinished => d.openLaunches > 0
    case Drained => !d.drained
  }

  /** What holds as well when every request leaves its probing stage within the idle timeout. */
  predicate PromptSound(d: Digest, e: Event) {
    match e.kind
    case Obsolete => d.seen < d.activities
    case StopStarted(_, _) => !d.wake.Launching? && d.openLaunches == 0
    case LaunchStarted => d.openLaunches == 0
    case _ => true
  }

  predicate SoundAt(idleTimeout: Duration, log: Log, n: nat)
    requires n < |log|
  {
    Sound(idleTimeout, DigestOf(log[..n]), log[n])
  }

  ghost predicate Legal(idleTimeout: Duration, log: Log) {
    && log != []
    && log[0].kind.Created?
    && forall n :: 1 <= n < |log| ==> SoundAt(idleTimeout, log, n)
  }

  predicate PromptSoundAt(log: Log, n: nat)
    requires n < |log|
  {
    PromptSound(DigestOf(log[..n]), log[n])
  }

  ghost predicate PromptLegal(log: Log) {
    forall n :: 1 <= n < |log| ==> PromptSoundAt(log, n)
  }

  lemma LegalAppend(idleTimeout: Duration, log: Log, e: Event)
    requires Legal(idleTimeout, log) && Sound(idleTimeout, DigestOf(log), e)
    ensures Legal(idleTimeout, log + [e])
    ensures DigestOf(log + [e]) == Absorb(DigestOf(log), e)
  {
    DigestAppend(log, e);
    forall n | 1 <= n < |log + [e]|
      ensures SoundAt(idleTimeout, log + [e], n)
    {
      assert (log + [e])[..n] == if n < |log| then log[..n] else log;
      assert n < |log| ==> SoundAt(idleTimeout, log, n);
    }
  }

  lemma PromptLegalAppend(log: Log, e: Event)
    requires PromptLegal(log) && PromptSound(DigestOf(log), e)
    ensures PromptLegal(log + [e])
  {
    forall n | 1 <= n < |log + [e]|
      ensures PromptSoundAt(log + [e], n)
    {
      assert (log + [e])[..n] == if n < |log| then log[..n] else log;
      assert n < |log| ==> PromptSoundAt(log, n);
    }
  }

  lemma LegalPrefix(idleTimeout: Duration, log: Log, n: nat)
    requires Legal(idleTimeout, log) && 1 <= n <= |log|
    ensures Legal(idleTimeout, log[..n])
  {
    forall m | 1 <= m < n
      ensures SoundAt(idleTimeout, log[..n], m)
    {
      assert log[..n][..m] == log[..m];
      assert SoundAt(idleTimeout, log, m);
    }
  }
}
