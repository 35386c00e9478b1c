/** The launch state of one service (src/wake.rs). */
module Wake {
  import opened Clock

  const RETRY_COOLDOWN: Duration := 5 * SECOND

  datatype LaunchState = Eligible | Launching | CoolingDownUntil(until: Instant)

  /** Whether a launch request at `now` starts a kickstart. */
  predicate Startable(w: LaunchState, now: Instant) {
    w.Eligible? || (w.CoolingDownUntil? && w.until <= now)
  }

  function AfterRequest(w: LaunchState, now: Instant): LaunchState {
    if Startable(w, now) then Launching else w
  }

  function AfterLaunch(now: Instant): LaunchState {
    CoolingDownUntil(now + RETRY_COOLDOWN)
  }

  class WakeTarget {
    var state: LaunchState

    constructor ()
      ensures state == Eligible
    {
      state := Eligible;
    }

    /** `started` stands for the call of the launcher. */
    method RequestLaunchAt(now: Instant) returns (started: bool)
      modifies this
      ensures started <==> old(state).Eligible? || (old(state).CoolingDownUntil? && old(state).until <= now)
      ensures state == if started then Launching else old(state)
      ensures started == Startable(old(state), now) && state == AfterRequest(old(state), now)
    {
      match state {
        case Eligible =>
          state := Launching;
          started := true;
        case Launching =>
          started := false;
        case CoolingDownUntil(until) =>
          if now < until {
            started := false;
          } else {
            state := Launching;
            started := true;
          }
      }
    }

    method LaunchFinishedAt(now: Instant)
      modifies this
      ensures state == CoolingDownUntil(now + 5 * SECOND) == AfterLaunch(now)
    {
      state := CoolingDownUntil(now + RETRY_COOLDOWN);
    }

    method AllowLaunchAfterStop()
      modifies this
      ensures state == Eligible
    {
      state := Eligible;
    }

    method LaunchInProgress() returns (launching: bool)
      ensures launching == state.Launching?
    {
      launching := state.Launching?;
    }
  }
}
