/** The request gate and the shutdown phase (src/lifecycle.rs, `RequestGate` and `ShutdownCoordinator`). */
module Gate {
  import opened Clock

  /** `permit` is the one permit that a `Notify` can store for its next waiter. */
  datatype GateState = GateState(accepting: bool, admitted: nat, permit: bool)

  const OPEN_GATE: GateState := GateState(true, 0, false)

  function Admitted(g: GateState): GateState {
    if g.accepting then g.(admitted := g.admitted + 1) else g
  }

  function Closed(g: GateState): GateState {
    g.(accepting := false, permit := g.permit || g.admitted == 0)
  }

  /** None stands for the panic on a release that matches no admission. */
  function Released(g: GateState): Option<GateState> {
    if g.admitted == 0 then None
    else Some(g.(admitted := g.admitted - 1, permit := g.permit || g.admitted == 1))
  }

  datatype Phase = Running | Requested | Completed {
    function Rank(): nat {
      match this
      case Running => 0
      case Requested => 1
      case Completed => 2
    }
  }

  function AfterShutdownRequest(p: Phase): Phase {
    if p.Running? then Requested else p
  }

  /** Instants in the order in which they come, none before `from`. */
  ghost predicate Schedule(instants: seq<Instant>, from: Instant) {
    && (forall i :: 0 <= i < |instants| ==> from <= instants[i])
    && (forall i, j :: 0 <= i < j < |instants| ==> instants[i] <= instants[j])
  }

  class RequestGate {
    var accepting: bool
    var admitted: nat
    var permit: bool

    function State(): GateState
      reads this
    {
      GateState(accepting, admitted, permit)
    }

    constructor ()
      ensures State() == OPEN_GATE
    {
      accepting, admitted, permit := true, 0, false;
    }

    method Admit() returns (admission: bool)
      modifies this
      ensures admission == accepting == old(accepting) && permit == old(permit)
      ensures admitted == old(admitted) + if admission then 1 else 0
      ensures State() == Admitted(old(State()))
    {
      if !accepting {
        return false;
      }
      admitted := admitted + 1;
      return true;
    }

    method Close()
      modifies this
      ensures !accepting && admitted == old(admitted) && (permit <==> old(permit) || admitted == 0)
      ensures State() == Closed(old(State()))
    {
      accepting := false;
      var drained := admitted == 0;
      if drained {
        permit := true;
      }
    }

    /** `ok` is false where the original panics. */
    method Release() returns (ok: bool)
      modifies this
      ensures ok <==> old(admitted) > 0
      ensures accepting == old(accepting) && admitted == old(admitted) - (if ok then 1 else 0)
      ensures permit <==> old(permit) || (ok && admitted == 0)
      ensures ok <==> Released(old(State())).Some?
      ensures State() == if ok then Released(old(State())).value else old(State())
    {
      if admitted == 0 {
        return false;
      }
      admitted := admitted - 1;
      var drained := admitted == 0;
      if drained {
        permit := true;
      }
      return true;
    }

    /** The drain wait on a closed gate, from `now`. `releases` lists the instants at which admissions are dropped;
        an admission that is never dropped is not listed. A wait takes a stored permit at once and otherwise sleeps
        until a permit comes or the deadline passes. */
    method WaitForDrainUntil(now: Instant, deadline: Instant, releases: seq<Instant>)
      returns (drained: bool, end: Instant, passes: nat)
      requires !accepting
      requires |releases| <= admitted
      requires Schedule(releases, now)
      modifies this
      ensures drained <==> |releases| == old(admitted) && (releases == [] || releases[|releases| - 1] <= deadline)
      ensures drained ==> end == if releases == [] then now else releases[|releases| - 1]
      ensures !drained ==> end == if now <= deadline then deadline else now
      ensures drained <==> admitted == 0
      ensures 1 <= passes <= 3
      ensures !accepting
    {
      var next := 0;
      end, passes := now, 0;
      while true
        invariant !accepting && 0 <= next <= |releases|
        invariant admitted == old(admitted) - next
        invariant end == if next == 0 then now else releases[next - 1]
        invariant next > 0 ==> end <= deadline && admitted == 0 && !permit
        invariant passes == 0 || (passes == 1 && !permit) || (passes == 2 && admitted == 0)
        decreases |releases| - next + if permit then 1 else 0
      {
        passes := passes + 1;
        if admitted == 0 {
          return true, end, passes;
        }
        if deadline < end {
          return false, end, passes;
        }
        if permit {
          permit := false;
        } else {
          while next < |releases| && releases[next] <= deadline && !permit
            invariant !accepting && 0 <= next <= |releases|
            invariant admitted == old(admitted) - next
            invariant end == if next == 0 then now else releases[next - 1]
            invariant end <= deadline
            invariant permit <==> admitted == 0
          {
            end := releases[next];
            var _ := Release();
            next := next + 1;
          }
          if !permit {
            return false, deadline, passes;
          }
          permit := false;
        }
      }
    }
  }

  class ShutdownCoordinator {
    const gate: RequestGate
    var phase: Phase

    constructor (gate: RequestGate)
      ensures this.gate == gate && phase == Running
    {
      this.gate := gate;
      phase := Running;
    }

    method Request()
      modifies this, gate
      ensures gate.State() == Closed(old(gate.State()))
      ensures phase == (if old(phase).Running? then Requested else old(phase)) == AfterShutdownRequest(old(phase))
    {
      gate.Close();
      if phase == Running {
        phase := Requested;
      }
    }

    method Complete()
      modifies this
      ensures phase == Completed
    {
      if phase != Completed {
        phase := Completed;
      }
    }
  }
}
