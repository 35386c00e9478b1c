/** The stages of one request (src/proxy.rs, `RousedProxy` and `RequestContext`). Dropping the context early drops its guards
    in the order of `Logging`. */
module Proxy {
  import opened Clock
  import opened Gate
  import opened Headers
  import opened Lifecycle
  import opened Routing
  import Wake

  class ServiceRoute {
    const lifecycle: ServiceLifecycle

    constructor (lifecycle: ServiceLifecycle)
      ensures this.lifecycle == lifecycle
    {
      this.lifecycle := lifecycle;
    }
  }

  /** The first `Host` value is a spelling of the host `c` for the listener. */
  ghost predicate SpellsHost(headers: HeaderMap, c: string, listenerPort: nat) {
    && "host" in headers && headers["host"] != []
    && Canonical(c) && Spells(headers["host"][0], c, Some(listenerPort))
  }

  class RousedProxy {
    const plainListenerPort: nat
    const routes: map<string, ServiceRoute>
    const gate: RequestGate

    constructor (plainListenerPort: nat, routes: map<string, ServiceRoute>, gate: RequestGate)
      ensures this.plainListenerPort == plainListenerPort && this.routes == routes && this.gate == gate
    {
      this.plainListenerPort, this.routes, this.gate := plainListenerPort, routes, gate;
    }

    /** The route of a request: its first `Host` value, as text, in normal form for the listener's port. */
    function RouteFor(headers: HeaderMap, listenerPort: nat): Option<ServiceRoute> {
      match HostText(headers)
      case None => None
      case Some(host) =>
        match NormalizeRequestHost(host, listenerPort)
        case None => None
        case Some(c) => if c in routes then Some(routes[c]) else None
    }

    /** A request takes the route of the host that its first `Host` value spells, with the listener's port or none. */
    lemma RouteForSpelling(headers: HeaderMap, listenerPort: nat, c: string)
      requires c in routes && SpellsHost(headers, c, listenerPort)
      ensures RouteFor(headers, listenerPort) == Some(routes[c])
    {
      var host := headers["host"][0];
      NormalizeExact(host, c, Some(listenerPort));
      SpellingCharacters(host, c, Some(listenerPort));
      assert HostText(headers) == Some(host);
    }

    /** A request without a `Host` value that spells a routed host has no route, and any route found is the spelled host's. */
    lemma RouteForExact(headers: HeaderMap, listenerPort: nat)
      ensures RouteFor(headers, listenerPort).None? <==>
                forall c :: c in routes ==> !SpellsHost(headers, c, listenerPort)
      ensures RouteFor(headers, listenerPort).Some? ==>
                exists c :: c in routes && SpellsHost(headers, c, listenerPort) && RouteFor(headers, listenerPort).value == routes[c]
    {
      forall c | c in routes && SpellsHost(headers, c, listenerPort)
        ensures RouteFor(headers, listenerPort) == Some(routes[c])
      {
        RouteForSpelling(headers, listenerPort, c);
      }
      if RouteFor(headers, listenerPort).Some? {
        var host := HostText(headers).value;
        var c := NormalizeRequestHost(host, listenerPort).value;
        NormalizeExact(host, c, Some(listenerPort));
        assert SpellsHost(headers, c, listenerPort);
      }
    }
  }

  /** What the request and its connection say; the local port is none where the connection has no such digest. */
  datatype Incoming = Incoming(http11: bool, headers: HeaderMap, localPort: Option<nat>, tls: bool, peerIp: Option<string>)

  function ListenerPort(proxy: RousedProxy, incoming: Incoming): nat {
    if incoming.localPort.Some? then incoming.localPort.value else proxy.plainListenerPort
  }

  function Found(proxy: RousedProxy, incoming: Incoming): Option<ServiceRoute> {
    proxy.RouteFor(incoming.headers, ListenerPort(proxy, incoming))
  }

  /** The records of the service that the request is for. */
  function ServiceRecords(route: Option<ServiceRoute>): set<object> {
    if route.Some? then {route.value.lifecycle, route.value.lifecycle.wakeTarget} else {}
  }

  predicate MayLaunch(state: Wake.LaunchState, now: Instant) {
    state.Eligible? || (state.CoolingDownUntil? && state.until <= now)
  }

  datatype Answer = ShuttingDown | UnknownHost | Loading | Proxied

  datatype FilterError = RouteMissing | LeaseTwice

  class RequestContext {
    const gate: RequestGate
    var route: Option<ServiceRoute>
    var lease: Option<ServiceLifecycle>
    var admission: bool
    var rejectedForShutdown: bool
    var websocket: bool
    var listenerPort: nat
    var tls: bool
    var peerIp: Option<string>

    /** Every guard that the context holds is counted. */
    ghost predicate Valid()
      reads this, gate, if lease.Some? then {lease.value} else {}
    {
      && (admission ==> gate.admitted > 0)
      && (lease.Some? ==> lease.value.inFlight > 0)
    }

    /** The request is counted at the gate or at the service that it was routed to. */
    predicate Guarded()
      reads this
    {
      admission || (route.Some? && lease == Some(route.value.lifecycle))
    }

    /** What the context keeps of the request and its connection. */
    function Kept(): (bool, nat, bool, Option<string>)
      reads this
    {
      (websocket, listenerPort, tls, peerIp)
    }

    constructor NewCtx(proxy: RousedProxy)
      modifies proxy.gate
      ensures Valid() && gate == proxy.gate && gate.State() == Admitted(old(proxy.gate.State()))
      ensures route.None? && lease.None? && Kept() == (false, proxy.plainListenerPort, false, None)
      ensures admission == old(proxy.gate.accepting) && rejectedForShutdown == !admission
    {
      gate, route, lease := proxy.gate, None, None;
      websocket, listenerPort, tls, peerIp := false, proxy.plainListenerPort, false, None;
      new;
      admission := gate.Admit();
      rejectedForShutdown := !admission;
    }

    /** Takes the admission and drops it. */
    method DropAdmission()
      requires Valid()
      modifies this`admission, gate
      ensures Valid() && !admission
      ensures gate.State() == if old(admission) then Gate.Released(old(gate.State())).value else old(gate.State())
    {
      if admission {
        admission := false;
        var _ := gate.Release();
      }
    }

    /** The whole change that an admitted request makes once its route is looked up: a request turned away has dropped its
        admission, a request that goes on still holds it and has its route, the arrival is noted exactly for known hosts, and
        a launch is asked for exactly when the service is not ready. */
    twostate predicate RouteTaken(found: Option<ServiceRoute>, ready: bool, arrival: Instant, asked: Instant, answer: Answer,
                                  started: bool)
      reads this, gate, ServiceRecords(found)
    {
      && answer == (if found.None? then UnknownHost else if ready then Proxied else Loading)
      && route == (if answer.Proxied? then found else None) && admission == answer.Proxied?
      && (if answer.Proxied? then gate.State() == old(gate.State())
          else Some(gate.State()) == Gate.Released(old(gate.State())))
      && (found.Some? ==>
            && found.value.lifecycle.State() == Arrived(old(found.value.lifecycle.State()), arrival)
            && found.value.lifecycle.wakeTarget.state
                 == (if started then Wake.Launching else old(found.value.lifecycle.wakeTarget.state)))
      && (started <==> answer.Loading? && MayLaunch(old(found.value.lifecycle.wakeTarget.state), asked))
    }

    /** What the filter does with the route. `ready` is the outcome of the readiness probe, and the instants are when the
        arrival is noted and when the launch is asked for. */
    method TakeRoute(found: Option<ServiceRoute>, ready: bool, arrival: Instant, asked: Instant)
      returns (answer: Answer, started: bool)
      requires Valid() && route.None? && lease.None? && admission
      modifies this`route, this`admission, gate, ServiceRecords(found)
      ensures Valid() && RouteTaken(found, ready, arrival, asked, answer, started)
      ensures lease.None? && Kept() == old(Kept()) && rejectedForShutdown == old(rejectedForShutdown)
    {
      if found.None? {
        DropAdmission();
        return UnknownHost, false;
      }
      found.value.lifecycle.NoteRequestArrivalAt(arrival);
      if ready {
        route := found;
        return Proxied, false;
      }
      started := found.value.lifecycle.wakeTarget.RequestLaunchAt(asked);
      DropAdmission();
      answer := Loading;
    }

    /** A request refused for shutdown changes nothing. Any other is told by its `Host` where it belongs; the context keeps
        what the request and its connection say, and the rest is as `TakeRoute` says. */
    method RequestFilter(proxy: RousedProxy, incoming: Incoming, ready: bool, arrival: Instant, asked: Instant)
      returns (answer: Answer, started: bool)
      requires Valid() && route.None? && lease.None? && rejectedForShutdown == !admission
      modifies this, gate, ServiceRecords(Found(proxy, incoming))
      ensures Valid() && lease.None? && rejectedForShutdown == old(rejectedForShutdown)
      ensures answer.ShuttingDown? <==> rejectedForShutdown
      ensures rejectedForShutdown ==> unchanged(this, gate, ServiceRecords(Found(proxy, incoming))) && !started
      ensures !rejectedForShutdown ==>
                && websocket == IsValidWebsocketRequest(incoming.http11, incoming.headers)
                && listenerPort == (match incoming.localPort case Some(port) => port case None => proxy.plainListenerPort)
                && tls == incoming.tls && peerIp == incoming.peerIp
                && RouteTaken(Found(proxy, incoming), ready, arrival, asked, answer, started)
      ensures answer.UnknownHost? <==>
                !rejectedForShutdown && forall c :: c in proxy.routes ==> !SpellsHost(incoming.headers, c, listenerPort)
      ensures answer.Proxied? ==>
                exists c :: c in proxy.routes && SpellsHost(incoming.headers, c, listenerPort) && route == Some(proxy.routes[c])
    {
      if rejectedForShutdown {
        return ShuttingDown, false;
      }
      websocket := IsValidWebsocketRequest(incoming.http11, incoming.headers);
      listenerPort := ListenerPort(proxy, incoming);
      tls := incoming.tls;
      peerIp := incoming.peerIp;
      var found := Found(proxy, incoming);
      proxy.RouteForExact(incoming.headers, listenerPort);
      answer, started := TakeRoute(found, ready, arrival, asked);
    }

    /** The handoff: the lease is taken before the admission is dropped. */
    method ProxyUpstreamFilter() returns (error: Option<FilterError>)
      requires Valid()
      modifies this`lease, this`admission, gate, if route.Some? then {route.value.lifecycle} else {}
      ensures Valid()
      ensures error == if route.None? then Some(RouteMissing) else if old(lease).Some? then Some(LeaseTwice) else None
      ensures error.Some? ==> lease == old(lease) && admission == old(admission) && gate.State() == old(gate.State())
      ensures error.None? ==>
                && lease == Some(route.value.lifecycle) && !admission && Guarded()
                && route.value.lifecycle.State() == Acquired(old(route.value.lifecycle.State()))
                && gate.State() == (if old(admission) then Gate.Released(old(gate.State())).value else old(gate.State()))
      ensures error.Some? && route.Some? ==> route.value.lifecycle.State() == old(route.value.lifecycle.State())
    {
      if route.None? {
        return Some(RouteMissing);
      }
      if lease.Some? {
        return Some(LeaseTwice);
      }
      route.value.lifecycle.Acquire();
      lease := Some(route.value.lifecycle);
      assert Guarded();
      DropAdmission();
      return None;
    }

    /** The end of the request: nothing stays held. */
    method Logging(now: Instant)
      requires Valid()
      modifies this`lease, this`admission, gate, if lease.Some? then {lease.value} else {}
      ensures Valid() && lease.None? && !admission
      ensures gate.State() == if old(admission) then Gate.Released(old(gate.State())).value else old(gate.State())
      ensures old(lease).Some? ==> old(lease).value.State() == Lifecycle.Released(old(lease.value.State()), now).value
    {
      if lease.Some? {
        var held := lease.value;
        lease := None;
        var _ := held.ReleaseAt(now);
      }
      DropAdmission();
    }
  }
}
