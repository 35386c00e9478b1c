/** The service loop of the configuration loader (src/config.rs, `Config::from_toml`), after TOML parsing. */
module Loader {
  import opened Clock
  import opened Names
  import opened Routing

  datatype IpAddress = V4(a: nat, b: nat, c: nat, d: nat) | V6(value: nat, scope: nat) {
    predicate IsLoopback() {
      match this
      case V4(a, _, _, _) => a == 127
      case V6(value, _) => value == 1
    }
  }

  datatype SocketAddress = SocketAddress(ip: IpAddress, port: nat)

  /** `upstream` is none where the text is no literal socket address. */
  datatype RawService = RawService(
    host: string,
    upstream: Option<SocketAddress>,
    launchdLabel: string,
    idleTimeoutSeconds: U64,
    canStopCommand: Option<seq<string>>)

  datatype ServiceConfig = ServiceConfig(
    host: string,
    upstream: SocketAddress,
    launchdLabel: string,
    idleTimeoutSeconds: U64,
    canStopCommand: Option<seq<string>>)

  datatype Problem =
    | BadHost
    | BadUpstream
    | UpstreamNotLoopback
    | BadLabel
    | ZeroIdleTimeout
    | EmptyCommand
    | CommandNotAbsolute
    | DuplicateHost
    | DuplicateLabel
    | DuplicateUpstream

  datatype Checked = Good(config: ServiceConfig) | Bad(problem: Problem)

  datatype LoadError = NoServices | InService(number: nat, problem: Problem)

  datatype Result = Ok(services: map<string, ServiceConfig>) | Err(error: LoadError)

  predicate ValidCommand(command: Option<seq<string>>) {
    command.Some? ==> command.value != [] && IsAbsolute(command.value[0])
  }

  /** What every entry must satisfy by itself. */
  predicate ValidEntry(raw: RawService) {
    && NormalizeConfigHost(raw.host).Some?
    && raw.upstream.Some? && raw.upstream.value.ip.IsLoopback() && raw.upstream.value.port != 0
    && ValidLaunchdLabel(raw.launchdLabel)
    && raw.idleTimeoutSeconds != 0
    && ValidCommand(raw.canStopCommand)
  }

  function ConfigOf(raw: RawService): ServiceConfig
    requires ValidEntry(raw)
  {
    ServiceConfig(NormalizeConfigHost(raw.host).value, raw.upstream.value, raw.launchdLabel, raw.idleTimeoutSeconds,
                  raw.canStopCommand)
  }

  /** Two services that may stand in one configuration. */
  predicate Distinct(a: ServiceConfig, b: ServiceConfig) {
    a.host != b.host && a.launchdLabel != b.launchdLabel && a.upstream != b.upstream
  }

  /** The entries are valid one by one and their services are pairwise distinct. */
  ghost predicate Loadable(raw: seq<RawService>) {
    && (forall i :: 0 <= i < |raw| ==> ValidEntry(raw[i]))
    && (forall i, j :: 0 <= i < j < |raw| ==> Distinct(ConfigOf(raw[i]), ConfigOf(raw[j])))
  }

  /** An entry checked by itself: its service, or the first problem in the order of the checks. */
  function Check(raw: RawService): (r: Checked)
    ensures r.Good? <==> ValidEntry(raw)
    ensures r.Good? ==> r.config == ConfigOf(raw)
  {
    if NormalizeConfigHost(raw.host).None? then Bad(BadHost)
    else if raw.upstream.None? then Bad(BadUpstream)
    else if !raw.upstream.value.ip.IsLoopback() || raw.upstream.value.port == 0 then Bad(UpstreamNotLoopback)
    else if !ValidLaunchdLabel(raw.launchdLabel) then Bad(BadLabel)
    else if raw.idleTimeoutSeconds == 0 then Bad(ZeroIdleTimeout)
    else if raw.canStopCommand.Some? && raw.canStopCommand.value == [] then Bad(EmptyCommand)
    else if !ValidCommand(raw.canStopCommand) then Bad(CommandNotAbsolute)
    else Good(ConfigOf(raw))
  }

  /** A literal loopback address: any of 127.0.0.0/8 or ::1. */
  predicate Loopback(ip: IpAddress) {
    (ip.V4? && ip.a == 127) || (ip.V6? && ip.value == 1)
  }

  /** The text spells a host without a port. */
  ghost predicate SpellsSome(host: string) {
    exists c: string :: Canonical(c) && Spells(host, c, None)
  }

  /** What each problem says of an entry. */
  ghost predicate Has(raw: RawService, problem: Problem) {
    match problem
    case BadHost => !SpellsSome(raw.host)
    case BadUpstream => raw.upstream.None?
    case UpstreamNotLoopback => raw.upstream.Some? && !(Loopback(raw.upstream.value.ip) && raw.upstream.value.port > 0)
    case BadLabel => !ValidLaunchdLabel(raw.launchdLabel)
    case ZeroIdleTimeout => raw.idleTimeoutSeconds < 1
    case EmptyCommand => raw.canStopCommand == Some([])
    case CommandNotAbsolute =>
      && raw.canStopCommand.Some? && |raw.canStopCommand.value| > 0
      && !("/" <= raw.canStopCommand.value[0])
    case _ => false
  }

  /** The order of the checks. */
  function Rank(problem: Problem): nat {
    match problem
    case BadHost => 1
    case BadUpstream => 2
    case UpstreamNotLoopback => 3
    case BadLabel => 4
    case ZeroIdleTimeout => 5
    case EmptyCommand => 6
    case CommandNotAbsolute => 7
    case DuplicateHost => 8
    case DuplicateLabel => 9
    case DuplicateUpstream => 10
  }

  lemma HostProblem(raw: RawService)
    ensures NormalizeConfigHost(raw.host).None? <==> Has(raw, BadHost)
  {
    if NormalizeConfigHost(raw.host).Some? {
      NormalizeExact(raw.host, NormalizeConfigHost(raw.host).value, None);
    }
    if c: string :| Canonical(c) && Spells(raw.host, c, None) {
      NormalizeExact(raw.host, c, None);
    }
  }

  ghost predicate Faultless(raw: RawService) {
    forall p :: !Has(raw, p)
  }

  lemma CommandProblems(raw: RawService)
    ensures ValidCommand(raw.canStopCommand) <==> !Has(raw, EmptyCommand) && !Has(raw, CommandNotAbsolute)
  {
  }

  lemma GoodHasNone(raw: RawService, p: Problem)
    requires Check(raw).Good?
    ensures !Has(raw, p)
  {
    HostProblem(raw);
    CommandProblems(raw);
  }

  lemma BadHasFirst(raw: RawService, p: Problem)
    requires Check(raw).Bad?
    ensures Has(raw, Check(raw).problem)
    ensures Rank(p) < Rank(Check(raw).problem) ==> !Has(raw, p)
  {
    HostProblem(raw);
    CommandProblems(raw);
  }

  /** An entry is good exactly when it has no problem, and the problem named is the first that it has in the order of the
      checks. A good entry's service has a host that the entry spells, and the entry's other four fields. */
  lemma CheckExact(raw: RawService)
    ensures Check(raw).Good? <==> Faultless(raw)
    ensures Check(raw).Bad? ==> Has(raw, Check(raw).problem) && forall p :: Rank(p) < Rank(Check(raw).problem) ==> !Has(raw, p)
    ensures Check(raw).Good? ==> EntryCarried(raw, Check(raw).config)
  {
    if Check(raw).Good? {
      NormalizeExact(raw.host, Check(raw).config.host, None);
      forall p
        ensures !Has(raw, p)
      {
        GoodHasNone(raw, p);
      }
    } else {
      BadHasFirst(raw, BadHost);
      forall p
        ensures Rank(p) < Rank(Check(raw).problem) ==> !Has(raw, p)
      {
        BadHasFirst(raw, p);
      }
    }
  }

  /** The service carries the entry: the canonical form of its host, and its other four fields as they are. */
  ghost predicate EntryCarried(raw: RawService, config: ServiceConfig) {
    && Canonical(config.host) && Spells(raw.host, config.host, None)
    && raw.upstream == Some(config.upstream)
    && config.launchdLabel == raw.launchdLabel
    && config.idleTimeoutSeconds == raw.idleTimeoutSeconds
    && config.canStopCommand == raw.canStopCommand
  }

  function Checks(raw: seq<RawService>): (r: seq<Checked>)
    ensures |r| == |raw| && forall i :: 0 <= i < |raw| ==> r[i] == Check(raw[i])
  {
    seq(|raw|, i requires 0 <= i < |raw| => Check(raw[i]))
  }

  ghost predicate AllGood(checks: seq<Checked>) {
    forall i :: 0 <= i < |checks| ==> checks[i].Good?
  }

  ghost function Configs(checks: seq<Checked>): (r: seq<ServiceConfig>)
    requires AllGood(checks)
    ensures |r| == |checks| && forall i :: 0 <= i < |checks| ==> r[i] == checks[i].config
  {
    seq(|checks|, i requires 0 <= i < |checks| => checks[i].config)
  }

  ghost predicate AllDistinct(configs: seq<ServiceConfig>) {
    forall i, j :: 0 <= i < j < |configs| ==> Distinct(configs[i], configs[j])
  }

  ghost predicate Passing(checks: seq<Checked>) {
    AllGood(checks) && AllDistinct(Configs(checks))
  }

  lemma LoadableIsPassing(raw: seq<RawService>)
    ensures Loadable(raw) <==> Passing(Checks(raw))
  {
    var checks := Checks(raw);
    if AllGood(checks) {
      var configs := Configs(checks);
      forall i, j | 0 <= i < j < |raw|
        ensures ValidEntry(raw[i]) && ValidEntry(raw[j])
        ensures Distinct(ConfigOf(raw[i]), ConfigOf(raw[j])) <==> Distinct(configs[i], configs[j])
      {
        assert checks[i] == Check(raw[i]) && checks[j] == Check(raw[j]);
      }
    }
  }

  /** The clash of a service with the ones before it, the first in the order of the checks. */
  ghost function Clash(before: seq<ServiceConfig>, config: ServiceConfig): Option<Problem> {
    if exists i :: 0 <= i < |before| && before[i].host == config.host then Some(DuplicateHost)
    else if exists i :: 0 <= i < |before| && before[i].launchdLabel == config.launchdLabel then Some(DuplicateLabel)
    else if exists i :: 0 <= i < |before| && before[i].upstream == config.upstream then Some(DuplicateUpstream)
    else None
  }

  /** Entry `n` is the first that does not load behind the ones before it, with this problem. */
  ghost predicate FirstProblem(checks: seq<Checked>, n: nat, problem: Problem) {
    && n < |checks|
    && Passing(checks[..n])
    && match checks[n]
       case Good(config) => Clash(Configs(checks[..n]), config) == Some(problem)
       case Bad(p) => p == problem
  }

  /** The services are exactly the entries, one for one, under their normalised hosts. */
  ghost predicate Represents(services: map<string, ServiceConfig>, configs: seq<ServiceConfig>) {
    && |services| == |configs|
    && (forall i :: 0 <= i < |configs| ==> configs[i].host in services && services[configs[i].host] == configs[i])
    && (forall host :: host in services ==> exists i :: 0 <= i < |configs| && configs[i].host == host)
  }

  /** The loader's three tables after the services: the services, and the labels and upstreams already taken. */
  datatype Tables = Tables(services: map<string, ServiceConfig>, labels: set<string>, upstreams: set<SocketAddress>)

  function Added(tables: Tables, config: ServiceConfig): Tables {
    Tables(tables.services[config.host := config], tables.labels + {config.launchdLabel}, tables.upstreams + {config.upstream})
  }

  ghost function Fill(configs: seq<ServiceConfig>): Tables {
    if configs == [] then Tables(map[], {}, {}) else Added(Fill(configs[..|configs| - 1]), configs[|configs| - 1])
  }

  lemma FillAppend(before: seq<ServiceConfig>, config: ServiceConfig)
    ensures Fill(before + [config]) == Added(Fill(before), config)
  {
    assert (before + [config])[..|before|] == before;
  }

  /** What is in the tables, member by member. */
  lemma {:induction false} FillMembers(configs: seq<ServiceConfig>, config: ServiceConfig)
    ensures config.host in Fill(configs).services <==> exists i :: 0 <= i < |configs| && configs[i].host == config.host
    ensures config.launchdLabel in Fill(configs).labels <==>
              exists i :: 0 <= i < |configs| && configs[i].launchdLabel == config.launchdLabel
    ensures config.upstream in Fill(configs).upstreams <==> exists i :: 0 <= i < |configs| && configs[i].upstream == config.upstream
  {
    if configs != [] {
      var n := |configs| - 1;
      FillMembers(configs[..n], config);
      assert configs[n] == configs[..n + 1][n] && forall i :: 0 <= i < n ==> configs[..n][i] == configs[i];
    }
  }

  /** What the tables answer for a service. */
  function Lookup(tables: Tables, config: ServiceConfig): Option<Problem> {
    if config.host in tables.services then Some(DuplicateHost)
    else if config.launchdLabel in tables.labels then Some(DuplicateLabel)
    else if config.upstream in tables.upstreams then Some(DuplicateUpstream)
    else None
  }

  /** The tables decide whether a service clashes with an earlier one. */
  lemma FillDecides(before: seq<ServiceConfig>, config: ServiceConfig)
    ensures Clash(before, config) == Lookup(Fill(before), config)
  {
    FillMembers(before, config);
  }

  lemma NewKey(services: map<string, ServiceConfig>, host: string, config: ServiceConfig)
    requires host !in services
    ensures |services[host := config]| == |services| + 1
  {
    assert services[host := config].Keys == services.Keys + {host};
  }

  lemma RepresentsAppend(services: map<string, ServiceConfig>, before: seq<ServiceConfig>, config: ServiceConfig)
    requires Represents(services, before) && config.host !in services
    ensures Represents(services[config.host := config], before + [config])
  {
    var all, next := before + [config], services[config.host := config];
    NewKey(services, config.host, config);
    assert all[|before|].host == config.host;
    forall host | host in services
      ensures exists i :: 0 <= i < |all| && all[i].host == host
    {
      var i :| 0 <= i < |before| && before[i].host == host;
      assert all[i].host == host;
    }
  }

  lemma DistinctLast(before: seq<ServiceConfig>, config: ServiceConfig)
    requires AllDistinct(before + [config])
    ensures AllDistinct(before) && forall i :: 0 <= i < |before| ==> Distinct(before[i], config)
  {
    var all := before + [config];
    forall i, j | 0 <= i < j < |all|
      ensures Distinct(all[i], all[j])
    {
    }
    assert all[|before|] == config && forall i :: 0 <= i < |before| ==> before[i] == all[i];
  }

  /** Services with distinct hosts are all kept, under their hosts. */
  lemma {:induction false} FillRepresents(configs: seq<ServiceConfig>)
    requires AllDistinct(configs)
    ensures Represents(Fill(configs).services, configs)
  {
    if configs != [] {
      var before, last := configs[..|configs| - 1], configs[|configs| - 1];
      assert configs == before + [last];
      DistinctLast(before, last);
      FillRepresents(before);
      FillAppend(before, last);
      FillMembers(before, last);
      RepresentsAppend(Fill(before).services, before, last);
    }
  }

  lemma DistinctAppend(before: seq<ServiceConfig>, config: ServiceConfig)
    requires AllDistinct(before)
    ensures AllDistinct(before + [config]) <==> Clash(before, config).None?
  {
    var all := before + [config];
    assert all[|before|] == config && forall i :: 0 <= i < |before| ==> all[i] == before[i];
    if AllDistinct(all) {
      forall i | 0 <= i < |before|
        ensures Distinct(before[i], config)
      {
        assert Distinct(all[i], all[|before|]);
      }
    }
    if Clash(before, config).None? {
      forall i, j | 0 <= i < j < |all|
        ensures Distinct(all[i], all[j])
      {
        if j < |before| {
          assert Distinct(before[i], before[j]);
        }
      }
    }
  }

  /** A service with no clash keeps the entries passing. */
  lemma PassingAppend(checks: seq<Checked>, n: nat)
    requires n < |checks| && Passing(checks[..n]) && checks[n].Good?
    ensures AllGood(checks[..n + 1]) && Configs(checks[..n + 1]) == Configs(checks[..n]) + [checks[n].config]
    ensures Passing(checks[..n + 1]) <==> Clash(Configs(checks[..n]), checks[n].config).None?
  {
    DistinctAppend(Configs(checks[..n]), checks[n].config);
  }

  /** Where an entry does not load behind the ones before it, the whole does not load. */
  lemma ProblemRefutes(checks: seq<Checked>, n: nat, problem: Problem)
    requires FirstProblem(checks, n, problem)
    ensures !Passing(checks)
  {
    if AllGood(checks) {
      PassingAppend(checks, n);
      assert Configs(checks)[..n + 1] == Configs(checks[..n + 1]);
      var i, j :| 0 <= i < j < n + 1 && !Distinct(Configs(checks[..n + 1])[i], Configs(checks[..n + 1])[j]);
      assert !Distinct(Configs(checks)[i], Configs(checks)[j]);
    }
  }

  /** What loading the entries from `n` on gives, with the tables that the ones before have filled. */
  function LoadFrom(tables: Tables, checks: seq<Checked>, n: nat): Result
    requires n <= |checks|
    decreases |checks| - n
  {
    if n == |checks| then Ok(tables.services)
    else match checks[n]
      case Bad(problem) => Err(InService(n + 1, problem))
      case Good(config) =>
        match Lookup(tables, config)
        case Some(problem) => Err(InService(n + 1, problem))
        case None => LoadFrom(Added(tables, config), checks, n + 1)
  }

  function Loaded(raw: seq<RawService>): Result {
    if raw == [] then Err(NoServices) else LoadFrom(Tables(map[], {}, {}), Checks(raw), 0)
  }

  /** What loading from entry `n` on promises. */
  ghost predicate LoadedRight(checks: seq<Checked>, r: Result) {
    && (r.Ok? <==> Passing(checks))
    && (r.Ok? ==> r.services == Fill(Configs(checks)).services)
    && (r.Err? ==> r.error.InService? && r.error.number > 0 && FirstProblem(checks, r.error.number - 1, r.error.problem))
  }

  lemma ProblemFound(checks: seq<Checked>, n: nat, problem: Problem)
    requires FirstProblem(checks, n, problem)
    ensures LoadedRight(checks, Err(InService(n + 1, problem)))
  {
    ProblemRefutes(checks, n, problem);
  }

  lemma {:induction false} LoadFromExact(checks: seq<Checked>, n: nat)
    requires n <= |checks| && Passing(checks[..n])
    ensures LoadedRight(checks, LoadFrom(Fill(Configs(checks[..n])), checks, n))
    decreases |checks| - n
  {
    if n == |checks| {
      assert checks[..n] == checks;
    } else if checks[n].Bad? {
      ProblemFound(checks, n, checks[n].problem);
    } else {
      var before, config := Configs(checks[..n]), checks[n].config;
      FillDecides(before, config);
      if Clash(before, config).Some? {
        ProblemFound(checks, n, Clash(before, config).value);
      } else {
        PassingAppend(checks, n);
        FillAppend(before, config);
        LoadFromExact(checks, n + 1);
      }
    }
  }

  /** Loading every entry, with the tables empty at first. */
  lemma LoadAllExact(checks: seq<Checked>)
    ensures var r := LoadFrom(Tables(map[], {}, {}), checks, 0);
            && (r.Ok? <==> Passing(checks))
            && (r.Ok? ==> Represents(r.services, Configs(checks)))
            && (r.Err? ==> r.error.InService? && r.error.number > 0 && FirstProblem(checks, r.error.number - 1, r.error.problem))
  {
    assert checks[..0] == [];
    LoadFromExact(checks, 0);
    assert Fill(Configs(checks[..0])) == Tables(map[], {}, {});
    if Passing(checks) {
      FillRepresents(Configs(checks));
    }
  }

  /** Loader correctness: loading succeeds exactly when there is an entry, every entry is valid by itself, and hosts, labels
      and upstreams are pairwise distinct; the services are then the entries one for one. A failure gives no services, and
      names the first entry that does not load behind the ones before it, with its problem. */
  lemma LoadExact(raw: seq<RawService>)
    ensures var r := Loaded(raw);
            && (r.Ok? <==> raw != [] && Loadable(raw))
            && (r.Ok? ==> Passing(Checks(raw)) && Represents(r.services, Configs(Checks(raw))))
            && (r.Err? && raw != [] ==>
                  && r.error.InService? && r.error.number > 0
                  && FirstProblem(Checks(raw), r.error.number - 1, r.error.problem))
  {
    LoadableIsPassing(raw);
    LoadAllExact(Checks(raw));
  }

  /** No two of the host, the label and the upstream are shared. */
  ghost predicate Apart(a: RawService, b: RawService) {
    && a.launchdLabel != b.launchdLabel && a.upstream != b.upstream
    && forall c: string :: Canonical(c) && Spells(a.host, c, None) ==> !Spells(b.host, c, None)
  }

  lemma ApartIsDistinct(a: RawService, b: RawService)
    requires ValidEntry(a) && ValidEntry(b)
    ensures Distinct(ConfigOf(a), ConfigOf(b)) <==> Apart(a, b)
  {
    NormalizeExact(a.host, ConfigOf(a).host, None);
    NormalizeExact(b.host, ConfigOf(b).host, None);
    forall c: string
      ensures Canonical(c) && Spells(a.host, c, None) ==> c == ConfigOf(a).host
      ensures Canonical(c) && Spells(b.host, c, None) ==> c == ConfigOf(b).host
    {
      NormalizeExact(a.host, c, None);
      NormalizeExact(b.host, c, None);
    }
  }

  /** Entries may be loaded together exactly when none has a problem and no two share a host, a label or an upstream. */
  lemma LoadableExact(raw: seq<RawService>)
    ensures Loadable(raw) <==>
              && (forall i :: 0 <= i < |raw| ==> Faultless(raw[i]))
              && (forall i, j :: 0 <= i < j < |raw| ==> Apart(raw[i], raw[j]))
  {
    forall i | 0 <= i < |raw|
      ensures ValidEntry(raw[i]) <==> Faultless(raw[i])
    {
      CheckExact(raw[i]);
    }
    if forall i :: 0 <= i < |raw| ==> ValidEntry(raw[i]) {
      forall i, j | 0 <= i < j < |raw|
        ensures Distinct(ConfigOf(raw[i]), ConfigOf(raw[j])) <==> Apart(raw[i], raw[j])
      {
        ApartIsDistinct(raw[i], raw[j]);
      }
    }
  }

  /** The service of an entry, under the canonical form of the entry's host. */
  ghost predicate EntryFound(services: map<string, ServiceConfig>, raw: RawService) {
    exists c: string :: c in services && services[c].host == c && EntryCarried(raw, services[c])
  }

  lemma FieldsFound(services: map<string, ServiceConfig>, configs: seq<ServiceConfig>, i: nat, raw: RawService)
    requires Represents(services, configs) && i < |configs| && Check(raw) == Good(configs[i])
    ensures EntryFound(services, raw)
  {
    CheckExact(raw);
    var c := configs[i].host;
    assert c in services && services[c] == configs[i];
  }

  /** The loaded services are the entries one for one, each with its entry's host in canonical form and with the entry's
      upstream, label, idle timeout and command. */
  lemma LoadedFields(raw: seq<RawService>)
    ensures var r := Loaded(raw);
            r.Ok? ==> |r.services| == |raw| && forall i :: 0 <= i < |raw| ==> EntryFound(r.services, raw[i])
  {
    var r := Loaded(raw);
    LoadExact(raw);
    if r.Ok? {
      var configs := Configs(Checks(raw));
      forall i | 0 <= i < |raw|
        ensures EntryFound(r.services, raw[i])
      {
        assert Checks(raw)[i] == Check(raw[i]);
        FieldsFound(r.services, configs, i, raw[i]);
      }
    }
  }

  /** The loop over the entries. */
  method LoadEntries(raw: seq<RawService>) returns (r: Result)
    ensures r == LoadFrom(Tables(map[], {}, {}), Checks(raw), 0)
  {
    ghost var checks := Checks(raw);
    ghost var goal := LoadFrom(Tables(map[], {}, {}), checks, 0);
    var services: map<string, ServiceConfig>, labels: set<string>, upstreams: set<SocketAddress> := map[], {}, {};
    for n := 0 to |raw|
      invariant LoadFrom(Tables(services, labels, upstreams), checks, n) == goal
    {
      var checked := Check(raw[n]);
      if checked.Bad? {
        return Err(InService(n + 1, checked.problem));
      }
      var config := checked.config;
      if config.host in services {
        return Err(InService(n + 1, DuplicateHost));
      }
      if config.launchdLabel in labels {
        return Err(InService(n + 1, DuplicateLabel));
      }
      labels := labels + {config.launchdLabel};
      if config.upstream in upstreams {
        return Err(InService(n + 1, DuplicateUpstream));
      }
      upstreams := upstreams + {config.upstream};
      services := services[config.host := config];
    }
    return Ok(services);
  }

  method LoadServices(raw: seq<RawService>) returns (r: Result)
    ensures r == Loaded(raw)
    ensures r.Ok? <==> raw != [] && Loadable(raw)
    ensures r.Ok? ==> Represents(r.services, Configs(Checks(raw)))
    ensures r.Err? ==>
              || (raw == [] && r.error == NoServices)
              || (r.error.InService? && r.error.number > 0 && FirstProblem(Checks(raw), r.error.number - 1, r.error.problem))
  {
    if raw == [] {
      r := Err(NoServices);
    } else {
      r := LoadEntries(raw);
    }
    LoadExact(raw);
  }

  /** The service of a request, by its host and the port of the listener that took it. */
  function ServiceForRequestHost(services: map<string, ServiceConfig>, host: string, listenerPort: nat): Option<ServiceConfig> {
    match NormalizeRequestHost(host, listenerPort)
    case None => None
    case Some(c) => if c in services then Some(services[c]) else None
  }

  /** A request reaches a service exactly when its host spells that service's host, which is in normal form. */
  lemma RouteExact(services: map<string, ServiceConfig>, configs: seq<ServiceConfig>, i: nat, host: string, listenerPort: nat)
    requires Represents(services, configs) && i < |configs| && Canonical(configs[i].host)
    ensures ServiceForRequestHost(services, host, listenerPort) == Some(configs[i]) <==>
              Spells(host, configs[i].host, Some(listenerPort))
  {
    var c := configs[i].host;
    NormalizeExact(host, c, Some(listenerPort));
    var found := NormalizeRequestHost(host, listenerPort);
    if found.Some? && found.value in services && services[found.value] == configs[i] {
      var j :| 0 <= j < |configs| && configs[j].host == found.value;
      assert services[found.value] == configs[j];
    }
  }

  lemma EntryHostCanonical(raw: RawService)
    requires ValidEntry(raw)
    ensures Canonical(ConfigOf(raw).host)
  {
    NormalizeExact(raw.host, ConfigOf(raw).host, None);
  }

  /** The entry's host, as a request would spell it. */
  ghost predicate SpellsEntry(host: string, raw: RawService, listenerPort: nat) {
    ValidEntry(raw) && Spells(host, ConfigOf(raw).host, Some(listenerPort))
  }

  /** Routing after loading: a request reaches the service of an entry exactly when its host spells that entry's host, and
      its host is unknown exactly when it spells no entry's. */
  lemma LoadedRoutes(raw: seq<RawService>, host: string, listenerPort: nat)
    ensures var loaded := Loaded(raw);
            loaded.Ok? ==>
              && (forall i :: 0 <= i < |raw| ==>
                    ValidEntry(raw[i]) &&
                    (ServiceForRequestHost(loaded.services, host, listenerPort) == Some(ConfigOf(raw[i])) <==>
                       SpellsEntry(host, raw[i], listenerPort)))
              && (ServiceForRequestHost(loaded.services, host, listenerPort).None? <==>
                    forall i :: 0 <= i < |raw| ==> !SpellsEntry(host, raw[i], listenerPort))
  {
    var loaded := Loaded(raw);
    LoadExact(raw);
    if loaded.Ok? {
      var services, configs := loaded.services, Configs(Checks(raw));
      forall i | 0 <= i < |raw|
        ensures ValidEntry(raw[i]) && ConfigOf(raw[i]) == configs[i]
        ensures ServiceForRequestHost(services, host, listenerPort) == Some(configs[i]) <==> SpellsEntry(host, raw[i], listenerPort)
      {
        assert Checks(raw)[i] == Check(raw[i]);
        EntryHostCanonical(raw[i]);
        RouteExact(services, configs, i, host, listenerPort);
      }
      FoundIsListed(services, configs, host, listenerPort);
    }
  }

  lemma FoundIsListed(services: map<string, ServiceConfig>, configs: seq<ServiceConfig>, host: string, listenerPort: nat)
    requires Represents(services, configs)
    ensures ServiceForRequestHost(services, host, listenerPort).None? <==>
              forall i :: 0 <= i < |configs| ==> ServiceForRequestHost(services, host, listenerPort) != Some(configs[i])
  {
    var found := ServiceForRequestHost(services, host, listenerPort);
    if found.Some? {
      var c := NormalizeRequestHost(host, listenerPort).value;
      var i :| 0 <= i < |configs| && configs[i].host == c;
      assert services[c] == configs[i];
    }
  }
}
