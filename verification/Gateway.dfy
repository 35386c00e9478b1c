/** From a loaded configuration to the services that the protocol runs (src/proxy.rs, `RousedProxy::new`). */
module Gateway {
  import opened Clock
  import opened Loader
  import opened Protocol
  import opened ServiceModel

  function SettingsOf(config: ServiceConfig): Settings {
    Settings(config.idleTimeoutSeconds * SECOND, config.canStopCommand.Some?)
  }

  /** The services, numbered by the entries that they come from. */
  function ProtocolConfig(configs: seq<ServiceConfig>): Config {
    map i: ServiceId | i < |configs| :: SettingsOf(configs[i])
  }

  lemma CheckedTimeout(raw: RawService)
    requires Check(raw).Good?
    ensures Check(raw).config.idleTimeoutSeconds == raw.idleTimeoutSeconds != 0
    ensures Check(raw).config.canStopCommand == raw.canStopCommand
  {
  }

  ghost predicate RunsEntries(c: Config, raw: seq<RawService>) {
    && |c| == |raw|
    && (forall i: ServiceId :: i in c <==> i < |raw|)
    && (forall i: ServiceId :: i in c ==>
          c[i].idleTimeout == raw[i].idleTimeoutSeconds * SECOND && c[i].hasChecker == raw[i].canStopCommand.Some?)
  }

  lemma {:induction false} KeysBelow(c: Config, n: nat)
    requires forall i: ServiceId :: i in c <==> i < n
    ensures |c| == n
  {
    if n > 0 {
      var rest := c - {n - 1};
      KeysBelow(rest, n - 1);
      assert c.Keys == rest.Keys + {n - 1};
    } else {
      assert c.Keys == {};
    }
  }

  /** The configurations carry the idle timeouts of the entries, and none is zero; and the commands. */
  predicate TimeoutsCarried(configs: seq<ServiceConfig>, raw: seq<RawService>) {
    && |configs| == |raw|
    && forall i: ServiceId :: i < |raw| ==>
         && configs[i].idleTimeoutSeconds == raw[i].idleTimeoutSeconds != 0
         && configs[i].canStopCommand == raw[i].canStopCommand
  }

  lemma PassingTimeouts(raw: seq<RawService>)
    requires AllGood(Checks(raw))
    ensures TimeoutsCarried(Configs(Checks(raw)), raw)
  {
    forall i: ServiceId | i < |raw|
      ensures Configs(Checks(raw))[i].idleTimeoutSeconds == raw[i].idleTimeoutSeconds != 0
      ensures Configs(Checks(raw))[i].canStopCommand == raw[i].canStopCommand
    {
      CheckedTimeout(raw[i]);
    }
  }

  lemma TimeoutsAreValid(configs: seq<ServiceConfig>, raw: seq<RawService>)
    requires TimeoutsCarried(configs, raw)
    ensures ValidConfig(ProtocolConfig(configs)) && RunsEntries(ProtocolConfig(configs), raw)
  {
    var c := ProtocolConfig(configs);
    forall i: ServiceId | i < |raw|
      ensures c[i].idleTimeout == raw[i].idleTimeoutSeconds * SECOND >= SECOND
      ensures c[i].hasChecker == raw[i].canStopCommand.Some?
    {
      assert configs[i].idleTimeoutSeconds == raw[i].idleTimeoutSeconds;
    }
    KeysBelow(c, |raw|);
  }

  /** Whatever loads is a configuration that the protocol's theorems are about: one service for each entry, each with the
      entry's idle timeout, of at least a second, and a checker exactly where the entry has a command. */
  lemma LoadedConfigIsValid(raw: seq<RawService>)
    ensures Loaded(raw).Ok? ==>
              && Passing(Checks(raw))
              && ValidConfig(ProtocolConfig(Configs(Checks(raw))))
              && RunsEntries(ProtocolConfig(Configs(Checks(raw))), raw)
  {
    LoadExact(raw);
    if Passing(Checks(raw)) {
      PassingTimeouts(raw);
      TimeoutsAreValid(Configs(Checks(raw)), raw);
    }
  }
}
