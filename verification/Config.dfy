/** Validation of the configuration: what an accepted one guarantees, and which error a rejected one reports. */
module Config {
  import opened Machine
  import opened Upstreams

  datatype ProxyInstanceConfig = ProxyInstanceConfig(name: string, listenAddr: string, upstreams: seq<UpstreamConfig>)

  datatype GlobalConfig = GlobalConfig(
    metricsEnabled: bool, metricsIntervalSecs: nat, poolInitialSize: nat, poolMaxSize: nat,
    logLevel: string, logFormat: string)

  datatype Config = Config(proxyInstances: seq<ProxyInstanceConfig>, global: GlobalConfig)

  datatype ConfigError =
    | DuplicateInstance(name: string)
    | DuplicateListenAddr(addr: string, instance: string)
    | EmptyInstanceName
    | NoUpstreams(instance: string)
    | DuplicateUpstream(name: string, instance: string)
    | EmptyUpstreamName
    | EmptyAddress(name: string)
    | MissingPort(name: string)
    | ZeroWeight(name: string)
    | ZeroTimeout(name: string)
    | ZeroMetricsInterval
    | PoolSizes
    | BadLogLevel
    | BadLogFormat

  // ---- Upstreams and the global section: branches only ----

  function UpstreamError(u: UpstreamConfig): Option<ConfigError> {
    if u.name == "" then Some(EmptyUpstreamName)
    else if u.address == "" then Some(EmptyAddress(u.name))
    else if ':' !in u.address then Some(MissingPort(u.name))
    else if u.weight == 0 then Some(ZeroWeight(u.name))
    else if u.timeoutMs == 0 then Some(ZeroTimeout(u.name))
    else None
  }

  function GlobalError(g: GlobalConfig): Option<ConfigError> {
    if g.metricsEnabled && g.metricsIntervalSecs == 0 then Some(ZeroMetricsInterval)
    else if g.poolInitialSize > g.poolMaxSize then Some(PoolSizes)
    else if g.logLevel !in {"error", "warn", "info", "debug", "trace"} then Some(BadLogLevel)
    else if g.logFormat !in {"json", "pretty", "compact"} then Some(BadLogFormat)
    else None
  }

  // ---- Uniqueness, checked by filling a hash set ----

  predicate Distinct<K(==)>(keys: seq<K>) {
    forall i, j | 0 <= i < j < |keys| :: keys[i] != keys[j]
  }

  /** `j` is the first key that occurred before. */
  ghost predicate IsFirstRepeat<K>(keys: seq<K>, j: nat) {
    && j < |keys|
    && keys[j] in keys[..j]
    && forall i, i' | 0 <= i < i' < j :: keys[i] != keys[i']
  }

  method FindRepeat<K(==)>(keys: seq<K>) returns (r: Option<nat>)
    ensures r.None? ==> Distinct(keys)
    ensures r.Some? ==> IsFirstRepeat(keys, r.value)
  {
    var seen: set<K> := {};
    for n := 0 to |keys|
      invariant forall x :: x in seen <==> x in keys[..n]
      invariant forall i, j | 0 <= i < j < n :: keys[i] != keys[j]
    {
      if keys[n] in seen {
        return Some(n);
      }
      seen := seen + {keys[n]};
    }
    return None;
  }

  lemma RepeatIsNotDistinct<K>(keys: seq<K>, j: nat)
    requires IsFirstRepeat(keys, j)
    ensures !Distinct(keys)
  {
    var i :| 0 <= i < j && keys[..j][i] == keys[j];
    assert keys[i] == keys[j];
  }

  function UpstreamNames(us: seq<UpstreamConfig>): (r: seq<string>)
    ensures |r| == |us| && forall i | 0 <= i < |us| :: r[i] == us[i].name
  {
    seq(|us|, i requires 0 <= i < |us| => us[i].name)
  }

  // ---- Instances ----

  ghost predicate SoundInstance(c: ProxyInstanceConfig) {
    && c.name != "" && c.upstreams != []
    && Distinct(UpstreamNames(c.upstreams))
    && forall i | 0 <= i < |c.upstreams| :: UpstreamError(c.upstreams[i]).None?
  }

  /** The reported error is the first in the order of the checks. */
  ghost predicate IsInstanceError(c: ProxyInstanceConfig, e: ConfigError) {
    if c.name == "" then e == EmptyInstanceName
    else if c.upstreams == [] then e == NoUpstreams(c.name)
    else if !Distinct(UpstreamNames(c.upstreams)) then
      exists j: nat ::
        IsFirstRepeat(UpstreamNames(c.upstreams), j) && e == DuplicateUpstream(c.upstreams[j].name, c.name)
    else
      exists j: nat :: IsFirstBadUpstream(c.upstreams, j) && UpstreamError(c.upstreams[j]) == Some(e)
  }

  ghost predicate IsFirstBadUpstream(us: seq<UpstreamConfig>, j: nat) {
    j < |us| && UpstreamError(us[j]).Some? && forall i | 0 <= i < j :: UpstreamError(us[i]).None?
  }

  method ValidateInstance(c: ProxyInstanceConfig) returns (r: Result<(), ConfigError>)
    ensures r.Ok? <==> SoundInstance(c)
    ensures r.Err? ==> IsInstanceError(c, r.error)
  {
    if c.name == "" {
      return Err(EmptyInstanceName);
    }
    if c.upstreams == [] {
      return Err(NoUpstreams(c.name));
    }
    var repeat := FindRepeat(UpstreamNames(c.upstreams));
    if repeat.Some? {
      RepeatIsNotDistinct(UpstreamNames(c.upstreams), repeat.value);
      return Err(DuplicateUpstream(c.upstreams[repeat.value].name, c.name));
    }
    for n := 0 to |c.upstreams|
      invariant forall i | 0 <= i < n :: UpstreamError(c.upstreams[i]).None?
    {
      var e := UpstreamError(c.upstreams[n]);
      if e.Some? {
        assert IsFirstBadUpstream(c.upstreams, n);
        return Err(e.value);
      }
    }
    return Ok(());
  }

  // ---- The whole configuration ----

  function InstanceNames(cs: seq<ProxyInstanceConfig>): (r: seq<string>)
    ensures |r| == |cs| && forall i | 0 <= i < |cs| :: r[i] == cs[i].name
  {
    seq(|cs|, i requires 0 <= i < |cs| => cs[i].name)
  }

  function ListenAddrs(cs: seq<ProxyInstanceConfig>): (r: seq<string>)
    ensures |r| == |cs| && forall i | 0 <= i < |cs| :: r[i] == cs[i].listenAddr
  {
    seq(|cs|, i requires 0 <= i < |cs| => cs[i].listenAddr)
  }

  ghost predicate SoundConfig(c: Config) {
    && Distinct(InstanceNames(c.proxyInstances))
    && Distinct(ListenAddrs(c.proxyInstances))
    && (forall i | 0 <= i < |c.proxyInstances| :: SoundInstance(c.proxyInstances[i]))
    && GlobalError(c.global).None?
  }

  ghost predicate IsFirstBadInstance(cs: seq<ProxyInstanceConfig>, j: nat) {
    j < |cs| && !SoundInstance(cs[j]) && forall i | 0 <= i < j :: SoundInstance(cs[i])
  }

  ghost predicate IsConfigError(c: Config, e: ConfigError) {
    var cs := c.proxyInstances;
    if !Distinct(InstanceNames(cs)) then
      exists j: nat :: IsFirstRepeat(InstanceNames(cs), j) && e == DuplicateInstance(cs[j].name)
    else if !Distinct(ListenAddrs(cs)) then
      exists j: nat :: IsFirstRepeat(ListenAddrs(cs), j) && e == DuplicateListenAddr(cs[j].listenAddr, cs[j].name)
    else if !(forall i | 0 <= i < |cs| :: SoundInstance(cs[i])) then
      exists j: nat :: IsFirstBadInstance(cs, j) && IsInstanceError(cs[j], e)
    else
      GlobalError(c.global) == Some(e)
  }

  method ValidateConfig(c: Config) returns (r: Result<(), ConfigError>)
    ensures r.Ok? <==> SoundConfig(c)
    ensures r.Err? ==> IsConfigError(c, r.error)
  {
    var cs := c.proxyInstances;
    var repeat := FindRepeat(InstanceNames(cs));
    if repeat.Some? {
      RepeatIsNotDistinct(InstanceNames(cs), repeat.value);
      return Err(DuplicateInstance(cs[repeat.value].name));
    }
    repeat := FindRepeat(ListenAddrs(cs));
    if repeat.Some? {
      RepeatIsNotDistinct(ListenAddrs(cs), repeat.value);
      return Err(DuplicateListenAddr(cs[repeat.value].listenAddr, cs[repeat.value].name));
    }
    for n := 0 to |cs|
      invariant forall i | 0 <= i < n :: SoundInstance(cs[i])
    {
      r := ValidateInstance(cs[n]);
      if r.Err? {
        assert IsFirstBadInstance(cs, n);
        return;
      }
    }
    var e := GlobalError(c.global);
    r := if e.Some? then Err(e.value) else Ok(());
  }

  function GetInstance(cs: seq<ProxyInstanceConfig>, name: string): Option<ProxyInstanceConfig> {
    if cs == [] then None else if cs[0].name == name then Some(cs[0]) else GetInstance(cs[1..], name)
  }

  /** In an accepted configuration every instance is found under its own name. */
  lemma {:induction false} InstanceFoundByName(cs: seq<ProxyInstanceConfig>, i: nat)
    requires Distinct(InstanceNames(cs)) && i < |cs|
    ensures GetInstance(cs, cs[i].name) == Some(cs[i])
  {
    var names := InstanceNames(cs);
    if i > 0 {
      assert names[0] != names[i];
      assert InstanceNames(cs[1..]) == names[1..];
      InstanceFoundByName(cs[1..], i - 1);
    }
  }

  /** A name finds the first instance that has it, and none exactly when no instance has it. */
  lemma {:induction false} InstanceLookup(cs: seq<ProxyInstanceConfig>, name: string, i: nat)
    requires i < |cs|
    ensures GetInstance(cs, name) == None ==> cs[i].name != name
    ensures cs[i].name == name && (forall j | 0 <= j < i :: cs[j].name != name) ==>
              GetInstance(cs, name) == Some(cs[i])
    ensures var r := GetInstance(cs, name); r.Some? ==> r.value.name == name && r.value in cs
  {
    if cs[0].name == name {
      assert cs[0] in cs;
    } else if i > 0 {
      InstanceLookup(cs[1..], name, i - 1);
    } else if |cs| > 1 {
      InstanceLookup(cs[1..], name, 0);
    } else {
      assert cs[1..] == [];
    }
  }

  lemma {:induction false} MissingInstance(cs: seq<ProxyInstanceConfig>, name: string)
    requires forall i | 0 <= i < |cs| :: cs[i].name != name
    ensures GetInstance(cs, name) == None
  {
    if cs != [] {
      MissingInstance(cs[1..], name);
    }
  }

  /** What an upstream must have, and which lack is reported first. */
  lemma UpstreamAcceptedIff(u: UpstreamConfig)
    ensures UpstreamError(u).None? <==>
              u.name != "" && u.address != "" && ':' in u.address && u.weight > 0 && u.timeoutMs > 0
    ensures u.name == "" ==> UpstreamError(u) == Some(EmptyUpstreamName)
    ensures u.name != "" && u.address == "" ==> UpstreamError(u) == Some(EmptyAddress(u.name))
    ensures u.name != "" && u.address != "" && ':' !in u.address ==> UpstreamError(u) == Some(MissingPort(u.name))
    ensures u.name != "" && ':' in u.address && u.weight == 0 ==> UpstreamError(u) == Some(ZeroWeight(u.name))
    ensures u.name != "" && ':' in u.address && u.weight > 0 && u.timeoutMs == 0 ==>
              UpstreamError(u) == Some(ZeroTimeout(u.name))
  {
  }

  lemma GlobalAcceptedIff(g: GlobalConfig)
    ensures GlobalError(g).None? <==>
              && !(g.metricsEnabled && g.metricsIntervalSecs == 0)
              && g.poolInitialSize <= g.poolMaxSize
              && g.logLevel in {"error", "warn", "info", "debug", "trace"}
              && g.logFormat in {"json", "pretty", "compact"}
    ensures g.metricsEnabled && g.metricsIntervalSecs == 0 ==> GlobalError(g) == Some(ZeroMetricsInterval)
  {
  }
}
