/** Upstream servers: configuration, health, and the statistics every proxy updates. */
module Upstreams {
  import opened Machine

  datatype HealthState = Healthy | Unhealthy | Unknown

  datatype UpstreamConfig = UpstreamConfig(name: string, address: string, weight: u32, timeoutMs: u64)

  /** What the selection code reads of one upstream at one moment. */
  datatype UpstreamView = UpstreamView(
    name: string, weight: nat, health: HealthState,
    requests: nat, responses: nat, failures: nat, active: nat, avgNs: u64)
  {
    predicate Available() {
      health.Healthy? || health.Unknown?
    }

    /** No requests yet counts as healthy. */
    function SuccessRate(): real {
      if requests == 0 then 1.0 else responses as real / requests as real
    }

    function AvgResponseTimeMs(): real {
      avgNs as real / 1000000.0
    }

    function HealthScore(): real {
      var base := match health case Healthy => 1.0 case Unknown => 0.5 case Unhealthy => 0.1;
      var ms := AvgResponseTimeMs();
      var latency := if ms > 1000.0 then 0.5 else if ms > 500.0 then 0.7 else if ms > 100.0 then 0.9 else 1.0;
      base * SuccessRate() * latency
    }
  }

  /** A freshly configured upstream: health unknown, nothing recorded. */
  function FreshView(config: UpstreamConfig): UpstreamView {
    UpstreamView(config.name, config.weight, Unknown, 0, 0, 0, 0, 0)
  }

  /** The moving average with factor 1/8, in wrapping 64-bit arithmetic; a stored zero means "no sample yet". */
  function NextAverage(avg: u64, sample: u64): u64 {
    if avg == 0 then sample else (avg * 7 + sample) % TWO64 / 8
  }

  /** The reading of an upstream once a request is recorded on it: its duration, or none for a failure. */
  function Recorded(u: UpstreamView, outcome: Option<nat>): UpstreamView {
    match outcome
    case Some(ns) =>
      u.(requests := (u.requests + 1) % TWO64, responses := (u.responses + 1) % TWO64,
         avgNs := NextAverage(u.avgNs, ns % TWO64))
    case None => u.(requests := (u.requests + 1) % TWO64, failures := (u.failures + 1) % TWO64)
  }

  class UpstreamStats {
    var requestsSent: u64
    var responsesReceived: u64
    var failures: u64
    var activeConnections: u64
    var avgResponseTimeNs: u64

    constructor ()
      ensures requestsSent == responsesReceived == failures == activeConnections == avgResponseTimeNs == 0
    {
      requestsSent, responsesReceived, failures, activeConnections, avgResponseTimeNs := 0, 0, 0, 0, 0;
    }

    /** The sample is cut to 64 bits, as the source's cast does. */
    method RecordSuccess(responseTimeNs: nat)
      modifies this
      ensures requestsSent == WrapAdd(old(requestsSent), 1)
      ensures responsesReceived == WrapAdd(old(responsesReceived), 1)
      ensures avgResponseTimeNs == NextAverage(old(avgResponseTimeNs), responseTimeNs % TWO64)
      ensures failures == old(failures) && activeConnections == old(activeConnections)
    {
      requestsSent := WrapAdd(requestsSent, 1);
      responsesReceived := WrapAdd(responsesReceived, 1);
      var sample := responseTimeNs % TWO64;
      var currentAvg := avgResponseTimeNs;
      var newAvg := sample;
      if currentAvg != 0 {
        newAvg := (currentAvg * 7 + sample) % TWO64 / 8;
      }
      avgResponseTimeNs := newAvg;
    }

    method RecordFailure()
      modifies this`requestsSent, this`failures
      ensures requestsSent == WrapAdd(old(requestsSent), 1)
      ensures failures == WrapAdd(old(failures), 1)
    {
      requestsSent := WrapAdd(requestsSent, 1);
      failures := WrapAdd(failures, 1);
    }

    method IncrementConnections() returns (now: u64)
      modifies this`activeConnections
      ensures now == activeConnections == WrapAdd(old(activeConnections), 1)
    {
      activeConnections := WrapAdd(activeConnections, 1);
      now := activeConnections;
    }

    /** The reported count saturates at zero although the stored one wraps. */
    method DecrementConnections() returns (now: u64)
      modifies this`activeConnections
      ensures activeConnections == WrapDecrement(old(activeConnections))
      ensures now == if old(activeConnections) == 0 then 0 else activeConnections
    {
      now := if activeConnections == 0 then 0 else activeConnections - 1;
      activeConnections := WrapDecrement(activeConnections);
    }
  }

  /** The two ways a request handed to an upstream is recorded: with its duration in nanoseconds, or as a failure. */
  twostate predicate OneRecord(stats: UpstreamStats, outcome: Option<nat>)
    reads stats
  {
    && stats.requestsSent == WrapAdd(old(stats.requestsSent), 1)
    && match outcome
       case Some(ns) =>
         && stats.responsesReceived == WrapAdd(old(stats.responsesReceived), 1)
         && stats.avgResponseTimeNs == NextAverage(old(stats.avgResponseTimeNs), ns % TWO64)
         && stats.failures == old(stats.failures)
       case None =>
         && stats.responsesReceived == old(stats.responsesReceived)
         && stats.avgResponseTimeNs == old(stats.avgResponseTimeNs)
         && stats.failures == WrapAdd(old(stats.failures), 1)
  }

  twostate predicate NoRecord(stats: UpstreamStats)
    reads stats
  {
    && stats.requestsSent == old(stats.requestsSent) && stats.responsesReceived == old(stats.responsesReceived)
    && stats.failures == old(stats.failures) && stats.activeConnections == old(stats.activeConnections)
    && stats.avgResponseTimeNs == old(stats.avgResponseTimeNs)
  }

  class UpstreamInfo {
    const config: UpstreamConfig
    const stats: UpstreamStats
    var healthState: HealthState
    var healthFailures: u64

    constructor (config: UpstreamConfig)
      ensures this.config == config && healthState == Unknown && healthFailures == 0
      ensures fresh(stats) && View() == FreshView(config)
    {
      this.config := config;
      healthState, healthFailures := Unknown, 0;
      stats := new UpstreamStats();
    }

    function View(): UpstreamView
      reads this, stats
    {
      UpstreamView(config.name, config.weight, healthState, stats.requestsSent, stats.responsesReceived,
                   stats.failures, stats.activeConnections, stats.avgResponseTimeNs)
    }

    method SetHealthState(state: HealthState)
      modifies this
      ensures healthState == state
      ensures healthFailures == match state
                                case Healthy => 0
                                case Unhealthy => WrapAdd(old(healthFailures), 1)
                                case Unknown => old(healthFailures)
    {
      healthState := state;
      match state {
        case Healthy => healthFailures := 0;
        case Unhealthy => healthFailures := WrapAdd(healthFailures, 1);
        case Unknown =>
      }
    }
  }

  /** One consistent reading of a whole list of upstreams. */
  function Views(upstreams: seq<UpstreamInfo>): (views: seq<UpstreamView>)
    reads upstreams, set u | u in upstreams :: u.stats
    ensures |views| == |upstreams|
    ensures forall i | 0 <= i < |views| :: views[i] == upstreams[i].View()
  {
    seq(|upstreams|, i requires 0 <= i < |upstreams| reads upstreams, set u | u in upstreams :: u.stats =>
      upstreams[i].View())
  }
}
