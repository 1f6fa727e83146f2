/** The load balancer: one list of upstreams, one ticket counter, one hash ring, five strategies. */
module Routing {
  import opened Machine
  import opened Upstreams
  import opened HashRing
  import opened RingStability
  import RR = RoundRobin
  import LC = LeastConnections
  import HA = HealthAware

  datatype LoadBalancingStrategy = RoundRobin | WeightedRoundRobin | LeastConnections | ConsistentHashing | HealthAware

  const VIRTUAL_NODES: nat := 150

  function TicketPick(slots: seq<nat>, ticket: u64): Option<nat> {
    if slots == [] then None else Some(RR.SlotAt(slots, ticket))
  }

  function HealthAwarePick(us: seq<UpstreamView>, ticket: u64): Option<nat> {
    var s := HA.Ranked(us);
    if s == [] then None
    else
      RankedPick(us, ticket);
      Some(s[HA.PickPosition(s, ticket)].index)
  }

  lemma RankedPick(us: seq<UpstreamView>, ticket: u64)
    ensures HA.Ranked(us) == [] <==> !SomeEligible(us)
    ensures HA.Ranked(us) != [] ==>
              var p := HA.PickPosition(HA.Ranked(us), ticket);
              p < |HA.Ranked(us)| && HA.Ranked(us)[p].index < |us| && HA.Eligible(us[HA.Ranked(us)[p].index])
  {
    var s := HA.Ranked(us);
    HA.RankedMeaning(us);
    if s != [] {
      HA.PickMeaning(s, ticket);
      assert s[HA.PickPosition(s, ticket)] in s;
    }
  }

  method PickHealthAware(us: seq<UpstreamView>, ticket: u64) returns (r: Option<nat>)
    ensures r == HealthAwarePick(us, ticket)
    ensures r.Some? <==> SomeEligible(us)
    ensures r.Some? ==> r.value < |us|
  {
    var candidates := HA.Ranked(us);
    RankedPick(us, ticket);
    if candidates == [] {
      return None;
    }
    var p := HA.PickByScore(candidates, ticket);
    r := Some(candidates[p].index);
  }

  /** The position each strategy selects, from the list, the ticket counter and the session key alone. */
  ghost function Selection(strategy: LoadBalancingStrategy, us: seq<UpstreamView>, g: Hashing,
                           ticket: u64, key: Option<string>): Option<nat>
  {
    match strategy
    case RoundRobin => TicketPick(RR.AvailableIndices(us), ticket)
    case WeightedRoundRobin => TicketPick(RR.Expanded(us), ticket)
    case LeastConnections => LC.SelectLeastConnections(us)
    case ConsistentHashing =>
      if key.Some? then Route(us, g, g.hash(key.value)) else TicketPick(RR.AvailableIndices(us), ticket)
    case HealthAware => HealthAwarePick(us, ticket)
  }

  predicate SomeAvailable(us: seq<UpstreamView>) {
    exists i | 0 <= i < |us| :: us[i].Available()
  }

  predicate SomeEligible(us: seq<UpstreamView>) {
    exists i | 0 <= i < |us| :: HA.Eligible(us[i])
  }

  /** Whether a call of `select_upstream` advances the shared counter. */
  predicate DrawsTicket(strategy: LoadBalancingStrategy, us: seq<UpstreamView>, key: Option<string>) {
    match strategy
    case RoundRobin => SomeAvailable(us)
    case WeightedRoundRobin => SomeAvailable(us)
    case LeastConnections => false
    case ConsistentHashing => key.None? && SomeAvailable(us)
    case HealthAware => SomeEligible(us)
  }

  lemma {:induction false} AvailableIndicesMeaning(us: seq<UpstreamView>, n: nat)
    requires n <= |us|
    ensures forall i :: i in RR.AvailableUpTo(us, n) <==> 0 <= i < n && us[i].Available()
    ensures |RR.AvailableUpTo(us, n)| == 0 <==> forall i | 0 <= i < n :: !us[i].Available()
  {
    if n > 0 {
      AvailableIndicesMeaning(us, n - 1);
    }
  }

  lemma PlainPickAvailable(us: seq<UpstreamView>, ticket: u64)
    ensures var r := TicketPick(RR.AvailableIndices(us), ticket);
            && (r.Some? <==> SomeAvailable(us))
            && (r.Some? ==> r.value < |us| && us[r.value].Available())
  {
    AvailableIndicesMeaning(us, |us|);
    var slots := RR.AvailableIndices(us);
    if slots != [] {
      assert RR.SlotAt(slots, ticket) in slots;
    }
  }

  /**
   * Under every strategy a selected upstream is in the list and available. None is selected exactly when
   * no upstream is available; HealthAware also wants positive weight and no unbroken record of failure.
   */
  lemma SelectionSound(strategy: LoadBalancingStrategy, us: seq<UpstreamView>, g: Hashing,
                       ticket: u64, key: Option<string>)
    requires g.replicas > 0
    ensures var r := Selection(strategy, us, g, ticket, key);
            && (r.Some? ==> r.value < |us| && us[r.value].Available())
            && (strategy.HealthAware? && r.Some? ==> HA.Eligible(us[r.value]))
            && (r.Some? <==> if strategy.HealthAware? then SomeEligible(us) else SomeAvailable(us))
  {
    match strategy
    case RoundRobin => PlainPickAvailable(us, ticket);
    case WeightedRoundRobin =>
      RR.ExpandedInRange(us, |us|);
      RR.ExpandedEmptyIff(us, |us|);
    case LeastConnections =>
    case ConsistentHashing =>
      PlainPickAvailable(us, ticket);
      if key.Some? {
        var start := g.hash(key.value);
        RouteNoneIff(us, g, start);
        var r := Route(us, g, start);
        if r.Some? {
          RoutedIsAvailable(us, g, start, r.value);
        }
      }
    case HealthAware => RankedPick(us, ticket);
  }

  lemma NothingToSelect(strategy: LoadBalancingStrategy, us: seq<UpstreamView>, g: Hashing,
                        ticket: u64, key: Option<string>)
    requires us == [] && g.replicas > 0
    ensures Selection(strategy, us, g, ticket, key) == None && !DrawsTicket(strategy, us, key)
  {
    SelectionSound(strategy, us, g, ticket, key);
  }

  /** The same upstreams at two moments: their statistics may differ, names, weights and availability do not. */
  ghost predicate OnlyTrafficDiffers(us: seq<UpstreamView>, vs: seq<UpstreamView>) {
    SameOnRing(us, vs) && forall i | 0 <= i < |us| :: us[i].weight == vs[i].weight
  }

  /** The strategies other than least-connections and health-aware never look at the statistics. */
  lemma TrafficDoesNotSteer(strategy: LoadBalancingStrategy, us: seq<UpstreamView>, vs: seq<UpstreamView>, g: Hashing,
                            ticket: u64, key: Option<string>)
    requires OnlyTrafficDiffers(us, vs) && !strategy.LeastConnections? && !strategy.HealthAware?
    ensures Selection(strategy, us, g, ticket, key) == Selection(strategy, vs, g, ticket, key)
    ensures DrawsTicket(strategy, us, key) == DrawsTicket(strategy, vs, key)
  {
    PositionsDependOnHealth(us, vs, |us|);
    if key.Some? {
      SameRoute(us, vs, g, g.hash(key.value));
    }
  }

  lemma {:induction false} PositionsDependOnHealth(us: seq<UpstreamView>, vs: seq<UpstreamView>, n: nat)
    requires OnlyTrafficDiffers(us, vs) && n <= |us|
    ensures RR.AvailableUpTo(us, n) == RR.AvailableUpTo(vs, n) && RR.ExpandUpTo(us, n) == RR.ExpandUpTo(vs, n)
  {
    if n > 0 {
      PositionsDependOnHealth(us, vs, n - 1);
    }
  }

  /** The position `find` returns for a name: its first occurrence. */
  function FirstNamed(us: seq<UpstreamView>, name: string): (r: Option<nat>)
    ensures r.Some? ==> r.value < |us| && us[r.value].name == name
    ensures r.Some? ==> forall i | 0 <= i < r.value :: us[i].name != name
    ensures r.None? ==> forall i | 0 <= i < |us| :: us[i].name != name
  {
    if us == [] then None
    else if us[0].name == name then Some(0)
    else
      var r := FirstNamed(us[1..], name);
      if r.None? then None else Some(r.value + 1)
  }

  /** The list after a health report: only the first upstream of that name changes. */
  function AfterHealthReport(us: seq<UpstreamView>, name: string, state: HealthState): seq<UpstreamView> {
    var p := FirstNamed(us, name);
    if p.None? then us else SetHealth(us, p.value, state)
  }

  /** Under consistent hashing, a health report about one name moves keys only to or away from that name. */
  lemma HealthReportMovesOnlyItsName(us: seq<UpstreamView>, name: string, state: HealthState, g: Hashing, start: u64)
    requires g.replicas > 0
    ensures var before := RouteName(us, g, start);
            var after := RouteName(AfterHealthReport(us, name, state), g, start);
            before == after || before == Some(name) || after == Some(name)
  {
    var p := FirstNamed(us, name);
    if p.Some? {
      HealthChangeDisruption(us, p.value, state, g, start);
    }
  }

  /** The answer hands out the upstream at the selected position. */
  ghost predicate Answers(upstreams: seq<UpstreamInfo>, at: Option<nat>, r: Option<UpstreamInfo>) {
    if at.None? then r.None? else at.value < |upstreams| && r == Some(upstreams[at.value])
  }

  class Router {
    var upstreams: seq<UpstreamInfo>
    var rrCounter: u64
    const strategy: LoadBalancingStrategy
    const hashRing: ConsistentHashRing

    ghost predicate Distinct()
      reads this, upstreams
    {
      forall i, j | 0 <= i < j < |upstreams| ::
        upstreams[i] != upstreams[j] && upstreams[i].stats != upstreams[j].stats
    }

    /** No upstream is listed twice, and a consistent-hashing router's ring is the one built for the current list. */
    ghost predicate Valid()
      reads this, hashRing, upstreams, set u | u in upstreams :: u.stats
    {
      && Distinct()
      && hashRing.hashing.replicas == VIRTUAL_NODES
      && (strategy.ConsistentHashing? ==> hashRing.Represents(Views(upstreams)))
    }

    /** The position `select_upstream` is about to select. */
    ghost function Choice(key: Option<string>): Option<nat>
      reads this, hashRing, upstreams, set u | u in upstreams :: u.stats
    {
      Selection(strategy, Views(upstreams), hashRing.hashing, rrCounter, key)
    }

    /** Traffic keeps a router valid: as long as list, ring and health stay, any statistics may change. */
    twostate lemma TrafficKeepsValid()
      requires old(Valid())
      requires upstreams == old(upstreams)
      requires hashRing.ring == old(hashRing.ring) && hashRing.sortedHashes == old(hashRing.sortedHashes)
      requires forall u | u in upstreams :: u.healthState == old(u.healthState)
      ensures Valid() && OnlyTrafficDiffers(old(Views(upstreams)), Views(upstreams))
    {
      if strategy.ConsistentHashing? {
        RepresentsDependsOnRing(hashRing, old(Views(upstreams)), Views(upstreams));
      }
    }

    constructor (strategy: LoadBalancingStrategy, hash: string -> u64)
      ensures Valid() && fresh(hashRing)
      ensures this.strategy == strategy && hashRing.hashing.hash == hash && hashRing.hashing.replicas == 150
      ensures upstreams == [] && rrCounter == 0
    {
      upstreams, rrCounter := [], 0;
      this.strategy := strategy;
      hashRing := new ConsistentHashRing(Hashing(hash, VIRTUAL_NODES));
    }

    method UpdateUpstreams(configs: seq<UpstreamConfig>)
      requires Valid()
      modifies this`upstreams, hashRing
      ensures Valid()
      ensures Views(upstreams) == FreshViews(configs)
      ensures forall u | u in upstreams :: fresh(u) && fresh(u.stats)
      ensures |upstreams| == |configs|
      ensures forall i | 0 <= i < |configs| ::
                upstreams[i].config == configs[i] && upstreams[i].healthState == Unknown
                && upstreams[i].stats.activeConnections == upstreams[i].stats.requestsSent == 0
    {
      var list: seq<UpstreamInfo> := [];
      for n := 0 to |configs|
        invariant |list| == n
        invariant forall i | 0 <= i < n :: fresh(list[i]) && fresh(list[i].stats)
        invariant forall i | 0 <= i < n :: list[i].View() == FreshView(configs[i]) && list[i].config == configs[i]
        invariant forall i, j | 0 <= i < j < n :: list[i] != list[j] && list[i].stats != list[j].stats
      {
        var info := new UpstreamInfo(configs[n]);
        list := list + [info];
      }
      upstreams := list;
      RebuildRing();
      assert Views(upstreams) == FreshViews(configs);
    }

    method SelectUpstream(sessionKey: Option<string>) returns (r: Option<UpstreamInfo>)
      requires Valid()
      modifies this`rrCounter
      ensures Valid() && Views(upstreams) == old(Views(upstreams))
      ensures Answers(upstreams, old(Choice(sessionKey)), r)
      ensures r.Some? ==> r.value in upstreams && r.value.healthState != Unhealthy
      ensures !strategy.HealthAware? ==> (r.None? <==> forall u | u in upstreams :: u.healthState == Unhealthy)
      ensures var byTicket := !strategy.LeastConnections? && !(strategy.ConsistentHashing? && sessionKey.Some?);
              rrCounter == if r.Some? && byTicket then (old(rrCounter) + 1) % TWO64 else old(rrCounter)
    {
      if upstreams == [] {
        NothingToSelect(strategy, Views(upstreams), hashRing.hashing, rrCounter, sessionKey);
        return None;
      }
      r := Dispatch(sessionKey);
      assert Views(upstreams) == old(Views(upstreams));
      AnswerIsUp(sessionKey, old(rrCounter), r);
    }

    /** What an answer says about the upstreams. */
    lemma AnswerIsUp(sessionKey: Option<string>, ticket: u64, r: Option<UpstreamInfo>)
      requires Valid()
      requires Answers(upstreams, Selection(strategy, Views(upstreams), hashRing.hashing, ticket, sessionKey), r)
      ensures r.Some? ==> r.value in upstreams && r.value.healthState != Unhealthy
      ensures !strategy.HealthAware? ==> (r.None? <==> forall u | u in upstreams :: u.healthState == Unhealthy)
      ensures DrawsTicket(strategy, Views(upstreams), sessionKey) <==>
                r.Some? && !strategy.LeastConnections? && !(strategy.ConsistentHashing? && sessionKey.Some?)
    {
      var us := Views(upstreams);
      SelectionSound(strategy, us, hashRing.hashing, ticket, sessionKey);
      if SomeAvailable(us) {
        var i :| 0 <= i < |us| && us[i].Available();
        assert upstreams[i] in upstreams && upstreams[i].healthState != Unhealthy;
      } else {
        forall u | u in upstreams ensures u.healthState == Unhealthy {
          var i :| 0 <= i < |upstreams| && upstreams[i] == u;
          assert !us[i].Available();
        }
      }
    }

    /** The strategy's own selection. */
    method Dispatch(sessionKey: Option<string>) returns (r: Option<UpstreamInfo>)
      requires Valid()
      modifies this`rrCounter
      ensures rrCounter == if DrawsTicket(strategy, old(Views(upstreams)), sessionKey) then WrapAdd(old(rrCounter), 1)
                           else old(rrCounter)
      ensures Answers(upstreams, old(Choice(sessionKey)), r)
    {
      match strategy {
        case RoundRobin => r := SelectRoundRobin();
        case WeightedRoundRobin => r := SelectWeightedRoundRobin();
        case LeastConnections => r := SelectLeastConnections();
        case ConsistentHashing =>
          if sessionKey.Some? {
            r := SelectConsistentHash(sessionKey.value);
          } else {
            r := SelectRoundRobin();
          }
        case HealthAware => r := SelectHealthAware();
      }
    }

    method SelectRoundRobin() returns (r: Option<UpstreamInfo>)
      modifies this`rrCounter
      ensures rrCounter == if SomeAvailable(old(Views(upstreams))) then WrapAdd(old(rrCounter), 1) else old(rrCounter)
      ensures Answers(upstreams, TicketPick(RR.AvailableIndices(old(Views(upstreams))), old(rrCounter)), r)
    {
      var available := RR.AvailableIndices(Views(upstreams));
      PlainPickAvailable(Views(upstreams), rrCounter);
      if available == [] {
        return None;
      }
      var index := rrCounter % |available|;
      rrCounter := WrapAdd(rrCounter, 1);
      r := Some(upstreams[available[index]]);
    }

    method SelectWeightedRoundRobin() returns (r: Option<UpstreamInfo>)
      modifies this`rrCounter
      ensures rrCounter == if SomeAvailable(old(Views(upstreams))) then WrapAdd(old(rrCounter), 1) else old(rrCounter)
      ensures Answers(upstreams, TicketPick(RR.Expanded(old(Views(upstreams))), old(rrCounter)), r)
    {
      ghost var us := Views(upstreams);
      var weighted: seq<UpstreamInfo> := [];
      for n := 0 to |upstreams|
        invariant |weighted| == |RR.ExpandUpTo(us, n)|
        invariant forall k | 0 <= k < |weighted| ::
                    RR.ExpandUpTo(us, n)[k] < n && weighted[k] == upstreams[RR.ExpandUpTo(us, n)[k]]
      {
        var upstream := upstreams[n];
        ghost var done := weighted;
        if upstream.View().Available() {
          var weight := Max(upstream.config.weight, 1);
          for m := 0 to weight
            invariant |weighted| == |done| + m
            invariant forall k | 0 <= k < |done| :: weighted[k] == done[k]
            invariant forall k | |done| <= k < |weighted| :: weighted[k] == upstream
          {
            weighted := weighted + [upstream];
          }
        }
        assert RR.Weight(us[n]) == |weighted| - |done|;
      }
      RR.ExpandedEmptyIff(us, |us|);
      if weighted == [] {
        return None;
      }
      var index := rrCounter % |weighted|;
      rrCounter := WrapAdd(rrCounter, 1);
      r := Some(weighted[index]);
    }

    method SelectLeastConnections() returns (r: Option<UpstreamInfo>)
      ensures Answers(upstreams, LC.SelectLeastConnections(old(Views(upstreams))), r)
    {
      var least := LC.SelectLeastConnections(Views(upstreams));
      r := if least.Some? then Some(upstreams[least.value]) else None;
    }

    method SelectConsistentHash(key: string) returns (r: Option<UpstreamInfo>)
      requires Valid() && strategy.ConsistentHashing?
      ensures Answers(upstreams, Route(old(Views(upstreams)), hashRing.hashing, hashRing.hashing.hash(key)), r)
    {
      ghost var us, g, start := Views(upstreams), hashRing.hashing, hashRing.hashing.hash(key);
      var index := hashRing.GetUpstream(key, us);
      if index.Some? {
        RouteIs(us, g, start, index.value);
        RoutedIsAvailable(us, g, start, index.value);
        r := if index.value < |upstreams| then Some(upstreams[index.value]) else None;
      } else {
        r := None;
      }
    }

    method SelectHealthAware() returns (r: Option<UpstreamInfo>)
      modifies this`rrCounter
      ensures rrCounter == if SomeEligible(old(Views(upstreams))) then WrapAdd(old(rrCounter), 1) else old(rrCounter)
      ensures Answers(upstreams, HealthAwarePick(old(Views(upstreams)), old(rrCounter)), r)
    {
      var found := PickHealthAware(Views(upstreams), rrCounter);
      if found.None? {
        return None;
      }
      rrCounter := WrapAdd(rrCounter, 1);
      r := Some(upstreams[found.value]);
    }

    method UpdateUpstreamHealth(name: string, state: HealthState)
      requires Valid()
      modifies upstreams, hashRing
      ensures Valid()
      ensures Views(upstreams) == AfterHealthReport(old(Views(upstreams)), name, state)
      ensures forall p | 0 <= p < |upstreams| ::
                upstreams[p].healthState == if IsFirstNamed(p, name) then state else old(upstreams[p].healthState)
      ensures forall p | 0 <= p < |upstreams| ::
                upstreams[p].healthFailures
                == if !IsFirstNamed(p, name) || state == Unknown then old(upstreams[p].healthFailures)
                   else if state == Healthy then 0 else (old(upstreams[p].healthFailures) + 1) % TWO64
    {
      var found := FirstNamed(Views(upstreams), name);
      IsFirstNamedIff(name);
      if found.Some? {
        WriteHealth(found.value, state);
        RebuildRing();
      }
    }

    lemma IsFirstNamedIff(name: string)
      ensures forall p | 0 <= p < |upstreams| ::
                IsFirstNamed(p, name) <==> FirstNamed(Views(upstreams), name) == Some(p)
    {
      var us := Views(upstreams);
      forall p | 0 <= p < |upstreams| ensures IsFirstNamed(p, name) <==> FirstNamed(us, name) == Some(p) {
        assert forall q | 0 <= q <= p :: us[q].name == upstreams[q].config.name;
      }
    }

    /** The first upstream of that name stands at `p`. */
    ghost predicate IsFirstNamed(p: nat, name: string)
      requires p < |upstreams|
      reads this
    {
      upstreams[p].config.name == name && forall q | 0 <= q < p :: upstreams[q].config.name != name
    }

    /** The write alone leaves the ring as it was. */
    method WriteHealth(at: nat, state: HealthState)
      requires at < |upstreams| && Distinct()
      modifies upstreams[at]
      ensures Distinct() && Views(upstreams) == SetHealth(old(Views(upstreams)), at, state)
      ensures forall p | 0 <= p < |upstreams| ::
                upstreams[p].healthState == if p == at then state else old(upstreams[p].healthState)
      ensures forall p | 0 <= p < |upstreams| ::
                upstreams[p].healthFailures
                == if p != at || state == Unknown then old(upstreams[p].healthFailures)
                   else if state == Healthy then 0 else (old(upstreams[p].healthFailures) + 1) % TWO64
    {
      upstreams[at].SetHealthState(state);
      assert Views(upstreams) == SetHealth(old(Views(upstreams)), at, state);
    }

    /** Only a consistent-hashing router has a ring to rebuild. */
    method RebuildRing()
      requires Distinct() && hashRing.hashing.replicas == VIRTUAL_NODES
      modifies hashRing
      ensures Valid()
    {
      if strategy.ConsistentHashing? {
        hashRing.Update(upstreams);
      }
    }
  }
}
