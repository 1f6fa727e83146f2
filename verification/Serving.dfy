/** The proxies at work on one router: select an upstream, forward, record what became of it. */
module Serving {
  import opened Arithmetic
  import opened HashRing
  import opened Machine
  import opened Upstreams
  import opened Routing
  import opened UdpSessions
  import opened UdpProxies
  import LC = LeastConnections

  /** Statistics may have moved, nothing else. */
  twostate predicate OnlyTraffic(router: Router)
    reads router, router.hashRing, router.upstreams, set u | u in router.upstreams :: u.stats
  {
    && router.upstreams == old(router.upstreams)
    && OnlyTrafficDiffers(old(Views(router.upstreams)), Views(router.upstreams))
  }

  /** What touches no connection count leaves the router valid and the loads as they are. */
  twostate lemma UncountedKeepsLoads(router: Router)
    requires old(router.Valid()) && router.upstreams == old(router.upstreams)
    requires router.hashRing.ring == old(router.hashRing.ring)
    requires router.hashRing.sortedHashes == old(router.hashRing.sortedHashes)
    requires forall u | u in router.upstreams ::
               u.healthState == old(u.healthState) && u.stats.activeConnections == old(u.stats.activeConnections)
    ensures router.Valid() && OnlyTraffic(router)
    ensures LC.SameLoads(old(Views(router.upstreams)), Views(router.upstreams))
  {
    router.TrafficKeepsValid();
  }

  /** The upstream need no longer be listed: a task goes on holding the one it was given. */
  method RecordOutcome(router: Router, upstream: UpstreamInfo, outcome: Option<nat>)
    requires router.Valid()
    modifies upstream.stats
    ensures router.Valid() && OnlyTraffic(router)
    ensures forall i | 0 <= i < |router.upstreams| && router.upstreams[i] == upstream ::
              Views(router.upstreams)
              == old(Views(router.upstreams))[i := Recorded(old(Views(router.upstreams))[i], outcome)]
    ensures OneRecord(upstream.stats, outcome)
    ensures upstream.stats.activeConnections == old(upstream.stats.activeConnections)
    ensures LC.SameLoads(old(Views(router.upstreams)), Views(router.upstreams))
  {
    match outcome {
      case Some(ns) => upstream.stats.RecordSuccess(ns);
      case None => upstream.stats.RecordFailure();
    }
    router.TrafficKeepsValid();
  }

  // ---- HTTP ----

  /**
   * One HTTP request. `prepared` is whether its URI and headers could be built, `outcome` the time to the response,
   * or none for an error or timeout. Only a request that was sent is recorded, and that once.
   */
  method ProcessRequest(router: Router, key: Option<string>, prepared: bool, outcome: Option<nat>)
    returns (upstream: Option<UpstreamInfo>, ok: bool)
    requires router.Valid()
    modifies router`rrCounter, set u | u in router.upstreams :: u.stats
    ensures router.Valid() && OnlyTraffic(router)
    ensures Answers(router.upstreams, old(router.Choice(key)), upstream)
    ensures upstream.Some? ==> upstream.value in old(router.upstreams)
    ensures ok <==> upstream.Some? && prepared && outcome.Some?
    ensures upstream.Some? && prepared ==> OneRecord(upstream.value.stats, outcome)
    ensures var us, at := old(Views(router.upstreams)), old(router.Choice(key));
            Views(router.upstreams)
            == if prepared && at.Some? && at.value < |us| then us[at.value := Recorded(us[at.value], outcome)] else us
    ensures LC.SameLoads(old(Views(router.upstreams)), Views(router.upstreams))
  {
    upstream := router.SelectUpstream(key);
    if upstream.None? || !prepared {
      return upstream, false;
    }
    RecordOutcome(router, upstream.value, outcome);
    ok := outcome.Some?;
  }

  // ---- TCP ----

  method CountConnection(router: Router, upstream: UpstreamInfo)
    requires router.Valid()
    modifies upstream.stats`activeConnections
    ensures router.Valid() && OnlyTraffic(router)
    ensures forall i | 0 <= i < |router.upstreams| && router.upstreams[i] == upstream ::
              Views(router.upstreams) == OneMore(old(Views(router.upstreams)), i)
    ensures upstream.stats.activeConnections == WrapAdd(old(upstream.stats.activeConnections), 1)
  {
    var now := upstream.stats.IncrementConnections();
    router.TrafficKeepsValid();
  }

  /** The reading with one connection more, or one fewer, at position `i`. */
  function OneMore(us: seq<UpstreamView>, i: nat): seq<UpstreamView>
    requires i < |us|
  {
    us[i := us[i].(active := (us[i].active + 1) % TWO64)]
  }

  function OneFewer(us: seq<UpstreamView>, i: nat): seq<UpstreamView>
    requires i < |us|
  {
    us[i := us[i].(active := (us[i].active + TWO64 - 1) % TWO64)]
  }

  /**
   * The first half of a TCP connection: an upstream is selected, and counts the connection once it is up.
   * A failure to connect is recorded nowhere.
   */
  method StartStream(router: Router, client: string, connected: bool) returns (upstream: Option<UpstreamInfo>)
    requires router.Valid()
    modifies router`rrCounter, set u | u in router.upstreams :: u.stats
    ensures router.Valid() && OnlyTraffic(router)
    ensures Answers(router.upstreams, old(router.Choice(Some(client))), upstream)
    ensures upstream.Some? ==> upstream.value in old(router.upstreams)
    ensures upstream.Some? && connected ==>
              upstream.value.stats.activeConnections == WrapAdd(old(upstream.value.stats.activeConnections), 1)
    ensures var us, at := old(Views(router.upstreams)), old(router.Choice(Some(client)));
            Views(router.upstreams) == if connected && at.Some? && at.value < |us| then OneMore(us, at.value) else us
    ensures connected && router.strategy.LeastConnections? && NoneFull(old(Views(router.upstreams))) ==>
              Views(router.upstreams) == LC.Connect(old(Views(router.upstreams)))
  {
    if NoneFull(Views(router.upstreams)) {
      StreamIsConnect(Views(router.upstreams), router.hashRing.hashing, router.rrCounter, client);
    }
    upstream := router.SelectUpstream(Some(client));
    if upstream.Some? && connected {
      CountConnection(router, upstream.value);
    }
  }

  method ReleaseConnection(router: Router, upstream: UpstreamInfo)
    requires router.Valid()
    modifies upstream.stats`activeConnections
    ensures router.Valid() && OnlyTraffic(router)
    ensures forall i | 0 <= i < |router.upstreams| && router.upstreams[i] == upstream ::
              Views(router.upstreams) == OneFewer(old(Views(router.upstreams)), i)
    ensures upstream.stats.activeConnections == WrapDecrement(old(upstream.stats.activeConnections))
  {
    var now := upstream.stats.DecrementConnections();
    router.TrafficKeepsValid();
  }

  /** The second half, after the streams have ended: the connection is given back and the outcome recorded once. */
  method FinishStream(router: Router, upstream: UpstreamInfo, outcome: Option<nat>)
    requires router.Valid()
    modifies upstream.stats
    ensures router.Valid() && OnlyTraffic(router)
    ensures OneRecord(upstream.stats, outcome)
    ensures upstream.stats.activeConnections == WrapDecrement(old(upstream.stats.activeConnections))
    ensures forall i | 0 <= i < |router.upstreams| && router.upstreams[i] == upstream ::
              var given := OneFewer(old(Views(router.upstreams)), i);
              Views(router.upstreams) == given[i := Recorded(given[i], outcome)]
  {
    ReleaseConnection(router, upstream);
    RecordOutcome(router, upstream, outcome);
  }

  /** No connection count is about to wrap. */
  predicate NoneFull(us: seq<UpstreamView>) {
    forall i | 0 <= i < |us| :: us[i].active + 1 < TWO64
  }

  /**
   * Under least-connections, a stream that gets connected takes the load theory's own step on what the router reads,
   * so the bounds on the gap and the agreement with round-robin hold of the router.
   */
  lemma StreamIsConnect(us: seq<UpstreamView>, g: Hashing, ticket: u64, client: string)
    requires NoneFull(us)
    ensures var at := Selection(LeastConnections, us, g, ticket, Some(client));
            LC.Connect(us) == if at.Some? && at.value < |us| then OneMore(us, at.value) else us
  {
    var at := LC.SelectLeastConnections(us);
    if at.Some? {
      SmallDivMod(us[at.value].active + 1, TWO64);
    }
  }

  /** Giving a connection back undoes counting it. */
  lemma FewerUndoesMore(us: seq<UpstreamView>, i: nat)
    requires i < |us| && us[i].active < TWO64
    ensures OneFewer(OneMore(us, i), i) == us
  {
    var a := us[i].active;
    if a + 1 == TWO64 {
      DivModUnique(TWO64, TWO64, 1, 0);
      SmallDivMod(TWO64 - 1, TWO64);
    } else {
      SmallDivMod(a + 1, TWO64);
      DivModUnique(a + TWO64, TWO64, 1, a);
    }
    assert OneMore(us, i)[i].active == (a + 1) % TWO64;
    assert OneFewer(OneMore(us, i), i)[i] == us[i];
  }

  // ---- UDP ----

  /** A packet's client needs an upstream only when it has no live session. */
  ghost predicate NeedsUpstream<U>(s: State<U>, client: Address)
    requires Knows(s, client)
  {
    client !in s.table || Expired(s, s.table[client])
  }

  lemma NeedsUpstreamIff(proxy: UdpProxy, now: nat, client: Address)
    requires proxy.Valid()
    ensures Knows(proxy.View(now), client)
    ensures NeedsUpstream(proxy.View(now), client) <==>
              client !in proxy.sessions || proxy.sessions[client].IsExpired(now, proxy.timeout)
  {
    if client in proxy.sessions {
      assert proxy.IsKnown(proxy.sessions[client]);
    }
  }

  method SelectIfNeeded(router: Router, proxy: UdpProxy, now: nat, client: Address)
    returns (selected: Option<UpstreamInfo>)
    requires router.Valid() && proxy.Valid()
    modifies router`rrCounter
    ensures router.Valid() && Views(router.upstreams) == old(Views(router.upstreams))
    ensures proxy.Valid() && proxy.View(now) == old(proxy.View(now))
    ensures selected.Some? ==> selected.value in router.upstreams
    ensures if old(NeedsUpstream(proxy.View(now), client)) then
              Answers(router.upstreams, old(router.Choice(Some(client))), selected)
            else selected == None && router.rrCounter == old(router.rrCounter)
  {
    NeedsUpstreamIff(proxy, now, client);
    if client in proxy.sessions && !proxy.sessions[client].IsExpired(now, proxy.timeout) {
      return None;
    }
    selected := router.SelectUpstream(Some(client));
    assert proxy.View(now) == old(proxy.View(now));
  }

  /**
   * One UDP packet with the router's own answer in place of a given one: the session machine takes the packet step,
   * and the router is asked, and draws a ticket, only for a client without a live session. A failed send is recorded
   * once, on the upstream of the session, listed or not, and nothing else is recorded anywhere in `reach`.
   */
  method ServePacket(router: Router, proxy: UdpProxy, now: nat, client: Address, socketOk: bool, outcome: Option<nat>,
                     ghost reach: set<UpstreamStats>)
    returns (selected: Option<UpstreamInfo>, ghost served: Option<UpstreamInfo>)
    requires router.Valid() && proxy.Valid() && proxy.RecordsWithin(reach)
    requires forall u | u in router.upstreams :: u.stats in reach
    modifies router`rrCounter, proxy, proxy.all, reach`requestsSent, reach`failures
    ensures router.Valid() && OnlyTraffic(router) && proxy.Valid() && proxy.RecordsWithin(reach)
    ensures old(proxy.all) <= proxy.all && (forall i | |old(proxy.all)| <= i < |proxy.all| :: fresh(proxy.all[i]))
    ensures proxy.View(now) == HandlePacket(old(proxy.View(now)), client, selected, socketOk, outcome)
    ensures if old(NeedsUpstream(proxy.View(now), client)) then
              Answers(router.upstreams, old(router.Choice(Some(client))), selected)
            else selected == None && router.rrCounter == old(router.rrCounter)
    ensures served == ServingUpstream(CountPacket(old(proxy.View(now))), client, selected, socketOk)
    ensures served.Some? ==> served.value.stats in reach
    ensures RecordsOnly(reach, served, outcome)
    ensures LC.SameLoads(old(Views(router.upstreams)), Views(router.upstreams))
  {
    selected := SelectIfNeeded(router, proxy, now, client);
    assert proxy.RecordsWithin(reach);
    assert proxy.all == old(proxy.all) && forall stats | stats in reach :: NoRecord(stats);
    served := HandlePacketBeside(router, proxy, now, client, selected, socketOk, outcome, reach);
    assert OnlyTraffic(router);
  }

  /** A packet handled on the session table leaves the router valid, whichever upstreams it records on. */
  method HandlePacketBeside(router: Router, proxy: UdpProxy, now: nat, client: Address,
                            selected: Option<UpstreamInfo>, socketOk: bool, outcome: Option<nat>,
                            ghost reach: set<UpstreamStats>)
    returns (ghost served: Option<UpstreamInfo>)
    requires router.Valid() && proxy.Valid() && proxy.RecordsWithin(reach)
    requires selected.Some? ==> selected.value.stats in reach
    modifies proxy, proxy.all, reach`requestsSent, reach`failures
    ensures router.rrCounter == old(router.rrCounter)
    ensures router.Valid() && OnlyTraffic(router) && proxy.Valid() && proxy.RecordsWithin(reach)
    ensures old(proxy.all) <= proxy.all && (forall i | |old(proxy.all)| <= i < |proxy.all| :: fresh(proxy.all[i]))
    ensures proxy.View(now) == HandlePacket(old(proxy.View(now)), client, selected, socketOk, outcome)
    ensures served == ServingUpstream(CountPacket(old(proxy.View(now))), client, selected, socketOk)
    ensures served.Some? ==> served.value.stats in reach
    ensures RecordsOnly(reach, served, outcome)
    ensures LC.SameLoads(old(Views(router.upstreams)), Views(router.upstreams))
  {
    served := proxy.HandleClientPacket(now, client, selected, socketOk, outcome, reach);
    UncountedKeepsLoads(router);
  }
}
