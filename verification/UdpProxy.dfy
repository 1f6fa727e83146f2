/** The UDP proxy's handlers on shared mutable sessions, refining the state machine of UdpSessions. */
module UdpProxies {
  import opened Arithmetic
  import opened Machine
  import opened Upstreams
  import opened UdpSessions

  /**
   * One session. The source clones the record but shares its clock and counters, so every clone is this object;
   * `id`, `client` and `listener` stand for whoever listens on the session's socket.
   */
  class UdpSession {
    const id: nat
    const client: Address
    const upstream: UpstreamInfo
    const createdAt: nat
    var lastActivity: nat
    var bytesSent: nat
    var bytesReceived: nat
    var listener: Listener

    constructor (id: nat, client: Address, upstream: UpstreamInfo, now: nat)
      ensures this.id == id && this.upstream == upstream && createdAt == now
      ensures View() == Session(client, upstream, now, 0, 0, Waiting)
    {
      this.id, this.client, this.upstream, createdAt := id, client, upstream, now;
      lastActivity, bytesSent, bytesReceived, listener := now, 0, 0, Waiting;
    }

    function View(): Session<UpstreamInfo>
      reads this
    {
      Session(client, upstream, lastActivity, bytesSent, bytesReceived, listener)
    }

    method Touch(now: nat)
      modifies this`lastActivity
      ensures lastActivity == now
    {
      lastActivity := now;
    }

    predicate IsExpired(now: nat, timeout: nat)
      reads this
    {
      now > lastActivity + timeout
    }

    method RecordBytesSent(bytes: nat)
      modifies this`bytesSent
      ensures bytesSent == old(bytesSent) + bytes
    {
      bytesSent := bytesSent + bytes;
    }

    method RecordBytesReceived(bytes: nat)
      modifies this`bytesReceived
      ensures bytesReceived == old(bytesReceived) + bytes
    {
      bytesReceived := bytesReceived + bytes;
    }
  }

  function SessionViews(all: seq<UdpSession>): (r: seq<Session<UpstreamInfo>>)
    reads all
    ensures |r| == |all| && forall i | 0 <= i < |r| :: r[i] == all[i].View()
  {
    seq(|all|, i requires 0 <= i < |all| reads all => all[i].View())
  }

  function SessionIds(sessions: map<Address, UdpSession>): (r: map<Address, nat>)
    ensures r.Keys == sessions.Keys && forall a | a in r :: r[a] == sessions[a].id
  {
    map a | a in sessions :: sessions[a].id
  }

  /** Among these statistics a failed send is recorded once, on the upstream served, and nothing else is recorded. */
  twostate predicate RecordsOnly(among: set<UpstreamStats>, new served: Option<UpstreamInfo>, outcome: Option<nat>)
    reads among
  {
    forall stats | stats in among ::
      if outcome.None? && served.Some? && served.value.stats == stats then OneRecord(stats, None) else NoRecord(stats)
  }

  /** The packet step in terms of the session found for it. */
  lemma PacketIsServed(s: State<UpstreamInfo>, a: Address, selected: Option<UpstreamInfo>, socketOk: bool,
                       outcome: Option<nat>, s1: State<UpstreamInfo>, session: UdpSession?)
    requires Knows(s, a)
    requires GetOrCreate(CountPacket(s), a, selected, socketOk)
          == (s1, if session == null then None else Some(session.id))
    ensures session != null ==> session.id < |s1.all|
    ensures HandlePacket(s, a, selected, socketOk, outcome)
         == if session == null then s1 else Serve(s1, session.id, outcome)
  {
  }

  /** In numbers: the failed send counts as one request and one failure, of the upstream served and no other. */
  twostate lemma RecordsOnlyInNumbers(among: set<UpstreamStats>, new served: Option<UpstreamInfo>, outcome: Option<nat>)
    requires RecordsOnly(among, served, outcome)
    ensures forall stats | stats in among ::
              var failed := outcome.None? && served.Some? && served.value.stats == stats;
              && stats.requestsSent == (old(stats.requestsSent) + if failed then 1 else 0) % TWO64
              && stats.failures == (old(stats.failures) + if failed then 1 else 0) % TWO64
              && stats.responsesReceived == old(stats.responsesReceived)
  {
    forall stats | stats in among
      ensures old(stats.requestsSent) % TWO64 == old(stats.requestsSent)
      ensures old(stats.failures) % TWO64 == old(stats.failures)
    {
      SmallDivMod(old(stats.requestsSent), TWO64);
      SmallDivMod(old(stats.failures), TWO64);
    }
  }

  class UdpProxy {
    const timeout: nat
    var sessions: map<Address, UdpSession>
    var packetsTotal: nat
    var sessionsActive: int
    var bytesSent: nat
    var bytesReceived: nat
    var sessionsCreated: nat
    var sessionsExpired: nat
    /** Every session ever created; a listener may hold one the table has forgotten. */
    ghost var all: seq<UdpSession>

    constructor (timeout: nat)
      ensures Valid() && this.timeout == timeout
      ensures View(0) == Initial(timeout)
    {
      this.timeout := timeout;
      sessions, all := map[], [];
      packetsTotal, sessionsActive, bytesSent, bytesReceived, sessionsCreated, sessionsExpired := 0, 0, 0, 0, 0, 0;
      new;
      assert SessionIds(sessions) == map[];
    }

    ghost predicate Valid()
      reads this, all
    {
      && sessionsCreated == |all|
      && (forall i | 0 <= i < |all| :: all[i].id == i)
      && (forall a | a in sessions :: IsKnown(sessions[a]))
    }

    ghost predicate IsKnown(session: UdpSession)
      reads this
    {
      session.id < |all| && all[session.id] == session
    }

    ghost function View(now: nat): State<UpstreamInfo>
      reads this, all
    {
      State(now, timeout, SessionIds(sessions), SessionViews(all), packetsTotal, sessionsActive,
            sessionsCreated, sessionsExpired, bytesSent, bytesReceived)
    }

    /** The statistics of every session's upstream are among these. */
    ghost predicate RecordsWithin(reach: set<UpstreamStats>)
      reads this, all
    {
      forall i | 0 <= i < |all| :: all[i].upstream.stats in reach
    }

    /** `served` is the upstream the packet is sent to, if it gets that far; `reach` holds what it may record on. */
    method HandleClientPacket(now: nat, client: Address, selected: Option<UpstreamInfo>, socketOk: bool,
                              outcome: Option<nat>, ghost reach: set<UpstreamStats>)
      returns (ghost served: Option<UpstreamInfo>)
      requires Valid() && RecordsWithin(reach) && (selected.Some? ==> selected.value.stats in reach)
      modifies this, all, reach`requestsSent, reach`failures
      ensures Valid() && RecordsWithin(reach)
      ensures old(all) <= all && forall i | |old(all)| <= i < |all| :: fresh(all[i])
      ensures View(now) == HandlePacket(old(View(now)), client, selected, socketOk, outcome)
      ensures packetsTotal == old(packetsTotal) + 1
      ensures served == ServingUpstream(CountPacket(old(View(now))), client, selected, socketOk)
      ensures served.Some? ==> served.value.stats in reach
      ensures RecordsOnly(reach, served, outcome)
    {
      CountOnePacket(now);
      var session := GetOrCreateSession(now, client, selected, socketOk, reach);
      ghost var s1 := View(now);
      assert forall stats | stats in reach :: NoRecord(stats);
      served := ServeIfFound(now, session, outcome, reach);
      PacketIsServed(old(View(now)), client, selected, socketOk, outcome, s1, session);
    }

    method CountOnePacket(now: nat)
      requires Valid()
      modifies this`packetsTotal
      ensures Valid() && all == old(all) && View(now) == CountPacket(old(View(now)))
    {
      packetsTotal := packetsTotal + 1;
    }

    method GetOrCreateSession(now: nat, client: Address, selected: Option<UpstreamInfo>, socketOk: bool,
                              ghost reach: set<UpstreamStats>)
      returns (session: UdpSession?)
      requires Valid() && RecordsWithin(reach) && (selected.Some? ==> selected.value.stats in reach)
      modifies this
      ensures Valid() && RecordsWithin(reach)
      ensures old(all) <= all && forall i | |old(all)| <= i < |all| :: fresh(all[i])
      ensures session != null ==> IsKnown(session) && session.upstream.stats in reach
      ensures session != null ==> session in old(all) || (fresh(session) && Some(session.upstream) == selected)
      ensures var (s1, id) := GetOrCreate(old(View(now)), client, selected, socketOk);
              View(now) == s1 && if session == null then id.None? else id == Some(session.id)
      ensures ServingUpstream(old(View(now)), client, selected, socketOk)
           == if session == null then None else Some(session.upstream)
    {
      session := FindLiveSession(now, client);
      if session != null {
        return;
      }
      if selected.None? || !socketOk {
        return null;
      }
      session := CreateSession(now, client, selected.value);
    }

    /** The client's session if it has one that has not expired; an expired one is dropped. */
    method FindLiveSession(now: nat, client: Address) returns (session: UdpSession?)
      requires Valid()
      modifies this`sessions, this`sessionsExpired, this`sessionsActive
      ensures Valid()
      ensures View(now) == Evict(old(View(now)), client)
      ensures if session == null then client !in sessions
              else session in all && client in sessions && sessions[client] == session
                   && !session.IsExpired(now, timeout)
    {
      if client !in sessions {
        return null;
      }
      session := sessions[client];
      if !session.IsExpired(now, timeout) {
        return;
      }
      session := null;
      sessions := sessions - {client};
      sessionsExpired := sessionsExpired + 1;
      sessionsActive := sessionsActive - 1;
      assert SessionIds(sessions) == SessionIds(old(sessions)) - {client};
      assert View(now) == Drop(old(View(now)), client);
    }

    /** Creates the session, starts its listener and enters it in the table. */
    method CreateSession(now: nat, client: Address, upstream: UpstreamInfo) returns (session: UdpSession)
      requires Valid()
      modifies this`all, this`sessions, this`sessionsCreated, this`sessionsActive
      ensures Valid() && fresh(session) && all == old(all) + [session]
      ensures session.id == |old(all)| && session.upstream == upstream
      ensures View(now) == Create(old(View(now)), client, upstream)
    {
      session := new UdpSession(sessionsCreated, client, upstream, now);
      all := all + [session];
      sessions := sessions[client := session];
      sessionsCreated := sessionsCreated + 1;
      sessionsActive := sessionsActive + 1;
      assert SessionIds(sessions) == SessionIds(old(sessions))[client := session.id];
      assert SessionViews(all) == old(SessionViews(all)) + [session.View()];
    }

    /** A packet without a session goes no further. */
    method ServeIfFound(now: nat, session: UdpSession?, outcome: Option<nat>, ghost reach: set<UpstreamStats>)
      returns (ghost served: Option<UpstreamInfo>)
      requires Valid() && RecordsWithin(reach)
      requires session != null ==> IsKnown(session) && session.upstream.stats in reach
      modifies this`bytesSent, if session != null then {session} else {}, reach`requestsSent, reach`failures
      ensures Valid() && all == old(all) && RecordsWithin(reach)
      ensures served == if session == null then None else Some(session.upstream)
      ensures View(now) == if session == null then old(View(now)) else Serve(old(View(now)), session.id, outcome)
      ensures RecordsOnly(reach, served, outcome)
    {
      served := None;
      if session != null {
        served := Some(session.upstream);
        ServeSession(now, session, outcome, reach);
      }
    }

    method ServeSession(now: nat, session: UdpSession, outcome: Option<nat>, ghost reach: set<UpstreamStats>)
      requires Valid() && IsKnown(session) && session.upstream.stats in reach
      modifies this`bytesSent, session, reach`requestsSent, reach`failures
      ensures Valid()
      ensures View(now) == Serve(old(View(now)), session.id, outcome)
      ensures RecordsOnly(reach, Some(session.upstream), outcome)
    {
      session.Touch(now);
      assert View(now) == Touch(old(View(now)), session.id);
      ForwardToUpstream(now, session, outcome);
    }

    method ForwardToUpstream(now: nat, session: UdpSession, outcome: Option<nat>)
      requires Valid() && IsKnown(session)
      modifies this`bytesSent, session`bytesSent
      modifies session.upstream.stats`requestsSent, session.upstream.stats`failures
      ensures Valid()
      ensures View(now) == if outcome.None? then old(View(now))
                           else RecordSent(old(View(now)), session.id, outcome.value)
      ensures if outcome.None? then OneRecord(session.upstream.stats, None) else NoRecord(session.upstream.stats)
      ensures var n := if outcome.Some? then outcome.value else 0;
              bytesSent == old(bytesSent) + n && session.bytesSent == old(session.bytesSent) + n
    {
      if outcome.None? {
        session.upstream.stats.RecordFailure();
      } else {
        session.RecordBytesSent(outcome.value);
        bytesSent := bytesSent + outcome.value;
      }
    }

    /**
     * The first half of a turn of a session's listener loop: a received packet is counted, and once it is passed on
     * to the client the session is touched. A failure to pass it on ends the loop.
     */
    method ReceiveReply(now: nat, session: UdpSession, bytes: nat, delivered: bool)
      requires Valid() && IsKnown(session) && session.listener.Waiting?
      modifies this`bytesReceived, session`bytesReceived, session`lastActivity, session`listener
      ensures Valid() && all == old(all) && IsKnown(session)
      ensures View(now) == HandleReply(old(View(now)), session.id, bytes, delivered)
      ensures bytesReceived == old(bytesReceived) + bytes
      ensures session.bytesReceived == old(session.bytesReceived) + bytes
      ensures session.lastActivity == if delivered then now else old(session.lastActivity)
    {
      RecordReply(now, session, bytes);
      if delivered {
        TouchFromListener(now, session);
        SetListenerTo(now, session, Checking(now));
      } else {
        SetListenerTo(now, session, Stopped);
      }
    }

    /** The second half, some time later: an expired session ends the loop, any other lets it wait for more. */
    method CheckExpiry(now: nat, session: UdpSession)
      requires Valid() && IsKnown(session) && session.listener.Checking?
      modifies this`sessions, this`sessionsExpired, this`sessionsActive, session`listener
      ensures Valid() && all == old(all) && IsKnown(session)
      ensures View(now) == HandleCheck(old(View(now)), session.id)
      ensures if now > session.lastActivity + timeout then
                sessions == old(sessions) - {session.client} && sessionsExpired == old(sessionsExpired) + 1
              else sessions == old(sessions) && sessionsExpired == old(sessionsExpired)
    {
      if session.IsExpired(now, timeout) {
        ExpireFromListener(now, session);
        SetListenerTo(now, session, Stopped);
      } else {
        SetListenerTo(now, session, Waiting);
      }
    }

    /** A failure to receive ends the loop without touching table or counters. */
    method ReceiveFailure(now: nat, session: UdpSession)
      requires Valid() && IsKnown(session) && session.listener.Waiting?
      modifies session`listener
      ensures Valid() && IsKnown(session)
      ensures View(now) == SetListener(old(View(now)), session.id, Stopped)
    {
      SetListenerTo(now, session, Stopped);
    }

    method SetListenerTo(now: nat, session: UdpSession, listener: Listener)
      requires Valid() && IsKnown(session)
      modifies session`listener
      ensures Valid() && IsKnown(session)
      ensures View(now) == SetListener(old(View(now)), session.id, listener)
    {
      session.listener := listener;
      assert SessionViews(all) == old(SessionViews(all))[session.id := session.View()];
    }

    method TouchFromListener(now: nat, session: UdpSession)
      requires Valid() && IsKnown(session)
      modifies session`lastActivity
      ensures Valid() && IsKnown(session)
      ensures View(now) == Touch(old(View(now)), session.id)
    {
      session.Touch(now);
      assert SessionViews(all) == old(SessionViews(all))[session.id := session.View()];
    }

    method RecordReply(now: nat, session: UdpSession, bytes: nat)
      requires Valid() && IsKnown(session)
      modifies this`bytesReceived, session`bytesReceived
      ensures Valid() && IsKnown(session)
      ensures View(now) == RecordReceived(old(View(now)), session.id, bytes)
    {
      session.RecordBytesReceived(bytes);
      bytesReceived := bytesReceived + bytes;
      assert SessionViews(all) == old(SessionViews(all))[session.id := session.View()];
    }

    /** The result of the removal is ignored: the counters move even when the table had no entry. */
    method ExpireFromListener(now: nat, session: UdpSession)
      requires Valid() && IsKnown(session)
      modifies this`sessions, this`sessionsExpired, this`sessionsActive
      ensures Valid() && IsKnown(session)
      ensures View(now) == Drop(old(View(now)), session.client)
    {
      sessions := sessions - {session.client};
      sessionsExpired := sessionsExpired + 1;
      sessionsActive := sessionsActive - 1;
      assert SessionIds(sessions) == SessionIds(old(sessions)) - {session.client};
    }

    /** One round of the periodic cleanup: collect the expired sessions, then remove those still present. */
    method RunSessionCleanup(now: nat)
      requires Valid()
      modifies this`sessions, this`sessionsExpired, this`sessionsActive
      ensures Valid()
      ensures WellFormed(old(View(now))) ==> View(now) == HandleCleanup(old(View(now)))
      ensures WellFormed(old(View(now))) ==>
                forall a :: a in sessions <==> a in old(sessions) && now <= old(sessions)[a].lastActivity + timeout
    {
      var expired := CollectExpired(now);
      RemoveSessions(expired);
      assert SessionIds(sessions) == SessionIds(old(sessions)) - expired;
    }

    method CollectExpired(now: nat) returns (expired: set<Address>)
      requires Valid()
      ensures expired <= sessions.Keys
      ensures WellFormed(View(now)) ==> expired == ExpiredClients(View(now))
    {
      expired := {};
      var todo := sessions.Keys;
      while todo != {}
        invariant todo <= sessions.Keys
        invariant forall a :: a in expired <==> a in sessions && a !in todo && sessions[a].IsExpired(now, timeout)
        decreases todo
      {
        var a :| a in todo;
        if sessions[a].IsExpired(now, timeout) {
          expired := expired + {a};
        }
        todo := todo - {a};
      }
      assert WellFormed(View(now)) ==> ExpiredClients(View(now)) == expired;
    }

    method RemoveSessions(clients: set<Address>)
      requires clients <= sessions.Keys
      modifies this`sessions, this`sessionsExpired, this`sessionsActive
      ensures sessions == old(sessions) - clients
      ensures sessionsExpired == old(sessionsExpired) + |clients|
      ensures sessionsActive == old(sessionsActive) - |clients|
    {
      var todo := clients;
      while todo != {}
        invariant todo <= clients
        invariant sessions == old(sessions) - (clients - todo)
        invariant sessionsExpired == old(sessionsExpired) + |clients| - |todo|
        invariant sessionsActive == old(sessionsActive) - |clients| + |todo|
        decreases todo
      {
        var a :| a in todo;
        if a in sessions {
          sessions := sessions - {a};
          sessionsExpired := sessionsExpired + 1;
          sessionsActive := sessionsActive - 1;
        }
        todo := todo - {a};
      }
      assert clients - todo == clients;
    }

    /**
     * The error rate reported, from one reading of the two 64-bit counters, the subtraction wrapping as unsigned
     * subtraction does: it is a share of the sessions created exactly as long as no more have expired than that.
     */
    method ErrorRate() returns (rate: real)
      ensures var created, expired := sessionsCreated % TWO64, sessionsExpired % TWO64;
              && (created == 0 ==> rate == 0.0)
              && (created > 0 ==> (0.0 <= rate <= 1.0 <==> expired <= created))
              && (expired <= created ==> rate * created as real == expired as real)
    {
      var created, expired := sessionsCreated % TWO64, sessionsExpired % TWO64;
      var successRate := 1.0;
      if created > 0 {
        var difference := WrapSub(created, expired);
        DifferenceOutOfRange(created, expired);
        successRate := difference as real / created as real;
        ShareInRangeIff(difference, created);
      }
      rate := 1.0 - successRate;
    }
  }

  lemma DifferenceOutOfRange(a: u64, b: u64)
    ensures WrapSub(a, b) <= a <==> b <= a
    ensures b <= a ==> WrapSub(a, b) == a - b
  {
  }

  lemma ShareInRangeIff(part: nat, whole: nat)
    requires whole > 0
    ensures var share := part as real / whole as real;
            && (0.0 <= 1.0 - share <= 1.0 <==> part <= whole)
            && (1.0 - share) * whole as real == (whole - part) as real
  {
    var share, w := part as real / whole as real, whole as real;
    assert share * w == part as real;
    assert (1.0 - share) * w == w - share * w;
    assert share > 1.0 ==> share * w > w;
    assert share < 0.0 ==> share * w < 0.0;
    assert share <= 1.0 ==> share * w <= w;
  }
}
