/** Sticky UDP sessions over whole timed runs, and what a listener that checks its session late can do to them. */
module UdpStickiness {
  import opened Machine
  import opened UdpSessions

  predicate PacketFrom<U>(e: Event<U>, a: Address) {
    e.Packet? && e.client == a
  }

  /** The upstream a packet is forwarded to. */
  function ServedBy<U>(s: State<U>, e: Event<U>): Option<U>
    requires WellFormed(s) && e.Packet?
  {
    ServingUpstream(CountPacket(s), e.client, e.selected, e.socketOk)
  }

  /** Every packet of `a` in the run is forwarded to `up`. */
  ghost predicate AllServedBy<U>(s: State<U>, es: seq<Event<U>>, a: Address, up: U)
    requires Good(s) && ValidRun(s, es)
    decreases |es|
  {
    es == [] ||
    (StepKeepsBalance(s, es[0]);
     && (PacketFrom(es[0], a) ==> ServedBy(s, es[0]) == Some(up))
     && AllServedBy(Step(s, es[0]), es[1..], a, up))
  }

  /** The event is a reply passed on by the listener of the session that `a` has at the moment. */
  predicate RepliesTo<U>(s: State<U>, e: Event<U>, a: Address) {
    e.Reply? && e.delivered && a in s.table && s.table[a] == e.id
  }

  /** The time of the latest activity of `a`, after `e`: a packet, or a reply passed on within the timeout. */
  function Activity<U>(s: State<U>, e: Event<U>, a: Address, last: nat): nat {
    if PacketFrom(e, a) || (RepliesTo(s, e, a) && s.now <= last + s.timeout) then s.now else last
  }

  /** Each packet of `a` arrives at most the timeout after its client's latest activity, so far at `last`. */
  ghost predicate GapsWithinTimeout<U>(s: State<U>, es: seq<Event<U>>, a: Address, last: nat)
    requires Good(s) && ValidRun(s, es)
    decreases |es|
  {
    es == [] ||
    (StepKeepsBalance(s, es[0]);
     && (PacketFrom(es[0], a) ==> s.now <= last + s.timeout)
     && GapsWithinTimeout(Step(s, es[0]), es[1..], a, Activity(s, es[0], a, last)))
  }

  /** Until the timeout has passed since `last`, the client still has the session with upstream `up`. */
  ghost predicate Holds<U>(s: State<U>, a: Address, up: U, last: nat) {
    && last <= s.now
    && (s.now <= last + s.timeout ==>
          && a in s.table && s.table[a] < |s.all|
          && last <= s.all[s.table[a]].lastActivity && s.all[s.table[a]].upstream == up)
  }

  lemma OtherSessionKeepsHold<U>(s: State<U>, client: Address, selected: Option<U>, socketOk: bool,
                                 a: Address, up: U, last: nat)
    requires Good(s) && Holds(s, a, up, last) && client != a
    ensures var (s1, found) := GetOrCreate(s, client, selected, socketOk);
            && Holds(s1, a, up, last)
            && (found.Some? && a in s1.table ==> s1.table[a] != found.value)
  {
  }

  lemma ServingOtherKeepsHold<U>(s: State<U>, id: nat, outcome: Option<nat>, a: Address, up: U, last: nat)
    requires id < |s.all| && Holds(s, a, up, last) && (a in s.table ==> s.table[a] != id)
    ensures Holds(Serve(s, id, outcome), a, up, last)
  {
  }

  lemma OtherPacketKeepsHold<U>(s: State<U>, e: Event<U>, a: Address, up: U, last: nat)
    requires Good(s) && Holds(s, a, up, last) && e.Packet? && e.client != a
    ensures Holds(Step(s, e), a, up, last)
  {
    var s0 := CountPacket(s);
    CountPacketKeeps(s);
    OtherSessionKeepsHold(s0, e.client, e.selected, e.socketOk, a, up, last);
    var (s1, found) := GetOrCreate(s0, e.client, e.selected, e.socketOk);
    if found.Some? {
      ServingOtherKeepsHold(s1, found.value, e.outcome, a, up, last);
    }
  }

  lemma ReplyKeepsHold<U>(s: State<U>, e: Event<U>, a: Address, up: U, last: nat)
    requires Good(s) && Enabled(s, e) && Holds(s, a, up, last) && e.Reply?
    ensures Holds(Step(s, e), a, up, last)
  {
    if e.delivered {
      assert Holds(Touch(RecordReceived(s, e.id, e.bytes), e.id), a, up, last);
    }
  }

  /** A reply passed on keeps the session alive from its own time on. */
  lemma ReplyRenewsHold<U>(s: State<U>, e: Event<U>, a: Address, up: U, last: nat)
    requires Good(s) && Enabled(s, e) && Holds(s, a, up, last) && RepliesTo(s, e, a) && s.now <= last + s.timeout
    ensures Holds(Step(s, e), a, up, s.now)
  {
    assert Holds(Touch(RecordReceived(s, e.id, e.bytes), e.id), a, up, s.now);
  }

  /** The event is a listener's check that finds its own old session expired while `a` has a new, live one. */
  predicate DropsLive<U>(s: State<U>, e: Event<U>, a: Address)
    requires WellFormed(s) && Enabled(s, e)
  {
    e.Check? && Expired(s, e.id) && s.all[e.id].client == a && a in s.table && !Expired(s, s.table[a])
  }

  lemma CheckKeepsHold<U>(s: State<U>, e: Event<U>, a: Address, up: U, last: nat)
    requires Good(s) && Enabled(s, e) && Holds(s, a, up, last) && e.Check? && !DropsLive(s, e, a)
    ensures Holds(Step(s, e), a, up, last)
  {
  }

  lemma OtherEventsKeepHold<U>(s: State<U>, e: Event<U>, a: Address, up: U, last: nat)
    requires Good(s) && Enabled(s, e) && Holds(s, a, up, last) && !PacketFrom(e, a) && !DropsLive(s, e, a)
    ensures Holds(Step(s, e), a, up, last)
  {
    match e
    case Packet(_, _, _, _) => OtherPacketKeepsHold(s, e, a, up, last);
    case Reply(_, _, _) => ReplyKeepsHold(s, e, a, up, last);
    case Check(_) => CheckKeepsHold(s, e, a, up, last);
    case ReceiveError(_) =>
    case Cleanup =>
    case Elapse(_) =>
  }

  lemma PacketIsServedAndHolds<U>(s: State<U>, e: Event<U>, a: Address, up: U, last: nat)
    requires Good(s) && PacketFrom(e, a) && Holds(s, a, up, last) && s.now <= last + s.timeout
    ensures ServedBy(s, e) == Some(up)
    ensures Holds(Step(s, e), a, up, s.now)
  {
  }

  /** Any packet that is served starts, or continues, a hold on its upstream. */
  lemma ServedPacketHolds<U>(s: State<U>, e: Event<U>, up: U)
    requires Good(s) && e.Packet? && ServedBy(s, e) == Some(up)
    ensures Holds(Step(s, e), e.client, up, s.now)
  {
  }

  /** No check of the run takes a live session away from `a`. */
  ghost predicate NoLiveDrops<U>(s: State<U>, es: seq<Event<U>>, a: Address)
    requires Good(s) && ValidRun(s, es)
    decreases |es|
  {
    es == [] || (StepKeepsBalance(s, es[0]); !DropsLive(s, es[0], a) && NoLiveDrops(Step(s, es[0]), es[1..], a))
  }

  lemma {:induction false} HoldServesAll<U>(s: State<U>, es: seq<Event<U>>, a: Address, up: U, last: nat)
    requires Good(s) && ValidRun(s, es) && Holds(s, a, up, last)
    requires GapsWithinTimeout(s, es, a, last) && NoLiveDrops(s, es, a)
    ensures AllServedBy(s, es, a, up)
    decreases |es|
  {
    if es != [] {
      var e, s' := es[0], Step(s, es[0]);
      StepKeepsBalance(s, e);
      if PacketFrom(e, a) {
        PacketIsServedAndHolds(s, e, a, up, last);
      } else if RepliesTo(s, e, a) && s.now <= last + s.timeout {
        ReplyRenewsHold(s, e, a, up, last);
      } else {
        OtherEventsKeepHold(s, e, a, up, last);
      }
      HoldServesAll(s', es[1..], a, up, Activity(s, e, a, last));
    }
  }

  /**
   * Stickiness: once a packet of a client has been served, all its later packets go to the same upstream as long
   * as each follows the client's latest packet, or the latest reply passed on to it, within the timeout, and no
   * listener of an older session checks so late that it drops the live one, whatever the router would now select and
   * whatever else happens in between.
   */
  lemma StickySessions<U>(s: State<U>, first: Event<U>, rest: seq<Event<U>>, up: U)
    requires Good(s) && first.Packet? && ServedBy(s, first) == Some(up)
    requires Good(Step(s, first)) && ValidRun(Step(s, first), rest)
    requires GapsWithinTimeout(Step(s, first), rest, first.client, s.now)
    requires NoLiveDrops(Step(s, first), rest, first.client)
    ensures AllServedBy(Step(s, first), rest, first.client, up)
  {
    ServedPacketHolds(s, first, up);
    HoldServesAll(Step(s, first), rest, first.client, up, s.now);
  }

  lemma {:induction false} PromptChecksDropNothing<U>(s: State<U>, es: seq<Event<U>>, a: Address)
    requires Good(s) && ValidRun(s, es) && PromptChecks(s, es)
    ensures NoLiveDrops(s, es, a)
    decreases |es|
  {
    if es != [] {
      StepKeepsBalance(s, es[0]);
      if es[0].Check? {
        PromptCheckFindsNothing(s, es[0]);
      }
      PromptChecksDropNothing(Step(s, es[0]), es[1..], a);
    }
  }

  /** So stickiness holds without further ado where every listener checks within the timeout after its touch. */
  lemma StickyWhenPrompt<U>(s: State<U>, first: Event<U>, rest: seq<Event<U>>, up: U)
    requires Good(s) && first.Packet? && ServedBy(s, first) == Some(up)
    requires Good(Step(s, first)) && ValidRun(Step(s, first), rest) && PromptChecks(Step(s, first), rest)
    requires GapsWithinTimeout(Step(s, first), rest, first.client, s.now)
    ensures AllServedBy(Step(s, first), rest, first.client, up)
  {
    PromptChecksDropNothing(Step(s, first), rest, first.client);
    StickySessions(s, first, rest, up);
  }

  /**
   * The condition is exact: for a client with a live session, a check leaves its next packet with the session's
   * upstream, whatever the router would select, if and only if it is not such a late one.
   */
  lemma StickyAfterCheckIff<U>(s: State<U>, e: Event<U>, a: Address, other: U)
    requires Good(s) && Enabled(s, e) && e.Check?
    requires a in s.table && !Expired(s, s.table[a]) && other != s.all[s.table[a]].upstream
    ensures WellFormed(Step(s, e))
    ensures ServedBy(Step(s, e), Packet(a, Some(other), true, None)) == Some(s.all[s.table[a]].upstream)
            <==> !DropsLive(s, e, a)
    ensures DropsLive(s, e, a) ==> ServedBy(Step(s, e), Packet(a, Some(other), true, None)) == Some(other)
  {
    StepKeepsBalance(s, e);
    if DropsLive(s, e, a) {
      NewcomerGoesWhereSent(Step(s, e), a, other);
    } else {
      CheckKeepsLive(s, e, a);
      LiveClientStays(Step(s, e), a, other);
    }
  }

  lemma CheckKeepsLive<U>(s: State<U>, e: Event<U>, a: Address)
    requires Good(s) && Enabled(s, e) && e.Check? && a in s.table && !Expired(s, s.table[a]) && !DropsLive(s, e, a)
    ensures var s' := Step(s, e);
            && a in s'.table && s'.table[a] == s.table[a] && |s'.all| == |s.all| && !Expired(s', s'.table[a])
            && s'.all[s'.table[a]].upstream == s.all[s.table[a]].upstream
  {
  }

  lemma NewcomerGoesWhereSent<U>(s: State<U>, a: Address, other: U)
    requires WellFormed(s) && a !in s.table
    ensures ServedBy(s, Packet(a, Some(other), true, None)) == Some(other)
  {
  }

  lemma LiveClientStays<U>(s: State<U>, a: Address, other: U)
    requires WellFormed(s) && a in s.table && !Expired(s, s.table[a])
    ensures ServedBy(s, Packet(a, Some(other), true, None)) == Some(s.all[s.table[a]].upstream)
  {
  }

  /** Such a check comes more than the timeout after its touch, and is not about the session it removes. */
  lemma LiveDropIsLate<U>(s: State<U>, e: Event<U>, a: Address)
    requires Good(s) && Enabled(s, e) && DropsLive(s, e, a)
    ensures s.table[a] != e.id && !PromptCheck(s, e)
  {
    if PromptCheck(s, e) {
      PromptCheckFindsNothing(s, e);
    }
  }

  /**
   * A delivered reply keeps its session: up to the timeout after it every packet of the client goes to the session's
   * upstream, whatever is selected, a cleanup leaves the entry, and the listener's own check finds nothing.
   */
  lemma ReplyKeepsSession<U>(s: State<U>, id: nat, bytes: nat, d: nat, e: Event<U>)
    requires Good(s) && Enabled(s, Reply(id, bytes, true)) && d <= s.timeout
    requires s.all[id].client in s.table && s.table[s.all[id].client] == id
    requires PacketFrom(e, s.all[id].client)
    ensures Good(Step(s, Reply(id, bytes, true))) && Step(s, Reply(id, bytes, true)).all[id].listener == Checking(s.now)
    ensures var s' := Step(Step(s, Reply(id, bytes, true)), Elapse(d));
            && Good(s') && ServedBy(s', e) == Some(s.all[id].upstream)
            && s.all[id].client in Step(s', Cleanup).table && Step(s', Cleanup).table[s.all[id].client] == id
            && Step(s', Check(id)).table == s.table && Step(s', Check(id)).expired == s.expired
  {
    var s1 := Step(s, Reply(id, bytes, true));
    StepKeepsBalance(s, Reply(id, bytes, true));
    StepKeepsBalance(s1, Elapse(d));
    ReplyTouches(s, id, bytes);
    FreshSessionStays(Step(s1, Elapse(d)), id, e);
  }

  lemma ReplyTouches<U>(s: State<U>, id: nat, bytes: nat)
    requires Good(s) && Enabled(s, Reply(id, bytes, true))
    ensures var s' := Step(s, Reply(id, bytes, true));
            && s'.table == s.table && |s'.all| == |s.all| && s'.timeout == s.timeout && s'.now == s.now
            && s'.expired == s.expired && s'.all[id].lastActivity == s.now && s'.all[id].listener == Checking(s.now)
            && s'.all[id].upstream == s.all[id].upstream && s'.all[id].client == s.all[id].client
  {
  }

  /** A session within the timeout keeps its client's packets, survives a cleanup, and passes its listener's check. */
  lemma FreshSessionStays<U>(s: State<U>, id: nat, e: Event<U>)
    requires Good(s) && id < |s.all| && s.now - s.all[id].lastActivity <= s.timeout && s.all[id].listener.Checking?
    requires PacketFrom(e, s.all[id].client) && e.client in s.table && s.table[e.client] == id
    ensures ServedBy(s, e) == Some(s.all[id].upstream)
    ensures e.client in Step(s, Cleanup).table && Step(s, Cleanup).table[e.client] == id
    ensures Step(s, Check(id)).table == s.table && Step(s, Check(id)).expired == s.expired
  {
    CleanupTable(s);
  }

  /** A reply that could not be passed on ends the listener and renews nothing. */
  lemma FailedReplyRenewsNothing<U>(s: State<U>, id: nat, bytes: nat)
    requires Good(s) && Enabled(s, Reply(id, bytes, false))
    ensures var s' := Step(s, Reply(id, bytes, false));
            && s'.table == s.table && |s'.all| == |s.all|
            && (forall i | 0 <= i < |s.all| :: s'.all[i].lastActivity == s.all[i].lastActivity)
            && s'.all[id].listener == Stopped
  {
  }

  /** A packet keeps its client's session exactly when that was last active within the timeout. */
  lemma SessionKeptIff<U>(s: State<U>, e: Event<U>)
    requires Good(s) && e.Packet? && e.client in s.table && e.selected.Some? && e.socketOk
    ensures e.client in Step(s, e).table
    ensures Step(s, e).table[e.client] == s.table[e.client] <==>
              s.now - s.all[s.table[e.client]].lastActivity <= s.timeout
  {
  }

  lemma CleanupTable<U>(s: State<U>)
    requires WellFormed(s)
    ensures var s' := HandleCleanup(s);
            && (forall a :: a in s'.table <==> a in s.table && s.now - s.all[s.table[a]].lastActivity <= s.timeout)
            && (forall a | a in s'.table :: s'.table[a] == s.table[a])
  {
  }

  /** A cleanup leaves exactly the sessions last active within the timeout, and counts each one it removes. */
  lemma CleanupRemovesExactlyExpired<U>(s: State<U>)
    requires Good(s)
    ensures var s' := Step(s, Cleanup);
            && (forall a :: a in s'.table <==> a in s.table && s.now - s.all[s.table[a]].lastActivity <= s.timeout)
            && (forall a | a in s'.table :: s'.table[a] == s.table[a])
            && s'.expired - s.expired == |s.table| - |s'.table|
  {
    var s' := HandleCleanup(s);
    CleanupKeeps(s);
    CleanupTable(s);
    assert s'.active == s'.created - s'.expired && |s'.table| - s'.active == |s.table| - s.active;
  }

  // ---- Two concrete runs ----

  function OneSession(now: nat, timeout: nat, x: Session<string>): State<string> {
    State(now, timeout, map["client" := 0], [x], 1, 1, 1, 0, x.sent, x.received)
  }

  /** A session is cleaned up while its listener, which has just passed on a reply, still has its check before it. */
  function UnderflowRun(timeout: nat): seq<Event<string>> {
    [Packet("client", Some("first"), true, Some(0)), Elapse(timeout + 1), Cleanup, Reply(0, 1, true),
     Elapse(timeout + 1), Check(0)]
  }

  function UnderflowState(timeout: nat, k: nat): State<string> {
    var t := timeout + 1;
    var s1 := OneSession(0, timeout, Session("client", "first", 0, 0, 0, Waiting));
    var s3 := s1.(now := t, table := map[], expired := 1, active := 0);
    var s4 := s3.(all := [Session("client", "first", t, 0, 1, Checking(t))], received := 1);
    match k
    case 0 => Initial(timeout)
    case 1 => s1
    case 2 => s1.(now := t)
    case 3 => s3
    case 4 => s4
    case 5 => s4.(now := 2 * t)
    case _ => s4.(now := 2 * t, expired := 2, active := -1, all := [Session("client", "first", t, 0, 1, Stopped)])
  }

  lemma UnderflowStep(timeout: nat, k: nat)
    requires k < 6
    ensures Follows(UnderflowState(timeout, k), UnderflowRun(timeout)[k], UnderflowState(timeout, k + 1))
  {
    var s := UnderflowState(timeout, k);
    match k
    case 0 =>
    case 1 =>
    case 2 => assert ExpiredClients(s) == {"client"};
    case 3 =>
    case 4 =>
    case 5 => assert s.table - {"client"} == map[];
  }

  /**
   * The counters do go wrong for a listener that checks late: a session cleaned up before is declared expired a
   * second time, and created minus expired is negative.
   */
  lemma LateListenerUnderflows(timeout: nat)
    ensures ValidRun(Initial(timeout), UnderflowRun(timeout))
    ensures var s := Run(Initial(timeout), UnderflowRun(timeout)); s.created == 1 && s.expired == 2 && s.active == -1
  {
    var ss := seq(7, k requires 0 <= k => UnderflowState(timeout, k));
    forall i, j | 0 <= i < 6 && j == i + 1 ensures Follows(ss[i], UnderflowRun(timeout)[i], ss[j]) {
      UnderflowStep(timeout, i);
    }
    RunAlong(ss, UnderflowRun(timeout));
  }

  /**
   * The same listener checks only after the client has a new session, in use. All packets after the cleanup follow
   * each other within the timeout.
   */
  function MovingRun(timeout: nat): seq<Event<string>> {
    [Packet("client", Some("first"), true, Some(0)), Elapse(timeout + 1), Cleanup,
     Packet("client", Some("second"), true, Some(0)), Reply(0, 1, true), Elapse(timeout),
     Packet("client", Some("third"), true, Some(0)), Elapse(1), Check(0)]
  }

  function MovingState(timeout: nat, k: nat): State<string> {
    var t := timeout + 1;
    var old0, touched := Session("client", "first", 0, 0, 0, Waiting), Session("client", "first", t, 0, 1, Checking(t));
    var new0 := Session("client", "second", t, 0, 0, Waiting);
    var s1 := OneSession(0, timeout, old0);
    var s3 := s1.(now := t, table := map[], expired := 1, active := 0);
    var s4 := s3.(table := map["client" := 1], all := [old0, new0], packets := 2, created := 2, active := 1);
    var s5 := s4.(all := [touched, new0], received := 1);
    var s7 := s5.(now := t + timeout, packets := 3, all := [touched, new0.(lastActivity := t + timeout)]);
    match k
    case 0 => Initial(timeout)
    case 1 => s1
    case 2 => s1.(now := t)
    case 3 => s3
    case 4 => s4
    case 5 => s5
    case 6 => s5.(now := t + timeout)
    case 7 => s7
    case 8 => s7.(now := 2 * t)
    case _ =>
      s7.(now := 2 * t, table := map[], expired := 2, active := 0, all := [touched.(listener := Stopped), s7.all[1]])
  }

  lemma FirstMoves(timeout: nat, k: nat)
    requires k < 3
    ensures Follows(MovingState(timeout, k), MovingRun(timeout)[k], MovingState(timeout, k + 1))
  {
    if k == 2 {
      assert ExpiredClients(MovingState(timeout, 2)) == {"client"};
    }
  }

  lemma NewSessionMove(timeout: nat)
    ensures Follows(MovingState(timeout, 3), MovingRun(timeout)[3], MovingState(timeout, 4))
  {
  }

  lemma LateReplyMove(timeout: nat)
    ensures Follows(MovingState(timeout, 4), MovingRun(timeout)[4], MovingState(timeout, 5))
  {
  }

  lemma SamePacketMove(timeout: nat)
    ensures Follows(MovingState(timeout, 6), MovingRun(timeout)[6], MovingState(timeout, 7))
    ensures ServedBy(MovingState(timeout, 6), MovingRun(timeout)[6]) == Some("second")
  {
  }

  lemma WaitingMoves(timeout: nat)
    ensures Follows(MovingState(timeout, 5), MovingRun(timeout)[5], MovingState(timeout, 6))
    ensures Follows(MovingState(timeout, 7), MovingRun(timeout)[7], MovingState(timeout, 8))
  {
  }

  lemma LateCheckMove(timeout: nat)
    ensures Follows(MovingState(timeout, 8), MovingRun(timeout)[8], MovingState(timeout, 9))
  {
    assert MovingState(timeout, 8).table - {"client"} == map[];
  }

  lemma MovesFollow(timeout: nat, k: nat)
    requires k < 9
    ensures Follows(MovingState(timeout, k), MovingRun(timeout)[k], MovingState(timeout, k + 1))
  {
    match k
    case 3 => NewSessionMove(timeout);
    case 4 => LateReplyMove(timeout);
    case 5 => WaitingMoves(timeout);
    case 6 => SamePacketMove(timeout);
    case 7 => WaitingMoves(timeout);
    case 8 => LateCheckMove(timeout);
    case _ => FirstMoves(timeout, k);
  }

  lemma ServedAtTheEnd(timeout: nat)
    ensures WellFormed(MovingState(timeout, 9))
    ensures ServedBy(MovingState(timeout, 9), MovingRun(timeout)[6]) == Some("third")
  {
  }

  /**
   * Stickiness does fail for a listener that checks late: the packet served by "second" is followed, one unit of
   * time later, by one that goes to "third", because the check in between removed the session of both.
   */
  lemma LateCheckMovesClient(timeout: nat)
    requires timeout > 0
    ensures ValidRun(Initial(timeout), MovingRun(timeout)) && ValidRun(Initial(timeout), MovingRun(timeout)[..6])
    ensures var packet := MovingRun(timeout)[6];
            var before := Run(Initial(timeout), MovingRun(timeout)[..6]);
            var after := Run(Initial(timeout), MovingRun(timeout));
            && ServedBy(before, packet) == Some("second") && ServedBy(after, packet) == Some("third")
            && after.now == before.now + 1
  {
    var es := MovingRun(timeout);
    var ss := seq(10, k requires 0 <= k => MovingState(timeout, k));
    forall i, j | 0 <= i < 9 && j == i + 1 ensures Follows(ss[i], es[i], ss[j]) {
      MovesFollow(timeout, i);
    }
    RunAlong(ss, es);
    RunAlong(ss[..7], es[..6]);
    SamePacketMove(timeout);
    ServedAtTheEnd(timeout);
  }
}
