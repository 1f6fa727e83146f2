/** What each event does to the session table, and what the byte and packet counters hold after a whole run. */
module UdpEffects {
  import opened Machine
  import opened UdpSessions
  import opened UdpStickiness

  /** The client has a session that was active within the timeout. */
  predicate HasLive<U>(s: State<U>, a: Address)
    requires Knows(s, a)
  {
    a in s.table && s.now - s.all[s.table[a]].lastActivity <= s.timeout
  }

  /**
   * A packet of a client with a live session leaves the table alone. Otherwise an expired entry goes and is counted,
   * and if an upstream was selected and its socket set up, a new session with it is entered and counted.
   */
  lemma PacketEffect<U>(s: State<U>, a: Address, selected: Option<U>, socketOk: bool, outcome: Option<nat>)
    requires Good(s)
    ensures var s' := Step(s, Packet(a, selected, socketOk, outcome));
            var gone := if a in s.table then 1 else 0;
            && s'.packets == s.packets + 1 && s'.now == s.now && s'.timeout == s.timeout
            && (if HasLive(s, a) then
                  s'.table == s.table && |s'.all| == |s.all| && s'.created == s.created && s'.expired == s.expired
                else if selected.Some? && socketOk then
                  && s'.table == s.table[a := |s.all|] && |s'.all| == |s.all| + 1
                  && s'.created == s.created + 1 && s'.expired == s.expired + gone
                  && s'.all[|s.all|].client == a && s'.all[|s.all|].upstream == selected.value
                  && s'.all[|s.all|].listener == Waiting
                else
                  && s'.table == s.table - {a} && s'.all == s.all
                  && s'.created == s.created && s'.expired == s.expired + gone)
            && (a in s'.table ==> s'.table[a] < |s'.all| && s'.all[s'.table[a]].lastActivity == s.now)
  {
    if !HasLive(s, a) {
      assert (s.table - {a})[a := |s.all|] == s.table[a := |s.all|];
      assert a !in s.table ==> s.table - {a} == s.table;
    }
  }

  /** A check removes its client's entry, and ends its listener, exactly when its own session is past the timeout. */
  lemma CheckEffect<U>(s: State<U>, id: nat)
    requires Good(s) && Enabled(s, Check(id))
    ensures var s' := Step(s, Check(id));
            if s.now - s.all[id].lastActivity > s.timeout then
              && s'.table == s.table - {s.all[id].client} && s'.expired == s.expired + 1
              && s'.all[id].listener == Stopped
            else s'.table == s.table && s'.expired == s.expired && s'.all[id].listener == Waiting
  {
  }

  // ---- Bytes and packets over whole runs ----

  /** The session that serves the packet, if any. */
  function ServingSession<U>(s: State<U>, e: Event<U>): Option<nat>
    requires WellFormed(s) && e.Packet?
  {
    if HasLive(s, e.client) then Some(s.table[e.client])
    else if e.selected.Some? && e.socketOk then Some(|s.all|) else None
  }

  lemma ServingIsGetOrCreate<U>(s: State<U>, e: Event<U>)
    requires Good(s) && e.Packet?
    ensures ServingSession(s, e) == GetOrCreate(CountPacket(s), e.client, e.selected, e.socketOk).1
  {
  }

  /** A packet goes to the upstream of its client's live session, or else to the one now selected. */
  lemma ServedByMeaning<U>(s: State<U>, e: Event<U>)
    requires Good(s) && e.Packet?
    ensures ServedBy(s, e)
         == if HasLive(s, e.client) then Some(s.all[s.table[e.client]].upstream)
            else if e.socketOk then e.selected else None
  {
  }

  /** The bytes the event sends through session `id`, and those it receives there. */
  function SentThrough<U>(s: State<U>, e: Event<U>, id: nat): nat
    requires WellFormed(s)
  {
    if e.Packet? && e.outcome.Some? && ServingSession(s, e) == Some(id) then e.outcome.value else 0
  }

  function ReceivedThrough<U>(e: Event<U>, id: nat): nat {
    if e.Reply? && e.id == id then e.bytes else 0
  }

  function SentAtAll<U>(s: State<U>, e: Event<U>): nat
    requires WellFormed(s)
  {
    if e.Packet? && e.outcome.Some? && ServingSession(s, e).Some? then e.outcome.value else 0
  }

  function ReceivedAtAll<U>(e: Event<U>): nat {
    if e.Reply? then e.bytes else 0
  }

  lemma PacketBytes<U>(s: State<U>, e: Event<U>, id: nat)
    requires Good(s) && e.Packet?
    ensures |Step(s, e).all| >= |s.all|
    ensures id < |Step(s, e).all| ==>
              var x := Step(s, e).all[id];
              && x.sent == (if id < |s.all| then s.all[id].sent else 0) + SentThrough(s, e, id)
              && x.received == if id < |s.all| then s.all[id].received else 0
    ensures Step(s, e).sent == s.sent + SentAtAll(s, e) && Step(s, e).received == s.received
  {
    ServingIsGetOrCreate(s, e);
  }

  lemma OtherBytes<U>(s: State<U>, e: Event<U>, id: nat)
    requires Good(s) && Enabled(s, e) && !e.Packet?
    ensures |Step(s, e).all| == |s.all| && Step(s, e).packets == s.packets
    ensures id < |s.all| ==>
              && Step(s, e).all[id].sent == s.all[id].sent
              && Step(s, e).all[id].received == s.all[id].received + ReceivedThrough(e, id)
    ensures Step(s, e).sent == s.sent && Step(s, e).received == s.received + ReceivedAtAll(e)
  {
  }

  /** What a run sends and receives through session `id`, and altogether, and how many packets it has. */
  ghost function RunSent<U>(s: State<U>, es: seq<Event<U>>, id: nat): nat
    requires Good(s) && ValidRun(s, es)
    decreases |es|
  {
    if es == [] then 0
    else
      StepKeepsBalance(s, es[0]);
      SentThrough(s, es[0], id) + RunSent(Step(s, es[0]), es[1..], id)
  }

  function RunReceived<U>(es: seq<Event<U>>, id: nat): nat {
    if es == [] then 0 else ReceivedThrough(es[0], id) + RunReceived(es[1..], id)
  }

  ghost function RunSentAtAll<U>(s: State<U>, es: seq<Event<U>>): nat
    requires Good(s) && ValidRun(s, es)
    decreases |es|
  {
    if es == [] then 0
    else
      StepKeepsBalance(s, es[0]);
      SentAtAll(s, es[0]) + RunSentAtAll(Step(s, es[0]), es[1..])
  }

  function RunReceivedAtAll<U>(es: seq<Event<U>>): nat {
    if es == [] then 0 else ReceivedAtAll(es[0]) + RunReceivedAtAll(es[1..])
  }

  function Packets<U>(es: seq<Event<U>>): nat {
    if es == [] then 0 else (if es[0].Packet? then 1 else 0) + Packets(es[1..])
  }

  lemma StepBytes<U>(s: State<U>, e: Event<U>, id: nat)
    requires Good(s) && Enabled(s, e)
    ensures |Step(s, e).all| >= |s.all|
    ensures id < |Step(s, e).all| ==>
              var x := Step(s, e).all[id];
              && x.sent == (if id < |s.all| then s.all[id].sent else 0) + SentThrough(s, e, id)
              && x.received == (if id < |s.all| then s.all[id].received else 0) + ReceivedThrough(e, id)
    ensures id >= |Step(s, e).all| ==> SentThrough(s, e, id) == 0 && ReceivedThrough(e, id) == 0
  {
    if e.Packet? {
      PacketBytes(s, e, id);
      PacketEffect(s, e.client, e.selected, e.socketOk, e.outcome);
    } else {
      OtherBytes(s, e, id);
    }
  }

  lemma {:induction false} RunBytes<U>(s: State<U>, es: seq<Event<U>>, id: nat)
    requires Good(s) && ValidRun(s, es)
    ensures |Run(s, es).all| >= |s.all|
    ensures id < |Run(s, es).all| ==>
              var x := Run(s, es).all[id];
              && x.sent == (if id < |s.all| then s.all[id].sent else 0) + RunSent(s, es, id)
              && x.received == (if id < |s.all| then s.all[id].received else 0) + RunReceived(es, id)
    decreases |es|
  {
    if es != [] {
      StepKeepsBalance(s, es[0]);
      StepBytes(s, es[0], id);
      RunBytes(Step(s, es[0]), es[1..], id);
    }
  }

  lemma {:induction false} RunTotals<U>(s: State<U>, es: seq<Event<U>>)
    requires Good(s) && ValidRun(s, es)
    ensures Run(s, es).sent == s.sent + RunSentAtAll(s, es)
    ensures Run(s, es).received == s.received + RunReceivedAtAll(es)
    ensures Run(s, es).packets == s.packets + Packets(es)
    decreases |es|
  {
    if es != [] {
      StepKeepsBalance(s, es[0]);
      if es[0].Packet? {
        PacketBytes(s, es[0], 0);
        PacketEffect(s, es[0].client, es[0].selected, es[0].socketOk, es[0].outcome);
      } else {
        OtherBytes(s, es[0], 0);
      }
      RunTotals(Step(s, es[0]), es[1..]);
    }
  }

  /**
   * After any run from the start, each session has counted exactly the bytes of the packets it served and of the
   * replies it received, and the proxy those of all of them, and every packet once.
   */
  lemma CountersCountTheRun<U>(timeout: nat, es: seq<Event<U>>)
    requires ValidRun(Initial(timeout), es)
    ensures var s := Run(Initial(timeout), es);
            && s.packets == Packets(es)
            && s.sent == RunSentAtAll(Initial(timeout), es) && s.received == RunReceivedAtAll(es)
            && forall id | 0 <= id < |s.all| ::
                 s.all[id].sent == RunSent(Initial(timeout), es, id) && s.all[id].received == RunReceived(es, id)
  {
    RunTotals(Initial<U>(timeout), es);
    forall id | 0 <= id < |Run(Initial<U>(timeout), es).all|
      ensures var x := Run(Initial<U>(timeout), es).all[id];
              x.sent == RunSent(Initial(timeout), es, id) && x.received == RunReceived(es, id)
    {
      RunBytes(Initial<U>(timeout), es, id);
    }
  }
}
