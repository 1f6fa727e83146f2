/**
 * The UDP session table as a timed state machine. Each packet handler and each cleanup runs to its end before the
 * next begins; a listener, however, touches its session in one step and checks it in a later one, and anything may
 * come in between.
 * A session's clock and byte counters are shared by the table, the handlers and the session's listener,
 * so the machine keeps them in one list and everything else refers to them by creation number.
 */
module UdpSessions {
  import opened Machine
  import opened Sums

  type Address = string

  /** A session's listener waits for a reply, or is about to check the session it touched at `since`, or has ended. */
  datatype Listener = Waiting | Checking(since: nat) | Stopped

  datatype Session<U> = Session(
    client: Address, upstream: U, lastActivity: nat, sent: nat, received: nat, listener: Listener)

  datatype State<U> = State(
    now: nat, timeout: nat, table: map<Address, nat>, all: seq<Session<U>>,
    packets: nat, active: int, created: nat, expired: nat, sent: nat, received: nat)

  /**
   * What can happen. `selected` is the router's answer, should one be asked for; `socketOk` whether the socket
   * to the upstream could be set up; `outcome` the bytes sent, or none when sending failed.
   */
  datatype Event<U> =
    | Packet(client: Address, selected: Option<U>, socketOk: bool, outcome: Option<nat>)
    | Reply(id: nat, bytes: nat, delivered: bool)
    | Check(id: nat)
    | ReceiveError(id: nat)
    | Cleanup
    | Elapse(duration: nat)

  predicate Expired<U>(s: State<U>, id: nat)
    requires id < |s.all|
  {
    s.now > s.all[id].lastActivity + s.timeout
  }

  ghost predicate WellFormed<U>(s: State<U>) {
    && (forall a | a in s.table :: s.table[a] < |s.all| && s.all[s.table[a]].client == a)
    && (forall i | 0 <= i < |s.all| :: s.all[i].lastActivity <= s.now && CheckFollowsTouch(s.all[i]))
  }

  /** What a listener is about to check has not been touched before the listener touched it. */
  predicate CheckFollowsTouch<U>(x: Session<U>) {
    x.listener.Checking? ==> x.listener.since <= x.lastActivity
  }

  /** The table's entry for `a`, if there is one, names a session. */
  predicate Knows<U>(s: State<U>, a: Address) {
    a in s.table ==> s.table[a] < |s.all|
  }

  /** The three updates made whenever a session is declared expired, whether or not the table still had it. */
  function Drop<U>(s: State<U>, a: Address): State<U> {
    s.(table := s.table - {a}, expired := s.expired + 1, active := s.active - 1)
  }

  function Create<U>(s: State<U>, a: Address, upstream: U): State<U> {
    s.(table := s.table[a := |s.all|], all := s.all + [Session(a, upstream, s.now, 0, 0, Waiting)],
       created := s.created + 1, active := s.active + 1)
  }

  /** The state once any expired session of the client is gone. */
  function Evict<U>(s: State<U>, a: Address): State<U>
    requires Knows(s, a)
  {
    if a in s.table && Expired(s, s.table[a]) then Drop(s, a) else s
  }

  /** The session that serves a packet of `a`, if any, and the state in which it does. */
  function GetOrCreate<U>(s: State<U>, a: Address, selected: Option<U>, socketOk: bool): (r: (State<U>, Option<nat>))
    requires Knows(s, a)
    ensures r.1.Some? ==> r.1.value < |r.0.all|
  {
    if a in s.table && !Expired(s, s.table[a]) then (s, Some(s.table[a]))
    else
      var s1 := Evict(s, a);
      if selected.None? || !socketOk then (s1, None)
      else (Create(s1, a, selected.value), Some(|s1.all|))
  }

  /** The upstream a packet of `a` is forwarded to, if any. */
  function ServingUpstream<U>(s: State<U>, a: Address, selected: Option<U>, socketOk: bool): Option<U>
    requires Knows(s, a)
  {
    var (s1, found) := GetOrCreate(s, a, selected, socketOk);
    if found.None? then None else Some(s1.all[found.value].upstream)
  }

  function Touch<U>(s: State<U>, id: nat): State<U>
    requires id < |s.all|
  {
    s.(all := s.all[id := s.all[id].(lastActivity := s.now)])
  }

  function RecordSent<U>(s: State<U>, id: nat, bytes: nat): State<U>
    requires id < |s.all|
  {
    s.(all := s.all[id := s.all[id].(sent := s.all[id].sent + bytes)], sent := s.sent + bytes)
  }

  function RecordReceived<U>(s: State<U>, id: nat, bytes: nat): State<U>
    requires id < |s.all|
  {
    s.(all := s.all[id := s.all[id].(received := s.all[id].received + bytes)], received := s.received + bytes)
  }

  function SetListener<U>(s: State<U>, id: nat, listener: Listener): State<U>
    requires id < |s.all|
  {
    s.(all := s.all[id := s.all[id].(listener := listener)])
  }

  /** Touching the session and forwarding the packet. */
  function Serve<U>(s: State<U>, id: nat, outcome: Option<nat>): State<U>
    requires id < |s.all|
  {
    if outcome.None? then Touch(s, id) else RecordSent(Touch(s, id), id, outcome.value)
  }

  function CountPacket<U>(s: State<U>): State<U> {
    s.(packets := s.packets + 1)
  }

  function HandlePacket<U>(s: State<U>, a: Address, selected: Option<U>, socketOk: bool, outcome: Option<nat>): State<U>
    requires Knows(s, a)
  {
    var (s1, found) := GetOrCreate(CountPacket(s), a, selected, socketOk);
    if found.None? then s1 else Serve(s1, found.value, outcome)
  }

  /** A received packet is recorded; once it is passed on to the client, the session is touched. */
  function HandleReply<U>(s: State<U>, id: nat, bytes: nat, delivered: bool): State<U>
    requires id < |s.all|
  {
    var s1 := RecordReceived(s, id, bytes);
    if !delivered then SetListener(s1, id, Stopped) else SetListener(Touch(s1, id), id, Checking(s1.now))
  }

  /** The check that follows, now or later: for an expired session the client's entry goes, whatever it is. */
  function HandleCheck<U>(s: State<U>, id: nat): State<U>
    requires id < |s.all|
  {
    if Expired(s, id) then SetListener(Drop(s, s.all[id].client), id, Stopped) else SetListener(s, id, Waiting)
  }

  function ExpiredClients<U>(s: State<U>): set<Address>
    requires WellFormed(s)
  {
    set a | a in s.table && Expired(s, s.table[a])
  }

  function HandleCleanup<U>(s: State<U>): State<U>
    requires WellFormed(s)
  {
    var gone := ExpiredClients(s);
    s.(table := s.table - gone, expired := s.expired + |gone|, active := s.active - |gone|)
  }

  /** Replies and errors reach only waiting listeners, and only a listener that has touched its session checks it. */
  predicate Enabled<U>(s: State<U>, e: Event<U>) {
    match e
    case Reply(id, _, _) => id < |s.all| && s.all[id].listener.Waiting?
    case Check(id) => id < |s.all| && s.all[id].listener.Checking?
    case ReceiveError(id) => id < |s.all| && s.all[id].listener.Waiting?
    case _ => true
  }

  function Step<U>(s: State<U>, e: Event<U>): State<U>
    requires WellFormed(s) && Enabled(s, e)
  {
    match e
    case Packet(a, selected, socketOk, outcome) => HandlePacket(s, a, selected, socketOk, outcome)
    case Reply(id, bytes, delivered) => HandleReply(s, id, bytes, delivered)
    case Check(id) => HandleCheck(s, id)
    case ReceiveError(id) => SetListener(s, id, Stopped)
    case Cleanup => HandleCleanup(s)
    case Elapse(d) => s.(now := s.now + d)
  }

  function Initial<U>(timeout: nat): State<U> {
    State(0, timeout, map[], [], 0, 0, 0, 0, 0, 0)
  }

  // ---- What every step keeps ----

  function SentBy<U>(): Session<U> -> int {
    (x: Session<U>) => x.sent
  }

  function ReceivedBy<U>(): Session<U> -> int {
    (x: Session<U>) => x.received
  }

  /** Counters that agree in every state, whatever happens. */
  ghost predicate Balanced<U>(s: State<U>) {
    && s.created == |s.all|
    && s.active == s.created - s.expired
    && SumOf(s.all, SentBy()) == s.sent
    && SumOf(s.all, ReceivedBy()) == s.received
  }

  /** By how much the table exceeds the active counter. */
  ghost function Drift<U>(s: State<U>): int {
    |s.table| - s.active
  }

  ghost predicate Good<U>(s: State<U>) {
    WellFormed(s) && Balanced(s)
  }

  lemma DropKeeps<U>(s: State<U>, a: Address)
    requires Good(s)
    ensures Good(Drop(s, a)) && Drift(Drop(s, a)) == Drift(s) + if a in s.table then 0 else 1
  {
    assert (s.table - {a}).Keys == s.table.Keys - {a};
  }

  lemma CreateKeeps<U>(s: State<U>, a: Address, upstream: U)
    requires Good(s) && a !in s.table
    ensures Good(Create(s, a, upstream)) && Drift(Create(s, a, upstream)) == Drift(s)
  {
    CreateKeepsForm(s, a, upstream);
    CreateKeepsBalance(s, a, upstream);
    assert s.table[a := |s.all|].Keys == s.table.Keys + {a};
  }

  lemma CreateKeepsForm<U>(s: State<U>, a: Address, upstream: U)
    requires WellFormed(s)
    ensures WellFormed(Create(s, a, upstream))
  {
  }

  lemma CreateKeepsBalance<U>(s: State<U>, a: Address, upstream: U)
    requires Balanced(s)
    ensures Balanced(Create(s, a, upstream))
  {
    var x := Session(a, upstream, s.now, 0, 0, Waiting);
    SumAppend(s.all, x, SentBy());
    SumAppend(s.all, x, ReceivedBy());
  }

  /** Replacing one session's record, with the byte totals moving along. */
  lemma UpdateKeeps<U>(s: State<U>, id: nat, x: Session<U>, s': State<U>)
    requires Good(s) && id < |s.all|
    requires x.client == s.all[id].client && x.lastActivity <= s.now && CheckFollowsTouch(x)
    requires x.sent >= s.all[id].sent && x.received >= s.all[id].received
    requires s' == s.(all := s.all[id := x], sent := s.sent + x.sent - s.all[id].sent,
                      received := s.received + x.received - s.all[id].received)
    ensures Good(s') && Drift(s') == Drift(s)
  {
    SumUpdate(s.all, id, x, SentBy());
    SumUpdate(s.all, id, x, ReceivedBy());
  }

  lemma TouchKeeps<U>(s: State<U>, id: nat)
    requires Good(s) && id < |s.all|
    ensures Good(Touch(s, id)) && Drift(Touch(s, id)) == Drift(s)
  {
    UpdateKeeps(s, id, s.all[id].(lastActivity := s.now), Touch(s, id));
  }

  lemma RecordSentKeeps<U>(s: State<U>, id: nat, bytes: nat)
    requires Good(s) && id < |s.all|
    ensures Good(RecordSent(s, id, bytes)) && Drift(RecordSent(s, id, bytes)) == Drift(s)
  {
    UpdateKeeps(s, id, s.all[id].(sent := s.all[id].sent + bytes), RecordSent(s, id, bytes));
  }

  lemma RecordReceivedKeeps<U>(s: State<U>, id: nat, bytes: nat)
    requires Good(s) && id < |s.all|
    ensures Good(RecordReceived(s, id, bytes)) && Drift(RecordReceived(s, id, bytes)) == Drift(s)
  {
    UpdateKeeps(s, id, s.all[id].(received := s.all[id].received + bytes), RecordReceived(s, id, bytes));
  }

  lemma SetListenerKeeps<U>(s: State<U>, id: nat, listener: Listener)
    requires Good(s) && id < |s.all|
    requires listener.Checking? ==> listener.since <= s.all[id].lastActivity
    ensures Good(SetListener(s, id, listener)) && Drift(SetListener(s, id, listener)) == Drift(s)
  {
    UpdateKeeps(s, id, s.all[id].(listener := listener), SetListener(s, id, listener));
  }

  lemma ElapseKeeps<U>(s: State<U>, d: nat)
    requires Good(s)
    ensures Good(s.(now := s.now + d)) && Drift(s.(now := s.now + d)) == Drift(s)
  {
  }

  lemma EvictKeeps<U>(s: State<U>, a: Address)
    requires Good(s)
    ensures Good(Evict(s, a)) && Drift(Evict(s, a)) == Drift(s)
    ensures a in Evict(s, a).table ==> a in s.table && !Expired(s, s.table[a])
  {
    DropKeeps(s, a);
  }

  lemma GetOrCreateKeeps<U>(s: State<U>, a: Address, selected: Option<U>, socketOk: bool)
    requires Good(s)
    ensures var s1 := GetOrCreate(s, a, selected, socketOk).0; Good(s1) && Drift(s1) == Drift(s)
  {
    if a !in s.table || Expired(s, s.table[a]) {
      EvictKeeps(s, a);
      if selected.Some? && socketOk {
        CreateKeeps(Evict(s, a), a, selected.value);
      }
    }
  }

  /** A check that finds its session expired although the table no longer has any session of its client. */
  predicate StaleExpiry<U>(s: State<U>, e: Event<U>)
    requires Enabled(s, e)
  {
    e.Check? && Expired(s, e.id) && s.all[e.id].client !in s.table
  }

  /**
   * Every step keeps the counters balanced: active is created minus expired, and the bytes of all sessions ever
   * created add up to the global totals. Table size and active counter move together in every step but one:
   * a stale expiry lowers the counter without removing anything.
   */
  lemma StepKeepsBalance<U>(s: State<U>, e: Event<U>)
    requires Good(s) && Enabled(s, e)
    ensures Good(Step(s, e))
    ensures Drift(Step(s, e)) == Drift(s) + if StaleExpiry(s, e) then 1 else 0
  {
    match e
    case Packet(a, selected, socketOk, outcome) => PacketKeeps(s, a, selected, socketOk, outcome);
    case Reply(id, bytes, delivered) => ReplyKeeps(s, id, bytes, delivered);
    case Check(id) => CheckKeeps(s, id);
    case ReceiveError(id) => SetListenerKeeps(s, id, Stopped);
    case Cleanup => CleanupKeeps(s);
    case Elapse(d) => ElapseKeeps(s, d);
  }

  lemma PacketKeeps<U>(s: State<U>, a: Address, selected: Option<U>, socketOk: bool, outcome: Option<nat>)
    requires Good(s)
    ensures var s' := HandlePacket(s, a, selected, socketOk, outcome); Good(s') && Drift(s') == Drift(s)
  {
    CountPacketKeeps(s);
    GetOrCreateKeeps(CountPacket(s), a, selected, socketOk);
    var (s1, found) := GetOrCreate(CountPacket(s), a, selected, socketOk);
    if found.Some? {
      ServeKeeps(s1, found.value, outcome);
    }
  }

  lemma CountPacketKeeps<U>(s: State<U>)
    requires Good(s)
    ensures Good(CountPacket(s)) && Drift(CountPacket(s)) == Drift(s)
  {
  }

  lemma ServeKeeps<U>(s: State<U>, id: nat, outcome: Option<nat>)
    requires Good(s) && id < |s.all|
    ensures Good(Serve(s, id, outcome)) && Drift(Serve(s, id, outcome)) == Drift(s)
  {
    TouchKeeps(s, id);
    if outcome.Some? {
      RecordSentKeeps(Touch(s, id), id, outcome.value);
    }
  }

  lemma ReplyKeeps<U>(s: State<U>, id: nat, bytes: nat, delivered: bool)
    requires Good(s) && id < |s.all|
    ensures var s' := HandleReply(s, id, bytes, delivered); Good(s') && Drift(s') == Drift(s)
  {
    var s1 := RecordReceived(s, id, bytes);
    RecordReceivedKeeps(s, id, bytes);
    if !delivered {
      SetListenerKeeps(s1, id, Stopped);
    } else {
      TouchKeeps(s1, id);
      SetListenerKeeps(Touch(s1, id), id, Checking(s1.now));
    }
  }

  lemma CheckKeeps<U>(s: State<U>, id: nat)
    requires Good(s) && id < |s.all|
    ensures var s' := HandleCheck(s, id);
            && Good(s')
            && Drift(s') == Drift(s) + if Expired(s, id) && s.all[id].client !in s.table then 1 else 0
  {
    if Expired(s, id) {
      DropKeeps(s, s.all[id].client);
      SetListenerKeeps(Drop(s, s.all[id].client), id, Stopped);
    } else {
      SetListenerKeeps(s, id, Waiting);
    }
  }

  lemma CleanupKeeps<U>(s: State<U>)
    requires Good(s)
    ensures Good(HandleCleanup(s)) && Drift(HandleCleanup(s)) == Drift(s)
  {
    var gone := ExpiredClients(s);
    assert (s.table - gone).Keys == s.table.Keys - gone;
    assert gone <= s.table.Keys;
  }

  // ---- Runs ----

  /** The state after an event that is possible. */
  ghost predicate Follows<U>(s: State<U>, e: Event<U>, s': State<U>) {
    WellFormed(s) && Enabled(s, e) && s' == Step(s, e)
  }

  /** Each event is possible where it occurs. */
  ghost predicate ValidRun<U>(s: State<U>, es: seq<Event<U>>)
    requires Good(s)
    decreases |es|
  {
    es == [] ||
    (Enabled(s, es[0]) && (StepKeepsBalance(s, es[0]); ValidRun(Step(s, es[0]), es[1..])))
  }

  ghost function Run<U>(s: State<U>, es: seq<Event<U>>): (s': State<U>)
    requires Good(s) && ValidRun(s, es)
    ensures Good(s')
    decreases |es|
  {
    if es == [] then s
    else
      StepKeepsBalance(s, es[0]);
      Run(Step(s, es[0]), es[1..])
  }

  ghost function StaleExpiries<U>(s: State<U>, es: seq<Event<U>>): nat
    requires Good(s) && ValidRun(s, es)
    decreases |es|
  {
    if es == [] then 0
    else
      StepKeepsBalance(s, es[0]);
      (if StaleExpiry(s, es[0]) then 1 else 0) + StaleExpiries(Step(s, es[0]), es[1..])
  }

  /** In every reachable state the active counter is the table size less the stale expiries so far. */
  lemma {:induction false} ActiveIsTableLessStale<U>(s: State<U>, es: seq<Event<U>>)
    requires Good(s) && ValidRun(s, es)
    ensures Drift(Run(s, es)) == Drift(s) + StaleExpiries(s, es)
    decreases |es|
  {
    if es != [] {
      StepKeepsBalance(s, es[0]);
      ActiveIsTableLessStale(Step(s, es[0]), es[1..]);
    }
  }

  /** A check that comes within the timeout after the listener's touch. */
  predicate PromptCheck<U>(s: State<U>, e: Event<U>)
    requires Enabled(s, e)
  {
    e.Check? ==> s.now <= s.all[e.id].listener.since + s.timeout
  }

  /** Every listener of the run checks its session within the timeout after touching it. */
  ghost predicate PromptChecks<U>(s: State<U>, es: seq<Event<U>>)
    requires Good(s) && ValidRun(s, es)
    decreases |es|
  {
    es == [] || (StepKeepsBalance(s, es[0]); PromptCheck(s, es[0]) && PromptChecks(Step(s, es[0]), es[1..]))
  }

  /** A prompt check never finds anything expired, whatever happened between touch and check. */
  lemma PromptCheckFindsNothing<U>(s: State<U>, e: Event<U>)
    requires Good(s) && Enabled(s, e) && e.Check? && PromptCheck(s, e)
    ensures !Expired(s, e.id) && Step(s, e) == SetListener(s, e.id, Waiting)
  {
    assert CheckFollowsTouch(s.all[e.id]);
  }

  lemma {:induction false} PromptChecksNeverStale<U>(s: State<U>, es: seq<Event<U>>)
    requires Good(s) && ValidRun(s, es) && PromptChecks(s, es)
    ensures StaleExpiries(s, es) == 0
    decreases |es|
  {
    if es != [] {
      StepKeepsBalance(s, es[0]);
      if es[0].Check? {
        PromptCheckFindsNothing(s, es[0]);
      }
      PromptChecksNeverStale(Step(s, es[0]), es[1..]);
    }
  }

  /**
   * From the start, as long as every listener checks within the timeout after touching, table size, active sessions
   * and created minus expired are one number, so the subtraction in the metrics never underflows.
   */
  lemma TableAndCountersAgree<U>(timeout: nat, es: seq<Event<U>>)
    requires ValidRun(Initial(timeout), es) && PromptChecks(Initial(timeout), es)
    ensures var s := Run(Initial(timeout), es);
            |s.table| == s.active == s.created - s.expired && s.expired <= s.created
  {
    PromptChecksNeverStale(Initial<U>(timeout), es);
    ActiveIsTableLessStale(Initial<U>(timeout), es);
  }

  /** In general the subtraction stays in range exactly while stale expiries do not outnumber the table. */
  lemma SubtractionInRangeIff<U>(timeout: nat, es: seq<Event<U>>)
    requires ValidRun(Initial(timeout), es)
    ensures var s := Run(Initial(timeout), es);
            s.expired <= s.created <==> StaleExpiries(Initial(timeout), es) <= |s.table|
  {
    ActiveIsTableLessStale(Initial<U>(timeout), es);
  }

  /** A run given by its states. */
  lemma {:induction false} RunAlong<U>(ss: seq<State<U>>, es: seq<Event<U>>)
    requires |ss| == |es| + 1 && Good(ss[0])
    requires forall i, j | 0 <= i < |es| && j == i + 1 :: Follows(ss[i], es[i], ss[j])
    ensures ValidRun(ss[0], es) && Run(ss[0], es) == ss[|es|]
    decreases |es|
  {
    if es != [] {
      assert Follows(ss[0], es[0], ss[1]);
      StepKeepsBalance(ss[0], es[0]);
      var ss', es' := ss[1..], es[1..];
      forall i, j | 0 <= i < |es'| && j == i + 1 ensures Follows(ss'[i], es'[i], ss'[j]) {
        assert Follows(ss[i + 1], es[i + 1], ss[j + 1]);
      }
      RunAlong(ss', es');
    }
  }
}
