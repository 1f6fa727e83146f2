/** The per-upstream pools of idle TCP connections: bounded queues, oldest first, with expiry on the way out. */
module TcpPool {
  import opened Machine

  type Stream = nat

  /** Times are in nanoseconds. */
  datatype PooledConnection = PooledConnection(stream: Stream, createdAt: nat, lastUsed: nat)

  const SECOND: nat := 1_000_000_000
  const MAX_IDLE: nat := 300 * SECOND
  const MAX_LIFETIME: nat := 3600 * SECOND
  const POOL_LIMIT: nat := 100

  /** `duration_since` saturates at zero. */
  function DurationSince(now: nat, earlier: nat): nat {
    if earlier <= now then now - earlier else 0
  }

  predicate IsUsable(c: PooledConnection, now: nat) {
    DurationSince(now, c.lastUsed) <= MAX_IDLE && DurationSince(now, c.createdAt) <= MAX_LIFETIME
  }

  /** How every queue looks: bounded, oldest first, and each entry last used when it was entered. */
  ghost predicate PoolOk(q: seq<PooledConnection>, latest: nat) {
    && |q| <= POOL_LIMIT
    && (forall i, j | 0 <= i < j < |q| :: q[i].lastUsed <= q[j].lastUsed)
    && (forall i | 0 <= i < |q| :: q[i].createdAt == q[i].lastUsed <= latest)
  }

  /** How many connections at the front are no longer usable. */
  function ExpiredPrefix(q: seq<PooledConnection>, now: nat): (k: nat)
    ensures k <= |q|
    ensures forall i | 0 <= i < k :: !IsUsable(q[i], now)
    ensures k < |q| ==> IsUsable(q[k], now)
  {
    if q == [] || IsUsable(q[0], now) then 0 else 1 + ExpiredPrefix(q[1..], now)
  }

  /** In a well-formed pool the unusable connections are exactly the prefix, whatever is behind it is usable. */
  lemma OnlyPrefixExpired(q: seq<PooledConnection>, latest: nat, now: nat, i: nat)
    requires PoolOk(q, latest) && latest <= now && i < |q|
    ensures IsUsable(q[i], now) <==> ExpiredPrefix(q, now) <= i
  {
    var k := ExpiredPrefix(q, now);
    if k < i {
      assert q[k].lastUsed <= q[i].lastUsed;
    }
  }

  function Streams(q: seq<PooledConnection>): (r: seq<Stream>)
    ensures |r| == |q| && forall i | 0 <= i < |q| :: r[i] == q[i].stream
  {
    seq(|q|, i requires 0 <= i < |q| => q[i].stream)
  }

  lemma StreamsSplit(q: seq<PooledConnection>, k: nat)
    requires k <= |q|
    ensures multiset(Streams(q)) == multiset(Streams(q[..k])) + multiset(Streams(q[k..]))
  {
    assert Streams(q) == Streams(q[..k]) + Streams(q[k..]);
  }

  lemma StreamsHead(q: seq<PooledConnection>)
    requires q != []
    ensures multiset(Streams(q)) == multiset{q[0].stream} + multiset(Streams(q[1..]))
  {
    assert Streams(q) == [q[0].stream] + Streams(q[1..]);
  }

  /** Everything that ever happened to the connections offered to one pool. */
  datatype History = History(
    offered: multiset<Stream>, handedOut: multiset<Stream>, expired: multiset<Stream>, refused: multiset<Stream>)

  const NOTHING := History(multiset{}, multiset{}, multiset{}, multiset{})

  ghost predicate Conserved(h: History, q: seq<PooledConnection>) {
    h.offered == h.handedOut + h.expired + h.refused + multiset(Streams(q))
  }

  lemma LaterStillOk(q: seq<PooledConnection>, latest: nat, now: nat)
    requires PoolOk(q, latest) && latest <= now
    ensures PoolOk(q, now)
  {
  }

  // ---- Taking a connection ----

  /** The connection handed out: the oldest usable one. */
  function Got(q: seq<PooledConnection>, now: nat): Option<Stream> {
    var k := ExpiredPrefix(q, now);
    if k == |q| then None else Some(q[k].stream)
  }

  function AfterGet(q: seq<PooledConnection>, now: nat): seq<PooledConnection> {
    var k := ExpiredPrefix(q, now);
    if k == |q| then [] else q[k + 1..]
  }

  /** Exactly the unusable prefix is thrown away. */
  function HistoryAfterGet(h: History, q: seq<PooledConnection>, now: nat): History {
    h.(expired := h.expired + multiset(Streams(q[..ExpiredPrefix(q, now)])),
       handedOut := h.handedOut + if Got(q, now).Some? then multiset{Got(q, now).value} else multiset{})
  }

  /** The limits in numbers, for times in order: five minutes idle, an hour old. */
  lemma UsableIff(c: PooledConnection, now: nat)
    requires c.createdAt <= now && c.lastUsed <= now
    ensures IsUsable(c, now) <==> now - c.lastUsed <= 300_000_000_000 && now - c.createdAt <= 3_600_000_000_000
  {
  }

  /** A get hands out the first usable connection of the queue, and leaves just what stands behind it. */
  lemma GetMeaning(q: seq<PooledConnection>, now: nat, k: nat)
    requires k <= |q| && (forall i | 0 <= i < k :: !IsUsable(q[i], now)) && (k < |q| ==> IsUsable(q[k], now))
    ensures if k < |q| then Got(q, now) == Some(q[k].stream) && AfterGet(q, now) == q[k + 1..]
            else Got(q, now) == None && AfterGet(q, now) == []
  {
    assert ExpiredPrefix(q, now) == k;
  }

  lemma GetConserves(q: seq<PooledConnection>, h: History, now: nat)
    requires Conserved(h, q)
    ensures Conserved(HistoryAfterGet(h, q, now), AfterGet(q, now))
  {
    var k, rest := ExpiredPrefix(q, now), AfterGet(q, now);
    StreamsSplit(q, k);
    if k < |q| {
      StreamsHead(q[k..]);
      assert q[k..][1..] == rest;
    } else {
      assert q[k..] == rest;
    }
  }

  lemma GetLeavesUsable(q: seq<PooledConnection>, latest: nat, now: nat)
    requires PoolOk(q, latest) && latest <= now
    ensures forall i | 0 <= i < |AfterGet(q, now)| :: IsUsable(AfterGet(q, now)[i], now)
  {
    var k, rest := ExpiredPrefix(q, now), AfterGet(q, now);
    forall i | 0 <= i < |rest| ensures IsUsable(rest[i], now) {
      OnlyPrefixExpired(q, latest, now, i + k + 1);
    }
  }

  /** A get keeps the pool in order and loses no connection, and leaves only usable ones behind. */
  lemma GetKeepsPool(q: seq<PooledConnection>, h: History, latest: nat, now: nat)
    requires PoolOk(q, latest) && Conserved(h, q) && latest <= now
    ensures PoolOk(AfterGet(q, now), now)
    ensures Conserved(HistoryAfterGet(h, q, now), AfterGet(q, now))
    ensures forall i | 0 <= i < |AfterGet(q, now)| :: IsUsable(AfterGet(q, now)[i], now)
    ensures var h' := HistoryAfterGet(h, q, now);
            && h'.offered == h.offered && h'.refused == h.refused
            && h'.handedOut == h.handedOut + match Got(q, now) case Some(x) => multiset{x} case None => multiset{}
  {
    GetConserves(q, h, now);
    GetLeavesUsable(q, latest, now);
  }

  // ---- Giving a connection back ----

  function AfterPut(q: seq<PooledConnection>, stream: Stream, now: nat): seq<PooledConnection> {
    if |q| < POOL_LIMIT then q + [PooledConnection(stream, now, now)] else q
  }

  function HistoryAfterPut(h: History, q: seq<PooledConnection>, stream: Stream): History {
    var h' := h.(offered := h.offered + multiset{stream});
    if |q| < POOL_LIMIT then h' else h'.(refused := h.refused + multiset{stream})
  }

  /** A put appends the connection, just used, to a queue of fewer than 100, and leaves a full one alone. */
  lemma PutMeaning(q: seq<PooledConnection>, h: History, stream: Stream, now: nat)
    ensures AfterPut(q, stream, now) == if |q| < 100 then q + [PooledConnection(stream, now, now)] else q
    ensures var h' := HistoryAfterPut(h, q, stream);
            && h'.offered == h.offered + multiset{stream}
            && h'.refused == (if |q| < 100 then h.refused else h.refused + multiset{stream})
            && h'.handedOut == h.handedOut && h'.expired == h.expired
  {
  }

  lemma DrainedHead(q: seq<PooledConnection>, now: nat)
    requires q != [] && IsUsable(q[0], now)
    ensures Drained(q, now) == [q[0].stream] + Drained(q[1..], now)
  {
    GetMeaning(q, now, 0);
  }

  lemma {:induction false} DrainsInOrder(q: seq<PooledConnection>, now: nat)
    requires forall i | 0 <= i < |q| :: IsUsable(q[i], now)
    ensures Drained(q, now) == Streams(q)
  {
    if q != [] {
      var rest := q[1..];
      assert forall i | 0 <= i < |rest| :: rest[i] == q[i + 1];
      DrainsInOrder(rest, now);
      DrainedHead(q, now);
      StreamsFront(q);
    }
  }

  lemma StreamsFront(q: seq<PooledConnection>)
    requires q != []
    ensures Streams(q) == [q[0].stream] + Streams(q[1..])
  {
  }

  /** First in, first out: connections all still usable come out in the order they were put in. */
  lemma FirstInFirstOut(q: seq<PooledConnection>, stream: Stream, put: nat, now: nat)
    requires |q| < POOL_LIMIT && put <= now
    requires forall i | 0 <= i < |q| :: IsUsable(q[i], now)
    requires IsUsable(PooledConnection(stream, put, put), now)
    ensures Drained(AfterPut(q, stream, put), now) == Streams(q) + [stream]
  {
    var x := PooledConnection(stream, put, put);
    DrainsInOrder(q + [x], now);
    assert Streams(q + [x]) == Streams(q) + [stream];
  }

  /** What gets one after the other hand out until the pool is empty. */
  function Drained(q: seq<PooledConnection>, now: nat): seq<Stream>
    decreases |q|
  {
    if q == [] then []
    else if Got(q, now).None? then []
    else [Got(q, now).value] + Drained(AfterGet(q, now), now)
  }

  /** Nothing is lost: every connection offered was handed out, expired, refused, or is still there. */
  lemma NothingLost(h: History, q: seq<PooledConnection>, stream: Stream)
    requires Conserved(h, q)
    ensures h.offered[stream]
         == h.handedOut[stream] + h.expired[stream] + h.refused[stream] + multiset(Streams(q))[stream]
  {
  }

  lemma PutKeepsPool(q: seq<PooledConnection>, h: History, stream: Stream, latest: nat, now: nat)
    requires PoolOk(q, latest) && Conserved(h, q) && latest <= now
    ensures PoolOk(AfterPut(q, stream, now), now)
    ensures Conserved(HistoryAfterPut(h, q, stream), AfterPut(q, stream, now))
  {
    if |q| < POOL_LIMIT {
      assert Streams(AfterPut(q, stream, now)) == Streams(q) + [stream];
    }
  }

  /** A connection put into an empty pool comes back out until it has idled too long. */
  lemma PutThenGet(stream: Stream, put: nat, now: nat)
    requires put <= now
    ensures Got(AfterPut([], stream, put), now) == if now - put <= MAX_IDLE then Some(stream) else None
  {
    var q := AfterPut([], stream, put);
    assert q == [PooledConnection(stream, put, put)];
    assert q[1..] == [];
  }

  /** The source's loop: pop from the front until a usable connection turns up. */
  method PopUsable(q: seq<PooledConnection>, now: nat) returns (r: Option<Stream>, rest: seq<PooledConnection>)
    ensures r == Got(q, now) && rest == AfterGet(q, now)
  {
    rest := q;
    ghost var popped := 0;
    while rest != []
      invariant 0 <= popped <= |q| && rest == q[popped..]
      invariant ExpiredPrefix(rest, now) == ExpiredPrefix(q, now) - popped
      decreases |rest|
    {
      var conn := rest[0];
      rest := rest[1..];
      if IsUsable(conn, now) {
        return Some(conn.stream), rest;
      }
      popped := popped + 1;
    }
    r := None;
  }

  class ConnectionPools {
    const pooling: bool
    var pools: map<string, seq<PooledConnection>>
    ghost var histories: map<string, History>
    ghost var latest: nat

    constructor (pooling: bool)
      ensures Valid() && this.pooling == pooling && pools == map[] && latest == 0
    {
      this.pooling := pooling;
      pools, histories, latest := map[], map[], 0;
    }

    ghost predicate Valid()
      reads this
    {
      && pools.Keys == histories.Keys
      && forall name | name in pools :: PoolOk(pools[name], latest) && Conserved(histories[name], pools[name])
    }

    /** Time passes without harm to any pool. */
    lemma ValidLater(now: nat)
      requires Valid() && latest <= now
      ensures forall name | name in pools :: PoolOk(pools[name], now)
    {
      forall name | name in pools ensures PoolOk(pools[name], now) {
        LaterStillOk(pools[name], latest, now);
      }
    }

    method TryGetPooledConnection(now: nat, name: string) returns (r: Option<Stream>)
      requires Valid() && latest <= now
      modifies this`pools, this`histories, this`latest
      ensures Valid() && latest == now
      ensures name !in old(pools) ==> r == None && pools == old(pools) && histories == old(histories)
      ensures name in old(pools) ==>
                && r == Got(old(pools)[name], now)
                && pools == old(pools)[name := AfterGet(old(pools)[name], now)]
                && histories == old(histories)[name := HistoryAfterGet(old(histories)[name], old(pools)[name], now)]
    {
      ValidLater(now);
      if name !in pools {
        latest := now;
        return None;
      }
      GetKeepsPool(pools[name], histories[name], latest, now);
      histories := histories[name := HistoryAfterGet(histories[name], pools[name], now)];
      var rest;
      r, rest := PopUsable(pools[name], now);
      pools := pools[name := rest];
      latest := now;
    }

    method ReturnConnectionToPool(now: nat, name: string, stream: Stream)
      requires Valid() && latest <= now
      modifies this`pools, this`histories, this`latest
      ensures Valid() && latest == now
      ensures !pooling ==> pools == old(pools) && histories == old(histories)
      ensures pooling ==>
                var q := if name in old(pools) then old(pools)[name] else [];
                var h := if name in old(pools) then old(histories)[name] else NOTHING;
                && pools == old(pools)[name := AfterPut(q, stream, now)]
                && histories == old(histories)[name := HistoryAfterPut(h, q, stream)]
    {
      ValidLater(now);
      latest := now;
      if !pooling {
        return;
      }
      var pool := if name in pools then pools[name] else [];
      ghost var h := if name in pools then histories[name] else NOTHING;
      PutKeepsPool(pool, h, stream, now, now);
      histories := histories[name := HistoryAfterPut(h, pool, stream)];
      if |pool| < POOL_LIMIT {
        pool := pool + [PooledConnection(stream, now, now)];
      }
      pools := pools[name := pool];
    }
  }
}
