/**
 * What the router selects under each strategy, told from the list, the ticket and the key themselves, and the
 * stability laws of the ring for the selections of session keys.
 */
module SelectionLaws {
  import opened Arithmetic
  import opened Machine
  import opened Upstreams
  import opened VirtualNodes
  import opened HashRing
  import opened RingStability
  import opened Routing
  import RR = RoundRobin
  import LC = LeastConnections

  // ---- Round-robin and least connections ----

  /** How many of the first `n` upstreams can be selected at all. */
  function UpBefore(us: seq<UpstreamView>, n: nat): nat
    requires n <= |us|
  {
    if n == 0 then 0 else UpBefore(us, n - 1) + if us[n - 1].health != Unhealthy then 1 else 0
  }

  /** The weights of those among the first `n`, added up, a configured zero counting as one. */
  function WeightBefore(us: seq<UpstreamView>, n: nat): nat
    requires n <= |us|
  {
    if n == 0 then 0
    else
      var u := us[n - 1];
      WeightBefore(us, n - 1) + if u.health == Unhealthy then 0 else if u.weight == 0 then 1 else u.weight
  }

  lemma {:induction false} UpBeforeIsPlaces(us: seq<UpstreamView>, n: nat)
    requires n <= |us|
    ensures UpBefore(us, n) == |RR.AvailableUpTo(us, n)|
  {
    if n > 0 {
      UpBeforeIsPlaces(us, n - 1);
    }
  }

  lemma {:induction false} WeightBeforeIsPrefix(us: seq<UpstreamView>, n: nat)
    requires n <= |us|
    ensures WeightBefore(us, n) == RR.PrefixWeight(us, n)
  {
    if n > 0 {
      WeightBeforeIsPrefix(us, n - 1);
    }
  }

  /** The entry of an upstream stands behind those of the ones before it. */
  lemma {:induction false} PlaceInIndices(us: seq<UpstreamView>, n: nat, p: nat, i: nat)
    requires n <= |us| && p < |RR.AvailableUpTo(us, n)| && i < |us|
    ensures RR.AvailableUpTo(us, n)[p] == i <==> i < n && us[i].health != Unhealthy && UpBefore(us, i) == p
  {
    var before := RR.AvailableUpTo(us, n - 1);
    UpBeforeIsPlaces(us, n - 1);
    RR.IndicesAscend(us, n - 1);
    if p < |before| {
      PlaceInIndices(us, n - 1, p, i);
    } else {
      assert RR.AvailableUpTo(us, n)[p] == n - 1 && us[n - 1].health != Unhealthy;
      if i < n - 1 && us[i].health != Unhealthy {
        UpBeforeGrows(us, i, n - 1);
      }
    }
  }

  lemma {:induction false} UpBeforeGrows(us: seq<UpstreamView>, i: nat, n: nat)
    requires i < n <= |us| && us[i].health != Unhealthy
    ensures UpBefore(us, i) < UpBefore(us, n)
  {
    if i < n - 1 {
      UpBeforeGrows(us, i, n - 1);
    }
  }

  /**
   * Round-robin selects the upstream that is up and has before it just as many others that are up as the ticket
   * leaves over when divided by their number.
   */
  lemma RoundRobinIff(us: seq<UpstreamView>, g: Hashing, ticket: u64, key: Option<string>, i: nat)
    ensures Selection(RoundRobin, us, g, ticket, key) == Some(i) <==>
              && i < |us| && us[i].health != Unhealthy
              && UpBefore(us, |us|) > 0 && UpBefore(us, i) == ticket % UpBefore(us, |us|)
  {
    UpBeforeIsPlaces(us, |us|);
    if i < |us| && us[i].health != Unhealthy {
      UpBeforeGrows(us, i, |us|);
    }
    if RR.AvailableIndices(us) != [] {
      var p := ticket % |RR.AvailableIndices(us)|;
      if i < |us| {
        PlaceInIndices(us, |us|, p, i);
      } else {
        RR.IndicesAscend(us, |us|);
      }
    }
  }

  /** Weighted round-robin selects the upstream on whose stretch of the weights the ticket's remainder falls. */
  lemma WeightedRoundRobinIff(us: seq<UpstreamView>, g: Hashing, ticket: u64, key: Option<string>, i: nat)
    ensures Selection(WeightedRoundRobin, us, g, ticket, key) == Some(i) <==>
              && i < |us| && WeightBefore(us, |us|) > 0
              && WeightBefore(us, i) <= ticket % WeightBefore(us, |us|) < WeightBefore(us, i + 1)
  {
    WeightBeforeIsPrefix(us, |us|);
    RR.ExpandedLength(us, |us|);
    RR.ExpandedInRange(us, |us|);
    if i < |us| {
      WeightBeforeIsPrefix(us, i);
      WeightBeforeIsPrefix(us, i + 1);
      if RR.Expanded(us) != [] {
        RR.ExpandedIsPrefixSumChoice(us, |us|, ticket % |RR.Expanded(us)|, i);
      }
    }
  }

  /** Least-connections selects the first of those up with the fewest connections, whatever ticket and key. */
  lemma LeastConnectionsIff(us: seq<UpstreamView>, g: Hashing, ticket: u64, key: Option<string>, i: nat)
    ensures Selection(LeastConnections, us, g, ticket, key) == Some(i) <==>
              && i < |us| && us[i].health != Unhealthy
              && forall j | 0 <= j < |us| && us[j].health != Unhealthy ::
                   us[i].active <= us[j].active && (j < i ==> us[i].active < us[j].active)
  {
    if i < |us| && us[i].health != Unhealthy
       && forall j | 0 <= j < |us| && us[j].health != Unhealthy ::
            us[i].active <= us[j].active && (j < i ==> us[i].active < us[j].active) {
      LC.FirstLeastIsSelected(us, i);
    }
  }

  // ---- Session keys ----

  /** A session key decides where consistent hashing goes: clockwise from its own hash, whatever the ticket. */
  lemma KeyedIff(us: seq<UpstreamView>, g: Hashing, ticket: u64, key: string, i: nat)
    ensures Selection(ConsistentHashing, us, g, ticket, Some(key)) == Some(i) <==> RoutesTo(us, g, g.hash(key), i)
  {
    if RoutesTo(us, g, g.hash(key), i) {
      RouteIs(us, g, g.hash(key), i);
    }
  }

  /** Without a key consistent hashing falls back to round-robin. */
  lemma UnkeyedIff(us: seq<UpstreamView>, g: Hashing, ticket: u64, i: nat)
    ensures Selection(ConsistentHashing, us, g, ticket, None) == Some(i) <==>
              && i < |us| && us[i].health != Unhealthy
              && UpBefore(us, |us|) > 0 && UpBefore(us, i) == ticket % UpBefore(us, |us|)
  {
    RoundRobinIff(us, g, ticket, None, i);
  }

  /** Two upstreams whose slots differ: each gets the keys that are its own virtual nodes. */
  lemma OwnNodeComesHome(us: seq<UpstreamView>, g: Hashing, ticket: u64, i: nat, k: nat)
    requires i < |us| && us[i].health != Unhealthy && k < g.replicas
    requires forall j | i < j < |us| :: !Claims(us, g, j, g.hash(VirtualKey(us[i].name, k)))
    ensures Selection(ConsistentHashing, us, g, ticket, Some(us[i].name + ":" + Decimal(k))) == Some(i)
  {
    var key := VirtualKey(us[i].name, k);
    var x := g.hash(key);
    assert Claims(us, g, i, x);
    assert IsSuccessor(us, g, x, x);
    KeyedIff(us, g, ticket, key, i);
  }

  /** Minimal disruption of the selections: another state for one upstream moves only keys to it or away from it. */
  lemma KeyedDisruption(us: seq<UpstreamView>, p: nat, state: HealthState, g: Hashing, ticket: u64, key: string)
    requires p < |us| && g.replicas > 0
    ensures var us' := us[p := us[p].(health := state)];
            var before := Selection(ConsistentHashing, us, g, ticket, Some(key));
            var after := Selection(ConsistentHashing, us', g, ticket, Some(key));
            if state != Unhealthy then after == before || after == Some(p)
            else after != Some(p) && (before != Some(p) ==> after == before)
  {
    HealthChangeDisruption(us, p, state, g, g.hash(key));
  }

  /** The name selected for a key. */
  ghost function KeyedName(us: seq<UpstreamView>, g: Hashing, ticket: u64, key: string): Option<string> {
    var r := Selection(ConsistentHashing, us, g, ticket, Some(key));
    if r.Some? && r.value < |us| then Some(us[r.value].name) else None
  }

  lemma KeyedNameIsRouted(us: seq<UpstreamView>, g: Hashing, ticket: u64, key: string)
    ensures KeyedName(us, g, ticket, key) == RouteName(us, g, g.hash(key))
  {
    var r := Route(us, g, g.hash(key));
    if r.Some? {
      RoutedIsAvailable(us, g, g.hash(key), r.value);
    }
  }

  ghost predicate OrderNeverMatters(us: seq<UpstreamView>, g: Hashing) {
    forall f, key, ticket: u64, ticket': u64 | IsPermutation(f, |us|) ::
      KeyedName(Permute(us, f), g, ticket, key) == KeyedName(us, g, ticket', key)
  }

  /** No reordering changes the name selected for any key exactly when no two names share a slot. */
  lemma KeyedOrderIff(us: seq<UpstreamView>, g: Hashing)
    ensures OrderNeverMatters(us, g) <==> NoNameCollision(us, g)
  {
    OrderIrrelevantIff(us, g);
    if OrderIrrelevant(us, g) {
      forall f, key, ticket: u64, ticket': u64 | IsPermutation(f, |us|)
        ensures KeyedName(Permute(us, f), g, ticket, key) == KeyedName(us, g, ticket', key)
      {
        KeyedNameIsRouted(us, g, ticket', key);
        KeyedNameIsRouted(Permute(us, f), g, ticket, key);
        assert RouteName(Permute(us, f), g, g.hash(key)) == RouteName(us, g, g.hash(key));
      }
    }
    if OrderNeverMatters(us, g) {
      forall f, key | IsPermutation(f, |us|)
        ensures RouteName(Permute(us, f), g, g.hash(key)) == RouteName(us, g, g.hash(key))
      {
        KeyedNameIsRouted(us, g, 0, key);
        KeyedNameIsRouted(Permute(us, f), g, 0, key);
        assert KeyedName(Permute(us, f), g, 0, key) == KeyedName(us, g, 0, key);
      }
    }
  }

  /** Adding one config anywhere in the list moves keys only to the added name. */
  lemma KeyedInsertion(before: seq<UpstreamConfig>, c: UpstreamConfig, after: seq<UpstreamConfig>,
                       g: Hashing, ticket: u64, key: string)
    requires g.replicas > 0
    ensures var small := KeyedName(FreshViews(before + after), g, ticket, key);
            var large := KeyedName(FreshViews(before + [c] + after), g, ticket, key);
            large == small || large == Some(c.name)
  {
    InsertionMovesOnlyToNew(before, c, after, g, g.hash(key));
    KeyedNameIsRouted(FreshViews(before + after), g, ticket, key);
    KeyedNameIsRouted(FreshViews(before + [c] + after), g, ticket, key);
  }

  // ---- On the router ----

  /** A valid router answers a key with the listed upstream the key routes to, and with no other. */
  lemma KeyedAnswerIff(r: Router, key: string, i: nat)
    requires r.Valid() && r.strategy.ConsistentHashing? && i < |r.upstreams|
    ensures Answers(r.upstreams, r.Choice(Some(key)), Some(r.upstreams[i])) <==>
              RoutesTo(Views(r.upstreams), r.hashRing.hashing, r.hashRing.hashing.hash(key), i)
  {
    var us, g := Views(r.upstreams), r.hashRing.hashing;
    KeyedIff(us, g, r.rrCounter, key, i);
    var at := r.Choice(Some(key));
    if at.Some? && at.value < |r.upstreams| && at.value != i {
      assert r.upstreams[at.value] != r.upstreams[i];
    }
  }

  /** Under least-connections a valid router answers with a listed upstream, and none up has fewer connections. */
  lemma LeastConnectionsAnswer(r: Router, key: Option<string>, u: UpstreamInfo)
    requires r.Valid() && r.strategy.LeastConnections? && Answers(r.upstreams, r.Choice(key), Some(u))
    ensures u in r.upstreams && u.healthState != Unhealthy
    ensures forall v | v in r.upstreams && v.healthState != Unhealthy ::
              u.stats.activeConnections <= v.stats.activeConnections
  {
    var us := Views(r.upstreams);
    var i := r.Choice(key).value;
    LeastConnectionsIff(us, r.hashRing.hashing, r.rrCounter, key, i);
    forall v | v in r.upstreams && v.healthState != Unhealthy
      ensures u.stats.activeConnections <= v.stats.activeConnections
    {
      var j :| 0 <= j < |r.upstreams| && r.upstreams[j] == v;
      assert us[i].active <= us[j].active;
    }
  }
}
