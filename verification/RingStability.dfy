/** How little a change of the upstream list or of one upstream's health disturbs consistent-hash routing. */
module RingStability {
  import opened Machine
  import opened Upstreams
  import opened VirtualNodes
  import opened HashRing

  /** The upstream of `us` a position comes from, in order. */
  ghost predicate IncreasingInto(f: seq<nat>, n: nat) {
    && (forall j | 0 <= j < |f| :: f[j] < n)
    && (forall i, j | 0 <= i < j < |f| :: f[i] < f[j])
  }

  /** Every available upstream of the smaller list is an available one of the larger, under the same name. */
  ghost predicate Embeds(small: seq<UpstreamView>, large: seq<UpstreamView>, f: seq<nat>) {
    && |f| == |small| && IncreasingInto(f, |large|)
    && forall j | 0 <= j < |small| && small[j].Available() ::
         large[f[j]].Available() && large[f[j]].name == small[j].name
  }

  lemma EmbeddedClaims(small: seq<UpstreamView>, large: seq<UpstreamView>, f: seq<nat>, g: Hashing, j: int, x: u64)
    requires Embeds(small, large, f) && Claims(small, g, j, x)
    ensures Claims(large, g, f[j], x)
  {
    var k :| 0 <= k < g.replicas && g.hash(VirtualKey(small[j].name, k)) == x;
    assert g.hash(VirtualKey(large[f[j]].name, k)) == x;
  }

  /**
   * Withdrawing any upstreams leaves every key of a remaining upstream where it was. Collisions do no harm:
   * the last claimant of a slot stays last among those that remain.
   */
  lemma WithdrawalKeepsOthers(small: seq<UpstreamView>, large: seq<UpstreamView>, f: seq<nat>,
                              g: Hashing, start: u64, j: nat)
    requires Embeds(small, large, f) && j < |small| && small[j].Available()
    requires RoutesTo(large, g, start, f[j])
    ensures RoutesTo(small, g, start, j)
  {
    var x: u64 :| IsSuccessor(large, g, start, x) && Owns(large, g, f[j], x);
    var k :| 0 <= k < g.replicas && g.hash(VirtualKey(large[f[j]].name, k)) == x;
    assert g.hash(VirtualKey(small[j].name, k)) == x;
    forall j' | j < j' < |small| ensures !Claims(small, g, j', x) {
      if Claims(small, g, j', x) {
        EmbeddedClaims(small, large, f, g, j', x);
      }
    }
    forall y: u64 | IsSlot(small, g, y) ensures ClockwiseDistance(start, x) <= ClockwiseDistance(start, y) {
      var i :| Claims(small, g, i, y);
      EmbeddedClaims(small, large, f, g, i, y);
    }
    assert Claims(small, g, j, x);
    assert IsSuccessor(small, g, start, x);
  }

  /** The routing relation as a partial function. */
  ghost function Route(us: seq<UpstreamView>, g: Hashing, start: u64): (r: Option<nat>)
    ensures r.Some? ==> RoutesTo(us, g, start, r.value)
    ensures r.None? ==> forall i :: !RoutesTo(us, g, start, i)
  {
    if i: nat :| RoutesTo(us, g, start, i) then Some(i) else None
  }

  lemma RouteIs(us: seq<UpstreamView>, g: Hashing, start: u64, i: int)
    requires RoutesTo(us, g, start, i)
    ensures Route(us, g, start) == Some(i)
  {
    RouteUnique(us, g, start, i, Route(us, g, start).value);
  }

  /** Lists that agree in names and availability route every key to the same position. */
  lemma SameRoute(us: seq<UpstreamView>, vs: seq<UpstreamView>, g: Hashing, start: u64)
    requires SameOnRing(us, vs)
    ensures Route(us, g, start) == Route(vs, g, start)
  {
    var r, r' := Route(us, g, start), Route(vs, g, start);
    if r.Some? {
      RoutesDependOnRing(us, vs, g, start, r.value);
      RouteIs(vs, g, start, r.value);
    } else if r'.Some? {
      RoutesDependOnRing(us, vs, g, start, r'.value);
    }
  }

  lemma {:induction false} NearestSlot(us: seq<UpstreamView>, g: Hashing, start: u64, x: u64)
    requires IsSlot(us, g, x)
    ensures exists y: u64 :: IsSuccessor(us, g, start, y)
    decreases ClockwiseDistance(start, x)
  {
    if y: u64 :| IsSlot(us, g, y) && ClockwiseDistance(start, y) < ClockwiseDistance(start, x) {
      NearestSlot(us, g, start, y);
    } else {
      assert IsSuccessor(us, g, start, x);
    }
  }

  lemma {:induction false} LastClaimant(us: seq<UpstreamView>, g: Hashing, i: int, x: u64)
    requires Claims(us, g, i, x)
    ensures exists j :: Owns(us, g, j, x)
    decreases |us| - i
  {
    if j :| i < j < |us| && Claims(us, g, j, x) {
      LastClaimant(us, g, j, x);
    } else {
      assert Owns(us, g, i, x);
    }
  }

  /** Every key is routed as long as one upstream is available. */
  lemma RouteNoneIff(us: seq<UpstreamView>, g: Hashing, start: u64)
    requires g.replicas > 0
    ensures Route(us, g, start) == None <==> forall i | 0 <= i < |us| :: !us[i].Available()
  {
    if i :| 0 <= i < |us| && us[i].Available() {
      var x := g.hash(VirtualKey(us[i].name, 0));
      assert Claims(us, g, i, x);
      NearestSlot(us, g, start, x);
      var y: u64 :| IsSuccessor(us, g, start, y);
      var c :| Claims(us, g, c, y);
      LastClaimant(us, g, c, y);
      var j :| Owns(us, g, j, y);
      assert RoutesTo(us, g, start, j);
    }
    if Route(us, g, start).Some? {
      RoutedIsAvailable(us, g, start, Route(us, g, start).value);
    }
  }

  function Identity(n: nat): seq<nat> {
    seq(n, i => i)
  }

  /** The list with the health of one upstream replaced. */
  function SetHealth(us: seq<UpstreamView>, p: nat, state: HealthState): seq<UpstreamView>
    requires p < |us|
  {
    us[p := us[p].(health := state)]
  }

  /** Bringing an upstream up, or leaving it up, moves keys only to it. */
  lemma ComingUp(us: seq<UpstreamView>, p: nat, state: HealthState, g: Hashing, start: u64)
    requires p < |us| && g.replicas > 0 && SetHealth(us, p, state)[p].Available()
    ensures var after := Route(SetHealth(us, p, state), g, start);
            after == Route(us, g, start) || after == Some(p)
  {
    var us' := SetHealth(us, p, state);
    var after := Route(us', g, start);
    RouteNoneIff(us', g, start);
    if after != Some(p) {
      RoutedIsAvailable(us', g, start, after.value);
      WithdrawalKeepsOthers(us, us', Identity(|us|), g, start, after.value);
      RouteIs(us, g, start, after.value);
    }
  }

  /** Taking one down moves only its own keys. */
  lemma GoingDown(us: seq<UpstreamView>, p: nat, state: HealthState, g: Hashing, start: u64)
    requires p < |us| && g.replicas > 0 && !SetHealth(us, p, state)[p].Available()
    ensures var before, after := Route(us, g, start), Route(SetHealth(us, p, state), g, start);
            after != Some(p) && (before != Some(p) ==> after == before)
  {
    var us' := SetHealth(us, p, state);
    var before, after := Route(us, g, start), Route(us', g, start);
    if after.Some? {
      RoutedIsAvailable(us', g, start, after.value);
    }
    if before.None? {
      RouteNoneIff(us, g, start);
      RouteNoneIff(us', g, start);
    } else if before != Some(p) {
      RoutedIsAvailable(us, g, start, before.value);
      WithdrawalKeepsOthers(us', us, Identity(|us|), g, start, before.value);
      RouteIs(us', g, start, before.value);
    }
  }

  /**
   * Minimal disruption. Taking one upstream down moves only its own keys, and bringing one up
   * moves keys only to it.
   */
  lemma HealthChangeDisruption(us: seq<UpstreamView>, p: nat, state: HealthState, g: Hashing, start: u64)
    requires p < |us| && g.replicas > 0
    ensures var us' := SetHealth(us, p, state);
            var before, after := Route(us, g, start), Route(us', g, start);
            if us'[p].Available() then after == before || after == Some(p)
            else after != Some(p) && (before != Some(p) ==> after == before)
  {
    if SetHealth(us, p, state)[p].Available() {
      ComingUp(us, p, state, g, start);
    } else {
      GoingDown(us, p, state, g, start);
    }
  }

  /** The upstream name a key is routed to: what a client can observe. */
  ghost function RouteName(us: seq<UpstreamView>, g: Hashing, start: u64): Option<string> {
    var r := Route(us, g, start);
    if r.Some? then
      RoutedIsAvailable(us, g, start, r.value);
      Some(us[r.value].name)
    else None
  }

  /** What `update_upstreams` installs: every configured upstream, health unknown. */
  function FreshViews(configs: seq<UpstreamConfig>): (us: seq<UpstreamView>)
    ensures |us| == |configs| && forall i | 0 <= i < |us| :: us[i] == FreshView(configs[i])
  {
    seq(|configs|, i requires 0 <= i < |configs| => FreshView(configs[i]))
  }

  /** Positions before `p` stay, the others move up by one. */
  function Shift(n: nat, p: nat): seq<nat> {
    seq(n, i => if i < p then i else i + 1)
  }

  lemma InsertionEmbeds(before: seq<UpstreamConfig>, c: UpstreamConfig, after: seq<UpstreamConfig>)
    ensures var small, large := FreshViews(before + after), FreshViews(before + [c] + after);
            Embeds(small, large, Shift(|small|, |before|))
  {
  }

  /** Adding one upstream anywhere in the list moves keys only to the added upstream, although indices shift. */
  lemma InsertionMovesOnlyToNew(before: seq<UpstreamConfig>, c: UpstreamConfig, after: seq<UpstreamConfig>,
                                g: Hashing, start: u64)
    requires g.replicas > 0
    ensures var small := FreshViews(before + after);
            var large := FreshViews(before + [c] + after);
            RouteName(large, g, start) == RouteName(small, g, start) || RouteName(large, g, start) == Some(c.name)
  {
    var small, large := FreshViews(before + after), FreshViews(before + [c] + after);
    var p := |before|;
    RouteNoneIff(large, g, start);
    assert large[p].Available();
    var i := Route(large, g, start).value;
    RoutedIsAvailable(large, g, start, i);
    if i != p {
      var j := if i < p then i else i - 1;
      InsertionEmbeds(before, c, after);
      assert Shift(|small|, p)[j] == i;
      WithdrawalKeepsOthers(small, large, Shift(|small|, p), g, start, j);
      RouteIs(small, g, start, j);
    }
  }

  ghost predicate IsPermutation(f: seq<nat>, n: nat) {
    && |f| == n
    && (forall j | 0 <= j < n :: f[j] < n)
    && (forall i, j | 0 <= i < j < n :: f[i] != f[j])
    && (forall i | 0 <= i < n :: i in f)
  }

  function Permute<T>(s: seq<T>, f: seq<nat>): (r: seq<T>)
    requires forall j | 0 <= j < |f| :: f[j] < |s|
    ensures |r| == |f| && forall j | 0 <= j < |f| :: r[j] == s[f[j]]
  {
    seq(|f|, j requires 0 <= j < |f| => s[f[j]])
  }

  /** Upstreams of different names never claim the same slot. */
  ghost predicate NoNameCollision(us: seq<UpstreamView>, g: Hashing) {
    forall i, j, x: u64 | Claims(us, g, i, x) && Claims(us, g, j, x) :: us[i].name == us[j].name
  }

  /** No reordering of the list changes the name any session key is routed to. */
  ghost predicate OrderIrrelevant(us: seq<UpstreamView>, g: Hashing) {
    forall f, key | IsPermutation(f, |us|) ::
      RouteName(Permute(us, f), g, g.hash(key)) == RouteName(us, g, g.hash(key))
  }

  lemma PermutedClaims(us: seq<UpstreamView>, f: seq<nat>, g: Hashing, j: int, x: u64)
    requires IsPermutation(f, |us|) && 0 <= j < |us|
    ensures Claims(Permute(us, f), g, j, x) <==> Claims(us, g, f[j], x)
  {
  }

  lemma PermutedSlots(us: seq<UpstreamView>, f: seq<nat>, g: Hashing, x: u64)
    requires IsPermutation(f, |us|)
    ensures IsSlot(Permute(us, f), g, x) <==> IsSlot(us, g, x)
  {
    var us' := Permute(us, f);
    if j :| Claims(us', g, j, x) {
      PermutedClaims(us, f, g, j, x);
    }
    if i :| Claims(us, g, i, x) {
      assert i in f;
      var j :| 0 <= j < |f| && f[j] == i;
      PermutedClaims(us, f, g, j, x);
    }
  }

  /** The slot reached does not depend on the order; without name collisions neither does the name. */
  lemma PermutationKeepsName(us: seq<UpstreamView>, f: seq<nat>, g: Hashing, start: u64)
    requires IsPermutation(f, |us|) && NoNameCollision(us, g)
    ensures RouteName(Permute(us, f), g, start) == RouteName(us, g, start)
  {
    var us' := Permute(us, f);
    forall x: u64 ensures IsSuccessor(us', g, start, x) <==> IsSuccessor(us, g, start, x) {
      forall y: u64 ensures IsSlot(us', g, y) <==> IsSlot(us, g, y) {
        PermutedSlots(us, f, g, y);
      }
    }
    if x: u64 :| IsSuccessor(us, g, start, x) {
      var i0 :| Claims(us, g, i0, x);
      LastClaimant(us, g, i0, x);
      var i :| Owns(us, g, i, x);
      var j0 :| Claims(us', g, j0, x);
      LastClaimant(us', g, j0, x);
      var j :| Owns(us', g, j, x);
      RouteIs(us, g, start, i);
      RouteIs(us', g, start, j);
      PermutedClaims(us, f, g, j, x);
    }
  }

  function Swap(n: nat, i: nat, j: nat): seq<nat> {
    seq(n, k => if k == i then j else if k == j then i else k)
  }

  lemma SwapIsPermutation(n: nat, i: nat, j: nat)
    requires i < n && j < n
    ensures IsPermutation(Swap(n, i, j), n)
  {
    var f := Swap(n, i, j);
    forall k | 0 <= k < n ensures k in f {
      assert f[if k == i then j else if k == j then i else k] == k;
    }
  }

  /** Swapping the owner of a slot with another claimant leaves the place of the owner in charge of the slot. */
  lemma SwappedOwner(us: seq<UpstreamView>, g: Hashing, other: nat, last: nat, x: u64)
    requires Claims(us, g, other, x) && Owns(us, g, last, x)
    ensures IsPermutation(Swap(|us|, other, last), |us|)
    ensures Owns(Permute(us, Swap(|us|, other, last)), g, last, x)
  {
    var f := Swap(|us|, other, last);
    SwapIsPermutation(|us|, other, last);
    forall k | 0 <= k < |us| ensures Claims(Permute(us, f), g, k, x) <==> Claims(us, g, f[k], x) {
      PermutedClaims(us, f, g, k, x);
    }
  }

  /** The owner of a slot gets the keys that hash to the slot itself. */
  lemma OwnSlot(us: seq<UpstreamView>, g: Hashing, i: nat, x: u64)
    requires Owns(us, g, i, x)
    ensures RouteName(us, g, x) == Some(us[i].name)
  {
    assert IsSuccessor(us, g, x, x);
    RouteIs(us, g, x, i);
  }

  /** Where two names collide, swapping them in the list sends the colliding key to the other name. */
  lemma CollisionMakesOrderMatter(us: seq<UpstreamView>, g: Hashing, i: int, j: int, x: u64)
    requires Claims(us, g, i, x) && Claims(us, g, j, x) && us[i].name != us[j].name
    ensures !OrderIrrelevant(us, g)
  {
    LastClaimant(us, g, i, x);
    var last :| Owns(us, g, last, x);
    var other := if us[i].name != us[last].name then i else j;
    var f := Swap(|us|, other, last);
    SwappedOwner(us, g, other, last, x);
    OwnSlot(us, g, last, x);
    OwnSlot(Permute(us, f), g, last, x);
    var k :| 0 <= k < g.replicas && g.hash(VirtualKey(us[last].name, k)) == x;
    var key := VirtualKey(us[last].name, k);
    assert RouteName(Permute(us, f), g, g.hash(key)) != RouteName(us, g, g.hash(key));
  }

  /** Routing by name is independent of the configured order exactly when names do not collide on the ring. */
  lemma OrderIrrelevantIff(us: seq<UpstreamView>, g: Hashing)
    ensures OrderIrrelevant(us, g) <==> NoNameCollision(us, g)
  {
    if NoNameCollision(us, g) {
      forall f, key | IsPermutation(f, |us|)
        ensures RouteName(Permute(us, f), g, g.hash(key)) == RouteName(us, g, g.hash(key))
      {
        PermutationKeepsName(us, f, g, g.hash(key));
      }
    } else {
      var i, j, x: u64 :| Claims(us, g, i, x) && Claims(us, g, j, x) && us[i].name != us[j].name;
      CollisionMakesOrderMatter(us, g, i, j, x);
    }
  }
}
