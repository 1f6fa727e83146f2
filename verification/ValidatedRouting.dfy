/** What validation buys the router started from a configuration. */
module ValidatedRouting {
  import opened Machine
  import opened Upstreams
  import opened HashRing
  import opened RingStability
  import opened RingShare
  import opened Config
  import opened Routing
  import RR = RoundRobin
  import HA = HealthAware

  lemma AcceptedNamesUnique(c: ProxyInstanceConfig)
    requires SoundInstance(c)
    ensures UniqueNames(FreshViews(c.upstreams))
  {
    var us, names := FreshViews(c.upstreams), UpstreamNames(c.upstreams);
    assert forall i, j | 0 <= i < j < |us| :: names[i] != names[j] && us[i].name == names[i] && us[j].name == names[j];
  }

  /**
   * A router just started from an accepted instance selects some upstream under every strategy and key,
   * and shares out tickets by the very weights configured.
   */
  lemma AcceptedInstanceIsServed(c: ProxyInstanceConfig, strategy: LoadBalancingStrategy, g: Hashing,
                                 ticket: u64, key: Option<string>)
    requires SoundInstance(c) && g.replicas > 0
    ensures Selection(strategy, FreshViews(c.upstreams), g, ticket, key).Some?
    ensures forall i | 0 <= i < |c.upstreams| :: RR.Weight(FreshViews(c.upstreams)[i]) == c.upstreams[i].weight
  {
    var us := FreshViews(c.upstreams);
    assert UpstreamError(c.upstreams[0]).None?;
    assert us[0].Available() && HA.Eligible(us[0]);
    SelectionSound(strategy, us, g, ticket, key);
  }

  /** On its ring every configured upstream owns exactly the slots of its own virtual nodes, all different. */
  lemma AcceptedInstanceRing(c: ProxyInstanceConfig, r: ConsistentHashRing)
    requires SoundInstance(c)
    requires r.Represents(FreshViews(c.upstreams)) && SeparatesVirtualKeys(FreshViews(c.upstreams), r.hashing)
    ensures |r.ring| == r.hashing.replicas * |c.upstreams|
    ensures forall i | 0 <= i < |c.upstreams| ::
              && |NodeSlots(c.upstreams[i].name, r.hashing, r.hashing.replicas)| == r.hashing.replicas
              && forall x: u64 :: Owns(FreshViews(c.upstreams), r.hashing, i, x) <==>
                   x in NodeSlots(c.upstreams[i].name, r.hashing, r.hashing.replicas)
  {
    var us, g := FreshViews(c.upstreams), r.hashing;
    AcceptedNamesUnique(c);
    RingSize(r, us);
    AllAvailableCount(us);
    forall i | 0 <= i < |c.upstreams|
      ensures |NodeSlots(c.upstreams[i].name, g, g.replicas)| == g.replicas
      ensures forall x: u64 :: Owns(us, g, i, x) <==> x in NodeSlots(c.upstreams[i].name, g, g.replicas)
    {
      EqualShares(us, g, i);
    }
  }

  lemma {:induction false} AllAvailableCount(us: seq<UpstreamView>)
    requires forall u | u in us :: u.Available()
    ensures AvailableCount(us) == |us|
  {
    if us != [] {
      AllAvailableCount(us[..|us| - 1]);
      assert us[|us| - 1] in us;
    }
  }
}
