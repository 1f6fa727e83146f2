/** How much of the ring each upstream holds when names are unique and virtual nodes do not collide. */
module RingShare {
  import opened Machine
  import opened Upstreams
  import opened VirtualNodes
  import opened HashRing

  ghost predicate UniqueNames(us: seq<UpstreamView>) {
    forall i, j | 0 <= i < j < |us| :: us[i].name != us[j].name
  }

  /** The hash separates the virtual keys in use; it may still collide on any other text. */
  ghost predicate SeparatesVirtualKeys(us: seq<UpstreamView>, g: Hashing) {
    forall i, j, k, l ::
      0 <= i < |us| && 0 <= j < |us| && 0 <= k < g.replicas && 0 <= l < g.replicas
      && g.hash(VirtualKey(us[i].name, k)) == g.hash(VirtualKey(us[j].name, l))
      ==> VirtualKey(us[i].name, k) == VirtualKey(us[j].name, l)
  }

  /** The slots of the virtual nodes `0..n` of one name. */
  ghost function NodeSlots(name: string, g: Hashing, n: nat): set<u64> {
    if n == 0 then {} else NodeSlots(name, g, n - 1) + {g.hash(VirtualKey(name, n - 1))}
  }

  lemma {:induction false} NodeSlotsMember(name: string, g: Hashing, n: nat, x: u64)
    ensures x in NodeSlots(name, g, n) <==> exists k | 0 <= k < n :: g.hash(VirtualKey(name, k)) == x
  {
    if n > 0 {
      NodeSlotsMember(name, g, n - 1, x);
    }
  }

  lemma {:induction false} NodeSlotsDistinct(us: seq<UpstreamView>, g: Hashing, i: nat, n: nat)
    requires SeparatesVirtualKeys(us, g) && i < |us| && n <= g.replicas
    ensures |NodeSlots(us[i].name, g, n)| == n
  {
    if n > 0 {
      var name := us[i].name;
      var x := g.hash(VirtualKey(name, n - 1));
      NodeSlotsDistinct(us, g, i, n - 1);
      NodeSlotsMember(name, g, n - 1, x);
      if k :| 0 <= k < n - 1 && g.hash(VirtualKey(name, k)) == x {
        VirtualKeyInjective(name, k, name, n - 1);
      }
    }
  }

  lemma DifferentUpstreamsDifferentSlots(us: seq<UpstreamView>, g: Hashing, i: int, j: int, x: u64)
    requires UniqueNames(us) && SeparatesVirtualKeys(us, g)
    requires Claims(us, g, i, x) && Claims(us, g, j, x)
    ensures i == j
  {
    var k :| 0 <= k < g.replicas && g.hash(VirtualKey(us[i].name, k)) == x;
    var l :| 0 <= l < g.replicas && g.hash(VirtualKey(us[j].name, l)) == x;
    VirtualKeyInjective(us[i].name, k, us[j].name, l);
  }

  /** Each available upstream owns exactly the slots of its own virtual nodes, as many as configured. */
  lemma EqualShares(us: seq<UpstreamView>, g: Hashing, i: nat)
    requires UniqueNames(us) && SeparatesVirtualKeys(us, g) && i < |us| && us[i].Available()
    ensures forall x: u64 :: Owns(us, g, i, x) <==> x in NodeSlots(us[i].name, g, g.replicas)
    ensures |NodeSlots(us[i].name, g, g.replicas)| == g.replicas
  {
    NodeSlotsDistinct(us, g, i, g.replicas);
    forall x: u64 ensures Owns(us, g, i, x) <==> x in NodeSlots(us[i].name, g, g.replicas) {
      NodeSlotsMember(us[i].name, g, g.replicas, x);
      if Claims(us, g, i, x) {
        forall j | i < j < |us| ensures !Claims(us, g, j, x) {
          if Claims(us, g, j, x) {
            DifferentUpstreamsDifferentSlots(us, g, i, j, x);
          }
        }
      }
    }
  }

  /** The slots of the available upstreams among the first `n`. */
  ghost function SlotsOfFirst(us: seq<UpstreamView>, g: Hashing, n: nat): set<u64>
    requires n <= |us|
  {
    if n == 0 then {}
    else SlotsOfFirst(us, g, n - 1) + if us[n - 1].Available() then NodeSlots(us[n - 1].name, g, g.replicas) else {}
  }

  lemma {:induction false} SlotsOfFirstMember(us: seq<UpstreamView>, g: Hashing, n: nat, x: u64)
    requires n <= |us|
    ensures x in SlotsOfFirst(us, g, n) <==> exists i | 0 <= i < n :: Claims(us, g, i, x)
  {
    if n > 0 {
      SlotsOfFirstMember(us, g, n - 1, x);
      NodeSlotsMember(us[n - 1].name, g, g.replicas, x);
      assert x in SlotsOfFirst(us, g, n) <==> x in SlotsOfFirst(us, g, n - 1) || Claims(us, g, n - 1, x);
    }
  }

  lemma NextSlotsDisjoint(us: seq<UpstreamView>, g: Hashing, n: nat)
    requires UniqueNames(us) && SeparatesVirtualKeys(us, g) && n < |us| && us[n].Available()
    ensures SlotsOfFirst(us, g, n) !! NodeSlots(us[n].name, g, g.replicas)
  {
    forall x | x in SlotsOfFirst(us, g, n) ensures x !in NodeSlots(us[n].name, g, g.replicas) {
      SlotsOfFirstMember(us, g, n, x);
      NodeSlotsMember(us[n].name, g, g.replicas, x);
      var i :| 0 <= i < n && Claims(us, g, i, x);
      if Claims(us, g, n, x) {
        DifferentUpstreamsDifferentSlots(us, g, i, n, x);
      }
    }
  }

  lemma {:induction false} SlotsOfFirstCount(us: seq<UpstreamView>, g: Hashing, n: nat)
    requires UniqueNames(us) && SeparatesVirtualKeys(us, g) && n <= |us|
    ensures |SlotsOfFirst(us, g, n)| == g.replicas * AvailableCount(us[..n])
  {
    if n > 0 {
      SlotsOfFirstCount(us, g, n - 1);
      CountStep(us, n - 1, g.replicas);
      if us[n - 1].Available() {
        NextSlotsDisjoint(us, g, n - 1);
        NodeSlotsDistinct(us, g, n - 1, g.replicas);
        UnionSize(SlotsOfFirst(us, g, n - 1), NodeSlots(us[n - 1].name, g, g.replicas));
      }
    }
  }

  lemma UnionSize(a: set<u64>, b: set<u64>)
    requires a !! b
    ensures |a + b| == |a| + |b|
  {
  }

  /** Then the ring map itself has one entry per virtual node of every available upstream. */
  lemma RingSize(r: ConsistentHashRing, us: seq<UpstreamView>)
    requires r.Represents(us) && UniqueNames(us) && SeparatesVirtualKeys(us, r.hashing)
    ensures |r.ring| == |r.sortedHashes| == r.hashing.replicas * AvailableCount(us)
  {
    var slots := SlotsOfFirst(us, r.hashing, |us|);
    SlotsOfFirstCount(us, r.hashing, |us|);
    assert us[..|us|] == us;
    forall x: u64 ensures x in r.ring <==> x in slots {
      SlotsOfFirstMember(us, r.hashing, |us|, x);
    }
    assert r.ring.Keys == slots;
  }
}
