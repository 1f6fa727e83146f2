/** The consistent-hash ring, and the declarative routing relation it implements. */
module HashRing {
  import opened Machine
  import opened Sorting
  import opened Upstreams
  import opened VirtualNodes

  /** The fixed hash of text keys, arbitrary and possibly colliding, and the virtual nodes per upstream. */
  datatype Hashing = Hashing(hash: string -> u64, replicas: nat)

  /** Upstream `i` is available and one of its virtual nodes hashes to slot `x`. */
  ghost predicate Claims(us: seq<UpstreamView>, g: Hashing, i: int, x: u64) {
    0 <= i < |us| && us[i].Available() && exists k | 0 <= k < g.replicas :: g.hash(VirtualKey(us[i].name, k)) == x
  }

  ghost predicate IsSlot(us: seq<UpstreamView>, g: Hashing, x: u64) {
    exists i :: Claims(us, g, i, x)
  }

  /** Among the claimants of a slot, the last in the list owns it. */
  ghost predicate Owns(us: seq<UpstreamView>, g: Hashing, i: int, x: u64) {
    Claims(us, g, i, x) && forall j | i < j < |us| :: !Claims(us, g, j, x)
  }

  /** How far one walks clockwise around the 64-bit circle from `a` to `b`. */
  function ClockwiseDistance(a: u64, b: u64): nat {
    if a <= b then b - a else TWO64 - a + b
  }

  /** The slot met first when walking clockwise from `start`. */
  ghost predicate IsSuccessor(us: seq<UpstreamView>, g: Hashing, start: u64, x: u64) {
    IsSlot(us, g, x) && forall y: u64 | IsSlot(us, g, y) :: ClockwiseDistance(start, x) <= ClockwiseDistance(start, y)
  }

  ghost predicate RoutesTo(us: seq<UpstreamView>, g: Hashing, start: u64, i: int) {
    exists x: u64 :: IsSuccessor(us, g, start, x) && Owns(us, g, i, x)
  }

  function AvailableCount(us: seq<UpstreamView>): nat {
    if us == [] then 0 else AvailableCount(us[..|us| - 1]) + if us[|us| - 1].Available() then 1 else 0
  }

  lemma CountStep(us: seq<UpstreamView>, n: nat, replicas: nat)
    requires n < |us|
    ensures replicas * AvailableCount(us[..n + 1])
         == replicas * AvailableCount(us[..n]) + if us[n].Available() then replicas else 0
  {
    assert us[..n + 1][..n] == us[..n];
  }

  /** Told by numbers: the least slot at or above `start`, or the least of all when there is none so high. */
  lemma SuccessorMeaning(us: seq<UpstreamView>, g: Hashing, start: u64, x: u64)
    ensures IsSuccessor(us, g, start, x) <==>
              && IsSlot(us, g, x)
              && if exists y: u64 :: IsSlot(us, g, y) && start <= y then
                   start <= x && forall y: u64 | IsSlot(us, g, y) && start <= y :: x <= y
                 else forall y: u64 | IsSlot(us, g, y) :: x <= y
  {
    if y: u64 :| IsSlot(us, g, y) && start <= y {
      if IsSuccessor(us, g, start, x) {
        assert ClockwiseDistance(start, x) <= ClockwiseDistance(start, y);
      }
    }
  }

  lemma RouteUnique(us: seq<UpstreamView>, g: Hashing, start: u64, i: int, j: int)
    requires RoutesTo(us, g, start, i) && RoutesTo(us, g, start, j)
    ensures i == j
  {
    var x: u64 :| IsSuccessor(us, g, start, x) && Owns(us, g, i, x);
    var y: u64 :| IsSuccessor(us, g, start, y) && Owns(us, g, j, y);
    assert ClockwiseDistance(start, x) == ClockwiseDistance(start, y);
    assert x == y;
  }

  lemma RoutedIsAvailable(us: seq<UpstreamView>, g: Hashing, start: u64, i: int)
    requires RoutesTo(us, g, start, i)
    ensures 0 <= i < |us| && us[i].Available()
  {
    var x: u64 :| IsSuccessor(us, g, start, x) && Owns(us, g, i, x);
  }

  /** Two lists the ring cannot tell apart: same names, same availability. */
  ghost predicate SameOnRing(us: seq<UpstreamView>, vs: seq<UpstreamView>) {
    && |us| == |vs|
    && forall i | 0 <= i < |us| :: us[i].name == vs[i].name && us[i].Available() == vs[i].Available()
  }

  lemma ClaimsDependOnRing(us: seq<UpstreamView>, vs: seq<UpstreamView>, g: Hashing, i: int, x: u64)
    requires SameOnRing(us, vs)
    ensures Claims(us, g, i, x) <==> Claims(vs, g, i, x)
  {
  }

  lemma {:induction false} CountDependsOnRing(us: seq<UpstreamView>, vs: seq<UpstreamView>)
    requires SameOnRing(us, vs)
    ensures AvailableCount(us) == AvailableCount(vs)
  {
    if us != [] {
      CountDependsOnRing(us[..|us| - 1], vs[..|vs| - 1]);
    }
  }

  /** So neither does routing: statistics and weights have no influence on it. */
  lemma RoutesDependOnRing(us: seq<UpstreamView>, vs: seq<UpstreamView>, g: Hashing, start: u64, i: int)
    requires SameOnRing(us, vs)
    ensures RoutesTo(us, g, start, i) <==> RoutesTo(vs, g, start, i)
  {
    forall j, x: u64 ensures Claims(us, g, j, x) <==> Claims(vs, g, j, x) {
      ClaimsDependOnRing(us, vs, g, j, x);
    }
    forall x: u64 ensures IsSuccessor(us, g, start, x) <==> IsSuccessor(vs, g, start, x) {
      assert forall y: u64 :: IsSlot(us, g, y) <==> IsSlot(vs, g, y);
    }
    forall x: u64 ensures Owns(us, g, i, x) <==> Owns(vs, g, i, x) {
    }
  }

  ghost predicate Ascending(s: seq<u64>) {
    forall i, j | 0 <= i < j < |s| :: s[i] <= s[j]
  }

  function AtMost(): (u64, u64) -> bool {
    (a, b) => a <= b
  }

  datatype SearchResult = Found(index: nat) | Missing(index: nat)

  /** What the library's binary search promises: any match, or else the insertion point. */
  ghost predicate SearchOutcome(s: seq<u64>, x: u64, r: SearchResult) {
    match r
    case Found(k) => k < |s| && s[k] == x
    case Missing(k) => k <= |s| && (forall j | 0 <= j < k :: s[j] < x) && (forall j | k <= j < |s| :: x < s[j])
  }

  method BinarySearch(s: seq<u64>, x: u64) returns (r: SearchResult)
    requires Ascending(s)
    ensures SearchOutcome(s, x, r)
    ensures r.Found? <==> x in s
  {
    var lo, hi := 0, |s|;
    while lo < hi
      invariant 0 <= lo <= hi <= |s|
      invariant forall j | 0 <= j < lo :: s[j] < x
      invariant forall j | hi <= j < |s| :: x < s[j]
    {
      var mid := (lo + hi) / 2;
      if s[mid] < x {
        lo := mid + 1;
      } else if x < s[mid] {
        hi := mid;
      } else {
        return Found(mid);
      }
    }
    return Missing(lo);
  }

  /** The index the lookup goes on with: past the end it wraps to the first slot. */
  function SlotIndex(s: seq<u64>, r: SearchResult): nat {
    match r
    case Found(k) => k
    case Missing(k) => if k == |s| then 0 else k
  }

  /** Whichever match the search returns, the slot read is the clockwise nearest in the array. */
  lemma SearchFindsNearest(s: seq<u64>, x: u64, r: SearchResult)
    requires Ascending(s) && s != [] && SearchOutcome(s, x, r)
    ensures SlotIndex(s, r) < |s|
    ensures forall y | y in s :: ClockwiseDistance(x, s[SlotIndex(s, r)]) <= ClockwiseDistance(x, y)
  {
    forall y | y in s
      ensures ClockwiseDistance(x, s[SlotIndex(s, r)]) <= ClockwiseDistance(x, y)
    {
      var j :| 0 <= j < |s| && s[j] == y;
    }
  }

  /** The virtual nodes of `j` placed once the nested loops stand at upstream `n`, node `m`. */
  function Placed(g: Hashing, n: nat, m: nat, j: int): nat {
    if j < n then g.replicas else if j == n then m else 0
  }

  ghost predicate ClaimsSoFar(us: seq<UpstreamView>, g: Hashing, n: nat, m: nat, j: int, x: u64) {
    && 0 <= j < |us| && us[j].Available()
    && exists k | 0 <= k < Placed(g, n, m, j) :: g.hash(VirtualKey(us[j].name, k)) == x
  }

  /** The map names the last claimant so far of each slot so far; the list holds the same slots. */
  ghost predicate Filled(us: seq<UpstreamView>, g: Hashing, n: nat, m: nat, ring: map<u64, nat>, hashes: seq<u64>) {
    && (forall x: u64 :: x in hashes <==> x in ring)
    && (forall j, x: u64 :: ClaimsSoFar(us, g, n, m, j, x) ==> x in ring)
    && (forall x: u64 | x in ring ::
          ClaimsSoFar(us, g, n, m, ring[x], x) && forall j | ring[x] < j < |us| :: !ClaimsSoFar(us, g, n, m, j, x))
  }

  lemma PlacingKeepsFilled(us: seq<UpstreamView>, g: Hashing, n: nat, m: nat, m': nat, x: u64,
                           ring: map<u64, nat>, hashes: seq<u64>)
    requires n < |us| && us[n].Available() && m < g.replicas && m' == m + 1
    requires x == g.hash(VirtualKey(us[n].name, m))
    requires Filled(us, g, n, m, ring, hashes)
    ensures Filled(us, g, n, m', ring[x := n], hashes + [x])
  {
    forall j, y: u64
      ensures ClaimsSoFar(us, g, n, m', j, y) <==> ClaimsSoFar(us, g, n, m, j, y) || (j == n && y == x)
    {
      if ClaimsSoFar(us, g, n, m, j, y) {
        var k :| 0 <= k < Placed(g, n, m, j) && g.hash(VirtualKey(us[j].name, k)) == y;
        assert 0 <= k < Placed(g, n, m', j);
      }
      if ClaimsSoFar(us, g, n, m', j, y) {
        var k :| 0 <= k < Placed(g, n, m', j) && g.hash(VirtualKey(us[j].name, k)) == y;
        assert (j == n && k == m) || k < Placed(g, n, m, j);
      }
      if j == n && y == x {
        assert m < Placed(g, n, m', j);
      }
    }
    var ring' := ring[x := n];
    forall y: u64 | y in ring'
      ensures ClaimsSoFar(us, g, n, m', ring'[y], y)
      ensures forall j | ring'[y] < j < |us| :: !ClaimsSoFar(us, g, n, m', j, y)
    {
      forall j | n < j < |us| ensures !ClaimsSoFar(us, g, n, m', j, y) {
        assert Placed(g, n, m', j) == 0;
      }
    }
  }

  lemma SameQuotaSameClaims(us: seq<UpstreamView>, g: Hashing, n: nat, m: nat, n': nat, m': nat, j: int, x: u64)
    requires 0 <= j < |us| && us[j].Available() ==> Placed(g, n, m, j) == Placed(g, n', m', j)
    ensures ClaimsSoFar(us, g, n, m, j, x) <==> ClaimsSoFar(us, g, n', m', j, x)
  {
  }

  lemma NextUpstreamKeepsFilled(us: seq<UpstreamView>, g: Hashing, n: nat, m: nat, n': nat,
                                ring: map<u64, nat>, hashes: seq<u64>)
    requires n < |us| && m == (if us[n].Available() then g.replicas else 0) && n' == n + 1
    requires Filled(us, g, n, m, ring, hashes)
    ensures Filled(us, g, n', 0, ring, hashes)
  {
    forall j, x: u64 ensures ClaimsSoFar(us, g, n', 0, j, x) <==> ClaimsSoFar(us, g, n, m, j, x) {
      SameQuotaSameClaims(us, g, n, m, n', 0, j, x);
    }
  }

  lemma AllPlacedIsClaims(us: seq<UpstreamView>, g: Hashing, ring: map<u64, nat>, hashes: seq<u64>)
    requires Filled(us, g, |us|, 0, ring, hashes)
    ensures forall x: u64 :: x in ring <==> IsSlot(us, g, x)
    ensures forall x: u64 | x in ring :: Owns(us, g, ring[x], x)
  {
    var n := |us|;
    forall j, x: u64 ensures ClaimsSoFar(us, g, n, 0, j, x) <==> Claims(us, g, j, x) {
      if 0 <= j < |us| {
        assert Placed(g, n, 0, j) == g.replicas;
      }
    }
  }

  class ConsistentHashRing {
    var ring: map<u64, nat>
    var sortedHashes: seq<u64>
    const hashing: Hashing

    constructor (hashing: Hashing)
      ensures this.hashing == hashing && ring == map[] && sortedHashes == []
    {
      this.hashing := hashing;
      ring, sortedHashes := map[], [];
    }

    /** The ring is the one built from scratch for `us`. */
    ghost predicate Represents(us: seq<UpstreamView>)
      reads this
    {
      && (forall x: u64 :: x in ring <==> IsSlot(us, hashing, x))
      && (forall x: u64 | x in ring :: Owns(us, hashing, ring[x], x))
      && Ascending(sortedHashes)
      && (forall x: u64 :: x in sortedHashes <==> x in ring)
      && |sortedHashes| == hashing.replicas * AvailableCount(us)
    }

    /** One turn of the outer loop of `Update`: all virtual nodes of the upstream at `n`, if it is available. */
    method PlaceUpstream(upstream: UpstreamInfo, n: nat, ghost us: seq<UpstreamView>)
      requires n < |us| && us[n] == upstream.View()
      requires Filled(us, hashing, n, 0, ring, sortedHashes)
      modifies this`ring, this`sortedHashes
      ensures Filled(us, hashing, n + 1, 0, ring, sortedHashes)
      ensures |sortedHashes| == |old(sortedHashes)| + if us[n].Available() then hashing.replicas else 0
    {
      if !upstream.View().Available() {
        NextUpstreamKeepsFilled(us, hashing, n, 0, n + 1, ring, sortedHashes);
        return;
      }
      var m := 0;
      while m < hashing.replicas
        invariant 0 <= m <= hashing.replicas
        invariant Filled(us, hashing, n, m, ring, sortedHashes)
        invariant |sortedHashes| == |old(sortedHashes)| + m
      {
        var hash := hashing.hash(VirtualKey(upstream.config.name, m));
        PlacingKeepsFilled(us, hashing, n, m, m + 1, hash, ring, sortedHashes);
        ring := ring[hash := n];
        sortedHashes := sortedHashes + [hash];
        m := m + 1;
      }
      NextUpstreamKeepsFilled(us, hashing, n, m, n + 1, ring, sortedHashes);
    }

    method Update(upstreams: seq<UpstreamInfo>)
      modifies this`ring, this`sortedHashes
      ensures Represents(Views(upstreams))
    {
      ghost var us := Views(upstreams);
      ring, sortedHashes := map[], [];
      var n := 0;
      while n < |upstreams|
        invariant 0 <= n <= |upstreams|
        invariant Filled(us, hashing, n, 0, ring, sortedHashes)
        invariant |sortedHashes| == hashing.replicas * AvailableCount(us[..n])
      {
        CountStep(us, n, hashing.replicas);
        PlaceUpstream(upstreams[n], n, us);
        n := n + 1;
      }
      assert us[..n] == us;
      SortSlots(us);
      assert Views(upstreams) == us;
    }

    /** The final `sort_unstable`. */
    method SortSlots(ghost us: seq<UpstreamView>)
      requires Filled(us, hashing, |us|, 0, ring, sortedHashes)
      requires |sortedHashes| == hashing.replicas * AvailableCount(us)
      modifies this`sortedHashes
      ensures Represents(us)
    {
      AllPlacedIsClaims(us, hashing, ring, sortedHashes);
      SortBySorts(sortedHashes, AtMost());
      SameElements(SortBy(sortedHashes, AtMost()), sortedHashes);
      sortedHashes := SortBy(sortedHashes, AtMost());
    }

    method GetUpstream(key: string, ghost us: seq<UpstreamView>) returns (r: Option<nat>)
      requires Represents(us)
      ensures r.Some? ==> RoutesTo(us, hashing, hashing.hash(key), r.value)
      ensures r.None? ==> forall x: u64 :: !IsSlot(us, hashing, x)
    {
      if sortedHashes == [] {
        return None;
      }
      var hash := hashing.hash(key);
      var found := BinarySearch(sortedHashes, hash);
      SearchFindsNearest(sortedHashes, hash, found);
      var hashValue := sortedHashes[SlotIndex(sortedHashes, found)];
      r := if hashValue in ring then Some(ring[hashValue]) else None;
      assert IsSuccessor(us, hashing, hash, hashValue);
    }
  }

  /** A ring built for one reading of a list is the ring for every other that agrees in names and availability. */
  lemma RepresentsDependsOnRing(r: ConsistentHashRing, us: seq<UpstreamView>, vs: seq<UpstreamView>)
    requires SameOnRing(us, vs) && r.Represents(us)
    ensures r.Represents(vs)
  {
    var g := r.hashing;
    forall j, x: u64 ensures Claims(us, g, j, x) <==> Claims(vs, g, j, x) {
      ClaimsDependOnRing(us, vs, g, j, x);
    }
    forall x: u64 ensures IsSlot(us, g, x) <==> IsSlot(vs, g, x) {
    }
    CountDependsOnRing(us, vs);
  }
}
