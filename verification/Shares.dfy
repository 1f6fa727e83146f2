/** How the selections of a router are shared out, stated on the selections themselves. */
module Shares {
  import opened Arithmetic
  import opened Machine
  import opened Upstreams
  import opened HashRing
  import opened Routing
  import RR = RoundRobin
  import LC = LeastConnections

  /** Two readings of one list that differ at most in statistics: each upstream counts with the same weight, or not. */
  ghost predicate SameWeights(us: seq<UpstreamView>, vs: seq<UpstreamView>) {
    |us| == |vs| && forall i | 0 <= i < |us| :: RR.Weight(us[i]) == RR.Weight(vs[i])
  }

  /** The expanded list depends on nothing else. */
  lemma {:induction false} ExpansionDependsOnWeights(us: seq<UpstreamView>, vs: seq<UpstreamView>, n: nat)
    requires SameWeights(us, vs) && n <= |us|
    ensures RR.ExpandUpTo(us, n) == RR.ExpandUpTo(vs, n)
  {
    if n > 0 {
      ExpansionDependsOnWeights(us, vs, n - 1);
    }
  }

  /**
   * Consecutive selections without a key that draw tickets from `start` on. Selection `k` reads the list as it then
   * is, `uss[k]`: requests and connections may be recorded between one selection and the next.
   */
  ghost function Selections(strategy: LoadBalancingStrategy, uss: seq<seq<UpstreamView>>, g: Hashing, start: u64)
    : (r: seq<Option<nat>>)
    ensures |r| == |uss|
    ensures forall k | 0 <= k < |uss| :: r[k] == Selection(strategy, uss[k], g, RR.Ticket(start, k), None)
  {
    seq(|uss|, k requires 0 <= k < |uss| => Selection(strategy, uss[k], g, RR.Ticket(start, k), None))
  }

  /** How many of the first `n` selections fall on upstream `i`. */
  function TimesSelected(selections: seq<Option<nat>>, n: nat, i: nat): nat
    requires n <= |selections|
  {
    if n == 0 then 0 else TimesSelected(selections, n - 1, i) + if selections[n - 1] == Some(i) then 1 else 0
  }

  lemma SelectionIsSlot(us: seq<UpstreamView>, vs: seq<UpstreamView>, g: Hashing, ticket: u64)
    requires SameWeights(us, vs) && RR.Expanded(us) != []
    ensures Selection(WeightedRoundRobin, vs, g, ticket, None) == Some(RR.SlotAt(RR.Expanded(us), ticket))
  {
    ExpansionDependsOnWeights(us, vs, |us|);
  }

  lemma {:induction false} SlotsArePicks(slots: seq<nat>, selections: seq<Option<nat>>, start: u64, n: nat, i: nat)
    requires slots != [] && n <= |selections|
    requires forall k | 0 <= k < n :: selections[k] == Some(RR.SlotAt(slots, RR.Ticket(start, k)))
    ensures TimesSelected(selections, n, i) == RR.Picks(slots, start, n, i)
  {
    if n > 0 {
      SlotsArePicks(slots, selections, start, n - 1, i);
    }
  }

  lemma SelectionsArePicks(us: seq<UpstreamView>, uss: seq<seq<UpstreamView>>, g: Hashing, start: u64, i: nat)
    requires RR.Expanded(us) != [] && forall k | 0 <= k < |uss| :: SameWeights(us, uss[k])
    ensures TimesSelected(Selections(WeightedRoundRobin, uss, g, start), |uss|, i)
         == RR.Picks(RR.Expanded(us), start, |uss|, i)
  {
    var slots, selections := RR.Expanded(us), Selections(WeightedRoundRobin, uss, g, start);
    forall k | 0 <= k < |uss| ensures selections[k] == Some(RR.SlotAt(slots, RR.Ticket(start, k))) {
      SelectionIsSlot(us, uss[k], g, RR.Ticket(start, k));
    }
    SlotsArePicks(slots, selections, start, |uss|, i);
  }

  /**
   * Weighted round-robin, with health and weights fixed and no wrap of the counter, but with any traffic recorded
   * between the selections: any `n` consecutive ones give upstream `i` its weight once per full round, rounded
   * down at least and rounded up at most.
   */
  lemma WeightedShare(us: seq<UpstreamView>, uss: seq<seq<UpstreamView>>, g: Hashing, start: u64, i: nat)
    requires i < |us| && start + |uss| <= TWO64 && SomeAvailable(us)
    requires forall k | 0 <= k < |uss| :: SameWeights(us, uss[k])
    ensures RR.PrefixWeight(us, |us|) > 0
    ensures var n, total := |uss|, RR.PrefixWeight(us, |us|);
            var times := TimesSelected(Selections(WeightedRoundRobin, uss, g, start), n, i);
            && n / total * RR.Weight(us[i]) <= times <= CeilDiv(n, total) * RR.Weight(us[i])
            && (n % total == 0 ==> times == n / total * RR.Weight(us[i]))
  {
    RR.ExpandedEmptyIff(us, |us|);
    RR.ExpandedLength(us, |us|);
    SelectionsArePicks(us, uss, g, start, i);
    RR.ExactShare(us, start, |uss|, i);
  }

  /** Whatever ticket they start from, these selections give every upstream exactly its weight. */
  ghost predicate AlwaysExact(us: seq<UpstreamView>, uss: seq<seq<UpstreamView>>, g: Hashing) {
    forall start: u64, i | 0 <= i < |us| ::
      TimesSelected(Selections(WeightedRoundRobin, uss, g, start), |uss|, i) == RR.Weight(us[i])
  }

  /**
   * One full round of such selections is always exact if and only if the total weight divides 2^64 or only one
   * upstream is available.
   */
  lemma RoundIsExactIff(us: seq<UpstreamView>, uss: seq<seq<UpstreamView>>, g: Hashing)
    requires SomeAvailable(us) && |uss| == RR.PrefixWeight(us, |us|) <= TWO64
    requires forall k | 0 <= k < |uss| :: SameWeights(us, uss[k])
    ensures |uss| > 0
    ensures AlwaysExact(us, uss, g) <==> TWO64 % |uss| == 0 || RR.AtMostOneAvailable(us)
  {
    RR.ExpandedEmptyIff(us, |us|);
    RR.ExpandedLength(us, |us|);
    var slots := RR.Expanded(us);
    forall start: u64, i | 0 <= i < |us|
      ensures TimesSelected(Selections(WeightedRoundRobin, uss, g, start), |uss|, i)
           == RR.Picks(slots, start, |uss|, i)
    {
      SelectionsArePicks(us, uss, g, start, i);
    }
    assert AlwaysExact(us, uss, g) <==> RR.ExactInEveryRound(us);
    RR.ExactAcrossWrapIff(us);
  }

  /** Plain round-robin makes the selections weighted round-robin makes when every weight is one. */
  lemma PlainIsWeightedByOne(us: seq<UpstreamView>, g: Hashing, ticket: u64)
    ensures Selection(RoundRobin, us, g, ticket, None)
         == Selection(WeightedRoundRobin, RR.UnitWeights(us), g, ticket, None)
  {
    RR.PlainIsUnitExpansion(us, |us|);
  }

  /** From equal loads, least-connections makes the selections plain round-robin makes from ticket zero. */
  lemma LeastConnectionsIsRoundRobin(us: seq<UpstreamView>, g: Hashing, base: nat, n: u64)
    requires SomeAvailable(us)
    requires forall i | 0 <= i < |us| && us[i].Available() :: us[i].active == base
    ensures Selection(LeastConnections, LC.ConnectTimes(us, n), g, 0, None) == Selection(RoundRobin, us, g, n, None)
  {
    AvailableIndicesMeaning(us, |us|);
    LC.RefinesRoundRobin(us, base, n);
  }

  /**
   * Without connections being counted, least-connections repeats itself: over any traffic that leaves availability
   * and connection counts alone, all its selections are the first one's.
   */
  lemma {:induction false} UncountedTrafficRepeats(uss: seq<seq<UpstreamView>>, g: Hashing, start: u64, k: nat)
    requires k < |uss| && forall i, j | 0 <= i < |uss| - 1 && j == i + 1 :: LC.SameLoads(uss[i], uss[j])
    ensures Selections(LeastConnections, uss, g, start)[k] == LC.SelectLeastConnections(uss[0])
  {
    if k > 0 {
      UncountedTrafficRepeats(uss, g, start, k - 1);
      LC.SelectionDependsOnLoads(uss[k - 1], uss[k]);
    }
  }
}
