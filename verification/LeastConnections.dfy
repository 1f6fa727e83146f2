/** Least-connections selection, how evenly it loads the upstreams, and its agreement with round-robin. */
module LeastConnections {
  import opened Arithmetic
  import opened Machine
  import opened Runs
  import opened Upstreams
  import opened RoundRobin

  /** Available with the fewest connections, and before every other such upstream. */
  ghost predicate IsFirstLeast(us: seq<UpstreamView>, i: nat) {
    && i < |us| && us[i].Available()
    && forall j | 0 <= j < |us| && us[j].Available() ::
         us[i].active <= us[j].active && (j < i ==> us[i].active < us[j].active)
  }

  /** `min_by_key` over the first `n`: a later upstream replaces an earlier one only when strictly smaller. */
  function LeastUpTo(us: seq<UpstreamView>, n: nat): (r: Option<nat>)
    requires n <= |us|
    ensures r.None? <==> forall j | 0 <= j < n :: !us[j].Available()
    ensures r.Some? ==> r.value < n && IsFirstLeast(us[..n], r.value)
  {
    if n == 0 then None
    else
      var best := LeastUpTo(us, n - 1);
      if !us[n - 1].Available() then best
      else if best.Some? && us[best.value].active <= us[n - 1].active then best
      else Some(n - 1)
  }

  function SelectLeastConnections(us: seq<UpstreamView>): (r: Option<nat>)
    ensures r.None? <==> forall j | 0 <= j < |us| :: !us[j].Available()
    ensures r.Some? ==> IsFirstLeast(us, r.value)
  {
    assert us[..|us|] == us;
    LeastUpTo(us, |us|)
  }

  lemma FirstLeastIsSelected(us: seq<UpstreamView>, i: nat)
    requires IsFirstLeast(us, i)
    ensures SelectLeastConnections(us) == Some(i)
  {
    var j := SelectLeastConnections(us).value;
    assert us[i].active <= us[j].active <= us[i].active;
  }

  /** Two readings with the same availability and the same connection counts. */
  ghost predicate SameLoads(us: seq<UpstreamView>, vs: seq<UpstreamView>) {
    && |us| == |vs|
    && forall i | 0 <= i < |us| :: us[i].Available() == vs[i].Available() && us[i].active == vs[i].active
  }

  lemma SelectionDependsOnLoads(us: seq<UpstreamView>, vs: seq<UpstreamView>)
    requires SameLoads(us, vs)
    ensures SelectLeastConnections(us) == SelectLeastConnections(vs)
  {
    var i := SelectLeastConnections(us);
    if i.Some? {
      FirstLeastIsSelected(vs, i.value);
    }
  }

  /** One selection followed by its `increment_connections`. */
  function Connect(us: seq<UpstreamView>): (r: seq<UpstreamView>)
    ensures |r| == |us|
  {
    match SelectLeastConnections(us)
    case None => us
    case Some(i) => us[i := us[i].(active := us[i].active + 1)]
  }

  function ConnectTimes(us: seq<UpstreamView>, n: nat): (r: seq<UpstreamView>)
    ensures |r| == |us|
  {
    if n == 0 then us else Connect(ConnectTimes(us, n - 1))
  }

  /** No two available upstreams differ by more than `d` connections. */
  ghost predicate GapAtMost(us: seq<UpstreamView>, d: nat) {
    forall i, j | 0 <= i < |us| && 0 <= j < |us| && us[i].Available() && us[j].Available() ::
      us[i].active <= us[j].active + d
  }

  /**
   * However many connections are opened one at a time, each counted before the next is selected, the gap never
   * exceeds the larger of its starting value and one. LeastConnectionsRaces has the bound for connections side by side.
   */
  lemma {:induction false} GapStaysBounded(us: seq<UpstreamView>, d: nat, n: nat)
    requires GapAtMost(us, d)
    ensures GapAtMost(ConnectTimes(us, n), Max(d, 1))
  {
    if n > 0 {
      GapStaysBounded(us, d, n - 1);
      var before, after := ConnectTimes(us, n - 1), ConnectTimes(us, n);
      forall i, j | 0 <= i < |us| && 0 <= j < |us| && after[i].Available() && after[j].Available()
        ensures after[i].active <= after[j].active + Max(d, 1)
      {
        assert before[i].active <= before[j].active + Max(d, 1);
      }
    }
  }

  /** How many available upstreams come before position `i`. */
  function Rank(us: seq<UpstreamView>, i: nat): nat
    requires i <= |us|
  {
    |AvailableUpTo(us, i)|
  }

  lemma {:induction false} RankMonotone(us: seq<UpstreamView>, i: nat, j: nat)
    requires i <= j <= |us|
    ensures Rank(us, i) <= Rank(us, j)
    ensures i < j && us[i].Available() ==> Rank(us, i) < Rank(us, j)
  {
    if i < j {
      RankMonotone(us, i, j - 1);
    }
  }

  /** Rank and the list of available positions are inverse to each other. */
  lemma {:induction false} RankAt(us: seq<UpstreamView>, n: nat, p: nat)
    requires n <= |us| && p < |AvailableUpTo(us, n)|
    ensures var i := AvailableUpTo(us, n)[p]; i < n && us[i].Available() && Rank(us, i) == p
  {
    if p < |AvailableUpTo(us, n - 1)| {
      RankAt(us, n - 1, p);
    }
  }

  /** After `n` connections from an even load, the first `n mod k` available upstreams have one more than the rest. */
  ghost predicate EvenlyLoaded(us: seq<UpstreamView>, now: seq<UpstreamView>, base: nat, n: nat) {
    var k := Rank(us, |us|);
    && |now| == |us| && k > 0
    && (forall i | 0 <= i < |us| :: now[i].Available() == us[i].Available())
    && forall i | 0 <= i < |us| && us[i].Available() ::
         now[i].active == base + n / k + if Rank(us, i) < n % k then 1 else 0
  }

  lemma EvenLoadSelects(us: seq<UpstreamView>, now: seq<UpstreamView>, base: nat, n: nat)
    requires EvenlyLoaded(us, now, base, n)
    ensures SelectLeastConnections(now) == Some(AvailableIndices(us)[n % Rank(us, |us|)])
  {
    var k := Rank(us, |us|);
    var i := AvailableIndices(us)[n % k];
    RankAt(us, |us|, n % k);
    forall j | 0 <= j < |us| && us[j].Available()
      ensures now[i].active <= now[j].active && (j < i ==> now[i].active < now[j].active)
    {
      if j < i {
        RankMonotone(us, j, i);
      }
    }
    FirstLeastIsSelected(now, i);
  }

  lemma NextTicket(n: nat, k: nat)
    requires k > 0
    ensures if n % k + 1 < k then (n + 1) / k == n / k && (n + 1) % k == n % k + 1
            else (n + 1) / k == n / k + 1 && (n + 1) % k == 0
  {
    assert (n / k + 1) * k == n / k * k + k;
    if n % k + 1 < k {
      DivModUnique(n + 1, k, n / k, n % k + 1);
    } else {
      DivModUnique(n + 1, k, n / k + 1, 0);
    }
  }

  /** Ranks tell available upstreams apart. */
  lemma RankInjective(us: seq<UpstreamView>, i: nat, j: nat)
    requires i < |us| && j < |us| && us[i].Available() && us[j].Available()
    ensures Rank(us, i) == Rank(us, j) <==> i == j
    ensures Rank(us, i) < Rank(us, |us|)
  {
    RankMonotone(us, i, |us|);
    if i < j {
      RankMonotone(us, i, j);
    } else if j < i {
      RankMonotone(us, j, i);
    }
  }

  lemma EvenLoadStep(us: seq<UpstreamView>, now: seq<UpstreamView>, base: nat, n: nat)
    requires EvenlyLoaded(us, now, base, n)
    ensures EvenlyLoaded(us, Connect(now), base, n + 1)
  {
    var k := Rank(us, |us|);
    var p := n % k;
    var picked := AvailableIndices(us)[p];
    EvenLoadSelects(us, now, base, n);
    RankAt(us, |us|, p);
    var next := now[picked := now[picked].(active := now[picked].active + 1)];
    assert Connect(now) == next;
    NextTicket(n, k);
    forall i | 0 <= i < |us| && us[i].Available()
      ensures next[i].active == base + (n + 1) / k + if Rank(us, i) < (n + 1) % k then 1 else 0
    {
      RankInjective(us, i, picked);
    }
  }

  lemma EvenAtStart(us: seq<UpstreamView>, base: nat)
    requires AvailableIndices(us) != []
    requires forall i | 0 <= i < |us| && us[i].Available() :: us[i].active == base
    ensures EvenlyLoaded(us, us, base, 0)
  {
    SmallDivMod(0, Rank(us, |us|));
  }

  lemma EvenAfter(us: seq<UpstreamView>, base: nat, n: nat)
    requires EvenlyLoaded(us, ConnectTimes(us, n), base, n)
    ensures EvenlyLoaded(us, ConnectTimes(us, n + 1), base, n + 1)
  {
    var now := ConnectTimes(us, n);
    EvenLoadStep(us, now, base, n);
    assert ConnectTimes(us, n + 1) == Connect(now);
  }

  lemma EvenLoadHolds(us: seq<UpstreamView>, base: nat, n: nat)
    requires EvenlyLoaded(us, us, base, 0)
    ensures EvenlyLoaded(us, ConnectTimes(us, n), base, n)
  {
    var even := (k: nat) => EvenlyLoaded(us, ConnectTimes(us, k), base, k);
    assert even(0) by {
      assert ConnectTimes(us, 0) == us;
    }
    forall k: nat | even(k) ensures even(k + 1) {
      EvenAfter(us, base, k);
    }
    HoldsForAll(even, n);
  }

  /**
   * From an even load, pick number `n` is the upstream plain round-robin takes for ticket `n`, and the
   * connections are spread as evenly as their number allows.
   */
  lemma RefinesRoundRobin(us: seq<UpstreamView>, base: nat, n: nat)
    requires AvailableIndices(us) != []
    requires forall i | 0 <= i < |us| && us[i].Available() :: us[i].active == base
    ensures EvenlyLoaded(us, ConnectTimes(us, n), base, n)
    ensures SelectLeastConnections(ConnectTimes(us, n)) == Some(SlotAt(AvailableIndices(us), n))
  {
    EvenAtStart(us, base);
    EvenLoadHolds(us, base, n);
    EvenLoadSelects(us, ConnectTimes(us, n), base, n);
  }
}
