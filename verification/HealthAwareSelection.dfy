/**
 * What the router's health-aware strategy selects, told from the upstreams themselves: who is eligible, how they
 * rank, and how their scores add up.
 */
module HealthAwareSelection {
  import opened Machine
  import opened Sorting
  import opened Upstreams
  import opened HashRing
  import opened HealthAware
  import opened Routing

  /** `j` ranks before `i`: it scores higher, or the same and stands earlier in the list. */
  predicate Before(us: seq<UpstreamView>, j: nat, i: nat)
    requires i < |us| && j < |us|
  {
    Score(us[j]) > Score(us[i]) || (Score(us[j]) == Score(us[i]) && j < i)
  }

  /** The scores of the eligible among the first `n` added up, those that rank after `i` left out. */
  function ScoresUpTo(us: seq<UpstreamView>, i: nat, n: nat): real
    requires i < |us| && n <= |us|
  {
    if n == 0 then 0.0
    else ScoresUpTo(us, i, n - 1) + if Eligible(us[n - 1]) && !Before(us, i, n - 1) then Score(us[n - 1]) else 0.0
  }

  /** The scores of all eligible among the first `n` added up. */
  function AllScores(us: seq<UpstreamView>, n: nat): real
    requires n <= |us|
  {
    if n == 0 then 0.0 else AllScores(us, n - 1) + if Eligible(us[n - 1]) then Score(us[n - 1]) else 0.0
  }

  function EligibleCount(us: seq<UpstreamView>, n: nat): nat
    requires n <= |us|
  {
    if n == 0 then 0 else EligibleCount(us, n - 1) + if Eligible(us[n - 1]) then 1 else 0
  }

  /** The ticket's share of the largest ticket is at most the share `part` has of `all`. */
  predicate Covers(part: real, all: real, ticket: u64) {
    ticket as real * all <= part * (TWO64 - 1) as real
  }

  /** The scores gathered from the top down to `i` cover the ticket. */
  predicate Reached(us: seq<UpstreamView>, ticket: u64, i: nat) {
    i < |us| && Eligible(us[i]) && Covers(ScoresUpTo(us, i, |us|), AllScores(us, |us|), ticket)
  }

  // ---- Adding up scores in any order ----

  function SumScores(s: seq<Candidate>, p: Candidate -> bool): real {
    if s == [] then 0.0 else (if p(s[0]) then s[0].score else 0.0) + SumScores(s[1..], p)
  }

  lemma {:induction false} InsertAddsScore(x: Candidate, s: seq<Candidate>, p: Candidate -> bool)
    ensures SumScores(Insert(x, s, HighestFirst()), p) == SumScores(s, p) + if p(x) then x.score else 0.0
  {
    if s != [] && !HighestFirst()(x, s[0]) {
      InsertAddsScore(x, s[1..], p);
      assert Insert(x, s, HighestFirst())[1..] == Insert(x, s[1..], HighestFirst());
    } else {
      assert ([x] + s)[1..] == s;
    }
  }

  lemma {:induction false} SortKeepsSum(s: seq<Candidate>, p: Candidate -> bool)
    ensures SumScores(SortBy(s, HighestFirst()), p) == SumScores(s, p)
  {
    if s != [] {
      SortKeepsSum(s[1..], p);
      InsertAddsScore(s[0], SortBy(s[1..], HighestFirst()), p);
    }
  }

  lemma {:induction false} AppendAddsScore(s: seq<Candidate>, c: Candidate, p: Candidate -> bool)
    ensures SumScores(s + [c], p) == SumScores(s, p) + if p(c) then c.score else 0.0
  {
    if s == [] {
      assert [c][1..] == [];
    } else {
      AppendAddsScore(s[1..], c, p);
      assert (s + [c])[1..] == s[1..] + [c];
    }
  }

  lemma {:induction false} NoneAddsNothing(s: seq<Candidate>, p: Candidate -> bool)
    requires forall k | 0 <= k < |s| :: !p(s[k])
    ensures SumScores(s, p) == 0.0
  {
    if s != [] {
      NoneAddsNothing(s[1..], p);
    }
  }

  lemma {:induction false} CumulativeFromFront(s: seq<Candidate>, n: nat)
    requires 0 < n <= |s|
    ensures Cumulative(s, n) == s[0].score + Cumulative(s[1..], n - 1)
  {
    if n > 1 {
      CumulativeFromFront(s, n - 1);
    }
  }

  lemma {:induction false} PrefixAddsUp(s: seq<Candidate>, q: nat, p: Candidate -> bool)
    requires q < |s| && forall k | 0 <= k < |s| :: p(s[k]) <==> k <= q
    ensures SumScores(s, p) == Cumulative(s, q + 1)
  {
    CumulativeFromFront(s, q + 1);
    if q == 0 {
      NoneAddsNothing(s[1..], p);
    } else {
      PrefixAddsUp(s[1..], q - 1, p);
    }
  }

  function ListCandidate(us: seq<UpstreamView>, i: nat): Candidate
    requires i < |us|
  {
    Candidate(i, Score(us[i]))
  }

  function NotAfter(x: Candidate): Candidate -> bool {
    (c: Candidate) => !Outranks(x, c)
  }

  function Any(): Candidate -> bool {
    (c: Candidate) => true
  }

  lemma CandidatesStep(us: seq<UpstreamView>, n: nat)
    requires n < |us|
    ensures CandidatesUpTo(us, n + 1)
         == if Eligible(us[n]) then CandidatesUpTo(us, n) + [ListCandidate(us, n)] else CandidatesUpTo(us, n)
  {
    PositiveScoreIff(us[n]);
    assert CandidatesUpTo(us, n) + [] == CandidatesUpTo(us, n);
  }

  lemma {:induction false} CandidatesAddUp(us: seq<UpstreamView>, i: nat, n: nat)
    requires i < |us| && n <= |us|
    ensures SumScores(CandidatesUpTo(us, n), NotAfter(ListCandidate(us, i))) == ScoresUpTo(us, i, n)
  {
    if n == 0 {
      assert CandidatesUpTo(us, 0) == [];
    } else {
      CandidatesAddUp(us, i, n - 1);
      CandidatesStep(us, n - 1);
      AppendAddsScore(CandidatesUpTo(us, n - 1), ListCandidate(us, n - 1), NotAfter(ListCandidate(us, i)));
    }
  }

  lemma {:induction false} AllCandidatesAddUp(us: seq<UpstreamView>, n: nat)
    requires n <= |us|
    ensures SumScores(CandidatesUpTo(us, n), Any()) == AllScores(us, n)
    ensures |CandidatesUpTo(us, n)| == EligibleCount(us, n)
  {
    if n == 0 {
      assert CandidatesUpTo(us, 0) == [];
    } else {
      AllCandidatesAddUp(us, n - 1);
      CandidatesStep(us, n - 1);
      AppendAddsScore(CandidatesUpTo(us, n - 1), ListCandidate(us, n - 1), Any());
    }
  }

  lemma RankedIsPositive(us: seq<UpstreamView>)
    requires Ranked(us) != []
    ensures PositiveScores(Ranked(us)) && Total(Ranked(us)) > 0.0
  {
    RankedMeaning(us);
    CumulativeGrows(Ranked(us), 0, |Ranked(us)|);
  }

  lemma WholeAddsUp(s: seq<Candidate>)
    ensures SumScores(s, Any()) == Total(s)
  {
    if s != [] {
      PrefixAddsUp(s, |s| - 1, Any());
    }
  }

  /** The ranked list: its sums are those of the upstreams, whatever the order. */
  lemma RankedTotals(us: seq<UpstreamView>)
    requires Ranked(us) != []
    ensures PositiveScores(Ranked(us)) && Total(Ranked(us)) == AllScores(us, |us|) > 0.0
    ensures |Ranked(us)| == EligibleCount(us, |us|)
  {
    var cs := CandidatesUpTo(us, |us|);
    RankedIsPositive(us);
    AllCandidatesAddUp(us, |us|);
    SortKeepsSum(cs, Any());
    SameElements(Ranked(us), cs);
    WholeAddsUp(Ranked(us));
  }

  lemma RankedSums(us: seq<UpstreamView>, p: nat)
    requires p < |Ranked(us)|
    ensures var i := Ranked(us)[p].index; i < |us| && Cumulative(Ranked(us), p + 1) == ScoresUpTo(us, i, |us|)
  {
    var s := Ranked(us);
    RankedMeaning(us);
    assert s[p] in s;
    var i := s[p].index;
    var notAfter := NotAfter(s[p]);
    assert s[p] == ListCandidate(us, i);
    CandidatesAddUp(us, i, |us|);
    SortKeepsSum(CandidatesUpTo(us, |us|), notAfter);
    forall k | 0 <= k < |s| ensures notAfter(s[k]) <==> k <= p {
      if k < p {
        assert Outranks(s[k], s[p]);
      } else if p < k {
        assert Outranks(s[p], s[k]);
      }
    }
    PrefixAddsUp(s, p, notAfter);
  }

  /** Every eligible upstream has its place in the ranking. */
  lemma PlaceOf(us: seq<UpstreamView>, i: nat) returns (p: nat)
    requires i < |us| && Eligible(us[i])
    ensures p < |Ranked(us)| && Ranked(us)[p] == ListCandidate(us, i)
  {
    RankedMeaning(us);
    assert ListCandidate(us, i) in Ranked(us);
    p :| 0 <= p < |Ranked(us)| && Ranked(us)[p] == ListCandidate(us, i);
  }

  /** The places follow the rank. */
  lemma PlacesFollowRank(us: seq<UpstreamView>, p: nat, q: nat)
    requires p < |Ranked(us)| && q < |Ranked(us)|
    ensures var i, j := Ranked(us)[p].index, Ranked(us)[q].index;
            && i < |us| && j < |us| && Eligible(us[i]) && Eligible(us[j])
            && (p < q <==> Before(us, i, j)) && (p == q <==> i == j)
  {
    var s := Ranked(us);
    RankedMeaning(us);
    assert s[p] in s && s[q] in s;
    if p < q {
      assert Outranks(s[p], s[q]);
    } else if q < p {
      assert Outranks(s[q], s[p]);
    }
  }

  lemma PickReachesIff(s: seq<Candidate>, ticket: u64, p: nat)
    requires PositiveScores(s) && p < |s|
    ensures PickPosition(s, ticket) <= p <==> Covers(Cumulative(s, p + 1), Total(s), ticket)
  {
    PickAtMostIff(s, ticket, p);
    CrossMultiplied(ticket as real, Total(s), Cumulative(s, p + 1) * MAX64);
  }

  lemma ReachedIff(us: seq<UpstreamView>, ticket: u64, p: nat)
    requires p < |Ranked(us)|
    ensures PickPosition(Ranked(us), ticket) <= p <==> Reached(us, ticket, Ranked(us)[p].index)
  {
    RankedTotals(us);
    RankedSums(us, p);
    PlacesFollowRank(us, p, p);
    PickReachesIff(Ranked(us), ticket, p);
  }

  lemma CrossMultiplied(x: real, t: real, y: real)
    requires t > 0.0
    ensures x <= y / t <==> x * t <= y
  {
    var z := y / t;
    assert z * t == y;
    assert x <= z <==> x * t <= z * t;
  }

  lemma SelectedPlace(us: seq<UpstreamView>, g: Hashing, ticket: u64, key: Option<string>, p: nat)
    requires p < |Ranked(us)|
    ensures Selection(HealthAware, us, g, ticket, key) == Some(Ranked(us)[p].index)
       <==> PickPosition(Ranked(us), ticket) == p
  {
    RankedPick(us, ticket);
    PlacesFollowRank(us, p, PickPosition(Ranked(us), ticket));
  }

  // ---- What is selected ----

  /**
   * The health-aware selection: the first eligible upstream in rank whose scores, gathered from the top down to it,
   * reach the ticket's share of all scores.
   */
  lemma SelectionIsFirstReached(us: seq<UpstreamView>, g: Hashing, ticket: u64, key: Option<string>, i: nat)
    ensures Selection(HealthAware, us, g, ticket, key) == Some(i)
       <==> Reached(us, ticket, i)
            && forall j | 0 <= j < |us| && Eligible(us[j]) && Before(us, j, i) :: !Reached(us, ticket, j)
  {
    RankedPick(us, ticket);
    if i < |us| && Eligible(us[i]) {
      var p := PlaceOf(us, i);
      SelectedPlace(us, g, ticket, key, p);
      ReachedIff(us, ticket, p);
      forall j | 0 <= j < |us| && Eligible(us[j]) && Before(us, j, i)
        ensures PickPosition(Ranked(us), ticket) == p ==> !Reached(us, ticket, j)
      {
        var q := PlaceOf(us, j);
        PlacesFollowRank(us, q, p);
        ReachedIff(us, ticket, q);
      }
      if PickPosition(Ranked(us), ticket) < p {
        PlacesFollowRank(us, p - 1, p);
        ReachedIff(us, ticket, p - 1);
      }
    }
  }

  /** A larger ticket never selects an upstream that ranks before. */
  lemma LaterTicketsGoDown(us: seq<UpstreamView>, g: Hashing, ticket: u64, ticket': u64, i: nat, i': nat)
    requires ticket <= ticket'
    requires Selection(HealthAware, us, g, ticket, None) == Some(i)
    requires Selection(HealthAware, us, g, ticket', None) == Some(i')
    ensures i < |us| && i' < |us| && !Before(us, i', i)
  {
    RankedPick(us, ticket);
    RankedPick(us, ticket');
    RankedTotals(us);
    PickMonotone(Ranked(us), ticket, ticket');
    PlacesFollowRank(us, PickPosition(Ranked(us), ticket'), PickPosition(Ranked(us), ticket));
  }

  /** How many of the tickets below `n` select upstream `i`. */
  ghost function TicketsFor(us: seq<UpstreamView>, g: Hashing, n: nat, i: nat): nat
    requires n <= TWO64
  {
    if n == 0 then 0
    else TicketsFor(us, g, n - 1, i) + if Selection(HealthAware, us, g, n - 1, None) == Some(i) then 1 else 0
  }

  lemma {:induction false} TicketsArePicks(us: seq<UpstreamView>, g: Hashing, n: nat, p: nat)
    requires n <= TWO64 && p < |Ranked(us)|
    ensures TicketsFor(us, g, n, Ranked(us)[p].index) == PickCount(Ranked(us), n, p)
  {
    if n > 0 {
      TicketsArePicks(us, g, n - 1, p);
      SelectedPlace(us, g, n - 1, None, p);
    }
  }

  ghost predicate IsTop(us: seq<UpstreamView>, i: nat) {
    && i < |us| && Eligible(us[i])
    && forall j | 0 <= j < |us| && Eligible(us[j]) && j != i :: Before(us, i, j)
  }

  lemma TopIsFirst(us: seq<UpstreamView>, p: nat)
    requires p < |Ranked(us)|
    ensures IsTop(us, Ranked(us)[p].index) <==> p == 0
  {
    PlacesFollowRank(us, 0, p);
    var i := Ranked(us)[p].index;
    if p == 0 {
      forall j | 0 <= j < |us| && Eligible(us[j]) && j != i ensures Before(us, i, j) {
        var q := PlaceOf(us, j);
        PlacesFollowRank(us, 0, q);
      }
    }
  }

  lemma PlaceAndShare(us: seq<UpstreamView>, g: Hashing, i: nat) returns (p: nat)
    requires i < |us| && Eligible(us[i])
    ensures p < |Ranked(us)| && PositiveScores(Ranked(us)) && Total(Ranked(us)) == AllScores(us, |us|) > 0.0
    ensures Ranked(us)[p].score == Score(us[i])
    ensures TicketsFor(us, g, TWO64, i) == PickCount(Ranked(us), TWO64, p)
    ensures IsTop(us, i) <==> p == 0
  {
    p := PlaceOf(us, i);
    RankedTotals(us);
    TicketsArePicks(us, g, TWO64, p);
    TopIsFirst(us, p);
  }

  /**
   * Of all 2^64 tickets each eligible upstream is selected by its share of the scores, off by less than one; the top
   * one has one more, the ticket zero.
   */
  lemma SelectionShares(us: seq<UpstreamView>, g: Hashing, i: nat)
    requires i < |us| && Eligible(us[i])
    ensures AllScores(us, |us|) > 0.0
    ensures var share := Score(us[i]) * (TWO64 - 1) as real / AllScores(us, |us|);
            var tickets := TicketsFor(us, g, TWO64, i) as real - if IsTop(us, i) then 1.0 else 0.0;
            share - 1.0 < tickets < share + 1.0
  {
    var p := PlaceAndShare(us, g, i);
    ShareOfTickets(Ranked(us), p);
  }

  /** With `k` eligible upstreams every ticket below 2^64 / k selects the top one. */
  lemma FirstTicketsSelectTop(us: seq<UpstreamView>, g: Hashing, ticket: u64, i: nat)
    requires IsTop(us, i) && ticket * EligibleCount(us, |us|) < TWO64
    ensures Selection(HealthAware, us, g, ticket, None) == Some(i)
  {
    var p := PlaceOf(us, i);
    RankedMeaning(us);
    RankedTotals(us);
    TopIsFirst(us, p);
    TopTakesTheFirstTickets(Ranked(us), ticket);
    SelectedPlace(us, g, ticket, None, p);
  }

  // ---- What the scores are ----

  /** The two factors besides success and weight, by health and by the average in nanoseconds. */
  function HealthFactor(h: HealthState): real {
    match h case Healthy => 1.0 case Unknown => 0.5 case Unhealthy => 0.1
  }

  function LatencyFactor(avgNs: nat): real {
    if avgNs > 1_000_000_000 then 0.5 else if avgNs > 500_000_000 then 0.7 else if avgNs > 100_000_000 then 0.9 else 1.0
  }

  /** The score spelled out: the success rate is responses per request, and one before the first request. */
  lemma ScoreValue(u: UpstreamView)
    ensures u.requests == 0 ==> Score(u) == HealthFactor(u.health) * LatencyFactor(u.avgNs) * u.weight as real
    ensures Score(u) * u.requests as real
         == HealthFactor(u.health) * LatencyFactor(u.avgNs) * u.weight as real * u.responses as real
         || u.requests == 0
  {
    var rate, h, l, w := u.SuccessRate(), HealthFactor(u.health), LatencyFactor(u.avgNs), u.weight as real;
    var ms := u.AvgResponseTimeMs();
    assert ms * 1000000.0 == u.avgNs as real;
    assert u.HealthScore() == h * rate * l;
    if u.requests > 0 {
      var n := u.requests as real;
      assert rate * n == u.responses as real;
      FactorsCommute(h, rate, l, w, n);
    }
  }

  lemma FactorsCommute(h: real, rate: real, l: real, w: real, n: real)
    ensures h * rate * l * w * n == h * l * w * (rate * n)
  {
    assert h * rate * l == h * l * rate;
    assert h * l * rate * w == h * l * w * rate;
    assert h * l * w * rate * n == h * l * w * (rate * n);
  }

  /** Upstreams alike but for their record share the score that a flawless record would have. */
  lemma SharedFullScore(u: UpstreamView, v: UpstreamView) returns (full: real)
    requires u.requests > 0 && v.requests > 0
    requires u.health == v.health && u.avgNs == v.avgNs && u.weight == v.weight
    ensures full >= 0.0 && (u.weight > 0 ==> full > 0.0)
    ensures Score(u) * u.requests as real == full * u.responses as real
    ensures Score(v) * v.requests as real == full * v.responses as real
  {
    var factor := HealthFactor(u.health) * LatencyFactor(u.avgNs);
    assert factor > 0.0;
    ProductSign(factor, u.weight as real);
    full := factor * u.weight as real;
    ScoreValue(u);
    ScoreValue(v);
  }

  lemma ProductSign(x: real, y: real)
    requires x > 0.0 && y >= 0.0
    ensures x * y >= 0.0 && (y > 0.0 ==> x * y > 0.0)
  {
  }

  lemma ProductOrder(a: nat, b: nat, c: nat, d: nat)
    ensures a * b >= c * d <==> a as real * b as real >= c as real * d as real
    ensures a * b > c * d <==> a as real * b as real > c as real * d as real
  {
    assert (a * b) as real == a as real * b as real && (c * d) as real == c as real * d as real;
  }

  /** Of two upstreams alike but for their record, the one that answers the larger part scores at least as high. */
  lemma BetterRecordScoresHigher(u: UpstreamView, v: UpstreamView)
    requires u.requests > 0 && v.requests > 0 && u.responses * v.requests >= v.responses * u.requests
    requires u.health == v.health && u.avgNs == v.avgNs && u.weight == v.weight
    ensures Score(u) >= Score(v)
    ensures u.responses * v.requests > v.responses * u.requests && u.weight > 0 ==> Score(u) > Score(v)
  {
    var full := SharedFullScore(u, v);
    LargerPartLargerScore(Score(u), Score(v), full, u.requests, v.requests, u.responses, v.responses);
  }

  lemma LargerPartLargerScore(p: real, q: real, full: real, a: nat, b: nat, x: nat, y: nat)
    requires a > 0 && b > 0 && full >= 0.0 && x * b >= y * a
    requires p * a as real == full * x as real && q * b as real == full * y as real
    ensures p >= q && (x * b > y * a && full > 0.0 ==> p > q)
  {
    ProductOrder(x, b, y, a);
    SharedFactor(p, q, a as real, b as real, full, x as real, y as real);
  }

  lemma SharedFactor(p: real, q: real, a: real, b: real, f: real, x: real, y: real)
    requires a > 0.0 && b > 0.0 && f >= 0.0 && p * a == f * x && q * b == f * y && x * b >= y * a
    ensures p >= q && (x * b > y * a && f > 0.0 ==> p > q)
  {
    var c := a * b;
    assert c > 0.0;
    assert p * c == p * a * b == f * x * b == f * (x * b);
    assert q * c == q * b * a == f * y * a == f * (y * a);
    assert f * (x * b) - f * (y * a) == f * (x * b - y * a);
    assert (p - q) * c == f * (x * b - y * a);
    assert p < q ==> (p - q) * c < 0.0;
    assert p == q ==> (p - q) * c == 0.0;
  }
}
