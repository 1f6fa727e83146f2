/** Health-aware selection: candidates ranked by score, and a point on the line of scores chosen by the ticket. */
module HealthAware {
  import opened Arithmetic
  import opened Machine
  import opened Sorting
  import opened Upstreams

  const MAX64: real := (TWO64 - 1) as real

  datatype Candidate = Candidate(index: nat, score: real)

  function Score(u: UpstreamView): real {
    u.HealthScore() * u.weight as real
  }

  /** Available, of positive weight, and either never used or at least once successful. */
  predicate Eligible(u: UpstreamView) {
    u.Available() && u.weight > 0 && (u.requests == 0 || u.responses > 0)
  }

  function CandidatesUpTo(us: seq<UpstreamView>, n: nat): seq<Candidate>
    requires n <= |us|
  {
    if n == 0 then []
    else
      var u := us[n - 1];
      CandidatesUpTo(us, n - 1) + if u.Available() && Score(u) > 0.0 then [Candidate(n - 1, Score(u))] else []
  }

  function HighestFirst(): (Candidate, Candidate) -> bool {
    (a: Candidate, b: Candidate) => a.score >= b.score
  }

  function Ranked(us: seq<UpstreamView>): seq<Candidate> {
    SortBy(CandidatesUpTo(us, |us|), HighestFirst())
  }

  lemma PositiveScoreIff(u: UpstreamView)
    ensures u.Available() && Score(u) > 0.0 <==> Eligible(u)
  {
    var rate := u.SuccessRate();
    assert u.requests > 0 ==> rate * u.requests as real == u.responses as real;
    assert rate > 0.0 <==> u.requests == 0 || u.responses > 0;
    assert rate >= 0.0;
    var ms := u.AvgResponseTimeMs();
    var latency := if ms > 1000.0 then 0.5 else if ms > 500.0 then 0.7 else if ms > 100.0 then 0.9 else 1.0;
    var base := match u.health case Healthy => 1.0 case Unknown => 0.5 case Unhealthy => 0.1;
    var health := base * rate * latency;
    assert health == u.HealthScore();
    assert health > 0.0 <==> rate > 0.0;
    if rate == 0.0 {
      assert Score(u) == 0.0;
    } else if u.weight > 0 {
      assert Score(u) > 0.0;
    }
  }

  /** The score's promised range, for statistics in which responses are answers to requests. */
  lemma HealthScoreInRange(u: UpstreamView)
    requires u.responses <= u.requests
    ensures 0.0 <= u.HealthScore() <= 1.0
  {
    if u.requests > 0 {
      Ratio(u.responses, u.requests);
    }
    ScoreFactors(u);
    ScaledOrder(1.0, Factor(u), u.SuccessRate());
    ScaledOrder(Factor(u), 0.0, u.SuccessRate());
  }

  function HealthRank(h: HealthState): nat {
    match h case Healthy => 2 case Unknown => 1 case Unhealthy => 0
  }

  /** Of two upstreams with the same success rate, the healthier and faster one never scores lower. */
  lemma HealthScoreMonotone(u: UpstreamView, v: UpstreamView)
    requires u.requests == v.requests && u.responses == v.responses
    requires HealthRank(u.health) >= HealthRank(v.health) && u.avgNs <= v.avgNs
    ensures u.HealthScore() >= v.HealthScore()
    ensures HealthRank(u.health) > HealthRank(v.health) && u.SuccessRate() > 0.0 && u.avgNs == v.avgNs ==>
              u.HealthScore() > v.HealthScore()
  {
    ScoreFactors(u);
    ScoreFactors(v);
    assert u.SuccessRate() == v.SuccessRate();
    ScaledOrder(Factor(u), Factor(v), u.SuccessRate());
  }

  /** The factor besides the success rate, in one number. */
  function Factor(u: UpstreamView): real {
    var base := match u.health case Healthy => 1.0 case Unknown => 0.5 case Unhealthy => 0.1;
    var ms := u.AvgResponseTimeMs();
    if ms > 1000.0 then base * 0.5 else if ms > 500.0 then base * 0.7 else if ms > 100.0 then base * 0.9 else base
  }

  lemma ScoreFactors(u: UpstreamView)
    ensures u.HealthScore() == Factor(u) * u.SuccessRate()
    ensures 0.0 < Factor(u) <= 1.0
    ensures u.SuccessRate() >= 0.0
  {
    RateNotNegative(u);
    var rate := u.SuccessRate();
    var base := match u.health case Healthy => 1.0 case Unknown => 0.5 case Unhealthy => 0.1;
    var ms := u.AvgResponseTimeMs();
    var latency := if ms > 1000.0 then 0.5 else if ms > 500.0 then 0.7 else if ms > 100.0 then 0.9 else 1.0;
    assert base * rate * latency == base * latency * rate;
    assert Factor(u) == base * latency;
  }

  lemma RateNotNegative(u: UpstreamView)
    ensures u.SuccessRate() >= 0.0
  {
    if u.requests > 0 {
      assert u.SuccessRate() * u.requests as real == u.responses as real;
    }
  }

  lemma ScaledOrder(f: real, g: real, rate: real)
    requires f >= g && rate >= 0.0
    ensures f * rate >= g * rate
    ensures f > g && rate > 0.0 ==> f * rate > g * rate
  {
    assert f * rate - g * rate == (f - g) * rate;
  }

  lemma {:induction false} CandidatesAreEligible(us: seq<UpstreamView>, n: nat, c: Candidate)
    requires n <= |us|
    ensures c in CandidatesUpTo(us, n) <==> c.index < n && Eligible(us[c.index]) && c.score == Score(us[c.index])
  {
    if n > 0 {
      CandidatesAreEligible(us, n - 1, c);
      PositiveScoreIff(us[n - 1]);
    }
  }

  lemma {:induction false} CandidatesInListOrder(us: seq<UpstreamView>, n: nat)
    requires n <= |us|
    ensures forall i, j | 0 <= i < j < |CandidatesUpTo(us, n)| ::
              CandidatesUpTo(us, n)[i].index < CandidatesUpTo(us, n)[j].index
    ensures forall i | 0 <= i < |CandidatesUpTo(us, n)| :: CandidatesUpTo(us, n)[i].index < n
  {
    if n > 0 {
      CandidatesInListOrder(us, n - 1);
    }
  }

  /** Higher scores first, and equal scores in list order. */
  predicate Outranks(a: Candidate, b: Candidate) {
    a.score > b.score || (a.score == b.score && a.index < b.index)
  }

  ghost predicate InRankOrder(s: seq<Candidate>) {
    forall i, j | 0 <= i < j < |s| :: Outranks(s[i], s[j])
  }

  lemma {:induction false} InsertKeepsRankOrder(x: Candidate, s: seq<Candidate>)
    requires InRankOrder(s) && forall y | y in s :: x.index < y.index
    ensures InRankOrder(Insert(x, s, HighestFirst()))
  {
    if s != [] && !HighestFirst()(x, s[0]) {
      var rest := Insert(x, s[1..], HighestFirst());
      InsertKeepsRankOrder(x, s[1..]);
      forall y | y in rest ensures Outranks(s[0], y) {
        assert y in multiset(rest);
        assert y == x || y in s[1..];
      }
      assert Insert(x, s, HighestFirst()) == [s[0]] + rest;
    }
  }

  lemma {:induction false} StableSortRanks(s: seq<Candidate>)
    requires forall i, j | 0 <= i < j < |s| :: s[i].index < s[j].index
    ensures InRankOrder(SortBy(s, HighestFirst()))
  {
    if s != [] {
      StableSortRanks(s[1..]);
      SameElements(SortBy(s[1..], HighestFirst()), s[1..]);
      InsertKeepsRankOrder(s[0], SortBy(s[1..], HighestFirst()));
    }
  }

  /** The ranking holds exactly the eligible upstreams, highest score first and ties in list order. */
  lemma RankedMeaning(us: seq<UpstreamView>)
    ensures InRankOrder(Ranked(us))
    ensures forall c :: c in Ranked(us) <==> c.index < |us| && Eligible(us[c.index]) && c.score == Score(us[c.index])
    ensures forall c | c in Ranked(us) :: c.score > 0.0
    ensures Ranked(us) == [] <==> forall i | 0 <= i < |us| :: !Eligible(us[i])
  {
    var s := CandidatesUpTo(us, |us|);
    CandidatesInListOrder(us, |us|);
    StableSortRanks(s);
    SameElements(Ranked(us), s);
    forall c
      ensures c in Ranked(us) <==> c.index < |us| && Eligible(us[c.index]) && c.score == Score(us[c.index])
      ensures c in Ranked(us) ==> c.score > 0.0
    {
      CandidatesAreEligible(us, |us|, c);
      if c in Ranked(us) {
        PositiveScoreIff(us[c.index]);
      }
    }
    if i :| 0 <= i < |us| && Eligible(us[i]) {
      assert Candidate(i, Score(us[i])) in Ranked(us);
    } else if Ranked(us) != [] {
      assert Ranked(us)[0] in Ranked(us);
    }
  }

  // ---- The choice along the line of scores ----

  /** The sum of the first `n` scores. */
  function Cumulative(s: seq<Candidate>, n: nat): real
    requires n <= |s|
  {
    if n == 0 then 0.0 else Cumulative(s, n - 1) + s[n - 1].score
  }

  function Total(s: seq<Candidate>): real {
    Cumulative(s, |s|)
  }

  /** The point a ticket stands for: its share of the largest ticket, as a share of the total score. */
  function Target(s: seq<Candidate>, ticket: u64): real {
    ticket as real / MAX64 * Total(s)
  }

  /** The first position from `n` on whose cumulative score reaches the target; past the end, the first candidate. */
  function FirstReaching(s: seq<Candidate>, target: real, n: nat): nat
    requires n <= |s|
    decreases |s| - n
  {
    if n == |s| then 0
    else if target <= Cumulative(s, n + 1) then n
    else FirstReaching(s, target, n + 1)
  }

  function PickPosition(s: seq<Candidate>, ticket: u64): nat {
    FirstReaching(s, Target(s, ticket), 0)
  }

  method PickByScore(s: seq<Candidate>, ticket: u64) returns (p: nat)
    ensures p == PickPosition(s, ticket)
  {
    var total := 0.0;
    for k := 0 to |s|
      invariant total == Cumulative(s, k)
    {
      total := total + s[k].score;
    }
    var randomValue := ticket as real / MAX64 * total;
    p := 0;
    while p < |s|
      invariant 0 <= p <= |s|
      invariant randomValue == Target(s, ticket) - Cumulative(s, p)
      invariant FirstReaching(s, Target(s, ticket), 0) == FirstReaching(s, Target(s, ticket), p)
    {
      randomValue := randomValue - s[p].score;
      if randomValue <= 0.0 {
        return;
      }
      p := p + 1;
    }
    p := 0;
  }

  ghost predicate PositiveScores(s: seq<Candidate>) {
    s != [] && forall c | c in s :: c.score > 0.0
  }

  lemma {:induction false} CumulativeGrows(s: seq<Candidate>, m: nat, n: nat)
    requires PositiveScores(s) && m <= n <= |s|
    ensures Cumulative(s, m) <= Cumulative(s, n)
    ensures m < n ==> Cumulative(s, m) < Cumulative(s, n)
  {
    if m < n {
      CumulativeGrows(s, m, n - 1);
      assert s[n - 1] in s;
    }
  }

  /** How far the tickets of positions up to `p` extend. */
  function Bound(s: seq<Candidate>, p: nat): real
    requires p < |s| && Total(s) > 0.0
  {
    Cumulative(s, p + 1) * MAX64 / Total(s)
  }

  /** A ticket reaches a cumulative score exactly up to its bound. */
  lemma TargetReachedIff(s: seq<Candidate>, ticket: u64, p: nat)
    requires p < |s| && Total(s) > 0.0
    ensures Target(s, ticket) <= Cumulative(s, p + 1) <==> ticket as real <= Bound(s, p)
  {
    ScaleIff(ticket as real, Total(s), Cumulative(s, p + 1));
  }

  lemma ScaleIff(x: real, t: real, c: real)
    requires t > 0.0
    ensures x / MAX64 * t <= c <==> x <= c * MAX64 / t
  {
    var y := x / MAX64;
    var z := c / t;
    assert z * t == c;
    assert c * MAX64 / t == z * MAX64;
    assert y * t <= z * t <==> y <= z;
  }

  /** What the first-reaching search finds, when anything from `n` on reaches the target. */
  lemma {:induction false} FirstReachingMeaning(s: seq<Candidate>, target: real, n: nat)
    requires n < |s| && target <= Total(s)
    ensures var p := FirstReaching(s, target, n);
            && n <= p < |s| && target <= Cumulative(s, p + 1)
            && forall q | n < q <= p :: Cumulative(s, q) < target
    decreases |s| - n
  {
    if Cumulative(s, n + 1) < target {
      FirstReachingMeaning(s, target, n + 1);
    }
  }

  /** Every ticket picks the first candidate whose cumulative score reaches its target: the fallback never applies. */
  lemma PickMeaning(s: seq<Candidate>, ticket: u64)
    requires PositiveScores(s)
    ensures Total(s) > 0.0
    ensures var p := PickPosition(s, ticket);
            && p < |s| && Target(s, ticket) <= Cumulative(s, p + 1)
            && forall q | 0 < q <= p :: Cumulative(s, q) < Target(s, ticket)
  {
    CumulativeGrows(s, 0, |s|);
    ScaleIff(ticket as real, Total(s), Total(s));
    assert Total(s) * MAX64 / Total(s) == MAX64;
    FirstReachingMeaning(s, Target(s, ticket), 0);
  }

  /** The picked position is at most `p` exactly for the tickets up to the bound of `p`. */
  lemma PickAtMostIff(s: seq<Candidate>, ticket: u64, p: nat)
    requires PositiveScores(s) && p < |s|
    ensures Total(s) > 0.0
    ensures PickPosition(s, ticket) <= p <==> ticket as real <= Bound(s, p)
  {
    PickMeaning(s, ticket);
    TargetReachedIff(s, ticket, p);
    var q := PickPosition(s, ticket);
    if q <= p {
      CumulativeGrows(s, q + 1, p + 1);
    }
  }

  /** Later tickets never pick a higher-ranked candidate. */
  lemma PickMonotone(s: seq<Candidate>, ticket: u64, ticket': u64)
    requires PositiveScores(s) && ticket <= ticket'
    ensures PickPosition(s, ticket) <= PickPosition(s, ticket')
  {
    PickMeaning(s, ticket');
    PickAtMostIff(s, ticket, PickPosition(s, ticket'));
    PickAtMostIff(s, ticket', PickPosition(s, ticket'));
  }

  // ---- Shares over the whole range of tickets ----

  /** How many of the tickets below `n` pick position `p`. */
  function PickCount(s: seq<Candidate>, n: nat, p: nat): nat
    requires n <= TWO64
  {
    if n == 0 then 0 else PickCount(s, n - 1, p) + if PickPosition(s, n - 1) == p then 1 else 0
  }

  /** How many of the tickets below `n` are at most `b`. */
  function CountAtMost(n: nat, b: real): nat {
    if n == 0 then 0 else CountAtMost(n - 1, b) + if (n - 1) as real <= b then 1 else 0
  }

  lemma {:induction false} CountAtMostIsFloor(n: nat, b: real)
    requires b >= 0.0
    ensures CountAtMost(n, b) == if n <= b.Floor + 1 then n else b.Floor + 1
  {
    if n > 0 {
      CountAtMostIsFloor(n - 1, b);
      assert (n - 1) as real <= b <==> n - 1 <= b.Floor;
    }
  }

  lemma {:induction false} PickCountIsDifference(s: seq<Candidate>, n: nat, p: nat)
    requires PositiveScores(s) && n <= TWO64 && p < |s|
    ensures Total(s) > 0.0
    ensures PickCount(s, n, p) == CountAtMost(n, Bound(s, p)) - if p == 0 then 0 else CountAtMost(n, Bound(s, p - 1))
  {
    PickMeaning(s, 0);
    if n > 0 {
      PickCountIsDifference(s, n - 1, p);
      PickAtMostIff(s, n - 1, p);
      if p > 0 {
        PickAtMostIff(s, n - 1, p - 1);
      }
    }
  }

  lemma RatioInRange(x: real, t: real)
    requires 0.0 <= x <= t && t > 0.0
    ensures 0.0 <= x / t <= 1.0
  {
    var y := x / t;
    assert y * t == x;
    assert y < 0.0 ==> y * t < 0.0;
    assert y > 1.0 ==> y * t > t;
  }

  lemma RatioScales(x: real, m: real, t: real)
    requires t > 0.0
    ensures x * m / t == x / t * m
  {
    var y := x / t;
    assert y * t == x;
    assert x * m == y * m * t;
  }

  lemma RatioAdds(x: real, y: real, t: real)
    requires t > 0.0
    ensures (x + y) / t == x / t + y / t
  {
  }

  lemma BoundRange(s: seq<Candidate>, p: nat)
    requires PositiveScores(s) && p < |s| && Total(s) > 0.0
    ensures 0.0 <= Bound(s, p) <= MAX64
    ensures Bound(s, p) - (if p == 0 then 0.0 else Bound(s, p - 1)) == s[p].score * MAX64 / Total(s)
  {
    var t := Total(s);
    CumulativeGrows(s, 0, p);
    CumulativeGrows(s, 0, p + 1);
    CumulativeGrows(s, p + 1, |s|);
    assert s[p] in s;
    var a, b, c := Cumulative(s, p + 1), Cumulative(s, p), s[p].score;
    RatioInRange(a, t);
    RatioScales(a, MAX64, t);
    RatioScales(b, MAX64, t);
    RatioScales(c, MAX64, t);
    RatioAdds(b, c, t);
  }

  /**
   * Over the whole range of tickets each candidate is picked its share of the score, off by less than one;
   * the top candidate has one more, the ticket zero.
   */
  lemma ShareOfTickets(s: seq<Candidate>, p: nat)
    requires PositiveScores(s) && p < |s|
    ensures Total(s) > 0.0
    ensures var share := s[p].score * MAX64 / Total(s);
            var picks := PickCount(s, TWO64, p) as real - if p == 0 then 1.0 else 0.0;
            share - 1.0 < picks < share + 1.0
  {
    PickMeaning(s, 0);
    PickCountIsDifference(s, TWO64, p);
    BoundRange(s, p);
    CountAtMostIsFloor(TWO64, Bound(s, p));
    if p > 0 {
      BoundRange(s, p - 1);
      CountAtMostIsFloor(TWO64, Bound(s, p - 1));
    }
  }

  // ---- What the counter, starting at zero, really does ----

  lemma {:induction false} TopIsLargest(s: seq<Candidate>, n: nat)
    requires PositiveScores(s) && InRankOrder(s) && n <= |s|
    ensures Cumulative(s, n) <= n as real * s[0].score
  {
    if n > 0 {
      TopIsLargest(s, n - 1);
      assert n > 1 ==> Outranks(s[0], s[n - 1]);
      assert n as real * s[0].score == (n - 1) as real * s[0].score + s[0].score;
    }
  }

  lemma ShareBound(x: real, k: real, top: real, total: real)
    requires 0.0 <= x && x * k <= MAX64 && k > 0.0 && top > 0.0 && 0.0 < total <= k * top
    ensures x <= top * MAX64 / total
  {
    var b := top * MAX64 / total;
    assert b * total == top * MAX64;
    assert x * total <= x * (k * top);
    assert x * (k * top) == (x * k) * top;
    assert (x * k) * top <= MAX64 * top;
    assert x * total <= b * total;
    assert x > b ==> x * total > b * total;
  }

  /**
   * The counter only moves by one per selection, so the first 2^64 / k selections among k candidates all take the
   * top one: no ticket small enough ever reaches the others.
   */
  lemma TopTakesTheFirstTickets(s: seq<Candidate>, ticket: u64)
    requires PositiveScores(s) && InRankOrder(s)
    requires ticket * |s| < TWO64
    ensures PickPosition(s, ticket) == 0
  {
    PickAtMostIff(s, ticket, 0);
    TopIsLargest(s, |s|);
    assert s[0] in s;
    assert (ticket * |s|) as real == ticket as real * |s| as real;
    ShareBound(ticket as real, |s| as real, s[0].score, Total(s));
    assert Cumulative(s, 1) == s[0].score;
  }
}
