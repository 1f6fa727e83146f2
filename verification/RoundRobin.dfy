/** Round-robin and weighted round-robin: which upstream each ticket of the shared counter stands for. */
module RoundRobin {
  import opened Arithmetic
  import opened Machine
  import opened Upstreams

  /** The positions of the available upstreams among the first `n`, in order. */
  function AvailableUpTo(us: seq<UpstreamView>, n: nat): seq<nat>
    requires n <= |us|
  {
    if n == 0 then [] else AvailableUpTo(us, n - 1) + if us[n - 1].Available() then [n - 1] else []
  }

  function AvailableIndices(us: seq<UpstreamView>): seq<nat> {
    AvailableUpTo(us, |us|)
  }

  /** A weight counts as at least one; an unavailable upstream has no share. */
  function Weight(u: UpstreamView): nat {
    if u.Available() then Max(u.weight, 1) else 0
  }

  function Repeat(x: nat, n: nat): (r: seq<nat>)
    ensures |r| == n && forall k | 0 <= k < n :: r[k] == x
  {
    seq(n, _ => x)
  }

  /** The expanded list: every available position repeated by its weight. */
  function ExpandUpTo(us: seq<UpstreamView>, n: nat): seq<nat>
    requires n <= |us|
  {
    if n == 0 then [] else ExpandUpTo(us, n - 1) + Repeat(n - 1, Weight(us[n - 1]))
  }

  function Expanded(us: seq<UpstreamView>): seq<nat> {
    ExpandUpTo(us, |us|)
  }

  /** The total weight of the first `n` upstreams. */
  function PrefixWeight(us: seq<UpstreamView>, n: nat): nat
    requires n <= |us|
  {
    if n == 0 then 0 else PrefixWeight(us, n - 1) + Weight(us[n - 1])
  }

  lemma {:induction false} PrefixWeightMonotone(us: seq<UpstreamView>, m: nat, n: nat)
    requires m <= n <= |us|
    ensures PrefixWeight(us, m) <= PrefixWeight(us, n)
  {
    if m < n {
      PrefixWeightMonotone(us, m, n - 1);
    }
  }

  /** The expanded list agrees with choosing by prefix sums of the weights. */
  lemma {:induction false} ExpandedIsPrefixSumChoice(us: seq<UpstreamView>, n: nat, r: nat, i: nat)
    requires n <= |us| && i < n && r < PrefixWeight(us, n)
    ensures |ExpandUpTo(us, n)| == PrefixWeight(us, n)
    ensures ExpandUpTo(us, n)[r] == i <==> PrefixWeight(us, i) <= r < PrefixWeight(us, i + 1)
  {
    ExpandedLength(us, n);
    ExpandedLength(us, n - 1);
    if r < PrefixWeight(us, n - 1) {
      EarlierEntryStays(us, n, r);
      if i < n - 1 {
        ExpandedIsPrefixSumChoice(us, n - 1, r, i);
      }
    } else {
      LastBlock(us, n, r);
      if i < n - 1 {
        PrefixWeightMonotone(us, i + 1, n - 1);
      }
    }
  }

  /** One more upstream leaves the entries so far, and those name upstreams before it. */
  lemma EarlierEntryStays(us: seq<UpstreamView>, n: nat, r: nat)
    requires 0 < n <= |us| && r < |ExpandUpTo(us, n - 1)|
    ensures r < |ExpandUpTo(us, n)| && ExpandUpTo(us, n)[r] == ExpandUpTo(us, n - 1)[r] < n - 1
  {
    ExpandedInRange(us, n - 1);
  }

  lemma LastBlock(us: seq<UpstreamView>, n: nat, r: nat)
    requires 0 < n <= |us| && |ExpandUpTo(us, n - 1)| <= r < |ExpandUpTo(us, n)|
    ensures ExpandUpTo(us, n)[r] == n - 1
  {
  }

  lemma {:induction false} ExpandedLength(us: seq<UpstreamView>, n: nat)
    requires n <= |us|
    ensures |ExpandUpTo(us, n)| == PrefixWeight(us, n)
  {
    if n > 0 {
      ExpandedLength(us, n - 1);
    }
  }

  lemma {:induction false} ExpandedInRange(us: seq<UpstreamView>, n: nat)
    requires n <= |us|
    ensures forall r | 0 <= r < |ExpandUpTo(us, n)| :: ExpandUpTo(us, n)[r] < n && us[ExpandUpTo(us, n)[r]].Available()
  {
    if n > 0 {
      ExpandedInRange(us, n - 1);
    }
  }

  lemma {:induction false} ExpandedEmptyIff(us: seq<UpstreamView>, n: nat)
    requires n <= |us|
    ensures |ExpandUpTo(us, n)| == 0 <==> forall i | 0 <= i < n :: !us[i].Available()
  {
    if n > 0 {
      ExpandedEmptyIff(us, n - 1);
      assert |ExpandUpTo(us, n)| == |ExpandUpTo(us, n - 1)| + Weight(us[n - 1]);
    }
  }

  /** The same list with every weight set to one, on which weighted and plain round-robin agree. */
  function UnitWeights(us: seq<UpstreamView>): (r: seq<UpstreamView>)
    ensures |r| == |us| && forall i | 0 <= i < |us| :: r[i] == us[i].(weight := 1)
  {
    seq(|us|, i requires 0 <= i < |us| => us[i].(weight := 1))
  }

  lemma {:induction false} PlainIsUnitExpansion(us: seq<UpstreamView>, n: nat)
    requires n <= |us|
    ensures AvailableUpTo(us, n) == ExpandUpTo(UnitWeights(us), n)
  {
    if n > 0 {
      PlainIsUnitExpansion(us, n - 1);
    }
  }

  // ---- Shares over windows of tickets ----

  /** The `k`-th counter value drawn when the counter stood at `start`: it wraps at 64 bits. */
  function Ticket(start: u64, k: nat): u64 {
    WrapAdd(start, k)
  }

  /** The list entry a ticket stands for. */
  function SlotAt(slots: seq<nat>, ticket: nat): nat
    requires slots != []
  {
    slots[ticket % |slots|]
  }

  /** How many of the next `n` tickets fall on upstream `i`. */
  function Picks(slots: seq<nat>, start: u64, n: nat, i: nat): nat
    requires slots != []
  {
    if n == 0 then 0
    else Picks(slots, start, n - 1, i) + if SlotAt(slots, Ticket(start, n - 1)) == i then 1 else 0
  }

  /** How many of the first `n` list entries are `i`. */
  function Occurrences(slots: seq<nat>, n: nat, i: nat): nat
    requires n <= |slots|
  {
    if n == 0 then 0 else Occurrences(slots, n - 1, i) + if slots[n - 1] == i then 1 else 0
  }

  lemma {:induction false} OccurrencesInExpansion(us: seq<UpstreamView>, n: nat, m: nat, i: nat)
    requires n <= |us| && i < |us|
    requires m <= |ExpandUpTo(us, n)| == PrefixWeight(us, n)
    ensures Occurrences(ExpandUpTo(us, n), m, i)
         == if i < n then
              PrefixWeightMonotone(us, i, n);
              if m <= PrefixWeight(us, i) then 0
              else if m <= PrefixWeight(us, i + 1) then m - PrefixWeight(us, i) else Weight(us[i])
            else 0
  {
    if m > 0 {
      OccurrencesInExpansion(us, n, m - 1, i);
      ExpandedInRange(us, n);
      if i < n {
        ExpandedIsPrefixSumChoice(us, n, m - 1, i);
      }
    }
  }

  lemma TicketStep(start: u64, n: nat)
    requires n > 0
    ensures Ticket(start, n) == Ticket(WrapAdd(start, 1), n - 1)
  {
    if start + 1 == TWO64 {
      AddRound(n - 1, TWO64);
    }
  }

  lemma TicketNoWrap(start: u64, n: nat)
    requires start + n < TWO64
    ensures Ticket(start, n) == start + n
  {
    SmallDivMod(start + n, TWO64);
  }

  /** Past the last ticket the counter starts again at zero. */
  lemma TicketWraps(start: u64, n: nat)
    requires TWO64 <= start + n < 2 * TWO64
    ensures Ticket(start, n) == start + n - TWO64
  {
    DivModUnique(start + n, TWO64, 1, start + n - TWO64);
  }

  lemma SlotOfSmallTicket(slots: seq<nat>, ticket: nat)
    requires ticket < |slots|
    ensures SlotAt(slots, ticket) == slots[ticket]
  {
    SmallDivMod(ticket, |slots|);
  }

  lemma SlotOneRoundOn(slots: seq<nat>, ticket: nat)
    requires slots != []
    ensures SlotAt(slots, ticket + |slots|) == SlotAt(slots, ticket)
  {
    AddRound(ticket, |slots|);
  }

  /** One more ticket at the end, one fewer at the front. */
  lemma {:induction false} PicksShift(slots: seq<nat>, start: u64, n: nat, i: nat)
    requires slots != []
    ensures Picks(slots, start, n + 1, i)
         == (if SlotAt(slots, start) == i then 1 else 0) + Picks(slots, WrapAdd(start, 1), n, i)
  {
    if n == 0 {
      TicketNoWrap(start, 0);
      assert Picks(slots, start, 0, i) == 0;
    } else {
      PicksShift(slots, start, n - 1, i);
      TicketStep(start, n);
      assert Picks(slots, start, n + 1, i)
          == Picks(slots, start, n, i) + if SlotAt(slots, Ticket(start, n)) == i then 1 else 0;
    }
  }

  /** Tickets starting at zero read the list from its front. */
  lemma {:induction false} FirstRound(slots: seq<nat>, n: nat, i: nat)
    requires slots != [] && n <= |slots| && n <= TWO64
    ensures Picks(slots, 0, n, i) == Occurrences(slots, n, i)
  {
    if n > 0 {
      FirstRound(slots, n - 1, i);
      TicketNoWrap(0, n - 1);
      SlotOfSmallTicket(slots, n - 1);
    }
  }

  /** A full round gives the same counts from every start. */
  lemma {:induction false} AnyRound(slots: seq<nat>, start: nat, i: nat)
    requires slots != [] && start + |slots| <= TWO64
    ensures start < TWO64 && Picks(slots, start, |slots|, i) == Occurrences(slots, |slots|, i)
  {
    var w := |slots|;
    if start == 0 {
      FirstRound(slots, w, i);
    } else {
      AnyRound(slots, start - 1, i);
      PicksShift(slots, start - 1, w - 1, i);
      TicketNoWrap(start, w - 1);
      TicketNoWrap(start - 1, 1);
      SlotOneRoundOn(slots, start - 1);
    }
  }

  lemma {:induction false} PicksSplit(slots: seq<nat>, start: nat, m: nat, n: nat, i: nat)
    requires slots != [] && start + m + n <= TWO64 && start + m < TWO64
    ensures Picks(slots, start, m + n, i) == Picks(slots, start, m, i) + Picks(slots, start + m, n, i)
  {
    if n > 0 {
      PicksSplit(slots, start, m, n - 1, i);
      assert Ticket(start, m + n - 1) == Ticket(start + m, n - 1);
    }
  }

  lemma {:induction false} PicksMonotone(slots: seq<nat>, start: u64, m: nat, n: nat, i: nat)
    requires slots != [] && m <= n
    ensures Picks(slots, start, m, i) <= Picks(slots, start, n, i)
  {
    if m < n {
      PicksMonotone(slots, start, m, n - 1, i);
    }
  }

  lemma {:induction false} OccurrencesMonotone(slots: seq<nat>, m: nat, n: nat, i: nat)
    requires m <= n <= |slots|
    ensures Occurrences(slots, m, i) <= Occurrences(slots, n, i)
  {
    if m < n {
      OccurrencesMonotone(slots, m, n - 1, i);
    }
  }

  lemma {:induction false} PeriodicShare(slots: seq<nat>, start: nat, n: nat, i: nat)
    requires slots != [] && start < TWO64 && start + n <= TWO64
    ensures var w, c := |slots|, Occurrences(slots, |slots|, i);
            n / w * c <= Picks(slots, start, n, i) <= CeilDiv(n, w) * c
    decreases n
  {
    var w, c := |slots|, Occurrences(slots, |slots|, i);
    if n == 0 {
      SmallDivMod(0, w);
      SmallDivMod(w - 1, w);
    } else if n < w {
      PartOfRound(slots, start, n, i);
      SmallDivMod(n, w);
      CeilOfPart(n, w);
    } else if n == w {
      AnyRound(slots, start, i);
      DivModUnique(n, w, 1, 0);
      CeilOfPart(n, w);
    } else {
      AnyRound(slots, start, i);
      PicksSplit(slots, start, w, n - w, i);
      PeriodicShare(slots, start + w, n - w, i);
      OneMoreRound(n, w, c);
    }
  }

  lemma OneMoreRound(n: nat, w: nat, c: nat)
    requires 0 < w <= n
    ensures n / w * c == (n - w) / w * c + c && CeilDiv(n, w) * c == CeilDiv(n - w, w) * c + c
  {
    AddRound(n - w, w);
    AddRound(n - 1, w);
    var a, b := (n - w) / w, CeilDiv(n - w, w);
    assert CeilDiv(n, w) == b + 1;
    assert (a + 1) * c == a * c + c && (b + 1) * c == b * c + c;
  }

  /** A window shorter than a round lies inside a full round, or inside the first read of a huge list. */
  lemma PartOfRound(slots: seq<nat>, start: nat, n: nat, i: nat)
    requires slots != [] && start < TWO64 && start + n <= TWO64 && n < |slots|
    ensures Picks(slots, start, n, i) <= Occurrences(slots, |slots|, i)
  {
    var w := |slots|;
    var back := if w < start + n then start + n - w else 0;
    PicksSplit(slots, back, start - back, n, i);
    if w <= TWO64 {
      AnyRound(slots, back, i);
      PicksMonotone(slots, back, start - back + n, w, i);
    } else {
      FirstRound(slots, start + n, i);
      OccurrencesMonotone(slots, start + n, w, i);
    }
  }

  /**
   * Exact share: while the counter does not wrap, any `n` consecutive tickets give upstream `i` its
   * weight once per round, rounded down at least and rounded up at most.
   */
  lemma ExactShare(us: seq<UpstreamView>, start: u64, n: nat, i: nat)
    requires i < |us| && start + n <= TWO64
    requires 0 < PrefixWeight(us, |us|)
    ensures Expanded(us) != []
    ensures var total := PrefixWeight(us, |us|);
            var picks := Picks(Expanded(us), start, n, i);
            && n / total * Weight(us[i]) <= picks <= CeilDiv(n, total) * Weight(us[i])
            && (n % total == 0 ==> picks == n / total * Weight(us[i]))
  {
    var total := PrefixWeight(us, |us|);
    ExpandedLength(us, |us|);
    PeriodicShare(Expanded(us), start, n, i);
    OccurrencesInExpansion(us, |us|, total, i);
    PrefixWeightMonotone(us, i, |us|);
    PrefixWeightMonotone(us, i + 1, |us|);
    if n % total == 0 {
      CeilOfMultiple(n, total);
    }
  }

  // ---- What happens when the counter wraps ----

  lemma WrappedRemainder(t: nat, w: nat)
    requires w > 0 && TWO64 % w == 0 && t < 2 * TWO64
    ensures t % TWO64 % w == t % w
  {
    if t < TWO64 {
      SmallDivMod(t, TWO64);
    } else {
      DivModUnique(t, TWO64, 1, t - TWO64);
      var k := TWO64 / w;
      assert TWO64 == k * w;
      AddRounds(t - TWO64, k, w);
    }
  }

  /** A list whose length divides 2^64 does not notice the wrap. */
  lemma SlotAcrossWrap(slots: seq<nat>, start: u64, n: nat)
    requires slots != [] && n <= |slots| <= TWO64 && TWO64 % |slots| == 0
    ensures SlotAt(slots, Ticket(start, n)) == SlotAt(slots, start + n)
  {
    WrappedRemainder(start + n, |slots|);
  }

  /** Then every round, also one across the wrap, reads each list entry once. */
  lemma {:induction false} FairAcrossWrap(slots: seq<nat>, start: u64, i: nat)
    requires slots != [] && |slots| <= TWO64 && TWO64 % |slots| == 0
    ensures Picks(slots, start, |slots|, i) == Occurrences(slots, |slots|, i)
  {
    var w := |slots|;
    if start == 0 {
      FirstRound(slots, w, i);
    } else {
      FairAcrossWrap(slots, start - 1, i);
      TicketNoWrap(start - 1, 1);
      PicksShift(slots, start - 1, w - 1, i);
      SlotAcrossWrap(slots, start, w - 1);
      SlotOneRoundOn(slots, start - 1);
    }
  }

  /** Every round of tickets, wherever it starts, gives each upstream exactly its weight. */
  ghost predicate ExactInEveryRound(us: seq<UpstreamView>)
    requires Expanded(us) != []
  {
    forall start: u64, i | 0 <= i < |us| :: Picks(Expanded(us), start, PrefixWeight(us, |us|), i) == Weight(us[i])
  }

  ghost predicate AtMostOneAvailable(us: seq<UpstreamView>) {
    forall p, q | 0 <= p < q < |us| :: !us[p].Available() || !us[q].Available()
  }

  lemma OccurrencesAreWeight(us: seq<UpstreamView>, i: nat)
    requires i < |us|
    ensures |Expanded(us)| == PrefixWeight(us, |us|)
    ensures Occurrences(Expanded(us), |Expanded(us)|, i) == Weight(us[i])
  {
    ExpandedLength(us, |us|);
    OccurrencesInExpansion(us, |us|, PrefixWeight(us, |us|), i);
    PrefixWeightMonotone(us, i, |us|);
    PrefixWeightMonotone(us, i + 1, |us|);
  }

  /** A list that names one upstream only gives it every ticket. */
  lemma {:induction false} ConstantPicks(slots: seq<nat>, start: u64, n: nat, p: nat, i: nat)
    requires slots != [] && forall r | 0 <= r < |slots| :: slots[r] == p
    ensures Picks(slots, start, n, i) == if i == p then n else 0
  {
    if n > 0 {
      ConstantPicks(slots, start, n - 1, p, i);
      assert SlotAt(slots, Ticket(start, n - 1)) in slots;
    }
  }

  lemma {:induction false} ConstantOccurrences(slots: seq<nat>, n: nat, p: nat, i: nat)
    requires n <= |slots| && forall r | 0 <= r < |slots| :: slots[r] == p
    ensures Occurrences(slots, n, i) == if i == p then n else 0
  {
    if n > 0 {
      ConstantOccurrences(slots, n - 1, p, i);
    }
  }

  lemma {:induction false} ExpandedAscending(us: seq<UpstreamView>, n: nat)
    requires n <= |us|
    ensures forall r, s | 0 <= r <= s < |ExpandUpTo(us, n)| :: ExpandUpTo(us, n)[r] <= ExpandUpTo(us, n)[s]
  {
    if n > 0 {
      ExpandedAscending(us, n - 1);
      ExpandedInRange(us, n - 1);
    }
  }

  /** When a round and the one a ticket later agree on `i`, the ticket dropped and the one taken on agree on it. */
  lemma RoundsRotate(slots: seq<nat>, start: u64, w: nat, i: nat)
    requires slots != [] && w > 0
    requires Picks(slots, start, w, i) == Picks(slots, WrapAdd(start, 1), w, i)
    ensures SlotAt(slots, start) == i <==> SlotAt(slots, Ticket(start, w)) == i
  {
    PicksShift(slots, start, w - 1, i);
    TicketStep(start, w);
  }

  lemma ExactRoundsRotate(us: seq<UpstreamView>, start: u64, i: nat)
    requires Expanded(us) != [] && ExactInEveryRound(us)
    requires SlotAt(Expanded(us), start) == i
    ensures SlotAt(Expanded(us), Ticket(start, PrefixWeight(us, |us|))) == i
  {
    ExpandedLength(us, |us|);
    SlotNamesUpstream(us, start);
    RoundsRotate(Expanded(us), start, PrefixWeight(us, |us|), i);
  }

  lemma SlotNamesUpstream(us: seq<UpstreamView>, ticket: u64)
    requires Expanded(us) != []
    ensures SlotAt(Expanded(us), ticket) < |us|
  {
    ExpandedInRange(us, |us|);
  }

  /** When the wrap cuts a round short, exactness everywhere forces the list's two ends together. */
  lemma CutRoundJoinsEnds(us: seq<UpstreamView>)
    requires Expanded(us) != [] && ExactInEveryRound(us)
    requires |Expanded(us)| <= TWO64 && TWO64 % |Expanded(us)| != 0
    ensures Expanded(us)[0] == Expanded(us)[|Expanded(us)| - 1]
  {
    var slots := Expanded(us);
    var w := |slots|;
    var cut := TWO64 % w;
    ExpandedLength(us, |us|);
    LastSlots(slots);
    ExactRoundsRotate(us, TWO64 - 1, slots[cut - 1]);
    TicketWraps(TWO64 - 1, w);
    SlotOfSmallTicket(slots, w - 1);
    ExactRoundsRotate(us, TWO64 - w, slots[cut]);
    TicketWraps(TWO64 - w, w);
    SlotOfSmallTicket(slots, 0);
    ExpandedAscending(us, |us|);
    assert slots[cut - 1] <= slots[cut];
  }

  /** The entries of the last ticket and of the ticket one round before the wrap. */
  lemma LastSlots(slots: seq<nat>)
    requires 0 < |slots| <= TWO64 && TWO64 % |slots| != 0
    ensures SlotAt(slots, TWO64 - 1) == slots[TWO64 % |slots| - 1]
    ensures SlotAt(slots, TWO64 - |slots|) == slots[TWO64 % |slots|]
  {
    var w := |slots|;
    DivModUnique(TWO64 - 1, w, TWO64 / w, TWO64 % w - 1);
    AddRound(TWO64 - w, w);
  }

  lemma JoinedEndsMeanOne(us: seq<UpstreamView>)
    requires Expanded(us) != [] && Expanded(us)[0] == Expanded(us)[|Expanded(us)| - 1]
    ensures AtMostOneAvailable(us)
  {
    forall p, q | 0 <= p < q < |us| ensures !us[p].Available() || !us[q].Available() {
      if us[p].Available() && us[q].Available() {
        AppearsInExpansion(us, p);
        AppearsInExpansion(us, q);
        ExpandedAscending(us, |us|);
      }
    }
  }

  lemma AppearsInExpansion(us: seq<UpstreamView>, p: nat)
    requires p < |us| && us[p].Available()
    ensures PrefixWeight(us, p) < |Expanded(us)| && Expanded(us)[PrefixWeight(us, p)] == p
  {
    ExpandedLength(us, |us|);
    PrefixWeightMonotone(us, p + 1, |us|);
    ExpandedIsPrefixSumChoice(us, |us|, PrefixWeight(us, p), p);
  }

  /**
   * The shares stay exact across the counter's wrap exactly when the total weight divides 2^64, or when there is
   * only one available upstream to give them to.
   */
  lemma ExactAcrossWrapIff(us: seq<UpstreamView>)
    requires 0 < PrefixWeight(us, |us|) <= TWO64
    ensures Expanded(us) != []
    ensures ExactInEveryRound(us) <==> TWO64 % PrefixWeight(us, |us|) == 0 || AtMostOneAvailable(us)
  {
    ExpandedLength(us, |us|);
    if TWO64 % PrefixWeight(us, |us|) == 0 {
      DividingWeightIsExact(us);
    } else if AtMostOneAvailable(us) {
      OnlyOneIsExact(us);
    } else if ExactInEveryRound(us) {
      CutRoundJoinsEnds(us);
      JoinedEndsMeanOne(us);
    }
  }

  lemma DividingWeightIsExact(us: seq<UpstreamView>)
    requires Expanded(us) != [] && |Expanded(us)| <= TWO64 && TWO64 % |Expanded(us)| == 0
    ensures ExactInEveryRound(us)
  {
    forall start: u64, i | 0 <= i < |us|
      ensures Picks(Expanded(us), start, PrefixWeight(us, |us|), i) == Weight(us[i])
    {
      OccurrencesAreWeight(us, i);
      FairAcrossWrap(Expanded(us), start, i);
    }
  }

  lemma OnlyOneIsExact(us: seq<UpstreamView>)
    requires Expanded(us) != [] && AtMostOneAvailable(us)
    ensures ExactInEveryRound(us)
  {
    var slots := Expanded(us);
    ExpandedInRange(us, |us|);
    var p := slots[0];
    assert forall r | 0 <= r < |slots| :: slots[r] == p;
    forall start: u64, i | 0 <= i < |us| ensures Picks(slots, start, PrefixWeight(us, |us|), i) == Weight(us[i]) {
      OccurrencesAreWeight(us, i);
      ConstantOccurrences(slots, |slots|, p, i);
      ConstantPicks(slots, start, |slots|, p, i);
    }
  }

  /** Upstreams of weight one and two: the round that starts with the last ticket gives the lighter one two of three. */
  lemma LighterGetsMoreAtWrap(light: UpstreamView, heavy: UpstreamView)
    requires light.Available() && heavy.Available() && light.weight == 1 && heavy.weight == 2
    ensures Expanded([light, heavy]) == [0, 1, 1]
    ensures Picks(Expanded([light, heavy]), TWO64 - 1, 3, 0) == 2
    ensures Picks(Expanded([light, heavy]), TWO64 - 1, 3, 1) == 1
  {
    var us := [light, heavy];
    assert ExpandUpTo(us, 0) == [];
    assert ExpandUpTo(us, 1) == [0];
    assert ExpandUpTo(us, 2) == [0, 1, 1];
    ThreeTicketsAtWrap([0, 1, 1], 0);
    ThreeTicketsAtWrap([0, 1, 1], 1);
  }

  /** The three tickets from the last one on read the first entry twice and the second once. */
  lemma ThreeTicketsAtWrap(slots: seq<nat>, i: nat)
    requires |slots| == 3
    ensures Picks(slots, TWO64 - 1, 3, i) == (if slots[0] == i then 2 else 0) + if slots[1] == i then 1 else 0
  {
    TicketNoWrap(TWO64 - 1, 0);
    TicketWraps(TWO64 - 1, 1);
    TicketWraps(TWO64 - 1, 2);
    assert Picks(slots, TWO64 - 1, 1, i) == if slots[0] == i then 1 else 0;
    assert Picks(slots, TWO64 - 1, 2, i) == if slots[0] == i then 2 else 0;
  }

  // ---- The same for plain round-robin ----

  lemma {:induction false} UnitWeightsCount(us: seq<UpstreamView>, n: nat)
    requires n <= |us|
    ensures PrefixWeight(UnitWeights(us), n) == |AvailableUpTo(us, n)|
  {
    PlainIsUnitExpansion(us, n);
    ExpandedLength(UnitWeights(us), n);
  }

  /** Every round of plain round-robin, wherever it starts, takes each available upstream once. */
  ghost predicate EveryRoundFair(us: seq<UpstreamView>)
    requires AvailableIndices(us) != []
  {
    forall start: u64, i | 0 <= i < |us| ::
      Picks(AvailableIndices(us), start, |AvailableIndices(us)|, i) == if us[i].Available() then 1 else 0
  }

  lemma FairIsUnitExact(us: seq<UpstreamView>)
    requires AvailableIndices(us) != []
    ensures Expanded(UnitWeights(us)) != [] && (EveryRoundFair(us) <==> ExactInEveryRound(UnitWeights(us)))
  {
    PlainIsUnitExpansion(us, |us|);
    UnitWeightsCount(us, |us|);
    var slots, units := AvailableIndices(us), UnitWeights(us);
    assert forall i | 0 <= i < |us| :: Weight(units[i]) == if us[i].Available() then 1 else 0;
  }

  /** Plain round-robin stays fair across the wrap exactly when the number of available upstreams divides 2^64. */
  lemma FairAcrossWrapIff(us: seq<UpstreamView>)
    requires 0 < |AvailableIndices(us)| <= TWO64
    ensures EveryRoundFair(us) <==> TWO64 % |AvailableIndices(us)| == 0
  {
    var units := UnitWeights(us);
    FairIsUnitExact(us);
    UnitWeightsCount(us, |us|);
    ExactAcrossWrapIff(units);
    if AtMostOneAvailable(units) {
      OneAvailableIsOneEntry(us);
    }
  }

  lemma OneAvailableIsOneEntry(us: seq<UpstreamView>)
    requires AvailableIndices(us) != [] && AtMostOneAvailable(UnitWeights(us))
    ensures |AvailableIndices(us)| == 1
  {
    var slots, units := AvailableIndices(us), UnitWeights(us);
    PlainIsUnitExpansion(us, |us|);
    ExpandedInRange(units, |us|);
    assert forall r | 0 <= r < |slots| :: slots[r] == slots[0];
    OccurrencesAreWeight(units, slots[0]);
    ConstantOccurrences(slots, |slots|, slots[0], slots[0]);
  }

  /** The available positions come in order, so each is listed once. */
  lemma {:induction false} IndicesAscend(us: seq<UpstreamView>, n: nat)
    requires n <= |us|
    ensures forall r | 0 <= r < |AvailableUpTo(us, n)| :: AvailableUpTo(us, n)[r] < n
    ensures forall q, r | 0 <= q < r < |AvailableUpTo(us, n)| :: AvailableUpTo(us, n)[q] < AvailableUpTo(us, n)[r]
  {
    if n > 0 {
      IndicesAscend(us, n - 1);
    }
  }

  lemma {:induction false} AbsentNeverOccurs(slots: seq<nat>, n: nat, i: nat)
    requires n <= |slots| && forall r | 0 <= r < n :: slots[r] != i
    ensures Occurrences(slots, n, i) == 0
  {
    if n > 0 {
      AbsentNeverOccurs(slots, n - 1, i);
    }
  }

  /** Otherwise the round that starts with the last ticket before the wrap passes over the last available upstream. */
  lemma UnfairAcrossWrap(us: seq<UpstreamView>)
    requires var k := |AvailableIndices(us)|; 0 < k <= TWO64 && TWO64 % k != 0
    ensures var slots := AvailableIndices(us); Picks(slots, TWO64 - 1, |slots|, slots[|slots| - 1]) == 0
  {
    var slots := AvailableIndices(us);
    var last := slots[|slots| - 1];
    IndicesAscend(us, |us|);
    LastSlots(slots);
    PicksShift(slots, TWO64 - 1, |slots| - 1, last);
    TicketWraps(TWO64 - 1, 1);
    FirstRound(slots, |slots| - 1, last);
    AbsentNeverOccurs(slots, |slots| - 1, last);
  }
}
