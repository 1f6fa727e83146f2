/** The HTTP proxy's sliding window of request durations, its status counts, and the figures derived from them. */
module HttpMetrics {
  import opened Arithmetic
  import opened Machine

  const WINDOW_LIMIT: nat := 10000
  const DRAINED: nat := 1000

  // ---- The sliding window ----

  function PushDuration(window: seq<real>, d: real): seq<real> {
    var longer := window + [d];
    if |longer| > WINDOW_LIMIT then longer[DRAINED..] else longer
  }

  /** The window after a whole history of durations. */
  function WindowOf(history: seq<real>): seq<real> {
    if history == [] then [] else PushDuration(WindowOf(history[..|history| - 1]), history[|history| - 1])
  }

  /** How many of the last durations the window holds after `n` requests. */
  function Kept(n: nat): (k: nat)
    ensures k <= n && k <= WINDOW_LIMIT
  {
    if n <= WINDOW_LIMIT then n else 9001 + (n - 10001) % 1000
  }

  lemma KeptStep(n: nat)
    ensures Kept(n + 1) == if Kept(n) + 1 > WINDOW_LIMIT then Kept(n) + 1 - DRAINED else Kept(n) + 1
  {
    if n > WINDOW_LIMIT {
      var m := n - 10001;
      if m % 1000 == 999 {
        DivModUnique(m + 1, 1000, m / 1000 + 1, 0);
      } else {
        DivModUnique(m + 1, 1000, m / 1000, m % 1000 + 1);
      }
    }
  }

  /** The window is exactly the most recent durations, and their number has a closed form. */
  lemma {:induction false} WindowIsRecent(history: seq<real>)
    ensures WindowOf(history) == history[|history| - Kept(|history|)..]
    ensures |WindowOf(history)| == if |history| <= 10000 then |history| else 9001 + (|history| - 10001) % 1000
  {
    if history != [] {
      var n := |history| - 1;
      WindowIsRecent(history[..n]);
      KeptStep(n);
      assert history[..n][n - Kept(n)..] + [history[n]] == history[n - Kept(n)..];
    }
  }

  // ---- Status counts ----

  /** The sum of all counts. */
  ghost function Total(counts: map<nat, nat>): nat
    decreases |counts|
  {
    if counts == map[] then 0
    else
      var k :| k in counts;
      RemoveShrinks(counts, k);
      counts[k] + Total(counts - {k})
  }

  lemma RemoveShrinks(counts: map<nat, nat>, k: nat)
    requires k in counts
    ensures |counts - {k}| == |counts| - 1
  {
    assert (counts - {k}).Keys == counts.Keys - {k};
  }

  /** Any key may be taken out first. */
  lemma {:induction false} TotalSplit(counts: map<nat, nat>, k: nat)
    requires k in counts
    ensures Total(counts) == counts[k] + Total(counts - {k})
    decreases |counts|
  {
    var j :| j in counts && Total(counts) == counts[j] + Total(counts - {j});
    if j != k {
      RemoveShrinks(counts, j);
      TotalSplit(counts - {j}, k);
      RemoveShrinks(counts, k);
      TotalSplit(counts - {k}, j);
      assert counts - {j} - {k} == counts - {k} - {j};
    }
  }

  function Increment(counts: map<nat, nat>, status: nat): map<nat, nat> {
    counts[status := (if status in counts then counts[status] else 0) + 1]
  }

  lemma IncrementAddsOne(counts: map<nat, nat>, status: nat)
    ensures Total(Increment(counts, status)) == Total(counts) + 1
  {
    var counts' := Increment(counts, status);
    TotalSplit(counts', status);
    assert counts' - {status} == counts - {status};
    if status in counts {
      TotalSplit(counts, status);
    } else {
      assert counts - {status} == counts;
    }
  }

  function ErrorsOnly(counts: map<nat, nat>): map<nat, nat> {
    map s | s in counts && s >= 400 :: counts[s]
  }

  function WithoutErrors(counts: map<nat, nat>): map<nat, nat> {
    map s | s in counts && s < 400 :: counts[s]
  }

  /** Recording a status adds one error exactly for a status from 400 on. */
  lemma IncrementAddsError(counts: map<nat, nat>, status: nat)
    ensures Total(ErrorsOnly(Increment(counts, status))) == Total(ErrorsOnly(counts)) + if status >= 400 then 1 else 0
    ensures Total(WithoutErrors(Increment(counts, status)))
         == Total(WithoutErrors(counts)) + if status >= 400 then 0 else 1
  {
    if status >= 400 {
      IncrementAddsOne(ErrorsOnly(counts), status);
      assert ErrorsOnly(Increment(counts, status)) == Increment(ErrorsOnly(counts), status);
      assert WithoutErrors(Increment(counts, status)) == WithoutErrors(counts);
    } else {
      IncrementAddsOne(WithoutErrors(counts), status);
      assert WithoutErrors(Increment(counts, status)) == Increment(WithoutErrors(counts), status);
      assert ErrorsOnly(Increment(counts, status)) == ErrorsOnly(counts);
    }
  }

  /** Errors and the rest make up all responses. */
  lemma {:induction false} ErrorsArePart(counts: map<nat, nat>)
    ensures Total(counts) == Total(ErrorsOnly(counts)) + Total(WithoutErrors(counts))
    decreases |counts|
  {
    if counts == map[] {
      assert ErrorsOnly(counts) == map[] && WithoutErrors(counts) == map[];
    } else {
      var k :| k in counts;
      RemoveShrinks(counts, k);
      TotalSplit(counts, k);
      ErrorsArePart(counts - {k});
      if k >= 400 {
        TotalSplit(ErrorsOnly(counts), k);
        assert ErrorsOnly(counts) - {k} == ErrorsOnly(counts - {k});
        assert WithoutErrors(counts) == WithoutErrors(counts - {k});
      } else {
        TotalSplit(WithoutErrors(counts), k);
        assert WithoutErrors(counts) - {k} == WithoutErrors(counts - {k});
        assert ErrorsOnly(counts) == ErrorsOnly(counts - {k});
      }
    }
  }

  method SumCounts(counts: map<nat, nat>) returns (total: nat)
    ensures total == Total(counts)
  {
    total := 0;
    var rest := counts;
    while rest != map[]
      invariant total + Total(rest) == Total(counts)
      decreases |rest|
    {
      var k :| k in rest;
      TotalSplit(rest, k);
      RemoveShrinks(rest, k);
      total := total + rest[k];
      rest := rest - {k};
    }
  }

  method CountErrors(counts: map<nat, nat>) returns (errors: nat, total: nat)
    ensures errors == Total(ErrorsOnly(counts)) && total == Total(counts)
    ensures errors <= total
  {
    total := SumCounts(counts);
    errors := SumCounts(ErrorsOnly(counts));
    ErrorsArePart(counts);
  }

  method Share(part: nat, total: nat) returns (rate: real)
    requires part <= total
    ensures 0.0 <= rate <= 1.0 && rate * total as real == part as real
    ensures total == 0 ==> rate == 0.0
  {
    rate := 0.0;
    if total > 0 {
      Ratio(part, total);
      rate := part as real / total as real;
    }
  }

  class HttpProxyMetrics {
    var requestDurations: seq<real>
    var statusCodes: map<nat, nat>
    ghost var history: seq<real>

    constructor ()
      ensures Valid() && history == [] && statusCodes == map[]
    {
      requestDurations, statusCodes, history := [], map[], [];
    }

    ghost predicate Valid()
      reads this
    {
      requestDurations == WindowOf(history)
    }

    /** The update made under the lock of the duration vector. */
    method RecordDuration(d: real)
      requires Valid()
      modifies this`requestDurations, this`history
      ensures Valid() && history == old(history) + [d]
      ensures requestDurations == history[|history| - Kept(|history|)..]
    {
      requestDurations := requestDurations + [d];
      if |requestDurations| > WINDOW_LIMIT {
        requestDurations := requestDurations[DRAINED..];
      }
      history := history + [d];
      assert history[..|history| - 1] == old(history);
      WindowIsRecent(history);
    }

    /** A failed request is counted, and answered, as status 502. */
    method RecordStatus(result: Option<nat>) returns (answered: nat)
      modifies this`statusCodes
      ensures answered == match result case Some(status) => status case None => 502
      ensures answered in statusCodes
      ensures statusCodes[answered] == (if answered in old(statusCodes) then old(statusCodes)[answered] else 0) + 1
      ensures statusCodes - {answered} == old(statusCodes) - {answered}
      ensures Total(statusCodes) == Total(old(statusCodes)) + 1
    {
      answered := if result.Some? then result.value else 502;
      IncrementAddsOne(statusCodes, answered);
      statusCodes := Increment(statusCodes, answered);
    }

    /** The reported error rate lies between zero and one. */
    method ErrorRate() returns (rate: real)
      ensures 0.0 <= rate <= 1.0
      ensures rate * Total(statusCodes) as real == Total(ErrorsOnly(statusCodes)) as real
      ensures Total(statusCodes) == 0 ==> rate == 0.0
    {
      var errors, total := CountErrors(statusCodes);
      rate := Share(errors, total);
    }
  }
}
