/** Convergence of the moving latency average kept in integers. */
module LatencyAverage {
  import opened Arithmetic
  import opened Machine
  import opened Upstreams

  /** The average after a run of samples. */
  function AverageOf(start: u64, samples: seq<u64>): u64 {
    if samples == [] then start else NextAverage(AverageOf(start, samples[..|samples| - 1]), samples[|samples| - 1])
  }

  /** A step computes the rounded-down weighted mean exactly when the sum fits in 64 bits. */
  lemma ExactMeanIff(avg: u64, sample: u64)
    requires avg != 0
    ensures NextAverage(avg, sample) == (avg * 7 + sample) / 8 <==> avg * 7 + sample < TWO64
  {
    var x := avg * 7 + sample;
    if x < TWO64 {
      SmallDivMod(x, TWO64);
    } else {
      assert x == x / TWO64 * TWO64 + x % TWO64;
    }
  }

  /** After any nonempty run the average lies between the least and the greatest sample. */
  lemma {:induction false} BetweenSamples(samples: seq<u64>, lo: nat, hi: nat)
    requires samples != [] && 8 * hi < TWO64
    requires forall x | x in samples :: lo <= x <= hi
    ensures lo <= AverageOf(0, samples) <= hi
  {
    var init, last := samples[..|samples| - 1], samples[|samples| - 1];
    assert last in samples;
    if init == [] {
      assert AverageOf(0, samples) == NextAverage(0, last);
    } else {
      forall x | x in init ensures x in samples {
      }
      BetweenSamples(init, lo, hi);
      if AverageOf(0, init) != 0 {
        ExactMeanIff(AverageOf(0, init), last);
      }
    }
  }

  /** The average after `n` equal samples. */
  function Repeated(start: u64, r: u64, n: nat): u64 {
    if n == 0 then start else NextAverage(Repeated(start, r, n - 1), r)
  }

  /** One step towards a constant sample: where it moves, stops, and never crosses. */
  lemma StepTowards(avg: u64, r: u64)
    requires 8 * Max(avg, r) < TWO64
    ensures var next := NextAverage(avg, r);
            && (avg > r ==> r <= next < avg)
            && (0 < avg && avg + 7 < r ==> avg < next <= r - 7)
            && (0 < avg <= r <= avg + 7 ==> next == avg)
            && (avg == 0 ==> next == r)
  {
    if avg != 0 {
      ExactMeanIff(avg, r);
    }
  }

  /** The averages a constant sample leaves alone: the sample itself and the seven values below it. */
  lemma FixpointIff(avg: u64, r: u64)
    requires 8 * Max(avg, r) < TWO64
    ensures NextAverage(avg, r) == avg <==> avg == r || (0 < avg < r <= avg + 7)
  {
    StepTowards(avg, r);
  }

  /** From above the average loses at least one per sample until it is exactly the sample. */
  lemma {:induction false} DescendsExactly(start: u64, r: u64, n: nat)
    requires r <= start && 8 * start < TWO64
    ensures r <= Repeated(start, r, n) <= start
    ensures Repeated(start, r, n) == r || Repeated(start, r, n) + n <= start
  {
    if n > 0 {
      DescendsExactly(start, r, n - 1);
      StepTowards(Repeated(start, r, n - 1), r);
    }
  }

  /** From below it gains at least one per sample until it is within seven of the sample, and then stays. */
  lemma {:induction false} ClimbsIntoBand(start: u64, r: u64, n: nat)
    requires 0 < start <= r && 8 * r < TWO64
    ensures start <= Repeated(start, r, n) <= r
    ensures r <= Repeated(start, r, n) + 7 || start + n <= Repeated(start, r, n)
  {
    if n > 0 {
      ClimbsIntoBand(start, r, n - 1);
      StepTowards(Repeated(start, r, n - 1), r);
    }
  }

  /** The first sample is taken over whole, and from then on repeating it changes nothing. */
  lemma {:induction false} FirstSampleStays(r: u64, n: nat)
    requires 8 * r < TWO64 && n > 0
    ensures Repeated(0, r, n) == r
  {
    if n == 1 {
      assert Repeated(0, r, 0) == 0;
    } else {
      FirstSampleStays(r, n - 1);
      StepTowards(r, r);
    }
  }

  /** Fed one constant sample as often as the average is away from it, the average ends in its final band. */
  lemma Converges(start: u64, r: u64, n: nat)
    requires 8 * Max(start, r) < TWO64
    requires n >= 1 && n >= start - r && n >= r - start
    ensures Repeated(start, r, n) <= r <= Repeated(start, r, n) + 7
    ensures start == 0 || r <= start ==> Repeated(start, r, n) == r
  {
    if start == 0 {
      FirstSampleStays(r, n);
    } else if r <= start {
      DescendsExactly(start, r, n);
    } else {
      ClimbsIntoBand(start, r, n);
    }
  }
}
