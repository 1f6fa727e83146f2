/**
 * The moving latency average under every interleaving of recorders: loading the stored average and storing the new
 * one are two steps, so a recorder may overwrite what others stored in between.
 */
module LatencyRaces {
  import opened Machine
  import opened Upstreams
  import opened LatencyAverage
  import opened Runs

  /** A recorder with its sample: about to load the average, holding the one it loaded, or through. */
  datatype Recorder = Loading(sample: u64) | Storing(sample: u64, loaded: u64) | Stored(sample: u64)

  datatype State = State(average: u64, recorders: seq<Recorder>)

  predicate RecorderStep(avg: u64, t: Recorder, avg': u64, t': Recorder) {
    match t
    case Loading(x) => avg' == avg && t' == Storing(x, avg)
    case Storing(x, loaded) => avg' == NextAverage(loaded, x) && t' == Stored(x)
    case Stored(_) => false
  }

  ghost predicate Moves(s: State, s': State, i: nat, t': Recorder) {
    i < |s.recorders| && RecorderStep(s.average, s.recorders[i], s'.average, t')
    && s'.recorders == s.recorders[i := t']
  }

  ghost predicate Starts(s: State, s': State, x: u64) {
    s' == s.(recorders := s.recorders + [Loading(x)])
  }

  ghost predicate Next(s: State, s': State) {
    (exists x: u64 :: Starts(s, s', x)) || (exists i: nat, t' :: Moves(s, s', i, t'))
  }

  predicate Initial(s: State) {
    s == State(0, [])
  }

  ghost predicate SamplesWithin(s: State, lo: nat, hi: nat) {
    forall i | 0 <= i < |s.recorders| :: lo <= s.recorders[i].sample <= hi
  }

  /** The stored average, or one loaded by a recorder: within the samples, or still the zero that means none. */
  predicate Fits(average: nat, lo: nat, hi: nat) {
    average == 0 || lo <= average <= hi
  }

  ghost predicate NoneStored(s: State) {
    forall i | 0 <= i < |s.recorders| :: !s.recorders[i].Stored?
  }

  ghost predicate Within(s: State, lo: nat, hi: nat) {
    && (lo <= s.average <= hi || (s.average == 0 && NoneStored(s)))
    && forall i | 0 <= i < |s.recorders| && s.recorders[i].Storing? :: Fits(s.recorders[i].loaded, lo, hi)
  }

  ghost predicate Bounded(s: State, lo: nat, hi: nat) {
    SamplesWithin(s, lo, hi) ==> Within(s, lo, hi)
  }

  /** Whatever average a recorder starts from, zero or one within the samples, it stores one within them. */
  lemma StoresWithin(loaded: u64, x: u64, lo: nat, hi: nat)
    requires 8 * hi < TWO64 && lo <= x <= hi && Fits(loaded, lo, hi)
    ensures lo <= NextAverage(loaded, x) <= hi
  {
    if loaded != 0 {
      ExactMeanIff(loaded, x);
    }
  }

  lemma NextKeepsBounded(s: State, s': State, lo: nat, hi: nat)
    requires 8 * hi < TWO64 && Bounded(s, lo, hi) && Next(s, s')
    ensures Bounded(s', lo, hi)
  {
    if SamplesWithin(s', lo, hi) {
      if x: u64 :| Starts(s, s', x) {
        StartKeepsWithin(s, s', x, lo, hi);
      } else {
        var i: nat, t' :| Moves(s, s', i, t');
        MoveKeepsWithin(s, s', i, t', lo, hi);
      }
    }
  }

  lemma StartKeepsWithin(s: State, s': State, x: u64, lo: nat, hi: nat)
    requires Bounded(s, lo, hi) && Starts(s, s', x) && SamplesWithin(s', lo, hi)
    ensures Within(s', lo, hi)
  {
    assert forall i | 0 <= i < |s.recorders| :: s'.recorders[i] == s.recorders[i];
  }

  lemma MoveKeepsWithin(s: State, s': State, i: nat, t': Recorder, lo: nat, hi: nat)
    requires 8 * hi < TWO64 && Bounded(s, lo, hi) && Moves(s, s', i, t') && SamplesWithin(s', lo, hi)
    ensures Within(s', lo, hi)
  {
    var t := s.recorders[i];
    assert s'.recorders[i] == t' && t.sample == t'.sample;
    assert forall j | 0 <= j < |s.recorders| && j != i :: s.recorders[j] == s'.recorders[j];
    if t.Storing? {
      StoresWithin(t.loaded, t.sample, lo, hi);
    }
  }

  /**
   * Under every interleaving the stored average lies between the least and the greatest sample of the recorders
   * started so far, except for the initial zero, which is gone once any of them has stored.
   */
  lemma AlwaysBetweenSamples(run: seq<State>, n: nat, lo: nat, hi: nat)
    requires RunOf(run, Initial, Next) && n < |run|
    requires 8 * hi < TWO64 && SamplesWithin(run[n], lo, hi)
    ensures lo <= run[n].average <= hi || (run[n].average == 0 && NoneStored(run[n]))
  {
    var inv := (s: State) => Bounded(s, lo, hi);
    forall s, s' | inv(s) && Next(s, s') ensures inv(s') {
      NextKeepsBounded(s, s', lo, hi);
    }
    InvariantHolds(run, Initial, Next, inv, n);
  }

  /** A recorder that nobody disturbs takes the step of the moving average. */
  lemma UndisturbedRecorder(avg: u64, x: u64, t: Recorder, avg': u64, t': Recorder)
    requires RecorderStep(avg, Loading(x), avg, t) && RecorderStep(avg, t, avg', t')
    ensures t' == Stored(x) && avg' == AverageOf(avg, [x])
  {
    assert [x][..0] == [];
  }
}
