/**
 * Least-connections selection by many connections at once. A selection reads the loads of the upstreams one by one,
 * the connection is dialed after that, and only once it is up does it count, while others may do any of these things
 * in between.
 */
module LeastConnectionsRaces {
  import opened Machine
  import opened Sums
  import opened Runs
  import opened Upstreams
  import opened LeastConnections

  /** One connection: reading the loads, with the first least one so far, or dialing, or past that. */
  datatype Task =
    | Scanning(next: nat, best: Option<nat>, least: nat)
    | Dialing(up: nat)
    | Over

  datatype State = State(us: seq<UpstreamView>, tasks: seq<Task>)

  /** The next load is read. It replaces an earlier one only if the upstream is available and the load smaller. */
  function ReadNext(us: seq<UpstreamView>, t: Task): Task
    requires t.Scanning? && t.next < |us|
  {
    var u := us[t.next];
    if u.Available() && (t.best.None? || u.active < t.least) then Scanning(t.next + 1, Some(t.next), u.active)
    else t.(next := t.next + 1)
  }

  /** What a scan that has read all the loads goes on to. */
  function Selected(t: Task): Task
    requires t.Scanning?
  {
    if t.best.Some? then Dialing(t.best.value) else Over
  }

  function Count(us: seq<UpstreamView>, i: nat): seq<UpstreamView>
    requires i < |us|
  {
    us[i := us[i].(active := us[i].active + 1)]
  }

  /** One step of one connection; a failed dial is just dropped. */
  predicate TaskStep(us: seq<UpstreamView>, t: Task, us': seq<UpstreamView>, t': Task) {
    match t
    case Scanning(next, _, _) => us' == us && t' == if next < |us| then ReadNext(us, t) else Selected(t)
    case Dialing(i) => t' == Over && (us' == us || (i < |us| && us' == Count(us, i)))
    case Over => false
  }

  ghost predicate Moves(s: State, s': State, i: nat, t': Task) {
    i < |s.tasks| && TaskStep(s.us, s.tasks[i], s'.us, t') && s'.tasks == s.tasks[i := t']
  }

  ghost predicate Starts(s: State, s': State) {
    s' == s.(tasks := s.tasks + [Scanning(0, None, 0)])
  }

  ghost predicate Next(s: State, s': State) {
    Starts(s, s') || exists i: nat, t' :: Moves(s, s', i, t')
  }

  predicate Initial(s: State) {
    s.tasks == []
  }

  ghost predicate IsRun(run: seq<State>) {
    RunOf(run, Initial, Next)
  }

  function Unfinished(): Task -> int {
    (t: Task) => if t.Over? then 0 else 1
  }

  /** The connections between the start of their selection and their being counted or dropped. */
  function InFlight(s: State): int {
    SumOf(s.tasks, Unfinished())
  }

  // ---- The invariant ----

  /** The task dials upstream `i`, or has it for its choice with a load read of at most `v`. */
  function ClaimsBelow(i: nat, v: nat): Task -> int {
    (t: Task) => if t == Dialing(i) || (t.Scanning? && t.best == Some(i) && t.least <= v) then 1 else 0
  }

  /** What a scan has found: of the loads read, all grown at most since then, none was smaller. */
  ghost predicate ScanOk(us: seq<UpstreamView>, t: Task) {
    t.Scanning? ==>
      && t.next <= |us|
      && (t.best.None? ==> forall j | 0 <= j < t.next :: !us[j].Available())
      && (t.best.Some? ==>
            && t.best.value < t.next && us[t.best.value].Available()
            && forall j | 0 <= j < t.next && us[j].Available() :: t.least <= us[j].active)
  }

  /** Upstream `i` with all that may still choose it, as far as they have read at most `v`, stays below `v + most`. */
  ghost predicate Capped(s: State, i: nat, v: nat, most: nat)
    requires i < |s.us|
  {
    s.us[i].active + SumOf(s.tasks, ClaimsBelow(i, v)) <= v + most
  }

  ghost predicate AllCapped(s: State, most: nat) {
    forall i: nat, j: nat, v: nat |
      i < |s.us| && j < |s.us| && s.us[i].Available() && s.us[j].Available() && s.us[j].active <= v ::
      Capped(s, i, v, most)
  }

  ghost predicate Kept(s: State, most: nat) {
    AllCapped(s, most) && forall t | t in s.tasks :: ScanOk(s.us, t)
  }

  /** No more tasks claim an upstream than are in flight. */
  lemma ClaimsAreInFlight(s: State, i: nat, v: nat)
    ensures SumOf(s.tasks, ClaimsBelow(i, v)) <= InFlight(s)
  {
    SumMonotone(s.tasks, ClaimsBelow(i, v), Unfinished());
  }

  lemma StartKeeps(s: State, s': State, most: nat)
    requires Kept(s, most) && Starts(s, s')
    ensures Kept(s', most)
  {
    forall i: nat, j: nat, v: nat |
      i < |s.us| && j < |s.us| && s.us[i].Available() && s.us[j].Available() && s.us[j].active <= v
      ensures Capped(s', i, v, most)
    {
      assert Capped(s, i, v, most);
      SumAppend(s.tasks, Scanning(0, None, 0), ClaimsBelow(i, v));
    }
  }

  /** A read makes a new claim only for the upstream just read, and only above its present load. */
  lemma ReadKeepsCapped(s: State, s': State, k: nat, t': Task, i: nat, j: nat, v: nat, most: nat)
    requires Kept(s, most) && Moves(s, s', k, t') && s.tasks[k].Scanning? && s.tasks[k].next < |s.us|
    requires i < |s.us| && j < |s.us| && s.us[i].Available() && s.us[j].Available() && s.us[j].active <= v
    requires InFlight(s') <= most
    ensures Capped(s', i, v, most)
  {
    var t := s.tasks[k];
    assert Capped(s, i, v, most);
    SumUpdate(s.tasks, k, t', ClaimsBelow(i, v));
    if ClaimsBelow(i, v)(t') > ClaimsBelow(i, v)(t) {
      assert s.us[i].active <= v;
      ClaimsAreInFlight(s', i, v);
    }
  }

  /** The choice of a finished scan has been counted as claimed for every load an upstream now has. */
  lemma SelectKeepsCapped(s: State, s': State, k: nat, t': Task, i: nat, j: nat, v: nat, most: nat)
    requires Kept(s, most) && Moves(s, s', k, t') && s.tasks[k].Scanning? && s.tasks[k].next == |s.us|
    requires i < |s.us| && j < |s.us| && s.us[i].Available() && s.us[j].Available() && s.us[j].active <= v
    ensures Capped(s', i, v, most)
  {
    assert s.tasks[k] in s.tasks;
    assert Capped(s, i, v, most);
    SumUpdate(s.tasks, k, t', ClaimsBelow(i, v));
  }

  /** Counting turns a claim into load. */
  lemma DialKeepsCapped(s: State, s': State, k: nat, t': Task, i: nat, j: nat, v: nat, most: nat)
    requires Kept(s, most) && Moves(s, s', k, t') && s.tasks[k].Dialing?
    requires i < |s.us| && j < |s.us| && s.us[i].Available() && s.us[j].Available()
    requires |s'.us| == |s.us| && s'.us[j].active <= v
    ensures Capped(s', i, v, most)
  {
    assert s.us[j].active <= s'.us[j].active;
    assert Capped(s, i, v, most);
    SumUpdate(s.tasks, k, t', ClaimsBelow(i, v));
  }

  lemma ReadKeepsScan(us: seq<UpstreamView>, t: Task)
    requires t.Scanning? && t.next < |us| && ScanOk(us, t)
    ensures ScanOk(us, ReadNext(us, t))
  {
  }

  lemma CountKeepsScan(us: seq<UpstreamView>, i: nat, t: Task)
    requires i < |us| && ScanOk(us, t)
    ensures ScanOk(Count(us, i), t)
  {
  }

  lemma MoveKeepsScans(s: State, s': State, k: nat, t': Task, most: nat)
    requires Kept(s, most) && Moves(s, s', k, t')
    ensures forall t | t in s'.tasks :: ScanOk(s'.us, t)
  {
    assert s.tasks[k] in s.tasks;
    if s.tasks[k].Scanning? && s.tasks[k].next < |s.us| {
      ReadKeepsScan(s.us, s.tasks[k]);
    }
    forall t | t in s'.tasks ensures ScanOk(s'.us, t) {
      if s.tasks[k].Dialing? && s'.us != s.us && t in s.tasks {
        CountKeepsScan(s.us, s.tasks[k].up, t);
      }
    }
  }

  lemma MoveKeeps(s: State, s': State, k: nat, t': Task, most: nat)
    requires Kept(s, most) && Moves(s, s', k, t') && InFlight(s') <= most
    ensures Kept(s', most)
  {
    MoveKeepsScans(s, s', k, t', most);
    var t := s.tasks[k];
    assert t in s.tasks;
    forall i: nat, j: nat, v: nat |
      i < |s'.us| && j < |s'.us| && s'.us[i].Available() && s'.us[j].Available() && s'.us[j].active <= v
      ensures Capped(s', i, v, most)
    {
      if t.Dialing? {
        DialKeepsCapped(s, s', k, t', i, j, v, most);
      } else if t.next < |s.us| {
        ReadKeepsCapped(s, s', k, t', i, j, v, most);
      } else {
        SelectKeepsCapped(s, s', k, t', i, j, v, most);
      }
    }
  }

  lemma InitialKept(s: State, d: nat, most: nat)
    requires Initial(s) && GapAtMost(s.us, d) && d <= most
    ensures Kept(s, most)
  {
  }

  lemma {:induction false} RunIsKept(run: seq<State>, n: nat, d: nat, m: nat)
    requires IsRun(run) && n < |run| && GapAtMost(run[0].us, d)
    requires forall k | 0 <= k <= n :: InFlight(run[k]) <= m
    ensures Kept(run[n], Max(d, m))
  {
    if n == 0 {
      InitialKept(run[0], d, Max(d, m));
    } else {
      RunIsKept(run, n - 1, d, m);
      var s, s' := run[n - 1], run[n];
      assert Next(s, s');
      if Starts(s, s') {
        StartKeeps(s, s', Max(d, m));
      } else {
        var k: nat, t' :| Moves(s, s', k, t');
        MoveKeeps(s, s', k, t', Max(d, m));
      }
    }
  }

  /**
   * However many connections come and however their steps interleave, as long as no more than `m` are ever between
   * the start of their selection and their being counted, the gap never exceeds the larger of its starting value
   * and `m`.
   */
  lemma GapWithInFlight(run: seq<State>, n: nat, d: nat, m: nat)
    requires IsRun(run) && n < |run| && GapAtMost(run[0].us, d)
    requires forall k | 0 <= k <= n :: InFlight(run[k]) <= m
    ensures GapAtMost(run[n].us, Max(d, m))
  {
    RunIsKept(run, n, d, m);
    var s := run[n];
    forall i: nat, j: nat | i < |s.us| && j < |s.us| && s.us[i].Available() && s.us[j].Available()
      ensures s.us[i].active <= s.us[j].active + Max(d, m)
    {
      assert Capped(s, i, s.us[j].active, Max(d, m));
      ClaimsNonNegative(s.tasks, i, s.us[j].active);
    }
  }

  lemma {:induction false} ClaimsNonNegative(tasks: seq<Task>, i: nat, v: nat)
    ensures SumOf(tasks, ClaimsBelow(i, v)) >= 0
  {
    if tasks != [] {
      ClaimsNonNegative(tasks[..|tasks| - 1], i, v);
    }
  }

  /** A scan during which no load changes chooses what the selection on one reading of the list chooses. */
  lemma {:induction false} UndisturbedScan(us: seq<UpstreamView>, n: nat)
    requires n <= |us|
    ensures var t := Scan(us, n);
            && t.Scanning? && t.next == n && t.best == LeastUpTo(us, n)
            && (t.best.Some? ==> t.least == us[t.best.value].active)
  {
    if n > 0 {
      UndisturbedScan(us, n - 1);
    }
  }

  function Scan(us: seq<UpstreamView>, n: nat): (t: Task)
    requires n <= |us|
    ensures t.Scanning? && t.next == n
  {
    if n == 0 then Scanning(0, None, 0) else ReadNext(us, Scan(us, n - 1))
  }

  // ---- The bound is reached ----

  lemma Extend(run: seq<State>, s: State) returns (longer: seq<State>)
    requires IsRun(run) && Next(run[|run| - 1], s)
    ensures IsRun(longer) && longer == run + [s]
  {
    longer := run + [s];
    forall i, j | 0 <= i < |longer| - 1 && j == i + 1 ensures Next(longer[i], longer[j]) {
      if j < |run| {
        assert Next(run[i], run[j]);
      }
    }
  }

  ghost predicate AtMostTasks(run: seq<State>, m: nat) {
    forall k | 0 <= k < |run| :: |run[k].tasks| <= m
  }

  function Dials(n: nat): (tasks: seq<Task>)
    ensures |tasks| == n && forall k | 0 <= k < n :: tasks[k] == Dialing(0)
  {
    seq(n, _ => Dialing(0))
  }

  /** Selections made one after the other, before any of them counts, all choose the first upstream. */
  lemma {:induction false} SelectAll(us: seq<UpstreamView>, m: nat) returns (run: seq<State>)
    requires |us| == 2 && us[0].Available() && us[1].Available() && us[0].active == us[1].active
    ensures IsRun(run) && AtMostTasks(run, m) && run[0].us == us && run[|run| - 1] == State(us, Dials(m))
  {
    if m == 0 {
      run := [State(us, [])];
      assert run[0] == State(us, Dials(0));
    } else {
      run := SelectAll(us, m - 1);
      var before := Dials(m - 1);
      var load := us[0].active;
      run := AddTask(run, us, before, Scanning(0, None, 0));
      run := LastTaskMoves(run, us, before, Scanning(0, None, 0), Scanning(1, Some(0), load));
      run := LastTaskMoves(run, us, before, Scanning(1, Some(0), load), Scanning(2, Some(0), load));
      run := LastTaskMoves(run, us, before, Scanning(2, Some(0), load), Dialing(0));
      assert before + [Dialing(0)] == Dials(m);
    }
  }

  lemma AddTask(run: seq<State>, us: seq<UpstreamView>, before: seq<Task>, t: Task) returns (longer: seq<State>)
    requires IsRun(run) && AtMostTasks(run, |before|) && run[|run| - 1] == State(us, before)
    requires t == Scanning(0, None, 0)
    ensures IsRun(longer) && AtMostTasks(longer, |before| + 1)
    ensures longer[0] == run[0] && longer[|longer| - 1] == State(us, before + [t])
  {
    assert Starts(run[|run| - 1], State(us, before + [t]));
    longer := Extend(run, State(us, before + [t]));
  }

  lemma LastTaskMoves(run: seq<State>, us: seq<UpstreamView>, before: seq<Task>, t: Task, t': Task)
    returns (longer: seq<State>)
    requires IsRun(run) && AtMostTasks(run, |before| + 1) && run[|run| - 1] == State(us, before + [t])
    requires TaskStep(us, t, us, t')
    ensures IsRun(longer) && AtMostTasks(longer, |before| + 1)
    ensures longer[0] == run[0] && longer[|longer| - 1] == State(us, before + [t'])
  {
    var s, s' := run[|run| - 1], State(us, before + [t']);
    assert s'.tasks == s.tasks[|before| := t'];
    assert Moves(s, s', |before|, t');
    longer := Extend(run, s');
  }

  /** The first `n` of `m` dials have been counted. */
  function Counted(m: nat, n: nat): (tasks: seq<Task>)
    requires n <= m
    ensures |tasks| == m && forall k | 0 <= k < m :: tasks[k] == if k < n then Over else Dialing(0)
  {
    seq(m, k => if k < n then Over else Dialing(0))
  }

  function Loaded(us: seq<UpstreamView>, n: nat): seq<UpstreamView>
    requires |us| == 2
  {
    us[0 := us[0].(active := us[0].active + n)]
  }

  lemma {:induction false} CountAll(us: seq<UpstreamView>, m: nat, n: nat) returns (run: seq<State>)
    requires |us| == 2 && us[0].Available() && us[1].Available() && us[0].active == us[1].active && n <= m
    ensures IsRun(run) && AtMostTasks(run, m) && run[0].us == us
    ensures run[|run| - 1] == State(Loaded(us, n), Counted(m, n))
  {
    if n == 0 {
      run := SelectAll(us, m);
      assert Dials(m) == Counted(m, 0) && Loaded(us, 0) == us;
    } else {
      run := CountAll(us, m, n - 1);
      var s, s' := run[|run| - 1], State(Loaded(us, n), Counted(m, n));
      assert Count(s.us, 0) == s'.us && s'.tasks == s.tasks[n - 1 := Over];
      assert Moves(s, s', n - 1, Over);
      run := Extend(run, s');
    }
  }

  lemma {:induction false} InFlightAtMost(tasks: seq<Task>)
    ensures SumOf(tasks, Unfinished()) <= |tasks|
  {
    if tasks != [] {
      InFlightAtMost(tasks[..|tasks| - 1]);
    }
  }

  /** For every `m` the bound is reached: from two equal loads, `m` connections in flight end in a gap of `m`. */
  lemma GapIsReached(us: seq<UpstreamView>, m: nat) returns (run: seq<State>)
    requires |us| == 2 && us[0].Available() && us[1].Available() && us[0].active == us[1].active
    ensures IsRun(run) && run[0].us == us && forall k | 0 <= k < |run| :: InFlight(run[k]) <= m
    ensures var last := run[|run| - 1].us; |last| == 2 && last[0].active == last[1].active + m
  {
    run := CountAll(us, m, m);
    forall k | 0 <= k < |run| ensures InFlight(run[k]) <= m {
      InFlightAtMost(run[k].tasks);
    }
  }
}
