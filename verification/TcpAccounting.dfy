/**
 * The TCP proxy's counters, its own and those of its upstreams, under every interleaving of connection tasks,
 * with each atomic update a step of its own.
 */
module TcpAccounting {
  import opened Runs
  import opened Sums

  /** What a connection came to: `pooled` if it went over a pooled connection, `ok` if its streaming succeeded. */
  datatype Fate = NoUpstream | NotConnected(up: nat) | Served(up: nat, pooled: bool, ok: bool)

  datatype Task =
    | Arrived                            // connection accepted
    | Counted                            // in the total, not yet active
    | Working                            // selecting an upstream
    | Chosen(up: nat)                    // upstream selected, pool not yet asked
    | Dialing(up: nat)                   // nothing pooled, connecting anew
    | Connected(up: nat, pooled: bool)   // about to stream
    | Streaming(up: nat, pooled: bool)
    | Streamed(up: nat, pooled: bool)    // connection count given back, outcome not yet recorded
    | Succeeding(up: nat, pooled: bool)  // request recorded, response not yet
    | Failing(up: nat, pooled: bool)     // request recorded, failure not yet
    | Closing(fate: Fate)                // processing over, still active
    | Closed(fate: Fate)                 // no longer active
    | Timed(fate: Fate)                  // duration added to the sum, not yet counted
    | Done(fate: Fate)

  datatype Upstream = Upstream(connections: int, requests: int, responses: int, failures: int)

  /** `selections` counts the connections for which the router found an upstream. */
  datatype Shared = Shared(
    total: int, active: int, durations: nat, finished: int, selections: int, hits: int, misses: int,
    upstreams: seq<Upstream>)

  datatype State = State(shared: Shared, tasks: seq<Task>)

  function Put(h: Shared, u: nat, x: Upstream): Shared
    requires u < |h.upstreams|
  {
    h.(upstreams := h.upstreams[u := x])
  }

  ghost predicate TaskStep(h: Shared, t: Task, h': Shared, t': Task) {
    match t
    case Arrived => h' == h.(total := h.total + 1) && t' == Counted
    case Counted => h' == h.(active := h.active + 1) && t' == Working
    case Working =>
      (h' == h && t' == Closing(NoUpstream))
      || (h' == h.(selections := h.selections + 1) && t'.Chosen? && t'.up < |h.upstreams|)
    case Chosen(u) =>
      (h' == h.(hits := h.hits + 1) && t' == Connected(u, true))
      || (h' == h.(misses := h.misses + 1) && t' == Dialing(u))
    case Dialing(u) => h' == h && (t' == Connected(u, false) || t' == Closing(NotConnected(u)))
    case Connected(u, pooled) =>
      u < |h.upstreams| && t' == Streaming(u, pooled)
      && h' == Put(h, u, h.upstreams[u].(connections := h.upstreams[u].connections + 1))
    case Streaming(u, pooled) =>
      u < |h.upstreams| && t' == Streamed(u, pooled)
      && h' == Put(h, u, h.upstreams[u].(connections := h.upstreams[u].connections - 1))
    case Streamed(u, pooled) =>
      u < |h.upstreams| && (t' == Succeeding(u, pooled) || t' == Failing(u, pooled))
      && h' == Put(h, u, h.upstreams[u].(requests := h.upstreams[u].requests + 1))
    case Succeeding(u, pooled) =>
      u < |h.upstreams| && t' == Closing(Served(u, pooled, true))
      && h' == Put(h, u, h.upstreams[u].(responses := h.upstreams[u].responses + 1))
    case Failing(u, pooled) =>
      u < |h.upstreams| && t' == Closing(Served(u, pooled, false))
      && h' == Put(h, u, h.upstreams[u].(failures := h.upstreams[u].failures + 1))
    case Closing(fate) => h' == h.(active := h.active - 1) && t' == Closed(fate)
    case Closed(fate) => t' == Timed(fate) && h'.durations >= h.durations && h' == h.(durations := h'.durations)
    case Timed(fate) => h' == h.(finished := h.finished + 1) && t' == Done(fate)
    case Done(_) => false
  }

  ghost predicate Moves(s: State, s': State, i: nat, t': Task) {
    i < |s.tasks| && TaskStep(s.shared, s.tasks[i], s'.shared, t') && s'.tasks == s.tasks[i := t']
  }

  ghost predicate Next(s: State, s': State) {
    s' == s.(tasks := s.tasks + [Arrived]) || (exists i: nat, t' :: Moves(s, s', i, t'))
  }

  predicate Initial(s: State) {
    && s.tasks == []
    && s.shared.total == s.shared.active == s.shared.finished == s.shared.durations == 0
    && s.shared.selections == s.shared.hits == s.shared.misses == 0
    && forall x | x in s.shared.upstreams :: x == Upstream(0, 0, 0, 0)
  }

  ghost predicate IsRun(run: seq<State>) {
    RunOf(run, Initial, Next)
  }

  // ---- What each task accounts for ----

  predicate IsActive(t: Task) {
    !(t.Arrived? || t.Counted? || t.Closed? || t.Timed? || t.Done?)
  }

  /** One for a task between the total and the active count, or between the active and the finished count. */
  function BetweenCounts(): Task -> int {
    (t: Task) => if t.Counted? || t.Closed? || t.Timed? then 1 else 0
  }

  function Active(): Task -> int {
    (t: Task) => if IsActive(t) then 1 else 0
  }

  function AskingPool(): Task -> int {
    (t: Task) => if t.Chosen? then 1 else 0
  }

  function AnyStreaming(): Task -> int {
    (t: Task) => if t.Streaming? then 1 else 0
  }

  function StreamingOn(u: nat): Task -> int {
    (t: Task) => if t.Streaming? && t.up == u then 1 else 0
  }

  function RecordingOn(u: nat): Task -> int {
    (t: Task) => if (t.Succeeding? || t.Failing?) && t.up == u then 1 else 0
  }

  /** The task took a pooled connection; it had to dial; it is recorded on `u` as a success; as a failure. */
  predicate TookPooled(t: Task) {
    match t
    case Connected(_, pooled) => pooled
    case Streaming(_, pooled) => pooled
    case Streamed(_, pooled) => pooled
    case Succeeding(_, pooled) => pooled
    case Failing(_, pooled) => pooled
    case _ => Ended(t) && t.fate.Served? && t.fate.pooled
  }

  predicate HadToDial(t: Task) {
    match t
    case Dialing(_) => true
    case Connected(_, pooled) => !pooled
    case Streaming(_, pooled) => !pooled
    case Streamed(_, pooled) => !pooled
    case Succeeding(_, pooled) => !pooled
    case Failing(_, pooled) => !pooled
    case _ => Ended(t) && (t.fate.NotConnected? || (t.fate.Served? && !t.fate.pooled))
  }

  predicate Ended(t: Task) {
    t.Closing? || t.Closed? || t.Timed? || t.Done?
  }

  predicate EndedOn(t: Task, u: nat, ok: bool) {
    Ended(t) && t.fate.Served? && t.fate.up == u && t.fate.ok == ok
  }

  function Pooled(): Task -> int {
    (t: Task) => if TookPooled(t) then 1 else 0
  }

  function Dialed(): Task -> int {
    (t: Task) => if HadToDial(t) then 1 else 0
  }

  function EndedAs(u: nat, ok: bool): Task -> int {
    (t: Task) => if EndedOn(t, u, ok) then 1 else 0
  }

  function Connections(): Upstream -> int {
    (x: Upstream) => x.connections
  }

  function Unrecorded(x: Upstream): int {
    x.requests - x.responses - x.failures
  }

  ghost predicate Accounted(s: State) {
    var h := s.shared;
    && h.total - h.active - h.finished == SumOf(s.tasks, BetweenCounts())
    && h.active == SumOf(s.tasks, Active())
    && h.selections - h.hits - h.misses == SumOf(s.tasks, AskingPool())
    && SumOf(h.upstreams, Connections()) == SumOf(s.tasks, AnyStreaming())
    && forall u | 0 <= u < |h.upstreams| ::
         && h.upstreams[u].connections == SumOf(s.tasks, StreamingOn(u))
         && Unrecorded(h.upstreams[u]) == SumOf(s.tasks, RecordingOn(u))
  }

  /** What one step does to the proxy's own counters. */
  lemma StepMovesOwnCounters(h: Shared, t: Task, h': Shared, t': Task)
    requires TaskStep(h, t, h', t')
    ensures (h'.total - h'.active - h'.finished) - (h.total - h.active - h.finished)
         == BetweenCounts()(t') - BetweenCounts()(t)
    ensures h'.active - h.active == Active()(t') - Active()(t)
    ensures (h'.selections - h'.hits - h'.misses) - (h.selections - h.hits - h.misses)
         == AskingPool()(t') - AskingPool()(t)
  {
  }

  /** What it does to the upstreams' connections taken together. */
  lemma StepMovesConnections(h: Shared, t: Task, h': Shared, t': Task)
    requires TaskStep(h, t, h', t')
    ensures SumOf(h'.upstreams, Connections()) - SumOf(h.upstreams, Connections())
         == AnyStreaming()(t') - AnyStreaming()(t)
  {
    if h'.upstreams != h.upstreams {
      var u := match t
        case Connected(u, _) => u
        case Streaming(u, _) => u
        case Streamed(u, _) => u
        case Succeeding(u, _) => u
        case Failing(u, _) => u
        case _ => 0;
      SumUpdate(h.upstreams, u, h'.upstreams[u], Connections());
    }
  }

  /** What it does to the counters of upstream `u`. */
  lemma StepMovesUpstreamCounters(h: Shared, t: Task, h': Shared, t': Task, u: nat)
    requires TaskStep(h, t, h', t') && u < |h.upstreams|
    ensures |h'.upstreams| == |h.upstreams|
    ensures h'.upstreams[u].connections - h.upstreams[u].connections == StreamingOn(u)(t') - StreamingOn(u)(t)
    ensures Unrecorded(h'.upstreams[u]) - Unrecorded(h.upstreams[u]) == RecordingOn(u)(t') - RecordingOn(u)(t)
  {
  }

  lemma NextKeepsAccounted(s: State, s': State)
    requires Accounted(s) && Next(s, s')
    ensures Accounted(s')
  {
    if s' == s.(tasks := s.tasks + [Arrived]) {
      StartKeepsAccounted(s, s');
    } else {
      var i: nat, t' :| Moves(s, s', i, t');
      MoveKeepsOwn(s, s', i, t');
      StepKeepsLength(s.shared, s.tasks[i], s'.shared, t');
      forall u | 0 <= u < |s'.shared.upstreams|
        ensures s'.shared.upstreams[u].connections == SumOf(s'.tasks, StreamingOn(u))
        ensures Unrecorded(s'.shared.upstreams[u]) == SumOf(s'.tasks, RecordingOn(u))
      {
        MoveKeepsUpstream(s, s', i, t', u);
      }
    }
  }

  lemma StartKeepsAccounted(s: State, s': State)
    requires Accounted(s) && s' == s.(tasks := s.tasks + [Arrived])
    ensures Accounted(s')
  {
    SumAppend(s.tasks, Arrived, BetweenCounts());
    SumAppend(s.tasks, Arrived, Active());
    SumAppend(s.tasks, Arrived, AskingPool());
    SumAppend(s.tasks, Arrived, AnyStreaming());
    forall u | 0 <= u < |s.shared.upstreams|
      ensures SumOf(s'.tasks, StreamingOn(u)) == SumOf(s.tasks, StreamingOn(u))
      ensures SumOf(s'.tasks, RecordingOn(u)) == SumOf(s.tasks, RecordingOn(u))
    {
      StartKeepsUpstream(s, u);
    }
  }

  lemma StartKeepsUpstream(s: State, u: nat)
    ensures SumOf(s.tasks + [Arrived], StreamingOn(u)) == SumOf(s.tasks, StreamingOn(u))
    ensures SumOf(s.tasks + [Arrived], RecordingOn(u)) == SumOf(s.tasks, RecordingOn(u))
  {
    SumAppend(s.tasks, Arrived, StreamingOn(u));
    SumAppend(s.tasks, Arrived, RecordingOn(u));
  }

  lemma MoveKeepsUpstream(s: State, s': State, i: nat, t': Task, u: nat)
    requires Accounted(s) && Moves(s, s', i, t') && u < |s.shared.upstreams| == |s'.shared.upstreams|
    ensures s'.shared.upstreams[u].connections == SumOf(s'.tasks, StreamingOn(u))
    ensures Unrecorded(s'.shared.upstreams[u]) == SumOf(s'.tasks, RecordingOn(u))
  {
    StepMovesUpstreamCounters(s.shared, s.tasks[i], s'.shared, t', u);
    SumUpdate(s.tasks, i, t', StreamingOn(u));
    SumUpdate(s.tasks, i, t', RecordingOn(u));
  }

  lemma MoveKeepsOwn(s: State, s': State, i: nat, t': Task)
    requires Accounted(s) && Moves(s, s', i, t')
    ensures var h := s'.shared;
            && h.total - h.active - h.finished == SumOf(s'.tasks, BetweenCounts())
            && h.active == SumOf(s'.tasks, Active())
            && h.selections - h.hits - h.misses == SumOf(s'.tasks, AskingPool())
            && SumOf(h.upstreams, Connections()) == SumOf(s'.tasks, AnyStreaming())
  {
    StepMovesOwnCounters(s.shared, s.tasks[i], s'.shared, t');
    StepMovesConnections(s.shared, s.tasks[i], s'.shared, t');
    SumUpdate(s.tasks, i, t', BetweenCounts());
    SumUpdate(s.tasks, i, t', Active());
    SumUpdate(s.tasks, i, t', AskingPool());
    SumUpdate(s.tasks, i, t', AnyStreaming());
  }

  lemma StepKeepsLength(h: Shared, t: Task, h': Shared, t': Task)
    requires TaskStep(h, t, h', t')
    ensures |h'.upstreams| == |h.upstreams|
  {
  }

  lemma InitialAccounted(s: State)
    requires Initial(s)
    ensures Accounted(s)
  {
    forall x | x in s.shared.upstreams ensures Connections()(x) == 0 {
    }
    SumZero(s.shared.upstreams, Connections());
    forall u | 0 <= u < |s.shared.upstreams| ensures s.shared.upstreams[u] == Upstream(0, 0, 0, 0) {
      assert s.shared.upstreams[u] in s.shared.upstreams;
    }
  }

  lemma RunIsAccounted(run: seq<State>, n: nat)
    requires IsRun(run) && n < |run|
    ensures Accounted(run[n])
  {
    forall s | Initial(s) ensures Accounted(s) {
      InitialAccounted(s);
    }
    forall s, s' | Accounted(s) && Next(s, s') ensures Accounted(s') {
      NextKeepsAccounted(s, s');
    }
    InvariantHolds(run, Initial, Next, Accounted, n);
  }

  /** A weight of one or zero adds up to a count. */
  lemma {:induction false} SumIsCount(tasks: seq<Task>, f: Task -> int, p: Task -> bool)
    requires forall t | t in tasks :: f(t) == if p(t) then 1 else 0
    ensures SumOf(tasks, f) == CountOf(tasks, p)
  {
    if tasks != [] {
      assert tasks[|tasks| - 1] in tasks;
      SumIsCount(tasks[..|tasks| - 1], f, p);
    }
  }

  /**
   * In every reachable state: connections not accounted for as active or finished are just those between two
   * counts; the upstreams' connection counts add up to the streaming tasks and never exceed the active ones; and
   * every selection is one pool hit or one miss.
   */
  lemma ConnectionsAddUp(run: seq<State>, n: nat)
    requires IsRun(run) && n < |run|
    ensures var h, tasks := run[n].shared, run[n].tasks;
            && h.total - h.active - h.finished == CountOf(tasks, (t: Task) => t.Counted? || t.Closed? || t.Timed?)
            && SumOf(h.upstreams, Connections()) == CountOf(tasks, (t: Task) => t.Streaming?) <= h.active
            && h.selections - h.hits - h.misses == CountOf(tasks, (t: Task) => t.Chosen?)
  {
    var tasks := run[n].tasks;
    RunIsAccounted(run, n);
    SumIsCount(tasks, BetweenCounts(), (t: Task) => t.Counted? || t.Closed? || t.Timed?);
    SumIsCount(tasks, AnyStreaming(), (t: Task) => t.Streaming?);
    SumIsCount(tasks, AskingPool(), (t: Task) => t.Chosen?);
    SumMonotone(tasks, AnyStreaming(), Active());
  }

  /** And for each upstream by itself: its connections are its streams, its unrecorded requests those mid-record. */
  lemma UpstreamAddsUp(run: seq<State>, n: nat, u: nat)
    requires IsRun(run) && n < |run| && u < |run[n].shared.upstreams|
    ensures var x, tasks := run[n].shared.upstreams[u], run[n].tasks;
            && x.connections == CountOf(tasks, (t: Task) => t.Streaming? && t.up == u)
            && x.requests - x.responses - x.failures
               == CountOf(tasks, (t: Task) => (t.Succeeding? || t.Failing?) && t.up == u)
  {
    RunIsAccounted(run, n);
    SumIsCount(run[n].tasks, StreamingOn(u), (t: Task) => t.Streaming? && t.up == u);
    SumIsCount(run[n].tasks, RecordingOn(u), (t: Task) => (t.Succeeding? || t.Failing?) && t.up == u);
  }

  // ---- Each counter by itself ----

  ghost predicate UpstreamExact(s: State, u: nat)
    requires u < |s.shared.upstreams|
  {
    && s.shared.upstreams[u].responses == SumOf(s.tasks, EndedAs(u, true))
    && s.shared.upstreams[u].failures == SumOf(s.tasks, EndedAs(u, false))
  }

  ghost predicate Exact(s: State) {
    && s.shared.hits == SumOf(s.tasks, Pooled())
    && s.shared.misses == SumOf(s.tasks, Dialed())
    && forall u | 0 <= u < |s.shared.upstreams| :: UpstreamExact(s, u)
  }

  lemma StepMovesPoolCounts(h: Shared, t: Task, h': Shared, t': Task)
    requires TaskStep(h, t, h', t')
    ensures h'.hits - h.hits == Pooled()(t') - Pooled()(t)
    ensures h'.misses - h.misses == Dialed()(t') - Dialed()(t)
  {
  }

  lemma StepMovesOutcomes(h: Shared, t: Task, h': Shared, t': Task, u: nat)
    requires TaskStep(h, t, h', t') && u < |h.upstreams| == |h'.upstreams|
    ensures h'.upstreams[u].responses - h.upstreams[u].responses == EndedAs(u, true)(t') - EndedAs(u, true)(t)
    ensures h'.upstreams[u].failures - h.upstreams[u].failures == EndedAs(u, false)(t') - EndedAs(u, false)(t)
  {
  }

  lemma MoveKeepsExactUpstream(s: State, s': State, i: nat, t': Task, u: nat)
    requires Moves(s, s', i, t') && u < |s.shared.upstreams| == |s'.shared.upstreams| && UpstreamExact(s, u)
    ensures UpstreamExact(s', u)
  {
    StepMovesOutcomes(s.shared, s.tasks[i], s'.shared, t', u);
    SumUpdate(s.tasks, i, t', EndedAs(u, true));
    SumUpdate(s.tasks, i, t', EndedAs(u, false));
  }

  lemma NextKeepsExact(s: State, s': State)
    requires Exact(s) && Next(s, s')
    ensures Exact(s')
  {
    if s' == s.(tasks := s.tasks + [Arrived]) {
      SumAppend(s.tasks, Arrived, Pooled());
      SumAppend(s.tasks, Arrived, Dialed());
      forall u | 0 <= u < |s'.shared.upstreams| ensures UpstreamExact(s', u) {
        assert UpstreamExact(s, u);
        SumAppend(s.tasks, Arrived, EndedAs(u, true));
        SumAppend(s.tasks, Arrived, EndedAs(u, false));
      }
    } else {
      var i: nat, t' :| Moves(s, s', i, t');
      StepMovesPoolCounts(s.shared, s.tasks[i], s'.shared, t');
      SumUpdate(s.tasks, i, t', Pooled());
      SumUpdate(s.tasks, i, t', Dialed());
      StepKeepsLength(s.shared, s.tasks[i], s'.shared, t');
      forall u | 0 <= u < |s'.shared.upstreams| ensures UpstreamExact(s', u) {
        MoveKeepsExactUpstream(s, s', i, t', u);
      }
    }
  }

  lemma InitialExact(s: State)
    requires Initial(s)
    ensures Exact(s)
  {
    forall u | 0 <= u < |s.shared.upstreams| ensures UpstreamExact(s, u) {
      assert s.shared.upstreams[u] in s.shared.upstreams;
    }
  }

  lemma RunIsExact(run: seq<State>, n: nat)
    requires IsRun(run) && n < |run|
    ensures Exact(run[n])
  {
    forall s | Initial(s) ensures Exact(s) {
      InitialExact(s);
    }
    forall s, s' | Exact(s) && Next(s, s') ensures Exact(s') {
      NextKeepsExact(s, s');
    }
    InvariantHolds(run, Initial, Next, Exact, n);
  }

  /**
   * Under every interleaving each of these counters counts just its own cases: pool hits the connections taken from
   * the pool, misses those that had to dial, responses the streams of the upstream that succeeded, failures those
   * that failed.
   */
  lemma FatesAddUp(run: seq<State>, n: nat)
    requires IsRun(run) && n < |run|
    ensures var h, tasks := run[n].shared, run[n].tasks;
            && h.hits == CountOf(tasks, (t: Task) => TookPooled(t))
            && h.misses == CountOf(tasks, (t: Task) => HadToDial(t))
            && forall u | 0 <= u < |h.upstreams| ::
                 && h.upstreams[u].responses == CountOf(tasks, (t: Task) => EndedOn(t, u, true))
                 && h.upstreams[u].failures == CountOf(tasks, (t: Task) => EndedOn(t, u, false))
  {
    var tasks := run[n].tasks;
    RunIsExact(run, n);
    SumIsCount(tasks, Pooled(), (t: Task) => TookPooled(t));
    SumIsCount(tasks, Dialed(), (t: Task) => HadToDial(t));
    forall u | 0 <= u < |run[n].shared.upstreams|
      ensures run[n].shared.upstreams[u].responses == CountOf(tasks, (t: Task) => EndedOn(t, u, true))
      ensures run[n].shared.upstreams[u].failures == CountOf(tasks, (t: Task) => EndedOn(t, u, false))
    {
      assert UpstreamExact(run[n], u);
      SumIsCount(tasks, EndedAs(u, true), (t: Task) => EndedOn(t, u, true));
      SumIsCount(tasks, EndedAs(u, false), (t: Task) => EndedOn(t, u, false));
    }
  }

  /** With every task finished or not yet begun, all gaps are closed. */
  lemma QuiescentGapsAreZero(run: seq<State>, n: nat)
    requires IsRun(run) && n < |run|
    requires forall t | t in run[n].tasks :: t.Arrived? || t.Done?
    ensures var h := run[n].shared;
            && h.active == 0 && h.total == h.finished && h.selections == h.hits + h.misses
            && forall u | 0 <= u < |h.upstreams| ::
                 var x := h.upstreams[u]; x.connections == 0 && x.requests == x.responses + x.failures
  {
    var tasks := run[n].tasks;
    RunIsAccounted(run, n);
    SumZero(tasks, BetweenCounts());
    SumZero(tasks, Active());
    SumZero(tasks, AskingPool());
    forall u | 0 <= u < |run[n].shared.upstreams|
      ensures SumOf(tasks, StreamingOn(u)) == 0 && SumOf(tasks, RecordingOn(u)) == 0
    {
      SumZero(tasks, StreamingOn(u));
      SumZero(tasks, RecordingOn(u));
    }
  }
}
