/** The HTTP proxy's request accounting under every interleaving of request tasks. */
module HttpAccounting {
  import opened Runs
  import opened Sums
  import opened HttpMetrics

  /** What a request came to: never handed to an upstream, or answered by it, or failed there. */
  datatype Fate = NotSent | Sent(up: nat, ok: bool)

  datatype Task =
    | Arrived
    | Counted                            // in the total, not yet active
    | Processing                         // selecting an upstream and building the request
    | Sending(up: nat)                   // request handed to the upstream, outcome not yet recorded
    | Succeeding(up: nat)                // request recorded, response not yet
    | Failing(up: nat)                   // request recorded, failure not yet
    | Received(up: nat)                  // outcome recorded, response being prepared
    | Answered(status: nat, fate: Fate)  // processing over, still active
    | Inactive(status: nat, fate: Fate)  // duration not yet recorded
    | Measured(status: nat, fate: Fate)  // status not yet counted
    | Done(status: nat, fate: Fate)

  /** `sent` counts the requests handed to the upstream; the others are its statistics. */
  datatype Upstream = Upstream(sent: int, requests: int, responses: int, failures: int)

  /** `history` lists every duration recorded, in the order of recording; `durations` is the window kept. */
  datatype Shared = Shared(
    total: int, active: int, history: seq<real>, durations: seq<real>, statuses: map<nat, nat>,
    upstreams: seq<Upstream>)

  datatype State = State(shared: Shared, tasks: seq<Task>)

  function Put(h: Shared, u: nat, x: Upstream): Shared
    requires u < |h.upstreams|
  {
    h.(upstreams := h.upstreams[u := x])
  }

  ghost predicate TaskStep(h: Shared, t: Task, h': Shared, t': Task) {
    match t
    case Arrived => h' == h.(total := h.total + 1) && t' == Counted
    case Counted => h' == h.(active := h.active + 1) && t' == Processing
    case Processing =>
      (h' == h && t' == Answered(502, NotSent))
      || (t'.Sending? && t'.up < |h.upstreams|
          && h' == Put(h, t'.up, h.upstreams[t'.up].(sent := h.upstreams[t'.up].sent + 1)))
    case Sending(u) =>
      u < |h.upstreams| && (t' == Succeeding(u) || t' == Failing(u))
      && h' == Put(h, u, h.upstreams[u].(requests := h.upstreams[u].requests + 1))
    case Succeeding(u) =>
      u < |h.upstreams| && t' == Received(u)
      && h' == Put(h, u, h.upstreams[u].(responses := h.upstreams[u].responses + 1))
    case Failing(u) =>
      u < |h.upstreams| && t' == Answered(502, Sent(u, false))
      && h' == Put(h, u, h.upstreams[u].(failures := h.upstreams[u].failures + 1))
    case Received(u) => h' == h && t'.Answered? && t'.fate == Sent(u, true)
    case Answered(st, fate) => h' == h.(active := h.active - 1) && t' == Inactive(st, fate)
    case Inactive(st, fate) =>
      t' == Measured(st, fate)
      && exists d :: h' == h.(history := h.history + [d], durations := PushDuration(h.durations, d))
    case Measured(st, fate) => h' == h.(statuses := Increment(h.statuses, st)) && t' == Done(st, fate)
    case Done(_, _) => false
  }

  ghost predicate Moves(s: State, s': State, i: nat, t': Task) {
    i < |s.tasks| && TaskStep(s.shared, s.tasks[i], s'.shared, t') && s'.tasks == s.tasks[i := t']
  }

  ghost predicate Next(s: State, s': State) {
    s' == s.(tasks := s.tasks + [Arrived]) || (exists i: nat, t' :: Moves(s, s', i, t'))
  }

  predicate Initial(s: State) {
    && s.tasks == [] && s.shared.total == s.shared.active == 0
    && s.shared.history == s.shared.durations == [] && s.shared.statuses == map[]
    && forall x | x in s.shared.upstreams :: x == Upstream(0, 0, 0, 0)
  }

  ghost predicate IsRun(run: seq<State>) {
    RunOf(run, Initial, Next)
  }

  // ---- What each task accounts for ----

  function InFlight(): Task -> int {
    (t: Task) => if t.Arrived? || t.Done? then 0 else 1
  }

  function Active(): Task -> int {
    (t: Task) =>
      if t.Processing? || t.Sending? || t.Succeeding? || t.Failing? || t.Received? || t.Answered? then 1 else 0
  }

  predicate IsUntimed(t: Task) {
    !t.Arrived? && !t.Measured? && !t.Done?
  }

  function Untimed(): Task -> int {
    (t: Task) => if IsUntimed(t) then 1 else 0
  }

  function SendingTo(u: nat): Task -> int {
    (t: Task) => if t == Sending(u) then 1 else 0
  }

  function RecordingOn(u: nat): Task -> int {
    (t: Task) => if t == Succeeding(u) || t == Failing(u) then 1 else 0
  }

  function Unanswered(x: Upstream): int {
    x.sent - x.requests
  }

  function Unrecorded(x: Upstream): int {
    x.requests - x.responses - x.failures
  }

  ghost predicate OwnAccounted(s: State) {
    var h := s.shared;
    && h.total - Total(h.statuses) == SumOf(s.tasks, InFlight())
    && h.active == SumOf(s.tasks, Active())
    && h.total - |h.history| == SumOf(s.tasks, Untimed())
  }

  ghost predicate UpstreamAccounted(s: State, u: nat)
    requires u < |s.shared.upstreams|
  {
    && Unanswered(s.shared.upstreams[u]) == SumOf(s.tasks, SendingTo(u))
    && Unrecorded(s.shared.upstreams[u]) == SumOf(s.tasks, RecordingOn(u))
  }

  ghost predicate Accounted(s: State) {
    && OwnAccounted(s)
    && s.shared.durations == WindowOf(s.shared.history)
    && forall u | 0 <= u < |s.shared.upstreams| :: UpstreamAccounted(s, u)
  }

  /** What one step does to the proxy's own counters. */
  lemma StepMovesOwn(h: Shared, t: Task, h': Shared, t': Task)
    requires TaskStep(h, t, h', t')
    ensures (h'.total - Total(h'.statuses)) - (h.total - Total(h.statuses)) == InFlight()(t') - InFlight()(t)
    ensures h'.active - h.active == Active()(t') - Active()(t)
    ensures (h'.total - |h'.history|) - (h.total - |h.history|) == Untimed()(t') - Untimed()(t)
    ensures |h'.upstreams| == |h.upstreams|
  {
    if t.Measured? {
      IncrementAddsOne(h.statuses, t.status);
    }
  }

  /** What it does to the duration window. */
  lemma StepKeepsWindow(h: Shared, t: Task, h': Shared, t': Task)
    requires TaskStep(h, t, h', t') && h.durations == WindowOf(h.history)
    ensures h'.durations == WindowOf(h'.history)
  {
    if t.Inactive? {
      var d :| h' == h.(history := h.history + [d], durations := PushDuration(h.durations, d));
      assert h'.history[..|h'.history| - 1] == h.history;
    }
  }

  /** What it does to the counters of upstream `u`. */
  lemma StepMovesUpstream(h: Shared, t: Task, h': Shared, t': Task, u: nat)
    requires TaskStep(h, t, h', t') && u < |h.upstreams| == |h'.upstreams|
    ensures Unanswered(h'.upstreams[u]) - Unanswered(h.upstreams[u]) == SendingTo(u)(t') - SendingTo(u)(t)
    ensures Unrecorded(h'.upstreams[u]) - Unrecorded(h.upstreams[u]) == RecordingOn(u)(t') - RecordingOn(u)(t)
  {
  }

  lemma MoveKeepsCount(s: State, s': State, i: nat, t': Task, count: int, count': int, f: Task -> int)
    requires i < |s.tasks| && s'.tasks == s.tasks[i := t'] && count == SumOf(s.tasks, f)
    requires count' - count == f(t') - f(s.tasks[i])
    ensures count' == SumOf(s'.tasks, f)
  {
    SumUpdate(s.tasks, i, t', f);
  }

  lemma MoveKeepsOwn(s: State, s': State, i: nat, t': Task)
    requires OwnAccounted(s) && Moves(s, s', i, t')
    ensures OwnAccounted(s') && |s'.shared.upstreams| == |s.shared.upstreams|
  {
    var h, h' := s.shared, s'.shared;
    StepMovesOwn(h, s.tasks[i], h', t');
    MoveKeepsCount(s, s', i, t', h.total - Total(h.statuses), h'.total - Total(h'.statuses), InFlight());
    MoveKeepsCount(s, s', i, t', h.active, h'.active, Active());
    MoveKeepsCount(s, s', i, t', h.total - |h.history|, h'.total - |h'.history|, Untimed());
  }

  lemma MoveKeepsUpstream(s: State, s': State, i: nat, t': Task, u: nat)
    requires Moves(s, s', i, t') && u < |s.shared.upstreams| == |s'.shared.upstreams| && UpstreamAccounted(s, u)
    ensures UpstreamAccounted(s', u)
  {
    StepMovesUpstream(s.shared, s.tasks[i], s'.shared, t', u);
    SumUpdate(s.tasks, i, t', SendingTo(u));
    SumUpdate(s.tasks, i, t', RecordingOn(u));
  }

  lemma StartKeepsAccounted(s: State, s': State)
    requires Accounted(s) && s' == s.(tasks := s.tasks + [Arrived])
    ensures Accounted(s')
  {
    SumAppend(s.tasks, Arrived, InFlight());
    SumAppend(s.tasks, Arrived, Active());
    SumAppend(s.tasks, Arrived, Untimed());
    forall u | 0 <= u < |s'.shared.upstreams| ensures UpstreamAccounted(s', u) {
      assert UpstreamAccounted(s, u);
      SumAppend(s.tasks, Arrived, SendingTo(u));
      SumAppend(s.tasks, Arrived, RecordingOn(u));
    }
  }

  lemma NextKeepsAccounted(s: State, s': State)
    requires Accounted(s) && Next(s, s')
    ensures Accounted(s')
  {
    if s' == s.(tasks := s.tasks + [Arrived]) {
      StartKeepsAccounted(s, s');
    } else {
      var i: nat, t' :| Moves(s, s', i, t');
      MoveKeepsOwn(s, s', i, t');
      StepKeepsWindow(s.shared, s.tasks[i], s'.shared, t');
      forall u | 0 <= u < |s'.shared.upstreams| ensures UpstreamAccounted(s', u) {
        MoveKeepsUpstream(s, s', i, t', u);
      }
    }
  }

  lemma InitialAccounted(s: State)
    requires Initial(s)
    ensures Accounted(s)
  {
    forall u | 0 <= u < |s.shared.upstreams| ensures UpstreamAccounted(s, u) {
      assert s.shared.upstreams[u] in s.shared.upstreams;
    }
  }

  lemma RunIsAccounted(run: seq<State>, n: nat)
    requires IsRun(run) && n < |run|
    ensures Accounted(run[n])
  {
    forall s | Initial(s) ensures Accounted(s) {
      InitialAccounted(s);
    }
    forall s, s' | Accounted(s) && Next(s, s') ensures Accounted(s') {
      NextKeepsAccounted(s, s');
    }
    InvariantHolds(run, Initial, Next, Accounted, n);
  }

  /**
   * In every reachable state the status counts fall short of the total by the requests in flight, the durations
   * recorded by those that have not got that far, and the window holds exactly the last durations recorded, their
   * number following the closed form whatever the order in which the requests got there.
   */
  lemma RequestsAddUp(run: seq<State>, n: nat)
    requires IsRun(run) && n < |run|
    ensures var h, tasks := run[n].shared, run[n].tasks;
            && h.total - Total(h.statuses) == CountOf(tasks, (t: Task) => !t.Arrived? && !t.Done?)
            && h.total - |h.history| == CountOf(tasks, (t: Task) => IsUntimed(t))
            && h.durations == h.history[|h.history| - Kept(|h.history|)..]
  {
    var tasks := run[n].tasks;
    RunIsAccounted(run, n);
    WindowIsRecent(run[n].shared.history);
    SumIsDifference(tasks, InFlight(), (t: Task) => !t.Arrived? && !t.Done?, (t: Task) => false);
    SumIsDifference(tasks, Untimed(), (t: Task) => IsUntimed(t), (t: Task) => false);
    CountNone(tasks, (t: Task) => false);
  }

  /**
   * And for each upstream: the requests handed to it and not yet in its statistics are those awaiting their outcome,
   * and those in its statistics as neither response nor failure are those being recorded.
   */
  lemma OutcomesAddUp(run: seq<State>, n: nat, u: nat)
    requires IsRun(run) && n < |run| && u < |run[n].shared.upstreams|
    ensures var x, tasks := run[n].shared.upstreams[u], run[n].tasks;
            && x.sent - x.requests == CountOf(tasks, (t: Task) => t == Sending(u))
            && x.requests - x.responses - x.failures
               == CountOf(tasks, (t: Task) => t == Succeeding(u) || t == Failing(u))
  {
    var tasks := run[n].tasks;
    RunIsAccounted(run, n);
    assert UpstreamAccounted(run[n], u);
    SumIsDifference(tasks, SendingTo(u), (t: Task) => t == Sending(u), (t: Task) => false);
    SumIsDifference(tasks, RecordingOn(u), (t: Task) => t == Succeeding(u) || t == Failing(u), (t: Task) => false);
    CountNone(tasks, (t: Task) => false);
  }

  // ---- Each counter by itself ----

  predicate EndedOn(t: Task, u: nat, ok: bool) {
    if t.Received? then ok && t.up == u
    else (t.Answered? || t.Inactive? || t.Measured? || t.Done?) && t.fate == Sent(u, ok)
  }

  function EndedAs(u: nat, ok: bool): Task -> int {
    (t: Task) => if EndedOn(t, u, ok) then 1 else 0
  }

  function CountedAs(status: nat): Task -> int {
    (t: Task) => if t.Done? && t.status == status then 1 else 0
  }

  function StatusCount(h: Shared, status: nat): nat {
    if status in h.statuses then h.statuses[status] else 0
  }

  /** A request that no upstream answered is answered with 502. */
  predicate BadGatewayUnlessAnswered(t: Task) {
    (t.Answered? || t.Inactive? || t.Measured? || t.Done?) && (t.fate.NotSent? || !t.fate.ok) ==> t.status == 502
  }

  ghost predicate UpstreamExact(s: State, u: nat)
    requires u < |s.shared.upstreams|
  {
    && s.shared.upstreams[u].responses == SumOf(s.tasks, EndedAs(u, true))
    && s.shared.upstreams[u].failures == SumOf(s.tasks, EndedAs(u, false))
  }

  ghost predicate StatusExact(s: State, status: nat) {
    StatusCount(s.shared, status) == SumOf(s.tasks, CountedAs(status))
  }

  ghost predicate Exact(s: State) {
    && (forall status: nat :: StatusExact(s, status))
    && (forall u | 0 <= u < |s.shared.upstreams| :: UpstreamExact(s, u))
    && forall t | t in s.tasks :: BadGatewayUnlessAnswered(t)
  }

  lemma StepMovesOutcomes(h: Shared, t: Task, h': Shared, t': Task, u: nat)
    requires TaskStep(h, t, h', t') && u < |h.upstreams| == |h'.upstreams|
    ensures h'.upstreams[u].responses - h.upstreams[u].responses == EndedAs(u, true)(t') - EndedAs(u, true)(t)
    ensures h'.upstreams[u].failures - h.upstreams[u].failures == EndedAs(u, false)(t') - EndedAs(u, false)(t)
  {
  }

  lemma StepMovesStatus(h: Shared, t: Task, h': Shared, t': Task, status: nat)
    requires TaskStep(h, t, h', t')
    ensures StatusCount(h', status) - StatusCount(h, status) == CountedAs(status)(t') - CountedAs(status)(t)
    ensures BadGatewayUnlessAnswered(t) ==> BadGatewayUnlessAnswered(t')
  {
  }

  lemma MoveKeepsExactUpstream(s: State, s': State, i: nat, t': Task, u: nat)
    requires Moves(s, s', i, t') && u < |s.shared.upstreams| == |s'.shared.upstreams| && UpstreamExact(s, u)
    ensures UpstreamExact(s', u)
  {
    StepMovesOutcomes(s.shared, s.tasks[i], s'.shared, t', u);
    SumUpdate(s.tasks, i, t', EndedAs(u, true));
    SumUpdate(s.tasks, i, t', EndedAs(u, false));
  }

  lemma MoveKeepsExactStatus(s: State, s': State, i: nat, t': Task, status: nat)
    requires Moves(s, s', i, t') && StatusExact(s, status)
    ensures StatusExact(s', status)
  {
    StepMovesStatus(s.shared, s.tasks[i], s'.shared, t', status);
    SumUpdate(s.tasks, i, t', CountedAs(status));
  }

  lemma StartKeepsExact(s: State, s': State)
    requires Exact(s) && s' == s.(tasks := s.tasks + [Arrived])
    ensures Exact(s')
  {
    forall status: nat ensures StatusExact(s', status) {
      assert StatusExact(s, status);
      SumAppend(s.tasks, Arrived, CountedAs(status));
    }
    forall u | 0 <= u < |s'.shared.upstreams| ensures UpstreamExact(s', u) {
      assert UpstreamExact(s, u);
      SumAppend(s.tasks, Arrived, EndedAs(u, true));
      SumAppend(s.tasks, Arrived, EndedAs(u, false));
    }
  }

  lemma NextKeepsExact(s: State, s': State)
    requires Exact(s) && Next(s, s')
    ensures Exact(s')
  {
    if s' == s.(tasks := s.tasks + [Arrived]) {
      StartKeepsExact(s, s');
    } else {
      var i: nat, t' :| Moves(s, s', i, t');
      assert s.tasks[i] in s.tasks;
      StepMovesOwn(s.shared, s.tasks[i], s'.shared, t');
      StepMovesStatus(s.shared, s.tasks[i], s'.shared, t', 0);
      forall status: nat ensures StatusExact(s', status) {
        assert StatusExact(s, status);
        MoveKeepsExactStatus(s, s', i, t', status);
      }
      forall u | 0 <= u < |s'.shared.upstreams| ensures UpstreamExact(s', u) {
        assert UpstreamExact(s, u);
        MoveKeepsExactUpstream(s, s', i, t', u);
      }
    }
  }

  lemma InitialExact(s: State)
    requires Initial(s)
    ensures Exact(s)
  {
    forall u | 0 <= u < |s.shared.upstreams| ensures UpstreamExact(s, u) {
      assert s.shared.upstreams[u] in s.shared.upstreams;
    }
  }

  lemma RunIsExact(run: seq<State>, n: nat)
    requires IsRun(run) && n < |run|
    ensures Exact(run[n])
  {
    forall s | Initial(s) ensures Exact(s) {
      InitialExact(s);
    }
    forall s, s' | Exact(s) && Next(s, s') ensures Exact(s') {
      NextKeepsExact(s, s');
    }
    InvariantHolds(run, Initial, Next, Exact, n);
  }

  /**
   * Under every interleaving each status count is the number of requests finished with that status, and an upstream's
   * responses and failures are those of the requests it answered and of those that failed there.
   */
  lemma FatesAddUp(run: seq<State>, n: nat, status: nat)
    requires IsRun(run) && n < |run|
    ensures var h, tasks := run[n].shared, run[n].tasks;
            && (if status in h.statuses then h.statuses[status] else 0)
               == CountOf(tasks, (t: Task) => t.Done? && t.status == status)
            && (forall u | 0 <= u < |h.upstreams| ::
                  && h.upstreams[u].responses == CountOf(tasks, (t: Task) => EndedOn(t, u, true))
                  && h.upstreams[u].failures == CountOf(tasks, (t: Task) => EndedOn(t, u, false)))
            && forall t | t in tasks && t.Done? && (t.fate.NotSent? || !t.fate.ok) :: t.status == 502
  {
    var tasks := run[n].tasks;
    RunIsExact(run, n);
    assert StatusExact(run[n], status);
    CountNone(tasks, (t: Task) => false);
    SumIsDifference(tasks, CountedAs(status), (t: Task) => t.Done? && t.status == status, (t: Task) => false);
    forall u | 0 <= u < |run[n].shared.upstreams|
      ensures run[n].shared.upstreams[u].responses == CountOf(tasks, (t: Task) => EndedOn(t, u, true))
      ensures run[n].shared.upstreams[u].failures == CountOf(tasks, (t: Task) => EndedOn(t, u, false))
    {
      assert UpstreamExact(run[n], u);
      SumIsDifference(tasks, EndedAs(u, true), (t: Task) => EndedOn(t, u, true), (t: Task) => false);
      SumIsDifference(tasks, EndedAs(u, false), (t: Task) => EndedOn(t, u, false), (t: Task) => false);
    }
    forall t | t in tasks && t.Done? && (t.fate.NotSent? || !t.fate.ok) ensures t.status == 502 {
      assert BadGatewayUnlessAnswered(t);
    }
  }

  /** With no request in flight all of them agree: total, statuses and durations, and each upstream's outcomes. */
  lemma QuiescentRequests(run: seq<State>, n: nat)
    requires IsRun(run) && n < |run|
    requires forall t | t in run[n].tasks :: t.Arrived? || t.Done?
    ensures var h := run[n].shared;
            && h.active == 0 && h.total == Total(h.statuses) == |h.history|
            && forall u | 0 <= u < |h.upstreams| ::
                 var x := h.upstreams[u]; x.sent == x.requests == x.responses + x.failures
  {
    var tasks := run[n].tasks;
    RunIsAccounted(run, n);
    SumZero(tasks, InFlight());
    SumZero(tasks, Active());
    SumZero(tasks, Untimed());
    forall u | 0 <= u < |run[n].shared.upstreams|
      ensures var x := run[n].shared.upstreams[u]; x.sent == x.requests == x.responses + x.failures
    {
      assert UpstreamAccounted(run[n], u);
      SumZero(tasks, SendingTo(u));
      SumZero(tasks, RecordingOn(u));
    }
  }
}
