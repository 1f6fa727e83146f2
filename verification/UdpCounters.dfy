/**
 * The UDP counters under every interleaving of packet handlers, listeners and cleanups, with each table access and
 * each counter update a step of its own.
 */
module UdpCounters {
  import opened Runs
  import opened Sums

  type Address = string

  datatype Task =
    | Lookup(client: Address)       // about to look for the client's session
    | Evict(client: Address)        // found it expired, about to remove it
    | Create(client: Address)       // about to select an upstream and insert a new session
    | Inserted                      // table entry made, neither creation counter moved
    | Counted                       // created moved, active not yet
    | Listen(client: Address)       // listener between packets
    | ListenEvict(client: Address)  // listener found its session expired, about to remove it
    | Sweep(todo: set<Address>)     // cleanup with this much collected and not yet removed
    | Expiring(next: Task)          // removal done, neither expiry counter moved
    | Expired(next: Task)           // expired moved, active not yet
    | Done

  /**
   * The table gives each client's upstream, by number. Besides it and the counters: how often an insert replaced an
   * entry and a counted removal found none, and which packets got a session, each with its client and upstream.
   */
  datatype Shared = Shared(
    table: map<Address, nat>, created: int, expired: int, active: int, overwrites: nat, misses: nat,
    served: seq<(Address, nat)>)

  datatype State = State(shared: Shared, tasks: seq<Task>)

  /** The packet that creates a session is served by it, whatever else the table has or gets. */
  function Insert(h: Shared, a: Address, u: nat): Shared {
    h.(table := h.table[a := u], overwrites := h.overwrites + if a in h.table then 1 else 0,
       served := h.served + [(a, u)])
  }

  /** A removal whose result is ignored. */
  function RemoveBlindly(h: Shared, a: Address): Shared {
    h.(table := h.table - {a}, misses := h.misses + if a in h.table then 0 else 1)
  }

  /** The cleanup removes one collected client; only a removal that found an entry is counted. */
  predicate SweepsOne(h: Shared, todo: set<Address>, a: Address, h': Shared, t': Task) {
    if a in h.table then h' == h.(table := h.table - {a}) && t' == Expiring(Sweep(todo - {a}))
    else h' == h && t' == Sweep(todo - {a})
  }

  /** One atomic step of one task. */
  ghost predicate TaskStep(h: Shared, t: Task, h': Shared, t': Task) {
    match t
    case Lookup(a) =>
      if a !in h.table then h' == h && t' == Create(a)
      else (h' == h && t' == Evict(a)) || (h' == h.(served := h.served + [(a, h.table[a])]) && t' == Done)
    case Evict(a) =>
      h' == RemoveBlindly(h, a) && t' == Expiring(Create(a))
    case Create(a) =>
      (h' == h && t' == Done) || (t' == Inserted && exists u :: h' == Insert(h, a, u))
    case Inserted =>
      h' == h.(created := h.created + 1) && t' == Counted
    case Counted =>
      h' == h.(active := h.active + 1) && t' == Done
    case Listen(a) =>
      h' == h && (t' == Listen(a) || t' == ListenEvict(a) || t' == Done)
    case ListenEvict(a) =>
      h' == RemoveBlindly(h, a) && t' == Expiring(Done)
    case Sweep(todo) =>
      if todo == {} then h' == h && t' == Done else exists a :: a in todo && SweepsOne(h, todo, a, h', t')
    case Expiring(next) =>
      h' == h.(expired := h.expired + 1) && t' == Expired(next)
    case Expired(next) =>
      h' == h.(active := h.active - 1) && t' == next
    case Done => false
  }

  predicate CanStart(t: Task) {
    t.Lookup? || t.Listen? || t.Sweep?
  }

  ghost predicate Moves(s: State, s': State, i: nat, t': Task) {
    i < |s.tasks| && TaskStep(s.shared, s.tasks[i], s'.shared, t') && s'.tasks == s.tasks[i := t']
  }

  ghost predicate Starts(s: State, s': State, t: Task) {
    CanStart(t) && s' == s.(tasks := s.tasks + [t])
  }

  ghost predicate Next(s: State, s': State) {
    (exists t :: Starts(s, s', t)) || (exists i: nat, t' :: Moves(s, s', i, t'))
  }

  predicate Initial(s: State) {
    s == State(Shared(map[], 0, 0, 0, 0, 0, []), [])
  }

  ghost predicate IsRun(run: seq<State>) {
    RunOf(run, Initial, Next)
  }

  /** What a task owes to the equation created = expired + active. */
  function CounterDebt(): Task -> int {
    (t: Task) => match t case Counted => 1 case Expired(_) => -1 case _ => 0
  }

  /** What a task owes to the equation table size = active. */
  function TableDebt(): Task -> int {
    (t: Task) => match t
      case Inserted => 1
      case Counted => 1
      case Expiring(_) => -1
      case Expired(_) => -1
      case _ => 0
  }

  /** The next task of an expiry owes nothing itself. */
  predicate Plain(t: Task) {
    match t
    case Expiring(next) => next.Create? || next.Sweep? || next.Done?
    case Expired(next) => next.Create? || next.Sweep? || next.Done?
    case _ => true
  }

  ghost predicate Accounted(s: State) {
    var h := s.shared;
    && (forall t | t in s.tasks :: Plain(t))
    && CounterGap(h) == SumOf(s.tasks, CounterDebt())
    && TableGap(h) == SumOf(s.tasks, TableDebt())
  }

  function CounterGap(h: Shared): int {
    h.created - h.expired - h.active
  }

  function TableGap(h: Shared): int {
    |h.table| - h.active + h.overwrites - h.misses
  }

  /** Each atomic step moves the counters by just what that step changes in debts. */
  lemma StepPaysCounterDebt(h: Shared, t: Task, h': Shared, t': Task)
    requires TaskStep(h, t, h', t') && Plain(t)
    ensures Plain(t')
    ensures CounterGap(h') - CounterGap(h) == CounterDebt()(t') - CounterDebt()(t)
  {
  }

  lemma RemovalGap(h: Shared, a: Address)
    ensures TableGap(RemoveBlindly(h, a)) == TableGap(h) - 1
  {
    assert (h.table - {a}).Keys == h.table.Keys - {a};
  }

  lemma InsertGap(h: Shared, a: Address, u: nat)
    ensures TableGap(Insert(h, a, u)) == TableGap(h) + 1
  {
    assert h.table[a := u].Keys == h.table.Keys + {a};
  }

  lemma CreateGap(h: Shared, a: Address, h': Shared, t': Task)
    requires TaskStep(h, Create(a), h', t')
    ensures TableGap(h') == TableGap(h) + TableDebt()(t')
  {
    if t'.Inserted? {
      var u :| h' == Insert(h, a, u);
      InsertGap(h, a, u);
    }
  }

  lemma SweepGap(h: Shared, todo: set<Address>, a: Address, h': Shared, t': Task)
    requires SweepsOne(h, todo, a, h', t')
    ensures TableGap(h') == TableGap(h) + TableDebt()(t')
  {
    if a in h.table {
      RemovalGap(h, a);
    }
  }

  lemma SweepStepGap(h: Shared, todo: set<Address>, h': Shared, t': Task)
    requires TaskStep(h, Sweep(todo), h', t')
    ensures TableGap(h') == TableGap(h) + TableDebt()(t')
  {
    if todo != {} {
      var a :| a in todo && SweepsOne(h, todo, a, h', t');
      SweepGap(h, todo, a, h', t');
    }
  }

  /** The steps that leave the table alone. */
  lemma CounterStepGap(h: Shared, t: Task, h': Shared, t': Task)
    requires TaskStep(h, t, h', t') && Plain(t)
    requires !t.Evict? && !t.ListenEvict? && !t.Create? && !t.Sweep?
    ensures TableGap(h') - TableGap(h) == TableDebt()(t') - TableDebt()(t)
  {
    assert h'.table == h.table;
  }

  lemma StepPaysTableDebt(h: Shared, t: Task, h': Shared, t': Task)
    requires TaskStep(h, t, h', t') && Plain(t)
    ensures TableGap(h') - TableGap(h) == TableDebt()(t') - TableDebt()(t)
  {
    match t
    case Evict(a) => RemovalGap(h, a);
    case ListenEvict(a) => RemovalGap(h, a);
    case Create(a) => CreateGap(h, a, h', t');
    case Sweep(todo) => SweepStepGap(h, todo, h', t');
    case _ => CounterStepGap(h, t, h', t');
  }

  lemma NextKeepsAccounted(s: State, s': State)
    requires Accounted(s) && Next(s, s')
    ensures Accounted(s')
  {
    if t :| Starts(s, s', t) {
      SumAppend(s.tasks, t, CounterDebt());
      SumAppend(s.tasks, t, TableDebt());
    } else {
      var i: nat, t' :| Moves(s, s', i, t');
      var t := s.tasks[i];
      assert Plain(t);
      StepPaysCounterDebt(s.shared, t, s'.shared, t');
      StepPaysTableDebt(s.shared, t, s'.shared, t');
      SumUpdate(s.tasks, i, t', CounterDebt());
      SumUpdate(s.tasks, i, t', TableDebt());
    }
  }

  /** Every reachable state balances up to the updates in flight, and the table up to its ignored results. */
  lemma RunIsAccounted(run: seq<State>, n: nat)
    requires IsRun(run) && n < |run|
    ensures Accounted(run[n])
  {
    forall s, s' | Accounted(s) && Next(s, s') ensures Accounted(s') {
      NextKeepsAccounted(s, s');
    }
    InvariantHolds(run, Initial, Next, Accounted, n);
  }

  /** In numbers of tasks: between the creation updates, less those between the expiry updates. */
  lemma CountersUpToTasksInFlight(run: seq<State>, n: nat)
    requires IsRun(run) && n < |run|
    ensures var h, tasks := run[n].shared, run[n].tasks;
            && h.created - h.expired - h.active
               == CountOf(tasks, (t: Task) => t.Counted?) - CountOf(tasks, (t: Task) => t.Expired?)
            && |h.table| - h.active + h.overwrites - h.misses
               == CountOf(tasks, (t: Task) => t.Inserted? || t.Counted?)
                  - CountOf(tasks, (t: Task) => t.Expiring? || t.Expired?)
  {
    var tasks := run[n].tasks;
    RunIsAccounted(run, n);
    SumIsDifference(tasks, CounterDebt(), (t: Task) => t.Counted?, (t: Task) => t.Expired?);
    SumIsDifference(tasks, TableDebt(), (t: Task) => t.Inserted? || t.Counted?, (t: Task) => t.Expiring? || t.Expired?);
  }

  /** No task stands between two updates that belong together. */
  ghost predicate Quiescent(s: State) {
    forall t | t in s.tasks :: CounterDebt()(t) == 0 && TableDebt()(t) == 0
  }

  /**
   * Whenever no task is mid-update, active is created minus expired; the table then has that size exactly when
   * replaced entries and vain removals have cancelled out.
   */
  lemma QuiescentCounters(run: seq<State>, n: nat)
    requires IsRun(run) && n < |run| && Quiescent(run[n])
    ensures var h := run[n].shared;
            h.active == h.created - h.expired && (|h.table| == h.active <==> h.overwrites == h.misses)
  {
    RunIsAccounted(run, n);
    SumZero(run[n].tasks, CounterDebt());
    SumZero(run[n].tasks, TableDebt());
  }

  // ---- Which upstream a client's packets go to ----

  /** All packets of `a` that got a session got one with the same upstream. */
  ghost predicate OneUpstream(h: Shared, a: Address) {
    forall p, q | 0 <= p < |h.served| && 0 <= q < |h.served| && h.served[p].0 == a && h.served[q].0 == a ::
      h.served[p].1 == h.served[q].1
  }

  /** No two packets of `a` are creating a session side by side. */
  ghost predicate CreatesOnce(s: State, a: Address) {
    forall i, j | 0 <= i < j < |s.tasks| :: s.tasks[i] != Create(a) || s.tasks[j] != Create(a)
  }

  ghost predicate KeepsEntry(s: State, s': State, a: Address) {
    a in s.shared.table ==> a in s'.shared.table
  }

  /** The task has removed the entry of `a` and goes on to create a new session. */
  predicate Recreates(t: Task, a: Address) {
    (t.Expiring? || t.Expired?) && t.next == Create(a)
  }

  /** Without an entry nobody has been served; with one, all by its upstream, and nobody is creating another. */
  ghost predicate Settled(s: State, a: Address) {
    var h := s.shared;
    && (forall t | t in s.tasks :: !Recreates(t, a) && (t == Evict(a) ==> a in h.table))
    && (a in h.table ==> Create(a) !in s.tasks)
    && forall p | 0 <= p < |h.served| && h.served[p].0 == a :: a in h.table && h.served[p].1 == h.table[a]
  }

  /** What one step of a task does to the entry of `a` and to who has been served. */
  lemma StepKeepsService(h: Shared, t: Task, h': Shared, t': Task, a: Address)
    requires TaskStep(h, t, h', t') && (a in h.table ==> a in h'.table) && (t == Evict(a) ==> a in h.table)
    requires Plain(t) && !Recreates(t, a) && (a in h.table ==> t != Create(a))
    requires forall p | 0 <= p < |h.served| && h.served[p].0 == a :: a in h.table && h.served[p].1 == h.table[a]
    ensures forall p | 0 <= p < |h'.served| && h'.served[p].0 == a :: a in h'.table && h'.served[p].1 == h'.table[a]
    ensures !Recreates(t', a) && (t' == Evict(a) ==> a in h'.table) && (t' == Create(a) ==> a !in h'.table)
    ensures a in h'.table && a !in h.table ==> t == Create(a)
  {
    if t.Create? && t'.Inserted? {
      var u :| h' == Insert(h, t.client, u);
    }
  }

  lemma MoveKeepsSettled(s: State, s': State, i: nat, t': Task, a: Address)
    requires Settled(s, a) && Accounted(s) && Moves(s, s', i, t') && KeepsEntry(s, s', a) && CreatesOnce(s, a)
    ensures Settled(s', a)
  {
    var t := s.tasks[i];
    assert t in s.tasks;
    StepKeepsService(s.shared, t, s'.shared, t', a);
    forall x | x in s'.tasks ensures !Recreates(x, a) && (x == Evict(a) ==> a in s'.shared.table) {
      assert x == t' || x in s.tasks;
    }
    forall j | 0 <= j < |s'.tasks| && a in s'.shared.table ensures s'.tasks[j] != Create(a) {
      if j != i {
        assert s.tasks[j] in s.tasks;
      }
    }
  }

  lemma {:induction false} RunIsSettled(run: seq<State>, n: nat, a: Address)
    requires IsRun(run) && n < |run|
    requires forall k | 0 <= k < n :: CreatesOnce(run[k], a)
    requires forall k, l | 0 <= k < n && l == k + 1 :: KeepsEntry(run[k], run[l], a)
    ensures Settled(run[n], a)
  {
    if n > 0 {
      RunIsSettled(run, n - 1, a);
      RunIsAccounted(run, n - 1);
      var s, s' := run[n - 1], run[n];
      assert Next(s, s') && KeepsEntry(s, s', a) && CreatesOnce(s, a);
      if t :| Starts(s, s', t) {
        assert forall x | x in s'.tasks :: x == t || x in s.tasks;
      } else {
        var i: nat, t' :| Moves(s, s', i, t');
        MoveKeepsSettled(s, s', i, t', a);
      }
    }
  }

  /**
   * Under every interleaving, while a client's entry is not removed, its packets all go to the same upstream unless
   * two of them create a session side by side.
   */
  lemma OneUpstreamUnlessOverlap(run: seq<State>, n: nat, a: Address)
    requires IsRun(run) && n < |run|
    requires forall k | 0 <= k < n :: CreatesOnce(run[k], a)
    requires forall k, l | 0 <= k < n && l == k + 1 :: KeepsEntry(run[k], run[l], a)
    ensures OneUpstream(run[n].shared, a)
  {
    RunIsSettled(run, n, a);
  }

  lemma ExtendRun(run: seq<State>, s: State)
    requires IsRun(run) && Next(run[|run| - 1], s)
    ensures IsRun(run + [s])
  {
    var longer := run + [s];
    forall i, j | 0 <= i < |longer| - 1 && j == i + 1 ensures Next(longer[i], longer[j]) {
      if j < |run| {
        assert Next(run[i], run[j]);
      }
    }
  }

  /** And whenever two do, the next two steps may send them to different upstreams, removing no entry. */
  lemma OverlapCanDiverge(run: seq<State>, a: Address) returns (s1: State, s2: State)
    requires IsRun(run) && !CreatesOnce(run[|run| - 1], a)
    ensures IsRun(run + [s1] + [s2]) && !OneUpstream(s2.shared, a)
    ensures KeepsEntry(run[|run| - 1], s1, a) && KeepsEntry(s1, s2, a)
  {
    var s := run[|run| - 1];
    var i, j :| 0 <= i < j < |s.tasks| && s.tasks[i] == Create(a) && s.tasks[j] == Create(a);
    s1 := State(Insert(s.shared, a, 1), s.tasks[i := Inserted]);
    s2 := State(Insert(s1.shared, a, 2), s1.tasks[j := Inserted]);
    assert Moves(s, s1, i, Inserted);
    assert Moves(s1, s2, j, Inserted);
    ExtendRun(run, s1);
    ExtendRun(run + [s1], s2);
    var n := |s.shared.served|;
    assert s2.shared.served[n] == (a, 1) && s2.shared.served[n + 1] == (a, 2);
  }

  // ---- The table really can drift ----

  function Racing(h: Shared, t: Task, u: Task): State {
    State(h, [t, u])
  }

  /** Two packets of one new client, handled side by side: the state after `k` steps. */
  function RaceState(k: nat): State {
    var a := "client";
    var none := Shared(map[], 0, 0, 0, 0, 0, []);
    var one := Insert(none, a, 1);
    var two := Insert(one, a, 2);
    match k
    case 0 => State(none, [])
    case 1 => State(none, [Lookup(a)])
    case 2 => Racing(none, Lookup(a), Lookup(a))
    case 3 => Racing(none, Create(a), Lookup(a))
    case 4 => Racing(none, Create(a), Create(a))
    case 5 => Racing(one, Inserted, Create(a))
    case 6 => Racing(two, Inserted, Inserted)
    case 7 => Racing(two.(created := 1), Counted, Inserted)
    case 8 => Racing(two.(created := 2), Counted, Counted)
    case 9 => Racing(two.(created := 2, active := 1), Done, Counted)
    case _ => Racing(two.(created := 2, active := 2), Done, Done)
  }

  lemma RaceStep(k: nat, s: State, s': State)
    requires k < 10 && s == RaceState(k) && s' == RaceState(k + 1)
    ensures Next(s, s')
  {
    var a := "client";
    match k
    case 0 => assert Starts(s, s', Lookup(a));
    case 1 => assert Starts(s, s', Lookup(a));
    case 2 => assert Moves(s, s', 0, Create(a));
    case 3 => assert Moves(s, s', 1, Create(a));
    case 4 => assert Moves(s, s', 0, Inserted);
    case 5 => assert Moves(s, s', 1, Inserted);
    case 6 => assert Moves(s, s', 0, Counted);
    case 7 => assert Moves(s, s', 1, Counted);
    case 8 => assert Moves(s, s', 0, Done);
    case 9 => assert Moves(s, s', 1, Done);
  }

  /**
   * The race leaves one entry in the table and an active count of two, with nothing left in flight, and it has sent
   * the client's two packets to two upstreams.
   */
  lemma RaceDrifts() returns (run: seq<State>)
    ensures IsRun(run)
    ensures var s := run[|run| - 1];
            && Quiescent(s) && |s.shared.table| == 1 && s.shared.active == 2
            && s.shared.served == [("client", 1), ("client", 2)]
  {
    run := seq(11, k requires 0 <= k => RaceState(k));
    forall i | 0 <= i < |run| - 1 ensures Next(run[i], run[i + 1]) {
      RaceStep(i, run[i], run[i + 1]);
    }
    assert run[10].shared.table == map["client" := 2];
  }
}
