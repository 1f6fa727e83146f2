/**
 * A consistent-hashing router used from many sides at once. Replacing the list and rebuilding the ring are separate
 * steps, and so are finding an upstream, writing its health and rebuilding the ring. A rebuild holds the list and the
 * ring locked against selections, list changes and other rebuilds, but reads the upstreams' health one by one
 * while that may change.
 */
module RouterSteps {
  import opened Machine
  import opened Upstreams
  import opened VirtualNodes
  import opened HashRing
  import opened RingStability
  import opened Routing
  import opened Runs

  /** What a call in progress still has to do. Upstreams are referred to by their number in the order of creation. */
  datatype Task =
    | RebuildList                            // list replaced, ring not yet rebuilt
    | Reporting(id: nat, state: HealthState) // upstream of a health report found, health not yet written
    | RebuildFor(id: nat)                    // health written, ring not yet rebuilt
    | Done

  /** The task whose rebuild is under way, and what it has read of the list so far. */
  datatype Build = Idle | Reading(owner: nat, seen: seq<UpstreamView>)

  /** Every upstream ever created; the current list; the list the ring was built for, and as what it was read then. */
  datatype State = State(
    objects: seq<UpstreamView>, list: seq<nat>, ringList: seq<nat>, ringViews: seq<UpstreamView>,
    build: Build, tasks: seq<Task>)

  datatype Action =
    | Install(configs: seq<UpstreamConfig>)
    | Find(name: string, state: HealthState)
    | WriteHealth(i: nat)
    | Begin(i: nat)
    | Read
    | Publish
    | Traffic(id: nat, view: UpstreamView)

  ghost predicate InRange(s: State) {
    && (forall k | 0 <= k < |s.list| :: s.list[k] < |s.objects|)
    && (forall k | 0 <= k < |s.ringList| :: s.ringList[k] < |s.objects|)
    && (forall j | 0 <= j < |s.tasks| && (s.tasks[j].Reporting? || s.tasks[j].RebuildFor?) ::
          s.tasks[j].id < |s.objects|)
  }

  /** The current list as it would be read at this moment. */
  ghost function Current(s: State): (us: seq<UpstreamView>)
    requires InRange(s)
    ensures |us| == |s.list| && forall k | 0 <= k < |us| :: us[k] == s.objects[s.list[k]]
  {
    seq(|s.list|, k requires 0 <= k < |s.list| => s.objects[s.list[k]])
  }

  function Numbers(first: nat, n: nat): (ids: seq<nat>)
    ensures |ids| == n && forall k | 0 <= k < n :: ids[k] == first + k
  {
    seq(n, k => first + k)
  }

  predicate WantsRebuild(t: Task) {
    t.RebuildList? || t.RebuildFor?
  }

  ghost predicate Steps(s: State, a: Action, s': State)
    requires InRange(s)
  {
    match a
    case Install(configs) =>
      && s.build.Idle?
      && s' == s.(objects := s.objects + FreshViews(configs), list := Numbers(|s.objects|, |configs|),
                  tasks := s.tasks + [RebuildList])
    case Find(name, state) =>
      var p := FirstNamed(Current(s), name);
      p.Some? && s' == s.(tasks := s.tasks + [Reporting(s.list[p.value], state)])
    case WriteHealth(i) =>
      && i < |s.tasks| && s.tasks[i].Reporting?
      && var id := s.tasks[i].id;
         s' == s.(objects := SetHealth(s.objects, id, s.tasks[i].state), tasks := s.tasks[i := RebuildFor(id)])
    case Begin(i) =>
      s.build.Idle? && i < |s.tasks| && WantsRebuild(s.tasks[i]) && s' == s.(build := Reading(i, []))
    case Read =>
      && s.build.Reading? && |s.build.seen| < |s.list|
      && s' == s.(build := Reading(s.build.owner, s.build.seen + [Current(s)[|s.build.seen|]]))
    case Publish =>
      && s.build.Reading? && |s.build.seen| == |s.list| && s.build.owner < |s.tasks|
      && s' == s.(ringList := s.list, ringViews := s.build.seen, build := Idle, tasks := s.tasks[s.build.owner := Done])
    case Traffic(id, view) =>
      && id < |s.objects| && view.name == s.objects[id].name && view.health == s.objects[id].health
      && s' == s.(objects := s.objects[id := view])
  }

  ghost predicate Next(s: State, s': State) {
    InRange(s) && exists a :: Steps(s, a, s')
  }

  predicate Initial(s: State) {
    s == State([], [], [], [], Idle, [])
  }

  ghost predicate IsRun(run: seq<State>) {
    RunOf(run, Initial, Next)
  }

  /**
   * What a selection returns when neither lock stands in its way: the ring's index, applied to the current list,
   * which may be another than the ring was built for.
   */
  ghost function Select(s: State, g: Hashing, start: u64): Option<nat> {
    var r := Route(s.ringViews, g, start);
    if s.list != [] && r.Some? && r.value < |s.list| then Some(s.list[r.value]) else None
  }

  // ---- The invariant ----

  /** A health report about upstream `id` has been written and its rebuild, not counting `except`, is still to come. */
  ghost predicate ReportPending(tasks: seq<Task>, id: nat, except: int) {
    exists j :: 0 <= j < |tasks| && j != except && tasks[j] == RebuildFor(id)
  }

  ghost predicate ListPending(tasks: seq<Task>) {
    exists j :: 0 <= j < |tasks| && tasks[j].RebuildList?
  }

  /** A reading of the first upstreams of the list is up to date, but for upstreams with a rebuild still to come. */
  ghost predicate Tracks(s: State, seen: seq<UpstreamView>, except: int)
    requires InRange(s)
  {
    && |seen| <= |s.list|
    && forall k | 0 <= k < |seen| ::
         && seen[k].name == Current(s)[k].name
         && (seen[k].Available() == Current(s)[k].Available() || ReportPending(s.tasks, s.list[k], except))
  }

  /** A listed upstream is available unless a rebuild for it is still to come. */
  ghost predicate UnavailableOnlyPending(s: State)
    requires InRange(s)
  {
    forall k | 0 <= k < |s.list| :: Current(s)[k].Available() || ReportPending(s.tasks, s.list[k], -1)
  }

  ghost predicate RingIsKept(s: State)
    requires InRange(s)
  {
    && |s.ringViews| == |s.ringList|
    && if s.ringList == s.list then Tracks(s, s.ringViews, -1)
       else ListPending(s.tasks) && UnavailableOnlyPending(s)
  }

  ghost predicate BuildIsKept(s: State)
    requires InRange(s)
  {
    s.build.Reading? ==>
      s.build.owner < |s.tasks| && WantsRebuild(s.tasks[s.build.owner]) && Tracks(s, s.build.seen, s.build.owner)
  }

  /** No upstream is listed twice. */
  ghost predicate ListsOnce(s: State) {
    forall k, l | 0 <= k < l < |s.list| :: s.list[k] != s.list[l]
  }

  ghost predicate Kept(s: State) {
    InRange(s) && ListsOnce(s) && RingIsKept(s) && BuildIsKept(s)
  }

  lemma PendingStays(tasks: seq<Task>, t: Task, id: nat, except: int)
    requires ReportPending(tasks, id, except)
    ensures ReportPending(tasks + [t], id, except)
  {
    var j :| 0 <= j < |tasks| && j != except && tasks[j] == RebuildFor(id);
    assert (tasks + [t])[j] == RebuildFor(id);
  }

  lemma PendingSurvives(tasks: seq<Task>, i: nat, t: Task, id: nat, except: int)
    requires i < |tasks| && (i == except || !tasks[i].RebuildFor?) && ReportPending(tasks, id, except)
    ensures ReportPending(tasks[i := t], id, except)
  {
    var j :| 0 <= j < |tasks| && j != except && tasks[j] == RebuildFor(id);
    assert tasks[i := t][j] == RebuildFor(id);
  }

  lemma InstallInRange(s: State, configs: seq<UpstreamConfig>, s': State)
    requires InRange(s) && Steps(s, Install(configs), s')
    ensures InRange(s')
  {
    var n := |s.objects|;
    assert |s'.objects| == n + |configs|;
    forall k | 0 <= k < |s'.list| ensures s'.list[k] < |s'.objects| {
      assert s'.list[k] == n + k;
    }
    forall j | 0 <= j < |s'.tasks| && (s'.tasks[j].Reporting? || s'.tasks[j].RebuildFor?)
      ensures s'.tasks[j].id < |s'.objects|
    {
      assert j < |s.tasks| && s'.tasks[j] == s.tasks[j];
    }
  }

  lemma InstalledAreAvailable(s: State, configs: seq<UpstreamConfig>, s': State)
    requires InRange(s) && Steps(s, Install(configs), s') && InRange(s')
    ensures UnavailableOnlyPending(s')
  {
    forall k | 0 <= k < |s'.list| ensures Current(s')[k].Available() {
      assert s'.objects[|s.objects| + k] == FreshViews(configs)[k];
    }
  }

  /** The numbers are new, so the ring was not built for this list. */
  lemma InstalledListIsNew(s: State, configs: seq<UpstreamConfig>, s': State)
    requires InRange(s) && Steps(s, Install(configs), s') && configs != []
    ensures s'.ringList != s'.list
  {
    if s.ringList != [] {
      assert s.ringList[0] < |s.objects|;
    }
  }

  lemma InstallKeeps(s: State, configs: seq<UpstreamConfig>, s': State)
    requires Kept(s) && Steps(s, Install(configs), s')
    ensures Kept(s')
  {
    InstallInRange(s, configs, s');
    InstalledAreAvailable(s, configs, s');
    assert s'.tasks[|s.tasks|] == RebuildList;
    if configs != [] {
      InstalledListIsNew(s, configs, s');
    }
  }

  /** A new task that has written nothing yet changes nothing. */
  lemma FindKeeps(s: State, name: string, state: HealthState, s': State)
    requires Kept(s) && Steps(s, Find(name, state), s')
    ensures Kept(s')
  {
    var t := s'.tasks[|s.tasks|];
    assert s'.tasks == s.tasks + [t] && Current(s') == Current(s);
    forall id, except: int | ReportPending(s.tasks, id, except) ensures ReportPending(s'.tasks, id, except) {
      PendingStays(s.tasks, t, id, except);
    }
    if ListPending(s.tasks) {
      var j :| 0 <= j < |s.tasks| && s.tasks[j].RebuildList?;
      assert s'.tasks[j].RebuildList?;
    }
  }

  /** The write may make any reading of this upstream stale, but its own rebuild is now to come. */
  lemma WriteKeepsTracking(s: State, i: nat, s': State, seen: seq<UpstreamView>, except: int)
    requires InRange(s) && Steps(s, WriteHealth(i), s') && InRange(s')
    requires Tracks(s, seen, except) && i != except
    ensures Tracks(s', seen, except)
  {
    var id := s.tasks[i].id;
    assert s'.tasks[i] == RebuildFor(id);
    forall k | 0 <= k < |seen|
      ensures seen[k].name == Current(s')[k].name
      ensures seen[k].Available() == Current(s')[k].Available() || ReportPending(s'.tasks, s'.list[k], except)
    {
      if s.list[k] != id && ReportPending(s.tasks, s.list[k], except) {
        PendingSurvives(s.tasks, i, RebuildFor(id), s.list[k], except);
      }
    }
  }

  lemma WriteKeepsUnavailable(s: State, i: nat, s': State)
    requires InRange(s) && Steps(s, WriteHealth(i), s') && InRange(s') && UnavailableOnlyPending(s)
    ensures UnavailableOnlyPending(s')
  {
    var id := s.tasks[i].id;
    assert s'.tasks[i] == RebuildFor(id);
    forall k | 0 <= k < |s'.list|
      ensures Current(s')[k].Available() || ReportPending(s'.tasks, s'.list[k], -1)
    {
      if s.list[k] != id && ReportPending(s.tasks, s.list[k], -1) {
        PendingSurvives(s.tasks, i, RebuildFor(id), s.list[k], -1);
      }
    }
  }

  lemma WriteKeeps(s: State, i: nat, s': State)
    requires Kept(s) && Steps(s, WriteHealth(i), s')
    ensures Kept(s')
  {
    assert InRange(s');
    if s.ringList == s.list {
      WriteKeepsTracking(s, i, s', s.ringViews, -1);
    } else {
      WriteKeepsUnavailable(s, i, s');
      var j :| 0 <= j < |s.tasks| && s.tasks[j].RebuildList?;
      assert s'.tasks[j].RebuildList?;
    }
    if s.build.Reading? {
      WriteKeepsTracking(s, i, s', s.build.seen, s.build.owner);
    }
  }

  lemma BuildStepKeeps(s: State, a: Action, s': State)
    requires Kept(s) && Steps(s, a, s') && (a.Begin? || a.Read?)
    ensures Kept(s')
  {
    assert Current(s') == Current(s);
  }

  /** What the rebuild has missed is left to another task, so its own may end. */
  lemma PublishKeeps(s: State, s': State)
    requires Kept(s) && Steps(s, Publish, s')
    ensures Kept(s')
  {
    var owner := s.build.owner;
    assert Current(s') == Current(s);
    forall k | 0 <= k < |s'.ringViews|
      ensures s'.ringViews[k].name == Current(s')[k].name
      ensures s'.ringViews[k].Available() == Current(s')[k].Available() || ReportPending(s'.tasks, s'.list[k], -1)
    {
      if ReportPending(s.tasks, s.list[k], owner) {
        PendingSurvives(s.tasks, owner, Done, s.list[k], owner);
      }
    }
  }

  lemma TrafficKeeps(s: State, id: nat, view: UpstreamView, s': State)
    requires Kept(s) && Steps(s, Traffic(id, view), s')
    ensures Kept(s')
  {
    assert SameOnRing(Current(s'), Current(s));
  }

  lemma NextKeeps(s: State, s': State)
    requires Kept(s) && Next(s, s')
    ensures Kept(s')
  {
    var a :| Steps(s, a, s');
    match a
    case Install(configs) => InstallKeeps(s, configs, s');
    case Find(name, state) => FindKeeps(s, name, state, s');
    case WriteHealth(i) => WriteKeeps(s, i, s');
    case Begin(_) => BuildStepKeeps(s, a, s');
    case Read => BuildStepKeeps(s, a, s');
    case Publish => PublishKeeps(s, s');
    case Traffic(id, view) => TrafficKeeps(s, id, view, s');
  }

  lemma RunIsKept(run: seq<State>, n: nat)
    requires IsRun(run) && n < |run|
    ensures Kept(run[n])
  {
    forall s, s' | Kept(s) && Next(s, s') ensures Kept(s') {
      NextKeeps(s, s');
    }
    InvariantHolds(run, Initial, Next, Kept, n);
  }

  // ---- What a selection can meet ----

  /**
   * Under every interleaving a selected upstream is in the current list, and it is unavailable only while the rebuild
   * for a health report about it is still to come.
   */
  lemma SelectedIsListed(run: seq<State>, n: nat, g: Hashing, start: u64)
    requires IsRun(run) && n < |run|
    ensures InRange(run[n])
    ensures var s, r := run[n], Select(run[n], g, start);
            r.Some? ==> r.value in s.list && (s.objects[r.value].Available() || ReportPending(s.tasks, r.value, -1))
  {
    RunIsKept(run, n);
    var s := run[n];
    var r := Route(s.ringViews, g, start);
    if Select(s, g, start).Some? {
      RoutedIsAvailable(s.ringViews, g, start, r.value);
      assert Current(s)[r.value] == s.objects[s.list[r.value]];
    }
  }

  /**
   * None is selected although some listed upstream is available only while the rebuild for a new list is to come,
   * or those for health reports about every upstream available now.
   */
  lemma NoneOnlyWhilePending(run: seq<State>, n: nat, g: Hashing, start: u64)
    requires IsRun(run) && n < |run| && g.replicas > 0
    requires Select(run[n], g, start) == None
    ensures InRange(run[n])
    ensures var s := run[n];
            || ListPending(s.tasks)
            || forall k | 0 <= k < |s.list| && Current(s)[k].Available() :: ReportPending(s.tasks, s.list[k], -1)
  {
    RunIsKept(run, n);
    var s := run[n];
    if s.ringList == s.list {
      RouteNoneIff(s.ringViews, g, start);
      var r := Route(s.ringViews, g, start);
      if r.Some? {
        RoutedIsAvailable(s.ringViews, g, start, r.value);
      }
    }
  }

  /** What a ring built from the list and the health of this moment would select. */
  ghost function FreshSelect(s: State, g: Hashing, start: u64): Option<nat>
    requires InRange(s)
  {
    var r := Route(Current(s), g, start);
    if r.Some? && r.value < |s.list| then Some(s.list[r.value]) else None
  }

  /** With no rebuild to come, the selection is the one a ring built this moment would give. */
  lemma SettledSelectionIsFresh(run: seq<State>, n: nat, g: Hashing, start: u64)
    requires IsRun(run) && n < |run|
    requires forall j | 0 <= j < |run[n].tasks| :: !WantsRebuild(run[n].tasks[j])
    ensures InRange(run[n])
    ensures Select(run[n], g, start) == FreshSelect(run[n], g, start)
  {
    RunIsKept(run, n);
    var s := run[n];
    assert SameOnRing(s.ringViews, Current(s));
    SameRoute(s.ringViews, Current(s), g, start);
  }

  // ---- The same exactly ----

  /** Some session key hashes to a slot itself, and is routed to the slot's owner. */
  lemma OwnerHasKey(us: seq<UpstreamView>, g: Hashing, i: int, x: u64) returns (key: string)
    requires Owns(us, g, i, x)
    ensures g.hash(key) == x && Route(us, g, x) == Some(i)
  {
    var k :| 0 <= k < g.replicas && g.hash(VirtualKey(us[i].name, k)) == x;
    key := VirtualKey(us[i].name, k);
    assert IsSuccessor(us, g, x, x);
    RouteIs(us, g, x, i);
  }

  /**
   * With no new list waiting for its ring, none is selected exactly when the last rebuild found none available, which
   * leaves the ring without slots. So none is selected despite an available one exactly when in addition one is
   * available now.
   */
  lemma NoneIff(run: seq<State>, n: nat, g: Hashing, start: u64)
    requires IsRun(run) && n < |run| && g.replicas > 0 && !ListPending(run[n].tasks)
    ensures InRange(run[n])
    ensures Select(run[n], g, start) == None <==> !SomeAvailable(run[n].ringViews)
    ensures Select(run[n], g, start) == None && SomeAvailable(Current(run[n]))
            <==> !SomeAvailable(run[n].ringViews) && SomeAvailable(Current(run[n]))
  {
    RunIsKept(run, n);
    var s := run[n];
    RouteNoneIff(s.ringViews, g, start);
    var r := Route(s.ringViews, g, start);
    if r.Some? {
      RoutedIsAvailable(s.ringViews, g, start, r.value);
    }
  }

  ghost predicate AlwaysSelects(s: State, g: Hashing) {
    forall key: string :: Select(s, g, g.hash(key)).Some?
  }

  /** Every owner of a slot stands at a position the current list has. */
  ghost predicate OwnersListed(s: State, g: Hashing) {
    forall i, x: u64 | Owns(s.ringViews, g, i, x) :: i < |s.list|
  }

  /**
   * In any state, also between a list change and the rebuild for it: every session key gets an upstream exactly when
   * the last rebuild found one available and the current list is long enough for all owners of slots.
   */
  lemma AlwaysSelectsIff(s: State, g: Hashing)
    requires g.replicas > 0
    ensures AlwaysSelects(s, g) <==> SomeAvailable(s.ringViews) && OwnersListed(s, g)
  {
    if SomeAvailable(s.ringViews) && OwnersListed(s, g) {
      forall key: string ensures Select(s, g, g.hash(key)).Some? {
        ListedOwnerIsSelected(s, g, g.hash(key));
      }
    }
    if AlwaysSelects(s, g) {
      RouteNoneIff(s.ringViews, g, g.hash(""));
      assert Select(s, g, g.hash("")).Some?;
      forall i, x: u64 | Owns(s.ringViews, g, i, x) ensures i < |s.list| {
        var key := OwnerHasKey(s.ringViews, g, i, x);
        assert Select(s, g, g.hash(key)).Some?;
      }
    }
  }

  lemma ListedOwnerIsSelected(s: State, g: Hashing, start: u64)
    requires g.replicas > 0 && SomeAvailable(s.ringViews) && OwnersListed(s, g)
    ensures Select(s, g, start).Some?
  {
    RouteNoneIff(s.ringViews, g, start);
    var i := Route(s.ringViews, g, start).value;
    var x: u64 :| IsSuccessor(s.ringViews, g, start, x) && Owns(s.ringViews, g, i, x);
  }

  /** A key that gets an upstream gets an available one. */
  ghost predicate NeverSelectsDown(s: State, g: Hashing)
    requires InRange(s)
  {
    forall key: string ::
      var r := Select(s, g, g.hash(key)); r.Some? && r.value < |s.objects| ==> s.objects[r.value].Available()
  }

  ghost predicate OwnersAvailable(s: State, g: Hashing)
    requires InRange(s)
  {
    forall i, x: u64 | Owns(s.ringViews, g, i, x) && i < |s.list| :: Current(s)[i].Available()
  }

  /** In any state every selected upstream is available exactly when the entry now at each slot owner's place is. */
  lemma NeverSelectsDownIff(s: State, g: Hashing)
    requires InRange(s)
    ensures NeverSelectsDown(s, g) <==> OwnersAvailable(s, g)
  {
    if OwnersAvailable(s, g) {
      forall key: string
        ensures var r := Select(s, g, g.hash(key)); r.Some? && r.value < |s.objects| ==> s.objects[r.value].Available()
      {
        if Select(s, g, g.hash(key)).Some? {
          var i := Route(s.ringViews, g, g.hash(key)).value;
          var x: u64 :| IsSuccessor(s.ringViews, g, g.hash(key), x) && Owns(s.ringViews, g, i, x);
          assert Current(s)[i].Available();
        }
      }
    }
    if NeverSelectsDown(s, g) {
      forall i, x: u64 | Owns(s.ringViews, g, i, x) && i < |s.list| ensures Current(s)[i].Available() {
        var key := OwnerHasKey(s.ringViews, g, i, x);
        assert Select(s, g, g.hash(key)) == Some(s.list[i]);
      }
    }
  }

  ghost predicate SelectsFresh(s: State, g: Hashing)
    requires InRange(s)
  {
    forall key: string :: Select(s, g, g.hash(key)) == FreshSelect(s, g, g.hash(key))
  }

  ghost predicate SameOwners(us: seq<UpstreamView>, vs: seq<UpstreamView>, g: Hashing) {
    forall i, x: u64 :: Owns(us, g, i, x) <==> Owns(vs, g, i, x)
  }

  /**
   * With no new list waiting for its ring, every session key is routed as by a ring built this moment exactly when
   * that ring would have the same owner for every slot.
   */
  lemma SelectsFreshIff(run: seq<State>, n: nat, g: Hashing)
    requires IsRun(run) && n < |run| && !ListPending(run[n].tasks)
    ensures InRange(run[n])
    ensures SelectsFresh(run[n], g) <==> SameOwners(run[n].ringViews, Current(run[n]), g)
  {
    RunIsKept(run, n);
    var s := run[n];
    var us, vs := s.ringViews, Current(s);
    if SameOwners(us, vs, g) {
      forall key: string ensures Select(s, g, g.hash(key)) == FreshSelect(s, g, g.hash(key)) {
        OwnersDecideRoute(us, vs, g, g.hash(key));
      }
    }
    if SelectsFresh(s, g) {
      forall key: string ensures Route(us, g, g.hash(key)) == Route(vs, g, g.hash(key)) {
        assert Select(s, g, g.hash(key)) == FreshSelect(s, g, g.hash(key));
        EqualSelectionsEqualRoutes(s, g, g.hash(key));
      }
      RoutesDecideOwners(us, vs, g);
      RoutesDecideOwners(vs, us, g);
    }
  }

  /** The numbers in the list differ, so the selected upstream tells the position. */
  lemma EqualSelectionsEqualRoutes(s: State, g: Hashing, start: u64)
    requires Kept(s) && s.ringList == s.list && Select(s, g, start) == FreshSelect(s, g, start)
    ensures Route(s.ringViews, g, start) == Route(Current(s), g, start)
  {
    var r, r' := Route(s.ringViews, g, start), Route(Current(s), g, start);
    if r.Some? {
      RoutedIsAvailable(s.ringViews, g, start, r.value);
    }
    if r'.Some? {
      RoutedIsAvailable(Current(s), g, start, r'.value);
    }
  }

  lemma OwnersDecideSlots(us: seq<UpstreamView>, vs: seq<UpstreamView>, g: Hashing, x: u64)
    requires SameOwners(us, vs, g) && IsSlot(us, g, x)
    ensures IsSlot(vs, g, x)
  {
    var i :| Claims(us, g, i, x);
    LastClaimant(us, g, i, x);
    var j :| Owns(us, g, j, x);
    assert Owns(vs, g, j, x);
  }

  lemma OwnersDecideRoute(us: seq<UpstreamView>, vs: seq<UpstreamView>, g: Hashing, start: u64)
    requires SameOwners(us, vs, g)
    ensures Route(us, g, start) == Route(vs, g, start)
  {
    forall y: u64 ensures IsSlot(us, g, y) <==> IsSlot(vs, g, y) {
      if IsSlot(us, g, y) {
        OwnersDecideSlots(us, vs, g, y);
      }
      if IsSlot(vs, g, y) {
        OwnersDecideSlots(vs, us, g, y);
      }
    }
    forall i ensures RoutesTo(us, g, start, i) <==> RoutesTo(vs, g, start, i) {
      forall x: u64 ensures IsSuccessor(us, g, start, x) <==> IsSuccessor(vs, g, start, x) {
      }
    }
    var r, r' := Route(us, g, start), Route(vs, g, start);
    if r.Some? {
      RouteIs(vs, g, start, r.value);
    } else if r'.Some? {
      RouteIs(us, g, start, r'.value);
    }
  }

  /** An upstream that gets its own slot's key under both readings, and has the same name in both, owns it in both. */
  lemma RoutesDecideOwners(us: seq<UpstreamView>, vs: seq<UpstreamView>, g: Hashing)
    requires |us| == |vs| && forall i | 0 <= i < |us| :: us[i].name == vs[i].name
    requires forall key: string :: Route(us, g, g.hash(key)) == Route(vs, g, g.hash(key))
    ensures forall i, x: u64 | Owns(us, g, i, x) :: Owns(vs, g, i, x)
  {
    forall i, x: u64 | Owns(us, g, i, x) ensures Owns(vs, g, i, x) {
      var key := OwnerHasKey(us, g, i, x);
      assert RoutesTo(vs, g, x, i);
      RoutedIsAvailable(vs, g, x, i);
      RoutedOwnsItsClaim(us, vs, g, i, x);
    }
  }

  lemma RoutedOwnsItsClaim(us: seq<UpstreamView>, vs: seq<UpstreamView>, g: Hashing, i: int, x: u64)
    requires Claims(us, g, i, x) && i < |vs| && vs[i].name == us[i].name && RoutesTo(vs, g, x, i)
    ensures Owns(vs, g, i, x)
  {
    RoutedIsAvailable(vs, g, x, i);
    assert Claims(vs, g, i, x);
    var y: u64 :| IsSuccessor(vs, g, x, y) && Owns(vs, g, i, y);
    assert ClockwiseDistance(x, y) <= ClockwiseDistance(x, x);
    assert x == y;
  }

  // ---- None selected although one is available, with no list being installed ----

  function OneConfig(): UpstreamConfig {
    UpstreamConfig("only", "host:1", 1, 1000)
  }

  /** An upstream goes down, is taken off the ring, and is up again before the ring has been rebuilt. */
  function OutageState(k: nat): State {
    var up := FreshView(OneConfig());
    var down := up.(health := Unhealthy);
    var s1 := State([up], [0], [], [], Idle, [RebuildList]);
    var s4 := State([up], [0], [0], [up], Idle, [Done]);
    var s6 := s4.(objects := [down], tasks := [Done, RebuildFor(0)]);
    var s9 := s6.(ringViews := [down], tasks := [Done, Done]);
    match k
    case 0 => State([], [], [], [], Idle, [])
    case 1 => s1
    case 2 => s1.(build := Reading(0, []))
    case 3 => s1.(build := Reading(0, [up]))
    case 4 => s4
    case 5 => s4.(tasks := [Done, Reporting(0, Unhealthy)])
    case 6 => s6
    case 7 => s6.(build := Reading(1, []))
    case 8 => s6.(build := Reading(1, [down]))
    case 9 => s9
    case 10 => s9.(tasks := [Done, Done, Reporting(0, Healthy)])
    case _ => s9.(objects := [up.(health := Healthy)], tasks := [Done, Done, RebuildFor(0)])
  }

  function OutageAction(k: nat): Action {
    match k
    case 0 => Install([OneConfig()])
    case 1 => Begin(0)
    case 2 => Read
    case 3 => Publish
    case 4 => Find("only", Unhealthy)
    case 5 => WriteHealth(1)
    case 6 => Begin(1)
    case 7 => Read
    case 8 => Publish
    case 9 => Find("only", Healthy)
    case _ => WriteHealth(2)
  }

  lemma OutageReads(k: nat)
    requires k == 2 || k == 7
    ensures InRange(OutageState(k)) && Steps(OutageState(k), Read, OutageState(k + 1))
  {
    var s := OutageState(k);
    assert s.build.seen + [Current(s)[0]] == [s.objects[0]];
  }

  lemma FirstOutageSteps(k: nat)
    requires k < 4 && k != 2
    ensures InRange(OutageState(k)) && Steps(OutageState(k), OutageAction(k), OutageState(k + 1))
  {
  }

  lemma OutageReports(k: nat)
    requires 4 <= k < 6
    ensures InRange(OutageState(k)) && Steps(OutageState(k), OutageAction(k), OutageState(k + 1))
  {
  }

  lemma LastOutageSteps(k: nat)
    requires 6 <= k < 11 && k != 7
    ensures InRange(OutageState(k)) && Steps(OutageState(k), OutageAction(k), OutageState(k + 1))
  {
  }

  lemma OutageStep(k: nat)
    requires k < 11
    ensures Next(OutageState(k), OutageState(k + 1))
  {
    if k == 2 || k == 7 {
      OutageReads(k);
    } else if k < 4 {
      FirstOutageSteps(k);
    } else if k < 6 {
      OutageReports(k);
    } else {
      LastOutageSteps(k);
    }
  }

  /** The list is settled, its one upstream is healthy, and still nothing is selected until the ring is rebuilt. */
  lemma HealthyButNotSelected(g: Hashing, start: u64) returns (run: seq<State>)
    requires g.replicas > 0
    ensures IsRun(run)
    ensures var s := run[|run| - 1];
            && InRange(s) && |s.list| == 1 && Current(s)[0].health == Healthy
            && !ListPending(s.tasks) && Select(s, g, start) == None
  {
    run := seq(12, k requires 0 <= k => OutageState(k));
    forall i, j | 0 <= i < |run| - 1 && j == i + 1 ensures Next(run[i], run[j]) {
      OutageStep(i);
    }
    RouteNoneIff(run[11].ringViews, g, start);
  }
}
