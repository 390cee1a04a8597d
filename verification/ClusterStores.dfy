/**
 The store of the active context: subscriptions with their wakeups, published
 lists and fetch-task handles (src/cluster/store.rs:130-268, 270-560), as the main
 loop drives it (src/app/mod.rs:92-124).
 */
module ClusterStores {
  import opened AccessAudit
  import opened BulletinRing
  import opened ClusterSnapshot
  import opened Subscribers
  import opened Wrappers

  /** The async runtime: the tasks spawned and neither aborted so far. */
  class Runtime {
    var live: set<nat>
    var next: nat

    ghost predicate Valid()
      reads this
    {
      forall t :: t in live ==> t < next
    }

    constructor ()
      ensures Valid() && live == {}
    {
      live, next := {}, 0;
    }

    method Spawn() returns (t: nat)
      requires Valid()
      modifies this
      ensures Valid() && t == old(next) && next == old(next) + 1 && live == old(live) + {t}
    {
      t, live, next := next, live + {next}, next + 1;
    }

    method Abort(t: nat)
      requires Valid()
      modifies this
      ensures Valid() && live == old(live) - {t} && next == old(next)
    {
      live := live - {t};
    }
  }

  /** The endpoints whose stored permit is there for the taking. */
  ghost function Stored(permits: seq<bool>): set<ClusterEndpoint>
    requires |permits| == ENDPOINT_COUNT
  {
    set e: ClusterEndpoint | permits[Index(e)]
  }

  lemma StoredAfter(permits: seq<bool>, e: ClusterEndpoint)
    requires |permits| == ENDPOINT_COUNT
    ensures Stored(permits[Index(e) := true]) == Stored(permits) + {e}
  {
    forall f ensures Index(f) == Index(e) ==> f == e {
      IndexIsInjective(f, e);
    }
  }

  /** How the published lists are read off the payloads. */
  datatype Extractors<!D> = Extractors(nodeRows: D -> seq<string>, diagNodes: D -> seq<string>, pgIds: D -> seq<string>)

  /** The cluster roster when it has rows, else the addresses system diagnostics reports, else nothing. */
  function WantedAddresses<D>(ex: Extractors<D>, nodes: EndpointState<D>, diag: EndpointState<D>): seq<string> {
    match nodes.Latest()
    case Some(d) => if ex.nodeRows(d) != [] then ex.nodeRows(d) else DiagAddresses(ex, diag)
    case None => DiagAddresses(ex, diag)
  }

  function DiagAddresses<D>(ex: Extractors<D>, diag: EndpointState<D>): seq<string> {
    match diag.Latest()
    case Some(d) => ex.diagNodes(d)
    case None => []
  }

  /** The group ids of the latest status, once there is one. */
  function WantedGroups<D>(ex: Extractors<D>, status: EndpointState<D>): seq<string> {
    match status.Latest()
    case Some(d) => ex.pgIds(d)
    case None => []
  }

  lemma NothingWanted<D>(ex: Extractors<D>)
    ensures WantedAddresses(ex, StateAfter([], Whole(ClusterNodes)), StateAfter([], Whole(SystemDiagnostics))) == []
    ensures WantedGroups(ex, StateAfter([], Whole(RootPgStatus))) == []
  {
  }

  // ----- The fetch tasks -----

  datatype Watch = Nothing | GroupIds | NodeAddresses

  /** `FetchTaskConfig`: whether the loop is gated, and whose subscriber counter and permit it is handed. */
  datatype Config = Config(gated: bool, counter: ClusterEndpoint, force: ClusterEndpoint)

  /** How a fetch loop is set up. The cursor is the bulletin task's. */
  datatype Loop = Loop(endpoint: ClusterEndpoint, cfg: Config, watch: Watch, cursor: int)

  datatype FetchTask = FetchTask(handle: nat, loop: Loop)

  /** The endpoints that are polled only while a view needs them. */
  function IsGated(e: ClusterEndpoint): bool {
    !(e == About || e == ControllerStatus || e == SystemDiagnostics || e == Bulletins)
  }

  function WatchOf(e: ClusterEndpoint): Watch {
    if e == ConnectionsByPg || e == VersionControl || e == ParameterContextBindings then GroupIds
    else if e == TlsCerts then NodeAddresses
    else Nothing
  }

  predicate SetUp(loop: Loop, cursor: int) {
    && loop.cfg.gated == IsGated(loop.endpoint) && loop.watch == WatchOf(loop.endpoint)
    && loop.cfg.counter == loop.endpoint == loop.cfg.force
    && (loop.endpoint == Bulletins ==> loop.cursor == cursor)
  }

  ghost predicate AllSetUp(tasks: seq<FetchTask>, cursor: int) {
    forall t :: t in tasks ==> SetUp(t.loop, cursor)
  }

  ghost function Polled(tasks: seq<FetchTask>): set<ClusterEndpoint> {
    set t | t in tasks :: t.loop.endpoint
  }

  /** Every endpoint has exactly one loop, set up as it should be, and bulletins resume at `cursor`. */
  ghost predicate OnePerEndpoint(tasks: seq<FetchTask>, cursor: int) {
    && |tasks| == ENDPOINT_COUNT && (forall e :: e in Polled(tasks)) && AllSetUp(tasks, cursor)
  }

  lemma PolledSize(tasks: seq<FetchTask>)
    ensures |Polled(tasks)| <= |tasks|
  {
    if tasks != [] {
      var n := |tasks| - 1;
      PolledSize(tasks[..n]);
      assert tasks == tasks[..n] + [tasks[n]];
      OneTaskMore(tasks[..n], tasks[n], 0);
    }
  }

  lemma TwelveEndpoints(es: set<ClusterEndpoint>)
    requires forall e :: e in es
    ensures |es| == ENDPOINT_COUNT
  {
    var some := {About, ControllerStatus, RootPgStatus, ControllerServices, SystemDiagnostics, ConnectionsByPg};
    var others := {Bulletins, ClusterNodes, TlsCerts, VersionControl, ParameterContextBindings, ReportingTasks};
    forall e ensures e in some + others {
      match e
      case About =>
      case _ =>
    }
    assert es == some + others;
  }

  /** No two loops share an endpoint, a counter or a permit, so a notification wakes one loop only. */
  lemma NothingShared(tasks: seq<FetchTask>, cursor: int, i: nat, j: nat)
    requires OnePerEndpoint(tasks, cursor) && i < |tasks| && j < |tasks| && i != j
    ensures tasks[i].loop.endpoint != tasks[j].loop.endpoint
    ensures tasks[i].loop.cfg.counter != tasks[j].loop.cfg.counter && tasks[i].loop.cfg.force != tasks[j].loop.cfg.force
  {
    assert tasks[i] in tasks && tasks[j] in tasks;
    if tasks[i].loop.endpoint == tasks[j].loop.endpoint {
      var fewer := tasks[..j] + tasks[j + 1..];
      forall e ensures e in Polled(fewer) {
        assert e in Polled(tasks);
        var k :| 0 <= k < |tasks| && tasks[k].loop.endpoint == e;
        var m := if k == j then i else k;
        assert tasks[m] == fewer[if m < j then m else m - 1];
      }
      TwelveEndpoints(Polled(fewer));
      PolledSize(fewer);
    }
  }

  function With(es: set<ClusterEndpoint>, e: ClusterEndpoint): set<ClusterEndpoint> {
    es + {e}
  }

  /** The endpoints in the order `spawn_fetchers` starts them. */
  function InSpawnOrder(): set<ClusterEndpoint> {
    var half := With(With(With(With(With(With({}, ControllerStatus), RootPgStatus), ControllerServices),
                               ConnectionsByPg), Bulletins), SystemDiagnostics);
    With(With(With(With(With(With(half, About), ClusterNodes), TlsCerts), VersionControl), ParameterContextBindings),
         ReportingTasks)
  }

  lemma LoopsAreSetUp(cursor: int)
    ensures SetUp(Loop(ControllerStatus, Config(false, ControllerStatus, ControllerStatus), Nothing, 0), cursor)
    ensures SetUp(Loop(RootPgStatus, Config(true, RootPgStatus, RootPgStatus), Nothing, 0), cursor)
    ensures SetUp(Loop(ControllerServices, Config(true, ControllerServices, ControllerServices), Nothing, 0), cursor)
    ensures SetUp(Loop(ConnectionsByPg, Config(true, ConnectionsByPg, ConnectionsByPg), GroupIds, 0), cursor)
    ensures SetUp(Loop(Bulletins, Config(false, Bulletins, Bulletins), Nothing, cursor), cursor)
    ensures SetUp(Loop(SystemDiagnostics, Config(false, SystemDiagnostics, SystemDiagnostics), Nothing, 0), cursor)
    ensures SetUp(Loop(About, Config(false, About, About), Nothing, 0), cursor)
    ensures SetUp(Loop(ClusterNodes, Config(true, ClusterNodes, ClusterNodes), Nothing, 0), cursor)
    ensures SetUp(Loop(TlsCerts, Config(true, TlsCerts, TlsCerts), NodeAddresses, 0), cursor)
    ensures SetUp(Loop(VersionControl, Config(true, VersionControl, VersionControl), GroupIds, 0), cursor)
    ensures SetUp(Loop(ParameterContextBindings, Config(true, ParameterContextBindings, ParameterContextBindings),
                       GroupIds, 0), cursor)
    ensures SetUp(Loop(ReportingTasks, Config(true, ReportingTasks, ReportingTasks), Nothing, 0), cursor)
  {
  }

  lemma OneTaskMore(tasks: seq<FetchTask>, t: FetchTask, cursor: int)
    ensures Polled(tasks + [t]) == Polled(tasks) + {t.loop.endpoint}
    ensures AllSetUp(tasks, cursor) && SetUp(t.loop, cursor) ==> AllSetUp(tasks + [t], cursor)
    ensures Handles(tasks + [t]) == Handles(tasks) + {t.handle}
  {
    assert t in tasks + [t];
    assert forall u :: u in tasks ==> u in tasks + [t];
  }

  ghost function Handles(tasks: seq<FetchTask>): set<nat> {
    set t | t in tasks :: t.handle
  }

  class ClusterStore<D> {
    const extractors: Extractors<D>
    const snapshot: Snapshot<D>
    const subscribers: SubscriberRegistry
    const permits: array<bool>        // one stored `Notify` permit per endpoint
    var handles: seq<FetchTask>
    var nodeAddresses: seq<string>    // the two watch channels
    var pgIds: seq<string>
    var accessAudit: AccessAuditState

    ghost function Repr(): set<object> {
      {this, snapshot, snapshot.bulletins, subscribers, subscribers.counters, permits}
    }

    /** The endpoints whose fetch task has a wakeup waiting. */
    ghost function Permits(): set<ClusterEndpoint>
      requires permits.Length == ENDPOINT_COUNT
      reads permits
    {
      Stored(permits[..])
    }

    /** The fetch tasks this store can abort. */
    ghost function Held(): set<nat>
      reads this`handles
    {
      Handles(handles)
    }

    ghost predicate Valid()
      reads snapshot, snapshot.bulletins, subscribers, subscribers.counters, permits
    {
      snapshot.Valid() && subscribers.Valid() && permits.Length == ENDPOINT_COUNT
    }

    /** What the fetch tasks are told agrees with every update applied so far. */
    ghost predicate Published()
      reads this`nodeAddresses, this`pgIds, snapshot
    {
      && nodeAddresses == WantedAddresses(extractors, StateAfter(snapshot.log, Whole(ClusterNodes)),
                                          StateAfter(snapshot.log, Whole(SystemDiagnostics)))
      && pgIds == WantedGroups(extractors, StateAfter(snapshot.log, Whole(RootPgStatus)))
    }

    constructor (extractors: Extractors<D>, bulletinsCapacity: nat)
      ensures Valid() && Published() && fresh(Repr())
      ensures subscribers.subs == {} && handles == [] && snapshot.log == []
      ensures this.extractors == extractors && accessAudit == Unknown
      ensures Permits() == {}
    {
      hide Snapshot.Valid, SubscriberRegistry.Valid, StateAfter, WantedAddresses, WantedGroups;
      this.extractors := extractors;
      snapshot := new Snapshot(bulletinsCapacity);
      subscribers := new SubscriberRegistry();
      permits := new bool[ENDPOINT_COUNT](_ => false);
      handles, nodeAddresses, pgIds, accessAudit := [], [], [], Unknown;
      new;
      NothingWanted(extractors);
      assert snapshot.log == [];
    }

    /** `notify_one`: at most one permit is stored. */
    method Force(e: ClusterEndpoint)
      requires permits.Length == ENDPOINT_COUNT
      modifies permits
      ensures Permits() == old(Permits()) + {e}
    {
      hide Stored, Index;
      StoredAfter(permits[..], e);
      ghost var was := permits[..];
      permits[Index(e)] := true;
      assert permits[..] == was[Index(e) := true];
    }

    /** Wakes the endpoint's task for every view that was not subscribed yet. */
    method Subscribe(e: ClusterEndpoint, v: ViewId)
      requires subscribers.Valid() && permits.Length == ENDPOINT_COUNT
      modifies subscribers, subscribers.counters, permits
      ensures subscribers.Valid() && subscribers.subs == old(subscribers.subs) + {(e, v)}
      ensures Permits() == if (e, v) in old(subscribers.subs) then old(Permits()) else old(Permits()) + {e}
    {
      hide Stored, SubscriberRegistry.Valid;
      var inserted := subscribers.Subscribe(e, v);
      if inserted {
        Force(e);
      }
    }

    method Unsubscribe(e: ClusterEndpoint, v: ViewId)
      requires subscribers.Valid()
      modifies subscribers, subscribers.counters
      ensures subscribers.Valid() && subscribers.subs == old(subscribers.subs) - {(e, v)}
    {
      var _ := subscribers.Unsubscribe(e, v);
    }

    /** `publish_node_addresses`: publishes and wakes the prober only when the list changed. */
    method PublishNodeAddresses()
      requires Valid()
      modifies this`nodeAddresses, permits
      ensures Valid()
      ensures nodeAddresses == WantedAddresses(extractors, StateAfter(snapshot.log, Whole(ClusterNodes)),
                                               StateAfter(snapshot.log, Whole(SystemDiagnostics)))
      ensures Permits() == if nodeAddresses == old(nodeAddresses) then old(Permits()) else old(Permits()) + {TlsCerts}
    {
      hide StateAfter, Snapshot.GroupsReflect, Snapshot.RingReflects, SubscriberRegistry.Valid, Index, Stored;
      assert snapshot.clusterNodes == snapshot.StateOf(ClusterNodes)
          && snapshot.systemDiagnostics == snapshot.StateOf(SystemDiagnostics);
      var addresses := WantedAddresses(extractors, snapshot.clusterNodes, snapshot.systemDiagnostics);
      var changed := nodeAddresses != addresses;
      if changed {
        nodeAddresses := addresses;
        Force(TlsCerts);
      }
    }

    /** `publish_pg_ids`: nothing is sent before the first success. */
    method PublishPgIds()
      requires Valid()
      modifies this`pgIds
      ensures Valid()
      ensures var latest := StateAfter(snapshot.log, Whole(RootPgStatus)).Latest();
              pgIds == if latest.Some? then extractors.pgIds(latest.value) else old(pgIds)
    {
      hide StateAfter, Snapshot.GroupsReflect, Snapshot.RingReflects, SubscriberRegistry.Valid;
      assert snapshot.rootPgStatus == snapshot.StateOf(RootPgStatus);
      match snapshot.rootPgStatus.Latest()
      case Some(d) => pgIds := extractors.pgIds(d);
      case None =>
    }

    /** The main loop's arm for one update: apply it, then publish what it may have changed. */
    method HandleUpdate(u: ClusterUpdate<D>) returns (endpoint: ClusterEndpoint)
      requires Valid() && Published()
      modifies this`nodeAddresses, this`pgIds, permits, snapshot, snapshot.bulletins
      ensures Valid() && Published()
      ensures snapshot.log == old(snapshot.log) + [u] && endpoint == u.Endpoint()
      ensures Permits() == if nodeAddresses == old(nodeAddresses) then old(Permits()) else old(Permits()) + {TlsCerts}
    {
      hide StateAfter, Snapshot.Valid, SubscriberRegistry.Valid, Index, Stored;
      ghost var log := snapshot.log;
      StateAfterOne(log, u, Whole(ClusterNodes));
      StateAfterOne(log, u, Whole(SystemDiagnostics));
      StateAfterOne(log, u, Whole(RootPgStatus));
      endpoint := snapshot.ApplyUpdate(u);
      if endpoint == RootPgStatus {
        PublishPgIds();
      }
      if endpoint == ClusterNodes || endpoint == SystemDiagnostics {
        PublishNodeAddresses();
      }
    }

    /** `k` tasks have been spawned on top of `was`, which poll `done`; the tasks `others` belong elsewhere. */
    ghost predicate Spawning(rt: Runtime, was: seq<FetchTask>, others: set<nat>, cursor: int, k: nat,
                             done: set<ClusterEndpoint>)
      reads rt, this`handles
    {
      && rt.Valid() && Held() <= rt.live && rt.live - Held() == others
      && |handles| == |was| + k && was <= handles && |Held()| == |Handles(was)| + k
      && AllSetUp(handles[|was|..], cursor) && Polled(handles[|was|..]) == done
    }

    /** One `handles.push(spawn_..)`. */
    method SpawnOne(rt: Runtime, loop: Loop, ghost was: seq<FetchTask>, ghost others: set<nat>, ghost cursor: int,
                    ghost k: nat, ghost done: set<ClusterEndpoint>)
      returns (ghost now: set<ClusterEndpoint>)
      requires Spawning(rt, was, others, cursor, k, done) && SetUp(loop, cursor)
      modifies rt, this`handles
      ensures Spawning(rt, was, others, cursor, k + 1, now) && now == With(done, loop.endpoint)
      ensures rt.next >= old(rt.next)
    {
      hide Handles, Polled, AllSetUp, SetUp;
      var t := rt.Spawn();
      OneTaskMore(handles, FetchTask(t, loop), cursor);
      OneTaskMore(handles[|was|..], FetchTask(t, loop), cursor);
      ghost var before := handles;
      handles := handles + [FetchTask(t, loop)];
      assert handles[|was|..] == before[|was|..] + [FetchTask(t, loop)];
      now := With(done, loop.endpoint);
    }

    /** `spawn_fetchers`: one loop more per endpoint, each with a task and a handle of its own. */
    method SpawnFetchers(rt: Runtime)
      requires rt.Valid() && Held() <= rt.live
      modifies rt, this`handles
      ensures rt.Valid() && Held() <= rt.live
      ensures rt.live - Held() == old(rt.live - Held()) && |Held()| == old(|Held()|) + ENDPOINT_COUNT
      ensures old(handles) <= handles && rt.next >= old(rt.next)
      ensures OnePerEndpoint(handles[|old(handles)|..], snapshot.bulletins.lastId.GetOr(0))
    {
      hide Spawning, With, SetUp, OnePerEndpoint;
      ghost var was, others, done := handles, rt.live - Held(), {};
      var cursor := snapshot.bulletins.lastId.GetOr(0);
      NothingSpawned(rt, cursor);
      LoopsAreSetUp(cursor);
      var cfg := Config(false, ControllerStatus, ControllerStatus);
      done := SpawnOne(rt, Loop(ControllerStatus, cfg, Nothing, 0), was, others, cursor, 0, done);
      cfg := Config(true, RootPgStatus, RootPgStatus);
      done := SpawnOne(rt, Loop(RootPgStatus, cfg, Nothing, 0), was, others, cursor, 1, done);
      cfg := Config(true, ControllerServices, ControllerServices);
      done := SpawnOne(rt, Loop(ControllerServices, cfg, Nothing, 0), was, others, cursor, 2, done);
      cfg := Config(true, ConnectionsByPg, ConnectionsByPg);
      done := SpawnOne(rt, Loop(ConnectionsByPg, cfg, GroupIds, 0), was, others, cursor, 3, done);
      cfg := Config(false, Bulletins, Bulletins);
      done := SpawnOne(rt, Loop(Bulletins, cfg, Nothing, cursor), was, others, cursor, 4, done);
      cfg := Config(false, SystemDiagnostics, SystemDiagnostics);
      done := SpawnOne(rt, Loop(SystemDiagnostics, cfg, Nothing, 0), was, others, cursor, 5, done);
      cfg := Config(false, About, About);
      done := SpawnOne(rt, Loop(About, cfg, Nothing, 0), was, others, cursor, 6, done);
      cfg := Config(true, ClusterNodes, ClusterNodes);
      done := SpawnOne(rt, Loop(ClusterNodes, cfg, Nothing, 0), was, others, cursor, 7, done);
      cfg := Config(true, TlsCerts, TlsCerts);
      done := SpawnOne(rt, Loop(TlsCerts, cfg, NodeAddresses, 0), was, others, cursor, 8, done);
      cfg := Config(true, VersionControl, VersionControl);
      done := SpawnOne(rt, Loop(VersionControl, cfg, GroupIds, 0), was, others, cursor, 9, done);
      cfg := Config(true, ParameterContextBindings, ParameterContextBindings);
      done := SpawnOne(rt, Loop(ParameterContextBindings, cfg, GroupIds, 0), was, others, cursor, 10, done);
      cfg := Config(true, ReportingTasks, ReportingTasks);
      done := SpawnOne(rt, Loop(ReportingTasks, cfg, Nothing, 0), was, others, cursor, 11, done);
      AllSpawned(rt, was, others, cursor);
    }

    lemma NothingSpawned(rt: Runtime, cursor: int)
      requires rt.Valid() && Held() <= rt.live
      ensures Spawning(rt, handles, rt.live - Held(), cursor, 0, {})
    {
    }

    lemma AllSpawned(rt: Runtime, was: seq<FetchTask>, others: set<nat>, cursor: int)
      requires Spawning(rt, was, others, cursor, ENDPOINT_COUNT, InSpawnOrder())
      ensures rt.Valid() && Held() <= rt.live && rt.live - Held() == others
      ensures |Held()| == |Handles(was)| + ENDPOINT_COUNT
      ensures was <= handles && OnePerEndpoint(handles[|was|..], cursor)
    {
      forall e ensures e in Polled(handles[|was|..]) {
        match e
        case About =>
        case _ =>
      }
    }

    /** `shutdown`: aborts every fetch task, forgets the handles and the audit; a second call does nothing. */
    method Shutdown(rt: Runtime)
      requires rt.Valid()
      modifies rt, this`handles, this`accessAudit
      ensures rt.Valid() && handles == [] && accessAudit == Unknown
      ensures rt.live == old(rt.live) - old(Held()) && rt.next == old(rt.next)
    {
      while handles != []
        invariant rt.Valid() && rt.live - Held() == old(rt.live) - old(Held())
        invariant rt.live <= old(rt.live) && rt.next == old(rt.next)
        decreases |handles|
      {
        var t := handles[0];
        assert handles == [t] + handles[1..];
        assert Held() == {t.handle} + Handles(handles[1..]);
        rt.Abort(t.handle);
        handles := handles[1..];
      }
      assert Held() == {};
      accessAudit := Unknown;
    }
  }
}
