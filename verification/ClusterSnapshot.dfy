/**
 The cluster snapshot the UI task maintains from the updates the fetch tasks
 send (src/cluster/snapshot.rs:43-104, 212-281, src/cluster/store.rs:481-534).
 Each endpoint's state is shown to be a function of that endpoint's own updates.
 The endpoint payloads are one abstract type `D`.
 */
module ClusterSnapshot {
  import opened Wrappers
  import opened BulletinRing

  datatype ClusterEndpoint =
    About | ControllerStatus | RootPgStatus | ControllerServices | SystemDiagnostics | ConnectionsByPg
    | Bulletins | ClusterNodes | TlsCerts | VersionControl | ParameterContextBindings | ReportingTasks

  const ENDPOINT_COUNT := 12

  datatype FetchMeta = FetchMeta(fetchedAt: int, fetchDuration: int, nextInterval: int)

  datatype Fetched<D> = Fetched(result: Result<D, string>, meta: FetchMeta)

  datatype EndpointState<D> =
    | Loading
    | Ready(data: D, meta: FetchMeta)
    | Failed(error: string, meta: FetchMeta, lastOk: Option<(D, FetchMeta)>)
  {
    /** The data views render, current or stale. */
    function Latest(): Option<D> {
      match this
      case Loading => None
      case Ready(d, _) => Some(d)
      case Failed(_, _, Some((d, _))) => Some(d)
      case Failed(_, _, None) => None
    }

    /** `apply`: a success replaces everything, a failure keeps the last success aside. */
    function Applied(f: Fetched<D>): EndpointState<D> {
      match f.result
      case Success(d) => Ready(d, f.meta)
      case Failure(e) =>
        var kept := match this
          case Ready(d, m) => Some((d, m))
          case Failed(_, _, ok) => ok
          case Loading => None;
        Failed(e, f.meta, kept)
    }

    /** The last success together with the timing of that success. */
    function LastOk(): Option<(D, FetchMeta)> {
      match this
      case Loading => None
      case Ready(d, m) => Some((d, m))
      case Failed(_, _, ok) => ok
    }
  }

  // ----- One endpoint over its whole log -----

  function After<D>(log: seq<Fetched<D>>): EndpointState<D> {
    if log == [] then Loading else After(log[..|log| - 1]).Applied(log[|log| - 1])
  }

  ghost predicate IsLastSuccess<D>(log: seq<Fetched<D>>, k: int) {
    0 <= k < |log| && log[k].result.Success? && forall j :: k < j < |log| ==> log[j].result.Failure?
  }

  ghost predicate AllFail<D>(log: seq<Fetched<D>>) {
    forall j :: 0 <= j < |log| ==> log[j].result.Failure?
  }

  /**
   After any updates: `latest` is the data of the last success, kept with that
   success's meta through any run of failures and absent iff there was none; the
   state is `Ready` iff the last update succeeded and carries the last update's
   meta and error.
   */
  lemma {:induction false} StateReflectsLog<D>(log: seq<Fetched<D>>)
    ensures After(log).Loading? <==> log == []
    ensures AllFail(log) ==> After(log).LastOk() == None && After(log).Latest() == None
    ensures forall k :: IsLastSuccess(log, k) ==>
              && 0 <= k < |log| && log[k].result.Success?
              && After(log).LastOk() == Some((log[k].result.value, log[k].meta))
              && After(log).Latest() == Some(log[k].result.value)
    ensures log != [] ==>
              var last := log[|log| - 1];
              && After(log).meta == last.meta
              && (After(log).Ready? <==> last.result.Success?)
              && (last.result.Failure? ==> After(log).Failed? && After(log).error == last.result.error)
  {
    hide IsLastSuccess, AllFail;
    if log != [] {
      var init, last := log[..|log| - 1], log[|log| - 1];
      StateReflectsLog(init);
      LastSuccessMoves(log);
    } else {
      NoSuccessYet(log);
    }
  }

  lemma NoSuccessYet<D>(log: seq<Fetched<D>>)
    requires log == []
    ensures forall k :: !IsLastSuccess(log, k)
  {
  }

  lemma LastSuccessMoves<D>(log: seq<Fetched<D>>)
    requires log != []
    ensures var init, last := log[..|log| - 1], log[|log| - 1];
            && (AllFail(log) <==> AllFail(init) && last.result.Failure?)
            && forall k :: IsLastSuccess(log, k) ==>
                 if last.result.Success? then k == |log| - 1
                 else IsLastSuccess(init, k) && 0 <= k < |init| && init[k] == log[k]
  {
    var init, last := log[..|log| - 1], log[|log| - 1];
    assert log == init + [last];
    forall k | IsLastSuccess(log, k) && last.result.Success? ensures k == |log| - 1 {
      assert log[|log| - 1].result.Success?;
    }
  }

  /** Every log has a last success or none at all. */
  lemma {:induction false} LastSuccessExists<D>(log: seq<Fetched<D>>)
    ensures AllFail(log) <==> !exists k :: IsLastSuccess(log, k)
  {
    if log != [] && !log[|log| - 1].result.Success? {
      var init := log[..|log| - 1];
      LastSuccessExists(init);
      if !AllFail(log) {
        assert !AllFail(init);
        var k :| IsLastSuccess(init, k);
        assert IsLastSuccess(log, k);
      }
    } else if log != [] {
      assert IsLastSuccess(log, |log| - 1);
    }
  }

  // ----- Updates of all endpoints -----

  datatype ClusterUpdate<D> =
    | AboutUpdate(fetched: Fetched<D>)
    | ControllerStatusUpdate(fetched: Fetched<D>)
    | RootPgStatusUpdate(fetched: Fetched<D>)
    | ControllerServicesUpdate(fetched: Fetched<D>)
    | SystemDiagnosticsUpdate(fetched: Fetched<D>)
    | ClusterNodesUpdate(fetched: Fetched<D>)
    | TlsCertsUpdate(fetched: Fetched<D>)
    | ConnectionsUpdate(pgId: string, fetched: Fetched<D>)
    | BulletinsDelta(delta: Fetched<seq<Bulletin>>)
    | VersionControlUpdate(fetched: Fetched<D>)
    | ParameterContextBindingsUpdate(fetched: Fetched<D>)
    | ReportingTasksUpdate(fetched: Fetched<D>)
  {
    function Endpoint(): ClusterEndpoint {
      match this
      case AboutUpdate(_) => About
      case ControllerStatusUpdate(_) => ControllerStatus
      case RootPgStatusUpdate(_) => RootPgStatus
      case ControllerServicesUpdate(_) => ControllerServices
      case SystemDiagnosticsUpdate(_) => SystemDiagnostics
      case ClusterNodesUpdate(_) => ClusterNodes
      case TlsCertsUpdate(_) => TlsCerts
      case ConnectionsUpdate(_, _) => ConnectionsByPg
      case BulletinsDelta(_) => Bulletins
      case VersionControlUpdate(_) => VersionControl
      case ParameterContextBindingsUpdate(_) => ParameterContextBindings
      case ReportingTasksUpdate(_) => ReportingTasks
    }
  }

  /** What an update is about: a whole endpoint, or one process group's connections. */
  datatype Key = Whole(endpoint: ClusterEndpoint) | OfGroup(pgId: string)

  function KeyOf<D>(u: ClusterUpdate<D>): Key {
    if u.ConnectionsUpdate? then OfGroup(u.pgId) else Whole(u.Endpoint())
  }

  /** The fetches of one key, in order. */
  function FetchesOf<D>(log: seq<ClusterUpdate<D>>, key: Key): seq<Fetched<D>> {
    if log == [] then []
    else
      var before, u := FetchesOf(log[..|log| - 1], key), log[|log| - 1];
      if !u.BulletinsDelta? && KeyOf(u) == key then before + [u.fetched] else before
  }

  /** The bulletin fetches, in order. */
  function Deltas<D>(log: seq<ClusterUpdate<D>>): seq<Fetched<seq<Bulletin>>> {
    if log == [] then []
    else
      var before, u := Deltas(log[..|log| - 1]), log[|log| - 1];
      if u.BulletinsDelta? then before + [u.delta] else before
  }

  /** All bulletins of the successful fetches, in order. */
  function Merged(deltas: seq<Fetched<seq<Bulletin>>>): seq<Bulletin> {
    if deltas == [] then []
    else
      var before, d := Merged(deltas[..|deltas| - 1]), deltas[|deltas| - 1];
      if d.result.Success? then before + d.result.value else before
  }

  /** The state of one key after a whole log: it depends on that key's fetches only. */
  function StateAfter<D>(log: seq<ClusterUpdate<D>>, key: Key): EndpointState<D> {
    After(FetchesOf(log, key))
  }

  lemma StateAfterOne<D>(log: seq<ClusterUpdate<D>>, u: ClusterUpdate<D>, key: Key)
    ensures StateAfter(log + [u], key)
         == if !u.BulletinsDelta? && KeyOf(u) == key then StateAfter(log, key).Applied(u.fetched)
            else StateAfter(log, key)
    ensures FetchesOf(log + [u], key) == []
         <==> FetchesOf(log, key) == [] && (u.BulletinsDelta? || KeyOf(u) != key)
  {
    assert (log + [u])[..|log + [u]| - 1] == log;
    if !u.BulletinsDelta? && KeyOf(u) == key {
      var fs := FetchesOf(log, key);
      assert (fs + [u.fetched])[..|fs + [u.fetched]| - 1] == fs;
    }
  }

  lemma NoFetchesMeansLoading<D>(log: seq<ClusterUpdate<D>>, key: Key)
    ensures StateAfter(log, key).Loading? <==> FetchesOf(log, key) == []
  {
  }

  lemma DeltasOne<D>(log: seq<ClusterUpdate<D>>, u: ClusterUpdate<D>)
    ensures Deltas(log + [u]) == if u.BulletinsDelta? then Deltas(log) + [u.delta] else Deltas(log)
  {
    assert (log + [u])[..|log + [u]| - 1] == log;
  }

  /** A ring that shows what the bulletin fetches brought, however often it was trimmed. */
  ghost predicate Shows(deltas: seq<Fetched<seq<Bulletin>>>, capacity: nat, buf: seq<Bulletin>, lastId: Option<int>,
                        meta: Option<FetchMeta>, lastError: Option<string>)
  {
    && buf == LastN(Merged(deltas), capacity)
    && lastId == MaxId(None, Merged(deltas))
    && (deltas == [] ==> meta == None && lastError == None)
    && (deltas != [] ==>
          var last := deltas[|deltas| - 1];
          && meta == Some(last.meta)
          && lastError == if last.result.Failure? then Some(last.result.error) else None)
  }

  lemma ShowsNext(deltas: seq<Fetched<seq<Bulletin>>>, d: Fetched<seq<Bulletin>>, capacity: nat,
                  buf: seq<Bulletin>, lastId: Option<int>, meta: Option<FetchMeta>, lastError: Option<string>)
    requires Shows(deltas, capacity, buf, lastId, meta, lastError)
    ensures d.result.Success? ==>
              var batch := d.result.value;
              Shows(deltas + [d], capacity, LastN(buf + batch, capacity), MaxId(lastId, batch), Some(d.meta), None)
    ensures d.result.Failure? ==>
              Shows(deltas + [d], capacity, buf, lastId, Some(d.meta), Some(d.result.error))
  {
    var all := deltas + [d];
    assert all[..|all| - 1] == deltas;
    if d.result.Success? {
      LastNAppend(Merged(deltas), d.result.value, capacity);
      MaxIdConcat(None, Merged(deltas), d.result.value);
    }
  }

  /** The endpoints with at least one update in the log, counting each group's connections for their endpoint. */
  function Seen<D>(log: seq<ClusterUpdate<D>>): set<ClusterEndpoint> {
    set k | 0 <= k < |log| :: log[k].Endpoint()
  }

  lemma SeenOne<D>(log: seq<ClusterUpdate<D>>, u: ClusterUpdate<D>)
    ensures Seen(log + [u]) == Seen(log) + {u.Endpoint()}
  {
    var all := log + [u];
    forall e ensures e in Seen(all) <==> e in Seen(log) + {u.Endpoint()} {
      if e in Seen(log) {
        var k :| 0 <= k < |log| && log[k].Endpoint() == e;
        assert all[k].Endpoint() == e;
      }
      assert all[|log|].Endpoint() == u.Endpoint();
      if e in Seen(all) {
        var k :| 0 <= k < |all| && all[k].Endpoint() == e;
        assert k < |log| ==> log[k].Endpoint() == e;
      }
    }
  }

  /** Boot progress never goes back, whatever is applied. */
  lemma SeenOnlyGrows<D>(log: seq<ClusterUpdate<D>>, more: seq<ClusterUpdate<D>>)
    ensures Seen(log) <= Seen(log + more) && |Seen(log)| <= |Seen(log + more)|
  {
    var all := log + more;
    forall e | e in Seen(log) ensures e in Seen(all) {
      var k :| 0 <= k < |log| && log[k].Endpoint() == e;
      assert all[k].Endpoint() == e;
    }
    SubsetIsSmaller(Seen(log), Seen(all));
  }

  lemma {:induction false} SubsetIsSmaller<T>(small: set<T>, large: set<T>)
    requires small <= large
    ensures |small| <= |large|
  {
    if small != {} {
      var x :| x in small;
      SubsetIsSmaller(small - {x}, large - {x});
    }
  }

  /** Updates about different keys may be applied in either order. */
  lemma DifferentKeysCommute<D>(log: seq<ClusterUpdate<D>>, u: ClusterUpdate<D>, v: ClusterUpdate<D>, key: Key)
    requires KeyOf(u) != KeyOf(v)
    ensures StateAfter(log + [u] + [v], key) == StateAfter(log + [v] + [u], key)
    ensures Deltas(log + [u] + [v]) == Deltas(log + [v] + [u])
  {
    hide StateAfter, FetchesOf, Deltas;
    StateAfterOne(log + [u], v, key);
    StateAfterOne(log + [v], u, key);
    StateAfterOne(log, u, key);
    StateAfterOne(log, v, key);
    DeltasOne(log + [u], v);
    DeltasOne(log + [v], u);
    DeltasOne(log, u);
    DeltasOne(log, v);
  }

  /** How many of the listed endpoints are in `s`. */
  function CountIn(es: seq<ClusterEndpoint>, s: set<ClusterEndpoint>): nat {
    if es == [] then 0 else CountIn(es[..|es| - 1], s) + (if es[|es| - 1] in s then 1 else 0)
  }

  lemma CountStep(es: seq<ClusterEndpoint>, i: nat, s: set<ClusterEndpoint>)
    requires i < |es|
    ensures CountIn(es[..i + 1], s) == CountIn(es[..i], s) + (if es[i] in s then 1 else 0)
    ensures i == 0 ==> CountIn(es[..i], s) == 0
  {
    assert es[..i + 1][..i] == es[..i];
  }

  lemma LastIsNew(es: seq<ClusterEndpoint>)
    requires es != [] && forall i, j :: 0 <= i < j < |es| ==> es[i] != es[j]
    ensures var init, e := es[..|es| - 1], es[|es| - 1];
            e !in init && forall x :: x in es <==> x in init || x == e
  {
    var init, e := es[..|es| - 1], es[|es| - 1];
    assert es == init + [e];
  }

  lemma {:induction false} CountInIsSize(es: seq<ClusterEndpoint>, s: set<ClusterEndpoint>)
    requires forall i, j :: 0 <= i < j < |es| ==> es[i] != es[j]
    ensures CountIn(es, s) == |Hits(es, s)|
  {
    hide Hits;
    HitsOne(es, s);
    if es != [] {
      CountInIsSize(es[..|es| - 1], s);
    }
  }

  function Hits(es: seq<ClusterEndpoint>, s: set<ClusterEndpoint>): set<ClusterEndpoint> {
    set e | e in s && e in es
  }

  lemma HitsOne(es: seq<ClusterEndpoint>, s: set<ClusterEndpoint>)
    requires forall i, j :: 0 <= i < j < |es| ==> es[i] != es[j]
    ensures es == [] ==> Hits(es, s) == {}
    ensures es != [] ==>
              var init, e := es[..|es| - 1], es[|es| - 1];
              e !in Hits(init, s) && Hits(es, s) == if e in s then Hits(init, s) + {e} else Hits(init, s)
  {
    if es != [] {
      LastIsNew(es);
    }
  }

  /** The order in which `ready_count` looks at the endpoints. */
  const READY_ORDER: seq<ClusterEndpoint> :=
    [About, ControllerStatus, RootPgStatus, ControllerServices, ClusterNodes, TlsCerts, SystemDiagnostics,
     VersionControl, ParameterContextBindings, ReportingTasks, Bulletins, ConnectionsByPg]

  function PlaceOf(e: ClusterEndpoint): (i: nat)
    ensures i < 12 && (i < 10 <==> e != Bulletins && e != ConnectionsByPg)
  {
    match e
    case About => 0
    case ControllerStatus => 1
    case RootPgStatus => 2
    case ControllerServices => 3
    case ClusterNodes => 4
    case TlsCerts => 5
    case SystemDiagnostics => 6
    case VersionControl => 7
    case ParameterContextBindings => 8
    case ReportingTasks => 9
    case Bulletins => 10
    case ConnectionsByPg => 11
  }

  lemma PlaceOfReady(i: nat)
    requires i < |READY_ORDER|
    ensures PlaceOf(READY_ORDER[i]) == i
  {
  }

  /** `ready_count` looks at every endpoint, and at each once. */
  lemma CountInAll(s: set<ClusterEndpoint>)
    ensures CountIn(READY_ORDER, s) == |s|
  {
    forall i, j | 0 <= i < j < |READY_ORDER| ensures READY_ORDER[i] != READY_ORDER[j] {
      PlaceOfReady(i);
      PlaceOfReady(j);
    }
    CountInIsSize(READY_ORDER, s);
    forall e ensures e in READY_ORDER {
      assert READY_ORDER[PlaceOf(e)] == e;
    }
    assert Hits(READY_ORDER, s) == s;
  }

  ghost predicate SomeGroupFetched<D>(log: seq<ClusterUpdate<D>>) {
    exists pg :: FetchesOf(log, OfGroup(pg)) != []
  }

  /** An endpoint was seen iff one of its fetches is on record. */
  lemma {:induction false} SeenMeansFetched<D>(log: seq<ClusterUpdate<D>>, e: ClusterEndpoint)
    ensures e != ConnectionsByPg && e != Bulletins ==> (e in Seen(log) <==> FetchesOf(log, Whole(e)) != [])
    ensures ConnectionsByPg in Seen(log) <==> SomeGroupFetched(log)
    ensures Bulletins in Seen(log) <==> Deltas(log) != []
  {
    hide Seen, FetchesOf, StateAfter, Deltas;
    if log == [] {
      NothingSeen(log, e);
    }
    if log != [] {
      var init, u := log[..|log| - 1], log[|log| - 1];
      assert log == init + [u];
      SeenMeansFetched(init, e);
      SeenOne(init, u);
      StateAfterOne(init, u, Whole(e));
      DeltasOne(init, u);
      GroupFetchedOne(init, u);
    }
  }

  lemma NothingSeen<D>(log: seq<ClusterUpdate<D>>, e: ClusterEndpoint)
    requires log == []
    ensures Seen(log) == {} && FetchesOf(log, Whole(e)) == [] && !SomeGroupFetched(log) && Deltas(log) == []
  {
  }

  lemma GroupFetchedOne<D>(log: seq<ClusterUpdate<D>>, u: ClusterUpdate<D>)
    ensures SomeGroupFetched(log + [u]) <==> SomeGroupFetched(log) || u.ConnectionsUpdate?
  {
    hide FetchesOf, StateAfter;
    forall pg ensures FetchesOf(log + [u], OfGroup(pg)) == []
                      <==> FetchesOf(log, OfGroup(pg)) == [] && (u.BulletinsDelta? || KeyOf(u) != OfGroup(pg)) {
      StateAfterOne(log, u, OfGroup(pg));
    }
    if u.ConnectionsUpdate? {
      assert FetchesOf(log + [u], OfGroup(u.pgId)) != [];
    }
  }

  class Snapshot<D> {
    var about: EndpointState<D>
    var controllerStatus: EndpointState<D>
    var rootPgStatus: EndpointState<D>
    var controllerServices: EndpointState<D>
    var clusterNodes: EndpointState<D>
    var tlsCerts: EndpointState<D>
    var systemDiagnostics: EndpointState<D>
    var connectionsByPg: map<string, EndpointState<D>>
    const bulletins: Ring<FetchMeta>
    var versionControl: EndpointState<D>
    var parameterContextBindings: EndpointState<D>
    var reportingTasks: EndpointState<D>

    /** Every update applied so far. */
    ghost var log: seq<ClusterUpdate<D>>

    /** The field of an endpoint that is a single `EndpointState`. */
    ghost function StateOf(e: ClusterEndpoint): EndpointState<D>
      requires e != ConnectionsByPg && e != Bulletins
      reads this
    {
      match e
      case About => about
      case ControllerStatus => controllerStatus
      case RootPgStatus => rootPgStatus
      case ControllerServices => controllerServices
      case SystemDiagnostics => systemDiagnostics
      case ClusterNodes => clusterNodes
      case TlsCerts => tlsCerts
      case VersionControl => versionControl
      case ParameterContextBindings => parameterContextBindings
      case ReportingTasks => reportingTasks
    }

    ghost predicate FieldsReflect(log: seq<ClusterUpdate<D>>)
      reads this
    {
      forall e :: e != ConnectionsByPg && e != Bulletins ==> StateOf(e) == StateAfter(log, Whole(e))
    }

    ghost predicate GroupsReflect(log: seq<ClusterUpdate<D>>)
      reads this
    {
      forall pg ::
        && (pg in connectionsByPg <==> FetchesOf(log, OfGroup(pg)) != [])
        && (pg in connectionsByPg ==> connectionsByPg[pg] == StateAfter(log, OfGroup(pg)))
    }

    ghost predicate RingReflects(log: seq<ClusterUpdate<D>>)
      reads this, bulletins
    {
      && bulletins.Valid()
      && Shows(Deltas(log), bulletins.capacity, bulletins.buf, bulletins.lastId, bulletins.meta, bulletins.lastError)
    }

    /** Each part of the snapshot is what the log says about it. */
    ghost predicate Valid()
      reads this, bulletins
    {
      FieldsReflect(log) && GroupsReflect(log) && RingReflects(log)
    }

    constructor (bulletinsCapacity: nat)
      ensures Valid() && log == [] && fresh(bulletins) && bulletins.capacity == bulletinsCapacity
    {
      about, controllerStatus, rootPgStatus, controllerServices := Loading, Loading, Loading, Loading;
      clusterNodes, tlsCerts, systemDiagnostics := Loading, Loading, Loading;
      versionControl, parameterContextBindings, reportingTasks := Loading, Loading, Loading;
      connectionsByPg := map[];
      bulletins := new Ring(bulletinsCapacity);
      log := [];
    }

    /** The bulletin arm: a success is merged, a failure only leaves its message. */
    method ApplyDelta(d: Fetched<seq<Bulletin>>)
      requires RingReflects(log)
      modifies bulletins
      ensures bulletins.Valid()
      ensures Shows(Deltas(log) + [d], bulletins.capacity, bulletins.buf, bulletins.lastId, bulletins.meta,
                    bulletins.lastError)
    {
      hide Shows, Deltas, LastN, MaxId;
      ShowsNext(Deltas(log), d, bulletins.capacity, bulletins.buf, bulletins.lastId, bulletins.meta,
                bulletins.lastError);
      match d.result {
        case Success(batch) =>
          bulletins.Merge(batch);
          bulletins.meta := Some(d.meta);
          bulletins.lastError := None;
        case Failure(e) =>
          bulletins.lastError := Some(e);
          bulletins.meta := Some(d.meta);
      }
    }

    /** The match of `apply_update`: one field, one map entry or the ring changes, and nothing else. */
    method Route(u: ClusterUpdate<D>) returns (endpoint: ClusterEndpoint)
      requires RingReflects(log)
      modifies this, bulletins
      ensures log == old(log) && endpoint == u.Endpoint() && bulletins.Valid()
      ensures forall e :: e != ConnectionsByPg && e != Bulletins ==>
                StateOf(e) == if KeyOf(u) == Whole(e) then old(StateOf(e)).Applied(u.fetched) else old(StateOf(e))
      ensures u.ConnectionsUpdate? ==>
                connectionsByPg == old(connectionsByPg)[u.pgId := old(GroupOrLoading(u.pgId)).Applied(u.fetched)]
      ensures !u.ConnectionsUpdate? ==> connectionsByPg == old(connectionsByPg)
      ensures Shows(if u.BulletinsDelta? then Deltas(log) + [u.delta] else Deltas(log),
                    bulletins.capacity, bulletins.buf, bulletins.lastId, bulletins.meta, bulletins.lastError)
    {
      hide LastN, MaxId, Deltas, Shows, EndpointState.Applied, EndpointState.Latest;
      endpoint := u.Endpoint();
      match u {
        case AboutUpdate(f) => about := about.Applied(f);
        case ControllerStatusUpdate(f) => controllerStatus := controllerStatus.Applied(f);
        case RootPgStatusUpdate(f) => rootPgStatus := rootPgStatus.Applied(f);
        case ControllerServicesUpdate(f) => controllerServices := controllerServices.Applied(f);
        case SystemDiagnosticsUpdate(f) => systemDiagnostics := systemDiagnostics.Applied(f);
        case ClusterNodesUpdate(f) => clusterNodes := clusterNodes.Applied(f);
        case TlsCertsUpdate(f) => tlsCerts := tlsCerts.Applied(f);
        case ConnectionsUpdate(pgId, f) =>
          connectionsByPg := connectionsByPg[pgId := GroupOrLoading(pgId).Applied(f)];
        case BulletinsDelta(d) => ApplyDelta(d);
        case VersionControlUpdate(f) => versionControl := versionControl.Applied(f);
        case ParameterContextBindingsUpdate(f) => parameterContextBindings := parameterContextBindings.Applied(f);
        case ReportingTasksUpdate(f) => reportingTasks := reportingTasks.Applied(f);
      }
    }

    /** `entry(pg_id).or_default()`. */
    function GroupOrLoading(pgId: string): EndpointState<D>
      reads this
    {
      if pgId in connectionsByPg then connectionsByPg[pgId] else Loading
    }

    /** `apply_update`: the new log is the old one with the update appended, and the snapshot follows. */
    method ApplyUpdate(u: ClusterUpdate<D>) returns (endpoint: ClusterEndpoint)
      requires Valid()
      modifies this, bulletins
      ensures Valid() && log == old(log) + [u]
      ensures endpoint == u.Endpoint()
    {
      hide StateAfter, FetchesOf, LastN, MaxId, Deltas, Shows, EndpointState.Applied, EndpointState.Latest;
      endpoint := Route(u);
      ghost var after := log + [u];
      forall e | e != ConnectionsByPg && e != Bulletins ensures StateOf(e) == StateAfter(after, Whole(e)) {
        StateAfterOne(log, u, Whole(e));
      }
      forall pg ensures pg in connectionsByPg <==> FetchesOf(after, OfGroup(pg)) != []
                ensures pg in connectionsByPg ==> connectionsByPg[pg] == StateAfter(after, OfGroup(pg)) {
        StateAfterOne(log, u, OfGroup(pg));
        NoFetchesMeansLoading(log, OfGroup(pg));
      }
      DeltasOne(log, u);
      log := after;
    }

    lemma FlagsMatchSeen(simple: seq<bool>)
      requires Valid()
      requires |simple| == 10
      requires forall e :: e != ConnectionsByPg && e != Bulletins ==> simple[PlaceOf(e)] == !StateOf(e).Loading?
      ensures forall i :: 0 <= i < 10 ==> (simple[i] <==> READY_ORDER[i] in Seen(log))
      ensures bulletins.meta.Some? <==> Bulletins in Seen(log)
      ensures connectionsByPg != map[] <==> ConnectionsByPg in Seen(log)
    {
      hide StateAfter, FetchesOf, Deltas, Seen, StateOf, PlaceOf;
      forall i | 0 <= i < 10 ensures simple[i] <==> READY_ORDER[i] in Seen(log) {
        PlaceOfReady(i);
        SeenMeansFetched(log, READY_ORDER[i]);
        NoFetchesMeansLoading(log, Whole(READY_ORDER[i]));
      }
      SeenMeansFetched(log, About);
      if connectionsByPg != map[] {
        var pg :| pg in connectionsByPg;
        assert FetchesOf(log, OfGroup(pg)) != [];
      }
    }

    /** The array of `!matches!(.., Loading)` flags, in two halves. */
    method FirstFlags() returns (flags: seq<bool>)
      ensures |flags| == 5
      ensures forall e :: PlaceOf(e) < 5 ==> flags[PlaceOf(e)] == !StateOf(e).Loading?
    {
      flags := [!about.Loading?, !controllerStatus.Loading?, !rootPgStatus.Loading?, !controllerServices.Loading?,
                !clusterNodes.Loading?];
    }

    method LastFlags() returns (flags: seq<bool>)
      ensures |flags| == 5
      ensures forall e :: 5 <= PlaceOf(e) < 10 ==> flags[PlaceOf(e) - 5] == !StateOf(e).Loading?
    {
      flags := [!tlsCerts.Loading?, !systemDiagnostics.Loading?, !versionControl.Loading?,
                !parameterContextBindings.Loading?, !reportingTasks.Loading?];
    }

    /** `ready_count`: the endpoints with at least one applied update, out of all twelve. */
    method ReadyCount() returns (ready: nat, total: nat)
      requires Valid()
      ensures ready == |Seen(log)| && total == |READY_ORDER|
    {
      hide Valid, StateAfter, FetchesOf, Deltas, Shows, Seen, CountIn, StateOf, PlaceOf;
      ghost var seen := Seen(log);
      var first := FirstFlags();
      var last := LastFlags();
      var simple := first + last;
      FlagsMatchSeen(simple);
      CountStep(READY_ORDER, 0, seen);
      ready := 0;
      for i := 0 to |simple|
        invariant ready == CountIn(READY_ORDER[..i], seen)
      {
        CountStep(READY_ORDER, i, seen);
        if simple[i] {
          ready := ready + 1;
        }
      }
      CountStep(READY_ORDER, 10, seen);
      if bulletins.meta.Some? {
        ready := ready + 1;
      }
      CountStep(READY_ORDER, 11, seen);
      if connectionsByPg != map[] {
        ready := ready + 1;
      }
      assert READY_ORDER[..12] == READY_ORDER;
      CountInAll(seen);
      total := ENDPOINT_COUNT;
    }
  }
}
