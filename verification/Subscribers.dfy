/** Which views need which endpoint, and the counters the fetch tasks read (src/cluster/subscriber.rs:20-68). */
module Subscribers {
  import opened ClusterSnapshot

  datatype ViewId = Overview | BulletinsView | Browser | Events | Tracer

  /** The endpoint's discriminant. */
  function Index(e: ClusterEndpoint): (i: nat)
    ensures i < ENDPOINT_COUNT
  {
    match e
    case About => 0
    case ControllerStatus => 1
    case RootPgStatus => 2
    case ControllerServices => 3
    case SystemDiagnostics => 4
    case ConnectionsByPg => 5
    case Bulletins => 6
    case ClusterNodes => 7
    case TlsCerts => 8
    case VersionControl => 9
    case ParameterContextBindings => 10
    case ReportingTasks => 11
  }

  lemma IndexIsInjective(e: ClusterEndpoint, f: ClusterEndpoint)
    ensures Index(e) == Index(f) ==> e == f
  {
  }

  type Subscription = (ClusterEndpoint, ViewId)

  /** The views subscribed to `e`. */
  ghost function ViewsOf(subs: set<Subscription>, e: ClusterEndpoint): set<ViewId> {
    set s | s in subs && s.0 == e :: s.1
  }

  lemma ViewsOfAdded(subs: set<Subscription>, e: ClusterEndpoint, v: ViewId, f: ClusterEndpoint)
    ensures ViewsOf(subs + {(e, v)}, f) == if f == e then ViewsOf(subs, f) + {v} else ViewsOf(subs, f)
  {
    var more := subs + {(e, v)};
    forall w ensures w in ViewsOf(more, f) <==> w in ViewsOf(subs, f) || (f == e && w == v) {
      assert w in ViewsOf(more, f) <==> (f, w) in more;
      assert w in ViewsOf(subs, f) <==> (f, w) in subs;
    }
  }

  lemma ViewsOfRemoved(subs: set<Subscription>, e: ClusterEndpoint, v: ViewId, f: ClusterEndpoint)
    ensures ViewsOf(subs - {(e, v)}, f) == if f == e then ViewsOf(subs, f) - {v} else ViewsOf(subs, f)
  {
    var fewer := subs - {(e, v)};
    forall w ensures w in ViewsOf(fewer, f) <==> w in ViewsOf(subs, f) && !(f == e && w == v) {
      assert w in ViewsOf(fewer, f) <==> (f, w) in fewer;
      assert w in ViewsOf(subs, f) <==> (f, w) in subs;
    }
  }

  lemma InViewsOf(subs: set<Subscription>, e: ClusterEndpoint, v: ViewId)
    ensures v in ViewsOf(subs, e) <==> (e, v) in subs
  {
  }

  /** `entry(endpoint).or_default()`. */
  function SetOf(sets: map<ClusterEndpoint, set<ViewId>>, e: ClusterEndpoint): set<ViewId> {
    if e in sets then sets[e] else {}
  }

  ghost predicate SetsHold(sets: map<ClusterEndpoint, set<ViewId>>, subs: set<Subscription>) {
    forall e :: SetOf(sets, e) == ViewsOf(subs, e)
  }

  ghost predicate CountersHold(counters: seq<nat>, subs: set<Subscription>) {
    |counters| == ENDPOINT_COUNT && forall e :: counters[Index(e)] == |ViewsOf(subs, e)|
  }

  /** Adding one subscription adds to one set, and counts once if it was new. */
  lemma AfterAdding(sets: map<ClusterEndpoint, set<ViewId>>, counters: seq<nat>, subs: set<Subscription>,
                    e: ClusterEndpoint, v: ViewId)
    requires SetsHold(sets, subs) && CountersHold(counters, subs)
    ensures v in SetOf(sets, e) <==> (e, v) in subs
    ensures |counters| == ENDPOINT_COUNT
    ensures SetsHold(sets[e := SetOf(sets, e) + {v}], subs + {(e, v)})
    ensures var c := if (e, v) in subs then counters else counters[Index(e) := counters[Index(e)] + 1];
            CountersHold(c, subs + {(e, v)})
  {
    hide ViewsOf, CountersHold;
    TwelveCounters(counters, subs);
    InViewsOf(subs, e, v);
    forall f ensures SetOf(sets[e := SetOf(sets, e) + {v}], f) == ViewsOf(subs + {(e, v)}, f) {
      ViewsOfAdded(subs, e, v, f);
    }
    if (e, v) in subs {
      assert subs + {(e, v)} == subs;
    } else {
      CountsOneMore(counters, subs, e, v);
    }
  }

  lemma TwelveCounters(counters: seq<nat>, subs: set<Subscription>)
    requires CountersHold(counters, subs)
    ensures |counters| == ENDPOINT_COUNT
  {
  }

  lemma CountsOneMore(counters: seq<nat>, subs: set<Subscription>, e: ClusterEndpoint, v: ViewId)
    requires CountersHold(counters, subs) && (e, v) !in subs
    ensures CountersHold(counters[Index(e) := counters[Index(e)] + 1], subs + {(e, v)})
  {
    hide ViewsOf, Index;
    InViewsOf(subs, e, v);
    forall f ensures counters[Index(e) := counters[Index(e)] + 1][Index(f)] == |ViewsOf(subs + {(e, v)}, f)| {
      ViewsOfAdded(subs, e, v, f);
      IndexIsInjective(f, e);
    }
  }

  /** Removing one subscription removes from one set, and counts down if it was there. */
  lemma AfterRemoving(sets: map<ClusterEndpoint, set<ViewId>>, counters: seq<nat>, subs: set<Subscription>,
                      e: ClusterEndpoint, v: ViewId)
    requires SetsHold(sets, subs) && CountersHold(counters, subs)
    ensures v in SetOf(sets, e) <==> (e, v) in subs
    ensures (e, v) in subs ==>
              && SetsHold(sets[e := SetOf(sets, e) - {v}], subs - {(e, v)})
              && counters[Index(e)] > 0
              && CountersHold(counters[Index(e) := counters[Index(e)] - 1], subs - {(e, v)})
              && (counters[Index(e)] == 1 <==> ViewsOf(subs - {(e, v)}, e) == {})
    ensures (e, v) !in subs ==> subs - {(e, v)} == subs
  {
    hide ViewsOf, Index;
    InViewsOf(subs, e, v);
    if (e, v) in subs {
      ViewsOfRemoved(subs, e, v, e);
      assert ViewsOf(subs, e) == ViewsOf(subs - {(e, v)}, e) + {v};
      forall f ensures SetOf(sets[e := SetOf(sets, e) - {v}], f) == ViewsOf(subs - {(e, v)}, f) {
        ViewsOfRemoved(subs, e, v, f);
      }
      forall f ensures counters[Index(e) := counters[Index(e)] - 1][Index(f)] == |ViewsOf(subs - {(e, v)}, f)| {
        ViewsOfRemoved(subs, e, v, f);
        IndexIsInjective(f, e);
      }
    }
  }

  class SubscriberRegistry {
    var sets: map<ClusterEndpoint, set<ViewId>>
    const counters: array<nat>

    /** The subscription relation the sets represent. */
    ghost var subs: set<Subscription>

    /** The sets hold the relation, and every counter is the size of its set. */
    ghost predicate Valid()
      reads this, counters
    {
      SetsHold(sets, subs) && CountersHold(counters[..], subs)
    }

    constructor ()
      ensures Valid() && subs == {} && fresh(counters)
    {
      sets, subs := map[], {};
      counters := new nat[ENDPOINT_COUNT](_ => 0);
    }

    /** Idempotent; `true` iff the view was not subscribed before, whatever the count. */
    method Subscribe(e: ClusterEndpoint, v: ViewId) returns (inserted: bool)
      requires Valid()
      modifies this, counters
      ensures Valid() && subs == old(subs) + {(e, v)}
      ensures inserted <==> (e, v) !in old(subs)
    {
      hide Index, SetsHold, ViewsOf;
      AfterAdding(sets, counters[..], subs, e, v);
      inserted := v !in SetOf(sets, e);
      sets := sets[e := SetOf(sets, e) + {v}];
      if inserted {
        ghost var was := counters[..];
        counters[Index(e)] := counters[Index(e)] + 1;
        assert counters[..] == was[Index(e) := was[Index(e)] + 1];
      }
      subs := subs + {(e, v)};
    }

    /** Idempotent; `true` iff this removed the last view of the endpoint. The counter never runs below zero. */
    method Unsubscribe(e: ClusterEndpoint, v: ViewId) returns (last: bool)
      requires Valid()
      modifies this, counters
      ensures Valid() && subs == old(subs) - {(e, v)}
      ensures last <==> (e, v) in old(subs) && ViewsOf(subs, e) == {}
    {
      hide Index, SetsHold, ViewsOf;
      AfterRemoving(sets, counters[..], subs, e, v);
      last := false;
      if v in SetOf(sets, e) {
        sets := sets[e := SetOf(sets, e) - {v}];
        ghost var was := counters[..];
        var prev := counters[Index(e)];
        counters[Index(e)] := prev - 1;
        assert counters[..] == was[Index(e) := was[Index(e)] - 1];
        last := prev == 1;
      }
      subs := subs - {(e, v)};
    }
  }
}
