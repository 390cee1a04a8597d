/**
 The worker registry (src/app/worker.rs:73-397) and the tail of the main loop
 that drives it (src/app/mod.rs:68-79, 92-124, 565-598, 652). Whatever events
 arrive, the subscriptions are those of the active view and every running task
 is held by exactly one handle.
 */
module Workers {
  import opened Wrappers
  import opened ClusterSnapshot
  import opened Subscribers
  import opened ClusterStores

  datatype WatchStatus = Waiting | Tailing | Paused | WatchFailed

  /** The Browser's background tasks, each held by a handle that aborts it when dropped. */
  datatype Slot =
    | VersionModal | ParameterModal | ActionHistoryModal | AccessModal | IdentityModal | Sparkline | QueueListing

  /** The part of the Browser's state that owns tasks: the channel to the detail worker, and the slots in use. */
  class BrowserState {
    var detailTx: bool
    var slots: map<Slot, nat>

    ghost function Held(): set<nat>
      reads this`slots
    {
      Tasks(slots)
    }

    /** No task sits in two slots. */
    ghost predicate Valid()
      reads this`slots
    {
      OneSlotEach(slots)
    }

    constructor ()
      ensures !detailTx && slots == map[] && Held() == {} && Valid()
    {
      detailTx, slots := false, map[];
    }

    /** Assigning `None`: the handle is dropped, which aborts its task. */
    method Clear(slot: Slot, rt: Runtime)
      requires Valid() && rt.Valid()
      modifies this`slots, rt
      ensures Valid() && rt.Valid() && rt.next == old(rt.next)
      ensures slots == old(slots) - {slot} && Held() <= old(Held())
      ensures rt.live == old(rt.live) - (old(Held()) - Held())
    {
      WithoutSlot(slots, slot);
      if slot in slots {
        rt.Abort(slots[slot]);
        slots := slots - {slot};
      }
    }

    /** Assigning a handle just spawned: the one before is dropped, if any. */
    method Fill(slot: Slot, rt: Runtime)
      requires Valid() && rt.Valid() && Held() <= rt.live
      modifies this`slots, rt
      ensures Valid() && rt.Valid() && Held() <= rt.live && rt.next >= old(rt.next)
      ensures slots.Keys == old(slots.Keys) + {slot} && slots[slot] >= old(rt.next)
      ensures forall s :: s in old(slots) && s != slot ==> slots[s] == old(slots[s])
      ensures rt.live - Held() == old(rt.live - Held())
      ensures forall h :: h in Held() ==> h in old(Held()) || h >= old(rt.next)
    {
      Clear(slot, rt);
      var t := rt.Spawn();
      WithSlot(slots, slot, t);
      slots := slots[slot := t];
    }

    /** The state is dropped, and with it every handle. */
    method Drop(rt: Runtime)
      requires rt.Valid()
      modifies this`slots, rt
      ensures rt.Valid() && slots == map[] && rt.live == old(rt.live) - old(Held()) && rt.next == old(rt.next)
    {
      while slots != map[]
        invariant rt.Valid() && rt.live - Held() == old(rt.live) - old(Held()) && rt.live <= old(rt.live)
        invariant rt.next == old(rt.next)
        decreases |slots|
      {
        assert slots.Keys != {};
        var slot :| slot in slots;
        ghost var was := slots;
        rt.Abort(slots[slot]);
        slots := slots - {slot};
        assert |was - {slot}| < |was| by {
          assert (was - {slot}).Keys == was.Keys - {slot};
        }
        assert Tasks(was) == Tasks(slots) + {was[slot]} by {
          assert forall s :: s in was ==> s in slots || s == slot;
        }
      }
    }
  }

  ghost function Tasks(slots: map<Slot, nat>): set<nat> {
    set s | s in slots :: slots[s]
  }

  ghost predicate OneSlotEach(slots: map<Slot, nat>) {
    forall s, u :: s in slots && u in slots && slots[s] == slots[u] ==> s == u
  }

  lemma WithoutSlot(slots: map<Slot, nat>, slot: Slot)
    requires OneSlotEach(slots)
    ensures OneSlotEach(slots - {slot}) && Tasks(slots - {slot}) <= Tasks(slots)
    ensures slot in slots ==> Tasks(slots) - Tasks(slots - {slot}) == {slots[slot]}
    ensures slot !in slots ==> slots - {slot} == slots
  {
    if slot in slots {
      assert slots[slot] !in Tasks(slots - {slot});
      assert forall s :: s in slots ==> s in slots - {slot} || s == slot;
    }
  }

  lemma WithSlot(slots: map<Slot, nat>, slot: Slot, t: nat)
    requires OneSlotEach(slots) && slot !in slots && t !in Tasks(slots)
    ensures OneSlotEach(slots[slot := t]) && Tasks(slots[slot := t]) == Tasks(slots) + {t}
  {
    var more := slots[slot := t];
    assert forall s :: s in slots ==> more[s] == slots[s] && slots[s] in Tasks(slots);
    assert forall s :: s in more ==> s in slots || s == slot;
    assert more[slot] == t;
  }

  /** The part of the Events state the registry reads: the watch session, if any. */
  class EventsState {
    var watch: Option<WatchStatus>

    constructor ()
      ensures watch == None
    {
      watch := None;
    }

    method PauseWatch()
      modifies this
      ensures watch == if old(watch).Some? then Some(Paused) else None
    {
      if watch.Some? {
        watch := Some(Paused);
      }
    }

    method ResumeWatch()
      modifies this
      ensures watch == if old(watch) == Some(Paused) then Some(Waiting) else old(watch)
    {
      if watch == Some(Paused) {
        watch := Some(Waiting);
      }
    }
  }

  /** What becomes of the watch session when the view changes: it is paused off the Events tab. */
  function WatchAfter(from: Option<ViewId>, to: ViewId, watch: Option<WatchStatus>): Option<WatchStatus> {
    if from == Some(to) then watch
    else if to == Events then (if watch == Some(Paused) then Some(Waiting) else watch)
    else if from == Some(Events) && watch.Some? then Some(Paused)
    else watch
  }

  /** The endpoints each view reads. */
  function Reads(v: ViewId): set<ClusterEndpoint> {
    match v
    case Overview =>
      {RootPgStatus, ControllerServices, ControllerStatus, SystemDiagnostics, About, Bulletins, ClusterNodes, TlsCerts,
       ReportingTasks}
    case BulletinsView => {Bulletins}
    case Browser => {RootPgStatus, ControllerServices, ConnectionsByPg, VersionControl, ParameterContextBindings}
    case Events => {}
    case Tracer => {}
  }

  ghost function For(endpoints: set<ClusterEndpoint>, v: ViewId): set<Subscription> {
    set e | e in endpoints :: (e, v)
  }

  /** The subscriptions of the active view and no others. */
  ghost function Needed(active: Option<ViewId>): set<Subscription> {
    match active
    case None => {}
    case Some(v) => For(Reads(v), v)
  }

  /** The view holds no subscription yet. */
  ghost predicate NewTo(v: ViewId, subs: set<Subscription>) {
    forall e :: (e, v) !in subs
  }

  ghost function Opt(h: Option<nat>): set<nat> {
    match h
    case None => {}
    case Some(t) => {t}
  }

  class WorkerRegistry {
    var active: Option<ViewId>
    var handle: Option<nat>
    var eventsWatchHandle: Option<nat>

    /** The tasks the registry can abort. */
    ghost function Held(): set<nat>
      reads this
    {
      Opt(handle) + Opt(eventsWatchHandle)
    }

    /** A view worker exists exactly while Browser is active, a watch worker only while Events is. */
    ghost predicate Valid()
      reads this
    {
      && (handle.Some? <==> active == Some(Browser))
      && (eventsWatchHandle.Some? ==> active == Some(Events))
    }

    constructor ()
      ensures Valid() && active == None && Held() == {}
    {
      active, handle, eventsWatchHandle := None, None, None;
    }

    /** `v` has released `done` out of the subscriptions `was`. */
    ghost predicate Released<D>(cluster: ClusterStore<D>, v: ViewId, was: set<Subscription>, done: set<ClusterEndpoint>)
      reads cluster.subscribers, cluster.subscribers.counters
    {
      cluster.subscribers.Valid() && cluster.subscribers.subs == was - For(done, v)
    }

    /** One `unsubscribe` of `transition_out`, with what has been released so far. */
    method Release<D>(e: ClusterEndpoint, v: ViewId, cluster: ClusterStore<D>,
                      ghost done: set<ClusterEndpoint>, ghost was: set<Subscription>)
      returns (ghost now: set<ClusterEndpoint>)
      requires Released(cluster, v, was, done)
      modifies cluster.subscribers, cluster.subscribers.counters
      ensures now == With(done, e) && Released(cluster, v, was, now)
    {
      hide SubscriberRegistry.Valid;
      cluster.Unsubscribe(e, v);
      now := With(done, e);
      assert For(now, v) == For(done, v) + {(e, v)};
    }

    /** `v` has taken `done` on top of the subscriptions `was` and, if it had none, woken them on top of `stored`. */
    ghost predicate Took<D>(cluster: ClusterStore<D>, v: ViewId, was: set<Subscription>, stored: set<ClusterEndpoint>,
                            done: set<ClusterEndpoint>)
      reads cluster.subscribers, cluster.subscribers.counters, cluster.permits
    {
      && cluster.subscribers.Valid() && cluster.permits.Length == ENDPOINT_COUNT
      && cluster.subscribers.subs == was + For(done, v)
      && (NewTo(v, was) ==> cluster.Permits() == stored + done)
    }

    /** One `subscribe` of `transition_in_subscribe`, with what has been taken so far. */
    method Take<D>(e: ClusterEndpoint, v: ViewId, cluster: ClusterStore<D>,
                   ghost done: set<ClusterEndpoint>, ghost was: set<Subscription>, ghost stored: set<ClusterEndpoint>)
      returns (ghost now: set<ClusterEndpoint>)
      requires Took(cluster, v, was, stored, done)
      modifies cluster.subscribers, cluster.subscribers.counters, cluster.permits
      ensures now == With(done, e) && Took(cluster, v, was, stored, now)
    {
      hide SubscriberRegistry.Valid, ClusterStore.Permits;
      ghost var before := cluster.subscribers.subs;
      cluster.Subscribe(e, v);
      now := With(done, e);
      assert For(now, v) == For(done, v) + {(e, v)};
      assert NewTo(v, was) ==> ((e, v) in before <==> e in done);
    }

    lemma ForNothing(v: ViewId)
      ensures For({}, v) == {}
    {
    }

    /** The sets built up one endpoint at a time by the two transitions below. */
    lemma OneByOne()
      ensures With(With(With(With(With(With(With(With(With(
                {}, RootPgStatus), ControllerServices), ControllerStatus), SystemDiagnostics), About), Bulletins),
                ClusterNodes), TlsCerts), ReportingTasks) == Reads(Overview)
      ensures With(With(With(With(With({}, RootPgStatus), ControllerServices), ConnectionsByPg), VersionControl),
                   ParameterContextBindings) == Reads(Browser)
      ensures With({}, Bulletins) == Reads(BulletinsView)
      ensures Reads(Events) == {} == Reads(Tracer)
    {
    }

    method TransitionOut<D>(existing: ViewId, cluster: ClusterStore<D>, browser: BrowserState, rt: Runtime)
      requires cluster.subscribers.Valid() && browser.Valid() && rt.Valid()
      modifies cluster.subscribers, cluster.subscribers.counters, browser, rt
      ensures cluster.subscribers.Valid()
      ensures cluster.subscribers.subs == old(cluster.subscribers.subs) - Needed(Some(existing))
      ensures browser.detailTx == (old(browser.detailTx) && existing != Browser)
      ensures browser.Valid() && browser.Held() <= old(browser.Held())
      ensures browser.slots == if existing == Browser then old(browser.slots) - {ParameterModal, Sparkline}
                               else old(browser.slots)
      ensures rt.Valid() && rt.next == old(rt.next)
      ensures rt.live == old(rt.live) - (old(browser.Held()) - browser.Held())
    {
      hide Reads, With, Released, BrowserState.Valid, BrowserState.Held, SubscriberRegistry.Valid, Runtime.Valid;
      ghost var was, done := cluster.subscribers.subs, {};
      ReleasedNothing(cluster, existing);
      OneByOne();
      match existing {
        case Overview =>
          done := Release(RootPgStatus, Overview, cluster, done, was);
          done := Release(ControllerServices, Overview, cluster, done, was);
          done := Release(ControllerStatus, Overview, cluster, done, was);
          done := Release(SystemDiagnostics, Overview, cluster, done, was);
          done := Release(About, Overview, cluster, done, was);
          done := Release(Bulletins, Overview, cluster, done, was);
          done := Release(ClusterNodes, Overview, cluster, done, was);
          done := Release(TlsCerts, Overview, cluster, done, was);
          done := Release(ReportingTasks, Overview, cluster, done, was);
        case BulletinsView =>
          done := Release(Bulletins, BulletinsView, cluster, done, was);
        case Browser =>
          browser.detailTx := false;
          browser.Clear(ParameterModal, rt);
          browser.Clear(Sparkline, rt);
          done := Release(RootPgStatus, Browser, cluster, done, was);
          done := Release(ControllerServices, Browser, cluster, done, was);
          done := Release(ConnectionsByPg, Browser, cluster, done, was);
          done := Release(VersionControl, Browser, cluster, done, was);
          done := Release(ParameterContextBindings, Browser, cluster, done, was);
        case Events =>
        case Tracer =>
      }
      ReleasedAll(cluster, existing, was);
    }

    lemma ReleasedNothing<D>(cluster: ClusterStore<D>, v: ViewId)
      requires cluster.subscribers.Valid()
      ensures Released(cluster, v, cluster.subscribers.subs, {})
    {
      ForNothing(v);
    }

    lemma ReleasedAll<D>(cluster: ClusterStore<D>, v: ViewId, was: set<Subscription>)
      requires Released(cluster, v, was, Reads(v))
      ensures cluster.subscribers.Valid() && cluster.subscribers.subs == was - Needed(Some(v))
    {
    }

    method TransitionInSubscribe<D>(view: ViewId, cluster: ClusterStore<D>)
      requires cluster.subscribers.Valid() && cluster.permits.Length == ENDPOINT_COUNT
      modifies cluster.subscribers, cluster.subscribers.counters, cluster.permits
      ensures cluster.subscribers.Valid()
      ensures cluster.subscribers.subs == old(cluster.subscribers.subs) + Needed(Some(view))
      ensures NewTo(view, old(cluster.subscribers.subs)) ==>
                cluster.Permits() == old(cluster.Permits()) + Reads(view)
    {
      hide *;
      ghost var was, stored, done := cluster.subscribers.subs, cluster.Permits(), {};
      TookNothing(cluster, view);
      OneByOne();
      match view {
        case Overview =>
          done := Take(RootPgStatus, Overview, cluster, done, was, stored);
          done := Take(ControllerServices, Overview, cluster, done, was, stored);
          done := Take(ControllerStatus, Overview, cluster, done, was, stored);
          done := Take(SystemDiagnostics, Overview, cluster, done, was, stored);
          done := Take(About, Overview, cluster, done, was, stored);
          done := Take(Bulletins, Overview, cluster, done, was, stored);
          done := Take(ClusterNodes, Overview, cluster, done, was, stored);
          done := Take(TlsCerts, Overview, cluster, done, was, stored);
          done := Take(ReportingTasks, Overview, cluster, done, was, stored);
        case BulletinsView =>
          done := Take(Bulletins, BulletinsView, cluster, done, was, stored);
        case Browser =>
          done := Take(RootPgStatus, Browser, cluster, done, was, stored);
          done := Take(ControllerServices, Browser, cluster, done, was, stored);
          done := Take(ConnectionsByPg, Browser, cluster, done, was, stored);
          done := Take(VersionControl, Browser, cluster, done, was, stored);
          done := Take(ParameterContextBindings, Browser, cluster, done, was, stored);
        case Events =>
        case Tracer =>
      }
      TookAll(cluster, view, was, stored);
    }

    lemma TookNothing<D>(cluster: ClusterStore<D>, v: ViewId)
      requires cluster.subscribers.Valid() && cluster.permits.Length == ENDPOINT_COUNT
      ensures Took(cluster, v, cluster.subscribers.subs, cluster.Permits(), {})
    {
      ForNothing(v);
    }

    lemma TookAll<D>(cluster: ClusterStore<D>, v: ViewId, was: set<Subscription>, stored: set<ClusterEndpoint>)
      requires Took(cluster, v, was, stored, Reads(v))
      ensures cluster.subscribers.Valid() && cluster.permits.Length == ENDPOINT_COUNT
      ensures cluster.subscribers.subs == was + Needed(Some(v))
      ensures NewTo(v, was) ==> cluster.Permits() == stored + Reads(v)
    {
    }

    /** The first half of `ensure`: releases what the outgoing view holds. */
    method Leave<D>(existing: ViewId, browser: BrowserState, events: EventsState, cluster: ClusterStore<D>, rt: Runtime)
      requires Valid() && active == Some(existing) && rt.Valid() && cluster.subscribers.Valid() && browser.Valid()
      modifies this, browser, events, rt, cluster.subscribers, cluster.subscribers.counters
      ensures Valid() && active == None && Held() == {}
      ensures browser.Valid() && browser.Held() <= old(browser.Held())
      ensures browser.slots == if existing == Browser then old(browser.slots) - {ParameterModal, Sparkline}
                               else old(browser.slots)
      ensures rt.Valid() && rt.next == old(rt.next)
      ensures rt.live == old(rt.live) - old(Held()) - (old(browser.Held()) - browser.Held())
      ensures cluster.subscribers.Valid()
      ensures cluster.subscribers.subs == old(cluster.subscribers.subs) - Needed(Some(existing))
      ensures browser.detailTx == (old(browser.detailTx) && existing != Browser)
      ensures events.watch == if existing == Events && old(events.watch).Some? then Some(Paused) else old(events.watch)
    {
      hide Needed, SubscriberRegistry.Valid, BrowserState.Valid, BrowserState.Held;
      active := None;
      if handle.Some? {
        rt.Abort(handle.value);
        handle := None;
      }
      if existing == Events {
        if eventsWatchHandle.Some? {
          rt.Abort(eventsWatchHandle.value);
          eventsWatchHandle := None;
        }
        events.PauseWatch();
      }
      TransitionOut(existing, cluster, browser, rt);
    }

    /** The second half of `ensure`: takes what the incoming view needs. */
    method Enter<D>(view: ViewId, browser: BrowserState, events: EventsState, cluster: ClusterStore<D>, rt: Runtime)
      requires Valid() && active == None && Held() == {} && rt.Valid()
      requires cluster.subscribers.Valid() && cluster.permits.Length == ENDPOINT_COUNT
      modifies this, browser, events, rt, cluster.subscribers, cluster.subscribers.counters, cluster.permits
      ensures Valid() && active == Some(view)
      ensures rt.Valid() && rt.live == old(rt.live) + Held() && forall t :: t in Held() ==> t >= old(rt.next)
      ensures rt.next >= old(rt.next)
      ensures eventsWatchHandle.Some? <==> view == Events && events.watch.Some?
      ensures cluster.subscribers.Valid()
      ensures cluster.subscribers.subs == old(cluster.subscribers.subs) + Needed(Some(view))
      ensures NewTo(view, old(cluster.subscribers.subs)) ==>
                cluster.Permits() == old(cluster.Permits()) + Reads(view)
      ensures browser.detailTx == (old(browser.detailTx) || view == Browser) && browser.slots == old(browser.slots)
      ensures events.watch == if view == Events && old(events.watch) == Some(Paused) then Some(Waiting)
                              else old(events.watch)
    {
      hide Needed, Reads, SubscriberRegistry.Valid, ClusterStore.Permits;
      TransitionInSubscribe(view, cluster);
      match view {
        case Browser =>
          browser.detailTx := true;
          var t := rt.Spawn();
          handle := Some(t);
        case Overview => handle := None;
        case BulletinsView => handle := None;
        case Events =>
          if events.watch.Some? {
            events.ResumeWatch();
            var t := rt.Spawn();
            eventsWatchHandle := Some(t);
          }
          handle := None;
        case Tracer => handle := None;
      }
      active := Some(view);
    }

    /**
     `ensure`: makes `view` the active one. Its subscriptions replace those of the
     view before, each endpoint it reads is woken, and the tasks of the view
     before are aborted, whatever that view was.
     */
    method Ensure<D>(view: ViewId, browser: BrowserState, events: EventsState, cluster: ClusterStore<D>, rt: Runtime)
      requires Owns(browser, rt) && cluster.Valid()
      requires cluster.subscribers.subs == Needed(active)
      requires browser.detailTx <==> active == Some(Browser)
      modifies this, browser, events, rt, cluster.subscribers, cluster.subscribers.counters, cluster.permits
      ensures Owns(browser, rt) && cluster.Valid()
      ensures cluster.subscribers.subs == Needed(Some(view))
      ensures active == Some(view) && (browser.detailTx <==> view == Browser)
      ensures rt.live - Tasks(browser) == old(rt.live - Tasks(browser))
      ensures old(active) == Some(view) ==>
                && Held() == old(Held()) && eventsWatchHandle == old(eventsWatchHandle)
                && browser.slots == old(browser.slots) && events.watch == old(events.watch)
                && cluster.Permits() == old(cluster.Permits())
      ensures old(active) != Some(view) ==>
                && (forall t :: t in Held() ==> t >= old(rt.next))
                && browser.slots == (if old(active) != Some(Browser) then old(browser.slots)
                                     else old(browser.slots) - {ParameterModal, Sparkline})
                && (eventsWatchHandle.Some? <==> view == Events && old(events.watch).Some?)
                && cluster.Permits() == old(cluster.Permits()) + Reads(view)
      ensures events.watch == WatchAfter(old(active), view, old(events.watch)) && rt.next >= old(rt.next)
    {
      hide Needed, Reads, Snapshot.Valid, SubscriberRegistry.Valid, ClusterStore.Permits, BrowserState.Valid;
      hide BrowserState.Held;
      if active == Some(view) {
        return;
      }
      OneViewOnly(active);
      if active.Some? {
        Leave(active.value, browser, events, cluster, rt);
      }
      assert cluster.subscribers.subs == {};
      Enter(view, browser, events, cluster, rt);
    }

    /** The tasks of the view's workers and of the Browser's slots. */
    ghost function Tasks(browser: BrowserState): set<nat>
      reads this, browser`slots
    {
      Held() + browser.Held()
    }

    /** They all run, each under one handle. */
    ghost predicate Owns(browser: BrowserState, rt: Runtime)
      reads this, browser`slots, rt
    {
      && Valid() && browser.Valid() && rt.Valid()
      && Tasks(browser) <= rt.live && Held() !! browser.Held()
    }

    lemma OneViewOnly(active: Option<ViewId>)
      ensures Needed(None) == {}
      ensures active.Some? ==> Needed(active) - Needed(active) == {}
    {
    }

    /** `restart_events_watch`: only on the Events tab; the old worker goes, a new one follows a surviving session. */
    method RestartEventsWatch(events: EventsState, rt: Runtime)
      requires Valid() && rt.Valid() && Held() <= rt.live
      modifies this`eventsWatchHandle, rt
      ensures Valid() && rt.Valid() && Held() <= rt.live
      ensures rt.live - Held() == old(rt.live - Held())
      ensures forall h :: h in Held() ==> h in old(Held()) || h >= old(rt.next)
      ensures active != Some(Events) ==> Held() == old(Held()) && eventsWatchHandle == old(eventsWatchHandle)
      ensures active == Some(Events) ==>
                (forall t :: t in Held() ==> t >= old(rt.next)) && (eventsWatchHandle.Some? <==> events.watch.Some?)
      ensures rt.next >= old(rt.next)
    {
      if active != Some(Events) {
        return;
      }
      if eventsWatchHandle.Some? {
        rt.Abort(eventsWatchHandle.value);
        eventsWatchHandle := None;
      }
      if events.watch.Some? {
        var t := rt.Spawn();
        eventsWatchHandle := Some(t);
      }
    }

    /** `invalidate` and `shutdown`: every worker is aborted and no view is active. */
    method Invalidate(rt: Runtime)
      requires rt.Valid()
      modifies this, rt
      ensures Valid() && rt.Valid() && active == None && Held() == {}
      ensures rt.live == old(rt.live) - old(Held()) && rt.next == old(rt.next)
    {
      if handle.Some? {
        rt.Abort(handle.value);
        handle := None;
      }
      if eventsWatchHandle.Some? {
        rt.Abort(eventsWatchHandle.value);
        eventsWatchHandle := None;
      }
      active := None;
    }
  }
}
