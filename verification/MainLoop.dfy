/**
 The main loop around the store and the registry (src/app/mod.rs:68-79, 92-124,
 275-316, 413-514, 565-653), with a context switch as its reducer performs it
 (src/app/state/mod.rs:2660-2697). Reducers are left open: any event may have any of
 these effects, in any order, at any time.
 */
module MainLoop {
  import opened AccessAudit
  import opened ClusterSnapshot
  import opened ClusterStores
  import opened Subscribers
  import opened Workers
  import opened Wrappers

  /** What a reducer, or an intent it returns, does to the state modelled here. */
  datatype Effect =
    | ContextSwitched
    | TabSelected(tab: ViewId)
    | EventsChanged(watch: Option<WatchStatus>, restart: bool)   // any change of the watch session
    | SlotFilled(slot: Slot)                                     // a modal, the sparkline or a listing starts its task
    | SlotCleared(slot: Slot)
    | Audited(audit: AccessAuditState)

  /** An event is a cluster update, or is reduced to any number of effects in order. */
  datatype LoopEvent<D> =
    | ClusterUpdated(update: ClusterUpdate<D>)
    | Reduced(effects: seq<Effect>, quit: bool)
  {
    function Updates(): seq<ClusterUpdate<D>> {
      if ClusterUpdated? then [update] else []
    }

    function Announced(): seq<ClusterEndpoint> {
      if ClusterUpdated? then [update.Endpoint()] else []
    }

    function Effects(): seq<Effect> {
      if ClusterUpdated? then [] else effects
    }

    predicate Quits() {
      Reduced? && quit
    }
  }

  /** What becomes of a slot that follows the selection. */
  datatype Refresh = Keep | Close | Renew

  /** An event, with what the selection then asks of the sparkline and of the queue listing. */
  datatype Turn<D> = Turn(event: LoopEvent<D>, sparkline: Refresh, listing: Refresh)
  {
    /** The state after the turn: an update changes none of it, and quitting skips the tail. */
    function After(v: Visible): Visible {
      match event
      case ClusterUpdated(_) => v
      case Reduced(effects, quit) =>
        if quit then AfterEffects(v, effects) else AfterTurn(AfterEffects(v, effects), sparkline, listing)
    }
  }

  // ----- What an event does, on values -----

  /** The state the loop decides about; `watching`: a watch worker is held, `slots`: the slots with a task. */
  datatype Visible = Visible(
    tab: ViewId, active: Option<ViewId>, watch: Option<WatchStatus>, watching: bool, slots: set<Slot>,
    audit: AccessAuditState, restartAll: bool, restartWatch: bool)

  function AfterEffect(v: Visible, effect: Effect): Visible {
    match effect
    case ContextSwitched => v.(watch := None, slots := {}, audit := Unknown, restartAll := true)
    case TabSelected(tab) => v.(tab := tab)
    case EventsChanged(watch, restart) => v.(watch := watch, restartWatch := v.restartWatch || restart)
    case SlotFilled(slot) => v.(slots := v.slots + {slot})
    case SlotCleared(slot) => v.(slots := v.slots - {slot})
    case Audited(audit) => v.(audit := audit)
  }

  function AfterEffects(v: Visible, effects: seq<Effect>): Visible
    decreases |effects|
  {
    if effects == [] then v else AfterEffects(AfterEffect(v, effects[0]), effects[1..])
  }

  /** The tail makes the view of the tab the active one again. */
  predicate Enters(v: Visible) {
    v.restartAll || v.active != Some(v.tab)
  }

  /** It replaces every worker: a view is entered, or the watch is restarted on its tab. */
  predicate Renews(v: Visible) {
    Enters(v) || (v.restartWatch && v.tab == Events)
  }

  function AfterTail(v: Visible): Visible {
    var from := if v.restartAll then None else v.active;
    var watch := WatchAfter(from, v.tab, v.watch);
    v.(active := Some(v.tab), watch := watch,
       watching := if Renews(v) then v.tab == Events && watch.Some? else v.watching,
       slots := if from == Some(Browser) && v.tab != Browser then v.slots - {ParameterModal, Sparkline} else v.slots,
       restartAll := false, restartWatch := false)
  }

  /** The tail's two restarts, before the view of the tab is made active. */
  function AfterRestart(v: Visible): Visible {
    var r := if v.restartAll then v.(active := None, watching := false) else v;
    var w := if v.restartWatch && r.active == Some(Events) then r.(watching := r.watch.Some?) else r;
    w.(restartAll := false, restartWatch := false)
  }

  lemma TailSplits(v: Visible)
    ensures AfterTail(AfterRestart(v)) == AfterTail(v)
  {
  }

  /** The tasks of the other slots are the ones of before. */
  ghost predicate OthersKept(was: map<Slot, nat>, now: map<Slot, nat>, slot: Slot) {
    forall s :: s in was && s != slot ==> s in now && now[s] == was[s]
  }

  function Refreshed(slots: set<Slot>, slot: Slot, refresh: Refresh): set<Slot> {
    match refresh
    case Keep => slots
    case Close => slots - {slot}
    case Renew => slots + {slot}
  }

  /** After the tail, the two slots that follow the selection, on the Browser tab only. */
  function AfterTurn(v: Visible, sparkline: Refresh, listing: Refresh): Visible {
    var t := AfterTail(v);
    if t.tab != Browser then t
    else t.(slots := Refreshed(Refreshed(t.slots, Sparkline, sparkline), QueueListing, listing))
  }

  predicate AsksRestart(effects: seq<Effect>) {
    exists i :: 0 <= i < |effects| && effects[i].EventsChanged? && effects[i].restart
  }

  lemma {:induction false} RestartsAreKept(v: Visible, effects: seq<Effect>)
    ensures AfterEffects(v, effects).restartWatch <==> v.restartWatch || AsksRestart(effects)
    ensures AfterEffects(v, effects).restartAll <==> v.restartAll || ContextSwitched in effects
    ensures AfterEffects(v, effects).active == v.active && AfterEffects(v, effects).watching == v.watching
    decreases |effects|
  {
    if effects != [] {
      RestartsAreKept(AfterEffect(v, effects[0]), effects[1..]);
      assert effects == [effects[0]] + effects[1..];
      if AsksRestart(effects[1..]) {
        var i :| 0 <= i < |effects[1..]| && effects[1..][i].EventsChanged? && effects[1..][i].restart;
        assert effects[i + 1].EventsChanged? && effects[i + 1].restart;
      }
      if AsksRestart(effects) {
        var i :| 0 <= i < |effects| && effects[i].EventsChanged? && effects[i].restart;
        assert i > 0 ==> effects[1..][i - 1] == effects[i];
      }
    }
  }

  lemma {:induction false} LastTabWins(v: Visible, effects: seq<Effect>, i: nat)
    requires i < |effects| && effects[i].TabSelected?
    requires forall j :: i < j < |effects| ==> !effects[j].TabSelected?
    ensures AfterEffects(v, effects).tab == effects[i].tab
    decreases |effects|
  {
    if i > 0 {
      LastTabWins(AfterEffect(v, effects[0]), effects[1..], i - 1);
    } else {
      TabStays(AfterEffect(v, effects[0]), effects[1..]);
    }
  }

  lemma {:induction false} TabStays(v: Visible, effects: seq<Effect>)
    requires forall j :: 0 <= j < |effects| ==> !effects[j].TabSelected?
    ensures AfterEffects(v, effects).tab == v.tab
    decreases |effects|
  {
    if effects != [] {
      TabStays(AfterEffect(v, effects[0]), effects[1..]);
    }
  }

  /**
   A restart asked for on the Events tab happens: the workers of before are
   replaced, and a watch worker is held afterwards iff there is a session then.
   Off that tab no watch worker is held at all, as long as none was before.
   */
  lemma RestartHappens(v: Visible, effects: seq<Effect>, sparkline: Refresh, listing: Refresh)
    requires v.watching ==> v.active == Some(Events)
    ensures var u := AfterEffects(v, effects);
            var t := AfterTurn(u, sparkline, listing);
            && ((v.restartWatch || AsksRestart(effects)) && u.tab == Events ==>
                  Renews(u) && (t.watching <==> t.watch.Some?))
            && (t.watching ==> t.tab == Events && t.active == Some(Events))
            && !t.restartWatch && !t.restartAll
  {
    hide AfterEffects, AsksRestart;
    RestartsAreKept(v, effects);
  }

  class App<D> {
    const extractors: Extractors<D>
    const ringCapacity: nat
    const workers: WorkerRegistry
    const rt: Runtime
    var cluster: ClusterStore<D>
    var browser: BrowserState
    var events: EventsState
    var currentTab: ViewId
    var changed: seq<ClusterEndpoint>   // the `ClusterChanged` events sent so far
    var pendingWorkerRestart: bool
    var pendingEventsWatchRestart: bool

    ghost function Rest(): set<object>
      reads this`cluster, this`browser
    {
      {workers, rt, browser} + cluster.Repr()
    }

    ghost function Shown(): Visible
      reads this, workers, browser, events, cluster
    {
      Visible(currentTab, workers.active, events.watch, workers.eventsWatchHandle.Some?, browser.slots.Keys,
              cluster.accessAudit, pendingWorkerRestart, pendingEventsWatchRestart)
    }

    /** No worker held now was there when the next task was to be `n`. */
    ghost predicate NewSince(n: nat)
      reads workers
    {
      forall t :: t in workers.Held() ==> t >= n
    }

    /** Each endpoint the shown view reads has a wakeup waiting. */
    ghost predicate Woken()
      reads this`cluster, this`currentTab, cluster.permits
    {
      cluster.permits.Length == ENDPOINT_COUNT && Reads(currentTab) <= cluster.Permits()
    }

    /** The objects a context switch replaces. */
    ghost function Frame(): set<object>
      reads this`cluster, this`browser, this`events
    {
      {browser, events} + cluster.Repr()
    }

    /** The store and what the view owns are each in order, and what the store publishes is current. */
    ghost predicate Sound()
      reads this`cluster, this`browser, Rest()
    {
      cluster.Valid() && cluster.Published() && workers.Owns(browser, rt)
    }

    /** The subscriptions are those of the active view, and its detail channel is open iff it is Browser. */
    ghost predicate Following()
      reads this`cluster, this`browser, workers`active, browser`detailTx, cluster.subscribers`subs
    {
      && cluster.subscribers.subs == Needed(workers.active)
      && (browser.detailTx <==> workers.active == Some(Browser))
    }

    /** The running tasks are the fetchers, workers and slot tasks held, each under one handle. */
    ghost predicate NoLeaks()
      reads this`cluster, this`browser, Rest()
    {
      rt.live == cluster.Held() + workers.Tasks(browser) && cluster.Held() !! workers.Tasks(browser)
    }

    /** Every endpoint is polled. */
    ghost predicate Polling()
      reads this`cluster, cluster`handles
    {
      |cluster.Held()| == ENDPOINT_COUNT && exists cursor :: OnePerEndpoint(cluster.handles, cursor)
    }

    /** Between iterations. */
    ghost predicate Valid()
      reads this, Rest()
    {
      && Sound() && NoLeaks() && Following() && Polling() && workers.active.Some?
      && !pendingWorkerRestart && !pendingEventsWatchRestart
    }

    /** Around a fresh store, nothing runs and no view is active. */
    constructor (cluster: ClusterStore<D>, ringCapacity: nat, tab: ViewId)
      requires cluster.Valid() && cluster.Published() && cluster.handles == [] && cluster.subscribers.subs == {}
      ensures this.cluster == cluster && fresh(workers) && fresh(rt) && fresh(browser) && fresh(events)
      ensures Sound() && NoLeaks() && Switched() && workers.active == None
      ensures Shown() == Visible(tab, None, None, false, {}, cluster.accessAudit, false, false) && changed == []
    {
      hide ClusterStore.Valid, ClusterStore.Published, ClusterStore.Repr, ClusterStore.Held, BrowserState.Held;
      hide Following, Polling, OnePerEndpoint, Needed;
      hide Runtime.Valid, WorkerRegistry.Valid, WorkerRegistry.Held, BrowserState.Valid;
      this.cluster, this.extractors, this.ringCapacity := cluster, cluster.extractors, ringCapacity;
      currentTab, changed, pendingWorkerRestart, pendingEventsWatchRestart := tab, [], false, false;
      browser := new BrowserState();
      events := new EventsState();
      rt := new Runtime();
      workers := new WorkerRegistry();
      new;
      NothingHeld();
    }

    lemma NothingHeld()
      ensures cluster.handles == [] ==> cluster.Held() == {}
      ensures Needed(None) == {}
    {
    }

    /** Right after a context switch: a fresh store that polls nothing, and no detail channel. */
    ghost predicate Switched()
      reads this`cluster, this`browser, browser`detailTx, cluster`handles, cluster.subscribers`subs
    {
      cluster.handles == [] && cluster.subscribers.subs == {} && !browser.detailTx
    }

    /** Spawns the fetchers of a store that has none yet. */
    method StartFetchers()
      requires Sound() && NoLeaks() && cluster.handles == []
      modifies cluster`handles, rt
      ensures Sound() && NoLeaks() && Polling() && rt.next >= old(rt.next)
    {
      hide ClusterStore.Valid, ClusterStore.Published, ClusterStore.Held, WorkerRegistry.Tasks, OnePerEndpoint;
      NothingHeld();
      cluster.SpawnFetchers(rt);
      assert rt.live - cluster.Held() == workers.Tasks(browser);
      assert cluster.handles[0..] == cluster.handles;
    }

    /** `workers.ensure(state.current_tab, ..)`. */
    method EnsureTab()
      requires Sound() && NoLeaks() && Following() && Polling()
      modifies workers, browser, events, rt, cluster.subscribers, cluster.subscribers.counters, cluster.permits
      ensures Sound() && NoLeaks() && Following() && Polling() && rt.next >= old(rt.next)
      ensures Shown() == AfterTail(old(Shown()).(restartAll := false, restartWatch := false))
                         .(restartAll := old(pendingWorkerRestart), restartWatch := old(pendingEventsWatchRestart))
      ensures if old(workers.active) == Some(currentTab) then workers.Held() == old(workers.Held())
              else Woken() && NewSince(old(rt.next))
    {
      hide ClusterStore.Valid, ClusterStore.Published, ClusterStore.Held, ClusterStore.Permits;
      hide WorkerRegistry.Tasks, WorkerRegistry.Owns, Needed, Reads, Polling, OnePerEndpoint;
      PermitForEach();
      OwnedRun();
      ghost var live, held := rt.live, workers.Tasks(browser);
      workers.Ensure(currentTab, browser, events, cluster, rt);
      OwnedRun();
      SwapTasks(live, held, rt.live, workers.Tasks(browser), cluster.Held());
    }

    lemma PermitForEach()
      requires cluster.Valid()
      ensures cluster.permits.Length == ENDPOINT_COUNT
    {
    }

    lemma OwnedRun()
      requires workers.Owns(browser, rt)
      ensures workers.Tasks(browser) <= rt.live
    {
    }

    lemma SwapTasks(live: set<nat>, held: set<nat>, live': set<nat>, held': set<nat>, fetchers: set<nat>)
      requires live == fetchers + held && fetchers !! held
      requires held' <= live' && live' - held' == live - held
      ensures live' == fetchers + held' && fetchers !! held'
    {
      assert live - held == fetchers;
    }

    /** The first branch of the tail: the view's worker goes, the new store's fetchers start. */
    method RestartAll()
      requires Sound() && NoLeaks() && Switched()
      modifies workers, rt, cluster`handles
      ensures Sound() && NoLeaks() && Following() && Polling() && rt.next >= old(rt.next)
      ensures Shown() == old(Shown()).(active := None, watching := false) && workers.Held() == {}
    {
      hide ClusterStore.Valid, ClusterStore.Published, ClusterStore.Held, BrowserState.Held, BrowserState.Valid, Needed;
      NothingHeld();
      workers.Invalidate(rt);
      assert rt.live == browser.Held();
      StartFetchers();
    }

    /** The second branch: the watch worker is renewed. */
    method RestartWatch()
      requires Sound() && NoLeaks() && Following() && Polling()
      modifies workers`eventsWatchHandle, rt
      ensures Sound() && NoLeaks() && Following() && Polling() && rt.next >= old(rt.next)
      ensures if workers.active == Some(Events)
              then Shown() == old(Shown()).(watching := events.watch.Some?) && NewSince(old(rt.next))
              else Shown() == old(Shown()) && workers.Held() == old(workers.Held())
    {
      hide ClusterStore.Valid, ClusterStore.Published, ClusterStore.Held, WorkerRegistry.Held, WorkerRegistry.Valid;
      hide BrowserState.Held, BrowserState.Valid, Following, Polling;
      ghost var live, held, own := rt.live, workers.Tasks(browser), workers.Held();
      workers.RestartEventsWatch(events, rt);
      StillApart(browser.Held(), own, workers.Held(), live, rt.live);
      assert held == browser.Held() + own && workers.Tasks(browser) == browser.Held() + workers.Held();
      SwapTasks(live, held, rt.live, workers.Tasks(browser), cluster.Held());
    }

    /** What the reducer leaves to the tail. */
    ghost predicate Pending()
      reads this`cluster, this`browser, this`pendingWorkerRestart, Rest()
    {
      Sound() && NoLeaks() && if pendingWorkerRestart then Switched() else Following() && Polling()
    }

    /** The two restarts. */
    method Restart()
      requires Pending()
      modifies this`pendingWorkerRestart, this`pendingEventsWatchRestart, workers, rt, cluster`handles
      ensures Sound() && NoLeaks() && Following() && Polling() && rt.next >= old(rt.next)
      ensures Shown() == AfterRestart(old(Shown()))
      ensures if old(pendingWorkerRestart) || (old(pendingEventsWatchRestart) && old(workers.active) == Some(Events))
              then NewSince(old(rt.next)) else workers.Held() == old(workers.Held())
    {
      hide Sound, NoLeaks, Following, Polling, Switched;
      var restartWorkers, restartWatch := pendingWorkerRestart, pendingEventsWatchRestart;
      assert this !in Rest();
      pendingWorkerRestart, pendingEventsWatchRestart := false, false;
      if restartWorkers {
        RestartAll();
      }
      if restartWatch {
        RestartWatch();
      }
    }

    /** Everything after the reducer, once the app is not quitting. */
    method Tail()
      requires Pending()
      modifies this`pendingWorkerRestart, this`pendingEventsWatchRestart, workers, browser, events, rt, cluster`handles,
        cluster.subscribers, cluster.subscribers.counters, cluster.permits
      ensures Valid() && Shown() == AfterTail(old(Shown()))
      ensures if Renews(old(Shown())) then NewSince(old(rt.next)) else workers.Held() == old(workers.Held())
      ensures Enters(old(Shown())) ==> Woken()
    {
      hide Pending, Sound, NoLeaks, Following, Polling;
      TailSplits(Shown());
      Restart();
      EnsureTab();
    }

    /** Startup: the fetchers, then the first view. */
    method Start()
      requires Sound() && NoLeaks() && Switched() && workers.active == None
      requires Shown().restartAll == Shown().restartWatch == false
      modifies workers, browser, events, rt, cluster`handles, cluster.subscribers, cluster.subscribers.counters,
        cluster.permits
      ensures Valid() && Shown() == AfterTail(old(Shown())) && Woken()
    {
      hide ClusterStore.Valid, ClusterStore.Published, ClusterStore.Held, BrowserState.Held;
      hide WorkerRegistry.Held, WorkerRegistry.Owns, Needed;
      NothingHeld();
      StartFetchers();
      EnsureTab();
    }

    /** The reducer of a completed context switch. */
    method SwitchContext()
      requires Sound() && NoLeaks()
      modifies this`cluster, this`browser, this`events, this`pendingWorkerRestart, browser, rt, cluster`handles,
        cluster`accessAudit
      ensures Sound() && NoLeaks() && Switched() && pendingWorkerRestart && rt.live == workers.Held()
      ensures rt.next == old(rt.next)
      ensures fresh(cluster.Repr()) && fresh(browser) && fresh(events)
      ensures cluster.snapshot.log == [] && Shown() == AfterEffect(old(Shown()), ContextSwitched)
    {
      hide ClusterStore.Valid, ClusterStore.Published, ClusterStore.Held, Snapshot.Valid;
      ghost var fetchers, slots, held := cluster.Held(), browser.Held(), workers.Held();
      StopHolders();
      OnlyWorkersLeft(fetchers, slots, held);
      Replace();
      NothingHeld();
    }

    /** The old Browser state is dropped and the old store shut down. */
    method StopHolders()
      requires rt.Valid()
      modifies browser, rt, cluster`handles, cluster`accessAudit
      ensures rt.Valid() && rt.next == old(rt.next)
      ensures rt.live == old(rt.live) - old(browser.Held()) - old(cluster.Held())
    {
      ghost var fetchers := cluster.Held();
      browser.Drop(rt);
      assert cluster.Held() == fetchers;
      cluster.Shutdown(rt);
    }

    lemma OnlyWorkersLeft(fetchers: set<nat>, slots: set<nat>, held: set<nat>)
      requires fetchers !! (held + slots) && held !! slots
      ensures fetchers + (held + slots) - slots - fetchers == held
    {
    }

    /** New state in their place. */
    method Replace()
      modifies this`cluster, this`browser, this`events, this`pendingWorkerRestart
      ensures cluster.Valid() && cluster.Published() && fresh(cluster.Repr()) && fresh(browser) && fresh(events)
      ensures cluster.handles == [] && cluster.subscribers.subs == {} && cluster.snapshot.log == []
      ensures cluster.accessAudit == Unknown && pendingWorkerRestart
      ensures !browser.detailTx && browser.Held() == {} && browser.Valid() && browser.slots == map[]
      ensures events.watch == None
    {
      hide ClusterStore.Valid, ClusterStore.Published, BrowserState.Held, BrowserState.Valid;
      browser := new BrowserState();
      events := new EventsState();
      pendingWorkerRestart := true;
      cluster := new ClusterStore(extractors, ringCapacity);
    }

    /** A modal or the sparkline gets a new task; the one before is dropped. */
    method FillSlot(slot: Slot)
      requires Sound() && NoLeaks()
      modifies browser`slots, rt
      ensures Sound() && NoLeaks() && rt.next >= old(rt.next)
      ensures browser.slots.Keys == old(browser.slots.Keys) + {slot} && browser.slots[slot] >= old(rt.next)
      ensures OthersKept(old(browser.slots), browser.slots, slot)
    {
      hide ClusterStore.Valid, ClusterStore.Published, ClusterStore.Held, WorkerRegistry.Held, WorkerRegistry.Valid;
      hide BrowserState.Held, BrowserState.Valid, Needed;
      ghost var live, held, slots := rt.live, workers.Tasks(browser), browser.Held();
      browser.Fill(slot, rt);
      StillApart(workers.Held(), slots, browser.Held(), live, rt.live);
      SwapTasks(live, held, rt.live, workers.Tasks(browser), cluster.Held());
    }

    lemma StillApart(held: set<nat>, slots: set<nat>, slots': set<nat>, live: set<nat>, live': set<nat>)
      requires held <= live && held !! slots && slots' <= live' && live' - slots' == live - slots
      ensures held !! slots' && held <= live' && live' - (held + slots') == live - (held + slots)
    {
      assert forall h :: h in held ==> h in live - slots;
      assert live' - (held + slots') == (live' - slots') - held;
      assert live - (held + slots) == (live - slots) - held;
    }

    /** A modal is closed, or its task has reported back. */
    method ClearSlot(slot: Slot)
      requires Sound() && NoLeaks()
      modifies browser`slots, rt
      ensures Sound() && NoLeaks() && rt.next == old(rt.next)
      ensures browser.slots == old(browser.slots) - {slot}
    {
      hide ClusterStore.Valid, ClusterStore.Published, ClusterStore.Held, WorkerRegistry.Held, WorkerRegistry.Valid;
      hide BrowserState.Held, BrowserState.Valid, Needed;
      ghost var live, held, slots := rt.live, workers.Tasks(browser), browser.Held();
      browser.Clear(slot, rt);
      assert live - slots == rt.live - browser.Held();
      StillApart(workers.Held(), slots, browser.Held(), live, rt.live);
      SwapTasks(live, held, rt.live, workers.Tasks(browser), cluster.Held());
    }

    method RecordAudit(audit: AccessAuditState)
      requires Sound() && NoLeaks()
      modifies cluster`accessAudit
      ensures Sound() && NoLeaks() && cluster.accessAudit == audit
    {
      hide ClusterStore.Valid, ClusterStore.Published, ClusterStore.Held, BrowserState.Held;
      hide WorkerRegistry.Owns, WorkerRegistry.Held, WorkerRegistry.Tasks, Needed;
      cluster.accessAudit := audit;
    }

    /** One effect. A restart once asked for stays asked for. */
    method Apply(effect: Effect)
      requires Pending()
      modifies this`cluster, this`browser, this`events, this`currentTab, this`pendingWorkerRestart,
        this`pendingEventsWatchRestart, Frame(), rt
      ensures Pending() && Shown() == AfterEffect(old(Shown()), effect) && rt.next >= old(rt.next)
      ensures if effect.ContextSwitched?
              then fresh(cluster.Repr()) && fresh(browser) && fresh(events) && cluster.snapshot.log == []
              else cluster == old(cluster) && browser == old(browser) && events == old(events)
                   && cluster.snapshot.log == old(cluster.snapshot.log)
    {
      hide Sound, NoLeaks, Following, Polling, Switched;
      assert this !in Rest() && events !in Rest();
      match effect {
        case ContextSwitched => SwitchContext();
        case TabSelected(tab) => currentTab := tab;
        case EventsChanged(watch, restart) =>
          events.watch := watch;
          pendingEventsWatchRestart := pendingEventsWatchRestart || restart;
        case SlotFilled(slot) => FillSlot(slot);
        case SlotCleared(slot) => ClearSlot(slot);
        case Audited(audit) => RecordAudit(audit);
      }
    }

    /** The reducers and the intents they return, as far as they touch this state. */
    method Reduce(effects: seq<Effect>)
      requires Pending()
      modifies this`cluster, this`browser, this`events, this`currentTab, this`pendingWorkerRestart,
        this`pendingEventsWatchRestart, Frame(), rt
      ensures Pending() && Shown() == AfterEffects(old(Shown()), effects) && rt.next >= old(rt.next)
      ensures if ContextSwitched in effects
              then fresh(cluster.Repr()) && fresh(browser) && fresh(events) && cluster.snapshot.log == []
              else cluster == old(cluster) && browser == old(browser) && events == old(events)
                   && cluster.snapshot.log == old(cluster.snapshot.log)
      decreases |effects|
    {
      hide Pending, AfterEffect, Shown;
      if effects != [] {
        Apply(effects[0]);
        Reduce(effects[1..]);
      }
    }

    /** The same, seen from outside: what the frame gains is new. */
    method ReduceInFrame(effects: seq<Effect>)
      requires Pending()
      modifies this`cluster, this`browser, this`events, this`currentTab, this`pendingWorkerRestart,
        this`pendingEventsWatchRestart, Frame(), rt
      ensures Pending() && fresh(Frame() - old(Frame()))
      ensures Shown() == AfterEffects(old(Shown()), effects) && rt.next >= old(rt.next)
      ensures if ContextSwitched in effects then cluster.snapshot.log == []
              else cluster == old(cluster) && cluster.snapshot.log == old(cluster.snapshot.log)
    {
      hide Pending, AfterEffects, Shown;
      Reduce(effects);
    }

    /** An update goes to the store, is announced, and skips the tail. */
    method Update(u: ClusterUpdate<D>)
      requires Valid()
      modifies this`changed, cluster.Repr()
      ensures Valid() && fresh(Frame() - old(Frame())) && Shown() == old(Shown())
      ensures cluster.snapshot.log == old(cluster.snapshot.log) + [u]
      ensures changed == old(changed) + [u.Endpoint()]
    {
      hide ClusterStore.Valid, ClusterStore.Published, ClusterStore.Held, BrowserState.Held;
      hide WorkerRegistry.Owns, WorkerRegistry.Held, WorkerRegistry.Tasks, Needed, OnePerEndpoint;
      var endpoint := cluster.HandleUpdate(u);
      changed := changed + [endpoint];
    }

    /**
     One event of the main loop; `more` is false once the app quits. After the
     tail the two slots are brought in line with the selection, if Browser is the
     current tab.
     */
    method Iterate(turn: Turn<D>) returns (more: bool)
      requires Valid()
      modifies this, workers, rt, Frame()
      ensures if more then Valid() else Pending()
      ensures more <==> !turn.event.Quits()
      ensures fresh(Frame() - old(Frame()))
      ensures Shown() == turn.After(old(Shown()))
      ensures more && turn.event.Reduced? ==>
                var v := AfterEffects(old(Shown()), turn.event.Effects());
                && (if Renews(v) then NewSince(old(rt.next)) else workers.Held() == old(workers.Held()))
                && (Enters(v) ==> Woken())
      ensures if ContextSwitched in turn.event.Effects() then cluster.snapshot.log == []
              else cluster == old(cluster) && cluster.snapshot.log == old(cluster.snapshot.log) + turn.event.Updates()
      ensures changed == old(changed) + turn.event.Announced()
    {
      hide Valid, Pending, Frame, ClusterStore.Repr, Shown, AfterEffects, AfterTurn, Renews, Enters, NewSince, Woken;
      InFrame();
      match turn.event {
        case ClusterUpdated(u) =>
          Update(u);
          return true;
        case Reduced(effects, quit) =>
          Handle(effects, quit, turn.sparkline, turn.listing);
          return !quit;
      }
    }

    /** An event of the other kind. */
    method Handle(effects: seq<Effect>, quit: bool, sparkline: Refresh, listing: Refresh)
      requires Valid()
      modifies this`cluster, this`browser, this`events, this`currentTab, this`pendingWorkerRestart,
        this`pendingEventsWatchRestart, workers, rt, Frame()
      ensures if quit then Pending() else Valid()
      ensures fresh(Frame() - old(Frame()))
      ensures var v := AfterEffects(old(Shown()), effects);
              if quit then Shown() == v
              else
                && Shown() == AfterTurn(v, sparkline, listing)
                && (if Renews(v) then NewSince(old(rt.next)) else workers.Held() == old(workers.Held()))
                && (Enters(v) ==> Woken())
      ensures if ContextSwitched in effects then cluster.snapshot.log == []
              else cluster == old(cluster) && cluster.snapshot.log == old(cluster.snapshot.log)
    {
      hide Valid, Pending, Frame, ClusterStore.Repr, Shown, AfterEffects, AfterTurn, Renews, Enters, Woken;
      NothingPending();
      InFrame();
      ReduceInFrame(effects);
      InFrame();
      if !quit {
        Settle(sparkline, listing);
      }
    }

    lemma NothingPending()
      requires Valid()
      ensures Pending()
    {
    }

    /** Everything after the reducer: the tail, then the two slots. */
    method Settle(sparkline: Refresh, listing: Refresh)
      requires Pending()
      modifies this`pendingWorkerRestart, this`pendingEventsWatchRestart, workers, browser, events, rt, cluster`handles,
        cluster.subscribers, cluster.subscribers.counters, cluster.permits
      ensures Valid() && Shown() == AfterTurn(old(Shown()), sparkline, listing)
      ensures if Renews(old(Shown())) then NewSince(old(rt.next)) else workers.Held() == old(workers.Held())
      ensures Enters(old(Shown())) ==> Woken()
    {
      hide Valid, Pending, AfterTail, Renews, Enters, Woken;
      Tail();
      if currentTab == Browser {
        Follow(Sparkline, sparkline);
        Follow(QueueListing, listing);
      }
    }

    /** `refresh_sparkline_for_selection` and `refresh_queue_listing_for_selection`. */
    method Follow(slot: Slot, refresh: Refresh)
      requires Valid()
      modifies browser`slots, rt
      ensures Valid() && browser.slots.Keys == Refreshed(old(browser.slots.Keys), slot, refresh)
      ensures OthersKept(old(browser.slots), browser.slots, slot)
      ensures refresh == Renew ==> slot in browser.slots && browser.slots[slot] >= old(rt.next)
    {
      hide Sound, NoLeaks;
      match refresh {
        case Keep =>
        case Close => ClearSlot(slot);
        case Renew => FillSlot(slot);
      }
    }

    /** Quitting: the workers go, and the dropped state takes its slots and its store's fetchers with it. */
    method Stop()
      requires Sound() && NoLeaks()
      modifies workers, browser, rt, cluster`handles, cluster`accessAudit
      ensures rt.live == {}
    {
      hide ClusterStore.Valid, ClusterStore.Published, ClusterStore.Held, BrowserState.Held, Needed;
      ghost var fetchers, slots := cluster.Held(), browser.Held();
      workers.Invalidate(rt);
      assert cluster.Held() == fetchers && browser.Held() == slots;
      StopHolders();
    }

    /** A whole run of the app from any state it can be in: it ends with nothing left running. */
    method Run(turns: seq<Turn<D>>)
      requires Valid()
      modifies this, workers, rt, Frame()
      ensures rt.live == {}
      decreases |turns|
    {
      hide Valid, Pending, Frame;
      var more := turns != [];
      NothingPending();
      if more {
        more := Iterate(turns[0]);
      }
      InFrame();
      if more {
        Run(turns[1..]);
      } else {
        Quit();
      }
    }

    method Quit()
      requires Pending()
      modifies workers, browser, rt, cluster`handles, cluster`accessAudit
      ensures rt.live == {}
    {
      hide Sound, NoLeaks;
      Stop();
    }

    lemma InFrame()
      ensures {cluster, browser, events} <= Frame() && cluster.Repr() <= Frame() && this !in Frame()
      ensures {cluster.subscribers, cluster.subscribers.counters, cluster.permits} <= Frame()
      ensures workers !in Frame() && rt !in Frame()
    {
    }
  }
}
