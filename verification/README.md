# nifi-lens: a verified model of its core algorithms and protocols

nifi-lens is a terminal client for Apache NiFi. Most of it renders what NiFi's
REST API returns. This project models the parts that do algorithmic or protocol
work of their own, and proves what those parts are for. Check everything with
`dafny verify dfyconfig.toml` (Dafny 4.11).

## What is modelled

**Polling one cluster.** Fetch tasks park on a subscriber counter plus a
one-permit `Notify`, read watch channels and send results over a FIFO channel to
a single-writer snapshot.
- `GatedFetcher` is the interleaving of the UI task with one gated fetch task.
  The counter is read with relaxed ordering, so a read may return an older
  value; what the task learns of it otherwise it learns from a permit, from a
  published list or from a slot of the event channel. Three kinds of loop cover the
  eight gated endpoints: the plain one of four of them, that of `spawn_tls_certs`
  with its address list, and the fan-out one of the three that also wait on the
  published process-group list.
- `EventChannel` is the bounded channel with its waiting senders and the main loop,
  which both drains it and sends on it.
- `BulletinRing`, `BulletinPipeline`: the capped bulletin buffer, the fetch
  cursor and the channel over whole runs, up to and across context switches with
  the aborted tasks that have not stopped yet.
- `StaleUpdates`: what the updates of an old store can leave in the new one, for
  every endpoint, the published lists and the ring.
- `ClusterSnapshot`, `Subscribers`, `ClusterStores`: the snapshot as a function of
  the update log, the subscriber sets with their counters, and the store that
  ties both to wakeups, published lists and task handles.
- `Workers`, `MainLoop`: the worker registry, the Browser's abort-on-drop slots
  and the loop that drives them, for every sequence of events, context switches
  included.

**Inheritance of parameter contexts.** `LevelSearch` is breadth-first search by
levels on an arbitrary graph; `ParameterContext` is `fetch_chain` on top of it.

**The process-group tree.** `GroupTree` is the status tree, `Arena` flattens it to
index-linked rows, `ArenaRebuild` turns the rows back into the tree, `GroupWalks`
and `RootPgStatus` relate the other three walks of the same tree to those rows,
`TreeComponents` says field by field what rows, queues and tallies show of NiFi's
answer, and `StableSort` is the ordering of the queues.

**The watch predicate language.** `Utf8` is well-formedness as in section 4 of
RFC 3629. `PredicateGrammar` is the language over the unread rest of the input,
`PredicateParser` the cursor-based parser proved equal to it, `PredicateLaws` what
the language guarantees.

**Smaller pieces.** `StatusHistory` (per-node series summed into one),
`TabHistory` (back and forward), `ByteSize` (the size printer in one file and the
parser in another), `AccessAudit` (a fold over an unordered map). `Wrappers` holds
`Option` and `Result`.

## What the proofs found

- **A context switch can desynchronise the bulletin cursor.** The switch replaces
  store, ring and task and starts the new cursor at 0, but the event channel
  survives, and aborting a task stops it only at its next wait. A batch of the old
  task that is queued, or that it still sends in the poll it is in the middle of,
  is merged into the new ring, whose `last_id` then runs ahead of the cursor; and
  the new task may be sent the same bulletins again.
  `BulletinPipeline.SwitchKeepsAgreementIff` gives the exact condition, one for
  both harms: they are excluded for ever if and only if at the switch no bulletin
  is queued, the old task is not in the middle of a poll with a request out or
  bulletins in hand, and no task of an earlier switch is. `FailingSwitchIsReachable`
  reaches all three ways to fail from an ordinary start. The comment at
  src/cluster/store.rs:342-345 considers the cursor only.
- **Old updates reach every part of the new snapshot.** They are applied like new
  ones. An endpoint shows what the old store fetched exactly when the last success
  about it is the old store's (`StaleUpdates.LatestComesFrom`), and forgets it,
  error and timing included, with the first success of its own
  (`FreshSuccessForgets`, `ForgottenMeansFresh`). So do the published lists
  (`PublishedListsAreFresh`); until then the prober may be sent to the old
  cluster's nodes, for as long as every fetch of the new roster fails
  (`OldRosterStays`). The ring forgets nothing: old bulletins stay until enough
  newer ones have pushed them out (`RingShowsArrivals`).
- **"At most one more request" depends on what the UI does next.** The requests
  after the last view has left are counted exactly (`GatedFetcher.ClearancesBalance`,
  `QuietAfterLastSubscriber`), and `MostIsExact` gives the largest number any run can
  reach from a given state. It is at most one if and only if the task cannot repeat
  (`AtMostOneMoreIff`): no free slot is left to send to, a fan-out loop has no group
  to ask for, or no positive count is left that is as new as what the task knows,
  what the list was published at and what the UI last received at. So one event
  received after the view has left is enough (`OneEventEndsIt`). Until then
  relaxed loads that go on returning the count of before may fill the channel: its
  capacity and one more requests, and such a run starts from an ordinary one in
  which a view comes and goes (`BurstIsReachable`). Lost wakeups cannot happen even
  with such loads.
- **The main loop can wait for itself.** After each cluster update it awaits a send
  on the channel that only it drains (src/app/mod.rs:117). `EventChannel` proves that
  no event is ever handled again if and only if it has to announce an update while
  every slot is taken (`NothingMoreIffJammed`), that a run ends there exactly when, in
  one of its steps, an update is received while a sender waits or a sender takes the
  last slot before the announcement (`RunJamsIff`), and that a run from the empty channel gets there
  whatever the capacity (`JamIsReachable`).
- **Undoing a move in the tab history** needs room in the other stack. Taken
  alone, `pop_back` then `pop_forward` restores the state if and only if the
  forward stack is below the cap (`TabHistory.BackThenForward`). Every reachable
  history has that room, because the two stacks together never exceed the cap.

Where comments and code disagree, the model follows the code:
- src/cluster/subscriber.rs:41 says `subscribe` returns `true` on the 0 to 1
  transition; it does for every new subscriber (so the store also wakes a task
  that already had one).
- src/cluster/snapshot.rs:235 says the total of `ready_count` is 11; it is 12.
- src/cluster/mod.rs:11-14 says three endpoints are gated; eight are.
- src/cluster/fetcher_tasks.rs:265-267 says a switch tears the store down before it
  replaces the client; src/intent/mod.rs:365 replaces the client first, and the
  store goes when the outcome is handled (src/app/state/mod.rs:2683-2692). An old
  task can so ask the new cluster with the old cursor; `BulletinPipeline` leaves
  every answer open and covers it.

## Model

| member | source | states |
|---|---|---|
| GatedFetcher.NoLostWakeup | src/cluster/fetcher_tasks.rs:848-1057 | in every state of every interleaving: a task parked or about to park while a view is subscribed has a permit waiting whose taker sees the subscription, or the subscriber is between counting and notifying; a task working or waiting on an outdated list has `changed()` ready if it fans out, and otherwise a permit waiting or a publisher between changing the list and forcing; the counter is the number of subscribers |
| GatedFetcher.WakeupStartsRequest | src/cluster/fetcher_tasks.rs:106-144 | once the UI owes no notification, a parked task with a subscriber can wake, every value its relaxed load may return lets it pass the gate, and it reads the published list and starts a request for it, unless it fans out over an empty one |
| GatedFetcher.StaleSleepIsCut | src/cluster/store.rs:226-268 | a fan-out task waiting on an outdated group list can be woken by the new one at once, any other task on an outdated address list as soon as the UI owes no notification |
| GatedFetcher.AsksAgain | src/cluster/fetcher_tasks.rs:110-143 | from every reachable state in which the task has not been stopped, the loop is ungated or a view is subscribed, the UI owes no notification, a slot is free and there is something to ask for, its own steps alone start another request |
| GatedFetcher.OnlyStopsEndIt | src/cluster/fetcher_tasks.rs:106-144 | a task ends only by an abort or because the channel is closed |
| GatedFetcher.ResultsAreSent | src/cluster/fetcher_tasks.rs:120-139 | over any run each request started has its result sent, is still at work, or was cut off by an abort or a closed channel |
| GatedFetcher.CallsTakeEffect | src/cluster/store.rs:226-268 | the subscribers are the views whose last call subscribed them, and the list a task reads is the one published last |
| GatedFetcher.PermitsAreSpent | src/cluster/fetcher.rs:25-38 | one notification wakes at most once, and none is lost before a wakeup |
| GatedFetcher.OnlyNewsWakes | src/cluster/fetcher_tasks.rs:464-530 | a task that has read the list, or was woken by it, is woken by the list again only after a new one is published |
| GatedFetcher.QuietAfterLastSubscriber | src/cluster/subscriber.rs:52-63 | after the last subscriber has left and while none returns, the requests started are exactly those cleared: the one committed to and one per outdated positive read, less those still to come or taken away; so at most one iff these come to at most one |
| GatedFetcher.ClearancesBalance | src/cluster/fetcher_tasks.rs:106-144 | over any run, requests started plus the clearance still held plus those taken away equal what was there plus the clearances given |
| GatedFetcher.MostIsExact | src/cluster/fetcher_tasks.rs:106-144 | after the last subscriber has left, `Most` of the state bounds the requests of every run without a new one, some run reaches it, and it is at most the capacity and one |
| GatedFetcher.AtMostOneMoreIff | src/cluster/fetcher.rs:43-45 | a task that everybody has left starts at most one more request in every run to come iff no slot is free for a second one, there is no group to ask for, or every positive value is older than what the task knows or is about to learn |
| GatedFetcher.OneEventEndsIt | src/app/mod.rs:92-124 | from the first event the UI receives, or list it publishes to the loop, after the last subscriber has left, at most one more request is started |
| GatedFetcher.BurstIsReachable | src/cluster/store.rs:464-476 | from the initial state with an empty channel, a view comes and goes, each time after an event received, and outdated reads then start as many requests as the channel has slots, and one |
| GatedFetcher.StepKeepsInv | src/cluster/fetcher_tasks.rs:106-144 | each UI or task step keeps the wakeup and list invariant |
| GatedFetcher.RunKeepsInv | src/cluster/fetcher_tasks.rs:848-907 | every run keeps it |
| EventChannel.RunConserves | src/app/mod.rs:92-124 | what was delivered, is queued or waits to be sent is exactly what was sent and announced |
| EventChannel.RunIsFifo | src/app/mod.rs:92-124 | events are delivered in the order in which they were pushed |
| EventChannel.WaitersComeFirst | src/app/mod.rs:34-52 | a freed slot goes to the sender that has waited longest |
| EventChannel.RunKeepsInv | src/app/mod.rs:34-52 | no more slots are taken than there are, and senders wait only while all are |
| EventChannel.NothingMoreIffJammed | src/app/mod.rs:92-124 | no run handles another event iff the loop has to announce an update and every slot is taken |
| EventChannel.RunJamsIff | src/app/mod.rs:92-124 | a run ends there iff one of its steps receives an update while a sender waits, or takes the last slot while the loop has an update to announce |
| EventChannel.JamIsReachable | src/app/mod.rs:34-52 | for every capacity some run from the empty channel ends there after handling one update |
| BulletinRing.Ring.Merge | src/cluster/snapshot.rs:145-155 | the buffer becomes the last `capacity` of old contents plus batch, although it is trimmed after every push; `last_id` becomes the maximum |
| BulletinRing.MaxIdIsMaximum | src/cluster/snapshot.rs:147-149 | `last_id` is attained by the old value or a bulletin, bounds them all, and is absent iff nothing was ever merged |
| BulletinPipeline.PipelineIsSound | src/cluster/fetcher_tasks.rs:250-304 | whatever the server answers: the cursor never moves back and bounds every id merged or in flight, everything answered is merged once and in order, and the ring is the last `capacity` bulletins ever merged |
| BulletinPipeline.DrainedCursorIsLastId | src/cluster/store.rs:342-354 | with positive ids, whenever nothing is in flight the cursor equals the ring's `last_id` |
| BulletinPipeline.NoBulletinTwice | src/cluster/fetcher_tasks.rs:265-291 | if the server answers new distinct ids only, no bulletin is ever merged twice |
| BulletinPipeline.SwitchKeepsAgreementIff | src/app/state/mod.rs:2660-2697 | after a context switch the cursor and the new ring agree in every drained state to come while the server's ids are positive, and no bulletin is ever merged twice while it answers with new distinct ids, each iff at the switch no bulletin is queued and neither the old task nor one aborted earlier is in the middle of a poll with a request out or bulletins in hand |
| BulletinPipeline.FailingSwitchIsReachable | src/cluster/fetcher_tasks.rs:276-298 | from any ordinary start with a new bulletin, a switch in the poll that takes the answer, in the poll about to send, or after sending leads to both harms |
| BulletinPipeline.RunConserves | src/cluster/fetcher_tasks.rs:250-304 | merged plus in flight is always what was there at the start plus what the server answered, aborted tasks with nothing in hand adding nothing |
| BulletinPipeline.RunKeepsInv | src/cluster/store.rs:512-522 | every run keeps the ring, cursor and distinctness invariants |
| StaleUpdates.LatestComesFrom | src/app/mod.rs:99-124 | what is shown for an endpoint is the data of the last success about it, whichever store fetched it, and nothing iff there is none |
| StaleUpdates.ForgottenMeansFresh | src/cluster/snapshot.rs:67-104 | if no old update about a key came, or a new success came after all of them, its state is the one without any: data, meta and error |
| StaleUpdates.FreshSuccessForgets | src/cluster/snapshot.rs:71-75 | one success of the new store brings that about |
| StaleUpdates.PublishedListsAreFresh | src/cluster/store.rs:226-268 | once it holds for the roster and the diagnostics the published addresses are what the new context alone would give, once for the root status the group ids |
| StaleUpdates.OldRosterStays | src/cluster/store.rs:226-249 | as long as the last successful roster is the old one and has rows, its addresses are what the prober is given |
| StaleUpdates.DiagnosticsStandIn | src/cluster/store.rs:226-249 | without a last good roster that has rows the published addresses are those of the last good system diagnostics, and none before the first |
| StaleUpdates.GroupsFollowStatus | src/cluster/store.rs:260-268 | the published group ids are those of the last good root status, and none before the first |
| StaleUpdates.RingShowsArrivals | src/cluster/snapshot.rs:145-155 | the ring is the last `capacity` arrivals of either store in order, so an old bulletin leaves only by being pushed out |
| ClusterSnapshot.StateReflectsLog | src/cluster/snapshot.rs:67-104 | after any fetches `latest` is the data of the last success with that success's meta, through any run of failures, and absent iff there was none; the current meta and error are the last fetch's |
| ClusterSnapshot.LastSuccessExists | src/cluster/snapshot.rs:71-84 | a log has a last success iff not all of its fetches failed |
| ClusterSnapshot.DifferentKeysCommute | src/cluster/store.rs:481-534 | updates about different endpoints or groups give the same snapshot in either order |
| ClusterSnapshot.Snapshot.Route | src/cluster/store.rs:481-534 | the twelve arms: exactly one field, one map entry or the ring takes in the update |
| ClusterSnapshot.Snapshot.ApplyDelta | src/cluster/store.rs:512-522 | a bulletin batch is merged and clears the error; a failure leaves ring and cursor alone and records its message |
| ClusterSnapshot.Snapshot.ApplyUpdate | src/cluster/store.rs:481-534 | after any updates each field, each group's entry and the ring is what that key's updates alone determine |
| ClusterSnapshot.Snapshot.ReadyCount | src/cluster/snapshot.rs:252-273 | the number of endpoints with at least one applied update, out of twelve |
| ClusterSnapshot.SeenOnlyGrows | src/cluster/snapshot.rs:252-273 | that number never decreases |
| ClusterSnapshot.SeenMeansFetched | src/cluster/snapshot.rs:252-273 | an endpoint counts as ready iff one of its fetches is on record, for the fan-out endpoint and the ring as well |
| Subscribers.SubscriberRegistry.Subscribe | src/cluster/subscriber.rs:42-48 | adds exactly one subscription, keeps every counter at its set's size, and reports whether it was new |
| Subscribers.SubscriberRegistry.Unsubscribe | src/cluster/subscriber.rs:52-63 | removes exactly one subscription, never takes a counter below zero, and reports whether the endpoint lost its last view |
| Subscribers.AfterAdding | src/cluster/subscriber.rs:42-48 | one more subscription touches one set and, if new, one counter |
| Subscribers.AfterRemoving | src/cluster/subscriber.rs:52-63 | one subscription less touches one set and one counter, which was positive and was 1 iff the set empties |
| ClusterStores.ClusterStore.Subscribe | src/cluster/store.rs:464-468 | a new subscription leaves a permit for that endpoint's task and no other |
| ClusterStores.ClusterStore.Force | src/cluster/store.rs:474-476 | a permit is stored for that endpoint and no other |
| ClusterStores.ClusterStore.PublishNodeAddresses | src/cluster/store.rs:226-249 | the published list is the roster of the last good cluster-nodes fetch if it has rows, else the last good diagnostics' addresses, else empty; the prober is woken iff the list changed |
| ClusterStores.ClusterStore.PublishPgIds | src/cluster/store.rs:260-268 | the published group ids are those of the last good status, unchanged before the first |
| ClusterStores.ClusterStore.HandleUpdate | src/app/mod.rs:99-124 | after every update the published lists agree with the whole update log, and the endpoint to announce is the update's |
| ClusterStores.ClusterStore.SpawnFetchers | src/cluster/store.rs:272-462 | exactly one new loop per endpoint, each with a task and a handle of its own, gated as its endpoint is, given its endpoint's counter and permit and the watch channel it needs, the bulletin cursor at the ring's `last_id` or 0 |
| ClusterStores.NothingShared | src/cluster/store.rs:272-462 | no two of these loops share an endpoint, a counter or a permit |
| ClusterStores.ClusterStore.Shutdown | src/cluster/store.rs:545-554 | every held task is aborted and no other, and the access audit is unknown again |
| Workers.BrowserState.Fill | src/app/worker.rs:46-72 | a task put in a slot replaces and aborts the one there; the others run on |
| Workers.BrowserState.Clear | src/app/worker.rs:46-72 | emptying a slot aborts its task and no other |
| Workers.BrowserState.Drop | src/app/worker.rs:46-72 | dropping the state aborts the task of every slot |
| Workers.WorkerRegistry.TransitionOut | src/app/worker.rs:210-253 | releases exactly the subscriptions of the endpoints the view reads; leaving Browser closes its detail channel and aborts the parameter modal's and the sparkline's tasks |
| Workers.WorkerRegistry.TransitionInSubscribe | src/app/worker.rs:258-303 | takes exactly those, and wakes each of them that was new |
| Workers.WorkerRegistry.Ensure | src/app/worker.rs:107-204 | the subscriptions are those of the given view alone, whichever was active; on a change the old workers and, leaving Browser, two of its slots are aborted, every endpoint read is woken, the Browser worker and channel exist iff the view is Browser, and a surviving watch session resumes; no task is lost from sight |
| Workers.WorkerRegistry.RestartEventsWatch | src/app/worker.rs:323-360 | off the Events tab nothing changes; on it the old watch worker is gone and a new one runs iff there is a session |
| Workers.WorkerRegistry.Invalidate | src/app/worker.rs:366-397 | every worker is aborted, no view is active |
| MainLoop.App.Iterate | src/app/mod.rs:92-650 | after any event, with any effects in any order: subscriptions are those of the active view, published lists are current, and the running tasks are exactly twelve fetchers, one per endpoint, the workers and the Browser's slot tasks, each under one handle; tab, active view, watch session, watch worker, slots in use, audit and pending restarts are those of `Turn.After`; the workers are all new if a view is entered or the watch restarted and otherwise the ones of before; a view entered has its endpoints woken; an update is in the log and announced |
| MainLoop.RestartHappens | src/app/mod.rs:575-598 | a watch restart asked for by any effect happens if Events is the tab then: every worker of before is replaced and a watch worker is held afterwards iff there is a session; off Events none is held |
| MainLoop.LastTabWins | src/app/state/mod.rs:1425-1470 | the tab after an event is the last one chosen |
| MainLoop.App.SwitchContext | src/app/state/mod.rs:2660-2697 | a context switch leaves a fresh store and fresh Browser and Events states, every fetcher and slot task aborted, only the old view's workers running until the tail |
| MainLoop.App.Apply | src/app/state/mod.rs:2660-2697 | each effect changes exactly what `AfterEffect` says, and leaves a state the tail can bring to the invariant |
| MainLoop.App.Reduce | src/app/state/mod.rs:1425-1470 | so does any sequence of effects, a context switch among them or not |
| MainLoop.App.FillSlot | src/app/mod.rs:413-514 | the slot holds a new task, every other slot its old one, and every running task stays held once |
| MainLoop.App.ClearSlot | src/app/worker.rs:46-72 | the slot's task is aborted, every other slot keeps its own |
| MainLoop.App.Follow | src/app/state/mod.rs:657-746 | the slot is kept, closed or renewed as the selection asks, and no other changes |
| MainLoop.App.Update | src/app/mod.rs:99-124 | an update is applied, the lists are published and the endpoint announced; nothing else changes |
| MainLoop.App.Tail | src/app/mod.rs:575-598 | the restarts and `ensure` bring any state a reducer can leave back to the invariant, with the current tab active; a pending watch restart on Events replaces the workers of before and holds a watch worker iff there is a session |
| MainLoop.App.Start | src/app/mod.rs:68-79 | startup establishes the invariant and wakes the first view's endpoints |
| MainLoop.App.Run | src/app/mod.rs:92-653 | any run of the app ends with no fetcher, worker or slot task left running |
| LevelSearch.RoundsFindSearchOrder | src/client/parameter_context.rs:158-257 | `k` rounds find exactly the ids at distance below `k`, each once, in discovery order and nearer ones first |
| LevelSearch.SearchOrderIsUnique | src/client/parameter_context.rs:158-257 | there is only one such list |
| LevelSearch.UncappedSearchTerminates | src/client/parameter_context.rs:158-163 | over finitely many contexts the frontier runs dry without the cap, cycles included, and everything reachable has been found |
| LevelSearch.RoundKeepsInv | src/client/parameter_context.rs:158-257 | each round keeps visited, listed and pending ids consistent and duplicate-free |
| ParameterContext.FetchChain | src/client/parameter_context.rs:149-257 | `BoundFailed` iff the bound context itself fails, with its error; otherwise an id is in the chain iff a path of at most 16 ids leads to it, each listed as inherited in the answer for the one before, and each node reports its answer: name, present parameters and inherited ids in order, or the error; each id once, in discovery order |
| ParameterContext.ChainIsUnique | src/client/parameter_context.rs:149-257 | the server's answers determine the chain |
| ParameterContext.SmallGraphsAreComplete | src/client/parameter_context.rs:141-163 | with at most 16 contexts the chain holds every id any path of listed ids leads to |
| ParameterContext.SensitiveValuesAreDropped | src/client/parameter_context.rs:186-246 | no sensitive parameter's value is anywhere in the chain, and none influences it: servers that differ in such values only have the same chains |
| ParameterContext.TakeUnvisited | src/client/parameter_context.rs:166-169 | the `visited.insert` filter keeps first occurrences of unvisited ids and marks them |
| ParameterContext.ReadLevel | src/client/parameter_context.rs:185-254 | one level's answers become nodes and the next frontier; only the bound id's failure stops the search |
| Arena.WalkPgNodes | src/client/browser.rs:137-270 | the rows appended are the flattening of the tree at the current index |
| ArenaRebuild.ArenaEncodesTree | src/client/browser.rs:137-270 | parent indices and kinds alone rebuild the tree, component order included |
| ArenaRebuild.ParentsComeFirst | src/client/browser.rs:137-270 | every row but the root points at an earlier process-group row |
| ArenaRebuild.SubtreesAreContiguous | src/client/browser.rs:137-270 | each row's subtree is one contiguous index range starting at it |
| GroupWalks.FlattenItems | src/client/browser.rs:137-270 | the arena lists the tree's items depth first |
| GroupWalks.QueuesAgree | src/client/mod.rs:75-106 | the queue walk finds the connections in arena order with the arena's facts |
| TreeComponents.RowsShowComponents | src/client/browser.rs:137-270 | the arena shows the tree's components one for one in walk order, each field that of NiFi's answer, the fill of a connection the larger of its two limits |
| TreeComponents.QueuesShowConnections | src/client/mod.rs:75-106 | the queue walk shows the tree's connections one for one in walk order, field by field |
| TreeComponents.TalliesAgree | src/client/mod.rs:582-640 | counting rows by state is counting components whose state spells the word |
| TreeComponents.StatesAreSpelled | src/client/status.rs:19-34 | a state is recognised iff it spells its word in any mix of cases |
| StableSort.SortIsStable | src/client/mod.rs:556-571 | the queues end up descending by fill, equal fills in walk order, none lost or repeated |
| StableSort.StableSortIsUnique | src/client/mod.rs:556-571 | a list has only one stable sort, so the algorithm used does not matter |
| RootPgStatus.RootPgStatusSnapshot.CollectQueues | src/client/mod.rs:75-106 | appends the queues of the subtree |
| RootPgStatus.RootPgStatusSnapshot.CollectPgIds | src/client/mod.rs:642-658 | appends the non-empty group ids of the subtree |
| RootPgStatus.RootPgStatusSnapshot.CountProcessors | src/client/mod.rs:582-640 | adds the processors by parsed run status, unknown ones to none |
| RootPgStatus.RootPgStatusSnapshot.CountRemoteGroups | src/client/mod.rs:582-640 | adds the remote groups by transmission state |
| RootPgStatus.RootPgStatusSnapshot.CollectCounts | src/client/mod.rs:582-640 | adds, modulo 2^32, the counts over the subtree's items |
| RootPgStatus.FromAggregate | src/client/mod.rs:556-571 | the rows show the tree's components, the connections are the stable sort by fill of what is shown of the tree's connections, tallies count the tree's components modulo 2^32, the group ids are those of the rows |
| RootPgStatus.PortEntriesCoverRows | src/client/mod.rs:582-640 | the port counts are at least the arena's port rows, and equal iff every port entry carries a snapshot |
| PredicateParser.Parse | src/client/predicate.rs:45-84 | the cursor parser accepts, rejects and reports columns exactly as the grammar |
| PredicateParser.Scanner.SkipWhitespace | src/client/predicate.rs:147-151 | skips blanks and tabs only |
| PredicateParser.Scanner.ParseAttribute | src/client/predicate.rs:153-185 | reads an attribute name or reports the grammar's error and column |
| PredicateParser.Scanner.ParseOperator | src/client/predicate.rs:187-218 | reads the longest operator first |
| PredicateParser.Scanner.ReadDelimited | src/client/predicate.rs:239-305 | unescapes up to the closing delimiter |
| PredicateParser.Scanner.ParseBareLiteral | src/client/predicate.rs:307-324 | reads up to the next blank |
| PredicateParser.Scanner.ParseClauseLiteral | src/client/predicate.rs:220-237 | the operator decides the literal's form |
| PredicateParser.Scanner.ConsumeAnd | src/client/predicate.rs:326-336 | `AND` counts only before a blank or the end |
| PredicateParser.Scanner.ParseOneClause | src/client/predicate.rs:57-67 | attribute, operator, literal |
| PredicateParser.Redacted | src/client/predicate.rs:99-118 | the log line depends on attribute names and operators alone |
| PredicateGrammar.ErrorsPointInside | src/client/predicate.rs:45-84 | a parse consumes all input; an error's column lies in 1..=length+1 |
| PredicateLaws.RoundTrip | src/client/predicate.rs:45-84 | parsing a printed clause list gives it back, whenever each clause has a written form |
| PredicateLaws.LanguageIsExactlyTheExpressible | src/client/predicate.rs:45-84 | a clause list is the parse of some input iff each clause has a grammatical attribute, a literal of its operator's kind, and text ending in a backslash only where it can be bare |
| PredicateLaws.QuotedValues | src/client/predicate.rs:278-305 | a text can be quoted iff it does not end in a backslash |
| PredicateLaws.BodyNeverEndsInBackslash | src/client/predicate.rs:239-305 | no quoted or regex literal read ends in a backslash |
| PredicateLaws.Utf8ErrorsAreUnreachable | src/client/predicate.rs:153-324 | on well-formed UTF-8 none of the four "not valid UTF-8" errors occurs |
| PredicateLaws.BodyKeepsValid | src/client/predicate.rs:278-305 | unescaping keeps well-formed text well formed, and so is what follows |
| PredicateLaws.PredicatesCompose | src/client/predicate.rs:45-84 | joining two parsable predicates with " AND " parses to the appended clause lists |
| PredicateLaws.MatchMeaning | src/client/predicate.rs:118-145 | a parsed predicate matches iff each clause holds, the empty one always: `=` iff the first attribute of that name has exactly the text as its current value, `=~` iff that value is there and accepted, `!=` and `!~` iff not so |
| PredicateLaws.ComposedMeaning | src/client/predicate.rs:118-145 | the joined text matches iff both parts match |
| Utf8.ValidIffEncoded | src/client/predicate.rs:153-324 | the bytes accepted as text are exactly the encodings of Unicode scalar values |
| StatusHistory.AggregateNodeSnapshots | src/client/history.rs:277-311 | one row per timestamp in increasing order; a row has exactly the metrics some node reported, each with the wrapped i64 total over all nodes and snapshots |
| StatusHistory.AggregateIsUnique | src/client/history.rs:277-311 | the nodes determine the series |
| StatusHistory.NodeOrderIsIrrelevant | src/client/history.rs:277-311 | nodes in another order give the same series |
| StatusHistory.AddMetrics | src/client/history.rs:293-299 | the metrics loop adds each present value to its cell, whatever the map's order |
| StatusHistory.InOrder | src/client/history.rs:302-311 | the rows come in increasing key order, one per key |
| StatusHistory.LessIsBefore | src/client/history.rs:302-311 | the order of the timestamps is lexicographic |
| StatusHistory.ClusteredCount | src/client/history.rs:313-330 | a count shown for a clustered bucket is the total of the first alias any node reported, never negative, absent iff no alias was |
| TabHistory.History.Push | src/app/history.rs:34-40 | pushes, clears forward, drops the oldest beyond 20 |
| TabHistory.History.PopBack | src/app/history.rs:45-52 | moves one step back, or changes nothing when there is none |
| TabHistory.History.PopForward | src/app/history.rs:57-64 | moves one step forward, or changes nothing when there is none |
| TabHistory.RunKeepsFits | src/app/history.rs:34-64 | from the empty history both stacks together never exceed 20 |
| TabHistory.MovesAreExact | src/app/history.rs:45-64 | in every reachable history the trims in the two moves never fire, a move keeps the line of entries, and the opposite move undoes it |
| TabHistory.BackThenForward | src/app/history.rs:45-64 | for any capped stacks, forward undoes back iff the forward stack had room |
| TabHistory.ForwardThenBack | src/app/history.rs:45-64 | for any capped stacks, back undoes forward iff the back stack had room |
| ByteSize.RoundTrip | src/bytes.rs:38-46 | a size prints as a count, a blank and its unit; reading it gives it back minus what the unit cannot say, always more than half, exactly iff it is a whole number of units; 0 reads as unbounded |
| ByteSize.ParserLanguage | src/config/mod.rs:538-568 | the parser reads exactly an i64 numeral with an optional unit and white space around; it means the capped product, or unbounded when not positive; anything else means the default |
| ByteSize.NumeralLanguage | src/config/mod.rs:540-545 | an i64 numeral is an optional sign, any zeros and the usual digits, in range |
| ByteSize.DecimalParses | src/config/mod.rs:540-545 | every i64 that is not negative survives printing and parsing |
| AccessAudit.FoldIsMaximum | src/client/access.rs:111-145 | the fold is the maximum of the start and all verdicts under Unknown < Unsupported < Supported |
| AccessAudit.FoldIgnoresOrder | src/client/access.rs:133-145 | the map's iteration order does not matter |
| AccessAudit.FoldMeaning | src/client/access.rs:98-131 | Supported iff it was or some axis answered; Unknown iff it was and every axis was silent |

## Left out

- HTTP, TLS handshakes, certificate parsing and NiFi's DTO field copying: a server is a function or a nondeterministic answer.
- Rendering, themes, key handling, what modals show, logging, the command line, config files.
- Time: sleeps, jitter, `adaptive_interval` and `next_interval_for` are a nondeterministic wait; fetch metadata is carried but not interpreted.
- The scheduler: no fairness is assumed, so the protocol results are about safety and about steps being possible, not about when they happen.
- tokio's `Notify`, `watch` and `mpsc` and the relaxed counter are assumed primitives, as the heads of GatedFetcher.dfy and EventChannel.dfy state them.
- The regex engine: compiling and matching are abstract predicates.
- PredicateParser.Parse: error messages and the excerpt they quote are an error kind and a column.
- PredicateParser.Scanner.ReadDelimited: one method stands for the two loops that differ in the delimiter only.
- EventChannel.JamIsReachable: a sender that is cancelled while it waits, or between taking a slot and pushing, is not modelled.
- GatedFetcher.BurstIsReachable: what else may order the two tasks in a given runtime is left open, as the head of GatedFetcher.dfy says.
- GatedFetcher.NoLostWakeup: a failed fetch is a fetch like any other, a fan-out round is one request, and the fallback address probed when the published list is empty is not part of the state. An abort counts at once: the poll an aborted task may still finish is modelled for bulletins only.
- BulletinPipeline.SwitchKeepsAgreementIff: a request is taken never to be answered within the poll that issues it.
- ClusterSnapshot.Snapshot.ApplyUpdate: all endpoint payloads share one abstract type; what the addresses and group ids of a payload are is a parameter.
- MainLoop.App.Run: the loop over incoming events is a recursion on a list of events; which effects a reducer has is left open, one that touches no subscription, task or watch session having none.
- MainLoop.App.Iterate: tasks held elsewhere or nowhere (input, tick, dispatched intents, lineage queries, diffs, the cleanup a dropped queue listing starts) are not counted. Nor is a flow-file peek, whose task runs on when its listing is dropped without closing it. A task that ends by itself is not distinguished from one still running, and aborting is giving up the handle: what an aborted task does until it stops is the matter of BulletinPipeline and StaleUpdates.
- MainLoop.App.SwitchContext: resets of view state that holds no task and no subscription are left out.
- Workers.WorkerRegistry.TransitionOut: what the sparkline and the parameter modal display is cleared with their tasks in the source, and is not part of the state here.
- RootPgStatus.RootPgStatusSnapshot.CollectCounts: counters wrap at 2^32 as in a release build; a debug build would panic. Byte totals other than the root's are not modelled.
- RootPgStatus.FromAggregate: NiFi's flow-file counts are taken to fit 32 bits, as the DTO's type would ensure; the DTO is not part of this model.
- Arena.WalkPgNodes: display fields a row copies from its DTO are reduced to those the other walks also use.
- StatusHistory.AggregateNodeSnapshots: sums wrap as in a release build; timestamps stay strings, so parsing them to clock time is not part of this model.
- StatusHistory.ClusteredCount: the table of aliases per component kind is a parameter.
- ByteSize.ParserLanguage: the warning that accompanies the default is not modelled, and `format_bytes` with its decimals is left out.
- AccessAudit.FoldIsMaximum: whether an error text reports a missing authorizer is an abstract predicate, and an outcome's tenant lists are dropped.
- Severity, wire-string enums, list navigation and similar easy members.
