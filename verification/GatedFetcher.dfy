/**
 One subscriber-gated fetch task against the UI task, as an interleaving of
 their atomic steps. Three kinds of loop cover the eight gated endpoints. The plain
 one (src/cluster/fetcher_tasks.rs:101-146 and three more) only polls; that of
 `spawn_tls_certs` (848-907) reads the published address list; the fan-out one
 (464-530, 924-984, 996-1056) waits on the published group list as well, and waits
 without a request while that list is empty. The UI side is `subscribe`,
 `unsubscribe`, `force`, `publish_node_addresses` and `publish_pg_ids`
 (src/cluster/store.rs:226-268, 464-476), each called while an event taken from the
 event channel is handled (src/app/mod.rs:92-653).

 Assumed primitives. The subscriber counter is an atomic read and written with
 `Ordering::Relaxed`: the task may read any value of the counter's history that
 is not older than the last one it knows of. It learns what the UI task knew
 - when it takes a permit: what was known at the notification. `Notify` is a single
   permit; a notification given to a waiting task is the same permit, not yet taken.
 - when it reads the published list, or is woken by a new one: what was known at
   the last attempt to publish, because the list is behind a lock. The list is a
   versioned `watch` channel: reads are current, `borrow_and_update` and a completed
   `changed` mark the version as seen, and `changed` is ready iff the version seen
   is older than the current one.
 - when it takes a slot of the bounded event channel: what was known when the UI
   last received, because slots are counted in one read-modify-write atomic.
 Whatever else may order the two tasks (other senders, the client's lock, the
 scheduler) is left open: the task may learn more at any time.
 */
module GatedFetcher {
  import opened Wrappers

  /** Between the two sub-steps of a call the UI owes a notification; it waits for events only when `Idle`. */
  datatype Ui = Idle | Handling | OwesNotify | OwesForce

  /** Whether the loop reads the published addresses, or fans out over the published groups. */
  datatype Kind = Plain | Addresses | FanOut

  datatype Pc = Top | WillPark | Parked | Cleared | Waiting | Fetching | Sending | Sleeping | Exited

  datatype State<View(==), Item(==)> = State(
    gated: bool,
    kind: Kind,
    subscribers: set<View>,
    history: seq<nat>,      // every value the counter has held, oldest first
    published: seq<Item>,
    version: nat,
    publishedAt: nat,       // the length of history at the last attempt to publish, less one
    capacity: nat,          // of the event channel
    free: nat,              // slots
    receivedAt: nat,        // the length of history when the UI last received, less one
    ui: Ui,
    permit: Option<nat>,    // with the length of history the notifier had seen, less one
    pc: Pc,
    floor: nat,             // the task knows the counter's history up to here
    lastRead: seq<Item>,
    seen: nat,              // the version of the list the task has seen
    requests: nat)          // rounds of requests started so far

  datatype Step<View, Item> =
    // UI task
    | Receive | Done | Subscribe(view: View) | Unsubscribe(view: View) | Force | Publish(list: seq<Item>) | Notify
    // anyone else
    | OthersSend
    // fetch task
    | ReadCounter(index: nat) | Park | Wake | Start | Finish | Send | SendToClosed
    | TimerFires | ForceWakes | ListWakes | Learn(index: nat)
    // runtime
    | Abort

  function Last(h: seq<nat>): nat
    requires h != []
  {
    h[|h| - 1]
  }

  function Max(a: nat, b: nat): nat {
    if a >= b then a else b
  }

  /** In one of the two `select!`s. */
  predicate Selecting<View, Item>(s: State<View, Item>) {
    s.pc == Sleeping || s.pc == Waiting
  }

  /** The UI owes no notification. */
  predicate Settled<View, Item>(s: State<View, Item>) {
    s.ui == Idle || s.ui == Handling
  }

  predicate Enabled<View, Item>(s: State<View, Item>, step: Step<View, Item>) {
    match step
    case Receive => s.ui == Idle && s.free < s.capacity
    case Done => s.ui == Handling
    case Subscribe(_) => s.ui == Handling
    case Unsubscribe(_) => s.ui == Handling
    case Force => s.ui == Handling
    case Publish(_) => s.ui == Handling && s.kind != Plain
    case Notify => s.ui == OwesNotify || s.ui == OwesForce
    case OthersSend => s.free > 0
    case ReadCounter(i) => s.pc == Top && s.floor <= i < |s.history|
    case Park => s.pc == WillPark
    case Wake => s.pc == Parked && s.permit.Some?
    case Start => s.pc == Cleared
    case Finish => s.pc == Fetching
    case Send => s.pc == Sending && s.free > 0
    case SendToClosed => s.pc == Sending
    case TimerFires => Selecting(s)
    case ForceWakes => Selecting(s) && s.permit.Some?
    case ListWakes => Selecting(s) && s.kind == FanOut && s.seen < s.version
    case Learn(i) => s.floor <= i < |s.history|
    case Abort => true
  }

  /** A fan-out task that finds no groups goes to wait instead of asking. */
  predicate FindsNothing<View, Item>(s: State<View, Item>) {
    s.kind == FanOut && s.published == []
  }

  /** What a look at the published list tells about the counter. */
  function ListTells<View, Item>(s: State<View, Item>): nat {
    if s.kind == Plain then 0 else s.publishedAt
  }

  function Do<View, Item>(s: State<View, Item>, step: Step<View, Item>): State<View, Item>
    requires s.history != [] && Enabled(s, step)
  {
    match step
    case Receive => s.(ui := Handling, free := s.free + 1, receivedAt := |s.history| - 1)
    case Done => s.(ui := Idle)
    case Subscribe(v) =>
      if v in s.subscribers then s
      else s.(subscribers := s.subscribers + {v}, history := s.history + [Last(s.history) + 1], ui := OwesNotify)
    case Unsubscribe(v) =>
      if v !in s.subscribers || Last(s.history) == 0 then s
      else s.(subscribers := s.subscribers - {v}, history := s.history + [Last(s.history) - 1])
    case Force => s.(permit := Some(|s.history| - 1))
    case Publish(list) =>
      var p := s.(published := list, publishedAt := |s.history| - 1);
      if s.kind == FanOut then p.(version := s.version + 1)
      else if list == s.published then p
      else p.(version := s.version + 1, ui := OwesForce)
    case Notify => s.(permit := Some(|s.history| - 1), ui := Handling)
    case OthersSend => s.(free := s.free - 1)
    case ReadCounter(i) =>
      if !s.gated then s.(pc := Cleared)
      else s.(floor := i, pc := if s.history[i] > 0 then Cleared else WillPark)
    case Park => s.(pc := Parked)
    case Wake => s.(pc := Top, permit := None, floor := Max(s.floor, s.permit.value))
    case Start =>
      var r := s.(lastRead := s.published, seen := s.version, floor := Max(s.floor, ListTells(s)));
      if FindsNothing(s) then r.(pc := Waiting) else r.(pc := Fetching, requests := s.requests + 1)
    case Finish => s.(pc := Sending)
    case Send => s.(pc := Sleeping, free := s.free - 1, floor := Max(s.floor, s.receivedAt))
    case SendToClosed => s.(pc := Exited)
    case TimerFires => s.(pc := Top)
    case ForceWakes => s.(pc := Top, permit := None, floor := Max(s.floor, s.permit.value))
    case ListWakes => s.(pc := Top, seen := s.version, floor := Max(s.floor, ListTells(s)))
    case Learn(i) => s.(floor := i)
    case Abort => s.(pc := Exited)
  }

  /** A freshly spawned task beside a fresh store; the UI is about to make a view the active one. */
  predicate Init<View, Item>(s: State<View, Item>) {
    && s.subscribers == {} && s.history == [0] && s.ui == Handling && s.permit == None
    && s.pc == Top && s.floor == 0 && s.requests == 0 && s.seen == s.version
    && s.publishedAt == 0 == s.receivedAt && s.free <= s.capacity && s.capacity > 0
  }

  ghost predicate CanRun<View, Item>(s: State<View, Item>, steps: seq<Step<View, Item>>)
    decreases |steps|
  {
    s.history != []
    && (steps == [] || (Enabled(s, steps[0]) && CanRun(Do(s, steps[0]), steps[1..])))
  }

  ghost function Run<View, Item>(s: State<View, Item>, steps: seq<Step<View, Item>>): State<View, Item>
    requires CanRun(s, steps)
    decreases |steps|
  {
    if steps == [] then s else Run(Do(s, steps[0]), steps[1..])
  }

  // ----- What every step keeps -----

  /** No value the task can still read from history index `k` on is zero. */
  ghost predicate PositiveFrom(h: seq<nat>, k: nat) {
    forall i :: k <= i < |h| ==> h[i] > 0
  }

  /** A permit is waiting whose taker will only see positive counts. */
  ghost predicate GoodPermit<View, Item>(s: State<View, Item>) {
    s.permit.Some? && PositiveFrom(s.history, s.permit.value)
  }

  /** What anyone knows of the counter lies in its past. */
  predicate Known<View, Item>(s: State<View, Item>) {
    && s.floor < |s.history| && (s.permit.Some? ==> s.permit.value < |s.history|)
    && s.publishedAt < |s.history| && s.receivedAt < |s.history|
    && s.free <= s.capacity && s.capacity > 0
  }

  /** The counter counts the subscribers. */
  ghost predicate Counts<View, Item>(s: State<View, Item>) {
    s.history != [] && Last(s.history) == |s.subscribers| && Known(s)
  }

  predicate Parking<View, Item>(s: State<View, Item>) {
    s.pc == WillPark || s.pc == Parked
  }

  /** With subscribers present, a task that is parking, or can still read a zero, is owed a wakeup. */
  ghost predicate WakeupOwed<View, Item>(s: State<View, Item>) {
    && (Parking(s) ==> s.gated)
    && (s.subscribers != {} && (Parking(s) || !PositiveFrom(s.history, s.floor)) ==>
          s.ui == OwesNotify || GoodPermit(s))
  }

  /** The task has read a list that is not the published one. */
  predicate Outdated<View, Item>(s: State<View, Item>) {
    s.pc in {Fetching, Sending, Sleeping, Waiting} && s.lastRead != s.published
  }

  /** A task busy with an outdated list is owed a wakeup, or has a newer version to see. */
  ghost predicate ListOwed<View, Item>(s: State<View, Item>) {
    && s.seen <= s.version
    && (Outdated(s) ==> if s.kind == FanOut then s.seen < s.version else s.ui == OwesForce || s.permit.Some?)
  }

  ghost predicate Inv<View, Item>(s: State<View, Item>) {
    Counts(s) && WakeupOwed(s) && ListOwed(s)
  }

  lemma SubscribeKeepsInv<View, Item>(s: State<View, Item>, v: View)
    requires Inv(s) && s.ui == Handling
    ensures Inv(Do(s, Subscribe(v)))
  {
    var t := Do(s, Subscribe(v));
    assert forall i :: 0 <= i < |s.history| ==> t.history[i] == s.history[i];
  }

  lemma UnsubscribeKeepsInv<View, Item>(s: State<View, Item>, v: View)
    requires Inv(s) && s.ui == Handling
    ensures Inv(Do(s, Unsubscribe(v)))
  {
    var t := Do(s, Unsubscribe(v));
    if t != s {
      hide ListOwed;
      assert ListOwed(t) by {
        UnfoldListOwed(s, t);
      }
      assert t.subscribers + {v} == s.subscribers;
      assert forall i :: 0 <= i < |s.history| ==> t.history[i] == s.history[i];
      FewerButPositive(s, t);
    }
  }

  /** A counter value that is still positive leaves every owed wakeup good. */
  lemma FewerButPositive<View, Item>(s: State<View, Item>, t: State<View, Item>)
    requires Inv(s) && s.ui == Handling && t.subscribers < s.subscribers
    requires t == s.(subscribers := t.subscribers, history := s.history + [|t.subscribers|])
    ensures WakeupOwed(t)
  {
    if t.subscribers != {} {
      assert |t.subscribers| > 0;
      assert PositiveFrom(s.history, s.floor) ==> PositiveFrom(t.history, s.floor);
      assert GoodPermit(s) ==> GoodPermit(t);
    }
  }

  lemma UnfoldListOwed<View, Item>(s: State<View, Item>, t: State<View, Item>)
    requires t.(subscribers := s.subscribers, history := s.history) == s
    ensures ListOwed(t) <==> ListOwed(s)
  {
  }

  lemma NotifyingKeepsInv<View, Item>(s: State<View, Item>, step: Step<View, Item>)
    requires Inv(s) && Enabled(s, step) && (step.Force? || step.Publish? || step.Notify?)
    ensures Inv(Do(s, step))
  {
  }

  lemma EventStepKeepsInv<View, Item>(s: State<View, Item>, step: Step<View, Item>)
    requires Inv(s) && Enabled(s, step) && (step.Receive? || step.Done? || step.OthersSend?)
    ensures Inv(Do(s, step))
  {
  }

  lemma GateStepKeepsInv<View, Item>(s: State<View, Item>, step: Step<View, Item>)
    requires Inv(s) && Enabled(s, step) && (step.ReadCounter? || step.Park? || step.Learn?)
    ensures Inv(Do(s, step))
  {
  }

  lemma StartKeepsInv<View, Item>(s: State<View, Item>)
    requires Inv(s) && Enabled(s, Start)
    ensures Inv(Do(s, Start))
  {
  }

  lemma FetchStepKeepsInv<View, Item>(s: State<View, Item>, step: Step<View, Item>)
    requires Inv(s) && Enabled(s, step) && (step.Finish? || step.Send? || step.SendToClosed? || step.Abort?)
    ensures Inv(Do(s, step))
  {
  }

  lemma WakingKeepsInv<View, Item>(s: State<View, Item>, step: Step<View, Item>)
    requires Inv(s) && Enabled(s, step) && (step.Wake? || step.TimerFires? || step.ForceWakes? || step.ListWakes?)
    ensures Inv(Do(s, step))
  {
  }

  lemma StepKeepsInv<View, Item>(s: State<View, Item>, step: Step<View, Item>)
    requires Inv(s) && Enabled(s, step)
    ensures Inv(Do(s, step))
  {
    hide Inv, Do;
    UnfoldInv(s);
    if step.Subscribe? {
      SubscribeKeepsInv(s, step.view);
    } else if step.Unsubscribe? {
      UnsubscribeKeepsInv(s, step.view);
    } else if step.Force? || step.Publish? || step.Notify? {
      NotifyingKeepsInv(s, step);
    } else if step.Receive? || step.Done? || step.OthersSend? {
      EventStepKeepsInv(s, step);
    } else if step.ReadCounter? || step.Park? || step.Learn? {
      GateStepKeepsInv(s, step);
    } else if step.Wake? || step.TimerFires? || step.ForceWakes? || step.ListWakes? {
      WakingKeepsInv(s, step);
    } else if step.Start? {
      StartKeepsInv(s);
    } else {
      FetchStepKeepsInv(s, step);
    }
  }

  lemma UnfoldInv<View, Item>(s: State<View, Item>)
    requires Inv(s)
    ensures s.history != [] && Known(s)
  {
  }

  lemma {:induction false} RunKeepsInv<View, Item>(s: State<View, Item>, steps: seq<Step<View, Item>>)
    requires Inv(s) && CanRun(s, steps)
    ensures Inv(Run(s, steps))
    decreases |steps|
  {
    hide Inv, Do;
    if steps != [] {
      StepKeepsInv(s, steps[0]);
      RunKeepsInv(Do(s, steps[0]), steps[1..]);
    }
  }

  // ----- No lost wakeup, no missed list -----

  lemma InitInv<View, Item>(s: State<View, Item>)
    requires Init(s)
    ensures Inv(s)
  {
  }

  /**
   No lost wakeup, and no missed list. In every state of every interleaving: a
   task that is parked, or has decided to park, while a view is subscribed has a
   permit waiting that shows it the subscription, or the subscriber is between
   raising the counter and notifying; a task that works or waits on an outdated
   list has a newer version to see if it fans out, and otherwise a permit
   waiting or a publisher between changing the list and forcing; and the counter
   equals the number of subscribers.
   */
  lemma NoLostWakeup<View, Item>(s0: State<View, Item>, steps: seq<Step<View, Item>>)
    requires Init(s0) && CanRun(s0, steps)
    ensures var s := Run(s0, steps);
            && (s.pc in {WillPark, Parked} && s.subscribers != {} ==> s.ui == OwesNotify || GoodPermit(s))
            && (Outdated(s) ==> if s.kind == FanOut then s.seen < s.version else s.ui == OwesForce || s.permit.Some?)
            && s.history != [] && Last(s.history) == |s.subscribers|
  {
    InitInv(s0);
    RunKeepsInv(s0, steps);
  }

  /**
   The wakeup is of use. Once the UI task owes no notification, a parked task with a
   subscriber can wake; every counter value it may read then lets it pass, the
   stale ones a relaxed load may return included; and it goes on to read the
   published list and, unless it fans out over nothing, starts a request for it.
   */
  lemma WakeupStartsRequest<View, Item>(
    s0: State<View, Item>, before: seq<Step<View, Item>>, s: State<View, Item>, index: nat)
    requires Init(s0) && CanRun(s0, before) && s == Run(s0, before)
    requires s.pc == Parked && s.subscribers != {} && Settled(s)
    ensures Enabled(s, Wake) && s.history != []
    ensures Enabled(Do(s, Wake), ReadCounter(Do(s, Wake).floor))
    ensures Enabled(Do(s, Wake), ReadCounter(index)) ==>
              CanRun(s, [Wake, ReadCounter(index), Start])
              && var t := Run(s, [Wake, ReadCounter(index), Start]);
                 t.lastRead == s.published
                 && if FindsNothing(s) then t.pc == Waiting else t.pc == Fetching && t.requests == s.requests + 1
  {
    InitInv(s0);
    RunKeepsInv(s0, before);
    var awake := Do(s, Wake);
    if Enabled(awake, ReadCounter(index)) {
      RunThree(s, Wake, ReadCounter(index), Start);
    }
  }

  lemma RunThree<View, Item>(s: State<View, Item>, a: Step<View, Item>, b: Step<View, Item>, c: Step<View, Item>)
    requires s.history != [] && Enabled(s, a)
    requires Do(s, a).history != [] && Enabled(Do(s, a), b)
    requires Do(Do(s, a), b).history != [] && Enabled(Do(Do(s, a), b), c)
    requires Do(Do(Do(s, a), b), c).history != []
    ensures CanRun(s, [a, b, c]) && Run(s, [a, b, c]) == Do(Do(Do(s, a), b), c)
  {
    hide Do, Enabled;
    assert [a, b, c][1..] == [b, c] && [b, c][1..] == [c] && [c][1..] == [];
    var s1 := Do(s, a);
    var s2 := Do(s1, b);
    var s3 := Do(s2, c);
    assert CanRun(s3, []) && Run(s3, []) == s3;
    assert CanRun(s2, [c]) && Run(s2, [c]) == s3;
    assert CanRun(s1, [b, c]) && Run(s1, [b, c]) == s3;
  }

  /**
   No task waits out its timer on an outdated list: a fan-out task sees the new
   version at once, and any other can be cut short once the UI owes no notification.
   */
  lemma StaleSleepIsCut<View, Item>(s0: State<View, Item>, steps: seq<Step<View, Item>>)
    requires Init(s0) && CanRun(s0, steps)
    requires var s := Run(s0, steps); Selecting(s) && s.lastRead != s.published
    ensures var s := Run(s0, steps);
            if s.kind == FanOut then Enabled(s, ListWakes) else Settled(s) ==> Enabled(s, ForceWakes)
  {
    NoLostWakeup(s0, steps);
  }

  // ----- A task that is needed goes on -----

  /** A step the task takes by itself, its timer included. */
  predicate IsOwn<View, Item>(step: Step<View, Item>) {
    step.ReadCounter? || step.Park? || step.Wake? || step.Start? || step.Finish? || step.Send? || step.TimerFires?
  }

  ghost predicate OwnSteps<View, Item>(steps: seq<Step<View, Item>>) {
    forall i :: 0 <= i < |steps| ==> IsOwn(steps[i])
  }

  /** Nobody stopped the task, it is needed, it is owed nothing, it has something to ask for and a slot to send to. */
  predicate Needed<View, Item>(s: State<View, Item>) {
    && s.pc != Exited && (s.gated ==> s.subscribers != {}) && Settled(s) && !FindsNothing(s)
    && (s.pc == Fetching || s.pc == Sending ==> s.free > 0)
  }

  ghost function NextOwn<View, Item>(s: State<View, Item>): Step<View, Item>
    requires s.history != []
  {
    match s.pc
    case Top => ReadCounter(|s.history| - 1)
    case WillPark => Park
    case Parked => Wake
    case Cleared => Start
    case Fetching => Finish
    case Sending => Send
    case _ => TimerFires
  }

  function ToRequest(pc: Pc): nat {
    match pc
    case Cleared => 0
    case Top => 1
    case Parked => 2
    case WillPark => 3
    case Waiting => 2
    case Sleeping => 2
    case Sending => 3
    case Fetching => 4
    case Exited => 5
  }

  lemma OwnStepLeadsOn<View, Item>(s: State<View, Item>)
    requires Inv(s) && Needed(s)
    ensures s.history != [] && IsOwn(NextOwn(s)) && Enabled(s, NextOwn(s))
    ensures var t := Do(s, NextOwn(s));
            if s.pc == Cleared then t.requests == s.requests + 1
            else Needed(t) && t.requests == s.requests && ToRequest(t.pc) < ToRequest(s.pc)
  {
  }

  lemma {:induction false} OwnStepsReachRequest<View, Item>(s: State<View, Item>) returns (steps: seq<Step<View, Item>>)
    requires Inv(s) && Needed(s)
    ensures CanRun(s, steps) && OwnSteps(steps) && Run(s, steps).requests == s.requests + 1
    decreases ToRequest(s.pc)
  {
    hide Do, Enabled, Inv, Needed, NextOwn, CanRun, Run;
    OwnStepLeadsOn(s);
    var step := NextOwn(s);
    var t := Do(s, step);
    StepKeepsInv(s, step);
    UnfoldInv(t);
    var rest := [];
    if s.pc == Cleared {
      StopHere(t);
    } else {
      rest := OwnStepsReachRequest(t);
    }
    OneMoreStep(s, step, rest);
    steps := [step] + rest;
  }

  lemma OneMoreStep<View, Item>(s: State<View, Item>, step: Step<View, Item>, rest: seq<Step<View, Item>>)
    requires s.history != [] && Enabled(s, step) && CanRun(Do(s, step), rest)
    ensures CanRun(s, [step] + rest) && Run(s, [step] + rest) == Run(Do(s, step), rest)
  {
    hide Do, Enabled;
    assert ([step] + rest)[1..] == rest;
  }

  /**
   A task that is needed polls again, whatever has happened before: from every
   state of every interleaving in which it has not been stopped, it is ungated
   or a view is subscribed, the UI owes no notification, there is something to
   ask for and a slot free to send to, its own steps alone start a request.
   */
  lemma AsksAgain<View, Item>(s0: State<View, Item>, before: seq<Step<View, Item>>, s: State<View, Item>)
    returns (steps: seq<Step<View, Item>>)
    requires Init(s0) && CanRun(s0, before) && s == Run(s0, before)
    requires s.pc != Exited && (s.gated ==> s.subscribers != {}) && Settled(s) && !FindsNothing(s) && s.free > 0
    ensures CanRun(s, steps) && OwnSteps(steps) && Run(s, steps).requests == s.requests + 1
  {
    InitInv(s0);
    RunKeepsInv(s0, before);
    steps := OwnStepsReachRequest(s);
  }

  predicate Stops<View, Item>(step: Step<View, Item>) {
    step.Abort? || step.SendToClosed?
  }

  lemma StepExits<View, Item>(s: State<View, Item>, step: Step<View, Item>)
    requires s.history != [] && Enabled(s, step) && s.pc != Exited && !Stops(step)
    ensures Do(s, step).pc != Exited
  {
  }

  /** Only an abort or a closed channel ends a task. */
  lemma {:induction false} OnlyStopsEndIt<View, Item>(s: State<View, Item>, steps: seq<Step<View, Item>>)
    requires CanRun(s, steps) && s.pc != Exited && Run(s, steps).pc == Exited
    ensures exists i :: 0 <= i < |steps| && Stops(steps[i])
    decreases |steps|
  {
    hide Do, Enabled, Stops;
    UnfoldRun(s, steps);
    if !Stops(steps[0]) {
      StepExits(s, steps[0]);
      OnlyStopsEndIt(Do(s, steps[0]), steps[1..]);
      var i :| 0 <= i < |steps[1..]| && Stops(steps[1..][i]);
      assert Stops(steps[i + 1]);
    }
  }

  /** And both can happen: an abort at any time, a closed channel at any send; as can learning more of the counter. */
  lemma NothingIsRuledOut<View, Item>(s: State<View, Item>, i: nat)
    requires s.history != []
    ensures CanRun(s, [Abort]) && Run(s, [Abort]).pc == Exited
    ensures s.pc == Sending ==> CanRun(s, [SendToClosed]) && Run(s, [SendToClosed]).pc == Exited
    ensures s.floor <= i < |s.history| ==> CanRun(s, [Learn(i)]) && Run(s, [Learn(i)]) == s.(floor := i)
  {
    RunOne(s, Abort);
    if s.pc == Sending {
      RunOne(s, SendToClosed);
    }
    if s.floor <= i < |s.history| {
      RunOne(s, Learn(i));
    }
  }

  // ----- Every request is answered for -----

  /** A request whose result has not been sent. */
  function Working<View, Item>(s: State<View, Item>): nat {
    if s.pc == Fetching || s.pc == Sending then 1 else 0
  }

  function Sends<View, Item>(steps: seq<Step<View, Item>>): nat {
    if steps == [] then 0 else (if steps[0].Send? then 1 else 0) + Sends(steps[1..])
  }

  /** Results lost to an abort or a closed channel. */
  ghost function Lost<View, Item>(s: State<View, Item>, steps: seq<Step<View, Item>>): nat
    requires CanRun(s, steps)
    decreases |steps|
  {
    if steps == [] then 0
    else (if Stops(steps[0]) then Working(s) else 0) + Lost(Do(s, steps[0]), steps[1..])
  }

  lemma StepSends<View, Item>(s: State<View, Item>, step: Step<View, Item>)
    requires s.history != [] && Enabled(s, step)
    ensures Do(s, step).requests + Working(s)
         == s.requests + (if step.Send? then 1 else 0) + (if Stops(step) then Working(s) else 0) + Working(Do(s, step))
  {
  }

  /** Each request started has its result sent, is still at work, or was cut off by an abort or a closed channel. */
  lemma {:induction false} ResultsAreSent<View, Item>(s: State<View, Item>, steps: seq<Step<View, Item>>)
    requires CanRun(s, steps)
    ensures Run(s, steps).requests + Working(s)
         == s.requests + Sends(steps) + Lost(s, steps) + Working(Run(s, steps))
    decreases |steps|
  {
    hide Do, Enabled, Working, Stops;
    if steps != [] {
      UnfoldRun(s, steps);
      StepSends(s, steps[0]);
      ResultsAreSent(Do(s, steps[0]), steps[1..]);
    }
  }

  // ----- What the steps have left behind -----

  /** Whether the last step about `v` subscribed it. */
  function Subscribed<View(==), Item>(v: View, steps: seq<Step<View, Item>>, was: bool): bool {
    if steps == [] then was
    else Subscribed(v, steps[1..], if steps[0] == Subscribe(v) then true
                                   else if steps[0] == Unsubscribe(v) then false else was)
  }

  function LastPublished<View, Item>(steps: seq<Step<View, Item>>, was: seq<Item>): seq<Item> {
    if steps == [] then was
    else LastPublished(steps[1..], if steps[0].Publish? then steps[0].list else was)
  }

  lemma StepLeaves<View, Item>(s: State<View, Item>, step: Step<View, Item>, v: View)
    requires Inv(s) && Enabled(s, step)
    ensures var t := Do(s, step);
            && (v in t.subscribers <==> Subscribed(v, [step], v in s.subscribers))
            && t.published == (if step.Publish? then step.list else s.published)
  {
    assert Last(s.history) == |s.subscribers|;
    assert step == Unsubscribe(v) && v in s.subscribers ==> |s.subscribers| > 0;
  }

  /** The subscribers are the views whose last call subscribed them, the list is the one published last. */
  lemma {:induction false} CallsTakeEffect<View, Item>(s: State<View, Item>, steps: seq<Step<View, Item>>, v: View)
    requires Inv(s) && CanRun(s, steps)
    ensures v in Run(s, steps).subscribers <==> Subscribed(v, steps, v in s.subscribers)
    ensures Run(s, steps).published == LastPublished(steps, s.published)
    decreases |steps|
  {
    hide Do, Enabled, Inv;
    if steps != [] {
      UnfoldRun(s, steps);
      StepLeaves(s, steps[0], v);
      StepKeepsInv(s, steps[0]);
      CallsTakeEffect(Do(s, steps[0]), steps[1..], v);
    }
  }

  predicate Notifies<View, Item>(step: Step<View, Item>) {
    step.Notify? || step.Force?
  }

  predicate TakesPermit<View, Item>(step: Step<View, Item>) {
    step.Wake? || step.ForceWakes?
  }

  function Count<T>(xs: seq<T>, p: T -> bool): nat {
    if xs == [] then 0 else (if p(xs[0]) then 1 else 0) + Count(xs[1..], p)
  }

  function Stored<View, Item>(s: State<View, Item>): nat {
    if s.permit.Some? then 1 else 0
  }

  lemma StepPermit<View, Item>(s: State<View, Item>, step: Step<View, Item>)
    requires s.history != [] && Enabled(s, step)
    ensures Stored(Do(s, step)) == if Notifies(step) then 1 else if TakesPermit(step) then 0 else Stored(s)
    ensures TakesPermit(step) ==> Stored(s) == 1
  {
  }

  /** One notification wakes at most once, and none is lost before a wakeup. */
  lemma {:induction false} PermitsAreSpent<View, Item>(s: State<View, Item>, steps: seq<Step<View, Item>>)
    requires CanRun(s, steps)
    ensures Count(steps, TakesPermit) + Stored(Run(s, steps)) <= Count(steps, Notifies) + Stored(s)
    ensures Count(steps, TakesPermit) == 0 && Count(steps, Notifies) > 0 ==> Stored(Run(s, steps)) == 1
    ensures Count(steps, TakesPermit) == 0 && Stored(s) == 1 ==> Stored(Run(s, steps)) == 1
    decreases |steps|
  {
    hide Do, Enabled, Stored;
    if steps != [] {
      UnfoldRun(s, steps);
      StepPermit(s, steps[0]);
      PermitsAreSpent(Do(s, steps[0]), steps[1..]);
    }
  }

  lemma StepSeen<View, Item>(s: State<View, Item>, step: Step<View, Item>)
    requires s.history != [] && Enabled(s, step) && s.seen == s.version && !step.Publish?
    ensures Do(s, step).seen == Do(s, step).version
  {
  }

  lemma {:induction false} SeenUntilPublished<View, Item>(s: State<View, Item>, steps: seq<Step<View, Item>>)
    requires CanRun(s, steps) && s.seen == s.version && forall i :: 0 <= i < |steps| ==> !steps[i].Publish?
    ensures Run(s, steps).seen == Run(s, steps).version
    decreases |steps|
  {
    hide Do, Enabled;
    if steps != [] {
      UnfoldRun(s, steps);
      StepSeen(s, steps[0]);
      SeenUntilPublished(Do(s, steps[0]), steps[1..]);
    }
  }

  /** A task that has read the list, or was woken by it, is woken by the list only once a new one is published. */
  lemma OnlyNewsWakes<View, Item>(s: State<View, Item>, step: Step<View, Item>, steps: seq<Step<View, Item>>)
    requires s.history != [] && Enabled(s, step) && (step.Start? || step.ListWakes?) && CanRun(Do(s, step), steps)
    requires forall i :: 0 <= i < |steps| ==> !steps[i].Publish?
    ensures !Enabled(Run(Do(s, step), steps), ListWakes)
  {
    SeenUntilPublished(Do(s, step), steps);
  }

  // ----- How many requests a task still starts -----

  /** A request the task has already been cleared for. */
  function Committed<View, Item>(s: State<View, Item>): nat {
    if s.pc == Cleared then 1 else 0
  }

  /** Whether the step lets a gated task pass. */
  predicate Admits<View, Item>(s: State<View, Item>, step: Step<View, Item>) {
    step.ReadCounter? && step.index < |s.history| && s.history[step.index] > 0
  }

  /** Whether the step takes a clearance away without a request. */
  predicate Wastes<View, Item>(s: State<View, Item>, step: Step<View, Item>) {
    s.pc == Cleared && (step.Abort? || (step.Start? && FindsNothing(s)))
  }

  ghost function Admissions<View, Item>(s: State<View, Item>, steps: seq<Step<View, Item>>): nat
    requires CanRun(s, steps)
    decreases |steps|
  {
    if steps == [] then 0
    else (if Admits(s, steps[0]) then 1 else 0) + Admissions(Do(s, steps[0]), steps[1..])
  }

  ghost function Wasted<View, Item>(s: State<View, Item>, steps: seq<Step<View, Item>>): nat
    requires CanRun(s, steps)
    decreases |steps|
  {
    if steps == [] then 0
    else (if Wastes(s, steps[0]) then 1 else 0) + Wasted(Do(s, steps[0]), steps[1..])
  }

  lemma StepBalance<View, Item>(s: State<View, Item>, step: Step<View, Item>)
    requires s.gated && s.history != [] && Enabled(s, step)
    ensures var t := Do(s, step);
            && t.gated && t.history != []
            && t.requests + Committed(t) + (if Wastes(s, step) then 1 else 0)
            == s.requests + Committed(s) + (if Admits(s, step) then 1 else 0)
  {
  }

  /** Conservation: every clearance given becomes a request, is still held, or was taken away. */
  lemma {:induction false} ClearancesBalance<View, Item>(s: State<View, Item>, steps: seq<Step<View, Item>>)
    requires s.gated && CanRun(s, steps)
    ensures Run(s, steps).requests + Committed(Run(s, steps)) + Wasted(s, steps)
         == s.requests + Committed(s) + Admissions(s, steps)
    decreases |steps|
  {
    hide Do, Enabled, Committed, Admits, Wastes;
    if steps != [] {
      UnfoldRun(s, steps);
      StepBalance(s, steps[0]);
      ClearancesBalance(Do(s, steps[0]), steps[1..]);
    }
  }

  lemma UnfoldRun<View, Item>(s: State<View, Item>, steps: seq<Step<View, Item>>)
    requires CanRun(s, steps) && steps != []
    ensures s.history != [] && Enabled(s, steps[0]) && CanRun(Do(s, steps[0]), steps[1..])
    ensures Run(s, steps) == Run(Do(s, steps[0]), steps[1..])
  {
  }

  /** Reads of counter values older than history index `k`. */
  ghost function StaleReads<View, Item>(steps: seq<Step<View, Item>>, k: nat): nat {
    if steps == [] then 0
    else (if steps[0].ReadCounter? && steps[0].index < k then 1 else 0) + StaleReads(steps[1..], k)
  }

  ghost predicate NobodySubscribes<View, Item>(steps: seq<Step<View, Item>>) {
    forall i :: 0 <= i < |steps| ==> !steps[i].Subscribe?
  }

  lemma HistoryStands<View, Item>(s: State<View, Item>, step: Step<View, Item>)
    requires s.gated && s.history != [] && Last(s.history) == 0 && Enabled(s, step) && !step.Subscribe?
    ensures Do(s, step).history == s.history && Do(s, step).gated
    ensures Admits(s, step) ==> step.ReadCounter? && step.index < |s.history| - 1
  {
  }

  lemma {:induction false} AdmissionsAreStale<View, Item>(s: State<View, Item>, steps: seq<Step<View, Item>>)
    requires s.gated && s.history != [] && Last(s.history) == 0
    requires CanRun(s, steps) && NobodySubscribes(steps)
    ensures Admissions(s, steps) <= StaleReads(steps, |s.history| - 1)
    decreases |steps|
  {
    hide Do, Enabled, Admits;
    if steps != [] {
      UnfoldRun(s, steps);
      assert !steps[0].Subscribe?;
      HistoryStands(s, steps[0]);
      AdmissionsAreStale(Do(s, steps[0]), steps[1..]);
    }
  }

  /**
   Once the last subscriber is gone and none returns, a gated task starts
   exactly the requests it was cleared for: the one it is committed to and one
   for each later read of a positive, hence outdated, counter value, less those
   still to come and those taken away. So it starts at most one more if and only
   if these come to at most one; in particular when no outdated value is read.
   */
  lemma QuietAfterLastSubscriber<View, Item>(s: State<View, Item>, steps: seq<Step<View, Item>>)
    requires s.gated && s.history != [] && Last(s.history) == 0
    requires CanRun(s, steps) && NobodySubscribes(steps)
    ensures var t := Run(s, steps);
            && t.requests + Committed(t) + Wasted(s, steps) == s.requests + Committed(s) + Admissions(s, steps)
            && (t.requests <= s.requests + 1
                <==> Committed(s) + Admissions(s, steps) <= 1 + Committed(t) + Wasted(s, steps))
            && Admissions(s, steps) <= StaleReads(steps, |s.history| - 1)
            && t.requests + Committed(t) <= s.requests + Committed(s) + StaleReads(steps, |s.history| - 1)
            && (StaleReads(steps, |s.history| - 1) == 0 ==> t.requests <= s.requests + 1)
  {
    hide Run, Admissions, Wasted, StaleReads;
    ClearancesBalance(s, steps);
    AdmissionsAreStale(s, steps);
  }

  // ----- At most how many, exactly -----

  /** The last history index with a positive value, -1 if there is none. */
  ghost function LastPositive(h: seq<nat>): (i: int)
    ensures -1 <= i < |h| && (i >= 0 ==> h[i] > 0) && forall j :: i < j < |h| ==> h[j] == 0
  {
    if h == [] then -1 else if h[|h| - 1] > 0 then |h| - 1 else LastPositive(h[..|h| - 1])
  }

  /** Nobody is subscribed any more. */
  predicate Deserted<View, Item>(s: State<View, Item>) {
    s.gated && s.history != [] && Last(s.history) == 0 && Known(s)
  }

  /** The next round cannot but show the task that nobody is left, or needs a new list, which does. */
  ghost predicate RoundShows<View, Item>(s: State<View, Item>) {
    FindsNothing(s) || LastPositive(s.history) < ListTells(s) || LastPositive(s.history) < s.receivedAt
  }

  /** What may follow at the gate: nothing, one round, or one for each free slot and one that waits for a slot. */
  ghost function FromGate<View, Item>(s: State<View, Item>, floor: nat, free: nat): nat {
    if LastPositive(s.history) < floor then 0 else if RoundShows(s) then 1 else free + 1
  }

  /** The largest number of requests that may still be started if nobody subscribes. */
  ghost function Most<View, Item>(s: State<View, Item>): nat {
    match s.pc
    case Top => FromGate(s, s.floor, s.free)
    case Sleeping => FromGate(s, s.floor, s.free)
    case Waiting => FromGate(s, s.floor, s.free)
    case WillPark => if s.permit.None? then 0 else FromGate(s, Max(s.floor, s.permit.value), s.free)
    case Parked => if s.permit.None? then 0 else FromGate(s, Max(s.floor, s.permit.value), s.free)
    case Cleared => if LastPositive(s.history) < s.floor then 1 else FromGate(s, s.floor, s.free)
    case Fetching => if s.free == 0 then 0 else FromGate(s, Max(s.floor, s.receivedAt), s.free - 1)
    case Sending => if s.free == 0 then 0 else FromGate(s, Max(s.floor, s.receivedAt), s.free - 1)
    case Exited => 0
  }

  lemma DesertedStays<View, Item>(s: State<View, Item>, step: Step<View, Item>)
    requires Deserted(s) && Enabled(s, step) && !step.Subscribe?
    ensures Deserted(Do(s, step)) && Do(s, step).history == s.history && Do(s, step).capacity == s.capacity
  {
  }

  /** A step gains nothing: a request started is one less to come. */
  ghost predicate Spends<View, Item>(s: State<View, Item>, t: State<View, Item>) {
    t.requests + Most(t) <= s.requests + Most(s)
  }

  lemma GateSpends<View, Item>(s: State<View, Item>, step: Step<View, Item>)
    requires Deserted(s) && Enabled(s, step) && (step.ReadCounter? || step.Park? || step.Learn?)
    ensures Spends(s, Do(s, step))
  {
    hide LastPositive;
  }

  lemma WakingSpends<View, Item>(s: State<View, Item>, step: Step<View, Item>)
    requires Deserted(s) && Enabled(s, step)
    requires step.Wake? || step.TimerFires? || step.ForceWakes? || step.ListWakes?
    ensures Spends(s, Do(s, step))
  {
    hide LastPositive;
  }

  lemma FetchSpends<View, Item>(s: State<View, Item>, step: Step<View, Item>)
    requires Deserted(s) && Enabled(s, step)
    requires step.Start? || step.Finish? || step.Send? || step.SendToClosed? || step.Abort?
    ensures Spends(s, Do(s, step))
  {
    hide LastPositive;
  }

  lemma EventSpends<View, Item>(s: State<View, Item>, step: Step<View, Item>)
    requires Deserted(s) && Enabled(s, step) && (step.Done? || step.OthersSend?)
    ensures Spends(s, Do(s, step))
  {
    hide LastPositive;
  }

  lemma NotifyingSpends<View, Item>(s: State<View, Item>, step: Step<View, Item>)
    requires Deserted(s) && Enabled(s, step) && (step.Unsubscribe? || step.Force? || step.Notify?)
    ensures Spends(s, Do(s, step))
  {
    hide LastPositive;
  }

  lemma ReceiveShows<View, Item>(s: State<View, Item>)
    requires Deserted(s) && Enabled(s, Receive)
    ensures RoundShows(Do(s, Receive)) && Spends(s, Do(s, Receive)) && Do(s, Receive).requests == s.requests
  {
    hide LastPositive;
  }

  lemma PublishShows<View, Item>(s: State<View, Item>, list: seq<Item>)
    requires Deserted(s) && Enabled(s, Publish(list))
    ensures var t := Do(s, Publish(list)); RoundShows(t) && Spends(s, t) && t.requests == s.requests
  {
    var t := Do(s, Publish(list));
    assert t == s.(published := list, version := t.version, publishedAt := |s.history| - 1, ui := t.ui);
    hide LastPositive, FindsNothing, Do, Most;
    PublishedLower(s, t);
  }

  lemma PublishedLower<View, Item>(s: State<View, Item>, t: State<View, Item>)
    requires t == s.(published := t.published, version := t.version, publishedAt := t.publishedAt, ui := t.ui)
    requires RoundShows(t)
    ensures Most(t) <= Most(s)
  {
    hide LastPositive, RoundShows;
  }

  lemma ShownOnce<View, Item>(s: State<View, Item>)
    requires Deserted(s) && RoundShows(s)
    ensures Most(s) <= 1
  {
    hide LastPositive, RoundShows;
  }

  lemma StepSpends<View, Item>(s: State<View, Item>, step: Step<View, Item>)
    requires Deserted(s) && Enabled(s, step) && !step.Subscribe?
    ensures Spends(s, Do(s, step))
  {
    hide Do, Enabled, Deserted, Most;
    Nonempty(s);
    if step.ReadCounter? || step.Park? || step.Learn? {
      GateSpends(s, step);
    } else if step.Wake? || step.TimerFires? || step.ForceWakes? || step.ListWakes? {
      WakingSpends(s, step);
    } else if step.Done? || step.OthersSend? {
      EventSpends(s, step);
    } else if step.Unsubscribe? || step.Force? || step.Notify? {
      NotifyingSpends(s, step);
    } else if step.Receive? {
      ReceiveShows(s);
    } else if step.Publish? {
      PublishShows(s, step.list);
    } else {
      FetchSpends(s, step);
    }
  }

  lemma {:induction false} RunSpends<View, Item>(s: State<View, Item>, steps: seq<Step<View, Item>>)
    requires Deserted(s) && CanRun(s, steps) && NobodySubscribes(steps)
    ensures Run(s, steps).requests <= s.requests + Most(s)
    decreases |steps|
  {
    hide Do, Enabled, Deserted, Most;
    if steps != [] {
      UnfoldRun(s, steps);
      assert !steps[0].Subscribe?;
      DesertedStays(s, steps[0]);
      StepSpends(s, steps[0]);
      RunSpends(Do(s, steps[0]), steps[1..]);
    }
  }

  /** A next step that wastes none of them. */
  ghost function Thrifty<View, Item>(s: State<View, Item>, item: Item): Step<View, Item>
    requires Most(s) > 0
  {
    match s.pc
    case Top => ReadCounter(LastPositive(s.history))
    case Cleared =>
      if !FindsNothing(s) then Start
      else (match s.ui
            case Idle => if s.free == s.capacity then OthersSend else Receive
            case Handling => Publish([item])
            case _ => Notify)
    case WillPark => Park
    case Parked => Wake
    case Fetching => Finish
    case Sending => Send
    case _ => TimerFires
  }

  /** How far the task is from its next request, and what the UI has to do before. */
  function Distance<View, Item>(s: State<View, Item>): nat {
    match s.pc
    case Cleared =>
      if !FindsNothing(s) then 0
      else (match s.ui
            case Idle => if s.free == s.capacity then 4 else 3
            case Handling => 1
            case _ => 2)
    case Top => 5
    case Sleeping => 6
    case Waiting => 6
    case Parked => 6
    case WillPark => 7
    case Sending => 7
    case Fetching => 8
    case Exited => 0
  }

  /** The step leads on and gives away no request. */
  ghost predicate Saves<View, Item>(s: State<View, Item>, t: State<View, Item>) {
    && t.requests + Most(t) == s.requests + Most(s)
    && (Most(t) < Most(s) || (Most(t) == Most(s) && Distance(t) < Distance(s)))
  }

  lemma ThriftyRequest<View, Item>(s: State<View, Item>)
    requires Deserted(s) && s.pc == Cleared && !FindsNothing(s)
    ensures Enabled(s, Start) && Saves(s, Do(s, Start))
  {
    hide LastPositive;
  }

  lemma ThriftyList<View, Item>(s: State<View, Item>, item: Item)
    requires Deserted(s) && s.pc == Cleared && FindsNothing(s)
    ensures var step := Thrifty(s, item); Enabled(s, step) && Saves(s, Do(s, step))
  {
    hide LastPositive;
  }

  lemma ThriftyWay<View, Item>(s: State<View, Item>, item: Item)
    requires Deserted(s) && Most(s) > 0 && s.pc != Cleared
    ensures var step := Thrifty(s, item); Enabled(s, step) && Saves(s, Do(s, step))
  {
    hide LastPositive;
  }

  lemma ThriftyWastesNothing<View, Item>(s: State<View, Item>, item: Item)
    requires Deserted(s) && Most(s) > 0
    ensures var step := Thrifty(s, item); Enabled(s, step) && !step.Subscribe? && Saves(s, Do(s, step))
  {
    hide Do, Enabled, Most, Saves, Deserted, FindsNothing;
    Nonempty(s);
    if s.pc != Cleared {
      ThriftyWay(s, item);
    } else if FindsNothing(s) {
      ThriftyList(s, item);
    } else {
      ThriftyRequest(s);
    }
  }

  lemma {:induction false} RunReachesMost<View, Item>(s: State<View, Item>, item: Item)
    returns (steps: seq<Step<View, Item>>)
    requires Deserted(s)
    ensures CanRun(s, steps) && NobodySubscribes(steps) && Run(s, steps).requests == s.requests + Most(s)
    decreases Most(s), Distance(s)
  {
    hide Do, Enabled, Deserted, Most, Distance, Thrifty;
    if Most(s) == 0 {
      steps := [];
      Nonempty(s);
    } else {
      var step := Thrifty(s, item);
      Nonempty(s);
      ThriftyWastesNothing(s, item);
      DesertedStays(s, step);
      var rest := RunReachesMost(Do(s, step), item);
      StepFirst(s, step, rest);
      steps := [step] + rest;
    }
  }

  lemma Nonempty<View, Item>(s: State<View, Item>)
    requires Deserted(s)
    ensures s.history != []
  {
  }

  lemma StepFirst<View, Item>(s: State<View, Item>, step: Step<View, Item>, rest: seq<Step<View, Item>>)
    requires s.history != [] && Enabled(s, step) && CanRun(Do(s, step), rest)
    requires !step.Subscribe? && NobodySubscribes(rest)
    ensures CanRun(s, [step] + rest) && NobodySubscribes([step] + rest)
    ensures Run(s, [step] + rest) == Run(Do(s, step), rest)
  {
    hide Do, Enabled;
    assert ([step] + rest)[1..] == rest;
  }

  /**
   The exact bound: after the last subscriber has left, no run without a new one
   starts more requests than `Most` says, and some run starts that many. They are
   never more than the channel has slots, and one.
   */
  lemma MostIsExact<View, Item>(s: State<View, Item>, item: Item)
    requires Deserted(s)
    ensures forall steps :: CanRun(s, steps) && NobodySubscribes(steps) ==>
              Run(s, steps).requests <= s.requests + Most(s)
    ensures exists steps :: CanRun(s, steps) && NobodySubscribes(steps)
              && Run(s, steps).requests == s.requests + Most(s)
    ensures Most(s) <= s.capacity + 1
  {
    assert Most(s) <= s.capacity + 1;
    hide Do, Enabled, CanRun, Run, Most, Deserted, NobodySubscribes;
    forall steps | CanRun(s, steps) && NobodySubscribes(steps)
      ensures Run(s, steps).requests <= s.requests + Most(s)
    {
      RunSpends(s, steps);
    }
    var steps := RunReachesMost(s, item);
  }

  /** Where the task stands, it can read a positive value, send, read one again and ask a second time. */
  ghost predicate CanRepeat<View, Item>(s: State<View, Item>) {
    && s.pc != Exited && (Parking(s) ==> s.permit.Some?)
    && s.free >= (if s.pc == Fetching || s.pc == Sending then 2 else 1)
    && !FindsNothing(s)
    && LastPositive(s.history) >= s.floor && LastPositive(s.history) >= ListTells(s)
    && LastPositive(s.history) >= s.receivedAt && (Parking(s) ==> LastPositive(s.history) >= s.permit.value)
  }

  /**
   Whatever comes, a task that everybody has left starts at most one more request
   if and only if it cannot repeat: it has no slot to send to, no list to ask
   for, or no positive counter value is left that is not older than what it
   knows, what the list was published at, and what the UI last received at.
   */
  lemma AtMostOneMoreIff<View, Item>(s: State<View, Item>, item: Item)
    requires Deserted(s)
    ensures (forall steps :: CanRun(s, steps) && NobodySubscribes(steps) ==> Run(s, steps).requests <= s.requests + 1)
            <==> !CanRepeat(s)
  {
    assert CanRepeat(s) <==> Most(s) > 1;
    hide Do, Enabled, CanRun, Run, Most, CanRepeat, Deserted, NobodySubscribes;
    MostIsExact(s, item);
  }

  /**
   It is enough that the UI receives one event, or publishes one list the loop
   reads, after the last subscriber has left: from then on at most one more
   request is started, whatever happened in between.
   */
  lemma {:induction false} OneEventEndsIt<View, Item>(s: State<View, Item>, steps: seq<Step<View, Item>>, k: nat)
    requires Deserted(s) && CanRun(s, steps) && NobodySubscribes(steps)
    requires k < |steps| && (steps[k].Receive? || steps[k].Publish?)
    ensures CanRun(s, steps[..k]) && Run(s, steps).requests <= Run(s, steps[..k]).requests + 1
    decreases |steps|
  {
    hide Do, Enabled, Deserted, Most, NobodySubscribes;
    Nonempty(s);
    UnfoldRun(s, steps);
    assert !steps[0].Subscribe? && NobodySubscribes(steps[1..]) by {
      hide *;
      Unsubscribed(steps);
    }
    DesertedStays(s, steps[0]);
    if k == 0 {
      assert steps[..k] == [];
      if steps[0].Receive? {
        ReceiveShows(s);
      } else {
        PublishShows(s, steps[0].list);
      }
      ShownOnce(Do(s, steps[0]));
      RunSpends(Do(s, steps[0]), steps[1..]);
    } else {
      OneEventEndsIt(Do(s, steps[0]), steps[1..], k - 1);
      assert steps[..k] == [steps[0]] + steps[1..][..k - 1];
      assert NobodySubscribes(steps[1..][..k - 1]) by {
        hide *;
        UnsubscribedPrefix(steps[1..], k - 1);
      }
      StepFirst(s, steps[0], steps[1..][..k - 1]);
    }
  }

  lemma Unsubscribed<View, Item>(steps: seq<Step<View, Item>>)
    requires NobodySubscribes(steps) && steps != []
    ensures !steps[0].Subscribe? && NobodySubscribes(steps[1..])
  {
  }

  lemma UnsubscribedPrefix<View, Item>(steps: seq<Step<View, Item>>, k: nat)
    requires NobodySubscribes(steps) && k <= |steps|
    ensures NobodySubscribes(steps[..k])
  {
  }

  /** An event is sent by someone else and received. */
  function NextEvent<View, Item>(): seq<Step<View, Item>> {
    [OthersSend, Receive]
  }

  function ForList<View, Item>(kind: Kind, item: Item): seq<Step<View, Item>> {
    if kind == FanOut then NextEvent() + [Publish([item]), Done] else []
  }

  /** A view comes and goes; for a fan-out loop a group list is published in between. */
  function ComeAndGo<View, Item>(kind: Kind, view: View, item: Item): seq<Step<View, Item>> {
    [Subscribe(view), Notify] + ([Done] + (ForList(kind, item) + (NextEvent() + [ReadCounter(1), Unsubscribe(view)])))
  }

  lemma Come<View, Item>(s: State<View, Item>, view: View)
    requires Init(s)
    ensures var steps := [Subscribe(view), Notify];
            && CanRun(s, steps) && Run(s, steps) == s.(subscribers := {view}, history := [0, 1], permit := Some(1))
  {
    RunTwo(s, Subscribe(view), Notify);
  }

  lemma GetEvent<View, Item>(s: State<View, Item>)
    requires s.history != [] && s.ui == Idle && 0 < s.free <= s.capacity
    ensures CanRun(s, NextEvent()) && Run(s, NextEvent()) == s.(ui := Handling, receivedAt := |s.history| - 1)
  {
    RunTwo(s, OthersSend, Receive);
  }

  lemma GetList<View, Item>(s: State<View, Item>, item: Item)
    requires s.history != [] && s.ui == Handling && s.kind == FanOut
    ensures var steps := [Publish([item]), Done];
            && CanRun(s, steps)
            && Run(s, steps)
            == s.(published := [item], version := s.version + 1, publishedAt := |s.history| - 1, ui := Idle)
  {
    RunTwo(s, Publish([item]), Done);
  }

  lemma Go<View, Item>(s: State<View, Item>, view: View)
    requires s.history == [0, 1] && s.subscribers == {view} && s.gated && s.pc == Top && s.floor <= 1
    requires s.ui == Handling
    ensures var steps := [ReadCounter(1), Unsubscribe(view)];
            && CanRun(s, steps)
            && Run(s, steps) == s.(subscribers := {}, history := [0, 1, 0], floor := 1, pc := Cleared)
  {
    RunTwo(s, ReadCounter(1), Unsubscribe(view));
  }

  lemma MaybeList<View, Item>(s: State<View, Item>, item: Item)
    requires s.history != [] && s.ui == Idle && 0 < s.free <= s.capacity
    ensures var steps, now := ForList(s.kind, item), |s.history| - 1;
            && CanRun(s, steps)
            && Run(s, steps)
            == if s.kind == FanOut
               then s.(published := [item], version := s.version + 1, publishedAt := now, receivedAt := now)
               else s
  {
    hide Do, Enabled, CanRun, Run, NextEvent;
    if s.kind == FanOut {
      GetEvent(s);
      GetList(Run(s, NextEvent()), item);
      RunsJoin(s, NextEvent(), [Publish([item]), Done]);
    } else {
      StopHere(s);
    }
  }

  /** Each step follows an event received for it, and nothing else happens. */
  lemma ComeAndGoRuns<View, Item>(s0: State<View, Item>, view: View, item: Item)
    requires Init(s0) && s0.gated && s0.free == s0.capacity
    ensures CanRun(s0, ComeAndGo(s0.kind, view, item))
    ensures var s := Run(s0, ComeAndGo(s0.kind, view, item));
            Deserted(s) && s.capacity == s0.capacity && s.requests == 0 && Most(s) == s.capacity + 1
  {
    hide CanRun, Run, NextEvent, ForList, Most;
    var come, list, go := [Subscribe(view), Notify], ForList(s0.kind, item), [ReadCounter(1), Unsubscribe(view)];
    Come(s0, view);
    var s1 := Run(s0, come);
    var s2 := Do(s1, Done);
    assert s2 == s1.(ui := Idle);
    hide Do, Enabled;
    RunOne(s1, Done);
    MaybeList(s2, item);
    var s3 := Run(s2, list);
    GetEvent(s3);
    var s4 := Run(s3, NextEvent());
    Go(s4, view);
    RunsJoin(s3, NextEvent(), go);
    RunsJoin(s2, list, NextEvent() + go);
    RunsJoin(s1, [Done], list + (NextEvent() + go));
    RunsJoin(s0, come, [Done] + (list + (NextEvent() + go)));
    WholeChannel(Run(s4, go));
  }

  lemma WholeChannel<View, Item>(s: State<View, Item>)
    requires s.history == [0, 1, 0] && s.pc == Cleared && s.floor == 1 == s.receivedAt && s.free == s.capacity
    requires ListTells(s) <= 1 && !FindsNothing(s)
    ensures Most(s) == s.capacity + 1
  {
    LastOfThree(s.history);
  }

  lemma LastOfThree(h: seq<nat>)
    requires h == [0, 1, 0]
    ensures LastPositive(h) == 1
  {
  }

  lemma StopHere<View, Item>(s: State<View, Item>)
    requires s.history != []
    ensures CanRun(s, []) && Run(s, []) == s
  {
  }

  lemma RunOne<View, Item>(s: State<View, Item>, a: Step<View, Item>)
    requires s.history != [] && Enabled(s, a) && Do(s, a).history != []
    ensures CanRun(s, [a]) && Run(s, [a]) == Do(s, a)
  {
    hide Do, Enabled;
    assert [a][1..] == [];
    StopHere(Do(s, a));
  }

  lemma RunTwo<View, Item>(s: State<View, Item>, a: Step<View, Item>, b: Step<View, Item>)
    requires s.history != [] && Enabled(s, a)
    requires Do(s, a).history != [] && Enabled(Do(s, a), b) && Do(Do(s, a), b).history != []
    ensures CanRun(s, [a, b]) && Run(s, [a, b]) == Do(Do(s, a), b)
  {
    hide Do, Enabled;
    assert [a, b][1..] == [b];
    RunOne(Do(s, a), b);
  }

  lemma {:induction false} RunsJoin<View, Item>(
    s: State<View, Item>, a: seq<Step<View, Item>>, b: seq<Step<View, Item>>)
    requires CanRun(s, a) && CanRun(Run(s, a), b)
    ensures CanRun(s, a + b) && Run(s, a + b) == Run(Run(s, a), b)
    decreases |a|
  {
    hide Do, Enabled;
    if a == [] {
      assert a + b == b;
    } else {
      UnfoldRun(s, a);
      RunsJoin(Do(s, a[0]), a[1..], b);
      assert (a + b)[0] == a[0] && (a + b)[1..] == a[1..] + b;
    }
  }

  /**
   So the number is reached in an ordinary run from the initial state: a view
   comes and goes, the UI then receives nothing for a while, and loads that go on
   returning the count of before let the task fill the whole channel.
   */
  lemma BurstIsReachable<View, Item>(s0: State<View, Item>, view: View, item: Item)
    returns (burst: seq<Step<View, Item>>)
    requires Init(s0) && s0.gated && s0.free == s0.capacity
    ensures CanRun(s0, ComeAndGo(s0.kind, view, item))
    ensures var s := Run(s0, ComeAndGo(s0.kind, view, item));
            Deserted(s) && CanRun(s, burst) && NobodySubscribes(burst)
            && Run(s, burst).requests == s.requests + s0.capacity + 1
  {
    hide Most, Deserted;
    ComeAndGoRuns(s0, view, item);
    burst := RunReachesMost(Run(s0, ComeAndGo(s0.kind, view, item)), item);
  }
}
