/**
 The bounded event channel and the one task that drains it (src/app/mod.rs:34,
 52, 92-124, 669-692). Anyone may send; a sender that finds no free slot waits, and
 a slot freed by the receiver goes to the sender that has waited longest. The main
 loop receives, and after each cluster update it sends a `ClusterChanged` on the
 same channel before it receives again.

 A slot is taken first and the event pushed later, as a bounded channel of tokio
 does; `granted` are the senders in between.
 */
module EventChannel {
  import opened ClusterSnapshot

  datatype Event = Update(endpoint: ClusterEndpoint) | Changed(endpoint: ClusterEndpoint) | Other

  datatype Ui = Receiving | Announcing(endpoint: ClusterEndpoint)

  datatype State = State(
    capacity: nat,
    queue: seq<Event>,
    granted: seq<Event>,
    waiting: seq<Event>,
    ui: Ui,
    delivered: seq<Event>)   // everything received so far

  datatype Step = Send(event: Event) | Push(index: nat) | Receive | Announce

  function Taken(s: State): nat {
    |s.queue| + |s.granted|
  }

  predicate Enabled(s: State, step: Step) {
    match step
    case Send(_) => true
    case Push(i) => i < |s.granted|
    case Receive => s.ui.Receiving? && s.queue != []
    case Announce => s.ui.Announcing? && Taken(s) < s.capacity
  }

  function Do(s: State, step: Step): State
    requires Enabled(s, step)
  {
    match step
    case Send(e) =>
      if Taken(s) < s.capacity then s.(granted := s.granted + [e]) else s.(waiting := s.waiting + [e])
    case Push(i) => s.(queue := s.queue + [s.granted[i]], granted := s.granted[..i] + s.granted[i + 1..])
    case Receive =>
      var e := s.queue[0];
      var r := s.(queue := s.queue[1..], delivered := s.delivered + [e],
                  ui := if e.Update? then Announcing(e.endpoint) else Receiving);
      if s.waiting == [] then r
      else r.(granted := s.granted + [s.waiting[0]], waiting := s.waiting[1..])
    case Announce => s.(queue := s.queue + [Changed(s.ui.endpoint)], ui := Receiving)
  }

  predicate Init(s: State) {
    s.queue == [] && s.granted == [] && s.waiting == [] && s.ui.Receiving? && s.delivered == [] && s.capacity > 0
  }

  ghost predicate CanRun(s: State, steps: seq<Step>)
    decreases |steps|
  {
    steps == [] || (Enabled(s, steps[0]) && CanRun(Do(s, steps[0]), steps[1..]))
  }

  ghost function Run(s: State, steps: seq<Step>): State
    requires CanRun(s, steps)
    decreases |steps|
  {
    if steps == [] then s else Run(Do(s, steps[0]), steps[1..])
  }

  /** No more slots are taken than there are, and senders wait only while all are. */
  predicate Inv(s: State) {
    Taken(s) <= s.capacity && s.capacity > 0 && (s.waiting != [] ==> Taken(s) == s.capacity)
  }

  lemma StepKeepsInv(s: State, step: Step)
    requires Inv(s) && Enabled(s, step)
    ensures Inv(Do(s, step)) && Do(s, step).capacity == s.capacity
  {
  }

  lemma {:induction false} RunKeepsInv(s: State, steps: seq<Step>)
    requires Inv(s) && CanRun(s, steps)
    ensures Inv(Run(s, steps))
    decreases |steps|
  {
    hide Inv, Do, Enabled;
    if steps != [] {
      StepKeepsInv(s, steps[0]);
      RunKeepsInv(Do(s, steps[0]), steps[1..]);
    }
  }

  // ----- Nothing is lost or repeated -----

  function Sent(steps: seq<Step>): multiset<Event> {
    if steps == [] then multiset{}
    else (if steps[0].Send? then multiset{steps[0].event} else multiset{}) + Sent(steps[1..])
  }

  /** The updates received and already announced. */
  ghost function Announced(s: State, steps: seq<Step>): multiset<Event>
    requires CanRun(s, steps)
    decreases |steps|
  {
    if steps == [] then multiset{}
    else (if steps[0].Announce? then multiset{Changed(s.ui.endpoint)} else multiset{})
         + Announced(Do(s, steps[0]), steps[1..])
  }

  function All(s: State): multiset<Event> {
    multiset(s.delivered) + multiset(s.queue) + multiset(s.granted) + multiset(s.waiting)
  }

  lemma HeadAndTail(xs: seq<Event>)
    requires xs != []
    ensures multiset(xs) == multiset{xs[0]} + multiset(xs[1..])
  {
    assert xs == [xs[0]] + xs[1..];
  }

  lemma WithoutOne(xs: seq<Event>, i: nat)
    requires i < |xs|
    ensures multiset(xs) == multiset{xs[i]} + multiset(xs[..i] + xs[i + 1..])
  {
    assert xs == xs[..i] + ([xs[i]] + xs[i + 1..]);
  }

  lemma OneMoves(d: multiset<Event>, q: multiset<Event>, g: multiset<Event>, w: multiset<Event>, x: multiset<Event>,
                 y: multiset<Event>)
    ensures (d + x) + q + (g + y) + w == d + (x + q) + g + (y + w)
    ensures d + (q + x) + g + w == d + q + (x + g) + w
    ensures d + (q + x) + g + w == d + q + (g + x) + w == d + q + g + (w + x) == d + q + g + w + x
  {
  }

  lemma PushConserves(s: State, i: nat)
    requires i < |s.granted|
    ensures All(Do(s, Push(i))) == All(s)
  {
    var t := Do(s, Push(i));
    var x := multiset{s.granted[i]};
    WithoutOne(s.granted, i);
    OneMoves(multiset(s.delivered), multiset(s.queue), multiset(t.granted), multiset(s.waiting), x, multiset{});
  }

  lemma ReceiveConserves(s: State)
    requires Enabled(s, Receive)
    ensures All(Do(s, Receive)) == All(s)
  {
    var t := Do(s, Receive);
    HeadAndTail(s.queue);
    var x := multiset{s.queue[0]};
    var d, q, g, w := multiset(s.delivered), multiset(s.queue[1..]), multiset(s.granted), multiset(t.waiting);
    if s.waiting == [] {
      OneMoves(d, q, g, w, x, multiset{});
    } else {
      HeadAndTail(s.waiting);
      OneMoves(d, q, g, w, x, multiset{s.waiting[0]});
    }
  }

  lemma StepConserves(s: State, step: Step)
    requires Enabled(s, step)
    ensures All(Do(s, step))
         == All(s) + (if step.Send? then multiset{step.event} else multiset{})
            + (if step.Announce? then multiset{Changed(s.ui.endpoint)} else multiset{})
  {
    var d, q, g, w := multiset(s.delivered), multiset(s.queue), multiset(s.granted), multiset(s.waiting);
    match step
    case Push(i) => PushConserves(s, i);
    case Receive => ReceiveConserves(s);
    case Send(e) => OneMoves(d, q, g, w, multiset{e}, multiset{});
    case Announce => OneMoves(d, q, g, w, multiset{Changed(s.ui.endpoint)}, multiset{});
  }

  /** What was delivered, is queued or is on its way in is what was sent and announced. */
  lemma {:induction false} RunConserves(s: State, steps: seq<Step>)
    requires CanRun(s, steps)
    ensures All(Run(s, steps)) == All(s) + Sent(steps) + Announced(s, steps)
    decreases |steps|
  {
    hide Do, Enabled, All;
    if steps != [] {
      StepConserves(s, steps[0]);
      RunConserves(Do(s, steps[0]), steps[1..]);
    }
  }

  /** The events in the order in which they are pushed. */
  ghost function Pushed(s: State, steps: seq<Step>): seq<Event>
    requires CanRun(s, steps)
    decreases |steps|
  {
    if steps == [] then []
    else
      (match steps[0]
       case Push(i) => [s.granted[i]]
       case Announce => [Changed(s.ui.endpoint)]
       case _ => [])
      + Pushed(Do(s, steps[0]), steps[1..])
  }

  lemma StepIsFifo(s: State, step: Step)
    requires Enabled(s, step)
    ensures var t := Do(s, step);
            t.delivered + t.queue == s.delivered + s.queue + (match step
                                                              case Push(i) => [s.granted[i]]
                                                              case Announce => [Changed(s.ui.endpoint)]
                                                              case _ => [])
  {
    if step.Receive? {
      assert s.queue == [s.queue[0]] + s.queue[1..];
    }
  }

  /** Events are delivered in the order in which they were pushed. */
  lemma {:induction false} RunIsFifo(s: State, steps: seq<Step>)
    requires CanRun(s, steps)
    ensures Run(s, steps).delivered + Run(s, steps).queue == s.delivered + s.queue + Pushed(s, steps)
    decreases |steps|
  {
    hide Do, Enabled;
    if steps == [] {
      assert s.delivered + s.queue + [] == s.delivered + s.queue;
    } else {
      StepIsFifo(s, steps[0]);
      RunIsFifo(Do(s, steps[0]), steps[1..]);
    }
  }

  /** The events that had to wait for a slot, in the order in which they came and in which they got one. */
  ghost function Queued(s: State, steps: seq<Step>): seq<Event>
    requires CanRun(s, steps)
    decreases |steps|
  {
    if steps == [] then []
    else (if steps[0].Send? && Taken(s) >= s.capacity then [steps[0].event] else [])
         + Queued(Do(s, steps[0]), steps[1..])
  }

  /** Those that got one: the last of the senders with a slot after a receive. */
  ghost function HandedOver(s: State, steps: seq<Step>): seq<Event>
    requires CanRun(s, steps)
    decreases |steps|
  {
    if steps == [] then []
    else
      var t := Do(s, steps[0]);
      (if steps[0].Receive? && |t.granted| > |s.granted| then [t.granted[|t.granted| - 1]] else [])
      + HandedOver(t, steps[1..])
  }

  lemma StepQueues(s: State, step: Step)
    requires Enabled(s, step)
    ensures var t := Do(s, step);
            s.waiting + (if step.Send? && Taken(s) >= s.capacity then [step.event] else [])
            == (if step.Receive? && |t.granted| > |s.granted| then [t.granted[|t.granted| - 1]] else []) + t.waiting
  {
  }

  /** A slot that becomes free goes to the sender that has waited longest. */
  lemma {:induction false} WaitersComeFirst(s: State, steps: seq<Step>)
    requires CanRun(s, steps)
    ensures s.waiting + Queued(s, steps) == HandedOver(s, steps) + Run(s, steps).waiting
    decreases |steps|
  {
    hide Do, Enabled;
    if steps == [] {
      assert s.waiting + [] == [] + s.waiting;
    } else {
      var t := Do(s, steps[0]);
      StepQueues(s, steps[0]);
      WaitersComeFirst(t, steps[1..]);
      var came := if steps[0].Send? && Taken(s) >= s.capacity then [steps[0].event] else [];
      var got := if steps[0].Receive? && |t.granted| > |s.granted| then [t.granted[|t.granted| - 1]] else [];
      Regroup(s.waiting, came, Queued(t, steps[1..]));
      Regroup(got, t.waiting, Queued(t, steps[1..]));
      Regroup(got, HandedOver(t, steps[1..]), Run(t, steps[1..]).waiting);
    }
  }

  lemma Regroup<T>(a: seq<T>, b: seq<T>, c: seq<T>)
    ensures a + (b + c) == (a + b) + c
  {
  }

  // ----- The main loop can wait for itself -----

  /** The one task that frees slots waits for one. */
  predicate Jammed(s: State) {
    s.ui.Announcing? && Taken(s) >= s.capacity
  }

  ghost predicate NothingMore(s: State) {
    forall steps :: CanRun(s, steps) ==> Run(s, steps).delivered == s.delivered
  }

  lemma JamStays(s: State, step: Step)
    requires Jammed(s) && Enabled(s, step)
    ensures Jammed(Do(s, step)) && Do(s, step).delivered == s.delivered
  {
  }

  lemma {:induction false} JammedForEver(s: State, steps: seq<Step>)
    requires Jammed(s) && CanRun(s, steps)
    ensures Jammed(Run(s, steps)) && Run(s, steps).delivered == s.delivered
    decreases |steps|
  {
    hide Do, Enabled, Jammed;
    if steps != [] {
      JamStays(s, steps[0]);
      JammedForEver(Do(s, steps[0]), steps[1..]);
    }
  }

  lemma StepFirst(s: State, step: Step, rest: seq<Step>)
    requires Enabled(s, step) && CanRun(Do(s, step), rest)
    ensures CanRun(s, [step] + rest) && Run(s, [step] + rest) == Run(Do(s, step), rest)
  {
    hide Do, Enabled;
    assert ([step] + rest)[1..] == rest;
  }

  /** Unless it is jammed, the loop can get on to another event. */
  lemma {:induction false} OneMoreDelivered(s: State) returns (steps: seq<Step>)
    requires Inv(s) && !Jammed(s)
    ensures CanRun(s, steps) && |Run(s, steps).delivered| > |s.delivered|
    decreases s.ui.Announcing?, s.queue == [], s.granted == []
  {
    hide CanRun, Run;
    if s.ui.Receiving? && s.queue != [] {
      Stop(Do(s, Receive));
      StepFirst(s, Receive, []);
      steps := [Receive] + [];
    } else {
      var step := if s.ui.Announcing? then Announce else if s.granted != [] then Push(0) else Send(Other);
      StepKeepsInv(s, step);
      var rest := OneMoreDelivered(Do(s, step));
      StepFirst(s, step, rest);
      steps := [step] + rest;
    }
  }

  lemma Stop(s: State)
    ensures CanRun(s, []) && Run(s, []) == s
  {
  }

  /** No event is ever handled again if and only if the loop has to announce an update and every slot is taken. */
  lemma NothingMoreIffJammed(s: State)
    requires Inv(s)
    ensures NothingMore(s) <==> Jammed(s)
  {
    hide CanRun, Run, Jammed, Inv;
    if Jammed(s) {
      forall steps | CanRun(s, steps) ensures Run(s, steps).delivered == s.delivered {
        JammedForEver(s, steps);
      }
    } else {
      var steps := OneMoreDelivered(s);
    }
  }

  /**
   The loop receives an update while some sender waits, for the slot just freed
   is that sender's; or a sender takes the last slot between the update and its
   announcement.
   */
  predicate Jams(s: State, step: Step)
    requires Enabled(s, step)
  {
    || (step.Receive? && s.queue[0].Update? && s.waiting != [])
    || (step.Send? && s.ui.Announcing? && Taken(s) + 1 == s.capacity)
  }

  ghost predicate SomeStepJams(s: State, steps: seq<Step>)
    requires CanRun(s, steps)
    decreases |steps|
  {
    steps != [] && (Jams(s, steps[0]) || SomeStepJams(Do(s, steps[0]), steps[1..]))
  }

  lemma StepJamsIff(s: State, step: Step)
    requires Inv(s) && !Jammed(s) && Enabled(s, step)
    ensures Jammed(Do(s, step)) <==> Jams(s, step)
  {
  }

  /** A run ends jammed if and only if one of its steps is of this kind. */
  lemma {:induction false} RunJamsIff(s: State, steps: seq<Step>)
    requires Inv(s) && !Jammed(s) && CanRun(s, steps)
    ensures Jammed(Run(s, steps)) <==> SomeStepJams(s, steps)
    decreases |steps|
  {
    hide Do, Enabled, Inv, Jammed, Jams;
    if steps != [] {
      StepJamsIff(s, steps[0]);
      StepKeepsInv(s, steps[0]);
      if Jams(s, steps[0]) {
        JammedForEver(Do(s, steps[0]), steps[1..]);
      } else {
        RunJamsIff(Do(s, steps[0]), steps[1..]);
      }
    }
  }

  /** One sender that sends `n` events, one after the other. */
  function Sends(n: nat): seq<Step> {
    if n == 0 then [] else [Send(Other), Push(0)] + Sends(n - 1)
  }

  /** An update comes first, then others until the channel is full, and one more that has to wait. */
  function JammingRun(capacity: nat, endpoint: ClusterEndpoint): seq<Step>
    requires capacity > 0
  {
    [Send(Update(endpoint)), Push(0)] + (Sends(capacity - 1) + [Send(Other), Receive])
  }

  predicate Idle(s: State) {
    s.ui.Receiving? && s.granted == [] && s.waiting == []
  }

  lemma SendAndPush(s: State, e: Event)
    requires Idle(s) && |s.queue| < s.capacity
    ensures CanRun(s, [Send(e), Push(0)]) && Run(s, [Send(e), Push(0)]) == s.(queue := s.queue + [e])
  {
    var t := Do(s, Send(e));
    assert Do(t, Push(0)).granted == [];
    RunTwo(s, Send(e), Push(0));
  }

  lemma RunTwo(s: State, a: Step, b: Step)
    requires Enabled(s, a) && Enabled(Do(s, a), b)
    ensures CanRun(s, [a, b]) && Run(s, [a, b]) == Do(Do(s, a), b)
  {
    hide Do, Enabled;
    Stop(Do(Do(s, a), b));
    StepFirst(Do(s, a), b, []);
    StepFirst(s, a, [b] + []);
    assert [a] + ([b] + []) == [a, b];
  }

  lemma {:induction false} RunsJoin(s: State, a: seq<Step>, b: seq<Step>)
    requires CanRun(s, a) && CanRun(Run(s, a), b)
    ensures CanRun(s, a + b) && Run(s, a + b) == Run(Run(s, a), b)
    decreases |a|
  {
    hide Do, Enabled;
    if a == [] {
      assert a + b == b;
    } else {
      RunsJoin(Do(s, a[0]), a[1..], b);
      assert (a + b)[0] == a[0] && (a + b)[1..] == a[1..] + b;
    }
  }

  lemma {:induction false} Filling(s: State, n: nat)
    requires Idle(s) && s.queue != [] && |s.queue| + n <= s.capacity
    ensures CanRun(s, Sends(n))
    ensures var t := Run(s, Sends(n));
            && Idle(t) && t.capacity == s.capacity && |t.queue| == |s.queue| + n
            && t.queue[0] == s.queue[0] && t.delivered == s.delivered
    decreases n
  {
    hide CanRun, Run;
    if n == 0 {
      Stop(s);
    } else {
      SendAndPush(s, Other);
      var t := Run(s, [Send(Other), Push(0)]);
      Filling(t, n - 1);
      RunsJoin(s, [Send(Other), Push(0)], Sends(n - 1));
    }
  }

  /** Whatever the capacity, the loop can jam, and with it the whole program, after handling nothing but one update. */
  lemma JamIsReachable(s0: State, endpoint: ClusterEndpoint)
    requires Init(s0)
    ensures CanRun(s0, JammingRun(s0.capacity, endpoint))
    ensures var s := Run(s0, JammingRun(s0.capacity, endpoint));
            Jammed(s) && s.delivered == [Update(endpoint)] && NothingMore(s)
  {
    hide CanRun, Run, NothingMore;
    var first, last := [Send(Update(endpoint)), Push(0)], [Send(Other), Receive];
    SendAndPush(s0, Update(endpoint));
    var s1 := Run(s0, first);
    Filling(s1, s0.capacity - 1);
    var s2 := Run(s1, Sends(s0.capacity - 1));
    RunTwo(s2, Send(Other), Receive);
    RunsJoin(s1, Sends(s0.capacity - 1), last);
    RunsJoin(s0, first, Sends(s0.capacity - 1) + last);
    NothingMoreIffJammed(Run(s2, last));
  }
}
