/**
 The bulletin cursor, the event channel and the ring over whole runs
 (src/cluster/fetcher_tasks.rs:250-304, src/cluster/store.rs:342-354, 512-522):
 the fetch task loads the cursor, asks the server for newer bulletins, advances
 the cursor and sends the batch; the UI task merges batches in channel order.

 A context switch replaces store, ring and task but keeps the channel
 (src/app/state/mod.rs:2660-2697, src/app/mod.rs:575-579). It only asks the runtime
 to abort the old task: one that is in the middle of a poll at that moment runs
 on to its next wait. Such an orphan may still take the answer to its request and
 send what it holds, whenever it likes; its cursor is its own. A request is never
 answered within the poll that issues it, so an orphan asks no more.
 */
module BulletinPipeline {
  import opened BulletinRing
  import opened Wrappers

  datatype Update = Batch(bulletins: seq<Bulletin>) | FetchFailed

  datatype Task = AtTop | Asking(after: int) | Holding(update: Update)

  datatype State = State(
    cursor: int, task: Task, channel: seq<Update>,
    orphans: seq<Task>,   // aborted tasks that may not have stopped yet
    buf: seq<Bulletin>, capacity: nat, lastId: Option<int>,
    log: seq<Bulletin>)   // every bulletin merged into the current ring, never trimmed

  datatype Step =
    | LoadCursor | Respond(update: Update) | Send | Receive | SwitchContext(midPoll: bool)
    | OrphanResponds(index: nat, update: Update) | OrphanSends(index: nat) | OrphanStops(index: nat)

  /** How much the server is trusted with: nothing, positive ids, or new distinct positive ids only. */
  datatype Trust = AnyServer | PositiveIds | OnlyNewIds

  function Contents(u: Update): seq<Bulletin> {
    match u
    case Batch(bs) => bs
    case FetchFailed => []
  }

  function AllContents(us: seq<Update>): seq<Bulletin> {
    if us == [] then [] else Contents(us[0]) + AllContents(us[1..])
  }

  /** A task that has no bulletins to send and no answer to come. */
  predicate Quiet(task: Task) {
    match task
    case AtTop => true
    case Asking(_) => false
    case Holding(u) => Contents(u) == []
  }

  ghost predicate AllQuiet(tasks: seq<Task>) {
    forall i :: 0 <= i < |tasks| ==> Quiet(tasks[i])
  }

  /** Bulletins fetched by the current task and not merged yet, in merge order. */
  function InFlight(s: State): seq<Bulletin> {
    AllContents(s.channel) + (if s.task.Holding? then Contents(s.task.update) else [])
  }

  ghost predicate DistinctIds(bs: seq<Bulletin>) {
    forall i, j :: 0 <= i < j < |bs| ==> bs[i].id != bs[j].id
  }

  ghost predicate Honest(trust: Trust, after: int, bs: seq<Bulletin>) {
    && (trust != AnyServer ==> forall b :: b in bs ==> b.id > 0)
    && (trust == OnlyNewIds ==> DistinctIds(bs) && forall b :: b in bs ==> b.id > after)
  }

  ghost predicate Enabled(trust: Trust, s: State, step: Step) {
    match step
    case LoadCursor => s.task == AtTop
    case Respond(u) => s.task.Asking? && Honest(trust, s.task.after, Contents(u))
    case Send => s.task.Holding?
    case Receive => s.channel != []
    case SwitchContext(_) => true
    case OrphanResponds(i, u) =>
      i < |s.orphans| && s.orphans[i].Asking? && Honest(trust, s.orphans[i].after, Contents(u))
    case OrphanSends(i) => i < |s.orphans| && s.orphans[i].Holding?
    case OrphanStops(i) => i < |s.orphans|
  }

  /** `max.max(after)`, stored only when the batch is not empty. */
  function Advance(cursor: int, after: int, bs: seq<Bulletin>): int {
    match MaxId(None, bs)
    case Some(m) => if m > after then m else after
    case None => cursor
  }

  /** What the step needs in order to make sense. */
  predicate CanStep(s: State, step: Step) {
    && (step.Respond? ==> s.task.Asking?)
    && (step.Send? ==> s.task.Holding?)
    && (step.Receive? ==> s.channel != [])
    && (step.OrphanResponds? ==> step.index < |s.orphans|)
    && (step.OrphanSends? ==> step.index < |s.orphans| && s.orphans[step.index].Holding?)
    && (step.OrphanStops? ==> step.index < |s.orphans|)
  }

  function Do(s: State, step: Step): State
    requires CanStep(s, step)
  {
    match step
    case LoadCursor => s.(task := Asking(s.cursor))
    case Respond(u) => s.(cursor := Advance(s.cursor, s.task.after, Contents(u)), task := Holding(u))
    case Send => s.(task := AtTop, channel := s.channel + [s.task.update])
    case Receive =>
      var bs := Contents(s.channel[0]);
      s.(channel := s.channel[1..], buf := LastN(s.buf + bs, s.capacity), lastId := MaxId(s.lastId, bs),
         log := s.log + bs)
    case SwitchContext(midPoll) =>
      s.(cursor := 0, task := AtTop, orphans := s.orphans + (if midPoll then [s.task] else []),
         buf := [], lastId := None, log := [])
    case OrphanResponds(i, u) => s.(orphans := s.orphans[i := Holding(u)])
    case OrphanSends(i) => s.(channel := s.channel + [s.orphans[i].update], orphans := Without(s.orphans, i))
    case OrphanStops(i) => s.(orphans := Without(s.orphans, i))
  }

  function Without<T>(xs: seq<T>, i: nat): seq<T>
    requires i < |xs|
  {
    xs[..i] + xs[i + 1..]
  }

  /** A ring that has merged `log`, a task spawned with its cursor taken from the ring, an empty channel. */
  ghost predicate Init(s: State) {
    && s.buf == LastN(s.log, s.capacity) && s.lastId == MaxId(None, s.log)
    && s.cursor == s.lastId.GetOr(0) && s.task == AtTop && s.channel == [] && s.orphans == []
  }

  ghost predicate CanRun(trust: Trust, s: State, steps: seq<Step>)
    decreases |steps|
  {
    steps == []
    || (Enabled(trust, s, steps[0]) && !steps[0].SwitchContext? && CanRun(trust, Do(s, steps[0]), steps[1..]))
  }

  ghost function Run(trust: Trust, s: State, steps: seq<Step>): State
    requires CanRun(trust, s, steps)
    decreases |steps|
  {
    if steps == [] then s else Run(trust, Do(s, steps[0]), steps[1..])
  }

  /** Everything the server answered along the way. */
  function Received(steps: seq<Step>): seq<Bulletin> {
    if steps == [] then []
    else (if steps[0].Respond? then Contents(steps[0].update) else []) + Received(steps[1..])
  }

  // ----- What every step keeps -----

  lemma {:induction false} AllContentsAppend(us: seq<Update>, u: Update)
    ensures AllContents(us + [u]) == AllContents(us) + Contents(u)
  {
    if us == [] {
      assert us + [u] == [u] && [u][1..] == [];
    } else {
      assert (us + [u])[1..] == us[1..] + [u];
      AllContentsAppend(us[1..], u);
    }
  }

  /** Whatever is merged or on its way is exactly what was there before plus the server's answer. */
  lemma StepConserves(trust: Trust, s: State, step: Step)
    requires Enabled(trust, s, step) && !step.SwitchContext? && AllQuiet(s.orphans)
    ensures var t := Do(s, step);
            t.log + InFlight(t) == if step.Respond? then s.log + InFlight(s) + Contents(step.update)
                                   else s.log + InFlight(s)
  {
    hide AllContents, Advance, LastN, MaxId;
    var sent := AllContents(s.channel);
    if step.Send? {
      AllContentsAppend(s.channel, s.task.update);
      assert s.log + (sent + Contents(s.task.update)) == s.log + (sent + Contents(s.task.update) + []);
    } else if step.Receive? {
      FirstContents(s.channel);
      var rest := AllContents(s.channel[1..]) + (if s.task.Holding? then Contents(s.task.update) else []);
      assert s.log + (Contents(s.channel[0]) + rest) == s.log + Contents(s.channel[0]) + rest;
    } else if step.OrphanSends? {
      assert Quiet(s.orphans[step.index]);
      AllContentsAppend(s.channel, s.orphans[step.index].update);
    } else if step.Respond? {
      assert s.log + (sent + Contents(step.update)) == s.log + (sent + []) + Contents(step.update);
    }
  }

  lemma FirstContents(us: seq<Update>)
    requires us != []
    ensures AllContents(us) == Contents(us[0]) + AllContents(us[1..])
  {
  }

  /** The ring is the end of the log, and the task asks from the cursor it will advance. */
  ghost predicate RingInv(s: State) {
    && s.buf == LastN(s.log, s.capacity) && s.lastId == MaxId(None, s.log)
    && (s.task.Asking? ==> s.task.after == s.cursor)
    && AllQuiet(s.orphans)
  }

  ghost predicate Bounded(bs: seq<Bulletin>, cursor: int) {
    forall b :: b in bs ==> b.id <= cursor
  }

  lemma StepKeepsBound(trust: Trust, s: State, step: Step)
    requires RingInv(s) && Enabled(trust, s, step) && !step.SwitchContext?
    requires Bounded(s.log + InFlight(s), s.cursor)
    ensures Bounded(Do(s, step).log + InFlight(Do(s, step)), Do(s, step).cursor)
  {
    hide InFlight;
    StepConserves(trust, s, step);
    if step.Respond? {
      MaxIdIsMaximum(None, Contents(step.update));
    }
  }

  lemma StepKeepsRing(trust: Trust, s: State, step: Step)
    requires RingInv(s) && Enabled(trust, s, step) && !step.SwitchContext?
    ensures RingInv(Do(s, step))
    ensures s.cursor <= Do(s, step).cursor
  {
    OrphansStayQuiet(trust, s, step);
    if step.Receive? {
      var bs := Contents(s.channel[0]);
      LastNAppend(s.log, bs, s.capacity);
      MaxIdConcat(None, s.log, bs);
    } else if step.Respond? {
      MaxIdIsMaximum(None, Contents(step.update));
    }
  }

  /** The cursor is the largest id merged or on its way, from 0 up. */
  ghost predicate CursorIsMax(s: State) {
    && (forall b :: b in s.log + InFlight(s) ==> b.id > 0)
    && s.cursor == MaxId(None, s.log + InFlight(s)).GetOr(0)
  }

  lemma StepKeepsCursor(trust: Trust, s: State, step: Step)
    requires trust != AnyServer && RingInv(s) && CursorIsMax(s)
    requires Enabled(trust, s, step) && !step.SwitchContext?
    ensures CursorIsMax(Do(s, step))
  {
    StepConserves(trust, s, step);
    if step.Respond? {
      var all, bs := s.log + InFlight(s), Contents(step.update);
      MaxIdConcat(None, all, bs);
      MaxIdIsMaximum(None, all);
      MaxIdIsMaximum(None, bs);
      MaxIdIsMaximum(MaxId(None, all), bs);
    }
  }

  lemma DistinctConcat(xs: seq<Bulletin>, ys: seq<Bulletin>, bound: int)
    requires DistinctIds(xs) && DistinctIds(ys) && Bounded(xs, bound)
    requires forall y :: y in ys ==> y.id > bound
    ensures DistinctIds(xs + ys)
  {
    var joined: seq<Bulletin> := xs + ys;
    forall i: int, j: int | 0 <= i < j < |joined| ensures joined[i].id != joined[j].id {
      if i < |xs| <= j {
        assert joined[i] in xs && joined[j] in ys;
      } else if |xs| <= i {
        assert joined[i] == ys[i - |xs|] && joined[j] == ys[j - |xs|];
      }
    }
  }

  lemma StepKeepsDistinct(s: State, step: Step)
    requires RingInv(s) && DistinctIds(s.log + InFlight(s)) && Bounded(s.log + InFlight(s), s.cursor)
    requires Enabled(OnlyNewIds, s, step) && !step.SwitchContext?
    ensures DistinctIds(Do(s, step).log + InFlight(Do(s, step)))
  {
    hide InFlight, DistinctIds;
    StepConserves(OnlyNewIds, s, step);
    if step.Respond? {
      DistinctConcat(s.log + InFlight(s), Contents(step.update), s.cursor);
    }
  }

  // ----- Whole runs -----

  /** What holds in every state of a run, the more the server is trusted the more. */
  ghost predicate Inv(trust: Trust, s: State) {
    && RingInv(s) && Bounded(s.log + InFlight(s), s.cursor)
    && (trust == PositiveIds ==> CursorIsMax(s))
    && (trust == OnlyNewIds ==> DistinctIds(s.log + InFlight(s)))
  }

  lemma StepKeepsInv(trust: Trust, s: State, step: Step)
    requires Inv(trust, s) && Enabled(trust, s, step) && !step.SwitchContext?
    ensures Inv(trust, Do(s, step)) && s.cursor <= Do(s, step).cursor
  {
    hide RingInv, Do, Enabled, InFlight, Bounded, CursorIsMax, DistinctIds;
    StepKeepsRing(trust, s, step);
    StepKeepsBound(trust, s, step);
    if trust == PositiveIds {
      StepKeepsCursor(trust, s, step);
    }
    if trust == OnlyNewIds {
      StepKeepsDistinct(s, step);
    }
  }

  lemma {:induction false} RunKeepsInv(trust: Trust, s: State, steps: seq<Step>)
    requires Inv(trust, s) && CanRun(trust, s, steps)
    ensures Inv(trust, Run(trust, s, steps)) && s.cursor <= Run(trust, s, steps).cursor
    decreases |steps|
  {
    hide Inv, Do;
    if steps != [] {
      StepKeepsInv(trust, s, steps[0]);
      RunKeepsInv(trust, Do(s, steps[0]), steps[1..]);
    }
  }

  lemma OrphansStayQuiet(trust: Trust, s: State, step: Step)
    requires Enabled(trust, s, step) && !step.SwitchContext? && AllQuiet(s.orphans)
    ensures AllQuiet(Do(s, step).orphans)
  {
    assert forall i :: 0 <= i < |s.orphans| ==> Quiet(s.orphans[i]) && !s.orphans[i].Asking?;
  }

  lemma {:induction false} RunConserves(trust: Trust, s: State, steps: seq<Step>)
    requires CanRun(trust, s, steps) && AllQuiet(s.orphans)
    ensures Run(trust, s, steps).log + InFlight(Run(trust, s, steps)) == s.log + InFlight(s) + Received(steps)
    decreases |steps|
  {
    hide Do, Enabled, InFlight, AllQuiet, Contents, Received, Run, CanRun;
    if steps == [] {
      RunNothing(trust, s);
      assert s.log + InFlight(s) + [] == s.log + InFlight(s);
    } else {
      UnfoldRun(trust, s, steps);
      StepConserves(trust, s, steps[0]);
      OrphansStayQuiet(trust, s, steps[0]);
      RunConserves(trust, Do(s, steps[0]), steps[1..]);
      FirstReceived(s.log + InFlight(s), steps);
    }
  }

  lemma RunNothing(trust: Trust, s: State)
    ensures CanRun(trust, s, []) && Run(trust, s, []) == s && Received([]) == []
  {
  }

  lemma UnfoldRun(trust: Trust, s: State, steps: seq<Step>)
    requires CanRun(trust, s, steps) && steps != []
    ensures Enabled(trust, s, steps[0]) && !steps[0].SwitchContext?
    ensures CanStep(s, steps[0]) && CanRun(trust, Do(s, steps[0]), steps[1..])
    ensures Run(trust, s, steps) == Run(trust, Do(s, steps[0]), steps[1..])
  {
  }

  lemma FirstReceived(start: seq<Bulletin>, steps: seq<Step>)
    requires steps != []
    ensures start + Received(steps)
         == (if steps[0].Respond? then start + Contents(steps[0].update) else start) + Received(steps[1..])
  {
  }

  /** Nothing is on its way: all sent updates are merged and no task has bulletins left to send. */
  ghost predicate Drained(s: State) {
    s.channel == [] && !s.task.Holding? && AllQuiet(s.orphans)
  }

  /**
   With no trust in the server: the cursor never moves back and bounds every id
   merged or in flight, what was answered is merged once and in order, and the
   ring is the last `capacity` bulletins ever merged.
   */
  lemma PipelineIsSound(s0: State, steps: seq<Step>)
    requires Init(s0) && CanRun(AnyServer, s0, steps)
    ensures var s := Run(AnyServer, s0, steps);
            && s0.cursor <= s.cursor
            && (forall b :: b in s.log + InFlight(s) ==> b.id <= s.cursor)
            && s.log + InFlight(s) == s0.log + Received(steps)
            && s.buf == LastN(s.log, s.capacity)
            && s.lastId == MaxId(None, s.log)
  {
    MaxIdIsMaximum(None, s0.log);
    assert s0.log + InFlight(s0) == s0.log;
    RunKeepsInv(AnyServer, s0, steps);
    RunConserves(AnyServer, s0, steps);
  }

  /** With positive ids, a drained pipeline has the cursor at the ring's `last_id`. */
  lemma DrainedCursorIsLastId(s0: State, steps: seq<Step>)
    requires Init(s0) && CanRun(PositiveIds, s0, steps)
    requires forall b :: b in s0.log ==> b.id > 0
    requires Drained(Run(PositiveIds, s0, steps))
    ensures Run(PositiveIds, s0, steps).cursor == Run(PositiveIds, s0, steps).lastId.GetOr(0)
  {
    MaxIdIsMaximum(None, s0.log);
    assert s0.log + InFlight(s0) == s0.log;
    RunKeepsInv(PositiveIds, s0, steps);
    var s := Run(PositiveIds, s0, steps);
    assert s.log + InFlight(s) == s.log;
  }

  /** When the server answers with new distinct ids only, no bulletin is merged twice. */
  lemma NoBulletinTwice(s0: State, steps: seq<Step>)
    requires Init(s0) && CanRun(OnlyNewIds, s0, steps) && DistinctIds(s0.log)
    ensures DistinctIds(Run(OnlyNewIds, s0, steps).log)
  {
    MaxIdIsMaximum(None, s0.log);
    assert s0.log + InFlight(s0) == s0.log;
    RunKeepsInv(OnlyNewIds, s0, steps);
    var s := Run(OnlyNewIds, s0, steps);
    var all := s.log + InFlight(s);
    assert forall i :: 0 <= i < |s.log| ==> s.log[i] == all[i];
  }

  // ----- Across a context switch -----

  /** The cursor matches the ring in every drained state that can follow. */
  ghost predicate AlwaysAgrees(s: State) {
    forall steps :: CanRun(PositiveIds, s, steps) && Drained(Run(PositiveIds, s, steps)) ==>
      Run(PositiveIds, s, steps).cursor == Run(PositiveIds, s, steps).lastId.GetOr(0)
  }

  /** No bulletin is ever merged twice, if each request is answered with new distinct ids. */
  ghost predicate NeverRepeats(s: State) {
    forall steps :: CanRun(OnlyNewIds, s, steps) ==> DistinctIds(Run(OnlyNewIds, s, steps).log)
  }

  /** A new store and task: nothing merged, asking from 0. */
  predicate Blank(s: State) {
    s.cursor == 0 && s.task == AtTop && s.buf == [] && s.lastId == None && s.log == []
  }

  /** Nothing can reach the ring but from its own task. */
  ghost predicate Sealed(s: State) {
    AllContents(s.channel) == [] && AllQuiet(s.orphans)
  }

  /** Ids are positive, as the server issues them. */
  ghost predicate PositiveInFlight(s: State) {
    && (forall b :: b in AllContents(s.channel) ==> b.id > 0)
    && (forall i, b :: 0 <= i < |s.orphans| && s.orphans[i].Holding? && b in Contents(s.orphans[i].update) ==> b.id > 0)
  }

  lemma StopHere(trust: Trust, s: State)
    ensures CanRun(trust, s, []) && Run(trust, s, []) == s
  {
  }

  lemma StepFirst(trust: Trust, s: State, step: Step, rest: seq<Step>)
    requires Enabled(trust, s, step) && !step.SwitchContext? && CanRun(trust, Do(s, step), rest)
    ensures CanRun(trust, s, [step] + rest)
    ensures Run(trust, s, [step] + rest) == Run(trust, Do(s, step), rest)
  {
    hide Do, Enabled;
    assert ([step] + rest)[1..] == rest;
  }

  lemma {:induction false} RunsJoin(trust: Trust, s: State, a: seq<Step>, b: seq<Step>)
    requires CanRun(trust, s, a) && CanRun(trust, Run(trust, s, a), b)
    ensures CanRun(trust, s, a + b) && Run(trust, s, a + b) == Run(trust, Run(trust, s, a), b)
    decreases |a|
  {
    hide Do, Enabled;
    if a == [] {
      assert a + b == b;
    } else {
      UnfoldRun(trust, s, a);
      RunsJoin(trust, Do(s, a[0]), a[1..], b);
      StepFirst(trust, s, a[0], a[1..] + b);
      assert a + b == [a[0]] + (a[1..] + b);
    }
  }

  lemma OneStops(trust: Trust, s: State)
    requires s.orphans != []
    ensures Enabled(trust, s, OrphanStops(0)) && Do(s, OrphanStops(0)) == s.(orphans := s.orphans[1..])
  {
  }

  lemma OneMerged(trust: Trust, s: State)
    requires s.channel != []
    ensures Enabled(trust, s, Receive)
    ensures var t := Do(s, Receive);
            && t.channel == s.channel[1..] && t.orphans == s.orphans && t.task == s.task && t.cursor == s.cursor
            && t.log + AllContents(t.channel) == s.log + AllContents(s.channel)
            && MaxId(t.lastId, AllContents(t.channel)) == MaxId(s.lastId, AllContents(s.channel))
  {
    hide MaxId, LastN;
    MaxIdConcat(s.lastId, Contents(s.channel[0]), AllContents(s.channel[1..]));
  }

  lemma NothingLeft(trust: Trust, s: State)
    requires s.orphans == [] && s.channel == [] && !s.task.Holding?
    ensures CanRun(trust, s, []) && Run(trust, s, []) == s && Drained(s)
    ensures s.log + AllContents(s.channel) == s.log && MaxId(s.lastId, AllContents(s.channel)) == s.lastId
  {
  }

  /** The orphans stop, the UI merges what is queued, and the cursor has not moved. */
  lemma {:induction false} DrainMergesChannel(trust: Trust, s: State) returns (steps: seq<Step>)
    requires !s.task.Holding?
    ensures CanRun(trust, s, steps)
    ensures var t := Run(trust, s, steps);
            && Drained(t) && t.cursor == s.cursor && t.log == s.log + AllContents(s.channel)
            && t.lastId == MaxId(s.lastId, AllContents(s.channel))
    decreases |s.orphans| + |s.channel|
  {
    hide CanRun, Run, Do, Enabled, MaxId, AllContents, Drained;
    if s.orphans != [] {
      OneStops(trust, s);
      var rest := DrainMergesChannel(trust, Do(s, OrphanStops(0)));
      StepFirst(trust, s, OrphanStops(0), rest);
      steps := [OrphanStops(0)] + rest;
    } else if s.channel != [] {
      OneMerged(trust, s);
      var rest := DrainMergesChannel(trust, Do(s, Receive));
      StepFirst(trust, s, Receive, rest);
      steps := [Receive] + rest;
    } else {
      steps := [];
      NothingLeft(trust, s);
    }
  }

  /** Unless a blank state is sealed, bulletins from elsewhere can get into its channel. */
  lemma ForeignArrives(trust: Trust, s: State) returns (steps: seq<Step>)
    requires Blank(s) && PositiveInFlight(s) && !Sealed(s)
    ensures CanRun(trust, s, steps)
    ensures var t := Run(trust, s, steps);
            Blank(t) && AllContents(t.channel) != [] && forall b :: b in AllContents(t.channel) ==> b.id > 0
  {
    hide CanRun, Run;
    if AllContents(s.channel) != [] {
      steps := [];
      StopHere(trust, s);
    } else {
      var i :| 0 <= i < |s.orphans| && !Quiet(s.orphans[i]);
      if s.orphans[i].Holding? {
        steps := HolderSends(trust, s, i);
      } else {
        var after := s.orphans[i].after;
        var answer := OrphanResponds(i, Batch([Bulletin(if after > 0 then after + 1 else 1, "")]));
        var rest := HolderSends(trust, Do(s, answer), i);
        StepFirst(trust, s, answer, rest);
        steps := [answer] + rest;
      }
    }
  }

  lemma HolderSends(trust: Trust, s: State, i: nat) returns (steps: seq<Step>)
    requires Blank(s) && AllContents(s.channel) == []
    requires i < |s.orphans| && s.orphans[i].Holding? && Contents(s.orphans[i].update) != []
    requires forall b :: b in Contents(s.orphans[i].update) ==> b.id > 0
    ensures CanRun(trust, s, steps)
    ensures var t := Run(trust, s, steps);
            Blank(t) && AllContents(t.channel) != [] && forall b :: b in AllContents(t.channel) ==> b.id > 0
  {
    hide CanRun, Run;
    var t := Do(s, OrphanSends(i));
    AllContentsAppend(s.channel, s.orphans[i].update);
    StopHere(trust, t);
    StepFirst(trust, s, OrphanSends(i), []);
    steps := [OrphanSends(i)] + [];
  }

  /** Merging them puts the ring ahead of the cursor. */
  lemma ForeignDisagrees(s: State)
    requires Blank(s) && PositiveInFlight(s) && !Sealed(s)
    ensures !AlwaysAgrees(s)
  {
    hide CanRun, Run, Drained;
    var arrive := ForeignArrives(PositiveIds, s);
    var t := Run(PositiveIds, s, arrive);
    var drain := DrainMergesChannel(PositiveIds, t);
    RunsJoin(PositiveIds, s, arrive, drain);
    MaxIdIsMaximum(None, AllContents(t.channel));
  }

  /** And the new task, asking from 0, may be sent them again. */
  lemma ForeignRepeats(s: State)
    requires Blank(s) && PositiveInFlight(s) && !Sealed(s)
    ensures !NeverRepeats(s)
  {
    hide CanRun, Run, Drained;
    var arrive := ForeignArrives(OnlyNewIds, s);
    var t := Run(OnlyNewIds, s, arrive);
    var b := AllContents(t.channel)[0];
    var again := FetchOne(t, b);
    var u := Run(OnlyNewIds, t, again);
    var drain := DrainMergesChannel(OnlyNewIds, u);
    RunsJoin(OnlyNewIds, t, again, drain);
    RunsJoin(OnlyNewIds, s, arrive, again + drain);
    ghost var log := Run(OnlyNewIds, s, arrive + (again + drain)).log;
    assert log[0] == b == log[|log| - 1];
  }

  lemma FetchOne(s: State, b: Bulletin) returns (steps: seq<Step>)
    requires Blank(s) && b.id > 0
    ensures CanRun(OnlyNewIds, s, steps)
    ensures var t := Run(OnlyNewIds, s, steps);
            !t.task.Holding? && t.log == [] && AllContents(t.channel) == AllContents(s.channel) + [b]
  {
    hide CanRun, Run;
    steps := [LoadCursor, Respond(Batch([b])), Send];
    ThreeSteps(OnlyNewIds, s, b);
    AllContentsAppend(s.channel, Batch([b]));
  }

  /** One fetch from the top, with what the states on the way are. */
  lemma ThreeSteps(trust: Trust, s0: State, b: Bulletin)
    requires s0.task == AtTop && Honest(trust, s0.cursor, [b])
    ensures var ask, answer := LoadCursor, Respond(Batch([b]));
            var s1 := s0.(task := Asking(s0.cursor));
            var s2 := Do(s1, answer);
            && CanRun(trust, s0, [ask]) && Run(trust, s0, [ask]) == s1
            && CanRun(trust, s0, [ask, answer]) && Run(trust, s0, [ask, answer]) == s2
            && CanRun(trust, s0, [ask, answer, Send]) && Run(trust, s0, [ask, answer, Send]) == Do(s2, Send)
  {
    hide CanRun, Run, Advance;
    var ask, answer := LoadCursor, Respond(Batch([b]));
    var s1 := Do(s0, ask);
    var s2 := Do(s1, answer);
    assert [ask] + [] == [ask] && [ask] + [answer] == [ask, answer] && [ask] + [answer, Send] == [ask, answer, Send];
    assert [answer] + [] == [answer] && [answer] + [Send] == [answer, Send] && [Send] + [] == [Send];
    StopHere(trust, s1);
    StopHere(trust, s2);
    StopHere(trust, Do(s2, Send));
    StepFirst(trust, s2, Send, []);
    StepFirst(trust, s1, answer, []);
    StepFirst(trust, s1, answer, [Send]);
    StepFirst(trust, s0, ask, []);
    StepFirst(trust, s0, ask, [answer]);
    StepFirst(trust, s0, ask, [answer, Send]);
  }

  lemma SealedAgrees(s: State)
    requires Blank(s) && Sealed(s)
    ensures AlwaysAgrees(s)
  {
    assert s.log + InFlight(s) == [];
    forall steps | CanRun(PositiveIds, s, steps) && Drained(Run(PositiveIds, s, steps))
      ensures Run(PositiveIds, s, steps).cursor == Run(PositiveIds, s, steps).lastId.GetOr(0)
    {
      RunKeepsInv(PositiveIds, s, steps);
      var t := Run(PositiveIds, s, steps);
      assert t.log + InFlight(t) == t.log;
    }
  }

  lemma SealedNeverRepeats(s: State)
    requires Blank(s) && Sealed(s)
    ensures NeverRepeats(s)
  {
    assert s.log + InFlight(s) == [];
    forall steps | CanRun(OnlyNewIds, s, steps) ensures DistinctIds(Run(OnlyNewIds, s, steps).log) {
      RunKeepsInv(OnlyNewIds, s, steps);
      var t := Run(OnlyNewIds, s, steps);
      var all := t.log + InFlight(t);
      assert forall i :: 0 <= i < |t.log| ==> t.log[i] == all[i];
    }
  }

  /**
   A context switch starts with a fresh ring and cursor 0, yet what the old
   context still has queued, holds or is being answered can be merged into the
   new ring. The cursor and the ring agree ever after if and only if, at the
   moment of the switch, no bulletin is queued, the old task is not in the middle
   of a poll with bulletins in hand or a request out, and the same goes for what
   earlier switches left over. The same condition decides whether a bulletin can
   be merged twice.
   */
  lemma SwitchKeepsAgreementIff(s: State, midPoll: bool)
    requires PositiveInFlight(s)
    requires s.task.Holding? ==> forall b :: b in Contents(s.task.update) ==> b.id > 0
    ensures var clean := AllContents(s.channel) == [] && (midPoll ==> Quiet(s.task)) && AllQuiet(s.orphans);
            && (AlwaysAgrees(Do(s, SwitchContext(midPoll))) <==> clean)
            && (NeverRepeats(Do(s, SwitchContext(midPoll))) <==> clean)
  {
    hide AlwaysAgrees, NeverRepeats;
    var t := Do(s, SwitchContext(midPoll));
    assert midPoll ==> t.orphans[|s.orphans|] == s.task;
    assert forall i :: 0 <= i < |s.orphans| ==> t.orphans[i] == s.orphans[i];
    if Sealed(t) {
      SealedAgrees(t);
      SealedNeverRepeats(t);
    } else {
      ForeignDisagrees(t);
      ForeignRepeats(t);
    }
  }

  /**
   Each way to fail is reached from an ordinary start: in the poll that takes the
   answer, in the poll that is about to send (with nothing queued in both), and at
   any time after the batch has been sent.
   */
  lemma FailingSwitchIsReachable(trust: Trust, s0: State, b: Bulletin)
    requires Init(s0) && b.id > 0 && Honest(trust, s0.cursor, [b])
    ensures var ask, answer := LoadCursor, Respond(Batch([b]));
            && CanRun(trust, s0, [ask]) && CanRun(trust, s0, [ask, answer]) && CanRun(trust, s0, [ask, answer, Send])
            && Run(trust, s0, [ask]).channel == [] == Run(trust, s0, [ask, answer]).channel
            && Fails(Do(Run(trust, s0, [ask]), SwitchContext(true)))
            && Fails(Do(Run(trust, s0, [ask, answer]), SwitchContext(true)))
            && Fails(Do(Run(trust, s0, [ask, answer, Send]), SwitchContext(false)))
  {
    hide AlwaysAgrees, NeverRepeats, CanRun, Run, Advance;
    ThreeSteps(trust, s0, b);
    var s1 := s0.(task := Asking(s0.cursor));
    var s2 := Do(s1, Respond(Batch([b])));
    var s3 := Do(s2, Send);
    AllContentsAppend([], Batch([b]));
    assert s3.channel == [] + [Batch([b])] && AllContents([]) == [];
    SwitchKeepsAgreementIff(s1, true);
    SwitchKeepsAgreementIff(s2, true);
    SwitchKeepsAgreementIff(s3, false);
  }

  /** Cursor and ring can disagree, and a bulletin can be merged twice. */
  ghost predicate Fails(s: State) {
    !AlwaysAgrees(s) && !NeverRepeats(s)
  }
}
