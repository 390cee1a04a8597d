/**
 `RootPgStatusSnapshot` and the walks that fill it (src/client/mod.rs:75-106,
 520-658). `FromAggregate` runs all four walks; its contract states every
 collected number and list on the rows of the resulting arena.
 */
module RootPgStatus {
  import opened Arena
  import opened GroupTree
  import opened GroupWalks
  import opened StableSort
  import opened TreeComponents
  import opened Wrappers

  datatype ProcessorStateCounts = ProcessorStateCounts(running: u32, stopped: u32, invalid: u32, disabled: u32)

  datatype RemoteCounts = RemoteCounts(total: u32, transmitting: u32, notTransmitting: u32)

  /** The counters after adding the processor rows among `items`. */
  function AddStates(c: ProcessorStateCounts, items: seq<Item>): ProcessorStateCounts {
    ProcessorStateCounts(Wrap32(c.running + Count(items, InState(Running))),
                         Wrap32(c.stopped + Count(items, InState(Stopped))),
                         Wrap32(c.invalid + Count(items, InState(Invalid))),
                         Wrap32(c.disabled + Count(items, InState(Disabled))))
  }

  /** The counters after adding the remote-group rows among `items`. */
  function AddRemotes(c: RemoteCounts, items: seq<Item>): RemoteCounts {
    RemoteCounts(Wrap32(c.total + Count(items, OfKind(RemoteProcessGroup))),
                 Wrap32(c.transmitting + Count(items, RemoteTransmits(true))),
                 Wrap32(c.notTransmitting + Count(items, RemoteTransmits(false))))
  }

  /** Port entries are counted whether or not they carry a snapshot. */
  function PortEntries(g: Group, inputs: bool): nat
    decreases g, |Children(g)| + 1
  {
    |PortsOf(g, inputs)| + PortEntriesKids(g, |Children(g)|, inputs)
  }

  function PortEntriesKids(g: Group, n: nat, inputs: bool): nat
    requires n <= |Children(g)|
    decreases g, n
  {
    if n == 0 then 0
    else
      match Children(g)[n - 1]
      case Some(child) => PortEntriesKids(g, n - 1, inputs) + PortEntries(child, inputs)
      case None => PortEntriesKids(g, n - 1, inputs)
  }

  // ----- What one group's own components contribute -----

  lemma CountLeaves(g: Group, p: Item -> bool)
    ensures Count(Leaves(g), p)
         == Count(Collect(g.processors.GetOr([]), ProcessorItem), p)
            + Count(Collect(g.connections.GetOr([]), ConnectionItem), p)
            + Count(Collect(g.inputPorts.GetOr([]), InputPortItem), p)
            + Count(Collect(g.outputPorts.GetOr([]), OutputPortItem), p)
            + Count(Collect(g.remotes.GetOr([]), RemoteItem), p)
  {
    hide Collect, Count;
    var pr, c := Collect(g.processors.GetOr([]), ProcessorItem), Collect(g.connections.GetOr([]), ConnectionItem);
    var ip, op := Collect(g.inputPorts.GetOr([]), InputPortItem), Collect(g.outputPorts.GetOr([]), OutputPortItem);
    CountConcat(pr, c, p);
    CountConcat(pr + c, ip, p);
    CountConcat(pr + c + ip, op, p);
    CountConcat(pr + c + ip + op, Collect(g.remotes.GetOr([]), RemoteItem), p);
  }

  lemma CountNoneOf<T>(xs: Option<seq<Option<T>>>, f: T -> Item, p: Item -> bool)
    requires forall x :: !p(f(x))
    ensures Count(Collect(xs.GetOr([]), f), p) == 0
  {
    CollectStatus(xs.GetOr([]), f, (x: Item) => !p(x));
    CountNone(Collect(xs.GetOr([]), f), p);
  }

  /** A group's row and components: one group, its processors by state, its remotes by state. */
  lemma OwnCounts(g: Group)
    ensures var own := [GroupItem(g)] + Leaves(g);
            && Count(own, OfKind(ProcessGroup)) == 1
            && (forall c :: AddStates(c, own) == AddStates(c, Collect(g.processors.GetOr([]), ProcessorItem)))
            && (forall c :: AddRemotes(c, own) == AddRemotes(c, Collect(g.remotes.GetOr([]), RemoteItem)))
            && Count(own, OfKind(InputPort)) == Count(Collect(g.inputPorts.GetOr([]), InputPortItem), OfKind(InputPort))
            && Count(own, OfKind(OutputPort))
               == Count(Collect(g.outputPorts.GetOr([]), OutputPortItem), OfKind(OutputPort))
  {
    hide Collect, Count, Leaves, RunStateOf, IsTransmitting, AddStates, AddRemotes;
    OwnStates(g);
    OwnRemotes(g);
    OwnCount(g, OfKind(ProcessGroup), 0);
    OwnCount(g, OfKind(InputPort), 3);
    OwnCount(g, OfKind(OutputPort), 4);
  }

  lemma OwnStates(g: Group)
    ensures forall c :: AddStates(c, [GroupItem(g)] + Leaves(g))
                     == AddStates(c, Collect(g.processors.GetOr([]), ProcessorItem))
  {
    hide Collect, Count, Leaves, RunStateOf;
    OwnCount(g, InState(Running), 1);
    OwnCount(g, InState(Stopped), 1);
    OwnCount(g, InState(Invalid), 1);
    OwnCount(g, InState(Disabled), 1);
  }

  lemma OwnRemotes(g: Group)
    ensures forall c :: AddRemotes(c, [GroupItem(g)] + Leaves(g))
                     == AddRemotes(c, Collect(g.remotes.GetOr([]), RemoteItem))
  {
    hide Collect, Count, Leaves, IsTransmitting;
    OwnCount(g, OfKind(RemoteProcessGroup), 5);
    OwnCount(g, RemoteTransmits(true), 5);
    OwnCount(g, RemoteTransmits(false), 5);
  }

  /** A property only the `part`-th kind of component can have (0: the group itself). */
  lemma OwnCount(g: Group, p: Item -> bool, part: nat)
    requires part <= 5
    requires part != 0 ==> !p(GroupItem(g))
    requires part == 0 ==> p(GroupItem(g))
    requires part != 1 ==> forall x :: !p(ProcessorItem(x))
    requires part != 2 ==> forall x :: !p(ConnectionItem(x))
    requires part != 3 ==> forall x :: !p(InputPortItem(x))
    requires part != 4 ==> forall x :: !p(OutputPortItem(x))
    requires part != 5 ==> forall x :: !p(RemoteItem(x))
    ensures Count([GroupItem(g)] + Leaves(g), p)
         == match part
            case 0 => 1
            case 1 => Count(Collect(g.processors.GetOr([]), ProcessorItem), p)
            case 2 => Count(Collect(g.connections.GetOr([]), ConnectionItem), p)
            case 3 => Count(Collect(g.inputPorts.GetOr([]), InputPortItem), p)
            case 4 => Count(Collect(g.outputPorts.GetOr([]), OutputPortItem), p)
            case _ => Count(Collect(g.remotes.GetOr([]), RemoteItem), p)
  {
    CountConcat([GroupItem(g)], Leaves(g), p);
    CountLeaves(g, p);
    assert Count([GroupItem(g)], p) == if p(GroupItem(g)) then 1 else 0;
    hide Collect, Count, Leaves;
    if part != 1 { CountNoneOf(g.processors, ProcessorItem, p); }
    if part != 2 { CountNoneOf(g.connections, ConnectionItem, p); }
    if part != 3 { CountNoneOf(g.inputPorts, InputPortItem, p); }
    if part != 4 { CountNoneOf(g.outputPorts, OutputPortItem, p); }
    if part != 5 { CountNoneOf(g.remotes, RemoteItem, p); }
  }

  lemma WrapTwice(c: nat, m: nat, n: nat)
    ensures Wrap32(Wrap32(c + m) + n) == Wrap32(c + m + n)
  {
  }

  lemma CountEmpty(p: Item -> bool)
    ensures Count([], p) == 0
  {
  }

  lemma AddStatesConcat(c: ProcessorStateCounts, xs: seq<Item>, ys: seq<Item>)
    ensures AddStates(AddStates(c, xs), ys) == AddStates(c, xs + ys)
  {
    hide Count, Wrap32, InState;
    CountConcat(xs, ys, InState(Running));
    CountConcat(xs, ys, InState(Stopped));
    CountConcat(xs, ys, InState(Invalid));
    CountConcat(xs, ys, InState(Disabled));
    WrapTwice(c.running, Count(xs, InState(Running)), Count(ys, InState(Running)));
    WrapTwice(c.stopped, Count(xs, InState(Stopped)), Count(ys, InState(Stopped)));
    WrapTwice(c.invalid, Count(xs, InState(Invalid)), Count(ys, InState(Invalid)));
    WrapTwice(c.disabled, Count(xs, InState(Disabled)), Count(ys, InState(Disabled)));
  }

  lemma AddRemotesConcat(c: RemoteCounts, xs: seq<Item>, ys: seq<Item>)
    ensures AddRemotes(AddRemotes(c, xs), ys) == AddRemotes(c, xs + ys)
  {
    hide Count, Wrap32, OfKind, RemoteTransmits;
    CountConcat(xs, ys, OfKind(RemoteProcessGroup));
    CountConcat(xs, ys, RemoteTransmits(true));
    CountConcat(xs, ys, RemoteTransmits(false));
    WrapTwice(c.total, Count(xs, OfKind(RemoteProcessGroup)), Count(ys, OfKind(RemoteProcessGroup)));
    WrapTwice(c.transmitting, Count(xs, RemoteTransmits(true)), Count(ys, RemoteTransmits(true)));
    WrapTwice(c.notTransmitting, Count(xs, RemoteTransmits(false)), Count(ys, RemoteTransmits(false)));
  }

  lemma AddNothing(c: ProcessorStateCounts, d: RemoteCounts)
    ensures AddStates(c, []) == c && AddRemotes(d, []) == d
  {
  }

  lemma CountOne(x: Item, p: Item -> bool)
    ensures Count([x], p) == if p(x) then 1 else 0
  {
  }

  lemma NoStatusIsUnknown()
    ensures RunStateOf("") == UnknownState
  {
  }

  /** One processor raises the counter of its parsed state, if that state has one. */
  lemma AddOneState(c: ProcessorStateCounts, p: Processor)
    ensures AddStates(c, [ProcessorItem(p)])
         == match RunStateOf(p.runStatus.GetOr(""))
            case Running => c.(running := Wrap32(c.running + 1))
            case Stopped => c.(stopped := Wrap32(c.stopped + 1))
            case Invalid => c.(invalid := Wrap32(c.invalid + 1))
            case Disabled => c.(disabled := Wrap32(c.disabled + 1))
            case Validating => c
            case UnknownState => c
    ensures RunStateOf("") == UnknownState
  {
    NoStatusIsUnknown();
    hide RunStateOf;
    CountOne(ProcessorItem(p), InState(Running));
    CountOne(ProcessorItem(p), InState(Stopped));
    CountOne(ProcessorItem(p), InState(Invalid));
    CountOne(ProcessorItem(p), InState(Disabled));
  }

  /** One remote group raises the total and one of the two transmission counters. */
  lemma AddOneRemote(c: RemoteCounts, r: Remote)
    ensures AddRemotes(c, [RemoteItem(r)])
         == if IsTransmitting(r.transmissionStatus.GetOr(""))
            then RemoteCounts(Wrap32(c.total + 1), Wrap32(c.transmitting + 1), c.notTransmitting)
            else RemoteCounts(Wrap32(c.total + 1), c.transmitting, Wrap32(c.notTransmitting + 1))
    ensures !IsTransmitting("")
  {
    CountOne(RemoteItem(r), OfKind(RemoteProcessGroup));
    CountOne(RemoteItem(r), RemoteTransmits(true));
    CountOne(RemoteItem(r), RemoteTransmits(false));
  }

  // ----- One unfolding of the row list at a time -----

  lemma OwnGroupIds(g: Group)
    ensures GroupIds([GroupItem(g)] + Leaves(g)) == if g.id.GetOr("") != "" then [g.id.GetOr("")] else []
    ensures GroupIds([]) == []
  {
    LeavesLackGroups(g);
    NoGroupIds(Leaves(g));
    GroupIdsConcat([GroupItem(g)], Leaves(g));
    assert GroupIds([GroupItem(g)]) == GroupIds([]) + (if g.id.GetOr("") != "" then [g.id.GetOr("")] else []);
  }

  lemma LeavesLackGroups(g: Group)
    ensures LacksKind(Leaves(g), ProcessGroup)
  {
    hide Collect;
    CollectKind(g.processors.GetOr([]), ProcessorItem, ProcessorNode);
    CollectKind(g.connections.GetOr([]), ConnectionItem, ConnectionNode);
    CollectKind(g.inputPorts.GetOr([]), InputPortItem, InputPort);
    CollectKind(g.outputPorts.GetOr([]), OutputPortItem, OutputPort);
    CollectKind(g.remotes.GetOr([]), RemoteItem, RemoteProcessGroup);
  }

  // ----- Ports -----

  lemma {:induction false} CountCollected<T>(xs: seq<Option<T>>, f: T -> Item, p: Item -> bool)
    requires forall x :: p(f(x))
    ensures Count(Collect(xs, f), p) <= |xs|
    ensures Count(Collect(xs, f), p) == |xs| <==> AllPresent(xs)
  {
    if xs != [] {
      CountCollected(xs[..|xs| - 1], f, p);
      CountConcat(Collect(xs[..|xs| - 1], f), match xs[|xs| - 1] case Some(x) => [f(x)] case None => [], p);
      if xs[|xs| - 1].Some? { CountOne(f(xs[|xs| - 1].value), p); }
    }
  }

  function PortsOf(g: Group, inputs: bool): seq<Option<Port>> {
    (if inputs then g.inputPorts else g.outputPorts).GetOr([])
  }

  predicate AllPresent<T>(xs: seq<Option<T>>) {
    forall i :: 0 <= i < |xs| ==> xs[i].Some?
  }

  /** Every port entry of the tree, on the chosen side, carries a snapshot. */
  predicate PortsPresent(g: Group, inputs: bool)
    decreases g, |Children(g)| + 1
  {
    AllPresent(PortsOf(g, inputs)) && PortsPresentKids(g, |Children(g)|, inputs)
  }

  predicate PortsPresentKids(g: Group, n: nat, inputs: bool)
    requires n <= |Children(g)|
    decreases g, n
  {
    if n == 0 then true
    else
      match Children(g)[n - 1]
      case Some(child) => PortsPresentKids(g, n - 1, inputs) && PortsPresent(child, inputs)
      case None => PortsPresentKids(g, n - 1, inputs)
  }

  lemma UnfoldPorts(g: Group, inputs: bool)
    ensures PortsPresent(g, inputs)
            <==> AllPresent(PortsOf(g, inputs)) && PortsPresentKids(g, |Children(g)|, inputs)
    ensures PortEntries(g, inputs) == |PortsOf(g, inputs)| + PortEntriesKids(g, |Children(g)|, inputs)
    ensures PortsOf(g, inputs) == if inputs then g.inputPorts.GetOr([]) else g.outputPorts.GetOr([])
  {
    hide AllPresent;
  }

  lemma UnfoldPortsKids(g: Group, i: nat, inputs: bool)
    requires i < |Children(g)|
    ensures PortEntriesKids(g, i + 1, inputs)
         == PortEntriesKids(g, i, inputs)
            + (if Children(g)[i].Some? then PortEntries(Children(g)[i].value, inputs) else 0)
    ensures PortsPresentKids(g, i + 1, inputs)
            <==> PortsPresentKids(g, i, inputs)
                 && (Children(g)[i].Some? ==> PortsPresent(Children(g)[i].value, inputs))
  {
    hide PortEntries, PortsPresent;
  }

  function PortKind(inputs: bool): Kind {
    if inputs then InputPort else OutputPort
  }

  /** The port counters count at least the arena's port rows, and exactly those when no entry is bare. */
  lemma {:induction false} PortEntriesCoverRows(g: Group, inputs: bool)
    ensures Count(Dfs(g), OfKind(PortKind(inputs))) <= PortEntries(g, inputs)
    ensures Count(Dfs(g), OfKind(PortKind(inputs))) == PortEntries(g, inputs) <==> PortsPresent(g, inputs)
    decreases g, |Children(g)| + 1
  {
    hide Count, Collect, Leaves, Dfs, DfsKids, PortEntries, PortsPresent, PortEntriesKids, PortsPresentKids, AllPresent;
    UnfoldDfs(g);
    UnfoldPorts(g, inputs);
    OwnCounts(g);
    CountConcat([GroupItem(g)] + Leaves(g), DfsKids(g, |Children(g)|), OfKind(PortKind(inputs)));
    if inputs {
      CountCollected(g.inputPorts.GetOr([]), InputPortItem, OfKind(InputPort));
    } else {
      CountCollected(g.outputPorts.GetOr([]), OutputPortItem, OfKind(OutputPort));
    }
    PortEntriesCoverKids(g, |Children(g)|, inputs);
  }

  lemma {:induction false} PortEntriesCoverKids(g: Group, n: nat, inputs: bool)
    requires n <= |Children(g)|
    ensures Count(DfsKids(g, n), OfKind(PortKind(inputs))) <= PortEntriesKids(g, n, inputs)
    ensures Count(DfsKids(g, n), OfKind(PortKind(inputs))) == PortEntriesKids(g, n, inputs)
            <==> PortsPresentKids(g, n, inputs)
    decreases g, n
  {
    hide *;
    NoPortKids(g, inputs);
    if n > 0 {
      PortEntriesCoverKids(g, n - 1, inputs);
      UnfoldPortsKids(g, n - 1, inputs);
      UnfoldDfsKids(g, n - 1);
      if Children(g)[n - 1].Some? {
        var child := Children(g)[n - 1].value;
        PortEntriesCoverRows(child, inputs);
        CountConcat(DfsKids(g, n - 1), Dfs(child), OfKind(PortKind(inputs)));
      }
    }
  }

  lemma NoPortKids(g: Group, inputs: bool)
    ensures Count(DfsKids(g, 0), OfKind(PortKind(inputs))) == 0
    ensures PortEntriesKids(g, 0, inputs) == 0 && PortsPresentKids(g, 0, inputs)
  {
  }

  // ----- The snapshot and its walks -----

  class RootPgStatusSnapshot {
    var flowFilesQueued: nat
    var bytesQueued: nat
    var connections: seq<QueueSnapshot>
    var processGroupCount: u32
    var inputPortCount: u32
    var outputPortCount: u32
    var processors: ProcessorStateCounts
    var remotes: RemoteCounts
    var processGroupIds: seq<string>
    const nodes: Nodes

    constructor (flowFilesQueued: nat, bytesQueued: nat)
      ensures this.flowFilesQueued == flowFilesQueued && this.bytesQueued == bytesQueued
      ensures connections == [] && processGroupIds == []
      ensures processGroupCount == inputPortCount == outputPortCount == 0
      ensures processors == ProcessorStateCounts(0, 0, 0, 0) && remotes == RemoteCounts(0, 0, 0)
      ensures fresh(nodes) && nodes.rows == []
    {
      this.flowFilesQueued, this.bytesQueued := flowFilesQueued, bytesQueued;
      connections, processGroupIds := [], [];
      processGroupCount, inputPortCount, outputPortCount := 0, 0, 0;
      processors, remotes := ProcessorStateCounts(0, 0, 0, 0), RemoteCounts(0, 0, 0);
      nodes := new Nodes();
    }

    /** `collect_queues` */
    method CollectQueues(g: Group)
      modifies this`connections
      ensures connections == old(connections) + Queues(g)
      decreases g
    {
      hide QueueOf;
      var conns := g.connections.GetOr([]);
      for i := 0 to |conns|
        invariant connections == old(connections) + Collect(conns[..i], QueueOf)
      {
        assert conns[..i + 1][..i] == conns[..i];
        match conns[i]
        case Some(c) => connections := connections + [QueueOf(c)];
        case None =>
      }
      assert conns[..|conns|] == conns;
      for n := 0 to |Children(g)|
        invariant connections == old(connections) + (Collect(conns, QueueOf) + QueuesKids(g, n))
      {
        match Children(g)[n]
        case Some(child) => CollectQueues(child);
        case None =>
      }
    }

    /** `collect_pg_ids` */
    method CollectPgIds(g: Group)
      modifies this`processGroupIds
      ensures processGroupIds == old(processGroupIds) + GroupIds(Dfs(g))
      decreases g
    {
      hide Dfs, DfsKids, GroupIds, Leaves;
      OwnGroupIds(g);
      ghost var own := [GroupItem(g)] + Leaves(g);
      match g.id {
        case Some(id) =>
          if id != "" {
            processGroupIds := processGroupIds + [id];
          }
        case None =>
      }
      UnfoldDfs(g);
      for n := 0 to |Children(g)|
        invariant processGroupIds == old(processGroupIds) + (GroupIds(own) + GroupIds(DfsKids(g, n)))
      {
        UnfoldDfsKids(g, n);
        match Children(g)[n]
        case Some(child) =>
          GroupIdsConcat(DfsKids(g, n), Dfs(child));
          CollectPgIds(child);
        case None =>
      }
      GroupIdsConcat(own, DfsKids(g, |Children(g)|));
    }

    /** The loop of `collect_counts` over the processors of one group. */
    method CountProcessors(procs: seq<Option<Processor>>)
      modifies this`processors
      ensures processors == AddStates(old(processors), Collect(procs, ProcessorItem))
    {
      hide AddStates, RunStateOf, Wrap32;
      AddNothing(processors, remotes);
      for i := 0 to |procs|
        invariant processors == AddStates(old(processors), Collect(procs[..i], ProcessorItem))
      {
        assert procs[..i + 1][..i] == procs[..i];
        match procs[i]
        case None => assert Collect(procs[..i + 1], ProcessorItem) == Collect(procs[..i], ProcessorItem);
        case Some(p) =>
          AddStatesConcat(old(processors), Collect(procs[..i], ProcessorItem), [ProcessorItem(p)]);
          assert Collect(procs[..i + 1], ProcessorItem) == Collect(procs[..i], ProcessorItem) + [ProcessorItem(p)];
          AddOneState(processors, p);
          match p.runStatus
          case None =>
          case Some(s) =>
            match RunStateOf(s)
            case Running => processors := processors.(running := Wrap32(processors.running + 1));
            case Stopped => processors := processors.(stopped := Wrap32(processors.stopped + 1));
            case Invalid => processors := processors.(invalid := Wrap32(processors.invalid + 1));
            case Disabled => processors := processors.(disabled := Wrap32(processors.disabled + 1));
            case Validating =>
            case UnknownState =>
      }
      assert procs[..|procs|] == procs;
    }

    /** The loop of `collect_counts` over the remote groups of one group. */
    method CountRemoteGroups(rpgs: seq<Option<Remote>>)
      modifies this`remotes
      ensures remotes == AddRemotes(old(remotes), Collect(rpgs, RemoteItem))
    {
      hide AddRemotes, IsTransmitting, Wrap32;
      AddNothing(processors, remotes);
      for i := 0 to |rpgs|
        invariant remotes == AddRemotes(old(remotes), Collect(rpgs[..i], RemoteItem))
      {
        assert rpgs[..i + 1][..i] == rpgs[..i];
        match rpgs[i]
        case None => assert Collect(rpgs[..i + 1], RemoteItem) == Collect(rpgs[..i], RemoteItem);
        case Some(r) =>
          AddRemotesConcat(old(remotes), Collect(rpgs[..i], RemoteItem), [RemoteItem(r)]);
          assert Collect(rpgs[..i + 1], RemoteItem) == Collect(rpgs[..i], RemoteItem) + [RemoteItem(r)];
          AddOneRemote(remotes, r);
          remotes := remotes.(total := Wrap32(remotes.total + 1));
          if r.transmissionStatus.Some? && IsTransmitting(r.transmissionStatus.value) {
            remotes := remotes.(transmitting := Wrap32(remotes.transmitting + 1));
          } else {
            remotes := remotes.(notTransmitting := Wrap32(remotes.notTransmitting + 1));
          }
      }
      assert rpgs[..|rpgs|] == rpgs;
    }

    /** `collect_counts` */
    method CollectCounts(g: Group)
      modifies this`processGroupCount, this`inputPortCount, this`outputPortCount, this`processors, this`remotes
      ensures processGroupCount == Wrap32(old(processGroupCount) + Count(Dfs(g), OfKind(ProcessGroup)))
      ensures inputPortCount == Wrap32(old(inputPortCount) + PortEntries(g, true))
      ensures outputPortCount == Wrap32(old(outputPortCount) + PortEntries(g, false))
      ensures processors == AddStates(old(processors), Dfs(g))
      ensures remotes == AddRemotes(old(remotes), Dfs(g))
      decreases g
    {
      hide *;
      UnfoldPorts(g, true);
      UnfoldPorts(g, false);
      ghost var own := [GroupItem(g)] + Leaves(g);
      OwnCounts(g);
      processGroupCount := Wrap32(processGroupCount + 1);
      inputPortCount := Wrap32(inputPortCount + |g.inputPorts.GetOr([])|);
      outputPortCount := Wrap32(outputPortCount + |g.outputPorts.GetOr([])|);
      CountProcessors(g.processors.GetOr([]));
      CountRemoteGroups(g.remotes.GetOr([]));
      label before:
      UnfoldDfs(g);
      NoKids(g, processGroupCount, inputPortCount, outputPortCount, processors, remotes);
      for n := 0 to |Children(g)|
        invariant processGroupCount
               == Wrap32(old@before(processGroupCount) + Count(DfsKids(g, n), OfKind(ProcessGroup)))
        invariant inputPortCount == Wrap32(old@before(inputPortCount) + PortEntriesKids(g, n, true))
        invariant outputPortCount == Wrap32(old@before(outputPortCount) + PortEntriesKids(g, n, false))
        invariant processors == AddStates(old@before(processors), DfsKids(g, n))
        invariant remotes == AddRemotes(old@before(remotes), DfsKids(g, n))
      {
        OneMoreKid(g, n, old@before(processGroupCount), old@before(inputPortCount), old@before(outputPortCount),
                   old@before(processors), old@before(remotes));
        match Children(g)[n]
        case None =>
        case Some(child) => CollectCounts(child);
      }
      ghost var kids := DfsKids(g, |Children(g)|);
      CountConcat(own, kids, OfKind(ProcessGroup));
      WrapTwice(old(processGroupCount), 1, Count(kids, OfKind(ProcessGroup)));
      WrapTwice(old(inputPortCount), |g.inputPorts.GetOr([])|, PortEntriesKids(g, |Children(g)|, true));
      WrapTwice(old(outputPortCount), |g.outputPorts.GetOr([])|, PortEntriesKids(g, |Children(g)|, false));
      AddStatesConcat(old(processors), own, kids);
      AddRemotesConcat(old(remotes), own, kids);
    }
  }

  lemma NoKids(g: Group, groups: u32, inputs: u32, outputs: u32, states: ProcessorStateCounts, remotes: RemoteCounts)
    ensures groups == Wrap32(groups + Count(DfsKids(g, 0), OfKind(ProcessGroup)))
    ensures inputs == Wrap32(inputs + PortEntriesKids(g, 0, true))
    ensures outputs == Wrap32(outputs + PortEntriesKids(g, 0, false))
    ensures states == AddStates(states, DfsKids(g, 0)) && remotes == AddRemotes(remotes, DfsKids(g, 0))
  {
    AddNothing(states, remotes);
    CountEmpty(OfKind(ProcessGroup));
  }

  /** Adding one child's subtree to each counter. */
  lemma OneMoreKid(
    g: Group, n: nat, groups: u32, inputs: u32, outputs: u32, states: ProcessorStateCounts, remotes: RemoteCounts)
    requires n < |Children(g)|
    ensures Children(g)[n].Some? ==> (g decreases to Children(g)[n].value)
    ensures match Children(g)[n]
            case None =>
              && DfsKids(g, n + 1) == DfsKids(g, n)
              && PortEntriesKids(g, n + 1, true) == PortEntriesKids(g, n, true)
              && PortEntriesKids(g, n + 1, false) == PortEntriesKids(g, n, false)
            case Some(child) =>
              && Wrap32(groups + Count(DfsKids(g, n + 1), OfKind(ProcessGroup)))
                 == Wrap32(Wrap32(groups + Count(DfsKids(g, n), OfKind(ProcessGroup)))
                           + Count(Dfs(child), OfKind(ProcessGroup)))
              && Wrap32(inputs + PortEntriesKids(g, n + 1, true))
                 == Wrap32(Wrap32(inputs + PortEntriesKids(g, n, true)) + PortEntries(child, true))
              && Wrap32(outputs + PortEntriesKids(g, n + 1, false))
                 == Wrap32(Wrap32(outputs + PortEntriesKids(g, n, false)) + PortEntries(child, false))
              && AddStates(states, DfsKids(g, n + 1)) == AddStates(AddStates(states, DfsKids(g, n)), Dfs(child))
              && AddRemotes(remotes, DfsKids(g, n + 1)) == AddRemotes(AddRemotes(remotes, DfsKids(g, n)), Dfs(child))
  {
    hide Dfs, DfsKids, Count, AddStates, AddRemotes, Wrap32, PortEntries;
    UnfoldDfsKids(g, n);
    match Children(g)[n]
    case None =>
    case Some(child) =>
      var seen, more := DfsKids(g, n), Dfs(child);
      CountConcat(seen, more, OfKind(ProcessGroup));
      WrapTwice(groups, Count(seen, OfKind(ProcessGroup)), Count(more, OfKind(ProcessGroup)));
      WrapTwice(inputs, PortEntriesKids(g, n, true), PortEntries(child, true));
      WrapTwice(outputs, PortEntriesKids(g, n, false), PortEntries(child, false));
      AddStatesConcat(states, seen, more);
      AddRemotesConcat(remotes, seen, more);
  }

  function FillOf(q: QueueSnapshot): nat {
    q.fillPercent
  }

  lemma CountShows(x: Option<int>)
    ensures ShowsCount(x, NonNegative(x))
  {
  }

  ghost predicate ByFill(qs: seq<QueueSnapshot>) {
    forall i, j :: 0 <= i < j < |qs| ==> qs[i].fillPercent >= qs[j].fillPercent
  }

  /** The queues shown are those of the tree's connections, fullest first, equally full ones in walk order. */
  ghost predicate SortsConnections(cs: seq<Connection>, shown: seq<QueueSnapshot>) {
    ByFill(shown) && exists qs :: ShowsQueues(cs, qs) && IsStableSort(qs, shown, FillOf)
  }

  const ALL := 0x1_0000_0000   // `u32` counters wrap around

  /** The tallies, on the components of the tree. */
  ghost predicate Tallies(ds: seq<Component>, groups: u32, states: ProcessorStateCounts, remotes: RemoteCounts) {
    && groups == Tally(ds, IsGroup()) % ALL
    && states.running == Tally(ds, ProcessorIn("RUNNING")) % ALL
    && states.stopped == Tally(ds, ProcessorIn("STOPPED")) % ALL
    && states.invalid == Tally(ds, ProcessorIn("INVALID")) % ALL
    && states.disabled == Tally(ds, ProcessorIn("DISABLED")) % ALL
    && remotes.total == Tally(ds, IsRemote()) % ALL
    && remotes.transmitting == Tally(ds, RemoteThat(true)) % ALL
    && remotes.notTransmitting == Tally(ds, RemoteThat(false)) % ALL
  }

  lemma TalliesHold(g: Group)
    ensures Tallies(Components(g), Wrap32(Count(Dfs(g), OfKind(ProcessGroup))),
                    AddStates(ProcessorStateCounts(0, 0, 0, 0), Dfs(g)), AddRemotes(RemoteCounts(0, 0, 0), Dfs(g)))
  {
    hide Components, Dfs, Tally, Count, ProcessorIn, InState, RemoteThat, RemoteTransmits, IsRemote, IsGroup, OfKind;
    hide ShowsRows;
    RowsShowComponents(g);
    TalliesAgree(Components(g), Dfs(g));
  }

  lemma SortHolds(g: Group, shown: seq<QueueSnapshot>)
    requires IsStableSort(Queues(g), shown, FillOf)
    ensures SortsConnections(ConnectionsIn(Components(g)), shown)
  {
    hide ShowsQueues, Queues, Components, ConnectionsIn, SamePerKey;
    QueuesShowConnections(g);
    forall i, j | 0 <= i < j < |shown| ensures shown[i].fillPercent >= shown[j].fillPercent {
      assert FillOf(shown[i]) >= FillOf(shown[j]);
    }
  }

  /**
   `from_aggregate`: one walk builds the arena, the others summarise the same
   tree, and each summary is what counting or filtering the arena's rows gives.
   */
  method FromAggregate(agg: Group) returns (snap: RootPgStatusSnapshot)
    ensures fresh(snap)
    ensures snap.nodes.rows == Flatten(agg, None, 0)
    ensures var rows := Items(snap.nodes.rows);
            && snap.processGroupCount == Wrap32(Count(rows, OfKind(ProcessGroup)))
            && snap.processGroupIds == GroupIds(rows)
            && snap.processors == AddStates(ProcessorStateCounts(0, 0, 0, 0), rows)
            && snap.remotes == AddRemotes(RemoteCounts(0, 0, 0), rows)
            && FactsOfQueues(Queues(agg)) == ConnectionFacts(rows)
            && IsStableSort(Queues(agg), snap.connections, FillOf)
    ensures ShowsRows(Components(agg), Items(snap.nodes.rows))
    ensures SortsConnections(ConnectionsIn(Components(agg)), snap.connections)
    ensures Tallies(Components(agg), snap.processGroupCount, snap.processors, snap.remotes)
    ensures snap.inputPortCount == Wrap32(PortEntries(agg, true))
    ensures snap.outputPortCount == Wrap32(PortEntries(agg, false))
    ensures ShowsCount(agg.flowFilesQueued, snap.flowFilesQueued) && ShowsCount(agg.bytesQueued, snap.bytesQueued)
  {
    hide *;
    CountShows(agg.flowFilesQueued);
    CountShows(agg.bytesQueued);
    snap := new RootPgStatusSnapshot(NonNegative(agg.flowFilesQueued), NonNegative(agg.bytesQueued));
    snap.CollectQueues(agg);
    SortIsStable(snap.connections, FillOf);
    assert snap.connections == Queues(agg);
    QueuesAgree(agg);
    FlattenItems(agg, None, 0);
    snap.connections := SortDescending(snap.connections, FillOf);
    snap.CollectCounts(agg);
    snap.CollectPgIds(agg);
    WalkPgNodes(agg, None, snap.nodes);
    RowsShowComponents(agg);
    SortHolds(agg, snap.connections);
    TalliesHold(agg);
  }
}
