/**
 The recursive process-group status as NiFi returns it, with every field
 optional, and the row the arena keeps for each component
 (src/client/browser.rs:24-110).
 */
module GroupTree {
  import opened Wrappers

  type i32 = x: int | -0x8000_0000 <= x < 0x8000_0000
  type i64 = x: int | -0x8000_0000_0000_0000 <= x < 0x8000_0000_0000_0000

  datatype Processor = Processor(
    id: Option<string>, groupId: Option<string>, name: Option<string>, runStatus: Option<string>)

  datatype Connection = Connection(
    id: Option<string>, groupId: Option<string>, name: Option<string>,
    sourceId: Option<string>, sourceName: Option<string>,
    destinationId: Option<string>, destinationName: Option<string>,
    percentUseCount: Option<i32>, percentUseBytes: Option<i32>,
    flowFilesQueued: Option<i32>, bytesQueued: Option<i64>, queued: Option<string>)

  datatype Port = Port(id: Option<string>, groupId: Option<string>, name: Option<string>)

  datatype Remote = Remote(
    id: Option<string>, groupId: Option<string>, name: Option<string>,
    transmissionStatus: Option<string>, activeThreadCount: Option<i32>,
    flowFilesReceived: Option<i32>, flowFilesSent: Option<i32>,
    bytesReceived: Option<i64>, bytesSent: Option<i64>, targetUri: Option<string>)

  /** A group; each list may be missing, and each entry of a list may lack its snapshot. */
  datatype Group = Group(
    id: Option<string>, name: Option<string>,
    flowFilesQueued: Option<i32>, bytesQueued: Option<i64>,
    processors: Option<seq<Option<Processor>>>,
    connections: Option<seq<Option<Connection>>>,
    inputPorts: Option<seq<Option<Port>>>,
    outputPorts: Option<seq<Option<Port>>>,
    remotes: Option<seq<Option<Remote>>>,
    children: ChildGroups)

  /** The optional list of child entries. */
  datatype ChildGroups = NotListed | Listed(entries: seq<Option<Group>>)

  // ----- Rows -----

  datatype Kind = ProcessGroup | ProcessorNode | ConnectionNode | InputPort | OutputPort | RemoteProcessGroup

  datatype Status =
    | GroupStatus(running: nat, stopped: nat, invalid: nat, disabled: nat)
    | ProcessorStatus(runStatus: string)
    | ConnectionStatus(
        fillPercent: nat, flowFilesQueued: nat, queuedDisplay: string,
        sourceId: string, sourceName: string, destinationId: string, destinationName: string)
    | PortStatus
    | RemoteStatus(
        transmissionStatus: string, activeThreads: nat, flowFilesReceived: nat, flowFilesSent: nat,
        bytesReceived: nat, bytesSent: nat, targetUri: string)

  /** A row without its place in the tree. */
  datatype Item = Item(kind: Kind, id: string, groupId: string, name: string, status: Status)

  function NonNegative(x: Option<int>): (n: nat)
    ensures x.Some? && x.value >= 0 ==> n == x.value
    ensures x.None? || x.value < 0 ==> n == 0
  {
    match x
    case Some(v) => if v > 0 then v else 0
    case None => 0
  }

  /** The fuller of the two back-pressure limits. */
  function FillPercent(c: Connection): nat {
    var byCount, byBytes := NonNegative(c.percentUseCount), NonNegative(c.percentUseBytes);
    if byCount >= byBytes then byCount else byBytes
  }

  function GroupItem(g: Group): Item {
    Item(ProcessGroup, g.id.GetOr(""), "", g.name.GetOr(""), GroupStatus(0, 0, 0, 0))
  }

  function ProcessorItem(p: Processor): Item {
    Item(ProcessorNode, p.id.GetOr(""), p.groupId.GetOr(""), p.name.GetOr(""),
         ProcessorStatus(p.runStatus.GetOr("")))
  }

  function ConnectionItem(c: Connection): Item {
    Item(ConnectionNode, c.id.GetOr(""), c.groupId.GetOr(""), c.name.GetOr(""),
         ConnectionStatus(FillPercent(c), NonNegative(c.flowFilesQueued), c.queued.GetOr(""),
                          c.sourceId.GetOr(""), c.sourceName.GetOr(""),
                          c.destinationId.GetOr(""), c.destinationName.GetOr("")))
  }

  function InputPortItem(p: Port): Item {
    Item(InputPort, p.id.GetOr(""), p.groupId.GetOr(""), p.name.GetOr(""), PortStatus)
  }

  function OutputPortItem(p: Port): Item {
    Item(OutputPort, p.id.GetOr(""), p.groupId.GetOr(""), p.name.GetOr(""), PortStatus)
  }

  function RemoteItem(r: Remote): Item {
    Item(RemoteProcessGroup, r.id.GetOr(""), r.groupId.GetOr(""), r.name.GetOr(""),
         RemoteStatus(r.transmissionStatus.GetOr(""), NonNegative(r.activeThreadCount),
                      NonNegative(r.flowFilesReceived), NonNegative(r.flowFilesSent),
                      NonNegative(r.bytesReceived), NonNegative(r.bytesSent), r.targetUri.GetOr("")))
  }

  /** `f` of the entries that carry a snapshot, in order. */
  function Collect<T, U>(xs: seq<Option<T>>, f: T -> U): seq<U> {
    if xs == [] then []
    else Collect(xs[..|xs| - 1], f) + (match xs[|xs| - 1] case Some(x) => [f(x)] case None => [])
  }

  lemma CollectLast<T, U>(xs: seq<Option<T>>, f: T -> U)
    ensures xs == [] ==> Collect(xs, f) == []
    ensures xs != [] ==>
              Collect(xs, f) == if xs[|xs| - 1].Some? then Collect(xs[..|xs| - 1], f) + [f(xs[|xs| - 1].value)]
                                else Collect(xs[..|xs| - 1], f)
  {
  }

  /** `Collect` as a loop over the entries sees it. */
  lemma CollectStep<T, U>(xs: seq<Option<T>>, f: T -> U, i: nat)
    requires i < |xs|
    ensures Collect(xs[..0], f) == []
    ensures Collect(xs[..i + 1], f)
         == if xs[i].Some? then Collect(xs[..i], f) + [f(xs[i].value)] else Collect(xs[..i], f)
  {
    assert xs[..i + 1][..i] == xs[..i];
  }

  ghost predicate HasKind(items: seq<Item>, kind: Kind) {
    forall i :: 0 <= i < |items| ==> items[i].kind == kind
  }

  ghost predicate LacksKind(items: seq<Item>, kind: Kind) {
    forall i :: 0 <= i < |items| ==> items[i].kind != kind
  }

  lemma {:induction false} CollectKind<T>(xs: seq<Option<T>>, f: T -> Item, kind: Kind)
    requires forall x :: f(x).kind == kind
    ensures HasKind(Collect(xs, f), kind)
  {
    if xs != [] { CollectKind(xs[..|xs| - 1], f, kind); }
  }

  function Children(g: Group): seq<Option<Group>> {
    match g.children
    case Listed(entries) => entries
    case NotListed => []
  }

  /** The component rows a group owns directly, in the order the walker emits them. */
  function Leaves(g: Group): seq<Item> {
    Collect(g.processors.GetOr([]), ProcessorItem)
    + Collect(g.connections.GetOr([]), ConnectionItem)
    + Collect(g.inputPorts.GetOr([]), InputPortItem)
    + Collect(g.outputPorts.GetOr([]), OutputPortItem)
    + Collect(g.remotes.GetOr([]), RemoteItem)
  }
}
