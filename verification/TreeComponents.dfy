/**
 What the walks of the process-group tree show, stated on NiFi's answer itself
 (src/client/browser.rs:137-270, src/client/mod.rs:75-106, 582-640): the components
 of the tree in walk order, and field by field what a row, a queue and a tally
 say about them.
 */
module TreeComponents {
  import opened Arena
  import opened GroupTree
  import opened GroupWalks
  import opened Wrappers

  datatype Component =
    | OfGroup(group: Group) | OfProcessor(processor: Processor) | OfConnection(connection: Connection)
    | OfInput(input: Port) | OfOutput(output: Port) | OfRemote(remote: Remote)

  // ----- The components, in the order of the walk -----

  /** The entries of an optional list that carry a snapshot, from the front. */
  function Carried<T>(xs: seq<Option<T>>, wrap: T -> Component): seq<Component> {
    if xs == [] then []
    else if xs[0].Some? then [wrap(xs[0].value)] + Carried(xs[1..], wrap)
    else Carried(xs[1..], wrap)
  }

  function Entries<T>(xs: Option<seq<T>>): seq<T> {
    if xs.Some? then xs.value else []
  }

  function AsProcessor(p: Processor): Component { OfProcessor(p) }

  function AsConnection(c: Connection): Component { OfConnection(c) }

  function AsInput(p: Port): Component { OfInput(p) }

  function AsOutput(p: Port): Component { OfOutput(p) }

  function AsRemote(r: Remote): Component { OfRemote(r) }

  function Own(g: Group): seq<Component> {
    [OfGroup(g)]
    + Carried(Entries(g.processors), AsProcessor)
    + Carried(Entries(g.connections), AsConnection)
    + Carried(Entries(g.inputPorts), AsInput)
    + Carried(Entries(g.outputPorts), AsOutput)
    + Carried(Entries(g.remotes), AsRemote)
  }

  /** A group's own components, then the subtree of each child that carries a snapshot. */
  function Components(g: Group): seq<Component>
    decreases g, 1, 0
  {
    match g.children
    case NotListed => Own(g)
    case Listed(entries) => Own(g) + OfChildren(g, |entries|)
  }

  function OfChildren(g: Group, n: nat): seq<Component>
    requires g.children.Listed? && n <= |g.children.entries|
    decreases g, 0, n
  {
    if n == 0 then []
    else if g.children.entries[n - 1].Some? then
      OfChildren(g, n - 1) + Components(g.children.entries[n - 1].value)
    else OfChildren(g, n - 1)
  }

  // ----- What is shown of each -----

  predicate ShowsText(x: Option<string>, s: string) {
    s == if x.Some? then x.value else ""
  }

  predicate ShowsCount(x: Option<int>, n: int) {
    if x.Some? && x.value >= 0 then n == x.value else n == 0
  }

  /** The fuller of the two limits: not below either, and one of them unless both are missing or negative. */
  predicate ShowsFill(c: Connection, n: int) {
    && n >= 0 && (c.percentUseCount.Some? ==> n >= c.percentUseCount.value)
    && (c.percentUseBytes.Some? ==> n >= c.percentUseBytes.value)
    && (n == 0 || c.percentUseCount == Some(n) || c.percentUseBytes == Some(n))
  }

  predicate ShowsPort(p: Port, x: Item) {
    ShowsText(p.id, x.id) && ShowsText(p.groupId, x.groupId) && ShowsText(p.name, x.name) && x.status == PortStatus
  }

  predicate ShowsConnection(c: Connection, x: Item) {
    && ShowsText(c.id, x.id) && ShowsText(c.groupId, x.groupId) && ShowsText(c.name, x.name)
    && x.status.ConnectionStatus?
    && ShowsFill(c, x.status.fillPercent) && ShowsCount(c.flowFilesQueued, x.status.flowFilesQueued)
    && ShowsText(c.queued, x.status.queuedDisplay)
    && ShowsText(c.sourceId, x.status.sourceId) && ShowsText(c.sourceName, x.status.sourceName)
    && ShowsText(c.destinationId, x.status.destinationId) && ShowsText(c.destinationName, x.status.destinationName)
  }

  predicate ShowsRemote(r: Remote, x: Item) {
    && ShowsText(r.id, x.id) && ShowsText(r.groupId, x.groupId) && ShowsText(r.name, x.name)
    && x.status.RemoteStatus?
    && ShowsText(r.transmissionStatus, x.status.transmissionStatus) && ShowsText(r.targetUri, x.status.targetUri)
    && ShowsCount(r.activeThreadCount, x.status.activeThreads)
    && ShowsCount(r.flowFilesReceived, x.status.flowFilesReceived)
    && ShowsCount(r.flowFilesSent, x.status.flowFilesSent)
    && ShowsCount(r.bytesReceived, x.status.bytesReceived) && ShowsCount(r.bytesSent, x.status.bytesSent)
  }

  /** The row `x` shows the component `d`. */
  predicate ShowsRow(d: Component, x: Item) {
    match d
    case OfGroup(g) =>
      && x.kind == ProcessGroup && ShowsText(g.id, x.id) && ShowsText(g.name, x.name) && x.groupId == ""
      && x.status == GroupStatus(0, 0, 0, 0)
    case OfProcessor(p) =>
      && x.kind == ProcessorNode && ShowsText(p.id, x.id) && ShowsText(p.groupId, x.groupId)
      && ShowsText(p.name, x.name)
      && x.status.ProcessorStatus? && ShowsText(p.runStatus, x.status.runStatus)
    case OfConnection(c) => x.kind == ConnectionNode && ShowsConnection(c, x)
    case OfInput(p) => x.kind == InputPort && ShowsPort(p, x)
    case OfOutput(p) => x.kind == OutputPort && ShowsPort(p, x)
    case OfRemote(r) => x.kind == RemoteProcessGroup && ShowsRemote(r, x)
  }

  ghost predicate ShowsRows(ds: seq<Component>, xs: seq<Item>) {
    |ds| == |xs| && forall i :: 0 <= i < |ds| ==> ShowsRow(ds[i], xs[i])
  }

  /** The queue snapshot `q` shows the connection `c`. */
  predicate ShowsQueue(c: Connection, q: QueueSnapshot) {
    && ShowsText(c.id, q.id) && ShowsText(c.groupId, q.groupId) && ShowsText(c.name, q.name)
    && ShowsText(c.sourceName, q.sourceName) && ShowsText(c.destinationName, q.destinationName)
    && ShowsFill(c, q.fillPercent) && ShowsCount(c.flowFilesQueued, q.flowFilesQueued)
    && ShowsCount(c.bytesQueued, q.bytesQueued) && ShowsText(c.queued, q.queuedDisplay)
  }

  function ConnectionsIn(ds: seq<Component>): seq<Connection> {
    if ds == [] then []
    else ConnectionsIn(ds[..|ds| - 1])
         + (if ds[|ds| - 1].OfConnection? then [ds[|ds| - 1].connection] else [])
  }

  ghost predicate ShowsQueues(cs: seq<Connection>, qs: seq<QueueSnapshot>) {
    |cs| == |qs| && forall i :: 0 <= i < |cs| ==> ShowsQueue(cs[i], qs[i])
  }

  // ----- The rows -----

  lemma GroupShows(g: Group)
    ensures ShowsRow(OfGroup(g), GroupItem(g))
  {
  }

  lemma ProcessorShows(p: Processor)
    ensures ShowsRow(AsProcessor(p), ProcessorItem(p))
  {
  }

  lemma ConnectionShows(c: Connection)
    ensures ShowsRow(AsConnection(c), ConnectionItem(c)) && ShowsQueue(c, QueueOf(c))
  {
  }

  lemma PortShows(p: Port)
    ensures ShowsRow(AsInput(p), InputPortItem(p)) && ShowsRow(AsOutput(p), OutputPortItem(p))
  {
  }

  lemma RemoteShows(r: Remote)
    ensures ShowsRow(AsRemote(r), RemoteItem(r))
  {
  }

  lemma {:induction false} CarriedLast<T>(xs: seq<Option<T>>, wrap: T -> Component)
    requires xs != []
    ensures Carried(xs, wrap)
         == Carried(xs[..|xs| - 1], wrap) + (if xs[|xs| - 1].Some? then [wrap(xs[|xs| - 1].value)] else [])
    decreases |xs|
  {
    if |xs| == 1 {
      assert xs[1..] == [] == xs[..0];
    } else {
      CarriedLast(xs[1..], wrap);
      assert xs[1..][..|xs| - 2] == xs[..|xs| - 1][1..];
    }
  }

  lemma {:induction false} CarriedShow<T>(xs: seq<Option<T>>, wrap: T -> Component, f: T -> Item)
    requires forall x :: ShowsRow(wrap(x), f(x))
    ensures ShowsRows(Carried(xs, wrap), Collect(xs, f))
    decreases |xs|
  {
    hide ShowsRow;
    if xs != [] {
      CarriedShow(xs[..|xs| - 1], wrap, f);
      CarriedLast(xs, wrap);
    }
  }

  lemma ShowsConcat(ds: seq<Component>, es: seq<Component>, xs: seq<Item>, ys: seq<Item>)
    requires ShowsRows(ds, xs) && ShowsRows(es, ys)
    ensures ShowsRows(ds + es, xs + ys)
  {
    hide ShowsRow;
  }

  lemma PartShows<T>(xs: Option<seq<Option<T>>>, wrap: T -> Component, f: T -> Item)
    requires forall x :: ShowsRow(wrap(x), f(x))
    ensures ShowsRows(Carried(Entries(xs), wrap), Collect(xs.GetOr([]), f))
  {
    hide ShowsRow;
    CarriedShow(Entries(xs), wrap, f);
  }

  lemma OwnShow(g: Group)
    ensures ShowsRows(Own(g), [GroupItem(g)] + Leaves(g))
  {
    hide ShowsRow, ShowsRows, Carried, Collect, Entries;
    hide AsProcessor, AsConnection, AsInput, AsOutput, AsRemote;
    hide GroupItem, ProcessorItem, ConnectionItem, InputPortItem, OutputPortItem, RemoteItem;
    forall p ensures ShowsRow(AsProcessor(p), ProcessorItem(p)) { ProcessorShows(p); }
    forall c ensures ShowsRow(AsConnection(c), ConnectionItem(c)) { ConnectionShows(c); }
    forall p ensures ShowsRow(AsInput(p), InputPortItem(p)) { PortShows(p); }
    forall p ensures ShowsRow(AsOutput(p), OutputPortItem(p)) { PortShows(p); }
    forall r ensures ShowsRow(AsRemote(r), RemoteItem(r)) { RemoteShows(r); }
    PartShows(g.processors, AsProcessor, ProcessorItem);
    PartShows(g.connections, AsConnection, ConnectionItem);
    PartShows(g.inputPorts, AsInput, InputPortItem);
    PartShows(g.outputPorts, AsOutput, OutputPortItem);
    PartShows(g.remotes, AsRemote, RemoteItem);
    OneGroupShows(g);
    var d1, x1 := Carried(Entries(g.processors), AsProcessor), Collect(g.processors.GetOr([]), ProcessorItem);
    var d2, x2 := Carried(Entries(g.connections), AsConnection), Collect(g.connections.GetOr([]), ConnectionItem);
    var d3, x3 := Carried(Entries(g.inputPorts), AsInput), Collect(g.inputPorts.GetOr([]), InputPortItem);
    var d4, x4 := Carried(Entries(g.outputPorts), AsOutput), Collect(g.outputPorts.GetOr([]), OutputPortItem);
    var d5, x5 := Carried(Entries(g.remotes), AsRemote), Collect(g.remotes.GetOr([]), RemoteItem);
    SixShow([OfGroup(g)], d1, d2, d3, d4, d5, [GroupItem(g)], x1, x2, x3, x4, x5);
    Associate([GroupItem(g)], x1, x2, x3, x4, x5);
  }

  lemma OneGroupShows(g: Group)
    ensures ShowsRows([OfGroup(g)], [GroupItem(g)])
  {
    GroupShows(g);
  }

  lemma SixShow(
    d0: seq<Component>, d1: seq<Component>, d2: seq<Component>, d3: seq<Component>, d4: seq<Component>,
    d5: seq<Component>, x0: seq<Item>, x1: seq<Item>, x2: seq<Item>, x3: seq<Item>, x4: seq<Item>, x5: seq<Item>)
    requires ShowsRows(d0, x0) && ShowsRows(d1, x1) && ShowsRows(d2, x2)
    requires ShowsRows(d3, x3) && ShowsRows(d4, x4) && ShowsRows(d5, x5)
    ensures ShowsRows(d0 + d1 + d2 + d3 + d4 + d5, x0 + x1 + x2 + x3 + x4 + x5)
  {
    hide ShowsRows;
    ShowsConcat(d0, d1, x0, x1);
    ShowsConcat(d0 + d1, d2, x0 + x1, x2);
    ShowsConcat(d0 + d1 + d2, d3, x0 + x1 + x2, x3);
    ShowsConcat(d0 + d1 + d2 + d3, d4, x0 + x1 + x2 + x3, x4);
    ShowsConcat(d0 + d1 + d2 + d3 + d4, d5, x0 + x1 + x2 + x3 + x4, x5);
  }

  /** The rows show the components of the tree, one for one and in the order of the walk. */
  lemma {:induction false} RowsShowComponents(g: Group)
    ensures ShowsRows(Components(g), Dfs(g))
    decreases g, 1, 0
  {
    hide ShowsRows, Own, Leaves;
    OwnShow(g);
    UnfoldDfs(g);
    match g.children
    case NotListed =>
      assert [GroupItem(g)] + Leaves(g) + [] == [GroupItem(g)] + Leaves(g);
    case Listed(entries) =>
      ChildrenShow(g, |entries|);
      ShowsConcat(Own(g), OfChildren(g, |entries|), [GroupItem(g)] + Leaves(g), DfsKids(g, |entries|));
  }

  lemma {:induction false} ChildrenShow(g: Group, n: nat)
    requires g.children.Listed? && n <= |g.children.entries|
    ensures ShowsRows(OfChildren(g, n), DfsKids(g, n))
    decreases g, 0, n
  {
    hide ShowsRow, Components, Dfs;
    if n > 0 {
      ChildrenShow(g, n - 1);
      var entry := g.children.entries[n - 1];
      if entry.Some? {
        RowsShowComponents(entry.value);
        ShowsConcat(OfChildren(g, n - 1), Components(entry.value), DfsKids(g, n - 1), Dfs(entry.value));
      }
    }
  }

  // ----- The queues -----

  lemma {:induction false} ConnectionsConcat(ds: seq<Component>, es: seq<Component>)
    ensures ConnectionsIn(ds + es) == ConnectionsIn(ds) + ConnectionsIn(es)
    decreases |es|
  {
    if es == [] {
      assert ds + es == ds;
    } else {
      assert (ds + es)[..|ds + es| - 1] == ds + es[..|es| - 1];
      ConnectionsConcat(ds, es[..|es| - 1]);
    }
  }

  lemma {:induction false} NoConnections<T>(xs: seq<Option<T>>, wrap: T -> Component)
    requires forall x :: !wrap(x).OfConnection?
    ensures ConnectionsIn(Carried(xs, wrap)) == []
    decreases |xs|
  {
    if xs != [] {
      var n := |xs| - 1;
      CarriedLast(xs, wrap);
      NoConnections(xs[..n], wrap);
      ConnectionsConcat(Carried(xs[..n], wrap), if xs[n].Some? then [wrap(xs[n].value)] else []);
    }
  }

  lemma {:induction false} CarriedQueues(xs: seq<Option<Connection>>)
    ensures ShowsQueues(ConnectionsIn(Carried(xs, AsConnection)), Collect(xs, QueueOf))
    decreases |xs|
  {
    hide ShowsQueue, QueueOf;
    if xs != [] {
      var n := |xs| - 1;
      CarriedLast(xs, AsConnection);
      CarriedQueues(xs[..n]);
      var front := Carried(xs[..n], AsConnection);
      if xs[n].Some? {
        var c := xs[n].value;
        ConnectionShows(c);
        assert (front + [OfConnection(c)])[..|front|] == front;
        assert ConnectionsIn(front + [OfConnection(c)]) == ConnectionsIn(front) + [c];
      } else {
        assert Carried(xs, AsConnection) == front;
      }
    }
  }

  lemma OwnQueues(g: Group)
    ensures ShowsQueues(ConnectionsIn(Own(g)), Collect(g.connections.GetOr([]), QueueOf))
  {
    hide Carried, Collect, ConnectionsIn, ShowsQueues;
    var procs, conns := Carried(Entries(g.processors), AsProcessor), Carried(Entries(g.connections), AsConnection);
    var ins, outs := Carried(Entries(g.inputPorts), AsInput), Carried(Entries(g.outputPorts), AsOutput);
    var remotes := Carried(Entries(g.remotes), AsRemote);
    ConnectionsConcat([OfGroup(g)] + procs + conns + ins + outs, remotes);
    ConnectionsConcat([OfGroup(g)] + procs + conns + ins, outs);
    ConnectionsConcat([OfGroup(g)] + procs + conns, ins);
    ConnectionsConcat([OfGroup(g)] + procs, conns);
    ConnectionsConcat([OfGroup(g)], procs);
    NoConnections(Entries(g.processors), AsProcessor);
    NoConnections(Entries(g.inputPorts), AsInput);
    NoConnections(Entries(g.outputPorts), AsOutput);
    NoConnections(Entries(g.remotes), AsRemote);
    GroupIsNoConnection(g);
    CarriedQueues(Entries(g.connections));
    assert Entries(g.connections) == g.connections.GetOr([]);
    assert ConnectionsIn(Own(g)) == ConnectionsIn(conns);
  }

  lemma GroupIsNoConnection(g: Group)
    ensures ConnectionsIn([OfGroup(g)]) == []
  {
  }

  lemma QueuesJoin(cs: seq<Connection>, ds: seq<Connection>, ps: seq<QueueSnapshot>, qs: seq<QueueSnapshot>)
    requires ShowsQueues(cs, ps) && ShowsQueues(ds, qs)
    ensures ShowsQueues(cs + ds, ps + qs)
  {
    hide ShowsQueue;
  }

  /** The queue walk shows the connections of the tree, one for one and in the order of the walk. */
  lemma {:induction false} QueuesShowConnections(g: Group)
    ensures ShowsQueues(ConnectionsIn(Components(g)), Queues(g))
    decreases g, 1, 0
  {
    hide ShowsQueues, Own, ConnectionsIn, Collect;
    OwnQueues(g);
    NoQueues(g);
    match g.children
    case NotListed =>
      assert Queues(g) == Collect(g.connections.GetOr([]), QueueOf);
    case Listed(entries) =>
      ChildQueues(g, |entries|);
      ConnectionsConcat(Own(g), OfChildren(g, |entries|));
      QueuesJoin(ConnectionsIn(Own(g)), ConnectionsIn(OfChildren(g, |entries|)),
                 Collect(g.connections.GetOr([]), QueueOf), QueuesKids(g, |entries|));
  }

  lemma {:induction false} ChildQueues(g: Group, n: nat)
    requires g.children.Listed? && n <= |g.children.entries|
    ensures ShowsQueues(ConnectionsIn(OfChildren(g, n)), QueuesKids(g, n))
    decreases g, 0, n
  {
    hide ShowsQueue, Components, Queues;
    if n > 0 {
      ChildQueues(g, n - 1);
      var entry := g.children.entries[n - 1];
      UnfoldQueuesKids(g, n - 1);
      if entry.Some? {
        QueuesShowConnections(entry.value);
        ConnectionsConcat(OfChildren(g, n - 1), Components(entry.value));
        QueuesJoin(ConnectionsIn(OfChildren(g, n - 1)), ConnectionsIn(Components(entry.value)),
                   QueuesKids(g, n - 1), Queues(entry.value));
      }
    }
  }

  // ----- The tallies -----

  function Tally(ds: seq<Component>, p: Component -> bool): nat {
    if ds == [] then 0 else Tally(ds[..|ds| - 1], p) + (if p(ds[|ds| - 1]) then 1 else 0)
  }

  /** `s` spells the upper-case `word`, each letter in either case. */
  predicate Spells(s: string, word: string) {
    |s| == |word| && forall i :: 0 <= i < |s| ==> s[i] == word[i] || s[i] as int == word[i] as int + 32
  }

  function ProcessorIn(word: string): Component -> bool {
    (d: Component) => d.OfProcessor? && d.processor.runStatus.Some? && Spells(d.processor.runStatus.value, word)
  }

  predicate Transmits(r: Remote) {
    r.transmissionStatus.Some? && Spells(r.transmissionStatus.value, "TRANSMITTING")
  }

  function RemoteThat(transmits: bool): Component -> bool {
    (d: Component) => d.OfRemote? && Transmits(d.remote) == transmits
  }

  function IsGroup(): Component -> bool {
    (d: Component) => d.OfGroup?
  }

  function IsRemote(): Component -> bool {
    (d: Component) => d.OfRemote?
  }

  lemma {:induction false} CountsAgree(ds: seq<Component>, xs: seq<Item>, p: Component -> bool, q: Item -> bool)
    requires ShowsRows(ds, xs) && forall d, x :: ShowsRow(d, x) ==> p(d) == q(x)
    ensures Tally(ds, p) == Count(xs, q)
    decreases |ds|
  {
    hide ShowsRow;
    if ds != [] {
      CountsAgree(ds[..|ds| - 1], xs[..|xs| - 1], p, q);
    }
  }

  lemma SpellsCapitals(s: string, t: string, word: string)
    requires |t| == |word|
    requires forall i :: 0 <= i < |t| ==> 'A' <= word[i] <= 'Z' && LowerChar(t[i]) == LowerChar(word[i])
    ensures SameIgnoringCase(s, t) <==> Spells(s, word)
  {
  }

  /** The state words, letter by letter. */
  lemma StatesAreSpelled(s: string)
    ensures RunStateOf(s) == Running <==> Spells(s, "RUNNING")
    ensures RunStateOf(s) == Stopped <==> Spells(s, "STOPPED")
    ensures RunStateOf(s) == Invalid <==> Spells(s, "INVALID")
    ensures RunStateOf(s) == Disabled <==> Spells(s, "DISABLED")
    ensures IsTransmitting(s) <==> Spells(s, "TRANSMITTING")
  {
    SpellsCapitals(s, "RUNNING", "RUNNING");
    SpellsCapitals(s, "STOPPED", "STOPPED");
    SpellsCapitals(s, "INVALID", "INVALID");
    SpellsCapitals(s, "DISABLED", "DISABLED");
    SpellsCapitals(s, "VALIDATING", "VALIDATING");
    SpellsCapitals(s, "Transmitting", "TRANSMITTING");
    assert Spells(s, "RUNNING") ==> s[0] == 'R' || s[0] == 'r';
    assert Spells(s, "STOPPED") ==> s[0] == 'S' || s[0] == 's';
    assert Spells(s, "INVALID") ==> s[0] == 'I' || s[0] == 'i';
    assert Spells(s, "DISABLED") ==> s[0] == 'D' || s[0] == 'd';
  }

  lemma RowOfProcessor(d: Component, x: Item)
    requires ShowsRow(d, x)
    ensures ProcessorIn("RUNNING")(d) == InState(Running)(x) && ProcessorIn("STOPPED")(d) == InState(Stopped)(x)
    ensures ProcessorIn("INVALID")(d) == InState(Invalid)(x) && ProcessorIn("DISABLED")(d) == InState(Disabled)(x)
  {
    hide RunStateOf, Spells;
    if d.OfProcessor? {
      StatesAreSpelled(x.status.runStatus);
      StatesAreSpelled("");
      NothingIsSpelled();
    }
  }

  lemma NothingIsSpelled()
    ensures !Spells("", "RUNNING") && !Spells("", "STOPPED") && !Spells("", "INVALID") && !Spells("", "DISABLED")
    ensures !Spells("", "TRANSMITTING")
  {
  }

  lemma RowOfRemote(d: Component, x: Item)
    requires ShowsRow(d, x)
    ensures RemoteThat(true)(d) == RemoteTransmits(true)(x) && RemoteThat(false)(d) == RemoteTransmits(false)(x)
    ensures IsRemote()(d) == OfKind(RemoteProcessGroup)(x) && IsGroup()(d) == OfKind(ProcessGroup)(x)
  {
    hide IsTransmitting, Spells;
    if d.OfRemote? {
      StatesAreSpelled(x.status.transmissionStatus);
      NothingIsSpelled();
    }
  }

  /** Counting rows is counting components of the tree. */
  lemma TalliesAgree(ds: seq<Component>, xs: seq<Item>)
    requires ShowsRows(ds, xs)
    ensures Count(xs, InState(Running)) == Tally(ds, ProcessorIn("RUNNING"))
    ensures Count(xs, InState(Stopped)) == Tally(ds, ProcessorIn("STOPPED"))
    ensures Count(xs, InState(Invalid)) == Tally(ds, ProcessorIn("INVALID"))
    ensures Count(xs, InState(Disabled)) == Tally(ds, ProcessorIn("DISABLED"))
    ensures Count(xs, RemoteTransmits(true)) == Tally(ds, RemoteThat(true))
    ensures Count(xs, RemoteTransmits(false)) == Tally(ds, RemoteThat(false))
    ensures Count(xs, OfKind(RemoteProcessGroup)) == Tally(ds, IsRemote())
    ensures Count(xs, OfKind(ProcessGroup)) == Tally(ds, IsGroup())
  {
    hide ShowsRow, ShowsRows, Tally, Count, ProcessorIn, InState;
    hide RemoteThat, RemoteTransmits, IsRemote, IsGroup, OfKind;
    forall d, x | ShowsRow(d, x)
      ensures ProcessorIn("RUNNING")(d) == InState(Running)(x) && ProcessorIn("STOPPED")(d) == InState(Stopped)(x)
      ensures ProcessorIn("INVALID")(d) == InState(Invalid)(x) && ProcessorIn("DISABLED")(d) == InState(Disabled)(x)
      ensures RemoteThat(true)(d) == RemoteTransmits(true)(x) && RemoteThat(false)(d) == RemoteTransmits(false)(x)
      ensures IsRemote()(d) == OfKind(RemoteProcessGroup)(x) && IsGroup()(d) == OfKind(ProcessGroup)(x)
    {
      RowOfProcessor(d, x);
      RowOfRemote(d, x);
    }
    CountsAgree(ds, xs, ProcessorIn("RUNNING"), InState(Running));
    CountsAgree(ds, xs, ProcessorIn("STOPPED"), InState(Stopped));
    CountsAgree(ds, xs, ProcessorIn("INVALID"), InState(Invalid));
    CountsAgree(ds, xs, ProcessorIn("DISABLED"), InState(Disabled));
    CountsAgree(ds, xs, RemoteThat(true), RemoteTransmits(true));
    CountsAgree(ds, xs, RemoteThat(false), RemoteTransmits(false));
    CountsAgree(ds, xs, IsRemote(), OfKind(RemoteProcessGroup));
    CountsAgree(ds, xs, IsGroup(), OfKind(ProcessGroup));
  }
}
