/**
 The other three walks of the same tree (`collect_queues`, `collect_counts`,
 `collect_pg_ids`) and `RootPgStatusSnapshot::from_aggregate`, which runs all
 four (src/client/mod.rs:75-106, 556-658). What they collect is stated on the
 rows of the arena, so the four walks are proved to agree.
 */
module GroupWalks {
  import opened Arena
  import opened GroupTree
  import opened Wrappers

  // ----- Wire strings (src/client/status.rs:10-40, 140-180) -----

  datatype RunState = Running | Stopped | Invalid | Disabled | Validating | UnknownState

  function LowerChar(c: char): char {
    if 'A' <= c <= 'Z' then c - 'A' + 'a' else c
  }

  predicate SameIgnoringCase(s: string, t: string) {
    |s| == |t| && forall i :: 0 <= i < |s| ==> LowerChar(s[i]) == LowerChar(t[i])
  }

  function RunStateOf(s: string): RunState {
    if SameIgnoringCase(s, "RUNNING") then Running
    else if SameIgnoringCase(s, "STOPPED") then Stopped
    else if SameIgnoringCase(s, "INVALID") then Invalid
    else if SameIgnoringCase(s, "DISABLED") then Disabled
    else if SameIgnoringCase(s, "VALIDATING") then Validating
    else UnknownState
  }

  predicate IsTransmitting(s: string) {
    SameIgnoringCase(s, "Transmitting")
  }

  // ----- Counting rows -----

  /** The rows' items in arena order. */
  function Items(rows: seq<Row>): seq<Item> {
    seq(|rows|, i requires 0 <= i < |rows| => rows[i].item)
  }

  function Count(items: seq<Item>, p: Item -> bool): nat {
    if items == [] then 0
    else Count(items[..|items| - 1], p) + (if p(items[|items| - 1]) then 1 else 0)
  }

  function OfKind(kind: Kind): Item -> bool {
    (x: Item) => x.kind == kind
  }

  function InState(state: RunState): Item -> bool {
    (x: Item) => x.status.ProcessorStatus? && RunStateOf(x.status.runStatus) == state
  }

  function RemoteTransmits(yes: bool): Item -> bool {
    (x: Item) => x.status.RemoteStatus? && IsTransmitting(x.status.transmissionStatus) == yes
  }

  /** The non-empty ids of the group rows, in order. */
  function GroupIds(items: seq<Item>): seq<string> {
    if items == [] then []
    else
      var x := items[|items| - 1];
      GroupIds(items[..|items| - 1]) + (if x.kind == ProcessGroup && x.id != "" then [x.id] else [])
  }

  /** Counters are `u32` and wrap around. */
  type u32 = x: int | 0 <= x < 0x1_0000_0000

  function Wrap32(n: nat): u32 {
    n % 0x1_0000_0000
  }

  lemma {:induction false} CountConcat(xs: seq<Item>, ys: seq<Item>, p: Item -> bool)
    ensures Count(xs + ys, p) == Count(xs, p) + Count(ys, p)
  {
    if ys == [] {
      assert xs + ys == xs;
    } else {
      assert (xs + ys)[..|xs + ys| - 1] == xs + ys[..|ys| - 1];
      CountConcat(xs, ys[..|ys| - 1], p);
    }
  }

  lemma {:induction false} CountNone(items: seq<Item>, p: Item -> bool)
    requires forall i :: 0 <= i < |items| ==> !p(items[i])
    ensures Count(items, p) == 0
  {
    if items != [] { CountNone(items[..|items| - 1], p); }
  }

  lemma {:induction false} GroupIdsConcat(xs: seq<Item>, ys: seq<Item>)
    ensures GroupIds(xs + ys) == GroupIds(xs) + GroupIds(ys)
  {
    if ys == [] {
      assert xs + ys == xs;
    } else {
      assert (xs + ys)[..|xs + ys| - 1] == xs + ys[..|ys| - 1];
      GroupIdsConcat(xs, ys[..|ys| - 1]);
    }
  }

  lemma {:induction false} NoGroupIds(items: seq<Item>)
    requires LacksKind(items, ProcessGroup)
    ensures GroupIds(items) == []
  {
    if items != [] { NoGroupIds(items[..|items| - 1]); }
  }

  // ----- The rows in walk order, free of indices -----

  function Dfs(g: Group): seq<Item>
    decreases g, |Children(g)| + 1
  {
    [GroupItem(g)] + Leaves(g) + DfsKids(g, |Children(g)|)
  }

  function DfsKids(g: Group, n: nat): seq<Item>
    requires n <= |Children(g)|
    decreases g, n
  {
    if n == 0 then []
    else
      match Children(g)[n - 1]
      case Some(child) => DfsKids(g, n - 1) + Dfs(child)
      case None => DfsKids(g, n - 1)
  }

  lemma UnfoldDfs(g: Group)
    ensures Dfs(g) == [GroupItem(g)] + Leaves(g) + DfsKids(g, |Children(g)|)
    ensures DfsKids(g, 0) == []
  {
    hide Leaves;
  }

  lemma UnfoldDfsKids(g: Group, n: nat)
    requires n < |Children(g)|
    ensures DfsKids(g, n + 1)
         == if Children(g)[n].Some? then DfsKids(g, n) + Dfs(Children(g)[n].value) else DfsKids(g, n)
    ensures Children(g)[n].Some? ==> (g decreases to Children(g)[n].value)
  {
    hide Dfs;
  }

  lemma ItemsConcat(xs: seq<Row>, ys: seq<Row>)
    ensures Items(xs + ys) == Items(xs) + Items(ys)
  {
  }

  lemma {:induction false} FlattenItems(g: Group, parent: Option<nat>, base: nat)
    ensures Items(Flatten(g, parent, base)) == Dfs(g)
    decreases g, |Children(g)| + 1
  {
    hide Leaves, Flatten, FlattenKids, DfsKids;
    var own := [Row(parent, GroupItem(g))] + Under(base, Leaves(g));
    FlattenParts(g, parent, base);
    KidsItems(g, |Children(g)|, base, base + |own|);
    ItemsConcat(own, FlattenKids(g, |Children(g)|, base, base + |own|));
    assert Items(own) == [GroupItem(g)] + Leaves(g);
  }

  lemma {:induction false} KidsItems(g: Group, n: nat, parent: nat, base: nat)
    requires n <= |Children(g)|
    ensures Items(FlattenKids(g, n, parent, base)) == DfsKids(g, n)
    decreases g, n
  {
    hide Flatten, FlattenKids, Dfs, DfsKids;
    UnfoldDfs(g);
    FlattenNoKids(g, parent, base);
    if n > 0 {
      KidsItems(g, n - 1, parent, base);
      UnfoldDfsKids(g, n - 1);
      FlattenOneKid(g, n - 1, parent, base);
      var front := FlattenKids(g, n - 1, parent, base);
      if Children(g)[n - 1].Some? {
        var child := Children(g)[n - 1].value;
        FlattenItems(child, Some(parent), base + |front|);
        ItemsConcat(front, Flatten(child, Some(parent), base + |front|));
      }
    }
  }

  // ----- Queues -----

  datatype QueueSnapshot = QueueSnapshot(
    id: string, groupId: string, name: string, sourceName: string, destinationName: string,
    fillPercent: nat, flowFilesQueued: nat, bytesQueued: nat, queuedDisplay: string)

  function QueueOf(c: Connection): QueueSnapshot {
    QueueSnapshot(c.id.GetOr(""), c.groupId.GetOr(""), c.name.GetOr(""), c.sourceName.GetOr(""),
                  c.destinationName.GetOr(""), FillPercent(c), NonNegative(c.flowFilesQueued),
                  NonNegative(c.bytesQueued), c.queued.GetOr(""))
  }

  /** What a queue snapshot and a connection row both record. */
  datatype QueueFacts = QueueFacts(
    id: string, groupId: string, name: string, sourceName: string, destinationName: string,
    fillPercent: nat, flowFilesQueued: nat, queuedDisplay: string)

  function FactsOfQueue(q: QueueSnapshot): QueueFacts {
    QueueFacts(q.id, q.groupId, q.name, q.sourceName, q.destinationName, q.fillPercent, q.flowFilesQueued,
               q.queuedDisplay)
  }

  function FactsOfQueues(qs: seq<QueueSnapshot>): seq<QueueFacts> {
    seq(|qs|, i requires 0 <= i < |qs| => FactsOfQueue(qs[i]))
  }

  /** The connection rows, in arena order. */
  function ConnectionFacts(items: seq<Item>): seq<QueueFacts> {
    if items == [] then []
    else
      var x := items[|items| - 1];
      ConnectionFacts(items[..|items| - 1])
      + (match x.status
         case ConnectionStatus(fill, ffq, disp, _, sourceName, _, destinationName) =>
           [QueueFacts(x.id, x.groupId, x.name, sourceName, destinationName, fill, ffq, disp)]
         case _ => [])
  }

  function Queues(g: Group): seq<QueueSnapshot>
    decreases g, |Children(g)| + 1
  {
    Collect(g.connections.GetOr([]), QueueOf) + QueuesKids(g, |Children(g)|)
  }

  function QueuesKids(g: Group, n: nat): seq<QueueSnapshot>
    requires n <= |Children(g)|
    decreases g, n
  {
    if n == 0 then []
    else
      match Children(g)[n - 1]
      case Some(child) => QueuesKids(g, n - 1) + Queues(child)
      case None => QueuesKids(g, n - 1)
  }

  lemma {:induction false} FactsConcat(xs: seq<Item>, ys: seq<Item>)
    ensures ConnectionFacts(xs + ys) == ConnectionFacts(xs) + ConnectionFacts(ys)
  {
    if ys == [] {
      assert xs + ys == xs;
    } else {
      assert (xs + ys)[..|xs + ys| - 1] == xs + ys[..|ys| - 1];
      FactsConcat(xs, ys[..|ys| - 1]);
    }
  }

  lemma {:induction false} NoFacts(items: seq<Item>)
    requires forall i :: 0 <= i < |items| ==> !items[i].status.ConnectionStatus?
    ensures ConnectionFacts(items) == []
  {
    if items != [] { NoFacts(items[..|items| - 1]); }
  }

  lemma NoFactsAtAll()
    ensures FactsOfQueues([]) == [] == ConnectionFacts([])
  {
  }

  lemma QueueFactsConcat(xs: seq<QueueSnapshot>, ys: seq<QueueSnapshot>)
    ensures FactsOfQueues(xs + ys) == FactsOfQueues(xs) + FactsOfQueues(ys)
  {
  }

  /** The queue walk and the arena walk read the same facts off one connection. */
  lemma ConnectionAgrees(c: Connection)
    ensures ConnectionFacts([ConnectionItem(c)]) == FactsOfQueues([QueueOf(c)])
  {
    hide FillPercent, NonNegative;
    assert [ConnectionItem(c)][..0] == [];
    assert FactsOfQueues([QueueOf(c)]) == [FactsOfQueue(QueueOf(c))];
  }

  lemma {:induction false} ConnectionsAgree(xs: seq<Option<Connection>>)
    ensures FactsOfQueues(Collect(xs, QueueOf)) == ConnectionFacts(Collect(xs, ConnectionItem))
  {
    hide *;
    CollectLast(xs, QueueOf);
    CollectLast(xs, ConnectionItem);
    NoFactsAtAll();
    if xs != [] {
      var init := xs[..|xs| - 1];
      ConnectionsAgree(init);
      if xs[|xs| - 1].Some? {
        var c := xs[|xs| - 1].value;
        ConnectionAgrees(c);
        FactsConcat(Collect(init, ConnectionItem), [ConnectionItem(c)]);
        QueueFactsConcat(Collect(init, QueueOf), [QueueOf(c)]);
      }
    }
  }

  /** Items of a list of one status class. */
  lemma {:induction false} CollectStatus<T>(xs: seq<Option<T>>, f: T -> Item, p: Item -> bool)
    requires forall x :: p(f(x))
    ensures forall i :: 0 <= i < |Collect(xs, f)| ==> p(Collect(xs, f)[i])
  {
    if xs != [] { CollectStatus(xs[..|xs| - 1], f, p); }
  }

  lemma LeafFacts(g: Group)
    ensures ConnectionFacts(Leaves(g)) == ConnectionFacts(Collect(g.connections.GetOr([]), ConnectionItem))
  {
    hide Collect, ConnectionFacts;
    var p, c := Collect(g.processors.GetOr([]), ProcessorItem), Collect(g.connections.GetOr([]), ConnectionItem);
    var ip, op := Collect(g.inputPorts.GetOr([]), InputPortItem), Collect(g.outputPorts.GetOr([]), OutputPortItem);
    var r := Collect(g.remotes.GetOr([]), RemoteItem);
    var other := (x: Item) => !x.status.ConnectionStatus?;
    CollectStatus(g.processors.GetOr([]), ProcessorItem, other);
    CollectStatus(g.inputPorts.GetOr([]), InputPortItem, other);
    CollectStatus(g.outputPorts.GetOr([]), OutputPortItem, other);
    CollectStatus(g.remotes.GetOr([]), RemoteItem, other);
    NoFacts(p);
    NoFacts(ip);
    NoFacts(op);
    NoFacts(r);
    FactsConcat(p, c);
    FactsConcat(p + c, ip);
    FactsConcat(p + c + ip, op);
    FactsConcat(p + c + ip + op, r);
  }

  lemma NoQueues(g: Group)
    ensures QueuesKids(g, 0) == []
  {
  }

  lemma UnfoldQueuesKids(g: Group, n: nat)
    requires n < |Children(g)|
    ensures QueuesKids(g, n + 1)
         == if Children(g)[n].Some? then QueuesKids(g, n) + Queues(Children(g)[n].value) else QueuesKids(g, n)
  {
    hide Queues;
  }

  lemma {:induction false} QueuesAgree(g: Group)
    ensures FactsOfQueues(Queues(g)) == ConnectionFacts(Dfs(g))
    decreases g, |Children(g)| + 1
  {
    hide Collect, Leaves, ConnectionFacts, QueuesKids, DfsKids, FactsOfQueues, QueueOf, ConnectionItem, GroupItem;
    QueueFactsConcat(Collect(g.connections.GetOr([]), QueueOf), QueuesKids(g, |Children(g)|));
    QueuesKidsAgree(g, |Children(g)|);
    OwnRowIsGroup(g);
    ConnectionsAgree(g.connections.GetOr([]));
    LeafFacts(g);
    NoFacts([GroupItem(g)]);
    FactsConcat([GroupItem(g)], Leaves(g));
    FactsConcat([GroupItem(g)] + Leaves(g), DfsKids(g, |Children(g)|));
  }

  lemma OwnRowIsGroup(g: Group)
    ensures !GroupItem(g).status.ConnectionStatus?
  {
  }

  lemma {:induction false} QueuesKidsAgree(g: Group, n: nat)
    requires n <= |Children(g)|
    ensures FactsOfQueues(QueuesKids(g, n)) == ConnectionFacts(DfsKids(g, n))
    decreases g, n
  {
    hide *;
    NoFactsAtAll();
    UnfoldDfs(g);
    NoQueues(g);
    if n > 0 {
      QueuesKidsAgree(g, n - 1);
      UnfoldQueuesKids(g, n - 1);
      UnfoldDfsKids(g, n - 1);
      if Children(g)[n - 1].Some? {
        var child := Children(g)[n - 1].value;
        QueuesAgree(child);
        FactsConcat(DfsKids(g, n - 1), Dfs(child));
        QueueFactsConcat(QueuesKids(g, n - 1), Queues(child));
      }
    }
  }
}
