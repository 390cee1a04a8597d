/**
 The flat arena the process-group tree is walked into (`walk_pg_nodes`,
 src/client/browser.rs:137-270) and the proof that nothing of the tree is lost:
 parent indices and kinds are enough to rebuild it.
 */
module Arena {
  import opened GroupTree
  import opened Wrappers

  datatype Row = Row(parent: Option<nat>, item: Item)

  /** The `&mut Vec<RawNode>` the walker appends to. */
  class Nodes {
    var rows: seq<Row>

    constructor ()
      ensures rows == []
    {
      rows := [];
    }
  }

  // ----- What the walker emits -----

  function Under(parent: nat, items: seq<Item>): seq<Row> {
    seq(|items|, i requires 0 <= i < |items| => Row(Some(parent), items[i]))
  }

  /** The rows of `g`'s subtree when its own row lands at index `base`. */
  function Flatten(g: Group, parent: Option<nat>, base: nat): (rows: seq<Row>)
    ensures rows != [] && rows[0] == Row(parent, GroupItem(g))
    decreases g, |Children(g)| + 1
  {
    var own := [Row(parent, GroupItem(g))] + Under(base, Leaves(g));
    own + FlattenKids(g, |Children(g)|, base, base + |own|)
  }

  /** The rows of the first `n` children of `g`, whose own row is at `parent`. */
  function FlattenKids(g: Group, n: nat, parent: nat, base: nat): seq<Row>
    requires n <= |Children(g)|
    decreases g, n
  {
    if n == 0 then []
    else
      var front := FlattenKids(g, n - 1, parent, base);
      match Children(g)[n - 1]
      case Some(child) => front + Flatten(child, Some(parent), base + |front|)
      case None => front
  }

  lemma FlattenNoKids(g: Group, parent: nat, base: nat)
    ensures FlattenKids(g, 0, parent, base) == []
  {
  }

  lemma FlattenOneKid(g: Group, n: nat, parent: nat, base: nat)
    requires n < |Children(g)|
    ensures FlattenKids(g, n + 1, parent, base)
         == if Children(g)[n].None? then FlattenKids(g, n, parent, base)
            else FlattenKids(g, n, parent, base)
                 + Flatten(Children(g)[n].value, Some(parent), base + |FlattenKids(g, n, parent, base)|)
    ensures Children(g)[n].Some? ==> (g decreases to Children(g)[n].value)
  {
    hide Flatten;
  }

  // ----- The walk -----

  method AppendItems<T>(entries: Option<seq<Option<T>>>, f: T -> Item, parent: nat, out: Nodes)
    modifies out
    ensures out.rows == old(out.rows) + Under(parent, Collect(entries.GetOr([]), f))
  {
    var xs := entries.GetOr([]);
    for i := 0 to |xs|
      invariant out.rows == old(out.rows) + Under(parent, Collect(xs[..i], f))
    {
      CollectStep(xs, f, i);
      match xs[i]
      case Some(x) => out.rows := out.rows + [Row(Some(parent), f(x))];
      case None =>
    }
    assert xs[..|xs|] == xs;
  }

  lemma UnderConcat(parent: nat, xs: seq<Item>, ys: seq<Item>)
    ensures Under(parent, xs + ys) == Under(parent, xs) + Under(parent, ys)
  {
  }

  /** `walk_pg_nodes`: the group's row, its components by kind, then each child's subtree. */
  method WalkPgNodes(g: Group, parent: Option<nat>, out: Nodes)
    modifies out
    ensures out.rows == old(out.rows) + Flatten(g, parent, |old(out.rows)|)
    decreases g
  {
    hide *;
    var pgIdx := |out.rows|;
    out.rows := out.rows + [Row(parent, GroupItem(g))];
    label leaves:
    AppendItems(g.processors, ProcessorItem, pgIdx, out);
    AppendItems(g.connections, ConnectionItem, pgIdx, out);
    AppendItems(g.inputPorts, InputPortItem, pgIdx, out);
    AppendItems(g.outputPorts, OutputPortItem, pgIdx, out);
    AppendItems(g.remotes, RemoteItem, pgIdx, out);
    LeavesUnder(old@leaves(out.rows), g, pgIdx);
    ghost var own := out.rows;
    var children := Children(g);
    FlattenParts(g, parent, pgIdx);
    FlattenNoKids(g, pgIdx, |own|);
    for n := 0 to |children|
      invariant out.rows == own + FlattenKids(g, n, pgIdx, |own|)
    {
      FlattenOneKid(g, n, pgIdx, |own|);
      match children[n]
      case Some(child) => WalkPgNodes(child, Some(pgIdx), out);
      case None =>
    }
  }

  lemma FlattenParts(g: Group, parent: Option<nat>, base: nat)
    ensures Flatten(g, parent, base) == [Row(parent, GroupItem(g))] + Under(base, Leaves(g))
                                        + FlattenKids(g, |Children(g)|, base, base + 1 + |Leaves(g)|)
    ensures |Under(base, Leaves(g))| == |Leaves(g)|
  {
    hide Leaves, FlattenKids;
  }

  /** Appending the rows kind by kind appends those of all leaves. */
  lemma LeavesUnder(before: seq<Row>, g: Group, parent: nat)
    ensures before + Under(parent, Leaves(g))
         == before + Under(parent, Collect(g.processors.GetOr([]), ProcessorItem))
            + Under(parent, Collect(g.connections.GetOr([]), ConnectionItem))
            + Under(parent, Collect(g.inputPorts.GetOr([]), InputPortItem))
            + Under(parent, Collect(g.outputPorts.GetOr([]), OutputPortItem))
            + Under(parent, Collect(g.remotes.GetOr([]), RemoteItem))
  {
    hide Collect, Under;
    var p, c := Collect(g.processors.GetOr([]), ProcessorItem), Collect(g.connections.GetOr([]), ConnectionItem);
    var ip, op := Collect(g.inputPorts.GetOr([]), InputPortItem), Collect(g.outputPorts.GetOr([]), OutputPortItem);
    var r := Collect(g.remotes.GetOr([]), RemoteItem);
    UnderConcat(parent, p, c);
    UnderConcat(parent, p + c, ip);
    UnderConcat(parent, p + c + ip, op);
    UnderConcat(parent, p + c + ip + op, r);
    Associate(before, Under(parent, p), Under(parent, c), Under(parent, ip), Under(parent, op), Under(parent, r));
  }

  lemma Associate<T>(a: seq<T>, b: seq<T>, c: seq<T>, d: seq<T>, e: seq<T>, f: seq<T>)
    ensures a + (b + c + d + e + f) == a + b + c + d + e + f
  {
  }
}
