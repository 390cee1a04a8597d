/**
 Reading the tree back from the arena. `TreeAt` looks at nothing but each row's
 parent index, kind and payload; on a walked arena it returns the walked tree.
 */
module ArenaRebuild {
  import opened Arena
  import opened GroupTree
  import opened Wrappers

  // ----- The tree a group stands for, and the tree an arena stands for -----

  datatype Tree = Tree(
    group: Item, processors: seq<Item>, connections: seq<Item>, inputPorts: seq<Item>,
    outputPorts: seq<Item>, remotes: seq<Item>, children: seq<Tree>)

  /** The components and child groups that carry a snapshot, in order, at every level. */
  function View(g: Group): Tree
    decreases g, |Children(g)| + 1
  {
    Tree(GroupItem(g),
         Collect(g.processors.GetOr([]), ProcessorItem), Collect(g.connections.GetOr([]), ConnectionItem),
         Collect(g.inputPorts.GetOr([]), InputPortItem), Collect(g.outputPorts.GetOr([]), OutputPortItem),
         Collect(g.remotes.GetOr([]), RemoteItem), ViewKids(g, |Children(g)|))
  }

  function ViewKids(g: Group, n: nat): seq<Tree>
    requires n <= |Children(g)|
    decreases g, n
  {
    if n == 0 then []
    else
      match Children(g)[n - 1]
      case Some(child) => ViewKids(g, n - 1) + [View(child)]
      case None => ViewKids(g, n - 1)
  }

  function LeavesIn(rows: seq<Row>, i: nat, kind: Kind, lo: nat, hi: nat): seq<Item>
    requires lo <= hi <= |rows|
  {
    if lo == hi then []
    else
      var r := rows[hi - 1];
      LeavesIn(rows, i, kind, lo, hi - 1) + (if r.parent == Some(i) && r.item.kind == kind then [r.item] else [])
  }

  function TreeAt(rows: seq<Row>, i: nat): Tree
    requires i < |rows|
    decreases |rows| - i, |rows| + 1
  {
    var n := |rows|;
    Tree(rows[i].item,
         LeavesIn(rows, i, ProcessorNode, i + 1, n), LeavesIn(rows, i, ConnectionNode, i + 1, n),
         LeavesIn(rows, i, InputPort, i + 1, n), LeavesIn(rows, i, OutputPort, i + 1, n),
         LeavesIn(rows, i, RemoteProcessGroup, i + 1, n), KidsIn(rows, i, i + 1, n))
  }

  /** The child trees of row `i` among the rows from `lo` up to `hi`. */
  function KidsIn(rows: seq<Row>, i: nat, lo: nat, hi: nat): seq<Tree>
    requires i < lo <= hi <= |rows|
    decreases |rows| - i, hi
  {
    if lo == hi then []
    else
      var r := rows[hi - 1];
      KidsIn(rows, i, lo, hi - 1)
      + (if r.parent == Some(i) && r.item.kind == ProcessGroup then [TreeAt(rows, hi - 1)] else [])
  }

  // ----- Parents stay inside their own subtree -----

  /** Row `k` of a segment at `base` points at an earlier group row of that segment. */
  ghost predicate PointsInside(rows: seq<Row>, base: nat, k: nat)
    requires k < |rows|
  {
    && rows[k].parent.Some?
    && var p := rows[k].parent.value;
       base <= p < base + k && rows[p - base].item.kind == ProcessGroup
  }

  /** All rows of a subtree segment but the first point inside it. */
  ghost predicate Closed(rows: seq<Row>, base: nat) {
    forall k :: 0 < k < |rows| ==> PointsInside(rows, base, k)
  }

  ghost predicate IsKidOf(row: Row, parent: nat) {
    row.parent == Some(parent) && row.item.kind == ProcessGroup
  }

  /** All rows of a run of sibling subtrees point inside it or are children of `parent`. */
  ghost predicate KidsClosed(rows: seq<Row>, base: nat, parent: nat) {
    forall k :: 0 <= k < |rows| ==> IsKidOf(rows[k], parent) || PointsInside(rows, base, k)
  }

  lemma ClosedOfParts(own: seq<Row>, kids: seq<Row>, base: nat)
    requires own != [] && own[0].item.kind == ProcessGroup
    requires forall k :: 0 < k < |own| ==> own[k].parent == Some(base)
    requires KidsClosed(kids, base + |own|, base)
    ensures Closed(own + kids, base)
  {
    var rows := own + kids;
    forall k | 0 < k < |rows| ensures PointsInside(rows, base, k) {
      if k >= |own| {
        var j := k - |own|;
        assert rows[k] == kids[j];
        if !IsKidOf(kids[j], base) {
          assert PointsInside(kids, base + |own|, j);
          var p := kids[j].parent.value;
          assert rows[p - base] == kids[p - base - |own|];
        }
      }
    }
  }

  lemma KidsClosedAppend(front: seq<Row>, sub: seq<Row>, base: nat, parent: nat)
    requires KidsClosed(front, base, parent)
    requires sub != [] && IsKidOf(sub[0], parent) && Closed(sub, base + |front|)
    ensures KidsClosed(front + sub, base, parent)
  {
    var rows := front + sub;
    forall k | 0 <= k < |rows| ensures IsKidOf(rows[k], parent) || PointsInside(rows, base, k) {
      if k < |front| {
        assert rows[k] == front[k];
        if !IsKidOf(front[k], parent) {
          assert PointsInside(front, base, k);
          assert rows[front[k].parent.value - base] == front[front[k].parent.value - base];
        }
      } else if k > |front| {
        var j := k - |front|;
        assert PointsInside(sub, base + |front|, j);
        assert rows[k] == sub[j];
        assert rows[sub[j].parent.value - base] == sub[sub[j].parent.value - base - |front|];
      }
    }
  }

  lemma {:induction false} FlattenParents(g: Group, parent: Option<nat>, base: nat)
    ensures Closed(Flatten(g, parent, base), base)
    decreases g, |Children(g)| + 1
  {
    hide Leaves, Closed, KidsClosed;
    var own := [Row(parent, GroupItem(g))] + Under(base, Leaves(g));
    KidsParents(g, |Children(g)|, base, base + |own|);
    ClosedOfParts(own, FlattenKids(g, |Children(g)|, base, base + |own|), base);
  }

  lemma NoKidsClosed(base: nat, parent: nat)
    ensures KidsClosed([], base, parent)
  {
  }

  lemma {:induction false} KidsParents(g: Group, n: nat, parent: nat, base: nat)
    requires n <= |Children(g)|
    ensures KidsClosed(FlattenKids(g, n, parent, base), base, parent)
    decreases g, n
  {
    hide Closed, KidsClosed, Flatten, FlattenKids;
    FlattenNoKids(g, parent, base);
    NoKidsClosed(base, parent);
    if n > 0 {
      KidsParents(g, n - 1, parent, base);
      FlattenOneKid(g, n - 1, parent, base);
      var front := FlattenKids(g, n - 1, parent, base);
      if Children(g)[n - 1].Some? {
        var child := Children(g)[n - 1].value;
        FlattenParents(child, Some(parent), base + |front|);
        KidsClosedAppend(front, Flatten(child, Some(parent), base + |front|), base, parent);
      }
    }
  }

  // ----- Scanning a range of rows -----

  lemma {:induction false} LeavesSplit(rows: seq<Row>, i: nat, kind: Kind, lo: nat, mid: nat, hi: nat)
    requires lo <= mid <= hi <= |rows|
    ensures LeavesIn(rows, i, kind, lo, hi) == LeavesIn(rows, i, kind, lo, mid) + LeavesIn(rows, i, kind, mid, hi)
    decreases hi
  {
    if mid < hi { LeavesSplit(rows, i, kind, lo, mid, hi - 1); }
  }

  lemma {:induction false} KidsSplit(rows: seq<Row>, i: nat, lo: nat, mid: nat, hi: nat)
    requires i < lo <= mid <= hi <= |rows|
    ensures KidsIn(rows, i, lo, hi) == KidsIn(rows, i, lo, mid) + KidsIn(rows, i, mid, hi)
    decreases hi
  {
    if mid < hi {
      hide TreeAt;
      KidsSplit(rows, i, lo, mid, hi - 1);
    }
  }

  lemma {:induction false} NoLeavesIn(rows: seq<Row>, i: nat, kind: Kind, lo: nat, hi: nat)
    requires lo <= hi <= |rows|
    requires forall j :: lo <= j < hi ==> rows[j].parent != Some(i) || rows[j].item.kind != kind
    ensures LeavesIn(rows, i, kind, lo, hi) == []
  {
    if lo < hi { NoLeavesIn(rows, i, kind, lo, hi - 1); }
  }

  lemma {:induction false} NoKidsIn(rows: seq<Row>, i: nat, lo: nat, hi: nat)
    requires i < lo <= hi <= |rows|
    requires forall j :: lo <= j < hi ==> rows[j].parent != Some(i) || rows[j].item.kind != ProcessGroup
    ensures KidsIn(rows, i, lo, hi) == []
  {
    if lo < hi { NoKidsIn(rows, i, lo, hi - 1); }
  }

  lemma {:induction false} LeavesOfKind(rows: seq<Row>, i: nat, kind: Kind, lo: nat, items: seq<Item>)
    requires lo + |items| <= |rows| && rows[lo..lo + |items|] == Under(i, items)
    requires HasKind(items, kind)
    ensures LeavesIn(rows, i, kind, lo, lo + |items|) == items
  {
    if items != [] {
      var init := items[..|items| - 1];
      assert rows[lo..lo + |init|] == Under(i, items)[..|init|];
      LeavesOfKind(rows, i, kind, lo, init);
      assert rows[lo + |init|] == Under(i, items)[|init|];
      assert items == init + [items[|init|]];
    }
  }

  /** Of three consecutive runs of items, a scan for the kind of the middle one returns it. */
  lemma LeavesAmongRuns(rows: seq<Row>, i: nat, kind: Kind, lo: nat, a: seq<Item>, b: seq<Item>, c: seq<Item>)
    requires lo + |a| + |b| + |c| <= |rows| && rows[lo..lo + |a| + |b| + |c|] == Under(i, a + b + c)
    requires HasKind(b, kind) && LacksKind(a, kind) && LacksKind(c, kind)
    ensures LeavesIn(rows, i, kind, lo, lo + |a| + |b| + |c|) == b
  {
    hide LeavesIn;
    var m1, m2, hi := lo + |a|, lo + |a| + |b|, lo + |a| + |b| + |c|;
    var seg := rows[lo..hi];
    forall j | lo <= j < hi ensures rows[j] == Row(Some(i), (a + b + c)[j - lo]) {
      assert rows[j] == seg[j - lo];
    }
    forall j | lo <= j < m1 ensures rows[j].item.kind != kind {
      assert rows[j].item == a[j - lo];
    }
    forall j | m2 <= j < hi ensures rows[j].item.kind != kind {
      assert rows[j].item == c[j - m2];
    }
    assert rows[m1..m2] == Under(i, b);
    NoLeavesIn(rows, i, kind, lo, m1);
    LeavesOfKind(rows, i, kind, m1, b);
    NoLeavesIn(rows, i, kind, m2, hi);
    LeavesSplit(rows, i, kind, lo, m1, hi);
    LeavesSplit(rows, i, kind, m1, m2, hi);
  }

  lemma OwnLeaves(rows: seq<Row>, i: nat, lo: nat, g: Group)
    requires lo + |Leaves(g)| <= |rows| && rows[lo..lo + |Leaves(g)|] == Under(i, Leaves(g))
    ensures LeavesIn(rows, i, ProcessorNode, lo, lo + |Leaves(g)|) == View(g).processors
    ensures LeavesIn(rows, i, ConnectionNode, lo, lo + |Leaves(g)|) == View(g).connections
    ensures LeavesIn(rows, i, InputPort, lo, lo + |Leaves(g)|) == View(g).inputPorts
    ensures LeavesIn(rows, i, OutputPort, lo, lo + |Leaves(g)|) == View(g).outputPorts
    ensures LeavesIn(rows, i, RemoteProcessGroup, lo, lo + |Leaves(g)|) == View(g).remotes
  {
    var v := View(g);
    LeafKinds(g);
    assert Leaves(g) == v.processors + v.connections + v.inputPorts + v.outputPorts + v.remotes;
    hide View, Leaves, LeavesIn;
    FiveRuns(rows, i, lo, v.processors, v.connections, v.inputPorts, v.outputPorts, v.remotes);
  }

  lemma FiveRuns(
    rows: seq<Row>, i: nat, lo: nat, p: seq<Item>, c: seq<Item>, ip: seq<Item>, op: seq<Item>, r: seq<Item>)
    requires var all := p + c + ip + op + r; lo + |all| <= |rows| && rows[lo..lo + |all|] == Under(i, all)
    requires HasKind(p, ProcessorNode) && HasKind(c, ConnectionNode) && HasKind(ip, InputPort)
    requires HasKind(op, OutputPort) && HasKind(r, RemoteProcessGroup)
    ensures var hi := lo + |p + c + ip + op + r|;
            && LeavesIn(rows, i, ProcessorNode, lo, hi) == p && LeavesIn(rows, i, ConnectionNode, lo, hi) == c
            && LeavesIn(rows, i, InputPort, lo, hi) == ip && LeavesIn(rows, i, OutputPort, lo, hi) == op
            && LeavesIn(rows, i, RemoteProcessGroup, lo, hi) == r
  {
    hide LeavesIn, Under;
    FiveWays(p, c, ip, op, r);
    LeavesAmongRuns(rows, i, ProcessorNode, lo, [], p, c + ip + op + r);
    LeavesAmongRuns(rows, i, ConnectionNode, lo, p, c, ip + op + r);
    LeavesAmongRuns(rows, i, InputPort, lo, p + c, ip, op + r);
    LeavesAmongRuns(rows, i, OutputPort, lo, p + c + ip, op, r);
    LeavesAmongRuns(rows, i, RemoteProcessGroup, lo, p + c + ip + op, r, []);
  }

  lemma FiveWays<T>(a: seq<T>, b: seq<T>, c: seq<T>, d: seq<T>, e: seq<T>)
    ensures var all := a + b + c + d + e;
            && all == [] + a + (b + c + d + e) && all == a + b + (c + d + e)
            && all == (a + b) + c + (d + e) && all == (a + b + c + d) + e + []
  {
  }

  lemma LeafKinds(g: Group)
    ensures HasKind(View(g).processors, ProcessorNode) && HasKind(View(g).connections, ConnectionNode)
    ensures HasKind(View(g).inputPorts, InputPort) && HasKind(View(g).outputPorts, OutputPort)
    ensures HasKind(View(g).remotes, RemoteProcessGroup)
  {
    hide Collect, HasKind, ViewKids;
    CollectKind(g.processors.GetOr([]), ProcessorItem, ProcessorNode);
    CollectKind(g.connections.GetOr([]), ConnectionItem, ConnectionNode);
    CollectKind(g.inputPorts.GetOr([]), InputPortItem, InputPort);
    CollectKind(g.outputPorts.GetOr([]), OutputPortItem, OutputPort);
    CollectKind(g.remotes.GetOr([]), RemoteItem, RemoteProcessGroup);
  }

  // ----- The round trip -----

  /** `rows` holds `seg` at `base`, and no later row points into it. */
  ghost predicate Holds(rows: seq<Row>, base: nat, seg: seq<Row>) {
    && base + |seg| <= |rows| && rows[base..base + |seg|] == seg
    && forall j :: base + |seg| <= j < |rows| ==> PointsOutside(rows[j], base, base + |seg|)
  }

  ghost predicate PointsOutside(row: Row, lo: nat, hi: nat) {
    row.parent.Some? ==> !(lo <= row.parent.value < hi)
  }

  lemma HeldRows(rows: seq<Row>, base: nat, seg: seq<Row>)
    requires Holds(rows, base, seg)
    ensures base + |seg| <= |rows|
    ensures forall j :: base <= j < base + |seg| ==> rows[j] == seg[j - base]
  {
    assert forall j :: base <= j < base + |seg| ==> rows[j] == rows[base..base + |seg|][j - base];
  }

  /** The tail of a held segment is held as well, and so is its front when the tail does not point into it. */
  lemma HoldsParts(rows: seq<Row>, base: nat, front: seq<Row>, tail: seq<Row>)
    requires Holds(rows, base, front + tail)
    ensures Holds(rows, base + |front|, tail)
    ensures (forall k :: 0 <= k < |tail| ==> PointsOutside(tail[k], base, base + |front|)) ==> Holds(rows, base, front)
  {
    HeldRows(rows, base, front + tail);
    assert rows[base + |front|..base + |front| + |tail|] == tail;
    assert rows[base..base + |front|] == front;
    forall j | base + |front| + |tail| <= j < |rows|
      ensures PointsOutside(rows[j], base + |front|, base + |front| + |tail|)
           && PointsOutside(rows[j], base, base + |front|)
    {
      assert PointsOutside(rows[j], base, base + |front + tail|);
    }
  }

  function OwnRows(g: Group, parent: Option<nat>, base: nat): seq<Row> {
    [Row(parent, GroupItem(g))] + Under(base, Leaves(g))
  }

  function KidRows(g: Group, base: nat): seq<Row> {
    FlattenKids(g, |Children(g)|, base, base + 1 + |Leaves(g)|)
  }

  lemma GroupIsLaid(g: Group, parent: Option<nat>, base: nat, rows: seq<Row>)
    requires Holds(rows, base, Flatten(g, parent, base))
    ensures Laid(base, rows, OwnRows(g, parent, base), KidRows(g, base))
    ensures Holds(rows, base + 1 + |Leaves(g)|, KidRows(g, base))
    ensures |OwnRows(g, parent, base)| == 1 + |Leaves(g)|
    ensures rows[base] == Row(parent, GroupItem(g))
    ensures rows[base + 1..base + 1 + |Leaves(g)|] == Under(base, Leaves(g))
  {
    hide Leaves, Holds, KidsClosed, Flatten, FlattenKids;
    var own, kids := OwnRows(g, parent, base), KidRows(g, base);
    FlattenParts(g, parent, base);
    HeldRows(rows, base, own + kids);
    HoldsParts(rows, base, own, kids);
    KidsParents(g, |Children(g)|, base, base + |own|);
    LeavesAreNotGroups(g);
    assert own[1..] == Under(base, Leaves(g));
    LaidRows(base, rows, own, kids);
  }

  lemma {:induction false} RebuildGroup(g: Group, parent: Option<nat>, base: nat, rows: seq<Row>)
    requires Holds(rows, base, Flatten(g, parent, base))
    ensures TreeAt(rows, base) == View(g)
    decreases g, |Children(g)| + 1
  {
    hide Leaves, LeavesIn, KidsIn, Holds, Laid, Flatten, FlattenKids, OwnRows;
    var own, kids := OwnRows(g, parent, base), KidRows(g, base);
    GroupIsLaid(g, parent, base, rows);
    LaidFits(base, rows, own, kids);
    RebuildKids(g, |Children(g)|, base, base + |own|, rows);
    ScanKids(base, rows, own, kids);
    ScanLeaves(base, rows, own, kids, ProcessorNode);
    ScanLeaves(base, rows, own, kids, ConnectionNode);
    ScanLeaves(base, rows, own, kids, InputPort);
    ScanLeaves(base, rows, own, kids, OutputPort);
    ScanLeaves(base, rows, own, kids, RemoteProcessGroup);
    OwnLeaves(rows, base, base + 1, g);
  }

  /** Seen from a group's own row: its components, then rows of its children, then strangers. */
  ghost predicate Laid(base: nat, rows: seq<Row>, own: seq<Row>, kids: seq<Row>) {
    && own != [] && Holds(rows, base, own + kids) && KidsClosed(kids, base + |own|, base)
    && forall j :: 0 < j < |own| ==> own[j].parent == Some(base) && own[j].item.kind != ProcessGroup
  }

  lemma LaidRows(base: nat, rows: seq<Row>, own: seq<Row>, kids: seq<Row>)
    requires Laid(base, rows, own, kids)
    ensures rows[base + 1..base + |own|] == own[1..]
    ensures forall j :: base < j < base + |own| ==> rows[j].item.kind != ProcessGroup
    ensures forall j :: base + |own| <= j < |rows| ==> rows[j].parent != Some(base) || rows[j].item.kind == ProcessGroup
    ensures forall j :: base + |own + kids| <= j < |rows| ==> rows[j].parent != Some(base)
  {
    var kb, end := base + |own|, base + |own + kids|;
    HeldRows(rows, base, own + kids);
    forall j | base < j < kb ensures rows[j] == own[j - base] {
    }
    forall j | kb <= j < |rows| ensures rows[j].parent != Some(base) || rows[j].item.kind == ProcessGroup {
      if j < end {
        assert rows[j] == kids[j - kb];
        assert IsKidOf(kids[j - kb], base) || PointsInside(kids, kb, j - kb);
      } else {
        assert PointsOutside(rows[j], base, end);
      }
    }
    forall j | end <= j < |rows| ensures rows[j].parent != Some(base) {
      assert PointsOutside(rows[j], base, end);
    }
  }

  lemma ScanKids(base: nat, rows: seq<Row>, own: seq<Row>, kids: seq<Row>)
    requires Laid(base, rows, own, kids)
    ensures KidsIn(rows, base, base + 1, |rows|) == KidsIn(rows, base, base + |own|, base + |own + kids|)
  {
    hide KidsIn, Laid;
    var n, kb, end := |rows|, base + |own|, base + |own + kids|;
    LaidRows(base, rows, own, kids);
    LaidFits(base, rows, own, kids);
    KidsSplit(rows, base, base + 1, kb, n);
    KidsSplit(rows, base, kb, end, n);
    NoKidsIn(rows, base, base + 1, kb);
    NoKidsIn(rows, base, end, n);
  }

  lemma LaidFits(base: nat, rows: seq<Row>, own: seq<Row>, kids: seq<Row>)
    requires Laid(base, rows, own, kids)
    ensures base + |own + kids| <= |rows| && own != []
  {
  }

  lemma ScanLeaves(base: nat, rows: seq<Row>, own: seq<Row>, kids: seq<Row>, kind: Kind)
    requires Laid(base, rows, own, kids) && kind != ProcessGroup
    ensures LeavesIn(rows, base, kind, base + 1, |rows|) == LeavesIn(rows, base, kind, base + 1, base + |own|)
  {
    hide LeavesIn, Laid;
    LaidRows(base, rows, own, kids);
    LaidFits(base, rows, own, kids);
    NoLeavesIn(rows, base, kind, base + |own|, |rows|);
    LeavesSplit(rows, base, kind, base + 1, base + |own|, |rows|);
  }

  lemma LeavesAreNotGroups(g: Group)
    ensures forall j :: 0 <= j < |Leaves(g)| ==> Leaves(g)[j].kind != ProcessGroup
  {
    LeafKinds(g);
    hide Collect;
  }

  /** A child subtree's rows: the first is a child of `parent`, none points before the subtree otherwise. */
  lemma SubtreePointsOutside(sub: seq<Row>, cb: nat, parent: nat, base: nat)
    requires parent < base <= cb && sub != [] && sub[0].parent == Some(parent) && Closed(sub, cb)
    ensures forall k :: 0 <= k < |sub| ==> PointsOutside(sub[k], base, cb)
    ensures forall k :: 0 < k < |sub| ==> sub[k].parent != Some(parent)
  {
    forall k | 0 < k < |sub| ensures PointsOutside(sub[k], base, cb) && sub[k].parent != Some(parent) {
      assert PointsInside(sub, cb, k);
    }
  }

  lemma {:induction false} RebuildKids(g: Group, n: nat, parent: nat, base: nat, rows: seq<Row>)
    requires n <= |Children(g)| && parent < base
    requires Holds(rows, base, FlattenKids(g, n, parent, base))
    ensures KidsIn(rows, parent, base, base + |FlattenKids(g, n, parent, base)|) == ViewKids(g, n)
    decreases g, n
  {
    hide *;
    UnfoldKids(g, n, parent, base);
    if n == 0 {
      HeldRows(rows, base, []);
      NoKidsIn(rows, parent, base, base);
    } else {
      var front := FlattenKids(g, n - 1, parent, base);
      match Children(g)[n - 1]
      case None => RebuildKids(g, n - 1, parent, base, rows);
      case Some(child) =>
        HoldsChild(child, parent, base, front, rows);
        RebuildKids(g, n - 1, parent, base, rows);
        RebuildGroup(child, Some(parent), base + |front|, rows);
        OneKid(rows, parent, base, base + |front|, Flatten(child, Some(parent), base + |front|));
    }
  }

  /** One unfolding of the two recursions over children, and that they reach smaller groups. */
  lemma UnfoldKids(g: Group, n: nat, parent: nat, base: nat)
    requires n <= |Children(g)|
    ensures n == 0 ==> FlattenKids(g, n, parent, base) == [] && ViewKids(g, n) == []
    ensures n > 0 ==>
      var front := FlattenKids(g, n - 1, parent, base);
      match Children(g)[n - 1]
      case None => FlattenKids(g, n, parent, base) == front && ViewKids(g, n) == ViewKids(g, n - 1)
      case Some(child) =>
        && (g decreases to child)
        && FlattenKids(g, n, parent, base) == front + Flatten(child, Some(parent), base + |front|)
        && ViewKids(g, n) == ViewKids(g, n - 1) + [View(child)]
  {
    hide Flatten, View;
  }

  lemma HoldsChild(child: Group, parent: nat, base: nat, front: seq<Row>, rows: seq<Row>)
    requires parent < base && Holds(rows, base, front + Flatten(child, Some(parent), base + |front|))
    ensures Holds(rows, base, front)
    ensures var sub := Flatten(child, Some(parent), base + |front|);
            && Holds(rows, base + |front|, sub) && sub != [] && IsKidOf(sub[0], parent)
            && forall k :: 0 < k < |sub| ==> sub[k].parent != Some(parent)
  {
    hide Flatten, Holds, Closed;
    var cb := base + |front|;
    var sub := Flatten(child, Some(parent), cb);
    FlattenParents(child, Some(parent), cb);
    SubtreePointsOutside(sub, cb, parent, base);
    HoldsParts(rows, base, front, sub);
  }

  lemma OneKid(rows: seq<Row>, parent: nat, base: nat, cb: nat, sub: seq<Row>)
    requires parent < base <= cb && Holds(rows, cb, sub)
    requires sub != [] && IsKidOf(sub[0], parent) && forall k :: 0 < k < |sub| ==> sub[k].parent != Some(parent)
    ensures KidsIn(rows, parent, base, cb + |sub|) == KidsIn(rows, parent, base, cb) + [TreeAt(rows, cb)]
  {
    hide KidsIn, TreeAt;
    HeldRows(rows, cb, sub);
    KidsSplit(rows, parent, base, cb, cb + |sub|);
    KidsSplit(rows, parent, cb, cb + 1, cb + |sub|);
    NoKidsIn(rows, parent, cb + 1, cb + |sub|);
    SingleKid(rows, parent, cb);
  }

  lemma SingleKid(rows: seq<Row>, parent: nat, cb: nat)
    requires parent < cb < |rows| && IsKidOf(rows[cb], parent)
    ensures KidsIn(rows, parent, cb, cb + 1) == [TreeAt(rows, cb)]
  {
    hide TreeAt;
    assert KidsIn(rows, parent, cb, cb) == [];
  }

  /** The arena of a tree rebuilds to that tree: nothing but parent index and kind is needed. */
  lemma ArenaEncodesTree(g: Group)
    ensures TreeAt(Flatten(g, None, 0), 0) == View(g)
  {
    RebuildGroup(g, None, 0, Flatten(g, None, 0));
  }

  /** The root row has no parent; every other row points at an earlier process-group row. */
  lemma ParentsComeFirst(g: Group)
    ensures var rows := Flatten(g, None, 0);
            rows[0].parent == None
            && forall j :: 0 < j < |rows| ==>
                 rows[j].parent.Some? && rows[j].parent.value < j
                 && rows[rows[j].parent.value].item.kind == ProcessGroup
  {
    FlattenParents(g, None, 0);
    var rows := Flatten(g, None, 0);
    forall j | 0 < j < |rows| ensures rows[j].parent.Some? && rows[j].parent.value < j
                                      && rows[rows[j].parent.value].item.kind == ProcessGroup
    {
      assert PointsInside(rows, 0, j);
    }
  }

  // ----- Contiguity -----

  /** Row `j` lies in the subtree of row `i`. */
  predicate Below(rows: seq<Row>, j: nat, i: nat)
    requires j < |rows|
    decreases j
  {
    j == i || (rows[j].parent.Some? && rows[j].parent.value < j && Below(rows, rows[j].parent.value, i))
  }

  /** The subtree of row `i` is the index range from `i` up to `end`. */
  ghost predicate IsRange(rows: seq<Row>, i: nat, end: nat) {
    i < end <= |rows| && forall j :: 0 <= j < |rows| ==> (Below(rows, j, i) <==> i <= j < end)
  }

  /** A segment that later rows do not point into is the subtree of its first row. */
  lemma SegmentIsRange(rows: seq<Row>, base: nat, seg: seq<Row>)
    requires seg != [] && Holds(rows, base, seg) && Closed(seg, base)
    ensures IsRange(rows, base, base + |seg|)
  {
    hide Closed, Below;
    HeldRows(rows, base, seg);
    forall j | 0 <= j < |rows| ensures Below(rows, j, base) <==> base <= j < base + |seg| {
      MemberOfSegment(rows, base, seg, j);
    }
  }

  lemma {:induction false} MemberOfSegment(rows: seq<Row>, base: nat, seg: seq<Row>, j: nat)
    requires seg != [] && Holds(rows, base, seg) && Closed(seg, base) && j < |rows|
    ensures Below(rows, j, base) <==> base <= j < base + |seg|
    decreases j
  {
    if base < j < base + |seg| {
      HeldRows(rows, base, seg);
      assert PointsInside(seg, base, j - base);
    } else if j >= base + |seg| {
      assert PointsOutside(rows[j], base, base + |seg|);
    }
    if j != base && rows[j].parent.Some? && rows[j].parent.value < j {
      MemberOfSegment(rows, base, seg, rows[j].parent.value);
    }
  }

  lemma {:induction false} RangeInGroup(g: Group, parent: Option<nat>, base: nat, rows: seq<Row>, i: nat)
    requires Holds(rows, base, Flatten(g, parent, base)) && base <= i < base + |Flatten(g, parent, base)|
    ensures exists end :: IsRange(rows, i, end)
    decreases g, |Children(g)| + 1
  {
    hide Leaves, Holds, Closed, IsRange;
    var own := [Row(parent, GroupItem(g))] + Under(base, Leaves(g));
    var kids := FlattenKids(g, |Children(g)|, base, base + |own|);
    FlattenParents(g, parent, base);
    HoldsParts(rows, base, own, kids);
    if i == base {
      SegmentIsRange(rows, base, own + kids);
    } else if i < base + |own| {
      LeavesAreNotGroups(g);
      assert own[1..] == Under(base, Leaves(g));
      LeafIsItsOwnRange(base, rows, own + kids, i);
    } else {
      RangeInKids(g, |Children(g)|, base, base + |own|, rows, i);
    }
  }

  /** Nothing points at a row that is not a group, so it is its own subtree. */
  lemma LeafIsItsOwnRange(base: nat, rows: seq<Row>, seg: seq<Row>, i: nat)
    requires Holds(rows, base, seg) && Closed(seg, base)
    requires base < i < base + |seg| && seg[i - base].item.kind != ProcessGroup
    ensures IsRange(rows, i, i + 1)
  {
    HeldRows(rows, base, seg);
    assert rows[i..i + 1] == [rows[i]];
    forall j | i + 1 <= j < |rows| ensures PointsOutside(rows[j], i, i + 1) {
      if j < base + |seg| {
        assert PointsInside(seg, base, j - base);
      } else {
        assert PointsOutside(rows[j], base, base + |seg|);
      }
    }
    SegmentIsRange(rows, i, [rows[i]]);
  }

  lemma {:induction false} RangeInKids(g: Group, n: nat, parent: nat, base: nat, rows: seq<Row>, i: nat)
    requires n <= |Children(g)| && parent < base
    requires Holds(rows, base, FlattenKids(g, n, parent, base))
    requires base <= i < base + |FlattenKids(g, n, parent, base)|
    ensures exists end :: IsRange(rows, i, end)
    decreases g, n
  {
    hide Flatten, Holds, Closed, IsRange;
    var front := FlattenKids(g, n - 1, parent, base);
    var cb := base + |front|;
    match Children(g)[n - 1]
    case None => RangeInKids(g, n - 1, parent, base, rows, i);
    case Some(child) =>
      HoldsChild(child, parent, base, front, rows);
      if i < cb {
        RangeInKids(g, n - 1, parent, base, rows, i);
      } else {
        RangeInGroup(child, Some(parent), cb, rows, i);
      }
  }

  /** Every row's subtree, a group's in particular, is one contiguous range that starts at the row. */
  lemma SubtreesAreContiguous(g: Group, i: nat)
    requires i < |Flatten(g, None, 0)|
    ensures exists end :: IsRange(Flatten(g, None, 0), i, end)
  {
    RangeInGroup(g, None, 0, Flatten(g, None, 0), i);
  }
}
