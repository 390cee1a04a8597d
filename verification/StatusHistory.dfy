/**
 The cluster-mode fallback of the status history: per-node snapshots summed into
 one series (src/client/history.rs:163-330). Metric values are i64; sums wrap.
 */
module StatusHistory {
  import opened Wrappers

  datatype StatusSnapshot = StatusSnapshot(timestamp: Option<string>, metrics: Option<map<string, Option<int>>>)

  datatype NodeSnapshots = NodeSnapshots(snapshots: Option<seq<StatusSnapshot>>)

  /** One bucket of the aggregate: its timestamp and the metrics some node reported. */
  datatype Row = Row(timestamp: string, metrics: map<string, int>)

  /** The i64 a sum ends up as. */
  function Wrap64(x: int): (r: int)
    ensures -0x8000_0000_0000_0000 <= r < 0x8000_0000_0000_0000
    ensures (r - x) % 0x1_0000_0000_0000_0000 == 0
    ensures -0x8000_0000_0000_0000 <= x < 0x8000_0000_0000_0000 ==> r == x
  {
    (x + 0x8000_0000_0000_0000) % 0x1_0000_0000_0000_0000 - 0x8000_0000_0000_0000
  }

  lemma WrapAbsorbs(a: int, b: int)
    ensures Wrap64(Wrap64(a) + b) == Wrap64(a + b)
  {
  }

  // ----- What the aggregate means -----

  function Snapshots(node: NodeSnapshots): seq<StatusSnapshot> {
    node.snapshots.GetOr([])
  }

  /** The value a snapshot adds to metric `k` at `ts`, if any. */
  function Value(s: StatusSnapshot, ts: string, k: string): Option<int> {
    if s.timestamp == Some(ts) && s.metrics.Some? && k in s.metrics.value then s.metrics.value[k] else None
  }

  /** Sum of what is there; absent values add nothing. */
  function Plus(a: Option<int>, b: Option<int>): Option<int> {
    match (a, b)
    case (None, _) => b
    case (_, None) => a
    case (Some(x), Some(y)) => Some(x + y)
  }

  function Sum(ss: seq<StatusSnapshot>, ts: string, k: string): Option<int> {
    if ss == [] then None else Plus(Sum(ss[..|ss| - 1], ts, k), Value(ss[|ss| - 1], ts, k))
  }

  function Total(nodes: seq<NodeSnapshots>, ts: string, k: string): Option<int> {
    if nodes == [] then None
    else Plus(Total(nodes[..|nodes| - 1], ts, k), Sum(Snapshots(nodes[|nodes| - 1]), ts, k))
  }

  ghost predicate Stamped(ss: seq<StatusSnapshot>, ts: string) {
    exists s :: s in ss && s.timestamp == Some(ts)
  }

  ghost predicate StampedBySome(nodes: seq<NodeSnapshots>, ts: string) {
    exists n :: n in nodes && Stamped(Snapshots(n), ts)
  }

  /** The metrics of one bucket: exactly those some node reported, each with its wrapped total. */
  ghost predicate IsRow(metrics: map<string, int>, nodes: seq<NodeSnapshots>, ts: string) {
    forall k ::
      && (k in metrics <==> Total(nodes, ts, k).Some?)
      && (k in metrics ==> metrics[k] == Wrap64(Total(nodes, ts, k).value))
  }

  /** Lexicographic order on strings, the order of the map's keys. */
  predicate Less(a: string, b: string) {
    if a == [] || b == [] then a == [] && b != []
    else a[0] < b[0] || (a[0] == b[0] && Less(a[1..], b[1..]))
  }

  ghost predicate Increasing(rows: seq<Row>) {
    forall i, j :: 0 <= i < j < |rows| ==> Less(rows[i].timestamp, rows[j].timestamp)
  }

  /** The aggregate of the nodes: one row per timestamp, in increasing order. */
  ghost predicate IsAggregate(rows: seq<Row>, nodes: seq<NodeSnapshots>) {
    && Increasing(rows)
    && (forall ts :: StampedBySome(nodes, ts) <==> exists i :: 0 <= i < |rows| && rows[i].timestamp == ts)
    && (forall i :: 0 <= i < |rows| ==> IsRow(rows[i].metrics, nodes, rows[i].timestamp))
  }

  // ----- The order of timestamps -----

  lemma {:induction false} LessIsOrder(a: string, b: string, c: string)
    ensures !Less(a, a)
    ensures Less(a, b) || a == b || Less(b, a)
    ensures Less(a, b) && Less(b, c) ==> Less(a, c)
  {
    if a != [] && b != [] && c != [] {
      LessIsOrder(a[1..], b[1..], c[1..]);
      assert a[0] == b[0] && a[1..] == b[1..] ==> a == [a[0]] + a[1..] == b;
    } else if a != [] {
      LessIsOrder(a[1..], if b != [] then b[1..] else [], []);
      if b != [] && a[0] == b[0] && a[1..] == b[1..] {
        assert a == [a[0]] + a[1..] == b;
      }
    }
  }

  /** `a` is a proper beginning of `b`, or smaller where they first differ. */
  ghost predicate Before(a: string, b: string) {
    exists i :: 0 <= i <= |a| && i <= |b| && a[..i] == b[..i]
                && (if i == |a| then i < |b| else i < |b| && a[i] < b[i])
  }

  lemma {:induction false} LessIsBefore(a: string, b: string)
    ensures Less(a, b) <==> Before(a, b)
    decreases |a|
  {
    if a != [] && b != [] {
      LessIsBefore(a[1..], b[1..]);
      if a[0] == b[0] && Before(a[1..], b[1..]) {
        var i :| 0 <= i <= |a[1..]| && i <= |b[1..]| && a[1..][..i] == b[1..][..i]
                 && (if i == |a[1..]| then i < |b[1..]| else i < |b[1..]| && a[1..][i] < b[1..][i]);
        assert a[..i + 1] == [a[0]] + a[1..][..i] && b[..i + 1] == [b[0]] + b[1..][..i];
        assert Before(a, b);
      }
      if Before(a, b) {
        var i :| 0 <= i <= |a| && i <= |b| && a[..i] == b[..i]
                 && (if i == |a| then i < |b| else i < |b| && a[i] < b[i]);
        if i > 0 {
          assert a[0] == a[..i][0] == b[..i][0] == b[0];
          assert a[1..][..i - 1] == a[..i][1..] && b[1..][..i - 1] == b[..i][1..];
        }
      }
      if a[0] < b[0] {
        assert a[..0] == b[..0];
      }
    } else if a == [] && b != [] {
      assert a[..0] == b[..0];
    }
  }

  ghost predicate IsLeast(ts: string, keys: set<string>) {
    ts in keys && forall o :: o in keys ==> o == ts || Less(ts, o)
  }

  lemma {:induction false} LeastExists(keys: set<string>)
    requires keys != {}
    ensures exists ts :: IsLeast(ts, keys)
  {
    hide Less;
    var x :| x in keys;
    if keys == {x} {
      assert IsLeast(x, keys);
    } else {
      var rest := keys - {x};
      LeastExists(rest);
      var y :| IsLeast(y, rest);
      LessIsOrder(x, y, x);
      if Less(x, y) {
        forall o | o in keys ensures o == x || Less(x, o) {
          LessIsOrder(x, y, o);
        }
        assert IsLeast(x, keys);
      } else {
        assert IsLeast(y, keys);
      }
    }
  }

  // ----- The loops -----

  function Entry(m: map<string, int>, k: string): Option<int> {
    if k in m then Some(m[k]) else None
  }

  /** An accumulator cell that has absorbed `total`. */
  function Cell(total: Option<int>): Option<int> {
    match total
    case None => None
    case Some(x) => Some(Wrap64(x))
  }

  lemma CellAbsorbs(total: Option<int>, v: int)
    ensures Cell(Plus(total, Some(v))) == Some(Wrap64(Cell(total).GetOr(0) + v))
  {
    WrapAbsorbs(total.GetOr(0), v);
  }

  /** The metrics loop: `*entry.entry(k).or_insert(0) += v` for each value present. */
  method AddMetrics(entry: map<string, int>, metrics: map<string, Option<int>>) returns (sums: map<string, int>)
    ensures forall k ::
              Entry(sums, k) == if k in metrics && metrics[k].Some?
                                then Some(Wrap64(Entry(entry, k).GetOr(0) + metrics[k].value))
                                else Entry(entry, k)
  {
    hide Wrap64;
    sums := entry;
    var left := metrics.Keys;
    while left != {}
      invariant left <= metrics.Keys
      invariant forall k ::
                  Entry(sums, k) == if k in metrics.Keys - left && metrics[k].Some?
                                    then Some(Wrap64(Entry(entry, k).GetOr(0) + metrics[k].value))
                                    else Entry(entry, k)
      decreases |left|
    {
      var k :| k in left;
      if metrics[k].Some? {
        sums := sums[k := Wrap64(Entry(sums, k).GetOr(0) + metrics[k].value)];
      }
      left := left - {k};
    }
  }

  /** `by_ts.entry(ts).or_default()`. */
  function RowOf(byTs: map<string, map<string, int>>, ts: string): map<string, int> {
    if ts in byTs then byTs[ts] else map[]
  }

  /** The table after the nodes `before` and the first snapshots `some` of one more. */
  ghost predicate Tabulates(
    byTs: map<string, map<string, int>>, before: seq<NodeSnapshots>, some: seq<StatusSnapshot>)
  {
    && (forall ts :: ts in byTs <==> StampedBySome(before, ts) || Stamped(some, ts))
    && (forall ts, k :: Entry(RowOf(byTs, ts), k) == Cell(Plus(Total(before, ts, k), Sum(some, ts, k))))
  }

  /** A row that has taken in one snapshot more. */
  ghost predicate TakesIn(sums: map<string, int>, entry: map<string, int>, s: StatusSnapshot) {
    forall k ::
      Entry(sums, k) == if s.metrics.Some? && k in s.metrics.value && s.metrics.value[k].Some?
                        then Some(Wrap64(Entry(entry, k).GetOr(0) + s.metrics.value[k].value))
                        else Entry(entry, k)
  }

  lemma SumOne(some: seq<StatusSnapshot>, s: StatusSnapshot, ts: string, k: string)
    ensures Sum(some + [s], ts, k) == Plus(Sum(some, ts, k), Value(s, ts, k))
  {
    assert (some + [s])[..|some + [s]| - 1] == some;
  }

  lemma StampedOne(some: seq<StatusSnapshot>, s: StatusSnapshot, ts: string)
    ensures Stamped(some + [s], ts) <==> Stamped(some, ts) || s.timestamp == Some(ts)
  {
    if Stamped(some, ts) {
      var x :| x in some && x.timestamp == Some(ts);
      assert x in some + [s];
    }
    assert s in some + [s];
  }

  lemma NextSnapshot(byTs: map<string, map<string, int>>, before: seq<NodeSnapshots>, some: seq<StatusSnapshot>,
                     s: StatusSnapshot, sums: map<string, int>)
    requires Tabulates(byTs, before, some)
    requires s.timestamp.Some? ==> TakesIn(sums, RowOf(byTs, s.timestamp.value), s)
    ensures Tabulates(if s.timestamp.Some? then byTs[s.timestamp.value := sums] else byTs, before, some + [s])
  {
    hide Sum, Total, Stamped, StampedBySome, Wrap64, Cell;
    var after := if s.timestamp.Some? then byTs[s.timestamp.value := sums] else byTs;
    forall ts ensures ts in after <==> StampedBySome(before, ts) || Stamped(some + [s], ts) {
      StampedOne(some, s, ts);
    }
    forall ts, k ensures Entry(RowOf(after, ts), k) == Cell(Plus(Total(before, ts, k), Sum(some + [s], ts, k))) {
      SumOne(some, s, ts, k);
      if Value(s, ts, k).Some? {
        CellAbsorbs(Plus(Total(before, ts, k), Sum(some, ts, k)), Value(s, ts, k).value);
      }
    }
  }

  lemma NextNode(byTs: map<string, map<string, int>>, before: seq<NodeSnapshots>, node: NodeSnapshots)
    requires Tabulates(byTs, before, Snapshots(node))
    ensures Tabulates(byTs, before + [node], [])
  {
    hide Sum, Stamped, Cell;
    SumOfNone();
    var nodes := before + [node];
    assert nodes[..|nodes| - 1] == before;
    forall ts ensures StampedBySome(nodes, ts) <==> StampedBySome(before, ts) || Stamped(Snapshots(node), ts) {
      if StampedBySome(before, ts) {
        var n :| n in before && Stamped(Snapshots(n), ts);
        assert n in nodes;
      }
      assert node in nodes;
    }
  }

  lemma SumOfNone()
    ensures forall ts, k :: Sum([], ts, k) == None
    ensures forall ts :: !Stamped([], ts)
  {
  }

  /** `aggregate_node_snapshots`. */
  method AggregateNodeSnapshots(nodes: seq<NodeSnapshots>) returns (rows: seq<Row>)
    ensures IsAggregate(rows, nodes)
  {
    hide Sum, Total, Stamped, StampedBySome, Wrap64, Cell, Tabulates, TakesIn;
    var byTs: map<string, map<string, int>> := map[];
    EmptyTable();
    for i := 0 to |nodes|
      invariant Tabulates(byTs, nodes[..i], [])
    {
      var snaps := nodes[i].snapshots.GetOr([]);
      for j := 0 to |snaps|
        invariant Tabulates(byTs, nodes[..i], snaps[..j])
      {
        assert snaps[..j] + [snaps[j]] == snaps[..j + 1];
        if snaps[j].timestamp.None? {
          NextSnapshot(byTs, nodes[..i], snaps[..j], snaps[j], map[]);
          continue;
        }
        var ts := snaps[j].timestamp.value;
        var entry := RowOf(byTs, ts);
        if snaps[j].metrics.Some? {
          entry := AddMetrics(entry, snaps[j].metrics.value);
        }
        UnfoldTakesIn(entry, RowOf(byTs, ts), snaps[j]);
        NextSnapshot(byTs, nodes[..i], snaps[..j], snaps[j], entry);
        byTs := byTs[ts := entry];
      }
      assert snaps[..|snaps|] == snaps;
      NextNode(byTs, nodes[..i], nodes[i]);
      assert nodes[..i] + [nodes[i]] == nodes[..i + 1];
    }
    assert nodes[..|nodes|] == nodes;
    rows := InOrder(byTs);
    TableIsAggregate(byTs, rows, nodes);
  }

  lemma EmptyTable()
    ensures Tabulates(map[], [], [])
  {
  }

  lemma UnfoldTakesIn(sums: map<string, int>, entry: map<string, int>, s: StatusSnapshot)
    ensures TakesIn(sums, entry, s) <==>
              forall k ::
                Entry(sums, k) == if s.metrics.Some? && k in s.metrics.value && s.metrics.value[k].Some?
                                  then Some(Wrap64(Entry(entry, k).GetOr(0) + s.metrics.value[k].value))
                                  else Entry(entry, k)
  {
  }

  /** The rows are the table's entries in increasing key order. */
  ghost predicate Lists(rows: seq<Row>, byTs: map<string, map<string, int>>) {
    && Increasing(rows)
    && (forall i :: 0 <= i < |rows| ==> rows[i].timestamp in byTs && rows[i].metrics == byTs[rows[i].timestamp])
    && (forall ts :: ts in byTs ==> exists i :: 0 <= i < |rows| && rows[i].timestamp == ts)
  }

  /** `into_iter` of the ordered map. */
  method InOrder(byTs: map<string, map<string, int>>) returns (rows: seq<Row>)
    ensures Lists(rows, byTs)
  {
    hide Listed;
    rows := [];
    var left := byTs.Keys;
    NoneListed(byTs);
    while left != {}
      invariant left <= byTs.Keys && Listed(rows, byTs, left)
      decreases |left|
    {
      LeastExists(left);
      var ts :| ts in left && forall o :: o in left ==> o == ts || Less(ts, o);
      OneListed(rows, byTs, left, ts);
      rows := rows + [Row(ts, byTs[ts])];
      left := left - {ts};
    }
    AllListed(rows, byTs);
  }

  /** The rows are the entries outside `left`, all of them below those inside. */
  ghost predicate Listed(rows: seq<Row>, byTs: map<string, map<string, int>>, left: set<string>) {
    && Increasing(rows)
    && (forall i, ts :: 0 <= i < |rows| && ts in left ==> Less(rows[i].timestamp, ts))
    && (forall i :: 0 <= i < |rows| ==> rows[i].timestamp in byTs && rows[i].metrics == byTs[rows[i].timestamp])
    && (forall ts :: ts in byTs && ts !in left ==> exists i :: 0 <= i < |rows| && rows[i].timestamp == ts)
  }

  lemma NoneListed(byTs: map<string, map<string, int>>)
    ensures Listed([], byTs, byTs.Keys)
  {
  }

  lemma OneListed(rows: seq<Row>, byTs: map<string, map<string, int>>, left: set<string>, ts: string)
    requires Listed(rows, byTs, left) && ts in byTs && IsLeast(ts, left)
    ensures Listed(rows + [Row(ts, byTs[ts])], byTs, left - {ts})
  {
    hide Less;
    var more := rows + [Row(ts, byTs[ts])];
    forall o | o in byTs && o !in left - {ts} ensures exists i :: 0 <= i < |more| && more[i].timestamp == o {
      if o == ts {
        assert more[|rows|].timestamp == o;
      } else {
        var i :| 0 <= i < |rows| && rows[i].timestamp == o;
        assert more[i].timestamp == o;
      }
    }
  }

  lemma AllListed(rows: seq<Row>, byTs: map<string, map<string, int>>)
    requires Listed(rows, byTs, {})
    ensures Lists(rows, byTs)
  {
    hide Less, Increasing;
  }

  lemma TableIsAggregate(byTs: map<string, map<string, int>>, rows: seq<Row>, nodes: seq<NodeSnapshots>)
    requires Tabulates(byTs, nodes, []) && Lists(rows, byTs)
    ensures IsAggregate(rows, nodes)
  {
    hide Sum, Total, Stamped, StampedBySome, Wrap64, Increasing;
    SumOfNone();
    forall i | 0 <= i < |rows| ensures IsRow(rows[i].metrics, nodes, rows[i].timestamp) {
      var ts := rows[i].timestamp;
      forall k ensures k in byTs[ts] <==> Total(nodes, ts, k).Some?
               ensures k in byTs[ts] ==> byTs[ts][k] == Wrap64(Total(nodes, ts, k).value) {
        assert Entry(RowOf(byTs, ts), k) == Cell(Plus(Total(nodes, ts, k), Sum([], ts, k)));
      }
    }
  }

  // ----- The aggregate is well defined and does not depend on the order of the nodes -----

  ghost predicate SameRows(a: seq<Row>, b: seq<Row>) {
    forall x :: x in a ==> x in b
  }

  lemma {:induction false} SortedRowsAreUnique(a: seq<Row>, b: seq<Row>)
    requires Increasing(a) && Increasing(b) && SameRows(a, b) && SameRows(b, a)
    ensures a == b
  {
    hide Less, Increasing;
    HasElement(b);
    if a != [] {
      assert a[0] in b;
      assert b[0] in a;
      var i :| 0 <= i < |b| && b[i] == a[0];
      var j :| 0 <= j < |a| && a[j] == b[0];
      FirstIsFirst(a, b, i, j);
      TailsSame(a, b);
      SortedRowsAreUnique(a[1..], b[1..]);
      assert a == [a[0]] + a[1..] && b == [b[0]] + b[1..];
    }
  }

  lemma FirstIsFirst(a: seq<Row>, b: seq<Row>, i: nat, j: nat)
    requires Increasing(a) && Increasing(b) && i < |b| && j < |a| && b[i] == a[0] && a[j] == b[0]
    ensures a[0] == b[0]
  {
    hide Less;
    LessIsOrder(a[0].timestamp, b[0].timestamp, a[0].timestamp);
  }

  lemma HasElement<T>(s: seq<T>)
    ensures s != [] ==> exists x :: x in s
  {
    if s != [] {
      assert s[0] in s;
    }
  }

  lemma TailsSame(a: seq<Row>, b: seq<Row>)
    requires a != [] && b != [] && a[0] == b[0]
    requires Increasing(a) && Increasing(b) && SameRows(a, b) && SameRows(b, a)
    ensures Increasing(a[1..]) && Increasing(b[1..]) && SameRows(a[1..], b[1..]) && SameRows(b[1..], a[1..])
  {
    hide Less;
    LessIsOrder(a[0].timestamp, a[0].timestamp, a[0].timestamp);
    forall x | x in a[1..] ensures x in b[1..] {
      var i :| 0 < i < |a| && a[i] == x;
      assert Less(a[0].timestamp, x.timestamp);
      assert x in b;
      var j :| 0 <= j < |b| && b[j] == x;
      assert b[1..][j - 1] == x;
    }
    forall x | x in b[1..] ensures x in a[1..] {
      var i :| 0 < i < |b| && b[i] == x;
      assert Less(b[0].timestamp, x.timestamp);
      assert x in a;
      var j :| 0 <= j < |a| && a[j] == x;
      assert a[1..][j - 1] == x;
    }
  }

  lemma RowsOfAggregate(a: seq<Row>, b: seq<Row>, nodes: seq<NodeSnapshots>)
    requires IsAggregate(a, nodes) && IsAggregate(b, nodes)
    ensures SameRows(a, b)
  {
    hide Increasing, Total, StampedBySome, Wrap64;
    forall x | x in a ensures x in b {
      var i :| 0 <= i < |a| && a[i] == x;
      assert StampedBySome(nodes, x.timestamp);
      var j :| 0 <= j < |b| && b[j].timestamp == x.timestamp;
      assert IsRow(a[i].metrics, nodes, x.timestamp) && IsRow(b[j].metrics, nodes, x.timestamp);
      assert a[i].metrics == b[j].metrics;
      assert b[j] == x;
    }
  }

  /** The nodes determine the series. */
  lemma AggregateIsUnique(a: seq<Row>, b: seq<Row>, nodes: seq<NodeSnapshots>)
    requires IsAggregate(a, nodes) && IsAggregate(b, nodes)
    ensures a == b
  {
    RowsOfAggregate(a, b, nodes);
    RowsOfAggregate(b, a, nodes);
    SortedRowsAreUnique(a, b);
  }

  lemma {:induction false} TotalWithout(
    a: seq<NodeSnapshots>, n: NodeSnapshots, b: seq<NodeSnapshots>, ts: string, k: string)
    ensures Total(a + [n] + b, ts, k) == Plus(Total(a + b, ts, k), Sum(Snapshots(n), ts, k))
  {
    hide Sum, Snapshots;
    var all := a + [n] + b;
    if b == [] {
      assert all[..|all| - 1] == a && a + b == a;
    } else {
      var init := b[..|b| - 1];
      assert all[..|all| - 1] == a + [n] + init;
      assert (a + b)[..|a + b| - 1] == a + init;
      TotalWithout(a, n, init, ts, k);
    }
  }

  lemma {:induction false} TotalIgnoresOrder(xs: seq<NodeSnapshots>, ys: seq<NodeSnapshots>, ts: string, k: string)
    requires multiset(xs) == multiset(ys)
    ensures Total(xs, ts, k) == Total(ys, ts, k)
    decreases |xs|
  {
    hide Sum, Snapshots;
    SameSize(xs, ys);
    if xs != [] {
      var init, n := xs[..|xs| - 1], xs[|xs| - 1];
      var i := SplitAt(xs, ys);
      assert ys == ys[..i] + [n] + ys[i + 1..];
      TotalIgnoresOrder(init, ys[..i] + ys[i + 1..], ts, k);
      TotalWithout(ys[..i], n, ys[i + 1..], ts, k);
    }
  }

  lemma SameSize<T>(xs: seq<T>, ys: seq<T>)
    requires multiset(xs) == multiset(ys)
    ensures |xs| == |ys|
  {
    assert |multiset(xs)| == |xs| && |multiset(ys)| == |ys|;
  }

  lemma Without<T>(a: seq<T>, x: T, b: seq<T>)
    ensures multiset(a + b) == multiset(a + [x] + b) - multiset{x}
  {
    assert multiset(a + [x] + b) == multiset(a) + multiset{x} + multiset(b);
  }

  /** Where the last element of `xs` sits in a permutation `ys` of it. */
  lemma SplitAt<T>(xs: seq<T>, ys: seq<T>) returns (i: nat)
    requires xs != [] && multiset(xs) == multiset(ys)
    ensures i < |ys| && ys[i] == xs[|xs| - 1]
    ensures multiset(xs[..|xs| - 1]) == multiset(ys[..i] + ys[i + 1..])
  {
    var init, x := xs[..|xs| - 1], xs[|xs| - 1];
    assert xs == init + [x];
    assert x in multiset(ys);
    i :| 0 <= i < |ys| && ys[i] == x;
    assert ys == ys[..i] + [x] + ys[i + 1..];
    Without(init, x, []);
    Without(ys[..i], x, ys[i + 1..]);
    assert init + [x] + [] == xs && init + [] == init;
  }

  /** Reporting the nodes in another order gives the same series. */
  lemma NodeOrderIsIrrelevant(xs: seq<NodeSnapshots>, ys: seq<NodeSnapshots>, a: seq<Row>, b: seq<Row>)
    requires multiset(xs) == multiset(ys)
    requires IsAggregate(a, xs) && IsAggregate(b, ys)
    ensures a == b
  {
    hide Total, Stamped, Increasing, Wrap64;
    forall ts ensures StampedBySome(xs, ts) <==> StampedBySome(ys, ts) {
      assert forall n :: n in xs <==> n in multiset(xs);
      assert forall n :: n in ys <==> n in multiset(ys);
    }
    forall i | 0 <= i < |a| ensures IsRow(a[i].metrics, ys, a[i].timestamp) {
      var ts := a[i].timestamp;
      assert IsRow(a[i].metrics, xs, ts);
      forall k ensures Total(xs, ts, k) == Total(ys, ts, k) {
        TotalIgnoresOrder(xs, ys, ts, k);
      }
    }
    AggregateIsUnique(a, b, ys);
  }

  // ----- Reading a bucket's counts -----

  function PickMetric(metrics: map<string, Option<int>>, key: string): Option<nat> {
    if key in metrics && metrics[key].Some? then Some(if metrics[key].value >= 0 then metrics[key].value else 0)
    else None
  }

  /** The first of several aliases that carries a value. */
  function PickFirstMetric(metrics: map<string, Option<int>>, keys: seq<string>): Option<nat> {
    if keys == [] then None
    else if PickMetric(metrics, keys[0]).Some? then PickMetric(metrics, keys[0])
    else PickFirstMetric(metrics, keys[1..])
  }

  /** The metrics of an aggregated row, as the bucket mapping sees them. */
  function AsMetrics(row: Row): map<string, Option<int>> {
    map k | k in row.metrics :: Some(row.metrics[k])
  }

  /** Alias `i` is the first that any node reported at `ts`. */
  ghost predicate FirstReported(nodes: seq<NodeSnapshots>, ts: string, keys: seq<string>, i: int) {
    0 <= i < |keys| && Total(nodes, ts, keys[i]).Some? && forall j :: 0 <= j < i ==> Total(nodes, ts, keys[j]) == None
  }

  /**
   On a cluster, a count shown for a bucket is the nodes' total of the first
   alias any of them reported, never negative; there is none iff no alias was.
   */
  lemma {:induction false} ClusteredCount(rows: seq<Row>, nodes: seq<NodeSnapshots>, r: nat, keys: seq<string>)
    requires IsAggregate(rows, nodes) && r < |rows|
    ensures var ts, shown := rows[r].timestamp, PickFirstMetric(AsMetrics(rows[r]), keys);
            && (forall i :: FirstReported(nodes, ts, keys, i) ==>
                  var total := Wrap64(Total(nodes, ts, keys[i]).value);
                  shown == Some(if total >= 0 then total else 0))
            && (shown == None <==> forall i :: 0 <= i < |keys| ==> Total(nodes, ts, keys[i]) == None)
    decreases |keys|
  {
    hide Total, Wrap64, StampedBySome, Increasing;
    if keys != [] {
      var ts, rest := rows[r].timestamp, keys[1..];
      ClusteredCount(rows, nodes, r, rest);
      assert IsRow(rows[r].metrics, nodes, ts);
      assert forall i :: 0 <= i < |rest| ==> rest[i] == keys[i + 1];
      forall i | FirstReported(nodes, ts, keys, i)
        ensures if i > 0 then FirstReported(nodes, ts, rest, i - 1) && Total(nodes, ts, keys[0]) == None
                else Total(nodes, ts, keys[0]).Some? {
        assert forall j :: 0 <= j < i - 1 ==> rest[j] == keys[j + 1];
      }
      if forall i :: 0 <= i < |rest| ==> Total(nodes, ts, rest[i]) == None {
        assert forall i :: 0 < i < |keys| ==> keys[i] == rest[i - 1];
      }
    }
  }
}
