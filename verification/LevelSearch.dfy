/**
 Breadth-first search by levels over a graph given by its successor lists, as
 `fetch_chain` performs it (src/client/parameter_context.rs:141-257): a round
 keeps the unvisited ids of the frontier, visits them, and collects the ids
 they point at that are still unvisited.
 */
module LevelSearch {

  type Graph<!T> = T -> seq<T>

  // ----- What the search is supposed to find, stated on the graph alone -----

  /** `path` leads from `from` to `to` along edges. */
  ghost predicate IsPath<T(!new)>(g: Graph<T>, from: T, to: T, path: seq<T>) {
    && |path| > 0 && path[0] == from && path[|path| - 1] == to
    && forall i :: 0 < i < |path| ==> path[i] in g(path[i - 1])
  }

  /** `to` is at most `d` edges away from `from`. */
  ghost predicate Within<T(!new)>(g: Graph<T>, from: T, to: T, d: nat) {
    exists path :: IsPath(g, from, to, path) && |path| <= d + 1
  }

  ghost predicate Distinct<T>(xs: seq<T>) {
    forall i, j :: 0 <= i < j < |xs| ==> xs[i] != xs[j]
  }

  /** The successor lists of `xs`, joined in order. */
  function Outgoing<T>(g: Graph<T>, xs: seq<T>): seq<T> {
    if xs == [] then [] else Outgoing(g, xs[..|xs| - 1]) + g(xs[|xs| - 1])
  }

  /** The first occurrences in `xs` of the elements outside `seen`, in order. */
  function Unseen<T(==)>(xs: seq<T>, seen: set<T>): seq<T> {
    if xs == [] then []
    else
      var init := Unseen(xs[..|xs| - 1], seen);
      var x := xs[|xs| - 1];
      if x in seen || x in init then init else init + [x]
  }

  /**
   `found` lists without repetition exactly the elements within `radius` edges
   of `root`; it is a prefix of the first occurrences in its own work queue
   (the root, then everything its elements point at), so it is in discovery
   order; and nearer elements come first.
   */
  ghost predicate IsSearchOrder<T(!new)>(g: Graph<T>, root: T, found: seq<T>, radius: nat) {
    && Distinct(found)
    && (forall x :: x in found <==> Within(g, root, x, radius))
    && found <= Unseen([root] + Outgoing(g, found), {})
    && (forall i, j, d: nat :: 0 <= i < j < |found| && Within(g, root, found[j], d) ==> Within(g, root, found[i], d))
  }

  // ----- The rounds -----

  datatype Search<T> = Search(visited: set<T>, found: seq<T>, frontier: seq<T>)

  function Elements<T(==)>(xs: seq<T>): set<T> {
    set x | x in xs
  }

  function Outside<T(==)>(xs: seq<T>, seen: set<T>): seq<T> {
    if xs == [] then []
    else Outside(xs[..|xs| - 1], seen) + (if xs[|xs| - 1] in seen then [] else [xs[|xs| - 1]])
  }

  /** What the elements of one level point at and nobody has visited. */
  function NextFrontier<T(==)>(g: Graph<T>, level: seq<T>, visited: set<T>): seq<T> {
    if level == [] then []
    else NextFrontier(g, level[..|level| - 1], visited) + Outside(g(level[|level| - 1]), visited)
  }

  function Round<T(==)>(g: Graph<T>, s: Search<T>): Search<T> {
    var level := Unseen(s.frontier, s.visited);
    var visited := s.visited + Elements(level);
    Search(visited, s.found + level, NextFrontier(g, level, visited))
  }

  function Rounds<T(==)>(g: Graph<T>, root: T, k: nat): Search<T> {
    if k == 0 then Search({}, [], [root]) else Round(g, Rounds(g, root, k - 1))
  }

  // ----- First occurrences -----

  lemma {:induction false} UnseenBasics<T>(xs: seq<T>, seen: set<T>)
    ensures Distinct(Unseen(xs, seen))
    ensures Elements(Unseen(xs, seen)) == Elements(xs) - seen
  {
    if xs != [] {
      var front, x := xs[..|xs| - 1], xs[|xs| - 1];
      UnseenBasics(front, seen);
      var init := Unseen(front, seen);
      assert xs == front + [x];
      ElementsConcat(front, [x]);
      ElementsConcat(init, [x]);
      assert x in init <==> x in Elements(init);
      if x !in seen && x !in init {
        DistinctConcat(init, [x]);
      }
    }
  }

  lemma ElementsConcat<T>(xs: seq<T>, ys: seq<T>)
    ensures Elements(xs + ys) == Elements(xs) + Elements(ys)
  {
  }

  lemma {:induction false} UnseenConcat<T>(xs: seq<T>, ys: seq<T>, seen: set<T>)
    ensures Unseen(xs + ys, seen) == Unseen(xs, seen) + Unseen(ys, seen + Elements(xs))
  {
    if ys == [] {
      assert xs + ys == xs;
    } else {
      var init, y := ys[..|ys| - 1], ys[|ys| - 1];
      assert (xs + ys)[..|xs + ys| - 1] == xs + init;
      UnseenConcat(xs, init, seen);
      UnseenBasics(xs, seen);
      assert y in Unseen(xs, seen) <==> y in Elements(Unseen(xs, seen));
    }
  }

  lemma OneElementMore<T>(xs: seq<T>, x: T)
    ensures Elements(xs + [x]) == Elements(xs) + {x}
  {
    ElementsConcat(xs, [x]);
  }

  lemma {:induction false} OutsideElements<T>(xs: seq<T>, seen: set<T>)
    ensures Elements(Outside(xs, seen)) == Elements(xs) - seen
  {
    if xs != [] {
      hide Elements;
      var init, x := xs[..|xs| - 1], xs[|xs| - 1];
      OutsideElements(init, seen);
      assert xs == init + [x];
      OneElementMore(init, x);
      OneElementMore(Outside(init, seen), x);
      if x in seen {
        assert Outside(xs, seen) == Outside(init, seen);
      }
    }
  }

  /** Leaving out elements already seen does not change the first occurrences. */
  lemma {:induction false} UnseenOutside<T>(xs: seq<T>, seen: set<T>, more: set<T>)
    ensures Unseen(Outside(xs, seen), seen + more) == Unseen(xs, seen + more)
    ensures Elements(Outside(xs, seen)) == Elements(xs) - seen
  {
    hide Elements;
    OutsideElements(xs, seen);
    if xs != [] {
      var init, x := xs[..|xs| - 1], xs[|xs| - 1];
      UnseenOutside(init, seen, more);
      var o := Outside(init, seen);
      if x !in seen {
        assert (o + [x])[..|o + [x]| - 1] == o;
      } else {
        assert Outside(xs, seen) == o;
      }
    }
  }

  /** The next frontier deduplicates to what the level's successors deduplicate to. */
  lemma {:induction false} FrontierUnseen<T>(g: Graph<T>, level: seq<T>, visited: set<T>)
    ensures Unseen(NextFrontier(g, level, visited), visited) == Unseen(Outgoing(g, level), visited)
    ensures Elements(NextFrontier(g, level, visited)) == Elements(Outgoing(g, level)) - visited
  {
    if level != [] {
      var init := level[..|level| - 1];
      FrontierUnseen(g, init, visited);
      var front, all, kids := NextFrontier(g, init, visited), Outgoing(g, init), g(level[|level| - 1]);
      UnseenOutside(kids, visited, Elements(front));
      ElementsConcat(front, Outside(kids, visited));
      ElementsConcat(all, kids);
      UnseenConcat(front, Outside(kids, visited), visited);
      UnseenConcat(all, kids, visited);
      assert visited + Elements(front) == visited + Elements(all);
    }
  }

  lemma {:induction false} FrontierHasParents<T>(g: Graph<T>, level: seq<T>, visited: set<T>, x: T)
    requires x in NextFrontier(g, level, visited)
    ensures exists p :: p in level && x in g(p)
  {
    var init, p := level[..|level| - 1], level[|level| - 1];
    if x in NextFrontier(g, init, visited) {
      FrontierHasParents(g, init, visited, x);
      var q :| q in init && x in g(q);
      assert q in level;
    } else {
      UnseenOutside(g(p), visited, {});
      assert x in Elements(Outside(g(p), visited));
      assert p in level;
    }
  }

  lemma {:induction false} OutgoingConcat<T>(g: Graph<T>, xs: seq<T>, ys: seq<T>)
    ensures Outgoing(g, xs + ys) == Outgoing(g, xs) + Outgoing(g, ys)
  {
    if ys == [] {
      assert xs + ys == xs;
    } else {
      assert (xs + ys)[..|xs + ys| - 1] == xs + ys[..|ys| - 1];
      OutgoingConcat(g, xs, ys[..|ys| - 1]);
    }
  }

  lemma {:induction false} SuccessorsAreOutgoing<T>(g: Graph<T>, xs: seq<T>, p: T, x: T)
    requires p in xs && x in g(p)
    ensures x in Outgoing(g, xs)
  {
    if p in xs[..|xs| - 1] { SuccessorsAreOutgoing(g, xs[..|xs| - 1], p, x); }
  }

  // ----- What every round keeps -----

  /** `found` lists the visited elements; the frontier is unvisited; together they are the queue. */
  ghost predicate Inv<T>(g: Graph<T>, root: T, s: Search<T>) {
    var queue := [root] + Outgoing(g, s.found);
    && Distinct(s.found)
    && Elements(s.found) == s.visited
    && Elements(s.frontier) !! s.visited
    && Unseen(queue, {}) == s.found + Unseen(s.frontier, s.visited)
    && Elements(queue) == s.visited + Elements(s.frontier)
  }

  lemma DistinctConcat<T>(xs: seq<T>, ys: seq<T>)
    requires Distinct(xs) && Distinct(ys) && Elements(xs) !! Elements(ys)
    ensures Distinct(xs + ys)
  {
    forall i, j | 0 <= i < j < |xs + ys| ensures (xs + ys)[i] != (xs + ys)[j] {
      if i < |xs| <= j {
        assert xs[i] in Elements(xs) && ys[j - |xs|] in Elements(ys);
      }
    }
  }

  lemma QueueGrows<T>(before: seq<T>, added: seq<T>, next: seq<T>, visited: set<T>)
    requires Elements(before) == visited
    requires Unseen(next, visited) == Unseen(added, visited)
    ensures Unseen(before + added, {}) == Unseen(before, {}) + Unseen(next, visited)
  {
    UnseenConcat(before, added, {});
    assert {} + Elements(before) == visited;
  }

  /** A round moves the level from the frontier's side of the queue to the found side. */
  lemma RoundAdvancesQueue<T>(g: Graph<T>, root: T, found: seq<T>, level: seq<T>, next: seq<T>, visited: set<T>)
    requires next == NextFrontier(g, level, visited)
    requires Elements([root] + Outgoing(g, found)) == visited
    requires Unseen([root] + Outgoing(g, found), {}) == found + level
    ensures Unseen([root] + Outgoing(g, found + level), {}) == found + level + Unseen(next, visited)
    ensures Elements([root] + Outgoing(g, found + level)) == visited + Elements(next)
    ensures Elements(next) !! visited
  {
    hide Unseen, NextFrontier, Outgoing;
    FrontierUnseen(g, level, visited);
    OutgoingConcat(g, found, level);
    assert [root] + Outgoing(g, found + level) == ([root] + Outgoing(g, found)) + Outgoing(g, level);
    QueueGrows([root] + Outgoing(g, found), Outgoing(g, level), next, visited);
    ElementsConcat([root] + Outgoing(g, found), Outgoing(g, level));
  }

  lemma RoundKeepsInv<T>(g: Graph<T>, root: T, s: Search<T>)
    requires Inv(g, root, s)
    ensures Inv(g, root, Round(g, s))
    ensures Round(g, s).visited == s.visited + Elements(s.frontier)
  {
    var level := Unseen(s.frontier, s.visited);
    UnseenBasics(s.frontier, s.visited);
    assert Elements(level) == Elements(s.frontier);
    DistinctConcat(s.found, level);
    ElementsConcat(s.found, level);
    var visited := s.visited + Elements(level);
    RoundAdvancesQueue(g, root, s.found, level, NextFrontier(g, level, visited), visited);
  }

  lemma FirstRoundInv<T>(g: Graph<T>, root: T)
    ensures Inv(g, root, Search({}, [], [root]))
  {
    assert Unseen([root], {}) == [root] by { assert [root][..0] == []; }
    assert [root] + Outgoing(g, []) == [root];
  }

  lemma {:induction false} RoundsKeepInv<T>(g: Graph<T>, root: T, k: nat)
    ensures Inv(g, root, Rounds(g, root, k))
  {
    hide Round, Inv;
    if k == 0 {
      FirstRoundInv(g, root);
    } else {
      RoundsKeepInv(g, root, k - 1);
      RoundKeepsInv(g, root, Rounds(g, root, k - 1));
    }
  }

  lemma RoundsGrow<T>(g: Graph<T>, root: T, j: nat, k: nat)
    requires j <= k
    ensures Rounds(g, root, j).visited <= Rounds(g, root, k).visited
    ensures Rounds(g, root, j).found <= Rounds(g, root, k).found
    decreases k - j
  {
    if j < k { RoundsGrow(g, root, j + 1, k); }
  }

  // ----- Rounds measure distance -----

  /** After `k` rounds exactly the ends of paths of at most `k` vertices are visited. */
  ghost predicate Near<T(!new)>(g: Graph<T>, root: T, k: nat, s: Search<T>) {
    && (forall x :: x in s.visited <==> exists path :: IsPath(g, root, x, path) && |path| <= k)
    && (forall x :: x in s.frontier ==> exists path :: IsPath(g, root, x, path) && |path| == k + 1)
  }

  /** A path of `k + 1` vertices ends among the visited or on the frontier after `k` rounds. */
  lemma StepsStayNear<T(!new)>(g: Graph<T>, root: T, k: nat, s: Search<T>, x: T, path: seq<T>)
    requires Inv(g, root, s) && Near(g, root, k, s)
    requires IsPath(g, root, x, path) && |path| <= k + 1
    ensures x in s.visited + Elements(s.frontier)
  {
    var queue := [root] + Outgoing(g, s.found);
    if |path| > k {
      if |path| == 1 {
        assert x in queue;
      } else {
        var init := path[..|path| - 1];
        var p := path[|path| - 2];
        assert IsPath(g, root, p, init);
        assert p in s.visited;
        assert p in Elements(s.found);
        SuccessorsAreOutgoing(g, s.found, p, x);
        assert x in queue;
      }
      assert x in Elements(queue);
    }
  }

  lemma FrontierIsOneStepOn<T(!new)>(g: Graph<T>, root: T, k: nat, s: Search<T>, x: T)
    requires Near(g, root, k, s) && x in Round(g, s).frontier
    ensures exists path :: IsPath(g, root, x, path) && |path| == k + 2
  {
    var level := Unseen(s.frontier, s.visited);
    assert Round(g, s).frontier == NextFrontier(g, level, s.visited + Elements(level));
    hide Unseen, NextFrontier, Round, IsPath;
    UnseenBasics(s.frontier, s.visited);
    FrontierHasParents(g, level, s.visited + Elements(level), x);
    var p :| p in level && x in g(p);
    assert p in Elements(level);
    var path :| IsPath(g, root, p, path) && |path| == k + 1;
    OneEdgeMore(g, root, p, x, path);
  }

  lemma OneEdgeMore<T(!new)>(g: Graph<T>, root: T, p: T, x: T, path: seq<T>)
    requires IsPath(g, root, p, path) && x in g(p)
    ensures IsPath(g, root, x, path + [x])
  {
  }

  lemma RoundKeepsNear<T(!new)>(g: Graph<T>, root: T, k: nat, s: Search<T>)
    requires Inv(g, root, s) && Near(g, root, k, s)
    ensures Near(g, root, k + 1, Round(g, s))
  {
    var t := Round(g, s);
    RoundKeepsInv(g, root, s);
    forall x | x in t.frontier ensures exists path :: IsPath(g, root, x, path) && |path| == k + 2 {
      FrontierIsOneStepOn(g, root, k, s, x);
    }
    forall x ensures x in t.visited <==> exists path :: IsPath(g, root, x, path) && |path| <= k + 1 {
      if path :| IsPath(g, root, x, path) && |path| <= k + 1 {
        StepsStayNear(g, root, k, s, x, path);
      }
      if x in t.visited && x !in s.visited {
        assert x in s.frontier;
      }
    }
  }

  lemma {:induction false} RoundsAreNear<T(!new)>(g: Graph<T>, root: T, k: nat)
    ensures Near(g, root, k, Rounds(g, root, k))
  {
    hide Round, Inv;
    if k == 0 {
      assert IsPath(g, root, root, [root]);
    } else {
      RoundsAreNear(g, root, k - 1);
      RoundsKeepInv(g, root, k - 1);
      RoundKeepsNear(g, root, k - 1, Rounds(g, root, k - 1));
    }
  }

  /** What an earlier round had found comes before what it had not. */
  lemma NearerFirst<T(!new)>(g: Graph<T>, root: T, early: Search<T>, late: Search<T>, i: nat, j: nat, d: nat)
    requires Inv(g, root, early) && Near(g, root, d + 1, early)
    requires Distinct(late.found) && early.found <= late.found
    requires i < j < |late.found| && Within(g, root, late.found[j], d)
    ensures Within(g, root, late.found[i], d)
  {
    assert late.found[j] in Elements(early.found);
    var m :| 0 <= m < |early.found| && early.found[m] == late.found[j];
    assert m == j;
    assert early.found[i] in Elements(early.found);
  }

  // ----- Main results -----

  /** `k` rounds find the elements within `k - 1` edges, each once, in discovery order. */
  lemma RoundsFindSearchOrder<T(!new)>(g: Graph<T>, root: T, k: nat)
    requires k > 0
    ensures IsSearchOrder(g, root, Rounds(g, root, k).found, k - 1)
  {
    hide Inv, Near, Within, Rounds, Outgoing, Unseen;
    RoundsKeepInv(g, root, k);
    FoundIsNear(g, root, k);
    var found := Rounds(g, root, k).found;
    forall i, j, d: nat | 0 <= i < j < |found| && Within(g, root, found[j], d) ensures Within(g, root, found[i], d) {
      RoundsOrder(g, root, k, i, j, d);
    }
    InvMeansPrefix(g, root, Rounds(g, root, k));
  }

  lemma InvMeansPrefix<T(!new)>(g: Graph<T>, root: T, s: Search<T>)
    requires Inv(g, root, s)
    ensures Distinct(s.found) && s.found <= Unseen([root] + Outgoing(g, s.found), {})
  {
    hide Outgoing, Unseen;
  }

  lemma FoundIsNear<T(!new)>(g: Graph<T>, root: T, k: nat)
    requires k > 0
    ensures forall x :: x in Rounds(g, root, k).found <==> Within(g, root, x, k - 1)
  {
    hide Rounds;
    RoundsAreNear(g, root, k);
    RoundsKeepInv(g, root, k);
    var found := Rounds(g, root, k).found;
    forall x ensures x in found <==> Within(g, root, x, k - 1) {
      assert x in found <==> x in Elements(found);
    }
  }

  /** What is found later is no nearer. */
  lemma RoundsOrder<T(!new)>(g: Graph<T>, root: T, k: nat, i: nat, j: nat, d: nat)
    requires k > 0 && i < j < |Rounds(g, root, k).found| && Within(g, root, Rounds(g, root, k).found[j], d)
    ensures Within(g, root, Rounds(g, root, k).found[i], d)
  {
    hide Inv, Near, Within, Rounds;
    var found := Rounds(g, root, k).found;
    RoundsKeepInv(g, root, k);
    InvMeansPrefix(g, root, Rounds(g, root, k));
    if d + 1 < k {
      RoundsGrow(g, root, d + 1, k);
      RoundsAreNear(g, root, d + 1);
      RoundsKeepInv(g, root, d + 1);
      NearerFirst(g, root, Rounds(g, root, d + 1), Rounds(g, root, k), i, j, d);
    } else {
      FoundIsNear(g, root, k);
      assert found[i] in found;
      WithinMore(g, root, found[i], k - 1, d);
    }
  }

  lemma SubsetSize<T>(a: set<T>, b: set<T>)
    requires a <= b
    ensures |a| <= |b|
  {
    assert b == a + (b - a);
  }

  lemma RoundMakesProgress<T>(g: Graph<T>, root: T, s: Search<T>)
    requires Inv(g, root, s)
    ensures Round(g, s).frontier == [] || |Round(g, s).visited| > |s.visited|
    ensures s.frontier == [] ==> Round(g, s) == s
  {
    RoundKeepsInv(g, root, s);
    if s.frontier != [] {
      assert s.frontier[0] in Elements(s.frontier);
      SubsetSize(s.visited + {s.frontier[0]}, Round(g, s).visited);
    }
  }

  lemma {:induction false} RoundsMakeProgress<T>(g: Graph<T>, root: T, k: nat)
    ensures Rounds(g, root, k).frontier == [] || |Rounds(g, root, k).visited| >= k
  {
    hide Round, Inv;
    if k > 0 {
      RoundsMakeProgress(g, root, k - 1);
      RoundsKeepInv(g, root, k - 1);
      RoundMakesProgress(g, root, Rounds(g, root, k - 1));
    }
  }

  /** An exhausted search stays as it is. */
  lemma ExhaustedIsFinal<T>(g: Graph<T>, root: T, j: nat, k: nat)
    requires j <= k && Rounds(g, root, j).frontier == []
    ensures Rounds(g, root, k) == Rounds(g, root, j)
    decreases k - j
  {
    if j < k {
      var s := Rounds(g, root, j);
      assert Round(g, s) == s;
      ExhaustedIsFinal(g, root, j + 1, k);
    }
  }

  lemma {:induction false} PathsStayInside<T(!new)>(g: Graph<T>, root: T, x: T, path: seq<T>, universe: set<T>)
    requires root in universe && IsPath(g, root, x, path)
    requires forall v, w :: v in universe && w in g(v) ==> w in universe
    ensures x in universe
    decreases |path|
  {
    if |path| > 1 {
      PathsStayInside(g, root, path[|path| - 2], path[..|path| - 1], universe);
    }
  }

  lemma AllVisitedLeavesNoFrontier<T>(g: Graph<T>, root: T, s: Search<T>, universe: set<T>)
    requires Inv(g, root, s) && s.visited <= universe && Elements(s.frontier) <= universe
    requires |s.visited| >= |universe|
    ensures s.frontier == []
  {
    if s.frontier != [] {
      var x := s.frontier[0];
      assert x in Elements(s.frontier);
      SubsetSize(s.visited + {x}, universe);
      assert false;
    }
  }

  lemma RoundsStayInside<T(!new)>(g: Graph<T>, root: T, k: nat, universe: set<T>)
    requires root in universe
    requires forall v, w :: v in universe && w in g(v) ==> w in universe
    ensures Rounds(g, root, k).visited <= universe && Elements(Rounds(g, root, k).frontier) <= universe
  {
    RoundsAreNear(g, root, k);
    hide Round;
    forall x, path | IsPath(g, root, x, path) ensures x in universe {
      PathsStayInside(g, root, x, path, universe);
    }
  }

  /**
   Termination without a depth cap: inside a finite set closed under edges,
   cycles included, the frontier is empty after as many rounds as the set has
   elements, and everything reachable at all has been found by then.
   */
  lemma UncappedSearchTerminates<T(!new)>(g: Graph<T>, root: T, universe: set<T>)
    requires root in universe
    requires forall v, w :: v in universe && w in g(v) ==> w in universe
    ensures Rounds(g, root, |universe|).frontier == []
    ensures forall x :: x in Rounds(g, root, |universe|).found <==> exists path :: IsPath(g, root, x, path)
  {
    hide Rounds, Inv;
    var n := |universe|;
    var s := Rounds(g, root, n);
    RoundsKeepInv(g, root, n);
    RoundsStayInside(g, root, n, universe);
    RoundsMakeProgress(g, root, n);
    if s.frontier != [] {
      AllVisitedLeavesNoFrontier(g, root, s, universe);
    }
    FoundIsVisited(g, root, n);
    forall x ensures x in s.found <==> exists path :: IsPath(g, root, x, path) {
      RoundsAreNear(g, root, n);
      if path :| IsPath(g, root, x, path) {
        var m := if |path| > n then |path| else n;
        ExhaustedIsFinal(g, root, n, m);
        RoundsAreNear(g, root, m);
      }
    }
  }

  lemma FoundIsVisited<T>(g: Graph<T>, root: T, k: nat)
    ensures forall x :: x in Rounds(g, root, k).found <==> x in Rounds(g, root, k).visited
  {
    hide Rounds;
    RoundsKeepInv(g, root, k);
    var s := Rounds(g, root, k);
    assert forall x :: x in s.found <==> x in Elements(s.found);
  }

  // ----- The search order is unique -----

  /** The least distance at which `x` can be reached, with the element just before it. */
  lemma {:induction false} NearestPredecessor<T(!new)>(g: Graph<T>, root: T, x: T, radius: nat) returns (d: nat, q: T)
    requires x != root && Within(g, root, x, radius)
    ensures 0 < d <= radius && !Within(g, root, x, d - 1) && Within(g, root, q, d - 1) && x in g(q)
  {
    if radius > 0 && Within(g, root, x, radius - 1) {
      d, q := NearestPredecessor(g, root, x, radius - 1);
    } else {
      var path :| IsPath(g, root, x, path) && |path| <= radius + 1;
      assert |path| > 1;
      d, q := radius, path[|path| - 2];
      assert path[|path| - 1] in g(path[|path| - 2]);
      assert IsPath(g, root, q, path[..|path| - 1]);
    }
  }

  /** The root comes first. */
  lemma RootIsFirst<T(!new)>(g: Graph<T>, root: T, found: seq<T>, radius: nat)
    requires IsSearchOrder(g, root, found, radius)
    ensures found != [] && found[0] == root
  {
    hide Distinct;
    assert IsPath(g, root, root, [root]) && Within(g, root, root, radius);
    UnseenConcat([root], Outgoing(g, found), {});
    assert [root][..0] == [];
    assert Unseen([root], {}) == [root];
  }

  /** Each later element was pointed at by an earlier one. */
  lemma FoundFromEarlier<T(!new)>(g: Graph<T>, root: T, found: seq<T>, radius: nat, m: nat)
    requires IsSearchOrder(g, root, found, radius) && 0 < m < |found|
    ensures found[m] in Outgoing(g, found[..m])
  {
    hide Outgoing, Unseen, Within;
    RootIsFirst(g, root, found, radius);
    assert found[m] in found && found[0] != found[m];
    var d, q := NearestPredecessor(g, root, found[m], radius);
    WithinMore(g, root, q, d - 1, radius);
    var i :| 0 <= i < |found| && found[i] == q;
    assert i < m;
    assert found[..m][i] == q;
    SuccessorsAreOutgoing(g, found[..m], q, found[m]);
  }

  lemma WithinMore<T(!new)>(g: Graph<T>, root: T, x: T, d: nat, e: nat)
    requires Within(g, root, x, d) && d <= e
    ensures Within(g, root, x, e)
  {
  }

  /** So the next element is determined by those before it. */
  lemma NextIsDetermined<T(!new)>(g: Graph<T>, root: T, found: seq<T>, radius: nat, m: nat)
    requires IsSearchOrder(g, root, found, radius) && m < |found|
    ensures var seen := Unseen([root] + Outgoing(g, found[..m]), {});
            m < |seen| && seen[m] == found[m]
  {
    hide Within, Outgoing, Unseen;
    var front, back := found[..m], found[m..];
    var known, later := [root] + Outgoing(g, front), Outgoing(g, back);
    assert found == front + back;
    OutgoingConcat(g, front, back);
    assert [root] + Outgoing(g, found) == known + later;
    UnseenConcat(known, later, {});
    UnseenBasics(known, {});
    UnseenBasics(known + later, {});
    RootIsFirst(g, root, found, radius);
    if m > 0 {
      FoundFromEarlier(g, root, found, radius, m);
    }
    assert found[m] in known;
    var all, seen := Unseen(known + later, {}), Unseen(known, {});
    assert all[m] == found[m];
    assert found[m] in Elements(seen);
    var k :| 0 <= k < |seen| && seen[k] == found[m];
    assert all[k] == all[m];
  }

  lemma WithinSame<T(!new)>(g: Graph<T>, h: Graph<T>, from: T, to: T, d: nat)
    requires (forall x :: g(x) == h(x)) && Within(g, from, to, d)
    ensures Within(h, from, to, d)
  {
    var path :| IsPath(g, from, to, path) && |path| <= d + 1;
    assert IsPath(h, from, to, path);
  }

  lemma {:induction false} OutgoingSame<T>(g: Graph<T>, h: Graph<T>, xs: seq<T>)
    requires forall x :: g(x) == h(x)
    ensures Outgoing(g, xs) == Outgoing(h, xs)
  {
    if xs != [] {
      OutgoingSame(g, h, xs[..|xs| - 1]);
    }
  }

  /** Graphs with the same successor lists have the same search orders. */
  lemma SearchOrderSame<T(!new)>(g: Graph<T>, h: Graph<T>, root: T, found: seq<T>, radius: nat)
    requires (forall x :: g(x) == h(x)) && IsSearchOrder(g, root, found, radius)
    ensures IsSearchOrder(h, root, found, radius)
  {
    hide Within, Outgoing, Unseen;
    forall x, d: nat ensures Within(g, root, x, d) == Within(h, root, x, d) {
      if Within(g, root, x, d) {
        WithinSame(g, h, root, x, d);
      }
      if Within(h, root, x, d) {
        WithinSame(h, g, root, x, d);
      }
    }
    OutgoingSame(g, h, found);
  }

  /** There is only one such order: the graph, the root and the radius determine the list. */
  lemma SearchOrderIsUnique<T(!new)>(g: Graph<T>, root: T, a: seq<T>, b: seq<T>, radius: nat)
    requires IsSearchOrder(g, root, a, radius) && IsSearchOrder(g, root, b, radius)
    ensures a == b
  {
    hide Outgoing, Unseen, Within;
    var m := 0;
    while m < |a| && m < |b|
      invariant m <= |a| && m <= |b| && a[..m] == b[..m]
    {
      NextIsDetermined(g, root, a, radius, m);
      NextIsDetermined(g, root, b, radius, m);
      m := m + 1;
    }
    DistinctSize(a);
    DistinctSize(b);
    assert Elements(a) == Elements(b);
    assert a[..|a|] == a && b[..|b|] == b;
  }

  lemma {:induction false} DistinctSize<T>(xs: seq<T>)
    requires Distinct(xs)
    ensures |Elements(xs)| == |xs|
  {
    if xs != [] {
      var init, x := xs[..|xs| - 1], xs[|xs| - 1];
      DistinctSize(init);
      assert xs == init + [x];
      ElementsConcat(init, [x]);
      assert x !in Elements(init);
      assert Elements(xs) == Elements(init) + {x};
    }
  }
}
