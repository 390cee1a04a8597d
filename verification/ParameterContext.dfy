/**
 Resolution of a parameter context's inheritance chain
 (src/client/parameter_context.rs): a level-by-level breadth-first search over a
 possibly cyclic graph, with failing fetches and a depth cap.
 */
module ParameterContext {
  import opened LevelSearch
  import opened Wrappers

  type Id = string

  const MAX_CHAIN_DEPTH: nat := 16

  datatype ParameterDto = ParameterDto(
    name: Option<string>, value: Option<string>, description: Option<string>,
    sensitive: Option<bool>, provided: Option<bool>)

  datatype ContextDto = ContextDto(
    name: Option<string>,
    parameters: Option<seq<Option<ParameterDto>>>,
    inherited: Option<seq<Option<Id>>>)

  datatype ContextEntity = ContextEntity(component: Option<ContextDto>)

  /** What the server answers for each id; fixed for the length of one resolution. */
  type Server = Id -> Result<ContextEntity, string>

  datatype ParameterEntry = ParameterEntry(
    name: string, value: Option<string>, description: Option<string>, sensitive: bool, provided: bool)

  datatype Node = Node(
    id: Id, name: string, parameters: seq<ParameterEntry>, inheritedIds: seq<Id>, fetchError: Option<string>)

  datatype ChainFetchResult = Loaded(nodes: seq<Node>) | BoundFailed(error: string)

  // ----- One answer turned into one node -----

  /** The values present in a list of optional values, in order. */
  function Present<T>(xs: seq<Option<T>>): seq<T> {
    if xs == [] then []
    else Present(xs[..|xs| - 1]) + (match xs[|xs| - 1] case Some(x) => [x] case None => [])
  }

  function EntryOf(p: ParameterDto): ParameterEntry {
    var sensitive := p.sensitive.GetOr(false);
    ParameterEntry(p.name.GetOr(""), if sensitive then None else p.value, p.description, sensitive,
                   p.provided.GetOr(false))
  }

  function Entries(ps: seq<ParameterDto>): seq<ParameterEntry> {
    seq(|ps|, i requires 0 <= i < |ps| => EntryOf(ps[i]))
  }

  function NodeOf(server: Server, id: Id): Node {
    match server(id)
    case Success(entity) =>
      (match entity.component
       case Some(c) =>
         Node(id, c.name.GetOr(id), Entries(Present(c.parameters.GetOr([]))), Present(c.inherited.GetOr([])), None)
       case None => Node(id, id, [], [], None))
    case Failure(e) => Node(id, id, [], [], Some(e))
  }

  /** The out-edges of `id`; a context that fails to load has none. */
  function Inherited(server: Server, id: Id): seq<Id> {
    NodeOf(server, id).inheritedIds
  }

  lemma NodeDropsSensitiveValues(server: Server, id: Id)
    ensures forall p :: p in NodeOf(server, id).parameters && p.sensitive ==> p.value == None
  {
    if server(id).Success? && server(id).value.component.Some? {
      var ps := Present(server(id).value.component.value.parameters.GetOr([]));
      assert NodeOf(server, id).parameters == Entries(ps);
    }
  }

  // ----- The same, read off the answers -----

  /** `ys` stand for the values present in `xs`, one for one and in order; `at` says which for which. */
  ghost predicate PicksAt<T, U>(xs: seq<Option<T>>, ys: seq<U>, same: (T, U) -> bool, at: seq<nat>) {
    && |at| == |ys|
    && (forall k, m :: 0 <= k < m < |at| ==> at[k] < at[m])
    && (forall k :: 0 <= k < |at| ==> at[k] < |xs| && xs[at[k]].Some? && same(xs[at[k]].value, ys[k]))
    && (forall i :: 0 <= i < |xs| && xs[i].Some? ==> i in at)
  }

  ghost predicate Picks<T, U>(xs: seq<Option<T>>, ys: seq<U>, same: (T, U) -> bool) {
    exists at :: PicksAt(xs, ys, same, at)
  }

  /** What a view may show of a parameter. */
  predicate Shows(p: ParameterDto, e: ParameterEntry) {
    && (e.sensitive <==> p.sensitive == Some(true)) && (e.provided <==> p.provided == Some(true))
    && (p.name.Some? ==> e.name == p.name.value) && (p.name.None? ==> e.name == "")
    && e.description == p.description
    && (if p.sensitive == Some(true) then e.value == None else e.value == p.value)
  }

  predicate SameId(x: Id, y: Id) {
    x == y
  }

  function Listed<T>(xs: Option<seq<T>>): seq<T> {
    match xs
    case Some(list) => list
    case None => []
  }

  /** The node of `id` when the server's answer is `answer`. */
  ghost predicate Reports(answer: Result<ContextEntity, string>, n: Node) {
    match answer
    case Failure(e) => n.fetchError == Some(e) && n.name == n.id && n.parameters == [] && n.inheritedIds == []
    case Success(ContextEntity(None)) =>
      n.fetchError == None && n.name == n.id && n.parameters == [] && n.inheritedIds == []
    case Success(ContextEntity(Some(c))) =>
      && n.fetchError == None && (c.name == None ==> n.name == n.id) && (c.name.Some? ==> n.name == c.name.value)
      && Picks(Listed(c.parameters), n.parameters, Shows)
      && Picks(Listed(c.inherited), n.inheritedIds, SameId)
  }

  /** The answer for `x` lists `y` among the contexts it inherits. */
  predicate Lists(server: Server, x: Id, y: Id) {
    && server(x).Success? && server(x).value.component.Some?
    && Some(y) in Listed(server(x).value.component.value.inherited)
  }

  /** Each id on the path is listed by the one before. */
  ghost predicate Leads(server: Server, from: Id, to: Id, path: seq<Id>) {
    && path != [] && path[0] == from && path[|path| - 1] == to
    && forall i :: 0 < i < |path| ==> Lists(server, path[i - 1], path[i])
  }

  /** The present values themselves. */
  ghost predicate StandsAt<T>(xs: seq<Option<T>>, ys: seq<T>, at: seq<nat>) {
    && |at| == |ys|
    && (forall k, m :: 0 <= k < m < |at| ==> at[k] < at[m])
    && (forall k :: 0 <= k < |at| ==> at[k] < |xs| && xs[at[k]] == Some(ys[k]))
    && (forall i :: 0 <= i < |xs| && xs[i].Some? ==> i in at)
  }

  lemma StandsOne<T>(xs: seq<Option<T>>, x: Option<T>, ys: seq<T>, at: seq<nat>)
    requires StandsAt(xs, ys, at)
    ensures x.None? ==> StandsAt(xs + [x], ys, at)
    ensures x.Some? ==> StandsAt(xs + [x], ys + [x.value], at + [|xs|])
  {
    var more := at + [|xs|];
    assert forall i :: i in at ==> i in more;
    assert more[|at|] == |xs|;
  }

  lemma {:induction false} PresentStands<T>(xs: seq<Option<T>>) returns (at: seq<nat>)
    ensures StandsAt(xs, Present(xs), at)
  {
    hide StandsAt;
    if xs == [] {
      at := [];
      NothingStands<T>();
    } else {
      var n := |xs| - 1;
      at := PresentStands(xs[..n]);
      StandsOne(xs[..n], xs[n], Present(xs[..n]), at);
      assert xs[..n] + [xs[n]] == xs;
      if xs[n].Some? {
        at := at + [n];
      } else {
        assert Present(xs) == Present(xs[..n]);
      }
    }
  }

  lemma NothingStands<T>()
    ensures StandsAt<T>([], [], [])
  {
  }

  lemma EntryShows(p: ParameterDto)
    ensures Shows(p, EntryOf(p))
  {
  }

  lemma NodeReports(server: Server, id: Id)
    ensures NodeOf(server, id).id == id && Reports(server(id), NodeOf(server, id))
  {
    if server(id).Success? && server(id).value.component.Some? {
      var c := server(id).value.component.value;
      var ps, ids := Listed(c.parameters), Listed(c.inherited);
      forall p ensures Shows(p, EntryOf(p)) {
        EntryShows(p);
      }
      var at := PresentStands(ps);
      assert PicksAt(ps, Entries(Present(ps)), Shows, at);
      var there := PresentStands(ids);
      assert PicksAt(ids, Present(ids), SameId, there);
    }
  }

  lemma EdgesAreLists(server: Server, x: Id, y: Id)
    ensures y in Inherited(server, x) <==> Lists(server, x, y)
  {
    if server(x).Success? && server(x).value.component.Some? {
      var ids := Listed(server(x).value.component.value.inherited);
      var at := PresentStands(ids);
      if y in Present(ids) {
        var k :| 0 <= k < |Present(ids)| && Present(ids)[k] == y;
        assert ids[at[k]] == Some(y);
      }
      if Some(y) in ids {
        var i :| 0 <= i < |ids| && ids[i] == Some(y);
        var k :| 0 <= k < |at| && at[k] == i;
        assert Present(ids)[k] == y;
      }
    }
  }

  ghost predicate HasNode(nodes: seq<Node>, id: Id) {
    exists n :: n in nodes && n.id == id
  }

  ghost predicate LedTo(server: Server, bound: Id, id: Id, steps: nat) {
    exists path :: Leads(server, bound, id, path) && |path| <= steps + 1
  }

  /** The chain holds exactly the contexts a path of listed ids leads to, and reports the answer for each. */
  ghost predicate Answers(server: Server, bound: Id, nodes: seq<Node>, radius: nat) {
    && (forall n :: n in nodes ==> Reports(server(n.id), n))
    && (forall id :: HasNode(nodes, id) <==> LedTo(server, bound, id, radius))
  }

  lemma PathsAreLeads(server: Server, bound: Id, id: Id, path: seq<Id>)
    ensures IsPath(Inheritance(server), bound, id, path) <==> Leads(server, bound, id, path)
  {
    hide Inherited;
    forall i | 0 < i < |path|
      ensures path[i] in Inheritance(server)(path[i - 1]) <==> Lists(server, path[i - 1], path[i])
    {
      EdgesAreLists(server, path[i - 1], path[i]);
    }
  }

  lemma ChainAnswers(server: Server, bound: Id, nodes: seq<Node>, radius: nat)
    requires IsChain(server, bound, nodes, radius)
    ensures Answers(server, bound, nodes, radius)
  {
    hide NodeOf, Reports, Inheritance, IsPath, Leads;
    forall n | n in nodes ensures Reports(server(n.id), n) {
      var i :| 0 <= i < |nodes| && nodes[i] == n;
      NodeReports(server, Ids(nodes)[i]);
    }
    forall id ensures HasNode(nodes, id) <==> LedTo(server, bound, id, radius) {
      InIds(nodes, id);
      forall path ensures IsPath(Inheritance(server), bound, id, path) <==> Leads(server, bound, id, path) {
        PathsAreLeads(server, bound, id, path);
      }
    }
  }

  lemma InIds(nodes: seq<Node>, id: Id)
    ensures id in Ids(nodes) <==> HasNode(nodes, id)
  {
    if n :| n in nodes && n.id == id {
      var i :| 0 <= i < |nodes| && nodes[i] == n;
      assert Ids(nodes)[i] == id;
    }
    if id in Ids(nodes) {
      var i :| 0 <= i < |nodes| && Ids(nodes)[i] == id;
      assert nodes[i] in nodes;
    }
  }

  // ----- The chain -----

  /** The inheritance relation the server describes, as a graph. */
  function Inheritance(server: Server): Graph<Id> {
    (id: Id) => Inherited(server, id)
  }

  function Nodes(server: Server, ids: seq<Id>): seq<Node> {
    seq(|ids|, i requires 0 <= i < |ids| => NodeOf(server, ids[i]))
  }

  function Ids(nodes: seq<Node>): seq<Id> {
    seq(|nodes|, i requires 0 <= i < |nodes| => nodes[i].id)
  }

  /**
   The chain of `bound`: every node carries the server's answer for its id, and
   the ids are the contexts within `radius` inheritance steps, each once, in
   discovery order.
   */
  ghost predicate IsChain(server: Server, bound: Id, nodes: seq<Node>, radius: nat) {
    && nodes == Nodes(server, Ids(nodes))
    && IsSearchOrder(Inheritance(server), bound, Ids(nodes), radius)
  }

  /** The `visited.insert` filter: keeps the first occurrence of each unvisited id and marks it. */
  method TakeUnvisited(frontier: seq<Id>, seen: set<Id>) returns (unique: seq<Id>, visited: set<Id>)
    ensures unique == Unseen(frontier, seen)
    ensures visited == seen + Elements(unique)
  {
    unique, visited := [], seen;
    for i := 0 to |frontier|
      invariant unique == Unseen(frontier[..i], seen)
      invariant visited == seen + Elements(unique)
    {
      assert frontier[..i + 1][..i] == frontier[..i];
      if frontier[i] !in visited {
        visited := visited + {frontier[i]};
        unique := unique + [frontier[i]];
      }
    }
    assert frontier[..|frontier|] == frontier;
  }

  method AppendUnvisited(next: seq<Id>, inherited: seq<Id>, visited: set<Id>) returns (r: seq<Id>)
    ensures r == next + Outside(inherited, visited)
  {
    r := next;
    for j := 0 to |inherited|
      invariant r == next + Outside(inherited[..j], visited)
    {
      assert inherited[..j + 1][..j] == inherited[..j];
      if inherited[j] !in visited {
        r := r + [inherited[j]];
      }
    }
    assert inherited[..|inherited|] == inherited;
  }

  /**
   The answers of one level, in request order: the nodes to append and the ids
   to try next, or `failed` once the bound context turns out not to load.
   */
  method ReadLevel(server: Server, bound: Id, unique: seq<Id>, visited: set<Id>)
    returns (level: seq<Node>, next: seq<Id>, failed: bool)
    ensures failed <==> bound in unique && server(bound).Failure?
    ensures !failed ==> level == Nodes(server, unique) && next == NextFrontier(Inheritance(server), unique, visited)
  {
    hide NodeOf, Outside;
    level, next := [], [];
    for i := 0 to |unique|
      invariant level == Nodes(server, unique[..i])
      invariant next == NextFrontier(Inheritance(server), unique[..i], visited)
      invariant server(bound).Failure? ==> bound !in unique[..i]
    {
      var id := unique[i];
      var node := NodeOf(server, id);
      assert unique[..i + 1][..i] == unique[..i];
      if server(id).Failure? && id == bound {
        return level, next, true;
      }
      next := AppendUnvisited(next, node.inheritedIds, visited);
      level := level + [node];
    }
    assert unique[..|unique|] == unique;
    failed := false;
  }

  /**
   `fetch_chain`. The parallel fetches of one level are joined in request order
   before any answer is looked at, so a level is an ordered list of answers.
   */
  method FetchChain(server: Server, bound: Id) returns (result: ChainFetchResult)
    ensures result.BoundFailed? <==> server(bound).Failure?
    ensures result.BoundFailed? ==> result.error == server(bound).error
    ensures result.Loaded? ==> IsChain(server, bound, result.nodes, MAX_CHAIN_DEPTH - 1)
    ensures result.Loaded? ==> Answers(server, bound, result.nodes, 15)
  {
    hide Round, Rounds, Unseen, NextFrontier, IsSearchOrder, NodeOf, Nodes, Elements, Inheritance, Answers;
    ghost var g := Inheritance(server);
    var visited: set<Id> := {};
    var nodes: seq<Node> := [];
    var frontier := [bound];
    var depth: nat := 0;
    ghost var found: seq<Id> := [];
    NoRounds(server, bound);
    while frontier != []
      invariant depth <= MAX_CHAIN_DEPTH
      invariant nodes == Nodes(server, found)
      invariant Search(visited, found, frontier) == Rounds(g, bound, depth)
      invariant depth > 0 ==> server(bound).Success?
      decreases MAX_CHAIN_DEPTH - depth
    {
      if depth >= MAX_CHAIN_DEPTH {
        break;
      }
      depth := depth + 1;
      var unique;
      unique, visited := TakeUnvisited(frontier, visited);
      var level, next, failed := ReadLevel(server, bound, unique, visited);
      if failed {
        return BoundFailed(server(bound).error);
      }
      if depth == 1 {
        FirstLevel(bound);
      }
      UnfoldRound(g, bound, depth);
      NodesConcat(server, found, unique);
      nodes := nodes + level;
      found := found + unique;
      frontier := next;
    }
    if frontier == [] {
      ExhaustedIsFinal(g, bound, depth, MAX_CHAIN_DEPTH);
    }
    RoundsFindSearchOrder(g, bound, MAX_CHAIN_DEPTH);
    IdsOfNodes(server, found);
    result := Loaded(nodes);
    ChainAnswers(server, bound, nodes, MAX_CHAIN_DEPTH - 1);
  }

  lemma FirstLevel(bound: Id)
    ensures bound in Unseen([bound], {})
  {
    UnseenBasics([bound], {});
    assert bound in Elements(Unseen([bound], {}));
  }

  lemma UnfoldRound(g: Graph<Id>, bound: Id, k: nat)
    requires k > 0
    ensures var s := Rounds(g, bound, k - 1);
            var level := Unseen(s.frontier, s.visited);
            var visited := s.visited + Elements(level);
            Rounds(g, bound, k) == Search(visited, s.found + level, NextFrontier(g, level, visited))
  {
    hide Unseen, NextFrontier;
  }

  lemma NoRounds(server: Server, bound: Id)
    ensures Rounds(Inheritance(server), bound, 0) == Search({}, [], [bound]) && Nodes(server, []) == []
  {
  }

  lemma NodesConcat(server: Server, xs: seq<Id>, ys: seq<Id>)
    ensures Nodes(server, xs + ys) == Nodes(server, xs) + Nodes(server, ys)
  {
    hide NodeOf;
  }

  lemma IdsOfNodes(server: Server, xs: seq<Id>)
    ensures Ids(Nodes(server, xs)) == xs
  {
  }

  // ----- Sensitive values -----

  function Censored(p: Option<ParameterDto>): Option<ParameterDto> {
    match p
    case Some(dto) => Some(if dto.sensitive == Some(true) then dto.(value := None) else dto)
    case None => None
  }

  /** The two lists differ in the values of sensitive parameters at most. */
  ghost predicate SameButSecrets(ps: seq<Option<ParameterDto>>, qs: seq<Option<ParameterDto>>) {
    |ps| == |qs| && forall i :: 0 <= i < |ps| ==> Censored(ps[i]) == Censored(qs[i])
  }

  /** And so do the two answers. */
  ghost predicate Alike(x: Result<ContextEntity, string>, y: Result<ContextEntity, string>) {
    || x == y
    || (&& x.Success? && y.Success? && x.value.component.Some? && y.value.component.Some?
        && var c, d := x.value.component.value, y.value.component.value;
           && c.name == d.name && c.inherited == d.inherited
           && SameButSecrets(c.parameters.GetOr([]), d.parameters.GetOr([])))
  }

  lemma {:induction false} EntriesAreCensored(ps: seq<Option<ParameterDto>>, qs: seq<Option<ParameterDto>>)
    requires SameButSecrets(ps, qs)
    ensures Entries(Present(ps)) == Entries(Present(qs))
    decreases |ps|
  {
    if ps != [] {
      var n := |ps| - 1;
      EntriesAreCensored(ps[..n], qs[..n]);
      assert Censored(ps[n]) == Censored(qs[n]);
      if ps[n].Some? {
        EntriesOneMore(Present(ps[..n]), ps[n].value);
        EntriesOneMore(Present(qs[..n]), qs[n].value);
      } else {
        assert Present(ps) == Present(ps[..n]) && Present(qs) == Present(qs[..n]);
      }
    }
  }

  lemma EntriesOneMore(ps: seq<ParameterDto>, p: ParameterDto)
    ensures Entries(ps + [p]) == Entries(ps) + [EntryOf(p)]
  {
    hide EntryOf;
  }

  lemma AlikeGiveSameNode(a: Server, b: Server, id: Id)
    requires Alike(a(id), b(id))
    ensures NodeOf(a, id) == NodeOf(b, id)
  {
    if a(id) != b(id) {
      hide Entries, Present, SameButSecrets;
      EntriesAreCensored(a(id).value.component.value.parameters.GetOr([]),
                         b(id).value.component.value.parameters.GetOr([]));
    }
  }

  /**
   No sensitive parameter's value gets anywhere into a chain, and none has any
   influence on it: servers that differ in such values only have the same chains.
   */
  lemma SensitiveValuesAreDropped(a: Server, b: Server, bound: Id, nodes: seq<Node>, radius: nat)
    requires IsChain(a, bound, nodes, radius) && forall id :: Alike(a(id), b(id))
    ensures forall n, p :: n in nodes && p in n.parameters && p.sensitive ==> p.value == None
    ensures IsChain(b, bound, nodes, radius)
  {
    hide NodeOf, IsSearchOrder, Alike;
    forall n | n in nodes ensures forall p :: p in n.parameters && p.sensitive ==> p.value == None {
      var i :| 0 <= i < |nodes| && nodes[i] == n;
      assert n == NodeOf(a, Ids(nodes)[i]);
      NodeDropsSensitiveValues(a, Ids(nodes)[i]);
    }
    forall id ensures NodeOf(a, id) == NodeOf(b, id) {
      assert Alike(a(id), b(id));
      AlikeGiveSameNode(a, b, id);
    }
    SearchOrderSame(Inheritance(a), Inheritance(b), bound, Ids(nodes), radius);
  }

  /** The server's answers determine the chain: no other list of nodes would do. */
  lemma ChainIsUnique(server: Server, bound: Id, a: seq<Node>, b: seq<Node>, radius: nat)
    requires IsChain(server, bound, a, radius) && IsChain(server, bound, b, radius)
    ensures a == b
  {
    hide IsSearchOrder, Nodes;
    SearchOrderIsUnique(Inheritance(server), bound, Ids(a), Ids(b), radius);
  }

  lemma CapLosesNothing(g: Graph<Id>, bound: Id, contexts: set<Id>, ids: seq<Id>)
    requires bound in contexts && |contexts| <= MAX_CHAIN_DEPTH
    requires forall id, child :: id in contexts && child in g(id) ==> child in contexts
    requires IsSearchOrder(g, bound, ids, MAX_CHAIN_DEPTH - 1)
    ensures forall id :: id in ids <==> exists path :: IsPath(g, bound, id, path)
  {
    UncappedSearchTerminates(g, bound, contexts);
    RoundsGrow(g, bound, |contexts|, MAX_CHAIN_DEPTH);
    ExhaustedIsFinal(g, bound, |contexts|, MAX_CHAIN_DEPTH);
    RoundsFindSearchOrder(g, bound, MAX_CHAIN_DEPTH);
  }

  /**
   Over finitely many contexts the search ends by itself, cycles included, and
   when there are at most as many contexts as rounds the cap loses nothing:
   the chain then holds every context reachable at all.
   */
  lemma SmallGraphsAreComplete(server: Server, bound: Id, contexts: set<Id>, nodes: seq<Node>)
    requires bound in contexts && |contexts| <= MAX_CHAIN_DEPTH
    requires forall id, child :: id in contexts && Lists(server, id, child) ==> child in contexts
    requires IsChain(server, bound, nodes, MAX_CHAIN_DEPTH - 1)
    ensures forall id :: HasNode(nodes, id) <==> exists path :: Leads(server, bound, id, path)
  {
    hide NodeOf, IsPath, Leads, Lists, IsSearchOrder, Inherited, HasNode, Nodes, Ids;
    var g := Inheritance(server);
    forall x, y ensures y in g(x) <==> Lists(server, x, y) {
      EdgesAreLists(server, x, y);
    }
    CapLosesNothing(g, bound, contexts, Ids(nodes));
    forall id ensures HasNode(nodes, id) <==> exists path :: Leads(server, bound, id, path) {
      InIds(nodes, id);
      forall path ensures IsPath(g, bound, id, path) <==> Leads(server, bound, id, path) {
        PathsAreLeads(server, bound, id, path);
      }
    }
  }
}
