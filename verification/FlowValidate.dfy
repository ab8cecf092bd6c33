/**
 ValidateFlow: structural checks and a three-colour depth-first search for cycles.
 */
module FlowValidate {
  import opened Digraph
  import opened FlowGraph
  import opened Basics

  datatype Verdict =
    | Accepted
    | NoNodes
    | UnknownSource(edge: Edge)
    | UnknownTarget(edge: Edge)
    | NoInput
    | CycleAt(node: string)

  datatype Colour = Grey | Black

  /** The first edge, in listing order, with an endpoint that is not a node; the source is
      looked at before the target. */
  ghost predicate FirstDangling(g: Graph, e: Edge) {
    exists k :: 0 <= k < |g.edges| && g.edges[k] == e
                && (forall i :: 0 <= i < k ==> g.edges[i].source in NodeById(g.nodes) && g.edges[i].target in NodeById(g.nodes))
  }

  /** The state of the search: `path` holds the grey vertices, `order` the black ones as they
      were finished. */
  ghost predicate SearchState(E: set<(string, string)>, mark: map<string, Colour>, path: seq<string>, order: seq<string>) {
    forall k :: Look(k) ==>
      && (forall u :: u in path <==> u in mark && mark[u] == Grey)
      && (forall u :: u in order <==> u in mark && mark[u] == Black)
      && (path == [] || IsPath(E, path))
      && FinishOrder(E, order)
  }

  lemma EnterGrey(E: set<(string, string)>, mark: map<string, Colour>, path: seq<string>, order: seq<string>, id: string)
    requires SearchState(E, mark, path, order) && id !in mark
    requires path == [] || (path[|path| - 1], id) in E
    ensures SearchState(E, mark[id := Grey], path + [id], order) && id !in path
  {
    assert Look(0);
  }

  lemma LeaveBlack(E: set<(string, string)>, mark: map<string, Colour>, path: seq<string>, order: seq<string>, id: string)
    requires SearchState(E, mark, path + [id], order) && id !in path
    requires forall w :: (id, w) in E ==> w in mark && mark[w] == Black
    ensures SearchState(E, mark[id := Black], path, order + [id])
  {
    assert Look(0);
    assert id in path + [id];
    FinishOrderExtends(E, order, id);
    forall u ensures u in path <==> u in mark[id := Black] && mark[id := Black][u] == Grey {
      assert u in path + [id] <==> u in path || u == id;
    }
    if path != [] {
      forall i | 0 <= i < |path| - 1 ensures (path[i], path[i + 1]) in E {
        assert ((path + [id])[i], (path + [id])[i + 1]) in E;
      }
    }
  }

  /** The search of the source's recursive closure, with `mark` its colour map (white is absent). */
  class ColourSearch {
    const edgesFrom: map<string, seq<Edge>>
    ghost const E: set<(string, string)>
    ghost const ids: set<string>
    var mark: map<string, Colour>
    ghost var order: seq<string>

    constructor (edgesFrom: map<string, seq<Edge>>, ghost E: set<(string, string)>, ghost ids: set<string>)
      ensures mark == map[] && order == []
      ensures this.edgesFrom == edgesFrom && this.E == E && this.ids == ids
    {
      this.edgesFrom, this.E, this.ids := edgesFrom, E, ids;
      mark := map[];
      order := [];
    }

    /** The adjacency lists are those of E, and E stays among the nodes. */
    ghost predicate Wired() {
      Lists(edgesFrom, E) && forall u, w :: (u, w) in E ==> w in ids
    }

    ghost predicate Valid(path: seq<string>)
      reads this
    {
      mark.Keys <= ids && SearchState(E, mark, path, order)
    }

    /** Colours seen before stay. */
    ghost predicate Extends(before: map<string, Colour>)
      reads this
    {
      forall u :: u in before ==> u in mark && mark[u] == before[u]
    }

    lemma BackEdge(id: string, path: seq<string>)
      requires Valid(path) && id in mark && mark[id] == Grey
      requires path == [] || (path[|path| - 1], id) in E
      ensures OnCycle(E, id)
    {
      assert Look(0);
      BackEdgeClosesCycle(E, path, id);
    }

    /** Succeeds with id finished, or names a vertex that really lies on a cycle. */
    method Visit(id: string, ghost path: seq<string>) returns (backEdge: Option<string>)
      requires Wired() && Valid(path) && id in ids
      requires path == [] || (path[|path| - 1], id) in E
      modifies this
      decreases ids - mark.Keys
      ensures backEdge.Some? ==> OnCycle(E, backEdge.value)
      ensures backEdge.None? ==> Valid(path) && Extends(old(mark)) && id in mark && mark[id] == Black
    {
      if id in mark && mark[id] == Black { return None; }
      if id in mark && mark[id] == Grey {
        BackEdge(id, path);
        return Some(id);
      }
      EnterGrey(E, mark, path, order, id);
      mark := mark[id := Grey];
      var out := if id in edgesFrom then edgesFrom[id] else [];
      for i := 0 to |out|
        invariant Valid(path + [id]) && Extends(old(mark)) && id in mark && mark[id] == Grey
        invariant forall j :: 0 <= j < i ==> out[j].target in mark && mark[out[j].target] == Black
      {
        var err := Visit(out[i].target, path + [id]);
        if err.Some? { return err; }
      }
      LeaveBlack(E, mark, path, order, id);
      mark := mark[id := Black];
      order := order + [id];
      return None;
    }
  }

  /** The adjacency lists hold exactly the edges of E. */
  ghost predicate Lists(edgesFrom: map<string, seq<Edge>>, E: set<(string, string)>) {
    && (forall id, i :: id in edgesFrom && 0 <= i < |edgesFrom[id]| ==> (id, edgesFrom[id][i].target) in E)
    && (forall id, w :: (id, w) in E ==> id in edgesFrom && exists i :: 0 <= i < |edgesFrom[id]| && edgesFrom[id][i].target == w)
  }

  lemma AdjacencyListsAllEdges(g: Graph, edgesFrom: map<string, seq<Edge>>)
    requires forall id :: (if id in edgesFrom then edgesFrom[id] else []) == EdgesFrom(g.edges, id)
    ensures Lists(edgesFrom, AllEdges(g))
  {
    forall id, i | id in edgesFrom && 0 <= i < |edgesFrom[id]| ensures (id, edgesFrom[id][i].target) in AllEdges(g) {
      EdgesFromSound(g.edges, id);
      assert edgesFrom[id][i] in EdgesFrom(g.edges, id);
    }
    forall id, w | (id, w) in AllEdges(g)
      ensures id in edgesFrom && exists i :: 0 <= i < |edgesFrom[id]| && edgesFrom[id][i].target == w
    {
      var e :| e in g.edges && (e.source, e.target) == (id, w);
      EdgesFromSound(g.edges, id);
      assert e in EdgesFrom(g.edges, id);
    }
  }

  /** The outer loop of the search: every node is tried as a root. */
  method FindBackEdge(nodes: seq<Node>, edgesFrom: map<string, seq<Edge>>,
                      ghost E: set<(string, string)>, ghost ids: set<string>)
    returns (backEdge: Option<string>, ghost order: seq<string>)
    requires Lists(edgesFrom, E) && forall u, w :: (u, w) in E ==> w in ids
    requires forall n :: n in nodes ==> n.id in ids
    ensures backEdge.Some? ==> OnCycle(E, backEdge.value)
    ensures backEdge.None? ==> FinishOrder(E, order) && forall n :: n in nodes ==> n.id in order
  {
    var search := new ColourSearch(edgesFrom, E, ids);
    for i := 0 to |nodes|
      invariant search.Valid([])
      invariant fresh(search) && search.ids == ids && search.E == E
      invariant forall j :: 0 <= j < i ==> nodes[j].id in search.mark && search.mark[nodes[j].id] == Black
    {
      assert nodes[i] in nodes;
      var found := search.Visit(nodes[i].id, []);
      if found.Some? { return found, []; }
    }
    assert Look(0);
    return None, search.order;
  }

  /** The verdict is exact: a flow is accepted exactly when it is well formed, every rejection
      names its true cause, and a flow rejected for a cycle names a vertex on one. */
  method ValidateFlow(g: Graph) returns (v: Verdict, ghost order: seq<string>)
    ensures v.Accepted? <==> WellFormed(g)
    ensures v.Accepted? ==> FinishOrder(AllEdges(g), order) && forall n :: n in g.nodes ==> n.id in order
    ensures v.NoNodes? <==> g.nodes == []
    ensures v.UnknownSource? ==> FirstDangling(g, v.edge) && v.edge.source !in NodeById(g.nodes)
    ensures v.UnknownTarget? ==> FirstDangling(g, v.edge) && v.edge.source in NodeById(g.nodes)
                                 && v.edge.target !in NodeById(g.nodes)
    ensures v.NoInput? <==> g.nodes != [] && EndpointsExist(g) && !HasInput(g)
    ensures v.CycleAt? ==> EndpointsExist(g) && HasInput(g) && OnCycle(AllEdges(g), v.node)
  {
    if |g.nodes| == 0 { return NoNodes, []; }
    var byId := BuildNodeById(g.nodes);
    for i := 0 to |g.edges|
      invariant forall j :: 0 <= j < i ==> g.edges[j].source in byId && g.edges[j].target in byId
    {
      if g.edges[i].source !in byId { return UnknownSource(g.edges[i]), []; }
      if g.edges[i].target !in byId { return UnknownTarget(g.edges[i]), []; }
    }
    var hasInput := false;
    for i := 0 to |g.nodes|
      invariant !hasInput && forall j :: 0 <= j < i ==> !IsInputKind(g.nodes[j].kind)
    {
      if IsInputKind(g.nodes[i].kind) { hasInput := true; break; }
    }
    if !hasInput { return NoInput, []; }
    var edgesFrom := BuildEdgesFrom(g.edges);
    AdjacencyListsAllEdges(g, edgesFrom);
    EndpointsCloseEdges(g);
    var backEdge;
    backEdge, order := FindBackEdge(g.nodes, edgesFrom, AllEdges(g), byId.Keys);
    if backEdge.Some? {
      return CycleAt(backEdge.value), [];
    }
    CoveredGraphIsAcyclic(g, order);
    return Accepted, order;
  }

  lemma EndpointsCloseEdges(g: Graph)
    requires EndpointsExist(g)
    ensures forall u, w :: (u, w) in AllEdges(g) ==> w in NodeById(g.nodes)
  {
    forall u, w | (u, w) in AllEdges(g) ensures w in NodeById(g.nodes) {
      var e :| e in g.edges && (e.source, e.target) == (u, w);
    }
  }

  /** A finish order over all nodes rules out every cycle. */
  lemma CoveredGraphIsAcyclic(g: Graph, order: seq<string>)
    requires EndpointsExist(g) && FinishOrder(AllEdges(g), order)
    requires forall n :: n in g.nodes ==> n.id in order
    ensures Acyclic(AllEdges(g))
  {
    forall c | IsCycle(AllEdges(g), c) ensures false {
      FinishOrderHasNoCycle(AllEdges(g), order, c);
      EndpointsCloseEdges(g);
      NodeByIdSound(g.nodes);
    }
  }
}
