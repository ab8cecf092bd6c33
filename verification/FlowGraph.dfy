/**
 The parsed flow graph and the two notions the flow engine is about: the edges a stored
 graph has, and the edges that are live once conditions and simulated failures are resolved.
 */
module FlowGraph {
  import opened Digraph
  import opened Basics

  /** A JSON value of a node's data map, as far as the engine looks at it. */
  datatype Value = Text(s: string) | Flag(b: bool) | Opaque(tag: int)

  type Config = map<string, Value>

  datatype Node = Node(id: string, kind: string, data: Config)
  datatype Edge = Edge(id: string, source: string, target: string, handle: string)
  datatype Graph = Graph(nodes: seq<Node>, edges: seq<Edge>)

  /** One unit of work derived from a node. */
  datatype TaskStep = TaskStep(nodeId: string, nodeKind: string, config: Config, dependsOn: seq<string>)

  predicate IsInputKind(kind: string) {
    |kind| >= 6 && kind[..6] == "input_"
  }

  /** Node lookup: a later node with the same id replaces an earlier one. */
  function NodeById(nodes: seq<Node>): map<string, Node> {
    if nodes == [] then map[]
    else NodeById(nodes[..|nodes| - 1])[nodes[|nodes| - 1].id := nodes[|nodes| - 1]]
  }

  /** Adjacency: the edges leaving id, in the order the graph lists them. */
  function EdgesFrom(edges: seq<Edge>, id: string): seq<Edge> {
    if edges == [] then []
    else EdgesFrom(edges[..|edges| - 1], id) +
         if edges[|edges| - 1].source == id then [edges[|edges| - 1]] else []
  }

  function FirstInput(nodes: seq<Node>): Option<Node> {
    if nodes == [] then None
    else if IsInputKind(nodes[0].kind) then Some(nodes[0])
    else FirstInput(nodes[1..])
  }

  ghost predicate HasInput(g: Graph) {
    exists n :: n in g.nodes && IsInputKind(n.kind)
  }

  ghost function AllEdges(g: Graph): set<(string, string)> {
    set e | e in g.edges :: (e.source, e.target)
  }

  ghost predicate EndpointsExist(g: Graph) {
    forall e :: e in g.edges ==> e.source in NodeById(g.nodes) && e.target in NodeById(g.nodes)
  }

  /** What ValidateFlow is meant to accept. */
  ghost predicate WellFormed(g: Graph) {
    |g.nodes| > 0 && HasInput(g) && EndpointsExist(g) && Acyclic(AllEdges(g))
  }

  /** The run-time context of one expansion: the source id injected into the input node and
      the configurations that evaluate to true against the analysis data. */
  datatype Context = Context(sourceId: string, holds: set<Config>)

  predicate SimulatesError(cfg: Config) {
    && "simulate_error" in cfg
    && (cfg["simulate_error"] == Flag(true) || cfg["simulate_error"] == Text("true"))
  }

  function StepConfig(input: Node, ctx: Context, n: Node, id: string): Config {
    if id == input.id then input.data["source_id" := Text(ctx.sourceId)] else n.data
  }

  /** Which outgoing edges of node n are followed: a condition takes its branch and the
      unlabelled edges, a failing node its "error" edges, any other node all the rest. */
  predicate Follows(ctx: Context, n: Node, cfg: Config, handle: string) {
    if n.kind == "condition" then
      var branch := if SimulatesError(cfg) then "error" else if cfg in ctx.holds then "true" else "false";
      handle == branch || handle == ""
    else if SimulatesError(cfg) then handle == "error"
    else handle != "error"
  }

  predicate Live(byId: map<string, Node>, input: Node, ctx: Context, e: Edge) {
    && e.source in byId
    && Follows(ctx, byId[e.source], StepConfig(input, ctx, byId[e.source], e.source), e.handle)
  }

  ghost function LiveEdges(g: Graph, input: Node, ctx: Context): set<(string, string)> {
    set e | e in g.edges && Live(NodeById(g.nodes), input, ctx, e) :: (e.source, e.target)
  }

  lemma {:induction false} EdgesFromSound(edges: seq<Edge>, id: string)
    ensures forall e :: e in EdgesFrom(edges, id) <==> e in edges && e.source == id
  {
    if edges != [] {
      EdgesFromSound(edges[..|edges| - 1], id);
      assert edges == edges[..|edges| - 1] + [edges[|edges| - 1]];
    }
  }

  lemma {:induction false} NodeByIdSound(nodes: seq<Node>)
    ensures forall id :: id in NodeById(nodes) <==> exists n :: n in nodes && n.id == id
    ensures forall id :: id in NodeById(nodes) ==> NodeById(nodes)[id] in nodes && NodeById(nodes)[id].id == id
  {
    if nodes != [] {
      var front, last := nodes[..|nodes| - 1], nodes[|nodes| - 1];
      NodeByIdSound(front);
      assert nodes == front + [last];
      forall id | exists n :: n in nodes && n.id == id ensures id in NodeById(nodes) {
        var n :| n in nodes && n.id == id;
        if n != last { assert n in front; }
      }
      forall id | id in NodeById(nodes) ensures exists n :: n in nodes && n.id == id {
        if id == last.id { assert last in nodes; } else { assert id in NodeById(front); }
      }
    }
  }

  /** Of the nodes with one id the last one is found. */
  lemma {:induction false} LastNodeWins(nodes: seq<Node>, i: nat)
    requires i < |nodes| && forall j :: i < j < |nodes| ==> nodes[j].id != nodes[i].id
    ensures nodes[i].id in NodeById(nodes) && NodeById(nodes)[nodes[i].id] == nodes[i]
  {
    if i < |nodes| - 1 { LastNodeWins(nodes[..|nodes| - 1], i); }
  }

  /** The edges leaving a node keep the order of the graph. */
  lemma {:induction false} EdgesFromKeepsOrder(front: seq<Edge>, back: seq<Edge>, id: string)
    ensures EdgesFrom(front + back, id) == EdgesFrom(front, id) + EdgesFrom(back, id)
    ensures |back| == 1 ==> EdgesFrom(back, id) == if back[0].source == id then back else []
  {
    if back == [] {
      assert front + back == front;
    } else {
      var n := |back| - 1;
      assert (front + back)[..|front + back| - 1] == front + back[..n];
      EdgesFromKeepsOrder(front, back[..n], id);
    }
  }

  /** An input kind is one that starts with input_, or is just that. */
  lemma InputKindExactly(kind: string)
    ensures IsInputKind(kind) <==> "input_" <= kind
  {
  }

  /** The input node is the first one of an input kind. */
  lemma {:induction false} FirstInputSound(nodes: seq<Node>)
    ensures FirstInput(nodes).Some? <==> exists n :: n in nodes && IsInputKind(n.kind)
    ensures FirstInput(nodes).Some? ==>
              exists i :: 0 <= i < |nodes| && nodes[i] == FirstInput(nodes).value && IsInputKind(nodes[i].kind)
                          && forall j :: 0 <= j < i ==> !IsInputKind(nodes[j].kind)
  {
    if nodes != [] {
      if IsInputKind(nodes[0].kind) {
        assert nodes[0] in nodes;
      } else {
        FirstInputSound(nodes[1..]);
        assert nodes == [nodes[0]] + nodes[1..];
        if FirstInput(nodes[1..]).Some? {
          var i :| 0 <= i < |nodes[1..]| && nodes[1..][i] == FirstInput(nodes[1..]).value && IsInputKind(nodes[1..][i].kind)
                          && forall j :: 0 <= j < i ==> !IsInputKind(nodes[1..][j].kind);
          forall j | 0 <= j < i + 1 ensures !IsInputKind(nodes[j].kind) {
            if j > 0 { assert nodes[j] == nodes[1..][j - 1]; }
          }
          assert nodes[i + 1] == FirstInput(nodes).value;
        }
      }
    }
  }

  /** Builds the node lookup the way the engine does, one assignment per node. */
  method BuildNodeById(nodes: seq<Node>) returns (byId: map<string, Node>)
    ensures byId == NodeById(nodes)
    ensures byId.Keys == set n | n in nodes :: n.id
  {
    byId := map[];
    for i := 0 to |nodes|
      invariant byId == NodeById(nodes[..i])
    {
      assert nodes[..i + 1][..i] == nodes[..i];
      byId := byId[nodes[i].id := nodes[i]];
    }
    assert nodes[..|nodes|] == nodes;
    NodeByIdSound(nodes);
  }

  /** Builds the adjacency lists the way the engine does, appending edge by edge. */
  method BuildEdgesFrom(edges: seq<Edge>) returns (out: map<string, seq<Edge>>)
    ensures forall id :: (if id in out then out[id] else []) == EdgesFrom(edges, id)
  {
    out := map[];
    for i := 0 to |edges|
      invariant forall id :: (if id in out then out[id] else []) == EdgesFrom(edges[..i], id)
    {
      assert edges[..i + 1][..i] == edges[..i];
      var src := edges[i].source;
      out := out[src := (if src in out then out[src] else []) + [edges[i]]];
    }
    assert edges[..|edges|] == edges;
  }
}
