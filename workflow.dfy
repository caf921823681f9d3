/**
  The agent graph of `app/graph/workflow.py`: the routing decision taken on the router's intent,
  and the graph builder that `build_graph` fills with nodes and edges. The builder is a class
  whose methods append to its node and edge lists; the graph it ends with is described by a value
  (`Graph`) about which the shape properties are proved.
*/
module Workflow {
  import opened Outcomes
  import opened Schemas

  const Router := "router"
  const SqlAgent := "sql_agent"
  const VectorSearch := "vector_search"
  const Generator := "generator"
  /** LangGraph's `END`. */
  const End := "__end__"

  /** `route_decision`: the branches to run after the router. */
  function RouteDecision(intent: string): seq<string> {
    if intent == "rdb" then [SqlAgent]
    else if intent == "vector" then [VectorSearch]
    else if intent == "both" then [SqlAgent, VectorSearch]
    else [Generator]
  }

  /**
    Every intent the router can produce routes to at least one retrieval node and never straight to
    the generator: the SQL agent runs unless the intent is `vector`, the document search unless it
    is `rdb`. Only an intent the router cannot produce would skip retrieval.
  */
  lemma RouteByIntent(i: Intent)
    ensures var targets := RouteDecision(IntentName(i));
      && 1 <= |targets| <= 2
      && Generator !in targets
      && (SqlAgent in targets <==> i != Vector)
      && (VectorSearch in targets <==> i != Rdb)
  {
  }

  /** Any other intent, `other` included, goes straight to the generator. */
  lemma RouteOtherwise(intent: string)
    requires ParseIntent(intent).None?
    ensures RouteDecision(intent) == [Generator]
  {
  }

  /** The graph as a value: its nodes, fixed edges, entry point and conditional edges with their path maps. */
  datatype Graph = Graph(
    nodes: seq<string>, edges: seq<(string, string)>, entry: Option<string>,
    branches: seq<(string, map<string, string>)>)

  /** The `StateGraph` builder. */
  class StateGraph {
    var nodes: seq<string>
    var edges: seq<(string, string)>
    var entry: Option<string>
    var branches: seq<(string, map<string, string>)>

    function Current(): Graph
      reads this
    {
      Graph(nodes, edges, entry, branches)
    }

    constructor ()
      ensures Current() == Graph([], [], None, [])
    {
      nodes, edges, entry, branches := [], [], None, [];
    }

    /** `add_node`: a name already present is refused and nothing changes. */
    method AddNode(name: string) returns (ok: bool)
      modifies this
      ensures ok <==> name !in old(nodes)
      ensures ok ==> Current() == old(Current()).(nodes := old(nodes) + [name])
      ensures !ok ==> Current() == old(Current())
    {
      ok := name !in nodes;
      if ok {
        nodes := nodes + [name];
      }
    }

    /** `add_edge`. */
    method AddEdge(source: string, target: string)
      modifies this
      ensures Current() == old(Current()).(edges := old(edges) + [(source, target)])
    {
      edges := edges + [(source, target)];
    }

    /** `set_entry_point`. */
    method SetEntryPoint(name: string)
      modifies this
      ensures Current() == old(Current()).(entry := Some(name))
    {
      entry := Some(name);
    }

    /** `add_conditional_edges`. */
    method AddConditionalEdges(source: string, pathMap: map<string, string>)
      modifies this
      ensures Current() == old(Current()).(branches := old(branches) + [(source, pathMap)])
    {
      branches := branches + [(source, pathMap)];
    }
  }

  const PathMap: map<string, string> := map[SqlAgent := SqlAgent, VectorSearch := VectorSearch, Generator := Generator]

  /** The graph `build_graph` ends with. */
  function AppGraph(): Graph {
    Graph([Router, SqlAgent, VectorSearch, Generator],
          [(SqlAgent, Generator), (VectorSearch, Generator), (Generator, End)],
          Some(Router),
          [(Router, PathMap)])
  }

  /** `build_graph`, up to `compile()`. */
  method BuildGraph() returns (g: StateGraph)
    ensures fresh(g)
    ensures g.Current() == AppGraph()
  {
    g := new StateGraph();
    var ok := g.AddNode(Router);
    ok := g.AddNode(SqlAgent);
    ok := g.AddNode(VectorSearch);
    ok := g.AddNode(Generator);
    g.SetEntryPoint(Router);
    g.AddConditionalEdges(Router, PathMap);
    g.AddEdge(SqlAgent, Generator);
    g.AddEdge(VectorSearch, Generator);
    g.AddEdge(Generator, End);
  }

  /** `b` is a possible next step after `a`: a fixed edge, or a target of a conditional edge. */
  predicate Step(g: Graph, a: string, b: string) {
    (exists k :: 0 <= k < |g.edges| && g.edges[k] == (a, b))
    || (exists k :: 0 <= k < |g.branches| && g.branches[k].0 == a && b in g.branches[k].1.Values)
  }

  /** A position in the order router, retrieval, generator, end. */
  function Stage(n: string): nat {
    if n == Router then 0
    else if n == SqlAgent || n == VectorSearch then 1
    else if n == Generator then 2
    else 3
  }

  /**
    The shape of the built graph: it starts at the router; every step moves strictly forward
    (so the graph has no cycle); both retrieval nodes go only to the generator; the generator goes
    only to the end; and every decision of `route_decision` is a key of the router's path map,
    mapped to a node of the graph.
  */
  lemma AppGraphShape()
    ensures AppGraph().entry == Some(Router)
    ensures forall a, b :: Step(AppGraph(), a, b) ==> Stage(a) < Stage(b)
    ensures forall b :: Step(AppGraph(), SqlAgent, b) <==> b == Generator
    ensures forall b :: Step(AppGraph(), VectorSearch, b) <==> b == Generator
    ensures forall b :: Step(AppGraph(), Generator, b) <==> b == End
    ensures forall b :: !Step(AppGraph(), End, b)
    ensures forall intent, k :: 0 <= k < |RouteDecision(intent)| ==>
      RouteDecision(intent)[k] in PathMap && PathMap[RouteDecision(intent)[k]] in AppGraph().nodes
  {
    var g := AppGraph();
    assert PathMap.Values == {SqlAgent, VectorSearch, Generator} by {
      assert PathMap[SqlAgent] == SqlAgent && PathMap[VectorSearch] == VectorSearch && PathMap[Generator] == Generator;
    }
    forall a, b | Step(g, a, b)
      ensures Stage(a) < Stage(b)
    {
      if exists k :: 0 <= k < |g.edges| && g.edges[k] == (a, b) {
        var k :| 0 <= k < |g.edges| && g.edges[k] == (a, b);
        assert k == 0 || k == 1 || k == 2;
      } else {
        var k :| 0 <= k < |g.branches| && g.branches[k].0 == a && b in g.branches[k].1.Values;
        assert k == 0;
      }
    }
    assert g.edges[0] == (SqlAgent, Generator);
    assert g.edges[1] == (VectorSearch, Generator);
    assert g.edges[2] == (Generator, End);
  }
}
