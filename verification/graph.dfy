/**
 The part of an undirected networkx graph that the Brain relies on: a set of
 nodes and a set of edges. Node and edge attributes are not modelled.
 */
module NetworkGraph {

  /** A connection point on a neuron, addressed by (neuron id, port id). */
  datatype SegmentKey = SegmentKey(neuron: string, port: string)

  /** An undirected edge, given by the set of its endpoints (one for a self-loop, else two). */
  type Edge = set<SegmentKey>

  /** The edge between u and v; the order of the endpoints does not matter. */
  function Link(u: SegmentKey, v: SegmentKey): Edge
  {
    {u, v}
  }

  datatype Graph = Graph(nodes: set<SegmentKey>, edges: set<Edge>)

  /** The graph `nx.Graph()` builds: no nodes, no edges, so it is contained in every graph. */
  function Empty(): (r: Graph)
    ensures WellFormed(r)
    ensures forall g :: IsSubgraph(r, g)
  {
    Graph({}, {})
  }

  /** What every networkx graph satisfies: each edge has one or two endpoints, all of them nodes. */
  ghost predicate WellFormed(g: Graph)
  {
    forall e :: e in g.edges ==> e != {} && |e| <= 2 && e <= g.nodes
  }

  ghost predicate IsSubgraph(g: Graph, h: Graph)
  {
    g.nodes <= h.nodes && g.edges <= h.edges
  }

  /** `nx.compose(g, h)`: every node and every edge of both graphs. */
  function Compose(g: Graph, h: Graph): (r: Graph)
    ensures IsSubgraph(g, r) && IsSubgraph(h, r)
    ensures WellFormed(g) && WellFormed(h) ==> WellFormed(r)
  {
    Graph(g.nodes + h.nodes, g.edges + h.edges)
  }

  /** Compose is the least graph holding both of its arguments. */
  lemma ComposeLeast(g: Graph, h: Graph, k: Graph)
    requires IsSubgraph(g, k) && IsSubgraph(h, k)
    ensures IsSubgraph(Compose(g, h), k)
  {
  }

  /**
   `nx.compose_all(gs)`: the graphs composed from left to right. networkx refuses
   an empty list, hence the precondition.
   */
  function ComposeAll(gs: seq<Graph>): (r: Graph)
    requires gs != []
    ensures forall i :: 0 <= i < |gs| ==> IsSubgraph(gs[i], r)
    ensures (forall i :: 0 <= i < |gs| ==> WellFormed(gs[i])) ==> WellFormed(r)
    decreases |gs|
  {
    if |gs| == 1 then gs[0] else Compose(ComposeAll(gs[..|gs| - 1]), gs[|gs| - 1])
  }

  /** Composing one more graph onto a list composes it onto the list's result. */
  lemma ComposeAllAppend(gs: seq<Graph>, g: Graph)
    requires gs != []
    ensures ComposeAll(gs + [g]) == Compose(ComposeAll(gs), g)
  {
    assert (gs + [g])[..|gs|] == gs;
  }

  /** Two graphs merge to their composition. */
  lemma ComposeAllPair(g: Graph, h: Graph)
    ensures ComposeAll([g, h]) == Compose(g, h)
  {
    assert [g, h][..1] == [g];
  }

  /** compose_all keeps exactly the nodes and the edges that some input graph has. */
  lemma {:induction false} ComposeAllContents(gs: seq<Graph>)
    requires gs != []
    ensures forall k :: k in ComposeAll(gs).nodes <==> exists i :: 0 <= i < |gs| && k in gs[i].nodes
    ensures forall e :: e in ComposeAll(gs).edges <==> exists i :: 0 <= i < |gs| && e in gs[i].edges
    decreases |gs|
  {
    if |gs| > 1 {
      var front := gs[..|gs| - 1];
      ComposeAllContents(front);
      forall k | k in ComposeAll(gs).nodes
        ensures exists i :: 0 <= i < |gs| && k in gs[i].nodes
      {
        if k !in gs[|gs| - 1].nodes {
          var i :| 0 <= i < |front| && k in front[i].nodes;
          assert gs[i] == front[i];
        }
      }
      forall e | e in ComposeAll(gs).edges
        ensures exists i :: 0 <= i < |gs| && e in gs[i].edges
      {
        if e !in gs[|gs| - 1].edges {
          var i :| 0 <= i < |front| && e in front[i].edges;
          assert gs[i] == front[i];
        }
      }
    }
  }

  /** The merge order does not change the composed node and edge sets. */
  lemma ComposeAllOrderIrrelevant(gs: seq<Graph>, hs: seq<Graph>)
    requires gs != [] && hs != []
    requires forall g :: g in gs <==> g in hs
    ensures ComposeAll(gs) == ComposeAll(hs)
  {
    ComposeAllContents(gs);
    ComposeAllContents(hs);
    var a, b := ComposeAll(gs), ComposeAll(hs);
    forall k | k in a.nodes ensures k in b.nodes {
      var i :| 0 <= i < |gs| && k in gs[i].nodes;
      assert gs[i] in hs;
    }
    forall k | k in b.nodes ensures k in a.nodes {
      var i :| 0 <= i < |hs| && k in hs[i].nodes;
      assert hs[i] in gs;
    }
    forall e | e in a.edges ensures e in b.edges {
      var i :| 0 <= i < |gs| && e in gs[i].edges;
      assert gs[i] in hs;
    }
    forall e | e in b.edges ensures e in a.edges {
      var i :| 0 <= i < |hs| && e in hs[i].edges;
      assert hs[i] in gs;
    }
  }

  /** `g.add_edge(u, v)`: adds the edge, and adds u and v as nodes when they are missing. */
  function AddEdge(g: Graph, u: SegmentKey, v: SegmentKey): (r: Graph)
    ensures IsSubgraph(g, r) && Link(u, v) in r.edges
    ensures WellFormed(g) ==> WellFormed(r)
  {
    Graph(g.nodes + {u, v}, g.edges + {Link(u, v)})
  }

  /** The graph is undirected: adding (u, v) and adding (v, u) give the same graph. */
  lemma AddEdgeUndirected(g: Graph, u: SegmentKey, v: SegmentKey)
    ensures AddEdge(g, u, v) == AddEdge(g, v, u)
  {
    assert Link(u, v) == Link(v, u);
  }

  /** Adding an edge that is already there leaves the graph as it is. */
  lemma AddEdgeExisting(g: Graph, u: SegmentKey, v: SegmentKey)
    requires WellFormed(g) && Link(u, v) in g.edges
    ensures AddEdge(g, u, v) == g
  {
    assert {u, v} <= g.nodes;
  }
}
