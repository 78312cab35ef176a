/** The job graph: vertices that carry operators, edges that carry a partitioning, and
    the queries the optimiser asks of it. */
module JobGraph {
  import opened Bags

  datatype Partition = ForwardPartition | KeyPartition | RoundRobinPartition | BroadcastPartition | SimplePartition

  datatype VertexType = Source | Process | Sink | Union | Join

  /** `operators` lists the ids of the operators a vertex runs one after another. */
  datatype Vertex = Vertex(parallelism: nat, vertexType: VertexType, operators: seq<nat>)

  datatype Edge = Edge(source: nat, target: nat, partition: Partition, sourceOp: nat, targetOp: nat, joinRight: bool)

  /** `order` lists the vertex ids as they were added. */
  datatype Graph = Graph(order: seq<nat>, vertices: map<nat, Vertex>, edges: seq<Edge>)

  function AddVertexIfNotExists(g: Graph, id: nat, v: Vertex): (r: Graph) {
    if id in g.vertices then g else g.(order := g.order + [id], vertices := g.vertices[id := v])
  }

  predicate HasEdge(es: seq<Edge>, source: nat, target: nat) {
    exists i :: 0 <= i < |es| && es[i].source == source && es[i].target == target
  }

  function AddEdgeIfNotExists(g: Graph, e: Edge): (r: Graph) {
    if HasEdge(g.edges, e.source, e.target) then g else g.(edges := g.edges + [e])
  }

  function OutEdges(es: seq<Edge>, v: nat): (r: seq<Edge>)
    ensures forall e :: e in r <==> e in es && e.source == v
  {
    if es == [] then []
    else
      var rest := OutEdges(es[..|es| - 1], v);
      assert forall e :: e in es <==> e in es[..|es| - 1] || e == es[|es| - 1];
      if es[|es| - 1].source == v then rest + [es[|es| - 1]] else rest
  }

  function InEdges(es: seq<Edge>, v: nat): (r: seq<Edge>)
    ensures forall e :: e in r <==> e in es && e.target == v
  {
    if es == [] then []
    else
      var rest := InEdges(es[..|es| - 1], v);
      assert forall e :: e in es <==> e in es[..|es| - 1] || e == es[|es| - 1];
      if es[|es| - 1].target == v then rest + [es[|es| - 1]] else rest
  }

  /** No two edges join the same pair of vertices. */
  ghost predicate SimpleEdges(es: seq<Edge>) {
    forall i, j | 0 <= i < j < |es| :: es[i].source != es[j].source || es[i].target != es[j].target
  }

  ghost predicate EdgesInside(g: Graph) {
    forall e | e in g.edges :: e.source in g.vertices && e.target in g.vertices && e.source < e.target
  }

  /** Every vertex is a source without input or has an input. */
  ghost predicate Fed(g: Graph) {
    forall v | v in g.vertices :: g.vertices[v].vertexType.Source? <==> InEdges(g.edges, v) == []
  }

  /** What the builder produces: ids grow along every edge, so the graph is acyclic. */
  ghost predicate WellFormed(g: Graph) {
    && Distinct(g.order) && (forall v :: v in g.order <==> v in g.vertices)
    && (forall v | v in g.vertices :: g.vertices[v].operators == [v])
    && (forall e | e in g.edges :: e.sourceOp == e.source)
    && SimpleEdges(g.edges) && EdgesInside(g) && Fed(g)
  }
}
