/** The builder: from the sinks it follows the input streams upwards and adds each stream
    as a vertex and each input as an edge, once. */
module GraphBuilder {
  import opened Bags
  import opened JobGraph

  /** A stream refers to its inputs by id; `partition` is how its output is distributed. */
  datatype Stream =
    | SourceStream(parallelism: nat, partition: Partition)
    | DataStream(input: nat, parallelism: nat, partition: Partition)
    | JoinStream(input: nat, right: nat, parallelism: nat, partition: Partition)
    | SinkStream(input: nat, parallelism: nat, partition: Partition)

  type Program = map<nat, Stream>

  function Inputs(s: Stream): (r: set<nat>) {
    match s
    case SourceStream(_, _) => {}
    case DataStream(i, _, _) => {i}
    case JoinStream(l, r, _, _) => {l, r}
    case SinkStream(i, _, _) => {i}
  }

  /** Streams are created after their inputs, with ids from a counter. */
  ghost predicate ProgramOk(p: Program) {
    forall v, i | v in p && i in Inputs(p[v]) :: i in p && i < v
  }

  function VertexFor(p: Program, v: nat): Vertex
    requires v in p
  {
    var t := match p[v]
      case SourceStream(_, _) => Source
      case DataStream(_, _, _) => Process
      case JoinStream(_, _, _, _) => Join
      case SinkStream(_, _, _) => Sink;
    Vertex(p[v].parallelism, t, [v])
  }

  function InputEdge(p: Program, input: nat, v: nat, joinRight: bool): Edge
    requires input in p
  {
    Edge(input, v, p[input].partition, input, v, joinRight)
  }

  /** The edges into `v`; a stream joined with itself has one. */
  ghost function EdgesInto(p: Program, v: nat): (r: set<Edge>)
    requires ProgramOk(p) && v in p
  {
    match p[v]
    case SourceStream(_, _) => {}
    case DataStream(i, _, _) => {InputEdge(p, i, v, false)}
    case SinkStream(i, _, _) => {InputEdge(p, i, v, false)}
    case JoinStream(l, r, _, _) =>
      {InputEdge(p, l, v, false)} + if l == r then {} else {InputEdge(p, r, v, true)}
  }

  /** `v` and everything it is computed from. */
  ghost function Upstream(p: Program, v: nat): (r: set<nat>)
    requires ProgramOk(p) && v in p
    decreases v
  {
    match p[v]
    case SourceStream(_, _) => {v}
    case DataStream(i, _, _) => {v} + Upstream(p, i)
    case SinkStream(i, _, _) => {v} + Upstream(p, i)
    case JoinStream(l, r, _, _) => {v} + Upstream(p, l) + Upstream(p, r)
  }

  ghost predicate EdgesOk(p: Program, g: Graph)
    requires ProgramOk(p)
  {
    SimpleEdges(g.edges) && forall e | e in g.edges :: e.target in p && e in EdgesInto(p, e.target)
  }

  ghost predicate VertexOk(p: Program, g: Graph, u: nat)
    requires ProgramOk(p)
  {
    && u in g.vertices && u in p && g.vertices[u] == VertexFor(p, u)
    && (forall e | e in EdgesInto(p, u) :: e in g.edges && e.source in g.vertices)
  }

  ghost predicate GraphOk(p: Program, g: Graph)
    requires ProgramOk(p)
  {
    && Distinct(g.order) && (forall v :: v in g.order <==> v in g.vertices)
    && EdgesOk(p, g)
    && (forall u | u in g.vertices :: VertexOk(p, g, u))
  }

  /** `g` grew into `h`; every new edge leads to a vertex of `h`, except those into `v`. */
  ghost predicate Grew(g: Graph, h: Graph, v: nat) {
    && g.vertices.Keys <= h.vertices.Keys
    && (forall e | e in g.edges :: e in h.edges)
    && (forall e | e in h.edges && e !in g.edges :: e.target in h.vertices || e.target == v)
  }

  lemma GrewTransitive(g: Graph, h: Graph, k: Graph, v: nat)
    requires Grew(g, h, v) && Grew(h, k, v)
    ensures Grew(g, k, v)
  {
  }

  lemma AddEdgeOk(p: Program, g: Graph, e: Edge)
    requires ProgramOk(p) && GraphOk(p, g) && e.target in p && e in EdgesInto(p, e.target)
    ensures GraphOk(p, AddEdgeIfNotExists(g, e))
    ensures Grew(g, AddEdgeIfNotExists(g, e), e.target)
    ensures e in AddEdgeIfNotExists(g, e).edges
  {
    var h := AddEdgeIfNotExists(g, e);
    if HasEdge(g.edges, e.source, e.target) {
      var i :| 0 <= i < |g.edges| && g.edges[i].source == e.source && g.edges[i].target == e.target;
      assert g.edges[i] in g.edges && g.edges[i] in EdgesInto(p, e.target);
      assert g.edges[i] == e;
    } else {
      assert forall x :: x in h.edges <==> x in g.edges || x == e;
      assert SimpleEdges(h.edges);
      forall u | u in h.vertices
        ensures VertexOk(p, h, u)
      {
        assert VertexOk(p, g, u);
      }
    }
  }

  lemma AddVertexOk(p: Program, g: Graph, v: nat)
    requires ProgramOk(p) && GraphOk(p, g) && v in p
    requires forall e | e in EdgesInto(p, v) :: e in g.edges && e.source in g.vertices
    ensures GraphOk(p, AddVertexIfNotExists(g, v, VertexFor(p, v)))
    ensures Grew(g, AddVertexIfNotExists(g, v, VertexFor(p, v)), v)
  {
    hide EdgesInto, VertexFor;
    var h := AddVertexIfNotExists(g, v, VertexFor(p, v));
    if v !in g.vertices {
      forall u | u in h.vertices
        ensures VertexOk(p, h, u)
      {
        if u != v {
          assert VertexOk(p, g, u);
        }
      }
    }
  }

  /** After processing `v` from `g`. */
  ghost predicate Processed(p: Program, g: Graph, h: Graph, v: nat)
    requires ProgramOk(p) && v in p
  {
    && GraphOk(p, h) && Grew(g, h, v)
    && h.vertices.Keys == g.vertices.Keys + Upstream(p, v)
  }

  /** Processing an input of `v` after its edge has been added. */
  lemma InputProcessed(p: Program, g: Graph, g1: Graph, h: Graph, e: Edge)
    requires ProgramOk(p) && GraphOk(p, g) && e.target in p && e in EdgesInto(p, e.target)
    requires e.source in p && g1 == AddEdgeIfNotExists(g, e) && Processed(p, g1, h, e.source)
    ensures GraphOk(p, h) && Grew(g, h, e.target) && e in h.edges && e.source in h.vertices
    ensures h.vertices.Keys == g.vertices.Keys + Upstream(p, e.source)
  {
    hide GraphOk, EdgesInto;
    AddEdgeOk(p, g, e);
    assert e.source in Upstream(p, e.source) by { SelfUpstream(p, e.source); }
    assert g1.vertices == g.vertices;
  }

  lemma SelfUpstream(p: Program, v: nat)
    requires ProgramOk(p) && v in p
    ensures v in Upstream(p, v)
  {
  }

  /** The right input of a join; when it is the left one again its edge exists already. */
  lemma RightEdgeOk(p: Program, g: Graph, v: nat)
    requires ProgramOk(p) && GraphOk(p, g) && v in p && p[v].JoinStream? && p[v].right in p && p[v].input in p
    requires InputEdge(p, p[v].input, v, false) in g.edges
    ensures var e := InputEdge(p, p[v].right, v, true);
            var h := AddEdgeIfNotExists(g, e);
            && GraphOk(p, h)
            && (p[v].right == p[v].input ==> h == g)
            && (p[v].right != p[v].input ==> e in EdgesInto(p, v))
  {
    hide GraphOk;
    var e := InputEdge(p, p[v].right, v, true);
    if p[v].right == p[v].input {
      var i :| 0 <= i < |g.edges| && g.edges[i] == InputEdge(p, p[v].input, v, false);
      assert HasEdge(g.edges, e.source, e.target);
    } else {
      AddEdgeOk(p, g, e);
    }
  }

  lemma RightProcessed(p: Program, g: Graph, h: Graph, v: nat)
    requires ProgramOk(p) && GraphOk(p, g) && v in p && p[v].JoinStream? && p[v].right in p && p[v].input in p
    requires InputEdge(p, p[v].input, v, false) in g.edges && p[v].input in g.vertices
    requires Processed(p, AddEdgeIfNotExists(g, InputEdge(p, p[v].right, v, true)), h, p[v].right)
    ensures GraphOk(p, h) && Grew(g, h, v)
    ensures h.vertices.Keys == g.vertices.Keys + Upstream(p, p[v].right)
    ensures forall e | e in EdgesInto(p, v) :: e in h.edges && e.source in h.vertices
  {
    hide GraphOk;
    RightEdgeOk(p, g, v);
    SelfUpstream(p, p[v].right);
    if p[v].right != p[v].input {
      var e := InputEdge(p, p[v].right, v, true);
      InputProcessed(p, g, AddEdgeIfNotExists(g, e), h, e);
    }
  }

  lemma VertexProcessed(p: Program, g: Graph, m: Graph, v: nat)
    requires ProgramOk(p) && v in p && GraphOk(p, m) && Grew(g, m, v)
    requires m.vertices.Keys + {v} == g.vertices.Keys + Upstream(p, v)
    requires forall e | e in EdgesInto(p, v) :: e in m.edges && e.source in m.vertices
    ensures Processed(p, g, AddVertexIfNotExists(m, v, VertexFor(p, v)), v)
  {
    hide GraphOk, EdgesInto, VertexFor, Upstream;
    AddVertexOk(p, m, v);
    GrewTransitive(g, m, AddVertexIfNotExists(m, v, VertexFor(p, v)), v);
  }

  lemma GrewRefl(g: Graph, v: nat)
    ensures Grew(g, g, v)
  {
  }

  class JobGraphBuilder {
    const p: Program
    var jobGraph: Graph

    constructor (p: Program)
      ensures this.p == p && jobGraph == Graph([], map[], [])
    {
      this.p := p;
      jobGraph := Graph([], map[], []);
    }

    method ProcessStream(v: nat)
      requires ProgramOk(p) && v in p && GraphOk(p, jobGraph)
      modifies this`jobGraph
      ensures Processed(p, old(jobGraph), jobGraph, v)
      decreases v
    {
      hide GraphOk, EdgesOk, VertexOk, Grew, AddVertexIfNotExists, AddEdgeIfNotExists, VertexFor, Processed;
      var stream := p[v];
      ghost var g0 := jobGraph;
      if stream.SourceStream? {
        GrewRefl(g0, v);
      } else {
        assert stream.input in Inputs(p[v]);
        var edge := InputEdge(p, stream.input, v, false);
        jobGraph := AddEdgeIfNotExists(jobGraph, edge);
        AddEdgeOk(p, g0, edge);
        ghost var g1 := jobGraph;
        ProcessStream(stream.input);
        InputProcessed(p, g0, g1, jobGraph, edge);

        if stream.JoinStream? {
          assert stream.right in Inputs(p[v]);
          ghost var g2 := jobGraph;
          var rightEdge := InputEdge(p, stream.right, v, true);
          jobGraph := AddEdgeIfNotExists(jobGraph, rightEdge);
          RightEdgeOk(p, g2, v);
          ProcessStream(stream.right);
          RightProcessed(p, g2, jobGraph, v);
          GrewTransitive(g0, g2, jobGraph, v);
        }
      }
      VertexProcessed(p, g0, jobGraph, v);
      jobGraph := AddVertexIfNotExists(jobGraph, v, VertexFor(p, v));
    }

    /** Builds the graph of everything upstream of the sinks. */
    method Build(sinks: seq<nat>) returns (g: Graph)
      requires ProgramOk(p) && forall i | 0 <= i < |sinks| :: sinks[i] in p
      requires jobGraph == Graph([], map[], [])
      modifies this`jobGraph
      ensures g == jobGraph && WellFormed(g)
      ensures forall v :: v in g.vertices <==> exists i :: 0 <= i < |sinks| && v in Upstream(p, sinks[i])
      ensures forall v | v in g.vertices :: v in p && g.vertices[v] == VertexFor(p, v)
      ensures forall e :: e in g.edges <==> e.target in g.vertices && e.target in p && e in EdgesInto(p, e.target)
    {
      hide VertexOk, Upstream, VertexFor, EdgesInto;
      ghost var g0 := jobGraph;
      GrewRefl(g0, 0);
      for i := 0 to |sinks|
        invariant GraphOk(p, jobGraph)
        invariant forall e | e in jobGraph.edges :: e.target in jobGraph.vertices
        invariant forall v :: v in jobGraph.vertices <==> exists j :: 0 <= j < i && v in Upstream(p, sinks[j])
      {
        ghost var before := jobGraph;
        ProcessStream(sinks[i]);
        SelfUpstream(p, sinks[i]);
      }
      g := jobGraph;
      BuiltGraph(p, g);
    }
  }

  lemma BuiltEdge(p: Program, g: Graph, e: Edge)
    requires ProgramOk(p) && GraphOk(p, g) && e in g.edges && e.target in g.vertices
    ensures e.target in p && e in EdgesInto(p, e.target) && e.sourceOp == e.source
    ensures e.source in g.vertices && e.source < e.target
  {
    assert VertexOk(p, g, e.target) && e in EdgesInto(p, e.target);
    assert e.source in Inputs(p[e.target]);
  }

  lemma BuiltVertex(p: Program, g: Graph, v: nat)
    requires ProgramOk(p) && GraphOk(p, g) && v in g.vertices
    ensures v in p && g.vertices[v] == VertexFor(p, v)
    ensures g.vertices[v].vertexType.Source? <==> InEdges(g.edges, v) == []
    ensures forall e | e in EdgesInto(p, v) :: e in g.edges && e.target == v
  {
    assert VertexOk(p, g, v);
    if InEdges(g.edges, v) != [] {
      var e := InEdges(g.edges, v)[0];
      assert e in InEdges(g.edges, v);
      assert e in EdgesInto(p, v);
    }
    if !p[v].SourceStream? {
      assert p[v].input in Inputs(p[v]);
      var e := InputEdge(p, p[v].input, v, false);
      assert e in EdgesInto(p, v) && e in InEdges(g.edges, v);
    }
  }

  lemma BuiltGraph(p: Program, g: Graph)
    requires ProgramOk(p) && GraphOk(p, g)
    requires forall e | e in g.edges :: e.target in g.vertices
    ensures WellFormed(g)
    ensures forall v | v in g.vertices :: v in p && g.vertices[v] == VertexFor(p, v)
    ensures forall e :: e in g.edges <==> e.target in g.vertices && e.target in p && e in EdgesInto(p, e.target)
  {
    hide EdgesInto, VertexOk;
    forall e | e in g.edges
      ensures e.target in p && e in EdgesInto(p, e.target) && e.sourceOp == e.source
      ensures e.source in g.vertices && e.source < e.target
    {
      BuiltEdge(p, g, e);
    }
    forall v | v in g.vertices
      ensures v in p && g.vertices[v] == VertexFor(p, v)
      ensures g.vertices[v].vertexType.Source? <==> InEdges(g.edges, v) == []
      ensures forall e | e in EdgesInto(p, v) :: e in g.edges && e.target == v
    {
      BuiltVertex(p, g, v);
    }
  }

  /** What a stream becomes, kind by kind. */
  lemma StreamIsVertex(p: Program, v: nat)
    requires v in p
    ensures var x := VertexFor(p, v);
            && x.parallelism == p[v].parallelism && x.operators == [v]
            && (x.vertexType.Source? <==> p[v].SourceStream?) && (x.vertexType.Sink? <==> p[v].SinkStream?)
            && (x.vertexType.Join? <==> p[v].JoinStream?) && (x.vertexType.Process? <==> p[v].DataStream?)
  {
  }

  /** The edges into a stream: one for each of its inputs, with the input's partition; the
      right input of a join is marked, unless it is the left one too. */
  lemma InputsAreEdges(p: Program, v: nat)
    requires ProgramOk(p) && v in p
    ensures forall e | e in EdgesInto(p, v) ::
              && e.source in Inputs(p[v]) && e.source in p && e.target == v && e.partition == p[e.source].partition
              && e.sourceOp == e.source && e.targetOp == v
              && (e.joinRight <==> p[v].JoinStream? && e.source == p[v].right && p[v].input != p[v].right)
    ensures forall i | i in Inputs(p[v]) :: exists e :: e in EdgesInto(p, v) && e.source == i
    ensures forall e, f | e in EdgesInto(p, v) && f in EdgesInto(p, v) :: e.source == f.source ==> e == f
    ensures Inputs(p[v]) == match p[v]
                            case SourceStream(_, _) => {}
                            case DataStream(i, _, _) => {i}
                            case SinkStream(i, _, _) => {i}
                            case JoinStream(l, r, _, _) => {l, r}
  {
    if p[v].DataStream? || p[v].SinkStream? {
      assert InputEdge(p, p[v].input, v, false) in EdgesInto(p, v);
    } else if p[v].JoinStream? {
      assert InputEdge(p, p[v].input, v, false) in EdgesInto(p, v);
      if p[v].input != p[v].right {
        assert InputEdge(p, p[v].right, v, true) in EdgesInto(p, v);
      }
    }
  }
}
