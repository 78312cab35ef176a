/** What a job graph computes when every vertex runs as one instance, and why the
    optimised graph computes the same. */
module GraphMeaning {
  import opened JobGraph
  import opened Chains
  import opened GraphOptimizer
  import opened Chaining

  /** The operators by id with their initial states, the records of each source, and how
      a vertex with several inputs interleaves them, told apart by sending operator. */
  datatype Job<!S, !R(==)> = Job(
    operator: nat -> Operator<S, R>,
    init: nat -> S,
    records: nat -> seq<R>,
    interleave: (nat, set<(nat, seq<R>)>) -> seq<R>)

  function Operators<S, R(==)>(m: Job<S, R>, ids: seq<nat>): (r: seq<Operator<S, R>>)
    ensures |r| == |ids|
  {
    seq(|ids|, i requires 0 <= i < |ids| => m.operator(ids[i]))
  }

  function Inits<S, R(==)>(m: Job<S, R>, ids: seq<nat>): (r: seq<S>)
    ensures |r| == |ids|
  {
    seq(|ids|, i requires 0 <= i < |ids| => m.init(ids[i]))
  }

  /** A list of operators, one after another from their initial states. */
  function RunVertex<S, R(==)>(m: Job<S, R>, ids: seq<nat>, rs: seq<R>): seq<R> {
    PushAll(Operators(m, ids), Inits(m, ids), rs).1
  }

  /** A single input is read as it is. */
  ghost function Combine<S, R>(m: Job<S, R>, v: nat, inputs: set<(nat, seq<R>)>): seq<R> {
    if p :| p in inputs && inputs == {p} then p.1 else m.interleave(v, inputs)
  }

  ghost function Input<S, R>(m: Job<S, R>, g: Graph, v: nat): seq<R>
    requires EdgesInside(g) && v in g.vertices
    decreases v, 1
  {
    if InEdges(g.edges, v) == [] then m.records(v) else Combine(m, v, Inputs(m, g, v))
  }

  ghost function Inputs<S, R>(m: Job<S, R>, g: Graph, v: nat): set<(nat, seq<R>)>
    requires EdgesInside(g) && v in g.vertices
    decreases v, 0
  {
    set e | e in InEdges(g.edges, v) :: (e.sourceOp, Output(m, g, e.source))
  }

  ghost function Output<S, R>(m: Job<S, R>, g: Graph, v: nat): seq<R>
    requires EdgesInside(g) && v in g.vertices
    decreases v, 2
  {
    RunVertex(m, g.vertices[v].operators, Input(m, g, v))
  }

  // ------------------------------------------------------------------ chains

  lemma {:induction false} PushAllOne<S, R>(op: Operator<S, R>, s: S, rs: seq<R>)
    ensures PushAll([op], [s], rs).1 == RunOperator(op, s, rs).1
  {
    ChainingPreservesMeaning([op], [s], rs);
    assert Staged([op], [s], rs).1 == RunOperator(op, s, rs).1;
  }

  /** Running a list of operators is running the first and then the others. */
  lemma RunVertexCons<S, R>(m: Job<S, R>, id: nat, ids: seq<nat>, rs: seq<R>)
    ensures RunVertex(m, [id] + ids, rs) == RunVertex(m, ids, RunVertex(m, [id], rs))
  {
    hide RunOperator, Push;
    var ops, ss := Operators(m, [id] + ids), Inits(m, [id] + ids);
    assert ops[1..] == Operators(m, ids) && ss[1..] == Inits(m, ids);
    PushAllSplits(ops, ss, rs);
    assert Operators(m, [id]) == [m.operator(id)] && Inits(m, [id]) == [m.init(id)];
    PushAllOne(m.operator(id), m.init(id), rs);
  }

  lemma SingleInput<S, R>(m: Job<S, R>, g: Graph, e: Edge)
    requires WellFormed(g) && IsLink(g, e)
    ensures Input(m, g, e.target) == Output(m, g, e.source)
  {
    hide RunVertex, Fed, SimpleEdges;
    var ins := InEdges(g.edges, e.target);
    assert e in ins && |ins| == 1;
    assert ins == [e];
    assert Inputs(m, g, e.target) == {(e.sourceOp, Output(m, g, e.source))};
  }

  /** The operators of a chain, run over the input of its first vertex, give the output of
      its last vertex. */
  lemma {:induction false} ChainMeaning<S, R>(m: Job<S, R>, g: Graph, v: nat)
    requires WellFormed(g) && v in g.vertices
    ensures Last(ChainFrom(g, v)) in g.vertices
    ensures RunVertex(m, ChainFrom(g, v), Input(m, g, v)) == Output(m, g, Last(ChainFrom(g, v)))
    decreases MaxTarget(g.edges) - v
  {
    hide RunVertex, Input, CanChain, Fed, SimpleEdges;
    assert g.vertices[v].operators == [v];
    if e :| IsLink(g, e) && e.source == v {
      ChainStep(g, e);
      ChainMeaning(m, g, e.target);
      RunVertexCons(m, v, ChainFrom(g, e.target), Input(m, g, v));
      SingleInput(m, g, e);
    }
  }

  // ------------------------------------------------------------------ the optimised graph

  /** The inputs of a head come over the same edges, rewired. */
  lemma HeadInEdges(g: Graph, s: State, h: nat, x: Edge)
    requires WellFormed(g) && Complete(g, s) && IsHead(g, h)
    ensures x in InEdges(Merged(g, s).edges, h) <==> exists e :: e in InEdges(g.edges, h) && x == Rewire(g, e)
  {
    hide CanChain, HeadOf, Fed, SimpleEdges, Merged;
    EdgesCorrespond(g, s, x);
    if x in InEdges(Merged(g, s).edges, h) {
      var e :| e in g.edges && !IsLink(g, e) && x == Rewire(g, e);
      assert e in InEdges(g.edges, h);
    }
    if e :| e in InEdges(g.edges, h) && x == Rewire(g, e) {
      assert e in g.edges && !IsLink(g, e);
    }
  }

  lemma SameInput<S, R>(m: Job<S, R>, g: Graph, s: State, h: nat)
    requires WellFormed(g) && Complete(g, s) && IsHead(g, h) && h in g.vertices
    requires EdgesInside(Merged(g, s)) && h in Merged(g, s).vertices
    requires forall e | e in InEdges(g.edges, h) ::
               && Rewire(g, e).source in Merged(g, s).vertices
               && Output(m, Merged(g, s), Rewire(g, e).source) == Output(m, g, e.source)
    ensures Input(m, Merged(g, s), h) == Input(m, g, h)
  {
    hide CanChain, HeadOf, Fed, SimpleEdges, Merged, Output, IsHead;
    var r := Merged(g, s);
    forall x
      ensures x in InEdges(r.edges, h) <==> exists e :: e in InEdges(g.edges, h) && x == Rewire(g, e)
    {
      HeadInEdges(g, s, h, x);
    }
    if InEdges(r.edges, h) != [] {
      assert InEdges(r.edges, h)[0] in InEdges(r.edges, h);
    }
    if InEdges(g.edges, h) != [] {
      assert InEdges(g.edges, h)[0] in InEdges(g.edges, h);
      assert Rewire(g, InEdges(g.edges, h)[0]) in InEdges(r.edges, h);
    }
    assert Inputs(m, r, h) == Inputs(m, g, h) by { SameInputs(m, g, s, h); }
  }

  lemma SameInputs<S, R>(m: Job<S, R>, g: Graph, s: State, h: nat)
    requires WellFormed(g) && Complete(g, s) && IsHead(g, h) && h in g.vertices
    requires EdgesInside(Merged(g, s)) && h in Merged(g, s).vertices
    requires forall e | e in InEdges(g.edges, h) ::
               && Rewire(g, e).source in Merged(g, s).vertices
               && Output(m, Merged(g, s), Rewire(g, e).source) == Output(m, g, e.source)
    ensures Inputs(m, Merged(g, s), h) == Inputs(m, g, h)
  {
    hide CanChain, HeadOf, Fed, SimpleEdges, Merged, Output, IsHead;
    var r := Merged(g, s);
    forall p | p in Inputs(m, r, h)
      ensures p in Inputs(m, g, h)
    {
      var x :| x in InEdges(r.edges, h) && p == (x.sourceOp, Output(m, r, x.source));
      HeadInEdges(g, s, h, x);
      var e :| e in InEdges(g.edges, h) && x == Rewire(g, e);
      assert p == (e.sourceOp, Output(m, g, e.source));
    }
    forall p | p in Inputs(m, g, h)
      ensures p in Inputs(m, r, h)
    {
      var e :| e in InEdges(g.edges, h) && p == (e.sourceOp, Output(m, g, e.source));
      HeadInEdges(g, s, h, Rewire(g, e));
      var x := Rewire(g, e);
      assert x in InEdges(r.edges, h) && p == (x.sourceOp, Output(m, r, x.source));
    }
  }

  /** The optimised graph computes what the original does: for any operators, sources and
      interleavings, each of its vertices puts out what the last vertex of the chain it
      stands for puts out in the original graph. */
  lemma {:induction false} OptimizerPreservesMeaning<S, R>(m: Job<S, R>, g: Graph, s: State, h: nat)
    requires WellFormed(g) && Complete(g, s) && IsHead(g, h)
    ensures EdgesInside(Merged(g, s)) && h in Merged(g, s).vertices && Last(ChainFrom(g, h)) in g.vertices
    ensures Output(m, Merged(g, s), h) == Output(m, g, Last(ChainFrom(g, h)))
    decreases h
  {
    hide CanChain, HeadOf, Fed, SimpleEdges, Merged, Input, RunVertex, ChainFrom;
    OptimizedGraph(g, s);
    var r := Merged(g, s);
    forall e | e in InEdges(g.edges, h)
      ensures Rewire(g, e).source in r.vertices
      ensures Output(m, r, Rewire(g, e).source) == Output(m, g, e.source)
    {
      assert e in g.edges && !IsLink(g, e);
      UnchainedEdge(g, e);
      HeadOfIsHead(g, e.source);
      OptimizerPreservesMeaning(m, g, s, HeadOf(g, e.source));
    }
    SameInput(m, g, s, h);
    ChainMeaning(m, g, h);
  }
}
