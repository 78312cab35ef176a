/** The optimised graph run in parallel: every vertex as several instances, records dealt
    out over the edges, each instance receiving in any order. As a multiset, the instances
    of a vertex together emit what the vertex emits in the original graph, run as it was
    written with one instance for each operator. */
module ParallelMeaning {
  import opened Bags
  import opened JobGraph
  import opened Chains
  import opened GraphOptimizer
  import opened GraphMeaning
  import opened ExecutionGraph
  import opened Distribution
  import opened Splitting
  import Routing

  /** A job, its graph and how that was divided into chains; how keys are found and hashed;
      how a vertex marks the records of one of its inputs, named by the sending operator;
      and what every instance of every vertex received. */
  datatype Execution<!S, !R(==), !K> = Execution(
    job: Job<S, R>,
    graph: Graph,
    state: State,
    hash: K -> int,
    key: R -> K,
    mark: (nat, nat, R) -> R,
    ins: nat -> seq<seq<R>>)

  ghost predicate Prepared<S, R, K>(x: Execution<S, R, K>) {
    WellFormed(x.graph) && Complete(x.graph, x.state)
  }

  /** The number of instances of a vertex. */
  ghost function Width<S, R, K>(x: Execution<S, R, K>, h: nat): nat
    requires h in x.graph.vertices
  {
    x.graph.vertices[h].parallelism
  }

  /** What the instances of a vertex of the optimised graph emit. */
  ghost function Outs<S, R, K>(x: Execution<S, R, K>, h: nat): seq<seq<R>>
    requires Prepared(x)
  {
    RunParts(x.job, ChainFrom(x.graph, h), x.ins(h))
  }

  ghost function Marking<S, R, K>(x: Execution<S, R, K>, h: nat, e: Edge): R -> R {
    r => x.mark(h, e.sourceOp, r)
  }

  /** The partition under which the instances send over an edge of the original graph that
      has become an edge of the optimised one. */
  ghost function SendsBy(e: Edge, p: nat): Partition {
    ExecPartition(ChangePartition(e.partition), p)
  }

  /** What instance `i` of `h` gets from the outputs `outs` of one instance over edge `e`. */
  ghost function FromInstance<S, R, K>(x: Execution<S, R, K>, h: nat, e: Edge, outs: seq<R>, i: nat): multiset<R>
    requires h in x.graph.vertices && Width(x, h) > 0
  {
    DealtBag(Marking(x, h, e), SendsBy(e, Width(x, h)), x.hash, x.key, Width(x, h), outs, i)
  }

  /** From a list of instances. */
  ghost function FromAll<S, R, K>(x: Execution<S, R, K>, h: nat, e: Edge, outs: seq<seq<R>>, i: nat): multiset<R>
    requires h in x.graph.vertices && Width(x, h) > 0
  {
    if outs == [] then multiset{}
    else FromAll(x, h, e, outs[..|outs| - 1], i) + FromInstance(x, h, e, outs[|outs| - 1], i)
  }

  /** From all instances over several edges. */
  ghost function FromEdges<S, R, K>(x: Execution<S, R, K>, h: nat, es: seq<Edge>, i: nat): multiset<R>
    requires Prepared(x) && h in x.graph.vertices && Width(x, h) > 0
  {
    if es == [] then multiset{}
    else
      var e := es[|es| - 1];
      FromEdges(x, h, es[..|es| - 1], i) + FromAll(x, h, e, Outs(x, HeadOf(x.graph, e.source)), i)
  }

  /** The instances of a source share its records in any way; every other instance receives,
      in any order, what the instances before it send to it. */
  ghost predicate Receives<S, R, K>(x: Execution<S, R, K>, h: nat)
    requires Prepared(x) && h in x.graph.vertices
  {
    && Width(x, h) > 0 && |x.ins(h)| == Width(x, h)
    && if InEdges(x.graph.edges, h) == [] then multiset(Flatten(x.ins(h))) == multiset(x.job.records(h))
       else forall i | 0 <= i < Width(x, h) ::
              multiset(x.ins(h)[i]) == FromEdges(x, h, InEdges(x.graph.edges, h), i)
  }

  ghost predicate Runs<S, R, K>(x: Execution<S, R, K>)
    requires Prepared(x)
  {
    forall h | IsHead(x.graph, h) :: Receives(x, h)
  }

  // ------------------------------------------------------------------ what is asked of the job

  /** What a vertex of the original graph reads over a list of its input edges. */
  ghost function Read<S, R, K>(x: Execution<S, R, K>, h: nat, es: seq<Edge>): multiset<R>
    requires Prepared(x) && forall i | 0 <= i < |es| :: es[i] in x.graph.edges
  {
    if es == [] then multiset{}
    else
      var e := es[|es| - 1];
      Read(x, h, es[..|es| - 1]) + multiset(Mapped(Marking(x, h, e), Output(x.job, x.graph, e.source)))
  }

  /** However a vertex interleaves its inputs, it reads each record once, with its mark. */
  ghost predicate Interleaves<S, R, K>(x: Execution<S, R, K>)
    requires Prepared(x)
  {
    forall v | v in x.graph.vertices && InEdges(x.graph.edges, v) != [] ::
      multiset(Input(x.job, x.graph, v)) == Read(x, v, InEdges(x.graph.edges, v))
  }

  ghost predicate KeepsKeys<S, R(!new), K>(x: Execution<S, R, K>) {
    forall v, op, r :: x.key(x.mark(v, op, r)) == x.key(r)
  }

  ghost predicate ByKey(es: seq<Edge>) {
    es != [] && forall i | 0 <= i < |es| :: es[i].partition.KeyPartition?
  }

  /** An operator may be split in any way, or by key where all its inputs come by key. */
  ghost predicate MaySplit<S, R(!new), K>(x: Execution<S, R, K>, v: nat) {
    && OrderFree(x.job, [v])
    && (Additive(x.job, [v]) || (KeyAdditive(x.job, x.key, [v]) && ByKey(InEdges(x.graph.edges, v))))
  }

  /** All operators may be split, and no edge copies records. */
  ghost predicate Parallelizable<S, R(!new), K>(x: Execution<S, R, K>) {
    && (forall v | v in x.graph.vertices :: MaySplit(x, v))
    && forall e | e in x.graph.edges :: !e.partition.BroadcastPartition? && !e.partition.SimplePartition?
  }

  // ------------------------------------------------------------------ chains

  /** Behind its first operator a chain can be split in any way. */
  lemma {:induction false} ChainSplits<S, R(!new), K>(x: Execution<S, R, K>, v: nat)
    requires Prepared(x) && v in x.graph.vertices && forall u | u in x.graph.vertices :: MaySplit(x, u)
    ensures OrderFree(x.job, ChainFrom(x.graph, v))
    ensures Additive(x.job, [v]) ==> Additive(x.job, ChainFrom(x.graph, v))
    ensures KeyAdditive(x.job, x.key, [v]) ==> KeyAdditive(x.job, x.key, ChainFrom(x.graph, v))
    decreases MaxTarget(x.graph.edges) - v
  {
    hide OrderFree, Additive, KeyAdditive, CanChain, Fed, SimpleEdges, Complete;
    var g := x.graph;
    assert MaySplit(x, v);
    if e :| IsLink(g, e) && e.source == v {
      ChainStep(g, e);
      ChainSplits(x, e.target);
      LinkSplits(x, e);
      var rest := ChainFrom(g, e.target);
      OrderFreeCons(x.job, v, rest);
      if Additive(x.job, [v]) {
        AdditiveCons(x.job, v, rest);
      }
      if KeyAdditive(x.job, x.key, [v]) {
        KeyAdditiveCons(x.job, x.key, v, rest);
      }
    }
  }

  /** A chained operator has a forward input, so it may be split in any way. */
  lemma LinkSplits<S, R(!new), K>(x: Execution<S, R, K>, e: Edge)
    requires Prepared(x) && IsLink(x.graph, e) && MaySplit(x, e.target)
    ensures Additive(x.job, [e.target])
  {
    hide OrderFree, Additive, KeyAdditive, Complete, Fed, SimpleEdges;
    var ins := InEdges(x.graph.edges, e.target);
    assert e in ins;
    var i :| 0 <= i < |ins| && ins[i] == e;
    assert e.partition.ForwardPartition?;
  }

  // ------------------------------------------------------------------ nothing gets lost between vertices

  /** The same by instance. */
  ghost function ByInstance<S, R, K>(x: Execution<S, R, K>, h: nat, e: Edge, outs: seq<seq<R>>): nat -> multiset<R>
    requires h in x.graph.vertices && Width(x, h) > 0
  {
    (i: nat) => FromAll(x, h, e, outs, i)
  }

  ghost function ByInstanceOver<S, R, K>(x: Execution<S, R, K>, h: nat, es: seq<Edge>): nat -> multiset<R>
    requires Prepared(x) && h in x.graph.vertices && Width(x, h) > 0
  {
    (i: nat) => FromEdges(x, h, es, i)
  }

  lemma {:induction false} TotalFromAll<S, R, K>(x: Execution<S, R, K>, h: nat, e: Edge, outs: seq<seq<R>>)
    requires h in x.graph.vertices && Width(x, h) > 0
    ensures Sum(ByInstance(x, h, e, outs), Width(x, h)) == multiset(Mapped(Marking(x, h, e), Flatten(outs)))
    decreases |outs|
  {
    var p, t := Width(x, h), Marking(x, h, e);
    if outs == [] {
      SumEmpty(ByInstance(x, h, e, outs), p);
    } else {
      var n := |outs| - 1;
      var front, last := outs[..n], outs[n];
      TotalFromAll(x, h, e, front);
      TotalFromInstance(x, h, e, last);
      hide FromInstance, Mapped, Marking;
      SumAdds(ByInstance(x, h, e, front), i => FromInstance(x, h, e, last, i), ByInstance(x, h, e, outs), p);
      MappedConcat(t, Flatten(front), last);
    }
  }

  lemma TotalFromInstance<S, R, K>(x: Execution<S, R, K>, h: nat, e: Edge, outs: seq<R>)
    requires h in x.graph.vertices && Width(x, h) > 0
    ensures Sum(i => FromInstance(x, h, e, outs, i), Width(x, h)) == multiset(Mapped(Marking(x, h, e), outs))
  {
    hide DealtBag, Mapped, SendsBy, Marking;
    var p, t, partition := Width(x, h), Marking(x, h, e), SendsBy(e, Width(x, h));
    DealtSplits(t, partition, x.hash, x.key, p, outs);
    SumSame(i => FromInstance(x, h, e, outs, i), i => DealtBag(t, partition, x.hash, x.key, p, outs, i), p);
  }

  /** The chain that an edge comes from emits what the edge's source does. */
  ghost predicate SameOuts<S, R, K>(x: Execution<S, R, K>, e: Edge)
    requires Prepared(x) && e in x.graph.edges
  {
    multiset(Flatten(Outs(x, HeadOf(x.graph, e.source)))) == multiset(Output(x.job, x.graph, e.source))
  }

  lemma TotalFromEdge<S, R, K>(x: Execution<S, R, K>, h: nat, e: Edge)
    requires Prepared(x) && h in x.graph.vertices && Width(x, h) > 0 && e in x.graph.edges && SameOuts(x, e)
    ensures Sum(ByInstance(x, h, e, Outs(x, HeadOf(x.graph, e.source))), Width(x, h))
         == multiset(Mapped(Marking(x, h, e), Output(x.job, x.graph, e.source)))
  {
    var outs := Outs(x, HeadOf(x.graph, e.source));
    assert EdgesInside(x.graph);
    hide WellFormed, Complete, ByInstance, Mapped, Outs, Output, HeadOf, Marking;
    TotalFromAll(x, h, e, outs);
    MappedPermuted(Marking(x, h, e), Flatten(outs), Output(x.job, x.graph, e.source));
  }

  /** The last of a list of edges. */
  lemma LastEdge<S, R, K>(x: Execution<S, R, K>, h: nat, es: seq<Edge>)
    requires Prepared(x) && h in x.graph.vertices && Width(x, h) > 0
    requires es != [] && forall i | 0 <= i < |es| :: es[i] in x.graph.edges
    ensures var n, e := |es| - 1, es[|es| - 1];
            && (forall i: nat :: ByInstanceOver(x, h, es)(i)
                  == ByInstanceOver(x, h, es[..n])(i) + ByInstance(x, h, e, Outs(x, HeadOf(x.graph, e.source)))(i))
            && Read(x, h, es)
               == Read(x, h, es[..n]) + multiset(Mapped(Marking(x, h, e), Output(x.job, x.graph, e.source)))
  {
    hide Complete, FromAll, Mapped, Outs, Output, HeadOf, Marking, Fed, SimpleEdges;
  }

  lemma AddEdge<S, R, K>(x: Execution<S, R, K>, h: nat, es: seq<Edge>)
    requires Prepared(x) && h in x.graph.vertices && Width(x, h) > 0
    requires es != [] && (forall i | 0 <= i < |es| :: es[i] in x.graph.edges) && SameOuts(x, es[|es| - 1])
    requires Sum(ByInstanceOver(x, h, es[..|es| - 1]), Width(x, h)) == Read(x, h, es[..|es| - 1])
    ensures Sum(ByInstanceOver(x, h, es), Width(x, h)) == Read(x, h, es)
  {
    hide Complete, ByInstance, ByInstanceOver, Read, Mapped, Outs, Output, HeadOf, Marking, SameOuts, Sum, Fed;
    var e := es[|es| - 1];
    TotalFromEdge(x, h, e);
    LastEdge(x, h, es);
    SumAdds(ByInstanceOver(x, h, es[..|es| - 1]), ByInstance(x, h, e, Outs(x, HeadOf(x.graph, e.source))),
            ByInstanceOver(x, h, es), Width(x, h));
  }

  lemma {:induction false} TotalFromEdges<S, R, K>(x: Execution<S, R, K>, h: nat, es: seq<Edge>)
    requires Prepared(x) && h in x.graph.vertices && Width(x, h) > 0
    requires forall i | 0 <= i < |es| :: es[i] in x.graph.edges && SameOuts(x, es[i])
    ensures Sum(ByInstanceOver(x, h, es), Width(x, h)) == Read(x, h, es)
    decreases |es|
  {
    if es == [] {
      SumEmpty(ByInstanceOver(x, h, es), Width(x, h));
    } else {
      hide WellFormed, Complete, ByInstanceOver, Read, SameOuts, Sum, Width;
      var front := es[..|es| - 1];
      assert forall i | 0 <= i < |front| :: front[i] == es[i];
      TotalFromEdges(x, h, front);
      AddEdge(x, h, es);
    }
  }

  /** The instances of a vertex together read what the vertex reads in the original graph. */
  lemma TotalInput<S, R, K>(x: Execution<S, R, K>, h: nat)
    requires Prepared(x) && h in x.graph.vertices && Receives(x, h) && Interleaves(x)
    requires forall e | e in InEdges(x.graph.edges, h) :: SameOuts(x, e)
    ensures multiset(Flatten(x.ins(h))) == multiset(Input(x.job, x.graph, h))
  {
    assert EdgesInside(x.graph);
    hide WellFormed, Complete, FromEdges, SameOuts, Read;
    var es := InEdges(x.graph.edges, h);
    if es != [] {
      hide Input, Sum;
      assert forall i | 0 <= i < |es| :: es[i] in es;
      TotalFromEdges(x, h, es);
      SumFlatten(x.ins(h), ByInstanceOver(x, h, es));
    }
  }

  // ------------------------------------------------------------------ keys stay apart

  ghost predicate KeysOf<S, R, K>(x: Execution<S, R, K>, p: nat, i: nat, rs: multiset<R>)
    requires p > 0
  {
    forall r | r in rs :: KeyedJoin.KeyPartition(x.hash, x.key(r), p) == i
  }

  lemma KeysFromInstance<S, R(!new), K>(x: Execution<S, R, K>, h: nat, e: Edge, outs: seq<R>, i: nat)
    requires h in x.graph.vertices && Width(x, h) > 0 && e.partition.KeyPartition? && KeepsKeys(x)
    ensures KeysOf(x, Width(x, h), i, FromInstance(x, h, e, outs, i))
  {
    hide KeyedJoin.KeyPartition, Dealt;
    var p, t := Width(x, h), Marking(x, h, e);
    assert SendsBy(e, p) == KeyPartition;
    var dealt := Dealt(KeyPartition, x.hash, x.key, p, outs, i);
    forall r | r in FromInstance(x, h, e, outs, i)
      ensures KeyedJoin.KeyPartition(x.hash, x.key(r), p) == i
    {
      assert r in Mapped(t, dealt);
      var j :| 0 <= j < |dealt| && r == t(dealt[j]);
      DealtByKey(x.hash, x.key, p, outs, i, j);
    }
  }

  lemma {:induction false} KeysFromAll<S, R(!new), K>(x: Execution<S, R, K>, h: nat, e: Edge, outs: seq<seq<R>>, i: nat)
    requires h in x.graph.vertices && Width(x, h) > 0 && e.partition.KeyPartition? && KeepsKeys(x)
    ensures KeysOf(x, Width(x, h), i, FromAll(x, h, e, outs, i))
    decreases |outs|
  {
    hide KeyedJoin.KeyPartition, FromInstance, KeepsKeys;
    if outs != [] {
      KeysFromAll(x, h, e, outs[..|outs| - 1], i);
      KeysFromInstance(x, h, e, outs[|outs| - 1], i);
    }
  }

  lemma {:induction false} KeysFromEdges<S, R(!new), K>(x: Execution<S, R, K>, h: nat, es: seq<Edge>, i: nat)
    requires Prepared(x) && h in x.graph.vertices && Width(x, h) > 0 && KeepsKeys(x)
    requires forall k | 0 <= k < |es| :: es[k].partition.KeyPartition?
    ensures KeysOf(x, Width(x, h), i, FromEdges(x, h, es, i))
    decreases |es|
  {
    assert EdgesInside(x.graph);
    hide KeyedJoin.KeyPartition, FromAll, KeepsKeys, WellFormed, Complete, Outs, HeadOf;
    if es != [] {
      KeysFromEdges(x, h, es[..|es| - 1], i);
      KeysFromAll(x, h, es[|es| - 1], Outs(x, HeadOf(x.graph, es[|es| - 1].source)), i);
    }
  }

  lemma KeysApart<S, R(!new), K>(x: Execution<S, R, K>, h: nat)
    requires Prepared(x) && h in x.graph.vertices && Receives(x, h) && KeepsKeys(x)
    requires ByKey(InEdges(x.graph.edges, h))
    ensures Separated(x.key, k => KeyedJoin.KeyPartition(x.hash, k, Width(x, h)), x.ins(h))
  {
    hide KeyedJoin.KeyPartition, FromEdges, KeepsKeys, WellFormed, Complete;
    var es, ins := InEdges(x.graph.edges, h), x.ins(h);
    forall i, j | 0 <= i < |ins| && 0 <= j < |ins[i]|
      ensures KeyedJoin.KeyPartition(x.hash, x.key(ins[i][j]), Width(x, h)) == i
    {
      KeysFromEdges(x, h, es, i);
      assert ins[i][j] in multiset(ins[i]);
    }
  }

  // ------------------------------------------------------------------ the theorem

  /** The instances of one vertex, given that they together read what the vertex reads. */
  lemma VertexSplits<S, R(!new), K>(x: Execution<S, R, K>, h: nat)
    requires Prepared(x) && h in x.graph.vertices && Receives(x, h) && Parallelizable(x) && KeepsKeys(x)
    requires multiset(Flatten(x.ins(h))) == multiset(Input(x.job, x.graph, h))
    ensures Last(ChainFrom(x.graph, h)) in x.graph.vertices
    ensures multiset(Flatten(Outs(x, h))) == multiset(Output(x.job, x.graph, Last(ChainFrom(x.graph, h))))
  {
    var chain, ins := ChainFrom(x.graph, h), x.ins(h);
    assert MaySplit(x, h);
    ChainSplits(x, h);
    ChainMeaning(x.job, x.graph, h);
    if ByKey(InEdges(x.graph.edges, h)) {
      KeysApart(x, h);
    }
    hide WellFormed, Complete, Receives, Input, Output, RunVertex, RunParts, ChainFrom;
    hide Separated, KeyAdditive, Additive;
    if Additive(x.job, [h]) {
      AdditiveParts(x.job, chain, ins);
    } else {
      KeyAdditiveParts(x.job, x.key, k => KeyedJoin.KeyPartition(x.hash, k, Width(x, h)), chain, ins);
    }
    assert multiset(RunVertex(x.job, chain, Flatten(ins)))
        == multiset(RunVertex(x.job, chain, Input(x.job, x.graph, h)));
  }

  /** For every execution of a job whose operators may be split: the instances of every
      vertex of the optimised graph together emit, as a multiset, what the last operator of
      its chain emits in the original graph run with one instance of each operator. */
  lemma {:induction false} ParallelPreservesMeaning<S, R(!new), K>(x: Execution<S, R, K>, h: nat)
    requires Prepared(x) && Runs(x) && Parallelizable(x) && Interleaves(x) && KeepsKeys(x) && IsHead(x.graph, h)
    ensures Last(ChainFrom(x.graph, h)) in x.graph.vertices
    ensures multiset(Flatten(Outs(x, h))) == multiset(Output(x.job, x.graph, Last(ChainFrom(x.graph, h))))
    decreases h
  {
    var g := x.graph;
    forall e | e in InEdges(g.edges, h)
      ensures SameOuts(x, e)
    {
      assert e in g.edges && !IsLink(g, e);
      UnchainedEdge(g, e);
      HeadOfIsHead(g, e.source);
      ParallelPreservesMeaning(x, HeadOf(g, e.source));
    }
    hide WellFormed, Complete, SameOuts, Receives, Input, Output, Outs, ChainFrom, Parallelizable, Interleaves;
    TotalInput(x, h);
    VertexSplits(x, h);
  }

  /** The execution is one of the optimised graph: its vertices run the chains with the
      parallelism they had, and its instances send over an edge under the partition that the
      expansion gives it. */
  lemma ExecutesOptimized<S, R, K>(x: Execution<S, R, K>, h: nat, e: Edge, j: nat)
    requires Prepared(x) && IsHead(x.graph, h) && e in InEdges(x.graph.edges, h)
    requires Width(x, h) > 0 && j < x.graph.vertices[e.source].parallelism
    ensures var r, u := Merged(x.graph, x.state), HeadOf(x.graph, e.source);
            && h in r.vertices && r.vertices[h].operators == ChainFrom(x.graph, h)
            && r.vertices[h].parallelism == Width(x, h)
            && Rewire(x.graph, e) in r.edges && EdgesKnown(r, r.edges)
            && PartitionTo(ExpandAll(r, r.edges), Instance(u, j), h).Some?
            && PartitionTo(ExpandAll(r, r.edges), Instance(u, j), h).value == SendsBy(e, Width(x, h))
  {
    assert !IsLink(x.graph, e);
    OptimizedGraph(x.graph, x.state);
    Routing.EdgeSurvives(x.graph, x.state, e);
    Routing.OptimizedEdges(x.graph, x.state);
    hide WellFormed, Complete, Merged, HeadOf, SimpleEdges, EdgesKnown, ExpandAll, PartitionTo, ChainFrom, IsHead;
    var r, u := Merged(x.graph, x.state), HeadOf(x.graph, e.source);
    PartitionOfEdge(r, r.edges, Rewire(x.graph, e), Instance(u, j));
  }
}
