/** Jobs of maps, filters, flat maps, key-bys and keyed joins run in parallel as written. */
module ParallelJobs {
  import opened Bags
  import opened JobGraph
  import opened Chains
  import opened KeyedJoin
  import opened GraphMeaning
  import opened Splitting
  import opened JoinSplitting
  import opened ParallelMeaning

  /** What the operators of a job do: `joins` are the vertices that join, with the functions
      `join`, reading a record by `ev` and writing one by `out`; every other vertex treats
      each record by itself, by the function `each`. */
  datatype Program<!K, !V, !W, !T, !R> = Program(
    joins: set<nat>,
    join: nat -> (V, V) -> W,
    ev: R -> Event<K, V, T>,
    out: Joined<W, T> -> R,
    each: nat -> R -> seq<R>)

  /** The vertex does what the program says; joins get their inputs by key. */
  ghost predicate Follows<K(!new), V(!new), W, T(!new), R(!new)>(
    x: Execution<JoinState<K, V, T>, R, K>, p: Program<K, V, W, T, R>, v: nat)
  {
    if v in p.joins then
      && Joins(x.job.operator(v), p.join(v), p.ev, p.out) && x.job.init(v) == JoinState(map[], map[])
      && ByKey(InEdges(x.graph.edges, v))
    else Stateless(x.job.operator(v), p.each(v))
  }

  ghost predicate IsProgram<K(!new), V(!new), W, T(!new), R(!new)>(
    x: Execution<JoinState<K, V, T>, R, K>, p: Program<K, V, W, T, R>)
  {
    && (forall v | v in x.graph.vertices :: Follows(x, p, v))
    && (forall r :: x.key(r) == p.ev(r).r.key)
    && forall e | e in x.graph.edges :: !e.partition.BroadcastPartition? && !e.partition.SimplePartition?
  }

  lemma SameKeys<S, R(!new), K>(m: Job<S, R>, key: R -> K, other: R -> K, ids: seq<nat>)
    requires KeyAdditive(m, other, ids) && forall r :: key(r) == other(r)
    ensures KeyAdditive(m, key, ids)
  {
    hide RunVertex;
    forall a: seq<R>, b: seq<R> | NoCommonKey(key, a, b)
      ensures NoCommonKey(other, a, b)
    {
    }
  }

  lemma VertexMaySplit<K(!new), V(!new), W, T(!new), R(!new)>(
    x: Execution<JoinState<K, V, T>, R, K>, p: Program<K, V, W, T, R>, v: nat)
    requires Follows(x, p, v) && forall r :: x.key(r) == p.ev(r).r.key
    ensures MaySplit(x, v)
  {
    hide OrderFree, Additive, KeyAdditive, Stateless, Joins;
    if v in p.joins {
      JoinMaySplit(x.job, v, p.join(v), p.ev, p.out);
      SameKeys(x.job, x.key, r => p.ev(r).r.key, [v]);
    } else {
      StatelessSplits(x.job, v, p.each(v));
    }
  }

  /** Every execution of such a job in parallel emits, at every vertex of the optimised graph,
      what the last operator of its chain emits in the original graph with one instance of
      each operator. */
  lemma JobsRunInParallel<K(!new), V(!new), W, T(!new), R(!new)>(
    x: Execution<JoinState<K, V, T>, R, K>, p: Program<K, V, W, T, R>, h: nat)
    requires Prepared(x) && IsProgram(x, p)
    requires Runs(x) && Interleaves(x) && KeepsKeys(x) && IsHead(x.graph, h)
    ensures Last(ChainFrom(x.graph, h)) in x.graph.vertices
    ensures multiset(Flatten(Outs(x, h))) == multiset(Output(x.job, x.graph, Last(ChainFrom(x.graph, h))))
  {
    hide Runs, Interleaves, Follows, Outs, Output, MaySplit, IsHead;
    forall v | v in x.graph.vertices
      ensures MaySplit(x, v)
    {
      VertexMaySplit(x, p, v);
    }
    ParallelPreservesMeaning(x, h);
  }
}
