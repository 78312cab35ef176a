/** Keyed operators in the execution graph, those included whose outputs depend on the order
    of their inputs: what holds when the records of a key come from one instance. */
module KeyedRouting {
  import opened Wrappers
  import opened JobGraph
  import opened Chains
  import opened GraphOptimizer
  import opened ExecutionGraph
  import opened KeyedJoin
  import opened KeyedOperators
  import opened Routing

  // ------------------------------------------------------------------ merging several channels

  /** The elements that came from source `j`. */
  ghost function Picked<X>(s: seq<X>, sources: seq<nat>, j: nat): seq<X>
    requires |s| == |sources|
  {
    if s == [] then []
    else
      var n := |s| - 1;
      Picked(s[..n], sources[..n], j) + if sources[n] == j then [s[n]] else []
  }

  /** Every channel keeps its order; different channels are merged in any way. */
  ghost predicate Merges<X>(s: seq<X>, sources: seq<nat>, parts: seq<seq<X>>) {
    && |s| == |sources|
    && (forall i | 0 <= i < |sources| :: sources[i] < |parts|)
    && forall j | 0 <= j < |parts| :: Picked(s, sources, j) == parts[j]
  }

  /** If all records of key `k` came from `j`, they are in the order in which `j` sent them. */
  lemma {:induction false} PickedKey<K, V, T>(s: seq<KeyRecord<K, V, T>>, sources: seq<nat>, j: nat, k: K)
    requires |s| == |sources|
    requires forall i | 0 <= i < |s| && s[i].key == k :: sources[i] == j
    ensures WithKey(s, k) == WithKey(Picked(s, sources, j), k)
    decreases |s|
  {
    if s != [] {
      var n := |s| - 1;
      var front, rest := s[..n], sources[..n];
      PickedKey(front, rest, j, k);
      if sources[n] == j {
        WithKeyAppend(Picked(front, rest, j), s[n], k);
      } else {
        assert Picked(s, sources, j) == Picked(front, rest, j);
        assert WithKey(s, k) == WithKey(front, k);
      }
    }
  }

  ghost predicate HasKey<K, V, T>(s: seq<KeyRecord<K, V, T>>, k: K) {
    exists i :: 0 <= i < |s| && s[i].key == k
  }

  lemma {:induction false} PickedHas<K, V, T>(s: seq<KeyRecord<K, V, T>>, sources: seq<nat>, i: nat)
    requires |s| == |sources| && i < |s|
    ensures HasKey(Picked(s, sources, sources[i]), s[i].key)
    decreases |s|
  {
    var n, j := |s| - 1, sources[i];
    var before := Picked(s[..n], sources[..n], j);
    if i < n {
      PickedHas(s[..n], sources[..n], i);
      var m :| 0 <= m < |before| && before[m].key == s[i].key;
      assert Picked(s, sources, j)[m].key == s[i].key;
    } else {
      assert Picked(s, sources, j)[|before|].key == s[i].key;
    }
  }

  lemma MergedKey<K, V, T>(s: seq<KeyRecord<K, V, T>>, sources: seq<nat>, parts: seq<seq<KeyRecord<K, V, T>>>, j: nat,
                           k: K)
    requires Merges(s, sources, parts) && j < |parts|
    requires forall i | 0 <= i < |parts| && i != j :: !HasKey(parts[i], k)
    ensures WithKey(s, k) == WithKey(parts[j], k)
  {
    hide WithKey;
    forall i | 0 <= i < |s| && s[i].key == k
      ensures sources[i] == j
    {
      PickedHas(s, sources, i);
    }
    PickedKey(s, sources, j, k);
  }

  // ------------------------------------------------------------------ in the execution graph

  /** What every instance of `u` sends to instance `i` of `t`, by sending instance. */
  ghost function SentTo<K, V, T>(g: Graph, hash: K -> int, u: nat, t: nat, parts: seq<seq<KeyRecord<K, V, T>>>, i: nat)
    : (r: seq<seq<KeyRecord<K, V, T>>>)
    requires EdgesKnown(g, g.edges)
    ensures |r| == |parts|
    ensures forall j | 0 <= j < |parts| ::
              r[j] == SentByKey(hash, ChannelsOf(ExpandAll(g, g.edges), Instance(u, j), t), parts[j], Instance(t, i))
  {
    seq(|parts|, j requires 0 <= j < |parts| =>
      SentByKey(hash, ChannelsOf(ExpandAll(g, g.edges), Instance(u, j), t), parts[j], Instance(t, i)))
  }

  lemma {:induction false} RoutedHas<K, V, T>(hash: K -> int, rs: seq<KeyRecord<K, V, T>>, p: nat, i: nat, k: K)
    requires p > 0 && HasKey(Routed(hash, rs, p, i), k)
    ensures HasKey(rs, k)
    decreases |rs|
  {
    hide KeyedJoin.KeyPartition;
    var n := |rs| - 1;
    var routed, before := Routed(hash, rs, p, i), Routed(hash, rs[..n], p, i);
    var m :| 0 <= m < |routed| && routed[m].key == k;
    if m < |before| {
      assert before[m].key == k;
      RoutedHas(hash, rs[..n], p, i, k);
      var l :| 0 <= l < n && rs[..n][l].key == k;
      assert rs[l].key == k;
    } else {
      assert rs[n].key == k;
    }
  }

  /** The instance of a key gets the records of that key in the order in which the one
      instance that has them sent them; other instances get none. */
  lemma InstanceGetsKey<K, V, T>(g: Graph, hash: K -> int, u: nat, t: nat, parts: seq<seq<KeyRecord<K, V, T>>>,
                                 i: nat, input: seq<KeyRecord<K, V, T>>, sources: seq<nat>, j: nat, k: K)
    requires Connected(g, u, t) && |parts| == g.vertices[u].parallelism && j < |parts|
    requires Merges(input, sources, SentTo(g, hash, u, t, parts, i))
    requires forall l | 0 <= l < |parts| && l != j :: !HasKey(parts[l], k)
    ensures GetsKey(hash, parts[j], input, g.vertices[t].parallelism, i, k)
  {
    hide SentByKey, Routed, WithKey, ExpandAll, ChannelsOf, SimpleEdges, HasKey, KeyedJoin.KeyPartition, Merges;
    var sent, p := SentTo(g, hash, u, t, parts, i), g.vertices[t].parallelism;
    forall l | 0 <= l < |parts|
      ensures sent[l] == Routed(hash, parts[l], p, i)
      ensures l != j ==> !HasKey(sent[l], k)
    {
      ChannelsInOrder(g, g.edges, Instance(u, l), t);
      SentIsRouted(hash, t, p, parts[l], i);
      if l != j && HasKey(sent[l], k) {
        RoutedHas(hash, parts[l], p, i, k);
      }
    }
    MergedKey(input, sources, sent, j, k);
    RoutedGetsKey(hash, parts[j], p, i, k);
  }

  /** A keyed operator, a reduce or a window for instance, in the execution graph: if the
      records of a key come from one instance of the vertex before, as they do when that has
      one instance or is keyed itself, then the key's instance emits for it what a single
      instance would emit for what that instance sent, in the same order, however the
      channels are merged; and the other instances emit nothing for it. */
  lemma KeyedInGraph<K, V, T, S, O>(step: Step<K, V, T, S, O>, g: Graph, hash: K -> int, u: nat, t: nat,
                                    parts: seq<seq<KeyRecord<K, V, T>>>, inputs: seq<seq<KeyRecord<K, V, T>>>,
                                    sources: seq<nat>, i: nat, j: nat, k: K)
    requires Connected(g, u, t) && |parts| == g.vertices[u].parallelism && j < |parts|
    requires |inputs| == g.vertices[t].parallelism && i < |inputs|
    requires Merges(inputs[i], sources, SentTo(g, hash, u, t, parts, i))
    requires forall l | 0 <= l < |parts| && l != j :: !HasKey(parts[l], k)
    ensures OutputsFor(inputs[i], KeyedRun(step, inputs[i]).1, k)
         == if KeyedJoin.KeyPartition(hash, k, |inputs|) == i
            then OutputsFor(parts[j], KeyedRun(step, parts[j]).1, k) else []
  {
    hide KeyedRun, OutputsFor, KeyedJoin.KeyPartition, Connected, Merges, HasKey, GetsKey, SentTo;
    assert Connected(g, u, t);
    InstanceGetsKey(g, hash, u, t, parts, i, inputs[i], sources, j, k);
    ParallelIsSequential(step, hash, parts[j], inputs, k, i);
  }

  lemma KeyEdgeConnects(g: Graph, s: State, e: Edge)
    requires WellFormed(g) && Complete(g, s) && e in g.edges && e.partition.KeyPartition?
    requires g.vertices[e.target].parallelism > 0
    ensures var r, u := Merged(g, s), HeadOf(g, e.source);
            && Connected(r, u, e.target)
            && r.vertices[u].parallelism == g.vertices[e.source].parallelism
            && r.vertices[e.target].parallelism == g.vertices[e.target].parallelism
  {
    assert !IsLink(g, e);
    EdgeSurvives(g, s, e);
    OptimizedEdges(g, s);
  }

  /** The same over a key edge of the optimised graph, whose source has one instance. */
  lemma KeyedInOptimizedGraph<K, V, T, S, O>(step: Step<K, V, T, S, O>, g: Graph, s: State, e: Edge, hash: K -> int,
                                             sent: seq<KeyRecord<K, V, T>>, inputs: seq<seq<KeyRecord<K, V, T>>>,
                                             sources: seq<nat>, i: nat, k: K)
    requires WellFormed(g) && Complete(g, s) && e in g.edges && e.partition.KeyPartition?
    requires g.vertices[e.source].parallelism == 1 && |inputs| == g.vertices[e.target].parallelism && i < |inputs|
    requires EdgesKnown(Merged(g, s), Merged(g, s).edges)
    requires Merges(inputs[i], sources, SentTo(Merged(g, s), hash, HeadOf(g, e.source), e.target, [sent], i))
    ensures OutputsFor(inputs[i], KeyedRun(step, inputs[i]).1, k)
         == if KeyedJoin.KeyPartition(hash, k, |inputs|) == i then OutputsFor(sent, KeyedRun(step, sent).1, k) else []
  {
    assert EdgesInside(g);
    hide *;
    KeyEdgeConnects(g, s, e);
    KeyedInGraph(step, Merged(g, s), hash, HeadOf(g, e.source), e.target, [sent], inputs, sources, i, 0, k);
  }

  // ------------------------------------------------------------------ order matters

  /** Two instances that both have records of a key may be merged either way, and a reduce
      then emits different records, even as a multiset and for any function. */
  lemma ReduceDependsOnOrder(f: (int, int) -> int)
    ensures var a, b: KeyRecord<int, int, int> := KeyRecord(0, 1, 0), KeyRecord(0, 2, 0);
            && multiset([a, b]) == multiset([b, a])
            && multiset(KeyedRun(Reducer(f), [a, b]).1) != multiset(KeyedRun(Reducer(f), [b, a]).1)
  {
    var a: KeyRecord<int, int, int>, b: KeyRecord<int, int, int> := KeyRecord(0, 1, 0), KeyRecord(0, 2, 0);
    TwoReduced(f, a, b);
    TwoReduced(f, b, a);
    hide KeyedRun;
    var x, y := KeyedRun(Reducer(f), [a, b]).1, KeyedRun(Reducer(f), [b, a]).1;
    assert x == [First(a), Later(f(1, 2), 0)] && y == [First(b), Later(f(2, 1), 0)];
    assert First(a) in multiset(x) && First(a) !in multiset(y);
  }

  lemma TwoReduced(f: (int, int) -> int, a: KeyRecord<int, int, int>, b: KeyRecord<int, int, int>)
    requires a.key == b.key
    ensures KeyedRun(Reducer(f), [a, b]).1 == [First(a), Later(f(a.value, b.value), b.stamp)]
  {
    var none: seq<KeyRecord<int, int, int>>, step := [], Reducer<int, int, int>(f);
    assert [a, b][..1] == [a] && [a][..0] == none;
    var start := KeyedRun(step, none);
    assert start == (map[], []) && StateOf(start.0, a.key) == None;
    var first := KeyedRun(step, [a]);
    assert first == (start.0[a.key := a.value], start.1 + [First(a)]);
    assert StateOf(first.0, b.key) == Some(a.value);
  }
}
