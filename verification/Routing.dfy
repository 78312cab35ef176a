/** From the channels of the execution graph to what parallel instances receive: records
    sent by key by any number of instances are routed as if one had sent them all. */
module Routing {
  import opened Wrappers
  import opened Bags
  import opened JobGraph
  import opened Chains
  import opened GraphOptimizer
  import opened ExecutionGraph

  /** What instance `to` gets of records sent over `channels` under the key partition. */
  ghost function SentByKey<K, V, T>(hash: K -> int, channels: seq<Instance>, rs: seq<KeyedJoin.KeyRecord<K, V, T>>,
                                    to: Instance): seq<KeyedJoin.KeyRecord<K, V, T>>
  {
    if rs == [] || channels == [] then []
    else
      var r := rs[|rs| - 1];
      SentByKey(hash, channels, rs[..|rs| - 1], to)
      + if channels[KeyedJoin.KeyPartition(hash, r.key, |channels|)] == to then [r] else []
  }

  lemma {:induction false} SentIsRouted<K, V, T>(hash: K -> int, t: nat, p: nat,
                                                 rs: seq<KeyedJoin.KeyRecord<K, V, T>>, i: nat)
    requires p > 0
    ensures SentByKey(hash, Instances(t, p), rs, Instance(t, i)) == KeyedJoin.Routed(hash, rs, p, i)
    decreases |rs|
  {
    hide KeyedJoin.KeyPartition;
    if rs != [] {
      SentIsRouted(hash, t, p, rs[..|rs| - 1], i);
    }
  }

  /** Vertex `u` sends to vertex `t`, which has instances. */
  ghost predicate Connected(g: Graph, u: nat, t: nat) {
    && EdgesKnown(g, g.edges) && SimpleEdges(g.edges) && u in g.vertices && t in g.vertices
    && HasEdge(g.edges, u, t) && g.vertices[t].parallelism > 0
  }

  /** What instance `i` of `t` gets from the first `n` instances of `u`, instance `j` having
      sent `parts[j]`, each over its own channels. */
  ghost function Received<K, V, T>(g: Graph, hash: K -> int, u: nat, t: nat,
                                   parts: seq<seq<KeyedJoin.KeyRecord<K, V, T>>>,
                                   n: nat, i: nat): multiset<KeyedJoin.KeyRecord<K, V, T>>
    requires EdgesKnown(g, g.edges) && n <= |parts|
    decreases n
  {
    if n == 0 then multiset{}
    else
      Received(g, hash, u, t, parts, n - 1, i)
      + multiset(SentByKey(hash, ChannelsOf(ExpandAll(g, g.edges), Instance(u, n - 1), t), parts[n - 1],
                           Instance(t, i)))
  }

  lemma {:induction false} RoutedConcat<K, V, T>(hash: K -> int, a: seq<KeyedJoin.KeyRecord<K, V, T>>,
                                                 b: seq<KeyedJoin.KeyRecord<K, V, T>>, p: nat, i: nat)
    requires p > 0
    ensures KeyedJoin.Routed(hash, a + b, p, i) == KeyedJoin.Routed(hash, a, p, i) + KeyedJoin.Routed(hash, b, p, i)
    decreases |b|
  {
    hide KeyedJoin.KeyPartition;
    if b == [] {
      assert a + b == a;
    } else {
      assert (a + b)[..|a + b| - 1] == a + b[..|b| - 1];
      RoutedConcat(hash, a, b[..|b| - 1], p, i);
    }
  }

  /** Whatever the instances of `u` send, instance `i` of `t` receives of all of it exactly
      what the key partition routes to `i`. */
  lemma {:induction false} ReceivedIsRouted<K, V, T>(g: Graph, hash: K -> int, u: nat, t: nat,
                                                     parts: seq<seq<KeyedJoin.KeyRecord<K, V, T>>>, n: nat, i: nat)
    requires Connected(g, u, t) && n <= |parts| <= g.vertices[u].parallelism
    ensures Received(g, hash, u, t, parts, n, i)
         == multiset(KeyedJoin.Routed(hash, Flatten(parts[..n]), g.vertices[t].parallelism, i))
    decreases n
  {
    hide KeyedJoin.Routed, SentByKey, ChannelsOf, ExpandAll, SimpleEdges;
    var p := g.vertices[t].parallelism;
    if n == 0 {
      assert KeyedJoin.Routed<K, V, T>(hash, [], p, i) == [] by { RoutedNothing<K, V, T>(hash, p, i); }
    } else {
      ReceivedIsRouted(g, hash, u, t, parts, n - 1, i);
      ChannelsInOrder(g, g.edges, Instance(u, n - 1), t);
      SentIsRouted(hash, t, p, parts[n - 1], i);
      assert parts[..n][..n - 1] == parts[..n - 1];
      RoutedConcat(hash, Flatten(parts[..n - 1]), parts[n - 1], p, i);
    }
  }

  lemma RoutedNothing<K, V, T>(hash: K -> int, p: nat, i: nat)
    requires p > 0
    ensures KeyedJoin.Routed<K, V, T>(hash, [], p, i) == []
  {
  }

  /** A join in the execution graph: the instances of its two inputs send their records over
      their own channels, each instance of the join receives them in any order and
      interleaving, and together these emit the join of all records of both inputs. */
  lemma JoinInGraph<K, V, W, T>(f: (V, V) -> W, hash: K -> int, g: Graph, l: nat, r: nat, t: nat,
                                lefts: seq<seq<KeyedJoin.KeyRecord<K, V, T>>>,
                                rights: seq<seq<KeyedJoin.KeyRecord<K, V, T>>>,
                                ess: seq<seq<KeyedJoin.Event<K, V, T>>>)
    requires Connected(g, l, t) && Connected(g, r, t) && |ess| == g.vertices[t].parallelism
    requires |lefts| == g.vertices[l].parallelism && |rights| == g.vertices[r].parallelism
    requires forall i | 0 <= i < |ess| ::
               && multiset(KeyedJoin.Lefts(ess[i])) == Received(g, hash, l, t, lefts, |lefts|, i)
               && multiset(KeyedJoin.Rights(ess[i])) == Received(g, hash, r, t, rights, |rights|, i)
    ensures KeyedJoin.Emitted(f, ess, |ess|) == KeyedJoin.EquiJoin(f, Flatten(lefts), Flatten(rights))
  {
    hide KeyedJoin.Routed, Received, KeyedJoin.EquiJoin, KeyedJoin.Emitted, SimpleEdges, EdgesKnown, HasEdge;
    assert lefts[..|lefts|] == lefts && rights[..|rights|] == rights;
    forall i | 0 <= i < |ess|
      ensures KeyedJoin.GetsRouted(hash, Flatten(lefts), Flatten(rights), ess, i)
    {
      ReceivedIsRouted(g, hash, l, t, lefts, |lefts|, i);
      ReceivedIsRouted(g, hash, r, t, rights, |rights|, i);
    }
    KeyedJoin.ParallelJoinIsEquiJoin(f, hash, Flatten(lefts), Flatten(rights), ess);
  }

  // ------------------------------------------------------------------ the optimised graph

  /** A chain has one parallelism. */
  lemma {:induction false} SameParallelism(g: Graph, v: nat)
    requires EdgesInside(g) && v in g.vertices
    ensures HeadOf(g, v) in g.vertices && g.vertices[HeadOf(g, v)].parallelism == g.vertices[v].parallelism
    decreases v
  {
    if exists e :: IsLink(g, e) && e.target == v {
      forall e | IsLink(g, e) && e.target == v
        ensures HeadOf(g, e.source) in g.vertices
        ensures g.vertices[HeadOf(g, e.source)].parallelism == g.vertices[v].parallelism
      {
        SameParallelism(g, e.source);
      }
    }
  }

  /** The vertices of the optimised graph keep the parallelism of their chains. */
  lemma OptimizedVertex(g: Graph, s: State, h: nat)
    requires WellFormed(g) && Complete(g, s) && IsHead(g, h)
    ensures h in Merged(g, s).vertices && Merged(g, s).vertices[h].parallelism == g.vertices[h].parallelism
  {
    hide Merged, IsHead, ChainFrom;
    OptimizedGraph(g, s);
  }

  lemma OptimizedEdges(g: Graph, s: State)
    requires WellFormed(g) && Complete(g, s)
    ensures EdgesKnown(Merged(g, s), Merged(g, s).edges) && SimpleEdges(Merged(g, s).edges)
  {
    hide Merged, IsHead, ChainFrom, Complete, WellFormed, SimpleEdges;
    OptimizedGraph(g, s);
    var r := Merged(g, s);
    forall i | 0 <= i < |r.edges|
      ensures r.edges[i].source in r.vertices && r.edges[i].target in r.vertices
    {
      assert r.edges[i] in r.edges;
    }
  }

  /** An edge that is not chained goes, in the optimised graph, from the chain of its source
      to its target. */
  lemma EdgeSurvives(g: Graph, s: State, e: Edge)
    requires WellFormed(g) && Complete(g, s) && e in g.edges && !IsLink(g, e)
    ensures var r, u := Merged(g, s), HeadOf(g, e.source);
            && Rewire(g, e) in r.edges && HasEdge(r.edges, u, e.target)
            && u in r.vertices && r.vertices[u].parallelism == g.vertices[e.source].parallelism
            && e.target in r.vertices && r.vertices[e.target].parallelism == g.vertices[e.target].parallelism
  {
    var r := Merged(g, s);
    EdgesCorrespond(g, s, Rewire(g, e));
    UnchainedEdge(g, e);
    HeadOfIsHead(g, e.source);
    SameParallelism(g, e.source);
    hide Complete, WellFormed, Merged, IsHead, ChainFrom;
    OptimizedVertex(g, s, HeadOf(g, e.source));
    OptimizedVertex(g, s, e.target);
    var i :| 0 <= i < |r.edges| && r.edges[i] == Rewire(g, e);
  }

  /** A key edge is never chained; in the optimised graph every instance of the chain of its
      source sends over it, by key, each key to the instance its hash selects. So the optimised
      graph meets what the lemmas above ask for. */
  lemma KeyEdgeSurvives<K>(g: Graph, s: State, e: Edge, j: nat, hash: K -> int, k: K, i: nat)
    requires WellFormed(g) && Complete(g, s) && e in g.edges && e.partition.KeyPartition?
    requires g.vertices[e.target].parallelism > 0 && j < g.vertices[e.source].parallelism
    ensures var r, u, p := Merged(g, s), HeadOf(g, e.source), g.vertices[e.target].parallelism;
            && Connected(r, u, e.target)
            && PartitionTo(ExpandAll(r, r.edges), Instance(u, j), e.target) == Some(KeyPartition)
            && var channels := ChannelsOf(ExpandAll(r, r.edges), Instance(u, j), e.target);
               && |channels| == p
               && (channels[KeyedJoin.KeyPartition(hash, k, p)] == Instance(e.target, i)
                   <==> i < p && if hash(k) >= 0 then (hash(k) - i) % p == 0 else (hash(k) + i) % p == 0)
  {
    assert !IsLink(g, e);
    EdgeSurvives(g, s, e);
    OptimizedEdges(g, s);
    hide Complete, WellFormed, Merged, HeadOf, SimpleEdges, EdgesKnown, ExpandAll, PartitionTo, ChannelsOf;
    var r, u := Merged(g, s), HeadOf(g, e.source);
    PartitionOfEdge(r, r.edges, Rewire(g, e), Instance(u, j));
    SameKeySameInstance(r, hash, k, Instance(u, j), e.target, i);
  }
}
