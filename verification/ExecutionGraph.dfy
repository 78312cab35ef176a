/** The expansion of the job graph to parallel instances, and the grouping of an
    instance's output channels by target operator, from which records are routed. */
module ExecutionGraph {
  import opened Wrappers
  import opened JobGraph
  import KeyedJoin

  /** Instance `index` of a job vertex. */
  datatype Instance = Instance(vertex: nat, index: nat)

  datatype ExecEdge = ExecEdge(source: Instance, target: Instance, partition: Partition)

  function Instances(v: nat, p: nat): (r: seq<Instance>)
    ensures |r| == p && forall i | 0 <= i < p :: r[i] == Instance(v, i)
  {
    seq(p, i requires 0 <= i < p => Instance(v, i))
  }

  /** Forwarding to more than one instance becomes round robin. */
  function ExecPartition(p: Partition, targets: nat): Partition {
    if p.ForwardPartition? && targets > 1 then RoundRobinPartition else p
  }

  function EdgesFrom(s: Instance, e: Edge, targets: nat): (r: seq<ExecEdge>)
    ensures |r| == targets
    ensures forall j | 0 <= j < targets ::
              r[j] == ExecEdge(s, Instance(e.target, j), ExecPartition(e.partition, targets))
  {
    seq(targets, j requires 0 <= j < targets =>
      ExecEdge(s, Instance(e.target, j), ExecPartition(e.partition, targets)))
  }

  /** The execution edges of a job edge from its first `n` source instances. */
  function Expand(e: Edge, n: nat, targets: nat): (r: seq<ExecEdge>) {
    if n == 0 then [] else Expand(e, n - 1, targets) + EdgesFrom(Instance(e.source, n - 1), e, targets)
  }

  predicate EdgesKnown(g: Graph, es: seq<Edge>) {
    forall i | 0 <= i < |es| :: es[i].source in g.vertices && es[i].target in g.vertices
  }

  function ExpandAll(g: Graph, es: seq<Edge>): (r: seq<ExecEdge>)
    requires EdgesKnown(g, es)
  {
    if es == [] then []
    else
      var e := es[|es| - 1];
      ExpandAll(g, es[..|es| - 1]) + Expand(e, g.vertices[e.source].parallelism, g.vertices[e.target].parallelism)
  }

  /** Builds the execution edges as the original does, loop inside loop. */
  method FromJobGraph(g: Graph) returns (edges: seq<ExecEdge>)
    requires EdgesKnown(g, g.edges)
    ensures edges == ExpandAll(g, g.edges)
  {
    edges := [];
    for k := 0 to |g.edges|
      invariant edges == ExpandAll(g, g.edges[..k])
    {
      var e := g.edges[k];
      var sources, targets := g.vertices[e.source].parallelism, g.vertices[e.target].parallelism;
      ghost var before := edges;
      for i := 0 to sources
        invariant edges == before + Expand(e, i, targets)
      {
        ghost var inner := edges;
        for j := 0 to targets
          invariant edges == inner + EdgesFrom(Instance(e.source, i), e, targets)[..j]
        {
          var partition := e.partition;
          if partition.ForwardPartition? && targets > 1 {
            partition := RoundRobinPartition;
          }
          edges := edges + [ExecEdge(Instance(e.source, i), Instance(e.target, j), partition)];
          assert EdgesFrom(Instance(e.source, i), e, targets)[..j + 1]
              == EdgesFrom(Instance(e.source, i), e, targets)[..j]
                 + [EdgesFrom(Instance(e.source, i), e, targets)[j]];
        }
        assert EdgesFrom(Instance(e.source, i), e, targets)[..targets] == EdgesFrom(Instance(e.source, i), e, targets);
      }
      assert g.edges[..k + 1][..k] == g.edges[..k];
    }
    assert g.edges[..|g.edges|] == g.edges;
  }

  /** The output edges of an instance, in the order they were added. */
  function OutputEdges(es: seq<ExecEdge>, s: Instance): (r: seq<ExecEdge>) {
    if es == [] then []
    else OutputEdges(es[..|es| - 1], s) + if es[|es| - 1].source == s then [es[|es| - 1]] else []
  }

  /** The instances of job vertex `t` that a list of output edges leads to. */
  function Channels(outs: seq<ExecEdge>, t: nat): (r: seq<Instance>) {
    if outs == [] then []
    else Channels(outs[..|outs| - 1], t) + if outs[|outs| - 1].target.vertex == t then [outs[|outs| - 1].target] else []
  }

  /** The partition of the last edge to job vertex `t`. */
  function LastPartition(outs: seq<ExecEdge>, t: nat): (r: Option<Partition>) {
    if outs == [] then None
    else if outs[|outs| - 1].target.vertex == t then Some(outs[|outs| - 1].partition)
    else LastPartition(outs[..|outs| - 1], t)
  }

  /** Groups the output channels of an instance by target operator. */
  method GroupChannels(outs: seq<ExecEdge>)
    returns (groups: map<nat, seq<Instance>>, partitions: map<nat, Partition>)
    ensures forall t :: t in groups <==> Channels(outs, t) != []
    ensures forall t | t in groups :: groups[t] == Channels(outs, t)
    ensures partitions.Keys == groups.Keys
    ensures forall t | t in partitions :: LastPartition(outs, t) == Some(partitions[t])
  {
    groups, partitions := map[], map[];
    for i := 0 to |outs|
      invariant forall t :: t in groups <==> Channels(outs[..i], t) != []
      invariant forall t | t in groups :: groups[t] == Channels(outs[..i], t)
      invariant partitions.Keys == groups.Keys
      invariant forall t | t in partitions :: LastPartition(outs[..i], t) == Some(partitions[t])
    {
      var e := outs[i];
      var t := e.target.vertex;
      assert outs[..i + 1][..i] == outs[..i];
      if t !in groups {
        groups := groups[t := []];
      }
      groups := groups[t := groups[t] + [e.target]];
      partitions := partitions[t := e.partition];
    }
    assert outs[..|outs|] == outs;
  }

  // ------------------------------------------------------------------ what is routed where

  ghost function ChannelsOf(es: seq<ExecEdge>, s: Instance, t: nat): seq<Instance> {
    Channels(OutputEdges(es, s), t)
  }

  lemma {:induction false} ChannelsConcat(a: seq<ExecEdge>, b: seq<ExecEdge>, t: nat)
    ensures Channels(a + b, t) == Channels(a, t) + Channels(b, t)
    decreases |b|
  {
    if b == [] {
      assert a + b == a;
    } else {
      assert (a + b)[..|a + b| - 1] == a + b[..|b| - 1];
      ChannelsConcat(a, b[..|b| - 1], t);
    }
  }

  lemma {:induction false} OutputConcat(a: seq<ExecEdge>, b: seq<ExecEdge>, s: Instance)
    ensures OutputEdges(a + b, s) == OutputEdges(a, s) + OutputEdges(b, s)
    decreases |b|
  {
    if b == [] {
      assert a + b == a;
    } else {
      assert (a + b)[..|a + b| - 1] == a + b[..|b| - 1];
      OutputConcat(a, b[..|b| - 1], s);
    }
  }

  lemma ChannelsOfConcat(a: seq<ExecEdge>, b: seq<ExecEdge>, s: Instance, t: nat)
    ensures ChannelsOf(a + b, s, t) == ChannelsOf(a, s, t) + ChannelsOf(b, s, t)
  {
    OutputConcat(a, b, s);
    ChannelsConcat(OutputEdges(a, s), OutputEdges(b, s), t);
  }

  lemma {:induction false} ChannelsFrom(o: Instance, e: Edge, targets: nat, m: nat, s: Instance, t: nat)
    requires m <= targets
    ensures ChannelsOf(EdgesFrom(o, e, targets)[..m], s, t) == if o == s && e.target == t then Instances(t, m) else []
    decreases m
  {
    hide ExecPartition, OutputEdges, Channels;
    var es := EdgesFrom(o, e, targets);
    if m == 0 {
      assert es[..0] == [];
      NoChannels(s, t);
    } else {
      hide ChannelsOf;
      ChannelsFrom(o, e, targets, m - 1, s, t);
      assert es[..m] == es[..m - 1] + [es[m - 1]];
      ChannelsOfConcat(es[..m - 1], [es[m - 1]], s, t);
      OneChannel(es[m - 1], s, t);
      assert Instances(t, m) == Instances(t, m - 1) + [Instance(t, m - 1)];
    }
  }

  lemma NoChannels(s: Instance, t: nat)
    ensures ChannelsOf([], s, t) == []
  {
  }

  lemma OneChannel(e: ExecEdge, s: Instance, t: nat)
    ensures ChannelsOf([e], s, t) == if e.source == s && e.target.vertex == t then [e.target] else []
  {
    assert OutputEdges([e][..0], s) == [];
    if e.source == s {
      assert OutputEdges([e], s) == [e];
      assert Channels([e][..0], t) == [];
    }
  }

  lemma {:induction false} ChannelsExpand(e: Edge, n: nat, targets: nat, s: Instance, t: nat)
    ensures ChannelsOf(Expand(e, n, targets), s, t)
            == if e.source == s.vertex && s.index < n && e.target == t then Instances(t, targets) else []
    decreases n
  {
    hide EdgesFrom, ChannelsOf, Instances;
    if n == 0 {
      NoChannels(s, t);
    } else {
      ChannelsExpand(e, n - 1, targets, s, t);
      var last := EdgesFrom(Instance(e.source, n - 1), e, targets);
      ChannelsOfConcat(Expand(e, n - 1, targets), last, s, t);
      ChannelsFrom(Instance(e.source, n - 1), e, targets, targets, s, t);
      assert last[..targets] == last;
    }
  }

  /** For every instance and every target operator it has an edge to, the grouped channels
      are the target's instances 0, 1, ..., in order. */
  lemma {:induction false} ChannelsInOrder(g: Graph, es: seq<Edge>, s: Instance, t: nat)
    requires EdgesKnown(g, es) && SimpleEdges(es) && s.vertex in g.vertices && t in g.vertices
    ensures ChannelsOf(ExpandAll(g, es), s, t)
            == if HasEdge(es, s.vertex, t) && s.index < g.vertices[s.vertex].parallelism
               then Instances(t, g.vertices[t].parallelism) else []
    decreases |es|
  {
    hide Expand;
    if es != [] {
      var front, e := es[..|es| - 1], es[|es| - 1];
      ChannelsInOrder(g, front, s, t);
      var more := Expand(e, g.vertices[e.source].parallelism, g.vertices[e.target].parallelism);
      ChannelsOfConcat(ExpandAll(g, front), more, s, t);
      ChannelsExpand(e, g.vertices[e.source].parallelism, g.vertices[e.target].parallelism, s, t);
      HasEdgeSplit(es, s.vertex, t);
    }
  }

  lemma HasEdgeSplit(es: seq<Edge>, s: nat, t: nat)
    requires es != [] && SimpleEdges(es)
    ensures var e := es[|es| - 1];
            && (HasEdge(es, s, t) <==> HasEdge(es[..|es| - 1], s, t) || (e.source == s && e.target == t))
            && !(HasEdge(es[..|es| - 1], s, t) && e.source == s && e.target == t)
  {
    var n := |es| - 1;
    if HasEdge(es, s, t) {
      var i :| 0 <= i < |es| && es[i].source == s && es[i].target == t;
      assert i < n ==> es[..n][i] == es[i];
    }
    if HasEdge(es[..n], s, t) {
      var i :| 0 <= i < n && es[..n][i].source == s && es[..n][i].target == t;
      assert es[i].source == s && es[i].target == t;
    }
  }

  // ------------------------------------------------------------------ the partition of a group

  /** The partition under which instance `s` sends to job vertex `t`. */
  ghost function PartitionTo(es: seq<ExecEdge>, s: Instance, t: nat): Option<Partition> {
    LastPartition(OutputEdges(es, s), t)
  }

  lemma {:induction false} LastPartitionConcat(a: seq<ExecEdge>, b: seq<ExecEdge>, t: nat)
    ensures LastPartition(a + b, t) == if LastPartition(b, t).Some? then LastPartition(b, t) else LastPartition(a, t)
    decreases |b|
  {
    if b == [] {
      assert a + b == a;
    } else {
      assert (a + b)[..|a + b| - 1] == a + b[..|b| - 1];
      LastPartitionConcat(a, b[..|b| - 1], t);
    }
  }

  lemma PartitionToConcat(a: seq<ExecEdge>, b: seq<ExecEdge>, s: Instance, t: nat)
    ensures PartitionTo(a + b, s, t)
         == if PartitionTo(b, s, t).Some? then PartitionTo(b, s, t) else PartitionTo(a, s, t)
  {
    OutputConcat(a, b, s);
    LastPartitionConcat(OutputEdges(a, s), OutputEdges(b, s), t);
  }

  lemma OnePartition(e: ExecEdge, s: Instance, t: nat)
    ensures PartitionTo([e], s, t) == if e.source == s && e.target.vertex == t then Some(e.partition) else None
  {
    assert OutputEdges([e][..0], s) == [];
    if e.source == s {
      assert OutputEdges([e], s) == [e];
      assert LastPartition([e][..0], t) == None;
    }
  }

  lemma {:induction false} PartitionFrom(o: Instance, e: Edge, targets: nat, m: nat, s: Instance, t: nat)
    requires m <= targets
    ensures PartitionTo(EdgesFrom(o, e, targets)[..m], s, t)
            == if o == s && e.target == t && m > 0 then Some(ExecPartition(e.partition, targets)) else None
    decreases m
  {
    hide ExecPartition, OutputEdges, LastPartition;
    var es := EdgesFrom(o, e, targets);
    if m == 0 {
      assert es[..0] == [];
      NoPartition(s, t);
    } else {
      hide PartitionTo;
      PartitionFrom(o, e, targets, m - 1, s, t);
      assert es[..m] == es[..m - 1] + [es[m - 1]];
      PartitionToConcat(es[..m - 1], [es[m - 1]], s, t);
      OnePartition(es[m - 1], s, t);
    }
  }

  lemma NoPartition(s: Instance, t: nat)
    ensures PartitionTo([], s, t) == None
  {
  }

  lemma {:induction false} PartitionExpand(e: Edge, n: nat, targets: nat, s: Instance, t: nat)
    ensures PartitionTo(Expand(e, n, targets), s, t)
            == if e.source == s.vertex && s.index < n && e.target == t && targets > 0
               then Some(ExecPartition(e.partition, targets)) else None
    decreases n
  {
    hide EdgesFrom, ExecPartition;
    if n == 0 {
      NoPartition(s, t);
    } else {
      PartitionExpand(e, n - 1, targets, s, t);
      var last := EdgesFrom(Instance(e.source, n - 1), e, targets);
      PartitionToConcat(Expand(e, n - 1, targets), last, s, t);
      PartitionFrom(Instance(e.source, n - 1), e, targets, targets, s, t);
      assert last[..targets] == last;
    }
  }

  /** The partition of a group is that of the one job edge to the target operator, with
      forwarding to several instances turned to round robin. */
  lemma PartitionOfEdge(g: Graph, es: seq<Edge>, e: Edge, s: Instance)
    requires EdgesKnown(g, es) && SimpleEdges(es) && e in es && s.vertex == e.source
    requires s.index < g.vertices[e.source].parallelism && g.vertices[e.target].parallelism > 0
    ensures var partition := PartitionTo(ExpandAll(g, es), s, e.target);
            && (e.partition.ForwardPartition? && g.vertices[e.target].parallelism > 1 ==>
                  partition == Some(RoundRobinPartition))
            && (!e.partition.ForwardPartition? || g.vertices[e.target].parallelism == 1 ==>
                  partition == Some(e.partition))
  {
    hide ExpandAll, PartitionTo, SimpleEdges;
    PartitionOfOne(g, es, e, s);
  }

  lemma {:induction false} PartitionOfOne(g: Graph, es: seq<Edge>, e: Edge, s: Instance)
    requires EdgesKnown(g, es) && SimpleEdges(es) && e in es && s.vertex == e.source
    requires s.index < g.vertices[e.source].parallelism && g.vertices[e.target].parallelism > 0
    ensures PartitionTo(ExpandAll(g, es), s, e.target)
            == Some(ExecPartition(e.partition, g.vertices[e.target].parallelism))
    decreases |es|
  {
    hide Expand, ExecPartition;
    var front, last := es[..|es| - 1], es[|es| - 1];
    var n, targets := g.vertices[last.source].parallelism, g.vertices[last.target].parallelism;
    PartitionToConcat(ExpandAll(g, front), Expand(last, n, targets), s, e.target);
    PartitionExpand(last, n, targets, s, e.target);
    if e != last {
      assert e in front;
      PartitionOfOne(g, front, e, s);
    }
  }

  /** Wherever it is sent from, a record with a given key reaches the same instance of the
      target operator: the one that differs from the key's hash by a multiple of their
      number. */
  lemma SameKeySameInstance<K>(g: Graph, hash: K -> int, k: K, s: Instance, t: nat, i: nat)
    requires EdgesKnown(g, g.edges) && SimpleEdges(g.edges) && s.vertex in g.vertices && t in g.vertices
    requires s.index < g.vertices[s.vertex].parallelism && g.vertices[t].parallelism > 0
    requires HasEdge(g.edges, s.vertex, t)
    ensures var channels, p := ChannelsOf(ExpandAll(g, g.edges), s, t), g.vertices[t].parallelism;
            && |channels| == p
            && (channels[KeyedJoin.KeyPartition(hash, k, p)] == Instance(t, i)
                <==> i < p && if hash(k) >= 0 then (hash(k) - i) % p == 0 else (hash(k) + i) % p == 0)
  {
    ChannelsInOrder(g, g.edges, s, t);
    hide KeyedJoin.KeyPartition, ChannelsOf, ExpandAll;
    KeyedJoin.KeyPartitionSelects(hash, k, g.vertices[t].parallelism, i);
  }
}
