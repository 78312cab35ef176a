/** Operator chains, declaratively: which edges can be chained, the chain from a vertex,
    the head a vertex belongs to, and why chains partition the vertices. */
module Chains {
  import opened Bags
  import opened JobGraph

  predicate CanChain(g: Graph, e: Edge)
    requires e.source in g.vertices && e.target in g.vertices
  {
    if g.vertices[e.source].parallelism != g.vertices[e.target].parallelism then false
    else if |InEdges(g.edges, e.target)| > 1 || |OutEdges(g.edges, e.source)| > 1 then false
    else e.partition.ForwardPartition?
  }

  ghost predicate IsLink(g: Graph, e: Edge)
    requires EdgesInside(g)
  {
    e in g.edges && CanChain(g, e)
  }

  /** No chained edge leads into `v`. */
  ghost predicate IsHead(g: Graph, v: nat)
    requires EdgesInside(g)
  {
    v in g.vertices && forall e :: IsLink(g, e) ==> e.target != v
  }

  function MaxTarget(es: seq<Edge>): (m: nat)
    ensures forall e | e in es :: e.target <= m
  {
    if es == [] then 0
    else
      var rest, e := MaxTarget(es[..|es| - 1]), es[|es| - 1];
      assert forall x :: x in es <==> x in es[..|es| - 1] || x == e;
      if e.target > rest then e.target else rest
  }

  /** The vertices from `v` along chained edges. */
  ghost function ChainFrom(g: Graph, v: nat): (c: seq<nat>)
    requires EdgesInside(g)
    ensures c != [] && c[0] == v
    decreases MaxTarget(g.edges) - v
  {
    if e :| IsLink(g, e) && e.source == v then [v] + ChainFrom(g, e.target) else [v]
  }

  /** The head of the chain `v` belongs to. */
  ghost function HeadOf(g: Graph, v: nat): (h: nat)
    requires EdgesInside(g)
    ensures h <= v
    decreases v
  {
    if e :| IsLink(g, e) && e.target == v then HeadOf(g, e.source) else v
  }

  ghost function Last(c: seq<nat>): nat
    requires c != []
  {
    c[|c| - 1]
  }

  lemma AtMostOne<T>(s: seq<T>, a: T, b: T)
    requires |s| <= 1 && a in s && b in s
    ensures a == b
  {
  }

  /** A chained edge is the only edge out of its source and into its target. */
  lemma LinkIsOnly(g: Graph, e: Edge, f: Edge)
    requires EdgesInside(g) && IsLink(g, e) && f in g.edges
    ensures e.source == f.source ==> e == f
    ensures e.target == f.target ==> e == f
  {
    if e.source == f.source {
      AtMostOne(OutEdges(g.edges, e.source), e, f);
    }
    if e.target == f.target {
      AtMostOne(InEdges(g.edges, e.target), e, f);
    }
  }

  lemma ChainStep(g: Graph, e: Edge)
    requires EdgesInside(g) && IsLink(g, e)
    ensures ChainFrom(g, e.source) == [e.source] + ChainFrom(g, e.target)
    ensures HeadOf(g, e.target) == HeadOf(g, e.source)
  {
    hide CanChain;
    forall f | IsLink(g, f)
      ensures f.source == e.source ==> f == e
      ensures f.target == e.target ==> f == e
    {
      LinkIsOnly(g, e, f);
    }
  }

  ghost predicate Joined(g: Graph, a: nat, b: nat)
    requires EdgesInside(g)
  {
    exists e :: IsLink(g, e) && e.source == a && e.target == b
  }

  ghost predicate IsPath(g: Graph, c: seq<nat>)
    requires EdgesInside(g)
  {
    && (forall i | 0 <= i < |c| :: c[i] in g.vertices)
    && (forall i | 0 <= i < |c| - 1 :: Joined(g, c[i], c[i + 1]))
  }

  /** Each chain is a path of chained edges that cannot be continued. */
  lemma {:induction false} ChainIsPath(g: Graph, v: nat)
    requires EdgesInside(g) && v in g.vertices
    ensures IsPath(g, ChainFrom(g, v))
    ensures forall e :: IsLink(g, e) ==> e.source != Last(ChainFrom(g, v))
    decreases MaxTarget(g.edges) - v
  {
    hide CanChain;
    if e :| IsLink(g, e) && e.source == v {
      ChainIsPath(g, e.target);
      ChainStep(g, e);
      var c, r := ChainFrom(g, v), ChainFrom(g, e.target);
      forall i | 0 <= i < |c| - 1
        ensures Joined(g, c[i], c[i + 1])
      {
        if i > 0 {
          assert c[i] == r[i - 1] && c[i + 1] == r[i];
        }
      }
    }
  }

  /** Ids grow along a path. */
  lemma {:induction false} PathIncreases(g: Graph, c: seq<nat>, i: nat, j: nat)
    requires EdgesInside(g) && IsPath(g, c) && i < j < |c|
    ensures c[i] < c[j]
    decreases j - i
  {
    hide CanChain;
    assert Joined(g, c[j - 1], c[j - 1 + 1]);
    if i < j - 1 {
      PathIncreases(g, c, i, j - 1);
    }
  }

  lemma {:induction false} ChainSharesHead(g: Graph, v: nat, i: nat)
    requires EdgesInside(g) && i < |ChainFrom(g, v)|
    ensures HeadOf(g, ChainFrom(g, v)[i]) == HeadOf(g, v)
    decreases MaxTarget(g.edges) - v
  {
    hide CanChain;
    if i > 0 {
      var e :| IsLink(g, e) && e.source == v;
      ChainStep(g, e);
      ChainSharesHead(g, e.target, i - 1);
    }
  }

  lemma HeadIsOwnHead(g: Graph, h: nat)
    requires EdgesInside(g) && IsHead(g, h)
    ensures HeadOf(g, h) == h
  {
  }

  /** A chain contains the target of every chained edge that leaves it. */
  lemma {:induction false} ChainClosed(g: Graph, h: nat, e: Edge)
    requires EdgesInside(g) && IsLink(g, e) && e.source in ChainFrom(g, h)
    ensures e.target in ChainFrom(g, h)
    decreases MaxTarget(g.edges) - h
  {
    hide CanChain;
    if e.source == h {
      ChainStep(g, e);
      assert ChainFrom(g, e.target)[0] == e.target;
      assert ChainFrom(g, h)[1] == e.target;
    } else {
      var f :| IsLink(g, f) && f.source == h;
      ChainStep(g, f);
      ChainClosed(g, f.target, e);
    }
  }

  lemma {:induction false} HeadOfIsHead(g: Graph, v: nat)
    requires EdgesInside(g) && v in g.vertices
    ensures IsHead(g, HeadOf(g, v))
    ensures v in ChainFrom(g, HeadOf(g, v))
    decreases v
  {
    hide CanChain, ChainFrom;
    if e :| IsLink(g, e) && e.target == v {
      HeadOfIsHead(g, e.source);
      ChainStep(g, e);
      ChainClosed(g, HeadOf(g, e.source), e);
    } else {
      assert ChainFrom(g, v)[0] == v;
    }
  }

  /** Every vertex is on exactly one chain, at exactly one place. */
  lemma ChainsPartitionVertices(g: Graph, v: nat, h: nat)
    requires EdgesInside(g) && v in g.vertices
    ensures IsHead(g, HeadOf(g, v)) && v in ChainFrom(g, HeadOf(g, v))
    ensures IsHead(g, h) && v in ChainFrom(g, h) ==> h == HeadOf(g, v)
    ensures IsHead(g, h) ==> Distinct(ChainFrom(g, h))
  {
    hide IsLink, CanChain, ChainFrom;
    HeadOfIsHead(g, v);
    if IsHead(g, h) {
      ChainIsPath(g, h);
      forall i, j | 0 <= i < j < |ChainFrom(g, h)|
        ensures ChainFrom(g, h)[i] != ChainFrom(g, h)[j]
      {
        PathIncreases(g, ChainFrom(g, h), i, j);
      }
      HeadIsOwnHead(g, h);
      if v in ChainFrom(g, h) {
        var i :| 0 <= i < |ChainFrom(g, h)| && ChainFrom(g, h)[i] == v;
        ChainSharesHead(g, h, i);
      }
    }
  }

  /** An edge that is not chained leaves the last vertex of its chain and enters a head. */
  lemma UnchainedEdge(g: Graph, e: Edge)
    requires WellFormed(g) && e in g.edges && !IsLink(g, e)
    ensures Last(ChainFrom(g, HeadOf(g, e.source))) == e.source
    ensures IsHead(g, e.target)
  {
    hide ChainFrom, CanChain, HeadOf;
    forall f | IsLink(g, f)
      ensures f.source != e.source && f.target != e.target
    {
      LinkIsOnly(g, f, e);
    }
    var h := HeadOf(g, e.source);
    HeadOfIsHead(g, e.source);
    ChainIsPath(g, h);
    var c := ChainFrom(g, h);
    var i :| 0 <= i < |c| && c[i] == e.source;
    forall k | 0 <= k < |c| - 1
      ensures c[k] != e.source
    {
      assert Joined(g, c[k], c[k + 1]);
    }
  }

  // ------------------------------------------------------------------ which edges are chained

  lemma EmptyOrInhabited<T>(s: seq<T>)
    ensures s == [] || exists x :: x in s
  {
    assert s == [] || s[0] in s;
  }

  lemma {:induction false} OnlyInEdge(es: seq<Edge>, e: Edge)
    requires SimpleEdges(es) && forall x | x in es && x.target == e.target :: x == e
    ensures |InEdges(es, e.target)| <= 1
    decreases |es|
  {
    if es != [] {
      var n := |es| - 1;
      OnlyInEdge(es[..n], e);
      if es[n].target == e.target {
        assert es[n] == e;
        assert forall i | 0 <= i < n :: es[i].target == e.target ==> es[i] == es[n];
        assert forall x | x in es[..n] :: x.target != e.target;
        EmptyOrInhabited(InEdges(es[..n], e.target));
      }
    }
  }

  lemma {:induction false} OnlyOutEdge(es: seq<Edge>, e: Edge)
    requires SimpleEdges(es) && forall x | x in es && x.source == e.source :: x == e
    ensures |OutEdges(es, e.source)| <= 1
    decreases |es|
  {
    if es != [] {
      var n := |es| - 1;
      OnlyOutEdge(es[..n], e);
      if es[n].source == e.source {
        assert es[n] == e;
        assert forall i | 0 <= i < n :: es[i].source == e.source ==> es[i] == es[n];
        assert forall x | x in es[..n] :: x.source != e.source;
        EmptyOrInhabited(OutEdges(es[..n], e.source));
      }
    }
  }

  /** A forward edge between vertices of equal parallelism that is the only edge out of the
      one and into the other. */
  ghost predicate MayMerge(g: Graph, e: Edge)
    requires EdgesInside(g)
  {
    && e in g.edges && e.partition.ForwardPartition?
    && g.vertices[e.source].parallelism == g.vertices[e.target].parallelism
    && forall x | x in g.edges && (x.source == e.source || x.target == e.target) :: x == e
  }

  /** Exactly these are chained. */
  lemma ChainedIff(g: Graph, e: Edge)
    requires EdgesInside(g) && SimpleEdges(g.edges)
    ensures IsLink(g, e) <==> MayMerge(g, e)
  {
    if MayMerge(g, e) {
      OnlyInEdge(g.edges, e);
      OnlyOutEdge(g.edges, e);
    }
    if IsLink(g, e) {
      forall x | x in g.edges && (x.source == e.source || x.target == e.target)
        ensures x == e
      {
        LinkIsOnly(g, e, x);
      }
    }
  }

  /** In the chain of a vertex the next one is the end of the chained edge out of it. */
  lemma {:induction false} NextInChain(g: Graph, h: nat, e: Edge) returns (i: nat)
    requires EdgesInside(g) && IsLink(g, e) && e.source in ChainFrom(g, h)
    ensures i + 1 < |ChainFrom(g, h)| && ChainFrom(g, h)[i] == e.source && ChainFrom(g, h)[i + 1] == e.target
    decreases MaxTarget(g.edges) - h
  {
    hide CanChain;
    if e.source == h {
      ChainStep(g, e);
      assert ChainFrom(g, e.target)[0] == e.target;
      i := 0;
    } else {
      var f :| IsLink(g, f) && f.source == h;
      ChainStep(g, f);
      var j := NextInChain(g, f.target, e);
      i := j + 1;
    }
  }
}
