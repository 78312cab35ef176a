/** The optimiser: a traversal from the sources divides the graph into chains, each chain
    becomes one vertex, and the edges between chains are rewired to their heads. */
module GraphOptimizer {
  import opened Bags
  import opened JobGraph
  import opened Chains

  /** What the traversal has found so far.  `chainKeys` and `tailKeys` give the order in
      which the two dictionaries got their keys. */
  datatype State = State(
    visited: set<nat>,
    chainKeys: seq<nat>,
    chains: map<nat, seq<nat>>,
    tailKeys: seq<nat>,
    tails: map<nat, seq<Edge>>)

  function TailEdge(e: Edge): Edge {
    Edge(e.source, e.target, e.partition, e.source, e.targetOp, e.joinRight)
  }

  function TailEdges(es: seq<Edge>): (r: seq<Edge>)
    ensures |r| == |es| && forall i | 0 <= i < |es| :: r[i] == TailEdge(es[i])
  {
    seq(|es|, i requires 0 <= i < |es| => TailEdge(es[i]))
  }

  /** The tail edges recorded for a head; none when it has no entry. */
  function TailsFor(s: State, h: nat): seq<Edge> {
    if h in s.tails then s.tails[h] else []
  }

  ghost predicate KeysOk(keys: seq<nat>, domain: set<nat>) {
    Distinct(keys) && forall k :: k in keys <==> k in domain
  }

  ghost predicate StateOk(g: Graph, s: State) {
    && KeysOk(s.chainKeys, s.chains.Keys) && KeysOk(s.tailKeys, s.tails.Keys)
    && s.tails.Keys <= s.chains.Keys && s.visited <= s.chains.Keys
    && (forall v | v in s.visited :: v in g.vertices && !g.vertices[v].vertexType.Source?)
    && (forall v | v in s.chains && v !in s.visited :: v in g.vertices && g.vertices[v].vertexType.Source?)
  }

  /** The outgoing edges of the chain that ends in `v` lead to known heads. */
  ghost predicate TargetsKnown(g: Graph, s: State, v: nat) {
    forall e | e in OutEdges(g.edges, v) :: e.target in s.chains
  }

  /** The chain of `h` and its tail edges are complete. */
  ghost predicate Finished(g: Graph, s: State, h: nat)
    requires EdgesInside(g)
  {
    var c := ChainFrom(g, h);
    && h in s.chains && s.chains[h] == c
    && TailsFor(s, h) == TailEdges(OutEdges(g.edges, Last(c)))
    && TargetsKnown(g, s, Last(c))
  }

  /** From `s` to `t`, only the entries of `head` changed, and every new entry is that of
      a head and complete. */
  ghost predicate Extends(g: Graph, s: State, t: State, head: nat)
    requires EdgesInside(g)
  {
    && s.chains.Keys <= t.chains.Keys && s.visited <= t.visited
    && (forall h | h in s.chains && h != head :: t.chains[h] == s.chains[h] && TailsFor(t, h) == TailsFor(s, h))
    && (forall h | h in t.chains && h !in s.chains :: Finished(g, t, h) && IsHead(g, h) && h in t.visited)
  }

  function AddToChain(s: State, root: nat, v: nat): State {
    if root in s.chains then s.(chains := s.chains[root := s.chains[root] + [v]])
    else s.(chains := s.chains[root := [v]], chainKeys := s.chainKeys + [root])
  }

  function AddTail(s: State, head: nat, e: Edge): State {
    if head in s.tails then s.(tails := s.tails[head := s.tails[head] + [TailEdge(e)]])
    else s.(tails := s.tails[head := [TailEdge(e)]], tailKeys := s.tailKeys + [head])
  }

  lemma AddToChainOk(g: Graph, s: State, root: nat, v: nat)
    requires StateOk(g, s)
    requires root in s.chains || (root in g.vertices && g.vertices[root].vertexType.Source?)
    ensures StateOk(g, AddToChain(s, root, v))
  {
  }

  lemma AddTailOk(g: Graph, s: State, head: nat, e: Edge)
    requires StateOk(g, s) && head in s.chains
    ensures StateOk(g, AddTail(s, head, e))
    ensures TailsFor(AddTail(s, head, e), head) == TailsFor(s, head) + [TailEdge(e)]
    ensures forall h | h != head :: TailsFor(AddTail(s, head, e), h) == TailsFor(s, h)
  {
  }

  /** A new head: visited, with a chain that holds only itself. */
  ghost function Visit(s: State, v: nat): State {
    AddToChain(s.(visited := s.visited + {v}), v, v)
  }

  lemma VisitOk(g: Graph, s: State, v: nat)
    requires StateOk(g, s) && v !in s.chains && v in g.vertices && !g.vertices[v].vertexType.Source?
    ensures StateOk(g, Visit(s, v))
  {
  }

  lemma ExtendsKeepsFinished(g: Graph, s: State, t: State, head: nat, h: nat)
    requires EdgesInside(g) && Extends(g, s, t, head) && Finished(g, s, h) && h != head
    ensures Finished(g, t, h)
  {
    hide IsHead, ChainFrom;
  }

  /** Continuing with the entries of the same head. */
  lemma ExtendsTransitive(g: Graph, s: State, t: State, u: State, head: nat)
    requires EdgesInside(g) && Extends(g, s, t, head) && Extends(g, t, u, head) && head in s.chains
    ensures Extends(g, s, u, head)
  {
    hide IsHead, Finished;
    forall h | h in u.chains && h !in s.chains
      ensures Finished(g, u, h) && IsHead(g, h) && h in u.visited
    {
      if h in t.chains {
        ExtendsKeepsFinished(g, t, u, head, h);
      }
    }
  }

  /** Visiting and completing a new head `v` in between. */
  lemma ExtendsAcrossVisit(g: Graph, s: State, t: State, u: State, v: nat, head: nat)
    requires EdgesInside(g) && v !in s.chains && IsHead(g, v) && head in s.chains
    requires t == Visit(s, v) && v !in s.tails
    requires Extends(g, t, u, v) && Finished(g, u, v)
    ensures Extends(g, s, u, head) && u.chains[head] == s.chains[head] && TailsFor(u, head) == TailsFor(s, head)
  {
    hide IsHead, Finished, ChainFrom;
    assert t.chains.Keys == s.chains.Keys + {v};
    assert forall h | h in s.chains :: t.chains[h] == s.chains[h] && TailsFor(t, h) == TailsFor(s, h);
    assert v in t.visited;
  }

  /** `src` is the last vertex of the unfinished chain of `head`. */
  ghost predicate Ready(g: Graph, s: State, head: nat, src: nat) {
    && WellFormed(g) && StateOk(g, s)
    && src in g.vertices && head <= src
    && head in s.chains && s.chains[head] != [] && Last(s.chains[head]) == src && head !in s.tails
  }

  /** From `s` to `t`, the chain of `head` was completed from `src` on. */
  ghost predicate Divided(g: Graph, s: State, t: State, head: nat, src: nat)
    requires Ready(g, s, head, src)
  {
    var c := ChainFrom(g, src);
    && StateOk(g, t) && Extends(g, s, t, head) && head in t.chains
    && t.chains[head] == s.chains[head][..|s.chains[head]| - 1] + c
    && TailsFor(t, head) == TailEdges(OutEdges(g.edges, Last(c)))
    && TargetsKnown(g, t, Last(c))
  }

  ghost predicate EndsChain(g: Graph, src: nat)
    requires EdgesInside(g)
  {
    forall e :: IsLink(g, e) ==> e.source != src
  }

  /** From `s` to `t`, the first `i` edges out of `src` became tail edges of `head`. */
  ghost predicate PartlyLeft(g: Graph, s: State, t: State, head: nat, src: nat, i: nat)
    requires Ready(g, s, head, src)
  {
    var outs := OutEdges(g.edges, src);
    && EndsChain(g, src) && i <= |outs|
    && StateOk(g, t) && Extends(g, s, t, head) && head in t.chains
    && t.chains[head] == s.chains[head]
    && TailsFor(t, head) == TailEdges(outs[..i])
    && (forall j | 0 <= j < i :: outs[j].target in t.chains)
  }

  lemma LeftStart(g: Graph, s: State, head: nat, src: nat)
    requires Ready(g, s, head, src) && EndsChain(g, src)
    ensures PartlyLeft(g, s, s, head, src, 0)
  {
    hide Fed, SimpleEdges, EdgesInside, StateOk, EndsChain;
  }

  lemma LeftEnd(g: Graph, s: State, t: State, head: nat, src: nat)
    requires Ready(g, s, head, src) && PartlyLeft(g, s, t, head, src, |OutEdges(g.edges, src)|)
    ensures Divided(g, s, t, head, src)
  {
    hide Fed, SimpleEdges, EdgesInside, StateOk, Extends, IsLink;
    var outs := OutEdges(g.edges, src);
    assert outs[..|outs|] == outs;
    assert ChainFrom(g, src) == [src];
    var c := s.chains[head];
    assert c[..|c| - 1] + [src] == c;
  }

  lemma ProlongReady(g: Graph, s: State, head: nat, e: Edge)
    requires Ready(g, s, head, e.source) && IsLink(g, e)
    ensures Ready(g, AddToChain(s, head, e.target), head, e.target)
  {
    hide CanChain, StateOk, Fed, SimpleEdges;
    AddToChainOk(g, s, head, e.target);
  }

  lemma ProlongDivides(g: Graph, s: State, u: State, head: nat, e: Edge)
    requires Ready(g, s, head, e.source) && IsLink(g, e)
    requires Ready(g, AddToChain(s, head, e.target), head, e.target)
    requires Divided(g, AddToChain(s, head, e.target), u, head, e.target)
    ensures Divided(g, s, u, head, e.source)
  {
    hide Fed, SimpleEdges, EdgesInside, StateOk, ChainFrom, CanChain, Finished, IsHead, TargetsKnown, KeysOk, OutEdges;
    ChainStep(g, e);
    var c := s.chains[head];
    assert AddToChain(s, head, e.target).chains[head] == c + [e.target];
    assert (c + [e.target])[..|c|] == c == c[..|c| - 1] + [e.source];
  }

  /** After one more edge out of `src` has become a tail edge. */
  lemma TailAdded(g: Graph, s: State, t: State, head: nat, src: nat, i: nat)
    requires Ready(g, s, head, src) && PartlyLeft(g, s, t, head, src, i) && i < |OutEdges(g.edges, src)|
    ensures var e := OutEdges(g.edges, src)[i];
            var t' := AddTail(t, head, e);
            && StateOk(g, t') && Extends(g, s, t', head) && t'.chains == t.chains && t'.visited == t.visited
            && TailsFor(t', head) == TailEdges(OutEdges(g.edges, src)[..i + 1])
  {
    hide Fed, SimpleEdges, EdgesInside, StateOk, EndsChain, Extends, AddTail;
    var outs := OutEdges(g.edges, src);
    AddTailOk(g, t, head, outs[i]);
    assert outs[..i + 1] == outs[..i] + [outs[i]];
    ExtendsByTail(g, s, t, head, outs[i]);
  }

  lemma ExtendsByTail(g: Graph, s: State, t: State, head: nat, e: Edge)
    requires EdgesInside(g) && Extends(g, s, t, head) && head in s.chains
    ensures Extends(g, s, AddTail(t, head, e), head)
    ensures AddTail(t, head, e).chains == t.chains && AddTail(t, head, e).visited == t.visited
  {
    hide EdgesInside, IsHead, Finished;
    var t' := AddTail(t, head, e);
    forall h | h in t'.chains && h !in s.chains
      ensures Finished(g, t', h)
    {
      FinishedByEntries(g, t, t', h);
    }
  }

  lemma FinishedByEntries(g: Graph, t: State, t': State, h: nat)
    requires EdgesInside(g) && Finished(g, t, h)
    requires t'.chains == t.chains && TailsFor(t', h) == TailsFor(t, h)
    ensures Finished(g, t', h)
  {
    hide ChainFrom, EdgesInside;
  }

  /** The target of an edge that ends a chain is a head, and unless already visited it is
      not known. */
  lemma TargetIsHead(g: Graph, t: State, src: nat, e: Edge)
    requires WellFormed(g) && StateOk(g, t) && EndsChain(g, src) && e in OutEdges(g.edges, src)
    ensures e.target in g.vertices && IsHead(g, e.target) && src < e.target
    ensures !g.vertices[e.target].vertexType.Source?
    ensures e.target !in t.visited ==> e.target !in t.chains
  {
    hide CanChain, ChainFrom;
    assert e in g.edges && !IsLink(g, e);
    UnchainedEdge(g, e);
    assert e in InEdges(g.edges, e.target);
  }

  lemma VisitReady(g: Graph, t: State, v: nat)
    requires WellFormed(g) && StateOk(g, t) && v !in t.chains
    requires v in g.vertices && !g.vertices[v].vertexType.Source?
    ensures Ready(g, Visit(t, v), v, v)
  {
    hide Fed, SimpleEdges, EdgesInside, StateOk;
    VisitOk(g, t, v);
    assert v !in t.tails by { TailsInside(g, t); }
  }

  lemma TailsInside(g: Graph, t: State)
    requires StateOk(g, t)
    ensures t.tails.Keys <= t.chains.Keys
  {
  }

  /** One more edge out of `src` handled: a tail edge was added and its target is known. */
  lemma EdgeLeft(g: Graph, s: State, t: State, u: State, head: nat, src: nat, i: nat)
    requires Ready(g, s, head, src) && PartlyLeft(g, s, t, head, src, i) && i < |OutEdges(g.edges, src)|
    requires var e := OutEdges(g.edges, src)[i];
             var t' := AddTail(t, head, e);
             if e.target in t'.visited then u == t' && StateOk(g, t')
             else Ready(g, Visit(t', e.target), e.target, e.target)
                  && Divided(g, Visit(t', e.target), u, e.target, e.target)
    ensures PartlyLeft(g, s, u, head, src, i + 1)
  {
    hide Fed, SimpleEdges, EdgesInside, StateOk, ChainFrom, IsHead, IsLink, EndsChain;
    hide Finished, AddTail, Divided, Visit, Extends;
    var e := OutEdges(g.edges, src)[i];
    var t' := AddTail(t, head, e);
    TailAdded(g, s, t, head, src, i);
    if e.target in t'.visited {
      VisitedKnown(g, t');
    } else {
      assert EndsChain(g, src) && e in OutEdges(g.edges, src);
      TargetIsHead(g, t', src, e);
      VisitFinishes(g, t', u, e.target);
      TailsInside(g, t');
      ExtendsAcrossVisit(g, t', Visit(t', e.target), u, e.target, head);
      ExtendsTransitive(g, s, t', u, head);
      ExtendsKeys(g, s, t', head);
      ExtendsKeys(g, t', u, head);
      ExtendsKeys(g, Visit(t', e.target), u, e.target);
      assert e.target in Visit(t', e.target).chains;
    }
  }

  lemma ExtendsKeys(g: Graph, s: State, t: State, head: nat)
    requires EdgesInside(g) && Extends(g, s, t, head)
    ensures s.chains.Keys <= t.chains.Keys
  {
    hide Finished, IsHead;
  }

  lemma VisitedKnown(g: Graph, t: State)
    requires StateOk(g, t)
    ensures t.visited <= t.chains.Keys
  {
  }

  lemma VisitFinishes(g: Graph, t: State, u: State, v: nat)
    requires v !in t.chains
    requires Ready(g, Visit(t, v), v, v) && Divided(g, Visit(t, v), u, v, v)
    ensures Finished(g, u, v) && StateOk(g, u) && Extends(g, Visit(t, v), u, v)
  {
    hide Fed, SimpleEdges, EdgesInside, StateOk, ChainFrom, Extends;
    assert Visit(t, v).chains[v] == [v];
    assert u.chains[v] == [v][..0] + ChainFrom(g, v) == ChainFrom(g, v);
  }

  lemma NoLinkEnds(g: Graph, src: nat)
    requires WellFormed(g)
    requires var outs := OutEdges(g.edges, src);
             |outs| != 1 || !(outs[0].source in g.vertices && outs[0].target in g.vertices && CanChain(g, outs[0]))
    ensures EndsChain(g, src)
  {
    hide CanChain, Fed, SimpleEdges;
    forall e | IsLink(g, e)
      ensures e.source != src
    {
      LinkIsOnlyOutput(g, e);
    }
  }

  lemma LinkIsOnlyOutput(g: Graph, e: Edge)
    requires EdgesInside(g) && IsLink(g, e)
    ensures OutEdges(g.edges, e.source) == [e]
  {
    assert e in OutEdges(g.edges, e.source);
  }

  lemma ChainableIsOnly(g: Graph, e: Edge, i: nat)
    requires WellFormed(g) && e in g.edges && CanChain(g, e)
    requires i < |OutEdges(g.edges, e.source)| && OutEdges(g.edges, e.source)[i] == e
    ensures |OutEdges(g.edges, e.source)| == 1 && i == 0 && IsLink(g, e)
  {
  }

  lemma LeftKeepsOk(g: Graph, s: State, t: State, head: nat, src: nat, i: nat)
    requires Ready(g, s, head, src) && PartlyLeft(g, s, t, head, src, i)
    ensures StateOk(g, t) && EndsChain(g, src) && i <= |OutEdges(g.edges, src)|
  {
    hide StateOk, EndsChain, Extends, Fed, SimpleEdges, EdgesInside;
  }

  // ------------------------------------------------------------------ the whole traversal

  ghost predicate SourcesDone(g: Graph, s: State, i: nat)
    requires EdgesInside(g)
  {
    && i <= |g.order| && StateOk(g, s)
    && (forall h | h in s.chains :: Finished(g, s, h) && IsHead(g, h))
    && (forall j | 0 <= j < i :: IsSource(g, g.order[j]) ==> g.order[j] in s.chains)
    && (forall v | v in s.chains && v !in s.visited :: v in g.order[..i])
  }

  ghost predicate IsSource(g: Graph, v: nat) {
    v in g.vertices && g.vertices[v].vertexType.Source?
  }

  /** Every chain entry is complete, and the entries are exactly those of the heads. */
  ghost predicate Complete(g: Graph, s: State) {
    && EdgesInside(g)
    && KeysOk(s.chainKeys, s.chains.Keys) && KeysOk(s.tailKeys, s.tails.Keys) && s.tails.Keys <= s.chains.Keys
    && (forall h :: h in s.chains <==> IsHead(g, h))
    && (forall h | h in s.chains :: Finished(g, s, h))
  }

  lemma StartOk(g: Graph)
    requires WellFormed(g)
    ensures SourcesDone(g, State({}, [], map[], [], map[]), 0)
  {
  }

  /** A source not yet reached has no entry. */
  lemma SourceReady(g: Graph, s: State, i: nat)
    requires WellFormed(g) && SourcesDone(g, s, i) && i < |g.order| && IsSource(g, g.order[i])
    ensures Ready(g, AddToChain(s, g.order[i], g.order[i]), g.order[i], g.order[i])
    ensures g.order[i] !in s.chains && g.order[i] !in s.tails
  {
    hide Finished, IsHead, SimpleEdges, EdgesInside, Fed;
    assert g.order[i] !in g.order[..i];
    AddToChainOk(g, s, g.order[i], g.order[i]);
  }

  lemma SourceIsHead(g: Graph, v: nat)
    requires WellFormed(g) && IsSource(g, v)
    ensures IsHead(g, v)
  {
    hide CanChain, SimpleEdges;
    forall e | IsLink(g, e)
      ensures e.target != v
    {
      assert e in InEdges(g.edges, e.target);
    }
  }

  lemma SourceDivided(g: Graph, s: State, u: State, i: nat)
    requires WellFormed(g) && SourcesDone(g, s, i) && i < |g.order| && IsSource(g, g.order[i])
    requires g.order[i] !in s.chains && g.order[i] !in s.tails
    requires var v := g.order[i];
             Ready(g, AddToChain(s, v, v), v, v) && Divided(g, AddToChain(s, v, v), u, v, v)
    ensures SourcesDone(g, u, i + 1)
  {
    hide Finished, IsHead, SimpleEdges, EdgesInside, Fed, ChainFrom, StateOk;
    var v := g.order[i];
    var t := AddToChain(s, v, v);
    SourceIsHead(g, v);
    assert Finished(g, u, v) by { SourceFinishes(g, s, u, v); }
    forall h | h in u.chains
      ensures Finished(g, u, h) && IsHead(g, h)
    {
      if h != v && h in s.chains {
        FinishedGrows(g, s, u, h);
      }
    }
    assert g.order[..i + 1] == g.order[..i] + [v];
  }

  lemma SourceFinishes(g: Graph, s: State, u: State, v: nat)
    requires v !in s.chains
    requires Ready(g, AddToChain(s, v, v), v, v) && Divided(g, AddToChain(s, v, v), u, v, v)
    ensures Finished(g, u, v)
  {
    hide Fed, SimpleEdges, EdgesInside, StateOk, ChainFrom, Extends;
    assert AddToChain(s, v, v).chains[v] == [v];
    assert u.chains[v] == [v][..0] + ChainFrom(g, v) == ChainFrom(g, v);
  }

  lemma FinishedGrows(g: Graph, s: State, u: State, h: nat)
    requires EdgesInside(g) && Finished(g, s, h) && h in u.chains
    requires s.chains.Keys <= u.chains.Keys && u.chains[h] == s.chains[h] && TailsFor(u, h) == TailsFor(s, h)
    ensures Finished(g, u, h)
  {
    hide ChainFrom, EdgesInside;
  }

  lemma SkipNonSource(g: Graph, s: State, i: nat)
    requires WellFormed(g) && SourcesDone(g, s, i) && i < |g.order| && !IsSource(g, g.order[i])
    ensures SourcesDone(g, s, i + 1)
  {
    hide Finished, IsHead, SimpleEdges, EdgesInside, Fed, StateOk;
    assert g.order[..i + 1] == g.order[..i] + [g.order[i]];
  }

  /** Once all sources are done every head has an entry: a head that is not a source has
      an input from a chain with a smaller head, whose targets are known. */
  lemma {:induction false} EveryHeadReached(g: Graph, s: State, v: nat)
    requires WellFormed(g) && SourcesDone(g, s, |g.order|) && IsHead(g, v)
    ensures v in s.chains
    decreases v
  {
    hide CanChain, ChainFrom, Distinct, SimpleEdges, StateOk, HeadOf;
    if IsSource(g, v) {
      var j :| 0 <= j < |g.order| && g.order[j] == v;
    } else {
      assert InEdges(g.edges, v) != [];
      var e := InEdges(g.edges, v)[0];
      assert e in InEdges(g.edges, v) && e in g.edges && !IsLink(g, e);
      UnchainedEdge(g, e);
      HeadOfIsHead(g, e.source);
      var h := HeadOf(g, e.source);
      EveryHeadReached(g, s, h);
      assert Finished(g, s, h);
      assert e in OutEdges(g.edges, e.source);
    }
  }

  lemma AllSourcesDone(g: Graph, s: State)
    requires WellFormed(g) && SourcesDone(g, s, |g.order|)
    ensures Complete(g, s)
  {
    hide Finished, IsHead, SimpleEdges, Fed;
    forall h | IsHead(g, h)
      ensures h in s.chains
    {
      EveryHeadReached(g, s, h);
    }
  }

  // ------------------------------------------------------------------ the new graph

  function ChangePartition(p: Partition): Partition {
    if p.ForwardPartition? then RoundRobinPartition else p
  }

  function Rewired(head: nat, t: Edge): Edge {
    Edge(head, t.target, ChangePartition(t.partition), t.sourceOp, t.targetOp, t.joinRight)
  }

  function RewireAll(head: nat, ts: seq<Edge>): (r: seq<Edge>)
    ensures |r| == |ts| && forall i | 0 <= i < |ts| :: r[i] == Rewired(head, ts[i])
  {
    seq(|ts|, i requires 0 <= i < |ts| => Rewired(head, ts[i]))
  }

  function Collected(keys: seq<nat>, tails: map<nat, seq<Edge>>): (r: seq<Edge>)
    requires forall k | k in keys :: k in tails
  {
    if keys == [] then []
    else Collected(keys[..|keys| - 1], tails) + RewireAll(keys[|keys| - 1], tails[keys[|keys| - 1]])
  }

  /** The edges with the given join-right flag, in order. */
  function WithFlag(es: seq<Edge>, flag: bool): (r: seq<Edge>)
    ensures forall e :: e in r <==> e in es && e.joinRight == flag
  {
    if es == [] then []
    else
      var e := es[|es| - 1];
      assert forall x :: x in es <==> x in es[..|es| - 1] || x == e;
      WithFlag(es[..|es| - 1], flag) + if e.joinRight == flag then [e] else []
  }

  /** Sorting by the flag is stable: left edges first, each kind in its old order. */
  function StableByFlag(es: seq<Edge>): (r: seq<Edge>) {
    WithFlag(es, false) + WithFlag(es, true)
  }

  function MergedVertex(g: Graph, h: nat, chain: seq<nat>): Vertex
    requires h in g.vertices
  {
    g.vertices[h].(operators := chain)
  }

  ghost function Merged(g: Graph, s: State): Graph
    requires Complete(g, s)
  {
    Graph(s.chainKeys,
          map h | h in s.chains :: MergedVertex(g, h, s.chains[h]),
          StableByFlag(Collected(s.tailKeys, s.tails)))
  }

  lemma ChainEntry(g: Graph, s: State, h: nat)
    requires Complete(g, s) && WellFormed(g) && h in s.chains
    ensures h in g.vertices && s.chains[h] != [] && s.chains[h][0] == h
    ensures |s.chains[h]| == 1 ==> g.vertices[h] == MergedVertex(g, h, s.chains[h])
    ensures g.vertices[h].(operators := s.chains[h]) == MergedVertex(g, h, s.chains[h])
  {
    hide Fed, SimpleEdges;
    assert IsHead(g, h) && Finished(g, s, h);
    if |s.chains[h]| == 1 {
      assert s.chains[h] == [h];
    }
  }

  // ------------------------------------------------------------------ what the new graph is

  /** An edge that is not chained, between the vertices its ends were merged into. */
  ghost function Rewire(g: Graph, e: Edge): Edge
    requires EdgesInside(g)
  {
    Edge(HeadOf(g, e.source), e.target, ChangePartition(e.partition), e.source, e.targetOp, e.joinRight)
  }

  lemma {:induction false} CollectedHas(keys: seq<nat>, tails: map<nat, seq<Edge>>, e: Edge)
    requires forall k | k in keys :: k in tails
    ensures e in Collected(keys, tails) <==> exists k, t :: k in keys && t in tails[k] && e == Rewired(k, t)
  {
    if keys != [] {
      var n := |keys| - 1;
      var k := keys[n];
      CollectedHas(keys[..n], tails, e);
      assert forall x :: x in keys <==> x in keys[..n] || x == k;
      var ts := RewireAll(k, tails[k]);
      if e in ts {
        var i :| 0 <= i < |ts| && ts[i] == e;
        assert tails[k][i] in tails[k];
      }
      if t :| t in tails[k] && e == Rewired(k, t) {
        var i :| 0 <= i < |tails[k]| && tails[k][i] == t;
        assert ts[i] == e;
      }
      assert e in Collected(keys, tails) <==> e in Collected(keys[..n], tails) || e in ts;
    }
  }

  /** The tail edges of a head are those out of the end of its chain, none of them chained. */
  lemma TailsOfHead(g: Graph, s: State, h: nat, t: Edge)
    requires WellFormed(g) && Complete(g, s) && h in s.tails && t in s.tails[h]
    ensures exists e :: e in g.edges && !IsLink(g, e) && HeadOf(g, e.source) == h && t == TailEdge(e)
  {
    hide CanChain, ChainFrom, Fed, SimpleEdges, HeadOf;
    assert Finished(g, s, h) && IsHead(g, h);
    var c := ChainFrom(g, h);
    var outs := OutEdges(g.edges, Last(c));
    var i :| 0 <= i < |s.tails[h]| && s.tails[h][i] == t;
    var e := outs[i];
    assert e in outs;
    ChainIsPath(g, h);
    ChainSharesHead(g, h, |c| - 1);
    HeadIsOwnHead(g, h);
  }

  lemma UnchainedIsTail(g: Graph, s: State, e: Edge)
    requires WellFormed(g) && Complete(g, s) && e in g.edges && !IsLink(g, e)
    ensures HeadOf(g, e.source) in s.tails && TailEdge(e) in s.tails[HeadOf(g, e.source)]
  {
    hide CanChain, ChainFrom, Fed, SimpleEdges, HeadOf, IsHead;
    var h := HeadOf(g, e.source);
    HeadOfIsHead(g, e.source);
    UnchainedEdge(g, e);
    assert Finished(g, s, h);
    var outs := OutEdges(g.edges, e.source);
    assert e in outs;
    var i :| 0 <= i < |outs| && outs[i] == e;
    assert TailsFor(s, h)[i] == TailEdge(e);
  }

  /** The edges of the new graph are exactly the rewired unchained edges. */
  lemma EdgesCorrespond(g: Graph, s: State, x: Edge)
    requires WellFormed(g) && Complete(g, s)
    ensures x in Merged(g, s).edges <==> exists e :: e in g.edges && !IsLink(g, e) && x == Rewire(g, e)
  {
    hide CanChain, HeadOf, Fed, SimpleEdges, IsHead, Finished, Collected;
    CollectedHas(s.tailKeys, s.tails, x);
    assert x in Merged(g, s).edges <==> x in Collected(s.tailKeys, s.tails);
    if x in Collected(s.tailKeys, s.tails) {
      var k, t :| k in s.tailKeys && t in s.tails[k] && x == Rewired(k, t);
      TailsOfHead(g, s, k, t);
      var e :| e in g.edges && !IsLink(g, e) && HeadOf(g, e.source) == k && t == TailEdge(e);
      assert x == Rewire(g, e);
    }
    if e :| e in g.edges && !IsLink(g, e) && x == Rewire(g, e) {
      UnchainedIsTail(g, s, e);
      assert x == Rewired(HeadOf(g, e.source), TailEdge(e));
    }
  }

  /** Different unchained edges stay different, even as pairs of vertices. */
  lemma RewireInjective(g: Graph, e: Edge, f: Edge)
    requires WellFormed(g) && e in g.edges && f in g.edges && !IsLink(g, e) && !IsLink(g, f)
    requires Rewire(g, e).source == Rewire(g, f).source && Rewire(g, e).target == Rewire(g, f).target
    ensures e == f
  {
    hide CanChain, ChainFrom, HeadOf, Fed;
    UnchainedEdge(g, e);
    UnchainedEdge(g, f);
    var i :| 0 <= i < |g.edges| && g.edges[i] == e;
    var j :| 0 <= j < |g.edges| && g.edges[j] == f;
  }

  lemma {:induction false} OutEdgesDistinct(es: seq<Edge>, v: nat)
    requires SimpleEdges(es)
    ensures SimpleEdges(OutEdges(es, v))
  {
    if es != [] {
      var n := |es| - 1;
      OutEdgesDistinct(es[..n], v);
      var rest := OutEdges(es[..n], v);
      forall i | 0 <= i < |rest|
        ensures rest[i].source != es[n].source || rest[i].target != es[n].target
      {
        assert rest[i] in rest;
        var j :| 0 <= j < n && es[..n][j] == rest[i];
        assert es[j] == rest[i];
      }
    }
  }

  lemma SimpleConcat(a: seq<Edge>, b: seq<Edge>)
    requires SimpleEdges(a) && SimpleEdges(b)
    requires forall x, y | x in a && y in b :: x.source != y.source || x.target != y.target
    ensures SimpleEdges(a + b)
  {
    var c := a + b;
    forall i, j | 0 <= i < j < |c|
      ensures c[i].source != c[j].source || c[i].target != c[j].target
    {
      if i < |a| <= j {
        assert c[i] in a && c[j] in b;
      }
    }
  }

  lemma {:induction false} CollectedSimple(keys: seq<nat>, tails: map<nat, seq<Edge>>)
    requires Distinct(keys) && forall k | k in keys :: k in tails && SimpleEdges(tails[k])
    requires forall k | k in keys :: forall i, j | 0 <= i < j < |tails[k]| :: tails[k][i].target != tails[k][j].target
    ensures SimpleEdges(Collected(keys, tails))
  {
    if keys != [] {
      var n := |keys| - 1;
      CollectedSimple(keys[..n], tails);
      var a, b := Collected(keys[..n], tails), RewireAll(keys[n], tails[keys[n]]);
      forall x, y | x in a && y in b
        ensures x.source != y.source
      {
        CollectedHas(keys[..n], tails, x);
        var k, t :| k in keys[..n] && t in tails[k] && x == Rewired(k, t);
        var j :| 0 <= j < |b| && b[j] == y;
      }
      SimpleConcat(a, b);
    }
  }

  lemma {:induction false} WithFlagSimple(es: seq<Edge>, flag: bool)
    requires SimpleEdges(es)
    ensures SimpleEdges(WithFlag(es, flag))
  {
    if es != [] {
      var n := |es| - 1;
      WithFlagSimple(es[..n], flag);
      var a, b := WithFlag(es[..n], flag), if es[n].joinRight == flag then [es[n]] else [];
      forall x, y | x in a && y in b
        ensures x.source != y.source || x.target != y.target
      {
        assert x in es[..n];
        var j :| 0 <= j < n && es[j] == x;
      }
      SimpleConcat(a, b);
    }
  }

  lemma StableSimple(es: seq<Edge>)
    requires SimpleEdges(es)
    ensures SimpleEdges(StableByFlag(es))
  {
    WithFlagSimple(es, false);
    WithFlagSimple(es, true);
    forall x, y | x in WithFlag(es, false) && y in WithFlag(es, true)
      ensures x.source != y.source || x.target != y.target
    {
      var i :| 0 <= i < |es| && es[i] == x;
      var j :| 0 <= j < |es| && es[j] == y;
    }
    SimpleConcat(WithFlag(es, false), WithFlag(es, true));
  }

  lemma TailsSimple(g: Graph, s: State, h: nat)
    requires WellFormed(g) && Complete(g, s) && h in s.tails
    ensures SimpleEdges(s.tails[h])
    ensures forall i, j | 0 <= i < j < |s.tails[h]| :: s.tails[h][i].target != s.tails[h][j].target
  {
    hide CanChain, ChainFrom, Fed, IsHead;
    assert Finished(g, s, h);
    var v := Last(ChainFrom(g, h));
    OutEdgesDistinct(g.edges, v);
    var outs := OutEdges(g.edges, v);
    assert forall i | 0 <= i < |outs| :: outs[i] in outs;
  }

  /** The optimised graph: one vertex per head that runs the operators of its chain, a
      path of forward edges of equal parallelism; one edge per unchained edge, from the
      head of the chain it left to the head it enters, left edges before join-right ones;
      ids still grow along every edge, so it is acyclic. */
  lemma OptimizedGraph(g: Graph, s: State)
    requires WellFormed(g) && Complete(g, s)
    ensures var r := Merged(g, s);
            && Distinct(r.order) && (forall h :: h in r.order <==> h in r.vertices)
            && (forall h :: h in r.vertices <==> IsHead(g, h))
            && (forall h | h in r.vertices :: r.vertices[h] == g.vertices[h].(operators := ChainFrom(g, h)))
            && SimpleEdges(r.edges) && EdgesInside(r)
            && (forall i, j | 0 <= i < j < |r.edges| :: r.edges[i].joinRight ==> r.edges[j].joinRight)
  {
    hide CanChain, ChainFrom, HeadOf, Fed, Collected;
    var r := Merged(g, s);
    forall h | h in r.vertices
      ensures r.vertices[h] == g.vertices[h].(operators := ChainFrom(g, h))
    {
      assert Finished(g, s, h);
    }
    forall k | k in s.tailKeys
      ensures k in s.tails && SimpleEdges(s.tails[k])
      ensures forall i, j | 0 <= i < j < |s.tails[k]| :: s.tails[k][i].target != s.tails[k][j].target
    {
      TailsSimple(g, s, k);
    }
    CollectedSimple(s.tailKeys, s.tails);
    StableSimple(Collected(s.tailKeys, s.tails));
    forall x | x in r.edges
      ensures x.source in r.vertices && x.target in r.vertices && x.source < x.target
    {
      EdgesCorrespond(g, s, x);
      var e :| e in g.edges && !IsLink(g, e) && x == Rewire(g, e);
      UnchainedEdge(g, e);
      HeadOfIsHead(g, e.source);
    }
    FlagOrder(Collected(s.tailKeys, s.tails));
  }

  lemma FlagOrder(es: seq<Edge>)
    ensures var r := StableByFlag(es);
            forall i, j | 0 <= i < j < |r| :: r[i].joinRight ==> r[j].joinRight
  {
    var a, b := WithFlag(es, false), WithFlag(es, true);
    assert forall i | 0 <= i < |a| :: a[i] in a;
    assert forall i | 0 <= i < |b| :: b[i] in b;
  }

  /** A chained edge joins vertices of equal parallelism by forward partitioning, and is
      the only edge out of one and into the other. */
  lemma ChainsAreForward(g: Graph, h: nat, i: nat)
    requires WellFormed(g) && IsHead(g, h) && i + 1 < |ChainFrom(g, h)|
    ensures var c := ChainFrom(g, h);
            && c[i] in g.vertices && c[i + 1] in g.vertices && c[i] < c[i + 1]
            && g.vertices[c[i]].parallelism == g.vertices[c[i + 1]].parallelism
            && exists e :: OutEdges(g.edges, c[i]) == [e] && InEdges(g.edges, c[i + 1]) == [e]
                           && e.partition.ForwardPartition?
  {
    hide ChainFrom, Fed, SimpleEdges;
    ChainIsPath(g, h);
    var c := ChainFrom(g, h);
    assert Joined(g, c[i], c[i + 1]);
    var e :| IsLink(g, e) && e.source == c[i] && e.target == c[i + 1];
    var outs, ins := OutEdges(g.edges, c[i]), InEdges(g.edges, c[i + 1]);
    assert e in outs && e in ins;
    assert outs == [e] && ins == [e];
  }

  /** Every edge that may be merged is: its ends are neighbours in one vertex of the new
      graph, and its target is no vertex of it. */
  lemma ForwardPairsAreMerged(g: Graph, s: State, e: Edge) returns (h: nat, i: nat)
    requires WellFormed(g) && Complete(g, s) && e in g.edges && e.partition.ForwardPartition?
    requires g.vertices[e.source].parallelism == g.vertices[e.target].parallelism
    requires forall x | x in g.edges && (x.source == e.source || x.target == e.target) :: x == e
    ensures var r := Merged(g, s);
            && e.target !in r.vertices && h in r.vertices
            && i + 1 < |r.vertices[h].operators|
            && r.vertices[h].operators[i] == e.source && r.vertices[h].operators[i + 1] == e.target
  {
    ChainedIff(g, e);
    h := HeadOf(g, e.source);
    HeadOfIsHead(g, e.source);
    i := NextInChain(g, h, e);
    assert !IsHead(g, e.target);
    hide Merged, ChainFrom, IsLink, HeadOf, Complete, IsHead;
    OptimizedGraph(g, s);
  }

  /** No other edge is: its source is the last operator of a vertex of the new graph and its
      target the first of one. */
  lemma OtherEdgesStay(g: Graph, s: State, e: Edge)
    requires WellFormed(g) && Complete(g, s) && e in g.edges
    requires !(&& e.partition.ForwardPartition?
               && g.vertices[e.source].parallelism == g.vertices[e.target].parallelism
               && forall x | x in g.edges && (x.source == e.source || x.target == e.target) :: x == e)
    ensures var r := Merged(g, s);
            && e.target in r.vertices
            && exists x :: x in r.edges && x.target == e.target && x.sourceOp == e.source
  {
    ChainedIff(g, e);
    UnchainedEdge(g, e);
    EdgesCorrespond(g, s, Rewire(g, e));
    hide Merged, ChainFrom, HeadOf, Complete, IsHead;
    OptimizedGraph(g, s);
    var x := Rewire(g, e);
    assert x in Merged(g, s).edges && x.target == e.target && x.sourceOp == e.source;
  }

  /** What an edge of the new graph is, field by field: it comes from an edge of the old one,
      keeps its target and join-right flag, starts at the vertex whose last operator is the
      old source, and has the old partition, with forwarding turned to round robin. */
  lemma NewEdgeIs(g: Graph, s: State, x: Edge) returns (e: Edge)
    requires WellFormed(g) && Complete(g, s) && x in Merged(g, s).edges
    ensures e in g.edges && x.target == e.target && x.joinRight == e.joinRight && x.sourceOp == e.source
    ensures x.targetOp == e.targetOp
    ensures if e.partition.ForwardPartition? then x.partition == RoundRobinPartition else x.partition == e.partition
    ensures var r := Merged(g, s);
            && x.source in r.vertices && r.vertices[x.source].operators != []
            && Last(r.vertices[x.source].operators) == e.source
  {
    EdgesCorrespond(g, s, x);
    e :| e in g.edges && !IsLink(g, e) && x == Rewire(g, e);
    UnchainedEdge(g, e);
    HeadOfIsHead(g, e.source);
    hide Merged, ChainFrom, HeadOf, Complete, IsHead;
    OptimizedGraph(g, s);
  }

  /** Sorting by the flag keeps the order of the edges of either kind, and loses none. */
  lemma SortIsStable(es: seq<Edge>, flag: bool)
    ensures WithFlag(StableByFlag(es), flag) == WithFlag(es, flag)
    ensures |StableByFlag(es)| == |es|
  {
    hide WithFlag;
    var l, r := WithFlag(es, false), WithFlag(es, true);
    FlagConcat(l, r, flag);
    FlagTwice(es, false, flag);
    FlagTwice(es, true, flag);
    FlagLengths(es);
  }

  lemma {:induction false} FlagConcat(a: seq<Edge>, b: seq<Edge>, flag: bool)
    ensures WithFlag(a + b, flag) == WithFlag(a, flag) + WithFlag(b, flag)
    decreases |b|
  {
    if b == [] {
      assert a + b == a;
    } else {
      assert (a + b)[..|a + b| - 1] == a + b[..|b| - 1];
      FlagConcat(a, b[..|b| - 1], flag);
    }
  }

  lemma FlagOne(e: Edge, flag: bool)
    ensures WithFlag([e], flag) == if e.joinRight == flag then [e] else []
  {
    assert [e][..0] == [];
    assert WithFlag([], flag) == [];
  }

  lemma FlagStep(es: seq<Edge>, flag: bool)
    requires es != []
    ensures WithFlag(es, flag) == WithFlag(es[..|es| - 1], flag) + WithFlag([es[|es| - 1]], flag)
  {
    FlagOne(es[|es| - 1], flag);
  }

  lemma {:induction false} FlagTwice(es: seq<Edge>, a: bool, b: bool)
    ensures WithFlag(WithFlag(es, a), b) == if a == b then WithFlag(es, b) else []
    decreases |es|
  {
    if es != [] {
      var n := |es| - 1;
      FlagTwice(es[..n], a, b);
      FlagStep(es, a);
      FlagOne(es[n], a);
      FlagOne(es[n], b);
      FlagConcat(WithFlag(es[..n], a), WithFlag([es[n]], a), b);
      hide WithFlag;
      assert WithFlag([], b) == [] by { EmptyOrInhabited(WithFlag([], b)); }
    }
  }

  lemma {:induction false} FlagLengths(es: seq<Edge>)
    ensures |WithFlag(es, false)| + |WithFlag(es, true)| == |es|
    decreases |es|
  {
    if es != [] {
      FlagLengths(es[..|es| - 1]);
    }
  }

  class JobGraphOptimizer {
    const g: Graph
    var s: State

    constructor (g: Graph)
      ensures this.g == g && s == State({}, [], map[], [], map[])
    {
      this.g := g;
      s := State({}, [], map[], [], map[]);
    }

    /** Follows the edges out of `src`: a chained edge prolongs the chain of `head`, any
        other edge becomes a tail edge of `head` and its target, when new, a head. */
    method DivideVertices(head: nat, src: nat)
      requires Ready(g, s, head, src)
      modifies this`s
      ensures Divided(g, old(s), s, head, src)
      decreases MaxTarget(g.edges) - src
    {
      hide Divided, PartlyLeft, EndsChain, StateOk, AddToChain, AddTail, CanChain, Fed, SimpleEdges;
      var outputEdges := OutEdges(g.edges, src);
      ghost var linked := |outputEdges| == 1 && CanChain(g, outputEdges[0]);
      ghost var s0 := s;
      if !linked {
        NoLinkEnds(g, src);
        LeftStart(g, s, head, src);
      }
      for i := 0 to |outputEdges|
        invariant linked && i == 0 ==> s == s0
        invariant linked && i > 0 ==> Divided(g, s0, s, head, src)
        invariant !linked ==> PartlyLeft(g, s0, s, head, src, i)
      {
        var e := outputEdges[i];
        assert e in outputEdges;
        if CanChain(g, e) {
          ChainableIsOnly(g, e, i);
          ProlongReady(g, s, head, e);
          s := AddToChain(s, head, e.target);
          DivideVertices(head, e.target);
          ProlongDivides(g, s0, s, head, e);
        } else {
          ghost var t := s;
          LeftKeepsOk(g, s0, t, head, src, i);
          TailAdded(g, s0, t, head, src, i);
          s := AddTail(s, head, e);
          TargetIsHead(g, s, src, e);
          if e.target !in s.visited {
            ghost var t' := s;
            VisitReady(g, s, e.target);
            s := s.(visited := s.visited + {e.target});
            s := AddToChain(s, e.target, e.target);
            DivideVertices(e.target, e.target);
          }
          EdgeLeft(g, s0, t, s, head, src, i);
        }
      }
      if !linked {
        LeftEnd(g, s0, s, head, src);
      }
    }

    /** Divides the graph from its sources, merges each chain into a vertex and rewires
        the remaining edges. */
    method Optimize() returns (r: Graph)
      requires WellFormed(g) && s == State({}, [], map[], [], map[])
      modifies this`s
      ensures Complete(g, s)
      ensures r == Merged(g, s)
    {
      hide Ready, Divided, StateOk, SourcesDone, AddToChain, IsHead, Fed, SimpleEdges;
      StartOk(g);
      for i := 0 to |g.order|
        invariant SourcesDone(g, s, i)
      {
        var v := g.order[i];
        assert v in g.vertices;
        if g.vertices[v].vertexType.Source? {
          SourceReady(g, s, i);
          ghost var t := s;
          s := AddToChain(s, v, v);
          DivideVertices(v, v);
          SourceDivided(g, t, s, i);
        } else {
          SkipNonSource(g, s, i);
        }
      }
      AllSourcesDone(g, s);
      var order, vertices := MergeVertices();
      var edges := ResetEdges();
      r := Graph(order, vertices, edges);
    }

    method MergeVertices() returns (order: seq<nat>, vertices: map<nat, Vertex>)
      requires Complete(g, s) && WellFormed(g)
      ensures order == s.chainKeys
      ensures vertices.Keys == s.chains.Keys
      ensures forall h | h in vertices :: h in g.vertices && vertices[h] == MergedVertex(g, h, s.chains[h])
    {
      hide Fed, SimpleEdges, IsHead, Finished, EdgesInside, MergedVertex;
      order, vertices := [], map[];
      for i := 0 to |s.chainKeys|
        invariant order == s.chainKeys[..i]
        invariant forall h :: h in vertices <==> h in s.chainKeys[..i]
        invariant forall h | h in vertices ::
                    h in s.chains && h in g.vertices && vertices[h] == MergedVertex(g, h, s.chains[h])
      {
        var head := s.chainKeys[i];
        assert head in s.chains;
        ChainEntry(g, s, head);
        assert s.chainKeys[..i + 1] == s.chainKeys[..i] + [head];
        var merged := if |s.chains[head]| == 1 then g.vertices[head]
                      else g.vertices[head].(operators := s.chains[head]);
        order := order + [head];
        vertices := vertices[head := merged];
      }
      assert s.chainKeys[..|s.chainKeys|] == s.chainKeys;
    }

    method ResetEdges() returns (r: seq<Edge>)
      requires Complete(g, s) && WellFormed(g)
      ensures r == StableByFlag(Collected(s.tailKeys, s.tails))
    {
      hide Fed, SimpleEdges, IsHead, Finished;
      r := [];
      for i := 0 to |s.tailKeys|
        invariant r == Collected(s.tailKeys[..i], s.tails)
      {
        var head := s.tailKeys[i];
        var tailEdges := s.tails[head];
        ghost var before := r;
        for j := 0 to |tailEdges|
          invariant r == before + RewireAll(head, tailEdges[..j])
        {
          assert tailEdges[..j + 1] == tailEdges[..j] + [tailEdges[j]];
          r := r + [Rewired(head, tailEdges[j])];
        }
        assert tailEdges[..|tailEdges|] == tailEdges;
        assert s.tailKeys[..i + 1][..i] == s.tailKeys[..i];
      }
      assert s.tailKeys[..|s.tailKeys|] == s.tailKeys;
      r := StableByFlag(r);
    }
  }
}
