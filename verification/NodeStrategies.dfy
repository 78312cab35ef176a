/** The two placement strategies, working in place on the nodes. */
module NodeStrategies {
  import opened Wrappers
  import opened ExecutionGraph
  import opened NodeAssignment

  class Node {
    const id: string
    var resources: Resources

    constructor (id: string, resources: Resources)
      ensures this.id == id && this.resources == resources
    {
      this.id := id;
      this.resources := resources;
    }

    /** `false` stands for a failed assertion; what came before it has been acquired. */
    method AllocateExecutionVertex(need: Resources) returns (ok: bool)
      modifies this
      ensures ok <==> Acquirable(old(resources), need)
      ensures ok ==> resources == Acquired(old(resources), need)
    {
      if need.cpus.Some? {
        if resources.cpus.None? {
          return false;
        }
        resources := resources.(cpus := Some(resources.cpus.value - need.cpus.value));
      }
      if need.memory.Some? {
        if resources.memory.None? {
          return false;
        }
        resources := resources.(memory := Some(resources.memory.value - need.memory.value));
      }
      if need.gpus.Some? {
        if resources.gpus.None? {
          return false;
        }
        resources := resources.(gpus := Some(resources.gpus.value - need.gpus.value));
      }
      return true;
    }
  }

  /** What the nodes have now. */
  ghost function Have(nodes: seq<Node>): (rs: seq<Resources>)
    reads nodes
    ensures |rs| == |nodes| && forall j | 0 <= j < |nodes| :: rs[j] == nodes[j].resources
  {
    if nodes == [] then [] else Have(nodes[..|nodes| - 1]) + [nodes[|nodes| - 1].resources]
  }

  ghost predicate Separate(nodes: seq<Node>) {
    forall a, b | 0 <= a < b < |nodes| :: nodes[a] != nodes[b]
  }

  /** The vertices that a log has placed, in order. */
  ghost function Placed(log: seq<Placement>): (vs: seq<Vertex>)
    ensures |vs| == |log|
    ensures forall i | 0 <= i < |log| :: vs[i] == Vertex(log[i].id, log[i].need)
  {
    seq(|log|, i requires 0 <= i < |log| => Vertex(log[i].id, log[i].need))
  }

  /** The answer says of exactly the placed instances where the log put them. */
  ghost predicate Answers(res: map<Instance, Node>, nodes: seq<Node>, log: seq<Placement>) {
    && (forall id | id in res :: exists i :: 0 <= i < |log| && log[i].id == id)
    && forall i | 0 <= i < |log| :: log[i].node < |nodes| && log[i].id in res && res[log[i].id] == nodes[log[i].node]
  }

  /** The nodes have what fitting placements left of `start`, and `res` says which. */
  ghost predicate Tracks(start: seq<Resources>, nodes: seq<Node>, log: seq<Placement>, res: map<Instance, Node>)
    reads nodes
  {
    Left(start, log) == Some(Have(nodes)) && Answers(res, nodes, log)
  }

  lemma AnswersMore(res: map<Instance, Node>, nodes: seq<Node>, log: seq<Placement>, p: Placement)
    requires Answers(res, nodes, log) && p.node < |nodes| && p.id !in res
    ensures Answers(res[p.id := nodes[p.node]], nodes, log + [p])
  {
    var more, res2 := log + [p], res[p.id := nodes[p.node]];
    assert more[|log|] == p;
    forall id | id in res2
      ensures exists i :: 0 <= i < |more| && more[i].id == id
    {
      if id in res {
        var i :| 0 <= i < |log| && log[i].id == id;
        assert more[i].id == id;
      }
    }
  }

  /** Commits one placement on a node that has enough: the acquisition succeeds. */
  method Place(ghost start: seq<Resources>, nodes: seq<Node>, v: Vertex, j: nat, ghost log: seq<Placement>,
               res: map<Instance, Node>)
    returns (res2: map<Instance, Node>, ghost log2: seq<Placement>)
    requires Separate(nodes) && Tracks(start, nodes, log, res)
    requires j < |nodes| && HasEnough(v.need, nodes[j].resources) && v.id !in res
    modifies nodes
    ensures log2 == log + [Placement(v.id, v.need, j)]
    ensures Placed(log2) == Placed(log) + [v]
    ensures Tracks(start, nodes, log2, res2)
    ensures res2 == res[v.id := nodes[j]]
  {
    ghost var before, p := Have(nodes), Placement(v.id, v.need, j);
    log2 := log + [p];
    assert Placed(log2) == Placed(log) + [v];
    hide Placed, Answers;
    LeftAppend(start, log, p);
    AnswersMore(res, nodes, log, p);
    hide Left;
    var ok := nodes[j].AllocateExecutionVertex(v.need);
    assert Have(nodes) == before[j := Acquired(before[j], v.need)];
    assert ok;
    res2 := res[v.id := nodes[j]];
  }

  // ------------------------------------------------------------------ the order of placement

  ghost predicate Begins(a: seq<Vertex>, b: seq<Vertex>) {
    |a| <= |b| && b[..|a|] == a
  }

  lemma BeginsTrans(a: seq<Vertex>, b: seq<Vertex>, c: seq<Vertex>)
    requires Begins(a, b) && Begins(b, c)
    ensures Begins(a, c)
  {
    assert c[..|b|][..|a|] == c[..|a|];
  }

  lemma BeginsConcat(a: seq<Vertex>, b: seq<Vertex>, c: seq<Vertex>)
    requires Begins(b, c)
    ensures Begins(a + b, a + c)
  {
    assert c == b + c[|b|..];
    assert a + c == a + b + c[|b|..];
  }

  lemma {:induction false} RoundsBegin(groups: seq<Group>, i: nat, n: nat)
    requires i <= n
    ensures Begins(Rounds(groups, i), Rounds(groups, n))
    decreases n
  {
    if i < n {
      RoundsBegin(groups, i, n - 1);
      BeginsTrans(Rounds(groups, i), Rounds(groups, n - 1), Rounds(groups, n));
    }
  }

  lemma {:induction false} ColumnBegins(groups: seq<Group>, g: nat, i: nat)
    requires g <= |groups|
    ensures Begins(Column(groups[..g], i), Column(groups, i))
    decreases |groups|
  {
    var n := |groups|;
    if g == n {
      assert groups[..g] == groups;
    } else {
      ColumnBegins(groups[..n - 1], g, i);
      assert groups[..n - 1][..g] == groups[..g];
      BeginsTrans(Column(groups[..g], i), Column(groups[..n - 1], i), Column(groups, i));
    }
  }

  /** The next vertex in the order of rounds. */
  lemma NextInRounds(groups: seq<Group>, n: nat, i: nat, g: nat)
    requires i < n && g < |groups| && i < |groups[g].needs|
    ensures var v := Vertex(Instance(groups[g].operator, i), groups[g].needs[i]);
            && Column(groups[..g + 1], i) == Column(groups[..g], i) + [v]
            && Begins(Rounds(groups, i) + Column(groups[..g], i) + [v], Rounds(groups, n))
  {
    var v := Vertex(Instance(groups[g].operator, i), groups[g].needs[i]);
    assert groups[..g + 1][..g] == groups[..g];
    assert Column(groups[..g + 1], i) == Column(groups[..g], i) + [v];
    assert Rounds(groups, i + 1) == Rounds(groups, i) + Column(groups, i);
    hide Begins, Column, Rounds;
    ColumnBegins(groups, g + 1, i);
    BeginsConcat(Rounds(groups, i), Column(groups[..g + 1], i), Column(groups, i));
    RoundsBegin(groups, i + 1, n);
    assert Rounds(groups, i) + Column(groups[..g], i) + [v] == Rounds(groups, i) + (Column(groups[..g], i) + [v]);
    BeginsTrans(Rounds(groups, i) + Column(groups[..g + 1], i), Rounds(groups, i + 1), Rounds(groups, n));
  }

  lemma NotYetPlaced(order: seq<Vertex>, nodes: seq<Node>, log: seq<Placement>, res: map<Instance, Node>, v: Vertex)
    requires DistinctIds(order) && Begins(Placed(log) + [v], order) && Answers(res, nodes, log)
    ensures v.id !in res
  {
    var n := |log|;
    assert (Placed(log) + [v])[n] == order[n] == v;
    forall i | 0 <= i < n
      ensures log[i].id != v.id
    {
      assert (Placed(log) + [v])[i] == order[i] == Placed(log)[i];
    }
  }

  /** The order was followed up to a next vertex that fits no node of index `from` or more. */
  ghost predicate NoneFitsFrom(order: seq<Vertex>, nodes: seq<Node>, log: seq<Placement>, from: nat)
    reads nodes
  {
    && |log| < |order| && Placed(log) == order[..|log|]
    && forall k | from <= k < |nodes| :: !HasEnough(order[|log|].need, nodes[k].resources)
  }

  ghost function LastNode(log: seq<Placement>, first: nat): nat {
    if log == [] then first else log[|log| - 1].node
  }

  /** Placement `a` went to the first node with enough left, from the one before it on. */
  ghost predicate FirstFit(start: seq<Resources>, log: seq<Placement>, first: nat, a: nat)
    requires a < |log|
  {
    var left, from := Left(start, log[..a]), LastNode(log[..a], first);
    && left.Some? && from <= log[a].node < |start|
    && HasEnough(log[a].need, left.value[log[a].node])
    && forall k | from <= k < log[a].node :: !HasEnough(log[a].need, left.value[k])
  }

  ghost predicate NextFit(start: seq<Resources>, log: seq<Placement>, first: nat) {
    forall a | 0 <= a < |log| :: FirstFit(start, log, first, a)
  }

  lemma NextFitMore(start: seq<Resources>, log: seq<Placement>, first: nat, have: seq<Resources>, p: Placement)
    requires NextFit(start, log, first) && Left(start, log) == Some(have)
    requires LastNode(log, first) <= p.node < |start| && HasEnough(p.need, have[p.node])
    requires forall k | LastNode(log, first) <= k < p.node :: !HasEnough(p.need, have[k])
    ensures NextFit(start, log + [p], first) && LastNode(log + [p], first) == p.node
  {
    hide HasEnough, Left;
    var more := log + [p];
    forall a | 0 <= a < |more|
      ensures FirstFit(start, more, first, a)
    {
      assert more[..a] == log[..a];
      if a < |log| {
        assert FirstFit(start, log, first, a);
      } else {
        assert log[..a] == log;
      }
    }
  }

  /** So the nodes are used in order and never returned to. */
  lemma {:induction false} NodesInOrder(start: seq<Resources>, log: seq<Placement>, first: nat, a: nat, b: nat)
    requires NextFit(start, log, first) && a <= b < |log|
    ensures first <= log[a].node <= log[b].node
    decreases b
  {
    hide Left, HasEnough;
    assert FirstFit(start, log, first, b);
    if b > 0 {
      assert LastNode(log[..b], first) == log[b - 1].node;
      NodesInOrder(start, log, first, if a < b then a else b - 1, b - 1);
    }
  }

  lemma BeginsNext(a: seq<Vertex>, v: Vertex, order: seq<Vertex>)
    requires Begins(a + [v], order)
    ensures |a| < |order| && a == order[..|a|] && order[|a|] == v
  {
    assert (a + [v])[..|a|] == a && (a + [v])[|a|] == v;
    assert order[..|a| + 1][..|a|] == order[..|a|];
  }

  lemma NothingPlaced(nodes: seq<Node>, first: nat)
    ensures Tracks(Have(nodes), nodes, [], map[])
    ensures Placed([]) == [] && NextFit(Have(nodes), [], first) && LastNode([], first) == first
  {
  }

  /** Fills one node after the other and never goes back. */
  class ParallelismFirst {
    var currNodeIndex: nat

    constructor ()
      ensures currNodeIndex == 0
    {
      currNodeIndex := 0;
    }

    method FindMatchedNode(nodes: seq<Node>, need: Resources) returns (found: bool)
      modifies this
      ensures old(currNodeIndex) <= currNodeIndex
      ensures forall k | old(currNodeIndex) <= k < currNodeIndex && k < |nodes| :: !HasEnough(need, nodes[k].resources)
      ensures found <==> currNodeIndex < |nodes|
      ensures found ==> HasEnough(need, nodes[currNodeIndex].resources)
    {
      while currNodeIndex < |nodes|
        invariant old(currNodeIndex) <= currNodeIndex
        invariant forall k | old(currNodeIndex) <= k < currNodeIndex && k < |nodes| ::
                    !HasEnough(need, nodes[k].resources)
      {
        if HasEnough(need, nodes[currNodeIndex].resources) {
          return true;
        }
        currNodeIndex := currNodeIndex + 1;
      }
      return false;
    }

    method AssignOne(ghost start: seq<Resources>, ghost first: nat, ghost order: seq<Vertex>, nodes: seq<Node>,
                     v: Vertex, res: map<Instance, Node>, ghost log: seq<Placement>)
      returns (ok: bool, res2: map<Instance, Node>, ghost log2: seq<Placement>)
      requires Separate(nodes) && Tracks(start, nodes, log, res)
      requires NextFit(start, log, first) && currNodeIndex == LastNode(log, first)
      requires DistinctIds(order) && Begins(Placed(log) + [v], order)
      modifies this, nodes
      ensures Tracks(start, nodes, log2, res2) && NextFit(start, log2, first)
      ensures ok ==> Placed(log2) == Placed(log) + [v] && currNodeIndex == LastNode(log2, first)
      ensures !ok ==> NoneFitsFrom(order, nodes, log2, LastNode(log2, first))
    {
      hide Left, DistinctIds;
      NotYetPlaced(order, nodes, log, res, v);
      BeginsNext(Placed(log), v, order);
      hide Begins, Answers, Placed;
      res2, log2 := res, log;
      ok := FindMatchedNode(nodes, v.need);
      if ok {
        NextFitMore(start, log, first, Have(nodes), Placement(v.id, v.need, currNodeIndex));
        hide NextFit, LastNode;
        res2, log2 := Place(start, nodes, v, currNodeIndex, log, res);
      }
    }

    method AssignRound(ghost start: seq<Resources>, ghost first: nat, nodes: seq<Node>, groups: seq<Group>, i: nat,
                       ghost rounds: nat, res: map<Instance, Node>, ghost log: seq<Placement>)
      returns (ok: bool, res2: map<Instance, Node>, ghost log2: seq<Placement>)
      requires Separate(nodes) && Tracks(start, nodes, log, res)
      requires NextFit(start, log, first) && currNodeIndex == LastNode(log, first)
      requires i < rounds && DistinctIds(Rounds(groups, rounds)) && Placed(log) == Rounds(groups, i)
      modifies this, nodes
      ensures Tracks(start, nodes, log2, res2) && NextFit(start, log2, first)
      ensures ok ==> Placed(log2) == Rounds(groups, i + 1) && currNodeIndex == LastNode(log2, first)
      ensures !ok ==> NoneFitsFrom(Rounds(groups, rounds), nodes, log2, LastNode(log2, first))
    {
      hide Tracks, NextFit, LastNode, NoneFitsFrom, DistinctIds, Begins;
      ok, res2, log2 := true, res, log;
      var g := 0;
      assert Column(groups[..0], i) == [];
      while g < |groups|
        invariant g <= |groups|
        invariant Tracks(start, nodes, log2, res2)
        invariant NextFit(start, log2, first) && currNodeIndex == LastNode(log2, first)
        invariant Placed(log2) == Rounds(groups, i) + Column(groups[..g], i)
      {
        assert groups[..g + 1][..g] == groups[..g];
        if i < |groups[g].needs| {
          var v := Vertex(Instance(groups[g].operator, i), groups[g].needs[i]);
          NextInRounds(groups, rounds, i, g);
          ok, res2, log2 := AssignOne(start, first, Rounds(groups, rounds), nodes, v, res2, log2);
          if !ok {
            return;
          }
        }
        g := g + 1;
      }
      assert groups[..g] == groups;
    }

    /** On success the log places every instance of every operator; on failure the next
        vertex fits none of the nodes that are still ahead. */
    method AssignResources(nodes: seq<Node>, groups: seq<Group>, maxParallelism: nat)
      returns (res: Option<map<Instance, Node>>, ghost log: seq<Placement>)
      requires Separate(nodes) && DistinctOperators(groups)
      modifies this, nodes
      ensures Left(old(Have(nodes)), log) == Some(Have(nodes))
      ensures NextFit(old(Have(nodes)), log, old(currNodeIndex))
      ensures res.Some? ==> Placed(log) == Rounds(groups, maxParallelism) && Answers(res.value, nodes, log)
      ensures res.None? ==> NoneFitsFrom(Rounds(groups, maxParallelism), nodes, log, LastNode(log, old(currNodeIndex)))
    {
      ghost var start, first := Have(nodes), currNodeIndex;
      log := [];
      var placed: map<Instance, Node> := map[];
      RoundsDistinct(groups, maxParallelism);
      NothingPlaced(nodes, first);
      assert Rounds(groups, 0) == [];
      hide NextFit, DistinctIds, Rounds, NoneFitsFrom, Left, Answers, Have, LastNode, Placed;
      var i := 0;
      while i < maxParallelism
        invariant i <= maxParallelism
        invariant Tracks(start, nodes, log, placed)
        invariant NextFit(start, log, first) && currNodeIndex == LastNode(log, first)
        invariant Placed(log) == Rounds(groups, i)
      {
        var ok;
        ok, placed, log := AssignRound(start, first, nodes, groups, i, maxParallelism, placed, log);
        if !ok {
          return None, log;
        }
        i := i + 1;
      }
      res := Some(placed);
    }
  }

  // ------------------------------------------------------------------ operators on separate nodes

  /** The node is free or the operator's own. */
  predicate Usable(owners: map<string, nat>, id: string, operator: nat) {
    id !in owners || owners[id] == operator
  }

  /** The operators that nodes belong to after a log. */
  ghost function Owners(before: map<string, nat>, nodes: seq<Node>, log: seq<Placement>): map<string, nat> {
    if log == [] then before
    else
      var p, owners := log[|log| - 1], Owners(before, nodes, log[..|log| - 1]);
      if p.node < |nodes| then owners[nodes[p.node].id := p.id.vertex] else owners
  }

  /** Placement `a` went to the first node, of those free or its operator's own, with enough
      left. */
  ghost predicate OwnFit(start: seq<Resources>, nodes: seq<Node>, before: map<string, nat>, log: seq<Placement>, a: nat)
    requires a < |log|
  {
    var left, owners, v := Left(start, log[..a]), Owners(before, nodes, log[..a]), log[a].id.vertex;
    && left.Some? && |start| == |nodes| && log[a].node < |nodes|
    && HasEnough(log[a].need, left.value[log[a].node])
    && (nodes[log[a].node].id in owners ==> owners[nodes[log[a].node].id] == v)
    && forall k | 0 <= k < log[a].node && (nodes[k].id in owners ==> owners[nodes[k].id] == v) ::
         !HasEnough(log[a].need, left.value[k])
  }

  ghost predicate OwnFits(start: seq<Resources>, nodes: seq<Node>, before: map<string, nat>, log: seq<Placement>) {
    forall a | 0 <= a < |log| :: OwnFit(start, nodes, before, log, a)
  }

  lemma OwnFitsMore(start: seq<Resources>, nodes: seq<Node>, before: map<string, nat>, log: seq<Placement>,
                    have: seq<Resources>, p: Placement)
    requires OwnFits(start, nodes, before, log) && Left(start, log) == Some(have) && |start| == |nodes|
    requires p.node < |nodes| && HasEnough(p.need, have[p.node])
    requires Usable(Owners(before, nodes, log), nodes[p.node].id, p.id.vertex)
    requires forall k | 0 <= k < p.node && Usable(Owners(before, nodes, log), nodes[k].id, p.id.vertex) ::
               !HasEnough(p.need, have[k])
    ensures OwnFits(start, nodes, before, log + [p])
    ensures Owners(before, nodes, log + [p]) == Owners(before, nodes, log)[nodes[p.node].id := p.id.vertex]
  {
    hide HasEnough, Left;
    var more := log + [p];
    assert more[..|log|] == log;
    assert Owners(before, nodes, more) == Owners(before, nodes, log)[nodes[p.node].id := p.id.vertex];
    hide Owners;
    forall a | 0 <= a < |more|
      ensures OwnFit(start, nodes, before, more, a)
    {
      assert more[..a] == log[..a];
      if a < |log| {
        assert OwnFit(start, nodes, before, log, a);
      } else {
        assert log[..a] == log;
      }
    }
  }

  /** Every node in use belongs to the operator of everything placed on it. */
  ghost predicate Owned(owners: map<string, nat>, nodes: seq<Node>, log: seq<Placement>) {
    forall i | 0 <= i < |log| ::
      log[i].node < |nodes| && nodes[log[i].node].id in owners && owners[nodes[log[i].node].id] == log[i].id.vertex
  }

  ghost predicate Kept(before: map<string, nat>, owners: map<string, nat>) {
    forall id | id in before :: id in owners && owners[id] == before[id]
  }

  /** No node, not even two nodes of one id, serves two operators. */
  ghost predicate NotShared(nodes: seq<Node>, log: seq<Placement>) {
    forall a, b | 0 <= a < b < |log| && log[a].node < |nodes| && log[b].node < |nodes| ::
      nodes[log[a].node].id == nodes[log[b].node].id ==> log[a].id.vertex == log[b].id.vertex
  }

  lemma OwnedMeansNotShared(owners: map<string, nat>, nodes: seq<Node>, log: seq<Placement>)
    requires Owned(owners, nodes, log)
    ensures NotShared(nodes, log)
  {
  }

  lemma OwnedMore(owners: map<string, nat>, nodes: seq<Node>, log: seq<Placement>, p: Placement)
    requires Owned(owners, nodes, log) && p.node < |nodes| && Usable(owners, nodes[p.node].id, p.id.vertex)
    ensures Owned(owners[nodes[p.node].id := p.id.vertex], nodes, log + [p])
  {
  }

  ghost predicate NoneUsableFits(order: seq<Vertex>, nodes: seq<Node>, log: seq<Placement>, owners: map<string, nat>)
    reads nodes
  {
    && |log| < |order| && Placed(log) == order[..|log|]
    && forall k | 0 <= k < |nodes| && (nodes[k].id in owners ==> owners[nodes[k].id] == order[|log|].id.vertex) ::
         !HasEnough(order[|log|].need, nodes[k].resources)
  }

  lemma {:induction false} RowsBegin(groups: seq<Group>, g: nat)
    requires g <= |groups|
    ensures Begins(Rows(groups[..g]), Rows(groups))
    decreases |groups|
  {
    var n := |groups|;
    if g == n {
      assert groups[..g] == groups;
    } else {
      RowsBegin(groups[..n - 1], g);
      assert groups[..n - 1][..g] == groups[..g];
      BeginsTrans(Rows(groups[..g]), Rows(groups[..n - 1]), Rows(groups));
    }
  }

  lemma NextInRows(groups: seq<Group>, g: nat, i: nat)
    requires g < |groups| && i < |groups[g].needs|
    ensures var v := Vertex(Instance(groups[g].operator, i), groups[g].needs[i]);
            && Row(groups[g], i + 1) == Row(groups[g], i) + [v]
            && Begins(Rows(groups[..g]) + Row(groups[g], i) + [v], Rows(groups))
  {
    var group := groups[g];
    var v := Vertex(Instance(group.operator, i), group.needs[i]);
    var n := |group.needs|;
    assert Row(group, i + 1) == Row(group, i) + [v];
    assert Begins(Row(group, i + 1), Row(group, n));
    assert groups[..g + 1][..g] == groups[..g];
    assert Rows(groups[..g + 1]) == Rows(groups[..g]) + Row(group, n);
    hide Begins, Rows, Row;
    BeginsConcat(Rows(groups[..g]), Row(group, i + 1), Row(group, n));
    RowsBegin(groups, g + 1);
    assert Rows(groups[..g]) + Row(group, i) + [v] == Rows(groups[..g]) + (Row(group, i) + [v]);
    BeginsTrans(Rows(groups[..g]) + Row(group, i + 1), Rows(groups[..g + 1]), Rows(groups));
  }

  /** First fit among the nodes that no other operator has taken. */
  class OperatorFirst {
    var nodeToOperator: map<string, nat>

    constructor ()
      ensures nodeToOperator == map[]
    {
      nodeToOperator := map[];
    }

    method FindMatchedNode(nodes: seq<Node>, v: Vertex) returns (j: Option<nat>)
      modifies this
      ensures j.Some? ==> j.value < |nodes| && HasEnough(v.need, nodes[j.value].resources)
      ensures j.Some? && nodes[j.value].id in old(nodeToOperator) ==>
                old(nodeToOperator)[nodes[j.value].id] == v.id.vertex
      ensures j.Some? ==> nodeToOperator == old(nodeToOperator)[nodes[j.value].id := v.id.vertex]
      ensures j.None? ==> nodeToOperator == old(nodeToOperator)
      ensures forall k | 0 <= k < (if j.Some? then j.value else |nodes|)
                && (nodes[k].id in old(nodeToOperator) ==> old(nodeToOperator)[nodes[k].id] == v.id.vertex) ::
                !HasEnough(v.need, nodes[k].resources)
    {
      var i := 0;
      while i < |nodes|
        invariant i <= |nodes|
        invariant nodeToOperator == old(nodeToOperator)
        invariant forall k | 0 <= k < i && Usable(nodeToOperator, nodes[k].id, v.id.vertex) ::
                    !HasEnough(v.need, nodes[k].resources)
      {
        if Usable(nodeToOperator, nodes[i].id, v.id.vertex) && HasEnough(v.need, nodes[i].resources) {
          nodeToOperator := nodeToOperator[nodes[i].id := v.id.vertex];
          return Some(i);
        }
        i := i + 1;
      }
      return None;
    }

    /** The log so far is a first fit that left the owners as they are now. */
    ghost predicate Follows(start: seq<Resources>, nodes: seq<Node>, before: map<string, nat>, log: seq<Placement>)
      reads this
    {
      OwnFits(start, nodes, before, log) && nodeToOperator == Owners(before, nodes, log)
    }

    method AssignOne(ghost start: seq<Resources>, ghost before: map<string, nat>, ghost order: seq<Vertex>,
                     nodes: seq<Node>, v: Vertex, res: map<Instance, Node>, ghost log: seq<Placement>)
      returns (ok: bool, res2: map<Instance, Node>, ghost log2: seq<Placement>)
      requires Separate(nodes) && Tracks(start, nodes, log, res) && Owned(nodeToOperator, nodes, log)
      requires Follows(start, nodes, before, log)
      requires DistinctIds(order) && Begins(Placed(log) + [v], order)
      modifies this, nodes
      ensures Tracks(start, nodes, log2, res2) && Owned(nodeToOperator, nodes, log2)
      ensures Follows(start, nodes, before, log2)
      ensures Kept(old(nodeToOperator), nodeToOperator)
      ensures ok ==> Placed(log2) == Placed(log) + [v]
      ensures !ok ==> NoneUsableFits(order, nodes, log2, nodeToOperator)
    {
      hide Left, DistinctIds, Begins, Answers, Placed, HasEnough, Owned, OwnFits, Owners;
      NotYetPlaced(order, nodes, log, res, v);
      BeginsNext(Placed(log), v, order);
      res2, log2 := res, log;
      ghost var owners := nodeToOperator;
      var j := FindMatchedNode(nodes, v);
      ok := j.Some?;
      if ok {
        OwnedMore(owners, nodes, log, Placement(v.id, v.need, j.value));
        OwnFitsMore(start, nodes, before, log, Have(nodes), Placement(v.id, v.need, j.value));
        res2, log2 := Place(start, nodes, v, j.value, log, res);
      }
    }

    method AssignOperator(ghost start: seq<Resources>, ghost before: map<string, nat>, nodes: seq<Node>,
                          groups: seq<Group>, g: nat, res: map<Instance, Node>, ghost log: seq<Placement>)
      returns (ok: bool, res2: map<Instance, Node>, ghost log2: seq<Placement>)
      requires Separate(nodes) && Tracks(start, nodes, log, res) && Owned(nodeToOperator, nodes, log)
      requires Follows(start, nodes, before, log)
      requires g < |groups| && DistinctIds(Rows(groups)) && Placed(log) == Rows(groups[..g])
      modifies this, nodes
      ensures Tracks(start, nodes, log2, res2) && Owned(nodeToOperator, nodes, log2)
      ensures Follows(start, nodes, before, log2)
      ensures Kept(old(nodeToOperator), nodeToOperator)
      ensures ok ==> Placed(log2) == Rows(groups[..g + 1])
      ensures !ok ==> NoneUsableFits(Rows(groups), nodes, log2, nodeToOperator)
    {
      hide Tracks, Owned, NoneUsableFits, DistinctIds, Begins, Follows;
      ok, res2, log2 := true, res, log;
      var i := 0;
      assert Row(groups[g], 0) == [];
      while i < |groups[g].needs|
        invariant i <= |groups[g].needs|
        invariant Tracks(start, nodes, log2, res2) && Owned(nodeToOperator, nodes, log2)
        invariant Follows(start, nodes, before, log2)
        invariant Kept(old(nodeToOperator), nodeToOperator)
        invariant Placed(log2) == Rows(groups[..g]) + Row(groups[g], i)
      {
        var v := Vertex(Instance(groups[g].operator, i), groups[g].needs[i]);
        NextInRows(groups, g, i);
        ok, res2, log2 := AssignOne(start, before, Rows(groups), nodes, v, res2, log2);
        if !ok {
          return;
        }
        i := i + 1;
      }
      assert groups[..g + 1][..g] == groups[..g];
    }

    /** On success the log places every instance of every operator; on failure the next
        vertex fits no node that is free or its operator's own. */
    method AssignResources(nodes: seq<Node>, groups: seq<Group>)
      returns (res: Option<map<Instance, Node>>, ghost log: seq<Placement>)
      requires Separate(nodes) && DistinctOperators(groups)
      modifies this, nodes
      ensures Left(old(Have(nodes)), log) == Some(Have(nodes))
      ensures NotShared(nodes, log) && Owned(nodeToOperator, nodes, log)
      ensures Kept(old(nodeToOperator), nodeToOperator)
      ensures OwnFits(old(Have(nodes)), nodes, old(nodeToOperator), log)
      ensures nodeToOperator == Owners(old(nodeToOperator), nodes, log)
      ensures res.Some? ==> Placed(log) == Rows(groups) && Answers(res.value, nodes, log)
      ensures res.None? ==> NoneUsableFits(Rows(groups), nodes, log, nodeToOperator)
    {
      ghost var start := Have(nodes);
      log := [];
      var placed: map<Instance, Node> := map[];
      RowsDistinct(groups);
      NothingPlaced(nodes, 0);
      assert Rows(groups[..0]) == [];
      assert Owned(nodeToOperator, nodes, []);
      ghost var before := nodeToOperator;
      assert Follows(start, nodes, before, []);
      hide Owned, NotShared, DistinctIds, Rows, NoneUsableFits, Left, Answers, Have, Placed, OwnFits, Owners;
      var g := 0;
      while g < |groups|
        invariant g <= |groups|
        invariant Tracks(start, nodes, log, placed) && Owned(nodeToOperator, nodes, log)
        invariant Follows(start, nodes, before, log)
        invariant Kept(old(nodeToOperator), nodeToOperator)
        invariant Placed(log) == Rows(groups[..g])
      {
        var ok;
        ok, placed, log := AssignOperator(start, before, nodes, groups, g, placed, log);
        OwnedMeansNotShared(nodeToOperator, nodes, log);
        if !ok {
          return None, log;
        }
        g := g + 1;
      }
      assert groups[..g] == groups;
      OwnedMeansNotShared(nodeToOperator, nodes, log);
      res := Some(placed);
    }
  }

  /** What either strategy's success means: the answer names the wanted instances and no
      others, and each was placed once, on the node it is said to be on. */
  lemma EveryInstanceOnce(res: map<Instance, Node>, nodes: seq<Node>, log: seq<Placement>, groups: seq<Group>,
                          id: Instance)
    requires ListsAll(Placed(log), groups) && Answers(res, nodes, log)
    ensures id in res <==> exists need :: Wanted(groups, Vertex(id, need))
    ensures forall a, b | 0 <= a < b < |log| :: log[a].id != log[b].id
    ensures forall a | 0 <= a < |log| && log[a].id == id ::
              id in res && log[a].node < |nodes| && res[id] == nodes[log[a].node]
  {
    forall a, b | 0 <= a < b < |log|
      ensures log[a].id != log[b].id
    {
      assert Placed(log)[a].id != Placed(log)[b].id;
    }
    if id in res {
      var i :| 0 <= i < |log| && log[i].id == id;
      assert Placed(log)[i] in Placed(log);
      assert Wanted(groups, Vertex(id, log[i].need));
    }
    if need :| Wanted(groups, Vertex(id, need)) {
      assert Vertex(id, need) in Placed(log);
    }
  }
}
