/** Placing parallel instances on cluster nodes by their resources. A log of placements is
    judged independently of the strategy that made it: every placement must fit what its
    predecessors left. */
module NodeAssignment {
  import opened Wrappers
  import opened ExecutionGraph

  datatype Kind = Cpu | Gpu | Memory

  datatype Resources = Resources(cpus: Option<real>, gpus: Option<real>, memory: Option<real>)

  function Amount(r: Resources, k: Kind): (a: Option<real>) {
    match k
    case Cpu => r.cpus
    case Gpu => r.gpus
    case Memory => r.memory
  }

  function EnoughOf(need: Option<real>, have: Option<real>): bool {
    need.Some? ==> have.Some? && need.value <= have.value
  }

  predicate HasEnough(need: Resources, have: Resources) {
    EnoughOf(need.cpus, have.cpus) && EnoughOf(need.memory, have.memory) && EnoughOf(need.gpus, have.gpus)
  }

  function Minus(have: Option<real>, need: Option<real>): (left: Option<real>)
    requires need.Some? ==> have.Some?
  {
    if need.Some? then Some(have.value - need.value) else have
  }

  /** What an acquisition asserts: whatever is asked for is there at all. */
  predicate Acquirable(have: Resources, need: Resources) {
    && (need.cpus.Some? ==> have.cpus.Some?)
    && (need.memory.Some? ==> have.memory.Some?)
    && (need.gpus.Some? ==> have.gpus.Some?)
  }

  function Acquired(have: Resources, need: Resources): (left: Resources)
    requires Acquirable(have, need)
  {
    Resources(Minus(have.cpus, need.cpus), Minus(have.gpus, need.gpus), Minus(have.memory, need.memory))
  }

  // ------------------------------------------------------------------ logs of placements

  /** The instance, what it needs, and the index of its node. */
  datatype Placement = Placement(id: Instance, need: Resources, node: nat)

  /** What the nodes have left after a log, or `None` if some placement did not fit. */
  ghost function Left(start: seq<Resources>, log: seq<Placement>): (left: Option<seq<Resources>>)
    ensures left.Some? ==> |left.value| == |start|
  {
    if log == [] then Some(start)
    else
      var p := log[|log| - 1];
      match Left(start, log[..|log| - 1])
      case None => None
      case Some(have) =>
        if p.node < |have| && HasEnough(p.need, have[p.node])
        then Some(have[p.node := Acquired(have[p.node], p.need)])
        else None
  }

  ghost function OrZero(a: Option<real>): real {
    if a.Some? then a.value else 0.0
  }

  /** The total that a log assigns to node `j` of resource `k`. */
  ghost function Assigned(log: seq<Placement>, j: nat, k: Kind): real {
    if log == [] then 0.0
    else
      var p := log[|log| - 1];
      Assigned(log[..|log| - 1], j, k) + if p.node == j then OrZero(Amount(p.need, k)) else 0.0
  }

  ghost predicate ConservedAt(start: Resources, left: Resources, given: real, k: Kind) {
    && (Amount(start, k).Some? <==> Amount(left, k).Some?)
    && OrZero(Amount(start, k)) == OrZero(Amount(left, k)) + given
    && (OrZero(Amount(start, k)) >= 0.0 ==> OrZero(Amount(left, k)) >= 0.0)
  }

  lemma AcquireConserves(start: Resources, have: Resources, need: Resources, given: real, k: Kind)
    requires ConservedAt(start, have, given, k) && HasEnough(need, have)
    ensures Acquirable(have, need)
    ensures ConservedAt(start, Acquired(have, need), given + OrZero(Amount(need, k)), k)
  {
  }

  /** A node has enough exactly when everything asked for is there and acquiring it leaves
      nothing below zero; so an exact fit is enough. */
  lemma EnoughIff(have: Resources, need: Resources)
    ensures HasEnough(need, have) <==>
            && Acquirable(have, need)
            && forall k: Kind :: Amount(need, k).Some? ==>
                 Amount(Acquired(have, need), k).Some? && Amount(Acquired(have, need), k).value >= 0.0
  {
    if Acquirable(have, need) {
      var left := Acquired(have, need);
      assert Amount(left, Cpu) == left.cpus && Amount(need, Cpu) == need.cpus;
      assert Amount(left, Gpu) == left.gpus && Amount(need, Gpu) == need.gpus;
      assert Amount(left, Memory) == left.memory && Amount(need, Memory) == need.memory;
    }
  }

  /** For every log of fitting placements, every node and every resource: what was there
      initially is what is left plus what was assigned, and nothing gets below zero. */
  lemma {:induction false} ResourcesConserved(start: seq<Resources>, log: seq<Placement>, j: nat, k: Kind)
    requires Left(start, log).Some? && j < |start|
    ensures ConservedAt(start[j], Left(start, log).value[j], Assigned(log, j, k), k)
    decreases |log|
  {
    if log != [] {
      var p, before := log[|log| - 1], log[..|log| - 1];
      ResourcesConserved(start, before, j, k);
      var have := Left(start, before).value;
      hide ConservedAt;
      if p.node == j {
        AcquireConserves(start[j], have[j], p.need, Assigned(before, j, k), k);
      }
    }
  }

  lemma LeftAppend(start: seq<Resources>, log: seq<Placement>, p: Placement)
    requires Left(start, log).Some? && p.node < |start| && HasEnough(p.need, Left(start, log).value[p.node])
    ensures var have := Left(start, log).value;
            Left(start, log + [p]) == Some(have[p.node := Acquired(have[p.node], p.need)])
  {
    assert (log + [p])[..|log|] == log;
  }

  // ------------------------------------------------------------------ what is to be placed

  /** The parallel instances of one operator, by index. */
  datatype Group = Group(operator: nat, needs: seq<Resources>)

  datatype Vertex = Vertex(id: Instance, need: Resources)

  ghost predicate DistinctOperators(groups: seq<Group>) {
    forall a, b | 0 <= a < b < |groups| :: groups[a].operator != groups[b].operator
  }

  ghost predicate Wanted(groups: seq<Group>, v: Vertex) {
    exists a :: 0 <= a < |groups| && groups[a].operator == v.id.vertex
      && v.id.index < |groups[a].needs| && groups[a].needs[v.id.index] == v.need
  }

  /** Every instance is listed, once, and nothing else. */
  ghost predicate ListsAll(order: seq<Vertex>, groups: seq<Group>) {
    && (forall v :: v in order <==> Wanted(groups, v))
    && DistinctIds(order)
  }

  ghost predicate DistinctIds(order: seq<Vertex>) {
    forall x, y | 0 <= x < y < |order| :: order[x].id != order[y].id
  }

  /** The `i`-th instances of the groups. */
  function Column(groups: seq<Group>, i: nat): (vs: seq<Vertex>) {
    if groups == [] then []
    else
      var g := groups[|groups| - 1];
      Column(groups[..|groups| - 1], i)
      + if i < |g.needs| then [Vertex(Instance(g.operator, i), g.needs[i])] else []
  }

  /** Column by column, for `n` rounds. */
  function Rounds(groups: seq<Group>, n: nat): (vs: seq<Vertex>) {
    if n == 0 then [] else Rounds(groups, n - 1) + Column(groups, n - 1)
  }

  /** The first `n` instances of a group. */
  function Row(g: Group, n: nat): (vs: seq<Vertex>)
    requires n <= |g.needs|
    ensures |vs| == n
    ensures forall i | 0 <= i < n :: vs[i] == Vertex(Instance(g.operator, i), g.needs[i])
  {
    seq(n, i requires 0 <= i < n => Vertex(Instance(g.operator, i), g.needs[i]))
  }

  /** Group by group. */
  function Rows(groups: seq<Group>): (vs: seq<Vertex>) {
    if groups == [] then []
    else Rows(groups[..|groups| - 1]) + Row(groups[|groups| - 1], |groups[|groups| - 1].needs|)
  }

  lemma WantedFront(groups: seq<Group>, v: Vertex)
    requires groups != []
    ensures var n := |groups| - 1;
            Wanted(groups, v) <==> Wanted(groups[..n], v) || Wanted([groups[n]], v)
  {
    var n := |groups| - 1;
    assert groups == groups[..n] + [groups[n]];
    if Wanted([groups[n]], v) {
      assert groups[n].operator == v.id.vertex;
    }
    if Wanted(groups[..n], v) {
      var a :| 0 <= a < n && groups[..n][a].operator == v.id.vertex
        && v.id.index < |groups[..n][a].needs| && groups[..n][a].needs[v.id.index] == v.need;
      assert groups[a] == groups[..n][a];
    }
    if Wanted(groups, v) {
      var a :| 0 <= a < |groups| && groups[a].operator == v.id.vertex
        && v.id.index < |groups[a].needs| && groups[a].needs[v.id.index] == v.need;
      if a < n {
        assert groups[a] == groups[..n][a];
      } else {
        assert groups[a] == [groups[n]][0];
      }
    }
  }

  lemma {:induction false} ColumnLists(groups: seq<Group>, i: nat, v: Vertex)
    ensures v in Column(groups, i) <==> Wanted(groups, v) && v.id.index == i
    decreases |groups|
  {
    if groups != [] {
      var n := |groups| - 1;
      ColumnLists(groups[..n], i, v);
      WantedFront(groups, v);
      var g := groups[n];
      assert Wanted([g], v)
        <==> g.operator == v.id.vertex && v.id.index < |g.needs| && g.needs[v.id.index] == v.need by {
        assert [g][0] == g;
      }
    }
  }

  lemma {:induction false} RoundsList(groups: seq<Group>, n: nat, v: Vertex)
    ensures v in Rounds(groups, n) <==> Wanted(groups, v) && v.id.index < n
  {
    hide Wanted, Column;
    if n > 0 {
      RoundsList(groups, n - 1, v);
      ColumnLists(groups, n - 1, v);
      assert Rounds(groups, n) == Rounds(groups, n - 1) + Column(groups, n - 1);
    }
  }

  lemma DistinctConcat(a: seq<Vertex>, b: seq<Vertex>)
    requires DistinctIds(a) && DistinctIds(b)
    requires forall v, w | v in a && w in b :: v.id != w.id
    ensures DistinctIds(a + b)
  {
    var c := a + b;
    forall x, y | 0 <= x < y < |c|
      ensures c[x].id != c[y].id
    {
      if x < |a| <= y {
        assert a[x] in a && b[y - |a|] in b;
      }
    }
  }

  lemma OtherOperators(groups: seq<Group>, v: Vertex)
    requires groups != [] && DistinctOperators(groups) && Wanted(groups[..|groups| - 1], v)
    ensures v.id.vertex != groups[|groups| - 1].operator
  {
    var a :| 0 <= a < |groups| - 1 && groups[a].operator == v.id.vertex;
  }

  lemma {:induction false} ColumnDistinct(groups: seq<Group>, i: nat)
    requires DistinctOperators(groups)
    ensures DistinctIds(Column(groups, i))
    decreases |groups|
  {
    if groups != [] {
      var n := |groups| - 1;
      var g := groups[n];
      var last := if i < |g.needs| then [Vertex(Instance(g.operator, i), g.needs[i])] else [];
      ColumnDistinct(groups[..n], i);
      forall v | v in Column(groups[..n], i)
        ensures v.id.vertex != g.operator
      {
        ColumnLists(groups[..n], i, v);
        OtherOperators(groups, v);
      }
      DistinctConcat(Column(groups[..n], i), last);
    }
  }

  lemma {:induction false} RoundsDistinct(groups: seq<Group>, n: nat)
    requires DistinctOperators(groups)
    ensures DistinctIds(Rounds(groups, n))
  {
    if n > 0 {
      var before, column := Rounds(groups, n - 1), Column(groups, n - 1);
      assert Rounds(groups, n) == before + column;
      hide DistinctIds, Rounds, Column, Wanted;
      RoundsDistinct(groups, n - 1);
      ColumnDistinct(groups, n - 1);
      forall v | v in before
        ensures v.id.index < n - 1
      {
        RoundsList(groups, n - 1, v);
      }
      forall w | w in column
        ensures w.id.index == n - 1
      {
        ColumnLists(groups, n - 1, w);
      }
      DistinctConcat(before, column);
    }
  }

  /** Going round by round lists every instance once exactly when there are at least as
      many rounds as the largest parallelism. */
  lemma RoundsListAll(groups: seq<Group>, n: nat)
    requires DistinctOperators(groups)
    ensures ListsAll(Rounds(groups, n), groups) <==> forall a | 0 <= a < |groups| :: |groups[a].needs| <= n
  {
    hide DistinctIds, Rounds;
    RoundsDistinct(groups, n);
    forall v
      ensures v in Rounds(groups, n) <==> Wanted(groups, v) && v.id.index < n
    {
      RoundsList(groups, n, v);
    }
    if a :| 0 <= a < |groups| && |groups[a].needs| > n {
      var v := Vertex(Instance(groups[a].operator, n), groups[a].needs[n]);
      assert Wanted(groups, v);
      assert v !in Rounds(groups, n);
    }
  }

  /** Position `x` of the order is taken by an instance of the group at `a`. */
  ghost predicate FromGroup(order: seq<Vertex>, x: nat, groups: seq<Group>, a: nat) {
    x < |order| && a < |groups| && order[x].id.vertex == groups[a].operator
  }

  lemma FrontGroup(groups: seq<Group>, v: Vertex, a: nat)
    requires groups != [] && DistinctOperators(groups) && Wanted(groups[..|groups| - 1], v)
    requires a < |groups| && v.id.vertex == groups[a].operator
    ensures a < |groups| - 1
  {
    OtherOperators(groups, v);
  }

  lemma {:induction false} ColumnInOrder(groups: seq<Group>, i: nat, x: nat, y: nat, a: nat, b: nat)
    requires DistinctOperators(groups) && x < y
    requires FromGroup(Column(groups, i), x, groups, a) && FromGroup(Column(groups, i), y, groups, b)
    ensures a < b
    decreases |groups|
  {
    var n := |groups| - 1;
    var front := Column(groups[..n], i);
    assert Column(groups, i)[x] == front[x];
    ColumnLists(groups[..n], i, front[x]);
    hide Wanted;
    FrontGroup(groups, front[x], a);
    if y < |front| {
      ColumnLists(groups[..n], i, front[y]);
      FrontGroup(groups, front[y], b);
      ColumnInOrder(groups[..n], i, x, y, a, b);
    }
  }

  ghost predicate InOrder(v: Vertex, a: nat, w: Vertex, b: nat) {
    v.id.index < w.id.index || (v.id.index == w.id.index && a < b)
  }

  lemma ColumnBehind(groups: seq<Group>, n: nat, x: nat, y: nat, a: nat, b: nat)
    requires DistinctOperators(groups) && x < y && |Rounds(groups, n)| <= y
    requires var order := Rounds(groups, n) + Column(groups, n);
             FromGroup(order, x, groups, a) && FromGroup(order, y, groups, b)
    ensures var order := Rounds(groups, n) + Column(groups, n);
            InOrder(order[x], a, order[y], b)
  {
    hide Rounds, Column, Wanted, DistinctOperators;
    var before, column := Rounds(groups, n), Column(groups, n);
    ColumnLists(groups, n, column[y - |before|]);
    if x < |before| {
      RoundsList(groups, n, before[x]);
    } else {
      ColumnLists(groups, n, column[x - |before|]);
      ColumnInOrder(groups, n, x - |before|, y - |before|, a, b);
    }
  }

  /** Rounds go by index, and within a round by operator. */
  lemma {:induction false} RoundsInOrder(groups: seq<Group>, n: nat, x: nat, y: nat, a: nat, b: nat)
    requires DistinctOperators(groups) && x < y
    requires FromGroup(Rounds(groups, n), x, groups, a) && FromGroup(Rounds(groups, n), y, groups, b)
    ensures InOrder(Rounds(groups, n)[x], a, Rounds(groups, n)[y], b)
  {
    hide Column, Wanted, DistinctOperators, InOrder;
    if n > 0 {
      if y < |Rounds(groups, n - 1)| {
        RoundsInOrder(groups, n - 1, x, y, a, b);
      } else {
        ColumnBehind(groups, n - 1, x, y, a, b);
      }
    }
  }

  /** The other order goes by operator, and within an operator by index. */
  lemma {:induction false} RowsInOrder(groups: seq<Group>, x: nat, y: nat, a: nat, b: nat)
    requires DistinctOperators(groups) && x < y
    requires FromGroup(Rows(groups), x, groups, a) && FromGroup(Rows(groups), y, groups, b)
    ensures var order := Rows(groups);
            a < b || (a == b && order[x].id.index < order[y].id.index)
    decreases |groups|
  {
    var n := |groups| - 1;
    var front, row := Rows(groups[..n]), Row(groups[n], |groups[n].needs|);
    assert Rows(groups) == front + row;
    hide Rows, Wanted;
    if x < |front| {
      RowsList(groups[..n], front[x]);
      FrontGroup(groups, front[x], a);
      if y < |front| {
        RowsList(groups[..n], front[y]);
        FrontGroup(groups, front[y], b);
        RowsInOrder(groups[..n], x, y, a, b);
      }
    }
  }

  lemma RowLists(g: Group, v: Vertex)
    ensures v in Row(g, |g.needs|) <==> Wanted([g], v)
  {
    var row := Row(g, |g.needs|);
    assert [g][0] == g;
    if Wanted([g], v) {
      assert row[v.id.index] == v;
    }
  }

  lemma {:induction false} RowsList(groups: seq<Group>, v: Vertex)
    ensures v in Rows(groups) <==> Wanted(groups, v)
    decreases |groups|
  {
    if groups != [] {
      var n := |groups| - 1;
      hide Wanted, Row;
      RowsList(groups[..n], v);
      RowLists(groups[n], v);
      WantedFront(groups, v);
    } else {
      assert !Wanted(groups, v);
    }
  }

  lemma {:induction false} RowsDistinct(groups: seq<Group>)
    requires DistinctOperators(groups)
    ensures DistinctIds(Rows(groups))
    decreases |groups|
  {
    if groups != [] {
      var n := |groups| - 1;
      RowsDistinct(groups[..n]);
      var last := Row(groups[n], |groups[n].needs|);
      forall v, w | v in Rows(groups[..n]) && w in last
        ensures v.id != w.id
      {
        RowsList(groups[..n], v);
        OtherOperators(groups, v);
      }
      DistinctConcat(Rows(groups[..n]), last);
    }
  }

  /** Going operator by operator lists every instance once. */
  lemma RowsListAll(groups: seq<Group>)
    requires DistinctOperators(groups)
    ensures ListsAll(Rows(groups), groups)
  {
    hide DistinctIds, Rows;
    RowsDistinct(groups);
    forall v
      ensures v in Rows(groups) <==> Wanted(groups, v)
    {
      RowsList(groups, v);
    }
  }
}
