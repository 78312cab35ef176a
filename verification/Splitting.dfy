/** Which operators may be split over parallel instances: those whose outputs, as a
    multiset, do not depend on the order of the inputs and add up when the inputs are
    divided, be it in any way or only by key. */
module Splitting {
  import opened Bags
  import opened Chaining
  import opened GraphMeaning

  ghost predicate OrderFree<S, R(!new)>(m: Job<S, R>, ids: seq<nat>) {
    forall a: seq<R>, b: seq<R> | multiset(a) == multiset(b) ::
      multiset(RunVertex(m, ids, a)) == multiset(RunVertex(m, ids, b))
  }

  ghost predicate Additive<S, R(!new)>(m: Job<S, R>, ids: seq<nat>) {
    forall a: seq<R>, b: seq<R> ::
      multiset(RunVertex(m, ids, a + b)) == multiset(RunVertex(m, ids, a)) + multiset(RunVertex(m, ids, b))
  }

  ghost predicate NoCommonKey<R, K>(key: R -> K, a: seq<R>, b: seq<R>) {
    forall i, j | 0 <= i < |a| && 0 <= j < |b| :: key(a[i]) != key(b[j])
  }

  ghost predicate KeyAdditive<S, R(!new), K>(m: Job<S, R>, key: R -> K, ids: seq<nat>) {
    forall a: seq<R>, b: seq<R> | NoCommonKey(key, a, b) ::
      multiset(RunVertex(m, ids, a + b)) == multiset(RunVertex(m, ids, a)) + multiset(RunVertex(m, ids, b))
  }

  /** Two lists of operators one after the other. */
  lemma OrderFreeCons<S, R(!new)>(m: Job<S, R>, id: nat, ids: seq<nat>)
    requires OrderFree(m, [id]) && OrderFree(m, ids)
    ensures OrderFree(m, [id] + ids)
  {
    hide RunVertex;
    forall a: seq<R>, b: seq<R> | multiset(a) == multiset(b)
      ensures multiset(RunVertex(m, [id] + ids, a)) == multiset(RunVertex(m, [id] + ids, b))
    {
      RunVertexCons(m, id, ids, a);
      RunVertexCons(m, id, ids, b);
    }
  }

  lemma AddsCons<S, R(!new)>(m: Job<S, R>, id: nat, ids: seq<nat>, a: seq<R>, b: seq<R>)
    requires OrderFree(m, ids) && Additive(m, ids)
    requires multiset(RunVertex(m, [id], a + b)) == multiset(RunVertex(m, [id], a)) + multiset(RunVertex(m, [id], b))
    ensures multiset(RunVertex(m, [id] + ids, a + b))
         == multiset(RunVertex(m, [id] + ids, a)) + multiset(RunVertex(m, [id] + ids, b))
  {
    hide RunVertex;
    RunVertexCons(m, id, ids, a + b);
    RunVertexCons(m, id, ids, a);
    RunVertexCons(m, id, ids, b);
    var x, y, xy := RunVertex(m, [id], a), RunVertex(m, [id], b), RunVertex(m, [id], a + b);
    assert multiset(xy) == multiset(x + y);
    assert multiset(RunVertex(m, ids, xy)) == multiset(RunVertex(m, ids, x + y));
    assert multiset(RunVertex(m, ids, x + y)) == multiset(RunVertex(m, ids, x)) + multiset(RunVertex(m, ids, y));
  }

  lemma AdditiveCons<S, R(!new)>(m: Job<S, R>, id: nat, ids: seq<nat>)
    requires Additive(m, [id]) && OrderFree(m, ids) && Additive(m, ids)
    ensures Additive(m, [id] + ids)
  {
    hide RunVertex;
    forall a: seq<R>, b: seq<R>
      ensures multiset(RunVertex(m, [id] + ids, a + b))
           == multiset(RunVertex(m, [id] + ids, a)) + multiset(RunVertex(m, [id] + ids, b))
    {
      AddsCons(m, id, ids, a, b);
    }
  }

  lemma KeyAdditiveCons<S, R(!new), K>(m: Job<S, R>, key: R -> K, id: nat, ids: seq<nat>)
    requires KeyAdditive(m, key, [id]) && OrderFree(m, ids) && Additive(m, ids)
    ensures KeyAdditive(m, key, [id] + ids)
  {
    hide RunVertex, NoCommonKey;
    forall a: seq<R>, b: seq<R> | NoCommonKey(key, a, b)
      ensures multiset(RunVertex(m, [id] + ids, a + b))
           == multiset(RunVertex(m, [id] + ids, a)) + multiset(RunVertex(m, [id] + ids, b))
    {
      AddsCons(m, id, ids, a, b);
    }
  }

  // ------------------------------------------------------------------ several parts

  /** What the parts give, each run by itself from the initial states. */
  ghost function RunParts<S, R>(m: Job<S, R>, ids: seq<nat>, parts: seq<seq<R>>): (r: seq<seq<R>>)
    ensures |r| == |parts|
    ensures forall i | 0 <= i < |parts| :: r[i] == RunVertex(m, ids, parts[i])
  {
    seq(|parts|, i requires 0 <= i < |parts| => RunVertex(m, ids, parts[i]))
  }

  lemma RunPartsFront<S, R>(m: Job<S, R>, ids: seq<nat>, parts: seq<seq<R>>)
    requires parts != []
    ensures var n := |parts| - 1;
            && multiset(Flatten(RunParts(m, ids, parts)))
               == multiset(Flatten(RunParts(m, ids, parts[..n]))) + multiset(RunVertex(m, ids, parts[n]))
            && Flatten(parts) == Flatten(parts[..n]) + parts[n]
  {
    hide RunVertex;
    var n := |parts| - 1;
    var outs := RunParts(m, ids, parts);
    assert outs[..n] == RunParts(m, ids, parts[..n]) && outs[n] == RunVertex(m, ids, parts[n]);
    hide RunParts;
    assert Flatten(outs) == Flatten(outs[..n]) + outs[n];
  }

  lemma RunNothing<S, R>(m: Job<S, R>, ids: seq<nat>)
    ensures RunVertex(m, ids, []) == []
  {
  }

  lemma {:induction false} AdditiveParts<S, R(!new)>(m: Job<S, R>, ids: seq<nat>, parts: seq<seq<R>>)
    requires Additive(m, ids)
    ensures multiset(Flatten(RunParts(m, ids, parts))) == multiset(RunVertex(m, ids, Flatten(parts)))
    decreases |parts|
  {
    if parts == [] {
      RunNothing(m, ids);
    } else {
      hide RunVertex, RunParts;
      var n := |parts| - 1;
      AdditiveParts(m, ids, parts[..n]);
      RunPartsFront(m, ids, parts);
    }
  }

  /** The records of part `i` are those that `choice` sends to `i`. */
  ghost predicate Separated<R, K>(key: R -> K, choice: K -> nat, parts: seq<seq<R>>) {
    forall i, j | 0 <= i < |parts| && 0 <= j < |parts[i]| :: choice(key(parts[i][j])) == i
  }

  lemma {:induction false} FlattenChoice<R, K>(key: R -> K, choice: K -> nat, parts: seq<seq<R>>, j: nat)
    requires Separated(key, choice, parts) && j < |Flatten(parts)|
    ensures choice(key(Flatten(parts)[j])) < |parts|
    decreases |parts|
  {
    var n := |parts| - 1;
    var front := parts[..n];
    if j < |Flatten(front)| {
      FlattenChoice(key, choice, front, j);
    } else {
      assert Flatten(parts)[j] == parts[n][j - |Flatten(front)|];
    }
  }

  lemma {:induction false} KeyAdditiveParts<S, R(!new), K>(m: Job<S, R>, key: R -> K, choice: K -> nat, ids: seq<nat>,
                                                           parts: seq<seq<R>>)
    requires KeyAdditive(m, key, ids) && Separated(key, choice, parts)
    ensures multiset(Flatten(RunParts(m, ids, parts))) == multiset(RunVertex(m, ids, Flatten(parts)))
    decreases |parts|
  {
    if parts == [] {
      RunNothing(m, ids);
    } else {
      hide RunVertex, RunParts;
      var n := |parts| - 1;
      var front := parts[..n];
      KeyAdditiveParts(m, key, choice, ids, front);
      RunPartsFront(m, ids, parts);
      forall i, j | 0 <= i < |Flatten(front)| && 0 <= j < |parts[n]|
        ensures key(Flatten(front)[i]) != key(parts[n][j])
      {
        FlattenChoice(key, choice, front, i);
      }
      assert NoCommonKey(key, Flatten(front), parts[n]);
    }
  }

  // ------------------------------------------------------------------ operators without state

  /** The outputs of an operator that treats every record by itself. */
  ghost function Each<R>(f: R -> seq<R>, rs: seq<R>): seq<R> {
    if rs == [] then [] else f(rs[0]) + Each(f, rs[1..])
  }

  ghost predicate Stateless<S(!new), R(!new)>(op: Operator<S, R>, f: R -> seq<R>) {
    forall s, r :: op.step(s, r) == (s, f(r))
  }

  lemma {:induction false} StatelessRuns<S(!new), R(!new)>(op: Operator<S, R>, f: R -> seq<R>, s: S, rs: seq<R>)
    requires Stateless(op, f)
    ensures RunOperator(op, s, rs) == (s, Each(f, rs))
    decreases |rs|
  {
    if rs != [] {
      StatelessRuns(op, f, s, rs[1..]);
    }
  }

  lemma {:induction false} EachConcat<R>(f: R -> seq<R>, a: seq<R>, b: seq<R>)
    ensures Each(f, a + b) == Each(f, a) + Each(f, b)
    decreases |a|
  {
    if a == [] {
      assert a + b == b;
    } else {
      assert (a + b)[0] == a[0] && (a + b)[1..] == a[1..] + b;
      EachConcat(f, a[1..], b);
    }
  }

  lemma {:induction false} EachPermuted<R>(f: R -> seq<R>, a: seq<R>, b: seq<R>)
    requires multiset(a) == multiset(b)
    ensures multiset(Each(f, a)) == multiset(Each(f, b))
    decreases |a|
  {
    if a == [] {
      EmptyBag(b);
    } else {
      var n := |a| - 1;
      var i := RemoveOne(a, b);
      EachPermuted(f, a[..n], b[..i] + b[i + 1..]);
      EachWithout(f, b, i);
      assert a[..n] + a[n + 1..] == a[..n];
      EachWithout(f, a, n);
      assert b[i] == a[n];
    }
  }

  lemma EachAround<R>(f: R -> seq<R>, a: seq<R>, r: R, b: seq<R>)
    ensures Each(f, a + [r] + b) == Each(f, a) + f(r) + Each(f, b)
  {
    assert Each(f, [r]) == f(r) by {
      assert [r][1..] == [] && f(r) + [] == f(r);
    }
    hide Each;
    EachConcat(f, a + [r], b);
    EachConcat(f, a, [r]);
  }

  lemma EachWithout<R>(f: R -> seq<R>, t: seq<R>, i: nat)
    requires i < |t|
    ensures multiset(Each(f, t)) == multiset(Each(f, t[..i] + t[i + 1..])) + multiset(f(t[i]))
  {
    hide Each;
    var before, after := t[..i], t[i + 1..];
    assert t == before + [t[i]] + after;
    EachAround(f, before, t[i], after);
    EachConcat(f, before, after);
    MiddleBag(Each(f, before), f(t[i]), Each(f, after));
  }

  /** Maps, filters, flat maps and key-bys may be split in any way. */
  lemma StatelessSplits<S(!new), R(!new)>(m: Job<S, R>, v: nat, f: R -> seq<R>)
    requires Stateless(m.operator(v), f)
    ensures OrderFree(m, [v]) && Additive(m, [v])
  {
    forall rs: seq<R>
      ensures RunVertex(m, [v], rs) == Each(f, rs)
    {
      StatelessVertex(m, v, f, rs);
    }
    hide RunVertex, Each;
    forall a: seq<R>, b: seq<R> | multiset(a) == multiset(b)
      ensures multiset(Each(f, a)) == multiset(Each(f, b))
    {
      EachPermuted(f, a, b);
    }
    forall a: seq<R>, b: seq<R>
      ensures Each(f, a + b) == Each(f, a) + Each(f, b)
    {
      EachConcat(f, a, b);
    }
  }

  lemma StatelessVertex<S(!new), R(!new)>(m: Job<S, R>, v: nat, f: R -> seq<R>, rs: seq<R>)
    requires Stateless(m.operator(v), f)
    ensures RunVertex(m, [v], rs) == Each(f, rs)
  {
    assert Operators(m, [v]) == [m.operator(v)] && Inits(m, [v]) == [m.init(v)];
    hide PushAll;
    PushAllOne(m.operator(v), m.init(v), rs);
    StatelessRuns(m.operator(v), f, m.init(v), rs);
  }
}
