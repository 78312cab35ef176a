/** The join is one of the operators that may be split by key: it neither depends on the
    order of its inputs nor mixes keys. */
module JoinSplitting {
  import opened Bags
  import opened KeyedJoin
  import opened Chaining
  import opened GraphMeaning
  import opened Distribution
  import opened Splitting

  // ------------------------------------------------------------------ the plain join

  lemma LeftsAppend<K, V, T>(es: seq<Event<K, V, T>>, e: Event<K, V, T>)
    ensures Lefts(es + [e]) == Lefts(es) + if e.FromLeft? then [e.r] else []
    ensures Rights(es + [e]) == Rights(es) + if e.FromRight? then [e.r] else []
  {
    assert (es + [e])[..|es|] == es;
  }

  lemma {:induction false} LeftsConcat<K, V, T>(a: seq<Event<K, V, T>>, b: seq<Event<K, V, T>>)
    ensures Lefts(a + b) == Lefts(a) + Lefts(b) && Rights(a + b) == Rights(a) + Rights(b)
    decreases |b|
  {
    if b == [] {
      assert a + b == a;
    } else {
      var n := |b| - 1;
      assert a + b == a + b[..n] + [b[n]] && b == b[..n] + [b[n]];
      LeftsConcat(a, b[..n]);
      hide Lefts, Rights;
      LeftsAppend(a + b[..n], b[n]);
      LeftsAppend(b[..n], b[n]);
    }
  }

  lemma {:induction false} LeftsPermuted<K, V, T>(a: seq<Event<K, V, T>>, b: seq<Event<K, V, T>>)
    requires multiset(a) == multiset(b)
    ensures multiset(Lefts(a)) == multiset(Lefts(b)) && multiset(Rights(a)) == multiset(Rights(b))
    decreases |a|
  {
    if a == [] {
      EmptyBag(b);
    } else {
      var n, x := |a| - 1, a[|a| - 1];
      var i := RemoveOne(a, b);
      var before, after := b[..i], b[i + 1..];
      LeftsPermuted(a[..n], before + after);
      assert a == a[..n] + [x];
      hide Lefts, Rights;
      LeftsAppend(a[..n], x);
      LeftsConcat(before, after);
      LeftsConcat(before + [x], after);
      LeftsAppend(before, x);
      MiddleBag(Lefts(before), if x.FromLeft? then [x.r] else [], Lefts(after));
      MiddleBag(Rights(before), if x.FromRight? then [x.r] else [], Rights(after));
    }
  }

  lemma JoinIgnoresOrder<K, V, W, T>(f: (V, V) -> W, a: seq<Event<K, V, T>>, b: seq<Event<K, V, T>>)
    requires multiset(a) == multiset(b)
    ensures multiset(JoinRun(f, a).1) == multiset(JoinRun(f, b).1)
  {
    hide JoinRun, EquiJoin, Lefts, Rights;
    LeftsPermuted(a, b);
    JoinIsEquiJoin(f, a);
    JoinIsEquiJoin(f, b);
    EquiJoinPermuteLeft(f, Lefts(a), Lefts(b), Rights(a));
    EquiJoinPermuteRight(f, Lefts(b), Rights(a), Rights(b));
  }

  ghost predicate Apart<K, V, T>(ls: seq<KeyRecord<K, V, T>>, rs: seq<KeyRecord<K, V, T>>) {
    forall i, j | 0 <= i < |ls| && 0 <= j < |rs| :: ls[i].key != rs[j].key
  }

  lemma {:induction false} NoMatches<K, V, W, T>(f: (V, V) -> W, ls: seq<KeyRecord<K, V, T>>,
                                                 rs: seq<KeyRecord<K, V, T>>)
    requires Apart(ls, rs)
    ensures EquiJoin(f, ls, rs) == multiset{}
    decreases |ls|
  {
    if ls != [] {
      NoMatches(f, ls[..|ls| - 1], rs);
      NoMatch(f, ls[|ls| - 1], rs);
    }
  }

  lemma {:induction false} NoMatch<K, V, W, T>(f: (V, V) -> W, l: KeyRecord<K, V, T>, rs: seq<KeyRecord<K, V, T>>)
    requires forall j | 0 <= j < |rs| :: l.key != rs[j].key
    ensures Row(f, l, rs) == multiset{}
    decreases |rs|
  {
    if rs != [] {
      NoMatch(f, l, rs[..|rs| - 1]);
    }
  }

  lemma {:induction false} EquiJoinConcatRight<K, V, W, T>(f: (V, V) -> W, ls: seq<KeyRecord<K, V, T>>,
                                                           a: seq<KeyRecord<K, V, T>>, b: seq<KeyRecord<K, V, T>>)
    ensures EquiJoin(f, ls, a + b) == EquiJoin(f, ls, a) + EquiJoin(f, ls, b)
    decreases |ls|
  {
    hide Row;
    if ls != [] {
      EquiJoinConcatRight(f, ls[..|ls| - 1], a, b);
      RowConcat(f, ls[|ls| - 1], a, b);
    }
  }

  ghost predicate EventsApart<K, V, T>(a: seq<Event<K, V, T>>, b: seq<Event<K, V, T>>) {
    forall i, j | 0 <= i < |a| && 0 <= j < |b| :: a[i].r.key != b[j].r.key
  }

  lemma {:induction false} LeftIsEvent<K, V, T>(es: seq<Event<K, V, T>>, i: nat) returns (j: nat)
    requires i < |Lefts(es)|
    ensures j < |es| && es[j].r == Lefts(es)[i]
    decreases |es|
  {
    var n := |es| - 1;
    if i < |Lefts(es[..n])| {
      j := LeftIsEvent(es[..n], i);
    } else {
      j := n;
    }
  }

  lemma {:induction false} RightIsEvent<K, V, T>(es: seq<Event<K, V, T>>, i: nat) returns (j: nat)
    requires i < |Rights(es)|
    ensures j < |es| && es[j].r == Rights(es)[i]
    decreases |es|
  {
    var n := |es| - 1;
    if i < |Rights(es[..n])| {
      j := RightIsEvent(es[..n], i);
    } else {
      j := n;
    }
  }

  lemma SidesApart<K, V, T>(a: seq<Event<K, V, T>>, b: seq<Event<K, V, T>>)
    requires EventsApart(a, b) || EventsApart(b, a)
    ensures Apart(Lefts(a), Rights(b))
  {
    hide Lefts, Rights;
    forall i, j | 0 <= i < |Lefts(a)| && 0 <= j < |Rights(b)|
      ensures Lefts(a)[i].key != Rights(b)[j].key
    {
      var x := LeftIsEvent(a, i);
      var y := RightIsEvent(b, j);
    }
  }

  lemma JoinSplitsByKey<K, V, W, T>(f: (V, V) -> W, a: seq<Event<K, V, T>>, b: seq<Event<K, V, T>>)
    requires EventsApart(a, b)
    ensures multiset(JoinRun(f, a + b).1) == multiset(JoinRun(f, a).1) + multiset(JoinRun(f, b).1)
  {
    hide JoinRun, EquiJoin, Lefts, Rights, Apart;
    SidesApart(a, b);
    SidesApart(b, a);
    LeftsConcat(a, b);
    JoinIsEquiJoin(f, a + b);
    JoinIsEquiJoin(f, a);
    JoinIsEquiJoin(f, b);
    var la, lb, ra, rb := Lefts(a), Lefts(b), Rights(a), Rights(b);
    EquiJoinConcat(f, la, lb, ra + rb);
    EquiJoinConcatRight(f, la, ra, rb);
    EquiJoinConcatRight(f, lb, ra, rb);
    NoMatches(f, la, rb);
    NoMatches(f, lb, ra);
  }

  // ------------------------------------------------------------------ the join as an operator of a job

  /** The operator joins: `ev` reads a record of the job as a left or right record, `out`
      makes a record of the job from a joined one. */
  ghost predicate Joins<K(!new), V(!new), W, T(!new), R(!new)>(
    op: Operator<JoinState<K, V, T>, R>, f: (V, V) -> W, ev: R -> Event<K, V, T>, out: Joined<W, T> -> R)
  {
    forall s, r :: op.step(s, r) == (JoinStep(f, s, ev(r)).0, Mapped(out, JoinStep(f, s, ev(r)).1))
  }

  lemma {:induction false} RunConcat<S, R>(op: Operator<S, R>, s: S, a: seq<R>, b: seq<R>)
    ensures var first := RunOperator(op, s, a);
            var rest := RunOperator(op, first.0, b);
            RunOperator(op, s, a + b) == (rest.0, first.1 + rest.1)
    decreases |a|
  {
    if a == [] {
      assert a + b == b;
      assert [] + RunOperator(op, s, b).1 == RunOperator(op, s, b).1;
    } else {
      var first := op.step(s, a[0]);
      assert (a + b)[0] == a[0] && (a + b)[1..] == a[1..] + b;
      RunConcat(op, first.0, a[1..], b);
      var mid := RunOperator(op, first.0, a[1..]);
      var end := RunOperator(op, mid.0, b);
      assert first.1 + (mid.1 + end.1) == (first.1 + mid.1) + end.1;
    }
  }

  lemma {:induction false} JoinRuns<K(!new), V(!new), W, T(!new), R(!new)>(
    op: Operator<JoinState<K, V, T>, R>, f: (V, V) -> W, ev: R -> Event<K, V, T>, out: Joined<W, T> -> R, rs: seq<R>)
    requires Joins(op, f, ev, out)
    ensures var r := JoinRun(f, Mapped(ev, rs));
            RunOperator(op, JoinState(map[], map[]), rs) == (r.0, Mapped(out, r.1))
    decreases |rs|
  {
    var start: JoinState<K, V, T> := JoinState(map[], map[]);
    if rs != [] {
      var n := |rs| - 1;
      var front, x := rs[..n], rs[n];
      JoinRuns(op, f, ev, out, front);
      assert rs == front + [x];
      RunConcat(op, start, front, [x]);
      var es := Mapped(ev, front);
      assert Mapped(ev, rs)[..n] == es && Mapped(ev, rs)[n] == ev(x);
      var before := JoinRun(f, es);
      RunOne(op, before.0, x);
      var after := JoinStep(f, before.0, ev(x));
      hide JoinStep, RunOperator;
      MappedConcat(out, before.1, after.1);
    }
  }

  lemma RunOne<S, R>(op: Operator<S, R>, s: S, x: R)
    ensures RunOperator(op, s, [x]) == op.step(s, x)
  {
    var first := op.step(s, x);
    assert RunOperator(op, first.0, []) == (first.0, []);
    assert [x][1..] == [] && first.1 + [] == first.1;
  }

  /** A join whose inputs come by key may be split by key. */
  lemma JoinMaySplit<K(!new), V(!new), W, T(!new), R(!new)>(
    m: Job<JoinState<K, V, T>, R>, v: nat, f: (V, V) -> W, ev: R -> Event<K, V, T>, out: Joined<W, T> -> R)
    requires Joins(m.operator(v), f, ev, out) && m.init(v) == JoinState(map[], map[])
    ensures OrderFree(m, [v]) && KeyAdditive(m, r => ev(r).r.key, [v])
  {
    hide RunVertex, Mapped, JoinRun, Joins;
    forall a: seq<R>, b: seq<R> | multiset(a) == multiset(b)
      ensures multiset(RunVertex(m, [v], a)) == multiset(RunVertex(m, [v], b))
    {
      JoinVertex(m, v, f, ev, out, a);
      JoinVertex(m, v, f, ev, out, b);
      MappedPermuted(ev, a, b);
      JoinIgnoresOrder(f, Mapped(ev, a), Mapped(ev, b));
      MappedPermuted(out, JoinRun(f, Mapped(ev, a)).1, JoinRun(f, Mapped(ev, b)).1);
    }
    forall a: seq<R>, b: seq<R> | NoCommonKey(r => ev(r).r.key, a, b)
      ensures multiset(RunVertex(m, [v], a + b)) == multiset(RunVertex(m, [v], a)) + multiset(RunVertex(m, [v], b))
    {
      JoinAdds(m, v, f, ev, out, a, b);
    }
  }

  lemma JoinVertex<K(!new), V(!new), W, T(!new), R(!new)>(
    m: Job<JoinState<K, V, T>, R>, v: nat, f: (V, V) -> W, ev: R -> Event<K, V, T>, out: Joined<W, T> -> R, rs: seq<R>)
    requires Joins(m.operator(v), f, ev, out) && m.init(v) == JoinState(map[], map[])
    ensures RunVertex(m, [v], rs) == Mapped(out, JoinRun(f, Mapped(ev, rs)).1)
  {
    assert Operators(m, [v]) == [m.operator(v)] && Inits(m, [v]) == [m.init(v)];
    hide PushAll, JoinRun, RunOperator, Mapped, Joins;
    PushAllOne(m.operator(v), m.init(v), rs);
    JoinRuns(m.operator(v), f, ev, out, rs);
  }

  lemma JoinAdds<K(!new), V(!new), W, T(!new), R(!new)>(
    m: Job<JoinState<K, V, T>, R>, v: nat, f: (V, V) -> W, ev: R -> Event<K, V, T>, out: Joined<W, T> -> R,
    a: seq<R>, b: seq<R>)
    requires Joins(m.operator(v), f, ev, out) && m.init(v) == JoinState(map[], map[])
    requires NoCommonKey(r => ev(r).r.key, a, b)
    ensures multiset(RunVertex(m, [v], a + b)) == multiset(RunVertex(m, [v], a)) + multiset(RunVertex(m, [v], b))
  {
    assert EventsApart(Mapped(ev, a), Mapped(ev, b));
    hide RunVertex, JoinRun, Joins, Mapped, EventsApart, NoCommonKey;
    JoinVertex(m, v, f, ev, out, a + b);
    JoinVertex(m, v, f, ev, out, a);
    JoinVertex(m, v, f, ev, out, b);
    MappedConcat(ev, a, b);
    var ja, jb := JoinRun(f, Mapped(ev, a)).1, JoinRun(f, Mapped(ev, b)).1;
    JoinSplitsByKey(f, Mapped(ev, a), Mapped(ev, b));
    MappedPermuted(out, JoinRun(f, Mapped(ev, a + b)).1, ja + jb);
    MappedConcat(out, ja, jb);
  }
}
