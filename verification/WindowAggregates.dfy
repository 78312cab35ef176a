/** The aggregates that a window emits: an accumulator folded over the window's records,
    proved to be the direct aggregate of the recent records of the key. */
module WindowAggregates {
  import opened Bags
  import opened SlidingWindows

  datatype AggType = Max | Min | Count | Sum | Avg

  /** One accumulator update; `v` is the aggregated-on value of the record. */
  function Added(kind: AggType, v: real, aggs: map<AggType, real>): (a: map<AggType, real>) {
    match kind
    case Min => aggs[Min := if Min in aggs && aggs[Min] <= v then aggs[Min] else v]
    case Max => aggs[Max := if Max in aggs && aggs[Max] >= v then aggs[Max] else v]
    case Count => aggs[Count := if Count in aggs then aggs[Count] + 1.0 else 1.0]
    case Sum => aggs[Sum := if Sum in aggs then aggs[Sum] + v else v]
    case Avg =>
      var counted := aggs[Count := if Count in aggs then aggs[Count] + 1.0 else 1.0];
      var summed := counted[Sum := if Sum in counted then counted[Sum] + v else v];
      summed[Avg := if summed[Count] == 0.0 then 0.0 else summed[Sum] / summed[Count]]
  }

  class Accumulator {
    var aggs: map<AggType, real>

    constructor ()
      ensures aggs == map[]
    {
      aggs := map[];
    }

    /** In-place update, branch by branch. */
    method Add(kind: AggType, v: real)
      requires kind == Avg && Count in aggs ==> aggs[Count] >= 0.0
      modifies this
      ensures aggs == Added(kind, v, old(aggs))
    {
      if kind == Min {
        if Min in aggs {
          aggs := aggs[Min := if v < aggs[Min] then v else aggs[Min]];
        } else {
          aggs := aggs[Min := v];
        }
      }
      if kind == Max {
        if Max in aggs {
          aggs := aggs[Max := if v > aggs[Max] then v else aggs[Max]];
        } else {
          aggs := aggs[Max := v];
        }
      }
      if kind == Count || kind == Avg {
        aggs := aggs[Count := if Count in aggs then aggs[Count] + 1.0 else 1.0];
        if kind == Count {
          return;
        }
      }
      if kind == Sum || kind == Avg {
        aggs := aggs[Sum := if Sum in aggs then aggs[Sum] + v else v];
        if kind == Avg {
          aggs := aggs[Avg := aggs[Sum] / aggs[Count]];
        }
      }
    }
  }

  // ------------------------------------------------------------------ the direct aggregate

  ghost function Total(vs: seq<real>): real {
    if vs == [] then 0.0 else Total(vs[..|vs| - 1]) + vs[|vs| - 1]
  }

  ghost predicate IsAggregate(kind: AggType, vs: seq<real>, a: real) {
    match kind
    case Count => a == |vs| as real
    case Sum => a == Total(vs)
    case Avg => vs != [] && a * (|vs| as real) == Total(vs)
    case Min => a in vs && forall i | 0 <= i < |vs| :: a <= vs[i]
    case Max => a in vs && forall i | 0 <= i < |vs| :: a >= vs[i]
  }

  /** What the accumulator says after the values `vs`. */
  ghost predicate Accumulated(kind: AggType, vs: seq<real>, aggs: map<AggType, real>) {
    if vs == [] then aggs == map[]
    else
      && kind in aggs && IsAggregate(kind, vs, aggs[kind])
      && aggs.Keys == (if kind == Avg then {Count, Sum, Avg} else {kind})
      && (kind == Avg ==> IsAggregate(Count, vs, aggs[Count]) && IsAggregate(Sum, vs, aggs[Sum]))
  }

  lemma TotalAppend(vs: seq<real>, v: real)
    ensures Total(vs + [v]) == Total(vs) + v
  {
    assert (vs + [v])[..|vs|] == vs;
  }

  lemma CountKept(vs: seq<real>, v: real, aggs: map<AggType, real>)
    requires Accumulated(Count, vs, aggs)
    ensures Accumulated(Count, vs + [v], Added(Count, v, aggs))
  {
  }

  lemma SumKept(vs: seq<real>, v: real, aggs: map<AggType, real>)
    requires Accumulated(Sum, vs, aggs)
    ensures Accumulated(Sum, vs + [v], Added(Sum, v, aggs))
  {
    assert Total([]) == 0.0;
    hide Total;
    TotalAppend(vs, v);
  }

  lemma AvgKept(vs: seq<real>, v: real, aggs: map<AggType, real>)
    requires Accumulated(Avg, vs, aggs)
    ensures Accumulated(Avg, vs + [v], Added(Avg, v, aggs))
  {
    assert Total([]) == 0.0;
    hide Total;
    TotalAppend(vs, v);
    var next := Added(Avg, v, aggs);
    assert next[Count] == |vs + [v]| as real && next[Sum] == Total(vs + [v]);
    assert next[Avg] == next[Sum] / next[Count];
  }

  lemma LeastKept(vs: seq<real>, v: real, aggs: map<AggType, real>)
    requires Accumulated(Min, vs, aggs)
    ensures Accumulated(Min, vs + [v], Added(Min, v, aggs))
  {
    assert (vs + [v])[|vs|] == v;
  }

  lemma GreatestKept(vs: seq<real>, v: real, aggs: map<AggType, real>)
    requires Accumulated(Max, vs, aggs)
    ensures Accumulated(Max, vs + [v], Added(Max, v, aggs))
  {
    assert (vs + [v])[|vs|] == v;
  }

  /** The accumulator after a whole list of values. */
  function Folded(kind: AggType, vs: seq<real>): (aggs: map<AggType, real>) {
    if vs == [] then map[] else Added(kind, vs[|vs| - 1], Folded(kind, vs[..|vs| - 1]))
  }

  /** Folding computes the direct aggregate. */
  lemma {:induction false} FoldIsAggregate(kind: AggType, vs: seq<real>)
    ensures Accumulated(kind, vs, Folded(kind, vs))
    decreases |vs|
  {
    if vs != [] {
      var front, v := vs[..|vs| - 1], vs[|vs| - 1];
      FoldIsAggregate(kind, front);
      var aggs := Folded(kind, front);
      hide Added, Accumulated;
      match kind {
        case Count => CountKept(front, v, aggs);
        case Sum => SumKept(front, v, aggs);
        case Avg => AvgKept(front, v, aggs);
        case Min => LeastKept(front, v, aggs);
        case Max => GreatestKept(front, v, aggs);
      }
      assert front + [v] == vs;
    }
  }

  /** The aggregated-on values of records. */
  function Values<V>(on: V -> real, s: seq<Rec<V>>): (vs: seq<real>)
    ensures |vs| == |s|
  {
    if s == [] then [] else Values(on, s[..|s| - 1]) + [on(s[|s| - 1].value)]
  }

  /** The window function: one accumulator, fed record by record. */
  method Apply<V>(kind: AggType, on: V -> real, records: seq<Rec<V>>) returns (acc: Accumulator)
    ensures fresh(acc)
    ensures acc.aggs == Folded(kind, Values(on, records))
    ensures Accumulated(kind, Values(on, records), acc.aggs)
  {
    acc := new Accumulator();
    var i := 0;
    while i < |records|
      invariant 0 <= i <= |records|
      invariant fresh(acc)
      invariant acc.aggs == Folded(kind, Values(on, records[..i]))
    {
      FoldIsAggregate(kind, Values(on, records[..i]));
      FedOne(kind, on, records, i);
      acc.Add(kind, on(records[i].value));
      i := i + 1;
    }
    assert records[..i] == records;
    FoldIsAggregate(kind, Values(on, records));
  }

  lemma FedOne<V>(kind: AggType, on: V -> real, s: seq<Rec<V>>, i: nat)
    requires i < |s|
    ensures Folded(kind, Values(on, s[..i + 1])) == Added(kind, on(s[i].value), Folded(kind, Values(on, s[..i])))
  {
    assert s[..i + 1][..i] == s[..i];
    var vs := Values(on, s[..i]);
    assert Values(on, s[..i + 1]) == vs + [on(s[i].value)];
    assert (vs + [on(s[i].value)])[..i] == vs;
  }

  // ------------------------------------------------------------------ order does not matter

  lemma {:induction false} TotalConcat(a: seq<real>, b: seq<real>)
    ensures Total(a + b) == Total(a) + Total(b)
    decreases |b|
  {
    if b == [] {
      assert a + b == a;
    } else {
      assert (a + b)[..|a + b| - 1] == a + b[..|b| - 1];
      TotalConcat(a, b[..|b| - 1]);
    }
  }

  lemma TotalWithout(t: seq<real>, i: nat)
    requires i < |t|
    ensures Total(t) == Total(t[..i] + t[i + 1..]) + t[i]
  {
    assert t == t[..i] + [t[i]] + t[i + 1..];
    assert Total([t[i]]) == t[i] by {
      assert [t[i]][..0] == [];
      assert Total([]) == 0.0;
    }
    hide Total;
    var before, after := t[..i], t[i + 1..];
    TotalConcat(before + [t[i]], after);
    TotalConcat(before, [t[i]]);
    TotalConcat(before, after);
  }

  lemma {:induction false} TotalPermuted(s: seq<real>, t: seq<real>)
    requires multiset(s) == multiset(t)
    ensures Total(s) == Total(t)
    decreases |s|
  {
    if s == [] {
      EmptyBag(t);
    } else {
      var i := RemoveOne(s, t);
      TotalPermuted(s[..|s| - 1], t[..i] + t[i + 1..]);
      TotalWithout(t, i);
      assert t[i] == s[|s| - 1];
    }
  }

  lemma AggregatePermuted(kind: AggType, s: seq<real>, t: seq<real>, a: real)
    requires multiset(s) == multiset(t) && IsAggregate(kind, s, a)
    ensures IsAggregate(kind, t, a)
  {
    assert |multiset(s)| == |s| && |multiset(t)| == |t|;
    TotalPermuted(s, t);
    assert a in s ==> a in multiset(s);
    forall i | 0 <= i < |t|
      ensures t[i] in s
    {
      assert t[i] in multiset(t);
    }
  }

  lemma {:induction false} ValuesConcat<V>(on: V -> real, a: seq<Rec<V>>, b: seq<Rec<V>>)
    ensures Values(on, a + b) == Values(on, a) + Values(on, b)
    decreases |b|
  {
    if b == [] {
      assert a + b == a;
    } else {
      assert (a + b)[..|a + b| - 1] == a + b[..|b| - 1];
      ValuesConcat(on, a, b[..|b| - 1]);
    }
  }

  lemma ValuesAround<V>(on: V -> real, a: seq<Rec<V>>, r: Rec<V>, b: seq<Rec<V>>)
    ensures Values(on, a + [r] + b) == Values(on, a) + [on(r.value)] + Values(on, b)
  {
    assert Values(on, [r]) == [on(r.value)];
    hide Values;
    ValuesConcat(on, a + [r], b);
    ValuesConcat(on, a, [r]);
  }

  lemma ValuesWithout<V>(on: V -> real, t: seq<Rec<V>>, i: nat)
    requires i < |t|
    ensures multiset(Values(on, t)) == multiset(Values(on, t[..i] + t[i + 1..])) + multiset{on(t[i].value)}
  {
    hide Values;
    var before, after := t[..i], t[i + 1..];
    assert t == before + [t[i]] + after;
    ValuesAround(on, before, t[i], after);
    ValuesConcat(on, before, after);
    MiddleBag(Values(on, before), [on(t[i].value)], Values(on, after));
  }

  lemma {:induction false} ValuesPermuted<V>(on: V -> real, s: seq<Rec<V>>, t: seq<Rec<V>>)
    requires multiset(s) == multiset(t)
    ensures multiset(Values(on, s)) == multiset(Values(on, t))
    decreases |s|
  {
    if s == [] {
      EmptyBag(t);
    } else {
      var i := RemoveOne(s, t);
      var n := |s| - 1;
      ValuesPermuted(on, s[..n], t[..i] + t[i + 1..]);
      ValuesWithout(on, t, i);
      assert t[i] == s[n];
      assert s[..n] + s[n + 1..] == s[..n];
      ValuesWithout(on, s, n);
    }
  }

  // ------------------------------------------------------------------ the recent records

  /** The records not older than `from`, as they were seen. */
  ghost function Since<V>(s: seq<Rec<V>>, from: real): seq<Rec<V>> {
    if s == [] then [] else Since(s[..|s| - 1], from) + if s[|s| - 1].time >= from then [s[|s| - 1]] else []
  }

  ghost function Recent<V>(seen: seq<Rec<V>>, length: real): seq<Rec<V>>
    requires seen != []
  {
    Since(seen, MaxTime(seen) - length)
  }

  lemma {:induction false} CountAtTime<V>(s: seq<Rec<V>>, r: Rec<V>)
    ensures multiset(AtTime(s, r.time))[r] == multiset(s)[r]
    decreases |s|
  {
    if s != [] {
      CountAtTime(s[..|s| - 1], r);
      assert s == s[..|s| - 1] + [s[|s| - 1]];
    }
  }

  lemma {:induction false} CountSince<V>(s: seq<Rec<V>>, from: real, r: Rec<V>)
    ensures multiset(Since(s, from))[r] == if r.time >= from then multiset(s)[r] else 0
    decreases |s|
  {
    if s != [] {
      CountSince(s[..|s| - 1], from, r);
      assert s == s[..|s| - 1] + [s[|s| - 1]];
    }
  }

  lemma SameBag<X>(s: seq<X>, t: seq<X>)
    requires forall x :: multiset(s)[x] == multiset(t)[x]
    ensures multiset(s) == multiset(t)
  {
    assert forall x | x in multiset(s) :: multiset(s)[x] == multiset(t)[x];
    assert multiset(s) <= multiset(t) && multiset(t) <= multiset(s);
  }

  /** The window's contents are the recent records, as a multiset. */
  lemma WindowIsRecent<V>(seen: seq<Rec<V>>, length: real)
    requires seen != [] && length >= 0.0
    ensures WindowRun(seen, length) != []
    ensures multiset(WindowRun(seen, length)) == multiset(Recent(seen, length))
  {
    hide WindowRun, AtTime, MaxTime, Since;
    WindowHoldsRecent(seen, length);
    var w, from := WindowRun(seen, length), MaxTime(seen) - length;
    forall r: Rec<V>
      ensures multiset(w)[r] == multiset(Since(seen, from))[r]
    {
      CountAtTime(w, r);
      CountAtTime(seen, r);
      CountSince(seen, from, r);
    }
    SameBag(w, Since(seen, from));
  }

  /** What a window emits after any records, in any order of event time, is the direct
      aggregate of the records within its length of the newest one. */
  lemma EmitsAggregateOfRecent<V>(kind: AggType, on: V -> real, seen: seq<Rec<V>>, length: real)
    requires seen != [] && length >= 0.0
    ensures var aggs := Folded(kind, Values(on, WindowRun(seen, length)));
            kind in aggs && IsAggregate(kind, Values(on, Recent(seen, length)), aggs[kind])
  {
    var w := WindowRun(seen, length);
    var vs, ws := Values(on, w), Values(on, Recent(seen, length));
    hide WindowRun, Recent, Folded, IsAggregate;
    WindowIsRecent(seen, length);
    FoldIsAggregate(kind, vs);
    ValuesPermuted(on, w, Recent(seen, length));
    AggregatePermuted(kind, vs, ws, Folded(kind, vs)[kind]);
  }
}
