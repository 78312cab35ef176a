/** Operators that keep a state for each key, the reduce operator among them: what they
    emit for a key depends on the records of that key only, so running several instances
    behind a partition by key changes nothing. */
module KeyedOperators {
  import opened Wrappers
  import opened KeyedJoin

  /** What a keyed operator does with a record, given the state of its key if any. */
  type Step<!K, !V, !T, !S, !O> = (Option<S>, KeyRecord<K, V, T>) -> (S, O)

  function StateOf<K(==), S>(m: map<K, S>, k: K): (s: Option<S>) {
    if k in m then Some(m[k]) else None
  }

  /** The operator run on a whole input: the states of all keys and an output for every
      record. */
  function KeyedRun<K(==), V, T, S, O>(step: Step<K, V, T, S, O>, rs: seq<KeyRecord<K, V, T>>): (r: (map<K, S>, seq<O>))
    ensures |r.1| == |rs|
  {
    if rs == [] then (map[], [])
    else
      var (m, outs) := KeyedRun(step, rs[..|rs| - 1]);
      var last := rs[|rs| - 1];
      var (s, o) := step(StateOf(m, last.key), last);
      (m[last.key := s], outs + [o])
  }

  /** The operator on the records of a single key. */
  function OneKeyRun<K, V, T, S, O>(step: Step<K, V, T, S, O>, rs: seq<KeyRecord<K, V, T>>): (r: (Option<S>, seq<O>))
    ensures |r.1| == |rs|
  {
    if rs == [] then (None, [])
    else
      var (before, outs) := OneKeyRun(step, rs[..|rs| - 1]);
      var (s, o) := step(before, rs[|rs| - 1]);
      (Some(s), outs + [o])
  }

  /** The outputs for the records of key `k`. */
  ghost function OutputsFor<K, V, T, O>(rs: seq<KeyRecord<K, V, T>>, outs: seq<O>, k: K): seq<O>
    requires |outs| == |rs|
  {
    if rs == [] then []
    else
      OutputsFor(rs[..|rs| - 1], outs[..|rs| - 1], k) + if rs[|rs| - 1].key == k then [outs[|rs| - 1]] else []
  }

  /** Keys do not influence each other. */
  lemma {:induction false} KeysAreIndependent<K, V, T, S, O>(step: Step<K, V, T, S, O>, rs: seq<KeyRecord<K, V, T>>,
                                                             k: K)
    ensures var r := KeyedRun(step, rs);
            (StateOf(r.0, k), OutputsFor(rs, r.1, k)) == OneKeyRun(step, WithKey(rs, k))
    decreases |rs|
  {
    if rs != [] {
      var n := |rs| - 1;
      KeysAreIndependent(step, rs[..n], k);
      var r := KeyedRun(step, rs);
      assert r.1[..n] == KeyedRun(step, rs[..n]).1;
      if rs[n].key == k {
        assert WithKey(rs, k) == WithKey(rs[..n], k) + [rs[n]];
        assert (WithKey(rs[..n], k) + [rs[n]])[..|WithKey(rs[..n], k)|] == WithKey(rs[..n], k);
      } else {
        assert WithKey(rs, k) == WithKey(rs[..n], k);
        assert OutputsFor(rs, r.1, k) == OutputsFor(rs[..n], r.1[..n], k);
      }
    }
  }

  /** Of the records of key `k`, instance `i` of `p` gets all, in their order, if the key
      is routed to it, and none otherwise; other keys may come in between. */
  ghost predicate GetsKey<K, V, T>(hash: K -> int, all: seq<KeyRecord<K, V, T>>, rs: seq<KeyRecord<K, V, T>>, p: nat,
                                   i: nat, k: K)
    requires p > 0
  {
    WithKey(rs, k) == if KeyPartition(hash, k, p) == i then WithKey(all, k) else []
  }

  /** Routing the whole input by key gives every instance what it should get. */
  lemma {:induction false} RoutedGetsKey<K, V, T>(hash: K -> int, all: seq<KeyRecord<K, V, T>>, p: nat, i: nat, k: K)
    requires p > 0
    ensures GetsKey(hash, all, Routed(hash, all, p, i), p, i, k)
    decreases |all|
  {
    if all != [] {
      var front, r := all[..|all| - 1], all[|all| - 1];
      var before, here := Routed(hash, front, p, i), KeyPartition(hash, r.key, p) == i;
      assert Routed(hash, all, p, i) == if here then before + [r] else before;
      assert front + [r] == all;
      RoutedGetsKey(hash, front, p, i, k);
      hide KeyPartition, Routed, WithKey;
      WithKeyAppend(before, r, k);
      WithKeyAppend(front, r, k);
      assert [] + WithKey(front, k) == WithKey(front, k) + [] == WithKey(front, k);
    }
  }

  /** Behind a partition by key, the instance of a key emits for it what one instance would
      emit for the whole input, in the same order, and the others emit nothing for it. */
  lemma ParallelIsSequential<K, V, T, S, O>(step: Step<K, V, T, S, O>, hash: K -> int, all: seq<KeyRecord<K, V, T>>,
                                            inputs: seq<seq<KeyRecord<K, V, T>>>, k: K, i: nat)
    requires i < |inputs| && GetsKey(hash, all, inputs[i], |inputs|, i, k)
    ensures OutputsFor(inputs[i], KeyedRun(step, inputs[i]).1, k)
         == if KeyPartition(hash, k, |inputs|) == i then OutputsFor(all, KeyedRun(step, all).1, k) else []
    ensures KeyPartition(hash, k, |inputs|) == i ==>
              StateOf(KeyedRun(step, inputs[i]).0, k) == StateOf(KeyedRun(step, all).0, k)
  {
    hide KeyedRun, KeyPartition, WithKey, OutputsFor;
    KeysAreIndependent(step, inputs[i], k);
    KeysAreIndependent(step, all, k);
    assert OneKeyRun(step, []).1 == [];
  }

  // ------------------------------------------------------------------ reduce

  /** The first record of a key goes on as it is, with its key; later ones give records
      without. */
  datatype Reduced<+K, +V, +T> = First(r: KeyRecord<K, V, T>) | Later(value: V, stamp: T)

  function ReduceStep<K, V, T>(f: (V, V) -> V, s: Option<V>, r: KeyRecord<K, V, T>): (o: (V, Reduced<K, V, T>)) {
    match s
    case None => (r.value, First(r))
    case Some(v) => (f(v, r.value), Later(f(v, r.value), r.stamp))
  }

  function Reducer<K, V, T>(f: (V, V) -> V): Step<K, V, T, V, Reduced<K, V, T>> {
    (s: Option<V>, r: KeyRecord<K, V, T>) => ReduceStep(f, s, r)
  }

  /** The values combined from the left. */
  ghost function Folded<K, V, T>(f: (V, V) -> V, rs: seq<KeyRecord<K, V, T>>): V
    requires rs != []
  {
    var n := |rs| - 1;
    if n == 0 then rs[0].value else f(Folded(f, rs[..n]), rs[n].value)
  }

  lemma {:induction false} ReduceOneKey<K, V, T>(f: (V, V) -> V, rs: seq<KeyRecord<K, V, T>>, i: nat)
    requires i < |rs|
    ensures OneKeyRun(Reducer(f), rs).1[i]
         == if i == 0 then First(rs[0]) else Later(Folded(f, rs[..i + 1]), rs[i].stamp)
    ensures OneKeyRun(Reducer(f), rs).0 == Some(Folded(f, rs))
    decreases |rs|
  {
    var n := |rs| - 1;
    if n > 0 {
      ReduceOneKey(f, rs[..n], if i < n then i else 0);
      if i < n {
        assert rs[..n][..i + 1] == rs[..i + 1];
      }
    }
    assert rs[..n + 1] == rs;
  }

  /** For the `i`-th record of a key the reduce operator emits the fold of the key's first
      `i + 1` values, with the time of that record; for the first, the record itself. */
  lemma ReduceEmitsFolds<K, V, T>(f: (V, V) -> V, rs: seq<KeyRecord<K, V, T>>, k: K)
    ensures var mine, outs := WithKey(rs, k), OutputsFor(rs, KeyedRun(Reducer(f), rs).1, k);
            && |outs| == |mine|
            && forall i | 0 <= i < |mine| ::
                 outs[i] == if i == 0 then First(mine[0]) else Later(Folded(f, mine[..i + 1]), mine[i].stamp)
  {
    var mine, outs := WithKey(rs, k), OutputsFor(rs, KeyedRun(Reducer(f), rs).1, k);
    KeysAreIndependent(Reducer(f), rs, k);
    forall i | 0 <= i < |mine|
      ensures outs[i] == if i == 0 then First(mine[0]) else Later(Folded(f, mine[..i + 1]), mine[i].stamp)
    {
      ReduceOneKey(f, mine, i);
    }
  }

  class ReduceOperator<K(==), V, T> {
    const f: (V, V) -> V
    var reduceState: map<K, V>
    var collected: seq<Reduced<K, V, T>>
    // The records so far.
    ghost var seen: seq<KeyRecord<K, V, T>>

    ghost predicate Valid()
      reads this
    {
      (reduceState, collected) == KeyedRun(Reducer(f), seen)
    }

    constructor (f: (V, V) -> V)
      ensures Valid() && this.f == f && seen == []
    {
      this.f := f;
      reduceState, collected, seen := map[], [], [];
    }

    method ProcessElement(r: KeyRecord<K, V, T>)
      requires Valid()
      modifies this
      ensures Valid() && seen == old(seen) + [r]
    {
      if r.key in reduceState {
        var newValue := f(reduceState[r.key], r.value);
        reduceState := reduceState[r.key := newValue];
        collected := collected + [Later(newValue, r.stamp)];
      } else {
        reduceState := reduceState[r.key := r.value];
        collected := collected + [First(r)];
      }
      seen := seen + [r];
      assert seen[..|seen| - 1] == old(seen);
    }
  }
}
