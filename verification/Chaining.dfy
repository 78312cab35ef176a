/** Chained operators: each record is pushed depth first through the whole chain before
    the next one starts.  Operators are deterministic state transducers. */
module Chaining {

  datatype Operator<!S, !R> = Operator(step: (S, R) -> (S, seq<R>))

  /** One operator over a whole input. */
  function RunOperator<S, R>(op: Operator<S, R>, s: S, rs: seq<R>): (r: (S, seq<R>))
    decreases |rs|
  {
    if rs == [] then (s, [])
    else
      var first := op.step(s, rs[0]);
      var rest := RunOperator(op, first.0, rs[1..]);
      (rest.0, first.1 + rest.1)
  }

  /** Stage by stage: each operator runs over the whole output of the one before. */
  function Staged<S, R>(ops: seq<Operator<S, R>>, ss: seq<S>, rs: seq<R>): (r: (seq<S>, seq<R>))
    requires |ops| == |ss|
    ensures |r.0| == |ss|
    decreases |ops|
  {
    if ops == [] then (ss, rs)
    else
      var first := RunOperator(ops[0], ss[0], rs);
      var rest := Staged(ops[1..], ss[1..], first.1);
      ([first.0] + rest.0, rest.1)
  }

  /** Depth first: one record through the chain, every output going straight on. */
  function Push<S, R>(ops: seq<Operator<S, R>>, ss: seq<S>, r: R): (p: (seq<S>, seq<R>))
    requires |ops| == |ss|
    ensures |p.0| == |ss|
    decreases |ops|, 0
  {
    if ops == [] then (ss, [r])
    else
      var first := ops[0].step(ss[0], r);
      var rest := PushAll(ops[1..], ss[1..], first.1);
      ([first.0] + rest.0, rest.1)
  }

  function PushAll<S, R>(ops: seq<Operator<S, R>>, ss: seq<S>, rs: seq<R>): (p: (seq<S>, seq<R>))
    requires |ops| == |ss|
    ensures |p.0| == |ss|
    decreases |ops|, |rs|
  {
    if rs == [] then (ss, [])
    else
      var first := Push(ops, ss, rs[0]);
      var rest := PushAll(ops, first.0, rs[1..]);
      (rest.0, first.1 + rest.1)
  }

  lemma {:induction false} PushAllConcat<S, R>(ops: seq<Operator<S, R>>, ss: seq<S>, a: seq<R>, b: seq<R>)
    requires |ops| == |ss|
    ensures var first := PushAll(ops, ss, a);
            var rest := PushAll(ops, first.0, b);
            PushAll(ops, ss, a + b) == (rest.0, first.1 + rest.1)
    decreases |a|
  {
    if a == [] {
      assert a + b == b;
      assert [] + PushAll(ops, ss, b).1 == PushAll(ops, ss, b).1;
    } else {
      var first := Push(ops, ss, a[0]);
      assert (a + b)[0] == a[0] && (a + b)[1..] == a[1..] + b;
      PushAllConcat(ops, first.0, a[1..], b);
      var m := PushAll(ops, first.0, a[1..]);
      var e := PushAll(ops, m.0, b);
      assert first.1 + (m.1 + e.1) == (first.1 + m.1) + e.1;
    }
  }

  /** Depth first through a chain is its first operator run over everything, followed by
      depth first through the rest. */
  lemma {:induction false} PushAllSplits<S, R>(ops: seq<Operator<S, R>>, ss: seq<S>, rs: seq<R>)
    requires |ops| == |ss| && ops != []
    ensures var first := RunOperator(ops[0], ss[0], rs);
            var rest := PushAll(ops[1..], ss[1..], first.1);
            PushAll(ops, ss, rs) == ([first.0] + rest.0, rest.1)
    decreases |rs|
  {
    if rs == [] {
      assert [ss[0]] + ss[1..] == ss;
    } else {
      var one := ops[0].step(ss[0], rs[0]);
      var after := PushAll(ops[1..], ss[1..], one.1);
      var ss' := [one.0] + after.0;
      assert ss'[0] == one.0 && ss'[1..] == after.0;
      PushAllSplits(ops, ss', rs[1..]);
      var others := RunOperator(ops[0], one.0, rs[1..]);
      PushAllConcat(ops[1..], ss[1..], one.1, others.1);
    }
  }

  /** Chaining preserves meaning: for every list of operators, all states and every input,
      depth first gives the same outputs and the same final states as stage by stage. */
  lemma {:induction false} ChainingPreservesMeaning<S, R>(ops: seq<Operator<S, R>>, ss: seq<S>, rs: seq<R>)
    requires |ops| == |ss|
    ensures PushAll(ops, ss, rs) == Staged(ops, ss, rs)
    decreases |ops|
  {
    if ops == [] {
      PushAllThroughNothing<S, R>(ss, rs);
    } else {
      PushAllSplits(ops, ss, rs);
      ChainingPreservesMeaning(ops[1..], ss[1..], RunOperator(ops[0], ss[0], rs).1);
    }
  }

  lemma {:induction false} PushAllThroughNothing<S, R>(ss: seq<S>, rs: seq<R>)
    requires ss == []
    ensures PushAll<S, R>([], ss, rs) == (ss, rs)
    decreases |rs|
  {
    if rs != [] {
      PushAllThroughNothing<S, R>(ss, rs[1..]);
      assert [rs[0]] + rs[1..] == rs;
    }
  }

  /** The chained operator: every operator forwards what it collects to the next one, the
      last one to the collectors outside. */
  class ChainedOperator<S, R> {
    const ops: seq<Operator<S, R>>
    var states: seq<S>
    var collected: seq<R>

    ghost predicate Valid()
      reads this
    {
      |states| == |ops|
    }

    constructor (ops: seq<Operator<S, R>>, states: seq<S>)
      requires |ops| == |states|
      ensures Valid() && this.ops == ops && this.states == states && collected == []
    {
      this.ops, this.states, collected := ops, states, [];
    }

    /** Operator `i` processes a record. */
    method Process(i: nat, r: R)
      requires Valid() && i < |ops|
      modifies this`states, this`collected
      ensures Valid()
      ensures var p := Push(ops[i..], old(states[i..]), r);
              states == old(states[..i]) + p.0 && collected == old(collected) + p.1
      decreases |ops| - i, 0
    {
      var (s, outs) := ops[i].step(states[i], r);
      ghost var rest := states[i + 1..];
      assert ops[i..][1..] == ops[i + 1..] && states[i..][1..] == rest;
      states := states[i := s];
      assert states[..i + 1] == old(states[..i]) + [s] && states[i + 1..] == rest;
      CollectAll(i + 1, outs);
      assert old(states[..i]) + [s] + PushAll(ops[i + 1..], rest, outs).0
          == old(states[..i]) + ([s] + PushAll(ops[i + 1..], rest, outs).0);
    }

    /** The outputs of the operator before `i`, forwarded one by one. */
    method CollectAll(i: nat, outs: seq<R>)
      requires Valid() && 0 < i <= |ops|
      modifies this`states, this`collected
      ensures Valid()
      ensures var p := PushAll(ops[i..], old(states[i..]), outs);
              states == old(states[..i]) + p.0 && collected == old(collected) + p.1
      decreases |ops| - i, 1
    {
      ghost var all := PushAll(ops[i..], states[i..], outs);
      assert states == states[..i] + states[i..];
      for k := 0 to |outs|
        invariant Valid() && states[..i] == old(states[..i])
        invariant var p := PushAll(ops[i..], states[i..], outs[k..]);
                  all.0 == p.0 && old(collected) + all.1 == collected + p.1
      {
        ghost var p := Push(ops[i..], states[i..], outs[k]);
        ghost var before := collected;
        assert outs[k..][0] == outs[k] && outs[k..][1..] == outs[k + 1..];
        if i < |ops| {
          Process(i, outs[k]);
          assert states[i..] == p.0;
        } else {
          assert ops[i..] == [] && states[i..] == [];
          collected := collected + [outs[k]];
        }
        assert collected == before + p.1;
        ghost var rest := PushAll(ops[i..], states[i..], outs[k + 1..]);
        assert before + (p.1 + rest.1) == (before + p.1) + rest.1;
      }
      assert outs[|outs|..] == [];
      assert states == states[..i] + states[i..];
    }
  }
}
