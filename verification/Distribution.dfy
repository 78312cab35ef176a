/** How the records of one instance are dealt out to the instances of the next operator. */
module Distribution {
  import opened Bags
  import opened Remainders
  import opened JobGraph
  import KeyedJoin

  /** Round robin over a fixed number of instances; `count` records have been sent. */
  class RoundRobin {
    const targets: nat
    var last: nat
    ghost var count: nat

    ghost predicate Valid()
      reads this
    {
      targets > 0 && last == count % targets
    }

    constructor (targets: nat)
      requires targets > 0
      ensures Valid() && this.targets == targets && count == 0
    {
      this.targets := targets;
      last, count := 0, 0;
      new;
      assert 0 % targets == 0;
    }

    method Next() returns (i: nat)
      requires Valid()
      modifies this`last, this`count
      ensures Valid() && count == old(count) + 1 && i == (old(count) + 1) % targets
    {
      NextRound(count, targets);
      last := (last + 1) % targets;
      count := count + 1;
      i := last;
    }
  }

  /** The instance that the record sent after `n` others goes to; forwarding is to the only
      instance. */
  ghost function Choice<R, K>(partition: Partition, hash: K -> int, key: R -> K, p: nat, n: nat, r: R): (i: nat)
    requires p > 0
    ensures i < p
  {
    match partition
    case KeyPartition => KeyedJoin.KeyPartition(hash, key(r), p)
    case RoundRobinPartition => (n + 1) % p
    case _ => 0
  }

  /** The records dealt to instance `i`. */
  ghost function Dealt<R, K>(partition: Partition, hash: K -> int, key: R -> K, p: nat, rs: seq<R>, i: nat): seq<R>
    requires p > 0
  {
    if rs == [] then []
    else
      var n := |rs| - 1;
      Dealt(partition, hash, key, p, rs[..n], i)
      + if Choice(partition, hash, key, p, n, rs[n]) == i then [rs[n]] else []
  }

  ghost function Mapped<R, Q>(t: R -> Q, rs: seq<R>): (r: seq<Q>)
    ensures |r| == |rs|
    ensures forall i | 0 <= i < |rs| :: r[i] == t(rs[i])
  {
    seq(|rs|, i requires 0 <= i < |rs| => t(rs[i]))
  }

  ghost function Sum<X>(f: nat -> multiset<X>, n: nat): multiset<X> {
    if n == 0 then multiset{} else Sum(f, n - 1) + f(n - 1)
  }

  lemma {:induction false} SumSame<X>(f: nat -> multiset<X>, g: nat -> multiset<X>, n: nat)
    requires forall i | 0 <= i < n :: f(i) == g(i)
    ensures Sum(f, n) == Sum(g, n)
  {
    if n > 0 {
      SumSame(f, g, n - 1);
    }
  }

  lemma {:induction false} SumAdds<X>(f: nat -> multiset<X>, g: nat -> multiset<X>, h: nat -> multiset<X>, n: nat)
    requires forall i | 0 <= i < n :: h(i) == f(i) + g(i)
    ensures Sum(h, n) == Sum(f, n) + Sum(g, n)
  {
    if n > 0 {
      SumAdds(f, g, h, n - 1);
    }
  }

  lemma {:induction false} SumEmpty<X>(f: nat -> multiset<X>, n: nat)
    requires forall i | 0 <= i < n :: f(i) == multiset{}
    ensures Sum(f, n) == multiset{}
  {
    if n > 0 {
      SumEmpty(f, n - 1);
    }
  }

  /** One summand grows. */
  lemma {:induction false} SumBump<X>(f: nat -> multiset<X>, g: nat -> multiset<X>, n: nat, k: nat, x: multiset<X>)
    requires k < n && g(k) == f(k) + x && forall i | 0 <= i < n && i != k :: g(i) == f(i)
    ensures Sum(g, n) == Sum(f, n) + x
  {
    if k == n - 1 {
      SumSame(f, g, n - 1);
    } else {
      SumBump(f, g, n - 1, k, x);
    }
  }

  lemma {:induction false} SumFlatten<X>(ss: seq<seq<X>>, f: nat -> multiset<X>)
    requires forall i | 0 <= i < |ss| :: f(i) == multiset(ss[i])
    ensures Sum(f, |ss|) == multiset(Flatten(ss))
    decreases |ss|
  {
    if ss != [] {
      var n := |ss| - 1;
      var front := ss[..n];
      assert forall i | 0 <= i < n :: front[i] == ss[i];
      SumFlatten(front, f);
      assert Flatten(ss) == Flatten(front) + ss[n];
      hide Flatten;
      assert Sum(f, |ss|) == Sum(f, n) + f(n);
    }
  }

  lemma MappedAppend<R, Q>(t: R -> Q, rs: seq<R>, r: R)
    ensures Mapped(t, rs + [r]) == Mapped(t, rs) + [t(r)]
  {
  }

  lemma MappedConcat<R, Q>(t: R -> Q, a: seq<R>, b: seq<R>)
    ensures Mapped(t, a + b) == Mapped(t, a) + Mapped(t, b)
  {
  }

  /** What instance `i` gets, each record marked by `t`. */
  ghost function DealtBag<R, K>(t: R -> R, partition: Partition, hash: K -> int, key: R -> K, p: nat, rs: seq<R>,
                                i: nat)
    : multiset<R>
    requires p > 0
  {
    multiset(Mapped(t, Dealt(partition, hash, key, p, rs, i)))
  }

  lemma DealtOne<R, K>(t: R -> R, partition: Partition, hash: K -> int, key: R -> K, p: nat, rs: seq<R>, i: nat)
    requires p > 0 && rs != []
    ensures var n := |rs| - 1;
            DealtBag(t, partition, hash, key, p, rs, i)
            == DealtBag(t, partition, hash, key, p, rs[..n], i)
               + if Choice(partition, hash, key, p, n, rs[n]) == i then multiset{t(rs[n])} else multiset{}
  {
    hide Choice, Mapped;
    var n := |rs| - 1;
    var before := Dealt(partition, hash, key, p, rs[..n], i);
    assert Dealt(partition, hash, key, p, rs, i)
        == if Choice(partition, hash, key, p, n, rs[n]) == i then before + [rs[n]] else before;
    MappedAppend(t, before, rs[n]);
  }

  /** Every record goes to exactly one instance. */
  lemma {:induction false} DealtSplits<R, K>(t: R -> R, partition: Partition, hash: K -> int, key: R -> K, p: nat,
                                             rs: seq<R>)
    requires p > 0
    ensures Sum(i => DealtBag(t, partition, hash, key, p, rs, i), p) == multiset(Mapped(t, rs))
    decreases |rs|
  {
    hide Choice, DealtBag, Mapped;
    if rs == [] {
      NothingDealt(t, partition, hash, key, p);
    } else {
      var n := |rs| - 1;
      DealtSplits(t, partition, hash, key, p, rs[..n]);
      forall i: nat
        ensures DealtBag(t, partition, hash, key, p, rs, i)
             == DealtBag(t, partition, hash, key, p, rs[..n], i)
                + if Choice(partition, hash, key, p, n, rs[n]) == i then multiset{t(rs[n])} else multiset{}
      {
        DealtOne(t, partition, hash, key, p, rs, i);
      }
      SumBump(i => DealtBag(t, partition, hash, key, p, rs[..n], i),
              i => DealtBag(t, partition, hash, key, p, rs, i), p,
              Choice(partition, hash, key, p, n, rs[n]), multiset{t(rs[n])});
      assert rs == rs[..n] + [rs[n]];
      MappedAppend(t, rs[..n], rs[n]);
    }
  }

  lemma NothingDealt<R, K>(t: R -> R, partition: Partition, hash: K -> int, key: R -> K, p: nat)
    requires p > 0
    ensures Sum(i => DealtBag(t, partition, hash, key, p, [], i), p) == multiset(Mapped(t, []))
  {
    SumEmpty(i => DealtBag(t, partition, hash, key, p, [], i), p);
  }

  /** Round robin is even: after whole rounds every instance has had as many records, and
      the rest go to the instances from 1 on. */
  lemma {:induction false} RoundRobinIsEven<R, K>(hash: K -> int, key: R -> K, p: nat, rs: seq<R>, i: nat)
    requires i < p
    ensures |Dealt(RoundRobinPartition, hash, key, p, rs, i)|
         == |rs| / p + if 1 <= i <= |rs| % p then 1 else 0
    decreases |rs|
  {
    if rs == [] {
      Quotient(0, p, 0, 0);
    } else {
      var n := |rs| - 1;
      RoundRobinIsEven(hash, key, p, rs[..n], i);
      NextRound(n, p);
    }
  }

  /** Under the key partition instance `i` gets only records whose key belongs to it. */
  lemma {:induction false} DealtByKey<R, K>(hash: K -> int, key: R -> K, p: nat, rs: seq<R>, i: nat, j: nat)
    requires p > 0 && j < |Dealt(KeyPartition, hash, key, p, rs, i)|
    ensures KeyedJoin.KeyPartition(hash, key(Dealt(KeyPartition, hash, key, p, rs, i)[j]), p) == i
    decreases |rs|
  {
    hide KeyedJoin.KeyPartition;
    var n := |rs| - 1;
    if j < |Dealt(KeyPartition, hash, key, p, rs[..n], i)| {
      DealtByKey(hash, key, p, rs[..n], i, j);
    }
  }

  lemma {:induction false} MappedPermuted<R, Q>(t: R -> Q, a: seq<R>, b: seq<R>)
    requires multiset(a) == multiset(b)
    ensures multiset(Mapped(t, a)) == multiset(Mapped(t, b))
    decreases |a|
  {
    if a == [] {
      EmptyBag(b);
    } else {
      hide Mapped;
      var n := |a| - 1;
      var i := RemoveOne(a, b);
      MappedPermuted(t, a[..n], b[..i] + b[i + 1..]);
      MappedWithout(t, b, i);
      assert a[..n] + a[n + 1..] == a[..n];
      MappedWithout(t, a, n);
      assert b[i] == a[n];
    }
  }

  lemma MappedWithout<R, Q>(t: R -> Q, s: seq<R>, i: nat)
    requires i < |s|
    ensures multiset(Mapped(t, s)) == multiset(Mapped(t, s[..i] + s[i + 1..])) + multiset([t(s[i])])
  {
    var before, after := s[..i], s[i + 1..];
    assert s == before + [s[i]] + after;
    assert Mapped(t, s) == Mapped(t, before) + [t(s[i])] + Mapped(t, after);
    MappedConcat(t, before, after);
    hide Mapped;
    MiddleBag(Mapped(t, before), [t(s[i])], Mapped(t, after));
  }
}
