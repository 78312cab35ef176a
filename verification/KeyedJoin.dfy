/** The symmetric hash join, alone and spread over parallel instances by key. */
module KeyedJoin {
  import opened Bags
  import opened Remainders

  /** `stamp` stands for the event time and the source timestamp a record carries. */
  datatype KeyRecord<+K, +V, +T> = KeyRecord(key: K, value: V, stamp: T)

  datatype Event<+K, +V, +T> = FromLeft(r: KeyRecord<K, V, T>) | FromRight(r: KeyRecord<K, V, T>)

  datatype Joined<+W, +T> = Joined(value: W, stamp: T)

  datatype JoinState<!K(==), +V, +T> = JoinState(
    left: map<K, seq<KeyRecord<K, V, T>>>,
    right: map<K, seq<KeyRecord<K, V, T>>>)

  function Stored<K(==), V, T>(m: map<K, seq<KeyRecord<K, V, T>>>, k: K): seq<KeyRecord<K, V, T>> {
    if k in m then m[k] else []
  }

  /** A left record with each of the right records, under the left record's stamp. */
  function WithRights<K, V, W, T>(f: (V, V) -> W, l: KeyRecord<K, V, T>, rs: seq<KeyRecord<K, V, T>>)
    : (o: seq<Joined<W, T>>)
    ensures |o| == |rs| && forall i | 0 <= i < |rs| :: o[i] == Joined(f(l.value, rs[i].value), l.stamp)
  {
    seq(|rs|, i requires 0 <= i < |rs| => Joined(f(l.value, rs[i].value), l.stamp))
  }

  function WithLefts<K, V, W, T>(f: (V, V) -> W, ls: seq<KeyRecord<K, V, T>>, r: KeyRecord<K, V, T>)
    : (o: seq<Joined<W, T>>)
    ensures |o| == |ls| && forall i | 0 <= i < |ls| :: o[i] == Joined(f(ls[i].value, r.value), ls[i].stamp)
  {
    seq(|ls|, i requires 0 <= i < |ls| => Joined(f(ls[i].value, r.value), ls[i].stamp))
  }

  function JoinStep<K(==), V, W, T>(f: (V, V) -> W, s: JoinState<K, V, T>, e: Event<K, V, T>)
    : (r: (JoinState<K, V, T>, seq<Joined<W, T>>))
  {
    var k := e.r.key;
    var ls, rs := Stored(s.left, k), Stored(s.right, k);
    match e
    case FromLeft(l) => (JoinState(s.left[k := ls + [l]], s.right[k := rs]), WithRights(f, l, rs))
    case FromRight(r) => (JoinState(s.left[k := ls], s.right[k := rs + [r]]), WithLefts(f, ls, r))
  }

  function JoinRun<K(==), V, W, T>(f: (V, V) -> W, es: seq<Event<K, V, T>>)
    : (r: (JoinState<K, V, T>, seq<Joined<W, T>>))
    decreases |es|
  {
    if es == [] then (JoinState(map[], map[]), [])
    else
      var before := JoinRun(f, es[..|es| - 1]);
      var after := JoinStep(f, before.0, es[|es| - 1]);
      (after.0, before.1 + after.1)
  }

  class JoinOperator<K(==), V, W, T> {
    const joinFunc: (V, V) -> W
    var leftRecords: map<K, seq<KeyRecord<K, V, T>>>
    var rightRecords: map<K, seq<KeyRecord<K, V, T>>>
    var collected: seq<Joined<W, T>>

    constructor (joinFunc: (V, V) -> W)
      ensures this.joinFunc == joinFunc && leftRecords == map[] && rightRecords == map[] && collected == []
    {
      this.joinFunc := joinFunc;
      leftRecords, rightRecords, collected := map[], map[], [];
    }

    method ProcessElement(e: Event<K, V, T>)
      modifies this`leftRecords, this`rightRecords, this`collected
      ensures var r := JoinStep(joinFunc, JoinState(old(leftRecords), old(rightRecords)), e);
              && JoinState(leftRecords, rightRecords) == r.0
              && collected == old(collected) + r.1
    {
      var key := e.r.key;
      if key !in leftRecords {
        leftRecords := leftRecords[key := []];
      }
      if key !in rightRecords {
        rightRecords := rightRecords[key := []];
      }
      assert leftRecords == old(leftRecords)[key := Stored(old(leftRecords), key)];
      assert rightRecords == old(rightRecords)[key := Stored(old(rightRecords), key)];
      match e
      case FromLeft(l) =>
        leftRecords := leftRecords[key := leftRecords[key] + [l]];
        CollectWithRights(l, rightRecords[key]);
      case FromRight(r) =>
        rightRecords := rightRecords[key := rightRecords[key] + [r]];
        CollectWithLefts(leftRecords[key], r);
    }

    method CollectWithRights(l: KeyRecord<K, V, T>, rs: seq<KeyRecord<K, V, T>>)
      modifies this`collected
      ensures collected == old(collected) + WithRights(joinFunc, l, rs)
    {
      for i := 0 to |rs|
        invariant collected == old(collected) + WithRights(joinFunc, l, rs[..i])
      {
        assert rs[..i + 1] == rs[..i] + [rs[i]];
        collected := collected + [Joined(joinFunc(l.value, rs[i].value), l.stamp)];
      }
      assert rs[..|rs|] == rs;
    }

    method CollectWithLefts(ls: seq<KeyRecord<K, V, T>>, r: KeyRecord<K, V, T>)
      modifies this`collected
      ensures collected == old(collected) + WithLefts(joinFunc, ls, r)
    {
      for i := 0 to |ls|
        invariant collected == old(collected) + WithLefts(joinFunc, ls[..i], r)
      {
        assert ls[..i + 1] == ls[..i] + [ls[i]];
        collected := collected + [Joined(joinFunc(ls[i].value, r.value), ls[i].stamp)];
      }
      assert ls[..|ls|] == ls;
    }
  }

  // ------------------------------------------------------------------ the plain join

  ghost function Lefts<K, V, T>(es: seq<Event<K, V, T>>): seq<KeyRecord<K, V, T>> {
    if es == [] then []
    else Lefts(es[..|es| - 1]) + if es[|es| - 1].FromLeft? then [es[|es| - 1].r] else []
  }

  ghost function Rights<K, V, T>(es: seq<Event<K, V, T>>): seq<KeyRecord<K, V, T>> {
    if es == [] then []
    else Rights(es[..|es| - 1]) + if es[|es| - 1].FromRight? then [es[|es| - 1].r] else []
  }

  /** The result of one pair: one record when the keys agree, none otherwise. */
  ghost function Pair<K, V, W, T>(f: (V, V) -> W, l: KeyRecord<K, V, T>, r: KeyRecord<K, V, T>)
    : multiset<Joined<W, T>> {
    if l.key == r.key then multiset{Joined(f(l.value, r.value), l.stamp)} else multiset{}
  }

  ghost function Row<K, V, W, T>(f: (V, V) -> W, l: KeyRecord<K, V, T>, rs: seq<KeyRecord<K, V, T>>)
    : multiset<Joined<W, T>> {
    if rs == [] then multiset{} else Row(f, l, rs[..|rs| - 1]) + Pair(f, l, rs[|rs| - 1])
  }

  /** Every left record with every right record of the same key. */
  ghost function EquiJoin<K, V, W, T>(f: (V, V) -> W, ls: seq<KeyRecord<K, V, T>>, rs: seq<KeyRecord<K, V, T>>)
    : multiset<Joined<W, T>>
  {
    if ls == [] then multiset{} else EquiJoin(f, ls[..|ls| - 1], rs) + Row(f, ls[|ls| - 1], rs)
  }

  ghost function Column<K, V, W, T>(f: (V, V) -> W, ls: seq<KeyRecord<K, V, T>>, r: KeyRecord<K, V, T>)
    : multiset<Joined<W, T>> {
    if ls == [] then multiset{} else Column(f, ls[..|ls| - 1], r) + Pair(f, ls[|ls| - 1], r)
  }

  lemma {:induction false} EquiJoinAddRight<K, V, W, T>(f: (V, V) -> W, ls: seq<KeyRecord<K, V, T>>,
                                                        rs: seq<KeyRecord<K, V, T>>, r: KeyRecord<K, V, T>)
    ensures EquiJoin(f, ls, rs + [r]) == EquiJoin(f, ls, rs) + Column(f, ls, r)
    decreases |ls|
  {
    hide Pair;
    if ls != [] {
      EquiJoinAddRight(f, ls[..|ls| - 1], rs, r);
      assert (rs + [r])[..|rs|] == rs;
      assert Row(f, ls[|ls| - 1], rs + [r]) == Row(f, ls[|ls| - 1], rs) + Pair(f, ls[|ls| - 1], r);
    }
  }

  ghost function WithKey<K, V, T>(rs: seq<KeyRecord<K, V, T>>, k: K): seq<KeyRecord<K, V, T>> {
    if rs == [] then []
    else WithKey(rs[..|rs| - 1], k) + if rs[|rs| - 1].key == k then [rs[|rs| - 1]] else []
  }

  lemma {:induction false} RowOfKey<K, V, W, T>(f: (V, V) -> W, l: KeyRecord<K, V, T>, rs: seq<KeyRecord<K, V, T>>)
    ensures multiset(WithRights(f, l, WithKey(rs, l.key))) == Row(f, l, rs)
    decreases |rs|
  {
    if rs != [] {
      var front, r := rs[..|rs| - 1], rs[|rs| - 1];
      RowOfKey(f, l, front);
      if r.key == l.key {
        var ks := WithKey(front, l.key);
        assert WithRights(f, l, ks + [r]) == WithRights(f, l, ks) + [Joined(f(l.value, r.value), l.stamp)];
      } else {
        assert WithKey(front, l.key) + [] == WithKey(front, l.key);
      }
    }
  }

  lemma {:induction false} ColumnOfKey<K, V, W, T>(f: (V, V) -> W, ls: seq<KeyRecord<K, V, T>>, r: KeyRecord<K, V, T>)
    ensures multiset(WithLefts(f, WithKey(ls, r.key), r)) == Column(f, ls, r)
    decreases |ls|
  {
    if ls != [] {
      var front, l := ls[..|ls| - 1], ls[|ls| - 1];
      ColumnOfKey(f, front, r);
      if l.key == r.key {
        var ks := WithKey(front, r.key);
        assert WithLefts(f, ks + [l], r) == WithLefts(f, ks, r) + [Joined(f(l.value, r.value), l.stamp)];
      } else {
        assert WithKey(front, r.key) + [] == WithKey(front, r.key);
      }
    }
  }

  lemma WithKeyAppend<K, V, T>(rs: seq<KeyRecord<K, V, T>>, r: KeyRecord<K, V, T>, k: K)
    ensures WithKey(rs + [r], k) == WithKey(rs, k) + if r.key == k then [r] else []
  {
    assert (rs + [r])[..|rs|] == rs;
  }

  /** The dictionaries hold exactly the records seen, by key and in order. */
  ghost predicate Remembers<K, V, T>(s: JoinState<K, V, T>, ls: seq<KeyRecord<K, V, T>>, rs: seq<KeyRecord<K, V, T>>,
                                     k: K) {
    Stored(s.left, k) == WithKey(ls, k) && Stored(s.right, k) == WithKey(rs, k)
  }

  lemma {:induction false} JoinRemembers<K, V, W, T>(f: (V, V) -> W, es: seq<Event<K, V, T>>, k: K)
    ensures Remembers(JoinRun(f, es).0, Lefts(es), Rights(es), k)
    decreases |es|
  {
    if es != [] {
      var front, e := es[..|es| - 1], es[|es| - 1];
      JoinRemembers(f, front, k);
      WithKeyAppend(Lefts(front), e.r, k);
      WithKeyAppend(Rights(front), e.r, k);
      if e.FromLeft? {
        assert Rights(es) == Rights(front);
      } else {
        assert Lefts(es) == Lefts(front);
      }
      if k != e.r.key {
        assert WithKey(Lefts(es), k) == WithKey(Lefts(front), k);
      }
    }
  }

  /** A record goes out joined with the records of its key that came from the other side,
      one each and in the order of their arrival. */
  lemma JoinEmitsInOrder<K, V, W, T>(f: (V, V) -> W, es: seq<Event<K, V, T>>, e: Event<K, V, T>)
    ensures var out := JoinStep(f, JoinRun(f, es).0, e).1;
            match e
            case FromLeft(l) =>
              var rs := WithKey(Rights(es), l.key);
              |out| == |rs| && forall i | 0 <= i < |rs| :: out[i] == Joined(f(l.value, rs[i].value), l.stamp)
            case FromRight(r) =>
              var ls := WithKey(Lefts(es), r.key);
              |out| == |ls| && forall i | 0 <= i < |ls| :: out[i] == Joined(f(ls[i].value, r.value), ls[i].stamp)
  {
    hide WithKey, JoinRun;
    JoinRemembers(f, es, e.r.key);
  }

  /** One instance, in whatever order left and right records arrive, emits exactly the
      plain join of what it was given. */
  lemma {:induction false} JoinIsEquiJoin<K, V, W, T>(f: (V, V) -> W, es: seq<Event<K, V, T>>)
    ensures multiset(JoinRun(f, es).1) == EquiJoin(f, Lefts(es), Rights(es))
    decreases |es|
  {
    hide Pair, Row, Column, WithKey;
    if es != [] {
      var front, e := es[..|es| - 1], es[|es| - 1];
      var ls, rs := Lefts(front), Rights(front);
      JoinIsEquiJoin(f, front);
      JoinRemembers(f, front, e.r.key);
      match e
      case FromLeft(l) =>
        RowOfKey(f, l, rs);
        assert Rights(es) == rs && (ls + [l])[..|ls|] == ls;
      case FromRight(r) =>
        ColumnOfKey(f, ls, r);
        EquiJoinAddRight(f, ls, rs, r);
        assert Lefts(es) == ls;
    }
  }

  // ------------------------------------------------------------------ order does not matter

  lemma {:induction false} EquiJoinConcat<K, V, W, T>(f: (V, V) -> W, a: seq<KeyRecord<K, V, T>>,
                                                      b: seq<KeyRecord<K, V, T>>, rs: seq<KeyRecord<K, V, T>>)
    ensures EquiJoin(f, a + b, rs) == EquiJoin(f, a, rs) + EquiJoin(f, b, rs)
    decreases |b|
  {
    hide Row;
    if b == [] {
      assert a + b == a;
    } else {
      assert (a + b)[..|a + b| - 1] == a + b[..|b| - 1];
      EquiJoinConcat(f, a, b[..|b| - 1], rs);
    }
  }

  lemma {:induction false} RowConcat<K, V, W, T>(f: (V, V) -> W, l: KeyRecord<K, V, T>, a: seq<KeyRecord<K, V, T>>,
                                                 b: seq<KeyRecord<K, V, T>>)
    ensures Row(f, l, a + b) == Row(f, l, a) + Row(f, l, b)
    decreases |b|
  {
    hide Pair;
    if b == [] {
      assert a + b == a;
    } else {
      assert (a + b)[..|a + b| - 1] == a + b[..|b| - 1];
      RowConcat(f, l, a, b[..|b| - 1]);
    }
  }

  lemma {:induction false} EquiJoinPermuteLeft<K, V, W, T>(f: (V, V) -> W, a: seq<KeyRecord<K, V, T>>,
                                                           b: seq<KeyRecord<K, V, T>>, rs: seq<KeyRecord<K, V, T>>)
    requires multiset(a) == multiset(b)
    ensures EquiJoin(f, a, rs) == EquiJoin(f, b, rs)
    decreases |a|
  {
    hide Row;
    if a == [] {
      EmptyBag(b);
    } else {
      var n, x := |a| - 1, a[|a| - 1];
      var i := RemoveOne(a, b);
      EquiJoinPermuteLeft(f, a[..n], b[..i] + b[i + 1..], rs);
      EquiJoinConcat(f, b[..i], b[i + 1..], rs);
      EquiJoinConcat(f, b[..i] + [x], b[i + 1..], rs);
      assert (b[..i] + [x])[..i] == b[..i];
    }
  }

  lemma {:induction false} RowPermute<K, V, W, T>(f: (V, V) -> W, l: KeyRecord<K, V, T>, a: seq<KeyRecord<K, V, T>>,
                                                  b: seq<KeyRecord<K, V, T>>)
    requires multiset(a) == multiset(b)
    ensures Row(f, l, a) == Row(f, l, b)
    decreases |a|
  {
    hide Pair;
    if a == [] {
      EmptyBag(b);
    } else {
      var n, x := |a| - 1, a[|a| - 1];
      var i := RemoveOne(a, b);
      RowPermute(f, l, a[..n], b[..i] + b[i + 1..]);
      RowConcat(f, l, b[..i], b[i + 1..]);
      RowConcat(f, l, b[..i] + [x], b[i + 1..]);
      assert (b[..i] + [x])[..i] == b[..i];
    }
  }

  lemma {:induction false} EquiJoinPermuteRight<K, V, W, T>(f: (V, V) -> W, ls: seq<KeyRecord<K, V, T>>,
                                                            a: seq<KeyRecord<K, V, T>>, b: seq<KeyRecord<K, V, T>>)
    requires multiset(a) == multiset(b)
    ensures EquiJoin(f, ls, a) == EquiJoin(f, ls, b)
    decreases |ls|
  {
    hide Row;
    if ls != [] {
      EquiJoinPermuteRight(f, ls[..|ls| - 1], a, b);
      RowPermute(f, ls[|ls| - 1], a, b);
    }
  }

  // ------------------------------------------------------------------ parallel instances

  function Abs(x: int): nat {
    if x < 0 then -x else x
  }

  /** The instance a key is routed to, for any hash function. */
  function KeyPartition<K>(hash: K -> int, k: K, p: nat): (i: nat)
    requires p > 0
    ensures i < p
  {
    Abs(hash(k)) % p
  }

  /** Among `p` instances `i` is the one a hash belongs to: they differ by a multiple of
      `p`, a negative hash counting backwards. */
  ghost predicate Selects(hash: int, p: nat, i: nat)
    requires p > 0
  {
    && i < p
    && (hash >= 0 ==> (hash - i) % p == 0)
    && (hash < 0 ==> (hash + i) % p == 0)
  }

  /** A key goes to the one instance its hash selects. */
  lemma KeyPartitionSelects<K>(hash: K -> int, k: K, p: nat, i: nat)
    requires p > 0
    ensures Selects(hash(k), p, i) <==> i == KeyPartition(hash, k, p)
  {
    var h := hash(k);
    if i < p {
      RemainderIff(Abs(h), p, i);
      Negated(h + i, p);
    }
  }

  /** No instance is left out, by positive or by negative hashes. */
  lemma EveryInstanceSelected(p: nat, i: nat)
    requires i < p
    ensures Selects(i, p, i) && Selects(-(i as int), p, i)
    ensures KeyPartition(h => h, i as int, p) == KeyPartition(h => h, -(i as int), p) == i
  {
    Quotient(0, p, 0, 0);
    KeyPartitionSelects(h => h, i as int, p, i);
    KeyPartitionSelects(h => h, -(i as int), p, i);
  }

  /** The records routed to instance `i`. */
  ghost function Routed<K, V, T>(hash: K -> int, rs: seq<KeyRecord<K, V, T>>, p: nat, i: nat): seq<KeyRecord<K, V, T>>
    requires p > 0
  {
    if rs == [] then []
    else
      var r := rs[|rs| - 1];
      Routed(hash, rs[..|rs| - 1], p, i) + if KeyPartition(hash, r.key, p) == i then [r] else []
  }

  /** The plain joins of the first `n` instances together. */
  ghost function Total<K, V, W, T>(f: (V, V) -> W, hash: K -> int, ls: seq<KeyRecord<K, V, T>>,
                                   rs: seq<KeyRecord<K, V, T>>, p: nat, n: nat)
    : multiset<Joined<W, T>>
    requires p > 0
    decreases n
  {
    if n == 0 then multiset{}
    else Total(f, hash, ls, rs, p, n - 1) + EquiJoin(f, Routed(hash, ls, p, n - 1), Routed(hash, rs, p, n - 1))
  }

  /** A record joins only with records of its own instance. */
  lemma {:induction false} RowRouted<K, V, W, T>(f: (V, V) -> W, hash: K -> int, l: KeyRecord<K, V, T>,
                                                 rs: seq<KeyRecord<K, V, T>>, p: nat)
    requires p > 0
    ensures Row(f, l, Routed(hash, rs, p, KeyPartition(hash, l.key, p))) == Row(f, l, rs)
    decreases |rs|
  {
    if rs != [] {
      var i := KeyPartition(hash, l.key, p);
      var front, r := rs[..|rs| - 1], rs[|rs| - 1];
      RowRouted(f, hash, l, front, p);
      var q := Routed(hash, front, p, i);
      if KeyPartition(hash, r.key, p) == i {
        assert (q + [r])[..|q|] == q;
      } else {
        assert q + [] == q;
      }
    }
  }

  lemma {:induction false} TotalAddLeft<K, V, W, T>(f: (V, V) -> W, hash: K -> int, ls: seq<KeyRecord<K, V, T>>,
                                                    l: KeyRecord<K, V, T>, rs: seq<KeyRecord<K, V, T>>, p: nat,
                                                    n: nat)
    requires p > 0
    ensures Total(f, hash, ls + [l], rs, p, n)
            == Total(f, hash, ls, rs, p, n) + if KeyPartition(hash, l.key, p) < n then Row(f, l, rs) else multiset{}
    decreases n
  {
    hide Row, KeyPartition, Routed, EquiJoin;
    if n > 0 {
      TotalAddLeft(f, hash, ls, l, rs, p, n - 1);
      RoutedAppend(hash, ls, l, p, n - 1);
      var q, qr := Routed(hash, ls, p, n - 1), Routed(hash, rs, p, n - 1);
      var before, here, row := Total(f, hash, ls, rs, p, n - 1), EquiJoin(f, q, qr), Row(f, l, rs);
      if KeyPartition(hash, l.key, p) == n - 1 {
        RowRouted(f, hash, l, rs, p);
        EquiJoinAppend(f, q, l, qr);
        BagMoves(before, here, row);
      } else {
        BagMoves(before, here, row);
      }
    }
  }

  lemma EquiJoinAppend<K, V, W, T>(f: (V, V) -> W, ls: seq<KeyRecord<K, V, T>>, l: KeyRecord<K, V, T>,
                                   rs: seq<KeyRecord<K, V, T>>)
    ensures EquiJoin(f, ls + [l], rs) == EquiJoin(f, ls, rs) + Row(f, l, rs)
  {
    hide Row;
    assert (ls + [l])[..|ls|] == ls;
  }

  lemma BagMoves<X>(a: multiset<X>, b: multiset<X>, c: multiset<X>)
    ensures a + (b + c) == (a + b) + c && (a + c) + b == (a + b) + c
  {
  }

  lemma RoutedAppend<K, V, T>(hash: K -> int, rs: seq<KeyRecord<K, V, T>>, r: KeyRecord<K, V, T>, p: nat, i: nat)
    requires p > 0
    ensures Routed(hash, rs + [r], p, i)
            == if KeyPartition(hash, r.key, p) == i then Routed(hash, rs, p, i) + [r] else Routed(hash, rs, p, i)
  {
    assert (rs + [r])[..|rs|] == rs;
  }

  lemma {:induction false} TotalIsEquiJoin<K, V, W, T>(f: (V, V) -> W, hash: K -> int, ls: seq<KeyRecord<K, V, T>>,
                                                       rs: seq<KeyRecord<K, V, T>>, p: nat)
    requires p > 0
    ensures Total(f, hash, ls, rs, p, p) == EquiJoin(f, ls, rs)
    decreases |ls|
  {
    hide Row, Total, KeyPartition;
    if ls == [] {
      TotalOfNothing(f, hash, rs, p, p);
    } else {
      var n := |ls| - 1;
      TotalIsEquiJoin(f, hash, ls[..n], rs, p);
      TotalAddLeft(f, hash, ls[..n], ls[n], rs, p, p);
      assert KeyPartition(hash, ls[n].key, p) < p;
      assert ls[..n] + [ls[n]] == ls;
    }
  }

  lemma {:induction false} TotalOfNothing<K, V, W, T>(f: (V, V) -> W, hash: K -> int, rs: seq<KeyRecord<K, V, T>>,
                                                      p: nat, n: nat)
    requires p > 0
    ensures Total(f, hash, [], rs, p, n) == multiset{}
    decreases n
  {
    if n > 0 {
      TotalOfNothing(f, hash, rs, p, n - 1);
    }
  }

  /** What the first `n` instances emit. */
  ghost function Emitted<K, V, W, T>(f: (V, V) -> W, ess: seq<seq<Event<K, V, T>>>, n: nat): multiset<Joined<W, T>>
    requires n <= |ess|
    decreases n
  {
    if n == 0 then multiset{} else Emitted(f, ess, n - 1) + multiset(JoinRun(f, ess[n - 1]).1)
  }

  /** Instance `i` gets exactly the records routed to it, in any order and interleaving. */
  ghost predicate GetsRouted<K, V, T>(hash: K -> int, ls: seq<KeyRecord<K, V, T>>, rs: seq<KeyRecord<K, V, T>>,
                                      ess: seq<seq<Event<K, V, T>>>, i: nat)
    requires i < |ess|
  {
    && multiset(Lefts(ess[i])) == multiset(Routed(hash, ls, |ess|, i))
    && multiset(Rights(ess[i])) == multiset(Routed(hash, rs, |ess|, i))
  }

  lemma {:induction false} EmittedIsTotal<K, V, W, T>(f: (V, V) -> W, hash: K -> int, ls: seq<KeyRecord<K, V, T>>,
                                                      rs: seq<KeyRecord<K, V, T>>, ess: seq<seq<Event<K, V, T>>>,
                                                      n: nat)
    requires n <= |ess| && |ess| > 0 && forall i | 0 <= i < |ess| :: GetsRouted(hash, ls, rs, ess, i)
    ensures Emitted(f, ess, n) == Total(f, hash, ls, rs, |ess|, n)
    decreases n
  {
    hide EquiJoin, Routed, JoinRun;
    if n > 0 {
      EmittedIsTotal(f, hash, ls, rs, ess, n - 1);
      var es, p, i := ess[n - 1], |ess|, n - 1;
      assert GetsRouted(hash, ls, rs, ess, i);
      JoinIsEquiJoin(f, es);
      EquiJoinPermuteLeft(f, Lefts(es), Routed(hash, ls, p, i), Rights(es));
      EquiJoinPermuteRight(f, Routed(hash, ls, p, i), Rights(es), Routed(hash, rs, p, i));
    }
  }

  /** The parallel join is the plain join: however many instances there are, whatever the
      hash function, and in whatever order and interleaving each instance receives the
      records routed to it by key, together they emit exactly one joined record, with the
      left record's stamp, for every pair of records with equal keys. */
  lemma ParallelJoinIsEquiJoin<K, V, W, T>(f: (V, V) -> W, hash: K -> int, ls: seq<KeyRecord<K, V, T>>,
                                           rs: seq<KeyRecord<K, V, T>>, ess: seq<seq<Event<K, V, T>>>)
    requires |ess| > 0 && forall i | 0 <= i < |ess| :: GetsRouted(hash, ls, rs, ess, i)
    ensures Emitted(f, ess, |ess|) == EquiJoin(f, ls, rs)
  {
    EmittedIsTotal(f, hash, ls, rs, ess, |ess|);
    TotalIsEquiJoin(f, hash, ls, rs, |ess|);
  }

  // ------------------------------------------------------------------ counting pairs

  ghost function RowMatches<K, V, W, T>(f: (V, V) -> W, l: KeyRecord<K, V, T>, rs: seq<KeyRecord<K, V, T>>,
                                        o: Joined<W, T>): set<nat> {
    set j: nat | j < |rs| && l.key == rs[j].key && Joined(f(l.value, rs[j].value), l.stamp) == o
  }

  /** The pairs of positions with equal keys whose joined record is `o`. */
  ghost function Matches<K, V, W, T>(f: (V, V) -> W, ls: seq<KeyRecord<K, V, T>>, rs: seq<KeyRecord<K, V, T>>,
                                     o: Joined<W, T>): set<(nat, nat)> {
    set i: nat, j: nat | i < |ls| && j < |rs| && ls[i].key == rs[j].key
                         && Joined(f(ls[i].value, rs[j].value), ls[i].stamp) == o :: (i, j)
  }

  lemma {:induction false} RowCounts<K, V, W, T>(f: (V, V) -> W, l: KeyRecord<K, V, T>, rs: seq<KeyRecord<K, V, T>>,
                                                 o: Joined<W, T>)
    ensures Row(f, l, rs)[o] == |RowMatches(f, l, rs, o)|
    decreases |rs|
  {
    if rs == [] {
      assert RowMatches(f, l, rs, o) == {};
    } else {
      var n := |rs| - 1;
      RowCounts(f, l, rs[..n], o);
      RowMatchesSplit(f, l, rs, o);
      hide RowMatches;
      assert Row(f, l, rs) == Row(f, l, rs[..n]) + Pair(f, l, rs[n]);
    }
  }

  lemma RowMatchesSplit<K, V, W, T>(f: (V, V) -> W, l: KeyRecord<K, V, T>, rs: seq<KeyRecord<K, V, T>>, o: Joined<W, T>)
    requires rs != []
    ensures var n := |rs| - 1;
            |RowMatches(f, l, rs, o)| == |RowMatches(f, l, rs[..n], o)| + Pair(f, l, rs[n])[o]
  {
    var n := |rs| - 1;
    var a, b := RowMatches(f, l, rs[..n], o), RowMatches(f, l, rs, o);
    assert forall j: nat | j < n :: rs[..n][j] == rs[j];
    if l.key == rs[n].key && Joined(f(l.value, rs[n].value), l.stamp) == o {
      assert b == a + {n};
    } else {
      assert b == a;
    }
  }

  ghost function Tag(n: nat, js: set<nat>): set<(nat, nat)> {
    set j | j in js :: (n, j)
  }

  lemma {:induction false} TagCard(n: nat, js: set<nat>)
    ensures |Tag(n, js)| == |js|
    decreases |js|
  {
    if |js| == 0 {
      assert forall j :: j !in js;
      assert Tag(n, js) == {};
    } else {
      var x :| x in js;
      TagCard(n, js - {x});
      assert Tag(n, js) == Tag(n, js - {x}) + {(n, x)};
    }
  }

  /** How often the plain join contains a record is the number of pairs that give it. */
  lemma {:induction false} EquiJoinCounts<K, V, W, T>(f: (V, V) -> W, ls: seq<KeyRecord<K, V, T>>,
                                                      rs: seq<KeyRecord<K, V, T>>, o: Joined<W, T>)
    ensures EquiJoin(f, ls, rs)[o] == |Matches(f, ls, rs, o)|
    decreases |ls|
  {
    hide Row;
    if ls == [] {
      assert Matches(f, ls, rs, o) == {};
    } else {
      var n := |ls| - 1;
      EquiJoinCounts(f, ls[..n], rs, o);
      RowCounts(f, ls[n], rs, o);
      var js := RowMatches(f, ls[n], rs, o);
      TagCard(n, js);
      MatchesSplit(f, ls, rs, o);
    }
  }

  lemma MatchesSplit<K, V, W, T>(f: (V, V) -> W, ls: seq<KeyRecord<K, V, T>>, rs: seq<KeyRecord<K, V, T>>,
                                 o: Joined<W, T>)
    requires ls != []
    ensures var n := |ls| - 1;
            var a := Matches(f, ls[..n], rs, o);
            var b := Tag(n, RowMatches(f, ls[n], rs, o));
            Matches(f, ls, rs, o) == a + b && |Matches(f, ls, rs, o)| == |a| + |b|
  {
    var n: nat := |ls| - 1;
    var js := RowMatches(f, ls[n], rs, o);
    var a, b, c := Matches(f, ls[..n], rs, o), Tag(n, js), Matches(f, ls, rs, o);
    forall p | p in c
      ensures p in a + b
    {
      if p.0 < n {
        assert ls[..n][p.0] == ls[p.0];
      } else {
        assert p == (n, p.1) && p.1 in js;
      }
    }
    forall p | p in a
      ensures p in c && p.0 < n
    {
      assert ls[..n][p.0] == ls[p.0];
    }
    assert c == a + b;
    assert a * b == {};
  }
}
