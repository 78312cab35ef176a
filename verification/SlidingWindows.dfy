/** Sliding windows over event time for records that may come late: every record is
    inserted by time, and whatever is further than the window length behind the newest
    record is dropped from the front. */
module SlidingWindows {

  datatype Rec<+V> = Rec(time: real, value: V)

  ghost predicate Sorted<V>(s: seq<Rec<V>>) {
    forall i, j | 0 <= i < j < |s| :: s[i].time <= s[j].time
  }

  /** Insertion after all records that are not newer. */
  function InsertRight<V>(s: seq<Rec<V>>, r: Rec<V>): (t: seq<Rec<V>>)
    ensures |t| == |s| + 1
  {
    if s == [] || s[|s| - 1].time <= r.time then s + [r]
    else InsertRight(s[..|s| - 1], r) + [s[|s| - 1]]
  }

  function Evict<V>(s: seq<Rec<V>>, length: real): (t: seq<Rec<V>>) {
    if s != [] && s[|s| - 1].time - s[0].time > length then Evict(s[1..], length) else s
  }

  function WindowStep<V>(w: seq<Rec<V>>, r: Rec<V>, length: real): (t: seq<Rec<V>>) {
    Evict(InsertRight(w, r), length)
  }

  function WindowRun<V>(seen: seq<Rec<V>>, length: real): (w: seq<Rec<V>>) {
    if seen == [] then [] else WindowStep(WindowRun(seen[..|seen| - 1], length), seen[|seen| - 1], length)
  }

  // ------------------------------------------------------------------ contents

  /** The records of one event time, in order. */
  ghost function AtTime<V>(s: seq<Rec<V>>, t: real): seq<Rec<V>> {
    if s == [] then [] else AtTime(s[..|s| - 1], t) + if s[|s| - 1].time == t then [s[|s| - 1]] else []
  }

  ghost function MaxTime<V>(s: seq<Rec<V>>): real
    requires s != []
  {
    if |s| == 1 then s[0].time
    else
      var m := MaxTime(s[..|s| - 1]);
      if s[|s| - 1].time > m then s[|s| - 1].time else m
  }

  /** The window holds, sorted by time, exactly the records seen that are within `length`
      of the newest one; records of equal time keep the order in which they were seen. */
  ghost predicate IsWindow<V>(w: seq<Rec<V>>, seen: seq<Rec<V>>, length: real)
    requires seen != []
  {
    && w != [] && Sorted(w)
    && w[|w| - 1].time == MaxTime(seen)
    && forall t: real :: AtTime(w, t) == if t >= MaxTime(seen) - length then AtTime(seen, t) else []
  }

  lemma AtTimeAppend<V>(s: seq<Rec<V>>, r: Rec<V>, t: real)
    ensures AtTime(s + [r], t) == AtTime(s, t) + if r.time == t then [r] else []
  {
    assert (s + [r])[..|s|] == s;
  }

  lemma {:induction false} AtTimeConcat<V>(a: seq<Rec<V>>, b: seq<Rec<V>>, t: real)
    ensures AtTime(a + b, t) == AtTime(a, t) + AtTime(b, t)
    decreases |b|
  {
    if b == [] {
      assert a + b == a;
    } else {
      assert (a + b)[..|a + b| - 1] == a + b[..|b| - 1];
      AtTimeConcat(a, b[..|b| - 1], t);
    }
  }

  /** The position that a sorted insertion takes: after everything not newer. */
  lemma {:induction false} InsertRightAt<V>(s: seq<Rec<V>>, r: Rec<V>, p: nat)
    requires p <= |s|
    requires forall i | 0 <= i < p :: s[i].time <= r.time
    requires forall i | p <= i < |s| :: s[i].time > r.time
    ensures InsertRight(s, r) == s[..p] + [r] + s[p..]
    decreases |s|
  {
    if p < |s| {
      var front := s[..|s| - 1];
      InsertRightAt(front, r, p);
      assert s[p..] == front[p..] + [s[|s| - 1]];
      assert front[..p] == s[..p];
    }
  }

  /** The position exists when the sequence is sorted. */
  lemma {:induction false} PositionExists<V>(s: seq<Rec<V>>, r: Rec<V>) returns (p: nat)
    requires Sorted(s)
    ensures p <= |s|
    ensures forall i | 0 <= i < p :: s[i].time <= r.time
    ensures forall i | p <= i < |s| :: s[i].time > r.time
    decreases |s|
  {
    if s == [] || s[|s| - 1].time <= r.time {
      p := |s|;
    } else {
      p := PositionExists(s[..|s| - 1], r);
    }
  }

  /** Inserting keeps the order; the newest record is last. */
  lemma InsertRightSorted<V>(s: seq<Rec<V>>, r: Rec<V>)
    requires Sorted(s)
    ensures Sorted(InsertRight(s, r))
    ensures var last := InsertRight(s, r)[|s|].time;
            last == if s != [] && s[|s| - 1].time > r.time then s[|s| - 1].time else r.time
  {
    var p := PositionExists(s, r);
    InsertRightAt(s, r, p);
  }

  /** Inserting adds the record behind those of its own time. */
  lemma {:induction false} InsertRightIs<V>(s: seq<Rec<V>>, r: Rec<V>, t: real)
    ensures AtTime(InsertRight(s, r), t) == AtTime(s, t) + if r.time == t then [r] else []
    decreases |s|
  {
    if s == [] || s[|s| - 1].time <= r.time {
      AtTimeAppend(s, r, t);
    } else {
      InsertRightStep(s, r, t);
    }
  }

  lemma {:induction false} InsertRightStep<V>(s: seq<Rec<V>>, r: Rec<V>, t: real)
    requires s != [] && s[|s| - 1].time > r.time
    ensures AtTime(InsertRight(s, r), t) == AtTime(s, t) + if r.time == t then [r] else []
    decreases |s|, 0
  {
    var front, x := s[..|s| - 1], s[|s| - 1];
    assert s == front + [x];
    var u := InsertRight(front, r);
    assert InsertRight(s, r) == u + [x];
    hide InsertRight, AtTime;
    InsertRightIs(front, r, t);
    AtTimeAppend(u, x, t);
    AtTimeAppend(front, x, t);
  }

  /** Eviction drops exactly the records more than `length` older than the newest. */
  lemma {:induction false} EvictIs<V>(s: seq<Rec<V>>, length: real, t: real)
    requires Sorted(s) && s != [] && length >= 0.0
    ensures var e := Evict(s, length);
            && e != [] && Sorted(e) && e[|e| - 1] == s[|s| - 1]
            && AtTime(e, t) == if t >= s[|s| - 1].time - length then AtTime(s, t) else []
    decreases |s|
  {
    hide AtTime;
    var last := s[|s| - 1].time;
    if last - s[0].time > length {
      assert Sorted(s[1..]);
      EvictIs(s[1..], length, t);
      if t >= last - length {
        WithoutFirst(s, t);
      }
    } else {
      if t < last - length {
        NoneAtTime(s, t);
      }
    }
  }

  lemma WithoutFirst<V>(s: seq<Rec<V>>, t: real)
    requires s != [] && s[0].time != t
    ensures AtTime(s[1..], t) == AtTime(s, t)
  {
    hide AtTime;
    assert s == [s[0]] + s[1..];
    AtTimeConcat([s[0]], s[1..], t);
    NoneAtTime([s[0]], t);
  }

  lemma {:induction false} NoneAtTime<V>(s: seq<Rec<V>>, t: real)
    requires forall i | 0 <= i < |s| :: s[i].time != t
    ensures AtTime(s, t) == []
    decreases |s|
  {
    if s != [] {
      NoneAtTime(s[..|s| - 1], t);
    }
  }

  lemma StepKeepsWindow<V>(w: seq<Rec<V>>, seen: seq<Rec<V>>, r: Rec<V>, length: real)
    requires length >= 0.0 && seen != [] && IsWindow(w, seen, length)
    ensures IsWindow(WindowStep(w, r, length), seen + [r], length)
  {
    hide Evict, InsertRight, AtTime;
    var u := InsertRight(w, r);
    var e := WindowStep(w, r, length);
    assert (seen + [r])[..|seen|] == seen;
    var m := MaxTime(seen + [r]);
    InsertRightSorted(w, r);
    EvictIs(u, length, m);
    assert u[|u| - 1].time == m;
    forall t: real
      ensures AtTime(e, t) == if t >= m - length then AtTime(seen + [r], t) else []
    {
      InsertRightIs(w, r, t);
      EvictIs(u, length, t);
      AtTimeAppend(seen, r, t);
    }
  }

  lemma FirstWindow<V>(r: Rec<V>, length: real)
    requires length >= 0.0
    ensures IsWindow(WindowStep([], r, length), [r], length)
  {
    assert InsertRight([], r) == [r];
    assert WindowStep([], r, length) == [r];
    forall t: real
      ensures t < r.time - length ==> AtTime([r], t) == []
    {
      if t < r.time - length {
        NoneAtTime([r], t);
      }
    }
  }

  /** After any sequence of records of a key, in any order of event time, the window is
      what it should be; in particular it is never empty. */
  lemma {:induction false} WindowHoldsRecent<V>(seen: seq<Rec<V>>, length: real)
    requires seen != [] && length >= 0.0
    ensures IsWindow(WindowRun(seen, length), seen, length)
    decreases |seen|
  {
    hide WindowStep, IsWindow;
    var n := |seen| - 1;
    if n == 0 {
      assert seen[..0] == [] && seen == [seen[0]];
      assert WindowRun(seen[..0], length) == [];
      FirstWindow(seen[0], length);
    } else {
      WindowHoldsRecent(seen[..n], length);
      StepKeepsWindow(WindowRun(seen[..n], length), seen[..n], seen[n], length);
      assert seen[..n] + [seen[n]] == seen;
    }
  }
}
