/** The operator that keeps several sliding windows per key and emits all their aggregates
    for every record. */
module WindowOperator {
  import opened Wrappers
  import opened SlidingWindows
  import opened WindowAggregates

  /** `fallback` is the text of aggregation type and duration, the name of a window that is
      not given one. */
  datatype Config<!V> = Config(given: Option<string>, fallback: string, length: real, kind: AggType, on: V -> real) {

    function Name(): string {
      if given.Some? then given.value else fallback
    }
  }

  /** Without an output function the aggregates go out under the time of the record. */
  datatype Emission<+O> = Aggregates(aggs: Rec<map<string, real>>) | Custom(r: Rec<O>)

  /** Binary search for the insertion point behind records of the same time. */
  method InsortRight<V>(s: seq<Rec<V>>, r: Rec<V>) returns (t: seq<Rec<V>>)
    requires Sorted(s)
    ensures t == InsertRight(s, r)
  {
    var lo, hi := 0, |s|;
    while lo < hi
      invariant 0 <= lo <= hi <= |s|
      invariant forall i | 0 <= i < lo :: s[i].time <= r.time
      invariant forall i | hi <= i < |s| :: s[i].time > r.time
    {
      var mid := (lo + hi) / 2;
      if r.time < s[mid].time {
        hi := mid;
      } else {
        lo := mid + 1;
      }
    }
    InsertRightAt(s, r, lo);
    t := s[..lo] + [r] + s[lo..];
  }

  /** Insert, then pop from the front while the window is too long. */
  method UpdateWindow<V>(w: seq<Rec<V>>, r: Rec<V>, length: real) returns (t: seq<Rec<V>>)
    requires Sorted(w) && length >= 0.0
    ensures t == WindowStep(w, r, length)
  {
    t := InsortRight(w, r);
    while t[|t| - 1].time - t[0].time > length
      invariant t != [] && Evict(t, length) == WindowStep(w, r, length)
      decreases |t|
    {
      t := t[1..];
    }
  }

  /** The windows of a key after the records `seen`, one for each configuration. */
  ghost function Windows<V>(configs: seq<Config<V>>, seen: seq<Rec<V>>): (ws: seq<seq<Rec<V>>>)
    ensures |ws| == |configs|
    ensures forall i | 0 <= i < |configs| :: ws[i] == WindowRun(seen, configs[i].length)
  {
    seq(|configs|, i requires 0 <= i < |configs| => WindowRun(seen, configs[i].length))
  }

  ghost predicate Configured<V>(configs: seq<Config<V>>) {
    forall i | 0 <= i < |configs| :: configs[i].length >= 0.0
  }

  ghost predicate DistinctNames<V>(configs: seq<Config<V>>) {
    forall i, j | 0 <= i < j < |configs| :: configs[i].Name() != configs[j].Name()
  }

  /** The name of configuration `j` is the first to be used again. */
  ghost predicate FirstRepeat<V>(configs: seq<Config<V>>, j: nat) {
    j < |configs| && DistinctNames(configs[..j]) && !DistinctNames(configs[..j + 1])
  }

  /** Entry by entry, `aggs` is the direct aggregate of the recent records. */
  ghost predicate Emits<V>(configs: seq<Config<V>>, seen: seq<Rec<V>>, aggs: map<string, real>)
    requires seen != []
  {
    && (forall n | n in aggs :: exists i :: 0 <= i < |configs| && configs[i].Name() == n)
    && forall i | 0 <= i < |configs| :: EmitsAt(configs[i], seen, aggs)
  }

  ghost predicate EmitsAt<V>(c: Config<V>, seen: seq<Rec<V>>, aggs: map<string, real>)
    requires seen != []
  {
    c.Name() in aggs && IsAggregate(c.kind, Values(c.on, Recent(seen, c.length)), aggs[c.Name()])
  }

  /** An aggregate goes out under the name given to its window, or else under the fallback. */
  lemma EmittedUnderName<V>(configs: seq<Config<V>>, seen: seq<Rec<V>>, aggs: map<string, real>, i: nat)
    requires seen != [] && i < |configs| && Emits(configs, seen, aggs)
    ensures var c := configs[i];
            var name := match c.given { case Some(n) => n case None => c.fallback };
            name in aggs && IsAggregate(c.kind, Values(c.on, Recent(seen, c.length)), aggs[name])
  {
    hide IsAggregate, Values, Recent;
    assert EmitsAt(configs[i], seen, aggs);
  }

  lemma WindowSorted<V>(seen: seq<Rec<V>>, length: real)
    requires length >= 0.0
    ensures Sorted(WindowRun(seen, length))
  {
    if seen != [] {
      WindowHoldsRecent(seen, length);
    }
  }

  lemma RunAppend<V>(seen: seq<Rec<V>>, r: Rec<V>, length: real)
    ensures WindowRun(seen + [r], length) == WindowStep(WindowRun(seen, length), r, length)
  {
    assert (seen + [r])[..|seen|] == seen;
  }

  /** One window of the key: its new records and its aggregate. */
  method Advance<V>(c: Config<V>, ghost seen: seq<Rec<V>>, w: seq<Rec<V>>, r: Rec<V>)
    returns (t: seq<Rec<V>>, agg: real)
    requires c.length >= 0.0 && w == WindowRun(seen, c.length)
    ensures t == WindowRun(seen + [r], c.length)
    ensures IsAggregate(c.kind, Values(c.on, Recent(seen + [r], c.length)), agg)
  {
    hide WindowRun, WindowStep, Folded, IsAggregate, Recent, Values;
    WindowSorted(seen, c.length);
    t := UpdateWindow(w, r, c.length);
    RunAppend(seen, r, c.length);
    EmitsAggregateOfRecent(c.kind, c.on, seen + [r], c.length);
    var acc := Apply(c.kind, c.on, t);
    agg := acc.aggs[c.kind];
  }

  /** All windows of the key in turn. The first configuration whose name was already used
      stops the loop, after its own window was updated. */
  method AdvanceAll<V>(configs: seq<Config<V>>, ghost seen: seq<Rec<V>>, windows: seq<seq<Rec<V>>>, r: Rec<V>)
    returns (updated: seq<seq<Rec<V>>>, aggs: Option<map<string, real>>)
    requires Configured(configs) && windows == Windows(configs, seen)
    ensures aggs.Some? <==> DistinctNames(configs)
    ensures aggs.Some? ==> updated == Windows(configs, seen + [r]) && Emits(configs, seen + [r], aggs.value)
    ensures aggs.None? ==>
              exists j :: FirstRepeat(configs, j)
                && updated == Windows(configs[..j + 1], seen + [r]) + windows[j + 1..]
  {
    hide WindowRun, WindowStep, EmitsAt, Windows, DistinctNames, UpTo;
    updated := windows;
    var sums: map<string, real> := map[];
    var i := 0;
    NoneYet(configs, seen, r, windows);
    while i < |configs|
      invariant 0 <= i <= |configs| == |updated|
      invariant UpTo(configs, i, seen, r, windows, updated, sums)
    {
      NextWindow(configs, i, seen, r, windows, updated, sums);
      var w, agg := Advance(configs[i], seen, updated[i], r);
      if configs[i].Name() in sums {
        Repeats(configs, i, seen, r, windows, updated, sums, w);
        updated := updated[i := w];
        assert FirstRepeat(configs, i);
        return updated, None;
      }
      Extend(configs, i, seen, r, windows, updated, sums, w, agg);
      updated := updated[i := w];
      sums := sums[configs[i].Name() := agg];
      i := i + 1;
    }
    AllDone(configs, seen, r, windows, updated, sums);
    aggs := Some(sums);
  }

  /** The first `i` windows have been advanced, their names differ, and `sums` is what
      they emit. */
  ghost predicate UpTo<V>(configs: seq<Config<V>>, i: nat, seen: seq<Rec<V>>, r: Rec<V>,
                          windows: seq<seq<Rec<V>>>, updated: seq<seq<Rec<V>>>, sums: map<string, real>)
  {
    && i <= |configs| == |windows|
    && updated == Windows(configs[..i], seen + [r]) + windows[i..]
    && DistinctNames(configs[..i])
    && Emits(configs[..i], seen + [r], sums)
  }

  lemma NoneYet<V>(configs: seq<Config<V>>, seen: seq<Rec<V>>, r: Rec<V>, windows: seq<seq<Rec<V>>>)
    requires |windows| == |configs|
    ensures UpTo(configs, 0, seen, r, windows, windows, map[])
  {
  }

  lemma NextWindow<V>(configs: seq<Config<V>>, i: nat, seen: seq<Rec<V>>, r: Rec<V>,
                      windows: seq<seq<Rec<V>>>, updated: seq<seq<Rec<V>>>, sums: map<string, real>)
    requires UpTo(configs, i, seen, r, windows, updated, sums) && i < |configs| && windows == Windows(configs, seen)
    ensures i < |updated| && updated[i] == WindowRun(seen, configs[i].length)
  {
    hide Emits, DistinctNames, WindowRun;
    assert updated[i] == windows[i..][0];
  }

  lemma AllDone<V>(configs: seq<Config<V>>, seen: seq<Rec<V>>, r: Rec<V>,
                   windows: seq<seq<Rec<V>>>, updated: seq<seq<Rec<V>>>, sums: map<string, real>)
    requires UpTo(configs, |configs|, seen, r, windows, updated, sums)
    ensures updated == Windows(configs, seen + [r]) && DistinctNames(configs) && Emits(configs, seen + [r], sums)
  {
    hide Emits, DistinctNames, Windows;
    assert configs[..|configs|] == configs;
    assert windows[|configs|..] == [];
  }

  lemma Advanced<V>(configs: seq<Config<V>>, i: nat, seen: seq<Rec<V>>, r: Rec<V>,
                    windows: seq<seq<Rec<V>>>, updated: seq<seq<Rec<V>>>, w: seq<Rec<V>>)
    requires i < |configs| == |windows| && updated == Windows(configs[..i], seen + [r]) + windows[i..]
    requires w == WindowRun(seen + [r], configs[i].length)
    ensures updated[i := w] == Windows(configs[..i + 1], seen + [r]) + windows[i + 1..]
  {
    hide WindowRun;
    assert Windows(configs[..i + 1], seen + [r]) == Windows(configs[..i], seen + [r]) + [w];
    assert windows[i..] == [windows[i]] + windows[i + 1..];
  }

  lemma Repeats<V>(configs: seq<Config<V>>, i: nat, seen: seq<Rec<V>>, r: Rec<V>,
                   windows: seq<seq<Rec<V>>>, updated: seq<seq<Rec<V>>>, sums: map<string, real>, w: seq<Rec<V>>)
    requires UpTo(configs, i, seen, r, windows, updated, sums) && i < |configs| && configs[i].Name() in sums
    requires w == WindowRun(seen + [r], configs[i].length)
    ensures DistinctNames(configs[..i]) && !DistinctNames(configs[..i + 1]) && !DistinctNames(configs)
    ensures |updated| == |configs| && updated[i := w] == Windows(configs[..i + 1], seen + [r]) + windows[i + 1..]
  {
    hide WindowRun, EmitsAt;
    Advanced(configs, i, seen, r, windows, updated, w);
    hide Windows;
    var k :| 0 <= k < i && configs[..i][k].Name() == configs[i].Name();
    var upTo := configs[..i + 1];
    assert upTo[k].Name() == upTo[i].Name();
    assert configs[k].Name() == configs[i].Name();
  }

  lemma Extend<V>(configs: seq<Config<V>>, i: nat, seen: seq<Rec<V>>, r: Rec<V>, windows: seq<seq<Rec<V>>>,
                  updated: seq<seq<Rec<V>>>, sums: map<string, real>, w: seq<Rec<V>>, agg: real)
    requires UpTo(configs, i, seen, r, windows, updated, sums) && i < |configs| && configs[i].Name() !in sums
    requires w == WindowRun(seen + [r], configs[i].length)
    requires IsAggregate(configs[i].kind, Values(configs[i].on, Recent(seen + [r], configs[i].length)), agg)
    ensures |updated| == |configs|
    ensures UpTo(configs, i + 1, seen, r, windows, updated[i := w], sums[configs[i].Name() := agg])
  {
    hide WindowRun, IsAggregate, Values, Recent;
    Advanced(configs, i, seen, r, windows, updated, w);
    hide Windows;
    EmitsNext(configs, i, seen + [r], sums, agg);
    hide Emits;
  }

  lemma EmitsNext<V>(configs: seq<Config<V>>, i: nat, seen: seq<Rec<V>>, sums: map<string, real>, agg: real)
    requires seen != [] && i < |configs| && configs[i].Name() !in sums && Emits(configs[..i], seen, sums)
    requires IsAggregate(configs[i].kind, Values(configs[i].on, Recent(seen, configs[i].length)), agg)
    requires DistinctNames(configs[..i])
    ensures Emits(configs[..i + 1], seen, sums[configs[i].Name() := agg]) && DistinctNames(configs[..i + 1])
  {
    hide IsAggregate, Values, Recent;
    var before, upTo, more := configs[..i], configs[..i + 1], sums[configs[i].Name() := agg];
    assert upTo == before + [configs[i]];
    forall k | 0 <= k < i
      ensures EmitsAt(upTo[k], seen, more) && upTo[k].Name() in sums
    {
      assert EmitsAt(before[k], seen, sums);
    }
    assert EmitsAt(configs[i], seen, more);
    forall n | n in more
      ensures exists k :: 0 <= k < |upTo| && upTo[k].Name() == n
    {
      if n in sums {
        var k :| 0 <= k < i && before[k].Name() == n;
        assert upTo[k].Name() == n;
      } else {
        assert upTo[i].Name() == n;
      }
    }
  }

  class MultiWindowOperator<K(==), V, O> {
    const configs: seq<Config<V>>
    const outputFunc: Option<(map<string, real>, K, Rec<V>) -> Rec<O>>
    var windowsPerKey: map<K, seq<seq<Rec<V>>>>
    // The records of each key so far, in the order of arrival.
    ghost var seen: map<K, seq<Rec<V>>>

    ghost predicate Valid()
      reads this
    {
      && Configured(configs)
      && windowsPerKey.Keys == seen.Keys
      && forall k | k in seen :: seen[k] != [] && windowsPerKey[k] == Windows(configs, seen[k])
    }

    ghost function SeenOf(k: K): (s: seq<Rec<V>>)
      reads this
    {
      if k in seen then seen[k] else []
    }

    /** What goes out for a record `r` of key `k`. */
    function Formed(aggs: map<string, real>, k: K, r: Rec<V>): Emission<O> {
      if outputFunc.None? then Aggregates(Rec(r.time, aggs)) else Custom(outputFunc.value(aggs, k, r))
    }

    constructor (configs: seq<Config<V>>, outputFunc: Option<(map<string, real>, K, Rec<V>) -> Rec<O>>)
      requires Configured(configs)
      ensures Valid() && this.configs == configs && this.outputFunc == outputFunc && seen == map[]
    {
      this.configs, this.outputFunc := configs, outputFunc;
      windowsPerKey := map[];
      seen := map[];
    }

    /** Forms its output from, for every configuration, the direct aggregate of this key's
        recent records; other keys are untouched. If a window name repeats, nothing goes out
        and the windows up to the repeated one have been advanced. */
    method ProcessElement(k: K, r: Rec<V>) returns (out: Option<Emission<O>>)
      requires Valid()
      modifies this
      ensures out.Some? <==> DistinctNames(configs)
      ensures out.Some? ==> Valid() && seen == old(seen)[k := old(SeenOf(k)) + [r]]
      ensures out.Some? ==>
                exists aggs :: Emits(configs, seen[k], aggs)
                  && if outputFunc.None? then out.value == Aggregates(Rec(r.time, aggs))
                     else out.value == Custom(outputFunc.value(aggs, k, r))
      ensures windowsPerKey.Keys == old(windowsPerKey).Keys + {k}
      ensures out.None? ==>
                exists j ::
                  && FirstRepeat(configs, j)
                  && windowsPerKey[k] == Windows(configs[..j + 1], old(SeenOf(k)) + [r])
                                         + Windows(configs, old(SeenOf(k)))[j + 1..]
      ensures forall o | o in old(windowsPerKey) && o != k :: windowsPerKey[o] == old(windowsPerKey)[o]
    {
      hide Emits, DistinctNames, FirstRepeat;
      ghost var before := SeenOf(k);
      var windows;
      if k in windowsPerKey {
        windows := windowsPerKey[k];
      } else {
        windows := seq(|configs|, i => []);
        assert windows == Windows(configs, before);
      }
      var updated, aggs := AdvanceAll(configs, before, windows, r);
      hide Windows;
      windowsPerKey := windowsPerKey[k := updated];
      seen := seen[k := before + [r]];
      out := if aggs.Some? then Some(Formed(aggs.value, k, r)) else None;
    }
  }
}
