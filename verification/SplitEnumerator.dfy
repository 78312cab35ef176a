/** The word-count source's split enumerator, which hands out a fixed number of each word
    in splits of limited size. */
module SplitEnumerator {
  import opened Bags

  datatype Split = EndOfInput | MoreAvailable(words: map<string, nat>)

  function Min(a: nat, b: nat): nat {
    if a <= b then a else b
  }

  function Count(m: map<string, nat>, w: string): nat {
    if w in m then m[w] else 0
  }

  /** The messages that are left, over all words. */
  ghost function Total(words: seq<string>, m: map<string, nat>): nat {
    if words == [] then 0 else Total(words[..|words| - 1], m) + Count(m, words[|words| - 1])
  }

  /** The size of the next split; a negative limit is none. */
  function Quota(limit: int, total: nat): nat {
    if limit < 0 then total else Min(limit, total)
  }

  lemma {:induction false} TotalSame(words: seq<string>, m: map<string, nat>, m2: map<string, nat>)
    requires forall i | 0 <= i < |words| :: Count(m, words[i]) == Count(m2, words[i])
    ensures Total(words, m) == Total(words, m2)
    decreases |words|
  {
    if words != [] {
      var front := words[..|words| - 1];
      assert forall i | 0 <= i < |front| :: front[i] == words[i];
      TotalSame(front, m, m2);
    }
  }

  lemma {:induction false} TotalUpdate(words: seq<string>, m: map<string, nat>, i: nat, c: nat)
    requires Distinct(words) && i < |words|
    ensures Total(words, m[words[i] := c]) == Total(words, m) - Count(m, words[i]) + c
    decreases |words|
  {
    var n := |words| - 1;
    var front, m2 := words[..n], m[words[i] := c];
    assert forall k | 0 <= k < n :: front[k] == words[k];
    if i == n {
      TotalSame(front, m, m2);
    } else {
      TotalUpdate(front, m, i, c);
    }
  }

  lemma {:induction false} TotalZero(words: seq<string>, m: map<string, nat>)
    ensures Total(words, m) == 0 <==> forall i | 0 <= i < |words| :: Count(m, words[i]) == 0
    decreases |words|
  {
    if words != [] {
      var n := |words| - 1;
      var front := words[..n];
      TotalZero(front, m);
      assert forall k | 0 <= k < n :: front[k] == words[k];
      if forall i | 0 <= i < |front| :: Count(m, front[i]) == 0 {
        assert forall k | 0 <= k < n :: Count(m, words[k]) == 0;
      }
    }
  }

  // ------------------------------------------------------------------ what a split is

  /** The split takes `r + 1` of each of the first `i` words and `r` of each of the
      others, or all that there is. */
  ghost predicate InRounds(words: seq<string>, before: map<string, nat>, data: map<string, nat>, r: nat, i: nat) {
    forall k | 0 <= k < |words| ::
      Count(data, words[k]) == Min(Count(before, words[k]), if k < i then r + 1 else r)
  }

  ghost predicate Moves(words: seq<string>, before: map<string, nat>, after: map<string, nat>, data: map<string, nat>) {
    && (forall k | 0 <= k < |words| :: Count(before, words[k]) == Count(after, words[k]) + Count(data, words[k]))
    && (forall w | w in data :: w in words && data[w] > 0)
  }

  /** A split moves messages out of `before`, as many as its size allows, in rounds. */
  ghost predicate IsSplit(words: seq<string>, before: map<string, nat>, after: map<string, nat>, limit: int,
                          data: map<string, nat>)
  {
    && Moves(words, before, after, data)
    && Total(words, data) == Quota(limit, Total(words, before))
    && exists r, i :: InRounds(words, before, data, r, i)
  }

  lemma {:induction false} TotalsAdd(words: seq<string>, before: map<string, nat>, after: map<string, nat>,
                                     data: map<string, nat>)
    requires forall k | 0 <= k < |words| :: Count(before, words[k]) == Count(after, words[k]) + Count(data, words[k])
    ensures Total(words, before) == Total(words, after) + Total(words, data)
    decreases |words|
  {
    if words != [] {
      var n := |words| - 1;
      var front := words[..n];
      assert forall k | 0 <= k < n :: front[k] == words[k];
      TotalsAdd(front, before, after, data);
    }
  }

  ghost function HandedOut(splits: seq<map<string, nat>>, w: string): nat {
    if splits == [] then 0 else HandedOut(splits[..|splits| - 1], w) + Count(splits[|splits| - 1], w)
  }

  /** A sequence of polls: what each split leaves is what the next one starts from. */
  ghost predicate Polls(words: seq<string>, states: seq<map<string, nat>>, limit: int, splits: seq<map<string, nat>>) {
    && |states| == |splits| + 1
    && forall i | 0 <= i < |splits| :: IsSplit(words, states[i], states[i + 1], limit, splits[i])
  }

  /** After any number of polls, what is left of a word and what was handed out of it are
      what there was at first. */
  lemma {:induction false} WordsConserved(words: seq<string>, states: seq<map<string, nat>>, limit: int,
                                          splits: seq<map<string, nat>>, w: string)
    requires Polls(words, states, limit, splits) && w in words
    ensures Count(states[0], w) == Count(states[|splits|], w) + HandedOut(splits, w)
    decreases |splits|
  {
    if splits != [] {
      var n := |splits| - 1;
      hide InRounds, Total;
      PollsFront(words, states, limit, splits);
      WordsConserved(words, states[..n + 1], limit, splits[..n], w);
      assert IsSplit(words, states[n], states[n + 1], limit, splits[n]);
      var k :| 0 <= k < |words| && words[k] == w;
    }
  }

  lemma PollsFront(words: seq<string>, states: seq<map<string, nat>>, limit: int, splits: seq<map<string, nat>>)
    requires Polls(words, states, limit, splits) && splits != []
    ensures Polls(words, states[..|splits|], limit, splits[..|splits| - 1])
  {
    hide IsSplit;
  }

  /** With a positive limit, `p` polls leave all but `p` times the limit, or nothing. */
  lemma {:induction false} PollsTakeTheLimit(words: seq<string>, states: seq<map<string, nat>>, limit: nat,
                                             splits: seq<map<string, nat>>)
    requires Polls(words, states, limit, splits)
    ensures Total(words, states[|splits|]) == Total(words, states[0]) - Min(|splits| * limit, Total(words, states[0]))
    decreases |splits|
  {
    if splits != [] {
      var n := |splits| - 1;
      PollsFront(words, states, limit, splits);
      PollsTakeTheLimit(words, states[..n + 1], limit, splits[..n]);
      var left := Total(words, states[n]);
      assert IsSplit(words, states[n], states[n + 1], limit, splits[n]);
      TotalsAdd(words, states[n], states[n + 1], splits[n]);
      assert |splits| * limit == n * limit + limit;
    }
  }

  /** Once everything is gone, every word was handed out as often as there was of it. */
  lemma AllHandedOut(words: seq<string>, states: seq<map<string, nat>>, limit: nat, splits: seq<map<string, nat>>,
                     w: string)
    requires Polls(words, states, limit, splits) && w in words
    requires |splits| * limit >= Total(words, states[0])
    ensures Total(words, states[|splits|]) == 0
    ensures HandedOut(splits, w) == Count(states[0], w)
  {
    hide IsSplit;
    PollsTakeTheLimit(words, states, limit, splits);
    WordsConserved(words, states, limit, splits, w);
    TotalZero(words, states[|splits|]);
    var k :| 0 <= k < |words| && words[k] == w;
  }

  /** Without a limit one poll takes everything. */
  lemma NoLimitTakesAll(words: seq<string>, before: map<string, nat>, after: map<string, nat>, limit: int,
                        data: map<string, nat>, w: string)
    requires IsSplit(words, before, after, limit, data) && limit < 0 && w in words
    ensures Count(data, w) == Count(before, w) && Count(after, w) == 0
  {
    hide InRounds;
    TotalsAdd(words, before, after, data);
    TotalZero(words, after);
    var k :| 0 <= k < |words| && words[k] == w;
  }

  /** A split is even: of two words one is taken at most once more often than the other, and
      then it is the earlier one, unless the other is used up. */
  lemma SplitIsEven(words: seq<string>, before: map<string, nat>, after: map<string, nat>, limit: int,
                    data: map<string, nat>, k: nat, l: nat)
    requires IsSplit(words, before, after, limit, data) && k < |words| && l < |words|
    ensures || Count(after, words[l]) == 0
            || Count(data, words[k]) <= Count(data, words[l]) + if k < l then 1 else 0
  {
    hide Total;
    var r, i :| InRounds(words, before, data, r, i);
  }

  // ------------------------------------------------------------------ taking a split in rounds

  lemma Wrap(words: seq<string>, before: map<string, nat>, data: map<string, nat>, r: nat)
    requires InRounds(words, before, data, r, |words|)
    ensures InRounds(words, before, data, r + 1, 0)
  {
  }

  lemma Skip(words: seq<string>, before: map<string, nat>, after: map<string, nat>, data: map<string, nat>, r: nat,
             i: nat)
    requires Moves(words, before, after, data) && InRounds(words, before, data, r, i)
    requires i < |words| && Count(after, words[i]) == 0
    ensures InRounds(words, before, data, r, i + 1)
  {
  }

  function OneMore(m: map<string, nat>, w: string): map<string, nat> {
    m[w := if w in m then m[w] + 1 else 1]
  }

  function OneLess(m: map<string, nat>, w: string): map<string, nat>
    requires w in m && m[w] > 0
  {
    m[w := m[w] - 1]
  }

  lemma TakeMoves(words: seq<string>, before: map<string, nat>, after: map<string, nat>, data: map<string, nat>, i: nat)
    requires Distinct(words) && Moves(words, before, after, data)
    requires i < |words| && words[i] in after && after[words[i]] > 0
    ensures Moves(words, before, OneLess(after, words[i]), OneMore(data, words[i]))
  {
  }

  lemma TakeTotals(words: seq<string>, after: map<string, nat>, data: map<string, nat>, i: nat)
    requires Distinct(words) && i < |words| && words[i] in after && after[words[i]] > 0
    ensures Total(words, OneLess(after, words[i])) == Total(words, after) - 1
    ensures Total(words, OneMore(data, words[i])) == Total(words, data) + 1
  {
    hide Total, Distinct;
    var w := words[i];
    TotalUpdate(words, after, i, after[w] - 1);
    TotalUpdate(words, data, i, if w in data then data[w] + 1 else 1);
  }

  lemma Take(words: seq<string>, before: map<string, nat>, after: map<string, nat>, data: map<string, nat>, r: nat,
             i: nat)
    requires Distinct(words) && Moves(words, before, after, data) && InRounds(words, before, data, r, i)
    requires i < |words| && words[i] in after && after[words[i]] > 0
    ensures InRounds(words, before, OneMore(data, words[i]), r, i + 1)
  {
  }

  ghost predicate Counts(words: seq<string>, m: map<string, nat>) {
    Distinct(words) && forall w :: w in m <==> w in words
  }

  lemma OneLessCounts(words: seq<string>, m: map<string, nat>, i: nat)
    requires Counts(words, m) && i < |words|
    ensures words[i] in m
    ensures m[words[i]] > 0 ==> Counts(words, OneLess(m, words[i]))
  {
    assert words[i] in words;
  }

  ghost predicate AllZero(words: seq<string>, m: map<string, nat>) {
    forall i | 0 <= i < |words| :: Count(m, words[i]) == 0
  }

  ghost predicate SomeAhead(words: seq<string>, m: map<string, nat>, index: nat) {
    exists k :: index <= k < |words| && Count(m, words[k]) != 0
  }

  /** How far the next word that is left can be from `index`, going round. */
  ghost function Distance(words: seq<string>, m: map<string, nat>, index: nat): nat
    requires index <= |words|
  {
    if SomeAhead(words, m, index) then |words| - index else 2 * |words| - index
  }

  /** Back to the start after the last word. */
  function Position(index: nat, n: nat): (i: nat)
    requires n > 0 && index <= n
    ensures i < n && i == if index == n then 0 else index
  {
    index % n
  }

  lemma SkipIsCloser(words: seq<string>, m: map<string, nat>, index: nat)
    requires index <= |words| && !AllZero(words, m)
    requires |words| > 0 && Count(m, words[Position(index, |words|)]) == 0
    ensures Distance(words, m, Position(index, |words|) + 1) < Distance(words, m, index)
  {
    hide Position;
    var i := Position(index, |words|);
    var k :| 0 <= k < |words| && Count(m, words[k]) != 0;
    if index == |words| {
      assert i == 0;
      assert !SomeAhead(words, m, index);
      assert SomeAhead(words, m, 1);
    } else {
      assert i == index;
      if SomeAhead(words, m, index) {
        var a :| index <= a < |words| && Count(m, words[a]) != 0;
        assert a != index;
        assert SomeAhead(words, m, index + 1);
      } else {
        assert !SomeAhead(words, m, index + 1);
      }
    }
  }

  lemma SomeLeft(words: seq<string>, m: map<string, nat>)
    requires !AllZero(words, m)
    ensures |words| > 0
  {
  }

  lemma NothingTaken(words: seq<string>, before: map<string, nat>)
    ensures Moves(words, before, before, map[]) && InRounds(words, before, map[], 0, 0)
    ensures Total(words, map[]) == 0
  {
    TotalZero(words, map[]);
  }

  lemma MovedTotals(words: seq<string>, before: map<string, nat>, after: map<string, nat>, data: map<string, nat>)
    requires Moves(words, before, after, data)
    ensures Total(words, before) == Total(words, after) + Total(words, data)
  {
    TotalsAdd(words, before, after, data);
  }

  /** The loop's exit condition makes the split full. */
  lemma Full(words: seq<string>, before: map<string, nat>, after: map<string, nat>, limit: int,
             data: map<string, nat>, r: nat, i: nat)
    requires Moves(words, before, after, data) && InRounds(words, before, data, r, i)
    requires limit >= 0 ==> Total(words, data) <= limit
    requires Total(words, data) == limit || Total(words, after) == 0
    ensures IsSplit(words, before, after, limit, data)
  {
    hide Moves, InRounds, Total;
    MovedTotals(words, before, after, data);
  }

  class WordCountSplitEnumerator {
    const words: seq<string>
    const limit: int
    var counts: map<string, nat>

    ghost predicate Valid()
      reads this
    {
      Counts(words, counts)
    }

    /** A word that the dictionary repeats counts once. */
    constructor (countPerWord: nat, limit: int, dictionary: seq<string>)
      ensures Valid() && this.limit == limit
      ensures forall w :: w in words <==> w in dictionary
      ensures forall w | w in dictionary :: counts[w] == countPerWord
    {
      var ws: seq<string>, m: map<string, nat> := [], map[];
      var i := 0;
      while i < |dictionary|
        invariant i <= |dictionary|
        invariant Distinct(ws)
        invariant forall w :: w in m <==> w in ws
        invariant forall w :: w in ws <==> w in dictionary[..i]
        invariant forall w | w in m :: m[w] == countPerWord
      {
        assert dictionary[..i + 1] == dictionary[..i] + [dictionary[i]];
        if dictionary[i] !in m {
          ws := ws + [dictionary[i]];
        }
        m := m[dictionary[i] := countPerWord];
        i := i + 1;
      }
      assert dictionary[..i] == dictionary;
      this.words := ws;
      this.limit := limit;
      this.counts := m;
    }

    method AllDone() returns (done: bool)
      requires Valid()
      ensures done <==> AllZero(words, counts)
      ensures done <==> Total(words, counts) == 0
    {
      TotalZero(words, counts);
      done := true;
      var i := 0;
      while i < |words|
        invariant i <= |words|
        invariant done <==> forall k | 0 <= k < i :: Count(counts, words[k]) == 0
      {
        if counts[words[i]] != 0 {
          done := false;
        }
        i := i + 1;
      }
    }

    /** Takes one message of word `i` if any is left. */
    method Visit(i: nat, ghost before: map<string, nat>, data: map<string, nat>, ghost r: nat)
      returns (taken: bool, data2: map<string, nat>)
      requires Valid() && i < |words|
      requires Moves(words, before, counts, data) && InRounds(words, before, data, r, i)
      modifies this
      ensures Valid() && Moves(words, before, counts, data2) && InRounds(words, before, data2, r, i + 1)
      ensures taken ==> Total(words, counts) == Total(words, old(counts)) - 1
      ensures taken ==> Total(words, data2) == Total(words, data) + 1
      ensures !taken ==> counts == old(counts) && data2 == data && Count(counts, words[i]) == 0
    {
      var word := words[i];
      OneLessCounts(words, counts, i);
      if counts[word] == 0 {
        Skip(words, before, counts, data, r, i);
        return false, data;
      }
      TakeMoves(words, before, counts, data, i);
      TakeTotals(words, counts, data, i);
      Take(words, before, counts, data, r, i);
      hide Total, Moves, InRounds, Counts;
      data2 := OneMore(data, word);
      counts := OneLess(counts, word);
      taken := true;
    }

    /** One turn of the loop: the next word in the round. */
    method Turn(index: nat, ghost before: map<string, nat>, data: map<string, nat>, ghost r: nat)
      returns (taken: bool, next: nat, data2: map<string, nat>, ghost r2: nat)
      requires Valid() && !AllZero(words, counts) && index <= |words|
      requires Moves(words, before, counts, data) && InRounds(words, before, data, r, index)
      modifies this
      ensures Valid() && next <= |words|
      ensures Moves(words, before, counts, data2) && InRounds(words, before, data2, r2, next)
      ensures taken ==> Total(words, counts) < Total(words, old(counts))
      ensures taken ==> Total(words, data2) == Total(words, data) + 1
      ensures !taken ==> counts == old(counts) && data2 == data
      ensures !taken ==> Distance(words, counts, next) < Distance(words, counts, index)
    {
      hide Valid, Total, Moves, InRounds, AllZero, Distance, Position, Count;
      SomeLeft(words, counts);
      r2 := r;
      if index == |words| {
        Wrap(words, before, data, r);
        r2 := r + 1;
      }
      var i := Position(index, |words|);
      taken, data2 := Visit(i, before, data, r2);
      if !taken {
        SkipIsCloser(words, counts, index);
      }
      next := i + 1;
    }

    /** Goes round the words until the split is full or nothing is left. */
    method Fill() returns (data: map<string, nat>)
      requires Valid() && !AllZero(words, counts)
      modifies this
      ensures Valid()
      ensures IsSplit(words, old(counts), counts, limit, data)
    {
      ghost var before, r := counts, 0;
      data := map[];
      var numMsgs: nat, index: nat, done, taken := 0, 0, false, false;
      NothingTaken(words, before);
      hide Valid, Total, Moves, InRounds, IsSplit, AllZero, Distance, Count;
      while numMsgs != limit && !done
        invariant Valid()
        invariant done <==> AllZero(words, counts)
        invariant done ==> Total(words, counts) == 0
        invariant index <= |words|
        invariant Moves(words, before, counts, data) && InRounds(words, before, data, r, index)
        invariant numMsgs == Total(words, data)
        invariant limit >= 0 ==> numMsgs <= limit
        decreases Total(words, counts), Distance(words, counts, index)
      {
        taken, index, data, r := Turn(index, before, data, r);
        if taken {
          numMsgs := numMsgs + 1;
          done := AllDone();
        }
      }
      Full(words, before, counts, limit, data, r, index);
    }

    /** The limit may be anything; with a limit of zero, splits are empty for ever. */
    method PollNextSplit() returns (split: Split)
      requires Valid()
      modifies this
      ensures Valid()
      ensures split.EndOfInput? <==> Total(words, old(counts)) == 0
      ensures split.EndOfInput? ==> counts == old(counts)
      ensures split.MoreAvailable? ==> IsSplit(words, old(counts), counts, limit, split.words)
    {
      hide IsSplit, AllZero, Total;
      var done := AllDone();
      if done {
        return EndOfInput;
      }
      var data := Fill();
      split := MoreAvailable(data);
    }
  }
}
