/** Sequences without repetition, and facts about permutations that several proofs share. */
module Bags {

  ghost predicate Distinct<X>(s: seq<X>) {
    forall i, j | 0 <= i < j < |s| :: s[i] != s[j]
  }

  /** Sequences laid end to end. */
  function Flatten<X>(ss: seq<seq<X>>): (r: seq<X>) {
    if ss == [] then [] else Flatten(ss[..|ss| - 1]) + ss[|ss| - 1]
  }

  /** Removing an occurrence of the last element of `s` from a permutation of `s`. */
  lemma RemoveOne<X>(s: seq<X>, t: seq<X>) returns (i: nat)
    requires s != [] && multiset(s) == multiset(t)
    ensures i < |t| && t == t[..i] + [s[|s| - 1]] + t[i + 1..]
    ensures multiset(s[..|s| - 1]) == multiset(t[..i] + t[i + 1..])
  {
    var x := s[|s| - 1];
    assert s == s[..|s| - 1] + [x];
    assert x in multiset(t);
    i :| 0 <= i < |t| && t[i] == x;
    assert t == t[..i] + [x] + t[i + 1..];
    calc {
      multiset(s[..|s| - 1]);
      multiset(s) - multiset{x};
      multiset(t[..i] + [x] + t[i + 1..]) - multiset{x};
      multiset(t[..i]) + multiset(t[i + 1..]);
      multiset(t[..i] + t[i + 1..]);
    }
  }

  lemma EmptyBag<X>(s: seq<X>)
    requires multiset(s) == multiset{}
    ensures s == []
  {
    assert |multiset(s)| == |s|;
  }

  lemma MiddleBag<X>(a: seq<X>, x: seq<X>, b: seq<X>)
    ensures multiset(a + x + b) == multiset(a + b) + multiset(x)
  {
  }
}
