/** Order-preserving selection from a sequence (LINQ FindAll / Where). */
module Seqs {

  function Filter<T>(p: T -> bool, s: seq<T>): (r: seq<T>)
    ensures |r| <= |s|
    ensures forall x :: x in r ==> x in s && p(x)
    ensures forall i :: 0 <= i < |s| && p(s[i]) ==> s[i] in r
  {
    if s == [] then []
    else Filter(p, s[..|s| - 1]) + (if p(s[|s| - 1]) then [s[|s| - 1]] else [])
  }

  /** The positions of s that Filter keeps, in increasing order. */
  function FilterIndexes<T>(p: T -> bool, s: seq<T>): seq<nat>
  {
    if s == [] then []
    else FilterIndexes(p, s[..|s| - 1]) + (if p(s[|s| - 1]) then [|s| - 1] else [])
  }

  /**
   * Filter(p, s) is the subsequence of s at the strictly increasing positions
   * FilterIndexes(p, s), so it keeps the selected elements in their original order.
   */
  lemma {:induction false} FilterIsSubsequence<T>(p: T -> bool, s: seq<T>)
    ensures var ix := FilterIndexes(p, s);
      |ix| == |Filter(p, s)|
      && (forall j :: 0 <= j < |ix| ==> ix[j] < |s| && p(s[ix[j]]) && Filter(p, s)[j] == s[ix[j]])
      && (forall j, k :: 0 <= j < k < |ix| ==> ix[j] < ix[k])
    decreases |s|
  {
    if s != [] {
      var n := |s| - 1;
      var init := s[..n];
      FilterIsSubsequence(p, init);
      var ix0 := FilterIndexes(p, init);
      var f0 := Filter(p, init);
      var ix := FilterIndexes(p, s);
      var f := Filter(p, s);
      forall j | 0 <= j < |ix0|
        ensures ix[j] == ix0[j] && ix[j] < n && p(s[ix[j]]) && f[j] == s[ix[j]]
      {
        assert init[ix0[j]] == s[ix0[j]];
      }
    }
  }

  lemma {:induction false} FilterAppend<T>(p: T -> bool, a: seq<T>, b: seq<T>)
    ensures Filter(p, a + b) == Filter(p, a) + Filter(p, b)
    decreases |b|
  {
    if b == [] {
      assert a + b == a;
    } else {
      var b' := b[..|b| - 1];
      assert (a + b)[..|a + b| - 1] == a + b';
      FilterAppend(p, a, b');
    }
  }

  /** Every element satisfies p exactly when nothing is dropped. */
  lemma {:induction false} FilterKeepsAll<T>(p: T -> bool, s: seq<T>)
    requires forall i :: 0 <= i < |s| ==> p(s[i])
    ensures Filter(p, s) == s
  {
    if s != [] {
      FilterKeepsAll(p, s[..|s| - 1]);
      assert s[..|s| - 1] + [s[|s| - 1]] == s;
    }
  }

  lemma {:induction false} FilterDropsAll<T>(p: T -> bool, s: seq<T>)
    requires forall i :: 0 <= i < |s| ==> !p(s[i])
    ensures Filter(p, s) == []
  {
    if s != [] {
      FilterDropsAll(p, s[..|s| - 1]);
    }
  }
}
