/** The array operations the list derivation is built from: `filter` and
    `slice(0, end)`, with the order relation "is a subsequence of". */
module Sequences {
  import opened Wrappers

  /** `a` can be obtained from `b` by deleting elements: the elements of `a`
      appear in `b` in the same relative order. */
  predicate IsSubsequence<T(==)>(a: seq<T>, b: seq<T>)
    decreases |b|
  {
    a == [] || (b != [] && (if a[0] == b[0] then IsSubsequence(a[1..], b[1..]) else IsSubsequence(a, b[1..])))
  }

  lemma {:induction false} IsSubsequenceReflexive<T>(s: seq<T>)
    ensures IsSubsequence(s, s)
    decreases |s|
  {
    if s != [] {
      IsSubsequenceReflexive(s[1..]);
    }
  }

  /** `s.filter(keep)`: the elements that pass `keep`, in their original
      order, each as often as it occurs in `s`. */
  function Filter<T>(s: seq<T>, keep: T -> bool): (r: seq<T>)
    ensures |r| <= |s|
    ensures forall i :: 0 <= i < |r| ==> keep(r[i])
  {
    if s == [] then [] else (if keep(s[0]) then [s[0]] else []) + Filter(s[1..], keep)
  }

  /** The filter keeps every element that passes, as often as it occurs, and
      nothing else. */
  lemma {:induction false} FilterCounts<T(!new)>(s: seq<T>, keep: T -> bool)
    ensures forall x :: multiset(Filter(s, keep))[x] == if keep(x) then multiset(s)[x] else 0
    decreases |s|
  {
    if s != [] {
      FilterCounts(s[1..], keep);
      assert s == [s[0]] + s[1..];
    }
  }

  /** An element survives the filter exactly when it occurs in `s` and
      passes `keep`. */
  lemma FilterMembers<T(!new)>(s: seq<T>, keep: T -> bool)
    ensures forall x :: x in Filter(s, keep) <==> x in s && keep(x)
  {
    FilterCounts(s, keep);
    forall x ensures x in Filter(s, keep) <==> x in s && keep(x) {
      assert x in Filter(s, keep) <==> multiset(Filter(s, keep))[x] > 0;
      assert x in s <==> multiset(s)[x] > 0;
    }
  }

  /** The filter keeps the surviving elements in their original order. */
  lemma {:induction false} FilterIsSubsequence<T>(s: seq<T>, keep: T -> bool)
    ensures IsSubsequence(Filter(s, keep), s)
    decreases |s|
  {
    if s != [] {
      FilterIsSubsequence(s[1..], keep);
      var rest := Filter(s[1..], keep);
      if !keep(s[0]) {
        assert Filter(s, keep) == rest;
        if rest != [] {
          assert keep(rest[0]);
        }
      }
    }
  }

  lemma {:induction false} FilterAppend<T>(a: seq<T>, b: seq<T>, keep: T -> bool)
    ensures Filter(a + b, keep) == Filter(a, keep) + Filter(b, keep)
    decreases |a|
  {
    if a == [] {
      assert a + b == b;
    } else {
      assert (a + b)[0] == a[0] && (a + b)[1..] == a[1..] + b;
      FilterAppend(a[1..], b, keep);
    }
  }

  /** A filter that keeps nothing of `s` leaves nothing. */
  lemma {:induction false} FilterKeepNone<T>(s: seq<T>, keep: T -> bool)
    requires forall i :: 0 <= i < |s| ==> !keep(s[i])
    ensures Filter(s, keep) == []
    decreases |s|
  {
    if s != [] {
      FilterKeepNone(s[1..], keep);
    }
  }

  /** Filtering five elements of which only the third passes. */
  lemma FilterKeepsThird<T>(s: seq<T>, keep: T -> bool)
    requires |s| == 5 && !keep(s[0]) && !keep(s[1]) && keep(s[2]) && !keep(s[3]) && !keep(s[4])
    ensures Filter(s, keep) == [s[2]]
  {
    assert Filter(s[4..], keep) == [] by { assert s[4..][1..] == []; }
    assert Filter(s[3..], keep) == [] by { assert s[3..][1..] == s[4..]; }
    assert Filter(s[2..], keep) == [s[2]] by { assert s[2..][1..] == s[3..]; }
    assert Filter(s[1..], keep) == [s[2]] by { assert s[1..][1..] == s[2..]; }
  }

  /** Where `s.slice(0, end)` stops, for the `end` that `parseInt` produced:
      `NaN` counts as 0, a negative end counts from the back, and an end past
      the length is clamped to it. */
  function SliceEnd(len: nat, end: Option<int>): (e: nat)
    ensures e <= len
  {
    match end
    case None => 0
    case Some(l) =>
      if l < 0 then (if len + l < 0 then 0 else len + l)
      else if l > len then len
      else l
  }

  /** `s.slice(0, end)`. */
  function Truncate<T>(s: seq<T>, end: Option<int>): (r: seq<T>)
    ensures r <= s
    ensures end == None ==> r == []
    ensures end.Some? && end.value >= 0 ==> |r| == (if end.value < |s| then end.value else |s|)
    ensures end.Some? && end.value < 0 ==> |r| == (if |s| + end.value < 0 then 0 else |s| + end.value)
  {
    s[..SliceEnd(|s|, end)]
  }
}
