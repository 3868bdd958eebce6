/** `items.sort((a, b) => new Date(a.match_date) - new Date(b.match_date))`:
    a stable in-place sort by ascending match time. `SortByDate` says what a
    stable sort produces; `SortInPlace` is an insertion sort on an array that
    is proved to produce exactly that. */
module Sorting {
  import opened Records
  import opened Sequences

  predicate SortedByDate(s: seq<Prediction>) {
    forall i, j :: 0 <= i < j < |s| ==> s[i].matchDate <= s[j].matchDate
  }

  /** `s` with `x` inserted after every element not later than it (the
      position an insertion sort scanning from the back finds). */
  function Insert(x: Prediction, s: seq<Prediction>): seq<Prediction> {
    if s == [] then [x]
    else if s[|s| - 1].matchDate > x.matchDate then Insert(x, s[..|s| - 1]) + [s[|s| - 1]]
    else s + [x]
  }

  /** The order a stable sort by match time gives `s`. */
  function SortByDate(s: seq<Prediction>): seq<Prediction> {
    if s == [] then [] else Insert(s[|s| - 1], SortByDate(s[..|s| - 1]))
  }

  /** The records that start at instant `d`. */
  function At(d: int): Prediction -> bool {
    (p: Prediction) => p.matchDate == d
  }

  /** Where `Insert` puts `x`: before the block of later elements at the end
      of `s`, and after everything else. */
  lemma {:induction false} InsertSplit(x: Prediction, s: seq<Prediction>) returns (k: nat)
    ensures k <= |s| && Insert(x, s) == s[..k] + [x] + s[k..]
    ensures forall i :: k <= i < |s| ==> s[i].matchDate > x.matchDate
    ensures k > 0 ==> s[k - 1].matchDate <= x.matchDate
    decreases |s|
  {
    if s == [] {
      k := 0;
    } else if s[|s| - 1].matchDate > x.matchDate {
      var init := s[..|s| - 1];
      k := InsertSplit(x, init);
      assert init[..k] == s[..k];
      assert init[k..] + [s[|s| - 1]] == s[k..];
    } else {
      k := |s|;
    }
  }

  /** Conversely, a position with only later elements after it and no later
      element just before it is where `Insert` puts `x`. */
  lemma {:induction false} InsertAt(x: Prediction, s: seq<Prediction>, k: nat)
    requires k <= |s|
    requires forall i :: k <= i < |s| ==> s[i].matchDate > x.matchDate
    requires k > 0 ==> s[k - 1].matchDate <= x.matchDate
    ensures Insert(x, s) == s[..k] + [x] + s[k..]
    decreases |s|
  {
    if s == [] {
    } else if k == |s| {
      assert s[..k] == s && s[k..] == [];
    } else {
      var init := s[..|s| - 1];
      InsertAt(x, init, k);
      assert init[..k] == s[..k];
      assert init[k..] + [s[|s| - 1]] == s[k..];
    }
  }

  /** Two sorted runs with `x` between them form a sorted sequence when `x`
      is not earlier than the first run nor later than the second. */
  lemma {:induction false} SortedAround(a: seq<Prediction>, x: Prediction, b: seq<Prediction>)
    requires SortedByDate(a) && SortedByDate(b)
    requires forall i :: 0 <= i < |a| ==> a[i].matchDate <= x.matchDate
    requires forall i :: 0 <= i < |b| ==> x.matchDate <= b[i].matchDate
    ensures SortedByDate(a + [x] + b)
  {
    var r := a + [x] + b;
    forall i, j | 0 <= i < j < |r| ensures r[i].matchDate <= r[j].matchDate {
      if j < |a| {
        assert r[i] == a[i] && r[j] == a[j];
      } else if j == |a| {
        assert r[i] == a[i];
      } else if i < |a| {
        assert r[i] == a[i] && r[j] == b[j - |a| - 1];
      } else if i > |a| {
        assert r[i] == b[i - |a| - 1] && r[j] == b[j - |a| - 1];
      }
    }
  }

  /** Every slice of a sorted sequence is sorted. */
  lemma {:induction false} SortedSlice(s: seq<Prediction>, lo: int, hi: int)
    requires SortedByDate(s) && 0 <= lo <= hi <= |s|
    ensures SortedByDate(s[lo..hi])
  {
    var t := s[lo..hi];
    forall i, j | 0 <= i < j < |t| ensures t[i].matchDate <= t[j].matchDate {
      assert t[i] == s[lo + i] && t[j] == s[lo + j];
    }
  }

  /** In a sorted sequence, everything up to an element not later than `x`
      is not later than `x` either. */
  lemma {:induction false} PrefixNotLater(s: seq<Prediction>, k: nat, x: Prediction)
    requires SortedByDate(s) && 0 < k <= |s| && s[k - 1].matchDate <= x.matchDate
    ensures forall i :: 0 <= i < |s[..k]| ==> s[..k][i].matchDate <= x.matchDate
  {
    forall i | 0 <= i < k ensures s[..k][i].matchDate <= x.matchDate {
      assert s[..k][i] == s[i];
    }
  }

  /** Putting `x` into a sorted sequence at position `k`, after the elements
      not later than it and before the later ones, keeps it sorted. */
  lemma {:induction false} SpliceSorted(s: seq<Prediction>, k: nat, x: Prediction)
    requires SortedByDate(s) && k <= |s|
    requires forall i :: k <= i < |s| ==> s[i].matchDate > x.matchDate
    requires k > 0 ==> s[k - 1].matchDate <= x.matchDate
    ensures SortedByDate(s[..k] + [x] + s[k..])
  {
    if k > 0 {
      PrefixNotLater(s, k, x);
    }
    SortedSlice(s, 0, k);
    SortedSlice(s, k, |s|);
    assert s[..k] == s[0..k] && s[k..] == s[k..|s|];
    SortedAround(s[..k], x, s[k..]);
  }

  /** Putting `x` anywhere into `s` adds exactly `x`. */
  lemma {:induction false} SpliceMultiset(s: seq<Prediction>, k: nat, x: Prediction)
    requires k <= |s|
    ensures multiset(s[..k] + [x] + s[k..]) == multiset(s) + multiset{x}
  {
    assert s == s[..k] + s[k..];
  }

  /** Inserting into a sorted sequence keeps it sorted and adds exactly `x`. */
  lemma {:induction false} InsertSorted(x: Prediction, s: seq<Prediction>)
    requires SortedByDate(s)
    ensures SortedByDate(Insert(x, s))
    ensures multiset(Insert(x, s)) == multiset(s) + multiset{x}
  {
    var k := InsertSplit(x, s);
    SpliceSorted(s, k, x);
    InsertMultiset(x, s);
  }

  /** Inserting adds exactly `x`. */
  lemma {:induction false} InsertMultiset(x: Prediction, s: seq<Prediction>)
    ensures multiset(Insert(x, s)) == multiset(s) + multiset{x}
    ensures |Insert(x, s)| == |s| + 1
  {
    var k := InsertSplit(x, s);
    SpliceMultiset(s, k, x);
  }

  /** The stable sort is sorted. */
  lemma {:induction false} SortByDateSorted(s: seq<Prediction>)
    ensures SortedByDate(SortByDate(s))
    decreases |s|
  {
    if s != [] {
      var init := s[..|s| - 1];
      SortByDateSorted(init);
      InsertSorted(s[|s| - 1], SortByDate(init));
    }
  }

  /** The stable sort is a permutation of its input. */
  lemma {:induction false} SortByDatePermutes(s: seq<Prediction>)
    ensures multiset(SortByDate(s)) == multiset(s)
    ensures |SortByDate(s)| == |s|
    decreases |s|
  {
    if s != [] {
      var init, x := s[..|s| - 1], s[|s| - 1];
      SortByDatePermutes(init);
      InsertMultiset(x, SortByDate(init));
      assert s == init + [x];
    }
  }

  /** Filtering a single element. */
  lemma {:induction false} FilterSingle(x: Prediction, d: int)
    ensures Filter([x], At(d)) == if x.matchDate == d then [x] else []
  {
    assert [x][1..] == [];
  }

  /** Splicing `x` in before a run of later elements adds `x` at the end of
      the records that share its match time, and changes no other match
      time's records. */
  lemma {:induction false} SpliceFilter(t: seq<Prediction>, k: nat, x: Prediction, d: int)
    requires k <= |t|
    requires forall i :: k <= i < |t| ==> t[i].matchDate > x.matchDate
    ensures Filter(t[..k] + [x] + t[k..], At(d)) == Filter(t, At(d)) + Filter([x], At(d))
  {
    var before, after := t[..k], t[k..];
    FilterAppend(before + [x], after, At(d));
    FilterAppend(before, [x], At(d));
    FilterAppend(before, after, At(d));
    assert t == before + after;
    FilterSingle(x, d);
    if x.matchDate == d {
      forall i | 0 <= i < |after| ensures !At(d)(after[i]) {
        assert after[i] == t[k + i];
      }
      FilterKeepNone(after, At(d));
    }
  }

  /** The sort is stable: records with the same match time keep the order
      they had in the input. */
  lemma {:induction false} SortByDateStable(s: seq<Prediction>, d: int)
    ensures Filter(SortByDate(s), At(d)) == Filter(s, At(d))
    decreases |s|
  {
    if s != [] {
      var init, x := s[..|s| - 1], s[|s| - 1];
      var t := SortByDate(init);
      SortByDateStable(init, d);
      var k := InsertSplit(x, t);
      SpliceFilter(t, k, x, d);
      FilterAppend(init, [x], At(d));
      assert s == init + [x];
    }
  }

  /** Sorting an already sorted sequence changes nothing. */
  lemma {:induction false} SortByDateOfSorted(s: seq<Prediction>)
    requires SortedByDate(s)
    ensures SortByDate(s) == s
    decreases |s|
  {
    if s != [] {
      var init := s[..|s| - 1];
      SortByDateOfSorted(init);
      InsertAt(s[|s| - 1], init, |init|);
      assert init + [s[|s| - 1]] == s;
    }
  }

  /** Moves `a[i]` left past the elements of `a[..i]` that start strictly
      later than it: one step of the insertion sort. */
  method InsertLast(a: array<Prediction>, i: int)
    requires 0 <= i < a.Length
    modifies a
    ensures a[..i + 1] == Insert(old(a[i]), old(a[..i]))
    ensures a[i + 1..] == old(a[i + 1..])
  {
    ghost var before := a[..i];
    var x := a[i];
    var j := i;
    while j > 0 && a[j - 1].matchDate > x.matchDate
      invariant 0 <= j <= i
      invariant a[..j] == before[..j]
      invariant a[j + 1..i + 1] == before[j..]
      invariant forall k :: j <= k < i ==> before[k].matchDate > x.matchDate
      invariant a[i + 1..] == old(a[i + 1..])
    {
      a[j] := a[j - 1];
      assert a[j..i + 1] == [before[j - 1]] + before[j..];
      j := j - 1;
    }
    a[j] := x;
    InsertAt(x, before, j);
    assert a[..i + 1] == a[..j] + [x] + a[j + 1..i + 1];
  }

  /** `items.sort(...)` by match time, in place: an insertion sort that moves
      each element left past the earlier elements that start strictly later,
      so that ties keep their order. */
  method SortInPlace(a: array<Prediction>)
    modifies a
    ensures a[..] == SortByDate(old(a[..]))
  {
    ghost var input := a[..];
    var i := 0;
    while i < a.Length
      invariant 0 <= i <= a.Length
      invariant a[..i] == SortByDate(input[..i])
      invariant a[i..] == input[i..]
    {
      InsertLast(a, i);
      assert input[..i + 1][..i] == input[..i];
      i := i + 1;
    }
    assert a[..] == a[..a.Length] && input == input[..a.Length];
  }
}
