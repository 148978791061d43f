/** The array operations the components use, as functions on sequences:
    `find`/`findIndex`, `filter` and `slice`. */
module Sequences {
  import opened Options

  /** The index `Array.prototype.findIndex` returns for the element `x`
      (`None` for -1): the first position holding `x`. */
  function FirstIndex<T(==)>(xs: seq<T>, x: T): (r: Option<nat>)
    ensures r.None? <==> x !in xs
    ensures r.Some? ==> r.value < |xs| && xs[r.value] == x && x !in xs[..r.value]
    decreases |xs|
  {
    if xs == [] then None
    else if xs[0] == x then Some(0)
    else match FirstIndex(xs[1..], x)
      case None => None
      case Some(k) =>
        assert xs[..k + 1] == [xs[0]] + xs[1..][..k];
        Some(k + 1)
  }

  /** `r` is `s` with some elements left out, the rest kept in their order. */
  ghost predicate IsSubsequence<T>(r: seq<T>, s: seq<T>)
    decreases |s|
  {
    if r == [] then true
    else if s == [] then false
    else (r[0] == s[0] && IsSubsequence(r[1..], s[1..])) || IsSubsequence(r, s[1..])
  }

  lemma {:induction false} SubsequenceRefl<T>(s: seq<T>)
    ensures IsSubsequence(s, s)
    decreases |s|
  {
    if s != [] {
      SubsequenceRefl(s[1..]);
    }
  }

  /** `s.filter(keep)`: exactly the elements satisfying `keep`, in their order. */
  function Filter<T(!new)>(s: seq<T>, keep: T -> bool): (r: seq<T>)
    ensures |r| <= |s|
    ensures forall x :: x in r <==> x in s && keep(x)
    ensures forall i :: 0 <= i < |r| ==> keep(r[i])
    ensures IsSubsequence(r, s)
    decreases |s|
  {
    if s == [] then []
    else
      var rest := Filter(s[1..], keep);
      assert forall x :: x in s <==> x == s[0] || x in s[1..];
      if keep(s[0]) then
        assert ([s[0]] + rest)[1..] == rest;
        [s[0]] + rest
      else rest
  }

  /** `Filter` keeps every element satisfying `keep` as often as it occurs in `s`,
      and no other element. */
  lemma {:induction false} FilterMultiset<T(!new)>(s: seq<T>, keep: T -> bool)
    ensures forall x :: multiset(Filter(s, keep))[x] == if keep(x) then multiset(s)[x] else 0
    decreases |s|
  {
    if s != [] {
      FilterMultiset(s[1..], keep);
      assert s == [s[0]] + s[1..];
      assert multiset(s) == multiset{s[0]} + multiset(s[1..]);
      var rest := Filter(s[1..], keep);
      if keep(s[0]) {
        assert multiset([s[0]] + rest) == multiset{s[0]} + multiset(rest);
      }
    }
  }

  /** The number of elements of `s` satisfying `keep`. */
  function CountWhere<T>(s: seq<T>, keep: T -> bool): nat
    decreases |s|
  {
    if s == [] then 0 else (if keep(s[0]) then 1 else 0) + CountWhere(s[1..], keep)
  }

  /** `filter(keep).length` is the number of elements satisfying `keep`. */
  lemma {:induction false} FilterLength<T(!new)>(s: seq<T>, keep: T -> bool)
    ensures |Filter(s, keep)| == CountWhere(s, keep)
    decreases |s|
  {
    if s != [] {
      FilterLength(s[1..], keep);
    }
  }

  /** A filter that keeps every element returns the sequence unchanged. */
  lemma {:induction false} FilterAll<T(!new)>(s: seq<T>, keep: T -> bool)
    requires forall x :: x in s ==> keep(x)
    ensures Filter(s, keep) == s
    decreases |s|
  {
    if s != [] {
      assert forall x :: x in s[1..] ==> x in s;
      FilterAll(s[1..], keep);
      assert [s[0]] + s[1..] == s;
    }
  }

  /** The index `Array.prototype.slice` uses for a start or end argument `i`
      on an array of length `n`: negative values count from the end, and the
      result is clamped to `[0, n]`. */
  function RelativeIndex(i: int, n: nat): (k: nat)
    ensures k <= n
    ensures 0 <= i ==> k == if i < n then i else n
    ensures i < 0 && 0 <= n + i ==> k == n + i
    ensures n + i < 0 ==> k == 0
  {
    if i < 0 then (if n + i < 0 then 0 else n + i)
    else if i < n then i else n
  }

  /** `s.slice(start, end)`. */
  function JsSlice<T>(s: seq<T>, start: int, end: int): seq<T> {
    var from, to := RelativeIndex(start, |s|), RelativeIndex(end, |s|);
    if from < to then s[from..to] else []
  }

  /** For non-negative bounds, `slice` is empty from a start at or past the end,
      and otherwise the run from `start` up to `end` or the end of `s`. */
  lemma JsSliceSpec<T>(s: seq<T>, start: int, end: int)
    ensures |JsSlice(s, start, end)| <= |s|
    ensures 0 <= start <= end && start >= |s| ==> JsSlice(s, start, end) == []
    ensures 0 <= start <= end && start < |s| ==>
      JsSlice(s, start, end) == s[start..if end < |s| then end else |s|]
  {
  }
}
