/** Page arithmetic of the admin product table: pages are numbered from 1 and
    hold `size` items each. */
module Paging {
  import opened Sequences

  function Min(a: int, b: int): int { if a < b then a else b }

  /** The items shown on page `page`: `s.slice((page - 1) * size, (page - 1) * size + size)`. */
  function Page<T>(s: seq<T>, page: int, size: int): seq<T> {
    var start := (page - 1) * size;
    JsSlice(s, start, start + size)
  }

  /** For a page of at least 1, `Page` is the contiguous run of at most `size`
      items starting at `(page - 1) * size`, empty when that start is past the end. */
  lemma PageSpec<T>(s: seq<T>, page: int, size: int)
    requires page >= 1 && size >= 1
    ensures |Page(s, page, size)| <= size
    ensures (page - 1) * size >= |s| ==> Page(s, page, size) == []
    ensures (page - 1) * size < |s| ==>
      Page(s, page, size) == s[(page - 1) * size..Min((page - 1) * size + size, |s|)]
  {
    var start := (page - 1) * size;
    assert start >= 0 by { MulMonotone(0, page - 1, size); }
    JsSliceSpec(s, start, start + size);
  }

  /** `Math.ceil(total / size)`: the least page count whose pages hold `total` items. */
  function CeilDiv(total: nat, size: int): (n: nat)
    requires size >= 1
    ensures (n - 1) * size < total <= n * size
  {
    var n := (total + size - 1) / size;
    assert (total + size - 1) == n * size + (total + size - 1) % size;
    n
  }

  /** There is a page after `page` (`page * size < total`) exactly when `page`
      is below the page count. */
  lemma CanGoNextIff(page: int, size: int, total: nat)
    requires size >= 1
    ensures page * size < total <==> page < CeilDiv(total, size)
  {
    var n := CeilDiv(total, size);
    if page < n {
      assert page * size <= (n - 1) * size by { MulMonotone(page, n - 1, size); }
    } else {
      assert n * size <= page * size by { MulMonotone(n, page, size); }
    }
  }

  lemma MulMonotone(a: int, b: int, k: int)
    requires a <= b && k >= 0
    ensures a * k <= b * k
  {
    assert b * k - a * k == (b - a) * k;
  }

  /** Euclidean division of a natural number by a positive one. */
  lemma DivMod(i: int, size: int)
    requires size >= 1 && i >= 0
    ensures i == (i / size) * size + i % size
    ensures i / size >= 0 && 0 <= i % size < size
  {
  }

  /** Every item is on exactly one page: item `i` is at position `i % size` of
      page `i / size + 1`. */
  lemma PageOfItem<T>(s: seq<T>, size: int, i: int)
    requires size >= 1 && 0 <= i < |s|
    ensures i % size < |Page(s, i / size + 1, size)|
    ensures Page(s, i / size + 1, size)[i % size] == s[i]
  {
    var q, m := i / size, i % size;
    DivMod(i, size);
    PageSpec(s, q + 1, size);
    assert (q + 1 - 1) * size == q * size;
  }
}
