/** Client-side pagination shared by every list screen: `list.slice((page - 1) * PAGE_SIZE,
    page * PAGE_SIZE)` and `Math.ceil(list.length / PAGE_SIZE)` with `PAGE_SIZE = 20`. */
module Paging {
  import Seqs

  const PageSize: nat := 20

  function Min(a: int, b: int): int { if a <= b then a else b }

  function Max(a: int, b: int): int { if a >= b then a else b }

  /** How `Array.prototype.slice` resolves an index against a list of length `n`:
      a negative index counts back from the end, and the result is clamped to `[0, n]`. */
  function ResolveIndex(i: int, n: nat): (k: nat)
    ensures k <= n
    ensures 0 <= i <= n ==> k == i
    ensures i > n ==> k == n
  {
    if i < 0 then Max(n + i, 0) else Min(i, n)
  }

  /** `xs.slice(start, end)`, including the negative and out-of-range cases. */
  function Slice<T>(xs: seq<T>, start: int, end: int): (r: seq<T>)
    ensures |r| <= |xs|
    ensures 0 <= start <= end <= |xs| ==> r == xs[start..end]
    ensures 0 <= start && |xs| <= start ==> r == []
  {
    var s := ResolveIndex(start, |xs|);
    var e := ResolveIndex(end, |xs|);
    if e <= s then [] else xs[s..e]
  }

  /** The rows shown on page `page` (1-based). */
  function Page<T>(xs: seq<T>, page: int): (r: seq<T>)
    ensures |r| <= PageSize
    ensures page >= 1 ==> r == xs[Min((page - 1) * PageSize, |xs|)..Min(page * PageSize, |xs|)]
  {
    Slice(xs, (page - 1) * PageSize, page * PageSize)
  }

  /** `Math.ceil(n / PAGE_SIZE)`: the least page count whose pages cover `n` rows. */
  function TotalPages(n: nat): (t: nat)
    ensures t * PageSize >= n
    ensures t > 0 ==> (t - 1) * PageSize < n
    ensures t == 0 <==> n == 0
  {
    (n + PageSize - 1) / PageSize
  }

  /** Pages `1..k` laid end to end. */
  function PagesUpTo<T>(xs: seq<T>, k: nat): seq<T>
  {
    if k == 0 then [] else PagesUpTo(xs, k - 1) + Page(xs, k)
  }

  /** The first `k` pages are exactly the first `k * PageSize` rows (or all of them). */
  lemma {:induction false} PagesUpToIsPrefix<T>(xs: seq<T>, k: nat)
    ensures PagesUpTo(xs, k) == xs[..Min(k * PageSize, |xs|)]
  {
    if k > 0 {
      PagesUpToIsPrefix(xs, k - 1);
      var a := Min((k - 1) * PageSize, |xs|);
      var b := Min(k * PageSize, |xs|);
      assert xs[..a] + xs[a..b] == xs[..b];
    }
  }

  /** Concatenating pages `1..TotalPages` gives back the list: nothing is lost or repeated. */
  lemma PagesPartitionList<T>(xs: seq<T>)
    ensures PagesUpTo(xs, TotalPages(|xs|)) == xs
  {
    PagesUpToIsPrefix(xs, TotalPages(|xs|));
    assert xs[..|xs|] == xs;
  }

  /** Row `i` appears on page `i / PageSize + 1`, at position `i % PageSize`. */
  lemma RowIsOnItsPage<T>(xs: seq<T>, i: nat)
    requires i < |xs|
    ensures i / PageSize + 1 <= TotalPages(|xs|)
    ensures i % PageSize < |Page(xs, i / PageSize + 1)|
    ensures Page(xs, i / PageSize + 1)[i % PageSize] == xs[i]
  {
    var p := i / PageSize;
    assert p * PageSize <= i < (p + 1) * PageSize;
  }

  /** Every page before the last is full; the last one holds the remainder;
      pages past the last are empty. */
  lemma PageSizes<T>(xs: seq<T>, page: int)
    requires page >= 1
    ensures page < TotalPages(|xs|) ==> |Page(xs, page)| == PageSize
    ensures page == TotalPages(|xs|) ==> |Page(xs, page)| == |xs| - (page - 1) * PageSize > 0
    ensures page > TotalPages(|xs|) ==> Page(xs, page) == []
  {
  }

  /** The totals of pages `1..k`, added up. */
  function SumOfPages<T>(xs: seq<T>, f: T -> int, k: nat): int
  {
    if k == 0 then 0 else SumOfPages(xs, f, k - 1) + Seqs.Sum(Page(xs, k), f)
  }

  /** The totals of every page, added up. */
  function SumOverPages<T>(xs: seq<T>, f: T -> int): int
  {
    SumOfPages(xs, f, TotalPages(|xs|))
  }

  lemma {:induction false} SumOfPagesIsSumOfPrefix<T>(xs: seq<T>, f: T -> int, k: nat)
    ensures SumOfPages(xs, f, k) == Seqs.Sum(PagesUpTo(xs, k), f)
  {
    if k > 0 {
      SumOfPagesIsSumOfPrefix(xs, f, k - 1);
      var before := PagesUpTo(xs, k - 1);
      var page := Page(xs, k);
      assert PagesUpTo(xs, k) == before + page;
      Seqs.SumAppend(before, page, f);
    }
  }

  /** A total over the whole list equals the per-page totals added over all pages. */
  lemma SumIsSumOverPages<T>(xs: seq<T>, f: T -> int)
    ensures Seqs.Sum(xs, f) == SumOverPages(xs, f)
  {
    SumOfPagesIsSumOfPrefix(xs, f, TotalPages(|xs|));
    PagesPartitionList(xs);
  }
}
