/**
 * The client-side pagination hook: a window of `visibleCount` items over the
 * current list, grown a page at a time and reset to one page whenever the
 * list or the page size changes.
 */
module Paging {

  /** The page size used when the caller gives none. */
  const DefaultPageSize: nat := 24

  function Min(a: nat, b: nat): nat {
    if a < b then a else b
  }

  /** `Math.min(prev + pageSize, n)`: the window after one more page. */
  function NextVisible(prev: nat, pageSize: nat, n: nat): (r: nat)
    ensures r <= n
    ensures prev <= n ==> prev <= r
    ensures r == n || r == prev + pageSize
  {
    Min(prev + pageSize, n)
  }

  /** The window after k more pages. */
  function LoadMoreTimes(prev: nat, pageSize: nat, n: nat, k: nat): nat
    decreases k
  {
    if k == 0 then prev else LoadMoreTimes(NextVisible(prev, pageSize, n), pageSize, n, k - 1)
  }

  /** From a window inside the list, k more pages show min(prev + k * pageSize, n) items. */
  lemma {:induction false} LoadMoreTimesClosed(prev: nat, pageSize: nat, n: nat, k: nat)
    requires prev <= n
    ensures LoadMoreTimes(prev, pageSize, n, k) == Min(prev + k * pageSize, n)
    decreases k
  {
    if k > 0 {
      var next := NextVisible(prev, pageSize, n);
      LoadMoreTimesClosed(next, pageSize, n, k - 1);
      assert k * pageSize == pageSize + (k - 1) * pageSize;
    }
  }

  /**
   * With a positive page size, n more pages reach the end of a list of n
   * items; with page size 0 the window never grows.
   */
  lemma LoadMoreReachesEnd(prev: nat, pageSize: nat, n: nat)
    requires prev <= n
    ensures pageSize > 0 ==> LoadMoreTimes(prev, pageSize, n, n) == n
    ensures pageSize == 0 ==> forall k: nat :: LoadMoreTimes(prev, pageSize, n, k) == prev
  {
    if pageSize > 0 {
      LoadMoreEnds(prev, pageSize, n);
    } else {
      forall k: nat ensures LoadMoreTimes(prev, pageSize, n, k) == prev {
        LoadMoreTimesClosed(prev, pageSize, n, k);
        assert k * pageSize == 0;
      }
    }
  }

  lemma LoadMoreEnds(prev: nat, pageSize: nat, n: nat)
    requires prev <= n && pageSize > 0
    ensures LoadMoreTimes(prev, pageSize, n, n) == n
  {
    LoadMoreTimesClosed(prev, pageSize, n, n);
    assert n * pageSize == n + n * (pageSize - 1);
  }

  /** The hook's inputs and its one state cell. */
  class Pagination<T> {
    var items: seq<T>
    var pageSize: nat
    var visibleCount: nat

    /** The first render: one page visible. */
    constructor (items: seq<T>, pageSize: nat)
      ensures this.items == items && this.pageSize == pageSize && visibleCount == pageSize
    {
      this.items := items;
      this.pageSize := pageSize;
      visibleCount := pageSize;
    }

    /** The first render with the default page size. */
    constructor WithDefaultPageSize(items: seq<T>)
      ensures this.items == items && pageSize == DefaultPageSize && visibleCount == DefaultPageSize
    {
      this.items := items;
      pageSize := DefaultPageSize;
      visibleCount := DefaultPageSize;
    }

    /** A render with a new list or page size, followed by the reset effect. */
    method Update(newItems: seq<T>, newPageSize: nat)
      modifies this
      ensures items == newItems && pageSize == newPageSize && visibleCount == newPageSize
    {
      items := newItems;
      pageSize := newPageSize;
      visibleCount := pageSize;
    }

    /** `loadMore`: one more page, never past the end of the list. */
    method LoadMore()
      modifies this
      ensures items == old(items) && pageSize == old(pageSize)
      ensures visibleCount == NextVisible(old(visibleCount), pageSize, |items|)
    {
      visibleCount := Min(visibleCount + pageSize, |items|);
    }

    /** `items.slice(0, visibleCount)`. */
    function VisibleItems(): (r: seq<T>)
      reads this
      ensures |r| == Min(visibleCount, |items|)
      ensures r == items[..|r|]
    {
      if visibleCount < |items| then items[..visibleCount] else items
    }

    predicate HasMore()
      reads this
    {
      visibleCount < |items|
    }

    function TotalCount(): nat
      reads this
    {
      |items|
    }

    /** The `visibleCount` the hook reports: never more than the list holds. */
    function ReportedVisibleCount(): (r: nat)
      reads this
      ensures r <= TotalCount()
      ensures r == |VisibleItems()|
      ensures HasMore() <==> r < TotalCount()
    {
      Min(visibleCount, |items|)
    }
  }
}
