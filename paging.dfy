/** Client-side pagination as the admin lists do it: `Math.ceil(n / size)`
    pages, page p showing `items.slice((p - 1) * size, p * size)`, a
    Previous control while p > 1, a Next control while p < the page count,
    and one link per page from 1 to the page count. */
module Paging {
  import opened Common

  /** Math.ceil(count / size). */
  function TotalPages(count: nat, size: nat): (r: nat)
    requires size >= 1
    ensures r * size >= count
    ensures r > 0 ==> (r - 1) * size < count
    ensures r == 0 <==> count == 0
  {
    var r := (count + size - 1) / size;
    var m := (count + size - 1) % size;
    assert count + size - 1 == r * size + m;
    assert (r - 1) * size == r * size - size;
    r
  }

  /** The items of page `page`, counted from 1. */
  function PageOf<T>(items: seq<T>, page: int, size: nat): seq<T> {
    JsSlice(items, (page - 1) * size, page * size)
  }

  /** A page holds at most `size` items, taken in order from position
      (page - 1) * size on; every page from 1 to the page count holds at
      least one item, every page before the last holds exactly `size`, and
      a page past the count holds none. */
  lemma PageOfProps<T>(items: seq<T>, page: int, size: nat)
    requires size >= 1 && page >= 1
    ensures |PageOf(items, page, size)| <= size
    ensures forall k :: 0 <= k < |PageOf(items, page, size)| ==>
      (page - 1) * size + k < |items| && PageOf(items, page, size)[k] == items[(page - 1) * size + k]
    ensures page <= TotalPages(|items|, size) ==> |PageOf(items, page, size)| >= 1
    ensures page * size <= |items| ==> |PageOf(items, page, size)| == size
    ensures page > TotalPages(|items|, size) ==> PageOf(items, page, size) == []
  {
    var total := TotalPages(|items|, size);
    PageBounds(page, size, total);
    var start := (page - 1) * size;
    var r := PageOf(items, page, size);
    if page <= total {
      assert start < |items|;
    }
    if page * size <= |items| {
      assert r == items[start..page * size];
    }
  }

  /** Where page `page` starts and ends, against the page count `total`. */
  lemma PageBounds(page: int, size: nat, total: nat)
    requires size >= 1
    ensures page * size == (page - 1) * size + size
    ensures page >= 1 ==> 0 <= (page - 1) * size
    ensures page > total ==> (page - 1) * size >= total * size
    ensures 1 <= page <= total ==> (page - 1) * size <= (total - 1) * size
  {
    if page > total {
      MonotoneProduct(total, page - 1, size);
    }
    if 1 <= page <= total {
      MonotoneProduct(page - 1, total - 1, size);
    }
  }

  lemma MonotoneProduct(a: int, b: int, size: nat)
    requires a <= b
    ensures a * size <= b * size
  {
  }

  /** `Array.from({ length: total }, (_, i) => i + 1)`: one link for every
      page from 1 to `total`, in order, and no other. */
  function PageLinks(total: nat): (r: seq<int>)
    ensures |r| == total
    ensures forall k :: 0 <= k < |r| ==> 1 <= r[k] <= total
    ensures forall i, j :: 0 <= i < j < |r| ==> r[i] < r[j]
  {
    seq(total, i requires 0 <= i < total => i + 1)
  }

  /** Every page from 1 to `total` has a link. */
  lemma PageLinksCover(total: nat)
    ensures forall p :: 1 <= p <= total ==> p in PageLinks(total)
  {
    var r := PageLinks(total);
    forall p | 1 <= p <= total
      ensures p in r
    {
      assert r[p - 1] == p;
    }
  }

  /** The Previous control is rendered while the page is past the first. */
  predicate PrevVisible(page: int) {
    page > 1
  }

  /** The Next control is rendered while the page is before the last. */
  predicate NextVisible(page: int, total: nat) {
    page < total
  }

  /** A page past the last one shows nothing and offers no Next; it
      offers Previous whenever the list is not on its first page. */
  lemma PastLastPage<T>(items: seq<T>, page: int, size: nat)
    requires size >= 1 && page > TotalPages(|items|, size)
    ensures PageOf(items, page, size) == []
    ensures !NextVisible(page, TotalPages(|items|, size))
    ensures page >= 2 ==> PrevVisible(page)
  {
    PageOfProps(items, page, size);
  }
}
