/** The newsletter subscriber API of app/api/newsletter/subscribes/route.ts:
    POST inserts an email; GET answers one page of subscribers, newest
    first, with the total count. */
module Subscribers {
  import opened Common
  import opened Ordering
  import opened Paging

  datatype Subscriber = Subscriber(id: int, email: string, createdAt: int)

  /** `Number(searchParams.get(name))`: NaN, or an integer value (a missing
      or empty parameter gives 0). */
  datatype NumParam = NaN | Finite(v: int)

  /** What GET answers: a database error, or a page and the total. */
  datatype ListResult = ListFailed | Listed(subscribers: seq<Subscriber>, total: nat)

  /** `Number(x) || fallback`: NaN and 0 are falsy. */
  function NumberOr(p: NumParam, fallback: int): (r: int)
    ensures p.Finite? && p.v != 0 ==> r == p.v
    ensures p.NaN? || p.v == 0 ==> r == fallback
    ensures fallback != 0 ==> r != 0
  {
    if p.Finite? && p.v != 0 then p.v else fallback
  }

  function SubscribedAt(s: Subscriber): int { s.createdAt }

  /** `ORDER BY created_at DESC`, with ties kept in table order: one of the
      answers `DbOrder` allows. */
  function Newest(rows: seq<Subscriber>): (r: seq<Subscriber>)
    ensures SortedDesc(r, SubscribedAt) && multiset(r) == multiset(rows) && |r| == |rows|
  {
    SortDesc(rows, SubscribedAt)
  }

  /** `LIMIT size OFFSET offset` on the sorted rows; both are
      non-negative when the statement runs. */
  function Window(sorted: seq<Subscriber>, offset: nat, size: nat): (r: seq<Subscriber>)
    ensures |r| <= size
    ensures offset <= |sorted| ==> |r| == (if offset + size <= |sorted| then size else |sorted| - offset)
    ensures forall k :: 0 <= k < |r| ==> offset + k < |sorted| && r[k] == sorted[offset + k]
  {
    if offset >= |sorted| then []
    else if offset + size <= |sorted| then sorted[offset..offset + size]
    else sorted[offset..]
  }

  /** GET /api/newsletter/subscribes. `page` defaults to 1 and `pageSize`
      to 10; offset = (page - 1) * pageSize is not clamped, and a negative
      LIMIT or OFFSET is a database error, so it answers 500. Otherwise the
      page holds at most pageSize subscribers, newest first, starting at
      the offset, and the total counts every subscriber. */
  function ListSubscribers(rows: seq<Subscriber>, pageParam: NumParam, sizeParam: NumParam): (r: ListResult)
    ensures var page, pageSize := NumberOr(pageParam, 1), NumberOr(sizeParam, 10);
      var offset := (page - 1) * pageSize;
      (r.ListFailed? <==> pageSize < 0 || offset < 0) &&
      (r.Listed? ==> r.total == |rows| && 1 <= page && 1 <= pageSize && |r.subscribers| <= pageSize &&
                     r.subscribers == Window(Newest(rows), offset, pageSize))
  {
    var page, pageSize := NumberOr(pageParam, 1), NumberOr(sizeParam, 10);
    var offset := (page - 1) * pageSize;
    if pageSize < 0 || offset < 0 then ListFailed
    else
      assert pageSize != 0;
      NonNegativeFactor(page - 1, pageSize);
      Listed(Window(Newest(rows), offset, pageSize), |rows|)
  }

  lemma NonNegativeFactor(a: int, b: int)
    requires b >= 1 && a * b >= 0
    ensures a >= 0
  {
  }

  /** Pages 1 to n of a given size, one after the other. */
  function Pages(sorted: seq<Subscriber>, size: nat, n: nat): seq<Subscriber> {
    if n == 0 then [] else Pages(sorted, size, n - 1) + Window(sorted, (n - 1) * size, size)
  }

  /** Walking the pages from 1 on neither skips nor repeats a subscriber:
      the first n pages are exactly the first n * size subscribers. */
  lemma {:induction false} PagesCover(sorted: seq<Subscriber>, size: nat, n: nat)
    ensures Pages(sorted, size, n) == sorted[..Cap(n * size, |sorted|)]
  {
    if n > 0 {
      var prev, next := (n - 1) * size, n * size;
      NextOffset(n, size);
      PagesCover(sorted, size, n - 1);
      WindowIsSlice(sorted, prev, size);
      SliceSplit(sorted, Cap(prev, |sorted|), Cap(next, |sorted|));
    }
  }

  lemma SliceSplit(s: seq<Subscriber>, lo: nat, hi: nat)
    requires lo <= hi <= |s|
    ensures s[..lo] + s[lo..hi] == s[..hi]
  {
  }

  /** `x`, capped at `len`. */
  function Cap(x: nat, len: nat): nat {
    if x <= len then x else len
  }

  lemma WindowIsSlice(sorted: seq<Subscriber>, offset: nat, size: nat)
    ensures Window(sorted, offset, size) == sorted[Cap(offset, |sorted|)..Cap(offset + size, |sorted|)]
  {
  }

  /** The offset of page n + 1 is one page size past that of page n. */
  lemma NextOffset(n: nat, size: nat)
    requires n >= 1
    ensures n * size == (n - 1) * size + size
  {
  }

  /** With the pages counted as ceil(total / size), and every page cut
      from the same order, the pages together hold every subscriber once,
      in order. */
  lemma AllPagesCover(rows: seq<Subscriber>, size: nat)
    requires size >= 1
    ensures Pages(Newest(rows), size, TotalPages(|rows|, size)) == Newest(rows)
  {
    var sorted := Newest(rows);
    var n := TotalPages(|rows|, size);
    assert n * size >= |sorted|;
    PagesCover(sorted, size, n);
    assert sorted[..|sorted|] == sorted;
  }

  /** An answer the database may give to `ORDER BY created_at DESC`: the
      rows, newest first. Rows with equal `created_at` may come in any
      order, and each query may choose its own. */
  predicate DbOrder(rows: seq<Subscriber>, sorted: seq<Subscriber>) {
    SortedDesc(sorted, SubscribedAt) && multiset(sorted) == multiset(rows)
  }

  /** No two different rows share a `created_at`. */
  predicate TimesDistinct(rows: seq<Subscriber>) {
    forall x, y :: x in rows && y in rows && x.createdAt == y.createdAt ==> x == y
  }

  /** Page k + 1 of a walk is cut from the order that its own request saw,
      `orders[k]`. */
  function WalkPages(orders: seq<seq<Subscriber>>, size: nat): seq<Subscriber> {
    if orders == [] then []
    else
      var n := |orders| - 1;
      WalkPages(orders[..n], size) + Window(orders[n], n * size, size)
  }

  /** Two newest-first orders of the same rows agree when no two rows
      share a time. */
  lemma {:induction false} DbOrderUnique(a: seq<Subscriber>, b: seq<Subscriber>)
    requires SortedDesc(a, SubscribedAt) && SortedDesc(b, SubscribedAt)
    requires multiset(a) == multiset(b) && TimesDistinct(a)
    ensures a == b
  {
    if a != [] {
      HeadsAgree(a, b);
      SameTails(a, b);
      TailKeeps(a);
      TailKeeps(b);
      DbOrderUnique(a[1..], b[1..]);
      assert a == [a[0]] + a[1..] && b == [b[0]] + b[1..];
    }
  }

  /** Dropping the first row keeps the order and the distinct times. */
  lemma TailKeeps(a: seq<Subscriber>)
    requires a != [] && SortedDesc(a, SubscribedAt)
    ensures SortedDesc(a[1..], SubscribedAt)
    ensures TimesDistinct(a) ==> TimesDistinct(a[1..])
  {
    assert forall x :: x in a[1..] ==> x in a;
  }

  /** Both orders start with the newest row, and only one row has that
      time. */
  lemma HeadsAgree(a: seq<Subscriber>, b: seq<Subscriber>)
    requires a != [] && SortedDesc(a, SubscribedAt) && SortedDesc(b, SubscribedAt)
    requires multiset(a) == multiset(b) && TimesDistinct(a)
    ensures b != [] && a[0] == b[0]
  {
    assert a[0] in multiset(b);
    var i :| 0 <= i < |b| && b[i] == a[0];
    assert b[0] in multiset(a);
    var j :| 0 <= j < |a| && a[j] == b[0];
    assert SubscribedAt(b[0]) >= SubscribedAt(b[i]);
    assert SubscribedAt(a[0]) >= SubscribedAt(a[j]);
  }

  /** Removing the same first row leaves the same rows. */
  lemma SameTails(a: seq<Subscriber>, b: seq<Subscriber>)
    requires a != [] && b != [] && a[0] == b[0] && multiset(a) == multiset(b)
    ensures multiset(a[1..]) == multiset(b[1..])
  {
    assert a == [a[0]] + a[1..] && b == [b[0]] + b[1..];
    forall y
      ensures multiset(a[1..])[y] == multiset(b[1..])[y]
    {
      assert multiset(a)[y] == multiset([a[0]])[y] + multiset(a[1..])[y];
      assert multiset(b)[y] == multiset([b[0]])[y] + multiset(b[1..])[y];
    }
  }

  /** A walk whose every page is cut from the same order is `Pages`. */
  lemma {:induction false} WalkOfOneOrder(orders: seq<seq<Subscriber>>, sorted: seq<Subscriber>, size: nat)
    requires forall k :: 0 <= k < |orders| ==> orders[k] == sorted
    ensures WalkPages(orders, size) == Pages(sorted, size, |orders|)
  {
    if orders != [] {
      var n := |orders| - 1;
      var prefix := orders[..n];
      assert forall k :: 0 <= k < |prefix| ==> prefix[k] == orders[k];
      WalkOfOneOrder(prefix, sorted, size);
      assert WalkPages(orders, size) == WalkPages(prefix, size) + Window(sorted, n * size, size);
    }
  }

  /** When no two subscribers share a `created_at`, walking the pages 1 to
      ceil(total / size) returns every subscriber once, newest first,
      whatever order each request saw, provided the table does not change
      in between. */
  lemma WalkCovers(rows: seq<Subscriber>, orders: seq<seq<Subscriber>>, size: nat)
    requires size >= 1 && TimesDistinct(rows)
    requires |orders| == TotalPages(|rows|, size)
    requires forall k :: 0 <= k < |orders| ==> DbOrder(rows, orders[k])
    ensures WalkPages(orders, size) == Newest(rows)
  {
    var sorted := Newest(rows);
    forall x, y | x in sorted && y in sorted && x.createdAt == y.createdAt
      ensures x == y
    {
      assert x in multiset(rows) && y in multiset(rows);
    }
    forall k | 0 <= k < |orders|
      ensures orders[k] == sorted
    {
      DbOrderUnique(sorted, orders[k]);
    }
    WalkOfOneOrder(orders, sorted, size);
    AllPagesCover(rows, size);
  }

  /** Two subscribers from the same second, one per page: when the two
      requests break the tie differently, the walk shows one of them twice
      and the other never. */
  lemma TiesCanRepeat(a: Subscriber, b: Subscriber)
    requires a != b && a.createdAt == b.createdAt
    ensures DbOrder([a, b], [a, b]) && DbOrder([a, b], [b, a])
    ensures TotalPages(|[a, b]|, 1) == 2
    ensures WalkPages([[a, b], [b, a]], 1) == [a, a] && b !in WalkPages([[a, b], [b, a]], 1)
  {
    TieOrders(a, b);
    assert |[a, b]| == 2;
    assert TotalPages(2, 1) == 2;
    TieWalk(a, b);
  }

  lemma TieOrders(a: Subscriber, b: Subscriber)
    requires a.createdAt == b.createdAt
    ensures DbOrder([a, b], [a, b]) && DbOrder([a, b], [b, a])
  {
    assert multiset([b, a]) == multiset([a, b]);
  }

  lemma TieWalk(a: Subscriber, b: Subscriber)
    ensures WalkPages([[a, b], [b, a]], 1) == [a, a]
  {
    var orders := [[a, b], [b, a]];
    assert orders[..1] == [[a, b]];
    assert [[a, b]][..0] == [];
    assert Window([a, b], 0, 1) == [a];
    assert WalkPages([[a, b]], 1) == [a];
    assert Window([b, a], 1, 1) == [a];
  }

  /** The `subscribers` table. */
  class SubscriberTable {
    var rows: seq<Subscriber>
    var nextId: int

    constructor ()
      ensures rows == [] && nextId == 1
    {
      rows := [];
      nextId := 1;
    }

    /** POST /api/newsletter/subscribes: the email is inserted as given and
        the answer is 201; any database error, a duplicate email among
        them, answers 500 and inserts nothing. */
    method Subscribe(email: string, dbFails: bool, now: int) returns (status: Status)
      modifies this
      ensures dbFails ==> status == InternalServerError && rows == old(rows) && nextId == old(nextId)
      ensures !dbFails ==> status == Created && rows == old(rows) + [Subscriber(old(nextId), email, now)] &&
                           nextId == old(nextId) + 1
    {
      if dbFails {
        return InternalServerError;
      }
      rows := rows + [Subscriber(nextId, email, now)];
      nextId := nextId + 1;
      return Created;
    }
  }
}
