/** The subscriber table of app/admin/newsletter/SubscribersList.tsx: one
    page of GET /api/newsletter/subscribes at a time, a page-size choice,
    Previous and Next buttons that clamp the page, and a set of selected
    subscriber ids with a select-all checkbox. */
module SubscribersList {
  import opened Common
  import opened Paging
  import opened Subscribers

  /** The page sizes the Select offers. */
  const PageSizes: set<int> := {10, 20, 50}

  /** The ids of the listed subscribers, `new Set(subscribers.map(s => s.id))`. */
  function IdSet(subs: seq<Subscriber>): (r: set<int>)
    ensures forall id :: id in r <==> exists k :: 0 <= k < |subs| && subs[k].id == id
    ensures |r| <= |subs|
  {
    if subs == [] then {}
    else
      var rest := IdSet(subs[1..]);
      assert forall k :: 1 <= k < |subs| ==> subs[k] == subs[1..][k - 1];
      {subs[0].id} + rest
  }

  predicate DistinctIds(subs: seq<Subscriber>) {
    forall i, j :: 0 <= i < j < |subs| ==> subs[i].id != subs[j].id
  }

  /** With distinct ids, the set holds one id per listed subscriber. */
  lemma {:induction false} DistinctIdsCount(subs: seq<Subscriber>)
    requires DistinctIds(subs)
    ensures |IdSet(subs)| == |subs|
  {
    if subs != [] {
      var tail := subs[1..];
      DistinctTail(subs);
      DistinctIdsCount(tail);
      assert IdSet(subs) == {subs[0].id} + IdSet(tail);
      HeadIdNotInTail(subs);
    }
  }

  lemma DistinctTail(subs: seq<Subscriber>)
    requires subs != [] && DistinctIds(subs)
    ensures DistinctIds(subs[1..])
  {
    assert forall k :: 0 <= k < |subs| - 1 ==> subs[1..][k] == subs[k + 1];
  }

  lemma HeadIdNotInTail(subs: seq<Subscriber>)
    requires subs != [] && DistinctIds(subs)
    ensures subs[0].id !in IdSet(subs[1..])
  {
    var tail := subs[1..];
    forall k | 0 <= k < |tail| ensures tail[k].id != subs[0].id {
      assert tail[k] == subs[k + 1];
    }
  }

  /** toggleSelectSubscriber's new set: the id flips, every other id stays. */
  function Toggled(selected: set<int>, id: int): (r: set<int>)
    ensures id in r <==> id !in selected
    ensures forall other :: other != id ==> (other in r <==> other in selected)
  {
    if id in selected then selected - {id} else selected + {id}
  }

  /** Toggling the same id twice restores the selection. */
  lemma ToggleTwice(selected: set<int>, id: int)
    ensures Toggled(Toggled(selected, id), id) == selected
  {
  }

  /** toggleSelectAll's new set: empty when the selection is as large as
      the list, else the ids of the listed subscribers. */
  function SelectAllToggled(selected: set<int>, subs: seq<Subscriber>): (r: set<int>)
    ensures |selected| == |subs| ==> r == {}
    ensures |selected| != |subs| ==> forall id :: id in r <==> exists k :: 0 <= k < |subs| && subs[k].id == id
  {
    if |selected| == |subs| then {} else IdSet(subs)
  }

  /** The header checkbox is checked when the selection is as large as the
      list. */
  predicate AllChecked(selected: set<int>, subs: seq<Subscriber>) {
    |selected| == |subs|
  }

  /** On a list of distinct ids, select-all checks the header box, and a
      second click clears the selection. */
  lemma SelectAllThenClear(selected: set<int>, subs: seq<Subscriber>)
    requires DistinctIds(subs) && |selected| != |subs|
    ensures AllChecked(SelectAllToggled(selected, subs), subs)
    ensures SelectAllToggled(SelectAllToggled(selected, subs), subs) == {}
  {
    DistinctIdsCount(subs);
  }

  /** The check compares sizes, not ids: ids kept from another page can
      make the box read as checked, and a click then clears them although
      no listed subscriber was selected. */
  lemma SizesNotMembers()
    ensures var subs := [Subscriber(1, "a@example.com", 0)];
      AllChecked({2}, subs) && 1 !in {2} && SelectAllToggled({2}, subs) == {}
  {
  }

  /** The range line: `(page - 1) * pageSize + 1` to
      `Math.min(page * pageSize, total)`. */
  function RangeShown(page: int, pageSize: int, total: int): (int, int) {
    ((page - 1) * pageSize + 1, if page * pageSize <= total then page * pageSize else total)
  }

  /** On a page the API lists, the range line names exactly the listed
      subscribers: it starts at one past the offset and spans as many
      numbers as the page holds. */
  lemma RangeMatchesPage(rows: seq<Subscriber>, page: int, pageSize: int)
    requires pageSize in PageSizes && 1 <= page <= TotalPages(|rows|, pageSize)
    ensures var result := ListSubscribers(rows, Finite(page), Finite(pageSize));
      var (first, last) := RangeShown(page, pageSize, |rows|);
      result.Listed? && 1 <= first <= last <= |rows| && last - first + 1 == |result.subscribers|
  {
    var total := TotalPages(|rows|, pageSize);
    PageBounds(page, pageSize, total);
    var offset := (page - 1) * pageSize;
    assert offset < |rows|;
    assert page * pageSize == offset + pageSize;
  }

  /** The component's state. `page` may reach 0: Next with no subscribers
      sets it to min(0, page + 1). */
  class SubscribersListView {
    var page: int
    var pageSize: int
    var subscribers: seq<Subscriber>
    var total: nat
    var selected: set<int>

    ghost predicate Valid()
      reads this
    {
      page >= 0 && pageSize in PageSizes
    }

    constructor ()
      ensures Valid() && page == 1 && pageSize == 10 && subscribers == [] && total == 0 && selected == {}
    {
      page := 1;
      pageSize := 10;
      subscribers := [];
      total := 0;
      selected := {};
    }

    /** totalPages = Math.ceil(total / pageSize). */
    function PageCount(): nat
      reads this
      requires Valid()
    {
      TotalPages(total, pageSize)
    }

    /** The effect of fetchData for the current page and size: an answer
        that is not ok leaves the list as it was; otherwise the list and the
        total are replaced. The selection is kept either way. */
    method Refresh(rows: seq<Subscriber>)
      requires Valid()
      modifies this
      ensures Valid() && page == old(page) && pageSize == old(pageSize) && selected == old(selected)
      ensures var result := ListSubscribers(rows, Finite(old(page)), Finite(old(pageSize)));
        (result.ListFailed? ==> subscribers == old(subscribers) && total == old(total)) &&
        (result.Listed? ==> subscribers == result.subscribers && total == result.total)
    {
      var result := ListSubscribers(rows, Finite(page), Finite(pageSize));
      if result.Listed? {
        subscribers := result.subscribers;
        total := result.total;
      }
    }

    /** The page-size Select; the page is not reset. */
    method SetPageSize(size: int)
      requires Valid() && size in PageSizes
      modifies this
      ensures Valid() && pageSize == size && page == old(page)
      ensures subscribers == old(subscribers) && total == old(total) && selected == old(selected)
    {
      pageSize := size;
    }

    /** toggleSelectSubscriber: a copy of the set with the id added or
        removed. */
    method ToggleSubscriber(id: int)
      requires Valid()
      modifies this
      ensures Valid() && selected == Toggled(old(selected), id)
      ensures page == old(page) && pageSize == old(pageSize) && subscribers == old(subscribers) && total == old(total)
    {
      var newSelected := selected;
      if id in newSelected {
        newSelected := newSelected - {id};
      } else {
        newSelected := newSelected + {id};
      }
      selected := newSelected;
    }

    /** toggleSelectAll. */
    method ToggleAll()
      requires Valid()
      modifies this
      ensures Valid() && selected == SelectAllToggled(old(selected), subscribers)
      ensures page == old(page) && pageSize == old(pageSize) && subscribers == old(subscribers) && total == old(total)
    {
      if |selected| == |subscribers| {
        selected := {};
      } else {
        selected := IdSet(subscribers);
      }
    }

    /** Previous: `Math.max(1, page - 1)`, enabled while page != 1. */
    method Previous()
      requires Valid() && page != 1
      modifies this
      ensures Valid() && page == (if old(page) - 1 >= 1 then old(page) - 1 else 1)
      ensures pageSize == old(pageSize) && subscribers == old(subscribers) && total == old(total) && selected == old(selected)
    {
      page := if page - 1 >= 1 then page - 1 else 1;
    }

    /** Next: `Math.min(totalPages, page + 1)`, enabled while
        page != totalPages. */
    method Next()
      requires Valid() && page != PageCount()
      modifies this
      ensures Valid() && page == (if old(page) + 1 <= old(PageCount()) then old(page) + 1 else old(PageCount()))
      ensures pageSize == old(pageSize) && subscribers == old(subscribers) && total == old(total) && selected == old(selected)
    {
      page := if page + 1 <= PageCount() then page + 1 else PageCount();
    }
  }

  /** With no subscribers there are no pages, Next stays enabled on page 1
      and takes the list to page 0, whose range line reads "-9 - 0". */
  method NextWithoutSubscribers() returns (view: SubscribersListView)
    ensures view.Valid() && view.total == 0 && view.page == 0
    ensures RangeShown(view.page, view.pageSize, view.total) == (-9, 0)
  {
    view := new SubscribersListView();
    view.Next();
  }
}
