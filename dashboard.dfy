/** The dashboard post table of app/admin/dashboard/page.tsx. Unlike the
    admin post list, its search also looks at the excerpt, and choosing a
    category or typing a search term sends the table back to page 1. */
module Dashboard {
  import opened Common
  import opened Paging

  const ItemsPerPage: nat := 10

  /** The fields of a post the table filters on. */
  datatype DashPost = DashPost(id: string, title: string, category: string, excerpt: string)

  predicate InCategory(post: DashPost, selected: Option<string>) {
    selected.None? || selected.value == "" || post.category == selected.value
  }

  /** The search term occurs, ignoring case, in the title or the excerpt. */
  predicate TextMatches(post: DashPost, term: string) {
    Contains(ToLower(post.title), ToLower(term)) || Contains(ToLower(post.excerpt), ToLower(term))
  }

  predicate Shown(post: DashPost, selected: Option<string>, term: string) {
    InCategory(post, selected) && TextMatches(post, term)
  }

  /** filteredPosts: the category filter, then the text filter; no posts
      at all while the list is undefined. */
  function FilteredPosts(posts: Option<seq<DashPost>>, selected: Option<string>, term: string)
    : (r: seq<DashPost>)
    ensures posts.None? ==> r == []
    ensures forall k :: 0 <= k < |r| ==> Shown(r[k], selected, term)
    ensures posts.Some? ==> forall k :: 0 <= k < |posts.value| && Shown(posts.value[k], selected, term) ==> posts.value[k] in r
  {
    if posts.None? then []
    else
      var byCategory := Filter(posts.value, (p: DashPost) => InCategory(p, selected));
      var r := Filter(byCategory, (p: DashPost) => TextMatches(p, term));
      assert forall k :: 0 <= k < |r| ==> r[k] in byCategory;
      r
  }

  /** The two filters are a single order-keeping pass over the posts. */
  lemma FilteredInOrder(posts: seq<DashPost>, selected: Option<string>, term: string)
    ensures FilteredPosts(Some(posts), selected, term) == Filter(posts, (p: DashPost) => Shown(p, selected, term))
  {
    FilterTwice(posts, (p: DashPost) => InCategory(p, selected), (p: DashPost) => TextMatches(p, term),
                (p: DashPost) => Shown(p, selected, term));
  }

  /** A post whose title misses the term is still listed when its excerpt
      holds it. */
  lemma ExcerptAloneSuffices(post: DashPost, term: string)
    requires Contains(ToLower(post.excerpt), ToLower(term))
    ensures FilteredPosts(Some([post]), None, term) == [post]
  {
    assert Shown(post, None, term);
    FilteredInOrder([post], None, term);
    assert [post][1..] == [];
  }

  /** `filteredPosts.slice(startIndex, startIndex + ITEMS_PER_PAGE)` with
      startIndex = (currentPage - 1) * ITEMS_PER_PAGE. */
  function VisibleSlice(filtered: seq<DashPost>, currentPage: int): (r: seq<DashPost>)
    requires currentPage >= 1
    ensures |r| <= ItemsPerPage
    ensures forall k :: 0 <= k < |r| ==>
      (currentPage - 1) * ItemsPerPage + k < |filtered| && r[k] == filtered[(currentPage - 1) * ItemsPerPage + k]
    ensures currentPage <= TotalPages(|filtered|, ItemsPerPage) ==> r != []
    ensures currentPage > TotalPages(|filtered|, ItemsPerPage) ==> r == []
  {
    var startIndex := (currentPage - 1) * ItemsPerPage;
    var endIndex := startIndex + ItemsPerPage;
    PageBounds(currentPage, ItemsPerPage, TotalPages(|filtered|, ItemsPerPage));
    PageOfProps(filtered, currentPage, ItemsPerPage);
    assert JsSlice(filtered, startIndex, endIndex) == PageOf(filtered, currentPage, ItemsPerPage);
    JsSlice(filtered, startIndex, endIndex)
  }

  /** The dashboard's state. */
  class DashboardView {
    var currentPage: int
    var selectedCategory: Option<string>
    var searchTerm: string
    /** How many times `mutate()` has asked SWR to reload the posts. */
    var revalidations: nat

    ghost predicate Valid()
      reads this
    {
      currentPage >= 1
    }

    constructor ()
      ensures Valid() && currentPage == 1 && selectedCategory == None && searchTerm == ""
      ensures revalidations == 0
    {
      currentPage := 1;
      selectedCategory := None;
      searchTerm := "";
      revalidations := 0;
    }

    function TotalPagesOf(posts: Option<seq<DashPost>>): nat
      reads this
    {
      TotalPages(|FilteredPosts(posts, selectedCategory, searchTerm)|, ItemsPerPage)
    }

    /** currentPosts: the shown posts of the current page. */
    function CurrentPosts(posts: Option<seq<DashPost>>): (r: seq<DashPost>)
      reads this
      requires Valid()
      ensures |r| <= ItemsPerPage
      ensures forall k :: 0 <= k < |r| ==> Shown(r[k], selectedCategory, searchTerm)
      ensures currentPage <= TotalPagesOf(posts) ==> r != []
    {
      VisibleSlice(FilteredPosts(posts, selectedCategory, searchTerm), currentPage)
    }

    /** handleDelete: `await fetch(DELETE)` then `mutate()`. The list is
        revalidated once the request resolves, whatever status it answers
        (the status is never read); a request that rejects throws before
        `mutate()`, and nothing is revalidated. No other state changes. */
    method Delete(postId: string, resolved: bool, status: int)
      requires Valid()
      modifies this
      ensures Valid()
      ensures revalidations == old(revalidations) + (if resolved then 1 else 0)
      ensures currentPage == old(currentPage) && selectedCategory == old(selectedCategory)
      ensures searchTerm == old(searchTerm)
    {
      if !resolved {
        return;
      }
      revalidations := revalidations + 1;
    }

    /** handleCategoryChange, reached from the Select ("all" is null):
        the category changes and the page goes back to 1. */
    method CategoryChange(value: string)
      requires Valid()
      modifies this
      ensures Valid() && currentPage == 1
      ensures selectedCategory == (if value == "all" then None else Some(value))
      ensures searchTerm == old(searchTerm)
    {
      selectedCategory := if value == "all" then None else Some(value);
      currentPage := 1;
    }

    /** handleSearch: the term changes and the page goes back to 1. */
    method SearchChange(term: string)
      requires Valid()
      modifies this
      ensures Valid() && currentPage == 1 && searchTerm == term
      ensures selectedCategory == old(selectedCategory)
    {
      searchTerm := term;
      currentPage := 1;
    }

    /** handlePageChange, from a page link (1 to totalPages), Previous
        (rendered while currentPage > 1, passing currentPage - 1) or Next
        (rendered while currentPage < totalPages, passing currentPage + 1). */
    method PageChange(posts: Option<seq<DashPost>>, page: int)
      requires Valid()
      requires page in PageLinks(TotalPagesOf(posts)) ||
               (PrevVisible(currentPage) && page == currentPage - 1) ||
               (NextVisible(currentPage, TotalPagesOf(posts)) && page == currentPage + 1)
      modifies this
      ensures Valid() && currentPage == page
      ensures selectedCategory == old(selectedCategory) && searchTerm == old(searchTerm)
    {
      currentPage := page;
    }
  }

  /** After a category or search change the table shows its first page,
      and that page holds a post whenever any post passes the filters. */
  method ResetShowsFirstPage(posts: seq<DashPost>, term: string) returns (view: DashboardView)
    ensures view.Valid() && view.currentPage == 1 && view.searchTerm == term
    ensures FilteredPosts(Some(posts), view.selectedCategory, term) != [] ==> view.CurrentPosts(Some(posts)) != []
  {
    view := new DashboardView();
    view.SearchChange(term);
  }
}
