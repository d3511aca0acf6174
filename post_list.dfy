/** The admin post table of app/admin/posts/postlists.tsx. It lists what
    GET /api/admin/posts answers, filtered by category and by a
    case-insensitive title search, ten to a page. Choosing a category or
    typing a search term does not move the current page. */
module PostList {
  import opened Common
  import opened Paging
  import opened AdminPosts

  const ItemsPerPage: nat := 10

  /** `!selectedCategory`: no category chosen (null, or the empty name). */
  predicate AllCategories(selected: Option<string>) {
    selected.None? || selected.value == ""
  }

  predicate InCategory(post: AdminListRow, selected: Option<string>) {
    AllCategories(selected) || post.categoryName == selected.value
  }

  /** `post.title.toLowerCase().includes(searchTerm.toLowerCase())`. */
  predicate TitleMatches(post: AdminListRow, term: string) {
    Contains(ToLower(post.title), ToLower(term))
  }

  predicate Shown(post: AdminListRow, selected: Option<string>, term: string) {
    InCategory(post, selected) && TitleMatches(post, term)
  }

  /** filteredPosts: the posts, or none while they are still loading,
      filtered by category and then by title. */
  function FilteredPosts(posts: Option<seq<AdminListRow>>, selected: Option<string>, term: string)
    : (r: seq<AdminListRow>)
    ensures posts.None? ==> r == []
    ensures forall k :: 0 <= k < |r| ==> Shown(r[k], selected, term)
    ensures posts.Some? ==> forall k :: 0 <= k < |posts.value| && Shown(posts.value[k], selected, term) ==> posts.value[k] in r
    ensures posts.Some? ==> multiset(r) <= multiset(posts.value)
  {
    if posts.None? then []
    else
      var byCategory := Filter(posts.value, (p: AdminListRow) => InCategory(p, selected));
      var r := Filter(byCategory, (p: AdminListRow) => TitleMatches(p, term));
      assert forall k :: 0 <= k < |r| ==> r[k] in byCategory;
      r
  }

  /** The two filters are one pass over the posts: the list keeps exactly
      the shown posts, in their original order. */
  lemma FilteredInOrder(posts: seq<AdminListRow>, selected: Option<string>, term: string)
    ensures FilteredPosts(Some(posts), selected, term) == Filter(posts, (p: AdminListRow) => Shown(p, selected, term))
  {
    var inCategory := (p: AdminListRow) => InCategory(p, selected);
    var matches := (p: AdminListRow) => TitleMatches(p, term);
    FilterTwice(posts, inCategory, matches, (p: AdminListRow) => Shown(p, selected, term));
  }

  /** An empty search term hides nothing: every post of the category shows. */
  lemma EmptySearchShowsCategory(posts: seq<AdminListRow>, selected: Option<string>)
    ensures forall k :: 0 <= k < |posts| && InCategory(posts[k], selected) ==>
      posts[k] in FilteredPosts(Some(posts), selected, "")
  {
    forall k | 0 <= k < |posts| && InCategory(posts[k], selected)
      ensures Shown(posts[k], selected, "")
    {
      assert ToLower("") == "";
      ContainsTrivial(ToLower(posts[k].title));
    }
  }

  /** What handleDelete does with the answer of the DELETE request. */
  datatype DeleteResponse = NetworkError | Response(status: int)

  datatype DeleteFeedback = NotConfirmed | Revalidated | PostNotFoundToast | FailedToast

  /** handleDelete: nothing without confirmation; an ok answer (2xx)
      revalidates the list; 404 reports 'Post not found'; anything else,
      a network error included, reports a failure. */
  function HandleDelete(confirmed: bool, response: DeleteResponse): (r: DeleteFeedback)
    ensures r == NotConfirmed <==> !confirmed
    ensures r == Revalidated <==> confirmed && response.Response? && 200 <= response.status <= 299
    ensures r == PostNotFoundToast <==> confirmed && response == Response(404)
    ensures r == FailedToast <==>
      confirmed && (response.NetworkError? || !(200 <= response.status <= 299 || response.status == 404))
  {
    if !confirmed then NotConfirmed
    else if response.Response? && 200 <= response.status <= 299 then Revalidated
    else if response == Response(404) then PostNotFoundToast
    else FailedToast
  }

  /** The component's state: the page, the chosen category, the term. */
  class PostListView {
    var currentPage: int
    var selectedCategory: Option<string>
    var searchTerm: string

    ghost predicate Valid()
      reads this
    {
      currentPage >= 1
    }

    constructor ()
      ensures Valid() && currentPage == 1 && selectedCategory == None && searchTerm == ""
    {
      currentPage := 1;
      selectedCategory := None;
      searchTerm := "";
    }

    /** totalPages. */
    function TotalPagesOf(posts: Option<seq<AdminListRow>>): nat
      reads this
    {
      TotalPages(|FilteredPosts(posts, selectedCategory, searchTerm)|, ItemsPerPage)
    }

    /** currentPosts. */
    function CurrentPosts(posts: Option<seq<AdminListRow>>): (r: seq<AdminListRow>)
      reads this
      requires Valid()
      ensures |r| <= ItemsPerPage
      ensures forall k :: 0 <= k < |r| ==> Shown(r[k], selectedCategory, searchTerm)
      ensures currentPage <= TotalPagesOf(posts) ==> r != []
      ensures currentPage > TotalPagesOf(posts) ==> r == []
    {
      var filtered := FilteredPosts(posts, selectedCategory, searchTerm);
      PageOfProps(filtered, currentPage, ItemsPerPage);
      PageOf(filtered, currentPage, ItemsPerPage)
    }

    /** The Select: "all" clears the category; the page stays. */
    method SelectCategory(value: string)
      requires Valid()
      modifies this
      ensures Valid()
      ensures selectedCategory == (if value == "all" then None else Some(value))
      ensures currentPage == old(currentPage) && searchTerm == old(searchTerm)
    {
      selectedCategory := if value == "all" then None else Some(value);
    }

    /** The search box; the page stays. */
    method Search(term: string)
      requires Valid()
      modifies this
      ensures Valid()
      ensures searchTerm == term
      ensures currentPage == old(currentPage) && selectedCategory == old(selectedCategory)
    {
      searchTerm := term;
    }

    /** A page link; links run from 1 to totalPages. */
    method GoToPage(posts: Option<seq<AdminListRow>>, page: int)
      requires Valid() && page in PageLinks(TotalPagesOf(posts))
      modifies this
      ensures Valid() && currentPage == page && 1 <= currentPage <= TotalPagesOf(posts)
      ensures selectedCategory == old(selectedCategory) && searchTerm == old(searchTerm)
    {
      currentPage := page;
    }

    /** The Previous control, rendered only while currentPage > 1. */
    method Previous()
      requires Valid() && PrevVisible(currentPage)
      modifies this
      ensures Valid() && currentPage == old(currentPage) - 1
      ensures selectedCategory == old(selectedCategory) && searchTerm == old(searchTerm)
    {
      currentPage := currentPage - 1;
    }

    /** The Next control, rendered only while currentPage < totalPages. */
    method Next(posts: Option<seq<AdminListRow>>)
      requires Valid() && NextVisible(currentPage, TotalPagesOf(posts))
      modifies this
      ensures Valid() && currentPage == old(currentPage) + 1 && currentPage <= TotalPagesOf(posts)
      ensures selectedCategory == old(selectedCategory) && searchTerm == old(searchTerm)
    {
      currentPage := currentPage + 1;
    }
  }

  /** On page 2 of a long list, a search that matches nothing keeps the
      page at 2 while there are no pages at all: the table is empty and
      only Previous is offered. */
  method StalePageExample(posts: seq<AdminListRow>) returns (view: PostListView)
    requires |posts| > ItemsPerPage
    ensures view.Valid() && view.currentPage == 2
    ensures view.TotalPagesOf(Some(posts)) == 0
    ensures view.CurrentPosts(Some(posts)) == []
    ensures PrevVisible(view.currentPage) && !NextVisible(view.currentPage, view.TotalPagesOf(Some(posts)))
  {
    view := new PostListView();
    EmptySearchShowsCategory(posts, None);
    assert forall k :: 0 <= k < |posts| ==> posts[k] in FilteredPosts(Some(posts), None, "");
    FilteredInOrder(posts, None, "");
    AllShownKept(posts, None, "");
    assert view.TotalPagesOf(Some(posts)) >= 2;
    view.Next(Some(posts));
    var term := seq(LongestTitle(posts) + 1, _ => 'x');
    LongerTermMatchesNothing(posts, term);
    view.Search(term);
    NothingShown(posts, term);
  }

  /** The Filter keeps every element when every element is shown. */
  lemma AllShownKept(posts: seq<AdminListRow>, selected: Option<string>, term: string)
    requires forall k :: 0 <= k < |posts| ==> Shown(posts[k], selected, term)
    ensures |FilteredPosts(Some(posts), selected, term)| == |posts|
  {
    FilteredInOrder(posts, selected, term);
    FilterKeepsAll(posts, (p: AdminListRow) => Shown(p, selected, term));
  }

  /** The length of the longest title, 0 for no posts. */
  function LongestTitle(posts: seq<AdminListRow>): (n: nat)
    ensures forall k :: 0 <= k < |posts| ==> |posts[k].title| <= n
  {
    if posts == [] then 0
    else
      var rest := LongestTitle(posts[1..]);
      assert forall k :: 1 <= k < |posts| ==> posts[k] == posts[1..][k - 1];
      if |posts[0].title| > rest then |posts[0].title| else rest
  }

  /** A search term longer than every title matches no post. */
  lemma LongerTermMatchesNothing(posts: seq<AdminListRow>, term: string)
    requires |term| > LongestTitle(posts)
    ensures forall k :: 0 <= k < |posts| ==> !TitleMatches(posts[k], term)
  {
  }

  lemma NothingShown(posts: seq<AdminListRow>, term: string)
    requires forall k :: 0 <= k < |posts| ==> !TitleMatches(posts[k], term)
    ensures FilteredPosts(Some(posts), None, term) == []
  {
  }
}
