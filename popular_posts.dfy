/** The sidebar card of components/PopularPosts.tsx: a copy of the posts,
    sorted by views from most to least (ties keep their order, as the
    JavaScript sort is stable), cut to the first five. */
module PopularPosts {
  import opened Common
  import opened Ordering

  const MaxPopular: nat := 5

  datatype PopularPost = PopularPost(id: int, title: string, slug: string, views: int)

  function Views(p: PopularPost): int { p.views }

  /** `[...posts].sort((a, b) => b.views - a.views).slice(0, 5)`. */
  function Popular(posts: seq<PopularPost>): (r: seq<PopularPost>)
    ensures |r| == if |posts| < MaxPopular then |posts| else MaxPopular
    ensures SortedDesc(r, Views)
    ensures multiset(r) <= multiset(posts)
    ensures r == SortDesc(posts, Views)[..|r|]
  {
    var sorted := SortDesc(posts, Views);
    var r := JsSlice(sorted, 0, MaxPopular);
    TopOfSorted(sorted, r);
    r
  }

  /** `slice(0, 5)` of a sorted list is its sorted prefix of length
      min(5, n), drawn from it. */
  lemma TopOfSorted(sorted: seq<PopularPost>, r: seq<PopularPost>)
    requires SortedDesc(sorted, Views)
    requires r == JsSlice(sorted, 0, MaxPopular)
    ensures |r| == if |sorted| < MaxPopular then |sorted| else MaxPopular
    ensures r == sorted[..|r|]
    ensures SortedDesc(r, Views)
    ensures multiset(r) <= multiset(sorted)
  {
    var n := if |sorted| < MaxPopular then |sorted| else MaxPopular;
    assert ClampIndex(0, |sorted|) == 0 && ClampIndex(MaxPopular, |sorted|) == n;
    assert r == sorted[..n];
    assert sorted == r + sorted[n..];
    assert multiset(sorted) == multiset(r) + multiset(sorted[n..]);
  }

  /** No post left out has more views than any post on the list. */
  lemma PopularIsTop(posts: seq<PopularPost>)
    ensures var r := Popular(posts);
      forall q, k :: q in multiset(posts) - multiset(r) && 0 <= k < |r| ==> Views(q) <= Views(r[k])
  {
    var sorted := SortDesc(posts, Views);
    var r := Popular(posts);
    var m := |r|;
    var rest := sorted[m..];
    assert sorted == r + rest;
    assert multiset(posts) == multiset(r) + multiset(rest);
    SortedTail(sorted, m);
    forall q, k | q in multiset(posts) - multiset(r) && 0 <= k < m
      ensures Views(q) <= Views(r[k])
    {
      assert multiset(rest)[q] > 0;
      assert r[k] == sorted[k];
    }
  }

  /** In a list sorted by views, nothing after position m has more views
      than anything before it. */
  lemma SortedTail(sorted: seq<PopularPost>, m: nat)
    requires SortedDesc(sorted, Views) && m <= |sorted|
    ensures forall q, k :: q in multiset(sorted[m..]) && 0 <= k < m ==> Views(q) <= Views(sorted[k])
  {
    forall q, k | q in multiset(sorted[m..]) && 0 <= k < m
      ensures Views(q) <= Views(sorted[k])
    {
      var rest := sorted[m..];
      assert q in rest;
      var j :| 0 <= j < |rest| && rest[j] == q;
      assert sorted[m + j] == q;
    }
  }

  /** With five posts or fewer, every post is listed. */
  lemma FewPostsAllListed(posts: seq<PopularPost>)
    requires |posts| <= MaxPopular
    ensures multiset(Popular(posts)) == multiset(posts)
  {
    var r := Popular(posts);
    assert |multiset(r)| == |multiset(posts)|;
    assert multiset(posts) - multiset(r) == multiset{} by {
      assert |multiset(posts) - multiset(r)| == |multiset(posts)| - |multiset(r)|;
    }
  }

  /** When all posts have the same views (as when no post carries the
      field and every comparison is NaN, which sort reads as 0), the card
      lists the first five posts in their input order. */
  lemma EqualViewsKeepsOrder(posts: seq<PopularPost>, v: int)
    requires forall k :: 0 <= k < |posts| ==> Views(posts[k]) == v
    ensures Popular(posts) == posts[..if |posts| < MaxPopular then |posts| else MaxPopular]
  {
    SortDescEqualKeys(posts, Views, v);
  }

  /** The card shows "No popular posts available." exactly when there are
      no posts. */
  lemma PlaceholderWhenEmpty(posts: seq<PopularPost>)
    ensures Popular(posts) == [] <==> posts == []
  {
  }
}
