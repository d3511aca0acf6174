# A verified model of the endaa CMS and job board core

endaa is a Next.js content site with an admin area: posts with categories and
tags, static pages, site settings (social links, copyright line, About Us
text), a newsletter subscriber list, and a job-ingestion endpoint that pulls
jobs from an external feed and stores each new one as a post. This project
models, in Dafny, the logic of that core:

- the ingestion loop with its unique-slug generator and duplicate check;
- the post store of `lib/posts.ts`, with its IFNULL update merge;
- the REST handlers for admin posts (with tag get-or-create), pages, social
  media, copyright, About Us and subscribers, with every status code they answer;
- the admin list views: filters, pagination, page state and selection;
- the popular-posts card, the site metadata fallbacks, the admin route guard,
  and the splitting of the setup SQL script.

Database tables are sequences or maps inside classes whose methods change
them; the handlers are methods on those classes. Pure computations are
functions, and their properties are lemmas. A database failure that the code
cannot predict is an explicit parameter (`dbFails`, `fault`, `failAt`), and so
are `NOW()`, the `slugify` library and the external feed.

Modules:

- `Common`: JS values, truthiness, `||`, `slice`, `filter`, `toLowerCase`, `includes`, decimal rendering.
- `Ordering`: `ORDER BY ... DESC` and the stable descending sort.
- `Paging`: client-side `Math.ceil` pagination.
- One module per source file: `Posts`, `JobIngest`, `AdminPosts`, `Pages`,
  `SocialMedia`, `Copyright`, `AboutUs`, `Subscribers`, `PostList`,
  `Dashboard`, `SubscribersList`, `PopularPosts`, `SiteMetadata`,
  `AdminGuard`, `SetupDatabase`.

Two behaviours of the code are worth stating up front:

- **Re-ingesting a feed stores its jobs again.** The duplicate query
  (app/api/api/route.ts:53-54) compares the stored `content` with the feed's
  raw `description`, but the row is stored with the assembled `fullContent`
  (app/api/api/route.ts:64, 98-100). A job stored once is therefore stored
  again on the next run, under a new slug (`JobIngest.ReingestStoresAgain`).
- **Post creation with tags is not all-or-nothing.** `createPost` and
  `createTag` take their own pool connections and commit on their own
  (lib/posts.ts:47-69, app/api/admin/posts/route.ts:16, 24). Only the
  `post_tags` inserts run on the handler's transaction
  (app/api/admin/posts/route.ts:13, 28, 32). A failure at a tag therefore
  keeps the post and the tags already created, and drops only the links
  (`AdminPosts.CreatePostHandler`).

## Model

| member | source | states |
|---|---|---|
| Common.OrElse | app/layout.tsx:37-38 | `a \|\| b` on an optional string: the value when present and non-empty, else the fallback |
| Common.FirstRow | app/api/pages/copyright/route.ts:34-55 | the GET answer shared with app/api/pages/aboutus/route.ts:39-60: 404 iff the table is empty, else its first row |
| Common.NatToString | app/api/api/route.ts:12 | decimal rendering: non-empty, digits only, no leading zero except "0" |
| Common.NatToStringInjective | app/api/api/route.ts:12 | different counters render as different strings |
| Common.IntToString | app/api/pages/route.ts:91 | decimal rendering of an id, with a minus sign for negatives |
| Common.Join | app/api/api/route.ts:70 | `join` of no items is "", of one item is that item, and of more items the first, the separator, then the join of the rest |
| Common.ClampIndex | app/admin/posts/postlists.tsx:44 | slice index: negative counts from the end, clamped to [0, len] |
| Common.JsSlice | app/admin/posts/postlists.tsx:44 | `slice(start, end)`: at most end - start items, read in order from the clamped start; empty when start is past the end |
| Common.ToLower | app/admin/posts/postlists.tsx:41 | `toLowerCase` keeps the length and lowers each ASCII letter |
| Common.ContainsTrivial | app/admin/posts/postlists.tsx:41 | `includes("")` holds on every string, and every string includes itself |
| Common.FirstWhere | lib/posts.ts:22-28 | `rows[0]` of a WHERE query: None iff no row matches, else the first matching row |
| Common.Filter | app/admin/posts/postlists.tsx:39-41 | `filter` / WHERE: keeps exactly the matching elements, drawn from the input |
| Common.FilterKeepsAll | app/api/admin/posts/route.ts:91-95 | a DELETE removes nothing (`affectedRows === 0`) iff no row matches |
| Common.FilterTwice | app/admin/posts/postlists.tsx:39-41 | two filters in a row equal one filter by both conditions |
| Common.FilterConcat | lib/posts.ts:139 | filtering distributes over concatenation, so kept rows keep their order |
| Ordering.SortDesc | lib/posts.ts:10 | `ORDER BY ... DESC`: keys never increase, same multiset of rows |
| Ordering.InsertDesc | lib/posts.ts:10 | one insertion step keeps the order and adds exactly the element |
| Ordering.SortDescEqualKeys | components/PopularPosts.tsx:20 | with every key equal the sort changes nothing, as a stable sort whose comparator answers 0 |
| Ordering.FilterKeepsIncreasing | lib/posts.ts:139 | deleting rows keeps auto-increment ids increasing in table order |
| Paging.TotalPages | app/admin/posts/postlists.tsx:43 | `Math.ceil(n / size)`: enough pages for n items, no empty last page, 0 iff n = 0 |
| Paging.PageOfProps | app/admin/posts/postlists.tsx:44 | a page holds at most `size` items from (page-1)*size on; non-empty up to the page count; full before the end; empty after |
| Paging.PageLinks | app/admin/posts/postlists.tsx:141 | `Array.from({length: total}, (_, i) => i + 1)`: total links, each in 1..total, increasing |
| Paging.PageLinksCover | app/admin/posts/postlists.tsx:141-150 | every page from 1 to total has a link |
| Paging.PastLastPage | app/admin/posts/postlists.tsx:136-155 | a page past the count is empty, shows no Next, and shows Previous from page 2 |
| Posts.UpdateRows | lib/posts.ts:103-117 | the UPDATE keeps the number of rows |
| Posts.UpdateTouchesOnlyId | lib/posts.ts:103-117 | `WHERE id = ?`: ids are kept, other rows are untouched, the matching row is merged |
| Posts.MergeFields | lib/posts.ts:104-116 | `IFNULL(?, col)`: a given field replaces the column, a missing one keeps it; an empty patch changes nothing |
| Posts.UpdateNeverClears | lib/posts.ts:104-116 | an update can never set a non-null column back to NULL |
| Posts.MergeIdempotent | lib/posts.ts:104-116 | applying the same patch twice equals applying it once |
| Posts.GetPostBySlug | lib/posts.ts:22-28 | None iff no row has the slug, else the first row with it |
| Posts.GetPostByIdAt | lib/posts.ts:142-148 | with increasing ids, looking up a row's id returns that row |
| Posts.GetPosts | lib/posts.ts:5-13 | every row once with its category name, newest first |
| Posts.DeleteRemovesOnlyId | lib/posts.ts:138-140 | the DELETE removes exactly the rows with that id |
| Posts.PostStore.constructor | lib/posts.ts:1 | an empty posts table whose ids start at 1 |
| Posts.PostStore.Insert | lib/posts.ts:52-65 | the row is appended under the next auto-increment id |
| Posts.PostStore.CreatePost | lib/posts.ts:30-79 | a failure before the commit throws and writes nothing; a failure of the read-back throws with the row kept; otherwise the new row is appended and returned as re-read by id |
| Posts.PostStore.UpdatePost | lib/posts.ts:81-136 | a failure before the commit throws and writes nothing; a failure of the read-back throws with the update kept; otherwise rows become the merged rows and the row is re-read by id |
| Posts.PostStore.DeletePost | lib/posts.ts:138-140 | rows become the rows without that id, ids stay increasing |
| JobIngest.CandidateInjective | app/api/api/route.ts:12 | `${slug}-${counter}` differs for different counters |
| JobIngest.CandidatesBelow | app/api/api/route.ts:11-14 | the first n candidates are n distinct strings |
| JobIngest.TakenBound | app/api/api/route.ts:11-14 | if the first n candidates are taken the set has at least n slugs, so the loop ends |
| JobIngest.FirstFreeIndex | app/api/api/route.ts:11-14 | the counter where the while loop stops: its candidate is free and all before it are taken |
| JobIngest.UniqueSlug | app/api/api/route.ts:6-18 | the returned slug is not in the set |
| JobIngest.UniqueSlugIsFirstFree | app/api/api/route.ts:7-14 | the result is the first free candidate: base, base-1, base-2, ... |
| JobIngest.UniqueSlugOfFreeBase | app/api/api/route.ts:8-11 | a free base slug is returned unchanged |
| JobIngest.SuccessiveSlugsDiffer | app/api/api/route.ts:16 | a second call against the extended set never repeats the first result |
| JobIngest.SlugSet.constructor | app/api/api/route.ts:45-49 | the set starts with the stored slugs |
| JobIngest.GenerateUniqueSlug | app/api/api/route.ts:6-18 | returns a slug not in the old set, and adds exactly it to the set |
| JobIngest.SalaryText | app/api/api/route.ts:90 | "from - to" when both bounds are truthy, else "Not specified" |
| JobIngest.JobSections | app/api/api/route.ts:64-91 | each skills section appears iff its list is non-empty; How to Apply and Salary Range always close the body, with fallbacks |
| JobIngest.StopIndex | app/api/api/route.ts:51-104 | the loop gets through at most all jobs |
| JobIngest.IngestAllStep | app/api/api/route.ts:51-104 | one more job is one more loop iteration |
| JobIngest.IngestJobs | app/api/api/route.ts:20-111 | no jobs category or an HTTP error gives 500 with nothing written; otherwise the table is the fold over the jobs reached, and the answer is jobsStored or 500 on a throw |
| JobIngest.StoreJobs | app/api/api/route.ts:44-106 | the loop's effect equals the fold over the jobs before the failing one |
| JobIngest.StoreJob | app/api/api/route.ts:51-103 | one iteration: a job the duplicate query finds is skipped; any other is inserted under a fresh slug, exactly as one fold step |
| JobIngest.IngestAppends | app/api/api/route.ts:97-102 | only appends; each new row is published, in the jobs category, with the fixed meta description; jobsStored counts them |
| JobIngest.IngestSlugsFresh | app/api/api/route.ts:58 | new slugs are pairwise distinct and were not known before the run |
| JobIngest.IngestSlugsTracked | app/api/api/route.ts:45-49 | the slug set stays equal to the slugs in the table |
| JobIngest.NoDescriptionAlwaysStored | app/api/api/route.ts:52-57 | a job without a description never matches (`content = NULL`) and is always stored |
| JobIngest.DuplicatesSkipped | app/api/api/route.ts:52-57 | jobs whose (title, description) is stored change nothing |
| JobIngest.OwnPostNeverMatches | app/api/api/route.ts:52-55 | the stored post never matches its own job's duplicate query |
| JobIngest.ReingestStoresAgain | app/api/api/route.ts:51-104 | ingesting the same one-job feed twice stores two rows, under different slugs |
| AdminPosts.AttachTagProps | app/api/admin/posts/route.ts:20-29 | one tag step: tags kept, at most one tag added, one link of the post to a tag of that name |
| AdminPosts.AttachTagsGrows | app/api/admin/posts/route.ts:20-29 | the loop only adds: at most one tag and exactly one link per name |
| AdminPosts.AttachTagsLinks | app/api/admin/posts/route.ts:20-29 | the links added are, in order, one per name, each to a tag with that name |
| AdminPosts.AttachTagsUnique | app/api/admin/posts/route.ts:21-25 | get-or-create never gives a name a second tag |
| AdminPosts.StopAt | app/api/admin/posts/route.ts:20-29 | the loop stops early iff a tag step fails inside the list |
| AdminPosts.TagStore.constructor | app/api/admin/posts/route.ts:4 | empty tags and links tables |
| AdminPosts.TagStore.GetTagByName | app/api/admin/posts/route.ts:21 | the first tag with that name, or none |
| AdminPosts.TagStore.CreateTag | app/api/admin/posts/route.ts:24 | the tag is appended under the next id |
| AdminPosts.TagStore.LinkPostTag | app/api/admin/posts/route.ts:28 | one `post_tags` row is appended |
| AdminPosts.TagStore.AttachOne | app/api/admin/posts/route.ts:21-28 | one loop step: the tables become the get-or-create-and-link step of the name |
| AdminPosts.TagStore.AttachFirst | app/api/admin/posts/route.ts:20-29 | the loop over the names reached: the tables become the step-by-step fold over them |
| AdminPosts.CreatePostHandler | app/api/admin/posts/route.ts:7-42 | 500 and nothing written when createPost fails before its commit; 500 with the post kept when its read-back fails; otherwise the post stays; 201 with the post when every tag step succeeds; a tag failure answers 500, keeps tags created so far and drops this request's links |
| AdminPosts.ListPosts | app/api/admin/posts/route.ts:52-69 | every post once, newest first, each labelled with a non-empty category name |
| Common.MapSeq | app/api/admin/posts/route.ts:61 | `rows.map(f)` keeps the length and applies `f` at every index |
| Common.MapPermutation | app/api/admin/posts/route.ts:61 | mapping two permutations of one another gives two permutations of one another |
| AdminPosts.UncategorizedLabel | app/api/admin/posts/route.ts:64 | a post without a category is listed as 'Uncategorized' |
| AdminPosts.DeletePostHandler | app/api/admin/posts/route.ts:80-102 | 400 without an id, 500 on a database error, else the row is deleted and the answer is 404 iff no row had the id |
| Pages.Field | app/api/pages/route.ts:34 | a missing key reads as undefined |
| Pages.PageBySlug | app/api/pages/route.ts:12-16 | None iff no page has the slug, else the first such page |
| Pages.GetPages | app/api/pages/route.ts:6-25 | with a slug, that page or 404 iff none has it; without one, every page newest first |
| Pages.WithoutId | app/api/pages/route.ts:62 | `{id, ...updateData}`: every key but id, unchanged |
| Pages.Echo | app/api/pages/route.ts:40 | `{id: insertId, ...data}`: all body keys, and a body id overrides the insert id |
| Pages.UpdatePages | app/api/pages/route.ts:63-66 | the UPDATE keeps the number of rows |
| Pages.UpdateKeepsIds | app/api/pages/route.ts:63-66 | ids kept, unmatched rows untouched, matched rows take the given columns and keep the rest |
| Pages.PostedPageFound | app/api/pages/route.ts:12-40 | after inserting a page with a slug, GET by that slug finds a page, the new one if no older page has the slug |
| Pages.AllowOmitsPut | app/api/pages/route.ts:104-110 | the Allow header names DELETE but not PUT, although PUT is handled |
| Pages.PageStore.constructor | app/api/pages/route.ts:2 | an empty pages table |
| Pages.PageStore.Post | app/api/pages/route.ts:28-45 | a truthy id gives 400; an empty body or a database error gives 500; otherwise 201 with the echo, and the row is appended |
| Pages.PageStore.Put | app/api/pages/route.ts:51-78 | a falsy id gives 400; nothing to set or a database error gives 500; otherwise rows are updated and the answer is 404 iff no row matched |
| Pages.PageStore.Delete | app/api/pages/route.ts:83-101 | 400 without an id, 500 on error, else the row is deleted and the answer is 404 iff none had the id |
| SocialMedia.StopIndex | app/api/pages/socialmedia/route.ts:21-37 | the loop can only fail at a platform whose value is a string |
| SocialMedia.UpsertsEffect | app/api/pages/socialmedia/route.ts:21-37 | after the loop, string-valued platforms map to their url; other keys are as before |
| SocialMedia.SocialMediaTable.constructor | app/api/pages/socialmedia/route.ts:2 | the table as given |
| SocialMedia.SocialMediaTable.Post | app/api/pages/socialmedia/route.ts:6-47 | a connection failure writes nothing; else the upserts run in order up to a failure; 200 iff all ran, else 500 |
| SocialMedia.SocialMediaTable.Get | app/api/pages/socialmedia/route.ts:49-78 | 404 iff the table is empty, else every row |
| Copyright.Upsert | app/api/pages/copyright/route.ts:16-19 | ON DUPLICATE KEY UPDATE overwrites the colliding row, else appends |
| Copyright.YearExamples | app/api/pages/copyright/route.ts:9 | "2024" passes `/^\d{4}$/`; "24" and "202a" do not |
| Copyright.UpsertVisible | app/api/pages/copyright/route.ts:16-47 | after a POST on an empty table or onto row 0, GET shows the posted values |
| Copyright.UpsertHidden | app/api/pages/copyright/route.ts:16-47 | without a collision on a non-empty table, GET still shows the old first row |
| Copyright.CopyrightTable.constructor | app/api/pages/copyright/route.ts:2 | the table as given |
| Copyright.CopyrightTable.Post | app/api/pages/copyright/route.ts:5-33 | invalid input gives 400; a database failure or zero affected rows gives 500; otherwise 200 and the upsert |
| AboutUs.ValidContentIsNonEmptyString | app/api/pages/aboutus/route.ts:9 | the content is accepted iff it is a non-empty string |
| AboutUs.AboutUsTable.constructor | app/api/pages/aboutus/route.ts:2 | the table as given |
| AboutUs.AboutUsTable.Post | app/api/pages/aboutus/route.ts:5-37 | invalid content gives 400; a failure before the delete writes nothing; a failed insert leaves the table empty; otherwise the table holds only the new content |
| Subscribers.NumberOr | app/api/newsletter/subscribes/route.ts:27-28 | `Number(x) \|\| d`: NaN and 0 fall back to d |
| Subscribers.Newest | app/api/newsletter/subscribes/route.ts:32 | newest first, same subscribers |
| Subscribers.Window | app/api/newsletter/subscribes/route.ts:32-33 | LIMIT/OFFSET: at most size rows, read in order from the offset |
| Subscribers.ListSubscribers | app/api/newsletter/subscribes/route.ts:24-49 | 500 iff the page size or offset is negative; else the window of the newest-first rows and the full count |
| Subscribers.PagesCover | app/api/newsletter/subscribes/route.ts:27-34 | the first n pages are exactly the first n*size subscribers |
| Subscribers.AllPagesCover | app/api/newsletter/subscribes/route.ts:27-41 | walking all ceil(total/size) pages, every page cut from one and the same order, yields every subscriber once, in order |
| Subscribers.DbOrderUnique | app/api/newsletter/subscribes/route.ts:32 | when no two subscribers share a `created_at`, `ORDER BY created_at DESC` has only one answer |
| Subscribers.WalkCovers | app/api/newsletter/subscribes/route.ts:27-41 | with distinct `created_at` values and an unchanged table, the page walk yields every subscriber once, newest first, whatever order each request saw |
| Subscribers.TiesCanRepeat | app/api/newsletter/subscribes/route.ts:32-33 | two subscribers from the same second, one per page: if the two requests break the tie differently, the walk shows one twice and the other never |
| Subscribers.SubscriberTable.constructor | app/api/newsletter/subscribes/route.ts:2 | an empty table |
| Subscribers.SubscriberTable.Subscribe | app/api/newsletter/subscribes/route.ts:5-21 | 201 and the email appended, or 500 and nothing inserted |
| PostList.FilteredPosts | app/admin/posts/postlists.tsx:39-41 | exactly the posts in the chosen category whose title contains the term, ignoring case; none while loading |
| PostList.FilteredInOrder | app/admin/posts/postlists.tsx:39-41 | the two filters are one order-keeping pass |
| PostList.EmptySearchShowsCategory | app/admin/posts/postlists.tsx:41 | an empty term hides no post of the category |
| PostList.AllShownKept | app/admin/posts/postlists.tsx:39-41 | when every post passes, the list is as long as the input |
| PostList.HandleDelete | app/admin/posts/postlists.tsx:46-63 | no confirmation, nothing; 2xx revalidates; 404 says not found; anything else fails |
| PostList.PostListView.constructor | app/admin/posts/postlists.tsx:34-36 | page 1, no category, empty term |
| PostList.PostListView.CurrentPosts | app/admin/posts/postlists.tsx:43-44 | at most 10 shown posts; non-empty up to the page count, empty beyond |
| PostList.PostListView.SelectCategory | app/admin/posts/postlists.tsx:71 | "all" clears the category; the page does not move |
| PostList.PostListView.Search | app/admin/posts/postlists.tsx:90 | the term changes; the page does not move |
| PostList.PostListView.GoToPage | app/admin/posts/postlists.tsx:141-150 | a link sets the page, which is then within 1..totalPages |
| PostList.PostListView.Previous | app/admin/posts/postlists.tsx:136-140 | offered while page > 1, moves back one |
| PostList.PostListView.Next | app/admin/posts/postlists.tsx:151-155 | offered while page < totalPages, moves on one, staying within the count |
| PostList.StalePageExample | app/admin/posts/postlists.tsx:39-155 | on page 2, a search that matches nothing leaves page 2 with no pages, an empty table and only Previous |
| PostList.LongestTitle | app/admin/posts/postlists.tsx:41 | no title is longer than it |
| PostList.LongerTermMatchesNothing | app/admin/posts/postlists.tsx:41 | a term longer than every title matches no post |
| PostList.NothingShown | app/admin/posts/postlists.tsx:39-41 | with all categories, a term no title contains leaves an empty list |
| Dashboard.FilteredPosts | app/admin/dashboard/page.tsx:52-57 | exactly the posts in the category whose title or excerpt contains the term, ignoring case |
| Dashboard.FilteredInOrder | app/admin/dashboard/page.tsx:52-57 | the two filters are one order-keeping pass |
| Dashboard.ExcerptAloneSuffices | app/admin/dashboard/page.tsx:55-56 | a post matching only in its excerpt is listed |
| Dashboard.VisibleSlice | app/admin/dashboard/page.tsx:59-62 | [startIndex, startIndex + 10): at most 10 posts from startIndex; non-empty up to ceil(n/10), empty beyond |
| Dashboard.DashboardView.constructor | app/admin/dashboard/page.tsx:47-49 | page 1, no category, empty term |
| Dashboard.DashboardView.CurrentPosts | app/admin/dashboard/page.tsx:59-62 | at most 10 shown posts, non-empty up to the page count |
| Dashboard.DashboardView.CategoryChange | app/admin/dashboard/page.tsx:68-96 | the category changes and the page resets to 1 |
| Dashboard.DashboardView.SearchChange | app/admin/dashboard/page.tsx:73-76 | the term changes and the page resets to 1 |
| Dashboard.DashboardView.PageChange | app/admin/dashboard/page.tsx:157-176 | a link, Previous (page > 1) or Next (page < totalPages) sets the page directly |
| Dashboard.DashboardView.Delete | app/admin/dashboard/page.tsx:78-81 | the list is revalidated exactly once iff the DELETE request resolves, whatever its status; page, category and term are unchanged |
| Dashboard.ResetShowsFirstPage | app/admin/dashboard/page.tsx:73-76 | after a search the first page shows a post whenever any post passes |
| SubscribersList.IdSet | app/admin/newsletter/SubscribersList.tsx:46 | the set holds exactly the listed ids |
| SubscribersList.DistinctIdsCount | app/admin/newsletter/SubscribersList.tsx:46 | with distinct ids the set is as large as the list |
| SubscribersList.Toggled | app/admin/newsletter/SubscribersList.tsx:50-58 | the id flips, every other id stays |
| SubscribersList.ToggleTwice | app/admin/newsletter/SubscribersList.tsx:50-58 | toggling twice restores the selection |
| SubscribersList.SelectAllToggled | app/admin/newsletter/SubscribersList.tsx:42-48 | cleared when the sizes match, else exactly the listed ids |
| SubscribersList.SelectAllThenClear | app/admin/newsletter/SubscribersList.tsx:42-83 | with distinct ids, select-all checks the header and a second click clears |
| SubscribersList.SizesNotMembers | app/admin/newsletter/SubscribersList.tsx:43-83 | a selection of other ids with the same size reads as all-checked and is cleared |
| SubscribersList.RangeMatchesPage | app/admin/newsletter/SubscribersList.tsx:40-74 | on a listed page the range line spans exactly the subscribers the API returns |
| SubscribersList.SubscribersListView.constructor | app/admin/newsletter/SubscribersList.tsx:16-20 | page 1, size 10, no subscribers, empty selection |
| SubscribersList.SubscribersListView.Refresh | app/admin/newsletter/SubscribersList.tsx:22-38 | a failed fetch keeps the list; otherwise list and total are replaced; the selection stays |
| SubscribersList.SubscribersListView.SetPageSize | app/admin/newsletter/SubscribersList.tsx:63 | the size changes, the page does not |
| SubscribersList.SubscribersListView.ToggleSubscriber | app/admin/newsletter/SubscribersList.tsx:50-58 | the selection becomes the toggled copy |
| SubscribersList.SubscribersListView.ToggleAll | app/admin/newsletter/SubscribersList.tsx:42-48 | the selection becomes the select-all result |
| SubscribersList.SubscribersListView.Previous | app/admin/newsletter/SubscribersList.tsx:108 | `max(1, page - 1)`, enabled while page != 1 |
| SubscribersList.SubscribersListView.Next | app/admin/newsletter/SubscribersList.tsx:112 | `min(totalPages, page + 1)`, enabled while page != totalPages |
| SubscribersList.NextWithoutSubscribers | app/admin/newsletter/SubscribersList.tsx:40-112 | with no subscribers Next goes to page 0, and the range reads "-9 - 0" |
| PopularPosts.Popular | components/PopularPosts.tsx:20 | min(5, n) posts, views non-increasing, all from the input, a prefix of the sorted copy |
| PopularPosts.PopularIsTop | components/PopularPosts.tsx:20 | no post left out has more views than a listed one |
| PopularPosts.FewPostsAllListed | components/PopularPosts.tsx:20 | with five posts or fewer every post is listed |
| PopularPosts.EqualViewsKeepsOrder | components/PopularPosts.tsx:18-20 | when every comparison is 0 (all views equal, or all missing), the card lists the first five posts in input order |
| PopularPosts.PlaceholderWhenEmpty | components/PopularPosts.tsx:30-48 | the placeholder shows iff there are no posts |
| SiteMetadata.BaseMetadata | app/layout.tsx:36-59 | title, description and Open Graph fall back through their chains; keywords are meta_keywords as read; the site-verification, msvalidate and robots entries are their column or ""; OG images iff og_image is truthy; all three icons are the favicon iff it is truthy |
| SiteMetadata.GenerateMetadata | app/layout.tsx:32-86 | the literal plus a Twitter card iff the type is summary, summary_large_image or app |
| SiteMetadata.NoSeoDefaults | app/layout.tsx:33-49 | without an seo row every field is its default and the verification entries are empty |
| SiteMetadata.EmptyTitleIsMissing | app/layout.tsx:37-41 | an empty title gives the same metadata as a missing one |
| SiteMetadata.OgTitleFollowsTitle | app/layout.tsx:37-41 | without an OG title, the OG title is the page title |
| AdminGuard.Middleware | middleware.ts:5-26 | redirect to /login iff the path starts with /admin and there is no token |
| AdminGuard.Guard | middleware.ts:28-30 | the middleware runs only on matched paths |
| AdminGuard.MatchedIsAdmin | middleware.ts:9-30 | every matched path passes the prefix test, so without a token it redirects |
| AdminGuard.PrefixWiderThanMatcher | middleware.ts:9-30 | "/adminx" passes the prefix test but is never matched, so it is open |
| AdminGuard.PublicPathsOpen | middleware.ts:9-25 | a path outside /admin always proceeds |
| SetupDatabase.TrimStart | setup-database.js:34 | drops exactly the leading white space |
| SetupDatabase.TrimEnd | setup-database.js:34 | drops exactly the trailing white space |
| SetupDatabase.TrimEmptyIffBlank | setup-database.js:34-38 | `trim() === ''` iff the piece is all white space |
| SetupDatabase.Split | setup-database.js:34 | `split(';')`: at least one piece, none containing ';' |
| SetupDatabase.SplitJoin | setup-database.js:34 | joining the pieces with ';' gives the file back |
| SetupDatabase.SplitUnique | setup-database.js:34 | the split is the only ';'-free cut that joins back to the file |
| SetupDatabase.SemicolonInLiteral | setup-database.js:34 | a ';' inside a string literal still splits the statement |
| SetupDatabase.Commands | setup-database.js:34 | no command has ';' or is blank; the commands are exactly the non-blank pieces |
| SetupDatabase.NoBlankPiecesKeepsFile | setup-database.js:34 | with no blank piece, joining the commands gives the file back |
| SetupDatabase.Connection.constructor | setup-database.js:26-31 | a fresh connection has run nothing |
| SetupDatabase.Connection.RunCommands | setup-database.js:37-41 | runs the commands in order, stopping at the first failure |
| SetupDatabase.RunScript | setup-database.js:34-41 | the connection has run the file's commands in order, up to the first failure |

## Left out

- Connection-pool mechanics are not modelled: getting and releasing connections, `end()`, and transactions. A `rollback` appears only as its effect on the tables.
- MySQL collation is not modelled. String comparisons in WHERE clauses are exact, not case- or accent-insensitive.
- Ordering.SortDesc: for `ORDER BY` the model keeps rows with equal keys in table order. The database may return them in any order, so `Posts.GetPosts`, `AdminPosts.ListPosts`, `Pages.GetPages` and `Subscribers.Newest` each give one admissible answer, not the only one.
- Subscribers.AllPagesCover: it assumes every page request sees the same order and an unchanged table. `Subscribers.WalkCovers` drops the first assumption when `created_at` values are distinct, and `Subscribers.TiesCanRepeat` shows a walk that repeats and skips when they tie. Rows inserted or deleted between page requests are not modelled.
- The schema (`setup.sql`) is not part of this model. Unique keys show up only as injected failures: the copyright clash is the `clash` parameter, and a duplicate subscriber email is a `dbFails` failure.
- Dates are integers. `NOW()`, ISO formatting and `toLocaleDateString` are not modelled.
- The number conversions are simplified. Ids and `Number(...)` results are integers. Fractional and non-numeric ids are not modelled. A string id matches a row when it is the id's decimal form.
- `toLowerCase`, `trim` and `slugify` are reduced. Only ASCII letters are lower-cased. Only ASCII white space, NBSP and BOM are trimmed. `slugify` is a parameter.
- The GET handlers' 500 paths (a failed SELECT) are not modelled. The subscriber listing's negative LIMIT/OFFSET failure is modelled.
- The admin DELETE reads `params.id`. The router does not pass that parameter to this non-dynamic route. The model takes the id as a parameter and covers both the missing and the present case.
- AdminPosts.CreatePostHandler: a tag step fails as a whole. A failure between `createTag` and the link insert leaves the same tables as a failure before `createTag`.
- JobIngest.JobSections and `FullContent` keep the section structure and text, not the exact whitespace of the template literal.
- Out of scope: the feed's HTTP request, the polling timer that triggers ingestion, and the `next-auth` token check (a boolean here).
- Not modelled: reading `setup.sql` from disk, `CREATE DATABASE`, and the unused bcrypt hash in `setup-database.js`.
- Not modelled: UI rendering, toasts, router navigation and SWR caching. Revalidation is reported as a value.
- PopularPosts: the copy before sorting is implicit. The model is a function on sequences, so it cannot reorder its input.
- PopularPosts: `views` is an integer on every post. No post row or query in the source has a `views` column. So in the running code `b.views - a.views` is NaN, which `sort` reads as 0. Every pair then compares equal, and the card shows the first five posts in input order. `PopularPosts.EqualViewsKeepsOrder` states that case. A mix of posts with and without `views` makes the comparator inconsistent, and that order is left to the JavaScript engine; the model does not cover it.
- Dashboard.DashboardView.Delete: a rejected `fetch` is a boolean, and SWR's reload is a counter of `mutate()` calls. The request's path and status are parameters that the source never reads.
