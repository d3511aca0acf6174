/** The post store of lib/posts.ts: the `posts` table, createPost (an
    INSERT of twelve columns in a transaction), updatePost (an UPDATE whose
    every column is IFNULL(new, old)), deletePost, and the lookups
    getPostById, getPostBySlug and getPosts. */
module Posts {
  import opened Common
  import opened Ordering

  datatype PostStatus = Draft | Published | Archived

  /** A row of `posts`; nullable columns are Options. `createdAt` is the
      value NOW() or the column default gave when the row was inserted. */
  datatype PostRow = PostRow(
    id: int,
    categoryId: Option<int>,
    title: string,
    slug: string,
    description: Option<string>,
    content: string,
    metaTitle: Option<string>,
    metaDescription: Option<string>,
    metaKeywords: Option<string>,
    featuredImage: Option<string>,
    url: Option<string>,
    urlLabel: Option<string>,
    status: PostStatus,
    createdAt: int)

  /** The body createPost receives (PostInput). */
  datatype PostInput = PostInput(
    title: string,
    slug: string,
    categoryId: Option<int>,
    description: Option<string>,
    content: string,
    metaTitle: Option<string>,
    metaDescription: Option<string>,
    metaKeywords: Option<string>,
    featuredImage: Option<string>,
    url: Option<string>,
    urlLabel: Option<string>,
    authorId: Option<int>,
    status: PostStatus,
    tags: JsValue)

  /** The body updatePost receives (Partial<PostInput>): None is a field
      that is null or absent. */
  datatype PostPatch = PostPatch(
    title: Option<string>,
    slug: Option<string>,
    categoryId: Option<int>,
    description: Option<string>,
    content: Option<string>,
    metaTitle: Option<string>,
    metaDescription: Option<string>,
    metaKeywords: Option<string>,
    featuredImage: Option<string>,
    url: Option<string>,
    urlLabel: Option<string>,
    status: Option<PostStatus>)

  /** A post as getPosts lists it: the row and its LEFT JOINed category name. */
  datatype ListedPost = ListedPost(post: PostRow, categoryName: Option<string>)

  /** The row createPost's INSERT writes: the twelve listed columns of the
      input, the new auto-increment id and the insertion time. */
  function NewRow(id: int, input: PostInput, now: int): PostRow {
    PostRow(id, input.categoryId, input.title, input.slug, input.description, input.content,
            input.metaTitle, input.metaDescription, input.metaKeywords,
            input.featuredImage, input.url, input.urlLabel, input.status, now)
  }

  /** IFNULL(?, column) for a NOT NULL column and for a nullable one. */
  function IfNull<T>(given: Option<T>, current: T): T {
    if given.Some? then given.value else current
  }

  function IfNullOpt<T>(given: Option<T>, current: Option<T>): Option<T> {
    if given.Some? then given else current
  }

  /** The row updatePost's UPDATE leaves behind. */
  function Merge(row: PostRow, p: PostPatch): PostRow {
    row.(title := IfNull(p.title, row.title),
         slug := IfNull(p.slug, row.slug),
         categoryId := IfNullOpt(p.categoryId, row.categoryId),
         description := IfNullOpt(p.description, row.description),
         content := IfNull(p.content, row.content),
         metaTitle := IfNullOpt(p.metaTitle, row.metaTitle),
         metaDescription := IfNullOpt(p.metaDescription, row.metaDescription),
         metaKeywords := IfNullOpt(p.metaKeywords, row.metaKeywords),
         featuredImage := IfNullOpt(p.featuredImage, row.featuredImage),
         url := IfNullOpt(p.url, row.url),
         urlLabel := IfNullOpt(p.urlLabel, row.urlLabel),
         status := IfNull(p.status, row.status))
  }

  /** Table order is ascending id (auto-increment, never reused). */
  predicate IdsIncreasing(rows: seq<PostRow>) {
    forall i, j :: 0 <= i < j < |rows| ==> rows[i].id < rows[j].id
  }

  function RowId(row: PostRow): int { row.id }

  /** `UPDATE posts SET ... WHERE id = ?`. */
  function UpdateRows(rows: seq<PostRow>, id: int, p: PostPatch): (r: seq<PostRow>)
    ensures |r| == |rows|
  {
    seq(|rows|, i requires 0 <= i < |rows| => if rows[i].id == id then Merge(rows[i], p) else rows[i])
  }

  /** `DELETE FROM posts WHERE id = ?`. */
  function DeleteRows(rows: seq<PostRow>, id: int): (r: seq<PostRow>) {
    Filter(rows, (row: PostRow) => row.id != id)
  }

  /** `SELECT * FROM posts WHERE id = ?`, first row. */
  function GetPostById(rows: seq<PostRow>, id: int): Option<PostRow> {
    FirstWhere(rows, (row: PostRow) => row.id == id)
  }

  /** getPostBySlug: `SELECT * FROM posts WHERE slug = ?`, first row, or null. */
  function GetPostBySlug(rows: seq<PostRow>, slug: string): (r: Option<PostRow>)
    ensures r.None? <==> forall k :: 0 <= k < |rows| ==> rows[k].slug != slug
    ensures r.Some? ==> exists i :: 0 <= i < |rows| && rows[i] == r.value && r.value.slug == slug &&
                                    forall k :: 0 <= k < i ==> rows[k].slug != slug
  {
    FirstWhere(rows, (row: PostRow) => row.slug == slug)
  }

  function CategoryName(row: PostRow, categories: map<int, string>): Option<string> {
    if row.categoryId.Some? && row.categoryId.value in categories
    then Some(categories[row.categoryId.value])
    else None
  }

  function ListedCreatedAt(p: ListedPost): int { p.post.createdAt }

  /** getPosts: every post with its category name, newest first. */
  function GetPosts(rows: seq<PostRow>, categories: map<int, string>): (r: seq<ListedPost>)
    ensures |r| == |rows|
    ensures SortedDesc(r, ListedCreatedAt)
    ensures multiset(r) == multiset(seq(|rows|, i requires 0 <= i < |rows| =>
                                          ListedPost(rows[i], CategoryName(rows[i], categories))))
  {
    SortDesc(seq(|rows|, i requires 0 <= i < |rows| => ListedPost(rows[i], CategoryName(rows[i], categories))),
             ListedCreatedAt)
  }

  /** With ids increasing, the row with a given id is the one at its index. */
  lemma {:induction false} GetPostByIdAt(rows: seq<PostRow>, i: nat)
    requires IdsIncreasing(rows)
    requires i < |rows|
    ensures GetPostById(rows, rows[i].id) == Some(rows[i])
  {
    var r := GetPostById(rows, rows[i].id);
    if r.Some? {
      var j :| 0 <= j < |rows| && rows[j] == r.value && rows[j].id == rows[i].id &&
               forall k :: 0 <= k < j ==> rows[k].id != rows[i].id;
      assert j == i;
    }
  }

  /** updatePost changes only the row with the given id, never moves or
      renumbers a row, and leaves every other row as it was. */
  lemma UpdateTouchesOnlyId(rows: seq<PostRow>, id: int, p: PostPatch)
    ensures |UpdateRows(rows, id, p)| == |rows|
    ensures forall k :: 0 <= k < |rows| ==> UpdateRows(rows, id, p)[k].id == rows[k].id
    ensures forall k :: 0 <= k < |rows| && rows[k].id != id ==> UpdateRows(rows, id, p)[k] == rows[k]
    ensures forall k :: 0 <= k < |rows| && rows[k].id == id ==> UpdateRows(rows, id, p)[k] == Merge(rows[k], p)
  {
  }

  /** IFNULL: a field given as null or left out keeps its value; a given
      field replaces it. */
  lemma MergeFields(row: PostRow, p: PostPatch)
    ensures Merge(row, p).id == row.id && Merge(row, p).createdAt == row.createdAt
    ensures Merge(row, p).title == (if p.title.Some? then p.title.value else row.title)
    ensures Merge(row, p).slug == (if p.slug.Some? then p.slug.value else row.slug)
    ensures Merge(row, p).content == (if p.content.Some? then p.content.value else row.content)
    ensures Merge(row, p).status == (if p.status.Some? then p.status.value else row.status)
    ensures p.categoryId.None? ==> Merge(row, p).categoryId == row.categoryId
    ensures p.categoryId.Some? ==> Merge(row, p).categoryId == p.categoryId
    ensures p.description.None? ==> Merge(row, p).description == row.description
    ensures p.description.Some? ==> Merge(row, p).description == p.description
    ensures p.metaTitle.None? ==> Merge(row, p).metaTitle == row.metaTitle
    ensures p.metaTitle.Some? ==> Merge(row, p).metaTitle == p.metaTitle
    ensures p.metaDescription.None? ==> Merge(row, p).metaDescription == row.metaDescription
    ensures p.metaDescription.Some? ==> Merge(row, p).metaDescription == p.metaDescription
    ensures p.metaKeywords.None? ==> Merge(row, p).metaKeywords == row.metaKeywords
    ensures p.metaKeywords.Some? ==> Merge(row, p).metaKeywords == p.metaKeywords
    ensures p.featuredImage.None? ==> Merge(row, p).featuredImage == row.featuredImage
    ensures p.featuredImage.Some? ==> Merge(row, p).featuredImage == p.featuredImage
    ensures p.url.None? ==> Merge(row, p).url == row.url
    ensures p.url.Some? ==> Merge(row, p).url == p.url
    ensures p.urlLabel.None? ==> Merge(row, p).urlLabel == row.urlLabel
    ensures p.urlLabel.Some? ==> Merge(row, p).urlLabel == p.urlLabel
    ensures p == PostPatch(None, None, None, None, None, None, None, None, None, None, None, None) ==> Merge(row, p) == row
  {
  }

  /** updatePost can never set a column to NULL: every column that held a
      value still holds one. */
  lemma UpdateNeverClears(row: PostRow, p: PostPatch)
    ensures row.categoryId.Some? ==> Merge(row, p).categoryId.Some?
    ensures row.description.Some? ==> Merge(row, p).description.Some?
    ensures row.metaTitle.Some? ==> Merge(row, p).metaTitle.Some?
    ensures row.metaDescription.Some? ==> Merge(row, p).metaDescription.Some?
    ensures row.metaKeywords.Some? ==> Merge(row, p).metaKeywords.Some?
    ensures row.featuredImage.Some? ==> Merge(row, p).featuredImage.Some?
    ensures row.url.Some? ==> Merge(row, p).url.Some?
    ensures row.urlLabel.Some? ==> Merge(row, p).urlLabel.Some?
  {
  }

  /** Applying the same patch twice is the same as applying it once. */
  lemma MergeIdempotent(row: PostRow, p: PostPatch)
    ensures Merge(Merge(row, p), p) == Merge(row, p)
  {
  }

  /** deletePost removes exactly the rows with that id and keeps the rest
      in order. */
  lemma DeleteRemovesOnlyId(rows: seq<PostRow>, id: int)
    ensures forall k :: 0 <= k < |DeleteRows(rows, id)| ==> DeleteRows(rows, id)[k].id != id
    ensures forall k :: 0 <= k < |rows| && rows[k].id != id ==> rows[k] in DeleteRows(rows, id)
    ensures forall k :: 0 <= k < |DeleteRows(rows, id)| ==> DeleteRows(rows, id)[k] in rows
  {
  }

  /** Where createPost or updatePost fails, if it does. The write can be
      rejected before the commit (a constraint of the schema, a lost
      connection), and then the rollback undoes it. Or the read-back by id
      after the commit throws, and then the rollback finds nothing to undo. */
  datatype StoreFault = NoStoreFault | WriteFails | ReadBackFails

  /** The store behind lib/posts.ts. Each method is one exported function. */
  class PostStore {
    var rows: seq<PostRow>
    var nextId: int

    ghost predicate Valid()
      reads this
    {
      IdsIncreasing(rows) && forall k :: 0 <= k < |rows| ==> rows[k].id < nextId
    }

    constructor ()
      ensures Valid() && rows == [] && nextId == 1
    {
      rows := [];
      nextId := 1;
    }

    /** Appends one row with the next id; the shared INSERT step of
        createPost and of the job ingestion. */
    method Insert(row: PostRow) returns (id: int)
      requires Valid()
      modifies this
      ensures Valid()
      ensures id == old(nextId) && nextId == old(nextId) + 1
      ensures rows == old(rows) + [row.(id := id)]
    {
      id := nextId;
      rows := rows + [row.(id := id)];
      nextId := nextId + 1;
    }

    /** createPost: INSERT the twelve columns, commit, then read the row
        back by its new id. Any error rolls back and propagates; once the
        commit has run, the row stays. */
    method CreatePost(input: PostInput, now: int, fault: StoreFault) returns (r: Attempt<PostRow>)
      requires Valid()
      modifies this
      ensures Valid()
      ensures fault == WriteFails ==> r == Threw && rows == old(rows) && nextId == old(nextId)
      ensures fault != WriteFails ==>
        rows == old(rows) + [NewRow(old(nextId), input, now)] && nextId == old(nextId) + 1
      ensures fault == ReadBackFails ==> r == Threw
      ensures fault == NoStoreFault ==> r == Returned(NewRow(old(nextId), input, now))
    {
      if fault == WriteFails {
        return Threw;
      }
      var id := Insert(NewRow(0, input, now));
      if fault == ReadBackFails {
        return Threw;
      }
      GetPostByIdAt(rows, |rows| - 1);
      var created := GetPostById(rows, id);
      r := Returned(created.value);
    }

    /** updatePost: the IFNULL merge on the row with that id, commit, then
        read the row back (undefined when no row has that id). Any error
        rolls back and propagates; once the commit has run, the update
        stays. */
    method UpdatePost(id: int, p: PostPatch, fault: StoreFault) returns (r: Attempt<Option<PostRow>>)
      requires Valid()
      modifies this
      ensures Valid() && nextId == old(nextId)
      ensures fault == WriteFails ==> r == Threw && rows == old(rows)
      ensures fault != WriteFails ==> rows == UpdateRows(old(rows), id, p)
      ensures fault == ReadBackFails ==> r == Threw
      ensures fault == NoStoreFault ==> r == Returned(GetPostById(rows, id))
    {
      if fault == WriteFails {
        return Threw;
      }
      rows := UpdateRows(rows, id, p);
      if fault == ReadBackFails {
        return Threw;
      }
      r := Returned(GetPostById(rows, id));
    }

    /** deletePost. */
    method DeletePost(id: int)
      requires Valid()
      modifies this
      ensures Valid() && nextId == old(nextId)
      ensures rows == DeleteRows(old(rows), id)
    {
      FilterKeepsIncreasing(rows, (row: PostRow) => row.id != id, RowId);
      rows := DeleteRows(rows, id);
    }
  }
}
