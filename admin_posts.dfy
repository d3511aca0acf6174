/** The admin post API of app/api/admin/posts/route.ts.

    POST creates the post through createPost, which commits on a pool
    connection of its own, and then walks an array-valued `tags` field:
    each name reuses the tag of that name or creates one (both through the
    auto-committing pool), and one `post_tags` row links it to the post on
    the handler's own transaction. A failure anywhere rolls back that
    transaction only, so the post and the tags created so far survive
    while the `post_tags` rows vanish.

    GET lists every post with its category name, newest first; DELETE
    removes a post by id and reports a missing id, an unknown id and a
    database error apart. */
module AdminPosts {
  import opened Common
  import opened Ordering
  import opened Posts

  datatype Tag = Tag(id: int, name: string, slug: string)

  /** A row of the `post_tags` association table. */
  datatype PostTag = PostTag(postId: int, tagId: int)

  /** The three tables the POST handler writes besides `posts`. */
  datatype TagTables = TagTables(tags: seq<Tag>, nextTagId: int, postTags: seq<PostTag>)

  /** Where the POST handler fails, if it does: in createPost before its
      commit, in createPost's read-back after its commit, or at the start
      of the step for the tag name with the given index. */
  datatype Fault = NoFault | CreateFails | CreateReadBackFails | TagFailsAt(index: nat)

  /** What the fault means to the createPost call. */
  function CreateFault(fault: Fault): (r: StoreFault)
    ensures r == WriteFails <==> fault == CreateFails
    ensures r == ReadBackFails <==> fault == CreateReadBackFails
  {
    match fault
    case CreateFails => WriteFails
    case CreateReadBackFails => ReadBackFails
    case _ => NoStoreFault
  }

  /** getTagByName: `SELECT * FROM tags WHERE name = ?`, first row. */
  function TagNamed(tags: seq<Tag>, name: string): Option<Tag> {
    FirstWhere(tags, (t: Tag) => t.name == name)
  }

  /** One iteration of the handler's loop: get or create the tag, then link it. */
  function AttachTag(t: TagTables, postId: int, name: string, slugify: string -> string): TagTables {
    match TagNamed(t.tags, name)
    case Some(tag) => t.(postTags := t.postTags + [PostTag(postId, tag.id)])
    case None =>
      var tag := Tag(t.nextTagId, name, slugify(name));
      TagTables(t.tags + [tag], t.nextTagId + 1, t.postTags + [PostTag(postId, tag.id)])
  }

  /** The loop over `names`, in order. */
  function AttachTags(t: TagTables, postId: int, names: seq<string>, slugify: string -> string): TagTables
    decreases |names|
  {
    if names == [] then t
    else AttachTag(AttachTags(t, postId, names[..|names| - 1], slugify), postId, names[|names| - 1], slugify)
  }

  /** Some tag in `tags` has this name and this id. */
  predicate HasTag(tags: seq<Tag>, name: string, id: int) {
    exists j :: 0 <= j < |tags| && tags[j].name == name && tags[j].id == id
  }

  /** No two tags share a name. */
  predicate NamesUnique(tags: seq<Tag>) {
    forall i, j :: 0 <= i < j < |tags| ==> tags[i].name != tags[j].name
  }

  /** Attaching one name: existing tags stay, at most one tag is added, and
      the new link points at a tag of that name. */
  lemma AttachTagProps(t: TagTables, postId: int, name: string, slugify: string -> string)
    ensures var r := AttachTag(t, postId, name, slugify);
      |t.tags| <= |r.tags| <= |t.tags| + 1 && r.tags[..|t.tags|] == t.tags &&
      r.postTags == t.postTags + [PostTag(postId, r.postTags[|t.postTags|].tagId)] &&
      HasTag(r.tags, name, r.postTags[|t.postTags|].tagId)
    ensures NamesUnique(t.tags) ==> NamesUnique(AttachTag(t, postId, name, slugify).tags)
  {
    var r := AttachTag(t, postId, name, slugify);
    var found := TagNamed(t.tags, name);
    if found.Some? {
      var j :| 0 <= j < |t.tags| && t.tags[j] == found.value && t.tags[j].name == name &&
               forall k :: 0 <= k < j ==> t.tags[k].name != name;
      assert r.tags[j].name == name && r.tags[j].id == r.postTags[|t.postTags|].tagId;
    } else {
      assert r.tags[|t.tags|].name == name;
    }
  }

  /** `r` keeps every tag and every link of `t` in place. */
  predicate Extends(t: TagTables, r: TagTables) {
    |t.tags| <= |r.tags| && r.tags[..|t.tags|] == t.tags &&
    |t.postTags| <= |r.postTags| && r.postTags[..|t.postTags|] == t.postTags
  }

  /** Tags and links are only ever added: at most one tag and exactly one
      link per name. */
  lemma {:induction false} AttachTagsGrows(t: TagTables, postId: int, names: seq<string>, slugify: string -> string)
    ensures Extends(t, AttachTags(t, postId, names, slugify))
    ensures |AttachTags(t, postId, names, slugify).tags| <= |t.tags| + |names|
    ensures |AttachTags(t, postId, names, slugify).postTags| == |t.postTags| + |names|
    decreases |names|
  {
    if names != [] {
      var n := |names| - 1;
      var mid := AttachTags(t, postId, names[..n], slugify);
      var r := AttachTags(t, postId, names, slugify);
      AttachTagsGrows(t, postId, names[..n], slugify);
      AttachTagProps(mid, postId, names[n], slugify);
      assert r.tags[..|t.tags|] == mid.tags[..|t.tags|];
      assert r.postTags[..|t.postTags|] == mid.postTags[..|t.postTags|];
    }
  }

  /** `links` holds one row per name, in order, each linking the post to a
      tag of that name. */
  predicate LinksFor(tags: seq<Tag>, links: seq<PostTag>, postId: int, names: seq<string>) {
    |links| == |names| &&
    forall k :: 0 <= k < |names| ==> links[k].postId == postId && HasTag(tags, names[k], links[k].tagId)
  }

  /** Adding tags keeps every link pointing at a tag of its name. */
  lemma LinksForMoreTags(tags: seq<Tag>, more: seq<Tag>, links: seq<PostTag>, postId: int, names: seq<string>)
    requires LinksFor(tags, links, postId, names)
    requires |tags| <= |more| && more[..|tags|] == tags
    ensures LinksFor(more, links, postId, names)
  {
    forall k | 0 <= k < |names|
      ensures HasTag(more, names[k], links[k].tagId)
    {
      var j :| 0 <= j < |tags| && tags[j].name == names[k] && tags[j].id == links[k].tagId;
      assert more[j] == more[..|tags|][j];
    }
  }

  lemma LinksForAppend(tags: seq<Tag>, links: seq<PostTag>, postId: int, names: seq<string>, link: PostTag, name: string)
    requires LinksFor(tags, links, postId, names)
    requires link.postId == postId && HasTag(tags, name, link.tagId)
    ensures LinksFor(tags, links + [link], postId, names + [name])
  {
    var names2, links2 := names + [name], links + [link];
    forall k | 0 <= k < |names2|
      ensures links2[k].postId == postId && HasTag(tags, names2[k], links2[k].tagId)
    {
      if k < |names| {
        assert names2[k] == names[k] && links2[k] == links[k];
      }
    }
  }

  /** For every name in the array, in order, the `post_tags` row added for
      it links the post to a tag of that name. */
  lemma {:induction false} AttachTagsLinks(t: TagTables, postId: int, names: seq<string>, slugify: string -> string)
    ensures var r := AttachTags(t, postId, names, slugify);
      |t.postTags| <= |r.postTags| && LinksFor(r.tags, r.postTags[|t.postTags|..], postId, names)
    decreases |names|
  {
    if names == [] {
      assert AttachTags(t, postId, names, slugify).postTags[|t.postTags|..] == [];
    } else {
      var n := |names| - 1;
      var mid := AttachTags(t, postId, names[..n], slugify);
      var r := AttachTag(mid, postId, names[n], slugify);
      assert r == AttachTags(t, postId, names, slugify);
      assert |t.postTags| <= |mid.postTags| && LinksFor(mid.tags, mid.postTags[|t.postTags|..], postId, names[..n]) by {
        AttachTagsLinks(t, postId, names[..n], slugify);
      }
      var before := mid.postTags[|t.postTags|..];
      var link := r.postTags[|mid.postTags|];
      assert |mid.tags| <= |r.tags| && r.tags[..|mid.tags|] == mid.tags &&
             r.postTags == mid.postTags + [link] && link.postId == postId &&
             HasTag(r.tags, names[n], link.tagId) by {
        AttachTagProps(mid, postId, names[n], slugify);
      }
      LinksForMoreTags(mid.tags, r.tags, before, postId, names[..n]);
      LinksForAppend(r.tags, before, postId, names[..n], link, names[n]);
      assert r.postTags[|t.postTags|..] == before + [link];
      assert names == names[..n] + [names[n]];
    }
  }

  /** Get-or-create never gives a name a second tag. */
  lemma {:induction false} AttachTagsUnique(t: TagTables, postId: int, names: seq<string>, slugify: string -> string)
    requires NamesUnique(t.tags)
    ensures NamesUnique(AttachTags(t, postId, names, slugify).tags)
    decreases |names|
  {
    if names != [] {
      var n := |names| - 1;
      AttachTagsUnique(t, postId, names[..n], slugify);
      AttachTagProps(AttachTags(t, postId, names[..n], slugify), postId, names[n], slugify);
    }
  }

  /** How many tag names the loop gets through before the fault. */
  function StopAt(fault: Fault, count: nat): (r: nat)
    ensures r <= count
    ensures r < count <==> fault.TagFailsAt? && fault.index < count
  {
    if fault.TagFailsAt? && fault.index < count then fault.index else count
  }

  /** The `tags` and `post_tags` tables, as lib/tags.ts and the handler's
      connection write them. */
  class TagStore {
    var tags: seq<Tag>
    var nextTagId: int
    var postTags: seq<PostTag>

    ghost predicate Valid()
      reads this
    {
      forall k :: 0 <= k < |tags| ==> tags[k].id < nextTagId
    }

    function Tables(): TagTables
      reads this
    {
      TagTables(tags, nextTagId, postTags)
    }

    constructor ()
      ensures Valid() && tags == [] && nextTagId == 1 && postTags == []
    {
      tags := [];
      nextTagId := 1;
      postTags := [];
    }

    /** getTagByName. */
    method GetTagByName(name: string) returns (r: Option<Tag>)
      ensures r == TagNamed(tags, name)
      ensures r.Some? ==> r.value.name == name
    {
      r := TagNamed(tags, name);
      if r.Some? {
        var j :| 0 <= j < |tags| && tags[j] == r.value && tags[j].name == name &&
                 forall k :: 0 <= k < j ==> tags[k].name != name;
      }
    }

    /** createTag: INSERT the name and slug under the next id. */
    method CreateTag(name: string, slug: string) returns (tag: Tag)
      requires Valid()
      modifies this
      ensures Valid()
      ensures tag == Tag(old(nextTagId), name, slug)
      ensures tags == old(tags) + [tag] && nextTagId == old(nextTagId) + 1 && postTags == old(postTags)
    {
      tag := Tag(nextTagId, name, slug);
      tags := tags + [tag];
      nextTagId := nextTagId + 1;
    }

    /** `INSERT INTO post_tags (post_id, tag_id) VALUES (?, ?)`. */
    method LinkPostTag(postId: int, tagId: int)
      requires Valid()
      modifies this
      ensures Valid()
      ensures postTags == old(postTags) + [PostTag(postId, tagId)]
      ensures tags == old(tags) && nextTagId == old(nextTagId)
    {
      postTags := postTags + [PostTag(postId, tagId)];
    }

    /** One step of the handler's loop: get or create the tag named
        `name`, then link it to the post. */
    method AttachOne(postId: int, name: string, slugify: string -> string)
      requires Valid()
      modifies this
      ensures Valid()
      ensures Tables() == AttachTag(old(Tables()), postId, name, slugify)
    {
      var tag := GetTagByName(name);
      if tag.None? {
        var t := CreateTag(name, slugify(name));
        tag := Some(t);
      }
      LinkPostTag(postId, tag.value.id);
    }

    /** The handler's loop over the first `stop` names. */
    method AttachFirst(postId: int, names: seq<string>, stop: nat, slugify: string -> string)
      requires Valid() && stop <= |names|
      modifies this
      ensures Valid()
      ensures Tables() == AttachTags(old(Tables()), postId, names[..stop], slugify)
    {
      ghost var start := Tables();
      var i := 0;
      while i < stop
        invariant 0 <= i <= stop
        invariant Valid()
        invariant Tables() == AttachTags(start, postId, names[..i], slugify)
      {
        assert names[..i + 1][..i] == names[..i];
        AttachOne(postId, names[i], slugify);
        i := i + 1;
      }
    }
  }

  /** POST /api/admin/posts. The answer is 201 with the created post, or
      500 with no body. A failure of createPost before its commit writes
      nothing; a failure of its read-back keeps the committed post. A
      failure at a tag leaves the committed post and the tags created
      before it, and drops every `post_tags` row of this request. */
  method CreatePostHandler(posts: PostStore, tagDb: TagStore, input: PostInput, fault: Fault,
                           slugify: string -> string, now: int)
    returns (status: Status, body: Option<PostRow>)
    requires posts.Valid() && tagDb.Valid()
    modifies posts, tagDb
    ensures posts.Valid() && tagDb.Valid()
    ensures fault == CreateFails ==>
      status == InternalServerError && body == None &&
      posts.rows == old(posts.rows) && tagDb.Tables() == old(tagDb.Tables())
    ensures fault != CreateFails ==>
      posts.rows == old(posts.rows) + [NewRow(old(posts.nextId), input, now)]
    ensures fault == CreateReadBackFails ==>
      status == InternalServerError && body == None && tagDb.Tables() == old(tagDb.Tables())
    ensures (fault == NoFault || fault.TagFailsAt?) && !input.tags.Arr? ==>
      status == Created && body == Some(NewRow(old(posts.nextId), input, now)) &&
      tagDb.Tables() == old(tagDb.Tables())
    ensures (fault == NoFault || fault.TagFailsAt?) && input.tags.Arr? ==>
      var names := input.tags.items;
      var stop := StopAt(fault, |names|);
      var e := AttachTags(old(tagDb.Tables()), old(posts.nextId), names[..stop], slugify);
      tagDb.tags == e.tags && tagDb.nextTagId == e.nextTagId &&
      (stop == |names| ==> status == Created && body == Some(NewRow(old(posts.nextId), input, now)) &&
                           tagDb.postTags == e.postTags) &&
      (stop < |names| ==> status == InternalServerError && body == None &&
                          tagDb.postTags == old(tagDb.postTags))
  {
    var created := posts.CreatePost(input, now, CreateFault(fault));
    if created.Threw? {
      return InternalServerError, None;
    }
    var newPost := created.value;
    if !input.tags.Arr? {
      return Created, Some(newPost);
    }
    var names := input.tags.items;
    var stop := StopAt(fault, |names|);
    var savedLinks := tagDb.postTags;
    tagDb.AttachFirst(newPost.id, names, stop, slugify);
    if stop < |names| {
      tagDb.postTags := savedLinks;
      return InternalServerError, None;
    }
    assert names[..stop] == names;
    return Created, Some(newPost);
  }

  /** An entry of the GET listing. */
  datatype AdminListRow = AdminListRow(id: int, title: string, categoryName: string, createdAt: int)

  /** The row mapping: a null or empty category name becomes 'Uncategorized'. */
  function ToListRow(p: ListedPost): AdminListRow {
    AdminListRow(p.post.id, p.post.title, OrElse(p.categoryName, "Uncategorized"), p.post.createdAt)
  }

  /** `x` is the listing entry of some row of `rows`. */
  predicate ListedFrom(x: AdminListRow, rows: seq<PostRow>, categories: map<int, string>) {
    exists i :: 0 <= i < |rows| && x == ToListRow(ListedPost(rows[i], CategoryName(rows[i], categories)))
  }

  /** GET /api/admin/posts: every post once, newest first, each with its
      category's name, or 'Uncategorized' when it has none. */
  function ListPosts(rows: seq<PostRow>, categories: map<int, string>): (r: seq<AdminListRow>)
    ensures |r| == |rows|
    ensures forall i, j :: 0 <= i < j < |r| ==> r[i].createdAt >= r[j].createdAt
    ensures forall k :: 0 <= k < |r| ==> r[k].categoryName != "" && ListedFrom(r[k], rows, categories)
    ensures multiset(r) == multiset(seq(|rows|, i requires 0 <= i < |rows| =>
                                          ToListRow(ListedPost(rows[i], CategoryName(rows[i], categories)))))
  {
    var listed := GetPosts(rows, categories);
    var r := MapSeq(ToListRow, listed);
    ListedRowsFrom(rows, categories, listed);
    assert forall k :: 0 <= k < |r| ==> r[k].createdAt == ListedCreatedAt(listed[k]);
    ListedPermutation(rows, categories, listed);
    r
  }

  lemma ListedPermutation(rows: seq<PostRow>, categories: map<int, string>, listed: seq<ListedPost>)
    requires listed == GetPosts(rows, categories)
    ensures multiset(MapSeq(ToListRow, listed)) ==
            multiset(seq(|rows|, i requires 0 <= i < |rows| =>
                           ToListRow(ListedPost(rows[i], CategoryName(rows[i], categories)))))
  {
    var joined := seq(|rows|, i requires 0 <= i < |rows| => ListedPost(rows[i], CategoryName(rows[i], categories)));
    MapPermutation(ToListRow, listed, joined);
    assert MapSeq(ToListRow, joined) == seq(|rows|, i requires 0 <= i < |rows| =>
                                              ToListRow(ListedPost(rows[i], CategoryName(rows[i], categories))));
  }

  lemma ListedRowsFrom(rows: seq<PostRow>, categories: map<int, string>, listed: seq<ListedPost>)
    requires listed == GetPosts(rows, categories)
    ensures forall k :: 0 <= k < |listed| ==> ListedFrom(ToListRow(listed[k]), rows, categories)
  {
    var joined := seq(|rows|, i requires 0 <= i < |rows| => ListedPost(rows[i], CategoryName(rows[i], categories)));
    forall k | 0 <= k < |listed|
      ensures ListedFrom(ToListRow(listed[k]), rows, categories)
    {
      assert listed[k] in multiset(joined);
      var i :| 0 <= i < |joined| && joined[i] == listed[k];
    }
  }

  /** The listing says 'Uncategorized' for a post without a category. */
  lemma UncategorizedLabel(rows: seq<PostRow>, categories: map<int, string>, i: nat)
    requires i < |rows| && rows[i].categoryId.None?
    ensures exists k :: 0 <= k < |ListPosts(rows, categories)| &&
                        ListPosts(rows, categories)[k].id == rows[i].id &&
                        ListPosts(rows, categories)[k].categoryName == "Uncategorized"
  {
    var listed := GetPosts(rows, categories);
    var joined := seq(|rows|, j requires 0 <= j < |rows| => ListedPost(rows[j], CategoryName(rows[j], categories)));
    assert joined[i] in multiset(listed);
    var k :| 0 <= k < |listed| && listed[k] == joined[i];
    assert ListPosts(rows, categories)[k] == ToListRow(joined[i]);
  }

  /** DELETE /api/admin/posts: 400 without an id, 500 when the database
      fails, otherwise the row is deleted and the answer is 404 exactly when
      no row had that id, 200 when one did. */
  method DeletePostHandler(posts: PostStore, id: IdParam, dbFails: bool) returns (status: Status)
    requires posts.Valid()
    modifies posts
    ensures posts.Valid() && posts.nextId == old(posts.nextId)
    ensures id.NoId? ==> status == BadRequest && posts.rows == old(posts.rows)
    ensures id.Id? && dbFails ==> status == InternalServerError && posts.rows == old(posts.rows)
    ensures id.Id? && !dbFails ==> posts.rows == DeleteRows(old(posts.rows), id.value)
    ensures id.Id? && !dbFails ==> (status == Ok || status == NotFound)
    ensures id.Id? && !dbFails ==>
      (status == NotFound <==> forall k :: 0 <= k < |old(posts.rows)| ==> old(posts.rows)[k].id != id.value)
  {
    if id.NoId? {
      return BadRequest;
    }
    if dbFails {
      return InternalServerError;
    }
    FilterKeepsAll(posts.rows, (row: PostRow) => row.id != id.value);
    var before := |posts.rows|;
    posts.DeletePost(id.value);
    var affectedRows := before - |posts.rows|;
    if affectedRows == 0 {
      return NotFound;
    }
    return Ok;
  }
}
