/** The static-page API of app/api/pages/route.ts: GET by slug or the
    whole list, POST (an `INSERT INTO pages SET ?` of the body), PUT (an
    `UPDATE pages SET ? WHERE id = ?` of the body without its id), DELETE
    by an `id` query parameter, and OPTIONS.

    A page is its auto-increment id and the other columns the body named;
    `SET ?` turns the body's keys into column assignments, so the columns
    are a map from name to value. */
module Pages {
  import opened Common
  import opened Ordering

  datatype PageRow = PageRow(id: int, cols: map<string, JsValue>)

  /** What the GET handler answers. */
  datatype GetResult = PageNotFound | OnePage(page: PageRow) | AllPages(pages: seq<PageRow>)

  /** What the POST handler answers: the status and, on 201, the echoed
      object `{ id: insertId, ...data }`. */
  datatype PostResult = PostResult(status: Status, echo: Option<map<string, JsValue>>)

  /** The Allow header of OPTIONS. */
  const AllowHeader: string := "GET, POST, DELETE, OPTIONS"

  /** `data.id` on a parsed body: undefined when the key is absent. */
  function Field(data: map<string, JsValue>, key: string): (v: JsValue)
    ensures key !in data ==> v == Undefined
    ensures key in data ==> v == data[key]
  {
    if key in data then data[key] else Undefined
  }

  /** The `created_at` column as a sort key. */
  function CreatedAt(row: PageRow): int {
    if "created_at" in row.cols && row.cols["created_at"].Num? then row.cols["created_at"].n else 0
  }

  /** `slug = ?` on a row. */
  predicate HasSlug(row: PageRow, slug: string) {
    "slug" in row.cols && row.cols["slug"] == Str(slug)
  }

  /** `id = ?` with the id as the body gives it: a number, or a string
      that spells the number. */
  predicate IdMatches(rowId: int, v: JsValue) {
    v == Num(rowId) || v == Str(IntToString(rowId))
  }

  /** `SELECT * FROM pages WHERE slug = ?`, first row. */
  function PageBySlug(rows: seq<PageRow>, slug: string): (r: Option<PageRow>)
    ensures r.None? <==> forall k :: 0 <= k < |rows| ==> !HasSlug(rows[k], slug)
    ensures r.Some? ==> exists i :: 0 <= i < |rows| && rows[i] == r.value && HasSlug(r.value, slug) &&
                                    forall k :: 0 <= k < i ==> !HasSlug(rows[k], slug)
  {
    FirstWhere(rows, (row: PageRow) => HasSlug(row, slug))
  }

  /** GET /api/pages: with a non-empty `slug` parameter, that page or 404;
      otherwise every page, newest first. */
  function GetPages(rows: seq<PageRow>, slug: Option<string>): (r: GetResult)
    ensures slug.Some? && slug.value != "" ==> !r.AllPages?
    ensures r.PageNotFound? <==> slug.Some? && slug.value != "" && forall k :: 0 <= k < |rows| ==> !HasSlug(rows[k], slug.value)
    ensures slug.None? || slug.value == "" ==> r.AllPages?
    ensures r.OnePage? ==> slug.Some? && r.page in rows && HasSlug(r.page, slug.value)
    ensures r.OnePage? ==> PageBySlug(rows, slug.value) == Some(r.page)
    ensures r.AllPages? ==> SortedDesc(r.pages, CreatedAt) && multiset(r.pages) == multiset(rows)
  {
    if slug.Some? && slug.value != "" then
      match PageBySlug(rows, slug.value)
      case None => PageNotFound
      case Some(page) => OnePage(page)
    else AllPages(SortDesc(rows, CreatedAt))
  }

  /** The body without its `id` key: `const { id, ...updateData } = data`. */
  function WithoutId(data: map<string, JsValue>): (r: map<string, JsValue>)
    ensures "id" !in r
    ensures forall key :: key in data && key != "id" ==> key in r && r[key] == data[key]
    ensures forall key :: key in r ==> key in data
  {
    data - {"id"}
  }

  /** The columns an INSERT writes: the body's, with the column default
      for `created_at` when the body has none. The id is the table's. */
  function InsertedCols(data: map<string, JsValue>, now: int): map<string, JsValue> {
    var cols := WithoutId(data);
    if "created_at" in cols then cols else cols["created_at" := Num(now)]
  }

  /** `{ id: result.insertId, ...data }`: the spread comes last, so an `id`
      key of the body, falsy as it must be here, overrides the new id. */
  function Echo(insertId: int, data: map<string, JsValue>): (r: map<string, JsValue>)
    ensures "id" in r
    ensures r["id"] == Num(insertId) <==> "id" !in data || data["id"] == Num(insertId)
    ensures forall key :: key in data ==> key in r && r[key] == data[key]
    ensures forall key :: key in r ==> key in data || key == "id"
  {
    map["id" := Num(insertId)] + data
  }

  /** `UPDATE pages SET ? WHERE id = ?`. */
  function UpdatePages(rows: seq<PageRow>, id: JsValue, updateData: map<string, JsValue>): (r: seq<PageRow>)
    ensures |r| == |rows|
  {
    seq(|rows|, i requires 0 <= i < |rows| =>
      if IdMatches(rows[i].id, id) then rows[i].(cols := rows[i].cols + updateData) else rows[i])
  }

  /** `DELETE FROM pages WHERE id = ?`. */
  function DeletePages(rows: seq<PageRow>, id: int): seq<PageRow> {
    Filter(rows, (row: PageRow) => row.id != id)
  }

  /** A PUT never changes an id or moves a row; it changes the matching
      rows' named columns and nothing else. */
  lemma UpdateKeepsIds(rows: seq<PageRow>, id: JsValue, updateData: map<string, JsValue>)
    ensures forall k :: 0 <= k < |rows| ==> UpdatePages(rows, id, updateData)[k].id == rows[k].id
    ensures forall k :: 0 <= k < |rows| && !IdMatches(rows[k].id, id) ==> UpdatePages(rows, id, updateData)[k] == rows[k]
    ensures forall k, key :: 0 <= k < |rows| && IdMatches(rows[k].id, id) && key in updateData ==>
      key in UpdatePages(rows, id, updateData)[k].cols && UpdatePages(rows, id, updateData)[k].cols[key] == updateData[key]
    ensures forall k, key :: 0 <= k < |rows| && key in rows[k].cols && key !in updateData ==>
      key in UpdatePages(rows, id, updateData)[k].cols && UpdatePages(rows, id, updateData)[k].cols[key] == rows[k].cols[key]
  {
  }

  /** After a POST whose body names a slug, GET with that slug finds a page:
      the new one, unless an older page already had the slug. */
  lemma PostedPageFound(rows: seq<PageRow>, id: int, data: map<string, JsValue>, now: int, slug: string)
    requires "slug" in data && data["slug"] == Str(slug) && slug != ""
    ensures var after := rows + [PageRow(id, InsertedCols(data, now))];
      GetPages(after, Some(slug)).OnePage? &&
      ((forall k :: 0 <= k < |rows| ==> !HasSlug(rows[k], slug)) ==>
         GetPages(after, Some(slug)).page == PageRow(id, InsertedCols(data, now)))
  {
    var after := rows + [PageRow(id, InsertedCols(data, now))];
    assert HasSlug(after[|rows|], slug);
    if forall k :: 0 <= k < |rows| ==> !HasSlug(rows[k], slug) {
      var r := PageBySlug(after, slug);
      var i :| 0 <= i < |after| && after[i] == r.value && HasSlug(r.value, slug) &&
               forall k :: 0 <= k < i ==> !HasSlug(after[k], slug);
      assert i == |rows|;
    }
  }

  /** The OPTIONS answer does not list PUT, although PUT is handled. */
  lemma AllowOmitsPut()
    ensures !Contains(AllowHeader, "PUT")
    ensures Contains(AllowHeader, "DELETE")
  {
    assert OccursAt(AllowHeader, "DELETE", 11);
    assert 'U' !in AllowHeader;
    forall i | 0 <= i <= |AllowHeader| - 3
      ensures !OccursAt(AllowHeader, "PUT", i)
    {
      assert AllowHeader[i + 1] in AllowHeader;
      assert AllowHeader[i..i + 3][1] == AllowHeader[i + 1];
      assert "PUT"[1] == 'U';
    }
  }

  function PageId(row: PageRow): int { row.id }

  /** The `pages` table. */
  class PageStore {
    var rows: seq<PageRow>
    var nextId: int

    ghost predicate Valid()
      reads this
    {
      Increasing(rows, PageId) &&
      (forall k :: 0 <= k < |rows| ==> rows[k].id < nextId)
    }

    constructor ()
      ensures Valid() && rows == [] && nextId == 1
    {
      rows := [];
      nextId := 1;
    }

    /** POST /api/pages. A truthy `id` is refused with 400. An empty body
        makes `SET ?` empty, which the database rejects, as it rejects an
        unknown column (`dbFails`): 500. Otherwise the row is inserted
        under the next id and the body is echoed with 201. */
    method Post(data: map<string, JsValue>, dbFails: bool, now: int) returns (r: PostResult)
      requires Valid()
      modifies this
      ensures Valid()
      ensures Truthy(Field(data, "id")) ==> r == PostResult(BadRequest, None) && rows == old(rows) && nextId == old(nextId)
      ensures !Truthy(Field(data, "id")) && (data == map[] || dbFails) ==>
        r == PostResult(InternalServerError, None) && rows == old(rows) && nextId == old(nextId)
      ensures !Truthy(Field(data, "id")) && data != map[] && !dbFails ==>
        r == PostResult(Created, Some(Echo(old(nextId), data))) &&
        rows == old(rows) + [PageRow(old(nextId), InsertedCols(data, now))] && nextId == old(nextId) + 1
    {
      if Truthy(Field(data, "id")) {
        return PostResult(BadRequest, None);
      }
      if data == map[] || dbFails {
        return PostResult(InternalServerError, None);
      }
      var insertId := nextId;
      rows := rows + [PageRow(insertId, InsertedCols(data, now))];
      nextId := nextId + 1;
      r := PostResult(Created, Some(Echo(insertId, data)));
    }

    /** PUT /api/pages. A falsy `id` is refused with 400; the id is
        stripped from the SET data; an empty SET or a database error gives
        500; no matching row gives 404; otherwise 200. */
    method Put(data: map<string, JsValue>, dbFails: bool) returns (status: Status)
      requires Valid()
      modifies this
      ensures Valid() && nextId == old(nextId)
      ensures !Truthy(Field(data, "id")) ==> status == BadRequest && rows == old(rows)
      ensures Truthy(Field(data, "id")) && (WithoutId(data) == map[] || dbFails) ==>
        status == InternalServerError && rows == old(rows)
      ensures Truthy(Field(data, "id")) && WithoutId(data) != map[] && !dbFails ==>
        rows == UpdatePages(old(rows), data["id"], WithoutId(data)) &&
        (status == NotFound <==> forall k :: 0 <= k < |old(rows)| ==> !IdMatches(old(rows)[k].id, data["id"])) &&
        (status == Ok || status == NotFound)
    {
      if !Truthy(Field(data, "id")) {
        return BadRequest;
      }
      var id := data["id"];
      var updateData := WithoutId(data);
      if updateData == map[] || dbFails {
        return InternalServerError;
      }
      var affectedRows := 0;
      var i := 0;
      while i < |rows|
        invariant 0 <= i <= |rows|
        invariant affectedRows == 0 <==> forall k :: 0 <= k < i ==> !IdMatches(rows[k].id, id)
      {
        if IdMatches(rows[i].id, id) {
          affectedRows := affectedRows + 1;
        }
        i := i + 1;
      }
      rows := UpdatePages(rows, id, updateData);
      if affectedRows == 0 {
        return NotFound;
      }
      return Ok;
    }

    /** DELETE /api/pages?id=: 400 without an id, 500 on a database error,
        404 when no row had that id, otherwise 200 and the row is gone. */
    method Delete(id: IdParam, dbFails: bool) returns (status: Status)
      requires Valid()
      modifies this
      ensures Valid() && nextId == old(nextId)
      ensures id.NoId? ==> status == BadRequest && rows == old(rows)
      ensures id.Id? && dbFails ==> status == InternalServerError && rows == old(rows)
      ensures id.Id? && !dbFails ==>
        rows == DeletePages(old(rows), id.value) &&
        (status == NotFound <==> forall k :: 0 <= k < |old(rows)| ==> old(rows)[k].id != id.value) &&
        (status == Ok || status == NotFound)
    {
      if id.NoId? {
        return BadRequest;
      }
      if dbFails {
        return InternalServerError;
      }
      var keep := (row: PageRow) => row.id != id.value;
      FilterKeepsAll(rows, keep);
      FilterKeepsIncreasing(rows, keep, PageId);
      var remaining := DeletePages(rows, id.value);
      var affectedRows := |rows| - |remaining|;
      rows := remaining;
      if affectedRows == 0 {
        return NotFound;
      }
      return Ok;
    }
  }
}
