/** The About Us text of app/api/pages/aboutus/route.ts: POST replaces the
    `about_us` table's content by deleting every row and inserting one; GET
    reads the first row (Common.FirstRow). The two statements are not in a transaction. */
module AboutUs {
  import opened Common

  /** Where the POST handler fails, if it does. */
  datatype Fault = NoFault | ConnectFails | DeleteFails | InsertFails

  /** The body's `aboutUsContent` is accepted only as a non-empty string. */
  predicate ValidContent(v: JsValue) {
    Truthy(v) && v.Str?
  }

  lemma ValidContentIsNonEmptyString(v: JsValue)
    ensures ValidContent(v) <==> v.Str? && v.s != ""
  {
  }

  /** The `about_us` table, as the content of its rows in table order. */
  class AboutUsTable {
    var rows: seq<string>

    constructor (initial: seq<string>)
      ensures rows == initial
    {
      rows := initial;
    }

    /** POST /api/pages/aboutus. Invalid content answers 400 and writes
        nothing; a failure before the delete answers 500 and writes
        nothing; a failed insert answers 500 and leaves the table empty;
        otherwise the table holds exactly the new content. */
    method Post(content: JsValue, fault: Fault) returns (status: Status)
      modifies this
      ensures !ValidContent(content) ==> status == BadRequest && rows == old(rows)
      ensures ValidContent(content) && (fault == ConnectFails || fault == DeleteFails) ==>
        status == InternalServerError && rows == old(rows)
      ensures ValidContent(content) && fault == InsertFails ==> status == InternalServerError && rows == []
      ensures ValidContent(content) && fault == NoFault ==> status == Ok && rows == [content.s]
    {
      if !ValidContent(content) {
        return BadRequest;
      }
      if fault == ConnectFails || fault == DeleteFails {
        return InternalServerError;
      }
      rows := [];
      if fault == InsertFails {
        return InternalServerError;
      }
      rows := rows + [content.s];
      return Ok;
    }
  }
}
