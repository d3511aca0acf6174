/** The copyright line of app/api/pages/copyright/route.ts: POST validates
    the text and the year and runs `INSERT ... ON DUPLICATE KEY UPDATE`;
    GET reads the first row of the `copyright` table (Common.FirstRow).

    Which row, if any, the insert collides with is decided by the unique
    keys of the table's schema, which is not part of this model; it is a
    parameter of the upsert. */
module Copyright {
  import opened Common

  datatype CopyrightRow = CopyrightRow(copyrightText: string, year: string)

  /** What the database reports for the upsert: a failure, or the
      affected-row count. */
  datatype DbOutcome = DbFailed | Affected(count: nat)

  predicate AsciiDigit(c: char) {
    '0' <= c <= '9'
  }

  /** `/^\d{4}$/.test(year)`: exactly four ASCII digits and nothing else. */
  predicate FourDigits(year: string) {
    |year| == 4 && forall i :: 0 <= i < 4 ==> AsciiDigit(year[i])
  }

  /** The POST handler's validation: both fields are strings and the year
      is four digits. */
  predicate ValidInput(copyrightText: JsValue, year: JsValue) {
    copyrightText.Str? && year.Str? && FourDigits(year.s)
  }

  /** The upsert: the row the new values collide with is overwritten;
      without a collision a row is appended. */
  function Upsert(rows: seq<CopyrightRow>, clash: Option<nat>, row: CopyrightRow): (r: seq<CopyrightRow>)
    ensures row in r
    ensures clash.Some? && clash.value < |rows| ==>
              |r| == |rows| && r[clash.value] == row &&
              forall k :: 0 <= k < |rows| && k != clash.value ==> r[k] == rows[k]
    ensures clash.None? || clash.value >= |rows| ==> r == rows + [row]
  {
    if clash.Some? && clash.value < |rows| then
      var r := rows[clash.value := row];
      assert r[clash.value] == row;
      r
    else rows + [row]
  }

  /** A year the handler accepts, and two it refuses. */
  lemma YearExamples()
    ensures FourDigits("2024")
    ensures !FourDigits("24")
    ensures !FourDigits("202a")
  {
    assert !AsciiDigit("202a"[3]);
  }

  /** GET shows the posted values after a successful POST when the table
      was empty or the upsert hit its first row. */
  lemma UpsertVisible(rows: seq<CopyrightRow>, clash: Option<nat>, row: CopyrightRow)
    requires rows == [] || clash == Some(0)
    ensures FirstRow(Upsert(rows, clash, row)) == Some(row)
  {
  }

  /** Without a collision on a non-empty table the new row is appended
      behind the first one, and GET keeps showing the old values. */
  lemma UpsertHidden(rows: seq<CopyrightRow>, row: CopyrightRow)
    requires rows != []
    ensures FirstRow(Upsert(rows, None, row)) == Some(rows[0])
    ensures row in Upsert(rows, None, row)
  {
  }

  /** The `copyright` table. */
  class CopyrightTable {
    var rows: seq<CopyrightRow>

    constructor (initial: seq<CopyrightRow>)
      ensures rows == initial
    {
      rows := initial;
    }

    /** POST /api/pages/copyright. Invalid input answers 400 and writes
        nothing. A database failure answers 500 and writes nothing, and so
        does a zero affected-row count, which the handler turns into an
        error. Otherwise the upsert is applied and the answer is 200. */
    method Post(copyrightText: JsValue, year: JsValue, clash: Option<nat>, outcome: DbOutcome)
      returns (status: Status)
      modifies this
      ensures !ValidInput(copyrightText, year) ==> status == BadRequest && rows == old(rows)
      ensures ValidInput(copyrightText, year) && (outcome == DbFailed || outcome == Affected(0)) ==>
        status == InternalServerError && rows == old(rows)
      ensures ValidInput(copyrightText, year) && outcome.Affected? && outcome.count > 0 ==>
        status == Ok && rows == Upsert(old(rows), clash, CopyrightRow(copyrightText.s, year.s))
    {
      if !ValidInput(copyrightText, year) {
        return BadRequest;
      }
      if outcome == DbFailed || outcome == Affected(0) {
        return InternalServerError;
      }
      rows := Upsert(rows, clash, CopyrightRow(copyrightText.s, year.s));
      return Ok;
    }
  }
}
