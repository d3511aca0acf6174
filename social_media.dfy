/** The social-media links of app/api/pages/socialmedia/route.ts: a
    `social_media` table keyed by platform, written by an upsert per
    platform and read back whole. */
module SocialMedia {
  import opened Common

  /** The five fields the POST handler destructures from the body, in the
      order Object.entries visits them. */
  const Platforms: seq<string> := ["facebook", "twitter", "instagram", "linkedin", "telegram"]

  /** Where the POST handler fails, if it does: before any statement
      (reading the body, taking a connection), or in the upsert of the
      platform with the given index. */
  datatype Fault = NoFault | ConnectFails | UpsertFailsAt(index: nat)

  /** The body's value for a key; undefined when absent. */
  function Field(body: map<string, JsValue>, key: string): JsValue {
    if key in body then body[key] else Undefined
  }

  /** One loop step: `INSERT ... ON DUPLICATE KEY UPDATE url = VALUES(url)`
      for a string value; any other value is skipped. */
  function Upsert(links: map<string, string>, body: map<string, JsValue>, platform: string): map<string, string> {
    var url := Field(body, platform);
    if url.Str? then links[platform := url.s] else links
  }

  /** The first `n` loop steps. */
  function Upserts(links: map<string, string>, body: map<string, JsValue>, n: nat): map<string, string>
    requires n <= |Platforms|
  {
    if n == 0 then links else Upsert(Upserts(links, body, n - 1), body, Platforms[n - 1])
  }

  /** How many platforms the loop gets through before the failing upsert;
      a skipped platform runs no statement, so it cannot fail. */
  function StopIndex(body: map<string, JsValue>, fault: Fault): (r: nat)
    ensures r <= |Platforms|
    ensures r < |Platforms| ==> Field(body, Platforms[r]).Str?
  {
    if fault.UpsertFailsAt? && fault.index < |Platforms| && Field(body, Platforms[fault.index]).Str?
    then fault.index else |Platforms|
  }

  lemma PlatformsDistinct()
    ensures forall i, j :: 0 <= i < j < |Platforms| ==> Platforms[i] != Platforms[j]
  {
  }

  /** After the first `n` steps: a platform among them with a string value
      maps to that value, whether it was inserted or overwritten; one with
      any other value, and every key outside them, including any other
      field of the body, is as before. */
  lemma {:induction false} UpsertsEffect(links: map<string, string>, body: map<string, JsValue>, n: nat)
    requires n <= |Platforms|
    ensures forall j :: 0 <= j < n && Field(body, Platforms[j]).Str? ==>
      Platforms[j] in Upserts(links, body, n) && Upserts(links, body, n)[Platforms[j]] == Field(body, Platforms[j]).s
    ensures forall key :: (key !in Platforms[..n] || !Field(body, key).Str?) ==>
      (key in Upserts(links, body, n) <==> key in links) &&
      (key in links ==> Upserts(links, body, n)[key] == links[key])
  {
    if n > 0 {
      UpsertsEffect(links, body, n - 1);
      PlatformsDistinct();
      assert Platforms[..n] == Platforms[..n - 1] + [Platforms[n - 1]];
    }
  }

  /** The `social_media` table, as a map from platform to url. */
  class SocialMediaTable {
    var links: map<string, string>

    constructor (initial: map<string, string>)
      ensures links == initial
    {
      links := initial;
    }

    /** POST /api/pages/socialmedia. Each of the five platforms with a
        string value is upserted, in order; a zero affected-row count only
        logs. A failure answers 500 and keeps the upserts already run. */
    method Post(body: map<string, JsValue>, fault: Fault) returns (status: Status)
      modifies this
      ensures fault.ConnectFails? ==> status == InternalServerError && links == old(links)
      ensures !fault.ConnectFails? ==>
        links == Upserts(old(links), body, StopIndex(body, fault)) &&
        (status == Ok <==> StopIndex(body, fault) == |Platforms|) &&
        (status == Ok || status == InternalServerError)
    {
      if fault.ConnectFails? {
        return InternalServerError;
      }
      var i := 0;
      while i < |Platforms|
        invariant 0 <= i <= |Platforms|
        invariant i <= StopIndex(body, fault)
        invariant links == Upserts(old(links), body, i)
      {
        var url := Field(body, Platforms[i]);
        if url.Str? {
          if fault == UpsertFailsAt(i) {
            return InternalServerError;
          }
          links := links[Platforms[i] := url.s];
        }
        i := i + 1;
      }
      return Ok;
    }

    /** GET /api/pages/socialmedia: 404 on an empty table, else every row. */
    method Get() returns (status: Status, rows: map<string, string>)
      ensures status == NotFound <==> links == map[]
      ensures status == Ok <==> links != map[]
      ensures status == Ok ==> rows == links
    {
      if links == map[] {
        return NotFound, map[];
      }
      return Ok, links;
    }
  }
}
