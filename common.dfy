/** Values and small JavaScript behaviours that several handlers and list
    components share: optional values, HTTP statuses, the dynamic values a
    JSON body carries, truthiness, decimal rendering, Array.prototype.slice,
    ASCII lower-casing and String.prototype.includes. */
module Common {

  datatype Option<T> = None | Some(value: T)

  /** The outcome of an operation that may throw: the value it returned,
      or the fact that it threw. */
  datatype Attempt<T> = Threw | Returned(value: T)

  /** An `id` route or query parameter: missing or empty, or the row id
      it names. */
  datatype IdParam = NoId | Id(value: int)

  /** The HTTP statuses the route handlers answer with. */
  datatype Status = Ok | Created | BadRequest | NotFound | InternalServerError {
    function Code(): int {
      match this
      case Ok => 200
      case Created => 201
      case BadRequest => 400
      case NotFound => 404
      case InternalServerError => 500
    }
  }

  /** A value read from a parsed JSON body. Numbers are integers here;
      arrays are arrays of strings, the only arrays the handlers read. */
  datatype JsValue = Undefined | Null | Bool(b: bool) | Num(n: int) | Str(s: string) | Arr(items: seq<string>)

  /** JavaScript truthiness: undefined, null, false, 0 and "" are falsy. */
  predicate Truthy(v: JsValue) {
    match v
    case Undefined => false
    case Null => false
    case Bool(b) => b
    case Num(n) => n != 0
    case Str(s) => s != ""
    case Arr(_) => true
  }

  /** `a || b` on two optional strings, where null and "" both fall through. */
  function OrElse(a: Option<string>, b: string): (r: string)
    ensures a.Some? && a.value != "" ==> r == a.value
    ensures a.None? || a.value == "" ==> r == b
  {
    if a.Some? && a.value != "" then a.value else b
  }

  /** The GET handlers that answer with the first row of a table, or 404
      when the table is empty. */
  function FirstRow<T>(rows: seq<T>): (r: Option<T>)
    ensures r.None? <==> rows == []
    ensures r.Some? ==> r.value == rows[0]
  {
    if rows == [] then None else Some(rows[0])
  }

  function DigitChar(d: nat): (c: char)
    requires d < 10
    ensures '0' <= c <= '9'
  {
    ('0' as int + d) as char
  }

  /** The decimal rendering of a natural number, as a template literal prints it. */
  function NatToString(n: nat): (r: string)
    ensures 1 <= |r|
    ensures n < 10 <==> |r| == 1
    ensures forall i :: 0 <= i < |r| ==> '0' <= r[i] <= '9'
    ensures r[0] == '0' <==> n == 0
  {
    if n < 10 then [DigitChar(n)] else NatToString(n / 10) + [DigitChar(n % 10)]
  }

  /** Distinct numbers render differently. */
  lemma {:induction false} NatToStringInjective(a: nat, b: nat)
    requires NatToString(a) == NatToString(b)
    ensures a == b
  {
    if a >= 10 && b >= 10 {
      var ra, rb := NatToString(a), NatToString(b);
      assert ra[|ra| - 1] == rb[|rb| - 1];
      assert a % 10 == b % 10;
      assert ra[..|ra| - 1] == NatToString(a / 10);
      assert rb[..|rb| - 1] == NatToString(b / 10);
      NatToStringInjective(a / 10, b / 10);
    }
  }

  function IntToString(n: int): (r: string)
    ensures n < 0 <==> (|r| > 0 && r[0] == '-')
  {
    if n < 0 then "-" + NatToString(-n) else NatToString(n)
  }

  /** String conversion inside a template literal `${v}`. */
  function ToJsString(v: JsValue): string {
    match v
    case Undefined => "undefined"
    case Null => "null"
    case Bool(b) => if b then "true" else "false"
    case Num(n) => IntToString(n)
    case Str(s) => s
    case Arr(items) => Join(items, ",")
  }

  /** Array.prototype.join. */
  function Join(items: seq<string>, sep: string): (r: string)
    ensures items == [] ==> r == ""
    ensures |items| == 1 ==> r == items[0]
    ensures |items| >= 2 ==> r == items[0] + sep + Join(items[1..], sep)
  {
    if items == [] then ""
    else if |items| == 1 then items[0]
    else items[0] + sep + Join(items[1..], sep)
  }

  /** How Array.prototype.slice turns an argument into an index: negative
      values count from the end, and the result is clamped to [0, len]. */
  function ClampIndex(i: int, len: nat): (r: nat)
    ensures r <= len
    ensures 0 <= i <= len ==> r == i
    ensures i > len ==> r == len
    ensures i < 0 ==> r == (if len + i < 0 then 0 else len + i)
  {
    if i < 0 then (if len + i < 0 then 0 else len + i)
    else if i > len then len
    else i
  }

  /** Array.prototype.slice(start, end). */
  function JsSlice<T>(s: seq<T>, start: int, end: int): (r: seq<T>)
    ensures |r| <= |s|
    ensures 0 <= start <= end ==> |r| <= end - start
    ensures 0 <= start <= end && end <= |s| ==> r == s[start..end]
    ensures start >= |s| ==> r == []
    ensures ClampIndex(start, |s|) + |r| <= |s|
    ensures forall k :: 0 <= k < |r| ==> r[k] == s[ClampIndex(start, |s|) + k]
  {
    var a, b := ClampIndex(start, |s|), ClampIndex(end, |s|);
    if a < b then s[a..b] else []
  }

  /** String.prototype.toLowerCase on the ASCII letters. */
  function LowerChar(c: char): char {
    if 'A' <= c <= 'Z' then (c as int + 32) as char else c
  }

  function ToLower(s: string): (r: string)
    ensures |r| == |s|
    ensures forall i :: 0 <= i < |s| ==> r[i] == LowerChar(s[i])
  {
    seq(|s|, i requires 0 <= i < |s| => LowerChar(s[i]))
  }

  /** String.prototype.includes: `needle` occurs in `hay` at some offset. */
  predicate Contains(hay: string, needle: string) {
    exists i :: 0 <= i <= |hay| - |needle| && OccursAt(hay, needle, i)
  }

  predicate OccursAt(hay: string, needle: string, i: int) {
    0 <= i && i + |needle| <= |hay| && hay[i..i + |needle|] == needle
  }

  /** The empty string occurs in every string; every string occurs in itself. */
  lemma ContainsTrivial(s: string)
    ensures Contains(s, "")
    ensures Contains(s, s)
  {
    assert OccursAt(s, "", 0);
    assert OccursAt(s, s, 0);
  }

  /** String.prototype.startsWith. */
  predicate StartsWith(s: string, prefix: string) {
    |prefix| <= |s| && s[..|prefix|] == prefix
  }

  /** The first element satisfying `matches`, as `rows[0]` of a
      `SELECT ... WHERE` without ORDER BY gives it (rows in table order). */
  function FirstWhere<T>(s: seq<T>, matches: T -> bool): (r: Option<T>)
    ensures r.None? <==> forall k :: 0 <= k < |s| ==> !matches(s[k])
    ensures r.Some? ==> exists i :: 0 <= i < |s| && s[i] == r.value && matches(s[i]) &&
                                    forall k :: 0 <= k < i ==> !matches(s[k])
  {
    if s == [] then None
    else if matches(s[0]) then Some(s[0])
    else
      var r := FirstWhere(s[1..], matches);
      assert r.Some? ==> exists i :: 0 <= i < |s| - 1 && s[1..][i] == r.value && matches(s[1..][i]) &&
                                     forall k :: 0 <= k < i ==> !matches(s[1..][k]);
      r
  }

  /** Array.prototype.filter, and a `WHERE` clause over rows in table order. */
  function Filter<T>(s: seq<T>, keep: T -> bool): (r: seq<T>)
    ensures |r| <= |s|
    ensures forall k :: 0 <= k < |r| ==> keep(r[k])
    ensures forall k :: 0 <= k < |r| ==> r[k] in s
    ensures forall k :: 0 <= k < |s| && keep(s[k]) ==> s[k] in r
    ensures multiset(r) <= multiset(s)
  {
    if s == [] then []
    else
      var tail := Filter(s[1..], keep);
      FilterCons(s, keep, tail);
      (if keep(s[0]) then [s[0]] else []) + tail
  }

  /** The step of Filter: what holds of the filtered tail holds of the
      filtered list once the head is kept or dropped. */
  lemma FilterCons<T>(s: seq<T>, keep: T -> bool, tail: seq<T>)
    requires s != [] && |tail| <= |s| - 1
    requires forall k :: 0 <= k < |tail| ==> keep(tail[k])
    requires forall k :: 0 <= k < |tail| ==> tail[k] in s[1..]
    requires forall k :: 0 <= k < |s| - 1 && keep(s[1..][k]) ==> s[1..][k] in tail
    requires multiset(tail) <= multiset(s[1..])
    ensures var r := (if keep(s[0]) then [s[0]] else []) + tail;
      && |r| <= |s|
      && (forall k :: 0 <= k < |r| ==> keep(r[k]))
      && (forall k :: 0 <= k < |r| ==> r[k] in s)
      && (forall k :: 0 <= k < |s| && keep(s[k]) ==> s[k] in r)
      && multiset(r) <= multiset(s)
  {
    var head := if keep(s[0]) then [s[0]] else [];
    var r := head + tail;
    assert s == [s[0]] + s[1..];
    forall k | 0 <= k < |r| ensures r[k] in s {
      if k >= |head| {
        assert r[k] == tail[k - |head|];
      }
    }
    forall k | 0 <= k < |s| && keep(s[k]) ensures s[k] in r {
      if k > 0 {
        assert s[k] == s[1..][k - 1];
      }
    }
  }

  /** Array.prototype.map. */
  function MapSeq<A, B>(f: A -> B, s: seq<A>): (r: seq<B>)
    ensures |r| == |s|
    ensures forall k :: 0 <= k < |s| ==> r[k] == f(s[k])
  {
    seq(|s|, k requires 0 <= k < |s| => f(s[k]))
  }

  /** Mapping two reorderings of the same elements gives two reorderings
      of the same results. */
  lemma {:induction false} MapPermutation<A, B>(f: A -> B, a: seq<A>, b: seq<A>)
    requires multiset(a) == multiset(b)
    ensures multiset(MapSeq(f, a)) == multiset(MapSeq(f, b))
    decreases |a|
  {
    if a == [] {
      assert |b| == |multiset(b)| == 0;
    } else {
      assert a[0] in multiset(b);
      var j :| 0 <= j < |b| && b[j] == a[0];
      var rest := b[..j] + b[j + 1..];
      RemoveMatching(a, b, j);
      MapPermutation(f, a[1..], rest);
      MapCons(f, a);
      MapSplit(f, b, j);
    }
  }

  /** Taking the same element out of two reorderings leaves two
      reorderings. */
  lemma RemoveMatching<A>(a: seq<A>, b: seq<A>, j: nat)
    requires multiset(a) == multiset(b) && a != [] && j < |b| && b[j] == a[0]
    ensures multiset(a[1..]) == multiset(b[..j] + b[j + 1..])
  {
    assert b == b[..j] + [b[j]] + b[j + 1..];
    assert a == [a[0]] + a[1..];
    assert multiset(b) == multiset(b[..j]) + multiset{b[j]} + multiset(b[j + 1..]);
    assert multiset(a) == multiset{a[0]} + multiset(a[1..]);
    assert multiset(b[..j] + b[j + 1..]) == multiset(b[..j]) + multiset(b[j + 1..]);
    forall y ensures multiset(a[1..])[y] == multiset(b[..j] + b[j + 1..])[y] {
      assert multiset(a)[y] == multiset(b)[y];
    }
  }

  lemma MapCons<A, B>(f: A -> B, a: seq<A>)
    requires a != []
    ensures multiset(MapSeq(f, a)) == multiset{f(a[0])} + multiset(MapSeq(f, a[1..]))
  {
    assert MapSeq(f, a) == [f(a[0])] + MapSeq(f, a[1..]);
  }

  lemma MapSplit<A, B>(f: A -> B, b: seq<A>, j: nat)
    requires j < |b|
    ensures multiset(MapSeq(f, b)) == multiset{f(b[j])} + multiset(MapSeq(f, b[..j] + b[j + 1..]))
  {
    assert MapSeq(f, b) == MapSeq(f, b[..j]) + [f(b[j])] + MapSeq(f, b[j + 1..]);
    assert MapSeq(f, b[..j] + b[j + 1..]) == MapSeq(f, b[..j]) + MapSeq(f, b[j + 1..]);
  }

  /** A filter drops nothing exactly when every element is kept; this is
      how an `affectedRows` count of a DELETE comes out zero. */
  lemma {:induction false} FilterKeepsAll<T>(s: seq<T>, keep: T -> bool)
    ensures |Filter(s, keep)| == |s| <==> forall k :: 0 <= k < |s| ==> keep(s[k])
  {
    if s != [] {
      var tail := s[1..];
      FilterKeepsAll(tail, keep);
      if keep(s[0]) {
        assert |Filter(s, keep)| == 1 + |Filter(tail, keep)|;
        assert (forall k :: 0 <= k < |s| ==> keep(s[k])) <==> (forall k :: 0 <= k < |tail| ==> keep(tail[k])) by {
          assert forall k :: 1 <= k < |s| ==> s[k] == tail[k - 1];
        }
      } else {
        assert |Filter(s, keep)| == |Filter(tail, keep)| <= |tail|;
      }
    }
  }

  /** Two filters in a row are one filter by both conditions: a single
      pass that keeps the input order. */
  lemma {:induction false} FilterTwice<T>(s: seq<T>, first: T -> bool, second: T -> bool, both: T -> bool)
    requires forall x :: both(x) == (first(x) && second(x))
    ensures Filter(Filter(s, first), second) == Filter(s, both)
  {
    if s != [] {
      var t := s[1..];
      FilterTwice(t, first, second, both);
      assert Filter(s, both) == (if both(s[0]) then [s[0]] else []) + Filter(t, both);
      var f1 := Filter(s, first);
      assert f1 == (if first(s[0]) then [s[0]] else []) + Filter(t, first);
      if first(s[0]) {
        assert f1[0] == s[0] && f1[1..] == Filter(t, first);
        assert Filter(f1, second) == (if second(s[0]) then [s[0]] else []) + Filter(Filter(t, first), second);
      } else {
        assert !both(s[0]);
        assert f1 == Filter(t, first);
        assert Filter(s, both) == Filter(t, both);
      }
    }
  }

  /** Filtering commutes with concatenation, so kept elements stay in
      their original order. */
  lemma {:induction false} FilterConcat<T>(a: seq<T>, b: seq<T>, keep: T -> bool)
    ensures Filter(a + b, keep) == Filter(a, keep) + Filter(b, keep)
  {
    if a != [] {
      assert (a + b)[1..] == a[1..] + b;
      FilterConcat(a[1..], b, keep);
    } else {
      assert a + b == b;
    }
  }
}
