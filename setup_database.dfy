/** The command splitting and execution of setup-database.js: the SQL file
    is cut at every ';' (string literals included), blank pieces are
    dropped, and the rest run one after the other on the connection. */
module SetupDatabase {
  import opened Common

  const Separator: char := ';'

  /** The characters String.prototype.trim removes that the model knows:
      the ASCII white space, no-break space and the byte order mark. */
  predicate JsWhitespace(c: char) {
    c == ' ' || c == '\t' || c == '\n' || c == '\r' || c == '\U{000B}' || c == '\U{000C}' ||
    c == '\U{00A0}' || c == '\U{FEFF}'
  }

  function TrimStart(s: string): (r: string)
    ensures |r| <= |s|
    ensures r == s[|s| - |r|..]
    ensures r != [] ==> !JsWhitespace(r[0])
    ensures forall k :: 0 <= k < |s| - |r| ==> JsWhitespace(s[k])
  {
    if s != [] && JsWhitespace(s[0]) then TrimStart(s[1..]) else s
  }

  function TrimEnd(s: string): (r: string)
    ensures |r| <= |s|
    ensures r == s[..|r|]
    ensures r != [] ==> !JsWhitespace(r[|r| - 1])
    ensures forall k :: |r| <= k < |s| ==> JsWhitespace(s[k])
  {
    if s != [] && JsWhitespace(s[|s| - 1]) then TrimEnd(s[..|s| - 1]) else s
  }

  /** String.prototype.trim. */
  function Trim(s: string): string {
    TrimEnd(TrimStart(s))
  }

  predicate Blank(s: string) {
    forall k :: 0 <= k < |s| ==> JsWhitespace(s[k])
  }

  /** `cmd.trim() !== ''` exactly when the piece holds a character that
      is not white space. */
  lemma TrimEmptyIffBlank(s: string)
    ensures Trim(s) == "" <==> Blank(s)
  {
    var t := TrimStart(s);
    if Blank(s) {
      assert t == [];
    }
    if TrimEnd(t) == "" {
      assert t == [];
    }
  }

  /** `sqlFile.split(';')`: the pieces between separators; a string
      without one is a single piece. */
  function Split(s: string): (r: seq<string>)
    ensures |r| >= 1
    ensures forall k :: 0 <= k < |r| ==> Separator !in r[k]
  {
    if s == [] then [""]
    else if s[0] == Separator then [""] + Split(s[1..])
    else
      var rest := Split(s[1..]);
      [[s[0]] + rest[0]] + rest[1..]
  }

  /** Joining the pieces with ';' gives the file back: nothing is lost
      and the pieces are in file order. */
  lemma {:induction false} SplitJoin(s: string)
    ensures Join(Split(s), [Separator]) == s
  {
    if s != [] {
      var rest := Split(s[1..]);
      SplitJoin(s[1..]);
      if s[0] == Separator {
        assert Split(s) == [""] + rest;
        JoinCons("", rest);
      } else {
        var r := Split(s);
        assert r == [[s[0]] + rest[0]] + rest[1..];
        if |rest| == 1 {
          assert r == [[s[0]] + rest[0]];
        } else {
          JoinCons(rest[0], rest[1..]);
          JoinCons([s[0]] + rest[0], rest[1..]);
          assert rest == [rest[0]] + rest[1..];
        }
      }
    }
  }

  lemma JoinCons(first: string, rest: seq<string>)
    requires |rest| >= 1
    ensures Join([first] + rest, [Separator]) == first + [Separator] + Join(rest, [Separator])
  {
    assert ([first] + rest)[1..] == rest;
  }

  /** A string without ';' is one piece. */
  lemma {:induction false} SplitNoSeparator(a: string)
    requires Separator !in a
    ensures Split(a) == [a]
  {
    if a != [] {
      SplitNoSeparator(a[1..]);
      assert [a[0]] + a[1..] == a;
    }
  }

  /** A piece without ';' followed by ';' comes off the front. */
  lemma {:induction false} SplitFirst(a: string, b: string)
    requires Separator !in a
    ensures Split(a + [Separator] + b) == [a] + Split(b)
  {
    if a == [] {
      assert a + [Separator] + b == [Separator] + b;
      assert ([Separator] + b)[1..] == b;
    } else {
      var s := a + [Separator] + b;
      assert s[1..] == a[1..] + [Separator] + b;
      SplitFirst(a[1..], b);
      assert [a[0]] + a[1..] == a;
    }
  }

  /** The split is the only way to cut the file into ';'-free pieces that
      join back to it. */
  lemma {:induction false} SplitUnique(pieces: seq<string>)
    requires |pieces| >= 1
    requires forall k :: 0 <= k < |pieces| ==> Separator !in pieces[k]
    ensures Split(Join(pieces, [Separator])) == pieces
  {
    if |pieces| == 1 {
      SplitNoSeparator(pieces[0]);
    } else {
      var rest := pieces[1..];
      SplitUnique(rest);
      JoinCons(pieces[0], rest);
      SplitFirst(pieces[0], Join(rest, [Separator]));
      assert pieces == [pieces[0]] + rest;
    }
  }

  /** A ';' inside a string literal still cuts the statement in two. */
  lemma SemicolonInLiteral()
    ensures Split("SELECT 'a;b'") == ["SELECT 'a", "b'"]
  {
    var pieces := ["SELECT 'a", "b'"];
    assert Join(pieces, [Separator]) == "SELECT 'a;b'" by {
      JoinCons(pieces[0], pieces[1..]);
    }
    SplitUnique(pieces);
  }

  function NotBlank(s: string): bool {
    Trim(s) != ""
  }

  /** `commands`: the pieces whose trimmed text is not empty, in file
      order. */
  function Commands(sqlFile: string): (r: seq<string>)
    ensures forall k :: 0 <= k < |r| ==> Separator !in r[k] && !Blank(r[k])
    ensures forall k :: 0 <= k < |r| ==> r[k] in Split(sqlFile)
    ensures forall k :: 0 <= k < |Split(sqlFile)| && !Blank(Split(sqlFile)[k]) ==> Split(sqlFile)[k] in r
  {
    var pieces := Split(sqlFile);
    var r := Filter(pieces, NotBlank);
    forall k | 0 <= k < |r| ensures !Blank(r[k]) {
      TrimEmptyIffBlank(r[k]);
    }
    forall k | 0 <= k < |pieces| && !Blank(pieces[k]) ensures NotBlank(pieces[k]) {
      TrimEmptyIffBlank(pieces[k]);
    }
    r
  }

  /** A file whose every piece holds a statement runs all of them: joining
      the commands gives the file back. */
  lemma NoBlankPiecesKeepsFile(sqlFile: string)
    requires forall k :: 0 <= k < |Split(sqlFile)| ==> !Blank(Split(sqlFile)[k])
    ensures Join(Commands(sqlFile), [Separator]) == sqlFile
  {
    var pieces := Split(sqlFile);
    forall k | 0 <= k < |pieces| ensures NotBlank(pieces[k]) {
      TrimEmptyIffBlank(pieces[k]);
    }
    FilterKeepsAll(pieces, NotBlank);
    FilterAllKept(pieces, NotBlank);
    SplitJoin(sqlFile);
  }

  lemma {:induction false} FilterAllKept<T>(s: seq<T>, keep: T -> bool)
    requires forall k :: 0 <= k < |s| ==> keep(s[k])
    ensures Filter(s, keep) == s
  {
    if s != [] {
      FilterAllKept(s[1..], keep);
      assert [s[0]] + s[1..] == s;
    }
  }

  /** The database connection, as the statements it has run. */
  class Connection {
    var executed: seq<string>

    constructor ()
      ensures executed == []
    {
      executed := [];
    }

    /** The `for` loop: each command, re-checked for blankness, is sent in
        order; the first that fails (`failAt`) ends the loop, and the
        setup reports the error. */
    method RunCommands(commands: seq<string>, failAt: Option<nat>) returns (completed: bool)
      requires forall k :: 0 <= k < |commands| ==> !Blank(commands[k])
      modifies this
      ensures completed <==> failAt.None? || failAt.value >= |commands|
      ensures completed ==> executed == old(executed) + commands
      ensures !completed ==> executed == old(executed) + commands[..failAt.value]
    {
      var i := 0;
      while i < |commands|
        invariant 0 <= i <= |commands|
        invariant failAt.Some? ==> i <= failAt.value
        invariant executed == old(executed) + commands[..i]
      {
        var command := commands[i];
        TrimEmptyIffBlank(command);
        if Trim(command) != "" {
          if failAt == Some(i) {
            return false;
          }
          assert commands[..i + 1] == commands[..i] + [command];
          executed := executed + [command];
        }
        i := i + 1;
      }
      assert commands[..i] == commands;
      return true;
    }
  }

  /** The whole script on a fresh connection: the commands of the file, in
      order, up to the first failure. */
  method RunScript(sqlFile: string, failAt: Option<nat>) returns (conn: Connection, completed: bool)
    ensures completed <==> failAt.None? || failAt.value >= |Commands(sqlFile)|
    ensures completed ==> conn.executed == Commands(sqlFile)
    ensures !completed ==> conn.executed == Commands(sqlFile)[..failAt.value]
    ensures forall k :: 0 <= k < |conn.executed| ==> Separator !in conn.executed[k]
  {
    var commands := Commands(sqlFile);
    conn := new Connection();
    completed := conn.RunCommands(commands, failAt);
    assert conn.executed <= commands;
  }
}
