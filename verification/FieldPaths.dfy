/** Quoted field paths: the parser of src/firestore.rs and the console's printer
    of src/ui.rs. */
module FieldPaths {
  import opened Wrappers

  /** The mutable flags of the parsing loop. */
  datatype Scan = Scan(parts: seq<string>, part: string, quoted: bool, escape: bool)

  const START := Scan([], "", false, false)

  /** One character of the loop; None is the empty-segment error. */
  function Step(s: Scan, ch: char): Option<Scan> {
    if s.escape then Some(s.(part := s.part + [ch], escape := false))
    else if ch == '\\' && s.quoted then Some(s.(escape := true))
    else if ch == '`' then Some(s.(quoted := !s.quoted))
    else if ch == '.' && !s.quoted then
      if s.part == "" then None else Some(s.(parts := s.parts + [s.part], part := ""))
    else Some(s.(part := s.part + [ch]))
  }

  function ScanAll(s: Scan, path: string): Option<Scan>
    decreases |path|
  {
    if path == "" then Some(s)
    else match Step(s, path[0])
      case None => None
      case Some(next) => ScanAll(next, path[1..])
  }

  function FieldPath(path: string): Result<seq<string>, Status> {
    match ScanAll(START, path)
    case None => Failure(InvalidArgument)
    case Some(s) =>
      if s.quoted || s.escape || s.part == "" then Failure(InvalidArgument) else Success(s.parts + [s.part])
  }

  method ParseFieldPath(path: string) returns (r: Result<seq<string>, Status>)
    ensures r == FieldPath(path)
  {
    var parts: seq<string>, part, quoted, escape := [], "", false, false;
    for i := 0 to |path|
      invariant ScanAll(START, path) == ScanAll(Scan(parts, part, quoted, escape), path[i..])
    {
      var ch := path[i];
      assert path[i..][1..] == path[i + 1..];
      if escape {
        part, escape := part + [ch], false;
      } else if ch == '\\' && quoted {
        escape := true;
      } else if ch == '`' {
        quoted := !quoted;
      } else if ch == '.' && !quoted {
        if part == "" { return Failure(InvalidArgument); }
        parts, part := parts + [part], "";
      } else {
        part := part + [ch];
      }
    }
    if quoted || escape || part == "" { return Failure(InvalidArgument); }
    r := Success(parts + [part]);
  }

  // ----- The printer -------------------------------------------------------

  function Replace(s: string, c: char, with: string): string {
    if s == "" then "" else (if s[0] == c then with else [s[0]]) + Replace(s[1..], c, with)
  }

  function Escaped(name: string): string {
    Replace(Replace(name, '\\', "\\\\"), '`', "\\`")
  }

  function QuotedFieldPath(name: string): string {
    "`" + Escaped(name) + "`"
  }

  lemma {:induction false} ReplaceAppend(a: string, b: string, c: char, with: string)
    ensures Replace(a + b, c, with) == Replace(a, c, with) + Replace(b, c, with)
  {
    if a == "" {
      assert a + b == b;
    } else {
      assert (a + b)[1..] == a[1..] + b;
      ReplaceAppend(a[1..], b, c, with);
    }
  }

  /** The two replacements escape each character on its own. */
  lemma EscapedStep(name: string)
    requires name != ""
    ensures Escaped(name) == (if name[0] == '\\' then "\\\\" else if name[0] == '`' then "\\`" else [name[0]])
                             + Escaped(name[1..])
  {
    var head := if name[0] == '\\' then "\\\\" else [name[0]];
    ReplaceAppend(head, Replace(name[1..], '\\', "\\\\"), '`', "\\`");
    assert head[1..] == "" || head[1..] == "\\";
    assert Replace(head, '`', "\\`") == if name[0] == '`' then "\\`" else head;
  }

  lemma {:induction false} ScanAppend(s: Scan, a: string, b: string)
    ensures ScanAll(s, a + b) == match ScanAll(s, a) case None => None case Some(t) => ScanAll(t, b)
    decreases |a|
  {
    if a == "" {
      assert a + b == b;
    } else {
      assert (a + b)[1..] == a[1..] + b;
      if Step(s, a[0]).Some? { ScanAppend(Step(s, a[0]).value, a[1..], b); }
    }
  }

  /** Inside quotes the parser reads an escaped name back literally. */
  lemma {:induction false} ScanEscaped(s: Scan, name: string)
    requires s.quoted && !s.escape
    ensures ScanAll(s, Escaped(name)) == Some(s.(part := s.part + name))
    decreases |name|
  {
    if name == "" {
      assert s.part + name == s.part;
    } else {
      EscapedStep(name);
      var one := if name[0] == '\\' then "\\\\" else if name[0] == '`' then "\\`" else [name[0]];
      var next := s.(part := s.part + [name[0]]);
      assert ScanAll(s, one) == Some(next) by {
        if |one| == 2 {
          assert Step(s, one[0]) == Some(s.(escape := true));
          assert one[1..][1..] == "";
        } else {
          assert one[1..] == "";
        }
      }
      ScanAppend(s, one, Escaped(name[1..]));
      ScanEscaped(next, name[1..]);
      assert next.part + name[1..] == s.part + name;
    }
  }

  lemma ScanQuoted(s: Scan, name: string)
    requires !s.quoted && !s.escape
    ensures ScanAll(s, QuotedFieldPath(name)) == Some(s.(part := s.part + name))
  {
    var inside := s.(quoted := true);
    var body := Escaped(name) + "`";
    assert QuotedFieldPath(name) == "`" + body && ("`" + body)[1..] == body;
    ScanAppend(inside, Escaped(name), "`");
    ScanEscaped(inside, name);
    assert "`"[1..] == "";
  }

  /** Parsing a printed name gives exactly that name, and only the empty name is refused. */
  lemma QuotedRoundTrip(name: string)
    ensures FieldPath(QuotedFieldPath(name)) == if name == "" then Failure(InvalidArgument) else Success([name])
  {
    hide ScanAll;
    ScanQuoted(START, name);
    assert START.part + name == name && START.parts + [name] == [name];
  }

  function PrintPath(names: seq<string>): string
    requires names != []
    decreases |names|
  {
    if |names| == 1 then QuotedFieldPath(names[0]) else QuotedFieldPath(names[0]) + "." + PrintPath(names[1..])
  }

  lemma {:induction false} ScanPrinted(s: Scan, names: seq<string>)
    requires names != [] && forall i :: 0 <= i < |names| ==> names[i] != ""
    requires !s.quoted && !s.escape && s.part == ""
    ensures ScanAll(s, PrintPath(names))
         == Some(s.(parts := s.parts + names[..|names| - 1], part := names[|names| - 1]))
    decreases |names|
  {
    hide QuotedFieldPath, Step;
    ScanQuoted(s, names[0]);
    assert s.part + names[0] == names[0];
    if |names| > 1 {
      var read := s.(part := names[0]);
      var next := s.(parts := s.parts + [names[0]], part := "");
      var tail := PrintPath(names[1..]);
      assert PrintPath(names) == QuotedFieldPath(names[0]) + ("." + tail);
      ScanAppend(s, QuotedFieldPath(names[0]), "." + tail);
      ScanDot(read, next, tail);
      ScanPrinted(next, names[1..]);
      assert next.parts + names[1..][..|names| - 2] == s.parts + names[..|names| - 1];
    } else {
      assert s.parts + [] == s.parts;
    }
  }

  lemma ScanDot(read: Scan, next: Scan, tail: string)
    requires !read.quoted && !read.escape && read.part != ""
    requires next == read.(parts := read.parts + [read.part], part := "")
    ensures ScanAll(read, "." + tail) == ScanAll(next, tail)
  {
    var path := "." + tail;
    assert path[0] == '.' && path[1..] == tail;
    assert Step(read, '.') == Some(next);
  }

  /** Every list of non-empty segments has a path that parses to it. */
  lemma PathRoundTrip(names: seq<string>)
    requires names != [] && forall i :: 0 <= i < |names| ==> names[i] != ""
    ensures FieldPath(PrintPath(names)) == Success(names)
  {
    hide ScanAll, PrintPath;
    var start := START;
    ScanPrinted(start, names);
    LastApart(start.parts, names);
  }

  lemma LastApart(none: seq<string>, names: seq<string>)
    requires none == [] && names != []
    ensures none + names[..|names| - 1] + [names[|names| - 1]] == names
  {
  }

  lemma {:induction false} ScanSegments(s: Scan, path: string)
    requires forall i :: 0 <= i < |s.parts| ==> s.parts[i] != ""
    ensures var t := ScanAll(s, path); t.Some? ==> forall i :: 0 <= i < |t.value.parts| ==> t.value.parts[i] != ""
    decreases |path|
  {
    if path != "" && Step(s, path[0]).Some? {
      ScanSegments(Step(s, path[0]).value, path[1..]);
    }
  }

  /** Every accepted path is a non-empty list of non-empty segments. */
  lemma AcceptedSegments(path: string)
    requires FieldPath(path).Success?
    ensures var parts := FieldPath(path).value;
            parts != [] && forall i :: 0 <= i < |parts| ==> parts[i] != ""
  {
    ScanSegments(START, path);
  }
}
