/** Firestore resource names, and the two index scans that rely on their shape
    (src/firestore.rs; the same prefix scan lists Pub/Sub resources). */
module Resources {
  import opened Wrappers
  import opened Order
  import opened Paths

  predicate IsDatabase(parts: seq<string>) {
    |parts| == 4 && parts[0] == "projects" && parts[1] != "" && parts[2] == "databases" && parts[3] != ""
  }

  function DocumentPrefix(database: string): Result<string, Status> {
    if IsDatabase(Split(database)) then Success(database + "/documents/") else Failure(InvalidArgument)
  }

  function DatabaseOf(resource: string): Result<string, Status> {
    var parts := Split(resource);
    if |parts| < 4 then Failure(InvalidArgument)
    else
      var database := Join(parts[..4]);
      if DocumentPrefix(database).Success? then Success(database) else Failure(InvalidArgument)
  }

  predicate ValidDocumentName(name: string) {
    var parts := Split(name);
    && |parts| >= 7 && IsDatabase(parts[..4]) && parts[4] == "documents"
    && (|parts| - 5) % 2 == 0
  }

  function TrimSlashes(s: string): string {
    if s != "" && s[|s| - 1] == '/' then TrimSlashes(s[..|s| - 1]) else s
  }

  /** The document lies in the collection of the parent, or below any depth of it. */
  predicate MatchesCollection(name: string, parent: string, collection: string, descendants: bool) {
    var stem := TrimSlashes(parent) + "/";
    && StartsWith(name, stem)
    && var parts := Split(name[|stem|..]);
       if descendants then |parts| >= 2 && |parts| % 2 == 0 && parts[|parts| - 2] == collection
       else |parts| == 2 && parts[0] == collection
  }

  // ----- Databases of names ------------------------------------------------

  lemma SplitDatabase(parts: seq<string>)
    requires parts != [] && forall i :: 0 <= i < |parts| ==> SlashFree(parts[i])
    ensures Split(Join(parts)) == parts
  {
    SplitJoin(parts);
  }

  lemma DatabaseParts(resource: string, database: string)
    requires DatabaseOf(resource) == Success(database)
    ensures Split(database) == Split(resource)[..4] && IsDatabase(Split(database))
    ensures |Split(resource)| >= 4
  {
    var parts := Split(resource);
    SplitPieces(resource);
    SplitDatabase(parts[..4]);
  }

  /** Trimming trailing slashes removes empty pieces from the end only. */
  lemma {:induction false} TrimPieces(s: string)
    requires |Split(s)| >= 4 && Split(s)[3] != ""
    ensures |Split(TrimSlashes(s))| >= 4 && Split(TrimSlashes(s))[..4] == Split(s)[..4]
    decreases |s|
  {
    if s != "" && s[|s| - 1] == '/' {
      var shorter := s[..|s| - 1];
      assert s == shorter + "/" + "";
      SplitAppend(shorter, "");
      assert Split(s) == Split(shorter) + [""];
      assert |Split(shorter)| >= 4 by {
        assert Split(s)[|Split(s)| - 1] == "";
      }
      assert Split(shorter)[..4] == Split(s)[..4] && Split(shorter)[3] == Split(s)[3];
      TrimPieces(shorter);
    }
  }

  /** A document a query accepts lies in the database of the query's parent, so
      reading only that database loses nothing. */
  lemma MatchStaysInDatabase(name: string, parent: string, collection: string, descendants: bool, database: string)
    requires MatchesCollection(name, parent, collection, descendants)
    requires DatabaseOf(parent) == Success(database)
    ensures DatabaseOf(name) == Success(database)
    ensures StartsWith(name, database + "/")
  {
    DatabaseParts(parent, database);
    assert Split(parent)[..4][3] == Split(parent)[3];
    TrimPieces(parent);
    var trimmed := TrimSlashes(parent);
    var rest := name[|trimmed| + 1..];
    assert name == trimmed + "/" + rest;
    SplitAppend(trimmed, rest);
    assert Split(name)[..4] == Split(trimmed)[..4] == Split(database);
    SplitPieces(database);
    SplitPieces(name);
    assert Join(Split(name)[..4]) == database;
    JoinHead(Split(name));
    assert name == Join(Split(name));
    assert Join(Split(name)) == database + "/" + Join(Split(name)[4..]) by {
      assert |Split(name)| > 4 by {
        assert |Split(name)| == |Split(trimmed)| + |Split(rest)|;
      }
    }
  }

  lemma JoinHead(parts: seq<string>)
    requires |parts| > 4
    ensures Join(parts) == Join(parts[..4]) + "/" + Join(parts[4..])
  {
    JoinAppend(parts[..4], parts[4..]);
    assert parts == parts[..4] + parts[4..];
  }

  lemma {:induction false} JoinAppend(a: seq<string>, b: seq<string>)
    requires a != [] && b != []
    ensures Join(a + b) == Join(a) + "/" + Join(b)
    decreases |a|
  {
    assert (a + b)[0] == a[0] && (a + b)[1..] == a[1..] + b;
    if |a| == 1 {
      assert a[1..] + b == b;
    } else {
      JoinAppend(a[1..], b);
    }
  }

  // ----- Prefix scans ------------------------------------------------------

  function FromKey(keys: seq<string>, start: string): seq<string> {
    if keys == [] then [] else if Before(keys[0], start) then FromKey(keys[1..], start) else keys
  }

  function TakeWhilePrefix(keys: seq<string>, prefix: string): seq<string> {
    if keys == [] || !StartsWith(keys[0], prefix) then [] else [keys[0]] + TakeWhilePrefix(keys[1..], prefix)
  }

  function WithPrefix(keys: seq<string>, prefix: string): seq<string> {
    if keys == [] then []
    else (if StartsWith(keys[0], prefix) then [keys[0]] else []) + WithPrefix(keys[1..], prefix)
  }

  lemma {:induction false} PrefixNotBefore(k: string, prefix: string)
    requires StartsWith(k, prefix)
    ensures !Before(k, prefix)
    decreases |prefix|
  {
    if prefix != "" {
      assert k[0] == k[..|prefix|][0] && k[1..][..|prefix| - 1] == k[..|prefix|][1..];
      PrefixNotBefore(k[1..], prefix[1..]);
    }
  }

  /** Keys between a prefix and a key that has it have it too. */
  lemma {:induction false} PrefixBetween(k: string, later: string, prefix: string)
    requires !Before(k, prefix) && Before(k, later) && StartsWith(later, prefix)
    ensures StartsWith(k, prefix)
    decreases |prefix|
  {
    if prefix != "" {
      assert later[0] == later[..|prefix|][0] && later[1..][..|prefix| - 1] == later[..|prefix|][1..];
      assert k != "" && k[0] == prefix[0];
      PrefixBetween(k[1..], later[1..], prefix[1..]);
      assert k[..|prefix|] == [k[0]] + k[1..][..|prefix| - 1];
    }
  }

  lemma {:induction false} NoneAfterBreak(keys: seq<string>, prefix: string)
    requires Ascending(keys) && keys != [] && !Before(keys[0], prefix) && !StartsWith(keys[0], prefix)
    ensures WithPrefix(keys, prefix) == []
    decreases |keys|
  {
    forall i | 0 <= i < |keys| ensures !StartsWith(keys[i], prefix) {
      if i > 0 && StartsWith(keys[i], prefix) { PrefixBetween(keys[0], keys[i], prefix); }
    }
    NoneWith(keys, prefix);
  }

  lemma {:induction false} NoneWith(keys: seq<string>, prefix: string)
    requires forall i :: 0 <= i < |keys| ==> !StartsWith(keys[i], prefix)
    ensures WithPrefix(keys, prefix) == []
    decreases |keys|
  {
    if keys != [] { NoneWith(keys[1..], prefix); }
  }

  lemma {:induction false} TakeWhileIsFilter(keys: seq<string>, prefix: string)
    requires Ascending(keys) && (keys != [] ==> !Before(keys[0], prefix))
    ensures TakeWhilePrefix(keys, prefix) == WithPrefix(keys, prefix)
    decreases |keys|
  {
    if keys != [] {
      if StartsWith(keys[0], prefix) {
        if |keys| > 1 { NotBeforeChain(keys[0], keys[1], prefix); }
        TakeWhileIsFilter(keys[1..], prefix);
      } else {
        NoneAfterBreak(keys, prefix);
      }
    }
  }

  lemma NotBeforeChain(a: string, b: string, c: string)
    requires Before(a, b) && !Before(a, c)
    ensures !Before(b, c)
  {
    CompareStringChain(a, b, c);
  }

  /** Seeking to the prefix and reading while keys start with it yields exactly
      the keys with that prefix, in order. */
  lemma {:induction false} RangeScanExact(keys: seq<string>, prefix: string)
    requires Ascending(keys)
    ensures TakeWhilePrefix(FromKey(keys, prefix), prefix) == WithPrefix(keys, prefix)
    decreases |keys|
  {
    if keys != [] {
      if Before(keys[0], prefix) {
        if StartsWith(keys[0], prefix) { PrefixNotBefore(keys[0], prefix); }
        RangeScanExact(keys[1..], prefix);
      } else {
        TakeWhileIsFilter(keys, prefix);
      }
    }
  }

  // ----- The two scans of one database -------------------------------------

  lemma InDatabasePrefix(name: string, database: string)
    requires ValidDocumentName(name) && DatabaseOf(name) == Success(database)
    ensures StartsWith(name, database + "/documents/")
  {
    var parts := Split(name);
    SplitPieces(name);
    JoinHead(parts);
    var rest := Join(parts[5..]);
    assert parts[4..] == [parts[4]] + parts[5..];
    JoinAppend([parts[4]], parts[5..]);
    hide Join, Split, ValidDocumentName, IsDatabase;
    assert Join(parts[..4]) == database;
    assert name == database + "/" + ("documents" + "/" + rest);
    SamePrefix(name, database, rest);
  }

  lemma SamePrefix(name: string, database: string, rest: string)
    requires name == database + "/" + ("documents" + "/" + rest)
    ensures StartsWith(name, database + "/documents/")
  {
    assert name == (database + "/documents/") + rest;
  }

  lemma PrefixInDatabase(name: string, database: string)
    requires IsDatabase(Split(database)) && StartsWith(name, database + "/documents/")
    ensures DatabaseOf(name) == Success(database)
  {
    var rest := name[|database + "/documents/"|..];
    assert name == (database + "/documents/") + rest;
    assert name == database + "/" + ("documents/" + rest);
    SplitAppend(database, "documents/" + rest);
    SplitPieces(database);
    assert Split(name)[..4] == Split(database);
    hide Split, Join, StartsWith;
  }

  /** For a document name, having the database's prefix is lying in the database. */
  lemma PrefixIsDatabase(name: string, database: string)
    requires ValidDocumentName(name) && IsDatabase(Split(database))
    ensures StartsWith(name, database + "/documents/") <==> DatabaseOf(name) == Success(database)
  {
    hide StartsWith, DatabaseOf, ValidDocumentName;
    if DatabaseOf(name) == Success(database) { InDatabasePrefix(name, database); }
    if StartsWith(name, database + "/documents/") { PrefixInDatabase(name, database); }
  }

  function InDatabase(names: seq<string>, database: string): seq<string> {
    if names == [] then []
    else (if DatabaseOf(names[0]) == Success(database) then [names[0]] else []) + InDatabase(names[1..], database)
  }

  lemma {:induction false} PrefixFilter(names: seq<string>, database: string)
    requires IsDatabase(Split(database)) && forall n :: n in names ==> ValidDocumentName(n)
    ensures WithPrefix(names, database + "/documents/") == InDatabase(names, database)
    decreases |names|
  {
    if names != [] {
      PrefixIsDatabase(names[0], database);
      PrefixFilter(names[1..], database);
      hide DatabaseOf, StartsWith, ValidDocumentName;
    }
  }

  /** The in-memory range scan and the SQL index on the database column read the
      same documents in the same order. */
  lemma DatabaseScansAgree(names: seq<string>, database: string)
    requires Ascending(names) && IsDatabase(Split(database)) && forall n :: n in names ==> ValidDocumentName(n)
    ensures var prefix := database + "/documents/";
            TakeWhilePrefix(FromKey(names, prefix), prefix) == InDatabase(names, database)
  {
    RangeScanExact(names, database + "/documents/");
    PrefixFilter(names, database);
  }
}
