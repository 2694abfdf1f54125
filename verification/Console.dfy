/** The console's document edits (src/ui.rs, mutate_field and clone_document): the
    commits they build, and what those commits do to the store they meet. */
module Console {
  import opened Wrappers
  import opened Paths
  import opened Values
  import opened FieldPaths
  import opened Documents
  import opened Resources
  import opened Events
  import opened Writes

  /** The refusals of the console, by HTTP status. */
  datatype Refusal = BadRequest | Missing | Conflict

  datatype Action = Add(value: Value) | Remove | Rename(destination: string)

  /** A name the console accepts as one path segment or one field. */
  predicate ValidSegment(name: string) {
    name != "" && name != "." && name != ".." && forall i :: 0 <= i < |name| ==> name[i] != '/' && name[i] != '\0'
  }

  /** A project or database id: the characters the console allows, at most 256. */
  predicate ValidId(value: string) {
    0 < |value| <= 256
    && forall i :: 0 <= i < |value| ==>
         || 'a' <= value[i] <= 'z' || 'A' <= value[i] <= 'Z' || '0' <= value[i] <= '9'
         || value[i] in {'-', '.', '_', ':', '(', ')'}
  }

  function PathParts(path: string): Option<seq<string>> {
    var parts := Split(path);
    if forall i :: 0 <= i < |parts| ==> ValidSegment(parts[i]) then Some(parts) else None
  }

  function DatabaseName(project: string, database: string): string {
    "projects" + "/" + project + "/" + "databases" + "/" + database
  }

  function DocumentName(project: string, database: string, path: string): string {
    DatabaseName(project, database) + "/" + "documents" + "/" + path
  }

  lemma SplitFour(a: string, b: string, c: string, d: string)
    requires SlashFree(a) && SlashFree(b) && SlashFree(c) && SlashFree(d)
    ensures Split(a + "/" + b + "/" + c + "/" + d) == [a, b, c, d]
  {
    hide Split, SlashFree;
    SplitSlashFree(a);
    SplitSlashFree(b);
    SplitSlashFree(c);
    SplitSlashFree(d);
    SplitAppend(a, b);
    SplitAppend(a + "/" + b, c);
    SplitAppend(a + "/" + b + "/" + c, d);
  }

  lemma DatabaseSplit(project: string, database: string)
    requires ValidId(project) && ValidId(database)
    ensures Split(DatabaseName(project, database)) == ["projects", project, "databases", database]
  {
    hide Split;
    SplitFour("projects", project, "databases", database);
  }

  /** The checks of a console request make its path a valid document name. */
  lemma RequestName(project: string, database: string, path: string)
    requires ValidId(project) && ValidId(database) && PathParts(path).Some? && |PathParts(path).value| % 2 == 0
    ensures ValidDocumentName(DocumentName(project, database, path))
  {
    DatabaseSplit(project, database);
    hide Split, ValidSegment;
    SplitThree(DatabaseName(project, database), "documents", path);
    var parts := Split(DocumentName(project, database, path));
    assert parts[..4] == ["projects", project, "databases", database];
    assert parts[4] == "documents";
  }

  lemma SplitThree(a: string, b: string, c: string)
    requires SlashFree(b)
    ensures Split(a + "/" + b + "/" + c) == Split(a) + [b] + Split(c)
  {
    hide Split, SlashFree;
    SplitSlashFree(b);
    SplitAppend(a, b);
    SplitAppend(a + "/" + b, c);
  }

  /** A destination collection and a new id make a valid document path. */
  lemma DestinationPath(collection: string, id: string)
    requires PathParts(collection).Some? && |PathParts(collection).value| % 2 == 1 && ValidSegment(id)
    ensures PathParts(collection + "/" + id).Some? && |PathParts(collection + "/" + id).value| % 2 == 0
  {
    SplitAppend(collection, id);
    SplitSlashFree(id);
  }

  // ----- Field edits -------------------------------------------------------

  datatype Edit = Edit(fields: Fields, mask: seq<string>)

  /** The fields and the mask of the edit, judged against the document as read. */
  function BuildEdit(current: Document, field: string, action: Action): Result<Edit, Refusal> {
    if !ValidSegment(field) then Failure(BadRequest)
    else
      match action
      case Add(value) =>
        if field in current.fields then Failure(Conflict)
        else Success(Edit(map[field := value], [QuotedFieldPath(field)]))
      case Remove =>
        if field !in current.fields then Failure(Missing)
        else Success(Edit(map[], [QuotedFieldPath(field)]))
      case Rename(destination) =>
        if !ValidSegment(destination) || destination == field then Failure(BadRequest)
        else if destination in current.fields then Failure(Conflict)
        else if field !in current.fields then Failure(Missing)
        else
          Success(Edit(map[destination := current.fields[field]],
                       [QuotedFieldPath(field), QuotedFieldPath(destination)]))
  }

  function EditDocument(current: Document, field: string, action: Action): Document
    requires BuildEdit(current, field, action).Success?
  {
    Document(current.name, BuildEdit(current, field, action).value.fields, None, None)
  }

  function EditWrite(current: Document, edit: Edit): Write {
    Write(Update(Document(current.name, edit.fields, None, None)),
          Some(if current.updateTime.Some? then UpdatedAt(current.updateTime.value) else Exists(true)),
          [], Some(edit.mask))
  }

  /** What the user asked for, said about the fields themselves. */
  function Edited(fields: Fields, current: Document, field: string, action: Action): Fields
    requires BuildEdit(current, field, action).Success?
  {
    match action
    case Add(value) => fields[field := value]
    case Remove => fields - {field}
    case Rename(destination) => (fields - {field})[destination := current.fields[field]]
  }

  lemma MaskParses(names: seq<string>)
    requires |names| == 1 || (|names| == 2 && names[0] != names[1])
    requires forall i :: 0 <= i < |names| ==> names[i] != ""
    ensures ParseMask(if |names| == 1 then [QuotedFieldPath(names[0])]
                      else [QuotedFieldPath(names[0]), QuotedFieldPath(names[1])])
         == Success(if |names| == 1 then [[names[0]]] else [[names[0]], [names[1]]])
    ensures Apart(if |names| == 1 then [[names[0]]] else [[names[0]], [names[1]]])
  {
    hide FieldPath, QuotedFieldPath;
    QuotedRoundTrip(names[0]);
    var first := [QuotedFieldPath(names[0])];
    assert first[..0] == [] && ParseMask(first[..0]) == Success([]);
    assert [] + [[names[0]]] == [[names[0]]];
    assert ParseMask(first) == Success([[names[0]]]);
    if |names| == 2 {
      QuotedRoundTrip(names[1]);
      var both := [QuotedFieldPath(names[0]), QuotedFieldPath(names[1])];
      assert both[..1] == first;
      assert [[names[0]]] + [[names[1]]] == [[names[0]], [names[1]]];
      assert !Overlap([names[0]], [names[1]]) by { assert [names[0]][0] != [names[1]][0]; }
    }
  }

  /** The mask of an edit changes exactly the named top-level fields, whatever
      characters the names contain. */
  lemma EditMerges(existing: Document, current: Document, field: string, action: Action)
    requires BuildEdit(current, field, action).Success?
    ensures MergeDocument(Some(existing), EditDocument(current, field, action),
                          Some(BuildEdit(current, field, action).value.mask))
         == Success(Document(current.name, Edited(existing.fields, current, field, action), None, None))
  {
    hide QuotedFieldPath, FieldPath, ParseMask, Apart, MergeFields;
    EditMask(current, field, action);
    var edit := BuildEdit(current, field, action).value;
    var paths := if action.Rename? then [[field], [action.destination]] else [[field]];
    TopLevelMerge(existing.fields, edit.fields, [field], if action.Rename? then Some([action.destination]) else None);
  }

  lemma EditMask(current: Document, field: string, action: Action)
    requires BuildEdit(current, field, action).Success?
    ensures var paths := if action.Rename? then [[field], [action.destination]] else [[field]];
            ParseMask(BuildEdit(current, field, action).value.mask) == Success(paths) && Apart(paths)
  {
    hide QuotedFieldPath, FieldPath, ParseMask, Apart;
    MaskParses(if action.Rename? then [field, action.destination] else [field]);
  }

  function SetTop(fields: Fields, name: string, incoming: Fields): Fields {
    if name in incoming then fields[name := incoming[name]] else fields - {name}
  }

  lemma TopLevelMerge(fields: Fields, incoming: Fields, first: seq<string>, second: Option<seq<string>>)
    requires |first| == 1 && (second.Some? ==> |second.value| == 1)
    ensures second.None? ==> MergeFields(fields, incoming, [first]) == SetTop(fields, first[0], incoming)
    ensures second.Some? ==>
              SetTop(SetTop(fields, first[0], incoming), second.value[0], incoming)
              == MergeFields(fields, incoming, [first, second.value])
  {
    var once := NestedSet(fields, first, NestedGet(incoming, first));
    assert once == SetTop(fields, first[0], incoming);
    assert [first][1..] == [];
    assert MergeFields(once, incoming, []) == once;
    if second.Some? {
      var paths := [first, second.value];
      assert paths[1..] == [second.value] && [second.value][1..] == [];
      var twice := NestedSet(once, second.value, NestedGet(incoming, second.value));
      assert MergeFields(twice, incoming, []) == twice;
      assert MergeFields(once, incoming, [second.value]) == twice;
    }
  }

  function EditResult(cx: Context, existing: Document, current: Document, field: string, action: Action): Document
    requires BuildEdit(current, field, action).Success?
  {
    Document(current.name, Edited(existing.fields, current, field, action),
             if existing.createTime.Some? then existing.createTime else Some(cx.now), Some(cx.now))
  }

  lemma EditEffect(cx: Context, existing: Option<Document>, current: Document, field: string, action: Action)
    requires BuildEdit(current, field, action).Success? && ValidDocumentName(current.name)
    ensures var write := EditWrite(current, BuildEdit(current, field, action).value);
            && (!Meets(existing, write.condition) ==> Effect(cx, existing, write) == Failure(FailedPrecondition))
            && (Meets(existing, write.condition) ==>
                  && existing.Some?
                  && Effect(cx, existing, write)
                     == Success(Written(Some(EditResult(cx, existing.value, current, field, action)),
                                        WriteResult(Some(cx.now), []))))
  {
    if existing.Some? {
      EditMerges(existing.value, current, field, action);
      var fields := Edited(existing.value.fields, current, field, action);
      assert ApplyTransforms(cx, fields, []) == Success(Transformed(fields, []));
    }
    hide BuildEdit, Edited, MergeDocument, ValidDocumentName;
  }

  /** Committing the edit: if the document is still there and unchanged since it
      was read, the asked-for change and nothing else; otherwise nothing. */
  lemma EditExact(cx: Context, store: Store, current: Document, field: string, action: Action)
    requires BuildEdit(current, field, action).Success? && ValidDocumentName(current.name)
    ensures var write := EditWrite(current, BuildEdit(current, field, action).value);
            var existing := At(store, current.name);
            if !Meets(existing, write.condition) then
              Fold(cx, Open(store), [write], false) == Failure(FailedPrecondition)
            else
              && existing.Some?
              && var after := EditResult(cx, existing.value, current, field, action);
                 Fold(cx, Open(store), [write], false)
                 == Success(Batch(store[current.name := after], [WriteResult(Some(cx.now), [])], [None]))
  {
    var write := EditWrite(current, BuildEdit(current, field, action).value);
    EditEffect(cx, At(store, current.name), current, field, action);
    hide BuildEdit, Edited, Effect, Meets, ValidDocumentName;
    assert [write][1..] == [];
    var step := StepBatch(cx, Open(store), write, false);
    var results, statuses: seq<Option<Status>> := [WriteResult(Some(cx.now), [])], [None];
    assert [] + results == results && [] + statuses == statuses;
    assert step.Success? ==> Fold(cx, step.value, [], false) == step;
  }

  // ----- Clones ------------------------------------------------------------

  /** The documents a clone copies: the source, and what lies below it if asked. */
  predicate Cloned(name: string, source: string, below: bool) {
    name == source || (below && StartsWith(name, source + "/"))
  }

  function Target(name: string, source: string, destination: string): string {
    if StartsWith(name, source) then destination + name[|source|..] else destination + name
  }

  function CloneWrite(document: Document, source: string, destination: string): Write {
    Write(Update(Document(Target(document.name, source, destination), document.fields, None, None)),
          Some(Exists(false)), [], None)
  }

  function CloneWrites(documents: seq<Document>, source: string, destination: string): (writes: seq<Write>)
    ensures |writes| == |documents|
    decreases |documents|
  {
    if documents == [] then []
    else [CloneWrite(documents[0], source, destination)] + CloneWrites(documents[1..], source, destination)
  }

  function Copy(cx: Context, document: Document, source: string, destination: string): Document {
    Document(Target(document.name, source, destination), document.fields, Some(cx.now), Some(cx.now))
  }

  function Added(store: Store, document: Document): Store {
    store[document.name := document]
  }

  function WithCopies(cx: Context, store: Store, documents: seq<Document>, source: string, destination: string): Store
    decreases |documents|
  {
    if documents == [] then store
    else
      var copy := Copy(cx, documents[0], source, destination);
      WithCopies(cx, Added(store, copy), documents[1..], source, destination)
  }

  lemma TargetValid(name: string, source: string, destination: string, below: bool)
    requires ValidDocumentName(name) && ValidDocumentName(source) && ValidDocumentName(destination)
    requires Cloned(name, source, below)
    ensures ValidDocumentName(Target(name, source, destination))
  {
    if name == source {
      assert Target(name, source, destination) == destination + "" == destination;
    } else {
      var rest := name[|source| + 1..];
      assert name == source + "/" + rest;
      SplitAppend(source, rest);
      SplitAppend(destination, rest);
      assert name[..|source|] == source && name[|source|..] == "/" + rest;
      assert Target(name, source, destination) == destination + "/" + rest;
      TargetParts(Split(name), Split(source), Split(destination), Split(rest));
      hide Split;
      assert Split(destination + "/" + rest)[..4] == Split(destination)[..4];
    }
  }

  lemma TargetParts(name: seq<string>, source: seq<string>, destination: seq<string>, rest: seq<string>)
    requires name == source + rest && |source| >= 7 && |destination| >= 7
    requires (|name| - 5) % 2 == 0 && (|source| - 5) % 2 == 0 && (|destination| - 5) % 2 == 0
    ensures (|destination + rest| - 5) % 2 == 0
    ensures (destination + rest)[..4] == destination[..4] && (destination + rest)[4] == destination[4]
  {
  }

  lemma TargetInjective(a: string, b: string, source: string, destination: string, below: bool)
    requires Cloned(a, source, below) && Cloned(b, source, below)
    requires Target(a, source, destination) == Target(b, source, destination)
    ensures a == b
  {
    ClonedStarts(a, source, below);
    ClonedStarts(b, source, below);
    var x, y := a[|source|..], b[|source|..];
    assert (destination + x)[|destination|..] == x && (destination + y)[|destination|..] == y;
  }

  lemma ClonedStarts(a: string, source: string, below: bool)
    requires Cloned(a, source, below)
    ensures StartsWith(a, source) && a == source + a[|source|..]
  {
    if a != source { assert a[..|source|] == a[..|source| + 1][..|source|] == (source + "/")[..|source|] == source; }
  }

  predicate Clonable(documents: seq<Document>, source: string, below: bool) {
    && (forall i :: 0 <= i < |documents| ==>
          Cloned(documents[i].name, source, below) && ValidDocumentName(documents[i].name))
    && (forall i, j :: 0 <= i < j < |documents| ==> documents[i].name != documents[j].name)
  }

  predicate TargetsFree(documents: seq<Document>, source: string, destination: string, store: Store) {
    forall i :: 0 <= i < |documents| ==> Target(documents[i].name, source, destination) !in store
  }

  lemma CopyOne(cx: Context, batch: Batch, document: Document, source: string, destination: string)
    requires ValidDocumentName(Target(document.name, source, destination))
    ensures StepBatch(cx, batch, CloneWrite(document, source, destination), false)
         == if Target(document.name, source, destination) in batch.store then Failure(FailedPrecondition)
            else
              var copy := Copy(cx, document, source, destination);
              Success(Batch(Added(batch.store, copy), batch.results + [WriteResult(Some(cx.now), [])],
                            batch.statuses + [None]))
  {
    hide ValidDocumentName, Target;
    assert ApplyTransforms(cx, document.fields, []) == Success(Transformed(document.fields, []));
  }

  /** A clone never overwrites: it copies every document if all the targets are
      free, and otherwise it changes nothing. */
  lemma {:induction false} CloneExact(cx: Context, batch: Batch, documents: seq<Document>, source: string,
                                      destination: string, below: bool)
    requires ValidDocumentName(source) && ValidDocumentName(destination) && Clonable(documents, source, below)
    ensures var r := Fold(cx, batch, CloneWrites(documents, source, destination), false);
            if TargetsFree(documents, source, destination, batch.store)
            then r.Success? && r.value.store == WithCopies(cx, batch.store, documents, source, destination)
            else r == Failure(FailedPrecondition)
    decreases |documents|
  {
    if documents != [] {
      var first, rest := documents[0], documents[1..];
      var writes := CloneWrites(documents, source, destination);
      assert writes[0] == CloneWrite(first, source, destination)
             && writes[1..] == CloneWrites(rest, source, destination);
      TargetValid(first.name, source, destination, below);
      CopyOne(cx, batch, first, source, destination);
      ClonableRest(documents, source, below);
      if Target(first.name, source, destination) !in batch.store {
        var next := StepBatch(cx, batch, writes[0], false).value;
        CloneExact(cx, next, rest, source, destination, below);
        FreeAfterCopy(cx, documents, source, destination, below, batch.store);
      }
      hide StepBatch, CloneWrite, Target, Clonable;
    }
  }

  lemma ClonableRest(documents: seq<Document>, source: string, below: bool)
    requires Clonable(documents, source, below) && documents != []
    ensures Clonable(documents[1..], source, below)
  {
    var rest := documents[1..];
    hide Cloned, ValidDocumentName;
    assert forall i :: 0 <= i < |rest| ==> rest[i] == documents[i + 1];
  }

  lemma FreeAfterCopy(cx: Context, documents: seq<Document>, source: string, destination: string, below: bool,
                      store: Store)
    requires Clonable(documents, source, below) && documents != []
    requires Target(documents[0].name, source, destination) !in store
    ensures TargetsFree(documents[1..], source, destination, Added(store, Copy(cx, documents[0], source, destination)))
       <==> TargetsFree(documents, source, destination, store)
  {
    var rest := documents[1..];
    hide Cloned, ValidDocumentName, Target;
    assert forall i :: 0 <= i < |rest| ==> rest[i] == documents[i + 1];
    assert forall i :: 1 <= i < |documents| ==> documents[i] == rest[i - 1];
    forall i | 0 <= i < |rest|
      ensures Target(rest[i].name, source, destination) != Target(documents[0].name, source, destination)
    {
      if Target(rest[i].name, source, destination) == Target(documents[0].name, source, destination) {
        TargetInjective(rest[i].name, documents[0].name, source, destination, below);
      }
    }
  }

  /** What the copies are: each target holds its source's fields, created now,
      and every other document is as it was. */
  lemma {:induction false} CopiesExact(cx: Context, store: Store, documents: seq<Document>, source: string,
                                       destination: string, below: bool)
    requires Clonable(documents, source, below)
    ensures var after := WithCopies(cx, store, documents, source, destination);
            && (forall i :: 0 <= i < |documents| ==>
                  At(after, Target(documents[i].name, source, destination))
                    == Some(Copy(cx, documents[i], source, destination)))
            && (forall n :: 
                  (forall i :: 0 <= i < |documents| ==> n != Target(documents[i].name, source, destination)) ==>
                  At(after, n) == At(store, n))
    decreases |documents|
  {
    if documents != [] {
      var first, rest := documents[0], documents[1..];
      var copy := Copy(cx, first, source, destination);
      ClonableRest(documents, source, below);
      CopiesExact(cx, Added(store, copy), rest, source, destination, below);
      assert forall i :: 0 <= i < |rest| ==> rest[i] == documents[i + 1];
      forall i | 0 <= i < |rest| ensures Target(rest[i].name, source, destination) != copy.name {
        if Target(rest[i].name, source, destination) == copy.name {
          TargetInjective(rest[i].name, first.name, source, destination, below);
        }
      }
      hide Cloned, ValidDocumentName, Target;
      var next := Added(store, copy);
      var after := WithCopies(cx, store, documents, source, destination);
      assert after == WithCopies(cx, next, rest, source, destination);
      assert At(after, copy.name) == At(next, copy.name) == Some(copy);
      forall i | 0 <= i < |documents|
        ensures At(after, Target(documents[i].name, source, destination))
             == Some(Copy(cx, documents[i], source, destination))
      {
        if i > 0 { assert documents[i] == rest[i - 1]; }
      }
      forall n | forall i :: 0 <= i < |documents| ==> n != Target(documents[i].name, source, destination)
        ensures At(after, n) == At(store, n)
      {
        assert n != Target(documents[0].name, source, destination);
        forall i | 0 <= i < |rest| ensures n != Target(rest[i].name, source, destination) {
          assert rest[i] == documents[i + 1];
        }
        assert At(after, n) == At(next, n);
      }
    }
  }
}
