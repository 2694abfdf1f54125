/** The two Firestore backends (src/firestore.rs, commit, batch_write and
    persistent_writes): one folds over the whole store in memory, the other over
    the rows a batch names, inside one transaction. */
module Backends {
  import opened Wrappers
  import opened Order
  import opened Values
  import opened Documents
  import opened Resources
  import opened Events
  import opened Writes
  import Outbox

  /** A row of firestore_documents; the name is the key. */
  datatype DocumentRow = DocumentRow(database: string, document: Document)

  function Stored(rows: map<string, DocumentRow>): Store {
    map n | n in rows :: rows[n].document
  }

  /** Each row is keyed by a document name and carries the database of that name
      and a document of that name. */
  predicate Labelled(rows: map<string, DocumentRow>) {
    forall n :: n in rows ==>
      ValidDocumentName(n) && DatabaseOf(n) == Success(rows[n].database) && rows[n].document.name == n
  }

  function NameSet(writes: seq<Write>): set<string> {
    set i | 0 <= i < |writes| && NameOf(writes[i]).Success? :: NameOf(writes[i]).value
  }

  predicate ValidName(database: string, write: Write) {
    && NameOf(write).Success?
    && ValidDocumentName(NameOf(write).value)
    && DatabaseOf(NameOf(write).value) == Success(database)
  }

  predicate ValidWrites(database: string, writes: seq<Write>) {
    && DocumentPrefix(database).Success?
    && forall i :: 0 <= i < |writes| ==> ValidName(database, writes[i])
  }

  lemma ValidNamed(database: string, writes: seq<Write>)
    requires ValidWrites(database, writes)
    ensures NamedIn(writes, NameSet(writes))
    ensures forall n :: n in NameSet(writes) ==> ValidDocumentName(n) && DatabaseOf(n) == Success(database)
  {
    hide DatabaseOf, ValidDocumentName, NameOf;
    forall n | n in NameSet(writes) ensures ValidDocumentName(n) && DatabaseOf(n) == Success(database) {
      var i :| 0 <= i < |writes| && NameOf(writes[i]).Success? && NameOf(writes[i]).value == n;
      assert ValidName(database, writes[i]);
    }
    forall i | 0 <= i < |writes| ensures NameOf(writes[i]).Success? && NameOf(writes[i]).value in NameSet(writes) {
      assert ValidName(database, writes[i]);
    }
  }

  method ValidateWritesDatabase(database: string, writes: seq<Write>) returns (r: Result<(), Status>)
    ensures r.Success? <==> ValidWrites(database, writes)
    ensures r.Failure? ==> r.error == InvalidArgument
  {
    hide DatabaseOf, ValidDocumentName, DocumentPrefix, NameOf;
    if DocumentPrefix(database).Failure? { return Failure(InvalidArgument); }
    for i := 0 to |writes|
      invariant forall j :: 0 <= j < i ==> ValidName(database, writes[j])
    {
      var name := NameOf(writes[i]);
      if name.Failure? || !ValidDocumentName(name.value) || DatabaseOf(name.value) != Success(database) {
        assert !ValidName(database, writes[i]);
        return Failure(InvalidArgument);
      }
    }
    r := Success(());
  }

  // ----- In memory ---------------------------------------------------------

  class MemoryBackend {
    var documents: Store
    /** The events handed to the functions runtime, in order. */
    var submitted: seq<Record>
    const enabled: bool

    constructor (enabled: bool)
      ensures documents == map[] && submitted == [] && this.enabled == enabled
    {
      documents, submitted := map[], [];
      this.enabled := enabled;
    }

    method DocumentsChanged(before: Store, after: Store)
      modifies this`submitted
      ensures submitted == old(submitted) + if enabled then Records(before, after) else []
    {
      if enabled {
        var records := CollectRecords(before, after);
        submitted := submitted + records;
      }
    }

    /** All of the batch or none of it. */
    method Commit(cx: Context, writes: seq<Write>) returns (r: Result<seq<WriteResult>, Status>)
      modifies this
      ensures match Fold(cx, Open(old(documents)), writes, false)
              case Failure(e) => r == Failure(e) && documents == old(documents) && submitted == old(submitted)
              case Success(batch) =>
                && r == Success(batch.results) && documents == batch.store
                && submitted == old(submitted) + if enabled then Records(old(documents), batch.store) else []
    {
      hide Fold, Records;
      var batch := RunBatch(cx, documents, writes, false);
      if batch.Failure? { return Failure(batch.error); }
      DocumentsChanged(documents, batch.value.store);
      documents := batch.value.store;
      r := Success(batch.value.results);
    }

    /** Each write on its own, with its own status. */
    method BatchWrite(cx: Context, writes: seq<Write>)
      returns (results: seq<WriteResult>, statuses: seq<Option<Status>>)
      modifies this
      ensures var batch := Fold(cx, Open(old(documents)), writes, true);
              && batch.Success? && results == batch.value.results && statuses == batch.value.statuses
              && documents == batch.value.store
              && submitted == old(submitted) + if enabled then Records(old(documents), documents) else []
    {
      FoldShape(cx, Open(documents), writes, true);
      hide Fold, Records;
      var before := documents;
      var batch := RunBatch(cx, documents, writes, true);
      documents := batch.value.store;
      results, statuses := batch.value.results, batch.value.statuses;
      DocumentsChanged(before, documents);
    }
  }

  // ----- In SQLite ---------------------------------------------------------

  method LoadNamed(rows: map<string, DocumentRow>, names: seq<string>, ghost all: set<string>)
    returns (documents: Store)
    requires forall n :: n in names <==> n in all
    ensures documents == Restrict(Stored(rows), all)
  {
    documents := map[];
    for i := 0 to |names|
      invariant forall n :: n in documents <==> n in names[..i] && n in rows
      invariant forall n :: n in documents ==> documents[n] == rows[n].document
    {
      if names[i] in rows {
        documents := documents[names[i] := rows[names[i]].document];
      }
    }
    assert names[..|names|] == names;
  }

  function WrittenBack(rows: map<string, DocumentRow>, documents: Store, names: set<string>,
                       database: string): map<string, DocumentRow>
    requires documents.Keys <= names
  {
    map n | n in rows.Keys + documents.Keys && (n in names ==> n in documents) ::
      if n in names then DocumentRow(database, documents[n]) else rows[n]
  }

  method WriteBack(rows: map<string, DocumentRow>, documents: Store, names: seq<string>, ghost all: set<string>,
                   database: string)
    returns (out: map<string, DocumentRow>)
    requires documents.Keys <= all && forall n :: n in names <==> n in all
    ensures out == WrittenBack(rows, documents, all, database)
  {
    out := rows;
    for i := 0 to |names|
      invariant forall n :: n in out <==> if n in names[..i] then n in documents else n in rows
      invariant forall n :: n in out ==>
        out[n] == if n in names[..i] then DocumentRow(database, documents[n]) else rows[n]
    {
      if names[i] in documents {
        out := out[names[i] := DocumentRow(database, documents[names[i]])];
      } else {
        out := out - {names[i]};
      }
    }
    assert names[..|names|] == names;
  }

  /** Loading the named rows, changing them and writing them back is the change
      of the whole store, when nothing else was to change. */
  lemma WriteBackWhole(rows: map<string, DocumentRow>, after: Store, names: set<string>, database: string)
    requires SameOutside(after, Stored(rows), names)
    ensures Stored(WrittenBack(rows, Restrict(after, names), names, database)) == after
  {
    var out := Stored(WrittenBack(rows, Restrict(after, names), names, database));
    forall n ensures At(out, n) == At(after, n) {
      if n !in names { assert At(after, n) == At(Stored(rows), n); }
    }
    forall n ensures n in out <==> n in after { assert At(out, n) == At(after, n); }
    forall n | n in out ensures out[n] == after[n] { assert At(out, n) == At(after, n); }
  }

  lemma WriteBackLabelled(rows: map<string, DocumentRow>, documents: Store, names: set<string>, database: string)
    requires Labelled(rows) && documents.Keys <= names && WellNamed(documents)
    requires forall n :: n in names ==> ValidDocumentName(n) && DatabaseOf(n) == Success(database)
    ensures Labelled(WrittenBack(rows, documents, names, database))
  {
    hide DatabaseOf, ValidDocumentName;
  }

  predicate WellNamed(store: Store) {
    forall n :: n in store ==> store[n].name == n
  }

  lemma {:induction false} FoldWellNamed(cx: Context, batch: Batch, writes: seq<Write>, partial: bool)
    requires WellNamed(batch.store)
    ensures var r := Fold(cx, batch, writes, partial); r.Success? ==> WellNamed(r.value.store)
    decreases |writes|
  {
    if writes != [] {
      StepWellNamed(cx, batch, writes[0], partial);
      hide StepBatch, WellNamed;
      var step := StepBatch(cx, batch, writes[0], partial);
      if step.Success? { FoldWellNamed(cx, step.value, writes[1..], partial); }
    }
  }

  lemma StepWellNamed(cx: Context, batch: Batch, write: Write, partial: bool)
    requires WellNamed(batch.store)
    ensures var r := StepBatch(cx, batch, write, partial); r.Success? ==> WellNamed(r.value.store)
  {
    hide ApplyTransforms, MergeDocument, ValidDocumentName, Meets;
  }

  function Changes(before: Store, after: Store, names: set<string>): seq<Record> {
    Records(Restrict(before, names), Restrict(after, names))
  }

  function Queued(outbox: Outbox.Table, records: seq<Record>, enabled: bool): Result<Outbox.Table, Status> {
    if enabled then Outbox.Insert(outbox, records) else Success(outbox)
  }

  class DurableBackend {
    var rows: map<string, DocumentRow>
    const events: Outbox.EventOutbox

    ghost predicate Valid()
      reads this
    {
      Labelled(rows)
    }

    constructor (enabled: bool)
      ensures Valid() && rows == map[] && fresh(events) && events.enabled == enabled && events.table == Outbox.EMPTY
    {
      rows := map[];
      events := new Outbox.EventOutbox(enabled);
    }

    /** One transaction: it refuses foreign names, stops at the first error unless
        partial, and commits only if every event fits the outbox. It is what the
        fold over the whole store says. */
    method PersistentWrites(cx: Context, database: string, writes: seq<Write>, partial: bool)
      returns (r: Result<Batch, Status>)
      requires Valid()
      modifies this, events
      ensures Valid()
      ensures r.Failure? ==> rows == old(rows) && events.table == old(events.table)
      ensures !ValidWrites(database, writes) ==> r == Failure(InvalidArgument)
      ensures ValidWrites(database, writes) ==>
                match Fold(cx, Open(Stored(old(rows))), writes, partial)
                case Failure(e) => r == Failure(e)
                case Success(batch) =>
                  var queued := Queued(old(events.table), Changes(Stored(old(rows)), batch.store, NameSet(writes)),
                                       events.enabled);
                  if queued.Failure? then r == Failure(Unavailable)
                  else
                    && r == Success(RestrictBatch(batch, NameSet(writes)))
                    && Stored(rows) == batch.store
                    && events.table == queued.value
    {
      hide Fold, ValidWrites, NameOf, Outbox.Insert, Labelled, Records, Restrict;
      var valid := ValidateWritesDatabase(database, writes);
      if valid.Failure? { return Failure(valid.error); }
      ghost var whole := Stored(rows);
      ghost var all := NameSet(writes);
      ValidNamed(database, writes);
      var names := SortedKeys(NameSet(writes));
      var before := LoadNamed(rows, names, all);
      FoldLocal(cx, Open(whole), writes, partial, all);
      var batch := RunBatch(cx, before, writes, partial);
      if batch.Failure? { return Failure(batch.error); }
      var documents := batch.value.store;
      RestrictKeys(whole, writes, cx, partial);
      var written := WriteBack(rows, documents, names, all, database);
      var records := CollectRecords(before, documents);
      var ids := events.InsertOutbox(records);
      if ids.Failure? { return Failure(ids.error); }
      ghost var full := Fold(cx, Open(whole), writes, partial).value.store;
      WriteBackWhole(rows, full, all, database);
      DocumentsNamed(rows, writes, cx, partial);
      WriteBackLabelled(rows, documents, all, database);
      rows := written;
      r := Success(batch.value);
    }
  }

  lemma RestrictKeys(whole: Store, writes: seq<Write>, cx: Context, partial: bool)
    ensures var f := Fold(cx, Open(whole), writes, partial);
            f.Success? ==> Restrict(f.value.store, NameSet(writes)).Keys <= NameSet(writes)
  {
    hide Fold;
  }

  lemma DocumentsNamed(rows: map<string, DocumentRow>, writes: seq<Write>, cx: Context, partial: bool)
    requires Labelled(rows)
    ensures var f := Fold(cx, Open(Stored(rows)), writes, partial);
            f.Success? ==> WellNamed(Restrict(f.value.store, NameSet(writes)))
  {
    hide DatabaseOf, ValidDocumentName;
    FoldWellNamed(cx, Open(Stored(rows)), writes, partial);
    hide Fold;
  }

  // ----- The backends agree ------------------------------------------------

  /** Both backends give the same documents, results and statuses for a valid
      batch; they report the same events exactly when no document the batch does
      not name holds a NaN. Only the SQLite one also refuses a batch, exactly when
      its events do not fit the outbox. */
  lemma BackendsAgree(cx: Context, store: Store, outbox: Outbox.Table, enabled: bool, database: string,
                      writes: seq<Write>,
                      partial: bool)
    requires ValidWrites(database, writes)
    ensures var names := NameSet(writes);
            var whole := Fold(cx, Open(store), writes, partial);
            var part := Fold(cx, Open(Restrict(store, names)), writes, partial);
            && (whole.Failure? ==> part == Failure(whole.error))
            && (whole.Success? ==>
                  && part == Success(RestrictBatch(whole.value, names))
                  && SameOutside(whole.value.store, store, names)
                  && RefusedWhenFull(outbox, Changes(store, whole.value.store, names), enabled)
                  && (NaNFreeOutside(store, names)
                      <==> Records(store, whole.value.store) == Changes(store, whole.value.store, names)))
  {
    hide Fold, ValidWrites, Records, Restrict, NaNFreeOutside, NameSet, RefusedWhenFull;
    ValidNamed(database, writes);
    FoldLocal(cx, Open(store), writes, partial, NameSet(writes));
    var whole := Fold(cx, Open(store), writes, partial);
    if whole.Success? {
      RecordsRestricted(store, whole.value.store, NameSet(writes));
      OutboxRefuses(outbox, Changes(store, whole.value.store, NameSet(writes)), enabled);
    }
  }

  lemma OutboxRefuses(outbox: Outbox.Table, records: seq<Record>, enabled: bool)
    ensures RefusedWhenFull(outbox, records, enabled)
  {
    hide Outbox.OutstandingIds, Outbox.AppendAll;
  }

  /** The outbox takes every record, or refuses them all when they exceed its limit. */
  predicate RefusedWhenFull(outbox: Outbox.Table, records: seq<Record>, enabled: bool) {
    var queued := Queued(outbox, records, enabled);
    && (queued.Failure? <==> enabled && |Outbox.OutstandingIds(outbox)| + |records| > Outbox.OUTBOX_LIMIT)
    && (queued.Failure? ==> queued.error == Unavailable)
  }

  /** The difference is real: an empty commit reports a change of every stored
      document that holds a NaN. */
  lemma UntouchedNaNReported(cx: Context, name: string, time: Time)
    ensures var document := Document(name, map["x" := DoubleValue(NaN)], Some(time), Some(time));
            var store: Store := map[name := document];
            && Fold(cx, Open(store), [], false) == Success(Open(store))
            && Records(store, store) == [DocumentChange(Some(document), Some(document))]
            && Changes(store, store, {}) == []
  {
    var document := Document(name, map["x" := DoubleValue(NaN)], Some(time), Some(time));
    var store: Store := map[name := document];
    assert SortedKeys(store.Keys) == [name] by {
      AscendingUnique(SortedKeys(store.Keys), [name]);
    }
    assert store.Keys - store.Keys == {};
    assert document.fields["x"] == DoubleValue(NaN);
    assert !SameFields(document.fields, document.fields) by {
      assert !Same(document.fields["x"], document.fields["x"]);
    }
    assert Over([name], store, store) == RecordFor(At(store, name), At(store, name)) + Over([name][1..], store, store);
    assert Restrict(store, {}) == map[];
  }
}
