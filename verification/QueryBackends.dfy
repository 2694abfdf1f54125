/** Reading for a query: every stored document in memory, the rows of one
    database in SQLite (src/firestore.rs, database_documents and query_docs). */
module QueryBackends {
  import opened Order
  import opened Documents
  import opened Resources
  import opened Events
  import opened Paths
  import opened Query
  import opened QueryPaging
  import opened Backends

  /** The documents under these names, in this order. */
  function Listed(store: Store, names: seq<string>): seq<Document> {
    if names == [] then []
    else (if names[0] in store then [store[names[0]]] else []) + Listed(store, names[1..])
  }

  /** The names whose row has this database in its column. */
  function InColumn(rows: map<string, DocumentRow>, names: seq<string>, database: string): seq<string> {
    if names == [] then []
    else (if names[0] in rows && rows[names[0]].database == database then [names[0]] else [])
         + InColumn(rows, names[1..], database)
  }

  /** What a query reads in memory. */
  function AllDocuments(store: Store): seq<Document> {
    Listed(store, SortedKeys(store.Keys))
  }

  /** What the index on the database column yields, in name order. */
  function DatabaseRows(rows: map<string, DocumentRow>, database: string): seq<Document> {
    Listed(Stored(rows), InColumn(rows, SortedKeys(rows.Keys), database))
  }

  /** The range of the in-memory store under a database's prefix. */
  function DatabaseRange(store: Store, database: string): seq<Document> {
    var prefix := database + "/documents/";
    Listed(store, TakeWhilePrefix(FromKey(SortedKeys(store.Keys), prefix), prefix))
  }

  lemma {:induction false} ColumnIsDatabase(rows: map<string, DocumentRow>, names: seq<string>, database: string)
    requires Labelled(rows) && forall n :: n in names ==> n in rows
    ensures OfDatabase(Listed(Stored(rows), names), database) == Listed(Stored(rows), InColumn(rows, names, database))
    ensures InColumn(rows, names, database) == InDatabase(names, database)
    decreases |names|
  {
    hide DatabaseOf, ValidDocumentName;
    if names != [] {
      var first, rest := names[0], Listed(Stored(rows), names[1..]);
      ColumnIsDatabase(rows, names[1..], database);
      assert first in names;
      assert ([Stored(rows)[first]] + rest)[1..] == rest;
      assert ([first] + InColumn(rows, names[1..], database))[1..] == InColumn(rows, names[1..], database);
      assert [] + InColumn(rows, names[1..], database) == InColumn(rows, names[1..], database);
    }
  }

  /** The same query over the same documents has the same answer, errors
      included, on both backends. */
  lemma QueriesAgree(rows: map<string, DocumentRow>, parent: string, query: StructuredQuery)
    requires Labelled(rows) && DatabaseOf(parent).Success?
    ensures Answer(AllDocuments(Stored(rows)), parent, query)
         == Answer(DatabaseRows(rows, DatabaseOf(parent).value), parent, query)
  {
    var names := SortedKeys(rows.Keys);
    assert Stored(rows).Keys == rows.Keys;
    ColumnIsDatabase(rows, names, DatabaseOf(parent).value);
    ScanOneDatabase(AllDocuments(Stored(rows)), parent, query);
    hide Answer, DatabaseOf, OfDatabase, Labelled, Listed, InColumn;
  }

  /** Listing one database reads the same documents in the same order on both
      backends. */
  lemma ListingsAgree(rows: map<string, DocumentRow>, database: string)
    requires Labelled(rows) && IsDatabase(Split(database))
    ensures DatabaseRange(Stored(rows), database) == DatabaseRows(rows, database)
  {
    var names := SortedKeys(rows.Keys);
    assert Stored(rows).Keys == rows.Keys;
    ColumnIsDatabase(rows, names, database);
    assert forall n :: n in names ==> ValidDocumentName(n);
    DatabaseScansAgree(names, database);
  }
}
