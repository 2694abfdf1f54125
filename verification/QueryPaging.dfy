/** The sorted answer of a query is unique, does not depend on how documents are
    stored or scanned, and can be paged by cursor or by offset alike. */
module QueryPaging {
  import opened Wrappers
  import opened Order
  import opened Values
  import opened ValueOrder
  import opened Documents
  import opened Resources
  import opened Query

  // ----- The order of documents --------------------------------------------

  lemma TowardLaws(sort: Sort, x: Ordering, y: Ordering, z: Ordering)
    requires Chain(x, y, z)
    ensures Chain(Toward(sort, x), Toward(sort, y), Toward(sort, z))
    ensures Toward(sort, x.Reverse()) == Toward(sort, x).Reverse()
    ensures Toward(sort, x) == Equal <==> x == Equal
  {
  }

  lemma {:induction false} DocsReverse(orders: seq<Sort>, a: Document, b: Document)
    ensures CompareDocs(orders, b, a) == CompareDocs(orders, a, b).Reverse()
    decreases |orders|
  {
    if orders != [] {
      var p := orders[0].path;
      CompareReverse(ValueAt(a, p), ValueAt(b, p));
      DocsReverse(orders[1..], a, b);
      hide Compare, ValueAt;
    }
  }

  lemma {:induction false} DocsChain(orders: seq<Sort>, a: Document, b: Document, c: Document)
    ensures Chain(CompareDocs(orders, a, b), CompareDocs(orders, b, c), CompareDocs(orders, a, c))
    decreases |orders|
  {
    if orders != [] {
      var p, rest := orders[0].path, orders[1..];
      var x, y, z := ValueAt(a, p), ValueAt(b, p), ValueAt(c, p);
      CompareChain(x, y, z);
      DocsChain(rest, a, b, c);
      TowardLaws(orders[0], Compare(x, y), Compare(y, z), Compare(x, z));
      ThenChain(Toward(orders[0], Compare(x, y)), Toward(orders[0], Compare(y, z)), Toward(orders[0], Compare(x, z)),
                CompareDocs(rest, a, b), CompareDocs(rest, b, c), CompareDocs(rest, a, c));
      hide Compare, ValueAt, Toward;
    }
  }

  /** Documents tie only when their names are the same. */
  lemma {:induction false} TiesShareName(orders: seq<Sort>, a: Document, b: Document)
    requires HasPath(orders, NAME) && CompareDocs(orders, a, b) == Equal
    ensures a.name == b.name
    decreases |orders|
  {
    if orders[0].path == NAME {
      assert ValueAt(a, NAME) == Reference(a.name) && ValueAt(b, NAME) == Reference(b.name);
      CompareStringEqual(a.name, b.name);
    } else {
      var i :| 0 <= i < |orders| && orders[i].path == NAME;
      assert orders[1..][i - 1].path == NAME;
      hide Compare, ValueAt;
      TiesShareName(orders[1..], a, b);
    }
  }

  predicate DistinctNames(docs: seq<Document>) {
    forall i, j :: 0 <= i < j < |docs| ==> docs[i].name != docs[j].name
  }

  predicate Precedes(orders: seq<Sort>, a: Document, b: Document) {
    CompareDocs(orders, a, b) == Less
  }

  predicate Sorted(orders: seq<Sort>, docs: seq<Document>) {
    forall i, j :: 0 <= i < j < |docs| ==> Precedes(orders, docs[i], docs[j])
  }

  predicate SameMembers(a: seq<Document>, b: seq<Document>) {
    (forall d :: d in a ==> d in b) && (forall d :: d in b ==> d in a)
  }

  lemma {:induction false} InsertMembers(orders: seq<Sort>, doc: Document, docs: seq<Document>)
    ensures forall d :: d in Insert(orders, doc, docs) <==> d == doc || d in docs
    decreases |docs|
  {
    hide CompareDocs;
    if docs != [] { InsertMembers(orders, doc, docs[1..]); }
  }

  lemma {:induction false} InsertSorted(orders: seq<Sort>, doc: Document, docs: seq<Document>)
    requires HasPath(orders, NAME) && Sorted(orders, docs)
    requires forall d :: d in docs ==> d.name != doc.name
    ensures Sorted(orders, Insert(orders, doc, docs))
    decreases |docs|
  {
    hide CompareDocs, HasPath;
    if docs != [] {
      var first, rest := docs[0], docs[1..];
      if CompareDocs(orders, doc, first) == Greater {
        InsertSorted(orders, doc, rest);
        InsertMembers(orders, doc, rest);
        DocsReverse(orders, doc, first);
        var tail := Insert(orders, doc, rest);
        forall j | 0 <= j < |tail| ensures Precedes(orders, first, tail[j]) {
          if tail[j] != doc {
            assert tail[j] in rest;
            var i :| 0 <= i < |rest| && rest[i] == tail[j];
            assert Precedes(orders, docs[0], docs[i + 1]);
          }
        }
      } else {
        if CompareDocs(orders, doc, first) == Equal { TiesShareName(orders, doc, first); }
        forall j | 0 <= j < |docs| ensures Precedes(orders, doc, docs[j]) {
          if j > 0 {
            assert Precedes(orders, docs[0], docs[j]);
            DocsChain(orders, doc, first, docs[j]);
          }
        }
      }
    }
  }

  lemma {:induction false} SortMembers(orders: seq<Sort>, docs: seq<Document>)
    ensures forall d :: d in SortDocs(orders, docs) <==> d in docs
    decreases |docs|
  {
    if docs != [] {
      SortMembers(orders, docs[1..]);
      InsertMembers(orders, docs[0], SortDocs(orders, docs[1..]));
    }
  }

  /** Sorting documents of distinct names gives a strictly ascending list. */
  lemma {:induction false} SortSorted(orders: seq<Sort>, docs: seq<Document>)
    requires HasPath(orders, NAME) && DistinctNames(docs)
    ensures Sorted(orders, SortDocs(orders, docs))
    decreases |docs|
  {
    if docs != [] {
      var rest := docs[1..];
      SortSorted(orders, rest);
      SortMembers(orders, rest);
      forall d | d in rest ensures d.name != docs[0].name {
        var i :| 0 <= i < |rest| && rest[i] == d;
        assert docs[i + 1] == d;
      }
      InsertSorted(orders, docs[0], SortDocs(orders, rest));
    }
  }

  /** Two strictly ascending lists with the same members are the same list. */
  lemma {:induction false} SortedUnique(orders: seq<Sort>, a: seq<Document>, b: seq<Document>)
    requires Sorted(orders, a) && Sorted(orders, b) && SameMembers(a, b)
    ensures a == b
    decreases |a|
  {
    hide CompareDocs;
    assert a == [] || a[0] in b;
    assert b == [] || b[0] in a;
    if a != [] && b != [] {
      HeadsEqual(orders, a, b);
      TailMembers(orders, a, b);
      TailMembers(orders, b, a);
      SortedUnique(orders, a[1..], b[1..]);
      assert a == [a[0]] + a[1..] && b == [b[0]] + b[1..];
    }
  }

  lemma HeadsEqual(orders: seq<Sort>, a: seq<Document>, b: seq<Document>)
    requires Sorted(orders, a) && Sorted(orders, b) && SameMembers(a, b) && a != [] && b != []
    ensures a[0] == b[0]
  {
    hide CompareDocs;
    assert a[0] in b && b[0] in a;
    var i :| 0 <= i < |a| && a[i] == b[0];
    var j :| 0 <= j < |b| && b[j] == a[0];
    DocsReverse(orders, a[0], b[0]);
    assert i > 0 ==> Precedes(orders, a[0], a[i]);
    assert j > 0 ==> Precedes(orders, b[0], b[j]);
  }

  lemma TailMembers(orders: seq<Sort>, a: seq<Document>, b: seq<Document>)
    requires Sorted(orders, a) && SameMembers(a, b) && a != [] && b != [] && a[0] == b[0]
    ensures forall d :: d in a[1..] ==> d in b[1..]
  {
    hide CompareDocs;
    forall d | d in a[1..] ensures d in b[1..] {
      var i :| 0 <= i < |a[1..]| && a[1..][i] == d;
      assert Precedes(orders, a[0], a[i + 1]);
      DocsReverse(orders, a[0], d);
      assert d != a[0];
      assert d in b;
      var j :| 0 <= j < |b| && b[j] == d;
      assert b[1..][j - 1] == d;
    }
  }

  // ----- Independence of the scan ------------------------------------------

  predicate AllDecided(docs: seq<Document>, parent: string, selector: Selector, filter: Option<Filter>) {
    forall d :: d in docs ==> Verdict(d, parent, selector, filter).Success?
  }

  lemma TailDistinct(docs: seq<Document>)
    requires docs != [] && DistinctNames(docs)
    ensures DistinctNames(docs[1..]) && forall d :: d in docs[1..] ==> d.name != docs[0].name
  {
    var rest := docs[1..];
    assert forall i :: 0 <= i < |rest| ==> rest[i] == docs[i + 1];
    forall d | d in rest ensures d.name != docs[0].name {
      var i :| 0 <= i < |rest| && rest[i] == d;
      assert docs[i + 1] == d;
    }
  }

  lemma {:induction false} MatchingMembers(docs: seq<Document>, parent: string, selector: Selector,
                                           filter: Option<Filter>)
    ensures var m := Matching(docs, parent, selector, filter);
            && (m.Success? <==> AllDecided(docs, parent, selector, filter))
            && (m.Failure? ==> m.error == InvalidArgument)
            && (m.Success? ==>
                  forall d :: d in m.value <==> d in docs && Verdict(d, parent, selector, filter) == Success(true))
    decreases |docs|
  {
    hide Verdict;
    if docs != [] {
      MatchingMembers(docs[1..], parent, selector, filter);
      assert docs == [docs[0]] + docs[1..];
      assert forall d :: d in docs <==> d == docs[0] || d in docs[1..];
    }
  }

  lemma {:induction false} MatchingDistinct(docs: seq<Document>, parent: string, selector: Selector,
                                            filter: Option<Filter>)
    requires DistinctNames(docs)
    ensures var m := Matching(docs, parent, selector, filter); m.Success? ==> DistinctNames(m.value)
    decreases |docs|
  {
    hide Verdict;
    if docs != [] {
      TailDistinct(docs);
      MatchingDistinct(docs[1..], parent, selector, filter);
      MatchingMembers(docs[1..], parent, selector, filter);
      var m := Matching(docs[1..], parent, selector, filter);
      if m.Success? {
        forall i | 0 <= i < |m.value| ensures m.value[i].name != docs[0].name { assert m.value[i] in docs[1..]; }
      }
    }
  }

  lemma {:induction false} SortableMembers(orders: seq<Sort>, docs: seq<Document>)
    ensures forall d :: d in KeepSortable(orders, docs) <==> d in docs && Sortable(orders, d)
    ensures DistinctNames(docs) ==> DistinctNames(KeepSortable(orders, docs))
    decreases |docs|
  {
    hide Sortable;
    if docs != [] {
      if DistinctNames(docs) { TailDistinct(docs); }
      SortableMembers(orders, docs[1..]);
      var kept := KeepSortable(orders, docs[1..]);
      assert forall d :: d in docs <==> d == docs[0] || d in docs[1..];
      assert forall i :: 0 <= i < |kept| ==> kept[i] in docs[1..];
    }
  }

  lemma SortedSame(orders: seq<Sort>, a: seq<Document>, b: seq<Document>)
    requires HasPath(orders, NAME) && DistinctNames(a) && DistinctNames(b) && SameMembers(a, b)
    ensures SortDocs(orders, KeepSortable(orders, a)) == SortDocs(orders, KeepSortable(orders, b))
  {
    SortableMembers(orders, a);
    SortableMembers(orders, b);
    var x, y := KeepSortable(orders, a), KeepSortable(orders, b);
    SortSorted(orders, x);
    SortSorted(orders, y);
    SortMembers(orders, x);
    SortMembers(orders, y);
    hide SortDocs, KeepSortable, Sortable, HasPath;
    SortedUnique(orders, SortDocs(orders, x), SortDocs(orders, y));
  }

  /** The answer, errors included, depends only on which documents there are. */
  lemma AnswerUnique(a: seq<Document>, b: seq<Document>, parent: string, query: StructuredQuery)
    requires DistinctNames(a) && DistinctNames(b) && SameMembers(a, b)
    ensures Answer(a, parent, query) == Answer(b, parent, query)
  {
    hide Matching, Verdict, SortDocs, KeepSortable, Within, DatabaseOf, Slice, ProjectAll, DistinctNames, TooLong,
      Orders, HasPath;
    if |query.selectors| == 1 {
      var s := query.selectors[0];
      MatchingMembers(a, parent, s, query.filter);
      MatchingMembers(b, parent, s, query.filter);
      MatchingDistinct(a, parent, s, query.filter);
      MatchingDistinct(b, parent, s, query.filter);
      SameDecided(a, b, parent, s, query.filter);
      var x, y := Matching(a, parent, s, query.filter), Matching(b, parent, s, query.filter);
      if x.Success? && y.Success? && Orders(query).Success? {
        OrdersHaveName(query);
        SortedSame(Orders(query).value, x.value, y.value);
      }
    }
  }

  lemma SameDecided(a: seq<Document>, b: seq<Document>, parent: string, selector: Selector, filter: Option<Filter>)
    requires SameMembers(a, b)
    ensures AllDecided(a, parent, selector, filter) == AllDecided(b, parent, selector, filter)
  {
    hide Verdict;
  }

  lemma OrdersHaveName(query: StructuredQuery)
    requires Orders(query).Success?
    ensures HasPath(Orders(query).value, NAME)
  {
    hide AddFields, HasPath, ExplicitOrders;
  }

  // ----- Scanning one database ---------------------------------------------

  function OfDatabase(docs: seq<Document>, database: string): seq<Document>
    decreases |docs|
  {
    if docs == [] then []
    else (if DatabaseOf(docs[0].name) == Success(database) then [docs[0]] else []) + OfDatabase(docs[1..], database)
  }

  /** Reading only the database of the query's parent gives the same answer as
      reading every document. */
  lemma ScanOneDatabase(docs: seq<Document>, parent: string, query: StructuredQuery)
    ensures var database := DatabaseOf(parent);
            database.Success? ==> Answer(docs, parent, query) == Answer(OfDatabase(docs, database.value), parent, query)
  {
    if DatabaseOf(parent).Success? && |query.selectors| == 1 {
      MatchingOfDatabase(docs, parent, query.selectors[0], query.filter, DatabaseOf(parent).value);
      hide Matching, OfDatabase, DatabaseOf, Orders, Finish;
    }
  }

  lemma {:induction false} MatchingOfDatabase(docs: seq<Document>, parent: string, s: Selector,
                                              filter: Option<Filter>, database: string)
    requires DatabaseOf(parent) == Success(database)
    ensures Matching(docs, parent, s, filter) == Matching(OfDatabase(docs, database), parent, s, filter)
    decreases |docs|
  {
    if docs != [] {
      var name := docs[0].name;
      if MatchesCollection(name, parent, s.collection, s.descendants) {
        MatchStaysInDatabase(name, parent, s.collection, s.descendants, database);
      }
      MatchingOfDatabase(docs[1..], parent, s, filter, database);
      hide DatabaseOf, MatchesCollection, FilterMatches;
      var kept := OfDatabase(docs[1..], database);
      assert ([docs[0]] + kept)[1..] == kept;
      assert [] + kept == kept;
      assert Matching(docs[1..], parent, s, filter).Success? ==>
               [] + Matching(docs[1..], parent, s, filter).value == Matching(docs[1..], parent, s, filter).value;
    }
  }

  // ----- Cursors -----------------------------------------------------------

  function OrderValues(orders: seq<Sort>, doc: Document): (values: seq<Value>)
    ensures |values| == |orders|
    decreases |orders|
  {
    if orders == [] then [] else [ValueAt(doc, orders[0].path)] + OrderValues(orders[1..], doc)
  }

  /** A cursor holding every order value of a document stands for the document. */
  lemma {:induction false} FullCursor(orders: seq<Sort>, x: Document, d: Document)
    ensures CompareCursor(orders, x, OrderValues(orders, d)) == CompareDocs(orders, x, d)
    decreases |orders|
  {
    if orders != [] {
      FullCursor(orders[1..], x, d);
      assert OrderValues(orders, d)[1..] == OrderValues(orders[1..], d);
    }
  }

  /** Later documents stand later against any cursor. */
  lemma {:induction false} CursorMonotone(orders: seq<Sort>, d: Document, x: Document, values: seq<Value>)
    requires CompareDocs(orders, d, x) != Greater
    ensures CompareCursor(orders, d, values) == Greater ==> CompareCursor(orders, x, values) == Greater
    ensures CompareCursor(orders, d, values) == Equal ==> CompareCursor(orders, x, values) != Less
    decreases |orders|
  {
    if orders != [] && values != [] {
      var p := orders[0].path;
      var dv, xv := ValueAt(d, p), ValueAt(x, p);
      CompareReverse(dv, xv);
      CompareChain(xv, dv, values[0]);
      TowardLaws(orders[0], Compare(xv, dv), Compare(dv, values[0]), Compare(xv, values[0]));
      TowardLaws(orders[0], Compare(dv, xv), Compare(dv, xv), Compare(dv, xv));
      hide Compare, ValueAt, Toward;
      if CompareDocs(orders[1..], d, x) != Greater {
        CursorMonotone(orders[1..], d, x, values[1..]);
      }
    }
  }

  function AfterDocument(orders: seq<Sort>, d: Document): Option<Cursor> {
    Some(Cursor(OrderValues(orders, d), false))
  }

  lemma AfterDocumentExact(orders: seq<Sort>, d: Document, x: Document, start: Option<Cursor>)
    requires AfterStart(orders, d, start)
    ensures AfterStart(orders, x, AfterDocument(orders, d)) <==> Precedes(orders, d, x)
    ensures Precedes(orders, d, x) ==> AfterStart(orders, x, start)
  {
    FullCursor(orders, x, d);
    DocsReverse(orders, d, x);
    if start.Some? && Precedes(orders, d, x) { CursorMonotone(orders, d, x, start.value.values); }
    hide CompareCursor, CompareDocs, OrderValues;
  }

  lemma {:induction false} WithinMembers(orders: seq<Sort>, docs: seq<Document>, start: Option<Cursor>,
                                         end: Option<Cursor>)
    ensures forall d :: d in Within(orders, docs, start, end)
                   <==> d in docs && AfterStart(orders, d, start) && BeforeEnd(orders, d, end)
    decreases |docs|
  {
    hide AfterStart, BeforeEnd;
    if docs != [] {
      WithinMembers(orders, docs[1..], start, end);
      assert forall d :: d in docs <==> d == docs[0] || d in docs[1..];
    }
  }

  lemma {:induction false} WithinSorted(orders: seq<Sort>, docs: seq<Document>, start: Option<Cursor>,
                                        end: Option<Cursor>)
    requires Sorted(orders, docs)
    ensures Sorted(orders, Within(orders, docs, start, end))
    decreases |docs|
  {
    hide AfterStart, BeforeEnd, Precedes;
    if docs != [] {
      var rest := docs[1..];
      assert Sorted(orders, rest) by {
        forall a, b | 0 <= a < b < |rest| ensures Precedes(orders, rest[a], rest[b]) {
          assert Precedes(orders, docs[a + 1], docs[b + 1]);
        }
      }
      WithinSorted(orders, rest, start, end);
      WithinMembers(orders, rest, start, end);
      var tail := Within(orders, rest, start, end);
      forall j | 0 <= j < |tail| ensures Precedes(orders, docs[0], tail[j]) {
        assert tail[j] in rest;
        var i :| 0 <= i < |rest| && rest[i] == tail[j];
        assert Precedes(orders, docs[0], docs[i + 1]);
      }
    }
  }

  /** In a sorted list the elements after an index are those that sort after it. */
  lemma LaterElements(orders: seq<Sort>, all: seq<Document>, k: nat, x: Document)
    requires Sorted(orders, all) && k < |all|
    ensures x in all[k + 1..] <==> x in all && Precedes(orders, all[k], x)
  {
    hide CompareDocs;
    if x in all {
      var i :| 0 <= i < |all| && all[i] == x;
      DocsReverse(orders, all[k], x);
      DocsReverse(orders, x, x);
      assert i < k ==> Precedes(orders, all[i], all[k]);
      assert i > k ==> all[k + 1..][i - k - 1] == x;
      var later := all[k + 1..];
      forall j | 0 <= j < |later| ensures Precedes(orders, all[k], later[j]) {
        assert Precedes(orders, all[k], all[k + 1 + j]);
      }
    }
  }

  /** Restarting after the k-th document of an answer yields exactly the rest of it. */
  lemma CursorContinues(orders: seq<Sort>, docs: seq<Document>, start: Option<Cursor>, end: Option<Cursor>, k: nat)
    requires Sorted(orders, docs) && k < |Within(orders, docs, start, end)|
    ensures var all := Within(orders, docs, start, end);
            Within(orders, docs, AfterDocument(orders, all[k]), end) == all[k + 1..]
  {
    var all := Within(orders, docs, start, end);
    var d := all[k];
    var left, right := Within(orders, docs, AfterDocument(orders, d), end), all[k + 1..];
    WithinMembers(orders, docs, start, end);
    WithinMembers(orders, docs, AfterDocument(orders, d), end);
    WithinSorted(orders, docs, start, end);
    WithinSorted(orders, docs, AfterDocument(orders, d), end);
    hide AfterStart, BeforeEnd, Precedes, AfterDocument, Within;
    assert d in all;
    assert SameMembers(left, right) by {
      forall x ensures x in left <==> x in right {
        AfterDocumentExact(orders, d, x, start);
        LaterElements(orders, all, k, x);
      }
    }
    assert Sorted(orders, right) by {
      forall a, b | 0 <= a < b < |right| ensures Precedes(orders, right[a], right[b]) {
        assert Precedes(orders, all[k + 1 + a], all[k + 1 + b]);
      }
    }
    SortedUnique(orders, left, right);
  }

  lemma PageShift<T>(all: seq<T>, k: nat, offset: nat, limit: nat)
    requires k <= |all|
    ensures Slice(all[k..], offset, limit) == Slice(all, k + offset, limit)
  {
    if k + offset <= |all| { assert all[k..][offset..] == all[k + offset..]; }
  }

  function From(query: StructuredQuery, offset: int, limit: int): StructuredQuery {
    query.(offset := offset, limit := Some(limit))
  }

  lemma WindowContinues(orders: seq<Sort>, docs: seq<Document>, query: StructuredQuery, k: nat)
    requires HasPath(orders, NAME) && DistinctNames(docs) && k < |Window(orders, docs, query)|
    ensures Window(orders, docs, query.(startAt := AfterDocument(orders, Window(orders, docs, query)[k])))
         == Window(orders, docs, query)[k + 1..]
  {
    hide SortDocs, KeepSortable, DistinctNames, HasPath, CompareDocs, Within, Sorted, Sortable, AfterDocument;
    SortableMembers(orders, docs);
    SortSorted(orders, KeepSortable(orders, docs));
    CursorContinues(orders, SortDocs(orders, KeepSortable(orders, docs)), query.startAt, query.endAt, k);
  }

  lemma FinishFrom(orders: seq<Sort>, docs: seq<Document>, query: StructuredQuery, offset: nat, limit: nat)
    ensures Finish(orders, docs, From(query, offset, limit))
         == if TooLong(query.startAt, orders) || TooLong(query.endAt, orders) then Failure(InvalidArgument)
            else
              var page := Slice(Window(orders, docs, query), offset, limit);
              if query.select.Some? then ProjectAll(page, query.select.value) else Success(page)
  {
    hide TooLong, Slice, ProjectAll, Within, SortDocs, KeepSortable;
  }

  lemma FinishContinues(docs: seq<Document>, query: StructuredQuery, orders: seq<Sort>, k: nat, offset: nat, limit: nat)
    requires HasPath(orders, NAME) && DistinctNames(docs)
    requires k < |Window(orders, docs, query)|
    ensures !TooLong(query.startAt, orders) ==>
              Finish(orders, docs, From(query.(startAt := AfterDocument(orders, Window(orders, docs, query)[k])),
                                        offset, limit))
              == Finish(orders, docs, From(query, k + 1 + offset, limit))
  {
    hide Finish, From, Window, DistinctNames, HasPath, TooLong, Slice, ProjectAll, AfterDocument;
    var all := Window(orders, docs, query);
    var later := query.(startAt := AfterDocument(orders, all[k]));
    WindowContinues(orders, docs, query, k);
    FinishFrom(orders, docs, later, offset, limit);
    FinishFrom(orders, docs, query, k + 1 + offset, limit);
    PageShift(all, k + 1, offset, limit);
    AfterDocumentShort(orders, all[k]);
  }

  lemma AfterDocumentShort(orders: seq<Sort>, d: Document)
    ensures !TooLong(AfterDocument(orders, d), orders)
  {
  }

  lemma AnswerFinishes(docs: seq<Document>, parent: string, query: StructuredQuery, start: Option<Cursor>,
                       offset: nat, limit: nat)
    requires |query.selectors| == 1 && query.selectors[0].collection != "" && DatabaseOf(parent).Success?
    requires Matching(docs, parent, query.selectors[0], query.filter).Success? && Orders(query).Success?
    ensures Answer(docs, parent, From(query.(startAt := start), offset, limit))
         == Finish(Orders(query).value, Matching(docs, parent, query.selectors[0], query.filter).value,
                   From(query.(startAt := start), offset, limit))
  {
    hide Matching, Finish, DatabaseOf, ExplicitOrders, AddFields, AddName;
  }

  lemma AnswerNeeds(docs: seq<Document>, parent: string, query: StructuredQuery, offset: nat, limit: nat)
    requires Answer(docs, parent, From(query, offset, limit)).Success?
    ensures |query.selectors| == 1 && query.selectors[0].collection != "" && DatabaseOf(parent).Success?
    ensures Matching(docs, parent, query.selectors[0], query.filter).Success? && Orders(query).Success?
    ensures !TooLong(query.startAt, Orders(query).value) && !TooLong(query.endAt, Orders(query).value)
  {
    hide Matching, DatabaseOf, ExplicitOrders, AddFields, AddName, Slice, ProjectAll, Window;
  }

  /** Following a cursor is advancing the offset: a query restarted after the last
      document of a page gives, errors included and whatever it selects, the answer
      of the query with that page skipped. */
  lemma CursorIsOffset(docs: seq<Document>, parent: string, query: StructuredQuery, offset: nat, limit: nat,
                       page: seq<Document>,
                       moreOffset: nat, moreLimit: nat)
    requires DistinctNames(docs) && page != []
    requires Answer(docs, parent, From(query.(select := None), offset, limit)) == Success(page)
    ensures Orders(query).Success?
    ensures Answer(docs, parent, From(query.(startAt := AfterDocument(Orders(query).value, page[|page| - 1])),
                                      moreOffset, moreLimit))
         == Answer(docs, parent, From(query, offset + |page| + moreOffset, moreLimit))
  {
    hide Matching, Orders, DatabaseOf, Finish, Answer, Window, DistinctNames, HasPath, TooLong, ProjectAll,
      AfterDocument;
    var plain := query.(select := None);
    AnswerNeeds(docs, parent, plain, offset, limit);
    SameOrders(query, plain);
    var orders := Orders(query).value;
    var matching := Matching(docs, parent, query.selectors[0], query.filter).value;
    OrdersHaveName(query);
    MatchingDistinct(docs, parent, query.selectors[0], query.filter);
    AnswerFinishes(docs, parent, plain, plain.startAt, offset, limit);
    FinishFrom(orders, matching, plain, offset, limit);
    SameWindow(orders, matching, query, plain);
    var all := Window(orders, matching, query);
    var k := offset + |page| - 1;
    assert page == Slice(all, offset, limit);
    assert k < |all| && page[|page| - 1] == all[k];
    FinishContinues(matching, query, orders, k, moreOffset, moreLimit);
    AnswerFinishes(docs, parent, query, AfterDocument(orders, all[k]), moreOffset, moreLimit);
    AnswerFinishes(docs, parent, query, query.startAt, k + 1 + moreOffset, moreLimit);
  }

  lemma SameOrders(a: StructuredQuery, b: StructuredQuery)
    requires a.orderBy == b.orderBy && a.filter == b.filter
    ensures Orders(a) == Orders(b)
  {
  }

  lemma SameWindow(orders: seq<Sort>, docs: seq<Document>, a: StructuredQuery, b: StructuredQuery)
    requires a.startAt == b.startAt && a.endAt == b.endAt
    ensures Window(orders, docs, a) == Window(orders, docs, b)
  {
  }
}
