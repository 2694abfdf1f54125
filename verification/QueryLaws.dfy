/** What filters mean, and exactly which documents an answer is drawn from. */
module QueryLaws {
  import opened Wrappers
  import opened Order
  import opened Values
  import opened ValueOrder
  import opened FieldPaths
  import opened Documents
  import opened Resources
  import opened Query
  import opened QueryPaging
  import opened Projections

  // ----- Membership as composition -----------------------------------------

  /** One comparison of the field for each value. */
  function Each(path: string, op: int, values: seq<Value>): (filters: seq<Filter>)
    ensures |filters| == |values|
    ensures forall i :: 0 <= i < |values| ==> filters[i] == FieldFilter(Some(path), op, Some(values[i]))
  {
    seq(|values|, i requires 0 <= i < |values| => FieldFilter(Some(path), op, Some(values[i])))
  }

  /** Equality, inequality or containment of the value in the field. */
  predicate Compares(op: int, field: Value, value: Value)
    requires 5 <= op <= 7
  {
    if op == 7 then Contains(field, value) else (Compare(value, field) == Equal) == (op == 5)
  }

  lemma OneComparison(doc: Document, path: string, op: int, value: Value)
    requires 5 <= op <= 7
    ensures var a := FieldValue(doc, path);
            FilterMatches(doc, FieldFilter(Some(path), op, Some(value)))
            == Success(a.Some? && Compares(op, a.value, value))
  {
    var a := FieldValue(doc, path);
    if a.Some? { CompareReverse(a.value, value); }
    hide Compare, Contains, FieldValue, Rank;
  }

  lemma AllComparisons(doc: Document, path: string, op: int, values: seq<Value>)
    requires 5 <= op <= 7
    ensures var a, filters := FieldValue(doc, path), Each(path, op, values);
            forall i :: 0 <= i < |values| ==>
              FilterMatches(doc, filters[i])
              == Success(a.Some? && Compares(op, a.value, values[i]))
  {
    hide Compares, FieldValue, FilterMatches;
    forall i | 0 <= i < |values|
      ensures var a := FieldValue(doc, path);
              FilterMatches(doc, Each(path, op, values)[i])
              == Success(a.Some? && Compares(op, a.value, values[i]))
    {
      OneComparison(doc, path, op, values[i]);
    }
  }

  /** IN is the disjunction of the equalities with the listed values. */
  lemma InIsDisjunction(doc: Document, path: string, values: seq<Value>)
    ensures FilterMatches(doc, FieldFilter(Some(path), 8, Some(Array(values))))
         == FilterMatches(doc, Composite(2, Each(path, 5, values)))
  {
    AllComparisons(doc, path, 5, values);
    hide Compare, FieldValue, Each;
  }

  /** ARRAY_CONTAINS_ANY is the disjunction of the single containments. */
  lemma ContainsAnyIsDisjunction(doc: Document, path: string, values: seq<Value>)
    ensures FilterMatches(doc, FieldFilter(Some(path), 9, Some(Array(values))))
         == FilterMatches(doc, Composite(2, Each(path, 7, values)))
  {
    AllComparisons(doc, path, 7, values);
    var a := FieldValue(doc, path);
    if a.Some? && a.value.Array? {
      forall i, j | 0 <= i < |a.value.values| && 0 <= j < |values|
        ensures Compare(values[j], a.value.values[i]) == Compare(a.value.values[i], values[j]).Reverse()
      {
        CompareReverse(a.value.values[i], values[j]);
      }
    }
    hide Compare, FieldValue, Each;
  }

  /** NOT_IN is the conjunction of the inequalities with a field that is not
      null, but accepts nothing once a null is listed. */
  lemma NotInIsConjunction(doc: Document, path: string, values: seq<Value>)
    ensures FilterMatches(doc, FieldFilter(Some(path), 10, Some(Array(values))))
         == if Contains(Array(values), Null) then Success(false)
            else FilterMatches(doc, Composite(1, [UnaryFilter(Some(path), 5)] + Each(path, 6, values)))
  {
    hide Compare, FieldValue, Each, Rank, FilterMatches;
    AllComparisons(doc, path, 6, values);
    NotNull(doc, path);
    AllOf(doc, UnaryFilter(Some(path), 5), Each(path, 6, values));
    OneMembership(doc, path, values);
  }

  lemma NotNull(doc: Document, path: string)
    ensures var a := FieldValue(doc, path);
            FilterMatches(doc, UnaryFilter(Some(path), 5)) == Success(a.Some? && Rank(a.value) != 0)
  {
    hide FieldValue, Rank;
  }

  lemma OneMembership(doc: Document, path: string, values: seq<Value>)
    ensures var a := FieldValue(doc, path);
            FilterMatches(doc, FieldFilter(Some(path), 10, Some(Array(values))))
            == Success(a.Some? && Rank(a.value) != 0 && !Contains(Array(values), Null)
                       && !Contains(Array(values), a.value))
  {
    hide FieldValue, Rank, Contains;
  }

  /** A conjunction of filters none of which fails. */
  lemma AllOf(doc: Document, first: Filter, rest: seq<Filter>)
    requires FilterMatches(doc, first).Success?
    requires forall i :: 0 <= i < |rest| ==> FilterMatches(doc, rest[i]).Success?
    ensures FilterMatches(doc, Composite(1, [first] + rest))
         == Success(FilterMatches(doc, first) == Success(true)
                    && forall i :: 0 <= i < |rest| ==> FilterMatches(doc, rest[i]) == Success(true))
  {
    var filters := [first] + rest;
    assert filters[0] == first;
    assert forall i :: 0 <= i < |rest| ==> filters[i + 1] == rest[i];
    assert forall i :: 1 <= i < |filters| ==> filters[i] == rest[i - 1];
    hide FieldValue, FieldOperator, UnaryOperator;
  }

  // ----- Which documents an answer keeps -----------------------------------

  /** Every field the query names in its order is there. */
  predicate HasOrdered(query: StructuredQuery, doc: Document) {
    forall i :: 0 <= i < |query.orderBy| && query.orderBy[i].field.Some? ==>
      FieldValue(doc, query.orderBy[i].field.value).Some?
  }

  /** Every field the filter compares by inequality is there. */
  predicate HasInequalities(filter: Option<Filter>, doc: Document) {
    filter.Some? ==> forall p :: p in InequalityFields(filter.value) ==> FieldValue(doc, p).Some?
  }

  lemma SortableByPath(orders: seq<Sort>, doc: Document)
    ensures Sortable(orders, doc) <==> forall p :: HasPath(orders, p) ==> FieldValue(doc, p).Some?
  {
    hide FieldValue;
    if forall p :: HasPath(orders, p) ==> FieldValue(doc, p).Some? {
      forall i | 0 <= i < |orders|
        ensures FieldValue(doc, orders[i].path).Some?
      {
        assert HasPath(orders, orders[i].path);
      }
    }
  }

  lemma ExplicitPaths(orderBy: seq<OrderBy>, p: string)
    requires ExplicitOrders(orderBy).Success?
    ensures HasPath(ExplicitOrders(orderBy).value, p) <==> exists i :: 0 <= i < |orderBy| && orderBy[i].field == Some(p)
  {
    var orders := ExplicitOrders(orderBy).value;
    if HasPath(orders, p) {
      var i :| 0 <= i < |orders| && orders[i].path == p;
      assert orderBy[i].field == Some(p);
    }
    if i :| 0 <= i < |orderBy| && orderBy[i].field == Some(p) { assert orders[i].path == p; }
  }

  /** The fields a query sorts by: the named ones, those compared by inequality,
      and the document name. */
  lemma OrdersExact(query: StructuredQuery, p: string)
    requires Orders(query).Success?
    ensures HasPath(Orders(query).value, p)
       <==> || p == NAME
            || (exists i :: 0 <= i < |query.orderBy| && query.orderBy[i].field == Some(p))
            || (query.filter.Some? && p in InequalityFields(query.filter.value))
  {
    hide InequalityFields, HasPath, ExplicitOrders, AddFields, SortedKeys;
    var explicit := ExplicitOrders(query.orderBy).value;
    var fields := if query.filter.Some? then InequalityFields(query.filter.value) else {};
    ExplicitPaths(query.orderBy, p);
    AddFieldsExact(explicit, SortedKeys(fields), LastDescending(explicit));
    var added := AddFields(explicit, SortedKeys(fields), LastDescending(explicit));
    HasPathAppend(added, Sort(NAME, LastDescending(added)), p);
    assert p in SortedKeys(fields) <==> p in fields;
  }

  /** A document can be put in order exactly when it has every field the query
      names in its order and every field its filter compares by inequality. */
  lemma SortableExact(query: StructuredQuery, doc: Document)
    requires Orders(query).Success?
    ensures Sortable(Orders(query).value, doc) <==> HasOrdered(query, doc) && HasInequalities(query.filter, doc)
  {
    hide InequalityFields, HasPath, Orders, Sortable;
    var orders := Orders(query).value;
    SortableByPath(orders, doc);
    forall p ensures HasPath(orders, p)
       <==> || p == NAME
            || (exists i :: 0 <= i < |query.orderBy| && query.orderBy[i].field == Some(p))
            || (query.filter.Some? && p in InequalityFields(query.filter.value))
    {
      OrdersExact(query, p);
    }
    if Sortable(orders, doc) {
      forall i | 0 <= i < |query.orderBy| && query.orderBy[i].field.Some?
        ensures FieldValue(doc, query.orderBy[i].field.value).Some?
      {
        assert HasPath(orders, query.orderBy[i].field.value);
      }
    }
  }

  /** What the query asks of a document, apart from its place between the cursors. */
  predicate Accepted(docs: seq<Document>, parent: string, query: StructuredQuery, d: Document)
    requires |query.selectors| == 1
  {
    d in docs && Verdict(d, parent, query.selectors[0], query.filter) == Success(true)
  }

  /** What AnswerExact says of the list an answer is cut from. */
  ghost predicate PagesThrough(all: seq<Document>, docs: seq<Document>, parent: string, query: StructuredQuery)
    requires |query.selectors| == 1 && Orders(query).Success?
  {
    var orders := Orders(query).value;
    && Sorted(orders, all)
    && (forall d :: d in all <==>
          && Accepted(docs, parent, query, d) && HasOrdered(query, d) && HasInequalities(query.filter, d)
          && AfterStart(orders, d, query.startAt) && BeforeEnd(orders, d, query.endAt))
  }

  function LimitOf(query: StructuredQuery): int {
    if query.limit.Some? then query.limit.value else MAX_I32
  }

  /** An answer is a page of one list, projected if the query selects fields: in
      strict order, exactly the accepted documents between the cursors that have
      every field they are sorted by. */
  lemma AnswerExact(docs: seq<Document>, parent: string, query: StructuredQuery) returns (all: seq<Document>)
    requires DistinctNames(docs) && Answer(docs, parent, query).Success?
    ensures |query.selectors| == 1 && Orders(query).Success? && query.offset >= 0 && LimitOf(query) >= 0
    ensures PagesThrough(all, docs, parent, query)
    ensures Answer(docs, parent, query) == Selected(Slice(all, query.offset, LimitOf(query)), query.select)
  {
    hide Matching, Orders, Verdict, DatabaseOf, SortDocs, KeepSortable, Within, TooLong, Slice, ProjectAll, Sorted,
      PagesThrough;
    var s := query.selectors[0];
    var orders := Orders(query).value;
    var matching := Matching(docs, parent, s, query.filter).value;
    MatchingMembers(docs, parent, s, query.filter);
    MatchingDistinct(docs, parent, s, query.filter);
    all := Window(orders, matching, query);
    OrdersHaveName(query);
    WindowSorted(orders, matching, query);
    forall d ensures d in all <==>
          && d in matching && HasOrdered(query, d) && HasInequalities(query.filter, d)
          && AfterStart(orders, d, query.startAt) && BeforeEnd(orders, d, query.endAt)
    {
      WindowMember(orders, matching, query, d);
      SortableExact(query, d);
    }
    ListedExactly(all, docs, parent, query, matching);
  }

  lemma ListedExactly(all: seq<Document>, docs: seq<Document>, parent: string, query: StructuredQuery,
                      matching: seq<Document>)
    requires |query.selectors| == 1 && Orders(query).Success? && Sorted(Orders(query).value, all)
    requires forall d :: d in matching <==> Accepted(docs, parent, query, d)
    requires forall d :: d in all <==>
               && d in matching && HasOrdered(query, d) && HasInequalities(query.filter, d)
               && AfterStart(Orders(query).value, d, query.startAt) && BeforeEnd(Orders(query).value, d, query.endAt)
    ensures PagesThrough(all, docs, parent, query)
  {
    hide HasOrdered, HasInequalities, AfterStart, BeforeEnd, Accepted, Orders, Sorted;
  }

  lemma WindowSorted(orders: seq<Sort>, docs: seq<Document>, query: StructuredQuery)
    requires HasPath(orders, NAME) && DistinctNames(docs)
    ensures Sorted(orders, Window(orders, docs, query))
  {
    hide SortDocs, KeepSortable, Within, Sorted, HasPath, DistinctNames, Sortable;
    SortableMembers(orders, docs);
    SortSorted(orders, KeepSortable(orders, docs));
    WithinSorted(orders, SortDocs(orders, KeepSortable(orders, docs)), query.startAt, query.endAt);
  }

  lemma WindowMember(orders: seq<Sort>, docs: seq<Document>, query: StructuredQuery, d: Document)
    ensures d in Window(orders, docs, query)
       <==> && d in docs && Sortable(orders, d)
            && AfterStart(orders, d, query.startAt) && BeforeEnd(orders, d, query.endAt)
  {
    hide SortDocs, KeepSortable, Within, Sortable, AfterStart, BeforeEnd;
    SortableMembers(orders, docs);
    SortMembers(orders, KeepSortable(orders, docs));
    WithinMembers(orders, SortDocs(orders, KeepSortable(orders, docs)), query.startAt, query.endAt);
  }

  // ----- When a filter keeps every document it accepts ---------------------

  /** Whoever has the field has a value at p: the field itself, a map above it,
      or the document name. */
  predicate Covers(field: string, p: string) {
    || p == NAME || field == p
    || (field != NAME && FieldPath(field).Success? && FieldPath(p).Success?
        && FieldPath(p).value <= FieldPath(field).value)
  }

  /** Every branch of the filter that can accept a document asks for a value at p. */
  predicate Guarantees(filter: Filter, p: string)
    decreases filter
  {
    match filter
    case NoFilter => true
    case FieldFilter(field, _, _) => field.Some? ==> Covers(field.value, p)
    case UnaryFilter(field, _) => field.Some? ==> Covers(field.value, p)
    case Composite(op, filters) =>
      if op == 1 then exists i :: 0 <= i < |filters| && Guarantees(filters[i], p)
      else op == 2 ==> forall i :: 0 <= i < |filters| ==> Guarantees(filters[i], p)
  }

  lemma {:induction false} PrefixHasValue(fields: Fields, short: seq<string>, long: seq<string>)
    requires short != [] && short <= long && NestedGet(fields, long).Some?
    ensures NestedGet(fields, short).Some?
    decreases |short|
  {
    if |short| > 1 {
      assert short[0] == long[0];
      var inner := fields[short[0]].fields;
      PrefixHasValue(inner, short[1..], long[1..]);
    }
  }

  lemma CoversValue(doc: Document, field: string, p: string)
    requires Covers(field, p) && FieldValue(doc, field).Some?
    ensures FieldValue(doc, p).Some?
  {
    hide FieldPath;
    if p != NAME && field != p {
      AcceptedSegments(p);
      AcceptedSegments(field);
      PrefixHasValue(doc.fields, FieldPath(p).value, FieldPath(field).value);
    }
  }

  /** A document accepted by a filter has every field the filter guarantees. */
  lemma {:induction false} GuaranteedIsThere(doc: Document, filter: Filter, p: string)
    requires Guarantees(filter, p) && FilterMatches(doc, filter) == Success(true)
    ensures FieldValue(doc, p).Some?
    decreases filter
  {
    hide FieldOperator, UnaryOperator, FieldValue, Covers;
    match filter
    case NoFilter =>
    case FieldFilter(field, _, _) => CoversValue(doc, field.value, p);
    case UnaryFilter(field, _) => CoversValue(doc, field.value, p);
    case Composite(op, filters) =>
      var i :| 0 <= i < |filters| && Guarantees(filters[i], p) && FilterMatches(doc, filters[i]) == Success(true);
      GuaranteedIsThere(doc, filters[i], p);
  }

  /** When the filter guarantees each of its inequality fields, no accepted
      document is dropped for lack of one. */
  lemma GuaranteedFilterDropsNothing(doc: Document, filter: Filter)
    requires FilterMatches(doc, filter) == Success(true)
    requires forall p :: p in InequalityFields(filter) ==> Guarantees(filter, p)
    ensures HasInequalities(Some(filter), doc)
  {
    hide FilterMatches, InequalityFields, Guarantees, FieldValue;
    forall p | p in InequalityFields(filter) ensures FieldValue(doc, p).Some? {
      GuaranteedIsThere(doc, filter, p);
    }
  }
}
