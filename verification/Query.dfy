/** Structured queries (src/firestore.rs, filter_matches, inequality_fields and
    query_docs). */
module Query {
  import opened Wrappers
  import opened Order
  import opened Values
  import opened ValueOrder
  import opened FieldPaths
  import opened Documents
  import opened Resources

  const NAME: string := "__name__"

  /** Operators are the protocol's numbers; a missing part is None. */
  datatype Filter =
    | Composite(op: int, filters: seq<Filter>)
    | FieldFilter(field: Option<string>, op: int, value: Option<Value>)
    | UnaryFilter(field: Option<string>, op: int)
    | NoFilter

  datatype Selector = Selector(collection: string, descendants: bool)

  datatype OrderBy = OrderBy(field: Option<string>, descending: bool)

  datatype Cursor = Cursor(values: seq<Value>, before: bool)

  datatype StructuredQuery = StructuredQuery(
    selectors: seq<Selector>,
    filter: Option<Filter>,
    orderBy: seq<OrderBy>,
    startAt: Option<Cursor>,
    endAt: Option<Cursor>,
    offset: int,
    limit: Option<int>,
    select: Option<seq<string>>)

  datatype Sort = Sort(path: string, descending: bool)

  // ----- Filters -----------------------------------------------------------

  function FieldValue(doc: Document, path: string): Option<Value> {
    if path == NAME then Some(Reference(doc.name))
    else match FieldPath(path)
      case Failure(_) => None
      case Success(parts) => AcceptedSegments(path); NestedGet(doc.fields, parts)
  }

  predicate Contains(list: Value, needle: Value) {
    list.Array? && exists i :: 0 <= i < |list.values| && Compare(list.values[i], needle) == Equal
  }

  /** The six comparisons: the ordering ones need values of the same kind. */
  predicate OrderOperator(op: int, same: bool, c: Ordering)
    requires 1 <= op <= 6
  {
    if op == 1 then same && c == Less
    else if op == 2 then same && c != Greater
    else if op == 3 then same && c == Greater
    else if op == 4 then same && c != Less
    else if op == 5 then c == Equal
    else c != Equal
  }

  /** The four array operators. */
  predicate ArrayOperator(op: int, a: Value, b: Value)
    requires 7 <= op <= 10
  {
    if op == 7 then Contains(a, b)
    else if op == 8 then Contains(b, a)
    else if op == 9 then a.Array? && exists i :: 0 <= i < |a.values| && Contains(b, a.values[i])
    else Rank(a) != 0 && !Contains(b, Null) && !Contains(b, a)
  }

  function FieldOperator(op: int, a: Value, b: Value): Result<bool, Status> {
    if 1 <= op <= 6 then Success(OrderOperator(op, Rank(a) == Rank(b), Compare(a, b)))
    else if 7 <= op <= 10 then Success(ArrayOperator(op, a, b))
    else Failure(InvalidArgument)
  }

  function UnaryOperator(op: int, a: Value): Result<bool, Status> {
    var nan := a.DoubleValue? && a.d.NaN?;
    match op
    case 2 => Success(nan)
    case 3 => Success(Rank(a) == 0)
    case 4 => Success(!nan)
    case 5 => Success(Rank(a) != 0)
    case _ => Failure(InvalidArgument)
  }

  function FilterMatches(doc: Document, filter: Filter): Result<bool, Status>
    decreases filter
  {
    match filter
    case NoFilter => Failure(InvalidArgument)
    case Composite(op, filters) =>
      if exists i :: 0 <= i < |filters| && FilterMatches(doc, filters[i]).Failure? then Failure(InvalidArgument)
      else if op == 1 then Success(forall i :: 0 <= i < |filters| ==> FilterMatches(doc, filters[i]) == Success(true))
      else if op == 2 then Success(exists i :: 0 <= i < |filters| && FilterMatches(doc, filters[i]) == Success(true))
      else Failure(InvalidArgument)
    case FieldFilter(field, op, value) =>
      if field.None? || value.None? then Failure(InvalidArgument)
      else
        (match FieldValue(doc, field.value)
         case None => Success(false)
         case Some(a) => FieldOperator(op, a, value.value))
    case UnaryFilter(field, op) =>
      if field.None? then Failure(InvalidArgument)
      else
        match FieldValue(doc, field.value)
        case None => Success(false)
        case Some(a) => UnaryOperator(op, a)
  }

  function InequalityFields(filter: Filter): set<string>
    decreases filter
  {
    match filter
    case Composite(_, filters) => set i, p | 0 <= i < |filters| && p in InequalityFields(filters[i]) :: p
    case FieldFilter(field, op, _) => if op in {1, 2, 3, 4, 6, 10} && field.Some? then {field.value} else {}
    case UnaryFilter(field, op) => if op in {4, 5} && field.Some? then {field.value} else {}
    case NoFilter => {}
  }

  predicate Conjunctive(filter: Filter)
    decreases filter
  {
    filter.Composite? ==> filter.op == 1 && forall i :: 0 <= i < |filter.filters| ==> Conjunctive(filter.filters[i])
  }

  /** A document a filter without disjunction accepts has every inequality field,
      so ordering by those fields drops no such document. */
  lemma {:induction false} ConjunctiveHasFields(doc: Document, filter: Filter)
    requires Conjunctive(filter) && FilterMatches(doc, filter) == Success(true)
    ensures forall p :: p in InequalityFields(filter) ==> FieldValue(doc, p).Some?
    decreases filter
  {
    hide FieldOperator, UnaryOperator, FieldValue;
    if filter.Composite? {
      forall p | p in InequalityFields(filter) ensures FieldValue(doc, p).Some? {
        var i :| 0 <= i < |filter.filters| && p in InequalityFields(filter.filters[i]);
        assert FilterMatches(doc, filter.filters[i]) == Success(true);
        ConjunctiveHasFields(doc, filter.filters[i]);
      }
    }
  }

  /** With a disjunction it can: a document without a field is accepted by another
      branch, and has no value to order that field by. */
  lemma DisjunctionDropsDocument(doc: Document, path: string, bound: Value)
    requires FieldValue(doc, path).None?
    ensures var filter := Composite(2, [FieldFilter(Some(path), 1, Some(bound)),
                                        FieldFilter(Some(NAME), 5, Some(Reference(doc.name)))]);
            && FilterMatches(doc, filter) == Success(true)
            && path in InequalityFields(filter)
            && forall orders :: HasPath(orders, path) ==> !Sortable(orders, doc)
  {
    var branches := [FieldFilter(Some(path), 1, Some(bound)), FieldFilter(Some(NAME), 5, Some(Reference(doc.name)))];
    var filter := Composite(2, branches);
    CompareStringEqual(doc.name, doc.name);
    hide FieldOperator;
    assert FilterMatches(doc, branches[0]) == Success(false);
    assert FilterMatches(doc, branches[1]) == Success(true) by { NameEquals(doc.name); }
    assert path in InequalityFields(branches[0]);
  }

  lemma NameEquals(name: string)
    ensures FieldOperator(5, Reference(name), Reference(name)) == Success(true)
  {
    CompareStringEqual(name, name);
  }

  function Holds(op: int, a: Value, b: Value): bool {
    FieldOperator(op, a, b) == Success(true)
  }

  /** An order comparison needs values of one kind and is then one of less, equal
      and greater; swapping the values mirrors it; not-equal negates equal. */
  lemma ComparisonLaws(a: Value, b: Value)
    ensures Rank(a) != Rank(b) ==> !Holds(1, a, b) && !Holds(3, a, b) && !Holds(5, a, b)
    ensures Rank(a) == Rank(b) ==> Holds(1, a, b) || Holds(3, a, b) || Holds(5, a, b)
    ensures !(Holds(1, a, b) && Holds(3, a, b)) && !(Holds(1, a, b) && Holds(5, a, b))
    ensures !(Holds(3, a, b) && Holds(5, a, b))
    ensures Holds(2, a, b) == (Holds(1, a, b) || Holds(5, a, b)) && Holds(4, a, b) == (Holds(3, a, b) || Holds(5, a, b))
    ensures Holds(1, a, b) == Holds(3, b, a) && Holds(5, a, b) == Holds(5, b, a) && Holds(6, a, b) == !Holds(5, a, b)
  {
    hide Compare, Rank, FieldOperator, Holds;
    forall op | 1 <= op <= 6
      ensures Holds(op, a, b) == OrderOperator(op, Rank(a) == Rank(b), Compare(a, b))
    {
      OrderHolds(op, a, b);
    }
    forall op | 1 <= op <= 6
      ensures Holds(op, b, a) == OrderOperator(op, Rank(b) == Rank(a), Compare(b, a))
    {
      OrderHolds(op, b, a);
    }
    CompareReverse(a, b);
    RankDecides(a, b);
    RankDecides(b, a);
  }

  lemma OrderHolds(op: int, a: Value, b: Value)
    requires 1 <= op <= 6
    ensures Holds(op, a, b) == OrderOperator(op, Rank(a) == Rank(b), Compare(a, b))
  {
    hide Compare, Rank, OrderOperator;
  }

  // ----- Orders ------------------------------------------------------------

  predicate HasPath(orders: seq<Sort>, path: string) {
    exists i :: 0 <= i < |orders| && orders[i].path == path
  }

  function ExplicitOrders(orderBy: seq<OrderBy>): Result<seq<Sort>, Status> {
    if exists i :: 0 <= i < |orderBy| && orderBy[i].field.None? then Failure(InvalidArgument)
    else Success(seq(|orderBy|, i requires 0 <= i < |orderBy| =>
      Sort(if orderBy[i].field.Some? then orderBy[i].field.value else "", orderBy[i].descending)))
  }

  function LastDescending(orders: seq<Sort>): bool {
    orders != [] && orders[|orders| - 1].descending
  }

  function AddFields(orders: seq<Sort>, fields: seq<string>, descending: bool): seq<Sort>
    decreases |fields|
  {
    if fields == [] then orders
    else if fields[0] != NAME && !HasPath(orders, fields[0]) then
      AddFields(orders + [Sort(fields[0], descending)], fields[1..], descending)
    else AddFields(orders, fields[1..], descending)
  }

  function AddName(orders: seq<Sort>): (r: seq<Sort>)
    ensures HasPath(r, NAME)
  {
    if HasPath(orders, NAME) then orders
    else
      var all := orders + [Sort(NAME, LastDescending(orders))];
      assert all[|orders|].path == NAME;
      all
  }

  function Orders(query: StructuredQuery): Result<seq<Sort>, Status> {
    match ExplicitOrders(query.orderBy)
    case Failure(e) => Failure(e)
    case Success(explicit) =>
      var fields := if query.filter.Some? then InequalityFields(query.filter.value) else {};
      Success(AddName(AddFields(explicit, SortedKeys(fields), LastDescending(explicit))))
  }

  /** The computed orders keep the given ones first and add the missing fields,
      the document name aside, and nothing else. */
  lemma {:induction false} AddFieldsExact(orders: seq<Sort>, fields: seq<string>, descending: bool)
    ensures orders <= AddFields(orders, fields, descending)
    ensures forall p ::
              HasPath(AddFields(orders, fields, descending), p) <==> HasPath(orders, p) || (p in fields && p != NAME)
    decreases |fields|
  {
    if fields != [] {
      var added := fields[0] != NAME && !HasPath(orders, fields[0]);
      var next := if added then orders + [Sort(fields[0], descending)] else orders;
      AddFieldsExact(next, fields[1..], descending);
      assert fields == [fields[0]] + fields[1..];
      forall p ensures HasPath(next, p) <==> HasPath(orders, p) || (added && p == fields[0]) {
        if added { HasPathAppend(orders, Sort(fields[0], descending), p); }
      }
    }
  }

  lemma HasPathAppend(orders: seq<Sort>, last: Sort, path: string)
    ensures HasPath(orders + [last], path) <==> HasPath(orders, path) || last.path == path
  {
    var all := orders + [last];
    if HasPath(orders, path) {
      var i :| 0 <= i < |orders| && orders[i].path == path;
      assert all[i].path == path;
    }
    assert all[|orders|] == last;
  }

  predicate Sortable(orders: seq<Sort>, doc: Document) {
    forall i :: 0 <= i < |orders| ==> FieldValue(doc, orders[i].path).Some?
  }

  function Toward(sort: Sort, c: Ordering): Ordering {
    if sort.descending then c.Reverse() else c
  }

  /** The value at a path that is known to be there. */
  function ValueAt(doc: Document, path: string): Value {
    var v := FieldValue(doc, path);
    if v.Some? then v.value else Unset
  }

  function CompareDocs(orders: seq<Sort>, a: Document, b: Document): Ordering
    decreases |orders|
  {
    if orders == [] then Equal
    else
      Toward(orders[0], Compare(ValueAt(a, orders[0].path), ValueAt(b, orders[0].path)))
        .Then(CompareDocs(orders[1..], a, b))
  }

  function CompareCursor(orders: seq<Sort>, doc: Document, values: seq<Value>): Ordering
    decreases |orders|
  {
    if orders == [] || values == [] then Equal
    else
      Toward(orders[0], Compare(ValueAt(doc, orders[0].path), values[0]))
        .Then(CompareCursor(orders[1..], doc, values[1..]))
  }

  // ----- The pipeline ------------------------------------------------------

  predicate InQuery(doc: Document, parent: string, selector: Selector) {
    MatchesCollection(doc.name, parent, selector.collection, selector.descendants)
  }

  function Verdict(doc: Document, parent: string, selector: Selector, filter: Option<Filter>): Result<bool, Status> {
    if !InQuery(doc, parent, selector) then Success(false)
    else if filter.None? then Success(true)
    else FilterMatches(doc, filter.value)
  }

  function Matching(docs: seq<Document>, parent: string, selector: Selector,
                    filter: Option<Filter>): Result<seq<Document>, Status>
    decreases |docs|
  {
    if docs == [] then Success([])
    else
      match Verdict(docs[0], parent, selector, filter)
      case Failure(_) => Failure(InvalidArgument)
      case Success(keep) =>
        match Matching(docs[1..], parent, selector, filter)
        case Failure(_) => Failure(InvalidArgument)
        case Success(rest) => Success((if keep then [docs[0]] else []) + rest)
  }

  function KeepSortable(orders: seq<Sort>, docs: seq<Document>): seq<Document>
    decreases |docs|
  {
    if docs == [] then [] else (if Sortable(orders, docs[0]) then [docs[0]] else []) + KeepSortable(orders, docs[1..])
  }

  function Insert(orders: seq<Sort>, doc: Document, docs: seq<Document>): seq<Document>
    decreases |docs|
  {
    if docs == [] then [doc]
    else if CompareDocs(orders, doc, docs[0]) == Greater then [docs[0]] + Insert(orders, doc, docs[1..])
    else [doc] + docs
  }

  /** The stable sort, by insertion from the back. */
  function SortDocs(orders: seq<Sort>, docs: seq<Document>): seq<Document>
    decreases |docs|
  {
    if docs == [] then [] else Insert(orders, docs[0], SortDocs(orders, docs[1..]))
  }

  predicate AfterStart(orders: seq<Sort>, doc: Document, cursor: Option<Cursor>) {
    cursor.Some? ==>
      var c := CompareCursor(orders, doc, cursor.value.values);
      c == Greater || (c == Equal && cursor.value.before)
  }

  predicate BeforeEnd(orders: seq<Sort>, doc: Document, cursor: Option<Cursor>) {
    cursor.Some? ==>
      var c := CompareCursor(orders, doc, cursor.value.values);
      c == Less || (c == Equal && !cursor.value.before)
  }

  function Within(orders: seq<Sort>, docs: seq<Document>, startAt: Option<Cursor>, endAt: Option<Cursor>): seq<Document>
    decreases |docs|
  {
    if docs == [] then []
    else
      (if AfterStart(orders, docs[0], startAt) && BeforeEnd(orders, docs[0], endAt) then [docs[0]] else [])
      + Within(orders, docs[1..], startAt, endAt)
  }

  function WithoutName(paths: seq<string>): seq<string> {
    if paths == [] then [] else (if paths[0] != NAME then [paths[0]] else []) + WithoutName(paths[1..])
  }

  /** A projection is a merge of the selected paths into no fields at all. */
  function Project(doc: Document, select: seq<string>): Result<Document, Status> {
    match ParseMask(WithoutName(select))
    case Failure(e) => Failure(e)
    case Success(paths) =>
      ParsedNonEmpty(WithoutName(select));
      Success(doc.(fields := MergeFields(map[], doc.fields, paths)))
  }

  function ProjectAll(docs: seq<Document>, select: seq<string>): Result<seq<Document>, Status>
    decreases |docs|
  {
    if docs == [] then Success([])
    else
      match Project(docs[0], select)
      case Failure(e) => Failure(e)
      case Success(first) =>
        match ProjectAll(docs[1..], select)
        case Failure(e) => Failure(e)
        case Success(rest) => Success([first] + rest)
  }

  predicate TooLong(cursor: Option<Cursor>, orders: seq<Sort>) {
    cursor.Some? && |cursor.value.values| > |orders|
  }

  /** What lies between the cursors, in order. */
  function Window(orders: seq<Sort>, docs: seq<Document>, query: StructuredQuery): seq<Document> {
    Within(orders, SortDocs(orders, KeepSortable(orders, docs)), query.startAt, query.endAt)
  }

  const MAX_I32: nat := 0x7fff_ffff

  function Finish(orders: seq<Sort>, docs: seq<Document>, query: StructuredQuery): Result<seq<Document>, Status>
    requires query.offset >= 0 && (query.limit.Some? ==> query.limit.value >= 0)
  {
    if TooLong(query.startAt, orders) || TooLong(query.endAt, orders) then Failure(InvalidArgument)
    else
      var page := Slice(Window(orders, docs, query), query.offset,
                        if query.limit.Some? then query.limit.value else MAX_I32);
      if query.select.Some? then ProjectAll(page, query.select.value) else Success(page)
  }

  function Answer(docs: seq<Document>, parent: string, query: StructuredQuery): Result<seq<Document>, Status> {
    if |query.selectors| != 1 || query.selectors[0].collection == "" then Failure(InvalidArgument)
    else if query.offset < 0 || (query.limit.Some? && query.limit.value < 0) then Failure(InvalidArgument)
    else if DatabaseOf(parent).Failure? then Failure(InvalidArgument)
    else
      match Matching(docs, parent, query.selectors[0], query.filter)
      case Failure(e) => Failure(e)
      case Success(matching) =>
        match Orders(query)
        case Failure(e) => Failure(e)
        case Success(orders) => Finish(orders, matching, query)
  }

  // ----- The query as it runs ----------------------------------------------

  function Prepend(docs: seq<Document>, r: Result<seq<Document>, Status>): Result<seq<Document>, Status> {
    match r
    case Failure(e) => Failure(e)
    case Success(rest) => Success(docs + rest)
  }

  lemma MatchingStep(found: seq<Document>, docs: seq<Document>, i: nat, parent: string, selector: Selector,
                     filter: Option<Filter>)
    requires i < |docs|
    ensures Prepend(found, Matching(docs[i..], parent, selector, filter))
         == match Verdict(docs[i], parent, selector, filter)
            case Failure(_) => Failure(InvalidArgument)
            case Success(keep) =>
              Prepend(if keep then found + [docs[i]] else found, Matching(docs[i + 1..], parent, selector, filter))
  {
    hide Verdict;
    assert docs[i..][1..] == docs[i + 1..];
    var rest := Matching(docs[i + 1..], parent, selector, filter);
    if rest.Success? {
      assert found + ([docs[i]] + rest.value) == found + [docs[i]] + rest.value;
      assert found + ([] + rest.value) == found + rest.value;
    } else {
      MatchingError(docs[i + 1..], parent, selector, filter);
    }
  }

  lemma MatchingError(docs: seq<Document>, parent: string, selector: Selector, filter: Option<Filter>)
    ensures var m := Matching(docs, parent, selector, filter); m.Failure? ==> m.error == InvalidArgument
  {
    hide Verdict;
  }

  method Scan(docs: seq<Document>, parent: string, selector: Selector, filter: Option<Filter>)
    returns (r: Result<seq<Document>, Status>)
    ensures r == Matching(docs, parent, selector, filter)
  {
    hide FilterMatches, InQuery;
    var found: seq<Document> := [];
    PrependNothing(Matching(docs, parent, selector, filter));
    assert docs[0..] == docs;
    for i := 0 to |docs|
      invariant Matching(docs, parent, selector, filter)
           == Prepend(found, Matching(docs[i..], parent, selector, filter))
    {
      MatchingStep(found, docs, i, parent, selector, filter);
      if InQuery(docs[i], parent, selector) {
        var keep := true;
        if filter.Some? {
          var verdict := FilterMatches(docs[i], filter.value);
          if verdict.Failure? { return Failure(InvalidArgument); }
          keep := verdict.value;
        }
        if keep { found := found + [docs[i]]; }
      }
    }
    assert docs[|docs|..] == [] && found + [] == found;
    r := Success(found);
  }

  lemma PrependNothing(r: Result<seq<Document>, Status>)
    ensures Prepend([], r) == r
  {
    assert r.Success? ==> [] + r.value == r.value;
  }

  method EffectiveOrders(query: StructuredQuery) returns (r: Result<seq<Sort>, Status>)
    ensures r == Orders(query)
  {
    hide ExplicitOrders, AddName, LastDescending, InequalityFields, SortedKeys, AddFields;
    var explicit := ExplicitOrders(query.orderBy);
    if explicit.Failure? { return Failure(explicit.error); }
    var fields := SortedKeys(if query.filter.Some? then InequalityFields(query.filter.value) else {});
    var orders := AppendFields(explicit.value, fields, LastDescending(explicit.value));
    r := Success(AddName(orders));
  }

  method AppendFields(explicit: seq<Sort>, fields: seq<string>, descending: bool) returns (orders: seq<Sort>)
    ensures orders == AddFields(explicit, fields, descending)
  {
    orders := explicit;
    for i := 0 to |fields|
      invariant AddFields(explicit, fields, descending) == AddFields(orders, fields[i..], descending)
    {
      hide HasPath;
      assert fields[i..][1..] == fields[i + 1..];
      if fields[i] != NAME && !HasPath(orders, fields[i]) {
        orders := orders + [Sort(fields[i], descending)];
      }
    }
  }

  lemma ProjectStep(done: seq<Document>, docs: seq<Document>, i: nat, select: seq<string>)
    requires i < |docs|
    ensures Prepend(done, ProjectAll(docs[i..], select))
         == match Project(docs[i], select)
            case Failure(e) => Failure(e)
            case Success(d) => Prepend(done + [d], ProjectAll(docs[i + 1..], select))
  {
    hide Project;
    assert docs[i..][1..] == docs[i + 1..];
    var rest := ProjectAll(docs[i + 1..], select);
    if Project(docs[i], select).Success? && rest.Success? {
      var d := Project(docs[i], select).value;
      assert done + ([d] + rest.value) == done + [d] + rest.value;
    }
  }

  method ProjectDocs(docs: seq<Document>, select: seq<string>) returns (r: Result<seq<Document>, Status>)
    ensures r == ProjectAll(docs, select)
  {
    hide Project;
    var done: seq<Document> := [];
    PrependNothing(ProjectAll(docs, select));
    assert docs[0..] == docs;
    for i := 0 to |docs|
      invariant ProjectAll(docs, select) == Prepend(done, ProjectAll(docs[i..], select))
    {
      ProjectStep(done, docs, i, select);
      var projected := Project(docs[i], select);
      if projected.Failure? { return Failure(projected.error); }
      done := done + [projected.value];
    }
    assert docs[|docs|..] == [] && done + [] == done;
    r := Success(done);
  }

  method QueryDocs(docs: seq<Document>, parent: string, query: StructuredQuery)
    returns (r: Result<seq<Document>, Status>)
    ensures r == Answer(docs, parent, query)
  {
    hide Matching, Orders, Window, Slice, TooLong, ProjectAll, DatabaseOf;
    if |query.selectors| != 1 || query.selectors[0].collection == "" { return Failure(InvalidArgument); }
    if query.offset < 0 || (query.limit.Some? && query.limit.value < 0) { return Failure(InvalidArgument); }
    if DatabaseOf(parent).Failure? { return Failure(InvalidArgument); }
    var found := Scan(docs, parent, query.selectors[0], query.filter);
    if found.Failure? { return Failure(found.error); }
    var orders := EffectiveOrders(query);
    if orders.Failure? { return Failure(orders.error); }
    if TooLong(query.startAt, orders.value) || TooLong(query.endAt, orders.value) { return Failure(InvalidArgument); }
    var limit := if query.limit.Some? then query.limit.value else MAX_I32;
    var page := Slice(Window(orders.value, found.value, query), query.offset, limit);
    if query.select.None? { return Success(page); }
    r := ProjectDocs(page, query.select.value);
  }
}
