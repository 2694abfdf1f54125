/** Change events of Firestore batches (src/functions.rs, document_outbox_records
    and documents_changed) and when a comparison of fields counts as a change. */
module Events {
  import opened Wrappers
  import opened Order
  import opened Values
  import opened Documents

  type Store = map<string, Document>

  /** One event, as the functions runtime receives it. */
  datatype Record =
    | DocumentChange(before: Option<Document>, after: Option<Document>)
    | ObjectChange(kind: string, object: string)

  // ----- Field equality ----------------------------------------------------

  predicate SameDouble(a: Double, b: Double) {
    !a.NaN? && !b.NaN? && a == b
  }

  /** The derived equality of values, under which NaN differs from itself. */
  predicate Same(a: Value, b: Value)
    decreases a
  {
    match (a, b)
    case (DoubleValue(x), DoubleValue(y)) => SameDouble(x, y)
    case (Geo(x, y), Geo(z, w)) => SameDouble(x, z) && SameDouble(y, w)
    case (Array(x), Array(y)) => |x| == |y| && forall i :: 0 <= i < |x| ==> Same(x[i], y[i])
    case (Map(x), Map(y)) => x.Keys == y.Keys && forall k :: k in x ==> Same(x[k], y[k])
    case _ => a == b
  }

  predicate SameFields(a: Fields, b: Fields) {
    a.Keys == b.Keys && forall k :: k in a ==> Same(a[k], b[k])
  }

  predicate NaNFree(v: Value)
    decreases v
  {
    match v
    case DoubleValue(d) => !d.NaN?
    case Geo(x, y) => !x.NaN? && !y.NaN?
    case Array(values) => forall i :: 0 <= i < |values| ==> NaNFree(values[i])
    case Map(fields) => forall k :: k in fields ==> NaNFree(fields[k])
    case _ => true
  }

  predicate NaNFreeFields(fields: Fields) {
    forall k :: k in fields ==> NaNFree(fields[k])
  }

  /** The derived equality is equality of values that hold no NaN anywhere. */
  lemma {:induction false} SameExact(a: Value, b: Value)
    ensures Same(a, b) <==> a == b && NaNFree(a)
    decreases a
  {
    match (a, b)
    case (Array(x), Array(y)) =>
      if |x| == |y| {
        forall i | 0 <= i < |x| ensures Same(x[i], y[i]) <==> x[i] == y[i] && NaNFree(x[i]) { SameExact(x[i], y[i]); }
      }
    case (Map(x), Map(y)) =>
      if x.Keys == y.Keys {
        forall k | k in x ensures Same(x[k], y[k]) <==> x[k] == y[k] && NaNFree(x[k]) { SameExact(x[k], y[k]); }
        assert (forall k :: k in x ==> x[k] == y[k]) ==> x == y;
      }
    case _ =>
  }

  lemma SameFieldsExact(a: Fields, b: Fields)
    ensures SameFields(a, b) <==> a == b && NaNFreeFields(a)
  {
    forall k | k in a && k in b ensures Same(a[k], b[k]) <==> a[k] == b[k] && NaNFree(a[k]) { SameExact(a[k], b[k]); }
  }

  // ----- Records -----------------------------------------------------------

  function At(store: Store, name: string): Option<Document> {
    if name in store then Some(store[name]) else None
  }

  predicate Unchanged(before: Option<Document>, after: Option<Document>) {
    match (before, after)
    case (None, None) => true
    case (Some(b), Some(a)) => SameFields(b.fields, a.fields)
    case _ => false
  }

  function RecordFor(before: Option<Document>, after: Option<Document>): seq<Record> {
    if Unchanged(before, after) then [] else [DocumentChange(before, after)]
  }

  function Over(keys: seq<string>, before: Store, after: Store): seq<Record> {
    if keys == [] then []
    else RecordFor(At(before, keys[0]), At(after, keys[0])) + Over(keys[1..], before, after)
  }

  /** Changes to names that existed come first, then new names, each in key order. */
  function Records(before: Store, after: Store): seq<Record> {
    Over(SortedKeys(before.Keys), before, after) + Over(SortedKeys(after.Keys - before.Keys), before, after)
  }

  /** The first loop: every name that existed. */
  method CollectExisting(keys: seq<string>, before: Store, after: Store) returns (records: seq<Record>)
    ensures records == Over(keys, before, after)
  {
    hide Over, RecordFor, At;
    records := [];
    OverBegin(keys, before, after);
    for i := 0 to |keys|
      invariant Over(keys, before, after) == records + Over(keys[i..], before, after)
    {
      OverStep(records, keys, i, before, after);
      records := records + RecordFor(At(before, keys[i]), At(after, keys[i]));
    }
  }

  /** The second loop: every name of the new store that did not exist. */
  method CollectAdded(keys: seq<string>, before: Store, after: Store) returns (records: seq<Record>)
    requires forall k :: k in keys ==> k in after
    ensures records == Over(Select(keys, after.Keys - before.Keys), before, after)
  {
    hide Over, RecordFor, Select;
    records := [];
    ghost var added := after.Keys - before.Keys;
    OverBegin(Select(keys, added), before, after);
    assert keys[0..] == keys;
    for i := 0 to |keys|
      invariant Over(Select(keys, added), before, after) == records + Over(Select(keys[i..], added), before, after)
    {
      SelectStep(records, keys, i, added, before, after);
      if keys[i] !in before {
        records := records + RecordFor(At(before, keys[i]), At(after, keys[i]));
      }
    }
    assert keys[|keys|..] == [];
  }

  lemma OverBegin(keys: seq<string>, before: Store, after: Store)
    ensures keys[0..] == keys
    ensures Over(keys, before, after) == [] + Over(keys, before, after)
    ensures Over([], before, after) == [] && Over(keys[|keys|..], before, after) == []
    ensures Over(Select([], after.Keys - before.Keys), before, after) == []
  {
    hide RecordFor, At;
  }

  lemma OverStep(records: seq<Record>, keys: seq<string>, i: nat, before: Store, after: Store)
    requires i < |keys|
    ensures records + Over(keys[i..], before, after)
         == records + RecordFor(At(before, keys[i]), At(after, keys[i])) + Over(keys[i + 1..], before, after)
  {
    hide RecordFor, At;
    assert keys[i..][1..] == keys[i + 1..];
  }

  lemma SelectStep(records: seq<Record>, keys: seq<string>, i: nat, names: set<string>, before: Store, after: Store)
    requires i < |keys|
    ensures records + Over(Select(keys[i..], names), before, after)
         == (if keys[i] in names then records + RecordFor(At(before, keys[i]), At(after, keys[i])) else records)
            + Over(Select(keys[i + 1..], names), before, after)
  {
    hide RecordFor, At;
    assert keys[i..][1..] == keys[i + 1..];
    var rest := Select(keys[i + 1..], names);
    if keys[i] in names {
      assert Select(keys[i..], names) == [keys[i]] + rest && ([keys[i]] + rest)[1..] == rest;
    } else {
      assert Select(keys[i..], names) == rest;
    }
  }

  method CollectRecords(before: Store, after: Store) returns (records: seq<Record>)
    ensures records == Records(before, after)
  {
    hide Over, Select;
    var existing := CollectExisting(SortedKeys(before.Keys), before, after);
    var added := CollectAdded(SortedKeys(after.Keys), before, after);
    SelectAdded(SortedKeys(after.Keys), before.Keys, after.Keys);
    records := existing + added;
  }

  function Select(keys: seq<string>, names: set<string>): seq<string> {
    if keys == [] then [] else (if keys[0] in names then [keys[0]] else []) + Select(keys[1..], names)
  }

  lemma {:induction false} SelectMembers(keys: seq<string>, names: set<string>)
    ensures forall x :: x in Select(keys, names) <==> x in keys && x in names
  {
    if keys != [] { SelectMembers(keys[1..], names); }
  }

  lemma {:induction false} SelectAscending(keys: seq<string>, names: set<string>)
    requires Ascending(keys)
    ensures Ascending(Select(keys, names))
  {
    if keys != [] {
      var rest := Select(keys[1..], names);
      SelectAscending(keys[1..], names);
      SelectMembers(keys[1..], names);
      forall j | 0 <= j < |rest| ensures Before(keys[0], rest[j]) {
        assert rest[j] in keys[1..];
        var i :| 1 <= i < |keys| && keys[i] == rest[j];
      }
    }
  }

  /** Filtering a sorted key list gives the sorted list of the common names. */
  lemma SelectSorted(all: set<string>, names: set<string>)
    ensures Select(SortedKeys(all), names) == SortedKeys(all * names)
  {
    SelectMembers(SortedKeys(all), names);
    SelectAscending(SortedKeys(all), names);
    AscendingUnique(Select(SortedKeys(all), names), SortedKeys(all * names));
  }

  lemma SelectAdded(news: seq<string>, olds: set<string>, all: set<string>)
    requires news == SortedKeys(all)
    ensures Select(news, all - olds) == SortedKeys(all - olds)
  {
    SelectSorted(all, all - olds);
    assert all * (all - olds) == all - olds;
  }

  lemma {:induction false} OverExact(keys: seq<string>, before: Store, after: Store, before1: Option<Document>,
                                     after1: Option<Document>)
    ensures DocumentChange(before1, after1) in Over(keys, before, after)
       <==> !Unchanged(before1, after1) && exists n :: n in keys && At(before, n) == before1 && At(after, n) == after1
    decreases |keys|
  {
    hide At, Unchanged;
    if keys != [] {
      OverExact(keys[1..], before, after, before1, after1);
      assert forall n :: n in keys <==> n == keys[0] || n in keys[1..];
    }
  }

  /** Exactly the changed names are reported, with what they were and what they are. */
  lemma RecordsExact(before: Store, after: Store, before1: Option<Document>, after1: Option<Document>)
    ensures DocumentChange(before1, after1) in Records(before, after)
       <==> !Unchanged(before1, after1) && exists n :: At(before, n) == before1 && At(after, n) == after1
  {
    var olds, news := SortedKeys(before.Keys), SortedKeys(after.Keys - before.Keys);
    OverExact(olds, before, after, before1, after1);
    OverExact(news, before, after, before1, after1);
    hide Over, SortedKeys, SameFields;
    forall n | At(before, n) == before1 && At(after, n) == after1 && !Unchanged(before1, after1)
      ensures n in olds || n in news
    {
      assert n in before || n in after;
    }
  }

  // ----- Restricting the comparison to some names --------------------------

  function Restrict(store: Store, names: set<string>): Store {
    map k | k in store && k in names :: store[k]
  }

  /** The two stores hold the same documents outside the names. */
  ghost predicate SameOutside(a: Store, b: Store, names: set<string>) {
    forall k :: k !in names ==> At(a, k) == At(b, k)
  }

  predicate NaNFreeOutside(store: Store, names: set<string>) {
    forall k :: k in store && k !in names ==> NaNFreeFields(store[k].fields)
  }

  lemma UntouchedRecord(before: Store, after: Store, names: set<string>, k: string)
    requires SameOutside(before, after, names) && k !in names && k in before
    ensures RecordFor(At(before, k), At(after, k)) == [] <==> NaNFreeFields(before[k].fields)
  {
    assert At(before, k) == At(after, k);
    SameFieldsExact(before[k].fields, before[k].fields);
  }

  lemma {:induction false} OverRestricted(keys: seq<string>, before: Store, after: Store, names: set<string>)
    requires forall k :: k in keys ==> k in before
    requires SameOutside(before, after, names)
    ensures var part := Over(Select(keys, names), Restrict(before, names), Restrict(after, names));
            && |Over(keys, before, after)| >= |part|
            && (Over(keys, before, after) == part
                <==> forall k :: k in keys && k !in names ==> NaNFreeFields(before[k].fields))
            && (Over(keys, before, after) == part <==> |Over(keys, before, after)| == |part|)
    decreases |keys|
  {
    if keys != [] {
      var k, rest := keys[0], keys[1..];
      OverRestricted(rest, before, after, names);
      hide SameOutside, NaNFreeFields, RecordFor, SortedKeys;
      assert forall x :: x in keys <==> x == k || x in rest;
      if k in names {
        assert At(Restrict(before, names), k) == At(before, k) && At(Restrict(after, names), k) == At(after, k);
        assert Select(keys, names) == [k] + Select(rest, names);
      } else {
        UntouchedRecord(before, after, names, k);
        assert Select(keys, names) == Select(rest, names);
      }
    }
  }

  lemma {:induction false} OverWritten(keys: seq<string>, before: Store, after: Store, names: set<string>)
    requires forall k :: k in keys ==> k in names
    ensures Over(keys, before, after) == Over(keys, Restrict(before, names), Restrict(after, names))
    decreases |keys|
  {
    if keys != [] { OverWritten(keys[1..], before, after, names); }
  }

  lemma AddedWritten(before: Store, after: Store, names: set<string>)
    requires SameOutside(before, after, names)
    ensures after.Keys - before.Keys == Restrict(after, names).Keys - Restrict(before, names).Keys
    ensures forall k :: k in after.Keys - before.Keys ==> k in names
  {
    forall k | k in after.Keys - before.Keys ensures k in names {
      assert k !in names ==> At(before, k) == At(after, k);
    }
  }

  /** Comparing whole stores reports the same events as comparing only the
      written names, exactly when no unwritten document holds a NaN. */
  lemma RecordsRestricted(before: Store, after: Store, names: set<string>)
    requires SameOutside(before, after, names)
    ensures Records(before, after) == Records(Restrict(before, names), Restrict(after, names))
       <==> NaNFreeOutside(before, names)
  {
    var b, a := Restrict(before, names), Restrict(after, names);
    AddedWritten(before, after, names);
    ExistingRestricted(before, after, names);
    OverWritten(SortedKeys(after.Keys - before.Keys), before, after, names);
    hide Over, SortedKeys, NaNFreeOutside, SameOutside, Restrict, RecordFor, At;
    SameTail(Over(SortedKeys(before.Keys), before, after), Over(SortedKeys(b.Keys), b, a),
             Over(SortedKeys(a.Keys - b.Keys), b, a));
  }

  lemma ExistingRestricted(before: Store, after: Store, names: set<string>)
    requires SameOutside(before, after, names)
    ensures Over(SortedKeys(before.Keys), before, after)
         == Over(SortedKeys(Restrict(before, names).Keys), Restrict(before, names), Restrict(after, names))
       <==> NaNFreeOutside(before, names)
  {
    OverRestricted(SortedKeys(before.Keys), before, after, names);
    SelectSorted(before.Keys, names);
    assert before.Keys * names == Restrict(before, names).Keys;
    hide Over, SameOutside, RecordFor, At, NaNFreeFields;
  }

  lemma SameTail(a: seq<Record>, b: seq<Record>, tail: seq<Record>)
    ensures a + tail == b + tail <==> a == b
  {
    if a + tail == b + tail {
      assert |a| == |b|;
      assert forall i :: 0 <= i < |a| ==> a[i] == (a + tail)[i] && b[i] == (b + tail)[i];
    }
  }
}
