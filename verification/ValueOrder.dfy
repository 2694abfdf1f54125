/** The value order is a total preorder, and its ties are the equality that
    array union uses, apart from unset values. */
module ValueOrder {
  import opened Order
  import opened Values
  import opened Sums

  // ----- Scalars -----------------------------------------------------------

  function NumberLine(v: Value): Extended
    requires v.Integer? || v.DoubleValue?
  {
    if v.Integer? then Exact(v.i as int as real) else DoubleLine(v.d)
  }

  /** Integers and doubles are compared as exact real numbers, NaN lowest. */
  lemma NumbersExact(a: Value, b: Value)
    requires a.Integer? || a.DoubleValue?
    requires b.Integer? || b.DoubleValue?
    ensures Compare(a, b) == CompareExtended(NumberLine(a), NumberLine(b))
  {
    if a.Integer? && b.DoubleValue? { IntegerDoubleExact(a.i, b.d); }
    if a.DoubleValue? && b.Integer? { IntegerDoubleExact(b.i, a.d); }
  }

  lemma ExtendedOrder(a: Extended, b: Extended, c: Extended)
    ensures CompareExtended(b, a) == CompareExtended(a, b).Reverse()
    ensures Chain(CompareExtended(a, b), CompareExtended(b, c), CompareExtended(a, c))
    ensures CompareExtended(a, b) == Equal <==> a == b
  {
  }

  lemma DoublesExact(a: Double, b: Double)
    ensures CompareDoubles(a, b) == CompareExtended(DoubleLine(a), DoubleLine(b))
  {
  }

  lemma {:induction false} BytesOrder(a: seq<nat>, b: seq<nat>, c: seq<nat>)
    ensures CompareBytes(b, a) == CompareBytes(a, b).Reverse()
    ensures Chain(CompareBytes(a, b), CompareBytes(b, c), CompareBytes(a, c))
    ensures CompareBytes(a, b) == Equal <==> a == b
  {
    if a != [] && b != [] {
      BytesOrder(a[1..], b[1..], if c == [] then [] else c[1..]);
      assert a == [a[0]] + a[1..] && b == [b[0]] + b[1..];
    }
  }

  lemma ThenChain(x: Ordering, y: Ordering, z: Ordering, p: Ordering, q: Ordering, r: Ordering)
    requires Chain(x, y, z) && (x.Equal? && y.Equal? ==> Chain(p, q, r))
    ensures Chain(x.Then(p), y.Then(q), z.Then(r))
  {
  }

  // ----- Reversal ----------------------------------------------------------

  lemma ListsDefine(a: Value, b: Value)
    requires a.Array? && b.Array?
    ensures Compare(a, b) == CompareLists(a.values, b.values)
  {
    hide CompareLists;
  }

  lemma EntriesDefine(a: Value, b: Value)
    requires a.Map? && b.Map?
    ensures Compare(a, b) == CompareEntries(a, SortedKeys(a.fields.Keys), b, SortedKeys(b.fields.Keys))
  {
    hide CompareEntries, SortedKeys, Ascending;
  }

  lemma {:induction false} CompareReverse(a: Value, b: Value)
    ensures Compare(b, a) == Compare(a, b).Reverse()
    decreases a, 2, 0
  {
    hide Compare, CompareLists, CompareEntries, SortedKeys, Ascending;
    if a.Array? && b.Array? {
      ListsReverse(a.values, b.values);
      ListsDefine(a, b);
      ListsDefine(b, a);
    } else if a.Map? && b.Map? {
      EntriesReverse(a, SortedKeys(a.fields.Keys), b, SortedKeys(b.fields.Keys));
      EntriesDefine(a, b);
      EntriesDefine(b, a);
    } else {
      ScalarReverse(a, b);
    }
  }

  lemma ScalarReverse(a: Value, b: Value)
    requires !(a.Array? && b.Array?) && !(a.Map? && b.Map?)
    ensures Compare(b, a) == Compare(a, b).Reverse()
  {
    hide CompareLists, CompareEntries, SortedKeys, CompareString, CompareBytes, CompareIntegerDouble, CompareDoubles;
    match (a, b)
    case (Str(x), Str(y)) => CompareStringReverse(x, y);
    case (Reference(x), Reference(y)) => CompareStringReverse(x, y);
    case (Bytes(x), Bytes(y)) => BytesOrder(x, y, x);
    case (DoubleValue(x), DoubleValue(y)) => DoublesReverse(x, y);
    case (Geo(x, y), Geo(z, w)) =>
      DoublesReverse(x, z);
      DoublesReverse(y, w);
    case _ =>
  }

  lemma DoublesReverse(a: Double, b: Double)
    ensures CompareDoubles(b, a) == CompareDoubles(a, b).Reverse()
  {
    DoublesExact(a, b);
    DoublesExact(b, a);
    ExtendedOrder(DoubleLine(a), DoubleLine(b), DoubleLine(a));
  }

  lemma {:induction false} ListsReverse(a: seq<Value>, b: seq<Value>)
    ensures CompareLists(b, a) == CompareLists(a, b).Reverse()
    decreases a, 1, 0
  {
    if a != [] && b != [] {
      CompareReverse(a[0], b[0]);
      ListsReverse(a[1..], b[1..]);
    }
  }

  lemma {:induction false} EntriesReverse(a: Value, ak: seq<string>, b: Value, bk: seq<string>)
    requires a.Map? && b.Map? && (forall k :: k in ak ==> k in a.fields) && (forall k :: k in bk ==> k in b.fields)
    ensures CompareEntries(b, bk, a, ak) == CompareEntries(a, ak, b, bk).Reverse()
    decreases a, 1, |ak|
  {
    if ak != [] && bk != [] {
      CompareStringReverse(ak[0], bk[0]);
      CompareReverse(a.fields[ak[0]], b.fields[bk[0]]);
      EntriesReverse(a, ak[1..], b, bk[1..]);
    }
  }

  // ----- Transitivity ------------------------------------------------------

  lemma {:induction false} CompareChain(a: Value, b: Value, c: Value)
    ensures Chain(Compare(a, b), Compare(b, c), Compare(a, c))
    decreases a, 2, 0
  {
    hide Compare, CompareLists, CompareEntries, SortedKeys, Ascending, Chain;
    if a.Array? && b.Array? && c.Array? {
      ListsChain(a.values, b.values, c.values);
      ListsDefine(a, b);
      ListsDefine(b, c);
      ListsDefine(a, c);
    } else if a.Map? && b.Map? && c.Map? {
      EntriesChain(a, SortedKeys(a.fields.Keys), b, SortedKeys(b.fields.Keys), c, SortedKeys(c.fields.Keys));
      EntriesDefine(a, b);
      EntriesDefine(b, c);
      EntriesDefine(a, c);
    } else if Rank(a) == Rank(b) == Rank(c) {
      ScalarChain(a, b, c);
    } else {
      RanksChain(a, b, c);
    }
  }

  lemma RanksChain(a: Value, b: Value, c: Value)
    requires !(Rank(a) == Rank(b) == Rank(c))
    ensures Chain(Compare(a, b), Compare(b, c), Compare(a, c))
  {
    hide Compare;
    RankDecides(a, b);
    RankDecides(b, c);
    RankDecides(a, c);
  }

  lemma RankDecides(a: Value, b: Value)
    ensures Rank(a) != Rank(b) ==> Compare(a, b) == CompareInt(Rank(a), Rank(b))
  {
    hide CompareLists, CompareEntries, SortedKeys, CompareString, CompareBytes, CompareIntegerDouble, CompareDoubles,
      Rank;
  }

  lemma ScalarChain(a: Value, b: Value, c: Value)
    requires Rank(a) == Rank(b) == Rank(c) && !a.Array? && !a.Map?
    ensures Chain(Compare(a, b), Compare(b, c), Compare(a, c))
  {
    hide CompareLists, CompareEntries, SortedKeys, CompareString, CompareBytes, CompareIntegerDouble, CompareDoubles;
    match a
    case Integer(_) => NumbersChain(a, b, c);
    case DoubleValue(_) => NumbersChain(a, b, c);
    case Str(x) => CompareStringChain(x, b.s, c.s);
    case Reference(x) => CompareStringChain(x, b.name, c.name);
    case Bytes(x) => BytesOrder(x, b.bytes, c.bytes);
    case Geo(x, y) =>
      DoublesChain(x, b.latitude, c.latitude);
      DoublesChain(y, b.longitude, c.longitude);
    case _ =>
  }

  lemma NumbersChain(a: Value, b: Value, c: Value)
    requires Rank(a) == Rank(b) == Rank(c) == 2
    ensures Chain(Compare(a, b), Compare(b, c), Compare(a, c))
  {
    NumbersExact(a, b);
    NumbersExact(b, c);
    NumbersExact(a, c);
    ExtendedOrder(NumberLine(a), NumberLine(b), NumberLine(c));
  }

  lemma DoublesChain(a: Double, b: Double, c: Double)
    ensures Chain(CompareDoubles(a, b), CompareDoubles(b, c), CompareDoubles(a, c))
  {
    DoublesExact(a, b);
    DoublesExact(b, c);
    DoublesExact(a, c);
    ExtendedOrder(DoubleLine(a), DoubleLine(b), DoubleLine(c));
  }

  lemma {:induction false} ListsChain(a: seq<Value>, b: seq<Value>, c: seq<Value>)
    ensures Chain(CompareLists(a, b), CompareLists(b, c), CompareLists(a, c))
    decreases a, 1, 0
  {
    if a != [] && b != [] && c != [] {
      CompareChain(a[0], b[0], c[0]);
      ListsChain(a[1..], b[1..], c[1..]);
      ThenChain(Compare(a[0], b[0]), Compare(b[0], c[0]), Compare(a[0], c[0]),
                CompareLists(a[1..], b[1..]), CompareLists(b[1..], c[1..]), CompareLists(a[1..], c[1..]));
    }
  }

  lemma {:induction false} EntriesChain(a: Value, ak: seq<string>, b: Value, bk: seq<string>, c: Value, ck: seq<string>)
    requires a.Map? && b.Map? && c.Map?
    requires (forall k :: k in ak ==> k in a.fields) && (forall k :: k in bk ==> k in b.fields)
    requires forall k :: k in ck ==> k in c.fields
    ensures Chain(CompareEntries(a, ak, b, bk), CompareEntries(b, bk, c, ck), CompareEntries(a, ak, c, ck))
    decreases a, 1, |ak|
  {
    if ak != [] && bk != [] && ck != [] {
      var x, y, z := a.fields[ak[0]], b.fields[bk[0]], c.fields[ck[0]];
      CompareStringChain(ak[0], bk[0], ck[0]);
      CompareChain(x, y, z);
      EntriesChain(a, ak[1..], b, bk[1..], c, ck[1..]);
      ThenChain(CompareString(ak[0], bk[0]), CompareString(bk[0], ck[0]), CompareString(ak[0], ck[0]),
                Compare(x, y), Compare(y, z), Compare(x, z));
      ThenChain(CompareString(ak[0], bk[0]).Then(Compare(x, y)), CompareString(bk[0], ck[0]).Then(Compare(y, z)),
                CompareString(ak[0], ck[0]).Then(Compare(x, z)),
                CompareEntries(a, ak[1..], b, bk[1..]), CompareEntries(b, bk[1..], c, ck[1..]),
                CompareEntries(a, ak[1..], c, ck[1..]));
    }
  }

  /** Firestore's value order is a total preorder on all values. */
  lemma TotalPreorder(a: Value, b: Value, c: Value)
    ensures Compare(a, a) == Equal
    ensures Compare(a, b) != Greater || Compare(b, a) != Greater
    ensures Compare(a, b) != Greater && Compare(b, c) != Greater ==> Compare(a, c) != Greater
    ensures Compare(a, b) == Equal && Compare(b, c) == Equal ==> Compare(a, c) == Equal
  {
    CompareReverse(a, a);
    CompareReverse(a, b);
    CompareChain(a, b, c);
  }

  // ----- The equality of array union ---------------------------------------

  predicate FloatEqual(a: Double, b: Double) {
    (!a.NaN? && !b.NaN? && a == b) || (a.NaN? && b.NaN?)
  }

  predicate TransformEqual(a: Value, b: Value)
    decreases a
  {
    match (a, b)
    case (Null, Null) => true
    case (Boolean(x), Boolean(y)) => x == y
    case (Integer(x), Integer(y)) => x == y
    case (Integer(x), DoubleValue(y)) => CompareIntegerDouble(x, y) == Equal
    case (DoubleValue(x), Integer(y)) => CompareIntegerDouble(y, x) == Equal
    case (DoubleValue(x), DoubleValue(y)) => FloatEqual(x, y)
    case (Timestamp(_, _), Timestamp(_, _)) => a == b
    case (Str(x), Str(y)) => x == y
    case (Bytes(x), Bytes(y)) => x == y
    case (Reference(x), Reference(y)) => x == y
    case (Geo(x, y), Geo(z, w)) => FloatEqual(x, z) && FloatEqual(y, w)
    case (Array(x), Array(y)) => |x| == |y| && forall i :: 0 <= i < |x| ==> TransformEqual(x[i], y[i])
    case (Map(x), Map(y)) => |x| == |y| && forall k :: k in x ==> k in y && TransformEqual(x[k], y[k])
    case (Unset, Unset) => true
    case _ => false
  }

  /** Wherever both values have a part in the same place, it is unset in both or in neither. */
  predicate SameUnset(a: Value, b: Value)
    decreases a
  {
    && (a.Unset? <==> b.Unset?)
    && (a.Array? && b.Array? ==>
          forall i :: 0 <= i < |a.values| && i < |b.values| ==> SameUnset(a.values[i], b.values[i]))
    && (a.Map? && b.Map? ==> forall k :: k in a.fields && k in b.fields ==> SameUnset(a.fields[k], b.fields[k]))
  }

  predicate NoUnset(v: Value)
    decreases v
  {
    && !v.Unset?
    && (v.Array? ==> forall i :: 0 <= i < |v.values| ==> NoUnset(v.values[i]))
    && (v.Map? ==> forall k :: k in v.fields ==> NoUnset(v.fields[k]))
  }

  /** Equality for transforms is exactly a tie in the order, for all values whose
      unset parts line up. */
  lemma {:induction false} EqualityIsTie(a: Value, b: Value)
    ensures TransformEqual(a, b) <==> Compare(a, b) == Equal && SameUnset(a, b)
    decreases a, 2, 0
  {
    if a.Array? && b.Array? {
      ListsTie(a.values, b.values);
    } else if a.Map? && b.Map? {
      MapEquality(a, b);
    } else {
      ScalarTie(a, b);
    }
  }

  lemma ScalarTie(a: Value, b: Value)
    requires !(a.Array? && b.Array?) && !(a.Map? && b.Map?)
    ensures TransformEqual(a, b) <==> Compare(a, b) == Equal && SameUnset(a, b)
  {
    match (a, b)
    case (Str(x), Str(y)) => CompareStringEqual(x, y);
    case (Reference(x), Reference(y)) => CompareStringEqual(x, y);
    case (Bytes(x), Bytes(y)) => BytesOrder(x, y, x);
    case _ =>
  }

  lemma {:induction false} MapEquality(a: Value, b: Value)
    requires a.Map? && b.Map?
    ensures TransformEqual(a, b) <==> Compare(a, b) == Equal && SameUnset(a, b)
    decreases a, 1, |a.fields| + 2
  {
    hide TransformEqual, SameUnset, Compare, CompareEntries, SortedKeys;
    MapsTie(a, b);
    MapDefinitions(a, b);
    EntriesDefine(a, b);
  }

  lemma MapDefinitions(a: Value, b: Value)
    requires a.Map? && b.Map?
    ensures TransformEqual(a, b)
       <==> && |a.fields| == |b.fields|
            && forall k :: k in a.fields ==> k in b.fields && TransformEqual(a.fields[k], b.fields[k])
    ensures SameUnset(a, b) <==> forall k :: k in a.fields && k in b.fields ==> SameUnset(a.fields[k], b.fields[k])
  {
    hide Compare;
  }

  lemma {:induction false} ListsTie(a: seq<Value>, b: seq<Value>)
    ensures CompareLists(a, b) == Equal ==> |a| == |b|
    ensures (|a| == |b| && forall i :: 0 <= i < |a| ==> TransformEqual(a[i], b[i]))
       <==> (CompareLists(a, b) == Equal && forall i :: 0 <= i < |a| && i < |b| ==> SameUnset(a[i], b[i]))
    decreases a, 1, 0
  {
    if a != [] && b != [] {
      EqualityIsTie(a[0], b[0]);
      ListsTie(a[1..], b[1..]);
      assert forall i :: 0 <= i < |a[1..]| ==> a[1..][i] == a[i + 1];
      assert forall i :: 0 <= i < |b[1..]| ==> b[1..][i] == b[i + 1];
      assert forall i :: 1 <= i < |a| ==> a[i] == a[1..][i - 1];
      assert forall i :: 1 <= i < |b| ==> b[i] == b[1..][i - 1];
    }
  }

  lemma {:induction false} MapsTie(a: Value, b: Value)
    requires a.Map? && b.Map?
    ensures (|a.fields| == |b.fields|
             && forall k :: k in a.fields ==> k in b.fields && TransformEqual(a.fields[k], b.fields[k]))
       <==> (CompareEntries(a, SortedKeys(a.fields.Keys), b, SortedKeys(b.fields.Keys)) == Equal
             && forall k :: k in a.fields && k in b.fields ==> SameUnset(a.fields[k], b.fields[k]))
    decreases a, 1, |a.fields| + 1
  {
    var ak, bk := SortedKeys(a.fields.Keys), SortedKeys(b.fields.Keys);
    EntriesTie(a, ak, b, bk);
    hide TransformEqual, SameUnset, CompareEntries, Ascending, SortedKeys;
    assert |a.fields.Keys| == |a.fields| && |b.fields.Keys| == |b.fields|;
    if ak == bk {
      assert forall k :: k in a.fields <==> k in b.fields;
      assert a.fields.Keys == b.fields.Keys;
    } else {
      assert a.fields.Keys != b.fields.Keys;
      if |a.fields| == |b.fields| && forall k :: k in a.fields ==> k in b.fields {
        SubsetSize(a.fields.Keys, b.fields.Keys);
      }
    }
  }

  lemma {:induction false} EntriesTie(a: Value, ak: seq<string>, b: Value, bk: seq<string>)
    requires a.Map? && b.Map? && (forall k :: k in ak ==> k in a.fields) && (forall k :: k in bk ==> k in b.fields)
    ensures CompareEntries(a, ak, b, bk) == Equal ==> ak == bk
    ensures ak == bk ==>
              ((forall k :: k in ak ==> TransformEqual(a.fields[k], b.fields[k]))
               <==> && CompareEntries(a, ak, b, bk) == Equal
                    && forall k :: k in ak ==> SameUnset(a.fields[k], b.fields[k]))
    decreases a, 1, |ak|
  {
    if ak != [] && bk != [] {
      CompareStringEqual(ak[0], bk[0]);
      assert ak == [ak[0]] + ak[1..] && bk == [bk[0]] + bk[1..];
      EntriesTie(a, ak[1..], b, bk[1..]);
      if ak[0] == bk[0] { EqualityIsTie(a.fields[ak[0]], b.fields[ak[0]]); }
    }
  }

  lemma {:induction false} NoUnsetLinesUp(a: Value, b: Value)
    requires NoUnset(a) && NoUnset(b)
    ensures SameUnset(a, b)
    decreases a
  {
    if a.Array? && b.Array? {
      forall i | 0 <= i < |a.values| && i < |b.values| ensures SameUnset(a.values[i], b.values[i]) {
        NoUnsetLinesUp(a.values[i], b.values[i]);
      }
    }
    if a.Map? && b.Map? {
      forall k | k in a.fields && k in b.fields ensures SameUnset(a.fields[k], b.fields[k]) {
        NoUnsetLinesUp(a.fields[k], b.fields[k]);
      }
    }
  }

  /** On values with nothing unset the two notions of equality agree. */
  lemma EqualityAgrees(a: Value, b: Value)
    requires NoUnset(a) && NoUnset(b)
    ensures Compare(a, b) == Equal <==> TransformEqual(a, b)
  {
    NoUnsetLinesUp(a, b);
    EqualityIsTie(a, b);
  }

  /** Without that condition they differ: an unset value ties with null. */
  lemma UnsetTiesWithNull()
    ensures Compare(Unset, Null) == Equal && !TransformEqual(Unset, Null)
  {
  }

  // ----- Array union -------------------------------------------------------

  predicate Among(v: Value, values: seq<Value>) {
    exists i :: 0 <= i < |values| && TransformEqual(values[i], v)
  }

  /** Appends the candidates that are not equal to an element already there. */
  function Union(values: seq<Value>, candidates: seq<Value>): seq<Value>
    decreases |candidates|
  {
    if candidates == [] then values
    else Union(if Among(candidates[0], values) then values else values + [candidates[0]], candidates[1..])
  }

  lemma {:induction false} TransformReflexive(v: Value)
    ensures TransformEqual(v, v)
  {
    EqualityIsTie(v, v);
    CompareReverse(v, v);
    AlignedWithItself(v);
  }

  lemma {:induction false} AlignedWithItself(v: Value)
    ensures SameUnset(v, v)
    decreases v
  {
    if v.Array? {
      forall i | 0 <= i < |v.values| ensures SameUnset(v.values[i], v.values[i]) { AlignedWithItself(v.values[i]); }
    }
    if v.Map? {
      forall k | k in v.fields ensures SameUnset(v.fields[k], v.fields[k]) { AlignedWithItself(v.fields[k]); }
    }
  }

  /** Union keeps the array, adds every candidate, and adds nothing twice. */
  lemma {:induction false} UnionComplete(values: seq<Value>, candidates: seq<Value>)
    ensures values <= Union(values, candidates)
    ensures forall i :: 0 <= i < |candidates| ==> Among(candidates[i], Union(values, candidates))
    ensures forall j :: |values| <= j < |Union(values, candidates)| ==>
              Union(values, candidates)[j] in candidates
              && !Among(Union(values, candidates)[j], Union(values, candidates)[..j])
    decreases |candidates|
  {
    if candidates != [] {
      var c := candidates[0];
      var next := if Among(c, values) then values else values + [c];
      UnionComplete(next, candidates[1..]);
      var all := Union(values, candidates);
      if Among(c, values) {
        var k :| 0 <= k < |values| && TransformEqual(values[k], c);
        assert all[k] == values[k];
      } else {
        TransformReflexive(c);
        assert all[|values|] == c && all[..|values|] == values;
      }
      forall i | 0 <= i < |candidates| ensures Among(candidates[i], all) {
        if i > 0 { assert candidates[i] == candidates[1..][i - 1]; }
      }
    }
  }

  /** Applying the same union again changes nothing. */
  lemma UnionIdempotent(values: seq<Value>, candidates: seq<Value>)
    ensures Union(Union(values, candidates), candidates) == Union(values, candidates)
  {
    UnionComplete(values, candidates);
    NothingNew(Union(values, candidates), candidates);
  }

  lemma {:induction false} NothingNew(values: seq<Value>, candidates: seq<Value>)
    requires forall i :: 0 <= i < |candidates| ==> Among(candidates[i], values)
    ensures Union(values, candidates) == values
    decreases |candidates|
  {
    if candidates != [] {
      assert Among(candidates[0], values);
      forall i | 0 <= i < |candidates[1..]| ensures Among(candidates[1..][i], values) {
        assert candidates[1..][i] == candidates[i + 1];
      }
      NothingNew(values, candidates[1..]);
    }
  }
}
