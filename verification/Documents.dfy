/** Nested fields and update masks (src/firestore.rs, nested_get, nested_set and
    merge_document). */
module Documents {
  import opened Wrappers
  import opened Values
  import opened FieldPaths

  type Fields = map<string, Value>

  /** Two field paths overlap when one is a prefix of the other. */
  predicate Overlap(p: seq<string>, q: seq<string>) {
    p <= q || q <= p
  }

  function NestedGet(fields: Fields, path: seq<string>): Option<Value>
    requires path != []
    decreases |path|
  {
    if path[0] !in fields then None
    else if |path| == 1 then Some(fields[path[0]])
    else match fields[path[0]]
      case Map(inner) => NestedGet(inner, path[1..])
      case _ => None
  }

  /** The fields of the map at this name, or none. */
  function Inner(fields: Fields, head: string): Fields {
    if head in fields && fields[head].Map? then fields[head].fields else map[]
  }

  /** Sets the value at a path, creating maps on the way; None removes it. */
  function NestedSet(fields: Fields, path: seq<string>, value: Option<Value>): Fields
    requires path != []
    decreases |path|
  {
    var head := path[0];
    if |path| == 1 then
      if value.Some? then fields[head := value.value] else fields - {head}
    else if value.None? && (head !in fields || !fields[head].Map?) then fields
    else
      fields[head := Map(NestedSet(Inner(fields, head), path[1..], value))]
  }

  lemma SetsCommuteAcross(fields: Fields, p: seq<string>, v: Option<Value>, q: seq<string>, w: Option<Value>)
    requires p != [] && q != [] && p[0] != q[0]
    ensures NestedSet(NestedSet(fields, p, v), q, w) == NestedSet(NestedSet(fields, q, w), p, v)
  {
    hide NestedSet;
    SetOnlyHead(fields, p, v);
    SetOnlyHead(fields, q, w);
    SetOnlyHead(NestedSet(fields, p, v), q, w);
    SetOnlyHead(NestedSet(fields, q, w), p, v);
    assert AgreeAt(NestedSet(fields, p, v), fields, q[0]) && AgreeAt(NestedSet(fields, q, w), fields, p[0]);
    SetReadsHead(fields, NestedSet(fields, p, v), q, w);
    SetReadsHead(fields, NestedSet(fields, q, w), p, v);
    var f, g := NestedSet(NestedSet(fields, p, v), q, w), NestedSet(NestedSet(fields, q, w), p, v);
    forall k ensures AgreeAt(f, g, k) {
      assert k != p[0] ==> AgreeAt(g, NestedSet(fields, q, w), k) && AgreeAt(NestedSet(fields, p, v), fields, k);
      assert k != q[0] ==> AgreeAt(f, NestedSet(fields, p, v), k) && AgreeAt(NestedSet(fields, q, w), fields, k);
    }
    AgreeEverywhere(f, g);
  }

  lemma AgreeEverywhere(f: Fields, g: Fields)
    requires forall k :: AgreeAt(f, g, k)
    ensures f == g
  {
    forall k ensures k in f <==> k in g { assert AgreeAt(f, g, k); }
    forall k | k in f ensures f[k] == g[k] { assert AgreeAt(f, g, k); }
  }

  predicate AgreeAt(f: Fields, g: Fields, k: string) {
    (k in f <==> k in g) && (k in f ==> f[k] == g[k])
  }

  lemma SetOnlyHead(fields: Fields, p: seq<string>, v: Option<Value>)
    requires p != []
    ensures forall k :: k != p[0] ==> AgreeAt(NestedSet(fields, p, v), fields, k)
  {
  }

  lemma SetReadsHead(f: Fields, g: Fields, p: seq<string>, v: Option<Value>)
    requires p != [] && AgreeAt(f, g, p[0])
    ensures AgreeAt(NestedSet(f, p, v), NestedSet(g, p, v), p[0])
  {
  }

  /** The step of NestedSet below a shared first segment. */
  lemma SetBelow(fields: Fields, p: seq<string>, v: Option<Value>)
    requires |p| > 1
    ensures Inner(NestedSet(fields, p, v), p[0]) == NestedSet(Inner(fields, p[0]), p[1..], v)
    ensures NestedSet(fields, p, v)
         == if v.None? && !(p[0] in fields && fields[p[0]].Map?) then fields
            else fields[p[0] := Map(NestedSet(Inner(fields, p[0]), p[1..], v))]
  {
    if v.None? { RemoveFromNothing(p[1..]); }
  }

  /** Writes to paths that do not overlap commute exactly. */
  lemma {:induction false} SetsCommute(fields: Fields, p: seq<string>, v: Option<Value>, q: seq<string>,
                                       w: Option<Value>)
    requires p != [] && q != [] && !Overlap(p, q)
    ensures NestedSet(NestedSet(fields, p, v), q, w) == NestedSet(NestedSet(fields, q, w), p, v)
    decreases |p|
  {
    if p[0] != q[0] {
      SetsCommuteAcross(fields, p, v, q, w);
    } else {
      NoOverlapTail(p, q);
      SetsCommute(Inner(fields, p[0]), p[1..], v, q[1..], w);
      SetBelow(fields, p, v);
      SetBelow(fields, q, w);
      SetBelow(NestedSet(fields, p, v), q, w);
      SetBelow(NestedSet(fields, q, w), p, v);
      hide NestedSet;
    }
  }

  lemma NoOverlapTail(p: seq<string>, q: seq<string>)
    requires p != [] && q != [] && p[0] == q[0] && !Overlap(p, q)
    ensures |p| > 1 && |q| > 1 && !Overlap(p[1..], q[1..])
  {
    assert p == [p[0]] + p[1..] && q == [q[0]] + q[1..];
    assert |p| == 1 ==> p <= q;
    assert |q| == 1 ==> q <= p;
  }

  lemma RemoveFromNothing(p: seq<string>)
    requires p != []
    ensures NestedSet(map[], p, None) == map[]
  {
  }

  // ----- Reads after writes ------------------------------------------------

  lemma {:induction false} GetAfterSet(fields: Fields, p: seq<string>, v: Option<Value>)
    requires p != []
    ensures NestedGet(NestedSet(fields, p, v), p) == v
    decreases |p|
  {
    if |p| > 1 { GetAfterSet(Inner(fields, p[0]), p[1..], v); }
  }

  lemma {:induction false} GetElsewhere(fields: Fields, p: seq<string>, v: Option<Value>, q: seq<string>)
    requires p != [] && q != [] && !Overlap(p, q)
    ensures NestedGet(NestedSet(fields, p, v), q) == NestedGet(fields, q)
    decreases |p|
  {
    if p[0] == q[0] {
      NoOverlapTail(p, q);
      GetElsewhere(Inner(fields, p[0]), p[1..], v, q[1..]);
    } else {
      SetOnlyHead(fields, p, v);
    }
  }

  // ----- Update masks ------------------------------------------------------

  datatype Document = Document(name: string, fields: Fields, createTime: Option<Time>, updateTime: Option<Time>)

  predicate Apart(paths: seq<seq<string>>) {
    && (forall i :: 0 <= i < |paths| ==> paths[i] != [])
    && (forall i, j :: 0 <= i < j < |paths| ==> !Overlap(paths[i], paths[j]))
  }

  /** Copies the masked paths from one field map into another, in mask order. */
  function MergeFields(fields: Fields, incoming: Fields, paths: seq<seq<string>>): Fields
    requires forall i :: 0 <= i < |paths| ==> paths[i] != []
    decreases |paths|
  {
    if paths == [] then fields
    else MergeFields(NestedSet(fields, paths[0], NestedGet(incoming, paths[0])), incoming, paths[1..])
  }

  function ParseMask(mask: seq<string>): (r: Result<seq<seq<string>>, Status>)
    ensures r.Success? ==>
              |r.value| == |mask| && forall i :: 0 <= i < |mask| ==> FieldPath(mask[i]) == Success(r.value[i])
    ensures r.Failure? ==> r.error == InvalidArgument
    ensures r.Failure? <==> exists i :: 0 <= i < |mask| && FieldPath(mask[i]).Failure?
    decreases |mask|
  {
    if mask == [] then Success([])
    else
      var last := |mask| - 1;
      match ParseMask(mask[..last])
      case Failure(e) =>
        assert exists i :: 0 <= i < last && FieldPath(mask[..last][i]).Failure?;
        Failure(e)
      case Success(paths) =>
        match FieldPath(mask[last])
        case Failure(e) => Failure(e)
        case Success(path) =>
          assert forall i :: 0 <= i < last ==> mask[..last][i] == mask[i];
          Success(paths + [path])
  }

  lemma ParsedNonEmpty(mask: seq<string>)
    requires ParseMask(mask).Success?
    ensures forall i :: 0 <= i < |mask| ==> ParseMask(mask).value[i] != []
  {
    forall i | 0 <= i < |mask| ensures ParseMask(mask).value[i] != [] { AcceptedSegments(mask[i]); }
  }

  function MergeDocument(existing: Option<Document>, incoming: Document,
                         mask: Option<seq<string>>): (r: Result<Document, Status>)
    ensures r.Success? ==> r.value.name == incoming.name
  {
    if mask.None? then Success(incoming)
    else if ParseMask(mask.value).Failure? then Failure(InvalidArgument)
    else
      ParsedNonEmpty(mask.value);
      var paths := ParseMask(mask.value).value;
      if !Apart(paths) then Failure(InvalidArgument)
      else
        var base := if existing.Some? then existing.value.fields else map[];
        Success(incoming.(fields := MergeFields(base, incoming.fields, paths)))
  }

  /** After a merge every masked path reads as in the incoming document, and
      every path apart from the mask reads as before. */
  lemma {:induction false} MergeReads(fields: Fields, incoming: Fields, paths: seq<seq<string>>)
    requires Apart(paths)
    ensures var merged := MergeFields(fields, incoming, paths);
            && (forall i :: 0 <= i < |paths| ==> NestedGet(merged, paths[i]) == NestedGet(incoming, paths[i]))
            && (forall q: seq<string> :: q != [] && (forall i :: 0 <= i < |paths| ==> !Overlap(paths[i], q)) ==>
                  NestedGet(merged, q) == NestedGet(fields, q))
    decreases |paths|
  {
    if paths != [] {
      var p, rest := paths[0], paths[1..];
      var next := NestedSet(fields, p, NestedGet(incoming, p));
      var merged := MergeFields(fields, incoming, paths);
      assert forall i :: 0 <= i < |rest| ==> rest[i] == paths[i + 1];
      assert Apart(rest);
      MergeReads(next, incoming, rest);
      GetAfterSet(fields, p, NestedGet(incoming, p));
      assert NestedGet(merged, p) == NestedGet(incoming, p) by {
        forall i | 0 <= i < |rest| ensures !Overlap(rest[i], p) { assert !Overlap(paths[0], paths[i + 1]); }
      }
      forall i | 0 <= i < |paths| ensures NestedGet(merged, paths[i]) == NestedGet(incoming, paths[i]) {
        if i > 0 { assert paths[i] == rest[i - 1]; }
      }
      forall q: seq<string> | q != [] && forall i :: 0 <= i < |paths| ==> !Overlap(paths[i], q)
        ensures NestedGet(merged, q) == NestedGet(fields, q)
      {
        assert !Overlap(paths[0], q);
        forall i | 0 <= i < |rest| ensures !Overlap(rest[i], q) { assert rest[i] == paths[i + 1]; }
        GetElsewhere(fields, p, NestedGet(incoming, p), q);
      }
    }
  }

  function Without(paths: seq<seq<string>>, k: nat): seq<seq<string>>
    requires k < |paths|
  {
    paths[..k] + paths[k + 1..]
  }

  lemma WithoutApart(paths: seq<seq<string>>, k: nat)
    requires Apart(paths) && k < |paths|
    ensures Apart(Without(paths, k)) && Apart(paths[1..])
    ensures paths[k] != [] && (k > 0 ==> !Overlap(paths[0], paths[k]))
    ensures k > 0 ==> Without(paths, k) == [paths[0]] + Without(paths[1..], k - 1) && paths[1..][k - 1] == paths[k]
    ensures k == 0 ==> Without(paths, k) == paths[1..]
  {
    var others := Without(paths, k);
    assert forall i :: 0 <= i < |others| ==> others[i] == paths[if i < k then i else i + 1];
    assert forall i :: 0 <= i < |paths[1..]| ==> paths[1..][i] == paths[i + 1];
  }

  lemma MergeCons(fields: Fields, incoming: Fields, p: seq<string>, rest: seq<seq<string>>)
    requires Apart([p] + rest)
    ensures p != [] && Apart(rest)
    ensures MergeFields(fields, incoming, [p] + rest)
         == MergeFields(NestedSet(fields, p, NestedGet(incoming, p)), incoming, rest)
  {
    var paths := [p] + rest;
    assert paths[0] == p && paths[1..] == rest;
    assert forall i :: 0 <= i < |rest| ==> rest[i] == paths[i + 1];
  }

  /** A masked path that comes later can be written first. */
  lemma {:induction false} MergeMoveFirst(fields: Fields, incoming: Fields, paths: seq<seq<string>>, k: nat)
    requires Apart(paths) && k < |paths|
    ensures paths[k] != [] && Apart(Without(paths, k))
    ensures MergeFields(fields, incoming, paths)
         == MergeFields(NestedSet(fields, paths[k], NestedGet(incoming, paths[k])), incoming, Without(paths, k))
    decreases k
  {
    var p, q, rest := paths[0], paths[k], paths[1..];
    WithoutApart(paths, k);
    assert paths == [p] + rest;
    MergeCons(fields, incoming, p, rest);
    hide Apart, MergeFields, Overlap;
    if k > 0 {
      MergeMoveFirst(NestedSet(fields, p, NestedGet(incoming, p)), incoming, rest, k - 1);
      MergeCons(NestedSet(fields, q, NestedGet(incoming, q)), incoming, p, Without(rest, k - 1));
      SetsCommute(fields, p, NestedGet(incoming, p), q, NestedGet(incoming, q));
    }
  }

  lemma TakeOut(paths: seq<seq<string>>, shuffled: seq<seq<string>>) returns (k: nat)
    requires multiset(paths) == multiset(shuffled) && shuffled != []
    ensures k < |paths| && paths[k] == shuffled[0]
    ensures multiset(Without(paths, k)) == multiset(shuffled[1..])
  {
    MultisetCons(shuffled);
    assert shuffled[0] in multiset(paths);
    k :| 0 <= k < |paths| && paths[k] == shuffled[0];
    MultisetSplit(paths, k);
    assert multiset(paths) - multiset{paths[k]} == multiset(Without(paths, k));
    assert multiset(shuffled) - multiset{paths[k]} == multiset(shuffled[1..]);
  }

  lemma MultisetCons(paths: seq<seq<string>>)
    requires paths != []
    ensures multiset(paths) == multiset{paths[0]} + multiset(paths[1..])
  {
    assert paths == [paths[0]] + paths[1..];
  }

  lemma MultisetSplit(paths: seq<seq<string>>, k: nat)
    requires k < |paths|
    ensures multiset(paths) == multiset{paths[k]} + multiset(Without(paths, k))
  {
    assert paths == paths[..k] + paths[k..];
    MultisetCons(paths[k..]);
    assert paths[k..][1..] == paths[k + 1..];
  }

  lemma ApartCons(paths: seq<seq<string>>, k: nat, rest: seq<seq<string>>)
    requires Apart(paths) && k < |paths| && Apart(rest)
    requires multiset(Without(paths, k)) == multiset(rest)
    ensures Apart([paths[k]] + rest)
  {
    var others := Without(paths, k);
    forall j | 0 <= j < |rest| ensures !Overlap(paths[k], rest[j]) {
      assert rest[j] in multiset(others);
      var i :| 0 <= i < |others| && others[i] == rest[j];
      assert others[i] == paths[if i < k then i else i + 1];
    }
  }

  /** The order of the paths in a mask does not matter. */
  lemma {:induction false} MergeOrderIrrelevant(fields: Fields, incoming: Fields, paths: seq<seq<string>>,
                                                shuffled: seq<seq<string>>)
    requires Apart(paths) && multiset(paths) == multiset(shuffled)
    ensures Apart(shuffled)
    ensures MergeFields(fields, incoming, paths) == MergeFields(fields, incoming, shuffled)
    decreases |shuffled|
  {
    if shuffled == [] {
      assert |multiset(paths)| == |paths|;
    } else {
      var k := TakeOut(paths, shuffled);
      var first, rest := shuffled[0], shuffled[1..];
      MergeMoveFirst(fields, incoming, paths, k);
      hide MergeFields, Apart;
      MergeOrderIrrelevant(NestedSet(fields, first, NestedGet(incoming, first)), incoming, Without(paths, k), rest);
      ApartCons(paths, k, rest);
      assert shuffled == [first] + rest;
      MergeCons(fields, incoming, first, rest);
    }
  }

  /** The merge as the source runs it: parse, compare all pairs, then set in place. */
  method MergeInPlace(existing: Option<Document>, incoming: Document, mask: Option<seq<string>>)
    returns (r: Result<Document, Status>)
    ensures r == MergeDocument(existing, incoming, mask)
  {
    if mask.None? { return Success(incoming); }
    var parsed := ParseMask(mask.value);
    if parsed.Failure? { return Failure(parsed.error); }
    ParsedNonEmpty(mask.value);
    var paths := parsed.value;
    for i := 0 to |paths|
      invariant forall a, b :: 0 <= a < i && a < b < |paths| ==> !Overlap(paths[a], paths[b])
    {
      for j := i + 1 to |paths|
        invariant forall b :: i < b < j ==> !Overlap(paths[i], paths[b])
      {
        if paths[i] <= paths[j] || paths[j] <= paths[i] {
          assert Overlap(paths[i], paths[j]);
          return Failure(InvalidArgument);
        }
      }
    }
    assert Apart(paths);
    var fields := if existing.Some? then existing.value.fields else map[];
    ghost var base := fields;
    for i := 0 to |paths|
      invariant MergeFields(base, incoming.fields, paths) == MergeFields(fields, incoming.fields, paths[i..])
    {
      assert paths[i..][1..] == paths[i + 1..];
      fields := NestedSet(fields, paths[i], NestedGet(incoming.fields, paths[i]));
    }
    r := Success(incoming.(fields := fields));
  }
}
