/** Firestore writes (src/firestore.rs, apply_write and apply_update_transforms)
    and batches of them. */
module Writes {
  import opened Wrappers
  import opened Values
  import opened ValueOrder
  import opened FieldPaths
  import opened Documents
  import opened Resources
  import opened Events

  /** The request time and the arithmetic of doubles, which stays abstract. */
  datatype Context = Context(now: Time, add: (Double, Double) -> Double, widen: i64 -> Double)

  datatype Condition = Exists(expected: bool) | UpdatedAt(time: Time)

  datatype Transform =
    | Increment(operand: Value)
    | AppendMissing(elements: seq<Value>)
    | RequestTime
    | Unsupported

  datatype FieldTransform = FieldTransform(path: string, kind: Transform)

  datatype Operation = Update(document: Document) | Delete(name: string) | DocumentTransform(name: string) | NoOperation

  datatype Write = Write(operation: Operation, condition: Option<Condition>, transforms: seq<FieldTransform>,
                         mask: Option<seq<string>>)

  datatype WriteResult = WriteResult(updateTime: Option<Time>, transformResults: seq<Value>)

  const DEFAULT_RESULT := WriteResult(None, [])

  // ----- Transforms --------------------------------------------------------

  function SaturatingAdd(a: i64, b: i64): i64 {
    var sum := a as int + b as int;
    if sum < MIN_I64 then MIN_I64 as i64 else if sum >= TWO_63 then (TWO_63 - 1) as i64 else sum as i64
  }

  function NumericIncrement(cx: Context, current: Option<Value>, operand: Value): Result<Value, Status> {
    var held := if current.Some? then current.value else Unset;
    match (held, operand)
    case (Integer(a), Integer(b)) => Success(Integer(SaturatingAdd(a, b)))
    case (Integer(a), DoubleValue(b)) => Success(DoubleValue(cx.add(cx.widen(a), b)))
    case (DoubleValue(a), Integer(b)) => Success(DoubleValue(cx.add(a, cx.widen(b))))
    case (DoubleValue(a), DoubleValue(b)) => Success(DoubleValue(cx.add(a, b)))
    case (_, Integer(b)) => Success(Integer(b))
    case (_, DoubleValue(b)) => Success(DoubleValue(b))
    case _ => Failure(InvalidArgument)
  }

  function TransformResult(cx: Context, current: Option<Value>, kind: Transform): Result<Value, Status> {
    match kind
    case Increment(operand) => NumericIncrement(cx, current, operand)
    case AppendMissing(elements) =>
      Success(Array(Union(if current.Some? && current.value.Array? then current.value.values else [], elements)))
    case RequestTime => Success(Timestamp(cx.now.seconds, cx.now.nanos))
    case Unsupported => Failure(Unimplemented)
  }

  datatype Transformed = Transformed(fields: Fields, results: seq<Value>)

  function ApplyTransform(cx: Context, fields: Fields, transform: FieldTransform): Result<Transformed, Status> {
    if transform.kind.Unsupported? then Failure(Unimplemented)
    else if FieldPath(transform.path).Failure? then Failure(InvalidArgument)
    else
      AcceptedSegments(transform.path);
      var path := FieldPath(transform.path).value;
      match TransformResult(cx, NestedGet(fields, path), transform.kind)
      case Failure(e) => Failure(e)
      case Success(value) => Success(Transformed(NestedSet(fields, path, Some(value)), [value]))
  }

  function ApplyTransforms(cx: Context, fields: Fields, transforms: seq<FieldTransform>): Result<Transformed, Status>
    decreases |transforms|
  {
    if transforms == [] then Success(Transformed(fields, []))
    else
      match ApplyTransform(cx, fields, transforms[0])
      case Failure(e) => Failure(e)
      case Success(one) =>
        match ApplyTransforms(cx, one.fields, transforms[1..])
        case Failure(e) => Failure(e)
        case Success(rest) => Success(Transformed(rest.fields, one.results + rest.results))
  }

  method RunTransforms(cx: Context, document: Document, transforms: seq<FieldTransform>)
    returns (r: Result<Transformed, Status>)
    ensures r == ApplyTransforms(cx, document.fields, transforms)
  {
    var fields, results: seq<Value> := document.fields, [];
    PrependEnds(fields, [], ApplyTransforms(cx, fields, transforms));
    assert transforms[0..] == transforms;
    for i := 0 to |transforms|
      invariant ApplyTransforms(cx, document.fields, transforms)
             == WithResults(results, ApplyTransforms(cx, fields, transforms[i..]))
    {
      hide ApplyTransform, WithResults;
      TransformsStep(cx, results, fields, transforms, i);
      var one := ApplyTransform(cx, fields, transforms[i]);
      if one.Failure? { return Failure(one.error); }
      fields, results := one.value.fields, results + one.value.results;
    }
    assert transforms[|transforms|..] == [];
    PrependEnds(fields, results, ApplyTransforms(cx, fields, []));
    r := Success(Transformed(fields, results));
  }

  lemma PrependEnds(fields: Fields, results: seq<Value>, r: Result<Transformed, Status>)
    ensures WithResults([], r) == r
    ensures WithResults(results, Success(Transformed(fields, []))) == Success(Transformed(fields, results))
  {
    assert r.Success? ==> [] + r.value.results == r.value.results;
    assert results + [] == results;
  }

  function WithResults(results: seq<Value>, r: Result<Transformed, Status>): Result<Transformed, Status> {
    match r
    case Failure(e) => Failure(e)
    case Success(t) => Success(Transformed(t.fields, results + t.results))
  }

  lemma TransformsStep(cx: Context, results: seq<Value>, fields: Fields, transforms: seq<FieldTransform>, i: nat)
    requires i < |transforms|
    ensures WithResults(results, ApplyTransforms(cx, fields, transforms[i..]))
         == match ApplyTransform(cx, fields, transforms[i])
            case Failure(e) => Failure(e)
            case Success(one) => WithResults(results + one.results,
                                             ApplyTransforms(cx, one.fields, transforms[i + 1..]))
  {
    hide ApplyTransform;
    assert transforms[i..][1..] == transforms[i + 1..];
    var one := ApplyTransform(cx, fields, transforms[i]);
    if one.Success? {
      var rest := ApplyTransforms(cx, one.value.fields, transforms[i + 1..]);
      if rest.Success? {
        assert results + (one.value.results + rest.value.results) == results + one.value.results + rest.value.results;
      }
    }
  }

  function PathsOf(transforms: seq<FieldTransform>): (paths: seq<seq<string>>)
    ensures |paths| == |transforms|
    decreases |transforms|
  {
    if transforms == [] then []
    else [FieldPath(transforms[0].path).GetOr([])] + PathsOf(transforms[1..])
  }

  /** When their paths do not overlap, every transformed path holds the reported
      result, and every path apart from them is as before. */
  lemma {:induction false} TransformsRead(cx: Context, fields: Fields, transforms: seq<FieldTransform>)
    requires ApplyTransforms(cx, fields, transforms).Success? && Apart(PathsOf(transforms))
    ensures var t, paths := ApplyTransforms(cx, fields, transforms).value, PathsOf(transforms);
            && |t.results| == |transforms|
            && (forall i :: 0 <= i < |paths| ==> NestedGet(t.fields, paths[i]) == Some(t.results[i]))
            && (forall q: seq<string> :: q != [] && (forall i :: 0 <= i < |paths| ==> !Overlap(paths[i], q)) ==>
                  NestedGet(t.fields, q) == NestedGet(fields, q))
    decreases |transforms|
  {
    hide ApplyTransform, NestedGet, Apart, Overlap;
    if transforms != [] {
      var paths := PathsOf(transforms);
      var p, rest := paths[0], paths[1..];
      assert rest == PathsOf(transforms[1..]);
      var one := ApplyTransform(cx, fields, transforms[0]).value;
      ApartTail(paths);
      TransformsRead(cx, one.fields, transforms[1..]);
      TransformOneReads(cx, fields, transforms[0]);
      var t := ApplyTransforms(cx, fields, transforms).value;
      assert NestedGet(t.fields, p) == NestedGet(one.fields, p);
      forall i | 0 <= i < |paths| ensures NestedGet(t.fields, paths[i]) == Some(t.results[i]) {
        if i > 0 { assert paths[i] == rest[i - 1]; }
      }
      forall q: seq<string> | q != [] && forall i :: 0 <= i < |paths| ==> !Overlap(paths[i], q)
        ensures NestedGet(t.fields, q) == NestedGet(fields, q)
      {
        forall i | 0 <= i < |rest| ensures !Overlap(rest[i], q) { assert rest[i] == paths[i + 1]; }
        assert !Overlap(paths[0], q);
      }
    }
  }

  lemma ApartTail(paths: seq<seq<string>>)
    requires Apart(paths) && paths != []
    ensures Apart(paths[1..]) && forall i :: 0 <= i < |paths| ==> paths[i] != []
    ensures forall i :: 0 <= i < |paths[1..]| ==> !Overlap(paths[1..][i], paths[0])
  {
    var rest := paths[1..];
    assert forall i :: 0 <= i < |rest| ==> rest[i] == paths[i + 1];
    hide Overlap;
    forall i | 0 <= i < |rest| ensures !Overlap(rest[i], paths[0]) {
      assert !Overlap(paths[0], paths[i + 1]);
      OverlapSymmetric(paths[0], rest[i]);
    }
  }

  lemma OverlapSymmetric(p: seq<string>, q: seq<string>)
    ensures Overlap(p, q) == Overlap(q, p)
  {
  }

  lemma TransformOneReads(cx: Context, fields: Fields, transform: FieldTransform)
    requires ApplyTransform(cx, fields, transform).Success?
    ensures var one, p := ApplyTransform(cx, fields, transform).value, FieldPath(transform.path).GetOr([]);
            && |one.results| == 1 && p != [] && NestedGet(one.fields, p) == Some(one.results[0])
            && forall q: seq<string> :: q != [] && !Overlap(p, q) ==> NestedGet(one.fields, q) == NestedGet(fields, q)
  {
    AcceptedSegments(transform.path);
    var p := FieldPath(transform.path).value;
    var one := ApplyTransform(cx, fields, transform).value;
    GetAfterSet(fields, p, Some(one.results[0]));
    hide FieldPath, TransformResult;
    forall q: seq<string> | q != [] && !Overlap(p, q) ensures NestedGet(one.fields, q) == NestedGet(fields, q) {
      GetElsewhere(fields, p, Some(one.results[0]), q);
    }
  }

  // ----- One write ---------------------------------------------------------

  predicate Meets(existing: Option<Document>, condition: Option<Condition>) {
    match condition
    case None => true
    case Some(Exists(expected)) => expected == existing.Some?
    case Some(UpdatedAt(time)) => existing.Some? && existing.value.updateTime == Some(time)
  }

  function NameOf(write: Write): Result<string, Status> {
    match write.operation
    case Update(document) => Success(document.name)
    case Delete(name) => Success(name)
    case DocumentTransform(name) => Success(name)
    case NoOperation => Failure(InvalidArgument)
  }

  /** What one write makes of the document of its name; None removes it. */
  datatype Written = Written(after: Option<Document>, result: WriteResult)

  function Effect(cx: Context, existing: Option<Document>, write: Write): Result<Written, Status> {
    match write.operation
    case Update(document) =>
      if !ValidDocumentName(document.name) then Failure(InvalidArgument)
      else if !Meets(existing, write.condition) then Failure(FailedPrecondition)
      else
        (match MergeDocument(existing, document, write.mask)
         case Failure(e) => Failure(e)
         case Success(merged) =>
           match ApplyTransforms(cx, merged.fields, write.transforms)
           case Failure(e) => Failure(e)
           case Success(t) =>
             var known := existing.Some? && existing.value.createTime.Some?;
             var created := if known then existing.value.createTime else Some(cx.now);
             Success(Written(Some(Document(merged.name, t.fields, created, Some(cx.now))),
                             WriteResult(Some(cx.now), t.results))))
    case Delete(name) =>
      if !ValidDocumentName(name) then Failure(InvalidArgument)
      else if !Meets(existing, write.condition) then Failure(FailedPrecondition)
      else Success(Written(None, WriteResult(Some(cx.now), [])))
    case DocumentTransform(_) => Failure(Unimplemented)
    case NoOperation => Failure(InvalidArgument)
  }

  function Put(store: Store, name: string, document: Option<Document>): Store {
    if document.Some? then store[name := document.value] else store - {name}
  }

  datatype Applied = Applied(store: Store, result: WriteResult)

  function ApplyWrite(cx: Context, store: Store, write: Write): Result<Applied, Status> {
    match NameOf(write)
    case Failure(e) => Failure(e)
    case Success(name) =>
      match Effect(cx, At(store, name), write)
      case Failure(e) => Failure(e)
      case Success(w) => Success(Applied(Put(store, name, w.after), w.result))
  }

  // ----- Batches -----------------------------------------------------------

  /** The state of a batch: the documents so far, and per write a result and the
      status it failed with, if it failed. */
  datatype Batch = Batch(store: Store, results: seq<WriteResult>, statuses: seq<Option<Status>>)

  function StepBatch(cx: Context, batch: Batch, write: Write, partial: bool): Result<Batch, Status> {
    match ApplyWrite(cx, batch.store, write)
    case Success(a) => Success(Batch(a.store, batch.results + [a.result], batch.statuses + [None]))
    case Failure(e) =>
      if partial then Success(Batch(batch.store, batch.results + [DEFAULT_RESULT], batch.statuses + [Some(e)]))
      else Failure(e)
  }

  function Fold(cx: Context, batch: Batch, writes: seq<Write>, partial: bool): Result<Batch, Status>
    decreases |writes|
  {
    if writes == [] then Success(batch)
    else
      match StepBatch(cx, batch, writes[0], partial)
      case Failure(e) => Failure(e)
      case Success(next) => Fold(cx, next, writes[1..], partial)
  }

  function Open(store: Store): Batch {
    Batch(store, [], [])
  }

  /** The loop every batch runs: stop at the first error, or record it and go on. */
  method RunBatch(cx: Context, store: Store, writes: seq<Write>, partial: bool) returns (r: Result<Batch, Status>)
    ensures r == Fold(cx, Open(store), writes, partial)
  {
    hide ApplyWrite;
    var batch := Open(store);
    for i := 0 to |writes|
      invariant Fold(cx, Open(store), writes, partial) == Fold(cx, batch, writes[i..], partial)
    {
      assert writes[i..][1..] == writes[i + 1..];
      var applied := ApplyWrite(cx, batch.store, writes[i]);
      match applied
      case Success(a) =>
        batch := Batch(a.store, batch.results + [a.result], batch.statuses + [None]);
      case Failure(e) =>
        if !partial { return Failure(e); }
        batch := Batch(batch.store, batch.results + [DEFAULT_RESULT], batch.statuses + [Some(e)]);
    }
    r := Success(batch);
  }

  /** Every write gets one result and one status, and a failed write's result is empty. */
  lemma {:induction false} FoldShape(cx: Context, batch: Batch, writes: seq<Write>, partial: bool)
    requires |batch.results| == |batch.statuses|
    ensures var r := Fold(cx, batch, writes, partial);
            && (partial ==> r.Success?)
            && (r.Success? ==>
                  && |r.value.results| == |r.value.statuses| == |batch.results| + |writes|
                  && batch.results <= r.value.results && batch.statuses <= r.value.statuses
                  && (forall i :: |batch.results| <= i < |r.value.results| && r.value.statuses[i].Some? ==>
                        partial && r.value.results[i] == DEFAULT_RESULT))
    decreases |writes|
  {
    hide ApplyWrite;
    if writes != [] {
      var step := StepBatch(cx, batch, writes[0], partial);
      if step.Success? { FoldShape(cx, step.value, writes[1..], partial); }
    }
  }

  // ----- Locality ----------------------------------------------------------

  predicate NamedIn(writes: seq<Write>, names: set<string>) {
    forall i :: 0 <= i < |writes| ==> NameOf(writes[i]).Success? && NameOf(writes[i]).value in names
  }

  function RestrictBatch(batch: Batch, names: set<string>): Batch {
    batch.(store := Restrict(batch.store, names))
  }

  function RestrictResult(r: Result<Batch, Status>, names: set<string>): Result<Batch, Status> {
    if r.Success? then Success(RestrictBatch(r.value, names)) else r
  }

  lemma PutLocal(store: Store, name: string, document: Option<Document>, names: set<string>)
    requires name in names
    ensures Restrict(Put(store, name, document), names) == Put(Restrict(store, names), name, document)
    ensures SameOutside(Put(store, name, document), store, names)
  {
  }

  lemma StepLocal(cx: Context, batch: Batch, write: Write, partial: bool, names: set<string>)
    requires NameOf(write).Success? && NameOf(write).value in names
    ensures StepBatch(cx, RestrictBatch(batch, names), write, partial)
         == RestrictResult(StepBatch(cx, batch, write, partial), names)
    ensures var r := StepBatch(cx, batch, write, partial); r.Success? ==> SameOutside(r.value.store, batch.store, names)
  {
    hide Effect;
    var name := NameOf(write).value;
    assert At(Restrict(batch.store, names), name) == At(batch.store, name);
    var w := Effect(cx, At(batch.store, name), write);
    if w.Success? { PutLocal(batch.store, name, w.value.after, names); }
    hide Put, Restrict;
  }

  /** A batch reads and writes only the documents it names: running it on those
      alone gives the same results and statuses and the same documents. */
  lemma {:induction false} FoldLocal(cx: Context, batch: Batch, writes: seq<Write>, partial: bool, names: set<string>)
    requires NamedIn(writes, names)
    ensures Fold(cx, RestrictBatch(batch, names), writes, partial)
         == RestrictResult(Fold(cx, batch, writes, partial), names)
    ensures var r := Fold(cx, batch, writes, partial); r.Success? ==> SameOutside(r.value.store, batch.store, names)
    decreases |writes|
  {
    if writes != [] {
      StepLocal(cx, batch, writes[0], partial, names);
      hide StepBatch, RestrictBatch, NameOf;
      var step := StepBatch(cx, batch, writes[0], partial);
      if step.Success? { FoldLocal(cx, step.value, writes[1..], partial, names); }
    }
  }
}
