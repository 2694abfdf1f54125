/** What a query's selection leaves of a document (src/firestore.rs, the end of
    query_docs). Selected paths may overlap. */
module Projections {
  import opened Wrappers
  import opened FieldPaths
  import opened Documents
  import opened Query

  // ----- Copying one path --------------------------------------------------

  /** Field maps that agree at a path agree at every path below it. */
  lemma {:induction false} AgreeBelow(f: Fields, g: Fields, p: seq<string>, q: seq<string>)
    requires p != [] && p <= q && NestedGet(f, p) == NestedGet(g, p)
    ensures NestedGet(f, q) == NestedGet(g, q)
    decreases |p|
  {
    assert q[0] == p[0];
    if |p| > 1 {
      if p[0] in f && f[p[0]].Map? && p[0] in g && g[p[0]].Map? {
        AgreeBelow(f[p[0]].fields, g[p[0]].fields, p[1..], q[1..]);
      } else if p[0] in f && f[p[0]].Map? {
        NothingBelow(f[p[0]].fields, p[1..], q[1..]);
      } else if p[0] in g && g[p[0]].Map? {
        NothingBelow(g[p[0]].fields, p[1..], q[1..]);
      }
    }
  }

  lemma {:induction false} NothingBelow(f: Fields, p: seq<string>, q: seq<string>)
    requires p != [] && p <= q && NestedGet(f, p).None?
    ensures NestedGet(f, q).None?
    decreases |p|
  {
    assert q[0] == p[0];
    if |p| > 1 && p[0] in f && f[p[0]].Map? { NothingBelow(f[p[0]].fields, p[1..], q[1..]); }
  }

  /** Setting what is there changes nothing. */
  lemma {:induction false} SetSame(f: Fields, q: seq<string>)
    requires q != []
    ensures NestedSet(f, q, NestedGet(f, q)) == f
    decreases |q|
  {
    if |q| > 1 && q[0] in f && f[q[0]].Map? { SetSame(f[q[0]].fields, q[1..]); }
  }

  /** Copying another path keeps what was already copied, overlapping or not. */
  lemma CopyKeeps(f: Fields, source: Fields, q: seq<string>, p: seq<string>)
    requires p != [] && q != [] && NestedGet(f, p) == NestedGet(source, p)
    ensures NestedGet(NestedSet(f, q, NestedGet(source, q)), p) == NestedGet(source, p)
  {
    hide NestedGet, NestedSet;
    if p <= q {
      AgreeBelow(f, source, p, q);
      SetSame(f, q);
    } else if q <= p {
      GetAfterSet(f, q, NestedGet(source, q));
      AgreeBelow(NestedSet(f, q, NestedGet(source, q)), source, q, p);
    } else {
      GetElsewhere(f, q, NestedGet(source, q), p);
    }
  }

  // ----- Copying a selection -----------------------------------------------

  predicate NonEmpty(paths: seq<seq<string>>) {
    forall i :: 0 <= i < |paths| ==> paths[i] != []
  }

  lemma {:induction false} CopiedStays(f: Fields, source: Fields, paths: seq<seq<string>>, p: seq<string>)
    requires NonEmpty(paths) && p != [] && NestedGet(f, p) == NestedGet(source, p)
    ensures NestedGet(MergeFields(f, source, paths), p) == NestedGet(source, p)
    decreases |paths|
  {
    hide NestedGet, NestedSet;
    if paths != [] {
      CopyKeeps(f, source, paths[0], p);
      CopiedStays(NestedSet(f, paths[0], NestedGet(source, paths[0])), source, paths[1..], p);
    }
  }

  lemma {:induction false} CopiedAll(f: Fields, source: Fields, paths: seq<seq<string>>, i: nat)
    requires NonEmpty(paths) && i < |paths|
    ensures NestedGet(MergeFields(f, source, paths), paths[i]) == NestedGet(source, paths[i])
    decreases |paths|
  {
    hide NestedGet, NestedSet;
    var next := NestedSet(f, paths[0], NestedGet(source, paths[0]));
    if i == 0 {
      GetAfterSet(f, paths[0], NestedGet(source, paths[0]));
      CopiedStays(next, source, paths[1..], paths[0]);
    } else {
      CopiedAll(next, source, paths[1..], i - 1);
    }
  }

  predicate Untouched(paths: seq<seq<string>>, q: seq<string>) {
    forall i :: 0 <= i < |paths| ==> !Overlap(paths[i], q)
  }

  lemma {:induction false} CopiedNoMore(f: Fields, source: Fields, paths: seq<seq<string>>, q: seq<string>)
    requires NonEmpty(paths) && q != [] && Untouched(paths, q)
    ensures NestedGet(MergeFields(f, source, paths), q) == NestedGet(f, q)
    decreases |paths|
  {
    hide NestedGet, NestedSet;
    if paths != [] {
      assert !Overlap(paths[0], q);
      GetElsewhere(f, paths[0], NestedGet(source, paths[0]), q);
      CopiedNoMore(NestedSet(f, paths[0], NestedGet(source, paths[0])), source, paths[1..], q);
    }
  }

  // ----- The projection of a document --------------------------------------

  /** The two documents read the same at this path, the document name included. */
  predicate ReadAlike(a: Document, b: Document, path: string) {
    FieldValue(a, path) == FieldValue(b, path)
  }

  lemma {:induction false} SelectedIndex(select: seq<string>, path: string) returns (i: nat)
    requires path in select && path != NAME
    ensures i < |WithoutName(select)| && WithoutName(select)[i] == path
  {
    if select[0] == path { i := 0; }
    else {
      var rest := SelectedIndex(select[1..], path);
      i := if select[0] != NAME then rest + 1 else rest;
    }
  }

  lemma {:induction false} SelectedFrom(select: seq<string>, i: nat)
    requires i < |WithoutName(select)|
    ensures WithoutName(select)[i] in select && WithoutName(select)[i] != NAME
  {
    if select[0] != NAME {
      if i > 0 { SelectedFrom(select[1..], i - 1); }
    } else {
      SelectedFrom(select[1..], i);
    }
  }

  lemma SelectedReads(doc: Document, select: seq<string>, path: string)
    requires Project(doc, select).Success? && path in select
    ensures ReadAlike(Project(doc, select).value, doc, path)
  {
    hide NestedGet, MergeFields, WithoutName, FieldPath;
    var mask := WithoutName(select);
    ParsedNonEmpty(mask);
    if path != NAME {
      var i := SelectedIndex(select, path);
      CopiedAll(map[], doc.fields, ParseMask(mask).value, i);
    }
  }

  /** Every selected path has been parsed and none overlaps this one. */
  predicate ApartFrom(select: seq<string>, path: seq<string>) {
    forall s :: s in select && s != NAME && FieldPath(s).Success? ==> !Overlap(FieldPath(s).value, path)
  }

  lemma UnselectedGone(doc: Document, select: seq<string>, path: string)
    requires Project(doc, select).Success? && path != NAME
    requires FieldPath(path).Success? && ApartFrom(select, FieldPath(path).value)
    ensures FieldValue(Project(doc, select).value, path).None?
  {
    hide NestedGet, MergeFields, WithoutName, FieldPath;
    var mask, q := WithoutName(select), FieldPath(path).value;
    ParsedNonEmpty(mask);
    AcceptedSegments(path);
    var paths := ParseMask(mask).value;
    forall i | 0 <= i < |paths| ensures !Overlap(paths[i], q) {
      SelectedFrom(select, i);
      assert FieldPath(mask[i]) == Success(paths[i]);
    }
    CopiedNoMore(map[], doc.fields, paths, q);
    NothingThere(q);
  }

  lemma NothingThere(path: seq<string>)
    requires path != []
    ensures NestedGet(map[], path).None?
  {
  }

  /** A projected document reads as the stored one at every selected path and has
      nothing at a path that overlaps none of them; name and times stay. */
  lemma ProjectionExact(doc: Document, select: seq<string>, path: string)
    requires Project(doc, select).Success?
    ensures var projected := Project(doc, select).value;
            && projected == doc.(fields := projected.fields)
            && (path in select ==> ReadAlike(projected, doc, path))
            && (path != NAME && FieldPath(path).Success? && ApartFrom(select, FieldPath(path).value) ==>
                  FieldValue(projected, path).None?)
  {
    hide FieldPath, ApartFrom, ReadAlike, FieldValue, MergeFields;
    if path in select { SelectedReads(doc, select, path); }
    if path != NAME && FieldPath(path).Success? && ApartFrom(select, FieldPath(path).value) {
      UnselectedGone(doc, select, path);
    }
  }

  // ----- The projection of a page ------------------------------------------

  function Selected(page: seq<Document>, select: Option<seq<string>>): Result<seq<Document>, Status> {
    if select.None? then Success(page) else ProjectAll(page, select.value)
  }

  /** A selected path that does not parse. */
  predicate BadSelection(select: seq<string>) {
    exists s :: s in select && s != NAME && FieldPath(s).Failure?
  }

  lemma ProjectFails(doc: Document, select: seq<string>)
    ensures Project(doc, select).Failure? <==> BadSelection(select)
    ensures Project(doc, select).Failure? ==> Project(doc, select).error == InvalidArgument
  {
    hide MergeFields, WithoutName, FieldPath;
    var mask := WithoutName(select);
    if BadSelection(select) {
      var s :| s in select && s != NAME && FieldPath(s).Failure?;
      var i := SelectedIndex(select, s);
      assert FieldPath(mask[i]).Failure?;
    } else {
      forall i | 0 <= i < |mask| ensures FieldPath(mask[i]).Success? { SelectedFrom(select, i); }
    }
  }

  /** A page is projected document by document; a bad selection is an error exactly
      when there is something to project. */
  lemma {:induction false} SelectionExact(page: seq<Document>, select: seq<string>)
    ensures ProjectAll(page, select).Failure? <==> page != [] && BadSelection(select)
    ensures ProjectAll(page, select).Failure? ==> ProjectAll(page, select).error == InvalidArgument
    ensures ProjectAll(page, select).Success? ==>
              && |ProjectAll(page, select).value| == |page|
              && forall i :: 0 <= i < |page| ==> Project(page[i], select) == Success(ProjectAll(page, select).value[i])
    decreases |page|
  {
    hide Project, BadSelection;
    if page != [] {
      ProjectFails(page[0], select);
      SelectionExact(page[1..], select);
    }
  }
}
