/** The gRPC listener's difference (src/firestore.rs, emit_target). */
module Listen {
  import opened Wrappers
  import opened Order
  import opened Documents
  import opened Events

  datatype Message =
    | Changed(document: Document)
    | Removed(name: string)
    | Current
    | Heartbeat

  function ByName(docs: seq<Document>): Store
    decreases |docs|
  {
    if docs == [] then map[] else ByName(docs[..|docs| - 1])[docs[|docs| - 1].name := docs[|docs| - 1]]
  }

  /** The derived equality of documents. */
  predicate SameDocument(a: Document, b: Document) {
    a.name == b.name && SameFields(a.fields, b.fields) && a.createTime == b.createTime && a.updateTime == b.updateTime
  }

  predicate Resent(previous: Store, document: Document, name: string) {
    !(name in previous && SameDocument(previous[name], document))
  }

  function Removals(names: seq<string>, current: Store): seq<Message> {
    if names == [] then []
    else (if names[0] in current then [] else [Removed(names[0])]) + Removals(names[1..], current)
  }

  function Updates(names: seq<string>, previous: Store, current: Store): seq<Message>
    requires forall n :: n in names ==> n in current
  {
    if names == [] then []
    else
      (if Resent(previous, current[names[0]], names[0]) then [Changed(current[names[0]])] else [])
      + Updates(names[1..], previous, current)
  }

  function Emitted(previous: Store, current: Store, initial: bool): seq<Message> {
    Removals(SortedKeys(previous.Keys), current)
    + Updates(SortedKeys(current.Keys), previous, current)
    + if initial then [Current, Heartbeat] else [Heartbeat]
  }

  method CollectByName(docs: seq<Document>) returns (current: Store)
    ensures current == ByName(docs)
  {
    current := map[];
    for i := 0 to |docs|
      invariant current == ByName(docs[..i])
    {
      assert docs[..i + 1][..i] == docs[..i];
      current := current[docs[i].name := docs[i]];
    }
    assert docs[..|docs|] == docs;
  }

  lemma RemovalsStep(sent: seq<Message>, names: seq<string>, i: nat, current: Store)
    requires i < |names|
    ensures sent + Removals(names[i..], current)
         == (if names[i] in current then sent else sent + [Removed(names[i])]) + Removals(names[i + 1..], current)
  {
    assert names[i..][1..] == names[i + 1..];
  }

  method SendRemovals(names: seq<string>, current: Store) returns (sent: seq<Message>)
    ensures sent == Removals(names, current)
  {
    sent := [];
    assert names[0..] == names && [] + Removals(names, current) == Removals(names, current);
    assert Removals([], current) == [];
    for i := 0 to |names|
      invariant Removals(names, current) == sent + Removals(names[i..], current)
    {
      hide Removals;
      RemovalsStep(sent, names, i, current);
      if names[i] !in current { sent := sent + [Removed(names[i])]; }
    }
    assert names[|names|..] == [];
  }

  lemma UpdatesStep(sent: seq<Message>, names: seq<string>, i: nat, previous: Store, current: Store)
    requires i < |names| && forall n :: n in names ==> n in current
    ensures sent + Updates(names[i..], previous, current)
         == (if Resent(previous, current[names[i]], names[i]) then sent + [Changed(current[names[i]])] else sent)
            + Updates(names[i + 1..], previous, current)
  {
    hide Resent;
    assert names[i..][1..] == names[i + 1..];
  }

  method SendUpdates(names: seq<string>, previous: Store, current: Store) returns (sent: seq<Message>)
    requires forall n :: n in names ==> n in current
    ensures sent == Updates(names, previous, current)
  {
    hide Resent, Updates;
    sent := [];
    UpdatesEnds(names, previous, current);
    for i := 0 to |names|
      invariant Updates(names, previous, current) == sent + Updates(names[i..], previous, current)
    {
      UpdatesStep(sent, names, i, previous, current);
      if Resent(previous, current[names[i]], names[i]) { sent := sent + [Changed(current[names[i]])]; }
    }
  }

  lemma UpdatesEnds(names: seq<string>, previous: Store, current: Store)
    requires forall n :: n in names ==> n in current
    ensures names[0..] == names && [] + Updates(names, previous, current) == Updates(names, previous, current)
    ensures names[|names|..] == [] && Updates(names[|names|..], previous, current) == []
  {
  }

  method EmitTarget(previous: Store, docs: seq<Document>, initial: bool) returns (sent: seq<Message>, current: Store)
    ensures current == ByName(docs) && sent == Emitted(previous, current, initial)
  {
    hide Removals, Updates, ByName;
    current := CollectByName(docs);
    var removals := SendRemovals(SortedKeys(previous.Keys), current);
    var updates := SendUpdates(SortedKeys(current.Keys), previous, current);
    sent := removals + updates + if initial then [Current, Heartbeat] else [Heartbeat];
  }

  // ----- What the listener ends up with ------------------------------------

  function Deliver(held: Store, message: Message): Store {
    match message
    case Changed(document) => held[document.name := document]
    case Removed(name) => held - {name}
    case _ => held
  }

  function DeliverAll(held: Store, messages: seq<Message>): Store
    decreases |messages|
  {
    if messages == [] then held else DeliverAll(Deliver(held, messages[0]), messages[1..])
  }

  lemma {:induction false} DeliverAppend(held: Store, a: seq<Message>, b: seq<Message>)
    ensures DeliverAll(held, a + b) == DeliverAll(DeliverAll(held, a), b)
    decreases |a|
  {
    hide Deliver;
    if a == [] {
      assert a + b == b;
    } else {
      assert (a + b)[1..] == a[1..] + b;
      DeliverAppend(Deliver(held, a[0]), a[1..], b);
    }
  }

  lemma {:induction false} RemovalsDeliver(held: Store, names: seq<string>, current: Store)
    ensures var after := DeliverAll(held, Removals(names, current));
            forall n :: At(after, n) == if n in names && n !in current then None else At(held, n)
    decreases |names|
  {
    if names != [] {
      var name, rest := names[0], names[1..];
      var next := if name in current then held else held - {name};
      RemovalsDeliver(next, rest, current);
      var tail := Removals(rest, current);
      assert name in current ==> [] + tail == tail;
      assert ([Removed(name)] + tail)[1..] == tail;
      assert forall n :: n in names <==> n == name || n in rest;
    }
  }

  lemma {:induction false} UpdatesDeliver(held: Store, names: seq<string>, previous: Store, current: Store)
    requires forall n :: n in names ==> n in current && current[n].name == n
    requires Distinct(names)
    requires forall n :: n in names && n in previous ==> n in held && held[n] == previous[n]
    ensures var after := DeliverAll(held, Updates(names, previous, current));
            forall n :: At(after, n) == if n in names then At(current, n) else At(held, n)
    decreases |names|
  {
    if names != [] {
      var name, rest := names[0], names[1..];
      var next := held[name := current[name]];
      if !Resent(previous, current[name], name) {
        SameFieldsExact(previous[name].fields, current[name].fields);
        assert next == held;
      }
      hide Resent;
      assert forall n :: n in names <==> n == name || n in rest;
      assert name !in rest by { assert forall i :: 0 <= i < |rest| ==> rest[i] == names[i + 1] != name; }
      UpdatesDeliver(next, rest, previous, current);
      var tail := Updates(rest, previous, current);
      assert [] + tail == tail && ([Changed(current[name])] + tail)[1..] == tail;
    }
  }

  lemma {:induction false} ByNameNames(docs: seq<Document>)
    ensures forall n :: n in ByName(docs) ==> ByName(docs)[n].name == n
    decreases |docs|
  {
    if docs != [] { ByNameNames(docs[..|docs| - 1]); }
  }

  lemma SortedDistinct(names: set<string>)
    ensures Distinct(SortedKeys(names))
  {
    var keys := SortedKeys(names);
    forall i, j | 0 <= i < j < |keys| ensures keys[i] != keys[j] {
      if keys[i] == keys[j] { AscendingDistinct(keys, i, j); }
    }
  }

  /** The messages turn the documents the listener had into the current ones. */
  lemma EmittedReplays(previous: Store, docs: seq<Document>, initial: bool)
    ensures DeliverAll(previous, Emitted(previous, ByName(docs), initial)) == ByName(docs)
  {
    var current := ByName(docs);
    ByNameNames(docs);
    hide ByName, Removals, Updates, SortedKeys, DeliverAll, Distinct;
    var olds, news := SortedKeys(previous.Keys), SortedKeys(current.Keys);
    var removals, updates := Removals(olds, current), Updates(news, previous, current);
    var middle := DeliverAll(previous, removals);
    RemovalsDeliver(previous, olds, current);
    KeptForUpdates(middle, previous, current, news);
    SortedDistinct(current.Keys);
    UpdatesDeliver(middle, news, previous, current);
    DeliverAppend(previous, removals, updates);
    DeliverEnd(DeliverAll(middle, updates), initial);
    DeliverAppend(previous, removals + updates, if initial then [Current, Heartbeat] else [Heartbeat]);
    SameDocuments(DeliverAll(middle, updates), current);
  }

  lemma KeptForUpdates(middle: Store, previous: Store, current: Store, news: seq<string>)
    requires forall n :: n in news <==> n in current
    requires forall n ::
               At(middle, n) == if n in SortedKeys(previous.Keys) && n !in current then None else At(previous, n)
    ensures forall n :: n in news && n in previous ==> n in middle && middle[n] == previous[n]
  {
    hide SortedKeys;
    forall n | n in news && n in previous ensures n in middle && middle[n] == previous[n] {
      assert At(middle, n) == At(previous, n);
    }
  }

  lemma DeliverEnd(held: Store, initial: bool)
    ensures DeliverAll(held, if initial then [Current, Heartbeat] else [Heartbeat]) == held
  {
    assert [Heartbeat][1..] == [] && [Current, Heartbeat][1..] == [Heartbeat];
  }

  lemma SameDocuments(a: Store, b: Store)
    requires forall n :: At(a, n) == At(b, n)
    ensures a == b
  {
    forall n ensures n in a <==> n in b { assert At(a, n) == At(b, n); }
    forall n | n in a ensures a[n] == b[n] { assert At(a, n) == At(b, n); }
  }

  /** A document is sent again exactly when it differs or holds a NaN. */
  lemma ResentExactly(previous: Store, document: Document, name: string)
    ensures Resent(previous, document, name)
       <==> At(previous, name) != Some(document) || !NaNFreeFields(document.fields)
  {
    if name in previous { SameFieldsExact(previous[name].fields, document.fields); }
  }
}
