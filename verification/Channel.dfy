/** The listen channel of the web client (src/firestore_web.rs, Session and
    channel_inner): numbered messages, pruned by acknowledgement, from which the
    client rebuilds the documents of each target. */
module Channel {
  import opened Wrappers
  import opened Order

  /** A document as the client sees it: its name and its JSON. */
  datatype Rendered = Rendered(name: string, json: string)

  datatype Payload =
    | Added(target: int)
    | Removed(target: int)
    | Changed(target: int, document: Rendered)
    | Gone(target: int, name: string)
    | Current(target: int)
    | NoChange
    | Failed
    | Noop

  type Held = map<string, string>

  datatype Target = Target(spec: string, documents: Held)

  /** What the query or document list of a target, by id and specification, yields
      when the target is visited, or that it fails. Each target is read on its own,
      so two with one specification may see different documents. */
  type View = (int, string) -> Option<seq<Rendered>>

  /** What is read for each numbered request of a post. */
  type Views = nat -> View

  datatype Request = AddTarget(requested: Option<int>, spec: string) | RemoveTarget(id: int) | Other

  datatype Session = Session(seqno: nat, messages: map<nat, Payload>, targets: map<int, Target>, received: set<nat>)

  const FRESH := Session(0, map[], map[], {})

  // ----- Target ids --------------------------------------------------------

  const TWO_32: int := 0x1_0000_0000
  const TWO_31: int := 0x8000_0000

  /** The cast from a 64-bit to a 32-bit id. */
  function Truncate(id: int): int {
    var low := id % TWO_32;
    if low >= TWO_31 then low - TWO_32 else low
  }

  predicate Narrow(id: int) {
    -TWO_31 <= id < TWO_31
  }

  // ----- Pushing and reading -----------------------------------------------

  function Push(s: Session, payload: Payload): Session {
    s.(seqno := s.seqno + 1, messages := s.messages[s.seqno + 1 := payload])
  }

  function PushAll(s: Session, payloads: seq<Payload>): Session
    decreases |payloads|
  {
    if payloads == [] then s else PushAll(Push(s, payloads[0]), payloads[1..])
  }

  function Prune(s: Session, aid: nat): Session {
    s.(messages := map n | n in s.messages && n > aid :: s.messages[n])
  }

  // ----- Refreshing a target -----------------------------------------------

  function Changes(id: int, before: Held, docs: seq<Rendered>): seq<Payload>
    decreases |docs|
  {
    if docs == [] then []
    else
      (if docs[0].name in before && before[docs[0].name] == docs[0].json then [] else [Changed(id, docs[0])])
      + Changes(id, before, docs[1..])
  }

  function AsMap(docs: seq<Rendered>): Held
    decreases |docs|
  {
    if docs == [] then map[] else AsMap(docs[..|docs| - 1])[docs[|docs| - 1].name := docs[|docs| - 1].json]
  }

  function Removals(id: int, names: seq<string>, after: Held): seq<Payload>
    decreases |names|
  {
    if names == [] then []
    else (if names[0] in after then [] else [Gone(id, names[0])]) + Removals(id, names[1..], after)
  }

  function Difference(id: int, before: Held, docs: seq<Rendered>): seq<Payload> {
    Changes(id, before, docs) + Removals(id, SortedKeys(before.Keys), AsMap(docs))
  }

  /** One target brought up to date; an initial refresh also says it is current. */
  function RefreshTarget(s: Session, id: int, docs: seq<Rendered>, initial: bool): Session
    requires id in s.targets
  {
    var target := s.targets[id];
    var next := s.(targets := s.targets[id := target.(documents := AsMap(docs))]);
    PushAll(next, Difference(id, target.documents, docs) + if initial then [Current(id)] else [])
  }

  datatype Refreshed = Refreshed(session: Session, changed: bool, ok: bool)

  function RefreshEach(s: Session, ids: seq<int>, view: View, initial: bool, changed: bool): Refreshed
    decreases |ids|
  {
    if ids == [] then Refreshed(s, changed, true)
    else if ids[0] !in s.targets || view(ids[0], s.targets[ids[0]].spec).None? then Refreshed(s, changed, false)
    else
      var docs := view(ids[0], s.targets[ids[0]].spec).value;
      RefreshEach(RefreshTarget(s, ids[0], docs, initial), ids[1..], view, initial,
                  changed || Difference(ids[0], s.targets[ids[0]].documents, docs) != [])
  }

  /** Stops at the first target that fails, keeping what was pushed before it. */
  function Refresh(s: Session, ids: seq<int>, view: View, initial: bool): Refreshed {
    var r := RefreshEach(s, ids, view, initial, false);
    if r.ok && (r.changed || initial) then r.(session := Push(r.session, NoChange)) else r
  }

  // ----- Requests ----------------------------------------------------------

  function Process(s: Session, request: Request, view: View): Session {
    match request
    case AddTarget(None, _) => Push(s, Failed)
    case AddTarget(Some(wide), spec) =>
      var id := Truncate(wide);
      var r := Refresh(Push(s.(targets := s.targets[id := Target(spec, map[])]), Added(id)), [id], view, true);
      if r.ok then r.session else Push(r.session, Failed)
    case RemoveTarget(id) => Push(s.(targets := s.targets - {Truncate(id)}), Removed(id))
    case Other => s
  }

  datatype Numbered = Numbered(id: nat, request: Request)

  /** A posted batch: a request whose number was seen before is skipped. */
  function Post(s: Session, batch: seq<Numbered>, views: Views): Session
    decreases |batch|
  {
    if batch == [] then s
    else if batch[0].id in s.received then Post(s, batch[1..], views)
    else Post(Process(s.(received := s.received + {batch[0].id}), batch[0].request, views(batch[0].id)), batch[1..],
              views)
  }

  /** A client cannot repeat a request by repeating a post. */
  lemma {:induction false} PostRecords(s: Session, batch: seq<Numbered>, views: Views)
    ensures s.received <= Post(s, batch, views).received
    ensures forall i :: 0 <= i < |batch| ==> batch[i].id in Post(s, batch, views).received
    decreases |batch|
  {
    if batch != [] {
      var next := if batch[0].id in s.received then s
                  else Process(s.(received := s.received + {batch[0].id}), batch[0].request, views(batch[0].id));
      if batch[0].id !in s.received {
        ProcessReceived(s.(received := s.received + {batch[0].id}), batch[0].request, views(batch[0].id));
      }
      PostRecords(next, batch[1..], views);
      hide Process;
      forall i | 0 <= i < |batch| ensures batch[i].id in Post(s, batch, views).received {
        if i > 0 { assert batch[i] == batch[1..][i - 1]; }
      }
    }
  }

  lemma {:induction false} PushAllKeeps(s: Session, payloads: seq<Payload>)
    ensures PushAll(s, payloads).received == s.received && PushAll(s, payloads).targets == s.targets
    ensures PushAll(s, payloads).seqno == s.seqno + |payloads|
    decreases |payloads|
  {
    if payloads != [] { PushAllKeeps(Push(s, payloads[0]), payloads[1..]); }
  }

  lemma {:induction false} RefreshReceived(s: Session, ids: seq<int>, view: View, initial: bool, changed: bool)
    ensures RefreshEach(s, ids, view, initial, changed).session.received == s.received
    decreases |ids|
  {
    if ids != [] && ids[0] in s.targets && view(ids[0], s.targets[ids[0]].spec).Some? {
      var docs := view(ids[0], s.targets[ids[0]].spec).value;
      var target := s.targets[ids[0]];
      PushAllKeeps(s.(targets := s.targets[ids[0] := target.(documents := AsMap(docs))]),
                   Difference(ids[0], target.documents, docs) + if initial then [Current(ids[0])] else []);
      hide PushAll, Difference, AsMap;
      RefreshReceived(RefreshTarget(s, ids[0], docs, initial), ids[1..], view, initial,
                      changed || Difference(ids[0], target.documents, docs) != []);
    }
  }

  lemma ProcessReceived(s: Session, request: Request, view: View)
    ensures Process(s, request, view).received == s.received
  {
    if request.AddTarget? && request.requested.Some? {
      var id := Truncate(request.requested.value);
      RefreshReceived(Push(s.(targets := s.targets[id := Target(request.spec, map[])]), Added(id)), [id], view, true,
                      false);
      hide RefreshEach, Truncate;
    }
  }

  lemma {:induction false} SeenBatchSkipped(s: Session, batch: seq<Numbered>, views: Views)
    requires forall i :: 0 <= i < |batch| ==> batch[i].id in s.received
    ensures Post(s, batch, views) == s
    decreases |batch|
  {
    hide Process;
    if batch != [] { SeenBatchSkipped(s, batch[1..], views); }
  }

  /** Posting the same batch again, at any later time, changes nothing. */
  lemma RepeatedPost(s: Session, batch: seq<Numbered>, views: Views, later: Views)
    ensures Post(Post(s, batch, views), batch, later) == Post(s, batch, views)
  {
    PostRecords(s, batch, views);
    SeenBatchSkipped(Post(s, batch, views), batch, later);
  }

  lemma ChangesStep(messages: seq<Payload>, id: int, before: Held, docs: seq<Rendered>, i: nat)
    requires i < |docs|
    ensures messages + Changes(id, before, docs[i..])
         == (if docs[i].name in before && before[docs[i].name] == docs[i].json then messages
             else messages + [Changed(id, docs[i])]) + Changes(id, before, docs[i + 1..])
  {
    assert docs[i..][1..] == docs[i + 1..];
  }

  /** The first loop of a refresh: the documents that are new or changed. */
  method CollectChanges(id: int, before: Held, docs: seq<Rendered>) returns (messages: seq<Payload>)
    ensures messages == Changes(id, before, docs)
  {
    messages := [];
    assert docs[0..] == docs && [] + Changes(id, before, docs) == Changes(id, before, docs);
    assert Changes(id, before, []) == [];
    for i := 0 to |docs|
      invariant Changes(id, before, docs) == messages + Changes(id, before, docs[i..])
    {
      hide Changes;
      ChangesStep(messages, id, before, docs, i);
      if !(docs[i].name in before && before[docs[i].name] == docs[i].json) {
        messages := messages + [Changed(id, docs[i])];
      }
    }
    assert docs[|docs|..] == [];
  }

  lemma RemovalsStep(messages: seq<Payload>, id: int, names: seq<string>, i: nat, after: Held)
    requires i < |names|
    ensures messages + Removals(id, names[i..], after)
         == (if names[i] in after then messages else messages + [Gone(id, names[i])])
            + Removals(id, names[i + 1..], after)
  {
    assert names[i..][1..] == names[i + 1..];
  }

  /** The second loop: the names that are no longer there. */
  method CollectRemovals(id: int, names: seq<string>, after: Held) returns (messages: seq<Payload>)
    ensures messages == Removals(id, names, after)
  {
    messages := [];
    assert names[0..] == names && [] + Removals(id, names, after) == Removals(id, names, after);
    assert Removals(id, [], after) == [];
    for i := 0 to |names|
      invariant Removals(id, names, after) == messages + Removals(id, names[i..], after)
    {
      hide Removals;
      RemovalsStep(messages, id, names, i, after);
      if names[i] !in after {
        messages := messages + [Gone(id, names[i])];
      }
    }
    assert names[|names|..] == [];
  }

  // ----- The session in place ----------------------------------------------

  class ListenSession {
    var seqno: nat
    var messages: map<nat, Payload>
    var targets: map<int, Target>
    var received: set<nat>

    constructor ()
      ensures Value() == FRESH
    {
      seqno, messages, targets, received := 0, map[], map[], {};
    }

    function Value(): Session
      reads this
    {
      Session(seqno, messages, targets, received)
    }

    method PushMessage(payload: Payload)
      modifies this`seqno, this`messages
      ensures Value() == Push(old(Value()), payload)
    {
      seqno := seqno + 1;
      messages := messages[seqno := payload];
    }

    /** Forgets what the client has seen and returns the rest. */
    method Queued(aid: nat) returns (body: map<nat, Payload>)
      modifies this`messages
      ensures Value() == Prune(old(Value()), aid) && body == messages
    {
      messages := map n | n in messages && n > aid :: messages[n];
      body := messages;
    }

    method RefreshTargets(ids: seq<int>, view: View, initial: bool) returns (ok: bool)
      modifies this
      ensures Refreshed(Value(), true, ok) == Refresh(old(Value()), ids, view, initial).(changed := true)
    {
      var s, changed := Value(), false;
      ghost var start := s;
      for i := 0 to |ids|
        invariant RefreshEach(start, ids, view, initial, false) == RefreshEach(s, ids[i..], view, initial, changed)
        invariant Value() == start
      {
        assert ids[i..][1..] == ids[i + 1..];
        hide RefreshTarget, Difference;
        if ids[i] !in s.targets || view(ids[i], s.targets[ids[i]].spec).None? {
          seqno, messages, targets, received := s.seqno, s.messages, s.targets, s.received;
          return false;
        }
        var docs := view(ids[i], s.targets[ids[i]].spec).value;
        changed := changed || Difference(ids[i], s.targets[ids[i]].documents, docs) != [];
        s := RefreshTarget(s, ids[i], docs, initial);
      }
      seqno, messages, targets, received := s.seqno, s.messages, s.targets, s.received;
      if changed || initial { PushMessage(NoChange); }
      ok := true;
    }

    method ProcessRequest(request: Request, view: View)
      modifies this
      ensures Value() == Process(old(Value()), request, view)
    {
      hide Refresh, Truncate;
      match request
      case AddTarget(None, _) => PushMessage(Failed);
      case AddTarget(Some(wide), spec) =>
        var id := Truncate(wide);
        targets := targets[id := Target(spec, map[])];
        PushMessage(Added(id));
        var ok := RefreshTargets([id], view, true);
        if !ok { PushMessage(Failed); }
      case RemoveTarget(id) =>
        targets := targets - {Truncate(id)};
        PushMessage(Removed(id));
      case Other =>
    }

    method HandlePost(batch: seq<Numbered>, views: Views)
      modifies this
      ensures Value() == Post(old(Value()), batch, views)
    {
      hide Process;
      for i := 0 to |batch|
        invariant Post(old(Value()), batch, views) == Post(Value(), batch[i..], views)
      {
        assert batch[i..][1..] == batch[i + 1..];
        if batch[i].id !in received {
          received := received + {batch[i].id};
          ProcessRequest(batch[i].request, views(batch[i].id));
        }
      }
    }
  }
}
