/** What a web client gets from its listen channel: every message once and in
    order, whatever is lost or repeated, and from them the documents it watches. */
module ChannelReplay {
  import opened Wrappers
  import opened Order
  import opened Channel

  // ----- The client's picture ----------------------------------------------

  type Picture = map<int, Held>

  function Draw(p: Picture, payload: Payload): Picture {
    match payload
    case Added(t) => p[t := map[]]
    case Removed(t) => p - {t}
    case Changed(t, d) => if t in p then p[t := p[t][d.name := d.json]] else p
    case Gone(t, name) => if t in p then p[t := p[t] - {name}] else p
    case _ => p
  }

  function Replay(p: Picture, payloads: seq<Payload>): Picture
    decreases |payloads|
  {
    if payloads == [] then p else Replay(Draw(p, payloads[0]), payloads[1..])
  }

  lemma {:induction false} ReplayAppend(p: Picture, a: seq<Payload>, b: seq<Payload>)
    ensures Replay(p, a + b) == Replay(Replay(p, a), b)
    decreases |a|
  {
    hide Draw;
    if a == [] {
      assert a + b == b;
    } else {
      assert (a + b)[1..] == a[1..] + b;
      ReplayAppend(Draw(p, a[0]), a[1..], b);
    }
  }

  /** The documents the server believes each live target has. */
  function Mirror(s: Session): Picture {
    map t | t in s.targets :: s.targets[t].documents
  }

  // ----- One target's difference -------------------------------------------

  /** One snapshot gives one JSON for one name. */
  predicate Coherent(docs: seq<Rendered>) {
    forall i, j :: 0 <= i < |docs| && 0 <= j < |docs| && docs[i].name == docs[j].name ==> docs[i].json == docs[j].json
  }

  lemma {:induction false} AsMapExact(docs: seq<Rendered>)
    requires Coherent(docs)
    ensures forall i :: 0 <= i < |docs| ==> docs[i].name in AsMap(docs) && AsMap(docs)[docs[i].name] == docs[i].json
    ensures forall n :: n in AsMap(docs) ==> exists i :: 0 <= i < |docs| && docs[i].name == n
    decreases |docs|
  {
    if docs != [] {
      var last := |docs| - 1;
      AsMapExact(docs[..last]);
      forall n | n in AsMap(docs) ensures exists i :: 0 <= i < |docs| && docs[i].name == n {
        if n in AsMap(docs[..last]) {
          var i :| 0 <= i < last && docs[..last][i].name == n;
          assert docs[i].name == n;
        } else {
          assert docs[last].name == n;
        }
      }
    }
  }

  lemma AsMapRest(docs: seq<Rendered>)
    requires docs != [] && Coherent(docs)
    ensures Coherent(docs[1..])
    ensures forall n :: n in AsMap(docs) <==> n == docs[0].name || n in AsMap(docs[1..])
    ensures forall n :: n in AsMap(docs[1..]) ==> AsMap(docs[1..])[n] == AsMap(docs)[n]
    ensures AsMap(docs)[docs[0].name] == docs[0].json
  {
    var rest := docs[1..];
    assert forall i :: 0 <= i < |rest| ==> rest[i] == docs[i + 1];
    AsMapExact(docs);
    AsMapExact(rest);
    hide AsMap;
    forall n ensures n in AsMap(docs) <==> n == docs[0].name || n in AsMap(rest) {
      if n in AsMap(docs) {
        var i :| 0 <= i < |docs| && docs[i].name == n;
        if i > 0 { assert rest[i - 1].name == n; }
      }
      if n in AsMap(rest) {
        var i :| 0 <= i < |rest| && rest[i].name == n;
        assert docs[i + 1].name == n;
      }
    }
    forall n | n in AsMap(rest) ensures AsMap(rest)[n] == AsMap(docs)[n] {
      var i :| 0 <= i < |rest| && rest[i].name == n;
      assert docs[i + 1].name == n;
    }
  }

  lemma AsMapHead(docs: seq<Rendered>, current: Held)
    requires docs != [] && Coherent(docs)
    ensures Coherent(docs[1..])
    ensures current[docs[0].name := docs[0].json] + AsMap(docs[1..]) == current + AsMap(docs)
  {
    AsMapRest(docs);
    hide AsMap, Coherent;
    Overlay(current, docs[0].name, docs[0].json, AsMap(docs[1..]), AsMap(docs));
  }

  lemma Overlay(current: Held, name: string, json: string, rest: Held, all: Held)
    requires forall n :: n in all <==> n == name || n in rest
    requires forall n :: n in rest ==> rest[n] == all[n]
    requires name in all && all[name] == json
    ensures current[name := json] + rest == current + all
  {
    var a, b := current[name := json] + rest, current + all;
    forall n ensures n in a <==> n in b {}
    forall n | n in a ensures a[n] == b[n] {}
  }

  lemma {:induction false} ChangesReplay(p: Picture, id: int, before: Held, docs: seq<Rendered>)
    requires id in p && Coherent(docs)
    requires forall i :: 0 <= i < |docs| && docs[i].name in before && before[docs[i].name] == docs[i].json ==>
               docs[i].name in p[id] && p[id][docs[i].name] == docs[i].json
    ensures Replay(p, Changes(id, before, docs)) == p[id := p[id] + AsMap(docs)]
    decreases |docs|
  {
    if docs == [] {
      assert p[id] + map[] == p[id];
    } else {
      var d, rest := docs[0], docs[1..];
      var next := p[id := p[id][d.name := d.json]];
      AsMapHead(docs, p[id]);
      assert forall i :: 0 <= i < |rest| ==> rest[i] == docs[i + 1];
      assert next[id := next[id] + AsMap(rest)] == p[id := p[id] + AsMap(docs)];
      hide AsMap, Coherent;
      ChangesReplay(next, id, before, rest);
      var tail := Changes(id, before, rest);
      if d.name in before && before[d.name] == d.json {
        assert next[id] == p[id] && next == p;
        assert Changes(id, before, docs) == [] + tail == tail;
      } else {
        assert Changes(id, before, docs) == [Changed(id, d)] + tail;
        assert ([Changed(id, d)] + tail)[1..] == tail;
      }
    }
  }

  function Kept(held: Held, names: seq<string>, after: Held): Held {
    map n | n in held && (n !in names || n in after) :: held[n]
  }

  lemma KeptNothing(held: Held, after: Held)
    ensures Kept(held, [], after) == held
  {
  }

  lemma KeptStep(held: Held, names: seq<string>, after: Held)
    requires names != []
    ensures Kept(held, names, after) == Kept(if names[0] in after then held else held - {names[0]}, names[1..], after)
  {
    assert forall n :: n in names <==> n == names[0] || n in names[1..];
  }

  lemma {:induction false} RemovalsReplay(p: Picture, id: int, names: seq<string>, after: Held)
    requires id in p
    ensures Replay(p, Removals(id, names, after)) == p[id := Kept(p[id], names, after)]
    decreases |names|
  {
    hide Kept;
    if names == [] {
      KeptNothing(p[id], after);
    } else {
      var name, rest := names[0], names[1..];
      var next := if name in after then p else p[id := p[id] - {name}];
      RemovalsReplay(next, id, rest, after);
      var tail := Removals(id, rest, after);
      assert name in after ==> [] + tail == tail;
      assert ([Gone(id, name)] + tail)[1..] == tail;
      KeptStep(p[id], names, after);
    }
  }

  /** The difference turns what the client had of a target into what it now is. */
  lemma DifferenceReplay(p: Picture, id: int, docs: seq<Rendered>)
    requires id in p && Coherent(docs)
    ensures Replay(p, Difference(id, p[id], docs)) == p[id := AsMap(docs)]
  {
    var before, after := p[id], AsMap(docs);
    ChangesReplay(p, id, before, docs);
    var middle := p[id := before + after];
    RemovalsReplay(middle, id, SortedKeys(before.Keys), after);
    ReplayAppend(p, Changes(id, before, docs), Removals(id, SortedKeys(before.Keys), after));
    hide Replay, Changes, Removals, AsMap, Coherent, Kept;
    KeptAfter(before, after);
  }

  lemma KeptAfter(before: Held, after: Held)
    ensures Kept(before + after, SortedKeys(before.Keys), after) == after
  {
    var all := before + after;
    var names := SortedKeys(before.Keys);
    hide SortedKeys;
    forall n ensures n in Kept(all, names, after) <==> n in after {}
  }

  // ----- The log of everything pushed --------------------------------------

  /** The queue is exactly the messages above the acknowledged number. */
  predicate Logged(s: Session, log: seq<Payload>, acked: nat) {
    && |log| == s.seqno && acked <= s.seqno
    && (forall n :: n in s.messages ==> acked < n <= s.seqno && s.messages[n] == log[n - 1])
    && (forall n :: acked < n <= s.seqno ==> n in s.messages)
  }

  predicate InSync(s: Session, log: seq<Payload>) {
    Replay(map[], log) == Mirror(s)
  }

  lemma PushLogged(s: Session, log: seq<Payload>, acked: nat, payload: Payload)
    requires Logged(s, log, acked)
    ensures Logged(Push(s, payload), log + [payload], acked)
  {
  }

  lemma {:induction false} PushAllLogged(s: Session, log: seq<Payload>, acked: nat, payloads: seq<Payload>)
    requires Logged(s, log, acked)
    ensures Logged(PushAll(s, payloads), log + payloads, acked)
    decreases |payloads|
  {
    if payloads == [] {
      assert log + payloads == log;
    } else {
      PushLogged(s, log, acked, payloads[0]);
      hide Logged;
      PushAllLogged(Push(s, payloads[0]), log + [payloads[0]], acked, payloads[1..]);
      assert log + [payloads[0]] + payloads[1..] == log + payloads;
    }
  }

  ghost predicate CoherentView(view: View) {
    forall id, spec :: view(id, spec).Some? ==> Coherent(view(id, spec).value)
  }

  ghost predicate CoherentViews(views: Views) {
    forall n: nat :: CoherentView(views(n))
  }

  lemma RefreshTargetSync(s: Session, log: seq<Payload>, acked: nat, id: int, docs: seq<Rendered>, initial: bool)
    returns (after: seq<Payload>)
    requires Logged(s, log, acked) && InSync(s, log) && id in s.targets && Coherent(docs)
    ensures var t := RefreshTarget(s, id, docs, initial);
            && log <= after && Logged(t, after, acked) && InSync(t, after)
            && t.targets == s.targets[id := s.targets[id].(documents := AsMap(docs))]
  {
    var before := s.targets[id].documents;
    var payloads := Difference(id, before, docs) + if initial then [Current(id)] else [];
    var next := s.(targets := s.targets[id := s.targets[id].(documents := AsMap(docs))]);
    after := log + payloads;
    hide Logged, Difference, AsMap, PushAll, Coherent, Replay, Mirror;
    PushAllKeeps(next, payloads);
    assert Logged(next, log, acked) by { LoggedTargets(s, next, log, acked); }
    PushAllLogged(next, log, acked, payloads);
    RefreshPicture(s, log, id, docs, if initial then [Current(id)] else []);
    SameMirror(PushAll(next, payloads), next);
  }

  lemma SameMirror(a: Session, b: Session)
    requires a.targets == b.targets
    ensures Mirror(a) == Mirror(b)
  {
  }

  lemma LoggedTargets(s: Session, t: Session, log: seq<Payload>, acked: nat)
    requires Logged(s, log, acked) && t.seqno == s.seqno && t.messages == s.messages
    ensures Logged(t, log, acked)
  {
  }

  lemma RefreshPicture(s: Session, log: seq<Payload>, id: int, docs: seq<Rendered>, quiet: seq<Payload>)
    requires InSync(s, log) && id in s.targets && Coherent(docs)
    requires quiet == [] || quiet == [Current(id)]
    ensures Replay(map[], log + (Difference(id, s.targets[id].documents, docs) + quiet))
         == Mirror(s.(targets := s.targets[id := s.targets[id].(documents := AsMap(docs))]))
  {
    var before := s.targets[id].documents;
    var difference := Difference(id, before, docs);
    DifferenceReplay(Mirror(s), id, docs);
    MirrorUpdated(s, id, AsMap(docs));
    var drawn := Mirror(s)[id := AsMap(docs)];
    hide Difference, AsMap, Coherent, Mirror;
    QuietReplay(drawn, id, quiet);
    hide Replay;
    ReplayAppend(map[], log, difference + quiet);
    ReplayAppend(Mirror(s), difference, quiet);
  }

  lemma QuietReplay(p: Picture, id: int, quiet: seq<Payload>)
    requires quiet == [] || quiet == [Current(id)]
    ensures Replay(p, quiet) == p
  {
    assert [Current(id)][1..] == [];
  }

  lemma MirrorUpdated(s: Session, id: int, documents: Held)
    requires id in s.targets
    ensures Mirror(s)[id] == s.targets[id].documents
    ensures Mirror(s.(targets := s.targets[id := s.targets[id].(documents := documents)])) == Mirror(s)[id := documents]
  {
  }

  lemma {:induction false} RefreshEachSync(s: Session, log: seq<Payload>, acked: nat, ids: seq<int>, view: View,
                                           initial: bool, changed: bool)
    returns (after: seq<Payload>)
    requires Logged(s, log, acked) && InSync(s, log) && CoherentView(view)
    ensures var r := RefreshEach(s, ids, view, initial, changed);
            log <= after && Logged(r.session, after, acked) && InSync(r.session, after)
    decreases |ids|
  {
    after := log;
    if ids != [] && ids[0] in s.targets && view(ids[0], s.targets[ids[0]].spec).Some? {
      var docs := view(ids[0], s.targets[ids[0]].spec).value;
      var middle := RefreshTargetSync(s, log, acked, ids[0], docs, initial);
      hide Logged, InSync, RefreshTarget, Difference;
      after := RefreshEachSync(RefreshTarget(s, ids[0], docs, initial), middle, acked, ids[1..], view, initial,
                               changed || Difference(ids[0], s.targets[ids[0]].documents, docs) != []);
    }
  }

  lemma QuietPush(s: Session, log: seq<Payload>, acked: nat, payload: Payload)
    requires Logged(s, log, acked) && InSync(s, log)
    requires payload.NoChange? || payload.Failed? || payload.Noop? || payload.Current?
    ensures Logged(Push(s, payload), log + [payload], acked) && InSync(Push(s, payload), log + [payload])
  {
    PushLogged(s, log, acked, payload);
    ReplayAppend(map[], log, [payload]);
    assert [payload][1..] == [];
    hide Logged;
    assert Mirror(Push(s, payload)) == Mirror(s);
  }

  lemma RefreshSync(s: Session, log: seq<Payload>, acked: nat, ids: seq<int>, view: View, initial: bool)
    returns (after: seq<Payload>)
    requires Logged(s, log, acked) && InSync(s, log) && CoherentView(view)
    ensures var r := Refresh(s, ids, view, initial);
            log <= after && Logged(r.session, after, acked) && InSync(r.session, after)
  {
    after := RefreshEachSync(s, log, acked, ids, view, initial, false);
    hide Logged, InSync, RefreshEach;
    var r := RefreshEach(s, ids, view, initial, false);
    if r.ok && (r.changed || initial) {
      QuietPush(r.session, after, acked, NoChange);
      after := after + [NoChange];
    }
  }

  // ----- Requests ----------------------------------------------------------

  predicate NarrowTargets(s: Session) {
    forall t :: t in s.targets ==> Narrow(t)
  }

  /** Removing a target with a 64-bit id: the server drops the truncated id, the
      client is told the full one. They stay in step exactly when truncation
      changes nothing, or names no live target. */
  predicate SafeRemoval(s: Session, id: int) {
    Truncate(id) == id || Truncate(id) !in s.targets
  }

  lemma RemovalExact(s: Session, log: seq<Payload>, acked: nat, id: int)
    requires Logged(s, log, acked) && InSync(s, log) && NarrowTargets(s)
    ensures var t := Push(s.(targets := s.targets - {Truncate(id)}), Removed(id));
            && Logged(t, log + [Removed(id)], acked)
            && (InSync(t, log + [Removed(id)]) <==> SafeRemoval(s, id))
  {
    var next := s.(targets := s.targets - {Truncate(id)});
    PushLogged(next, log, acked, Removed(id));
    ReplayAppend(map[], log, [Removed(id)]);
    assert [Removed(id)][1..] == [];
    hide Logged;
    TruncateNarrow(id);
    hide Truncate;
    var t := Push(next, Removed(id));
    assert Replay(map[], log + [Removed(id)]) == Mirror(s) - {id};
    assert Mirror(t) == Mirror(s) - {Truncate(id)};
    if Truncate(id) != id {
      assert id !in Mirror(s);
      assert Mirror(s) - {id} == Mirror(s);
      assert Truncate(id) in s.targets ==> Truncate(id) in Mirror(s) && Truncate(id) !in Mirror(t);
      assert Truncate(id) !in s.targets ==> Mirror(s) - {Truncate(id)} == Mirror(s);
    }
  }

  lemma TruncateNarrow(id: int)
    ensures Narrow(Truncate(id)) && (Narrow(id) <==> Truncate(id) == id)
  {
  }

  lemma AddSync(s: Session, log: seq<Payload>, acked: nat, wide: int, spec: string) returns (after: seq<Payload>)
    requires Logged(s, log, acked) && InSync(s, log)
    ensures var id := Truncate(wide);
            var t := Push(s.(targets := s.targets[id := Target(spec, map[])]), Added(id));
            log <= after && Logged(t, after, acked) && InSync(t, after)
  {
    var id := Truncate(wide);
    var next := s.(targets := s.targets[id := Target(spec, map[])]);
    PushLogged(next, log, acked, Added(id));
    ReplayAppend(map[], log, [Added(id)]);
    assert [Added(id)][1..] == [];
    after := log + [Added(id)];
    hide Logged, Truncate;
    assert Mirror(Push(next, Added(id))) == Mirror(s)[id := map[]];
  }

  predicate SafeRequest(s: Session, request: Request) {
    request.RemoveTarget? ==> SafeRemoval(s, request.id)
  }

  lemma ProcessSync(s: Session, log: seq<Payload>, acked: nat, request: Request, view: View)
    returns (after: seq<Payload>)
    requires Logged(s, log, acked) && InSync(s, log) && CoherentView(view) && NarrowTargets(s)
    requires SafeRequest(s, request)
    ensures log <= after && Logged(Process(s, request, view), after, acked) && InSync(Process(s, request, view), after)
  {
    after := log;
    match request
    case AddTarget(None, _) =>
      QuietPush(s, log, acked, Failed);
      after := log + [Failed];
    case AddTarget(Some(wide), spec) =>
      after := AddSync(s, log, acked, wide, spec);
      hide Logged, InSync, Refresh, CoherentView, NarrowTargets, Truncate;
      var id := Truncate(wide);
      var added := Push(s.(targets := s.targets[id := Target(spec, map[])]), Added(id));
      after := RefreshSync(added, after, acked, [id], view, true);
      var r := Refresh(added, [id], view, true);
      if !r.ok {
        QuietPush(r.session, after, acked, Failed);
        after := after + [Failed];
      }
    case RemoveTarget(id) =>
      RemovalExact(s, log, acked, id);
      after := log + [Removed(id)];
    case Other =>
  }

  // ----- The network -------------------------------------------------------

  datatype Entry = Entry(n: nat, payload: Payload)

  /** The queue in the order the response lists it. */
  function Listing(messages: map<nat, Payload>, low: nat, high: nat): seq<Entry>
    decreases high - low
  {
    if low >= high then []
    else (if low + 1 in messages then [Entry(low + 1, messages[low + 1])] else []) + Listing(messages, low + 1, high)
  }

  /** The client applies, in order, what it has not seen. */
  datatype Client = Client(last: nat, applied: seq<Payload>)

  function Receive(c: Client, entries: seq<Entry>): Client
    decreases |entries|
  {
    if entries == [] then c
    else if entries[0].n > c.last then Receive(Client(entries[0].n, c.applied + [entries[0].payload]), entries[1..])
    else Receive(c, entries[1..])
  }

  /** The channel with its history: everything pushed, the highest number the
      server was told of, and every response ever sent. A response may reach the
      client never, late, or several times. */
  datatype System = System(server: Session, log: seq<Payload>, acked: nat, client: Client, sent: seq<seq<Entry>>)

  const BEGIN := System(FRESH, [], 0, Client(0, []), [])

  datatype Step =
    | Submit(batch: seq<Numbered>, views: Views)
    | Poll(aid: nat, ids: seq<int>, view: View)
    | TimeOut(aid: nat)
    | Deliver(index: nat)

  /** What a server operation added to the log. */
  function Pushed(before: Session, after: Session): seq<Payload> {
    if before.seqno <= after.seqno then
      seq(after.seqno - before.seqno, i requires 0 <= i < after.seqno - before.seqno =>
        if before.seqno + 1 + i in after.messages then after.messages[before.seqno + 1 + i] else NoChange)
    else []
  }

  function Answered(sys: System, after: Session, aid: nat): System {
    var pruned := Prune(after, aid);
    System(pruned, sys.log + Pushed(sys.server, after), if aid > sys.acked then aid else sys.acked, sys.client,
           if pruned.messages == map[] then sys.sent else sys.sent + [Listing(pruned.messages, 0, pruned.seqno)])
  }

  function Next(sys: System, step: Step): System {
    match step
    case Submit(batch, views) =>
      var after := Post(sys.server, batch, views);
      sys.(server := after, log := sys.log + Pushed(sys.server, after))
    case Poll(aid, ids, view) =>
      var r := Refresh(sys.server, ids, view, false);
      if r.ok then Answered(sys, r.session, aid)
      else sys.(server := r.session, log := sys.log + Pushed(sys.server, r.session))
    case TimeOut(aid) => Answered(sys, Push(sys.server, Noop), aid)
    case Deliver(index) => if index < |sys.sent| then sys.(client := Receive(sys.client, sys.sent[index])) else sys
  }

  ghost predicate SafeBatch(s: Session, batch: seq<Numbered>, views: Views)
    decreases |batch|
  {
    batch != [] ==>
      if batch[0].id in s.received then SafeBatch(s, batch[1..], views)
      else
        var t := s.(received := s.received + {batch[0].id});
        SafeRequest(t, batch[0].request)
        && SafeBatch(Process(t, batch[0].request, views(batch[0].id)), batch[1..], views)
  }

  /** The client polls with a number it has reached, now or earlier. */
  ghost predicate Allowed(sys: System, step: Step) {
    match step
    case Submit(batch, views) => CoherentViews(views) && SafeBatch(sys.server, batch, views)
    case Poll(aid, _, view) => aid <= sys.client.last && CoherentView(view)
    case TimeOut(aid) => aid <= sys.client.last
    case Deliver(_) => true
  }

  /** A response lists a run of the log that starts no later than the client is. */
  predicate Run(entries: seq<Entry>, log: seq<Payload>, last: nat) {
    entries != [] ==>
      && 1 <= entries[0].n <= last + 1
      && entries[0].n + |entries| - 1 <= |log|
      && forall i :: 0 <= i < |entries| ==>
           entries[i].n == entries[0].n + i && entries[i].payload == log[entries[0].n + i - 1]
  }

  predicate Delivers(sys: System) {
    && Logged(sys.server, sys.log, sys.acked) && InSync(sys.server, sys.log) && NarrowTargets(sys.server)
    && sys.acked <= sys.client.last <= |sys.log|
    && sys.client.applied == sys.log[..sys.client.last]
    && forall i :: 0 <= i < |sys.sent| ==> Run(sys.sent[i], sys.log, sys.client.last)
  }

  lemma {:induction false} ReceiveRun(c: Client, entries: seq<Entry>, log: seq<Payload>)
    requires c.last <= |log| && c.applied == log[..c.last] && Run(entries, log, c.last)
    ensures var d := Receive(c, entries);
            && c.last <= d.last <= |log| && d.applied == log[..d.last]
            && (entries != [] ==> d.last >= entries[|entries| - 1].n)
    decreases |entries|
  {
    if entries != [] {
      var first, rest := entries[0], entries[1..];
      assert forall i :: 0 <= i < |rest| ==> rest[i] == entries[i + 1];
      if first.n > c.last {
        assert log[..c.last] + [log[c.last]] == log[..c.last + 1];
        ReceiveRun(Client(first.n, c.applied + [first.payload]), rest, log);
      } else {
        ReceiveRun(c, rest, log);
      }
    }
  }

  lemma {:induction false} ListingRun(messages: map<nat, Payload>, low: nat, high: nat, acked: nat, log: seq<Payload>)
    requires low <= high == |log| && acked <= high
    requires forall n :: n in messages ==> acked < n <= high && messages[n] == log[n - 1]
    requires forall n :: acked < n <= high ==> n in messages
    ensures var from := if low < acked then acked else low;
            && |Listing(messages, low, high)| == high - from
            && forall i :: 0 <= i < high - from ==>
                 Listing(messages, low, high)[i] == Entry(from + 1 + i, log[from + i])
    decreases high - low
  {
    if low < high { ListingRun(messages, low + 1, high, acked, log); }
  }

  lemma RunGrows(entries: seq<Entry>, log: seq<Payload>, more: seq<Payload>, last: nat, later: nat)
    requires Run(entries, log, last) && log <= more && last <= later
    ensures Run(entries, more, later)
  {
  }

  // ----- Every run ---------------------------------------------------------

  lemma LogIsPushed(s: Session, t: Session, log: seq<Payload>, after: seq<Payload>, acked: nat)
    requires Logged(s, log, acked) && Logged(t, after, acked) && log <= after
    ensures after == log + Pushed(s, t)
  {
  }

  lemma PruneLogged(s: Session, log: seq<Payload>, acked: nat, aid: nat)
    requires Logged(s, log, acked) && aid <= s.seqno
    ensures Logged(Prune(s, aid), log, if aid > acked then aid else acked)
  {
  }

  lemma {:induction false} RefreshKeepsTargets(s: Session, ids: seq<int>, view: View, initial: bool, changed: bool)
    ensures RefreshEach(s, ids, view, initial, changed).session.targets.Keys == s.targets.Keys
    decreases |ids|
  {
    if ids != [] && ids[0] in s.targets && view(ids[0], s.targets[ids[0]].spec).Some? {
      var docs := view(ids[0], s.targets[ids[0]].spec).value;
      var target := s.targets[ids[0]];
      var next := s.(targets := s.targets[ids[0] := target.(documents := AsMap(docs))]);
      PushAllKeeps(next, Difference(ids[0], target.documents, docs) + if initial then [Current(ids[0])] else []);
      hide PushAll, Difference, AsMap;
      assert next.targets.Keys == s.targets.Keys;
      RefreshKeepsTargets(RefreshTarget(s, ids[0], docs, initial), ids[1..], view, initial,
                          changed || Difference(ids[0], target.documents, docs) != []);
    }
  }

  lemma ProcessNarrow(s: Session, request: Request, view: View)
    requires NarrowTargets(s)
    ensures NarrowTargets(Process(s, request, view))
  {
    if request.AddTarget? && request.requested.Some? {
      var id := Truncate(request.requested.value);
      TruncateNarrow(request.requested.value);
      hide Truncate, RefreshEach, Narrow;
      var added := Push(s.(targets := s.targets[id := Target(request.spec, map[])]), Added(id));
      RefreshKeepsTargets(added, [id], view, true, false);
      var t := Process(s, request, view);
      assert t.targets.Keys == added.targets.Keys;
      forall k | k in t.targets ensures Narrow(k) { assert k in added.targets; }
    }
  }

  lemma {:induction false} PostSync(s: Session, log: seq<Payload>, acked: nat, batch: seq<Numbered>, views: Views)
    returns (after: seq<Payload>)
    requires Logged(s, log, acked) && InSync(s, log) && NarrowTargets(s)
    requires CoherentViews(views) && SafeBatch(s, batch, views)
    ensures var t := Post(s, batch, views);
            log <= after && Logged(t, after, acked) && InSync(t, after) && NarrowTargets(t)
    decreases |batch|
  {
    after := log;
    if batch != [] {
      if batch[0].id in s.received {
        hide Logged, InSync, NarrowTargets, CoherentViews;
        after := PostSync(s, log, acked, batch[1..], views);
      } else {
        var t := s.(received := s.received + {batch[0].id});
        LoggedTargets(s, t, log, acked);
        SameMirror(s, t);
        hide Logged, Mirror, Process, CoherentView;
        assert CoherentView(views(batch[0].id));
        after := ProcessSync(t, log, acked, batch[0].request, views(batch[0].id));
        ProcessNarrow(t, batch[0].request, views(batch[0].id));
        hide InSync, NarrowTargets;
        after := PostSync(Process(t, batch[0].request, views(batch[0].id)), after, acked, batch[1..], views);
      }
    }
  }

  lemma AnsweredDelivers(sys: System, after: Session, aid: nat, log: seq<Payload>)
    requires Delivers(sys) && aid <= sys.client.last && sys.log <= log
    requires Logged(after, log, sys.acked) && InSync(after, log) && NarrowTargets(after)
    ensures Delivers(Answered(sys, after, aid))
  {
    hide Mirror, Replay, Logged, Pushed, Prune, NarrowTargets, Run, Listing;
    PruneFields(after, aid);
    LogIsPushed(sys.server, after, sys.log, log, sys.acked);
    LoggedLength(after, log, sys.acked);
    PruneLogged(after, log, sys.acked, aid);
    var pruned := Prune(after, aid);
    SameMirror(pruned, after);
    var acked := if aid > sys.acked then aid else sys.acked;
    var listing := Listing(pruned.messages, 0, pruned.seqno);
    QueueRun(pruned, log, acked, sys.client.last);
    SameNarrow(after, pruned);
    OlderRuns(sys, log);
    assert sys.log[..sys.client.last] == log[..sys.client.last];
  }

  lemma PruneFields(s: Session, aid: nat)
    ensures Prune(s, aid).targets == s.targets && Prune(s, aid).seqno == s.seqno
  {
  }

  lemma LoggedLength(s: Session, log: seq<Payload>, acked: nat)
    requires Logged(s, log, acked)
    ensures |log| == s.seqno && acked <= s.seqno
  {
  }

  lemma SameNarrow(s: Session, t: Session)
    requires NarrowTargets(s) && s.targets == t.targets
    ensures NarrowTargets(t)
  {
  }

  lemma QueueRun(s: Session, log: seq<Payload>, acked: nat, last: nat)
    requires Logged(s, log, acked) && acked <= last <= |log|
    ensures Run(Listing(s.messages, 0, s.seqno), log, last)
  {
    ListingRun(s.messages, 0, s.seqno, acked, log);
  }

  lemma OlderRuns(sys: System, log: seq<Payload>)
    requires Delivers(sys) && sys.log <= log
    ensures forall i :: 0 <= i < |sys.sent| ==> Run(sys.sent[i], log, sys.client.last)
  {
    forall i | 0 <= i < |sys.sent| ensures Run(sys.sent[i], log, sys.client.last) {
      RunGrows(sys.sent[i], sys.log, log, sys.client.last, sys.client.last);
    }
  }

  lemma ServerDelivers(sys: System, after: Session, log: seq<Payload>)
    requires Delivers(sys) && sys.log <= log
    requires Logged(after, log, sys.acked) && InSync(after, log) && NarrowTargets(after)
    ensures Delivers(sys.(server := after, log := sys.log + Pushed(sys.server, after)))
  {
    LogIsPushed(sys.server, after, sys.log, log, sys.acked);
    assert sys.log[..sys.client.last] == log[..sys.client.last];
    forall i | 0 <= i < |sys.sent| ensures Run(sys.sent[i], log, sys.client.last) {
      RunGrows(sys.sent[i], sys.log, log, sys.client.last, sys.client.last);
    }
    hide Mirror, Replay, Logged, Pushed, NarrowTargets, Run;
  }

  lemma RefreshNarrow(s: Session, ids: seq<int>, view: View)
    requires NarrowTargets(s)
    ensures NarrowTargets(Refresh(s, ids, view, false).session)
  {
    RefreshKeepsTargets(s, ids, view, false, false);
    hide RefreshEach, Narrow;
    var t := Refresh(s, ids, view, false).session;
    assert t.targets.Keys == s.targets.Keys;
    forall k | k in t.targets ensures Narrow(k) { assert k in s.targets; }
  }

  lemma StepDelivers(sys: System, step: Step)
    requires Delivers(sys) && Allowed(sys, step)
    ensures Delivers(Next(sys, step))
  {
    match step
    case Submit(batch, views) =>
      var log := PostSync(sys.server, sys.log, sys.acked, batch, views);
      hide Post, Delivers, Logged, InSync, NarrowTargets;
      ServerDelivers(sys, Post(sys.server, batch, views), log);
    case Poll(aid, ids, view) =>
      var log := RefreshSync(sys.server, sys.log, sys.acked, ids, view, false);
      RefreshNarrow(sys.server, ids, view);
      hide Refresh, Delivers, Logged, InSync, NarrowTargets, Answered;
      var r := Refresh(sys.server, ids, view, false);
      if r.ok { AnsweredDelivers(sys, r.session, aid, log); } else { ServerDelivers(sys, r.session, log); }
    case TimeOut(aid) =>
      QuietPush(sys.server, sys.log, sys.acked, Noop);
      hide Delivers, Logged, InSync, Answered;
      AnsweredDelivers(sys, Push(sys.server, Noop), aid, sys.log + [Noop]);
    case Deliver(index) =>
      if index < |sys.sent| {
        ReceiveRun(sys.client, sys.sent[index], sys.log);
        var d := Receive(sys.client, sys.sent[index]);
        forall i | 0 <= i < |sys.sent| ensures Run(sys.sent[i], sys.log, d.last) {
          RunGrows(sys.sent[i], sys.log, sys.log, sys.client.last, d.last);
        }
        hide Run, Receive, Logged, InSync, NarrowTargets;
      }
  }

  ghost predicate Runs(sys: System, steps: seq<Step>)
    decreases |steps|
  {
    steps != [] ==> Allowed(sys, steps[0]) && Runs(Next(sys, steps[0]), steps[1..])
  }

  function After(sys: System, steps: seq<Step>): System
    decreases |steps|
  {
    if steps == [] then sys else After(Next(sys, steps[0]), steps[1..])
  }

  lemma {:induction false} RunDelivers(sys: System, steps: seq<Step>)
    requires Delivers(sys) && Runs(sys, steps)
    ensures Delivers(After(sys, steps))
    decreases |steps|
  {
    hide Delivers, Allowed, Next;
    if steps != [] {
      StepDelivers(sys, steps[0]);
      RunDelivers(Next(sys, steps[0]), steps[1..]);
    }
  }

  /** Whatever responses are lost, late or repeated and whatever posts are repeated:
      the queue is a contiguous run ending at the last number; the client has
      applied exactly the first messages, each once and in order; and once it has
      seen the last number it holds what the server holds of every live target. */
  lemma ClientFollows(steps: seq<Step>)
    requires Runs(BEGIN, steps)
    ensures var sys := After(BEGIN, steps);
            && (forall n :: n in sys.server.messages <==> sys.acked < n <= sys.server.seqno)
            && sys.client.last <= sys.server.seqno == |sys.log|
            && sys.client.applied == sys.log[..sys.client.last]
            && (sys.client.last == sys.server.seqno ==> Replay(map[], sys.client.applied) == Mirror(sys.server))
  {
    assert Delivers(BEGIN) by { assert Mirror(FRESH) == map[]; }
    RunDelivers(BEGIN, steps);
    var sys := After(BEGIN, steps);
    hide Runs, After, Run, NarrowTargets, Replay, Mirror;
    assert sys.client.last == sys.server.seqno ==> sys.log[..sys.client.last] == sys.log;
  }

  // ----- When a poll is answered -------------------------------------------

  /** A refresh succeeds exactly when no target it visits fails, so one failing
      target makes every poll fail until it is removed. */
  lemma {:induction false} RefreshSucceeds(s: Session, ids: seq<int>, view: View, initial: bool, changed: bool)
    requires forall i :: 0 <= i < |ids| ==> ids[i] in s.targets
    ensures RefreshEach(s, ids, view, initial, changed).ok
       <==> forall i :: 0 <= i < |ids| ==> view(ids[i], s.targets[ids[i]].spec).Some?
    decreases |ids|
  {
    if ids != [] && view(ids[0], s.targets[ids[0]].spec).Some? {
      var id, rest := ids[0], ids[1..];
      var docs := view(id, s.targets[id].spec).value;
      var next := RefreshTarget(s, id, docs, initial);
      RefreshTargetSpecs(s, id, docs, initial);
      hide RefreshTarget, Difference;
      forall i | 0 <= i < |rest|
        ensures rest[i] in next.targets && next.targets[rest[i]].spec == s.targets[rest[i]].spec
      {
        assert rest[i] == ids[i + 1];
      }
      RefreshSucceeds(next, rest, view, initial, changed || Difference(id, s.targets[id].documents, docs) != []);
      assert forall i :: 1 <= i < |ids| ==> ids[i] == rest[i - 1];
    }
  }

  predicate SameSpecs(s: Session, t: Session) {
    forall k :: k in s.targets ==> k in t.targets && t.targets[k].spec == s.targets[k].spec
  }

  lemma RefreshTargetSpecs(s: Session, id: int, docs: seq<Rendered>, initial: bool)
    requires id in s.targets
    ensures SameSpecs(s, RefreshTarget(s, id, docs, initial))
  {
    hide PushAll, Difference, AsMap, SameSpecs;
    var next := s.(targets := s.targets[id := s.targets[id].(documents := AsMap(docs))]);
    PushAllKeeps(next, Difference(id, s.targets[id].documents, docs) + if initial then [Current(id)] else []);
    SpecsKept(s, RefreshTarget(s, id, docs, initial), id, AsMap(docs));
  }

  lemma SpecsKept(s: Session, t: Session, id: int, documents: Held)
    requires id in s.targets && t.targets == s.targets[id := s.targets[id].(documents := documents)]
    ensures SameSpecs(s, t)
  {
  }

  /** After the timeout's noop the queue has something to send exactly when the
      number the client claims is one the server has handed out. */
  lemma TimeOutAnswers(s: Session, log: seq<Payload>, acked: nat, aid: nat)
    requires Logged(s, log, acked)
    ensures Prune(Push(s, Noop), aid).messages != map[] <==> aid <= s.seqno
  {
    var t := Prune(Push(s, Noop), aid);
    assert aid <= s.seqno ==> s.seqno + 1 in t.messages;
    assert aid > s.seqno ==> forall n :: n !in t.messages;
  }

  /** After a successful refresh every visited target is what its query now yields. */
  lemma {:induction false} RefreshCurrent(s: Session, ids: seq<int>, view: View, initial: bool, changed: bool, id: int)
    requires RefreshEach(s, ids, view, initial, changed).ok && id in s.targets
    ensures var t := RefreshEach(s, ids, view, initial, changed).session;
            && id in t.targets && t.targets[id].spec == s.targets[id].spec
            && (id !in ids ==> t.targets[id] == s.targets[id])
            && (id in ids ==>
                  && view(id, s.targets[id].spec).Some?
                  && t.targets[id].documents == AsMap(view(id, s.targets[id].spec).value))
    decreases |ids|
  {
    if ids != [] {
      var first, rest := ids[0], ids[1..];
      var docs := view(first, s.targets[first].spec).value;
      var target := s.targets[first];
      PushAllKeeps(s.(targets := s.targets[first := target.(documents := AsMap(docs))]),
                   Difference(first, target.documents, docs) + if initial then [Current(first)] else []);
      var next := RefreshTarget(s, first, docs, initial);
      hide PushAll, Difference, AsMap, RefreshTarget;
      assert next.targets == s.targets[first := target.(documents := AsMap(docs))];
      assert id in ids <==> id == first || id in rest;
      RefreshCurrent(next, rest, view, initial, changed || Difference(first, target.documents, docs) != [], id);
    }
  }

  // ----- A wide id ---------------------------------------------------------

  lemma AddedTarget(s: Session, spec: string, view: View)
    requires NarrowTargets(s)
    ensures 1 in Process(s, AddTarget(Some(1), spec), view).targets
  {
    var added := Push(s.(targets := s.targets[1 := Target(spec, map[])]), Added(1));
    RefreshKeepsTargets(added, [1], view, true, false);
    hide RefreshEach;
    assert Truncate(1) == 1;
  }

  lemma AfterAdding(spec: string, views: Views) returns (log: seq<Payload>)
    requires CoherentViews(views)
    ensures var one := Process(FRESH.(received := {0}), AddTarget(Some(1), spec), views(0));
            && Logged(one, log, 0) && InSync(one, log) && NarrowTargets(one) && 1 in one.targets && one.received == {0}
  {
    var start, add := FRESH.(received := {0}), AddTarget(Some(1), spec);
    assert CoherentView(views(0));
    assert Mirror(start) == map[];
    log := ProcessSync(start, [], 0, add, views(0));
    ProcessNarrow(start, add, views(0));
    AddedTarget(start, spec, views(0));
    ProcessReceived(start, add, views(0));
    hide Process, CoherentView, Mirror, Replay;
  }

  lemma WideRemoval(one: Session, two: Session, log: seq<Payload>, view: View)
    requires Logged(one, log, 0) && InSync(one, log) && NarrowTargets(one) && 1 in one.targets
    requires two.targets == one.targets && two.seqno == one.seqno && two.messages == one.messages
    ensures var end := Process(two, RemoveTarget(TWO_32 + 1), view);
            Logged(end, log + [Removed(TWO_32 + 1)], 0) && !InSync(end, log + [Removed(TWO_32 + 1)])
            && 1 !in end.targets
  {
    LoggedTargets(one, two, log, 0);
    SameMirror(one, two);
    assert Truncate(TWO_32 + 1) == 1;
    RemovalExact(two, log, 0, TWO_32 + 1);
    hide Logged, Mirror, Replay, Truncate;
  }

  /** Two requests that break the condition of RemovalExact: adding target 1 and
      removing the id 2^32 + 1, which truncates to it. The server then has no target,
      and the client, told of every message, still has one. */
  lemma WideIdDiverges(spec: string, views: Views)
    requires CoherentViews(views)
    ensures var batch := [Numbered(0, AddTarget(Some(1), spec)), Numbered(1, RemoveTarget(TWO_32 + 1))];
            var sys := Next(BEGIN, Submit(batch, views));
            1 !in sys.server.targets && Replay(map[], sys.log) != Mirror(sys.server)
  {
    hide Process, Post, Logged, Mirror, Replay, Pushed, CoherentViews, NarrowTargets;
    var batch := [Numbered(0, AddTarget(Some(1), spec)), Numbered(1, RemoveTarget(TWO_32 + 1))];
    var log := AfterAdding(spec, views);
    var one := Process(FRESH.(received := {0}), AddTarget(Some(1), spec), views(0));
    var two := one.(received := one.received + {1});
    WideRemoval(one, two, log, views(1));
    BatchOfTwo(batch, views, one);
    var end := Process(two, RemoveTarget(TWO_32 + 1), views(1));
    FreshLogged();
    LogIsPushed(FRESH, end, [], log + [Removed(TWO_32 + 1)], 0);
    assert [] + Pushed(FRESH, end) == Pushed(FRESH, end);
  }

  lemma FreshLogged()
    ensures Logged(FRESH, [], 0)
  {
  }

  lemma BatchOfTwo(batch: seq<Numbered>, views: Views, one: Session)
    requires |batch| == 2 && batch[0].id == 0 && batch[1].id == 1
    requires one == Process(FRESH.(received := {0}), batch[0].request, views(0)) && one.received == {0}
    ensures Post(FRESH, batch, views) == Process(one.(received := one.received + {1}), batch[1].request, views(1))
  {
    hide Process;
    assert FRESH.received + {0} == {0};
    var rest := batch[1..];
    assert rest[0] == batch[1] && rest[1..] == [];
    var end := Process(one.(received := one.received + {1}), batch[1].request, views(1));
    assert Post(end, [], views) == end;
    assert Post(one, rest, views) == end;
  }
}
