/** The StreamingPull loop: flow control over the leases one stream has handed
    out and not yet seen end (src/pubsub.rs, streaming_pull). */
module Streaming {
  import opened Wrappers
  import opened Order
  import opened Sums
  import opened Broker
  import opened BrokerClaims
  import opened BrokerService

  /** Ack ids handed out on a stream, with the size of each message. */
  type Outstanding = map<string, int>

  ghost function HeldBytes(held: Outstanding): int {
    Total(held.Keys, id => if id in held then held[id] else 0)
  }

  /** Never more messages than allowed, and never more than one message beyond
      the byte target: without some one message the rest is below the target. */
  ghost predicate WithinBudget(held: Outstanding, maxMessages: nat, maxBytes: int) {
    && |held| <= maxMessages
    && (forall id :: id in held ==> held[id] >= 0)
    && (HeldBytes(held) > maxBytes ==> exists id :: id in held && HeldBytes(held) - held[id] < maxBytes)
  }

  lemma HeldWithout(held: Outstanding, id: string)
    requires id in held
    ensures HeldBytes(held - {id}) == HeldBytes(held) - held[id]
    ensures |held - {id}| == |held| - 1
  {
    var rest := held - {id};
    TotalRemove(held.Keys, x => if x in held then held[x] else 0, id);
    assert rest.Keys == held.Keys - {id};
    TotalAgrees(rest.Keys, x => if x in rest then rest[x] else 0, x => if x in held then held[x] else 0);
    assert |rest.Keys| == |rest| && |held.Keys| == |held|;
  }

  lemma HeldWith(held: Outstanding, id: string, size: int)
    requires id !in held
    ensures HeldBytes(held[id := size]) == HeldBytes(held) + size
    ensures |held[id := size]| == |held| + 1
  {
    HeldWithout(held[id := size], id);
    assert held[id := size] - {id} == held;
  }

  lemma RemoveOneWithinBudget(held: Outstanding, id: string, maxMessages: nat, maxBytes: int)
    requires WithinBudget(held, maxMessages, maxBytes)
    ensures WithinBudget(held - {id}, maxMessages, maxBytes)
  {
    if id in held {
      HeldWithout(held, id);
      if HeldBytes(held) > maxBytes {
        var big :| big in held && HeldBytes(held) - held[big] < maxBytes;
        if big != id { assert (held - {id})[big] == held[big]; }
      }
    } else {
      assert held - {id} == held;
    }
  }

  /** Leases that end, for whatever reason, keep a stream within its budget. */
  lemma {:induction false} FewerWithinBudget(held: Outstanding, gone: set<string>, maxMessages: nat, maxBytes: int)
    requires WithinBudget(held, maxMessages, maxBytes)
    ensures WithinBudget(held - gone, maxMessages, maxBytes)
    decreases |gone|
  {
    hide WithinBudget;
    if gone == {} {
      assert held - gone == held;
    } else {
      var id :| id in gone;
      RemoveOneWithinBudget(held, id, maxMessages, maxBytes);
      FewerWithinBudget(held - {id}, gone - {id}, maxMessages, maxBytes);
      assert held - {id} - (gone - {id}) == held - gone;
    }
  }

  lemma NothingHeld(maxMessages: nat, maxBytes: int)
    requires maxBytes > 0
    ensures WithinBudget(map[], maxMessages, maxBytes)
  {
  }

  lemma KeysListed(ids: set<string>)
    ensures (set i | 0 <= i < |SortedKeys(ids)| :: SortedKeys(ids)[i]) == ids
    ensures SortedKeys(ids) == [] <==> ids == {}
  {
    var keys := SortedKeys(ids);
    hide SortedKeys;
    forall x | x in ids ensures x in (set i | 0 <= i < |keys| :: keys[i]) { assert x in keys; }
  }

  lemma KeepOnly(held: Outstanding, active: set<string>)
    requires active <= held.Keys
    ensures (held - (held.Keys - active)).Keys == active
  {
  }

  function BatchSize(batch: seq<BrokerMessage>): int {
    if batch == [] then 0 else BatchSize(batch[..|batch| - 1]) + batch[|batch| - 1].sizeBytes
  }

  function Added(held: Outstanding, batch: seq<BrokerMessage>): Outstanding {
    if batch == [] then held
    else Added(held, batch[..|batch| - 1])[batch[|batch| - 1].ackId := batch[|batch| - 1].sizeBytes]
  }

  /** The batch carries ack ids the stream does not hold yet, each once. */
  predicate NewAcks(held: Outstanding, batch: seq<BrokerMessage>) {
    && (forall i :: 0 <= i < |batch| ==> batch[i].ackId !in held && batch[i].sizeBytes >= 0)
    && (forall i, j :: 0 <= i < j < |batch| ==> batch[i].ackId != batch[j].ackId)
  }

  function Acks(batch: seq<BrokerMessage>): set<string> {
    set i | 0 <= i < |batch| :: batch[i].ackId
  }

  lemma NewAcksSplit(held: Outstanding, batch: seq<BrokerMessage>)
    requires NewAcks(held, batch) && batch != []
    ensures var last := |batch| - 1;
            && NewAcks(held, batch[..last])
            && batch[last].ackId !in held && batch[last].ackId !in Acks(batch[..last])
            && Acks(batch) == Acks(batch[..last]) + {batch[last].ackId}
  {
    var last := |batch| - 1;
    assert batch == batch[..last] + [batch[last]];
  }

  lemma {:induction false} AddedKeys(held: Outstanding, batch: seq<BrokerMessage>)
    ensures Added(held, batch).Keys == held.Keys + Acks(batch)
    decreases |batch|
  {
    if batch != [] {
      var last := |batch| - 1;
      AddedKeys(held, batch[..last]);
      assert batch == batch[..last] + [batch[last]];
      assert Acks(batch) == Acks(batch[..last]) + {batch[last].ackId};
    }
  }

  lemma {:induction false} AddedExact(held: Outstanding, batch: seq<BrokerMessage>)
    requires NewAcks(held, batch)
    ensures |Added(held, batch)| == |held| + |batch|
    ensures HeldBytes(Added(held, batch)) == HeldBytes(held) + BatchSize(batch)
    decreases |batch|
  {
    if batch != [] {
      var last := |batch| - 1;
      var most, m := batch[..last], batch[last];
      NewAcksSplit(held, batch);
      AddedExact(held, most);
      assert m.ackId !in Added(held, most) by { AddedKeys(held, most); }
      hide NewAcks, Acks, HeldBytes;
      HeldWith(Added(held, most), m.ackId, m.sizeBytes);
    }
  }

  lemma {:induction false} AddedValues(held: Outstanding, batch: seq<BrokerMessage>)
    requires NewAcks(held, batch)
    ensures forall id :: id in held ==> id in Added(held, batch) && Added(held, batch)[id] == held[id]
    ensures forall id :: id in Added(held, batch) && id !in held ==> Added(held, batch)[id] >= 0
    decreases |batch|
  {
    if batch != [] {
      NewAcksSplit(held, batch);
      AddedValues(held, batch[..|batch| - 1]);
    }
  }

  /** A claim under the remaining count and bytes keeps the stream in budget. */
  lemma ClaimWithinBudget(held: Outstanding, batch: seq<BrokerMessage>, maxMessages: nat, maxBytes: int,
                          count: nat, bytes: int)
    requires WithinBudget(held, maxMessages, maxBytes) && NewAcks(held, batch)
    requires |held| + count <= maxMessages && HeldBytes(held) + bytes <= maxBytes && HeldBytes(held) < maxBytes
    requires |batch| <= count
    requires BatchSize(batch) <= bytes || |batch| <= 1
    ensures WithinBudget(Added(held, batch), maxMessages, maxBytes)
  {
    AddedExact(held, batch);
    AddedValues(held, batch);
    var after := Added(held, batch);
    if HeldBytes(after) > maxBytes {
      assert |batch| == 1;
      assert BatchSize(batch) == batch[0].sizeBytes && after == held[batch[0].ackId := batch[0].sizeBytes] by {
        assert batch[..0] == [];
      }
      assert HeldBytes(after) - after[batch[0].ackId] == HeldBytes(held);
    }
  }

  lemma {:induction false} HandedOutSize(s: State, taken: seq<string>, acks: Uuids)
    requires forall i :: 0 <= i < |taken| ==> taken[i] in s.messages && taken[i] in s.messageSizes
    ensures BatchSize(HandedOut(s, taken, acks)) == Weight(taken, SizeOf(s))
  {
    if taken != [] {
      var last := |taken| - 1;
      HandedOutSize(s, taken[..last], acks);
      assert HandedOut(s, taken, acks)[..last] == HandedOut(s, taken[..last], acks);
    }
  }

  lemma HandedOutNew(s: State, taken: seq<string>, acks: Uuids, held: Outstanding, minted: set<string>)
    requires forall i :: 0 <= i < |taken| ==>
              taken[i] in s.messages && taken[i] in s.messageSizes && s.messageSizes[taken[i]] >= 0
    requires held.Keys <= minted
    requires forall i: nat, j: nat :: acks(i) == acks(j) ==> i == j
    requires forall i: nat :: acks(i) !in minted
    ensures NewAcks(held, HandedOut(s, taken, acks))
  {
  }

  lemma WithinBytesWeight(taken: seq<string>, size: string -> int, maxBytes: int, anyFits: bool)
    requires WithinBytes(taken, size, maxBytes, anyFits)
    ensures Weight(taken, size) <= maxBytes || |taken| <= 1
  {
  }

  /** What a claim under the broker's contract hands to a stream. */
  lemma ClaimedBatch(s: State, from: string, count: nat, bytes: int, now: int, acks: Uuids, held: Outstanding,
                     ready: State, taken: seq<string>)
    requires Consistent(s) && FreshIds(s, acks) && held.Keys <= s.minted
    requires ready == Refreshed(s, from, now) && taken == Taken(ready, from, count, bytes)
    requires forall i :: 0 <= i < |taken| ==> taken[i] in ready.messages && taken[i] in ready.messageSizes
    ensures var batch := HandedOut(ready, taken, acks);
            NewAcks(held, batch) && |batch| <= count && (BatchSize(batch) <= bytes || |batch| <= 1)
  {
    hide Consistent, TablesAgree, Refreshed, Taken, WithinBytes, Candidates;
    ClaimFlow(s, from, count, bytes, now);
    RefreshedConsistent(s, from, now);
    ConsistentTables(ready);
    BrokerSteps.TakenAvailable(ready, from, count, bytes);
    TakenKnown(ready, from, taken);
    HandedOutSize(ready, taken, acks);
    HandedOutNew(ready, taken, acks, held, s.minted);
    WithinBytesWeight(taken, SizeOf(ready), bytes, AnyFits(Candidates(ready, from), SizeOf(ready), bytes));
  }

  lemma TakenKnown(s: State, from: string, taken: seq<string>)
    requires TablesAgree(s)
    requires forall i :: 0 <= i < |taken| ==> Key(from, taken[i]) in s.deliveries
    ensures forall i :: 0 <= i < |taken| ==>
              taken[i] in s.messages && s.messages[taken[i]].id == taken[i] && taken[i] in s.messageSizes
              && s.messageSizes[taken[i]] >= 0
  {
    forall i | 0 <= i < |taken| ensures taken[i] in Live(s) {
      assert Key(from, taken[i]) in s.deliveries;
    }
  }

  /** Every message of the batch is in flight under the ack id it carries. */
  predicate Recorded(deliveries: map<Key, Delivery>, from: string, batch: seq<BrokerMessage>) {
    forall i :: 0 <= i < |batch| ==>
      var key := Key(from, batch[i].message.id);
      key in deliveries && deliveries[key].state.InFlight? && deliveries[key].ackId == Some(batch[i].ackId)
  }

  lemma LeasedAt(d: map<Key, Delivery>, from: string, taken: seq<string>, acks: Uuids, deadline: int, i: nat)
    requires i < |taken| && Distinct(taken) && Key(from, taken[i]) in d
    ensures var key, after := Key(from, taken[i]), LeaseAll(d, from, taken, acks, deadline);
            key in after && after[key] == Leased(d[key], acks(i), deadline)
  {
    var p := Position(taken, taken[i]);
    assert taken[p] == taken[i];
  }

  lemma RecordedFrom(deliveries: map<Key, Delivery>, from: string, s: State, taken: seq<string>, acks: Uuids)
    requires forall i :: 0 <= i < |taken| ==>
               taken[i] in s.messages && s.messages[taken[i]].id == taken[i] && taken[i] in s.messageSizes
    requires forall i :: 0 <= i < |taken| ==>
               var key := Key(from, taken[i]);
               key in deliveries && deliveries[key].state.InFlight? && deliveries[key].ackId == Some(acks(i))
    ensures Recorded(deliveries, from, HandedOut(s, taken, acks))
  {
  }

  lemma ClaimedRecorded(s: State, from: string, taken: seq<string>, acks: Uuids, deadline: int)
    requires TablesAgree(s) && Distinct(taken)
    requires forall i :: 0 <= i < |taken| ==> Key(from, taken[i]) in s.deliveries
    requires forall i :: 0 <= i < |taken| ==> taken[i] in s.messages && taken[i] in s.messageSizes
    ensures Recorded(LeaseAll(s.deliveries, from, taken, acks, deadline), from, HandedOut(s, taken, acks))
  {
    TakenKnown(s, from, taken);
    var after := LeaseAll(s.deliveries, from, taken, acks, deadline);
    hide TablesAgree, LeaseAll, HandedOut, Recorded;
    forall i | 0 <= i < |taken|
      ensures var key := Key(from, taken[i]);
              key in after && after[key].state.InFlight? && after[key].ackId == Some(acks(i))
    {
      LeasedAt(s.deliveries, from, taken, acks, deadline, i);
    }
    RecordedFrom(after, from, s, taken, acks);
  }

  /** An empty claim that asked for something means nothing was on offer. */
  lemma ClaimIdle(s: State, t: State, from: string, count: nat, bytes: int, deadline: int, now: int, acks: Uuids,
                  batch: seq<BrokerMessage>)
    requires Consistent(s) && ClaimedAs(s, t, from, count, bytes, deadline, now, acks, batch)
    ensures batch == [] && count > 0 ==> forall key :: !Offered(s, from, now, key)
  {
    hide Consistent, Refreshed, Taken, Candidates, Claimed, Offered, FlowControlled;
    ClaimFlow(s, from, count, bytes, now);
    HandedOutLength(Refreshed(s, from, now), Taken(Refreshed(s, from, now), from, count, bytes), acks);
  }

  lemma ClaimedDeliveries(s: State, t: State, from: string, count: nat, bytes: int, deadline: int, now: int,
                          acks: Uuids,
                          batch: seq<BrokerMessage>)
    requires ClaimedAs(s, t, from, count, bytes, deadline, now, acks, batch)
    ensures var ready := Refreshed(s, from, now);
            var taken := Taken(ready, from, count, bytes);
            && t.deliveries == LeaseAll(ready.deliveries, from, taken, acks, deadline)
            && t.minted == Claimed(s, from, count, bytes, deadline, now, acks).minted
            && (forall i :: 0 <= i < |taken| ==> taken[i] in ready.messages && taken[i] in ready.messageSizes)
            && batch == HandedOut(ready, taken, acks)
  {
    hide Refreshed, Taken, LeaseAll, HandedOut;
  }

  /** Everything a stream relies on about one claim. */
  lemma ClaimContract(s: State, t: State, from: string, count: nat, bytes: int, deadline: int, now: int, acks: Uuids,
                      batch: seq<BrokerMessage>, held: Outstanding)
    requires Consistent(s) && FreshIds(s, acks) && held.Keys <= s.minted
    requires ClaimedAs(s, t, from, count, bytes, deadline, now, acks, batch)
    ensures NewAcks(held, batch) && |batch| <= count && (BatchSize(batch) <= bytes || |batch| <= 1)
    ensures Recorded(t.deliveries, from, batch)
    ensures held.Keys + Acks(batch) <= t.minted
    ensures batch == [] && count > 0 ==> forall key :: !Offered(s, from, now, key)
  {
    hide Consistent, Refreshed, Taken, Candidates, Claimed, LeaseAll, Offered, ClaimedAs, FlowControlled, HandedOut,
      Recorded, NewAcks, BatchSize, Acks, TablesAgree;
    ClaimIdle(s, t, from, count, bytes, deadline, now, acks, batch);
    ClaimedDeliveries(s, t, from, count, bytes, deadline, now, acks, batch);
    var ready := Refreshed(s, from, now);
    var taken := Taken(ready, from, count, bytes);
    RefreshedConsistent(s, from, now);
    BrokerSteps.TakenAvailable(ready, from, count, bytes);
    AcksMinted(s, from, count, bytes, deadline, now, acks, ready, taken);
    ClaimedBatch(s, from, count, bytes, now, acks, held, ready, taken);
    ConsistentTables(ready);
    ClaimedRecorded(ready, from, taken, acks, deadline);
  }

  lemma ConsistentTables(s: State)
    requires Consistent(s)
    ensures TablesAgree(s)
  {
  }

  lemma HandedOutLength(s: State, taken: seq<string>, acks: Uuids)
    requires forall i :: 0 <= i < |taken| ==> taken[i] in s.messages && taken[i] in s.messageSizes
    ensures |HandedOut(s, taken, acks)| == |taken|
  {
  }

  lemma AcksMinted(s: State, from: string, count: nat, bytes: int, deadline: int, now: int, acks: Uuids,
                   ready: State, taken: seq<string>)
    requires ready == Refreshed(s, from, now) && taken == Taken(ready, from, count, bytes)
    requires forall i :: 0 <= i < |taken| ==> taken[i] in ready.messages && taken[i] in ready.messageSizes
    ensures s.minted + Acks(HandedOut(ready, taken, acks)) <= Claimed(s, from, count, bytes, deadline, now, acks).minted
  {
  }

  /** A request on an open stream. */
  datatype Request = Request(subscription: string, maxMessages: int, maxBytes: int, ackIds: seq<string>,
                             modifyIds: seq<string>, modifySeconds: seq<int>)

  datatype Outcome = Delivered(batch: seq<BrokerMessage>) | Idle | Closed(error: Status)

  function StreamMessages(requested: int): nat {
    if requested <= 0 then 1000 else if requested < 10_000 then requested else 10_000
  }

  function StreamBytes(requested: int): int {
    if requested <= 0 then MAX_PENDING_BYTES else if requested < MAX_PENDING_BYTES then requested else MAX_PENDING_BYTES
  }

  function Least(a: int, b: int): int {
    if a < b then a else b
  }

  /** The broker is consistent and the stream within its budget, counting only ids
      the broker has drawn. */
  ghost predicate StreamFits(s: State, held: Outstanding, maxMessages: nat, maxBytes: int) {
    && Consistent(s) && held.Keys <= s.minted
    && maxMessages > 0 && maxBytes > 0 && WithinBudget(held, maxMessages, maxBytes)
  }

  lemma SameMinted(s: State, t: State, uuids: Uuids)
    requires FreshIds(s, uuids) && t.minted == s.minted
    ensures FreshIds(t, uuids)
  {
  }

  lemma OneId(id: string)
    ensures (set i | 0 <= i < |[id]| :: [id][i]) == {id}
  {
    assert [id][0] == id;
  }

  // ----- What the parts of a turn do ---------------------------------------

  /** The broker, what the stream counts as outstanding, and an error that ends it. */
  datatype Settled = Settled(state: State, held: Outstanding, error: Option<Status>)

  function OneDeadline(s: State, held: Outstanding, subscription: string, id: string, seconds: int, now: int): Settled {
    match SubscriptionOf(s, subscription)
    case Failure(e) => Settled(s, held, Some(e))
    case Success(_) =>
      if !(0 <= seconds <= 600) then Settled(s, held, Some(InvalidArgument))
      else
        Settled(Rescheduled(s, subscription, {id}, seconds, SaturatingAdd(now, seconds * 1000)),
                if seconds == 0 then held - {id} else held, None)
  }

  /** The deadline changes of a request in order, up to the first error. */
  function Deadlines(s: State, held: Outstanding, subscription: string, ids: seq<string>, seconds: seq<int>,
                     now: int): Settled
    requires |ids| == |seconds|
    decreases |ids|
  {
    if ids == [] then Settled(s, held, None)
    else
      var one := OneDeadline(s, held, subscription, ids[0], seconds[0], now);
      if one.error.Some? then one
      else Deadlines(one.state, one.held, subscription, ids[1..], seconds[1..], now)
  }

  function IdSet(ids: seq<string>): set<string> {
    set i | 0 <= i < |ids| :: ids[i]
  }

  /** Limits and subscription are only for the first request. */
  predicate Reopens(request: Request, first: bool) {
    !first && (request.subscription != "" || request.maxMessages != 0 || request.maxBytes != 0)
  }

  /** A request on the stream: its acks first, then its deadline changes. */
  function SettledBy(s: State, held: Outstanding, first: bool, subscription: string, request: Request,
                     now: int): Settled {
    if Reopens(request, first) || |request.modifyIds| != |request.modifySeconds| then
      Settled(s, held, Some(InvalidArgument))
    else if request.ackIds == [] then Deadlines(s, held, subscription, request.modifyIds, request.modifySeconds, now)
    else
      match SubscriptionOf(s, subscription)
      case Failure(e) => Settled(s, held, Some(e))
      case Success(_) =>
        Deadlines(Acknowledged(s, subscription, IdSet(request.ackIds)), held - IdSet(request.ackIds), subscription,
                  request.modifyIds, request.modifySeconds, now)
  }

  /** Drops what the broker no longer honours. */
  function Honoured(held: Outstanding, s: State, subscription: string, now: int): Outstanding {
    held - (held.Keys - ActiveIds(s, subscription, held.Keys, now))
  }

  function ReleasedBy(s: State, held: Outstanding, subscription: string, now: int): State {
    if SubscriptionOf(s, subscription).Failure? || held.Keys == {} then s
    else Rescheduled(s, subscription, held.Keys, 0, SaturatingAdd(now, 0))
  }

  function BatchOf(outcome: Outcome): seq<BrokerMessage> {
    if outcome.Delivered? then outcome.batch else []
  }

  ghost predicate AtLimit(held: Outstanding, maxMessages: nat, maxBytes: int) {
    |held| >= maxMessages || HeldBytes(held) >= maxBytes
  }

  /** How many messages and bytes a stream below its limits asks for. */
  function Room(held: Outstanding, maxMessages: nat): int {
    Least(maxMessages - |held|, 100)
  }

  ghost function RoomBytes(held: Outstanding, maxBytes: int): int {
    Least(maxBytes - HeldBytes(held), MAX_DELIVERY_MESSAGE_BYTES)
  }

  function LeaseEnd(deadline: int, now: int): int {
    SaturatingAdd(now, Clamp(deadline, 10, 600) * 1000)
  }

  /** A turn from mid, the broker once the request is settled, to the broker t. An
      error closes the stream and claims nothing, a stream at or over a limit
      claims nothing, and any other makes exactly one claim of its room. */
  ghost predicate TurnAs(settled: Settled, t: State, outstanding: Outstanding, outcome: Outcome, held: Outstanding,
                         subscription: string, maxMessages: nat, maxBytes: int, deadline: int, now: int, uuids: Uuids) {
    var mid := settled.state;
    if settled.error.Some? then
      outcome == Closed(settled.error.value) && t == mid && outstanding == held == settled.held
    else if SubscriptionOf(mid, subscription).Failure? then
      outcome == Closed(SubscriptionOf(mid, subscription).error) && t == mid && outstanding == held == settled.held
    else
      && held == Honoured(settled.held, mid, subscription, now)
      && if AtLimit(held, maxMessages, maxBytes) then outcome == Idle && t == mid && outstanding == held
         else
           && Room(held, maxMessages) >= 0 && !outcome.Closed? && (outcome.Idle? <==> BatchOf(outcome) == [])
           && ClaimedAs(mid, t, subscription, Room(held, maxMessages), RoomBytes(held, maxBytes),
                        LeaseEnd(deadline, now), now,
                        uuids, BatchOf(outcome))
           && outstanding == Added(held, BatchOf(outcome))
           && Recorded(t.deliveries, subscription, BatchOf(outcome))
           && (outcome.Idle? ==> forall key :: !Offered(mid, subscription, now, key))
  }

  // ----- What a settled request did ----------------------------------------

  /** The ids of the request's zero-second changes. */
  function Nacked(ids: seq<string>, seconds: seq<int>): set<string>
    requires |ids| == |seconds|
  {
    set i | 0 <= i < |ids| && seconds[i] == 0 :: ids[i]
  }

  /** From d to e only the deadline of a lease named in ids moved. */
  predicate Retimed(d: Delivery, e: Delivery, subscription: string, ids: set<string>) {
    e == d || (Holds(d, subscription, ids) && e == d.(deadline := e.deadline) && e.deadline.Some?)
  }

  /** What became of one delivery under the deadline changes of a request. */
  predicate DeadlinesDid(d: Delivery, e: Delivery, subscription: string, ids: set<string>, nacked: set<string>) {
    if Holds(d, subscription, nacked) then e == Released(d) else Retimed(d, e, subscription, ids)
  }

  lemma OneDeadlineDid(s: State, held: Outstanding, subscription: string, id: string, seconds: int, now: int, key: Key)
    requires OneDeadline(s, held, subscription, id, seconds, now).error.None? && key in s.deliveries
    ensures var t := OneDeadline(s, held, subscription, id, seconds, now).state;
            && t.deliveries.Keys == s.deliveries.Keys
            && DeadlinesDid(s.deliveries[key], t.deliveries[key], subscription, {id}, if seconds == 0 then {id} else {})
  {
    hide SubscriptionOf;
  }

  lemma DidThen(d: Delivery, e: Delivery, f: Delivery, subscription: string, ids: set<string>, nacked: set<string>,
                moreIds: set<string>, moreNacked: set<string>)
    requires DeadlinesDid(d, e, subscription, ids, nacked) && DeadlinesDid(e, f, subscription, moreIds, moreNacked)
    ensures DeadlinesDid(d, f, subscription, ids + moreIds, nacked + moreNacked)
  {
  }

  /** When no error stops them, the deadline changes release exactly the leases
      under a zero-second id, re-time none but the named ones, and leave every
      other delivery as it is. */
  lemma {:induction false} DeadlinesExact(s: State, held: Outstanding, subscription: string, ids: seq<string>,
                                          seconds: seq<int>,
                                          now: int, key: Key)
    requires |ids| == |seconds| && Deadlines(s, held, subscription, ids, seconds, now).error.None?
    requires key in s.deliveries
    ensures var t := Deadlines(s, held, subscription, ids, seconds, now);
            && t.state.deliveries.Keys == s.deliveries.Keys
            && t.held == held - Nacked(ids, seconds)
            && DeadlinesDid(s.deliveries[key], t.state.deliveries[key], subscription, IdSet(ids), Nacked(ids, seconds))
    decreases |ids|
  {
    hide OneDeadline, DeadlinesDid;
    if ids == [] {
      NothingDid(s.deliveries[key], subscription);
      assert held - {} == held;
    } else {
      var one := OneDeadline(s, held, subscription, ids[0], seconds[0], now);
      OneDeadlineDid(s, held, subscription, ids[0], seconds[0], now, key);
      OneDeadlineHeld(s, held, subscription, ids[0], seconds[0], now);
      DeadlinesExact(one.state, one.held, subscription, ids[1..], seconds[1..], now, key);
      var t := Deadlines(s, held, subscription, ids, seconds, now);
      var first := if seconds[0] == 0 then {ids[0]} else {};
      NamesSplit(ids, seconds);
      DidThen(s.deliveries[key], one.state.deliveries[key], t.state.deliveries[key], subscription, {ids[0]}, first,
              IdSet(ids[1..]), Nacked(ids[1..], seconds[1..]));
      assert held - first - Nacked(ids[1..], seconds[1..]) == held - (first + Nacked(ids[1..], seconds[1..]));
    }
  }

  lemma NothingDid(d: Delivery, subscription: string)
    ensures DeadlinesDid(d, d, subscription, IdSet([]), Nacked([], []))
  {
  }

  lemma OneDeadlineHeld(s: State, held: Outstanding, subscription: string, id: string, seconds: int, now: int)
    requires OneDeadline(s, held, subscription, id, seconds, now).error.None?
    ensures OneDeadline(s, held, subscription, id, seconds, now).held == held - (if seconds == 0 then {id} else {})
  {
    hide Rescheduled, SubscriptionOf;
    assert held - {} == held;
  }

  lemma NamesSplit(ids: seq<string>, seconds: seq<int>)
    requires |ids| == |seconds| && ids != []
    ensures IdSet(ids) == {ids[0]} + IdSet(ids[1..])
    ensures Nacked(ids, seconds) == (if seconds[0] == 0 then {ids[0]} else {}) + Nacked(ids[1..], seconds[1..])
  {
    var rest, times := ids[1..], seconds[1..];
    assert forall i :: 0 <= i < |rest| ==> rest[i] == ids[i + 1] && times[i] == seconds[i + 1];
    assert forall i :: 1 <= i < |ids| ==> ids[i] == rest[i - 1] && seconds[i] == times[i - 1];
    forall x | x in IdSet(ids) ensures x in {ids[0]} + IdSet(rest) {
      var i :| 0 <= i < |ids| && ids[i] == x;
      if i > 0 { assert rest[i - 1] == x; }
    }
    forall x | x in IdSet(rest) ensures x in IdSet(ids) {
      var i :| 0 <= i < |rest| && rest[i] == x;
      assert ids[i + 1] == x;
    }
    forall x | x in Nacked(ids, seconds) ensures x in (if seconds[0] == 0 then {ids[0]} else {}) + Nacked(rest, times) {
      var i :| 0 <= i < |ids| && seconds[i] == 0 && ids[i] == x;
      if i > 0 { assert rest[i - 1] == x && times[i - 1] == 0; }
    }
    forall x | x in Nacked(rest, times) ensures x in Nacked(ids, seconds) {
      var i :| 0 <= i < |rest| && times[i] == 0 && rest[i] == x;
      assert ids[i + 1] == x && seconds[i + 1] == 0;
    }
  }

  /** A settled request reached the broker: of the deliveries there were, exactly
      those under an acked id are gone, those under a nacked id are available
      again, and the stream counts neither any more. */
  lemma SettledExact(s: State, held: Outstanding, first: bool, subscription: string, request: Request, now: int,
                     key: Key)
    requires SettledBy(s, held, first, subscription, request, now).error.None? && key in s.deliveries
    ensures |request.modifyIds| == |request.modifySeconds|
    ensures var t := SettledBy(s, held, first, subscription, request, now);
            && (key !in t.state.deliveries <==> Holds(s.deliveries[key], subscription, IdSet(request.ackIds)))
            && (key in t.state.deliveries ==>
                  DeadlinesDid(s.deliveries[key], t.state.deliveries[key], subscription, IdSet(request.modifyIds),
                               Nacked(request.modifyIds, request.modifySeconds)))
            && t.held == held - IdSet(request.ackIds) - Nacked(request.modifyIds, request.modifySeconds)
  {
    hide Deadlines, DeadlinesDid, Nacked, Collected, SubscriptionOf;
    var acked := Acknowledged(s, subscription, IdSet(request.ackIds));
    var rest := held - IdSet(request.ackIds);
    if request.ackIds == [] {
      assert IdSet(request.ackIds) == {} && rest == held;
      DeadlinesExact(s, held, subscription, request.modifyIds, request.modifySeconds, now, key);
    } else {
      AcknowledgedDeliveries(s, subscription, IdSet(request.ackIds), key);
      DeadlinesKeys(acked, rest, subscription, request.modifyIds, request.modifySeconds, now);
      if key in acked.deliveries {
        DeadlinesExact(acked, rest, subscription, request.modifyIds, request.modifySeconds, now, key);
      }
    }
  }

  lemma AcknowledgedDeliveries(s: State, subscription: string, ids: set<string>, key: Key)
    requires key in s.deliveries
    ensures var t := Acknowledged(s, subscription, ids);
            && (key in t.deliveries <==> !Holds(s.deliveries[key], subscription, ids))
            && (key in t.deliveries ==> t.deliveries[key] == s.deliveries[key])
  {
  }

  lemma {:induction false} DeadlinesKeys(s: State, held: Outstanding, subscription: string, ids: seq<string>,
                                         seconds: seq<int>, now: int)
    requires |ids| == |seconds|
    ensures var t := Deadlines(s, held, subscription, ids, seconds, now);
            && t.state.deliveries.Keys == s.deliveries.Keys && t.state.minted == s.minted
            && t.state.subscriptions == s.subscriptions && t.held.Keys <= held.Keys
            && (t.error.None? ==> t.held == held - Nacked(ids, seconds))
    decreases |ids|
  {
    hide Rescheduled, SubscriptionOf, Nacked;
    if ids != [] {
      NamesSplit(ids, seconds);
      var one := OneDeadline(s, held, subscription, ids[0], seconds[0], now);
      if SubscriptionOf(s, subscription).Success? && 0 <= seconds[0] <= 600 {
        RescheduledKeys(s, subscription, {ids[0]}, seconds[0], SaturatingAdd(now, seconds[0] * 1000));
        DeadlinesKeys(one.state, one.held, subscription, ids[1..], seconds[1..], now);
        var first := if seconds[0] == 0 then {ids[0]} else {};
        assert one.held == held - first;
        assert held - first - Nacked(ids[1..], seconds[1..]) == held - (first + Nacked(ids[1..], seconds[1..]));
      }
    } else {
      NamesNone();
      assert held - {} == held;
    }
  }

  lemma NamesNone()
    ensures Nacked([], []) == {}
  {
  }

  lemma RescheduledKeys(s: State, subscription: string, ids: set<string>, seconds: int, deadline: int)
    ensures var t := Rescheduled(s, subscription, ids, seconds, deadline);
            t.deliveries.Keys == s.deliveries.Keys && t.minted == s.minted && t.subscriptions == s.subscriptions
  {
  }

  lemma AcknowledgedMinted(s: State, subscription: string, ids: set<string>)
    ensures Acknowledged(s, subscription, ids).minted == s.minted
  {
  }

  /** A closing stream makes exactly the deliveries under its ids available and
      leaves every other delivery as it is. */
  lemma ReleasedExact(s: State, held: Outstanding, subscription: string, now: int, key: Key)
    requires SubscriptionOf(s, subscription).Success? && key in s.deliveries
    ensures var t := ReleasedBy(s, held, subscription, now);
            && t.deliveries.Keys == s.deliveries.Keys
            && t.deliveries[key]
               == (if Holds(s.deliveries[key], subscription, held.Keys) then Released(s.deliveries[key])
                   else s.deliveries[key])
            && !Holds(t.deliveries[key], subscription, held.Keys)
  {
    hide SubscriptionOf;
  }

  class Stream {
    const broker: PubSub
    const subscription: string
    const maxMessages: nat
    const maxBytes: int
    const deadline: int
    var outstanding: Outstanding
    var firstRequest: bool

    ghost predicate Valid() reads this, broker {
      StreamFits(broker.Model(), outstanding, maxMessages, maxBytes)
    }

    constructor (broker: PubSub, subscription: string, requestedMessages: int, requestedBytes: int, deadline: int)
      requires broker.Valid() && 10 <= deadline <= 600
      ensures Valid() && fresh(this) && this.broker == broker && this.subscription == subscription
      ensures this.deadline == deadline
      ensures outstanding == map[] && firstRequest
      ensures maxMessages == StreamMessages(requestedMessages) && maxBytes == StreamBytes(requestedBytes)
    {
      this.broker, this.subscription, this.deadline := broker, subscription, deadline;
      maxMessages, maxBytes := StreamMessages(requestedMessages), StreamBytes(requestedBytes);
      outstanding, firstRequest := map[], true;
    }

    /** Settles the acks and deadline changes of one request, in that order, up to
        the first error. */
    method Settle(request: Request, now: int) returns (error: Option<Status>)
      requires Valid()
      modifies this`outstanding, this`firstRequest, broker
      ensures Valid() && broker.minted == old(broker.minted)
      ensures Settled(broker.Model(), outstanding, error)
           == SettledBy(old(broker.Model()), old(outstanding), old(firstRequest), subscription, request, now)
      ensures !firstRequest
    {
      hide WithinBudget, Consistent, Acknowledged, Deadlines, SubscriptionOf;
      if Reopens(request, firstRequest) { return Some(InvalidArgument); }
      firstRequest := false;
      if |request.modifyIds| != |request.modifySeconds| { return Some(InvalidArgument); }
      if request.ackIds != [] {
        AcknowledgedMinted(broker.Model(), subscription, IdSet(request.ackIds));
        var acked := broker.AcknowledgeIds(subscription, request.ackIds);
        if acked.Failure? { return Some(acked.error); }
        FewerWithinBudget(outstanding, IdSet(request.ackIds), maxMessages, maxBytes);
        outstanding := outstanding - IdSet(request.ackIds);
      }
      error := SettleDeadlines(request.modifyIds, request.modifySeconds, now);
    }

    /** The deadline changes of a request, one at a time; zero gives a lease back. */
    method SettleDeadlines(ids: seq<string>, seconds: seq<int>, now: int) returns (error: Option<Status>)
      requires Valid() && |ids| == |seconds|
      modifies this`outstanding, broker
      ensures Valid() && broker.minted == old(broker.minted)
      ensures Settled(broker.Model(), outstanding, error)
           == Deadlines(old(broker.Model()), old(outstanding), subscription, ids, seconds, now)
    {
      hide WithinBudget, Consistent, OneDeadline;
      for i := 0 to |ids|
        invariant Valid() && broker.minted == old(broker.minted)
        invariant Deadlines(old(broker.Model()), old(outstanding), subscription, ids, seconds, now)
               == Deadlines(broker.Model(), outstanding, subscription, ids[i..], seconds[i..], now)
      {
        assert ids[i..][1..] == ids[i + 1..] && seconds[i..][1..] == seconds[i + 1..];
        error := SettleDeadline(ids[i], seconds[i], now);
        if error.Some? { return; }
      }
      error := None;
    }

    method SettleDeadline(id: string, seconds: int, now: int) returns (error: Option<Status>)
      requires Valid()
      modifies this`outstanding, broker
      ensures Valid() && broker.minted == old(broker.minted)
      ensures Settled(broker.Model(), outstanding, error)
           == OneDeadline(old(broker.Model()), old(outstanding), subscription, id, seconds, now)
    {
      hide WithinBudget, Consistent, SubscriptionOf, Rescheduled;
      RescheduledKeys(broker.Model(), subscription, {id}, seconds,
                      if seconds >= 0 then SaturatingAdd(now, seconds * 1000) else 0);
      OneId(id);
      var modified := broker.ModifyAckIds(subscription, [id], seconds, now);
      if modified.Failure? { return Some(modified.error); }
      if seconds == 0 {
        FewerWithinBudget(outstanding, {id}, maxMessages, maxBytes);
        outstanding := outstanding - {id};
      }
      error := None;
    }

    /** Counts only leases the broker still honours. */
    method Reconcile(now: int) returns (error: Option<Status>)
      requires Valid()
      modifies this`outstanding
      ensures Valid()
      ensures SubscriptionOf(broker.Model(), subscription).Failure? ==>
                error == Some(SubscriptionOf(broker.Model(), subscription).error) && outstanding == old(outstanding)
      ensures SubscriptionOf(broker.Model(), subscription).Success? ==>
                error.None? && outstanding == Honoured(old(outstanding), broker.Model(), subscription, now)
    {
      hide WithinBudget, Consistent, SubscriptionOf, ActiveLease;
      var active := broker.ActiveAckIds(subscription, outstanding.Keys, now);
      if active.Failure? { return Some(active.error); }
      assert active.value == ActiveIds(broker.Model(), subscription, outstanding.Keys, now);
      FewerWithinBudget(outstanding, outstanding.Keys - active.value, maxMessages, maxBytes);
      outstanding := outstanding - (outstanding.Keys - active.value);
      error := None;
    }

    /** The end of a stream gives every lease it still holds back to the broker,
        and touches nothing else. */
    method Release(now: int)
      requires Valid()
      modifies this`outstanding, broker
      ensures Valid() && outstanding == map[]
      ensures broker.Model() == ReleasedBy(old(broker.Model()), old(outstanding), subscription, now)
    {
      hide WithinBudget, Consistent, SubscriptionOf, Rescheduled;
      var ids := SortedKeys(outstanding.Keys);
      KeysListed(outstanding.Keys);
      NothingHeld(maxMessages, maxBytes);
      if ids != [] {
        var _ := broker.ModifyAckIds(subscription, ids, 0, now);
      }
      outstanding := map[];
    }

    method UsedBytes() returns (bytes: int)
      ensures bytes == HeldBytes(outstanding)
    {
      bytes := 0;
      var held := outstanding;
      var rest := held.Keys;
      ghost var weight := (id: string) => if id in held then held[id] else 0;
      while rest != {}
        invariant rest <= held.Keys
        invariant bytes + Total(rest, weight) == Total(held.Keys, weight)
        decreases |rest|
      {
        var id :| id in rest;
        TotalRemove(rest, weight, id);
        bytes := bytes + held[id];
        rest := rest - {id};
      }
      TotalAgrees(held.Keys, weight, id => if id in held then held[id] else 0);
    }

    /** One turn of the stream: settle a request if one arrived, drop dead leases,
        then claim within what the budget has left. Its whole effect on the broker
        is that of the request followed by at most one claim; mid is the broker in
        between and held what the stream counts before it claims. */
    method Turn(request: Option<Request>, now: int, uuids: Uuids)
      returns (outcome: Outcome, ghost mid: Settled, ghost held: Outstanding)
      requires Valid() && FreshIds(broker.Model(), uuids)
      modifies this`outstanding, this`firstRequest, broker
      ensures Valid()
      ensures request.None? ==> mid == Settled(old(broker.Model()), old(outstanding), None)
      ensures request.Some? ==>
                mid == SettledBy(old(broker.Model()), old(outstanding), old(firstRequest), subscription, request.value,
                                 now)
      ensures firstRequest == (old(firstRequest) && request.None?)
      ensures TurnAs(mid, broker.Model(), outstanding, outcome, held, subscription, maxMessages, maxBytes, deadline,
                     now, uuids)
    {
      hide WithinBudget, Consistent, Offered, SettledBy, ClaimedAs, Honoured, SubscriptionOf, Recorded, Added,
        FreshIds, HeldBytes;
      mid := Settled(broker.Model(), outstanding, None);
      held := outstanding;
      SameMinted(broker.Model(), broker.Model(), uuids);
      if request.Some? {
        ghost var before := broker.Model();
        var error := Settle(request.value, now);
        SameMinted(before, broker.Model(), uuids);
        mid := Settled(broker.Model(), outstanding, error);
        held := outstanding;
        if error.Some? { return Closed(error.value), mid, held; }
      }
      var gone := Reconcile(now);
      held := outstanding;
      if gone.Some? { return Closed(gone.value), mid, held; }
      var used := UsedBytes();
      if |outstanding| >= maxMessages || used >= maxBytes { return Idle, mid, held; }
      var count: nat := Room(outstanding, maxMessages);
      var bytes := Least(maxBytes - used, MAX_DELIVERY_MESSAGE_BYTES);
      outcome := ClaimMore(count, bytes, now, uuids);
    }

    /** The claim of a stream below its limits, and what it then counts. */
    method ClaimMore(count: nat, bytes: int, now: int, uuids: Uuids) returns (outcome: Outcome)
      requires Valid() && FreshIds(broker.Model(), uuids) && SubscriptionOf(broker.Model(), subscription).Success?
      requires 0 < count && |outstanding| + count <= maxMessages
      requires HeldBytes(outstanding) + bytes <= maxBytes && HeldBytes(outstanding) < maxBytes
      modifies this`outstanding, broker
      ensures Valid() && !outcome.Closed? && (outcome.Idle? <==> BatchOf(outcome) == [])
      ensures ClaimedAs(old(broker.Model()), broker.Model(), subscription, count, bytes, LeaseEnd(deadline, now), now,
                        uuids,
                        BatchOf(outcome))
      ensures outstanding == Added(old(outstanding), BatchOf(outcome))
      ensures Recorded(broker.deliveries, subscription, BatchOf(outcome))
      ensures outcome.Idle? ==> forall key :: !Offered(old(broker.Model()), subscription, now, key)
    {
      hide WithinBudget, Consistent, Offered, HeldBytes, FreshIds, Recorded, ClaimedAs, NewAcks, SubscriptionOf;
      ghost var before := broker.Model();
      var claimed := broker.ClaimValues(subscription, count, bytes, Some(deadline), now, uuids);
      ClaimContract(before, broker.Model(), subscription, count, bytes, LeaseEnd(deadline, now), now, uuids,
                    claimed.value, outstanding);
      ClaimWithinBudget(outstanding, claimed.value, maxMessages, maxBytes, count, bytes);
      AddedKeys(outstanding, claimed.value);
      outstanding := Added(outstanding, claimed.value);
      outcome := if claimed.value == [] then Idle else Delivered(claimed.value);
    }
  }
}
