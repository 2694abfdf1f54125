/** The in-memory Pub/Sub service: the broker tables behind one lock, updated in
    place, each operation tied to the broker step it performs. */
module BrokerService {
  import opened Wrappers
  import opened Order
  import opened Sums
  import opened Broker
  import opened BrokerSteps
  import opened BrokerClaims

  /** A message as a publisher sends it, with its encoded length before and
      after the server adds the id and the publish time. */
  datatype Draft = Draft(content: Content, messageId: string, hasPublishTime: bool, orderingKey: string,
                         encodedLen: nat, stampedLen: nat)

  /** A message handed to a subscriber under an ack id. */
  datatype BrokerMessage = BrokerMessage(ackId: string, message: Message, sizeBytes: int)

  function CheckDraft(d: Draft): Option<Status> {
    if d.content.data == [] && d.content.attributes == map[] then Some(InvalidArgument)
    else if d.messageId != "" || d.hasPublishTime then Some(InvalidArgument)
    else if d.orderingKey != "" then Some(Unimplemented)
    else if d.encodedLen > MAX_MESSAGE_BYTES then Some(ResourceExhausted)
    else None
  }

  function RequestBytes(drafts: seq<Draft>): nat {
    if drafts == [] then 0 else RequestBytes(drafts[..|drafts| - 1]) + drafts[|drafts| - 1].encodedLen
  }

  /** What the first message that fails its checks fails with. */
  function DraftRefusal(drafts: seq<Draft>): Option<Status> {
    if drafts == [] then None
    else if CheckDraft(drafts[0]).Some? then CheckDraft(drafts[0])
    else DraftRefusal(drafts[1..])
  }

  predicate TooLongStamped(drafts: seq<Draft>) {
    exists i :: 0 <= i < |drafts| && drafts[i].stampedLen > MAX_DELIVERY_MESSAGE_BYTES
  }

  /** Why a publish request is refused before the broker is touched: the first
      check that fails, in the order they are made. */
  function Refusal(drafts: seq<Draft>): Option<Status> {
    if drafts == [] then Some(InvalidArgument)
    else if DraftRefusal(drafts).Some? then DraftRefusal(drafts)
    else if RequestBytes(drafts) > MAX_PUBLISH_BYTES then Some(ResourceExhausted)
    else if TooLongStamped(drafts) then Some(ResourceExhausted)
    else None
  }

  /** The code comes from the first failing message, and every accepted message
      passes every check. */
  lemma {:induction false} DraftRefusalFirst(drafts: seq<Draft>)
    ensures DraftRefusal(drafts).None? <==> forall i :: 0 <= i < |drafts| ==> CheckDraft(drafts[i]).None?
    ensures DraftRefusal(drafts).Some? ==>
              exists i :: 0 <= i < |drafts| && DraftRefusal(drafts) == CheckDraft(drafts[i])
                          && forall j :: 0 <= j < i ==> CheckDraft(drafts[j]).None?
    decreases |drafts|
  {
    hide CheckDraft;
    if drafts != [] && CheckDraft(drafts[0]).None? {
      var rest := drafts[1..];
      DraftRefusalFirst(rest);
      assert forall i :: 0 <= i < |rest| ==> rest[i] == drafts[i + 1];
      assert forall i :: 1 <= i < |drafts| ==> drafts[i] == rest[i - 1];
      if DraftRefusal(rest).Some? {
        var i :| 0 <= i < |rest| && DraftRefusal(rest) == CheckDraft(rest[i])
                 && forall j :: 0 <= j < i ==> CheckDraft(rest[j]).None?;
        assert DraftRefusal(drafts) == CheckDraft(drafts[i + 1]);
      }
    }
  }

  function Stamp(drafts: seq<Draft>, publishTime: int, uuids: Uuids): seq<Stamped> {
    seq(|drafts|, i requires 0 <= i < |drafts| =>
      Stamped(Message(uuids(i), publishTime, drafts[i].content), drafts[i].stampedLen))
  }

  function Clamp(x: int, low: int, high: int): int {
    if x < low then low else if x > high then high else x
  }

  /** The i-th taken message under the i-th ack id. */
  function HandedOut(s: State, taken: seq<string>, acks: Uuids): seq<BrokerMessage>
    requires forall i :: 0 <= i < |taken| ==> taken[i] in s.messages && taken[i] in s.messageSizes
  {
    seq(|taken|, i requires 0 <= i < |taken| =>
      BrokerMessage(acks(i), s.messages[taken[i]], s.messageSizes[taken[i]]))
  }

  /** A claim took the broker from s to t and handed out this batch. */
  ghost predicate ClaimedAs(s: State, t: State, from: string, maxCount: nat, maxBytes: int, deadline: int, now: int,
                            acks: Uuids, batch: seq<BrokerMessage>) {
    var ready := Refreshed(s, from, now);
    var taken := Taken(ready, from, maxCount, maxBytes);
    && t == Claimed(s, from, maxCount, maxBytes, deadline, now, acks)
    && (forall i :: 0 <= i < |taken| ==> taken[i] in ready.messages && taken[i] in ready.messageSizes)
    && batch == HandedOut(ready, taken, acks)
  }

  // ----- Facts the loops need ----------------------------------------------

  lemma {:induction false} PositionAppend(taken: seq<string>, id: string, x: string)
    requires x in taken + [id] && id !in taken
    ensures Position(taken + [id], x) == if x in taken then Position(taken, x) else |taken|
  {
    if taken != [] && taken[0] != x {
      assert (taken + [id])[1..] == taken[1..] + [id];
      PositionAppend(taken[1..], id, x);
    }
  }

  lemma LeaseOneMore(d: map<Key, Delivery>, from: string, taken: seq<string>, acks: Uuids, deadline: int, id: string)
    requires Key(from, id) in d && id !in taken
    ensures LeaseAll(d, from, taken + [id], acks, deadline)
         == LeaseAll(d, from, taken, acks, deadline)[Key(from, id) := Leased(d[Key(from, id)], acks(|taken|), deadline)]
  {
    forall key | key in d && key.subscription == from && key.message in taken + [id]
      ensures Position(taken + [id], key.message)
           == if key.message in taken then Position(taken, key.message) else |taken|
    {
      PositionAppend(taken, id, key.message);
    }
  }

  lemma MinusTwice<V>(m: map<string, V>, ids: set<string>, id: string)
    ensures m - ids - {id} == m - (ids + {id}) && m - {} == m
  {
  }

  lemma ForgottenOneMore(s: State, ids: set<string>, id: string)
    ensures Forgotten(Forgotten(s, ids), {id}) == Forgotten(s, ids + {id})
    ensures Forgotten(s, {}) == s
  {
    MinusTwice(s.messages, ids, id);
    MinusTwice(s.messageTopics, ids, id);
    MinusTwice(s.messageSizes, ids, id);
    MinusTwice(s.messageExpiry, ids, id);
  }

  lemma CandidatesKnown(s: State, from: string)
    requires TablesAgree(s)
    ensures forall i :: 0 <= i < |Candidates(s, from)| ==>
              var id := Candidates(s, from)[i];
              && Key(from, id) in s.deliveries && id in s.messages && id in s.messageSizes
              && 0 <= s.messageSizes[id] <= MAX_DELIVERY_MESSAGE_BYTES
  {
    var candidates := Candidates(s, from);
    forall i | 0 <= i < |candidates| ensures Key(from, candidates[i]) in s.deliveries && candidates[i] in Live(s) {
      assert candidates[i] in candidates;
    }
  }

  lemma RequestBytesPrefix(drafts: seq<Draft>, i: nat)
    requires i < |drafts|
    ensures RequestBytes(drafts[..i + 1]) == RequestBytes(drafts[..i]) + drafts[i].encodedLen
  {
    assert drafts[..i + 1][..i] == drafts[..i];
  }

  lemma FanoutOneMore(names: set<string>, rest: set<string>, name: string, id: string)
    requires rest <= names && name in names && name !in rest
    ensures Fanout(names - rest, id) == Fanout(names - (rest + {name}), id)[Key(name, id) := UNCLAIMED(name)]
  {
    assert Row(names - rest, id) == Row(names - (rest + {name}), id) + {Key(name, id)};
  }

  lemma NotFitting(s: State, names: set<string>, batch: seq<Stamped>)
    requires |s.deliveries| + |batch| * |names| > MAX_PENDING_DELIVERIES
          || PendingBytes(s) + BatchBytes(batch) * |names| > MAX_PENDING_BYTES
    ensures !Fits(s, names, batch)
  {
  }

  lemma Fitting(s: State, names: set<string>, batch: seq<Stamped>)
    requires |s.deliveries| + |batch| * |names| <= MAX_PENDING_DELIVERIES
    requires PendingBytes(s) + BatchBytes(batch) * |names| <= MAX_PENDING_BYTES
    ensures Fits(s, names, batch)
  {
  }

  lemma StampFresh(s: State, drafts: seq<Draft>, publishTime: int, uuids: Uuids)
    requires FreshIds(s, uuids) && Refusal(drafts).None?
    ensures var batch := Stamp(drafts, publishTime, uuids);
            && Distinct(BatchIds(batch))
            && (forall i :: 0 <= i < |batch| ==>
                  batch[i].message.id !in s.minted && batch[i].size <= MAX_DELIVERY_MESSAGE_BYTES)
  {
  }

  lemma PickNext(keys: seq<string>, i: nat, size: string -> int, maxCount: nat, maxBytes: int, anyFits: bool,
                 taken: seq<string>, used: int)
    requires i < |keys|
    ensures var picked := Pick(keys[i..], size, maxCount, maxBytes, anyFits, taken, used);
            picked == if |taken| >= maxCount then taken
                      else if used + size(keys[i]) > maxBytes && (taken != [] || anyFits)
                      then Pick(keys[i + 1..], size, maxCount, maxBytes, anyFits, taken, used)
                      else Pick(keys[i + 1..], size, maxCount, maxBytes, anyFits, taken + [keys[i]],
                                used + size(keys[i]))
  {
    assert keys[i..][0] == keys[i] && keys[i..][1..] == keys[i + 1..];
  }

  lemma PickEnd(keys: seq<string>, size: string -> int, maxCount: nat, maxBytes: int, anyFits: bool,
                taken: seq<string>, used: int)
    ensures keys[0..] == keys
    ensures Pick(keys[|keys|..], size, maxCount, maxBytes, anyFits, taken, used) == taken
  {
  }

  lemma HandedOutAppend(s: State, taken: seq<string>, acks: Uuids, id: string)
    requires forall i :: 0 <= i < |taken| ==> taken[i] in s.messages && taken[i] in s.messageSizes
    requires id in s.messages && id in s.messageSizes
    ensures HandedOut(s, taken + [id], acks)
         == HandedOut(s, taken, acks) + [BrokerMessage(acks(|taken|), s.messages[id], s.messageSizes[id])]
  {
  }

  /** The loop of a claim has leased and handed out exactly these candidates. */
  predicate LeasedSoFar(s: State, from: string, acks: Uuids, deadline: int, taken: seq<string>,
                        result: seq<BrokerMessage>, deliveries: map<Key, Delivery>) {
    && (forall i :: 0 <= i < |taken| ==> taken[i] in s.messages && taken[i] in s.messageSizes)
    && result == HandedOut(s, taken, acks)
    && deliveries == LeaseAll(s.deliveries, from, taken, acks, deadline)
  }

  lemma LeasedSoFarMeans(s: State, from: string, acks: Uuids, deadline: int, taken: seq<string>,
                         result: seq<BrokerMessage>, deliveries: map<Key, Delivery>)
    requires LeasedSoFar(s, from, acks, deadline, taken, result, deliveries)
    ensures forall i :: 0 <= i < |taken| ==> taken[i] in s.messages && taken[i] in s.messageSizes
    ensures result == HandedOut(s, taken, acks)
    ensures deliveries == LeaseAll(s.deliveries, from, taken, acks, deadline)
  {
  }

  lemma LeasedSoFarTake(s: State, from: string, acks: Uuids, deadline: int, taken: seq<string>,
                        result: seq<BrokerMessage>, deliveries: map<Key, Delivery>, id: string)
    requires LeasedSoFar(s, from, acks, deadline, taken, result, deliveries)
    requires Key(from, id) in s.deliveries && id in s.messages && id in s.messageSizes && id !in taken
    ensures |result| == |taken| && Key(from, id) in deliveries
    ensures LeasedSoFar(s, from, acks, deadline, taken + [id],
                        result + [BrokerMessage(acks(|taken|), s.messages[id], s.messageSizes[id])],
                        deliveries[Key(from, id) := Leased(deliveries[Key(from, id)], acks(|taken|), deadline)])
  {
    LeaseOneMore(s.deliveries, from, taken, acks, deadline, id);
    HandedOutAppend(s, taken, acks, id);
    LeaseAllOthers(s.deliveries, from, taken, acks, deadline, Key(from, id));
    hide LeaseAll, HandedOut;
  }

  lemma LeaseAllOthers(d: map<Key, Delivery>, from: string, taken: seq<string>, acks: Uuids, deadline: int, key: Key)
    requires key in d && key.message !in taken
    ensures var after := LeaseAll(d, from, taken, acks, deadline);
            key in after && after[key] == d[key]
  {
  }

  lemma LeaseNone(s: State, from: string, acks: Uuids, deadline: int)
    ensures LeasedSoFar(s, from, acks, deadline, [], [], s.deliveries)
  {
  }

  lemma KeysDistinct(keys: seq<string>)
    requires Ascending(keys)
    ensures forall i, j :: 0 <= i < j < |keys| ==> keys[i] != keys[j]
  {
    forall i, j | 0 <= i < j < |keys| ensures keys[i] != keys[j] {
      CompareStringEqual(keys[i], keys[j]);
    }
  }

  lemma WithoutMessage(deliveries: map<Key, Delivery>, id: string)
    ensures (map key | key in deliveries && key.message != id :: deliveries[key])
         == (map key | key in deliveries && key.message !in {id} :: deliveries[key])
  {
  }

  /** How far the choice loop is: what is left to pick, and what was leased. */
  predicate ChoiceSoFar(s: State, subscription: string, keys: seq<string>, maxCount: nat, maxBytes: int, anyFits: bool,
                        deadline: int, uuids: Uuids, i: int, used: int, taken: seq<string>,
                        result: seq<BrokerMessage>, leased: map<Key, Delivery>) {
    && 0 <= i <= |keys| && |taken| == |result|
    && Pick(keys, SizeOf(s), maxCount, maxBytes, anyFits, [], 0)
       == Pick(keys[i..], SizeOf(s), maxCount, maxBytes, anyFits, taken, used)
    && (forall j, k :: 0 <= j < |taken| && i <= k < |keys| ==> taken[j] != keys[k])
    && LeasedSoFar(s, subscription, uuids, deadline, taken, result, leased)
  }

  lemma ChoiceSkip(s: State, subscription: string, keys: seq<string>, maxCount: nat, maxBytes: int, anyFits: bool,
                   deadline: int, uuids: Uuids, i: int, used: int, taken: seq<string>,
                   result: seq<BrokerMessage>, leased: map<Key, Delivery>)
    requires ChoiceSoFar(s, subscription, keys, maxCount, maxBytes, anyFits, deadline, uuids, i, used, taken, result,
                         leased)
    requires i < |keys| && |taken| < maxCount
    requires used + SizeOf(s)(keys[i]) > maxBytes && (taken != [] || anyFits)
    ensures ChoiceSoFar(s, subscription, keys, maxCount, maxBytes, anyFits, deadline, uuids, i + 1, used, taken,
                        result, leased)
  {
    PickNext(keys, i, SizeOf(s), maxCount, maxBytes, anyFits, taken, used);
    hide Pick, LeasedSoFar;
  }

  lemma ChoiceTake(s: State, subscription: string, keys: seq<string>, maxCount: nat, maxBytes: int, anyFits: bool,
                   deadline: int, uuids: Uuids, i: int, used: int, taken: seq<string>,
                   result: seq<BrokerMessage>, leased: map<Key, Delivery>)
    requires ChoiceSoFar(s, subscription, keys, maxCount, maxBytes, anyFits, deadline, uuids, i, used, taken, result,
                         leased)
    requires i < |keys| && |taken| < maxCount && Ascending(keys)
    requires used + SizeOf(s)(keys[i]) <= maxBytes || (taken == [] && !anyFits)
    requires Key(subscription, keys[i]) in s.deliveries && keys[i] in s.messages && keys[i] in s.messageSizes
    ensures Key(subscription, keys[i]) in leased
    ensures ChoiceSoFar(s, subscription, keys, maxCount, maxBytes, anyFits, deadline, uuids, i + 1,
                        used + s.messageSizes[keys[i]], taken + [keys[i]],
                        result + [BrokerMessage(uuids(|result|), s.messages[keys[i]], s.messageSizes[keys[i]])],
                        leased[Key(subscription, keys[i]) := Leased(leased[Key(subscription, keys[i])],
                                                                    uuids(|result|), deadline)])
  {
    PickNext(keys, i, SizeOf(s), maxCount, maxBytes, anyFits, taken, used);
    KeysDistinct(keys);
    assert keys[i] !in taken;
    hide Pick, Ascending;
    LeasedSoFarTake(s, subscription, uuids, deadline, taken, result, leased, keys[i]);
    hide LeasedSoFar;
    var next := taken + [keys[i]];
    forall j, k | 0 <= j < |next| && i + 1 <= k < |keys| ensures next[j] != keys[k] {}
  }

  lemma ChoiceEnds(s: State, subscription: string, keys: seq<string>, maxCount: nat, maxBytes: int, anyFits: bool,
                   deadline: int, uuids: Uuids, i: int, used: int, taken: seq<string>,
                   result: seq<BrokerMessage>, leased: map<Key, Delivery>)
    requires ChoiceSoFar(s, subscription, keys, maxCount, maxBytes, anyFits, deadline, uuids, i, used, taken, result,
                         leased)
    requires i == |keys| || |taken| >= maxCount
    ensures taken == Pick(keys, SizeOf(s), maxCount, maxBytes, anyFits, [], 0)
    ensures LeasedSoFar(s, subscription, uuids, deadline, taken, result, leased)
  {
    if i < |keys| { PickNext(keys, i, SizeOf(s), maxCount, maxBytes, anyFits, taken, used); }
    PickEnd(keys, SizeOf(s), maxCount, maxBytes, anyFits, taken, used);
    hide Pick, LeasedSoFar;
  }

  /** The choice loop of a claim over the swept tables. That every map access is
      defined shows that its orphan and oversize errors cannot occur. */
  method ChooseCandidates(ghost s: State, messages: map<string, Message>, sizes: map<string, int>,
                          table: map<Key, Delivery>, subscription: string, keys: seq<string>, maxCount: nat,
                          maxBytes: int, anyFits: bool, deadline: int, uuids: Uuids)
    returns (result: seq<BrokerMessage>, leased: map<Key, Delivery>)
    requires messages == s.messages && sizes == s.messageSizes && table == s.deliveries
    requires Ascending(keys)
    requires forall i :: 0 <= i < |keys| ==>
               Key(subscription, keys[i]) in table && keys[i] in messages && keys[i] in sizes
    ensures LeasedSoFar(s, subscription, uuids, deadline, Pick(keys, SizeOf(s), maxCount, maxBytes, anyFits, [], 0),
                        result, leased)
  {
    ghost var taken: seq<string> := [];
    result, leased := [], table;
    var used, i := 0, 0;
    LeaseNone(s, subscription, uuids, deadline);
    assert keys[0..] == keys;
    hide Pick, LeasedSoFar, Ascending;
    assert ChoiceSoFar(s, subscription, keys, maxCount, maxBytes, anyFits, deadline, uuids, i, used, taken, result,
                       leased);
    hide ChoiceSoFar;
    while i < |keys| && |result| < maxCount
      invariant 0 <= i <= |keys| && |taken| == |result|
      invariant ChoiceSoFar(s, subscription, keys, maxCount, maxBytes, anyFits, deadline, uuids, i, used, taken,
                            result, leased)
    {
      var id, key := keys[i], Key(subscription, keys[i]);
      var bytes := sizes[id];
      if used + bytes <= maxBytes || (result == [] && !anyFits) {
        ChoiceTake(s, subscription, keys, maxCount, maxBytes, anyFits, deadline, uuids, i, used, taken, result, leased);
        leased := leased[key := Leased(leased[key], uuids(|result|), deadline)];
        result := result + [BrokerMessage(uuids(|result|), messages[id], bytes)];
        used := used + bytes;
        taken := taken + [id];
      } else {
        ChoiceSkip(s, subscription, keys, maxCount, maxBytes, anyFits, deadline, uuids, i, used, taken, result, leased);
      }
      i := i + 1;
    }
    ChoiceEnds(s, subscription, keys, maxCount, maxBytes, anyFits, deadline, uuids, i, used, taken, result, leased);
  }

  method ChooseAndLease(ghost s: State, messages: map<string, Message>, sizes: map<string, int>,
                        table: map<Key, Delivery>, subscription: string, maxCount: nat, maxBytes: int, deadline: int,
                        uuids: Uuids)
    returns (result: seq<BrokerMessage>, leased: map<Key, Delivery>)
    requires messages == s.messages && sizes == s.messageSizes && table == s.deliveries && TablesAgree(s)
    ensures LeasedSoFar(s, subscription, uuids, deadline, Taken(s, subscription, maxCount, maxBytes), result, leased)
  {
    var keys := SortedKeys(set key | key in table && key.subscription == subscription && table[key].state.Available? ::
                             key.message);
    assert keys == Candidates(s, subscription);
    var anyFits := exists i | 0 <= i < |keys| :: (if keys[i] in sizes then sizes[keys[i]] else 0) <= maxBytes;
    assert anyFits == AnyFits(keys, SizeOf(s), maxBytes);
    CandidatesKnown(s, subscription);
    result, leased := ChooseCandidates(s, messages, sizes, table, subscription, keys, maxCount, maxBytes, anyFits,
                                       deadline, uuids);
  }

  class PubSub {
    var topics: map<string, Topic>
    var subscriptions: map<string, Subscription>
    var messages: map<string, Message>
    var messageTopics: map<string, string>
    var messageSizes: map<string, int>
    var messageExpiry: map<string, int>
    var deliveries: map<Key, Delivery>
    ghost var minted: set<string>

    ghost function Model(): State reads this {
      State(topics, subscriptions, messages, messageTopics, messageSizes, messageExpiry, deliveries, minted)
    }

    ghost predicate Valid() reads this {
      Consistent(Model())
    }

    constructor ()
      ensures Valid() && Model() == EMPTY
    {
      topics, subscriptions := map[], map[];
      messages, messageTopics, messageSizes, messageExpiry := map[], map[], map[], map[];
      deliveries, minted := map[], {};
      new;
      BrokerRuns.EmptyConsistent();
    }

    // ----- Resources -------------------------------------------------------

    method CreateTopic(topic: Topic) returns (r: Result<Topic, Status>)
      requires Valid()
      modifies this
      ensures Valid()
      ensures ParseResource(topic.name, "topics").None? ==> r == Failure(InvalidArgument) && Model() == old(Model())
      ensures ParseResource(topic.name, "topics").Some? && topic.unsupported ==>
                r == Failure(Unimplemented) && Model() == old(Model())
      ensures ParseResource(topic.name, "topics").Some? && !topic.unsupported ==>
                && Model() == TopicAdded(old(Model()), topic)
                && r == if topic.name in old(topics) then Failure(AlreadyExists) else Success(topic)
    {
      hide Consistent, ParseResource;
      if ParseResource(topic.name, "topics").None? { return Failure(InvalidArgument); }
      if topic.unsupported { return Failure(Unimplemented); }
      StepKeepsInvariant(Model(), AddTopic(topic));
      if topic.name in topics { return Failure(AlreadyExists); }
      topics := topics[topic.name := topic];
      r := Success(topic);
    }

    method DeleteTopic(name: string) returns (r: Result<(), Status>)
      requires Valid()
      modifies this
      ensures Valid()
      ensures ParseResource(name, "topics").None? ==> r == Failure(InvalidArgument) && Model() == old(Model())
      ensures ParseResource(name, "topics").Some? && name !in old(topics) ==>
                r == Failure(NotFound) && Model() == old(Model())
      ensures ParseResource(name, "topics").Some? && name in old(topics) ==>
                r == Success(()) && Model() == TopicDropped(old(Model()), name)
    {
      hide Consistent, ParseResource;
      if ParseResource(name, "topics").None? { return Failure(InvalidArgument); }
      StepKeepsInvariant(Model(), DropTopic(name));
      if name !in topics { return Failure(NotFound); }
      topics := topics - {name};
      subscriptions := map n | n in subscriptions ::
        if subscriptions[n].topic == name then subscriptions[n].(topic := DELETED_TOPIC) else subscriptions[n];
      r := Success(());
    }

    /** The request after normalisation: a zero ack deadline means the default. */
    static function NormalizeSubscription(sub: Subscription): Result<Subscription, Status> {
      if sub.unsupported then Failure(Unimplemented)
      else if sub.ackDeadline == 0 then Success(sub.(ackDeadline := 10))
      else if 10 <= sub.ackDeadline <= 600 then Success(sub)
      else Failure(InvalidArgument)
    }

    /** Both names parse and belong to one project. */
    static predicate SameProject(sub: Subscription) {
      var own := ParseResource(sub.name, "subscriptions");
      var other := ParseResource(sub.topic, "topics");
      own.Some? && other.Some? && own.value.0 == other.value.0
    }

    method CreateSubscription(request: Subscription) returns (r: Result<Subscription, Status>)
      requires Valid()
      modifies this
      ensures Valid()
      ensures NormalizeSubscription(request).Failure? ==>
                r == Failure(NormalizeSubscription(request).error) && Model() == old(Model())
      ensures NormalizeSubscription(request).Success? && !SameProject(request) ==>
                r == Failure(InvalidArgument) && Model() == old(Model())
      ensures NormalizeSubscription(request).Success? && SameProject(request) ==>
                var sub := NormalizeSubscription(request).value;
                && Model() == SubscriptionAdded(old(Model()), sub)
                && r == if sub.topic !in old(topics) then Failure(NotFound)
                        else if sub.name in old(subscriptions) then Failure(AlreadyExists) else Success(sub)
    {
      hide Consistent, ParseResource;
      var normalized := NormalizeSubscription(request);
      if normalized.Failure? { return Failure(normalized.error); }
      if !SameProject(request) { return Failure(InvalidArgument); }
      var sub := normalized.value;
      StepKeepsInvariant(Model(), AddSubscription(sub));
      if sub.topic !in topics { return Failure(NotFound); }
      if sub.name in subscriptions { return Failure(AlreadyExists); }
      subscriptions := subscriptions[sub.name := sub];
      r := Success(sub);
    }

    function GetSubscription(name: string): (r: Result<Subscription, Status>)
      reads this
      ensures r.Success? ==> name in subscriptions && r.value == subscriptions[name]
      ensures r == SubscriptionOf(Model(), name)
    {
      if ParseResource(name, "subscriptions").None? then Failure(InvalidArgument)
      else if name in subscriptions then Success(subscriptions[name])
      else Failure(NotFound)
    }

    method DeleteSubscription(name: string) returns (r: Result<(), Status>)
      requires Valid()
      modifies this
      ensures Valid()
      ensures ParseResource(name, "subscriptions").None? ==> r == Failure(InvalidArgument) && Model() == old(Model())
      ensures ParseResource(name, "subscriptions").Some? && name !in old(subscriptions) ==>
                r == Failure(NotFound) && Model() == old(Model())
      ensures ParseResource(name, "subscriptions").Some? && name in old(subscriptions) ==>
                r == Success(()) && Model() == SubscriptionDropped(old(Model()), name)
    {
      hide Consistent, ParseResource;
      if ParseResource(name, "subscriptions").None? { return Failure(InvalidArgument); }
      if name !in subscriptions { return Failure(NotFound); }
      StepKeepsInvariant(Model(), DropSubscription(name));
      subscriptions := subscriptions - {name};
      deliveries := map key | key in deliveries && key.subscription != name :: deliveries[key];
      MemoryGc();
      r := Success(());
    }

    // ----- Table maintenance -----------------------------------------------

    method MemoryGc()
      modifies this
      ensures Model() == Collected(old(Model()))
    {
      var live := set key | key in deliveries :: key.message;
      messages := Keep(messages, live);
      messageTopics := Keep(messageTopics, live);
      messageSizes := Keep(messageSizes, live);
      messageExpiry := Keep(messageExpiry, live);
    }

    method Forget(id: string)
      modifies this
      ensures Model() == Forgotten(old(Model()), {id})
    {
      messages, messageTopics := messages - {id}, messageTopics - {id};
      messageSizes, messageExpiry := messageSizes - {id}, messageExpiry - {id};
      WithoutMessage(deliveries, id);
      deliveries := map key | key in deliveries && key.message != id :: deliveries[key];
    }

    method CleanupMemory(now: int)
      modifies this
      ensures Model() == Cleaned(old(Model()), now)
    {
      var expired := set id | id in messageExpiry && messageExpiry[id] <= now;
      ghost var done := {};
      ForgottenOneMore(Model(), {}, "");
      while expired != {}
        invariant done + expired == Expired(old(Model()), now)
        invariant Model() == Forgotten(old(Model()), done)
        decreases |expired|
      {
        hide Forgotten;
        var id :| id in expired;
        ForgottenOneMore(old(Model()), done, id);
        Forget(id);
        expired := expired - {id};
        done := done + {id};
      }
      assert done == Expired(old(Model()), now);
    }

    method MemoryUsage() returns (count: int, bytes: int)
      ensures count == |deliveries| && bytes == PendingBytes(Model())
    {
      count := |deliveries|;
      bytes := 0;
      var rest := deliveries.Keys;
      ghost var s := Model();
      ghost var weight := (key: Key) => Size(s, key);
      while rest != {}
        invariant bytes + Total(rest, weight) == Total(deliveries.Keys, weight)
        decreases |rest|
      {
        var key :| key in rest;
        TotalRemove(rest, weight, key);
        bytes := bytes + if key.message in messageSizes then messageSizes[key.message] else 0;
        rest := rest - {key};
      }
      TotalAgrees(deliveries.Keys, weight, key => Size(s, key));
    }

    // ----- Publish ---------------------------------------------------------

    /** Validates a publish request in message order (the loop before stamping). */
    static method CheckPublish(drafts: seq<Draft>) returns (refusal: Option<Status>)
      ensures refusal == Refusal(drafts)
    {
      if drafts == [] { return Some(InvalidArgument); }
      var requestBytes := 0;
      for i := 0 to |drafts|
        invariant DraftRefusal(drafts) == DraftRefusal(drafts[i..])
        invariant requestBytes == RequestBytes(drafts[..i])
      {
        assert drafts[i..][1..] == drafts[i + 1..];
        if CheckDraft(drafts[i]).Some? { return CheckDraft(drafts[i]); }
        RequestBytesPrefix(drafts, i);
        requestBytes := requestBytes + drafts[i].encodedLen;
      }
      assert drafts[..|drafts|] == drafts;
      if requestBytes > MAX_PUBLISH_BYTES { return Some(ResourceExhausted); }
      for i := 0 to |drafts|
        invariant forall j :: 0 <= j < i ==> drafts[j].stampedLen <= MAX_DELIVERY_MESSAGE_BYTES
      {
        if drafts[i].stampedLen > MAX_DELIVERY_MESSAGE_BYTES { return Some(ResourceExhausted); }
      }
      refusal := None;
    }

    method AddDeliveries(names: set<string>, id: string)
      modifies this`deliveries
      ensures deliveries == old(deliveries) + Fanout(names, id)
    {
      var rest, added := names, map[];
      while rest != {}
        invariant rest <= names && deliveries == old(deliveries)
        invariant added == Fanout(names - rest, id)
        decreases |rest|
      {
        var name :| name in rest;
        assert rest - {name} + {name} == rest;
        rest := rest - {name};
        FanoutOneMore(names, rest, name, id);
        added := added[Key(name, id) := UNCLAIMED(name)];
      }
      assert names - rest == names;
      deliveries := deliveries + added;
    }

    method InsertMessage(topic: string, names: set<string>, m: Stamped, expiry: int)
      modifies this
      ensures Model() == EnqueuedOne(old(Model()), topic, names, m, expiry)
    {
      hide Fanout;
      var id := m.message.id;
      messageTopics := messageTopics[id := topic];
      messageSizes := messageSizes[id := m.size];
      messageExpiry := messageExpiry[id := expiry];
      messages := messages[id := m.message];
      AddDeliveries(names, id);
    }

    /** The critical section of a publish. */
    method PublishBatch(topic: string, batch: seq<Stamped>, expiry: int, now: int)
      returns (r: Result<seq<string>, Status>)
      modifies this
      ensures Model() == Published(old(Model()), topic, batch, expiry, now)
      ensures var clean := Awaiting(old(Model()), batch, now);
              r == (if topic !in clean.topics then Failure(NotFound)
                    else if Subscribers(clean, topic) != {} && !Fits(clean, Subscribers(clean, topic), batch)
                    then Failure(ResourceExhausted)
                    else Success(BatchIds(batch)))
    {
      CleanupMemory(now);
      minted := minted + Ids(batch);
      ghost var clean := Model();
      assert clean == Awaiting(old(Model()), batch, now);
      hide Awaiting, Fits, EnqueuedOne;
      if topic !in topics { return Failure(NotFound); }
      var names := set n | n in subscriptions && subscriptions[n].topic == topic :: subscriptions[n].name;
      assert names == Subscribers(clean, topic);
      hide Subscribers;
      if names == {} { return Success(BatchIds(batch)); }
      var count, bytes := MemoryUsage();
      if count + |batch| * |names| > MAX_PENDING_DELIVERIES || bytes + BatchBytes(batch) * |names| > MAX_PENDING_BYTES {
        NotFitting(clean, names, batch);
        return Failure(ResourceExhausted);
      }
      Fitting(clean, names, batch);
      for i := 0 to |batch|
        invariant Enqueued(clean, topic, names, batch, expiry) == Enqueued(Model(), topic, names, batch[i..], expiry)
      {
        assert batch[i..][1..] == batch[i + 1..];
        InsertMessage(topic, names, batch[i], expiry);
      }
      r := Success(BatchIds(batch));
    }

    /** Atomic publish: a refused request, an unknown topic or a full backlog
        stores no message; otherwise the whole batch reaches every subscriber. */
    method PublishValues(topic: string, drafts: seq<Draft>, publishTime: int, now: int, uuids: Uuids)
      returns (r: Result<seq<string>, Status>)
      requires Valid() && FreshIds(Model(), uuids)
      modifies this
      ensures Valid()
      ensures ParseResource(topic, "topics").None? ==> r == Failure(InvalidArgument) && Model() == old(Model())
      ensures ParseResource(topic, "topics").Some? && Refusal(drafts).Some? ==>
                r == Failure(Refusal(drafts).value) && Model() == old(Model())
      ensures ParseResource(topic, "topics").Some? && Refusal(drafts).None? ==>
                var batch := Stamp(drafts, publishTime, uuids);
                var expiry := SaturatingAdd(now, RETENTION_SECONDS * 1000);
                var clean := Awaiting(old(Model()), batch, now);
                && Model() == Published(old(Model()), topic, batch, expiry, now)
                && r == (if topic !in clean.topics then Failure(NotFound)
                         else if Subscribers(clean, topic) != {} && !Fits(clean, Subscribers(clean, topic), batch)
                         then Failure(ResourceExhausted)
                         else Success(BatchIds(batch)))
    {
      hide Consistent, ParseResource, Refusal, Published, Awaiting;
      if ParseResource(topic, "topics").None? { return Failure(InvalidArgument); }
      var refusal := CheckPublish(drafts);
      if refusal.Some? { return Failure(refusal.value); }
      var batch := Stamp(drafts, publishTime, uuids);
      var expiry := SaturatingAdd(now, RETENTION_SECONDS * 1000);
      StampFresh(Model(), drafts, publishTime, uuids);
      StepKeepsInvariant(Model(), Publish(topic, batch, expiry, now));
      r := PublishBatch(topic, batch, expiry, now);
    }

    // ----- Claim -----------------------------------------------------------

    method SweepLapsed(subscription: string, now: int)
      modifies this`deliveries
      ensures Model() == Swept(old(Model()), subscription, now)
    {
      deliveries := map key | key in deliveries ::
        if Lapsed(deliveries[key], subscription, now) then Released(deliveries[key]) else deliveries[key];
    }

    method LeaseCandidates(subscription: string, maxCount: nat, maxBytes: int, deadline: int, uuids: Uuids)
      returns (result: seq<BrokerMessage>)
      requires Valid()
      modifies this`deliveries, this`minted
      ensures var taken := Taken(old(Model()), subscription, maxCount, maxBytes);
              && LeasedSoFar(old(Model()), subscription, uuids, deadline, taken, result, deliveries)
              && minted == old(minted) + Drawn(uuids, |taken|)
    {
      hide LeasedSoFar, LeasesExclusive, ResourcesLinked, IdsMinted, Bounded;
      var leased;
      result, leased := ChooseAndLease(Model(), messages, messageSizes, deliveries, subscription, maxCount, maxBytes,
                                       deadline, uuids);
      deliveries := leased;
      minted := minted + Drawn(uuids, |Taken(old(Model()), subscription, maxCount, maxBytes)|);
    }

    /** Leases available messages under flow control. The lease runs for the
        override or the subscription's own deadline, between 10 and 600 seconds. */
    method ClaimValues(subscription: string, maxCount: nat, maxBytes: int, deadlineOverride: Option<int>, now: int,
                       uuids: Uuids) returns (r: Result<seq<BrokerMessage>, Status>)
      requires Valid() && FreshIds(Model(), uuids)
      modifies this
      ensures Valid()
      ensures old(GetSubscription(subscription)).Failure? ==>
                r == Failure(old(GetSubscription(subscription)).error) && Model() == old(Model())
      ensures old(GetSubscription(subscription)).Success? ==>
                var configured := old(GetSubscription(subscription)).value.ackDeadline;
                var seconds := Clamp(if deadlineOverride.Some? then deadlineOverride.value else configured, 10, 600);
                var deadline := SaturatingAdd(now, seconds * 1000);
                && r.Success?
                && ClaimedAs(old(Model()), Model(), subscription, maxCount, maxBytes, deadline, now, uuids, r.value)
    {
      hide Consistent, ParseResource, Cleaned, Swept, Taken, LeaseAll, LeasedSoFar;
      var found := GetSubscription(subscription);
      if found.Failure? { return Failure(found.error); }
      var seconds := Clamp(if deadlineOverride.Some? then deadlineOverride.value else found.value.ackDeadline, 10, 600);
      var deadline := SaturatingAdd(now, seconds * 1000);
      StepKeepsInvariant(Model(), Claim(subscription, maxCount, maxBytes, deadline, now, uuids));
      RefreshedConsistent(Model(), subscription, now);
      CleanupMemory(now);
      SweepLapsed(subscription, now);
      assert Model() == Refreshed(old(Model()), subscription, now);
      ghost var ready := Model();
      var result := LeaseCandidates(subscription, maxCount, maxBytes, deadline, uuids);
      LeasedSoFarMeans(ready, subscription, uuids, deadline, Taken(ready, subscription, maxCount, maxBytes), result,
                       deliveries);
      r := Success(result);
    }

    // ----- Acknowledge and deadline changes --------------------------------

    method AcknowledgeIds(subscription: string, ackIds: seq<string>) returns (r: Result<(), Status>)
      requires Valid()
      modifies this
      ensures Valid()
      ensures old(GetSubscription(subscription)).Failure? ==>
                r == Failure(old(GetSubscription(subscription)).error) && Model() == old(Model())
      ensures old(GetSubscription(subscription)).Success? && ackIds == [] ==>
                r == Failure(InvalidArgument) && Model() == old(Model())
      ensures old(GetSubscription(subscription)).Success? && ackIds != [] ==>
                && r == Success(())
                && Model() == Acknowledged(old(Model()), subscription, set i | 0 <= i < |ackIds| :: ackIds[i])
    {
      hide Consistent, ParseResource, Collected;
      var found := GetSubscription(subscription);
      if found.Failure? { return Failure(found.error); }
      if ackIds == [] { return Failure(InvalidArgument); }
      var ids := set i | 0 <= i < |ackIds| :: ackIds[i];
      StepKeepsInvariant(Model(), Acknowledge(subscription, ids));
      deliveries := map key | key in deliveries && !Holds(deliveries[key], subscription, ids) :: deliveries[key];
      MemoryGc();
      r := Success(());
    }

    method ModifyAckIds(subscription: string, ackIds: seq<string>, seconds: int, now: int)
      returns (r: Result<(), Status>)
      requires Valid()
      modifies this
      ensures Valid()
      ensures old(GetSubscription(subscription)).Failure? ==>
                r == Failure(old(GetSubscription(subscription)).error) && Model() == old(Model())
      ensures old(GetSubscription(subscription)).Success? && (ackIds == [] || !(0 <= seconds <= 600)) ==>
                r == Failure(InvalidArgument) && Model() == old(Model())
      ensures old(GetSubscription(subscription)).Success? && ackIds != [] && 0 <= seconds <= 600 ==>
                && r == Success(())
                && Model() == Rescheduled(old(Model()), subscription, set i | 0 <= i < |ackIds| :: ackIds[i], seconds,
                                          SaturatingAdd(now, seconds * 1000))
    {
      hide Consistent, ParseResource;
      var found := GetSubscription(subscription);
      if found.Failure? { return Failure(found.error); }
      if ackIds == [] || !(0 <= seconds <= 600) { return Failure(InvalidArgument); }
      var ids := set i | 0 <= i < |ackIds| :: ackIds[i];
      var deadline := SaturatingAdd(now, seconds * 1000);
      StepKeepsInvariant(Model(), ModifyDeadline(subscription, ids, seconds, deadline));
      deliveries := map key | key in deliveries ::
        if Holds(deliveries[key], subscription, ids)
        then if seconds == 0 then Released(deliveries[key]) else deliveries[key].(deadline := Some(deadline))
        else deliveries[key];
      r := Success(());
    }

    /** The requested ids, all of them, whose lease is recorded and not past its deadline. */
    function ActiveAckIds(subscription: string, requested: set<string>, now: int): (r: Result<set<string>, Status>)
      reads this
      ensures GetSubscription(subscription).Failure? ==> r == Failure(GetSubscription(subscription).error)
      ensures GetSubscription(subscription).Success? ==>
                r.Success? && forall id :: id in r.value <==>
                  id in requested
                  && exists key :: key in deliveries && ActiveLease(deliveries[key], subscription, now, id)
    {
      match GetSubscription(subscription)
      case Failure(e) => Failure(e)
      case Success(_) =>
        var active := set key |
                        key in deliveries && deliveries[key].ackId.Some? && deliveries[key].ackId.value in requested
                                && ActiveLease(deliveries[key], subscription, now, deliveries[key].ackId.value) ::
                        deliveries[key].ackId.value;
        Success(active)
    }
  }
}
