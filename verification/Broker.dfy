/** The Pub/Sub broker as a state machine: what one critical section of each
    operation does to the coupled tables (src/pubsub.rs). */
module Broker {
  import opened Wrappers
  import opened Order
  import opened Paths
  import opened Sums

  const MAX_MESSAGE_BYTES := 10 * 1024 * 1024
  const MAX_PUBLISH_BYTES := 10 * 1024 * 1024
  const MAX_DELIVERY_MESSAGE_BYTES := MAX_MESSAGE_BYTES + 1024
  const MAX_PENDING_DELIVERIES := 10_000
  const MAX_PENDING_BYTES := 64 * 1024 * 1024
  const RETENTION_SECONDS := 24 * 60 * 60
  const DELETED_TOPIC := "_deleted-topic_"
  const MAX_I64 := 0x7fff_ffff_ffff_ffff

  /** Primary key of the delivery table. */
  datatype Key = Key(subscription: string, message: string)

  datatype Content = Content(data: seq<int>, attributes: map<string, string>)

  datatype Message = Message(id: string, publishTime: int, content: Content)

  datatype Topic = Topic(name: string, unsupported: bool)

  datatype Subscription = Subscription(name: string, topic: string, ackDeadline: int, unsupported: bool)

  datatype Lease = Available | InFlight

  datatype Delivery = Delivery(subscription: string, state: Lease, ackId: Option<string>,
                               deadline: Option<int>, attempts: int)

  /** The seven maps of the in-memory broker, and the identifiers drawn so far. */
  datatype State = State(topics: map<string, Topic>,
                         subscriptions: map<string, Subscription>,
                         messages: map<string, Message>,
                         messageTopics: map<string, string>,
                         messageSizes: map<string, int>,
                         messageExpiry: map<string, int>,
                         deliveries: map<Key, Delivery>,
                         minted: set<string>)

  const EMPTY := State(map[], map[], map[], map[], map[], map[], map[], {})

  // ----- Names -------------------------------------------------------------

  predicate IsLetter(c: char) {
    'a' <= c <= 'z' || 'A' <= c <= 'Z'
  }

  predicate IsIdChar(c: char) {
    IsLetter(c) || '0' <= c <= '9' || c in "-_.~+%"
  }

  function ToLower(c: char): char {
    if 'A' <= c <= 'Z' then ((c as int) + 32) as char else c
  }

  predicate ValidId(id: string) {
    && 3 <= |id| <= 255
    && (forall i :: 0 <= i < |id| ==> IsIdChar(id[i]))
    && IsLetter(id[0])
    && !(|id| >= 4 && [ToLower(id[0]), ToLower(id[1]), ToLower(id[2]), ToLower(id[3])] == "goog")
  }

  /** The project and id of projects/{project}/{kind}/{id}. */
  function ParseResource(value: string, kind: string): Option<(string, string)> {
    var parts := Split(value);
    if |parts| == 4 && parts[0] == "projects" && parts[1] != "" && parts[2] == kind && ValidId(parts[3])
    then Some((parts[1], parts[3])) else None
  }

  /** The marker of a deleted topic can never name a topic. */
  lemma MarkerIsNoTopic(name: string)
    requires ParseResource(name, "topics").Some?
    ensures name != DELETED_TOPIC
  {
    if SlashFree(name) { SplitSlashFree(name); }
  }

  // ----- Table maintenance -------------------------------------------------

  function SaturatingAdd(a: int, b: nat): int {
    if a + b > MAX_I64 then MAX_I64 else a + b
  }

  /** The message ids that some delivery still needs. */
  function Live(s: State): set<string> {
    set key | key in s.deliveries :: key.message
  }

  function Keep<V>(m: map<string, V>, ids: set<string>): map<string, V> {
    map id | id in m && id in ids :: m[id]
  }

  /** Drops messages no delivery needs (memory_gc). */
  function Collected(s: State): State {
    var live := Live(s);
    s.(messages := Keep(s.messages, live),
       messageTopics := Keep(s.messageTopics, live),
       messageSizes := Keep(s.messageSizes, live),
       messageExpiry := Keep(s.messageExpiry, live))
  }

  function Expired(s: State, now: int): set<string> {
    set id | id in s.messageExpiry && s.messageExpiry[id] <= now
  }

  /** Drops these messages with their deliveries. */
  function Forgotten(s: State, ids: set<string>): State {
    s.(messages := s.messages - ids,
       messageTopics := s.messageTopics - ids,
       messageSizes := s.messageSizes - ids,
       messageExpiry := s.messageExpiry - ids,
       deliveries := map key | key in s.deliveries && key.message !in ids :: s.deliveries[key])
  }

  /** Drops messages whose retention is over (cleanup_memory). */
  function Cleaned(s: State, now: int): State {
    Forgotten(s, Expired(s, now))
  }

  function Released(d: Delivery): Delivery {
    d.(state := Available, ackId := None, deadline := None)
  }

  predicate Lapsed(d: Delivery, subscription: string, now: int) {
    d.subscription == subscription && d.state.InFlight? && d.deadline.Some? && d.deadline.value <= now
  }

  /** Makes the lapsed leases of one subscription available again. */
  function Swept(s: State, subscription: string, now: int): State {
    s.(deliveries := map key | key in s.deliveries ::
         if Lapsed(s.deliveries[key], subscription, now) then Released(s.deliveries[key]) else s.deliveries[key])
  }

  // ----- Publish -----------------------------------------------------------

  /** A message after the server assigned its id and publish time. */
  datatype Stamped = Stamped(message: Message, size: nat)

  function Ids(batch: seq<Stamped>): set<string> {
    set i | 0 <= i < |batch| :: batch[i].message.id
  }

  function Subscribers(s: State, topic: string): set<string> {
    set name | name in s.subscriptions && s.subscriptions[name].topic == topic :: s.subscriptions[name].name
  }

  const UNCLAIMED: string -> Delivery := name => Delivery(name, Available, None, None, 0)

  function Size(s: State, key: Key): int {
    if key.message in s.messageSizes then s.messageSizes[key.message] else 0
  }

  /** What memory_usage sums up. */
  ghost function PendingBytes(s: State): int {
    Total(s.deliveries.Keys, key => Size(s, key))
  }

  function BatchBytes(batch: seq<Stamped>): nat {
    if batch == [] then 0 else batch[0].size + BatchBytes(batch[1..])
  }

  ghost predicate Fits(s: State, subscribers: set<string>, batch: seq<Stamped>) {
    && |s.deliveries| + |batch| * |subscribers| <= MAX_PENDING_DELIVERIES
    && PendingBytes(s) + BatchBytes(batch) * |subscribers| <= MAX_PENDING_BYTES
  }

  function Row(subscribers: set<string>, id: string): set<Key> {
    set name | name in subscribers :: Key(name, id)
  }

  function Fanout(subscribers: set<string>, id: string): map<Key, Delivery> {
    map key | key in Row(subscribers, id) :: UNCLAIMED(key.subscription)
  }

  /** Adds one message with an unclaimed delivery for each subscriber. */
  function EnqueuedOne(s: State, topic: string, subscribers: set<string>, m: Stamped, expiry: int): State {
    var id := m.message.id;
    s.(messages := s.messages[id := m.message],
       messageTopics := s.messageTopics[id := topic],
       messageSizes := s.messageSizes[id := m.size],
       messageExpiry := s.messageExpiry[id := expiry],
       deliveries := s.deliveries + Fanout(subscribers, id))
  }

  function Enqueued(s: State, topic: string, subscribers: set<string>, batch: seq<Stamped>, expiry: int): State
    decreases |batch|
  {
    if batch == [] then s
    else Enqueued(EnqueuedOne(s, topic, subscribers, batch[0], expiry), topic, subscribers, batch[1..], expiry)
  }

  /** The tables a publish looks at: expired messages are gone and the ids of
      the batch have been drawn. */
  function Awaiting(s: State, batch: seq<Stamped>, now: int): State {
    Cleaned(s, now).(minted := s.minted + Ids(batch))
  }

  /** Retention first, then the batch if it has subscribers and fits. */
  ghost function Published(s: State, topic: string, batch: seq<Stamped>, expiry: int, now: int): State {
    var clean := Awaiting(s, batch, now);
    if topic in clean.topics && Subscribers(clean, topic) != {} && Fits(clean, Subscribers(clean, topic), batch)
    then Enqueued(clean, topic, Subscribers(clean, topic), batch, expiry) else clean
  }

  // ----- Claim -------------------------------------------------------------

  /** The message ids a claim looks at, in the order of the delivery table. */
  function Candidates(s: State, subscription: string): seq<string> {
    SortedKeys(set key |
                 key in s.deliveries && key.subscription == subscription && s.deliveries[key].state.Available? ::
                 key.message)
  }

  /** The choice the claim loop makes from the candidates it has not seen yet. */
  function Pick(candidates: seq<string>, size: string -> int, maxCount: nat, maxBytes: int, anyFits: bool,
                taken: seq<string>, used: int): seq<string>
  {
    if candidates == [] || |taken| >= maxCount then taken
    else
      var id := candidates[0];
      if used + size(id) > maxBytes && (taken != [] || anyFits)
      then Pick(candidates[1..], size, maxCount, maxBytes, anyFits, taken, used)
      else Pick(candidates[1..], size, maxCount, maxBytes, anyFits, taken + [id], used + size(id))
  }

  function SizeOf(s: State): string -> int {
    id => if id in s.messageSizes then s.messageSizes[id] else 0
  }

  predicate AnyFits(candidates: seq<string>, size: string -> int, maxBytes: int) {
    exists i :: 0 <= i < |candidates| && size(candidates[i]) <= maxBytes
  }

  function Taken(s: State, subscription: string, maxCount: nat, maxBytes: int): seq<string> {
    var candidates := Candidates(s, subscription);
    Pick(candidates, SizeOf(s), maxCount, maxBytes, AnyFits(candidates, SizeOf(s), maxBytes), [], 0)
  }

  function Position(ids: seq<string>, id: string): (i: nat)
    requires id in ids
    ensures i < |ids| && ids[i] == id
  {
    if ids[0] == id then 0 else 1 + Position(ids[1..], id)
  }

  function Leased(d: Delivery, ackId: string, deadline: int): Delivery {
    d.(state := InFlight, ackId := Some(ackId), deadline := Some(deadline), attempts := d.attempts + 1)
  }

  /** The identifiers a claim draws, in order. */
  type Uuids = nat -> string

  function Drawn(ids: Uuids, count: nat): set<string> {
    set i: nat | i < count :: ids(i)
  }

  /** Leases the taken messages of one subscription under the i-th ack id each. */
  function LeaseAll(deliveries: map<Key, Delivery>, subscription: string, taken: seq<string>, acks: Uuids,
                    deadline: int): map<Key, Delivery>
  {
    map key | key in deliveries ::
      if key.subscription == subscription && key.message in taken
      then Leased(deliveries[key], acks(Position(taken, key.message)), deadline)
      else deliveries[key]
  }

  /** The taken messages leased, and the ids that took drawn. */
  function Leasing(s: State, subscription: string, taken: seq<string>, acks: Uuids, deadline: int): State {
    s.(deliveries := LeaseAll(s.deliveries, subscription, taken, acks, deadline),
       minted := s.minted + Drawn(acks, |taken|))
  }

  /** The tables a claim chooses from. */
  function Refreshed(s: State, subscription: string, now: int): State {
    Swept(Cleaned(s, now), subscription, now)
  }

  function Claimed(s: State, subscription: string, maxCount: nat, maxBytes: int, deadline: int, now: int,
                   acks: Uuids): State
  {
    var ready := Refreshed(s, subscription, now);
    Leasing(ready, subscription, Taken(ready, subscription, maxCount, maxBytes), acks, deadline)
  }

  // ----- Acknowledge and deadline changes ----------------------------------

  /** The delivery is recorded under one of these ack ids. */
  predicate Holds(d: Delivery, subscription: string, ids: set<string>) {
    d.subscription == subscription && d.ackId.Some? && d.ackId.value in ids
  }

  function Acknowledged(s: State, subscription: string, ids: set<string>): State {
    Collected(s.(deliveries := map key | key in s.deliveries && !Holds(s.deliveries[key], subscription, ids) ::
                   s.deliveries[key]))
  }

  /** A zero-second deadline is a nack. */
  function Rescheduled(s: State, subscription: string, ids: set<string>, seconds: int, deadline: int): State {
    s.(deliveries := map key | key in s.deliveries ::
         if Holds(s.deliveries[key], subscription, ids)
         then if seconds == 0 then Released(s.deliveries[key]) else s.deliveries[key].(deadline := Some(deadline))
         else s.deliveries[key])
  }

  // ----- Lookups -----------------------------------------------------------

  function SubscriptionOf(s: State, name: string): Result<Subscription, Status> {
    if ParseResource(name, "subscriptions").None? then Failure(InvalidArgument)
    else if name in s.subscriptions then Success(s.subscriptions[name])
    else Failure(NotFound)
  }

  /** The delivery is leased under this id and its deadline is still to come. */
  predicate ActiveLease(d: Delivery, subscription: string, now: int, id: string) {
    d.subscription == subscription && d.state.InFlight? && d.deadline.Some? && d.deadline.value > now
    && d.ackId == Some(id)
  }

  function ActiveIds(s: State, subscription: string, requested: set<string>, now: int): (active: set<string>)
    ensures active <= requested
    ensures forall id :: id in active
                    <==> id in requested
                         && exists key :: key in s.deliveries && ActiveLease(s.deliveries[key], subscription, now, id)
  {
    set id |
      id in requested && exists key | key in s.deliveries :: ActiveLease(s.deliveries[key], subscription, now, id)
  }

  // ----- Resources ---------------------------------------------------------

  function TopicDropped(s: State, name: string): State {
    s.(topics := s.topics - {name},
       subscriptions := map n | n in s.subscriptions ::
         if s.subscriptions[n].topic == name then s.subscriptions[n].(topic := DELETED_TOPIC) else s.subscriptions[n])
  }

  function TopicAdded(s: State, topic: Topic): State {
    if topic.name in s.topics then s else s.(topics := s.topics[topic.name := topic])
  }

  function SubscriptionAdded(s: State, sub: Subscription): State {
    if sub.topic in s.topics && sub.name !in s.subscriptions
    then s.(subscriptions := s.subscriptions[sub.name := sub]) else s
  }

  function SubscriptionDropped(s: State, name: string): State {
    Collected(s.(subscriptions := s.subscriptions - {name},
                 deliveries := map key | key in s.deliveries && key.subscription != name :: s.deliveries[key]))
  }

  // ----- Steps -------------------------------------------------------------

  /** One critical section under the broker lock. Times are parameters, so
      clocks of concurrent requests need not agree, and the checks made before
      the lock was taken may be out of date. */
  datatype Step =
    | AddTopic(topic: Topic)
    | DropTopic(name: string)
    | AddSubscription(subscription: Subscription)
    | DropSubscription(name: string)
    | Publish(topicName: string, batch: seq<Stamped>, expiry: int, now: int)
    | Claim(from: string, maxCount: nat, maxBytes: int, deadline: int, now: int, acks: Uuids)
    | Acknowledge(from: string, ids: set<string>)
    | ModifyDeadline(from: string, ids: set<string>, seconds: int, deadline: int)

  function BatchIds(batch: seq<Stamped>): seq<string> {
    seq(|batch|, i requires 0 <= i < |batch| => batch[i].message.id)
  }

  ghost predicate FreshIds(s: State, ids: Uuids) {
    && (forall i: nat, j: nat :: ids(i) == ids(j) ==> i == j)
    && (forall i: nat :: ids(i) !in s.minted)
  }

  /** What the code before the lock has checked, and that generated ids are new. */
  ghost predicate Admissible(s: State, step: Step) {
    match step
    case AddTopic(topic) => ParseResource(topic.name, "topics").Some? && !topic.unsupported
    case AddSubscription(sub) =>
      ParseResource(sub.name, "subscriptions").Some? && 10 <= sub.ackDeadline <= 600 && !sub.unsupported
    case Publish(_, batch, _, _) =>
      && Distinct(BatchIds(batch))
      && (forall i :: 0 <= i < |batch| ==>
            batch[i].message.id !in s.minted && batch[i].size <= MAX_DELIVERY_MESSAGE_BYTES)
    case Claim(_, _, _, _, _, acks) => FreshIds(s, acks)
    case ModifyDeadline(_, _, seconds, _) => 0 <= seconds <= 600
    case _ => true
  }

  ghost function Apply(s: State, step: Step): State
    requires Admissible(s, step)
  {
    match step
    case AddTopic(topic) => TopicAdded(s, topic)
    case DropTopic(name) => if name in s.topics then TopicDropped(s, name) else s
    case AddSubscription(sub) => SubscriptionAdded(s, sub)
    case DropSubscription(name) => if name in s.subscriptions then SubscriptionDropped(s, name) else s
    case Publish(topic, batch, expiry, now) => Published(s, topic, batch, expiry, now)
    case Claim(from, maxCount, maxBytes, deadline, now, acks) =>
      Claimed(s, from, maxCount, maxBytes, deadline, now, acks)
    case Acknowledge(from, ids) => Acknowledged(s, from, ids)
    case ModifyDeadline(from, ids, seconds, deadline) => Rescheduled(s, from, ids, seconds, deadline)
  }

  // ----- The invariant -----------------------------------------------------

  predicate TablesAgree(s: State) {
    && s.messages.Keys == Live(s)
    && s.messageTopics.Keys == Live(s)
    && s.messageSizes.Keys == Live(s)
    && s.messageExpiry.Keys == Live(s)
    && (forall id :: id in s.messages ==> s.messages[id].id == id)
    && (forall id :: id in s.messageSizes ==> 0 <= s.messageSizes[id] <= MAX_DELIVERY_MESSAGE_BYTES)
  }

  predicate ResourcesLinked(s: State) {
    && (forall n :: n in s.topics ==> s.topics[n].name == n && n != DELETED_TOPIC)
    && (forall n :: n in s.subscriptions ==>
          && s.subscriptions[n].name == n
          && 10 <= s.subscriptions[n].ackDeadline <= 600
          && (s.subscriptions[n].topic in s.topics || s.subscriptions[n].topic == DELETED_TOPIC))
    && (forall key :: key in s.deliveries ==>
          s.deliveries[key].subscription == key.subscription && key.subscription in s.subscriptions)
  }

  /** In flight exactly when it has an ack id, exactly when it has a deadline. */
  predicate WellLeased(d: Delivery) {
    (d.state.InFlight? <==> d.ackId.Some?) && (d.ackId.Some? <==> d.deadline.Some?)
  }

  predicate LeasesExclusive(s: State) {
    && (forall key :: key in s.deliveries ==> WellLeased(s.deliveries[key]))
    && (forall j, k {:trigger s.deliveries[j].ackId, s.deliveries[k].ackId} ::
          (j in s.deliveries && k in s.deliveries && s.deliveries[j].ackId.Some?
           && s.deliveries[j].ackId == s.deliveries[k].ackId) ==> j == k)
  }

  predicate IdsMinted(s: State) {
    && (forall key :: key in s.deliveries ==> key.message in s.minted)
    && (forall key :: key in s.deliveries && s.deliveries[key].ackId.Some? ==>
          s.deliveries[key].ackId.value in s.minted)
  }

  ghost predicate Bounded(s: State) {
    |s.deliveries| <= MAX_PENDING_DELIVERIES && PendingBytes(s) <= MAX_PENDING_BYTES
  }

  ghost predicate Consistent(s: State) {
    TablesAgree(s) && ResourcesLinked(s) && LeasesExclusive(s) && IdsMinted(s) && Bounded(s)
  }
}
