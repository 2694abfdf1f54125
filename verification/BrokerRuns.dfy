/** Whole runs of the broker: conservation of deliveries, exclusivity of leases,
    isolation of subscriptions, and what a claim hands out. */
module BrokerRuns {
  import opened Order
  import opened Broker
  import opened BrokerSteps

  // ----- Runs --------------------------------------------------------------

  ghost predicate Playable(s: State, steps: seq<Step>)
    decreases |steps|
  {
    steps != [] ==> Admissible(s, steps[0]) && Playable(Apply(s, steps[0]), steps[1..])
  }

  ghost function After(s: State, steps: seq<Step>): State
    requires Playable(s, steps)
    decreases |steps|
  {
    if steps == [] then s else After(Apply(s, steps[0]), steps[1..])
  }

  lemma EmptyConsistent()
    ensures Consistent(EMPTY)
  {
    assert Live(EMPTY) == {};
    assert PendingBytes(EMPTY) == 0;
  }

  lemma {:induction false} RunKeepsInvariant(s: State, steps: seq<Step>)
    requires Consistent(s) && Playable(s, steps)
    ensures Consistent(After(s, steps))
    decreases |steps|
  {
    hide Consistent, Apply, Admissible;
    if steps != [] {
      StepKeepsInvariant(s, steps[0]);
      RunKeepsInvariant(Apply(s, steps[0]), steps[1..]);
    }
  }

  /** The broker invariant holds in every state reachable from the empty broker. */
  lemma ReachableConsistent(steps: seq<Step>)
    requires Playable(EMPTY, steps)
    ensures Consistent(After(EMPTY, steps))
  {
    EmptyConsistent();
    RunKeepsInvariant(EMPTY, steps);
  }

  // ----- Conservation ------------------------------------------------------

  /** The only three ways a pending delivery can end. */
  predicate Ends(s: State, step: Step, key: Key)
    requires key in s.deliveries
  {
    match step
    case Acknowledge(from, ids) =>
      key.subscription == from && s.deliveries[key].ackId.Some? && s.deliveries[key].ackId.value in ids
    case DropSubscription(name) => key.subscription == name
    case Publish(_, _, _, now) => key.message in s.messageExpiry && s.messageExpiry[key.message] <= now
    case Claim(_, _, _, _, now, _) => key.message in s.messageExpiry && s.messageExpiry[key.message] <= now
    case _ => false
  }

  /** The message, its topic, size and retention time are as they were. */
  predicate SameMessage(s: State, t: State, id: string) {
    && id in s.messages && id in t.messages && t.messages[id] == s.messages[id]
    && id in s.messageTopics && id in t.messageTopics && t.messageTopics[id] == s.messageTopics[id]
    && id in s.messageSizes && id in t.messageSizes && t.messageSizes[id] == s.messageSizes[id]
    && id in s.messageExpiry && id in t.messageExpiry && t.messageExpiry[id] == s.messageExpiry[id]
  }

  /** What becomes of one pending delivery in one step. */
  predicate Follows(s: State, t: State, ends: bool, key: Key) {
    && (key in t.deliveries <==> !ends)
    && (!ends ==> SameMessage(s, t, key.message))
  }

  lemma {:induction false} EnqueuedKeepsOld(s: State, topic: string, names: set<string>, batch: seq<Stamped>,
                                            expiry: int, key: Key)
    requires NewIds(s, batch) && key in s.deliveries && SameMessage(s, s, key.message)
    ensures key in Enqueued(s, topic, names, batch, expiry).deliveries
    ensures SameMessage(s, Enqueued(s, topic, names, batch, expiry), key.message)
    decreases |batch|
  {
    if batch != [] {
      var next := EnqueuedOne(s, topic, names, batch[0], expiry);
      NewIdsRest(s, topic, names, batch, expiry);
      EnqueuedOneKeys(s, topic, names, batch[0], expiry);
      assert SameMessage(s, next, key.message);
      hide EnqueuedOne, NewIds;
      EnqueuedKeepsOld(next, topic, names, batch[1..], expiry, key);
    }
  }

  lemma CleanedFollows(s: State, now: int, key: Key)
    requires TablesAgree(s) && key in s.deliveries
    ensures SameMessage(s, s, key.message)
    ensures Follows(s, Cleaned(s, now), s.messageExpiry[key.message] <= now, key)
  {
    assert key.message in Live(s);
  }

  lemma CollectedFollows(s: State, t: State, key: Key)
    requires TablesAgree(s) && key in s.deliveries
    requires t == s.(deliveries := t.deliveries, subscriptions := t.subscriptions)
    requires t.deliveries.Keys <= s.deliveries.Keys
    ensures Follows(s, Collected(t), key !in t.deliveries, key)
  {
    assert key.message in Live(s);
    assert key in t.deliveries ==> key.message in Live(t);
  }

  lemma PublishedFollows(s: State, topic: string, batch: seq<Stamped>, expiry: int, now: int, key: Key)
    requires TablesAgree(s) && IdsMinted(s) && key in s.deliveries
    requires Distinct(BatchIds(batch))
    requires forall i :: 0 <= i < |batch| ==>
               batch[i].message.id !in s.minted && batch[i].size <= MAX_DELIVERY_MESSAGE_BYTES
    ensures key.message in s.messageExpiry
    ensures Follows(s, Published(s, topic, batch, expiry, now), s.messageExpiry[key.message] <= now, key)
  {
    CleanedFollows(s, now, key);
    CleanedOld(s, now, batch);
    var clean := Awaiting(s, batch, now);
    var t := Published(s, topic, batch, expiry, now);
    if key in clean.deliveries {
      EnqueuedKeepsOld(clean, topic, Subscribers(clean, topic), batch, expiry, key);
    } else {
      hide Fits, Subscribers, BatchIds;
      ExpiredStaysOut(s, topic, Subscribers(clean, topic), batch, expiry, now, key);
    }
  }

  lemma ExpiredStaysOut(s: State, topic: string, names: set<string>, batch: seq<Stamped>, expiry: int, now: int,
                        key: Key)
    requires key in s.deliveries && key.message in s.minted
    requires forall i :: 0 <= i < |batch| ==> batch[i].message.id !in s.minted
    requires key !in Cleaned(s, now).deliveries
    ensures var clean := Awaiting(s, batch, now);
            key !in Enqueued(clean, topic, names, batch, expiry).deliveries
  {
    AddsOnlyBatch(Awaiting(s, batch, now), topic, names, batch, expiry, key);
  }

  /** A batch adds deliveries of its own messages only, to the subscribers only. */
  lemma {:induction false} AddsOnlyBatch(s: State, topic: string, names: set<string>, batch: seq<Stamped>,
                                         expiry: int, key: Key)
    ensures key in Enqueued(s, topic, names, batch, expiry).deliveries
        <==> key in s.deliveries || (key.subscription in names && key.message in Ids(batch))
    decreases |batch|
  {
    if batch != [] {
      var next := EnqueuedOne(s, topic, names, batch[0], expiry);
      assert key in next.deliveries
        <==> key in s.deliveries || (key.subscription in names && key.message == batch[0].message.id);
      AddsOnlyBatch(next, topic, names, batch[1..], expiry, key);
      hide EnqueuedOne;
      assert Ids(batch) == {batch[0].message.id} + Ids(batch[1..]) by {
        assert batch == [batch[0]] + batch[1..];
      }
    }
  }

  lemma ClaimedFollows(s: State, from: string, maxCount: nat, maxBytes: int, deadline: int, now: int, acks: Uuids,
                       key: Key)
    requires TablesAgree(s) && key in s.deliveries
    ensures key.message in s.messageExpiry
    ensures Follows(s, Claimed(s, from, maxCount, maxBytes, deadline, now, acks), s.messageExpiry[key.message] <= now,
                    key)
  {
    CleanedFollows(s, now, key);
    hide Taken, TablesAgree, LeaseAll, Cleaned;
    var ready := Refreshed(s, from, now);
    LeaseAllKeys(ready.deliveries, from, Taken(ready, from, maxCount, maxBytes), acks, deadline);
  }

  lemma AcknowledgedFollows(s: State, from: string, ids: set<string>, key: Key)
    requires TablesAgree(s) && key in s.deliveries
    ensures Follows(s, Acknowledged(s, from, ids), Holds(s.deliveries[key], from, ids), key)
  {
    CollectedFollows(s, s.(deliveries := map k | k in s.deliveries && !Holds(s.deliveries[k], from, ids) ::
                             s.deliveries[k]), key);
  }

  lemma DroppedFollows(s: State, name: string, key: Key)
    requires TablesAgree(s) && key in s.deliveries
    ensures Follows(s, SubscriptionDropped(s, name), key.subscription == name, key)
  {
    CollectedFollows(s, s.(subscriptions := s.subscriptions - {name},
                           deliveries := map k | k in s.deliveries && k.subscription != name :: s.deliveries[k]), key);
  }

  lemma LinkedDelivery(s: State, key: Key)
    requires ResourcesLinked(s) && key in s.deliveries
    ensures s.deliveries[key].subscription == key.subscription && key.subscription in s.subscriptions
  {
  }

  /** Exactly the three endings remove a pending delivery in one step, and a
      delivery that stays keeps its message, publish time and retention. */
  lemma RemovalExact(s: State, step: Step, key: Key)
    requires Consistent(s) && Admissible(s, step) && key in s.deliveries
    ensures Follows(s, Apply(s, step), Ends(s, step, key), key)
  {
    hide TablesAgree, ResourcesLinked, IdsMinted, LeasesExclusive, Bounded, ParseResource, FreshIds, Distinct;
    hide Published, Claimed, Acknowledged, SubscriptionDropped;
    CleanedFollows(s, 0, key);
    LinkedDelivery(s, key);
    match step
    case Publish(topic, batch, expiry, now) => PublishedFollows(s, topic, batch, expiry, now, key);
    case Claim(from, maxCount, maxBytes, deadline, now, acks) =>
      ClaimedFollows(s, from, maxCount, maxBytes, deadline, now, acks, key);
    case Acknowledge(from, ids) =>
      AcknowledgedFollows(s, from, ids, key);
    case DropSubscription(name) =>
      DroppedFollows(s, name, key);
    case _ =>
  }

  /** A pair that is not pending can only become pending when its message is
      published, which uses a new message id. */
  lemma AppearsOnlyFresh(s: State, step: Step, key: Key)
    requires Consistent(s) && Admissible(s, step) && key !in s.deliveries && key in Apply(s, step).deliveries
    ensures step.Publish? && key.message in Ids(step.batch) && key.message !in s.minted
  {
    hide TablesAgree, ResourcesLinked, LeasesExclusive, IdsMinted, Bounded, ParseResource, Taken, Fits, Subscribers;
    if step.Publish? {
      var clean := Awaiting(s, step.batch, step.now);
      AddsOnlyBatch(clean, step.topicName, Subscribers(clean, step.topicName), step.batch, step.expiry, key);
    }
  }

  lemma MintedOnlyGrows(s: State, step: Step)
    requires Admissible(s, step)
    ensures s.minted <= Apply(s, step).minted
  {
    hide ParseResource, Taken, Fits, Subscribers;
    if step.Publish? {
      var clean := Awaiting(s, step.batch, step.now);
      EnqueuedMinted(clean, step.topicName, Subscribers(clean, step.topicName), step.batch, step.expiry);
    }
  }

  lemma {:induction false} EnqueuedMinted(s: State, topic: string, names: set<string>, batch: seq<Stamped>, expiry: int)
    ensures Enqueued(s, topic, names, batch, expiry).minted == s.minted
    decreases |batch|
  {
    if batch != [] {
      EnqueuedMinted(EnqueuedOne(s, topic, names, batch[0], expiry), topic, names, batch[1..], expiry);
    }
  }

  /** Once a pair with a used message id is gone it never comes back. */
  lemma {:induction false} GoneForever(s: State, steps: seq<Step>, key: Key)
    requires Consistent(s) && Playable(s, steps) && key !in s.deliveries && key.message in s.minted
    ensures key !in After(s, steps).deliveries
    decreases |steps|
  {
    hide Consistent, Apply, Admissible;
    if steps != [] {
      if key in Apply(s, steps[0]).deliveries { AppearsOnlyFresh(s, steps[0], key); }
      StepKeepsInvariant(s, steps[0]);
      MintedOnlyGrows(s, steps[0]);
      GoneForever(Apply(s, steps[0]), steps[1..], key);
    }
  }

  /** The pair ended in step n of the run: it was pending up to there, one of
      the three endings happened, and it is not pending at the end of the run. */
  ghost predicate EndedAt(s: State, steps: seq<Step>, key: Key, n: nat)
    requires Playable(s, steps)
    decreases |steps|
  {
    && n < |steps|
    && key in s.deliveries
    && if n == 0 then Ends(s, steps[0], key) else EndedAt(Apply(s, steps[0]), steps[1..], key, n - 1)
  }

  ghost predicate EndedOnlyAt(s: State, steps: seq<Step>, key: Key, n: nat)
    requires Playable(s, steps)
  {
    EndedAt(s, steps, key, n) && forall m: nat :: EndedAt(s, steps, key, m) ==> m == n
  }

  /** Conservation over every run: a pending pair either is still pending with
      the same message, or it ended in exactly one step of the run for one of
      the three reasons. */
  lemma {:induction false} Conservation(s: State, steps: seq<Step>, key: Key)
    requires Consistent(s) && Playable(s, steps) && key in s.deliveries
    ensures key in After(s, steps).deliveries ==>
              SameMessage(s, After(s, steps), key.message) && forall n: nat :: !EndedAt(s, steps, key, n)
    ensures key !in After(s, steps).deliveries ==>
              exists n: nat :: EndedOnlyAt(s, steps, key, n)
    decreases |steps|
  {
    hide Consistent, Apply, Admissible;
    if steps == [] {
      KnownMessage(s, key);
    } else {
      var next := Apply(s, steps[0]);
      StepKeepsInvariant(s, steps[0]);
      RemovalExact(s, steps[0], key);
      if Ends(s, steps[0], key) {
        MessageMinted(s, key);
        MintedOnlyGrows(s, steps[0]);
        GoneForever(next, steps[1..], key);
        forall m: nat | EndedAt(s, steps, key, m) ensures m == 0 {
          if m > 0 { assert !EndedAt(next, steps[1..], key, m - 1); }
        }
        assert EndedOnlyAt(s, steps, key, 0);
      } else {
        Conservation(next, steps[1..], key);
        forall m: nat | EndedAt(s, steps, key, m) ensures m > 0 && EndedAt(next, steps[1..], key, m - 1) {}
        if key !in After(s, steps).deliveries {
          var n: nat :| EndedOnlyAt(next, steps[1..], key, n);
          assert EndedOnlyAt(s, steps, key, n + 1);
        }
      }
    }
  }

  lemma KnownMessage(s: State, key: Key)
    requires Consistent(s) && key in s.deliveries
    ensures SameMessage(s, s, key.message)
  {
    hide ResourcesLinked, LeasesExclusive, IdsMinted, Bounded;
    CleanedFollows(s, 0, key);
  }

  lemma MessageMinted(s: State, key: Key)
    requires Consistent(s) && key in s.deliveries
    ensures key.message in s.minted
  {
    hide TablesAgree, ResourcesLinked, LeasesExclusive, Bounded;
  }
}
