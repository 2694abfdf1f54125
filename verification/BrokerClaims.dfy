/** What a claim hands out, and who can still speak for a lease. */
module BrokerClaims {
  import opened Wrappers
  import opened Order
  import opened Broker
  import opened BrokerSteps
  import opened BrokerRuns

  // ----- Flow control ------------------------------------------------------

  function Weight(ids: seq<string>, size: string -> int): int {
    if ids == [] then 0 else Weight(ids[..|ids| - 1], size) + size(ids[|ids| - 1])
  }

  lemma WeightEmpty(size: string -> int)
    ensures Weight([], size) == 0
  {
  }

  /** Within the byte limit, or one message when no candidate fits the limit. */
  predicate WithinBytes(ids: seq<string>, size: string -> int, maxBytes: int, anyFits: bool) {
    Weight(ids, size) <= maxBytes || ids == [] || (|ids| == 1 && !anyFits)
  }

  /** Count and byte limits, progress and maximality of what a claim hands out of
      its candidates, in whatever order it looks at them. */
  predicate FlowControlled(candidates: seq<string>, size: string -> int, maxCount: nat, maxBytes: int,
                           taken: seq<string>) {
    && |taken| <= maxCount
    && WithinBytes(taken, size, maxBytes, AnyFits(candidates, size, maxBytes))
    && (candidates != [] && maxCount > 0 ==> taken != [])
    && (forall i :: 0 <= i < |candidates| && candidates[i] !in taken ==>
          |taken| == maxCount || Weight(taken, size) + size(candidates[i]) > maxBytes)
  }

  predicate InOrder(ids: seq<string>, before: (string, string) -> bool) {
    forall i, j :: 0 <= i < j < |ids| ==> before(ids[i], ids[j])
  }

  /** What is picked stays in the order of the candidates. */
  lemma {:induction false} PickInOrder(candidates: seq<string>, size: string -> int, maxCount: nat, maxBytes: int,
                                       anyFits: bool, taken: seq<string>, used: int, before: (string, string) -> bool)
    requires InOrder(taken + candidates, before)
    ensures InOrder(Pick(candidates, size, maxCount, maxBytes, anyFits, taken, used), before)
  {
    if candidates != [] && |taken| < maxCount {
      var id, rest := candidates[0], candidates[1..];
      if used + size(id) > maxBytes && (taken != [] || anyFits) {
        InOrderSkip(taken, candidates, before);
        PickInOrder(rest, size, maxCount, maxBytes, anyFits, taken, used, before);
      } else {
        assert taken + candidates == (taken + [id]) + rest;
        PickInOrder(rest, size, maxCount, maxBytes, anyFits, taken + [id], used + size(id), before);
      }
    } else {
      assert forall i :: 0 <= i < |taken| ==> taken[i] == (taken + candidates)[i];
    }
  }

  lemma {:induction false} PickFlow(candidates: seq<string>, size: string -> int, maxCount: nat, maxBytes: int,
                                    anyFits: bool, taken: seq<string>, used: int)
    requires forall id :: size(id) >= 0
    requires used == Weight(taken, size) && |taken| <= maxCount && WithinBytes(taken, size, maxBytes, anyFits)
    requires taken == [] && anyFits ==> AnyFits(candidates, size, maxBytes)
    requires !anyFits ==> forall i :: 0 <= i < |candidates| ==> size(candidates[i]) > maxBytes
    ensures var picked := Pick(candidates, size, maxCount, maxBytes, anyFits, taken, used);
            && |picked| <= maxCount
            && WithinBytes(picked, size, maxBytes, anyFits)
            && Weight(picked, size) >= used
            && (taken + candidates != [] && maxCount > 0 ==> picked != [])
            && (forall i :: 0 <= i < |candidates| && candidates[i] !in picked ==>
                  |picked| == maxCount || Weight(picked, size) + size(candidates[i]) > maxBytes)
  {
    hide WithinBytes, Weight, AnyFits;
    WeightEmpty(size);
    if candidates != [] && |taken| < maxCount {
      var id, rest := candidates[0], candidates[1..];
      assert forall i :: 1 <= i < |candidates| ==> candidates[i] == rest[i - 1];
      if used + size(id) > maxBytes && (taken != [] || anyFits) {
        if taken == [] && anyFits { SkipStillFits(candidates, size, maxBytes); }
        PickFlow(rest, size, maxCount, maxBytes, anyFits, taken, used);
      } else {
        TakeWithin(taken, id, size, maxBytes, anyFits, used);
        PickFlow(rest, size, maxCount, maxBytes, anyFits, taken + [id], used + size(id));
        var picked := Pick(rest, size, maxCount, maxBytes, anyFits, taken + [id], used + size(id));
        PickKeeps(rest, size, maxCount, maxBytes, anyFits, taken + [id], used + size(id));
        assert picked[|taken|] == id;
      }
    }
  }

  lemma SkipStillFits(candidates: seq<string>, size: string -> int, maxBytes: int)
    requires candidates != [] && AnyFits(candidates, size, maxBytes) && size(candidates[0]) > maxBytes
    ensures AnyFits(candidates[1..], size, maxBytes)
  {
    var i :| 0 <= i < |candidates| && size(candidates[i]) <= maxBytes;
    assert candidates[1..][i - 1] == candidates[i];
  }

  lemma TakeWithin(taken: seq<string>, id: string, size: string -> int, maxBytes: int, anyFits: bool, used: int)
    requires used == Weight(taken, size) && (used + size(id) <= maxBytes || (taken == [] && !anyFits))
    ensures Weight(taken + [id], size) == used + size(id)
    ensures WithinBytes(taken + [id], size, maxBytes, anyFits)
  {
    assert (taken + [id])[..|taken|] == taken;
  }

  lemma InOrderSkip(taken: seq<string>, candidates: seq<string>, before: (string, string) -> bool)
    requires InOrder(taken + candidates, before) && candidates != []
    ensures InOrder(taken + candidates[1..], before)
  {
    var whole, shorter := taken + candidates, taken + candidates[1..];
    forall i, j | 0 <= i < j < |shorter| ensures before(shorter[i], shorter[j]) {
      assert shorter[i] == whole[if i < |taken| then i else i + 1];
      assert shorter[j] == whole[if j < |taken| then j else j + 1];
    }
  }

  lemma {:induction false} PickKeeps(candidates: seq<string>, size: string -> int, maxCount: nat, maxBytes: int,
                                     anyFits: bool, taken: seq<string>, used: int)
    ensures taken <= Pick(candidates, size, maxCount, maxBytes, anyFits, taken, used)
  {
    if candidates != [] && |taken| < maxCount {
      var id := candidates[0];
      if used + size(id) > maxBytes && (taken != [] || anyFits) {
        PickKeeps(candidates[1..], size, maxCount, maxBytes, anyFits, taken, used);
      } else {
        PickKeeps(candidates[1..], size, maxCount, maxBytes, anyFits, taken + [id], used + size(id));
      }
    }
  }

  /** Something of this subscription can be handed out at this time. */
  predicate Offered(s: State, from: string, now: int, key: Key) {
    && key in s.deliveries && key.subscription == from
    && key.message in s.messageExpiry && s.messageExpiry[key.message] > now
    && (s.deliveries[key].state.Available? || Lapsed(s.deliveries[key], from, now))
  }

  lemma OfferedIsCandidate(s: State, from: string, now: int, key: Key)
    requires Offered(s, from, now, key)
    ensures key.message in Candidates(Refreshed(s, from, now), from)
  {
    var ready := Refreshed(s, from, now);
    assert key in ready.deliveries && ready.deliveries[key].state.Available?;
  }

  lemma RefreshedConsistent(s: State, from: string, now: int)
    requires Consistent(s)
    ensures Consistent(Refreshed(s, from, now))
  {
    hide Consistent, Cleaned, Swept;
    CleanedConsistent(s, now);
    SweptConsistent(Cleaned(s, now), from, now);
  }

  lemma SizesNonNegative(s: State)
    requires TablesAgree(s)
    ensures forall id :: SizeOf(s)(id) >= 0
  {
  }

  lemma PickAllFlow(candidates: seq<string>, size: string -> int, maxCount: nat, maxBytes: int)
    requires forall id :: size(id) >= 0
    ensures FlowControlled(candidates, size, maxCount, maxBytes,
                           Pick(candidates, size, maxCount, maxBytes, AnyFits(candidates, size, maxBytes), [], 0))
  {
    assert [] + candidates == candidates;
    PickFlow(candidates, size, maxCount, maxBytes, AnyFits(candidates, size, maxBytes), [], 0);
  }

  lemma TakenFlow(s: State, from: string, maxCount: nat, maxBytes: int)
    requires TablesAgree(s)
    ensures FlowControlled(Candidates(s, from), SizeOf(s), maxCount, maxBytes, Taken(s, from, maxCount, maxBytes))
    ensures Ascending(Taken(s, from, maxCount, maxBytes))
  {
    SizesNonNegative(s);
    hide TablesAgree, SizeOf, Pick, Weight, FlowControlled;
    var candidates := Candidates(s, from);
    PickAllFlow(candidates, SizeOf(s), maxCount, maxBytes);
    assert [] + candidates == candidates;
    PickInOrder(candidates, SizeOf(s), maxCount, maxBytes, AnyFits(candidates, SizeOf(s), maxBytes), [], 0, Before);
  }

  /** Flow control of a claim, and progress: it is never empty when a delivery
      of the subscription is available or its lease has lapsed. */
  lemma ClaimFlow(s: State, from: string, maxCount: nat, maxBytes: int, now: int)
    requires Consistent(s)
    ensures var ready := Refreshed(s, from, now);
            var taken := Taken(ready, from, maxCount, maxBytes);
            && FlowControlled(Candidates(ready, from), SizeOf(ready), maxCount, maxBytes, taken) && Ascending(taken)
            && (forall key :: Offered(s, from, now, key) && maxCount > 0 ==> taken != [])
  {
    RefreshedConsistent(s, from, now);
    var ready := Refreshed(s, from, now);
    hide Refreshed, TablesAgree, ResourcesLinked, LeasesExclusive, IdsMinted, Bounded, Taken, Offered;
    TakenFlow(ready, from, maxCount, maxBytes);
    hide SizeOf, WithinBytes, Ascending, Weight;
    forall key | Offered(s, from, now, key) && maxCount > 0 ensures Taken(ready, from, maxCount, maxBytes) != [] {
      OfferedIsCandidate(s, from, now, key);
    }
  }

  /** No claim meets a missing or an oversized message: the two internal errors
      of the claim loop cannot occur. */
  lemma ClaimErrorsUnreachable(s: State, from: string, now: int, id: string)
    requires Consistent(s) && id in Candidates(Refreshed(s, from, now), from)
    ensures var ready := Refreshed(s, from, now);
            id in ready.messages && id in ready.messageSizes && ready.messageSizes[id] <= MAX_DELIVERY_MESSAGE_BYTES
  {
    RefreshedConsistent(s, from, now);
    var ready := Refreshed(s, from, now);
    var key :| key in ready.deliveries && key.message == id;
    hide Refreshed, ResourcesLinked, LeasesExclusive, IdsMinted, Bounded;
    assert id in Live(ready);
  }

  // ----- Leases ------------------------------------------------------------

  /** The id was handed out and no delivery records it any more. */
  predicate Superseded(s: State, id: string) {
    id in s.minted && Unrecorded(s, id)
  }

  predicate Unrecorded(s: State, id: string) {
    forall key :: key in s.deliveries ==> s.deliveries[key].ackId != Some(id)
  }

  predicate OnlySuperseded(s: State, ids: set<string>) {
    forall id :: id in ids ==> Superseded(s, id)
  }

  /** Acks and deadline changes under superseded ids change nothing at all. */
  lemma SupersededPowerless(s: State, from: string, ids: set<string>, seconds: int, deadline: int)
    requires Consistent(s) && OnlySuperseded(s, ids)
    ensures Acknowledged(s, from, ids) == s
    ensures Rescheduled(s, from, ids, seconds, deadline) == s
  {
    hide ResourcesLinked, LeasesExclusive, IdsMinted, Bounded;
    forall key | key in s.deliveries ensures !Holds(s.deliveries[key], from, ids) {}
    var t := s.(deliveries := map key | key in s.deliveries && !Holds(s.deliveries[key], from, ids) ::
                  s.deliveries[key]);
    assert t.deliveries == s.deliveries;
    assert Rescheduled(s, from, ids, seconds, deadline).deliveries == s.deliveries;
    assert Collected(s) == s by {
      assert Keep(s.messages, Live(s)) == s.messages;
      assert Keep(s.messageTopics, Live(s)) == s.messageTopics;
      assert Keep(s.messageSizes, Live(s)) == s.messageSizes;
      assert Keep(s.messageExpiry, Live(s)) == s.messageExpiry;
    }
  }

  /** A nack supersedes the id it names. */
  lemma NackSupersedes(s: State, from: string, ids: set<string>, deadline: int, key: Key)
    requires Consistent(s) && key in s.deliveries && Holds(s.deliveries[key], from, ids)
    ensures Superseded(Rescheduled(s, from, ids, 0, deadline), s.deliveries[key].ackId.value)
  {
    hide TablesAgree, ResourcesLinked, Bounded;
    var id := s.deliveries[key].ackId.value;
    var t := Rescheduled(s, from, ids, 0, deadline);
    forall k | k in t.deliveries ensures t.deliveries[k].ackId != Some(id) {
      assert s.deliveries[k].ackId == s.deliveries[key].ackId ==> k == key;
    }
  }

  /** The sweep at the start of a claim supersedes every lapsed id. */
  lemma ExpirySupersedes(s: State, from: string, maxCount: nat, maxBytes: int, deadline: int, now: int, acks: Uuids,
                         key: Key)
    requires Consistent(s) && FreshIds(s, acks)
    requires key in s.deliveries && Lapsed(s.deliveries[key], from, now)
    ensures s.deliveries[key].ackId.Some?
    ensures Superseded(Claimed(s, from, maxCount, maxBytes, deadline, now, acks), s.deliveries[key].ackId.value)
  {
    hide TablesAgree, ResourcesLinked, Bounded, Taken;
    var id := s.deliveries[key].ackId.value;
    var ready := Refreshed(s, from, now);
    forall k | k in ready.deliveries ensures ready.deliveries[k].ackId != Some(id) {
      assert s.deliveries[k].ackId == s.deliveries[key].ackId ==> k == key;
    }
    LeasingNeverRevives(ready, from, Taken(ready, from, maxCount, maxBytes), acks, deadline, id);
  }

  lemma LeasingNeverRevives(s: State, from: string, taken: seq<string>, acks: Uuids, deadline: int, id: string)
    requires forall key :: key in s.deliveries ==> s.deliveries[key].ackId != Some(id)
    requires FreshIds(s, acks) && id in s.minted
    ensures var after := LeaseAll(s.deliveries, from, taken, acks, deadline);
            forall key :: key in after ==> after[key].ackId != Some(id)
  {
  }

  lemma {:induction false} EnqueuedLeasesNothing(s: State, topic: string, names: set<string>, batch: seq<Stamped>,
                                                 expiry: int, id: string)
    requires Unrecorded(s, id)
    ensures Unrecorded(Enqueued(s, topic, names, batch, expiry), id)
    decreases |batch|
  {
    if batch != [] {
      var next := EnqueuedOne(s, topic, names, batch[0], expiry);
      assert Unrecorded(next, id);
      hide EnqueuedOne, Unrecorded;
      EnqueuedLeasesNothing(next, topic, names, batch[1..], expiry, id);
    }
  }

  lemma StepKeepsSuperseded(s: State, step: Step, id: string)
    requires Admissible(s, step) && Superseded(s, id)
    ensures Superseded(Apply(s, step), id)
  {
    hide ParseResource, Taken, Fits, Subscribers;
    MintedOnlyGrows(s, step);
    match step
    case Publish(topic, batch, expiry, now) =>
      var clean := Awaiting(s, batch, now);
      assert Unrecorded(clean, id);
      EnqueuedLeasesNothing(clean, topic, Subscribers(clean, topic), batch, expiry, id);
    case Claim(from, maxCount, maxBytes, deadline, now, acks) =>
      var ready := Refreshed(s, from, now);
      LeasingNeverRevives(ready, from, Taken(ready, from, maxCount, maxBytes), acks, deadline, id);
    case _ =>
  }

  /** A superseded id has no power in any later state of any run. */
  lemma {:induction false} SupersededForever(s: State, steps: seq<Step>, id: string)
    requires Playable(s, steps) && Superseded(s, id)
    ensures Superseded(After(s, steps), id)
    decreases |steps|
  {
    hide Superseded, Apply, Admissible;
    if steps != [] {
      StepKeepsSuperseded(s, steps[0], id);
      SupersededForever(Apply(s, steps[0]), steps[1..], id);
    }
  }

  /** Acks, nacks and deadline changes on one subscription never touch a
      delivery of another, and a claim touches it only to expire it. */
  lemma SubscriptionsIsolated(s: State, step: Step, key: Key)
    requires Consistent(s) && Admissible(s, step) && key in s.deliveries
    requires step.Acknowledge? || step.ModifyDeadline? || step.Claim?
    requires key.subscription != step.from
    ensures !step.Claim? ==> key in Apply(s, step).deliveries
    ensures key in Apply(s, step).deliveries ==> Apply(s, step).deliveries[key] == s.deliveries[key]
  {
    hide TablesAgree, LeasesExclusive, IdsMinted, Bounded, Taken;
  }

  /** A deadline change takes effect exactly on the delivery that records the
      id, even when its deadline has already passed: a lease that lapsed but was
      not swept yet is revived. */
  lemma DeadlineChangeExact(s: State, from: string, ids: set<string>, seconds: int, deadline: int, key: Key)
    requires Consistent(s) && key in s.deliveries && 0 < seconds <= 600
    ensures var t := Rescheduled(s, from, ids, seconds, deadline);
            && t.deliveries.Keys == s.deliveries.Keys
            && (Holds(s.deliveries[key], from, ids) ==>
                  t.deliveries[key] == s.deliveries[key].(deadline := Some(deadline))
                  && forall now :: now < deadline ==> Swept(t, from, now).deliveries[key] == t.deliveries[key])
            && (!Holds(s.deliveries[key], from, ids) ==> t.deliveries[key] == s.deliveries[key])
  {
    hide TablesAgree, LeasesExclusive, IdsMinted, Bounded;
  }
}
