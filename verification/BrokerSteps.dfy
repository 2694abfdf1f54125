/** Every broker step keeps the invariant. */
module BrokerSteps {
  import opened Order
  import opened Sums
  import opened Broker

  // ----- Shrinking the delivery table --------------------------------------

  lemma FewerPending(s: State, t: State)
    requires t.deliveries.Keys <= s.deliveries.Keys
    requires forall key :: key in t.deliveries ==> Size(t, key) == Size(s, key)
    requires forall key :: key in s.deliveries ==> Size(s, key) >= 0
    requires Bounded(s)
    ensures Bounded(t)
  {
    TotalAgrees(t.deliveries.Keys, key => Size(t, key), key => Size(s, key));
    TotalSubset(t.deliveries.Keys, s.deliveries.Keys, key => Size(s, key));
    assert |t.deliveries.Keys| <= |s.deliveries.Keys| by { SubsetSize(t.deliveries.Keys, s.deliveries.Keys); }
    assert |t.deliveries.Keys| == |t.deliveries| && |s.deliveries.Keys| == |s.deliveries|;
  }

  /** The delivery table lost rows or leases but gained neither. */
  predicate Narrowed(s: State, t: State) {
    && s.minted <= t.minted
    && t.deliveries.Keys <= s.deliveries.Keys
    && (forall key :: key in t.deliveries ==>
          && WellLeased(t.deliveries[key])
          && t.deliveries[key].subscription == s.deliveries[key].subscription
          && (t.deliveries[key].ackId == s.deliveries[key].ackId || t.deliveries[key].ackId.None?)
          && Size(t, key) == Size(s, key))
  }

  lemma NarrowedExclusive(s: State, t: State)
    requires LeasesExclusive(s) && IdsMinted(s) && Narrowed(s, t)
    ensures LeasesExclusive(t) && IdsMinted(t)
  {
  }

  lemma NarrowedBounded(s: State, t: State)
    requires TablesAgree(s) && Bounded(s) && Narrowed(s, t)
    ensures Bounded(t)
  {
    FewerPending(s, t);
  }

  lemma NarrowedConsistent(s: State, t: State)
    requires Consistent(s) && Narrowed(s, t)
    requires TablesAgree(t) && ResourcesLinked(t)
    ensures Consistent(t)
  {
    hide TablesAgree, ResourcesLinked, LeasesExclusive, IdsMinted, Bounded, Narrowed;
    NarrowedExclusive(s, t);
    NarrowedBounded(s, t);
  }

  lemma SameTables(s: State, t: State)
    requires TablesAgree(s)
    requires t == s.(topics := t.topics, subscriptions := t.subscriptions, deliveries := t.deliveries,
                     minted := t.minted)
    requires t.deliveries.Keys == s.deliveries.Keys
    ensures TablesAgree(t)
  {
    assert Live(t) == Live(s);
  }

  lemma SameLinks(s: State, t: State)
    requires ResourcesLinked(s) && Narrowed(s, t)
    requires t.topics == s.topics && t.subscriptions == s.subscriptions
    ensures ResourcesLinked(t)
  {
  }

  // ----- Steps that only narrow the delivery table --------------------------

  lemma CleanedTables(s: State, now: int)
    requires TablesAgree(s)
    ensures TablesAgree(Cleaned(s, now))
  {
    assert Live(Cleaned(s, now)) == Live(s) - Expired(s, now);
  }

  lemma CleanedNarrowed(s: State, now: int)
    requires LeasesExclusive(s)
    ensures Narrowed(s, Cleaned(s, now))
  {
  }

  lemma CleanedConsistent(s: State, now: int)
    requires Consistent(s)
    ensures Consistent(Cleaned(s, now))
  {
    hide TablesAgree, ResourcesLinked, LeasesExclusive, IdsMinted, Bounded, Narrowed;
    CleanedTables(s, now);
    CleanedNarrowed(s, now);
    SameLinks(s, Cleaned(s, now));
    NarrowedConsistent(s, Cleaned(s, now));
  }

  lemma CollectedTables(s: State, t: State)
    requires TablesAgree(s)
    requires t == s.(deliveries := t.deliveries, subscriptions := t.subscriptions)
    requires t.deliveries.Keys <= s.deliveries.Keys
    ensures TablesAgree(Collected(t))
  {
    assert Live(t) <= Live(s);
    assert Live(Collected(t)) == Live(t);
  }

  /** Collecting messages keeps the size of every message that is still needed. */
  lemma CollectedSizes(t: State)
    ensures forall key :: key in t.deliveries ==> Size(Collected(t), key) == Size(t, key)
  {
    forall key | key in t.deliveries ensures Size(Collected(t), key) == Size(t, key) {
      assert key.message in Live(t);
    }
  }

  lemma RemovedNarrowed(s: State, t: State)
    requires LeasesExclusive(s)
    requires t.messageSizes == s.messageSizes && t.minted == s.minted
    requires forall key :: key in t.deliveries ==> key in s.deliveries && t.deliveries[key] == s.deliveries[key]
    ensures Narrowed(s, Collected(t))
  {
    hide Live;
    CollectedSizes(t);
    forall key | key in t.deliveries ensures Size(t, key) == Size(s, key) {}
  }

  lemma AcknowledgedConsistent(s: State, from: string, ids: set<string>)
    requires Consistent(s)
    ensures Consistent(Acknowledged(s, from, ids))
  {
    hide TablesAgree, ResourcesLinked, LeasesExclusive, IdsMinted, Bounded, Narrowed;
    var t := s.(deliveries := map key | key in s.deliveries && !Holds(s.deliveries[key], from, ids) ::
                  s.deliveries[key]);
    CollectedTables(s, t);
    RemovedNarrowed(s, t);
    SameLinks(s, Acknowledged(s, from, ids));
    NarrowedConsistent(s, Acknowledged(s, from, ids));
  }

  lemma SubscriptionDroppedLinked(s: State, name: string)
    requires ResourcesLinked(s)
    ensures ResourcesLinked(SubscriptionDropped(s, name))
  {
    hide Live;
  }

  lemma SubscriptionDroppedConsistent(s: State, name: string)
    requires Consistent(s)
    ensures Consistent(SubscriptionDropped(s, name))
  {
    hide TablesAgree, ResourcesLinked, LeasesExclusive, IdsMinted, Bounded, Narrowed;
    var t := s.(subscriptions := s.subscriptions - {name},
                deliveries := map key | key in s.deliveries && key.subscription != name :: s.deliveries[key]);
    CollectedTables(s, t);
    RemovedNarrowed(s, t);
    SubscriptionDroppedLinked(s, name);
    NarrowedConsistent(s, SubscriptionDropped(s, name));
  }

  lemma SweptNarrowed(s: State, from: string, now: int)
    requires LeasesExclusive(s)
    ensures Narrowed(s, Swept(s, from, now))
  {
    hide Size;
    SameSizes(s, Swept(s, from, now));
  }

  lemma RescheduledNarrowed(s: State, from: string, ids: set<string>, seconds: int, deadline: int)
    requires LeasesExclusive(s)
    ensures Narrowed(s, Rescheduled(s, from, ids, seconds, deadline))
  {
    hide Size;
    SameSizes(s, Rescheduled(s, from, ids, seconds, deadline));
  }

  lemma SameSizes(s: State, t: State)
    requires s.messageSizes == t.messageSizes
    ensures forall key :: Size(t, key) == Size(s, key)
  {
  }

  lemma SweptConsistent(s: State, from: string, now: int)
    requires Consistent(s)
    ensures Consistent(Swept(s, from, now))
  {
    hide TablesAgree, ResourcesLinked, LeasesExclusive, IdsMinted, Bounded, Narrowed;
    SweptNarrowed(s, from, now);
    SameTables(s, Swept(s, from, now));
    SameLinks(s, Swept(s, from, now));
    NarrowedConsistent(s, Swept(s, from, now));
  }

  lemma RescheduledConsistent(s: State, from: string, ids: set<string>, seconds: int, deadline: int)
    requires Consistent(s)
    ensures Consistent(Rescheduled(s, from, ids, seconds, deadline))
  {
    hide TablesAgree, ResourcesLinked, LeasesExclusive, IdsMinted, Bounded, Narrowed;
    var t := Rescheduled(s, from, ids, seconds, deadline);
    RescheduledNarrowed(s, from, ids, seconds, deadline);
    SameTables(s, t);
    SameLinks(s, t);
    NarrowedConsistent(s, t);
  }

  /** Drawing identifiers and changing topics or subscriptions leaves deliveries alone. */
  lemma SameDeliveriesConsistent(s: State, t: State)
    requires Consistent(s) && ResourcesLinked(t)
    requires t == s.(topics := t.topics, subscriptions := t.subscriptions, minted := t.minted)
    requires s.minted <= t.minted
    ensures Consistent(t)
  {
    hide TablesAgree, ResourcesLinked, IdsMinted, Bounded;
    SameTables(s, t);
    NarrowedConsistent(s, t);
  }

  // ----- Claim -------------------------------------------------------------

  lemma {:induction false} PickExtends(candidates: seq<string>, size: string -> int, maxCount: nat, maxBytes: int,
                                       anyFits: bool, taken: seq<string>, used: int)
    requires Distinct(taken + candidates)
    ensures var picked := Pick(candidates, size, maxCount, maxBytes, anyFits, taken, used);
            && taken <= picked
            && Distinct(picked)
            && (forall i :: |taken| <= i < |picked| ==> picked[i] in candidates)
  {
    if candidates != [] && |taken| < maxCount {
      var id := candidates[0];
      assert taken + candidates == (taken + [id]) + candidates[1..];
      if used + size(id) > maxBytes && (taken != [] || anyFits) {
        assert Distinct(taken + candidates[1..]) by {
          forall i, j | 0 <= i < j < |taken + candidates[1..]|
            ensures (taken + candidates[1..])[i] != (taken + candidates[1..])[j]
          {
            assert (taken + candidates[1..])[i] == (taken + candidates)[if i < |taken| then i else i + 1];
            assert (taken + candidates[1..])[j] == (taken + candidates)[if j < |taken| then j else j + 1];
          }
        }
        PickExtends(candidates[1..], size, maxCount, maxBytes, anyFits, taken, used);
      } else {
        PickExtends(candidates[1..], size, maxCount, maxBytes, anyFits, taken + [id], used + size(id));
      }
    } else {
      assert forall i, j :: 0 <= i < j < |taken| ==>
        taken[i] == (taken + candidates)[i] && taken[j] == (taken + candidates)[j];
    }
  }

  lemma CandidatesDistinct(s: State, from: string)
    ensures Distinct(Candidates(s, from))
  {
    var candidates := Candidates(s, from);
    forall i, j | 0 <= i < j < |candidates| ensures candidates[i] != candidates[j] {
      CompareStringEqual(candidates[i], candidates[j]);
    }
  }

  /** The taken ids are distinct available deliveries of the subscription. */
  lemma TakenAvailable(s: State, from: string, maxCount: nat, maxBytes: int)
    ensures var taken := Taken(s, from, maxCount, maxBytes);
            && Distinct(taken)
            && (forall i :: 0 <= i < |taken| ==>
                  && taken[i] in Candidates(s, from)
                  && Key(from, taken[i]) in s.deliveries && s.deliveries[Key(from, taken[i])].state.Available?)
  {
    var candidates := Candidates(s, from);
    CandidatesDistinct(s, from);
    assert [] + candidates == candidates;
    PickExtends(candidates, SizeOf(s), maxCount, maxBytes, AnyFits(candidates, SizeOf(s), maxBytes), [], 0);
  }

  lemma LeaseAllExclusive(s: State, from: string, taken: seq<string>, acks: Uuids, deadline: int)
    requires LeasesExclusive(s) && IdsMinted(s)
    requires FreshIds(s, acks)
    ensures LeasesExclusive(s.(deliveries := LeaseAll(s.deliveries, from, taken, acks, deadline)))
  {
    var after := LeaseAll(s.deliveries, from, taken, acks, deadline);
    forall j, k | j in after && k in after && after[j].ackId.Some? && after[j].ackId == after[k].ackId
      ensures j == k
    {
      if j.subscription == from && j.message in taken {
        assert after[j].ackId.value == acks(Position(taken, j.message));
      }
      if k.subscription == from && k.message in taken {
        assert after[k].ackId.value == acks(Position(taken, k.message));
      }
    }
  }

  lemma LeaseAllKeeps(s: State, from: string, taken: seq<string>, acks: Uuids, deadline: int)
    requires IdsMinted(s) && ResourcesLinked(s)
    ensures var t := s.(deliveries := LeaseAll(s.deliveries, from, taken, acks, deadline),
                        minted := s.minted + Drawn(acks, |taken|));
            IdsMinted(t) && ResourcesLinked(t)
  {
    var after := LeaseAll(s.deliveries, from, taken, acks, deadline);
    forall key | key in after && after[key].ackId.Some?
      ensures after[key].ackId.value in s.minted + Drawn(acks, |taken|)
    {
      if key.subscription == from && key.message in taken {
        assert after[key].ackId.value == acks(Position(taken, key.message));
      }
    }
  }

  /** Leasing any messages of a subscription under fresh ids keeps the invariant. */
  lemma LeasingConsistent(s: State, from: string, taken: seq<string>, acks: Uuids, deadline: int)
    requires Consistent(s) && FreshIds(s, acks)
    ensures Consistent(Leasing(s, from, taken, acks, deadline))
  {
    hide TablesAgree, ResourcesLinked, LeasesExclusive, IdsMinted, LeaseAll;
    LeaseAllExclusive(s, from, taken, acks, deadline);
    LeaseAllKeeps(s, from, taken, acks, deadline);
    var t := Leasing(s, from, taken, acks, deadline);
    LeaseAllKeys(s.deliveries, from, taken, acks, deadline);
    SameTables(s, t);
    SameExclusive(s.(deliveries := t.deliveries), t);
    FewerPending(s, t);
  }

  lemma ClaimedConsistent(s: State, from: string, maxCount: nat, maxBytes: int, deadline: int, now: int, acks: Uuids)
    requires Consistent(s) && FreshIds(s, acks)
    ensures Consistent(Claimed(s, from, maxCount, maxBytes, deadline, now, acks))
  {
    hide Consistent, Cleaned, Swept, Leasing, Taken;
    CleanedConsistent(s, now);
    SweptConsistent(Cleaned(s, now), from, now);
    RefreshedMinted(s, from, now);
    var ready := Refreshed(s, from, now);
    LeasingConsistent(ready, from, Taken(ready, from, maxCount, maxBytes), acks, deadline);
  }

  lemma RefreshedMinted(s: State, from: string, now: int)
    ensures Refreshed(s, from, now).minted == s.minted
  {
  }

  lemma LeaseAllKeys(deliveries: map<Key, Delivery>, from: string, taken: seq<string>, acks: Uuids, deadline: int)
    ensures LeaseAll(deliveries, from, taken, acks, deadline).Keys == deliveries.Keys
  {
  }

  lemma SameExclusive(s: State, t: State)
    requires LeasesExclusive(s) && s.deliveries == t.deliveries
    ensures LeasesExclusive(t)
  {
  }

  // ----- Publish -----------------------------------------------------------

  lemma RowMore(names: set<string>, name: string, id: string)
    requires name in names
    ensures Row({}, id) == {}
    ensures Row(names, id) == Row(names - {name}, id) + {Key(name, id)} && Key(name, id) !in Row(names - {name}, id)
    ensures Row(names, id) - {Key(name, id)} == Row(names - {name}, id)
  {
  }

  lemma {:induction false} RowTotal(names: set<string>, id: string, weight: Key -> int, size: int)
    requires forall name :: name in names ==> weight(Key(name, id)) == size
    ensures |Row(names, id)| == |names|
    ensures Total(Row(names, id), weight) == size * |names|
  {
    if names == {} {
      assert Row(names, id) == {};
    } else {
      var name :| name in names;
      RowTotal(names - {name}, id, weight, size);
      RowMore(names, name, id);
      RowStep(Row(names, id), Row(names - {name}, id), Key(name, id), weight, names, name, size);
    }
  }

  lemma RowStep(row: set<Key>, rest: set<Key>, key: Key, weight: Key -> int, names: set<string>, name: string,
                size: int)
    requires row == rest + {key} && key !in rest && row - {key} == rest && name in names && weight(key) == size
    requires |rest| == |names - {name}| && Total(rest, weight) == size * |names - {name}|
    ensures |row| == |names| && Total(row, weight) == size * |names|
  {
    hide Total;
    TotalRemove(row, weight, key);
    assert |names| == |names - {name}| + 1;
    TimesNext(size, |names - {name}|);
  }

  lemma UsageSplit(batch: seq<Stamped>, n: nat)
    requires batch != []
    ensures |batch| * n == n + |batch[1..]| * n && |batch[1..]| * n >= 0
    ensures BatchBytes(batch) * n == batch[0].size * n + BatchBytes(batch[1..]) * n && BatchBytes(batch[1..]) * n >= 0
  {
    Distributes(1, |batch[1..]|, n);
    Distributes(batch[0].size, BatchBytes(batch[1..]), n);
  }

  lemma TimesNext(a: int, n: nat)
    ensures a * (n + 1) == a * n + a
  {
  }

  lemma Distributes(a: int, b: int, n: nat)
    ensures (a + b) * n == a * n + b * n
    ensures b >= 0 ==> b * n >= 0
  {
  }

  lemma EnqueuedOneKeys(s: State, topic: string, names: set<string>, m: Stamped, expiry: int)
    requires forall key :: key in s.deliveries ==> key.message != m.message.id
    ensures var t := EnqueuedOne(s, topic, names, m, expiry);
            && t.deliveries.Keys == s.deliveries.Keys + Row(names, m.message.id)
            && s.deliveries.Keys !! Row(names, m.message.id)
            && (forall key :: key in s.deliveries ==> t.deliveries[key] == s.deliveries[key])
            && (forall key :: key in Row(names, m.message.id) ==> t.deliveries[key] == UNCLAIMED(key.subscription))
  {
  }

  lemma EnqueuedOneSizes(s: State, topic: string, names: set<string>, m: Stamped, expiry: int)
    requires forall key :: key in s.deliveries ==> key.message != m.message.id
    ensures var t := EnqueuedOne(s, topic, names, m, expiry);
            && (forall key :: key in s.deliveries ==> Size(t, key) == Size(s, key))
            && (forall name :: Size(t, Key(name, m.message.id)) == m.size)
  {
  }

  /** One message adds a delivery and its size for each subscriber. */
  lemma EnqueuedOneUsage(s: State, topic: string, names: set<string>, m: Stamped, expiry: int)
    requires forall key :: key in s.deliveries ==> key.message != m.message.id
    ensures var t := EnqueuedOne(s, topic, names, m, expiry);
            && |t.deliveries| == |s.deliveries| + |names|
            && PendingBytes(t) == PendingBytes(s) + m.size * |names|
  {
    var t := EnqueuedOne(s, topic, names, m, expiry);
    var row := Row(names, m.message.id);
    EnqueuedOneKeys(s, topic, names, m, expiry);
    EnqueuedOneSizes(s, topic, names, m, expiry);
    hide EnqueuedOne, Row, Fanout, Size, Total;
    RowTotal(names, m.message.id, key => Size(t, key), m.size);
    assert |t.deliveries.Keys| == |t.deliveries| && |s.deliveries.Keys| == |s.deliveries|;
    TotalUnion(s.deliveries.Keys, row, key => Size(t, key));
    TotalAgrees(s.deliveries.Keys, key => Size(t, key), key => Size(s, key));
  }

  lemma EnqueuedOneColumns(s: State, topic: string, names: set<string>, m: Stamped, expiry: int)
    ensures var t, id := EnqueuedOne(s, topic, names, m, expiry), m.message.id;
            && t.messages.Keys == s.messages.Keys + {id} && t.messageTopics.Keys == s.messageTopics.Keys + {id}
            && t.messageSizes.Keys == s.messageSizes.Keys + {id} && t.messageExpiry.Keys == s.messageExpiry.Keys + {id}
            && t.messages == s.messages[id := m.message] && t.messageSizes == s.messageSizes[id := m.size]
  {
    hide Fanout;
  }

  lemma EnqueuedOneTables(s: State, topic: string, names: set<string>, m: Stamped, expiry: int)
    requires TablesAgree(s) && names != {} && m.size <= MAX_DELIVERY_MESSAGE_BYTES
    requires forall key :: key in s.deliveries ==> key.message != m.message.id
    ensures TablesAgree(EnqueuedOne(s, topic, names, m, expiry))
  {
    var t := EnqueuedOne(s, topic, names, m, expiry);
    assert Live(t) == Live(s) + {m.message.id} by {
      EnqueuedOneKeys(s, topic, names, m, expiry);
      EnqueuedOneLive(s, t, names, m.message.id);
    }
    EnqueuedOneColumns(s, topic, names, m, expiry);
    hide Live, Fanout, EnqueuedOne, Row;
    TablesGrow(s, t, m);
  }

  lemma TablesGrow(s: State, t: State, m: Stamped)
    requires TablesAgree(s) && m.size <= MAX_DELIVERY_MESSAGE_BYTES
    requires Live(t) == Live(s) + {m.message.id}
    requires t.messageTopics.Keys == s.messageTopics.Keys + {m.message.id}
    requires t.messageExpiry.Keys == s.messageExpiry.Keys + {m.message.id}
    requires t.messages == s.messages[m.message.id := m.message]
    requires t.messageSizes == s.messageSizes[m.message.id := m.size]
    ensures TablesAgree(t)
  {
    hide Live;
    var id := m.message.id;
    assert t.messages.Keys == s.messages.Keys + {id} == Live(t);
    assert t.messageSizes.Keys == s.messageSizes.Keys + {id} == Live(t);
    forall x | x in t.messages ensures t.messages[x].id == x { assert x == id || x in s.messages; }
    forall x | x in t.messageSizes ensures 0 <= t.messageSizes[x] <= MAX_DELIVERY_MESSAGE_BYTES {
      assert x == id || x in s.messageSizes;
    }
  }

  lemma EnqueuedOneLive(s: State, t: State, names: set<string>, id: string)
    requires names != {} && t.deliveries.Keys == s.deliveries.Keys + Row(names, id)
    ensures Live(t) == Live(s) + {id}
  {
    var name :| name in names;
    assert Key(name, id) in t.deliveries;
    forall x | x in Live(s) ensures x in Live(t) {
      var key :| key in s.deliveries && key.message == x;
      assert key in t.deliveries;
    }
  }

  lemma EnqueuedOneLinked(s: State, topic: string, names: set<string>, m: Stamped, expiry: int)
    requires ResourcesLinked(s) && names <= s.subscriptions.Keys
    requires forall key :: key in s.deliveries ==> key.message != m.message.id
    ensures ResourcesLinked(EnqueuedOne(s, topic, names, m, expiry))
  {
    EnqueuedOneKeys(s, topic, names, m, expiry);
    hide Fanout;
  }

  lemma EnqueuedOneLeases(s: State, topic: string, names: set<string>, m: Stamped, expiry: int)
    requires LeasesExclusive(s) && IdsMinted(s) && m.message.id in s.minted
    requires forall key :: key in s.deliveries ==> key.message != m.message.id
    ensures LeasesExclusive(EnqueuedOne(s, topic, names, m, expiry))
    ensures IdsMinted(EnqueuedOne(s, topic, names, m, expiry))
  {
    EnqueuedOneKeys(s, topic, names, m, expiry);
    var t := EnqueuedOne(s, topic, names, m, expiry);
    forall key | key in t.deliveries && key !in s.deliveries
      ensures t.deliveries[key].ackId.None? && WellLeased(t.deliveries[key]) && key.message in t.minted {}
    hide Fanout, Row;
  }

  lemma EnqueuedOneConsistent(s: State, topic: string, names: set<string>, m: Stamped, expiry: int)
    requires Consistent(s) && names != {} && names <= s.subscriptions.Keys
    requires m.message.id in s.minted && m.size <= MAX_DELIVERY_MESSAGE_BYTES
    requires forall key :: key in s.deliveries ==> key.message != m.message.id
    requires |s.deliveries| + |names| <= MAX_PENDING_DELIVERIES
    requires PendingBytes(s) + m.size * |names| <= MAX_PENDING_BYTES
    ensures Consistent(EnqueuedOne(s, topic, names, m, expiry))
  {
    hide TablesAgree, ResourcesLinked, LeasesExclusive, IdsMinted, EnqueuedOne, PendingBytes;
    EnqueuedOneUsage(s, topic, names, m, expiry);
    EnqueuedOneTables(s, topic, names, m, expiry);
    EnqueuedOneLinked(s, topic, names, m, expiry);
    EnqueuedOneLeases(s, topic, names, m, expiry);
  }

  /** The ids of a batch are new to the delivery table and drawn from the generator. */
  predicate NewIds(s: State, batch: seq<Stamped>) {
    && Distinct(BatchIds(batch))
    && (forall i :: 0 <= i < |batch| ==>
          && batch[i].message.id in s.minted
          && batch[i].size <= MAX_DELIVERY_MESSAGE_BYTES
          && (forall key :: key in s.deliveries ==> key.message != batch[i].message.id))
  }

  lemma NewIdsRest(s: State, topic: string, names: set<string>, batch: seq<Stamped>, expiry: int)
    requires NewIds(s, batch) && batch != []
    ensures NewIds(EnqueuedOne(s, topic, names, batch[0], expiry), batch[1..])
    ensures batch[0].message.id in s.minted && batch[0].size <= MAX_DELIVERY_MESSAGE_BYTES
    ensures forall key :: key in s.deliveries ==> key.message != batch[0].message.id
  {
    var tail := batch[1..];
    EnqueuedOneKeys(s, topic, names, batch[0], expiry);
    hide Fanout;
    assert forall j :: 0 <= j < |tail| ==> BatchIds(tail)[j] == BatchIds(batch)[j + 1] && tail[j] == batch[j + 1];
    forall j | 0 <= j < |tail| ensures tail[j].message.id != batch[0].message.id {
      assert BatchIds(batch)[0] != BatchIds(batch)[j + 1];
    }
  }

  lemma SameSubscriptions(s: State, topic: string, names: set<string>, m: Stamped, expiry: int)
    ensures EnqueuedOne(s, topic, names, m, expiry).subscriptions == s.subscriptions
  {
  }

  /** A whole batch adds one delivery per message and subscriber, with its bytes. */
  lemma {:induction false} EnqueuedConsistent(s: State, topic: string, names: set<string>, batch: seq<Stamped>,
                                              expiry: int)
    requires Consistent(s) && names != {} && names <= s.subscriptions.Keys && NewIds(s, batch)
    requires Fits(s, names, batch)
    ensures var t := Enqueued(s, topic, names, batch, expiry);
            && Consistent(t)
            && |t.deliveries| == |s.deliveries| + |batch| * |names|
            && PendingBytes(t) == PendingBytes(s) + BatchBytes(batch) * |names|
    decreases |batch|
  {
    hide Consistent, NewIds, EnqueuedOne, PendingBytes;
    if batch != [] {
      var head, tail := batch[0], batch[1..];
      var next := EnqueuedOne(s, topic, names, head, expiry);
      SameSubscriptions(s, topic, names, head, expiry);
      UsageSplit(batch, |names|);
      NewIdsRest(s, topic, names, batch, expiry);
      EnqueuedOneUsage(s, topic, names, head, expiry);
      EnqueuedOneConsistent(s, topic, names, head, expiry);
      EnqueuedConsistent(next, topic, names, tail, expiry);
    }
  }

  lemma SameResources(s: State, t: State)
    requires ResourcesLinked(s)
    requires s.topics == t.topics && s.subscriptions == t.subscriptions && s.deliveries == t.deliveries
    ensures ResourcesLinked(t)
  {
  }

  lemma CleanedOld(s: State, now: int, batch: seq<Stamped>)
    requires IdsMinted(s) && Distinct(BatchIds(batch))
    requires forall i :: 0 <= i < |batch| ==>
               batch[i].message.id !in s.minted && batch[i].size <= MAX_DELIVERY_MESSAGE_BYTES
    ensures NewIds(Awaiting(s, batch, now), batch)
  {
  }

  lemma SubscribersKnown(s: State, topic: string)
    requires ResourcesLinked(s)
    ensures Subscribers(s, topic) <= s.subscriptions.Keys
  {
  }

  lemma PublishedConsistent(s: State, topic: string, batch: seq<Stamped>, expiry: int, now: int)
    requires Consistent(s)
    requires Distinct(BatchIds(batch))
    requires forall i :: 0 <= i < |batch| ==>
               batch[i].message.id !in s.minted && batch[i].size <= MAX_DELIVERY_MESSAGE_BYTES
    ensures Consistent(Published(s, topic, batch, expiry, now))
  {
    hide TablesAgree, ResourcesLinked, LeasesExclusive, IdsMinted, Bounded, Cleaned, NewIds, Fits, Subscribers,
      Enqueued;
    CleanedConsistent(s, now);
    RefreshedMinted(s, "", now);
    var clean := Awaiting(s, batch, now);
    SameResources(Cleaned(s, now), clean);
    SameDeliveriesConsistent(Cleaned(s, now), clean);
    CleanedOld(s, now, batch);
    var names := Subscribers(clean, topic);
    SubscribersKnown(clean, topic);
    if topic in clean.topics && names != {} && Fits(clean, names, batch) {
      EnqueuedConsistent(clean, topic, names, batch, expiry);
    }
  }

  // ----- All steps ---------------------------------------------------------

  lemma TopicAddedLinked(s: State, topic: Topic)
    requires ResourcesLinked(s) && topic.name != DELETED_TOPIC
    ensures ResourcesLinked(TopicAdded(s, topic))
  {
  }

  lemma TopicDroppedLinked(s: State, name: string)
    requires ResourcesLinked(s)
    ensures ResourcesLinked(TopicDropped(s, name))
  {
  }

  lemma SubscriptionAddedLinked(s: State, sub: Subscription)
    requires ResourcesLinked(s) && 10 <= sub.ackDeadline <= 600
    ensures ResourcesLinked(SubscriptionAdded(s, sub))
  {
  }

  lemma StepKeepsInvariant(s: State, step: Step)
    requires Consistent(s) && Admissible(s, step)
    ensures Consistent(Apply(s, step))
  {
    hide TablesAgree, ResourcesLinked, LeasesExclusive, IdsMinted, Bounded, ParseResource;
    match step
    case DropSubscription(name) => SubscriptionDroppedConsistent(s, name);
    case Publish(topic, batch, expiry, now) => PublishedConsistent(s, topic, batch, expiry, now);
    case Claim(from, maxCount, maxBytes, deadline, now, acks) =>
      ClaimedConsistent(s, from, maxCount, maxBytes, deadline, now, acks);
    case Acknowledge(from, ids) => AcknowledgedConsistent(s, from, ids);
    case ModifyDeadline(from, ids, seconds, deadline) => RescheduledConsistent(s, from, ids, seconds, deadline);
    case AddTopic(topic) =>
      MarkerIsNoTopic(topic.name);
      TopicAddedLinked(s, topic);
      SameDeliveriesConsistent(s, TopicAdded(s, topic));
    case DropTopic(name) =>
      TopicDroppedLinked(s, name);
      SameDeliveriesConsistent(s, TopicDropped(s, name));
    case AddSubscription(sub) =>
      SubscriptionAddedLinked(s, sub);
      SameDeliveriesConsistent(s, SubscriptionAdded(s, sub));
  }
}
