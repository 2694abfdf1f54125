/** A stream among all other users of the broker. The broker lock is free
    between the parts of a turn, so any steps of others may fall in between; the
    runs here are every such interleaving. */
module StreamRuns {
  import opened Wrappers
  import opened Broker
  import opened BrokerSteps
  import opened BrokerRuns
  import opened BrokerClaims
  import opened BrokerService
  import opened Streaming

  /** One stream and its limits. */
  datatype Terms = Terms(subscription: string, maxMessages: nat, maxBytes: int)

  /** The broker, what the stream counts, every ack id it ever handed out, and the
      latest time at which it looked for leases that ended. */
  datatype View = View(broker: State, held: Outstanding, handed: set<string>, clock: int)

  datatype Move =
    | Others(step: Step)
    | Ack(ids: set<string>)
    | Retime(ids: set<string>, seconds: int, deadline: int)
    | Look(now: int)
    | Pull(leaseEnd: int, now: int, uuids: Uuids, batch: seq<BrokerMessage>)

  /** The step a move makes under the broker lock, if any. */
  ghost function StepOf(v: View, terms: Terms, move: Move): Option<Step> {
    match move
    case Others(step) => Some(step)
    case Ack(ids) => Some(Acknowledge(terms.subscription, ids))
    case Retime(ids, seconds, deadline) => Some(ModifyDeadline(terms.subscription, ids, seconds, deadline))
    case Look(_) => None
    case Pull(leaseEnd, now, uuids, _) =>
      if AtLimit(v.held, terms.maxMessages, terms.maxBytes) then None
      else Some(Claim(terms.subscription, Room(v.held, terms.maxMessages), RoomBytes(v.held, terms.maxBytes), leaseEnd,
                      now, uuids))
  }

  ghost function BrokerAfter(v: View, step: Option<Step>): State
    requires step.Some? ==> Admissible(v.broker, step.value)
  {
    if step.Some? then Apply(v.broker, step.value) else v.broker
  }

  /** What the stream checks before a move; others may do any admissible step. */
  ghost predicate Enabled(v: View, terms: Terms, move: Move) {
    var step := StepOf(v, terms, move);
    && (step.Some? ==> Admissible(v.broker, step.value))
    && (move.Ack? || move.Look? || move.Pull? ==> SubscriptionOf(v.broker, terms.subscription).Success?)
    && (move.Pull? ==>
          && step.Some?
          && ClaimedAs(v.broker, BrokerAfter(v, step), terms.subscription, step.value.maxCount, step.value.maxBytes,
                       move.leaseEnd, move.now, move.uuids, move.batch))
  }

  ghost function Moved(v: View, terms: Terms, move: Move): View
    requires Enabled(v, terms, move)
  {
    var w := v.(broker := BrokerAfter(v, StepOf(v, terms, move)));
    match move
    case Others(_) => w
    case Ack(ids) => w.(held := v.held - ids)
    case Retime(ids, seconds, _) => w.(held := if seconds == 0 then v.held - ids else v.held)
    case Look(now) =>
      w.(held := Honoured(v.held, v.broker, terms.subscription, now), clock := if now > v.clock then now else v.clock)
    case Pull(_, _, _, batch) => w.(held := Added(v.held, batch), handed := v.handed + Acks(batch))
  }

  ghost predicate Possible(v: View, terms: Terms, moves: seq<Move>)
    decreases |moves|
  {
    moves != [] ==> Enabled(v, terms, moves[0]) && Possible(Moved(v, terms, moves[0]), terms, moves[1..])
  }

  ghost function AfterMoves(v: View, terms: Terms, moves: seq<Move>): View
    requires Possible(v, terms, moves)
    decreases |moves|
  {
    if moves == [] then v else AfterMoves(Moved(v, terms, moves[0]), terms, moves[1..])
  }

  // ----- The budget over every interleaving --------------------------------

  ghost predicate Fitting(v: View, terms: Terms) {
    StreamFits(v.broker, v.held, terms.maxMessages, terms.maxBytes) && v.held.Keys <= v.handed <= v.broker.minted
  }

  /** No step of anyone else can take a stream out of its budget. */
  lemma StepKeepsFits(s: State, held: Outstanding, maxMessages: nat, maxBytes: int, step: Step)
    requires StreamFits(s, held, maxMessages, maxBytes) && Admissible(s, step)
    ensures StreamFits(Apply(s, step), held, maxMessages, maxBytes)
    ensures s.minted <= Apply(s, step).minted
  {
    hide Consistent, WithinBudget, Admissible, Apply;
    StepKeepsInvariant(s, step);
    MintedOnlyGrows(s, step);
  }

  /** A pull stays within the budget, counts what it hands out, and hands out
      something if anything is on offer. */
  lemma PullKeepsFitting(v: View, terms: Terms, move: Move)
    requires Fitting(v, terms) && Enabled(v, terms, move) && move.Pull?
    ensures Fitting(Moved(v, terms, move), terms)
    ensures NewAcks(v.held, move.batch)
    ensures move.batch == [] ==> forall key :: !Offered(v.broker, terms.subscription, move.now, key)
  {
    hide Consistent, WithinBudget, Offered, HeldBytes, FreshIds, Recorded, NewAcks, SubscriptionOf, Apply, Acks,
      Added, ClaimedAs;
    var step := StepOf(v, terms, move).value;
    var t := Apply(v.broker, step);
    StepKeepsFits(v.broker, v.held, terms.maxMessages, terms.maxBytes, step);
    ClaimContract(v.broker, t, terms.subscription, step.maxCount, step.maxBytes, move.leaseEnd, move.now, move.uuids,
                  move.batch, v.held);
    ClaimWithinBudget(v.held, move.batch, terms.maxMessages, terms.maxBytes, step.maxCount, step.maxBytes);
    AddedKeys(v.held, move.batch);
  }

  /** Whatever the stream and the others do next, the broker stays consistent and
      the stream within its budget. */
  lemma MoveKeepsFitting(v: View, terms: Terms, move: Move)
    requires Fitting(v, terms) && Enabled(v, terms, move)
    ensures Fitting(Moved(v, terms, move), terms)
  {
    hide Consistent, WithinBudget, Admissible, Apply, ClaimedAs, SubscriptionOf, Honoured, HeldBytes;
    var step := StepOf(v, terms, move);
    if move.Pull? {
      PullKeepsFitting(v, terms, move);
    } else {
      if step.Some? { StepKeepsFits(v.broker, v.held, terms.maxMessages, terms.maxBytes, step.value); }
      match move
      case Ack(ids) => FewerWithinBudget(v.held, ids, terms.maxMessages, terms.maxBytes);
      case Retime(ids, _, _) => FewerWithinBudget(v.held, ids, terms.maxMessages, terms.maxBytes);
      case Look(now) => HonouredFewer(v.held, v.broker, terms, now);
      case Others(_) =>
    }
  }

  lemma HonouredFewer(held: Outstanding, s: State, terms: Terms, now: int)
    requires WithinBudget(held, terms.maxMessages, terms.maxBytes)
    ensures WithinBudget(Honoured(held, s, terms.subscription, now), terms.maxMessages, terms.maxBytes)
    ensures Honoured(held, s, terms.subscription, now).Keys <= held.Keys
  {
    hide WithinBudget, ActiveIds;
    FewerWithinBudget(held, held.Keys - ActiveIds(s, terms.subscription, held.Keys, now), terms.maxMessages,
                      terms.maxBytes);
  }

  lemma {:induction false} RunKeepsFitting(v: View, terms: Terms, moves: seq<Move>)
    requires Fitting(v, terms) && Possible(v, terms, moves)
    ensures Fitting(AfterMoves(v, terms, moves), terms)
    decreases |moves|
  {
    hide Fitting, Enabled, Moved;
    if moves != [] {
      MoveKeepsFitting(v, terms, moves[0]);
      RunKeepsFitting(Moved(v, terms, moves[0]), terms, moves[1..]);
    }
  }

  // ----- The leases a stream has handed out --------------------------------

  predicate HandedOutLease(v: View, d: Delivery) {
    d.ackId.Some? && d.deadline.Some? && d.ackId.value in v.handed
  }

  /** A lease handed out on the stream that it does not count. */
  predicate Uncounted(v: View, d: Delivery) {
    HandedOutLease(v, d) && d.ackId.value !in v.held
  }

  /** This lease is the subscription's own and, unless the stream counts it, had
      lapsed when the stream last looked. */
  predicate CountedLease(v: View, terms: Terms, d: Delivery) {
    && (HandedOutLease(v, d) ==> d.subscription == terms.subscription)
    && (Uncounted(v, d) ==> d.deadline.value <= v.clock)
  }

  ghost predicate Counted(v: View, terms: Terms) {
    forall key :: key in v.broker.deliveries ==> CountedLease(v, terms, v.broker.deliveries[key])
  }

  /** The step extends, past the last look, a lapsed lease the stream has stopped
      counting. */
  ghost predicate Escapes(v: View, step: Option<Step>) {
    && step.Some? && step.value.ModifyDeadline? && step.value.seconds != 0 && step.value.deadline > v.clock
    && exists key :: key in v.broker.deliveries && Holds(v.broker.deliveries[key], step.value.from, step.value.ids)
                     && Uncounted(v, v.broker.deliveries[key])
  }

  /** The new record of a lease under an id that was already drawn. */
  predicate SameLease(d: Delivery, e: Delivery, step: Step) {
    && d.subscription == e.subscription && d.ackId == e.ackId
    && (d.deadline == e.deadline
        || (step.ModifyDeadline? && step.seconds != 0 && Holds(d, step.from, step.ids)
            && e.deadline == Some(step.deadline)))
  }

  lemma {:induction false} EnqueuedLeases(s: State, topic: string, names: set<string>, batch: seq<Stamped>,
                                          expiry: int, key: Key)
    requires var t := Enqueued(s, topic, names, batch, expiry); key in t.deliveries && t.deliveries[key].ackId.Some?
    ensures key in s.deliveries && Enqueued(s, topic, names, batch, expiry).deliveries[key] == s.deliveries[key]
    decreases |batch|
  {
    if batch != [] {
      var next := EnqueuedOne(s, topic, names, batch[0], expiry);
      EnqueuedLeases(next, topic, names, batch[1..], expiry, key);
    }
  }

  /** A lease recorded after a step under an id drawn before it was recorded
      before, and only a deadline change moves its deadline. */
  lemma OldLeases(s: State, step: Step, key: Key)
    requires Admissible(s, step) && key in Apply(s, step).deliveries
    requires Apply(s, step).deliveries[key].ackId.Some? && Apply(s, step).deliveries[key].ackId.value in s.minted
    ensures key in s.deliveries && SameLease(s.deliveries[key], Apply(s, step).deliveries[key], step)
  {
    hide ParseResource, Taken, Fits, Subscribers;
    match step
    case Publish(topic, batch, expiry, now) =>
      var clean := Awaiting(s, batch, now);
      if Apply(s, step) != clean { EnqueuedLeases(clean, topic, Subscribers(clean, topic), batch, expiry, key); }
    case _ =>
  }

  lemma LookedLapsed(v: View, terms: Terms, now: int, key: Key)
    requires Fitting(v, terms) && key in v.broker.deliveries
    requires var d := v.broker.deliveries[key];
             HandedOutLease(v, d) && d.subscription == terms.subscription && d.ackId.value in v.held
             && d.ackId.value !in Honoured(v.held, v.broker, terms.subscription, now)
    ensures v.broker.deliveries[key].deadline.value <= now
  {
    hide TablesAgree, ResourcesLinked, Bounded, IdsMinted, WithinBudget;
    var d := v.broker.deliveries[key];
    assert WellLeased(d);
    assert d.ackId.value !in ActiveIds(v.broker, terms.subscription, v.held.Keys, now);
    assert !ActiveLease(d, terms.subscription, now, d.ackId.value);
  }

  lemma AckedGone(s: State, from: string, ids: set<string>, key: Key)
    requires key in Apply(s, Acknowledge(from, ids)).deliveries
    ensures key in s.deliveries && !Holds(s.deliveries[key], from, ids)
  {
    hide Live, Keep;
  }

  lemma NackedGone(s: State, from: string, ids: set<string>, deadline: int, key: Key)
    requires key in s.deliveries && Holds(s.deliveries[key], from, ids)
    ensures Rescheduled(s, from, ids, 0, deadline).deliveries[key].ackId.None?
  {
  }

  /** A lease the stream stops counting in this move had lapsed by the time it
      looked: an acked one is gone and a nacked one is recorded no more. */
  lemma StopsCounting(v: View, terms: Terms, move: Move, key: Key)
    requires Fitting(v, terms) && Enabled(v, terms, move)
    requires key in v.broker.deliveries && HandedOutLease(v, v.broker.deliveries[key])
    requires var d, w := v.broker.deliveries[key], Moved(v, terms, move);
             && d.subscription == terms.subscription && d.ackId.value in v.held && d.ackId.value !in w.held
             && key in w.broker.deliveries && w.broker.deliveries[key].ackId == d.ackId
    ensures move.Look? && v.broker.deliveries[key].deadline.value <= move.now
  {
    hide StreamFits, Admissible, SubscriptionOf, ClaimedAs, Honoured, Acknowledged, Rescheduled;
    match move
    case Others(_) => assert false;
    case Pull(_, _, _, batch) => AddedKeys(v.held, batch);
    case Ack(ids) => AckedGone(v.broker, terms.subscription, ids, key);
    case Retime(ids, seconds, deadline) => NackedGone(v.broker, terms.subscription, ids, deadline, key);
    case Look(now) => LookedLapsed(v, terms, now, key);
  }

  /** A lease that was drawn before the move stays counted unless it escapes. */
  lemma OldLeaseCounted(v: View, terms: Terms, move: Move, key: Key)
    requires Fitting(v, terms) && Enabled(v, terms, move) && Counted(v, terms) && !Escapes(v, StepOf(v, terms, move))
    requires var w := Moved(v, terms, move);
             key in w.broker.deliveries && w.broker.deliveries[key].ackId.Some?
             && w.broker.deliveries[key].ackId.value in v.handed
    ensures CountedLease(Moved(v, terms, move), terms, Moved(v, terms, move).broker.deliveries[key])
  {
    hide StreamFits, Admissible, Apply, SubscriptionOf, ClaimedAs, Honoured, Consistent, AtLimit, HeldBytes;
    var step, w := StepOf(v, terms, move), Moved(v, terms, move);
    var e := w.broker.deliveries[key];
    if step.Some? { OldLeases(v.broker, step.value, key); }
    var d := v.broker.deliveries[key];
    OldRecorded(v, terms, key);
    assert CountedLease(v, terms, d);
    if d.ackId.value in v.held && d.ackId.value !in w.held { StopsCounting(v, terms, move, key); }
  }

  lemma OldRecorded(v: View, terms: Terms, key: Key)
    requires Fitting(v, terms) && key in v.broker.deliveries
    ensures v.broker.deliveries[key].ackId.Some? ==> v.broker.deliveries[key].deadline.Some?
    ensures v.broker.deliveries[key].subscription == key.subscription
  {
    hide TablesAgree, Bounded, IdsMinted, WithinBudget;
    assert WellLeased(v.broker.deliveries[key]);
  }

  /** A lease handed out by this very pull is the subscription's own and counted. */
  lemma NewLeaseCounted(v: View, terms: Terms, move: Move, key: Key)
    requires Fitting(v, terms) && Enabled(v, terms, move) && move.Pull?
    requires var w := Moved(v, terms, move);
             key in w.broker.deliveries && w.broker.deliveries[key].ackId.Some?
             && w.broker.deliveries[key].ackId.value in Acks(move.batch)
    ensures CountedLease(Moved(v, terms, move), terms, Moved(v, terms, move).broker.deliveries[key])
  {
    hide Consistent, WithinBudget, Offered, HeldBytes, FreshIds, NewAcks, SubscriptionOf, Apply, Added, ClaimedAs;
    var step, w := StepOf(v, terms, move).value, Moved(v, terms, move);
    MoveKeepsFitting(v, terms, move);
    ClaimContract(v.broker, w.broker, terms.subscription, step.maxCount, step.maxBytes, move.leaseEnd, move.now,
                  move.uuids, move.batch, v.held);
    AddedKeys(v.held, move.batch);
    var i :| 0 <= i < |move.batch| && move.batch[i].ackId == w.broker.deliveries[key].ackId.value;
    var own := Key(terms.subscription, move.batch[i].message.id);
    OneHolder(w.broker, own, key);
    OldRecorded(w, terms, key);
  }

  lemma OneHolder(s: State, j: Key, k: Key)
    requires Consistent(s) && j in s.deliveries && k in s.deliveries
    requires s.deliveries[j].ackId.Some? && s.deliveries[j].ackId == s.deliveries[k].ackId
    ensures j == k
  {
    hide TablesAgree, ResourcesLinked, Bounded, IdsMinted, WellLeased;
  }

  lemma EscapedUncounted(v: View, terms: Terms, move: Move)
    requires Fitting(v, terms) && Enabled(v, terms, move) && Escapes(v, StepOf(v, terms, move))
    ensures !Counted(Moved(v, terms, move), terms)
  {
    hide StreamFits, Honoured, ClaimedAs, SubscriptionOf;
    var step, w := StepOf(v, terms, move).value, Moved(v, terms, move);
    var key :| key in v.broker.deliveries && Holds(v.broker.deliveries[key], step.from, step.ids)
               && Uncounted(v, v.broker.deliveries[key]);
    assert w.broker.deliveries[key] == v.broker.deliveries[key].(deadline := Some(step.deadline));
    assert !CountedLease(w, terms, w.broker.deliveries[key]);
  }

  /** A move leaves every live lease of the stream counted exactly when it does
      not extend a lapsed lease the stream has already written off. */
  lemma CountedExactly(v: View, terms: Terms, move: Move)
    requires Fitting(v, terms) && Enabled(v, terms, move) && Counted(v, terms)
    ensures Counted(Moved(v, terms, move), terms) <==> !Escapes(v, StepOf(v, terms, move))
  {
    hide Fitting, Enabled, Escapes, CountedLease;
    var w := Moved(v, terms, move);
    if Escapes(v, StepOf(v, terms, move)) {
      EscapedUncounted(v, terms, move);
    } else {
      forall key | key in w.broker.deliveries ensures CountedLease(w, terms, w.broker.deliveries[key]) {
        EachLeaseCounted(v, terms, move, key);
      }
    }
  }

  lemma EachLeaseCounted(v: View, terms: Terms, move: Move, key: Key)
    requires Fitting(v, terms) && Enabled(v, terms, move) && Counted(v, terms) && !Escapes(v, StepOf(v, terms, move))
    requires key in Moved(v, terms, move).broker.deliveries
    ensures CountedLease(Moved(v, terms, move), terms, Moved(v, terms, move).broker.deliveries[key])
  {
    hide Fitting, Enabled, Escapes, Counted, BrokerAfter, Honoured, Added, StepOf;
    var d := Moved(v, terms, move).broker.deliveries[key];
    if d.ackId.Some? && d.ackId.value in v.handed {
      OldLeaseCounted(v, terms, move, key);
    } else if d.ackId.Some? && move.Pull? && d.ackId.value in Acks(move.batch) {
      NewLeaseCounted(v, terms, move, key);
    }
  }

  // ----- Whole runs --------------------------------------------------------

  /** No move of the run extends a lease the stream has written off. */
  ghost predicate NoneEscapes(v: View, terms: Terms, moves: seq<Move>)
    requires Possible(v, terms, moves)
    decreases |moves|
  {
    moves != [] ==> !Escapes(v, StepOf(v, terms, moves[0])) && NoneEscapes(Moved(v, terms, moves[0]), terms, moves[1..])
  }

  lemma {:induction false} RunKeepsCounted(v: View, terms: Terms, moves: seq<Move>)
    requires Fitting(v, terms) && Counted(v, terms) && Possible(v, terms, moves) && NoneEscapes(v, terms, moves)
    ensures Fitting(AfterMoves(v, terms, moves), terms) && Counted(AfterMoves(v, terms, moves), terms)
    decreases |moves|
  {
    hide Fitting, Counted, Enabled, Escapes, Moved, StepOf;
    if moves != [] {
      MoveKeepsFitting(v, terms, moves[0]);
      CountedExactly(v, terms, moves[0]);
      RunKeepsCounted(Moved(v, terms, moves[0]), terms, moves[1..]);
    }
  }

  /** A stream that has just been opened. */
  function Opened(s: State): View {
    View(s, map[], {}, 0)
  }

  /** The leases handed out on the stream that are alive at this time. */
  ghost function LiveHanded(v: View, terms: Terms, now: int): set<string> {
    ActiveIds(v.broker, terms.subscription, v.handed, now)
  }

  lemma LiveCounted(v: View, terms: Terms, now: int)
    requires Counted(v, terms) && now >= v.clock
    ensures LiveHanded(v, terms, now) <= v.held.Keys
  {
    forall id | id in LiveHanded(v, terms, now) ensures id in v.held {
      var key :| key in v.broker.deliveries && ActiveLease(v.broker.deliveries[key], terms.subscription, now, id);
      assert CountedLease(v, terms, v.broker.deliveries[key]);
    }
  }

  /** Flow control over whole runs: from the opening of a stream, through every
      interleaving in which nobody extends a lease the stream has written off, the
      leases it handed out that are alive are all counted and within its budget. */
  lemma LiveWithinBudget(s: State, terms: Terms, moves: seq<Move>, now: int)
    requires Consistent(s) && terms.maxMessages > 0 && terms.maxBytes > 0
    requires Possible(Opened(s), terms, moves) && NoneEscapes(Opened(s), terms, moves)
    requires now >= AfterMoves(Opened(s), terms, moves).clock
    ensures var v := AfterMoves(Opened(s), terms, moves);
            var live := LiveHanded(v, terms, now);
            && Consistent(v.broker) && live <= v.held.Keys && |live| <= terms.maxMessages
            && WithinBudget(v.held - (v.held.Keys - live), terms.maxMessages, terms.maxBytes)
  {
    hide Consistent, WithinBudget, Possible, NoneEscapes, LiveHanded;
    NothingHeld(terms.maxMessages, terms.maxBytes);
    RunKeepsCounted(Opened(s), terms, moves);
    var v := AfterMoves(Opened(s), terms, moves);
    LiveCounted(v, terms, now);
    var live := LiveHanded(v, terms, now);
    FewerWithinBudget(v.held, v.held.Keys - live, terms.maxMessages, terms.maxBytes);
    KeepOnly(v.held, live);
    BudgetCount(v.held - (v.held.Keys - live), terms);
  }

  lemma BudgetCount(held: Outstanding, terms: Terms)
    requires WithinBudget(held, terms.maxMessages, terms.maxBytes)
    ensures |held.Keys| <= terms.maxMessages
  {
    assert |held.Keys| == |held|;
  }

  /** The move gives the lease under this id a deadline after now: a request of the
      stream itself, or of any other client. */
  predicate Extends(terms: Terms, move: Move, id: string, now: int) {
    match move
    case Others(ModifyDeadline(from, ids, seconds, deadline)) =>
      from == terms.subscription && id in ids && 0 < seconds <= 600 && deadline > now
    case Retime(ids, seconds, deadline) => id in ids && 0 < seconds <= 600 && deadline > now
    case _ => false
  }

  /** The condition is needed: any counted lease can lapse, be written off by a
      look, and then be extended by the stream's own request or by another client;
      it is alive and not counted. */
  lemma WrittenOffLeaseEscapes(v: View, terms: Terms, key: Key, now: int, extend: Move)
    requires Fitting(v, terms) && key in v.broker.deliveries
    requires SubscriptionOf(v.broker, terms.subscription).Success?
    requires var d := v.broker.deliveries[key];
             && HandedOutLease(v, d) && d.subscription == terms.subscription && d.ackId.value in v.held
             && d.deadline.value <= now && Extends(terms, extend, d.ackId.value, now)
    ensures var id, moves := v.broker.deliveries[key].ackId.value, [Look(now), extend];
            && Possible(v, terms, moves)
            && id in LiveHanded(AfterMoves(v, terms, moves), terms, now) && id !in AfterMoves(v, terms, moves).held
  {
    hide TablesAgree, ResourcesLinked, Bounded, IdsMinted, WithinBudget, SubscriptionOf, WellLeased;
    var id := v.broker.deliveries[key].ackId.value;
    var w := Moved(v, terms, Look(now));
    NobodyActive(v.broker, terms.subscription, key, now);
    var x := Moved(w, terms, extend);
    assert [Look(now), extend][1..] == [extend];
    assert Possible(w, terms, [extend]) && AfterMoves(w, terms, [extend]) == x by { assert [extend][1..] == []; }
    InFlightLease(v.broker, key);
    assert ActiveLease(x.broker.deliveries[key], terms.subscription, now, id);
  }

  lemma InFlightLease(s: State, key: Key)
    requires Consistent(s) && key in s.deliveries && s.deliveries[key].ackId.Some?
    ensures s.deliveries[key].state.InFlight?
  {
    hide TablesAgree, ResourcesLinked, Bounded, IdsMinted;
    assert WellLeased(s.deliveries[key]);
  }

  lemma NobodyActive(s: State, subscription: string, key: Key, now: int)
    requires Consistent(s) && key in s.deliveries && s.deliveries[key].ackId.Some?
    requires s.deliveries[key].deadline.Some? && s.deliveries[key].deadline.value <= now
    ensures forall held: set<string> :: s.deliveries[key].ackId.value !in ActiveIds(s, subscription, held, now)
  {
    hide Consistent, SubscriptionOf;
    var id := s.deliveries[key].ackId.value;
    forall k | k in s.deliveries ensures !ActiveLease(s.deliveries[k], subscription, now, id) {
      if ActiveLease(s.deliveries[k], subscription, now, id) { OneHolder(s, key, k); }
    }
  }

  // ----- A turn is a run of moves ------------------------------------------

  lemma {:induction false} MovesThen(v: View, terms: Terms, moves: seq<Move>, more: seq<Move>)
    requires Possible(v, terms, moves) && Possible(AfterMoves(v, terms, moves), terms, more)
    ensures Possible(v, terms, moves + more)
    ensures AfterMoves(v, terms, moves + more) == AfterMoves(AfterMoves(v, terms, moves), terms, more)
    decreases |moves|
  {
    hide Enabled, Moved;
    if moves == [] {
      assert moves + more == more;
    } else {
      MovesThen(Moved(v, terms, moves[0]), terms, moves[1..], more);
      assert (moves + more)[1..] == moves[1..] + more;
    }
  }

  lemma OneMove(v: View, terms: Terms, move: Move)
    requires Enabled(v, terms, move)
    ensures Possible(v, terms, [move]) && AfterMoves(v, terms, [move]) == Moved(v, terms, move)
  {
    hide Enabled, Moved;
    assert [move][1..] == [];
  }

  lemma {:induction false} DeadlinesAreMoves(v: View, terms: Terms, ids: seq<string>, seconds: seq<int>, now: int)
    returns (moves: seq<Move>)
    requires |ids| == |seconds|
    ensures Possible(v, terms, moves)
    ensures var w, settled := AfterMoves(v, terms, moves), Deadlines(v.broker, v.held, terms.subscription, ids,
                                                                     seconds, now);
            w.broker == settled.state && w.held == settled.held
    decreases |ids|
  {
    hide Rescheduled, SubscriptionOf;
    moves := [];
    if ids != [] {
      var one := OneDeadline(v.broker, v.held, terms.subscription, ids[0], seconds[0], now);
      if one.error.None? {
        var move := Retime({ids[0]}, seconds[0], SaturatingAdd(now, seconds[0] * 1000));
        OneMove(v, terms, move);
        var rest := DeadlinesAreMoves(Moved(v, terms, move), terms, ids[1..], seconds[1..], now);
        MovesThen(v, terms, [move], rest);
        moves := [move] + rest;
      }
    }
  }

  lemma SettledIsMoves(v: View, terms: Terms, first: bool, request: Request, now: int) returns (moves: seq<Move>)
    ensures Possible(v, terms, moves)
    ensures var w, settled := AfterMoves(v, terms, moves), SettledBy(v.broker, v.held, first, terms.subscription,
                                                                     request, now);
            w.broker == settled.state && w.held == settled.held
  {
    hide Deadlines, SubscriptionOf, Acknowledged;
    moves := [];
    if !Reopens(request, first) && |request.modifyIds| == |request.modifySeconds| {
      if request.ackIds == [] {
        moves := DeadlinesAreMoves(v, terms, request.modifyIds, request.modifySeconds, now);
      } else if SubscriptionOf(v.broker, terms.subscription).Success? {
        var move := Ack(IdSet(request.ackIds));
        OneMove(v, terms, move);
        var rest := DeadlinesAreMoves(Moved(v, terms, move), terms, request.modifyIds, request.modifySeconds, now);
        MovesThen(v, terms, [move], rest);
        moves := [move] + rest;
      }
    }
  }

  /** What a turn does to the broker and to its count is a run of these moves, so
      every statement about runs speaks for the loop, others in between or not. */
  lemma TurnIsMoves(v: View, terms: Terms, request: Option<Request>, first: bool, mid: Settled, t: State,
                    outstanding: Outstanding, outcome: Outcome, held: Outstanding, deadline: int, now: int,
                    uuids: Uuids)
    returns (moves: seq<Move>)
    requires FreshIds(mid.state, uuids)
    requires request.None? ==> mid == Settled(v.broker, v.held, None)
    requires request.Some? ==> mid == SettledBy(v.broker, v.held, first, terms.subscription, request.value, now)
    requires TurnAs(mid, t, outstanding, outcome, held, terms.subscription, terms.maxMessages, terms.maxBytes,
                    deadline, now, uuids)
    ensures Possible(v, terms, moves)
    ensures AfterMoves(v, terms, moves).broker == t && AfterMoves(v, terms, moves).held == outstanding
  {
    hide SubscriptionOf, SettledBy, ClaimedAs, FreshIds, Added, Acks, Honoured, HeldBytes, AtLimit, Recorded, Offered;
    moves := [];
    if request.Some? { moves := SettledIsMoves(v, terms, first, request.value, now); }
    if mid.error.None? && SubscriptionOf(mid.state, terms.subscription).Success? {
      var w := AfterMoves(v, terms, moves);
      OneMove(w, terms, Look(now));
      MovesThen(v, terms, moves, [Look(now)]);
      moves := moves + [Look(now)];
      if !AtLimit(held, terms.maxMessages, terms.maxBytes) {
        var pull := Pull(LeaseEnd(deadline, now), now, uuids, BatchOf(outcome));
        PullEnabled(Moved(w, terms, Look(now)), terms, pull, t);
        OneMove(Moved(w, terms, Look(now)), terms, pull);
        MovesThen(v, terms, moves, [pull]);
        moves := moves + [pull];
      }
    }
  }

  lemma PullEnabled(v: View, terms: Terms, pull: Move, t: State)
    requires pull.Pull? && SubscriptionOf(v.broker, terms.subscription).Success? && FreshIds(v.broker, pull.uuids)
    requires !AtLimit(v.held, terms.maxMessages, terms.maxBytes)
    requires ClaimedAs(v.broker, t, terms.subscription, Room(v.held, terms.maxMessages),
                       RoomBytes(v.held, terms.maxBytes), pull.leaseEnd, pull.now, pull.uuids, pull.batch)
    ensures Enabled(v, terms, pull) && Moved(v, terms, pull).broker == t
    ensures Moved(v, terms, pull).held == Added(v.held, pull.batch)
  {
    hide SubscriptionOf, FreshIds, HeldBytes, Added, Acks, Claimed, HandedOut, Refreshed, Taken;
  }

  /** The end of a stream is one more move: it gives every counted lease back.
      A stream only opens on a well-formed subscription name. */
  lemma ReleaseIsMove(v: View, terms: Terms, now: int)
    requires Fitting(v, terms) && ParseResource(terms.subscription, "subscriptions").Some?
    ensures var move := Retime(v.held.Keys, 0, SaturatingAdd(now, 0));
            && Enabled(v, terms, move) && Moved(v, terms, move).held == map[]
            && Moved(v, terms, move).broker == ReleasedBy(v.broker, v.held, terms.subscription, now)
  {
    hide WithinBudget, TablesAgree, LeasesExclusive, IdsMinted, Bounded, ParseResource;
    var t := Rescheduled(v.broker, terms.subscription, v.held.Keys, 0, SaturatingAdd(now, 0));
    if SubscriptionOf(v.broker, terms.subscription).Failure? || v.held.Keys == {} {
      assert t.deliveries == v.broker.deliveries;
    }
  }
}
