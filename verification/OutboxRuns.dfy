/** Safety and drain of the durable outbox over every run. */
module OutboxRuns {
  import opened Wrappers
  import opened Events
  import opened Outbox
  import opened Sums

  // ----- Each step keeps the invariant -------------------------------------

  lemma BornAgrees(s: System, t: Table)
    requires LivesAgree(s) && t.lastId >= s.table.lastId
    requires forall id :: id in t.rows <==> id in s.table.rows || s.table.lastId < id <= t.lastId
    requires forall id :: id in s.table.rows ==> t.rows[id] == s.table.rows[id]
    requires forall id :: s.table.lastId < id <= t.lastId ==>
               t.rows[id].phase.Pending? && t.rows[id].attempts == 0 && !Busy(s, id)
    ensures LivesAgree(s.(table := t, lives := Born(s.lives, t)))
    ensures CompletedIds(Born(s.lives, t)) == CompletedIds(s.lives)
  {
    var lives := Born(s.lives, t);
    forall id | id in t.rows ensures RowAgrees(t.rows[id], lives[id], Busy(s, id)) {
      if id in s.table.rows { assert RowAgrees(s.table.rows[id], s.lives[id], Busy(s, id)); }
    }
    hide RowAgrees;
  }

  lemma SubmitKeeps(s: System, records: seq<Record>)
    requires Consistent(s)
    ensures Consistent(Apply(s, Submit(records)))
  {
    if Insert(s.table, records).Success? {
      var t := AppendAll(s.table, records);
      assert forall id :: id in s.table.rows ==> id <= s.table.lastId;
      AppendAllEffect(s.table, records);
      SubmitCounts(s.table, t, records);
      hide AppendAll, RowAgrees;
      BornAgrees(s, t);
      hide OutstandingIds, CompletedIds, LivesAgree;
    }
  }

  lemma SubmitCounts(t: Table, u: Table, records: seq<Record>)
    requires forall id :: id in t.rows ==> id <= t.lastId
    requires u == AppendAll(t, records)
    ensures |OutstandingIds(u)| == |OutstandingIds(t)| + |records|
    decreases |records|
  {
    if records != [] {
      hide OutstandingIds;
      var next := Append(t, records[0]);
      SubmitCounts(next, u, records[1..]);
      AppendCounts(t, records[0]);
    }
  }

  lemma AppendCounts(t: Table, record: Record)
    requires forall id :: id in t.rows ==> id <= t.lastId
    ensures |OutstandingIds(Append(t, record))| == |OutstandingIds(t)| + 1
  {
    assert OutstandingIds(Append(t, record)) == OutstandingIds(t) + {t.lastId + 1};
  }

  lemma RestartKeeps(s: System)
    requires Consistent(s) && s.held.None?
    ensures Consistent(Apply(s, Restart))
  {
    RecoverCounts(s.table);
    hide OutstandingIds;
  }

  lemma RecoverCounts(t: Table)
    ensures OutstandingIds(Recover(t)) == OutstandingIds(t)
  {
    var u := Recover(t);
    forall id | id in t.rows ensures u.rows[id].Outstanding() == t.rows[id].Outstanding() {}
  }

  lemma TakeKeeps(s: System, now: int)
    requires Consistent(s) && s.held.None?
    ensures Consistent(Apply(s, Take(now)))
  {
    var next := Apply(s, Take(now));
    if EligibleIds(s.table, now) != {} {
      assert OutstandingIds(next.table) == OutstandingIds(s.table);
      assert CompletedIds(next.lives) == CompletedIds(s.lives);
      hide OutstandingIds, CompletedIds;
    }
  }

  lemma LostKeeps(s: System)
    requires Consistent(s)
    ensures Consistent(System(s.table, None, Lost(s)))
  {
    assert CompletedIds(Lost(s)) == CompletedIds(s.lives);
    hide OutstandingIds, CompletedIds;
  }

  function Finished(s: System): System
    requires s.held.Some? && s.held.value.id in s.table.rows && s.held.value.id in s.lives
  {
    var id := s.held.value.id;
    System(MarkDelivered(s.table, id), None, s.lives[id := s.lives[id].(completions := s.lives[id].completions + 1)])
  }

  lemma FinishedKeeps(s: System)
    requires LivesAgree(s) && HeldAgrees(s) && Working(s)
    ensures LivesAgree(Finished(s))
    ensures CompletedIds(Finished(s).lives) == CompletedIds(s.lives) + {s.held.value.id}
    ensures s.held.value.id !in CompletedIds(s.lives)
  {
    assert RowAgrees(s.table.rows[s.held.value.id], s.lives[s.held.value.id], true);
  }

  lemma ConfirmKeeps(s: System)
    requires Consistent(s) && s.held.Some?
    ensures Consistent(Apply(s, Confirm))
  {
    var id := s.held.value.id;
    if Acknowledge(s.table, id).Success? {
      var next := Apply(s, Confirm);
      assert id in s.lives;
      FinishedKeeps(s);
      SubsetSize(OutstandingIds(next.table), OutstandingIds(s.table));
      hide OutstandingIds, CompletedIds, Newer, RowAgrees, LivesAgree;
      PruneKeeps(Finished(s), Phase.Delivered);
    }
  }

  /** Pruning only forgets rows whose life has ended. */
  lemma PruneKeeps(s: System, phase: Phase)
    requires LivesAgree(s) && (phase.Delivered? || phase.Failed?) && s.held.None?
    ensures LivesAgree(s.(table := Prune(s.table, phase)))
  {
    hide Newer;
  }

  lemma MarkFailedKeeps(s: System, now: int, held: Option<Held>)
    requires Consistent(s) && s.held.Some?
    requires held.None? || (held == s.held && held.value.attempts >= MAX_ATTEMPTS)
    ensures Consistent(System(MarkFailed(s.table, s.held.value, now), held, Rejected(s)))
  {
    var next := System(MarkFailed(s.table, s.held.value, now), held, Rejected(s));
    SubsetSize(OutstandingIds(next.table), OutstandingIds(s.table));
    assert CompletedIds(next.lives) == CompletedIds(s.lives);
    hide OutstandingIds, CompletedIds;
  }

  lemma RejectKeeps(s: System, now: int)
    requires Consistent(s) && s.held.Some?
    ensures Consistent(Apply(s, Reject(now)))
  {
    MarkFailedKeeps(s, now, None);
    var marked := System(MarkFailed(s.table, s.held.value, now), None, Rejected(s));
    hide MarkFailed, Rejected, CompletedIds;
    if s.held.value.attempts >= MAX_ATTEMPTS {
      PruneKeeps(marked, Failed);
      SubsetSize(OutstandingIds(Prune(marked.table, Failed)), OutstandingIds(marked.table));
    }
  }

  /** Every step of every run keeps the outbox consistent. */
  lemma StepKeeps(s: System, step: Step)
    requires Consistent(s) && Admissible(s, step)
    ensures Consistent(Apply(s, step))
  {
    match step
    case Submit(records) => SubmitKeeps(s, records);
    case Crash => LostKeeps(s);
    case Restart => RestartKeeps(s);
    case Take(now) => TakeKeeps(s, now);
    case Confirm => ConfirmKeeps(s);
    case Reject(now) => RejectKeeps(s, now);
    case RejectHalf(now) => MarkFailedKeeps(s, now, s.held);
    case TransitionError =>
    case GiveUp => LostKeeps(s);
  }

  // ----- Safety of whole runs ----------------------------------------------

  ghost predicate Runs(s: System, steps: seq<Step>)
    decreases |steps|
  {
    steps == [] || (Admissible(s, steps[0]) && Runs(Apply(s, steps[0]), steps[1..]))
  }

  ghost function After(s: System, steps: seq<Step>): System
    requires Runs(s, steps)
    decreases |steps|
  {
    if steps == [] then s else After(Apply(s, steps[0]), steps[1..])
  }

  lemma {:induction false} RunKeeps(s: System, steps: seq<Step>)
    requires Consistent(s) && Runs(s, steps)
    ensures Consistent(After(s, steps))
    decreases |steps|
  {
    hide Consistent, Apply;
    if steps != [] {
      StepKeeps(s, steps[0]);
      RunKeeps(Apply(s, steps[0]), steps[1..]);
    }
  }

  /** After any run, with crashes and failed transitions anywhere: the backlog is
      bounded; every id ever issued is still in the table or was acknowledged or
      failed for good; no id is counted twice or fails more than five times; and
      it is dispatched at most five times more than the dispatches whose outcome
      was lost. */
  lemma ReachableSafe(steps: seq<Step>)
    requires Runs(START, steps)
    ensures var s := After(START, steps);
            && |OutstandingIds(s.table)| <= OUTBOX_LIMIT
            && s.table.completed == |CompletedIds(s.lives)|
            && (forall id :: 0 < id <= s.table.lastId ==>
                  id in s.lives
                  && (id !in s.table.rows ==> s.lives[id].completions == 1 || s.lives[id].dead)
                  && 0 <= s.lives[id].completions <= 1
                  && s.lives[id].failures <= 5
                  && s.lives[id].claims <= 5 + s.lives[id].lost)
  {
    assert Consistent(START);
    RunKeeps(START, steps);
    var s := After(START, steps);
    hide Runs, After;
    forall id | 0 < id <= s.table.lastId
      ensures id in s.lives && 0 <= s.lives[id].completions <= 1 && s.lives[id].failures <= 5
      ensures s.lives[id].claims <= 5 + s.lives[id].lost
    {
      assert id in s.lives;
      assert id in s.table.rows ==> RowAgrees(s.table.rows[id], s.lives[id], Busy(s, id));
    }
  }

  /** Delivered and failed are final: such a row keeps its phase until pruning
      forgets it, and a forgotten id never comes back. */
  predicate Final(before: Table, after: Table, id: int) {
    && (id in before.rows && !before.rows[id].Outstanding() ==>
          id !in after.rows || after.rows[id].phase == before.rows[id].phase)
    && (id !in before.rows && id <= before.lastId ==> id !in after.rows)
    && (id in before.rows ==> id <= before.lastId <= after.lastId)
    && before.lastId <= after.lastId
  }

  lemma PhasesFinal(s: System, step: Step, id: int)
    requires Consistent(s) && Admissible(s, step)
    ensures Final(s.table, Apply(s, step).table, id)
  {
    if step.Submit? && Insert(s.table, step.records).Success? {
      AppendAllEffect(s.table, step.records);
      hide AppendAll;
    }
    hide OutstandingIds, CompletedIds, Newer, EligibleIds;
  }

  lemma {:induction false} RunFinal(s: System, steps: seq<Step>, id: int)
    requires Consistent(s) && Runs(s, steps)
    ensures Final(s.table, After(s, steps).table, id)
    decreases |steps|
  {
    if steps != [] {
      hide Consistent, Apply;
      StepKeeps(s, steps[0]);
      PhasesFinal(s, steps[0], id);
      RunFinal(Apply(s, steps[0]), steps[1..], id);
    }
  }

  /** The consumer's transitions start from an in-flight row. The one exception is
      repeating a terminal failure that was half applied, which changes nothing
      but the pruning. No other outstanding row is ever touched. */
  lemma TouchesOnlyHeld(s: System, step: Step, id: int)
    requires Consistent(s) && Admissible(s, step) && (step.Confirm? || step.Reject? || step.RejectHalf?)
    requires id in s.table.rows
    ensures var next := Apply(s, step).table;
            && (id != s.held.value.id ==>
                  (id in next.rows && next.rows[id] == s.table.rows[id])
                  || (id !in next.rows && !s.table.rows[id].Outstanding()))
            && (id == s.held.value.id && !s.table.rows[id].phase.InFlight? ==>
                  s.table.rows[id].phase.Failed? && (id in next.rows ==> next.rows[id].phase.Failed?))
  {
    hide OutstandingIds, CompletedIds, Newer;
  }

  // ----- When a row is offered ---------------------------------------------

  lemma BackoffDoubles(attempts: int)
    ensures Backoff(1) == 1 && (1 <= attempts < 5 ==> Backoff(attempts + 1) == 2 * Backoff(attempts))
    ensures 1 <= Backoff(attempts) <= 16
  {
  }

  /** A claimed row is offered again only when its lease has run out, and a row
      that failed before its fifth attempt only when its delay has passed. */
  lemma OfferTimes(s: System, now: int, later: int, time: int)
    requires Consistent(s) && s.held.None? && EligibleIds(s.table, now) != {}
    ensures var taken := Apply(s, Take(now));
            var id := Least(EligibleIds(s.table, now));
            && taken.held == Some(Held(id, s.table.rows[id].attempts + 1))
            && (id in EligibleIds(taken.table, time) <==> time >= now + LEASE_SECONDS)
            && (taken.held.value.attempts < MAX_ATTEMPTS ==>
                  var backoff := Backoff(taken.held.value.attempts);
                  (id in EligibleIds(Apply(taken, Reject(later)).table, time) <==> time >= later + backoff))
            && (taken.held.value.attempts >= MAX_ATTEMPTS ==>
                  id !in EligibleIds(Apply(taken, Reject(later)).table, time))
  {
    hide OutstandingIds, CompletedIds, Newer, Backoff, LivesAgree;
  }

  // ----- Redelivery is not bounded by the attempts -------------------------

  /** One crash during a dispatch: the event is claimed again after the restart. */
  lemma CrashCycle(s: System, id: int)
    requires Consistent(s) && s.held.None? && s.table.rows.Keys == {id}
    requires s.table.rows[id].phase.Pending? && s.table.rows[id].availableAt == 0
    ensures Runs(s, [Take(0), Crash, Restart])
    ensures var t := After(s, [Take(0), Crash, Restart]);
            && t.held.None? && t.table.rows.Keys == {id} && t.table.rows[id].phase.Pending?
            && t.table.rows[id].availableAt == 0 && id in t.lives && id in s.lives
            && t.lives[id].claims == s.lives[id].claims + 1 && t.lives[id].failures == s.lives[id].failures
  {
    assert id in EligibleIds(s.table, 0);
    assert Least(EligibleIds(s.table, 0)) == id;
    var taken := Apply(s, Take(0));
    var crashed := Apply(taken, Crash);
    hide Consistent, OutstandingIds;
    assert taken.table.rows.Keys == {id};
    var steps := [Take(0), Crash, Restart];
    assert steps[1..] == [Crash, Restart] && steps[1..][1..] == [Restart] && steps[1..][1..][1..] == [];
    assert Runs(Apply(crashed, Restart), []);
    assert Runs(crashed, [Restart]);
    assert Runs(taken, [Crash, Restart]);
  }

  lemma {:induction false} RunAppend(s: System, first: seq<Step>, second: seq<Step>)
    requires Runs(s, first) && Runs(After(s, first), second)
    ensures Runs(s, first + second) && After(s, first + second) == After(After(s, first), second)
    decreases |first|
  {
    hide Apply, Admissible;
    if first == [] {
      assert first + second == second;
    } else {
      assert (first + second)[1..] == first[1..] + second && (first + second)[0] == first[0];
      RunAppend(Apply(s, first[0]), first[1..], second);
    }
  }

  /** The one row waits for its next attempt, after this many failed ones. */
  predicate Retried(s: System, id: int, attempts: int, at: int) {
    && s.held.None? && s.table.rows.Keys == {id} && s.table.rows[id].phase.Pending?
    && s.table.rows[id].attempts == attempts && s.table.rows[id].availableAt == at
  }

  lemma SubmitFirst(record: Record)
    ensures Runs(START, [Submit([record])])
    ensures var s := After(START, [Submit([record])]);
            Retried(s, 1, 0, 0) && 1 in s.lives && s.lives[1] == Life(0, 0, 0, 0, false)
  {
    var steps := [Submit([record])];
    assert OutstandingIds(EMPTY) == {};
    AppendAllEffect(EMPTY, [record]);
    var t := AppendAll(EMPTY, [record]);
    assert t.rows.Keys == {1};
    var s := Apply(START, steps[0]);
    assert steps[1..] == [];
    assert Runs(s, steps[1..]) && After(s, steps[1..]) == s;
  }

  predicate Ready(s: System, id: int) {
    s.held.None? && s.table.rows.Keys == {id} && s.table.rows[id].phase.Pending?
    && s.table.rows[id].availableAt == 0 && id in s.lives
  }

  /** Five attempts bound recorded failures, not dispatches: for every number
      there is a run that dispatches one event that often with no failure. */
  lemma {:induction false} CrashesUnbounded(record: Record, n: nat) returns (steps: seq<Step>)
    ensures Runs(START, steps) && Ready(After(START, steps), 1)
    ensures After(START, steps).lives[1].claims == n && After(START, steps).lives[1].failures == 0
  {
    if n == 0 {
      steps := [Submit([record])];
      SubmitFirst(record);
    } else {
      var before := CrashesUnbounded(record, n - 1);
      var s := After(START, before);
      RunKeeps(START, before);
      CrashCycle(s, 1);
      RunAppend(START, before, [Take(0), Crash, Restart]);
      hide Runs, After, Consistent;
      steps := before + [Take(0), Crash, Restart];
    }
  }

  // ----- The half-applied failure ------------------------------------------

  lemma FailCycle(s: System, id: int, attempts: int, at: int)
    requires Retried(s, id, attempts, at) && 0 <= attempts < MAX_ATTEMPTS - 1
    ensures Runs(s, [Take(at), Reject(at)])
    ensures Retried(After(s, [Take(at), Reject(at)]), id, attempts + 1, at + Backoff(attempts + 1))
  {
    assert id in EligibleIds(s.table, at);
    assert Least(EligibleIds(s.table, at)) == id;
    var taken := Apply(s, Take(at));
    assert taken.held == Some(Held(id, attempts + 1));
    var rejected := Apply(taken, Reject(at));
    var steps := [Take(at), Reject(at)];
    hide OutstandingIds, Backoff;
    assert steps[1..] == [Reject(at)] && steps[1..][1..] == [];
    assert Runs(rejected, []) && After(rejected, []) == rejected;
    assert Runs(taken, [Reject(at)]) && After(taken, [Reject(at)]) == rejected by { assert [Reject(at)][1..] == []; }
  }

  lemma {:induction false} FailedAttempts(record: Record, attempts: nat) returns (steps: seq<Step>, at: int)
    requires attempts < MAX_ATTEMPTS
    ensures Runs(START, steps) && Retried(After(START, steps), 1, attempts, at)
  {
    if attempts == 0 {
      steps, at := [Submit([record])], 0;
      SubmitFirst(record);
    } else {
      var before, time := FailedAttempts(record, attempts - 1);
      FailCycle(After(START, before), 1, attempts - 1, time);
      RunAppend(START, before, [Take(time), Reject(time)]);
      hide Runs, After;
      steps, at := before + [Take(time), Reject(time)], time + Backoff(attempts);
    }
  }

  /** Such a run: the fifth attempt fails, its first statement is applied and the
      second is not. The consumer then holds a row that is no longer in flight, and
      repeating the failure completes it. */
  lemma HalfAppliedFailure(record: Record) returns (steps: seq<Step>, at: int)
    ensures Runs(START, steps)
    ensures var s := After(START, steps);
            && s.held == Some(Held(1, MAX_ATTEMPTS)) && 1 in s.table.rows && s.table.rows[1].phase.Failed?
            && Admissible(s, Reject(at)) && Apply(s, Reject(at)).held.None?
            && 1 in s.lives && s.lives[1].dead && Apply(s, Reject(at)).lives == s.lives
  {
    var before, time := FailedAttempts(record, MAX_ATTEMPTS - 1);
    var s := After(START, before);
    RunKeeps(START, before);
    HalfApply(s, 1, time);
    RunAppend(START, before, [Take(time), RejectHalf(time)]);
    hide Runs, After, Consistent;
    steps, at := before + [Take(time), RejectHalf(time)], time;
  }

  lemma HalfApply(s: System, id: int, at: int)
    requires Retried(s, id, MAX_ATTEMPTS - 1, at) && id in s.lives
    ensures Runs(s, [Take(at), RejectHalf(at)])
    ensures var t := After(s, [Take(at), RejectHalf(at)]);
            && t.held == Some(Held(id, MAX_ATTEMPTS)) && id in t.table.rows && t.table.rows[id].phase.Failed?
            && Admissible(t, Reject(at)) && Apply(t, Reject(at)).held.None?
            && id in t.lives && t.lives[id].dead && Apply(t, Reject(at)).lives == t.lives
  {
    assert id in EligibleIds(s.table, at);
    assert Least(EligibleIds(s.table, at)) == id;
    var taken := Apply(s, Take(at));
    var half := Apply(taken, RejectHalf(at));
    hide OutstandingIds, Newer;
    var steps := [Take(at), RejectHalf(at)];
    assert steps[1..] == [RejectHalf(at)] && steps[1..][1..] == [];
    assert Runs(half, []) && After(half, []) == half;
    assert Runs(taken, [RejectHalf(at)]) && After(taken, [RejectHalf(at)]) == half by {
      assert [RejectHalf(at)][1..] == [];
    }
  }

  // ----- Draining ----------------------------------------------------------

  function Weight(t: Table, id: int): int {
    if id in t.rows && t.rows[id].Outstanding() then
      if t.rows[id].attempts < MAX_ATTEMPTS then MAX_ATTEMPTS - t.rows[id].attempts else 1
    else 0
  }

  /** Attempts still to be made, at least one for each outstanding event. */
  ghost function Work(t: Table): int {
    Total(OutstandingIds(t), (id: int) => Weight(t, id))
  }

  /** A claim at one time, then its outcome at a later one. */
  datatype Round = Round(now: int, delivered: bool, later: int)

  function Resolve(s: System, round: Round): System
    requires s.held.None?
  {
    var taken := Apply(s, Take(round.now));
    if taken.held.None? then taken
    else if round.delivered then Apply(taken, Confirm) else Apply(taken, Reject(round.later))
  }

  lemma ResolveRows(s: System, round: Round, id: int)
    requires Consistent(s) && s.held.None? && EligibleIds(s.table, round.now) != {}
    requires id == Least(EligibleIds(s.table, round.now))
    ensures var t, u := s.table, Resolve(s, round).table;
            && OutstandingIds(u) <= OutstandingIds(t) && OutstandingIds(t) - {id} <= OutstandingIds(u)
            && (forall j :: j in OutstandingIds(t) && j != id ==> j in u.rows && u.rows[j] == t.rows[j])
            && id in OutstandingIds(t)
            && (id in OutstandingIds(u) ==> Weight(u, id) == Weight(t, id) - 1)
            && Resolve(s, round).held.None?
  {
    hide CompletedIds, Newer;
  }

  /** Claiming and resolving one event strictly lowers the work left. */
  lemma RoundLowersWork(s: System, round: Round)
    requires Consistent(s) && s.held.None? && EligibleIds(s.table, round.now) != {}
    ensures Consistent(Resolve(s, round)) && Resolve(s, round).held.None?
    ensures Work(Resolve(s, round).table) < Work(s.table)
  {
    var id := Least(EligibleIds(s.table, round.now));
    var t, u := s.table, Resolve(s, round).table;
    ResolveKeeps(s, round);
    ResolveRows(s, round, id);
    hide Consistent, Resolve, EligibleIds;
    WorkDrops(t, u, id);
  }

  lemma WorkDrops(t: Table, u: Table, id: int)
    requires OutstandingIds(u) <= OutstandingIds(t) && OutstandingIds(t) - {id} <= OutstandingIds(u)
    requires forall j :: j in OutstandingIds(t) && j != id ==> j in u.rows && u.rows[j] == t.rows[j]
    requires id in OutstandingIds(t) && (id in OutstandingIds(u) ==> Weight(u, id) == Weight(t, id) - 1)
    ensures Work(u) < Work(t)
  {
    var before, after := OutstandingIds(t), OutstandingIds(u);
    var a, b := (j: int) => Weight(t, j), (j: int) => Weight(u, j);
    forall j: int | j in before - {id} ensures a(j) == b(j) {
      assert u.rows[j] == t.rows[j];
    }
    assert a(id) >= 1;
    TotalDrops(before, after, a, b, id);
  }

  lemma ResolveKeeps(s: System, round: Round)
    requires Consistent(s) && s.held.None?
    ensures Consistent(Resolve(s, round))
  {
    StepKeeps(s, Take(round.now));
    var taken := Apply(s, Take(round.now));
    hide Consistent, Apply;
    if taken.held.Some? {
      StepKeeps(taken, if round.delivered then Confirm else Reject(round.later));
    }
  }

  predicate Drains(s: System, rounds: seq<Round>)
    requires s.held.None?
    decreases |rounds|
  {
    rounds == []
    || (EligibleIds(s.table, rounds[0].now) != {}
        && Resolve(s, rounds[0]).held.None?
        && Drains(Resolve(s, rounds[0]), rounds[1..]))
  }

  /** With no new events, crashes or storage errors, the queue drains: at most
      five rounds for each outstanding event. */
  lemma {:induction false} DrainTerminates(s: System, rounds: seq<Round>)
    requires Consistent(s) && s.held.None? && Drains(s, rounds)
    ensures |rounds| <= Work(s.table) <= MAX_ATTEMPTS * |OutstandingIds(s.table)|
    decreases |rounds|
  {
    WorkBound(s);
    hide Consistent, Resolve, EligibleIds, Work, OutstandingIds;
    if rounds != [] {
      RoundLowersWork(s, rounds[0]);
      DrainTerminates(Resolve(s, rounds[0]), rounds[1..]);
    }
  }

  lemma WorkBound(s: System)
    requires Consistent(s)
    ensures 0 <= Work(s.table) <= MAX_ATTEMPTS * |OutstandingIds(s.table)|
  {
    var t := s.table;
    var w, five := (id: int) => Weight(t, id), (id: int) => MAX_ATTEMPTS;
    forall id | id in OutstandingIds(t) ensures 0 <= w(id) <= five(id) {
      assert RowAgrees(t.rows[id], s.lives[id], Busy(s, id));
    }
    hide Consistent, OutstandingIds;
    TotalBelow(OutstandingIds(t), w, five);
    TotalConstant(OutstandingIds(t), five, MAX_ATTEMPTS);
    TotalNonNegative(OutstandingIds(t), w);
  }

  /** Nothing outstanding is stuck: it becomes eligible at a known time. */
  lemma NothingStuck(s: System, id: int) returns (time: int)
    requires Consistent(s) && id in OutstandingIds(s.table)
    ensures forall now :: time <= now ==> id in EligibleIds(s.table, now)
  {
    var row := s.table.rows[id];
    assert RowAgrees(row, s.lives[id], Busy(s, id));
    time := if row.phase.Pending? then row.availableAt else row.leaseUntil.value;
  }

  function Drained(s: System, rounds: seq<Round>): System
    requires s.held.None? && Drains(s, rounds)
    decreases |rounds|
  {
    if rounds == [] then s else Drained(Resolve(s, rounds[0]), rounds[1..])
  }

  lemma {:induction false} DrainedKeeps(s: System, rounds: seq<Round>)
    requires Consistent(s) && s.held.None? && Drains(s, rounds)
    ensures Consistent(Drained(s, rounds)) && Drained(s, rounds).held.None?
    decreases |rounds|
  {
    hide Consistent, Resolve, EligibleIds;
    if rounds != [] {
      ResolveKeeps(s, rounds[0]);
      DrainedKeeps(Resolve(s, rounds[0]), rounds[1..]);
    }
  }

  /** While anything is outstanding there is a time at which some of it is eligible. */
  lemma EligibleLater(s: System, time: int) returns (now: int)
    requires Consistent(s) && OutstandingIds(s.table) != {}
    ensures time <= now && EligibleIds(s.table, now) != {}
  {
    hide Consistent, EligibleIds, OutstandingIds;
    var id := Least(OutstandingIds(s.table));
    var since := NothingStuck(s, id);
    now := if since > time then since else time;
    assert id in EligibleIds(s.table, now);
  }

  /** Rounds that go on while anything is or becomes eligible end, within five for
      each outstanding event, with nothing outstanding: an exhausted sequence, one
      no later round can extend, has emptied the queue. */
  lemma ExhaustedIsEmpty(s: System, rounds: seq<Round>, time: int)
    requires Consistent(s) && s.held.None? && Drains(s, rounds)
    requires forall now :: time <= now ==> EligibleIds(Drained(s, rounds).table, now) == {}
    ensures OutstandingIds(Drained(s, rounds).table) == {}
    ensures |rounds| <= MAX_ATTEMPTS * |OutstandingIds(s.table)|
  {
    hide Consistent, OutstandingIds, EligibleIds, Drains, Work;
    DrainTerminates(s, rounds);
    DrainedKeeps(s, rounds);
    if OutstandingIds(Drained(s, rounds).table) != {} {
      var _ := EligibleLater(Drained(s, rounds), time);
      assert false;
    }
  }

  /** Whatever the outcomes are, delivered or not, such a sequence exists, with
      later rounds at later times. */
  lemma {:induction false} AnyOutcomesDrain(s: System, outcomes: nat -> bool, made: nat, from: int)
    returns (rounds: seq<Round>)
    requires Consistent(s) && s.held.None?
    ensures Drains(s, rounds) && OutstandingIds(Drained(s, rounds).table) == {}
    ensures forall i :: 0 <= i < |rounds| ==> rounds[i].delivered == outcomes(made + i) && from <= rounds[i].now
    ensures forall i, j :: 0 <= i < j < |rounds| ==> rounds[i].now <= rounds[j].now
    decreases Work(s.table)
  {
    hide Consistent, Resolve, EligibleIds, OutstandingIds, Work;
    rounds := [];
    if OutstandingIds(s.table) != {} {
      var now := EligibleLater(s, from);
      var first := Round(now, outcomes(made), now);
      RoundLowersWork(s, first);
      WorkBound(Resolve(s, first));
      var rest := AnyOutcomesDrain(Resolve(s, first), outcomes, made + 1, now);
      rounds := [first] + rest;
      assert rounds[1..] == rest;
    }
  }
}
