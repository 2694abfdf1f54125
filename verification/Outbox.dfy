/** The durable outbox: the statements of src/persistence.rs (insert_outbox) and
    src/functions.rs (recover, claim, acknowledge and fail), and the life of an
    event over every run of them with crashes and failed transitions. */
module Outbox {
  import opened Wrappers
  import opened Events

  const OUTBOX_LIMIT: int := 4096
  const HISTORY_LIMIT: int := 1000
  const LEASE_SECONDS: int := 5
  const MAX_ATTEMPTS: int := 5

  datatype Phase = Pending | InFlight | Delivered | Failed

  datatype Row = Row(record: Record, phase: Phase, attempts: int, availableAt: int, leaseUntil: Option<int>) {
    predicate Outstanding() { phase.Pending? || phase.InFlight? }
  }

  /** The event table, the row-id sequence, and the event_completed counter. */
  datatype Table = Table(rows: map<int, Row>, lastId: int, completed: int)

  const EMPTY := Table(map[], 0, 0)

  function OutstandingIds(t: Table): set<int> {
    set id | id in t.rows && t.rows[id].Outstanding()
  }

  // ----- The statements ----------------------------------------------------

  function Append(t: Table, record: Record): Table {
    t.(rows := t.rows[t.lastId + 1 := Row(record, Pending, 0, 0, None)], lastId := t.lastId + 1)
  }

  function AppendAll(t: Table, records: seq<Record>): Table
    decreases |records|
  {
    if records == [] then t else AppendAll(Append(t, records[0]), records[1..])
  }

  function Insert(t: Table, records: seq<Record>): Result<Table, Status> {
    if |OutstandingIds(t)| + |records| > OUTBOX_LIMIT then Failure(Unavailable) else Success(AppendAll(t, records))
  }

  function Recover(t: Table): Table {
    t.(rows := map id | id in t.rows ::
         if t.rows[id].phase.InFlight? then t.rows[id].(phase := Pending, leaseUntil := None) else t.rows[id])
  }

  predicate Eligible(row: Row, now: int) {
    || (row.phase.Pending? && row.availableAt <= now)
    || (row.phase.InFlight? && row.leaseUntil.Some? && row.leaseUntil.value <= now)
  }

  predicate IsLeast(m: int, ids: set<int>) {
    m in ids && forall j :: j in ids ==> m <= j
  }

  lemma {:induction false} LeastExists(ids: set<int>)
    requires ids != {}
    ensures exists m :: IsLeast(m, ids)
    decreases |ids|
  {
    assert exists x :: x in ids by {
      assert (forall x :: x !in ids) ==> ids == {};
    }
    var x :| x in ids;
    var rest := ids - {x};
    assert forall j :: j in ids <==> j == x || j in rest;
    if rest == {} {
      assert IsLeast(x, ids);
    } else {
      LeastExists(rest);
      var m :| IsLeast(m, rest);
      assert IsLeast(if x < m then x else m, ids);
    }
  }

  function Least(ids: set<int>): (m: int)
    requires ids != {}
    ensures IsLeast(m, ids)
  {
    LeastExists(ids);
    var m :| IsLeast(m, ids);
    m
  }

  function EligibleIds(t: Table, now: int): set<int> {
    set id | id in t.rows && Eligible(t.rows[id], now)
  }

  /** The row the consumer is working on, with the attempts it was claimed at. */
  datatype Held = Held(id: int, attempts: int)

  function Claim(t: Table, now: int): (Table, Option<Held>) {
    if EligibleIds(t, now) == {} then (t, None)
    else
      var id := Least(EligibleIds(t, now));
      var row := t.rows[id];
      (t.(rows := t.rows[id := row.(phase := InFlight, attempts := row.attempts + 1,
                                    leaseUntil := Some(now + LEASE_SECONDS))]),
       Some(Held(id, row.attempts + 1)))
  }

  function Newer(t: Table, phase: Phase, id: int): set<int> {
    set j | j in t.rows && t.rows[j].phase == phase && j > id
  }

  /** Keeps the newest rows of one final phase and every row of the others. */
  function Prune(t: Table, phase: Phase): Table {
    t.(rows := map id |
                 id in t.rows && (t.rows[id].phase != phase || |Newer(t, phase, id)| < HISTORY_LIMIT) :: t.rows[id])
  }

  function MarkDelivered(t: Table, id: int): Table
    requires id in t.rows
  {
    t.(rows := t.rows[id := t.rows[id].(phase := Delivered, leaseUntil := None)], completed := t.completed + 1)
  }

  function Acknowledge(t: Table, id: int): Result<Table, Status> {
    if id in t.rows && t.rows[id].phase.InFlight? then Success(Prune(MarkDelivered(t, id), Delivered))
    else Failure(Internal)
  }

  /** Seconds until the next attempt: one, doubling, at most sixteen. */
  function Backoff(attempts: int): int {
    if attempts <= 1 then 1
    else if attempts == 2 then 2
    else if attempts == 3 then 4
    else if attempts == 4 then 8
    else 16
  }

  /** The first statement of a failed delivery; the row's phase is not checked. */
  function MarkFailed(t: Table, held: Held, now: int): Table {
    if held.id !in t.rows then t
    else if held.attempts >= MAX_ATTEMPTS then
      t.(rows := t.rows[held.id := t.rows[held.id].(phase := Failed, leaseUntil := None)])
    else
      t.(rows := t.rows[held.id := t.rows[held.id].(phase := Pending, leaseUntil := None,
                                                    availableAt := now + Backoff(held.attempts))])
  }

  function Fail(t: Table, held: Held, now: int): Table {
    if held.attempts >= MAX_ATTEMPTS then Prune(MarkFailed(t, held, now), Failed) else MarkFailed(t, held, now)
  }

  // ----- The outbox in place -----------------------------------------------

  class EventOutbox {
    var table: Table
    const enabled: bool

    constructor (enabled: bool)
      ensures table == EMPTY && this.enabled == enabled
    {
      table := EMPTY;
      this.enabled := enabled;
    }

    /** Inserts every record or none, and returns the ids it gave them. */
    method InsertOutbox(records: seq<Record>) returns (r: Result<seq<int>, Status>)
      modifies this
      ensures !enabled ==> r == Success([]) && table == old(table)
      ensures enabled ==> (r.Success? <==> Insert(old(table), records).Success?)
      ensures enabled && r.Success? ==> table == Insert(old(table), records).value
      ensures enabled && r.Success? ==>
                |r.value| == |records| && forall i :: 0 <= i < |records| ==> r.value[i] == old(table).lastId + 1 + i
      ensures r.Failure? ==> r.error == Unavailable && table == old(table)
    {
      if !enabled { return Success([]); }
      if |OutstandingIds(table)| + |records| > OUTBOX_LIMIT { return Failure(Unavailable); }
      var t, ids := table, [];
      for i := 0 to |records|
        invariant AppendAll(table, records) == AppendAll(t, records[i..])
        invariant t.lastId == table.lastId + i
        invariant |ids| == i && forall k :: 0 <= k < i ==> ids[k] == table.lastId + 1 + k
      {
        assert records[i..][1..] == records[i + 1..];
        t := Append(t, records[i]);
        ids := ids + [t.lastId];
      }
      table := t;
      r := Success(ids);
    }
  }

  // ----- Runs --------------------------------------------------------------

  /** What has happened to one event: claims, recorded failures, claims that
      ended without a recorded outcome, increments of the counter. */
  datatype Life = Life(claims: int, failures: int, lost: int, completions: int, dead: bool)

  datatype System = System(table: Table, held: Option<Held>, lives: map<int, Life>)

  const START := System(EMPTY, None, map[])

  /** Every step but the first belongs to the one consumer or to a restart. A
      transition that reports an error has changed nothing, except that the
      first statement of a terminal failure may already have been applied. */
  datatype Step =
    | Submit(records: seq<Record>)
    | Crash
    | Restart
    | Take(now: int)
    | Confirm
    | Reject(now: int)
    | RejectHalf(now: int)
    | TransitionError
    | GiveUp

  predicate Working(s: System) {
    s.held.Some? && s.held.value.id in s.table.rows && s.table.rows[s.held.value.id].phase.InFlight?
    && s.held.value.id in s.lives
  }

  predicate Admissible(s: System, step: Step) {
    match step
    case Submit(_) => true
    case Crash => true
    case Restart => s.held.None?
    case Take(_) => s.held.None?
    case RejectHalf(_) => s.held.Some? && s.held.value.attempts >= MAX_ATTEMPTS
    case _ => s.held.Some?
  }

  function Lost(s: System): map<int, Life> {
    if Working(s) then
      var id := s.held.value.id;
      s.lives[id := s.lives[id].(lost := s.lives[id].lost + 1)]
    else s.lives
  }

  function Rejected(s: System): map<int, Life> {
    if Working(s) then
      var id := s.held.value.id;
      s.lives[id := s.lives[id].(failures := s.lives[id].failures + 1, dead := s.held.value.attempts >= MAX_ATTEMPTS)]
    else s.lives
  }

  function Born(lives: map<int, Life>, t: Table): map<int, Life> {
    map id | id in lives.Keys + t.rows.Keys :: if id in lives then lives[id] else Life(0, 0, 0, 0, false)
  }

  function Apply(s: System, step: Step): System
    requires Admissible(s, step)
  {
    match step
    case Submit(records) =>
      (match Insert(s.table, records)
       case Success(t) => s.(table := t, lives := Born(s.lives, t))
       case Failure(_) => s)
    case Crash => System(s.table, None, Lost(s))
    case Restart => s.(table := Recover(s.table))
    case Take(now) =>
      var (t, held) := Claim(s.table, now);
      if held.None? || held.value.id !in s.lives then System(t, held, s.lives)
      else
        var id := held.value.id;
        System(t, held, s.lives[id := s.lives[id].(claims := s.lives[id].claims + 1)])
    case Confirm =>
      (match Acknowledge(s.table, s.held.value.id)
       case Success(t) =>
         var id := s.held.value.id;
         if id !in s.lives then System(t, None, s.lives)
         else System(t, None, s.lives[id := s.lives[id].(completions := s.lives[id].completions + 1)])
       case Failure(_) => s)
    case Reject(now) => System(Fail(s.table, s.held.value, now), None, Rejected(s))
    case RejectHalf(now) => System(MarkFailed(s.table, s.held.value, now), s.held, Rejected(s))
    case TransitionError => s
    case GiveUp => System(s.table, None, Lost(s))
  }

  // ----- The invariant -----------------------------------------------------

  predicate Ended(life: Life) {
    && 0 <= life.completions <= 1 && 0 <= life.failures <= 5 - life.completions && 0 <= life.lost
    && (life.completions == 1 || life.dead)
    && life.claims == life.failures + life.lost + life.completions
  }

  /** The row of an event agrees with its life; busy says the consumer holds it. */
  predicate RowAgrees(row: Row, life: Life, busy: bool) {
    && life.claims == row.attempts && 0 <= life.lost && 0 <= life.failures
    && life.claims == life.failures + life.lost + life.completions + (if busy && row.phase.InFlight? then 1 else 0)
    && match row.phase
       case Pending => life.completions == 0 && life.failures <= 4 && !life.dead && !busy
       case InFlight => life.completions == 0 && life.failures <= 4 && !life.dead && row.leaseUntil.Some?
       case Delivered => life.completions == 1 && life.failures <= 4 && !life.dead && !busy
       case Failed => life.completions == 0 && life.failures <= 5 && life.dead
  }

  predicate Busy(s: System, id: int) {
    s.held.Some? && s.held.value.id == id
  }

  ghost predicate LivesAgree(s: System) {
    && 0 <= s.table.lastId
    && (forall id :: id in s.lives <==> 0 < id <= s.table.lastId)
    && (forall id :: id in s.table.rows ==> id in s.lives && RowAgrees(s.table.rows[id], s.lives[id], Busy(s, id)))
    && (forall id :: id in s.lives && id !in s.table.rows ==> Ended(s.lives[id]))
  }

  predicate HeldAgrees(s: System) {
    s.held.Some? ==>
      && s.held.value.id in s.table.rows
      && var row := s.table.rows[s.held.value.id];
         && row.attempts == s.held.value.attempts
         && (row.phase.InFlight? || (row.phase.Failed? && row.attempts >= MAX_ATTEMPTS))
  }

  function CompletedIds(lives: map<int, Life>): set<int> {
    set id | id in lives && lives[id].completions == 1
  }

  ghost predicate Consistent(s: System) {
    && LivesAgree(s)
    && HeldAgrees(s)
    && |OutstandingIds(s.table)| <= OUTBOX_LIMIT
    && s.table.completed == |CompletedIds(s.lives)|
  }

  lemma {:induction false} AppendAllEffect(t: Table, records: seq<Record>)
    requires forall id :: id in t.rows ==> id <= t.lastId
    ensures var u := AppendAll(t, records);
            && u.lastId == t.lastId + |records| && u.completed == t.completed
            && (forall id :: id in u.rows <==> id in t.rows || t.lastId < id <= u.lastId)
            && (forall id :: id in t.rows ==> u.rows[id] == t.rows[id])
            && (forall id :: t.lastId < id <= u.lastId ==>
                  u.rows[id] == Row(records[id - t.lastId - 1], Pending, 0, 0, None))
    decreases |records|
  {
    if records != [] {
      var next, rest := Append(t, records[0]), records[1..];
      AppendAllEffect(next, rest);
    }
  }
}
