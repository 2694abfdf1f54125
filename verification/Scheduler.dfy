/** The single consumer of the functions queue (src/functions.rs, run_queue): it
    interleaves durable deliveries with direct events. */
module Scheduler {

  const LOOP_LIMIT: nat := 1000
  const BURST_LIMIT: nat := 32

  datatype Message = Direct(id: int) | Wake

  datatype State = State(burst: nat, busy: nat, queue: seq<Message>, pending: nat)

  /** What one pass of the loop did. */
  datatype Event = Durable | Dispatched(id: int) | Refused(id: int) | Idle

  datatype Pass = Pass(state: State, event: Event)

  function DropWakes(queue: seq<Message>): (left: seq<Message>)
    ensures |left| <= |queue|
    decreases |queue|
  {
    if queue != [] && queue[0].Wake? then DropWakes(queue[1..]) else queue
  }

  /** Takes the message at the head of the queue, if any. */
  function Receive(s: State, queue: seq<Message>): Pass {
    if queue == [] then Pass(s.(burst := 0, queue := []), Idle)
    else
      match queue[0]
      case Wake => Pass(s.(burst := 0, queue := queue[1..]), Idle)
      case Direct(id) =>
        var busy, left := s.busy + 1, if s.pending > 0 then s.pending - 1 else 0;
        Pass(State(0, if left == 0 then 0 else busy, queue[1..], left),
             if busy > LOOP_LIMIT then Refused(id) else Dispatched(id))
  }

  /** A pass: claim a durable row unless throttled, otherwise look at the queue; a
      throttled look skips the wakes in front of the next direct event. */
  function Turn(s: State, limit: nat, claimed: bool): Pass {
    if s.burst < limit then
      if claimed then Pass(s.(burst := s.burst + 1), Durable) else Receive(s, s.queue)
    else Receive(s, DropWakes(s.queue))
  }

  /** Empties the queue up to the next direct event. */
  method SkipWakes(queue: seq<Message>) returns (left: seq<Message>)
    ensures left == DropWakes(queue)
  {
    left := queue;
    while left != [] && left[0].Wake?
      invariant DropWakes(queue) == DropWakes(left)
      decreases |left|
    {
      left := left[1..];
    }
  }

  class Loop {
    var burst: nat
    var busy: nat
    var queue: seq<Message>
    var pending: nat
    const limit: nat

    constructor (limit: nat)
      requires 0 < limit <= BURST_LIMIT
      ensures Value() == State(0, 0, [], 0) && this.limit == limit
    {
      burst, busy, queue, pending := 0, 0, [], 0;
      this.limit := limit;
    }

    function Value(): State
      reads this
    {
      State(burst, busy, queue, pending)
    }

    method Enqueue(message: Message)
      modifies this
      ensures Value() == Sent(old(Value()), message)
    {
      queue := queue + [message];
      if message.Direct? { pending := pending + 1; }
    }

    method RunOnce(claimed: bool) returns (event: Event)
      modifies this
      ensures Pass(Value(), event) == Turn(old(Value()), limit, claimed)
    {
      if burst < limit && claimed {
        burst := burst + 1;
        return Durable;
      }
      if burst >= limit {
        queue := SkipWakes(queue);
      }
      burst := 0;
      if queue == [] { return Idle; }
      var message := queue[0];
      queue := queue[1..];
      match message
      case Wake => event := Idle;
      case Direct(id) =>
        busy := busy + 1;
        event := if busy > LOOP_LIMIT then Refused(id) else Dispatched(id);
        if pending > 0 { pending := pending - 1; }
        if pending == 0 { busy := 0; }
    }
  }

  // ----- Runs --------------------------------------------------------------

  function Sent(s: State, message: Message): State {
    s.(queue := s.queue + [message], pending := if message.Direct? then s.pending + 1 else s.pending)
  }

  /** The loop's passes, with messages arriving between them. */
  datatype Act = Send(message: Message) | Step(claimed: bool)

  function Next(s: State, limit: nat, act: Act): State {
    match act
    case Send(message) => Sent(s, message)
    case Step(claimed) => Turn(s, limit, claimed).state
  }

  function After(s: State, limit: nat, acts: seq<Act>): State
    decreases |acts|
  {
    if acts == [] then s else After(Next(s, limit, acts[0]), limit, acts[1..])
  }

  function Happens(s: State, limit: nat, act: Act): seq<Event> {
    if act.Step? then [Turn(s, limit, act.claimed).event] else []
  }

  function Trace(s: State, limit: nat, acts: seq<Act>): seq<Event>
    decreases |acts|
  {
    if acts == [] then [] else Happens(s, limit, acts[0]) + Trace(Next(s, limit, acts[0]), limit, acts[1..])
  }

  function DurableCount(events: seq<Event>): nat {
    if events == [] then 0 else (if events[0].Durable? then 1 else 0) + DurableCount(events[1..])
  }

  function Directs(queue: seq<Message>): seq<int> {
    if queue == [] then [] else (if queue[0].Direct? then [queue[0].id] else []) + Directs(queue[1..])
  }

  function Taken(events: seq<Event>): seq<int> {
    if events == [] then []
    else (if events[0].Dispatched? || events[0].Refused? then [events[0].id] else []) + Taken(events[1..])
  }

  function Arrivals(acts: seq<Act>): seq<int> {
    if acts == [] then []
    else (if acts[0].Send? then Directs([acts[0].message]) else []) + Arrivals(acts[1..])
  }

  // ----- Fairness ----------------------------------------------------------

  /** The messages a pass takes off the queue. */
  function Consumed(s: State, limit: nat, act: Act): nat {
    match act
    case Send(_) => 0
    case Step(claimed) =>
      if s.burst < limit && claimed then 0
      else if s.burst < limit then (if s.queue == [] then 0 else 1)
      else |s.queue| - |DropWakes(s.queue)| + (if DropWakes(s.queue) == [] then 0 else 1)
  }

  lemma {:induction false} DropWakesSkips(queue: seq<Message>, k: nat)
    requires k < |queue| && queue[k].Direct?
    ensures var left := DropWakes(queue);
            left != [] && |queue| - |left| <= k && left[k - (|queue| - |left|)] == queue[k]
    decreases k
  {
    if queue[0].Wake? { DropWakesSkips(queue[1..], k - 1); }
  }

  /** One act moves a waiting direct event forward or takes it, never past. */
  predicate Advances(s: State, limit: nat, act: Act, k: nat)
    requires k < |s.queue| && s.queue[k].Direct?
  {
    var next, c := Next(s, limit, act), Consumed(s, limit, act);
    && next.burst <= limit && c <= k + 1
    && (c == k + 1 ==> Taken(Happens(s, limit, act)) == [s.queue[k].id])
    && (c <= k ==> k - c < |next.queue| && next.queue[k - c] == s.queue[k])
    && (Happens(s, limit, act) == [Durable] ==> c == 0 && next.burst == s.burst + 1)
    && (Happens(s, limit, act) == [] ==> c == 0 && next.burst == s.burst)
    && (Happens(s, limit, act) != [Durable] && Happens(s, limit, act) != [] ==> c >= 1 && next.burst == 0)
  }

  lemma ActAdvances(s: State, limit: nat, act: Act, k: nat)
    requires k < |s.queue| && s.queue[k].Direct? && s.burst <= limit
    ensures Advances(s, limit, act, k)
  {
    match act
    case Send(message) =>
    case Step(claimed) =>
      if s.burst < limit && !claimed {
        PassAdvances(s, limit, claimed, s.queue, k, k);
      } else if s.burst >= limit {
        DropWakesSkips(s.queue, k);
        DropWakesDirects(s.queue);
        var left := DropWakes(s.queue);
        PassAdvances(s, limit, claimed, left, k, k - (|s.queue| - |left|));
      }
  }

  lemma PassAdvances(s: State, limit: nat, claimed: bool, queue: seq<Message>, k: nat, j: nat)
    requires k < |s.queue| && s.queue[k].Direct?
    requires queue == if s.burst < limit then s.queue else DropWakes(s.queue)
    requires j < |queue| && queue[j] == s.queue[k] && j == k - (|s.queue| - |queue|)
    requires s.burst < limit ==> !claimed
    requires s.burst >= limit ==> queue[0].Direct?
    ensures Advances(s, limit, Step(claimed), k)
  {
    hide DropWakes, Directs;
    var pass := Turn(s, limit, claimed);
    assert [pass.event][1..] == [];
    ReceiveAdvances(s, queue, j);
    hide Receive;
    assert pass == Receive(s, queue);
    assert Happens(s, limit, Step(claimed)) == [pass.event] && [pass.event][0] == pass.event;
    assert [pass.event] != [Durable] by { assert [Durable][0] == Durable; }
    var next := Next(s, limit, Step(claimed));
    assert next.burst == 0 && next.queue == queue[1..];
    assert j == 0 ==> Taken([pass.event]) == [s.queue[k].id];
    assert j > 0 ==> next.queue[j - 1] == s.queue[k];
    assert Consumed(s, limit, Step(claimed)) == |s.queue| - |queue| + 1;
  }

  lemma ReceiveAdvances(s: State, queue: seq<Message>, k: nat)
    requires k < |queue| && queue[k].Direct?
    ensures var pass := Receive(s, queue);
            && pass.state.burst == 0 && !pass.event.Durable? && pass.state.queue == queue[1..]
            && (k == 0 ==> (pass.event.Dispatched? || pass.event.Refused?) && pass.event.id == queue[0].id)
            && (k > 0 ==> pass.state.queue[k - 1] == queue[k])
  {
  }

  /** The event at position k has not been taken by the end of the acts. */
  predicate Waiting(s: State, limit: nat, acts: seq<Act>, k: int)
    decreases |acts|
  {
    0 <= k && (acts == [] || Waiting(Next(s, limit, acts[0]), limit, acts[1..], k - Consumed(s, limit, acts[0])))
  }

  /** While a direct event with k messages ahead of it waits, at most k + 1 bursts
      of durable deliveries go first. */
  lemma {:induction false} DirectWaitsBounded(s: State, limit: nat, acts: seq<Act>, k: nat)
    requires k < |s.queue| && s.queue[k].Direct? && s.burst <= limit
    requires Waiting(s, limit, acts, k)
    ensures DurableCount(Trace(s, limit, acts)) <= k * limit + (limit - s.burst) <= (k + 1) * limit
    decreases |acts|
  {
    Bound(k, limit, s.burst);
    if acts != [] {
      ActAdvances(s, limit, acts[0], k);
      assert acts[0].Step? <==> Happens(s, limit, acts[0]) != [];
      var next, c := Next(s, limit, acts[0]), Consumed(s, limit, acts[0]);
      var rest := Trace(next, limit, acts[1..]);
      assert Waiting(next, limit, acts[1..], k - c);
      hide Next, Consumed, Trace;
      DirectWaitsBounded(next, limit, acts[1..], k - c);
      assert Trace(s, limit, acts) == Happens(s, limit, acts[0]) + rest by { TraceStep(s, limit, acts); }
      CountStep(s, limit, acts[0], rest);
      if c >= 1 { Earlier(k, c, limit); }
    }
  }

  function Passes(acts: seq<Act>): nat {
    if acts == [] then 0 else (if acts[0].Step? then 1 else 0) + Passes(acts[1..])
  }

  /** While it waits, each other pass of the loop takes at least one of the k
      messages ahead of it. */
  lemma {:induction false} PassesBounded(s: State, limit: nat, acts: seq<Act>, k: nat)
    requires k < |s.queue| && s.queue[k].Direct? && s.burst <= limit
    requires Waiting(s, limit, acts, k)
    ensures Passes(acts) <= k * limit + (limit - s.burst) + k
    decreases |acts|
  {
    Bound(k, limit, s.burst);
    if acts != [] {
      ActAdvances(s, limit, acts[0], k);
      assert acts[0].Step? <==> Happens(s, limit, acts[0]) != [];
      var next, c := Next(s, limit, acts[0]), Consumed(s, limit, acts[0]);
      assert Waiting(next, limit, acts[1..], k - c);
      hide Next, Consumed;
      PassesBounded(next, limit, acts[1..], k - c);
      if c >= 1 { Earlier(k, c, limit); }
    }
  }

  /** A waiting direct event is taken after at most that many passes: a run with one
      more has a pass that dispatches or refuses it. */
  lemma {:induction false} DirectTaken(s: State, limit: nat, acts: seq<Act>, k: nat) returns (n: nat)
    requires k < |s.queue| && s.queue[k].Direct? && s.burst <= limit
    requires Passes(acts) > k * limit + (limit - s.burst) + k
    ensures n < |acts| && Passes(acts[..n]) <= k * limit + (limit - s.burst) + k
    ensures Taken(Happens(After(s, limit, acts[..n]), limit, acts[n])) == [s.queue[k].id]
    decreases |acts|
  {
    Bound(k, limit, s.burst);
    ActAdvances(s, limit, acts[0], k);
    assert acts[0].Step? <==> Happens(s, limit, acts[0]) != [];
    var next, c := Next(s, limit, acts[0]), Consumed(s, limit, acts[0]);
    hide Next, Consumed, Happens, Taken;
    if c == k + 1 {
      n := 0;
    } else {
      if c >= 1 { Earlier(k, c, limit); }
      var m := DirectTaken(next, limit, acts[1..], k - c);
      n := m + 1;
      assert acts[..n][1..] == acts[1..][..m];
    }
  }

  lemma TraceStep(s: State, limit: nat, acts: seq<Act>)
    requires acts != []
    ensures Trace(s, limit, acts) == Happens(s, limit, acts[0]) + Trace(Next(s, limit, acts[0]), limit, acts[1..])
  {
  }

  lemma CountStep(s: State, limit: nat, act: Act, rest: seq<Event>)
    ensures DurableCount(Happens(s, limit, act) + rest)
         == (if Happens(s, limit, act) == [Durable] then 1 else 0) + DurableCount(rest)
  {
    var events := Happens(s, limit, act) + rest;
    if act.Step? { assert events[1..] == rest; } else { assert events == rest; }
  }

  lemma Bound(k: nat, limit: nat, burst: nat)
    requires burst <= limit
    ensures k * limit + (limit - burst) <= (k + 1) * limit
    ensures k * limit >= 0
  {
  }

  lemma Earlier(k: nat, c: nat, limit: nat)
    requires 1 <= c <= k
    ensures (k - c) * limit + limit <= k * limit
  {
    assert (k - c + 1) * limit == (k - c) * limit + limit;
    Monotone(k - c + 1, k, limit);
  }

  lemma {:induction false} Monotone(a: nat, b: nat, limit: nat)
    requires a <= b
    ensures a * limit <= b * limit
    decreases b - a
  {
    if a < b { Monotone(a, b - 1, limit); }
  }

  /** Direct events leave in the order they came, and none is lost or repeated. */
  lemma {:induction false} DirectsFifo(s: State, limit: nat, acts: seq<Act>)
    ensures Taken(Trace(s, limit, acts)) + Directs(After(s, limit, acts).queue) == Directs(s.queue) + Arrivals(acts)
    decreases |acts|
  {
    if acts == [] {
      assert [] + Directs(s.queue) == Directs(s.queue) + [];
    } else {
      var next := Next(s, limit, acts[0]);
      var here, rest := Happens(s, limit, acts[0]), Trace(next, limit, acts[1..]);
      DirectsFifo(next, limit, acts[1..]);
      ActDirects(s, limit, acts[0]);
      TakenAppend(here, rest);
      TraceStep(s, limit, acts);
      ghost var first := if acts[0].Send? then Directs([acts[0].message]) else [];
      assert Arrivals(acts) == first + Arrivals(acts[1..]);
      hide Next, Happens, Trace, Taken, Directs, Arrivals;
      Regroup(Taken(here), Taken(rest), Directs(After(next, limit, acts[1..]).queue), Directs(next.queue),
              Directs(s.queue), first, Arrivals(acts[1..]));
    }
  }

  lemma Regroup(a: seq<int>, b: seq<int>, c: seq<int>, d: seq<int>, e: seq<int>, f: seq<int>, g: seq<int>)
    requires b + c == d + g && a + d == e + f
    ensures (a + b) + c == e + (f + g)
  {
    assert (a + b) + c == a + (b + c) == a + (d + g) == (a + d) + g == (e + f) + g == e + (f + g);
  }

  lemma {:induction false} TakenAppend(a: seq<Event>, b: seq<Event>)
    ensures Taken(a + b) == Taken(a) + Taken(b)
    decreases |a|
  {
    if a == [] {
      assert a + b == b && Taken(a) == [];
    } else {
      TakenAppend(a[1..], b);
      assert (a + b)[1..] == a[1..] + b && (a + b)[0] == a[0];
      var here := if a[0].Dispatched? || a[0].Refused? then [a[0].id] else [];
      assert Taken(a + b) == here + Taken(a[1..] + b);
      assert here + (Taken(a[1..]) + Taken(b)) == (here + Taken(a[1..])) + Taken(b);
    }
  }

  lemma {:induction false} DirectsAppend(a: seq<Message>, b: seq<Message>)
    ensures Directs(a + b) == Directs(a) + Directs(b)
  {
    if a == [] {
      assert a + b == b && Directs(a) == [];
    } else {
      assert (a + b)[1..] == a[1..] + b && (a + b)[0] == a[0];
      DirectsAppend(a[1..], b);
      var here := if a[0].Direct? then [a[0].id] else [];
      assert Directs(a + b) == here + Directs(a[1..] + b);
      assert here + (Directs(a[1..]) + Directs(b)) == (here + Directs(a[1..])) + Directs(b);
    }
  }

  lemma {:induction false} DropWakesDirects(queue: seq<Message>)
    ensures Directs(DropWakes(queue)) == Directs(queue)
    ensures var left := DropWakes(queue); left == [] || left[0].Direct?
  {
    if queue != [] && queue[0].Wake? { DropWakesDirects(queue[1..]); }
  }

  lemma ActDirects(s: State, limit: nat, act: Act)
    ensures Taken(Happens(s, limit, act)) + Directs(Next(s, limit, act).queue)
         == Directs(s.queue) + if act.Send? then Directs([act.message]) else []
  {
    match act
    case Send(message) => DirectsAppend(s.queue, [message]);
    case Step(claimed) =>
      DropWakesDirects(s.queue);
      var event := Turn(s, limit, claimed).event;
      assert [event][1..] == [];
      assert Directs(s.queue) + [] == Directs(s.queue);
  }

  // ----- The loop limit ----------------------------------------------------

  /** The pending counter is the direct events still queued. */
  predicate Counted(s: State) {
    s.pending == |Directs(s.queue)|
  }

  lemma ActCounted(s: State, limit: nat, act: Act)
    requires Counted(s)
    ensures Counted(Next(s, limit, act))
  {
    ActDirects(s, limit, act);
    if act.Step? {
      DropWakesDirects(s.queue);
      assert [Turn(s, limit, act.claimed).event][1..] == [];
    }
  }

  /** Direct events stay queued after every pass: the queue is never idle. */
  predicate NeverIdle(s: State, limit: nat, acts: seq<Act>)
    decreases |acts|
  {
    acts != [] ==>
      var next := Next(s, limit, acts[0]);
      Directs(next.queue) != [] && NeverIdle(next, limit, acts[1..])
  }

  function Outcomes(events: seq<Event>): seq<bool> {
    if events == [] then []
    else (if events[0].Dispatched? then [true] else if events[0].Refused? then [false] else []) + Outcomes(events[1..])
  }

  /** In a stretch with no idle queue the first thousand direct events are
      dispatched, and exactly the later ones are refused. */
  lemma {:induction false} RefusedExactly(s: State, limit: nat, acts: seq<Act>)
    requires Counted(s) && NeverIdle(s, limit, acts)
    ensures var outcomes := Outcomes(Trace(s, limit, acts));
            && After(s, limit, acts).busy == s.busy + |outcomes|
            && forall i :: 0 <= i < |outcomes| ==> (outcomes[i] <==> s.busy + i < LOOP_LIMIT)
    decreases |acts|
  {
    if acts != [] {
      var next := Next(s, limit, acts[0]);
      ActCounted(s, limit, acts[0]);
      RefusedExactly(next, limit, acts[1..]);
      var here, rest := Happens(s, limit, acts[0]), Trace(next, limit, acts[1..]);
      TraceStep(s, limit, acts);
      if acts[0].Step? {
        assert ([here[0]] + rest)[1..] == rest;
        assert Outcomes(here + rest) == Outcomes([here[0]]) + Outcomes(rest) by { assert [here[0]][1..] == []; }
        ActOutcome(s, limit, acts[0].claimed);
      } else {
        assert here + rest == rest;
      }
    }
  }

  lemma ActOutcome(s: State, limit: nat, claimed: bool)
    requires Counted(s) && Directs(Turn(s, limit, claimed).state.queue) != []
    ensures var pass := Turn(s, limit, claimed);
            && (pass.event.Dispatched? ==> s.busy < LOOP_LIMIT && pass.state.busy == s.busy + 1)
            && (pass.event.Refused? ==> s.busy >= LOOP_LIMIT && pass.state.busy == s.busy + 1)
            && (!pass.event.Dispatched? && !pass.event.Refused? ==> pass.state.busy == s.busy)
  {
    ActCounted(s, limit, Step(claimed));
  }
}
