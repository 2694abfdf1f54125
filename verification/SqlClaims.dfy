/** The claim of the SQLite backend (src/pubsub.rs, claim): it looks at a window of
    the available messages, oldest first, where the in-memory claim looks at all of
    them in the order of their ids. */
module SqlClaims {
  import opened Order
  import opened Broker
  import opened BrokerSteps
  import opened BrokerClaims

  /** When each message was published, a column of its row. */
  type Times = string -> int

  predicate Older(at: Times, a: string, b: string) {
    at(a) < at(b) || (at(a) == at(b) && Before(a, b))
  }

  function ByAge(at: Times): (string, string) -> bool {
    (a, b) => Older(at, a, b)
  }

  function Insert(at: Times, id: string, ids: seq<string>): seq<string> {
    if ids == [] || Older(at, id, ids[0]) then [id] + ids else [ids[0]] + Insert(at, id, ids[1..])
  }

  /** The ids ordered by publish time, then by id. */
  function Aged(at: Times, ids: seq<string>): seq<string> {
    if ids == [] then [] else Insert(at, ids[0], Aged(at, ids[1..]))
  }

  /** How many rows the query returns at most. */
  function WindowSize(maxCount: nat): nat {
    if maxCount * 4 < 16 then 16 else if maxCount * 4 > 1_000 then 1_000 else maxCount * 4
  }

  /** The rows the query returns. */
  function Window(s: State, from: string, at: Times, maxCount: nat): seq<string> {
    Slice(Aged(at, Candidates(s, from)), 0, WindowSize(maxCount))
  }

  function SqlTaken(s: State, from: string, at: Times, maxCount: nat, maxBytes: int): seq<string> {
    var window := Window(s, from, at, maxCount);
    Pick(window, SizeOf(s), maxCount, maxBytes, AnyFits(window, SizeOf(s), maxBytes), [], 0)
  }

  /** The transaction: retention, the sweep of lapsed leases, the choice, the leases. */
  function SqlClaimed(s: State, from: string, at: Times, maxCount: nat, maxBytes: int, deadline: int, now: int,
                      acks: Uuids): State
  {
    var ready := Refreshed(s, from, now);
    Leasing(ready, from, SqlTaken(ready, from, at, maxCount, maxBytes), acks, deadline)
  }

  // ----- The order of the rows ---------------------------------------------

  lemma OlderLaws(at: Times, a: string, b: string, c: string)
    ensures !(Older(at, a, b) && Older(at, b, a))
    ensures a != b ==> Older(at, a, b) || Older(at, b, a)
    ensures Older(at, a, b) && Older(at, b, c) ==> Older(at, a, c)
  {
    CompareStringReverse(a, b);
    CompareStringEqual(a, b);
    CompareStringChain(a, b, c);
  }

  lemma {:induction false} InsertAged(at: Times, id: string, ids: seq<string>)
    requires InOrder(ids, ByAge(at)) && id !in ids
    ensures InOrder(Insert(at, id, ids), ByAge(at))
    ensures |Insert(at, id, ids)| == |ids| + 1 && forall x :: x in Insert(at, id, ids) <==> x == id || x in ids
    decreases |ids|
  {
    hide Older;
    if ids != [] {
      var first, rest := ids[0], ids[1..];
      assert forall i :: 0 <= i < |rest| ==> rest[i] == ids[i + 1];
      if Older(at, id, first) {
        forall j | 0 <= j < |ids| ensures ByAge(at)(id, ids[j]) {
          if j > 0 { assert ByAge(at)(ids[0], ids[j]); OlderLaws(at, id, first, ids[j]); }
        }
      } else {
        InsertAged(at, id, rest);
        OlderLaws(at, id, first, first);
        var tail := Insert(at, id, rest);
        forall j | 0 <= j < |tail| ensures ByAge(at)(first, tail[j]) {
          if tail[j] != id {
            assert tail[j] in tail;
            assert tail[j] in rest;
            var i :| 0 <= i < |rest| && rest[i] == tail[j];
            assert ByAge(at)(ids[0], ids[i + 1]);
          }
        }
      }
    }
  }

  lemma {:induction false} AgedExact(at: Times, ids: seq<string>)
    requires Distinct(ids)
    ensures InOrder(Aged(at, ids), ByAge(at))
    ensures |Aged(at, ids)| == |ids| && forall x :: x in Aged(at, ids) <==> x in ids
    decreases |ids|
  {
    if ids != [] {
      var rest := ids[1..];
      assert forall i :: 0 <= i < |rest| ==> rest[i] == ids[i + 1];
      AgedExact(at, rest);
      InsertAged(at, ids[0], Aged(at, rest));
    }
  }

  lemma InOrderDistinct(at: Times, ids: seq<string>)
    requires InOrder(ids, ByAge(at))
    ensures Distinct(ids)
  {
    forall i, j | 0 <= i < j < |ids| ensures ids[i] != ids[j] {
      assert ByAge(at)(ids[i], ids[j]);
      OlderLaws(at, ids[i], ids[j], ids[j]);
    }
  }

  /** The window holds the oldest available messages, in order, as many as it has
      room for; whatever is left out is younger than all of it. */
  lemma WindowExact(s: State, from: string, at: Times, maxCount: nat, id: string)
    ensures var window, all := Window(s, from, at, maxCount), Candidates(s, from);
            && InOrder(window, ByAge(at)) && Distinct(window) && (forall x :: x in window ==> x in all)
            && |window| == (if |all| < WindowSize(maxCount) then |all| else WindowSize(maxCount))
            && (id in all && id !in window ==> forall i :: 0 <= i < |window| ==> Older(at, window[i], id))
  {
    hide Older, Candidates;
    CandidatesDistinct(s, from);
    var aged, window := Aged(at, Candidates(s, from)), Window(s, from, at, maxCount);
    AgedExact(at, Candidates(s, from));
    assert aged[0..] == aged;
    assert forall i :: 0 <= i < |window| ==> window[i] == aged[i];
    forall i, j | 0 <= i < j < |window| ensures ByAge(at)(window[i], window[j]) { assert ByAge(at)(aged[i], aged[j]); }
    InOrderDistinct(at, window);
    if id in Candidates(s, from) && id !in window {
      var k :| 0 <= k < |aged| && aged[k] == id;
      assert k >= |window|;
      forall i | 0 <= i < |window| ensures Older(at, window[i], id) { assert ByAge(at)(aged[i], aged[k]); }
    }
  }

  // ----- What the claim hands out ------------------------------------------

  lemma SqlTakenFlow(s: State, from: string, at: Times, maxCount: nat, maxBytes: int)
    requires forall id :: SizeOf(s)(id) >= 0
    ensures FlowControlled(Window(s, from, at, maxCount), SizeOf(s), maxCount, maxBytes,
                           SqlTaken(s, from, at, maxCount, maxBytes))
    ensures InOrder(SqlTaken(s, from, at, maxCount, maxBytes), ByAge(at))
  {
    hide Window, SizeOf, Pick, FlowControlled, InOrder;
    var window := Window(s, from, at, maxCount);
    PickAllFlow(window, SizeOf(s), maxCount, maxBytes);
    WindowExact(s, from, at, maxCount, "");
    assert [] + window == window;
    PickInOrder(window, SizeOf(s), maxCount, maxBytes, AnyFits(window, SizeOf(s), maxBytes), [], 0, ByAge(at));
  }

  lemma SqlTakenAvailable(s: State, from: string, at: Times, maxCount: nat, maxBytes: int)
    ensures Distinct(SqlTaken(s, from, at, maxCount, maxBytes))
    ensures forall id :: id in SqlTaken(s, from, at, maxCount, maxBytes) ==> id in Candidates(s, from)
  {
    hide Window, SizeOf, Pick, InOrder, Candidates, Distinct;
    var window := Window(s, from, at, maxCount);
    WindowExact(s, from, at, maxCount, "");
    assert [] + window == window;
    PickExtends(window, SizeOf(s), maxCount, maxBytes, AnyFits(window, SizeOf(s), maxBytes), [], 0);
  }

  /** The claim keeps the flow control of the in-memory one within its window, takes
      oldest first, and is never empty while something is available or lapsed. */
  lemma SqlClaimFlow(s: State, from: string, at: Times, maxCount: nat, maxBytes: int, now: int)
    requires Consistent(s)
    ensures var ready := Refreshed(s, from, now);
            var taken := SqlTaken(ready, from, at, maxCount, maxBytes);
            && FlowControlled(Window(ready, from, at, maxCount), SizeOf(ready), maxCount, maxBytes, taken)
            && InOrder(taken, ByAge(at)) && Distinct(taken)
            && (forall id :: id in taken ==> id in Candidates(ready, from))
            && (forall key :: Offered(s, from, now, key) && maxCount > 0 ==> taken != [])
  {
    hide Refreshed, Consistent, Window, SizeOf, FlowControlled, Candidates, Offered, InOrder, SqlTaken, Distinct;
    RefreshedConsistent(s, from, now);
    var ready := Refreshed(s, from, now);
    ConsistentSizes(ready);
    SqlTakenFlow(ready, from, at, maxCount, maxBytes);
    SqlTakenAvailable(ready, from, at, maxCount, maxBytes);
    var window := Window(ready, from, at, maxCount);
    forall key | Offered(s, from, now, key) && maxCount > 0
      ensures SqlTaken(ready, from, at, maxCount, maxBytes) != []
    {
      OfferedIsCandidate(s, from, now, key);
      WindowExact(ready, from, at, maxCount, key.message);
      NeverEmpty(window, SizeOf(ready), maxCount, maxBytes, SqlTaken(ready, from, at, maxCount, maxBytes));
    }
  }

  lemma NeverEmpty(candidates: seq<string>, size: string -> int, maxCount: nat, maxBytes: int, taken: seq<string>)
    requires FlowControlled(candidates, size, maxCount, maxBytes, taken) && candidates != [] && maxCount > 0
    ensures taken != []
  {
  }

  lemma ConsistentSizes(s: State)
    requires Consistent(s)
    ensures forall id :: SizeOf(s)(id) >= 0
  {
    SizesNonNegative(s);
  }

  /** The transaction keeps the broker invariant. */
  lemma SqlClaimKeepsInvariant(s: State, from: string, at: Times, maxCount: nat, maxBytes: int, deadline: int,
                               now: int, acks: Uuids)
    requires Consistent(s) && FreshIds(s, acks)
    ensures Consistent(SqlClaimed(s, from, at, maxCount, maxBytes, deadline, now, acks))
  {
    hide Consistent, Cleaned, Swept, Leasing, SqlTaken;
    RefreshedConsistent(s, from, now);
    RefreshedMinted(s, from, now);
    var ready := Refreshed(s, from, now);
    LeasingConsistent(ready, from, SqlTaken(ready, from, at, maxCount, maxBytes), acks, deadline);
  }

  // ----- Oldest first ------------------------------------------------------

  lemma {:induction false} WeightMonotone(ids: seq<string>, size: string -> int, n: nat)
    requires n <= |ids| && forall id :: size(id) >= 0
    ensures 0 <= Weight(ids[..n], size) <= Weight(ids, size)
    decreases |ids|
  {
    if n < |ids| {
      WeightMonotone(ids[..|ids| - 1], size, n);
      assert ids[..|ids| - 1][..n] == ids[..n];
    } else if n > 0 {
      assert ids[..n] == ids;
      WeightMonotone(ids[..n - 1], size, n - 1);
      assert ids[..n - 1][..n - 1] == ids[..n - 1];
    } else {
      assert ids[..n] == [];
    }
  }

  lemma {:induction false} PickPrefix(all: seq<string>, k: nat, n: nat, size: string -> int, maxCount: nat,
                                      maxBytes: int, anyFits: bool)
    requires forall id :: size(id) >= 0
    requires k <= n <= |all| && n == (if maxCount < |all| then maxCount else |all|)
    requires Weight(all[..n], size) <= maxBytes
    ensures Pick(all[k..], size, maxCount, maxBytes, anyFits, all[..k], Weight(all[..k], size)) == all[..n]
    decreases n - k
  {
    if k < n {
      assert all[k..][0] == all[k] && all[k..][1..] == all[k + 1..];
      assert all[..k + 1] == all[..k] + [all[k]];
      assert all[..k + 1][..k] == all[..k];
      WeightMonotone(all[..n], size, k + 1);
      assert all[..n][..k + 1] == all[..k + 1];
      PickPrefix(all, k + 1, n, size, maxCount, maxBytes, anyFits);
    }
  }

  /** When the oldest messages the claim has room for fit its byte limit together,
      it hands out exactly those, oldest first. */
  lemma OldestFirst(s: State, from: string, at: Times, maxCount: nat, maxBytes: int)
    requires Consistent(s) && maxCount <= 1_000
    requires Weight(Slice(Aged(at, Candidates(s, from)), 0, maxCount), SizeOf(s)) <= maxBytes
    ensures SqlTaken(s, from, at, maxCount, maxBytes) == Slice(Aged(at, Candidates(s, from)), 0, maxCount)
  {
    hide Consistent, SizeOf, Aged, Candidates, Weight, Pick;
    ConsistentSizes(s);
    var all, window := Aged(at, Candidates(s, from)), Window(s, from, at, maxCount);
    assert all[0..] == all;
    var n := if maxCount < |window| then maxCount else |window|;
    assert window[..n] == Slice(all, 0, maxCount);
    WeightEmpty(SizeOf(s));
    assert window[..0] == [] && window[0..] == window;
    PickPrefix(window, 0, n, SizeOf(s), maxCount, maxBytes, AnyFits(window, SizeOf(s), maxBytes));
  }

  // ----- The two backends --------------------------------------------------

  lemma {:induction false} AgedAlready(at: Times, ids: seq<string>)
    requires InOrder(ids, ByAge(at))
    ensures Aged(at, ids) == ids
    decreases |ids|
  {
    if ids != [] {
      var rest := ids[1..];
      assert forall i :: 0 <= i < |rest| ==> rest[i] == ids[i + 1];
      AgedAlready(at, rest);
      if rest != [] { assert ByAge(at)(ids[0], ids[1]); }
    }
  }

  /** Both backends make the same claim when the ids of the available messages are
      in the order of their publish times and the window holds them all. */
  lemma ClaimsAgree(s: State, from: string, at: Times, maxCount: nat, maxBytes: int, deadline: int, now: int,
                    acks: Uuids)
    requires InOrder(Candidates(Refreshed(s, from, now), from), ByAge(at))
    requires |Candidates(Refreshed(s, from, now), from)| <= WindowSize(maxCount)
    ensures SqlClaimed(s, from, at, maxCount, maxBytes, deadline, now, acks)
         == Claimed(s, from, maxCount, maxBytes, deadline, now, acks)
  {
    hide Refreshed, Candidates, Pick, SizeOf, Leasing, WindowSize, InOrder;
    var all := Candidates(Refreshed(s, from, now), from);
    AgedAlready(at, all);
    assert all[0..] == all;
    assert |all| == WindowSize(maxCount) ==> all[..WindowSize(maxCount)] == all;
  }
}
