/** Paged listings of Pub/Sub resources (src/pubsub.rs, page_bounds and paginate).
    A token stands for the name it encodes; the empty token starts a listing. */
module Paging {
  import opened Wrappers
  import opened Order
  import opened Sums

  const MAX_PAGE_SIZE: int := 1000
  const DEFAULT_PAGE_SIZE: int := 100

  datatype Page = Page(names: seq<string>, next: string)

  function SizeOf(pageSize: int): Result<nat, Status> {
    if pageSize < 0 then Failure(InvalidArgument)
    else if pageSize == 0 then Success(DEFAULT_PAGE_SIZE)
    else Success(if pageSize < MAX_PAGE_SIZE then pageSize else MAX_PAGE_SIZE)
  }

  predicate Follows(token: string, name: string) {
    token == "" || Before(token, name)
  }

  /** The names still to come after a token, in order. */
  function Remaining(names: set<string>, token: string): seq<string> {
    SortedKeys(set n | n in names && Follows(token, n))
  }

  function PageOf(names: set<string>, size: nat, token: string): Page
    requires size > 0
  {
    var rest := Remaining(names, token);
    if |rest| > size then Page(rest[..size], rest[size - 1]) else Page(rest, "")
  }

  /** The retain step: what follows the token, still in order. */
  method KeepAfter(values: seq<string>, token: string) returns (kept: seq<string>)
    requires Ascending(values)
    ensures Ascending(kept) && forall x :: x in kept <==> x in values && Follows(token, x)
  {
    hide Follows;
    kept := [];
    for i := 0 to |values|
      invariant Ascending(kept) && forall x :: x in kept <==> x in values[..i] && Follows(token, x)
    {
      if Follows(token, values[i]) {
        forall j | 0 <= j < |kept| ensures Before(kept[j], values[i]) {
          assert kept[j] in values[..i];
          var k :| 0 <= k < i && values[k] == kept[j];
        }
        kept := kept + [values[i]];
      }
    }
    assert values[..|values|] == values;
  }

  method Paginate(names: set<string>, pageSize: int, token: string) returns (r: Result<Page, Status>)
    ensures r.Failure? <==> pageSize < 0
    ensures r.Failure? ==> r.error == InvalidArgument
    ensures r.Success? ==>
              && SizeOf(pageSize).Success? && SizeOf(pageSize).value > 0
              && r.value == PageOf(names, SizeOf(pageSize).value, token)
  {
    hide SortedKeys, Remaining, Ascending, Follows;
    var values := SortedKeys(names);
    var size := SizeOf(pageSize);
    if size.Failure? { return Failure(InvalidArgument); }
    var kept := KeepAfter(values, token);
    KeptIsRemaining(names, token, kept);
    var more := |kept| > size.value;
    var page := if more then kept[..size.value] else kept;
    r := Success(Page(page, if more then page[|page| - 1] else ""));
  }

  lemma KeptIsRemaining(names: set<string>, token: string, kept: seq<string>)
    requires Ascending(kept) && forall x :: x in kept <==> x in SortedKeys(names) && Follows(token, x)
    ensures kept == Remaining(names, token)
  {
    AscendingUnique(kept, Remaining(names, token));
  }

  // ----- Following tokens --------------------------------------------------

  /** One listing: the names there at each request, and the size it asked for. */
  datatype Request = Request(names: set<string>, size: nat)

  predicate Sound(requests: seq<Request>) {
    forall i :: 0 <= i < |requests| ==> requests[i].size > 0 && "" !in requests[i].names
  }

  function Crawl(requests: seq<Request>, token: string): seq<string>
    requires Sound(requests)
    decreases |requests|
  {
    if requests == [] then []
    else
      var page := PageOf(requests[0].names, requests[0].size, token);
      page.names + if page.next == "" then [] else Crawl(requests[1..], page.next)
  }

  /** The crawl reached a page with no next token. */
  predicate Finished(requests: seq<Request>, token: string)
    requires Sound(requests)
    decreases |requests|
  {
    requests != []
    && var page := PageOf(requests[0].names, requests[0].size, token);
       page.next == "" || Finished(requests[1..], page.next)
  }

  lemma PageFacts(names: set<string>, size: nat, token: string)
    requires size > 0 && "" !in names
    ensures var page := PageOf(names, size, token);
            && Ascending(page.names)
            && (forall x :: x in page.names ==> x in names && Follows(token, x))
            && (page.next != "" ==>
                  && (forall x :: x in page.names ==> x == page.next || Before(x, page.next))
                  && Follows(token, page.next))
            && (forall n :: n in names && Follows(token, n) ==>
                  n in page.names || (page.next != "" && Before(page.next, n)))
            && |page.names| <= size
  {
    var rest := Remaining(names, token);
    hide SortedKeys;
    if |rest| > size {
      assert rest[size - 1] in rest;
      forall x | x in rest[..size] ensures x in rest {}
      forall n | n in names && Follows(token, n) ensures n in rest[..size] || Before(rest[size - 1], n) {
        assert n in rest;
        var i :| 0 <= i < |rest| && rest[i] == n;
        if i < size { assert rest[..size][i] == n; }
      }
    }
  }

  /** Whatever comes and goes between requests, a crawl returns names in strictly
      ascending order, so none twice, and every name present at each request once. */
  lemma {:induction false} CrawlExact(requests: seq<Request>, token: string)
    requires Sound(requests)
    ensures Ascending(Crawl(requests, token))
    ensures forall x :: x in Crawl(requests, token) ==> Follows(token, x)
    ensures Finished(requests, token) ==>
              forall n :: Follows(token, n) && (forall i :: 0 <= i < |requests| ==> n in requests[i].names) ==>
                n in Crawl(requests, token)
    decreases |requests|
  {
    if requests != [] {
      var first, rest := requests[0], requests[1..];
      assert forall i :: 0 <= i < |rest| ==> rest[i] == requests[i + 1];
      PageFacts(first.names, first.size, token);
      var page := PageOf(first.names, first.size, token);
      hide PageOf;
      if page.next != "" {
        CrawlExact(rest, page.next);
        var tail := Crawl(rest, page.next);
        forall x, y | x in page.names && y in tail ensures Before(x, y) {
          CompareStringChain(x, page.next, y);
        }
        forall y | y in tail ensures Follows(token, y) { CompareStringChain(token, page.next, y); }
        AscendingJoin(page.names, tail);
        forall n | Finished(requests, token) && Follows(token, n)
                   && forall i :: 0 <= i < |requests| ==> n in requests[i].names
          ensures n in Crawl(requests, token)
        {
          assert n in first.names;
          forall i | 0 <= i < |rest| ensures n in rest[i].names { assert n in requests[i + 1].names; }
        }
      } else {
        assert page.names + [] == page.names;
      }
    }
  }

  lemma AscendingJoin(a: seq<string>, b: seq<string>)
    requires Ascending(a) && Ascending(b) && forall x, y :: x in a && y in b ==> Before(x, y)
    ensures Ascending(a + b)
  {
    var all := a + b;
    forall i, j | 0 <= i < j < |all| ensures Before(all[i], all[j]) {
      if i < |a| && j >= |a| { assert all[i] in a && all[j] in b; }
    }
  }

  /** With nothing changing, a finished crawl is the sorted list of all names. */
  lemma CrawlUnchanged(requests: seq<Request>, names: set<string>)
    requires Sound(requests) && Finished(requests, "")
    requires forall i :: 0 <= i < |requests| ==> requests[i].names == names
    ensures Crawl(requests, "") == SortedKeys(names)
  {
    CrawlExact(requests, "");
    CrawlMembers(requests, "", names);
    AscendingUnique(Crawl(requests, ""), SortedKeys(names));
  }

  lemma {:induction false} CrawlMembers(requests: seq<Request>, token: string, names: set<string>)
    requires Sound(requests) && forall i :: 0 <= i < |requests| ==> requests[i].names <= names
    ensures forall x :: x in Crawl(requests, token) ==> x in names
    decreases |requests|
  {
    if requests != [] {
      PageFacts(requests[0].names, requests[0].size, token);
      var page := PageOf(requests[0].names, requests[0].size, token);
      hide PageOf;
      if page.next != "" { CrawlMembers(requests[1..], page.next, names); }
    }
  }

  lemma RemainingShrinks(names: set<string>, token: string, last: string)
    requires last in names && Follows(token, last) && last != ""
    ensures |Remaining(names, last)| < |Remaining(names, token)|
  {
    var before, after := set n | n in names && Follows(token, n), set n | n in names && Follows(last, n);
    hide SortedKeys;
    forall n | n in after ensures n in before { CompareStringChain(token, last, n); }
    CompareStringEqual(last, last);
    assert last in before && last !in after;
    SubsetSize(after, before - {last});
  }

  /** And it finishes: each page but the last leaves strictly fewer names. */
  lemma {:induction false} CrawlFinishes(requests: seq<Request>, names: set<string>, token: string)
    requires Sound(requests) && forall i :: 0 <= i < |requests| ==> requests[i].names == names
    requires |requests| > |Remaining(names, token)|
    ensures Finished(requests, token)
    decreases |requests|
  {
    var first, rest := requests[0], requests[1..];
    var page := PageOf(names, first.size, token);
    if page.next != "" {
      assert forall i :: 0 <= i < |rest| ==> rest[i] == requests[i + 1];
      PageFacts(names, first.size, token);
      var all := Remaining(names, token);
      assert page.next == all[first.size - 1] && all[first.size - 1] in all;
      hide PageOf, Remaining, SortedKeys;
      RemainingShrinks(names, token, page.next);
      CrawlFinishes(rest, names, page.next);
    }
  }
}
