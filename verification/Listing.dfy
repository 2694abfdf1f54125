/** Delimiter listing of Storage objects (src/storage.rs, list_response). */
module Listing {
  import opened Wrappers
  import opened Order
  import opened Paths

  const DEFAULT_LIMIT: int := 1000
  const MAX_LIMIT: int := 1000

  /** Where a text first occurs. */
  function Find(s: string, text: string): (r: Option<nat>)
    ensures r.Some? ==> r.value + |text| <= |s| && s[r.value..r.value + |text|] == text
    decreases |s|
  {
    if StartsWith(s, text) then Some(0)
    else if s == "" then None
    else
      match Find(s[1..], text)
      case None => None
      case Some(i) =>
        var tail := s[1..];
        assert s == [s[0]] + tail;
        assert tail[i..i + |text|] == s[i + 1..i + 1 + |text|];
        Some(i + 1)
  }

  /** A listed name: an object itself, or a prefix that stands for several. */
  function Shown(name: string, prefix: string, delimiter: Option<string>): (bool, string) {
    if delimiter.None? || !StartsWith(name, prefix) then (false, name)
    else
      match Find(name[|prefix|..], delimiter.value)
      case None => (false, name)
      case Some(i) => (true, name[..|prefix| + i + |delimiter.value|])
  }

  predicate Matching(names: set<string>, prefix: string) {
    forall n :: n in names ==> StartsWith(n, prefix)
  }

  function Items(names: set<string>, prefix: string, delimiter: Option<string>): set<string> {
    set n | n in names && !Shown(n, prefix, delimiter).0
  }

  function Prefixes(names: set<string>, prefix: string, delimiter: Option<string>): set<string> {
    set n | n in names && Shown(n, prefix, delimiter).0 :: Shown(n, prefix, delimiter).1
  }

  /** All entries in the order the pages run through them. */
  function Entries(names: set<string>, prefix: string, delimiter: Option<string>): seq<string> {
    SortedKeys(Items(names, prefix, delimiter) + Prefixes(names, prefix, delimiter))
  }

  function SetOf(names: seq<string>): set<string> {
    set n | n in names
  }

  datatype Page = Page(items: seq<string>, prefixes: seq<string>, next: Option<nat>)

  function Limit(maxResults: Option<nat>): nat {
    if maxResults.None? then DEFAULT_LIMIT
    else if maxResults.value < 1 then 1
    else if maxResults.value > MAX_LIMIT then MAX_LIMIT
    else maxResults.value
  }

  /** One page of a listing, with the offset of the next if there is more. */
  function PageAt(names: set<string>, prefix: string, delimiter: Option<string>, offset: nat,
                  maxResults: Option<nat>): Page {
    var entries, limit := Entries(names, prefix, delimiter), Limit(maxResults);
    var cut := Slice(entries, offset, limit);
    Page(Only(cut, Items(names, prefix, delimiter)), Only(cut, Prefixes(names, prefix, delimiter)),
         if offset + limit < |entries| then Some(offset + limit) else None)
  }

  /** The first loop: objects with the delimiter past the prefix are collapsed. */
  method Collapse(names: seq<string>, prefix: string, delimiter: Option<string>)
    returns (items: set<string>, prefixes: set<string>)
    ensures items == Items(SetOf(names), prefix, delimiter) && prefixes == Prefixes(SetOf(names), prefix, delimiter)
  {
    hide Shown;
    items, prefixes := {}, {};
    for i := 0 to |names|
      invariant items == Items(SetOf(names[..i]), prefix, delimiter)
      invariant prefixes == Prefixes(SetOf(names[..i]), prefix, delimiter)
    {
      var before := SetOf(names[..i]);
      assert SetOf(names[..i + 1]) == before + {names[i]};
      OneMore(before, names[i], prefix, delimiter);
      var (collapsed, shown) := Shown(names[i], prefix, delimiter);
      if collapsed { prefixes := prefixes + {shown}; } else { items := items + {names[i]}; }
    }
    assert names[..|names|] == names;
  }

  lemma OneMore(names: set<string>, name: string, prefix: string, delimiter: Option<string>)
    ensures var (collapsed, shown) := Shown(name, prefix, delimiter);
            && Items(names + {name}, prefix, delimiter)
                 == Items(names, prefix, delimiter) + (if collapsed then {} else {name})
            && Prefixes(names + {name}, prefix, delimiter)
                 == Prefixes(names, prefix, delimiter) + (if collapsed then {shown} else {})
  {
    hide Shown;
  }

  /** The page as the source builds it: collapse, merge, sort, cut, separate. */
  method ListResponse(names: seq<string>, prefix: string, delimiter: Option<string>, offset: nat,
                      maxResults: Option<nat>)
    returns (page: Page)
    ensures page == PageAt(SetOf(names), prefix, delimiter, offset, maxResults)
  {
    hide Items, Prefixes, SortedKeys;
    var items, prefixes := Collapse(names, prefix, delimiter);
    var entries := SortedKeys(items + prefixes);
    var limit := Limit(maxResults);
    var cut := Slice(entries, offset, limit);
    page := Page(Only(cut, items), Only(cut, prefixes),
                 if offset + limit < |entries| then Some(offset + limit) else None);
  }

  function Only(entries: seq<string>, kind: set<string>): seq<string> {
    if entries == [] then [] else (if entries[0] in kind then [entries[0]] else []) + Only(entries[1..], kind)
  }

  // ----- What a listing shows ----------------------------------------------

  /** An entry stands for an object: it is the object, or a prefix of it. */
  predicate Covers(entry: string, name: string, names: set<string>, prefix: string, delimiter: Option<string>) {
    || (entry in Items(names, prefix, delimiter) && entry == name)
    || (entry in Prefixes(names, prefix, delimiter) && StartsWith(name, entry))
  }

  /** A common beginning that reaches past the first occurrence fixes it. */
  lemma {:induction false} FirstShared(a: string, b: string, text: string, length: nat)
    requires text != "" && Find(a, text).Some? && length == Find(a, text).value + |text|
    requires length <= |b| && a[..length] == b[..length]
    ensures Find(b, text) == Find(a, text)
    decreases |a|
  {
    assert |text| <= length;
    assert a[..|text|] == a[..length][..|text|] && b[..|text|] == b[..length][..|text|];
    if !StartsWith(a, text) {
      var i := Find(a[1..], text).value;
      assert length - 1 == i + |text|;
      assert a[1..][..length - 1] == a[..length][1..] && b[1..][..length - 1] == b[..length][1..];
      FirstShared(a[1..], b[1..], text, length - 1);
    }
  }

  /** A prefix entry covers exactly the objects collapsed into it. */
  lemma PrefixCovers(m: string, name: string, prefix: string, delimiter: string)
    requires delimiter != "" && StartsWith(m, prefix) && StartsWith(name, prefix)
    requires Shown(m, prefix, Some(delimiter)).0
    ensures StartsWith(name, Shown(m, prefix, Some(delimiter)).1)
       <==> Shown(name, prefix, Some(delimiter)) == Shown(m, prefix, Some(delimiter))
  {
    var a, b := m[|prefix|..], name[|prefix|..];
    var length := Find(a, delimiter).value + |delimiter|;
    var shown := m[..|prefix| + length];
    assert shown == prefix + a[..length] by { assert m[..|prefix|] == prefix; }
    hide Find;
    if StartsWith(name, shown) {
      SharedTail(name, prefix, a[..length]);
      FirstShared(a, b, delimiter, length);
    }
    if Find(b, delimiter).Some? {
      assert name[..|prefix|] == prefix;
      assert StartsWith(name, name[..|prefix| + Find(b, delimiter).value + |delimiter|]);
    }
  }

  lemma SharedTail(name: string, prefix: string, tail: string)
    requires StartsWith(name, prefix + tail)
    ensures |prefix| + |tail| <= |name| && name[|prefix|..][..|tail|] == tail
  {
    assert name[..|prefix + tail|][|prefix|..] == (prefix + tail)[|prefix|..] == tail;
  }

  /** Each matching object is shown by exactly one entry of the listing. */
  lemma ShownOnce(names: set<string>, prefix: string, delimiter: Option<string>, name: string, entry: string)
    requires Matching(names, prefix) && delimiter != Some("") && name in names
    ensures Covers(entry, name, names, prefix, delimiter) <==> entry == Shown(name, prefix, delimiter).1
  {
    var s := Shown(name, prefix, delimiter);
    if entry in Prefixes(names, prefix, delimiter) {
      var m :| m in names && Shown(m, prefix, delimiter).0 && Shown(m, prefix, delimiter).1 == entry;
      PrefixCovers(m, name, prefix, delimiter.value);
    }
    if s.0 {
      PrefixCovers(name, name, prefix, delimiter.value);
      assert s.1 in Prefixes(names, prefix, delimiter);
    } else {
      assert name in Items(names, prefix, delimiter);
    }
  }

  /** The entries are distinct, an entry is an item or a prefix but not both, and
      each is there because of some object. */
  lemma EntriesExact(names: set<string>, prefix: string, delimiter: Option<string>, entry: string)
    requires Matching(names, prefix) && delimiter != Some("")
    ensures Ascending(Entries(names, prefix, delimiter))
    ensures entry in Entries(names, prefix, delimiter)
         <==> exists n :: n in names && Covers(entry, n, names, prefix, delimiter)
    ensures !(entry in Items(names, prefix, delimiter) && entry in Prefixes(names, prefix, delimiter))
  {
    if entry in Items(names, prefix, delimiter) {
      assert Covers(entry, entry, names, prefix, delimiter);
      ShownOnce(names, prefix, delimiter, entry, entry);
      if entry in Prefixes(names, prefix, delimiter) {
        var m :| m in names && Shown(m, prefix, delimiter).0 && Shown(m, prefix, delimiter).1 == entry;
        PrefixCovers(m, entry, prefix, delimiter.value);
      }
    } else if entry in Prefixes(names, prefix, delimiter) {
      var m :| m in names && Shown(m, prefix, delimiter).0 && Shown(m, prefix, delimiter).1 == entry;
      ShownOnce(names, prefix, delimiter, m, entry);
      assert Covers(entry, m, names, prefix, delimiter);
    }
  }

  // ----- Following tokens --------------------------------------------------

  function Crawl(entries: seq<string>, offset: nat, limits: seq<nat>): seq<string>
    requires forall i :: 0 <= i < |limits| ==> limits[i] > 0
    decreases |limits|
  {
    if limits == [] then []
    else
      Slice(entries, offset, limits[0])
      + if offset + limits[0] < |entries| then Crawl(entries, offset + limits[0], limits[1..]) else []
  }

  /** Following the tokens visits every entry once, whatever the page limits, as
      soon as there are enough pages for a page without a token. */
  lemma {:induction false} CrawlVisitsAll(entries: seq<string>, offset: nat, limits: seq<nat>)
    requires forall i :: 0 <= i < |limits| ==> limits[i] > 0
    requires offset <= |entries| && |limits| > |entries| - offset
    ensures Crawl(entries, offset, limits) == entries[offset..]
    decreases |limits|
  {
    hide Slice;
    SliceStep(entries, offset, limits[0]);
    if offset + limits[0] < |entries| {
      CrawlVisitsAll(entries, offset + limits[0], limits[1..]);
    }
  }

  lemma SliceStep(entries: seq<string>, offset: nat, limit: nat)
    requires offset <= |entries|
    ensures offset + limit < |entries| ==>
              Slice(entries, offset, limit) + entries[offset + limit..] == entries[offset..]
    ensures offset + limit >= |entries| ==> Slice(entries, offset, limit) + [] == entries[offset..]
  {
    if offset + limit < |entries| {
      assert entries[offset..][..limit] == entries[offset..offset + limit];
      assert entries[offset..offset + limit] + entries[offset + limit..] == entries[offset..];
    }
  }

  // ----- A whole listing ---------------------------------------------------

  /** The pages a client gets when it follows the offsets. */
  function CrawlPages(names: set<string>, prefix: string, delimiter: Option<string>, offset: nat,
                      requests: seq<Option<nat>>): seq<Page>
    decreases |requests|
  {
    if requests == [] then []
    else
      var page := PageAt(names, prefix, delimiter, offset, requests[0]);
      [page] + if page.next.Some? then CrawlPages(names, prefix, delimiter, page.next.value, requests[1..]) else []
  }

  function Hits(entries: seq<string>, hit: string -> bool): nat {
    if entries == [] then 0 else (if hit(entries[0]) then 1 else 0) + Hits(entries[1..], hit)
  }

  /** How often a page shows an object, as itself or under one of its prefixes. */
  function ShowsIn(page: Page, name: string): nat {
    Hits(page.items, e => e == name) + Hits(page.prefixes, e => StartsWith(name, e))
  }

  function Shows(pages: seq<Page>, name: string): nat {
    if pages == [] then 0 else ShowsIn(pages[0], name) + Shows(pages[1..], name)
  }

  lemma {:induction false} HitsAppend(a: seq<string>, b: seq<string>, hit: string -> bool)
    ensures Hits(a + b, hit) == Hits(a, hit) + Hits(b, hit)
  {
    if a == [] {
      assert a + b == b;
    } else {
      assert (a + b)[1..] == a[1..] + b;
      HitsAppend(a[1..], b, hit);
    }
  }

  lemma {:induction false} HitsByKind(cut: seq<string>, items: set<string>, prefixes: set<string>, p: string -> bool,
                                      q: string -> bool,
                                      hit: string -> bool)
    requires items !! prefixes
    requires forall e :: hit(e) <==> (e in items && p(e)) || (e in prefixes && q(e))
    ensures Hits(Only(cut, items), p) + Hits(Only(cut, prefixes), q) == Hits(cut, hit)
  {
    if cut != [] {
      HitsByKind(cut[1..], items, prefixes, p, q, hit);
      OnlyStep(cut, items, p);
      OnlyStep(cut, prefixes, q);
    }
  }

  lemma OnlyStep(cut: seq<string>, kind: set<string>, p: string -> bool)
    requires cut != []
    ensures Hits(Only(cut, kind), p) == (if cut[0] in kind && p(cut[0]) then 1 else 0) + Hits(Only(cut[1..], kind), p)
  {
    var rest := Only(cut[1..], kind);
    assert ([cut[0]] + rest)[1..] == rest && [] + rest == rest;
  }

  lemma {:induction false} HitsNone(entries: seq<string>, hit: string -> bool)
    requires forall e :: e in entries ==> !hit(e)
    ensures Hits(entries, hit) == 0
  {
    if entries != [] { HitsNone(entries[1..], hit); }
  }

  lemma {:induction false} HitsOnce(entries: seq<string>, hit: string -> bool, x: string)
    requires Ascending(entries) && x in entries && forall e :: hit(e) <==> e == x
    ensures Hits(entries, hit) == 1
  {
    var rest := entries[1..];
    assert forall i :: 0 <= i < |rest| ==> rest[i] == entries[i + 1];
    if entries[0] == x {
      forall e | e in rest ensures !hit(e) {
        var i :| 0 <= i < |rest| && rest[i] == e;
        if e == x { AscendingDistinct(entries, 0, i + 1); }
      }
      HitsNone(rest, hit);
    } else {
      HitsOnce(rest, hit, x);
    }
  }

  function Covering(name: string, names: set<string>, prefix: string, delimiter: Option<string>): string -> bool {
    e => Covers(e, name, names, prefix, delimiter)
  }

  lemma KindsDisjoint(names: set<string>, prefix: string, delimiter: Option<string>)
    requires Matching(names, prefix) && delimiter != Some("")
    ensures Items(names, prefix, delimiter) !! Prefixes(names, prefix, delimiter)
  {
    hide Items, Prefixes;
    forall e | e in Items(names, prefix, delimiter) ensures e !in Prefixes(names, prefix, delimiter) {
      EntriesExact(names, prefix, delimiter, e);
    }
  }

  lemma PageShows(names: set<string>, prefix: string, delimiter: Option<string>, offset: nat, maxResults: Option<nat>,
                  name: string)
    requires Matching(names, prefix) && delimiter != Some("")
    ensures ShowsIn(PageAt(names, prefix, delimiter, offset, maxResults), name)
         == Hits(Slice(Entries(names, prefix, delimiter), offset, Limit(maxResults)),
                 Covering(name, names, prefix, delimiter))
  {
    hide Items, Prefixes, Slice, SortedKeys, Matching, Only, Hits;
    KindsDisjoint(names, prefix, delimiter);
    var cut := Slice(Entries(names, prefix, delimiter), offset, Limit(maxResults));
    HitsByKind(cut, Items(names, prefix, delimiter), Prefixes(names, prefix, delimiter), e => e == name,
               e => StartsWith(name, e),
               Covering(name, names, prefix, delimiter));
  }

  lemma {:induction false} PagesShow(names: set<string>, prefix: string, delimiter: Option<string>, offset: nat,
                                     requests: seq<Option<nat>>,
                                     name: string)
    requires Matching(names, prefix) && delimiter != Some("")
    requires offset <= |Entries(names, prefix, delimiter)| && |requests| > |Entries(names, prefix, delimiter)| - offset
    ensures Shows(CrawlPages(names, prefix, delimiter, offset, requests), name)
         == Hits(Entries(names, prefix, delimiter)[offset..], Covering(name, names, prefix, delimiter))
    decreases |requests|
  {
    hide Matching, Entries, ShowsIn, Only, Items, Prefixes, Slice, Hits, Covering;
    var entries, limit := Entries(names, prefix, delimiter), Limit(requests[0]);
    var hit := Covering(name, names, prefix, delimiter);
    var page := PageAt(names, prefix, delimiter, offset, requests[0]);
    PageShows(names, prefix, delimiter, offset, requests[0], name);
    SliceStep(entries, offset, limit);
    var rest := if page.next.Some? then CrawlPages(names, prefix, delimiter, offset + limit, requests[1..]) else [];
    assert ([page] + rest)[1..] == rest;
    if page.next.Some? {
      PagesShow(names, prefix, delimiter, offset + limit, requests[1..], name);
      HitsAppend(Slice(entries, offset, limit), entries[offset + limit..], hit);
    } else {
      assert Slice(entries, offset, limit) + [] == Slice(entries, offset, limit);
    }
  }

  /** Whoever follows the pages of a listing to the end, with any page sizes, is
      shown every matching object exactly once: as itself or under one prefix. */
  lemma EachShownOnce(names: set<string>, prefix: string, delimiter: Option<string>, requests: seq<Option<nat>>,
                      name: string)
    requires Matching(names, prefix) && delimiter != Some("") && name in names
    requires |requests| > |Entries(names, prefix, delimiter)|
    ensures Shows(CrawlPages(names, prefix, delimiter, 0, requests), name) == 1
  {
    hide Items, Prefixes, SortedKeys, Matching, CrawlPages, Shows, Hits, Covers, Shown;
    var entries := Entries(names, prefix, delimiter);
    PagesShow(names, prefix, delimiter, 0, requests, name);
    assert entries[0..] == entries;
    var x := Shown(name, prefix, delimiter).1;
    forall e ensures Covering(name, names, prefix, delimiter)(e) <==> e == x {
      ShownOnce(names, prefix, delimiter, name, e);
    }
    ShownOnce(names, prefix, delimiter, name, x);
    EntriesExact(names, prefix, delimiter, x);
    assert Covers(x, name, names, prefix, delimiter);
    HitsOnce(entries, Covering(name, names, prefix, delimiter), x);
  }
}
