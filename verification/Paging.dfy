/** ListSnapshots and a client that follows its tokens. */
module PagingSpec {
  import opened AttachmentTypes
  import opened Decimal

  datatype Snap = Snap(name: string, source: string, size: nat, createdAt: Time)

  /** The order of Go strings: byte order of UTF-8, which is the order of code points. */
  predicate Less(a: string, b: string) {
    if b == [] then false
    else if a == [] then true
    else a[0] < b[0] || (a[0] == b[0] && Less(a[1..], b[1..]))
  }

  lemma {:induction false} LessTotal(a: string, b: string)
    ensures (if Less(a, b) then 1 else 0) + (if Less(b, a) then 1 else 0) + (if a == b then 1 else 0) == 1
  {
    if a != [] && b != [] {
      LessTotal(a[1..], b[1..]);
      assert a == [a[0]] + a[1..] && b == [b[0]] + b[1..];
    }
  }

  lemma {:induction false} LessTransitive(a: string, b: string, c: string)
    requires Less(a, b) && Less(b, c)
    ensures Less(a, c)
  {
    if a != [] && a[0] == b[0] && b[0] == c[0] {
      LessTransitive(a[1..], b[1..], c[1..]);
    }
  }

  /** The snapshots of one source volume; an empty source asks for all. */
  function Filter(all: seq<Snap>, source: string): seq<Snap> {
    if source == "" then all else OfSource(all, source)
  }

  function OfSource(all: seq<Snap>, source: string): seq<Snap> {
    if all == [] then []
    else
      var rest, last := OfSource(all[..|all| - 1], source), all[|all| - 1];
      if last.source == source then rest + [last] else rest
  }

  function Insert(s: seq<Snap>, x: Snap): seq<Snap> {
    if s == [] then [x]
    else if Less(x.name, s[0].name) then [x] + s
    else [s[0]] + Insert(s[1..], x)
  }

  function Sort(s: seq<Snap>): seq<Snap> {
    if s == [] then [] else Insert(Sort(s[1..]), s[0])
  }

  datatype PageReply = Page(entries: seq<Snap>, nextToken: string) | Aborted

  /** Where a page that starts at `start` stops; no positive limit means all. */
  function StopOf(n: nat, start: nat, maxEntries: int): (stop: nat)
    requires start <= n
    ensures start <= stop <= n && (stop == start ==> stop == n)
  {
    if 0 < maxEntries < n - start then start + maxEntries else n
  }

  /** The index a token stands for. */
  function StartOf(token: string): Option<int> {
    if token == "" then Some(0) else Atoi(token)
  }

  /** The token for the rest of the list. */
  function TokenOf(n: nat, stop: nat): string {
    if stop < n then Itoa(stop) else ""
  }

  /** One page of the sorted, filtered list, from the index in the token on. */
  function PageOf(sorted: seq<Snap>, token: string, maxEntries: int): PageReply {
    var start := StartOf(token);
    if start.None? || start.value < 0 || start.value > |sorted| then Aborted
    else
      var stop := StopOf(|sorted|, start.value, maxEntries);
      Page(sorted[start.value..stop], TokenOf(|sorted|, stop))
  }

  function ListPage(all: seq<Snap>, source: string, token: string, maxEntries: int): PageReply {
    PageOf(Sort(Filter(all, source)), token, maxEntries)
  }

  // ---- the sorted list does not depend on the order of the answer ----

  ghost predicate DistinctNames(s: seq<Snap>) {
    forall i, j :: 0 <= i < j < |s| ==> s[i].name != s[j].name
  }

  ghost predicate Ascending(s: seq<Snap>) {
    forall i, j :: 0 <= i < j < |s| ==> Less(s[i].name, s[j].name)
  }

  lemma {:induction false} InsertPermutes(s: seq<Snap>, x: Snap)
    ensures multiset(Insert(s, x)) == multiset(s) + multiset{x}
  {
    if s != [] && !Less(x.name, s[0].name) {
      InsertPermutes(s[1..], x);
      assert s == [s[0]] + s[1..];
    }
  }

  lemma {:induction false} SortPermutes(s: seq<Snap>)
    ensures multiset(Sort(s)) == multiset(s)
  {
    if s != [] {
      SortPermutes(s[1..]);
      InsertPermutes(Sort(s[1..]), s[0]);
      assert s == [s[0]] + s[1..];
    }
  }

  lemma {:induction false} InsertAscending(s: seq<Snap>, x: Snap)
    requires Ascending(s) && forall i :: 0 <= i < |s| ==> s[i].name != x.name
    ensures Ascending(Insert(s, x))
  {
    if s != [] {
      LessTotal(x.name, s[0].name);
      if Less(x.name, s[0].name) {
        forall i | 0 <= i < |s| ensures Less(x.name, s[i].name) {
          if i > 0 {
            LessTransitive(x.name, s[0].name, s[i].name);
          }
        }
      } else {
        InsertAscending(s[1..], x);
        InsertPermutes(s[1..], x);
        var t := Insert(s[1..], x);
        forall i | 0 <= i < |t| ensures Less(s[0].name, t[i].name) {
          assert t[i] in multiset(t);
          assert t[i] == x || t[i] in s[1..];
        }
      }
    }
  }

  lemma {:induction false} SortAscending(s: seq<Snap>)
    requires DistinctNames(s)
    ensures Ascending(Sort(s))
  {
    if s != [] {
      SortAscending(s[1..]);
      SortPermutes(s[1..]);
      forall i | 0 <= i < |Sort(s[1..])| ensures Sort(s[1..])[i].name != s[0].name {
        assert Sort(s[1..])[i] in multiset(Sort(s[1..]));
        assert Sort(s[1..])[i] in s[1..];
      }
      InsertAscending(Sort(s[1..]), s[0]);
    }
  }

  /** There is one ascending arrangement: any sorting algorithm gives this one. */
  lemma {:induction false} AscendingUnique(a: seq<Snap>, b: seq<Snap>)
    requires Ascending(a) && Ascending(b) && multiset(a) == multiset(b)
    ensures a == b
  {
    assert |a| == |multiset(a)| == |multiset(b)| == |b|;
    if a != [] {
      LeastFirst(a, b);
      LeastFirst(b, a);
      LessTotal(a[0].name, b[0].name);
      TailsPermute(a, b);
      AscendingUnique(a[1..], b[1..]);
      assert a == [a[0]] + a[1..] && b == [b[0]] + b[1..];
    }
  }

  lemma TailsPermute(a: seq<Snap>, b: seq<Snap>)
    requires a != [] && b != [] && a[0] == b[0] && multiset(a) == multiset(b)
    ensures multiset(a[1..]) == multiset(b[1..])
  {
    assert a == [a[0]] + a[1..] && b == [b[0]] + b[1..];
    assert multiset(a[1..]) == multiset(a) - multiset{a[0]};
  }

  /** The first of an ascending list is the least of its elements. */
  lemma LeastFirst(a: seq<Snap>, b: seq<Snap>)
    requires Ascending(a) && multiset(a) == multiset(b) && a != [] && b != []
    ensures a[0] == b[0] || Less(a[0].name, b[0].name)
  {
    assert b[0] in multiset(a);
    var j :| 0 <= j < |a| && a[j] == b[0];
  }

  lemma {:induction false} OfSourceCounts(s: seq<Snap>, source: string, x: Snap)
    ensures multiset(OfSource(s, source))[x] == if x.source == source then multiset(s)[x] else 0
  {
    if s != [] {
      OfSourceCounts(s[..|s| - 1], source, x);
      assert s == s[..|s| - 1] + [s[|s| - 1]];
    }
  }

  lemma FilterPermutes(a: seq<Snap>, b: seq<Snap>, source: string)
    requires multiset(a) == multiset(b)
    ensures multiset(Filter(a, source)) == multiset(Filter(b, source))
  {
    if source != "" {
      forall x ensures multiset(OfSource(a, source))[x] == multiset(OfSource(b, source))[x] {
        OfSourceCounts(a, source, x);
        OfSourceCounts(b, source, x);
      }
    }
  }

  lemma {:induction false} OfSourceDistinct(s: seq<Snap>, source: string)
    requires DistinctNames(s)
    ensures DistinctNames(OfSource(s, source))
    ensures forall x :: x in OfSource(s, source) ==> x in s
  {
    if s != [] {
      OfSourceDistinct(s[..|s| - 1], source);
      assert s == s[..|s| - 1] + [s[|s| - 1]];
      var rest := OfSource(s[..|s| - 1], source);
      forall i | 0 <= i < |rest| ensures rest[i].name != s[|s| - 1].name {
        assert rest[i] in s[..|s| - 1];
      }
    }
  }

  lemma PermutedDistinct(a: seq<Snap>, b: seq<Snap>)
    requires multiset(a) == multiset(b) && DistinctNames(a)
    ensures DistinctNames(b)
  {
    forall i, j | 0 <= i < j < |b| ensures b[i].name != b[j].name {
      assert b[i] in multiset(a) && b[j] in multiset(a);
      assert b == b[..i] + [b[i]] + b[i + 1..j] + [b[j]] + b[j + 1..];
      OnlyOnce(a, b[i]);
      assert b[i] == b[j] ==> multiset(b)[b[i]] >= 2;
    }
  }

  lemma {:induction false} OnlyOnce(a: seq<Snap>, x: Snap)
    requires DistinctNames(a)
    ensures multiset(a)[x] <= 1
  {
    if a != [] {
      var init, last := a[..|a| - 1], a[|a| - 1];
      assert a == init + [last];
      OnlyOnce(init, x);
      assert forall i :: 0 <= i < |init| ==> init[i].name != last.name;
      assert last !in init;
    }
  }

  /** Whatever order the server answers in, the sorted and filtered list is the same. */
  lemma SortedFilterStable(a: seq<Snap>, b: seq<Snap>, source: string)
    requires multiset(a) == multiset(b) && DistinctNames(a)
    ensures Sort(Filter(a, source)) == Sort(Filter(b, source))
    ensures Ascending(Sort(Filter(a, source)))
  {
    PermutedDistinct(a, b);
    OfSourceDistinct(a, source);
    OfSourceDistinct(b, source);
    FilterPermutes(a, b, source);
    SortPermutes(Filter(a, source));
    SortPermutes(Filter(b, source));
    SortAscending(Filter(a, source));
    SortAscending(Filter(b, source));
    AscendingUnique(Sort(Filter(a, source)), Sort(Filter(b, source)));
  }

  // ---- following the tokens ----

  /** A token of ours for index `i`. */
  ghost predicate Names(token: string, i: nat) {
    StartOf(token) == Some(i) && (token == "" <==> i == 0)
  }

  lemma TokenNames(n: nat, stop: nat)
    requires 0 < stop
    ensures if stop < n then Names(TokenOf(n, stop), stop) else TokenOf(n, stop) == ""
  {
    ItoaRoundTrip(stop);
  }

  /** From index `from` a page stops at `stop`, not before the end without an entry, and names where it stops. */
  ghost predicate PageFrom(page: PageReply, sorted: seq<Snap>, from: nat, stop: nat) {
    && page.Page? && from <= stop <= |sorted| && page.entries == sorted[from..stop]
    && (stop == |sorted| ==> page.nextToken == "")
    && (stop < |sorted| ==> from < stop && Names(page.nextToken, stop))
  }

  lemma PageAt(sorted: seq<Snap>, token: string, i: nat, maxEntries: int)
    requires Names(token, i) && i <= |sorted|
    ensures PageFrom(PageOf(sorted, token, maxEntries), sorted, i, StopOf(|sorted|, i, maxEntries))
  {
    var stop := StopOf(|sorted|, i, maxEntries);
    if 0 < stop {
      TokenNames(|sorted|, stop);
    }
  }

  /** One call of a client: what the server answered, in an order of its own, and the page size asked for. */
  datatype PageCall = PageCall(answer: seq<Snap>, maxEntries: int)

  /** The token a client sends next: the last page's, or none at the start. */
  function NextToken(pages: seq<PageReply>): string {
    if pages == [] || pages[|pages| - 1].Aborted? then "" else pages[|pages| - 1].nextToken
  }

  /** The replies to a client that sends each page's token with the next call. */
  function Pages(calls: seq<PageCall>, source: string): seq<PageReply> {
    if calls == [] then []
    else
      var before, call := Pages(calls[..|calls| - 1], source), calls[|calls| - 1];
      before + [ListPage(call.answer, source, NextToken(before), call.maxEntries)]
  }

  function Gathered(pages: seq<PageReply>): seq<Snap> {
    if pages == [] then []
    else Gathered(pages[..|pages| - 1]) + (if pages[|pages| - 1].Page? then pages[|pages| - 1].entries else [])
  }

  /** A client calls again only while it has a token, and the server always holds the same snapshots. */
  ghost predicate Session(calls: seq<PageCall>, all: seq<Snap>, source: string) {
    calls != [] ==>
      && multiset(calls[|calls| - 1].answer) == multiset(all)
      && (|calls| > 1 ==> NextToken(Pages(calls[..|calls| - 1], source)) != "")
      && Session(calls[..|calls| - 1], all, source)
  }

  lemma SamePage(all: seq<Snap>, call: PageCall, source: string, token: string, sorted: seq<Snap>)
    requires DistinctNames(all) && multiset(call.answer) == multiset(all) && sorted == Sort(Filter(all, source))
    ensures ListPage(call.answer, source, token, call.maxEntries) == PageOf(sorted, token, call.maxEntries)
  {
    SortedFilterStable(all, call.answer, source);
  }

  /** The pages cover the list up to `stop` without gap or overlap, and there is a token exactly if more is left. */
  ghost predicate Covers(pages: seq<PageReply>, sorted: seq<Snap>, stop: nat) {
    && (forall i :: 0 <= i < |pages| ==> pages[i].Page?)
    && stop <= |sorted| && Gathered(pages) == sorted[..stop]
    && (pages == [] ==> stop == 0)
    && (pages != [] && NextToken(pages) == "" ==> stop == |sorted|)
    && (pages != [] && NextToken(pages) != "" ==> |pages| <= stop < |sorted|)
  }

  lemma CoversMore(before: seq<PageReply>, page: PageReply, sorted: seq<Snap>, from: nat, stop: nat)
    requires Covers(before, sorted, from) && (before != [] ==> NextToken(before) != "")
    requires PageFrom(page, sorted, from, stop)
    ensures Covers(before + [page], sorted, stop)
    ensures NextToken(before + [page]) == page.nextToken
  {
    OneMorePage(before, page, sorted, from, stop);
  }

  /** The pages so far, and a next call from the token they end with. */
  ghost predicate SoFar(pages: seq<PageReply>, sorted: seq<Snap>, stop: nat) {
    Covers(pages, sorted, stop) && (pages == [] || NextToken(pages) != "" ==> Names(NextToken(pages), stop))
  }

  lemma OneMoreCall(before: seq<PageReply>, sorted: seq<Snap>, from: nat, maxEntries: int)
    requires SoFar(before, sorted, from) && (before != [] ==> NextToken(before) != "")
    ensures SoFar(before + [PageOf(sorted, NextToken(before), maxEntries)], sorted, StopOf(|sorted|, from, maxEntries))
  {
    PageAt(sorted, NextToken(before), from, maxEntries);
    CoversMore(before, PageOf(sorted, NextToken(before), maxEntries), sorted, from, StopOf(|sorted|, from, maxEntries));
  }

  lemma {:induction false} SessionSoFar(calls: seq<PageCall>, all: seq<Snap>, source: string, sorted: seq<Snap>)
    returns (stop: nat)
    requires DistinctNames(all) && Session(calls, all, source) && sorted == Sort(Filter(all, source))
    ensures |Pages(calls, source)| == |calls| && SoFar(Pages(calls, source), sorted, stop)
  {
    if calls == [] {
      stop := 0;
    } else {
      var init, call := calls[..|calls| - 1], calls[|calls| - 1];
      var from := SessionSoFar(init, all, source, sorted);
      var before := Pages(init, source);
      SamePage(all, call, source, NextToken(before), sorted);
      OneMoreCall(before, sorted, from, call.maxEntries);
      stop := StopOf(|sorted|, from, call.maxEntries);
    }
  }

  lemma OneMorePage(before: seq<PageReply>, page: PageReply, sorted: seq<Snap>, from: nat, stop: nat)
    requires from <= stop <= |sorted| && Gathered(before) == sorted[..from]
    requires page.Page? && page.entries == sorted[from..stop]
    ensures Gathered(before + [page]) == sorted[..stop] && NextToken(before + [page]) == page.nextToken
  {
    assert (before + [page])[..|before|] == before;
    assert sorted[..stop] == sorted[..from] + sorted[from..stop];
  }

  /**
   * Paging is complete: with any page sizes, and whatever order the server answers each call in, no call is
   * refused, the tokens run out after at most as many calls as there are snapshots, and the pages together are
   * then the sorted filtered list with every snapshot once.
   */
  lemma PagingComplete(calls: seq<PageCall>, all: seq<Snap>, source: string)
    requires DistinctNames(all) && Session(calls, all, source) && calls != []
    ensures var pages := Pages(calls, source);
            var got := Gathered(pages);
            && (forall i :: 0 <= i < |pages| ==> pages[i].Page?)
            && (NextToken(pages) != "" ==> |calls| < |Filter(all, source)|)
            && (NextToken(pages) == "" ==>
                  && Ascending(got) && multiset(got) == multiset(Filter(all, source))
                  && (forall x :: x in got <==> x in all && (source == "" || x.source == source)))
  {
    var f := Filter(all, source);
    var stop := SessionSoFar(calls, all, source, Sort(f));
    SortedContents(all, source, Sort(f));
    assert Sort(f)[..|Sort(f)|] == Sort(f);
  }

  lemma SortedContents(all: seq<Snap>, source: string, sorted: seq<Snap>)
    requires DistinctNames(all) && sorted == Sort(Filter(all, source))
    ensures Ascending(sorted) && multiset(sorted) == multiset(Filter(all, source)) && |sorted| == |Filter(all, source)|
    ensures forall x :: x in sorted <==> x in all && (source == "" || x.source == source)
  {
    var f := Filter(all, source);
    SortedFilterStable(all, all, source);
    SortPermutes(f);
    assert |sorted| == |multiset(sorted)| == |multiset(f)| == |f|;
    forall x ensures x in sorted <==> x in all && (source == "" || x.source == source) {
      OfSourceCounts(all, source, x);
      assert x in sorted <==> x in multiset(sorted);
      assert x in f <==> x in multiset(f);
      assert x in all <==> x in multiset(all);
    }
  }
}

module SnapshotLists {
  import opened AttachmentTypes
  import opened Decimal
  import opened PagingSpec

  /** The server's list, or why it could not be had. */
  datatype Listing = Listing(all: seq<Snap>) | NoConnection | OtherFailure

  datatype ListReply = Listed(entries: seq<Snap>, nextToken: string) | AbortedToken | Unavailable | Internal

  /** The single-snapshot form gives one entry or none, never an error. */
  function Answer(client: bool, snapshotId: string, found: Option<Snap>, listing: Listing, source: string,
                  token: string, maxEntries: int): ListReply {
    if !client then Internal
    else if snapshotId != "" then Listed(if found.Some? then [found.value] else [], "")
    else if !listing.Listing? then if listing.NoConnection? then Unavailable else Internal
    else
      match ListPage(listing.all, source, token, maxEntries)
      case Page(entries, next) => Listed(entries, next)
      case Aborted => AbortedToken
  }

  method FilterBySource(all: seq<Snap>, source: string) returns (kept: seq<Snap>)
    ensures kept == Filter(all, source)
  {
    if source == "" {
      return all;
    }
    kept := [];
    for i := 0 to |all|
      invariant kept == OfSource(all[..i], source)
    {
      assert all[..i + 1][..i] == all[..i];
      if all[i].source == source {
        kept := kept + [all[i]];
      }
    }
    assert all[..|all|] == all;
  }

  method CutPage(sorted: seq<Snap>, token: string, maxEntries: int) returns (reply: PageReply)
    ensures reply == PageOf(sorted, token, maxEntries)
  {
    var start := 0;
    if token != "" {
      var idx := Atoi(token);
      if idx.None? || idx.value < 0 || idx.value > |sorted| {
        return Aborted;
      }
      start := idx.value;
    }
    var count := |sorted| - start;
    if maxEntries > 0 && maxEntries < count {
      count := maxEntries;
    }
    var entries := [];
    for i := start to start + count
      invariant entries == sorted[start..i]
    {
      entries := entries + [sorted[i]];
    }
    reply := Page(entries, if start + count < |sorted| then Itoa(start + count) else "");
  }

  /** `client` says whether there is a server client, `found` is the lookup of `snapshotId` if that is well formed. */
  method ListSnapshots(client: bool, snapshotId: string, found: Option<Snap>, listing: Listing, source: string,
                       token: string, maxEntries: int)
    returns (reply: ListReply)
    ensures reply == Answer(client, snapshotId, found, listing, source, token, maxEntries)
  {
    if !client {
      return Internal;
    }
    if snapshotId != "" {
      return Listed(if found.Some? then [found.value] else [], "");
    }
    if listing.NoConnection? {
      return Unavailable;
    }
    if listing.OtherFailure? {
      return Internal;
    }
    var kept := FilterBySource(listing.all, source);
    var page := CutPage(Sort(kept), token, maxEntries);
    match page
    case Page(entries, next) => reply := Listed(entries, next);
    case Aborted => reply := AbortedToken;
  }
}
