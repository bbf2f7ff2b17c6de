/** Enumerating a domain's proposals by offset, over a feed that grows while it is read. */
module Paging {
  import opened Text
  import opened Totals

  datatype Item = Item(hash: string, uri: string, height: nat)

  datatype Reply = Page(items: seq<Item>, total: Option<nat>) | Unavailable

  datatype End = ShortPage | ReachedTotal | NoPagination | RequestFailed | PageBound

  const MAX_PAGES: nat := 200

  /** What request number `k` at a given offset is answered with. */
  type Server = (nat, nat) -> Reply

  predicate Finished(end: End) {
    end == ShortPage || end == ReachedTotal
  }

  function PageFrom(server: Server, perPage: nat, k: nat, offset: nat, all: seq<Item>): (seq<Item>, End)
    decreases MAX_PAGES - k
  {
    if k >= MAX_PAGES then (all, PageBound)
    else
      match server(k, offset)
      case Unavailable => (all, RequestFailed)
      case Page(items, total) =>
        if |items| < perPage then (all + items, ShortPage)
        else if total.None? then (all + items, NoPagination)
        else if offset + |items| >= total.value then (all + items, ReachedTotal)
        else PageFrom(server, perPage, k + 1, offset + |items|, all + items)
  }

  method FetchDomain(server: Server, perPage: nat) returns (all: seq<Item>, end: End)
    ensures (all, end) == PageFrom(server, perPage, 0, 0, [])
  {
    all := [];
    var offset: nat := 0;
    for k := 0 to MAX_PAGES
      invariant PageFrom(server, perPage, k, offset, all) == PageFrom(server, perPage, 0, 0, [])
    {
      match server(k, offset)
      case Page(items, total) =>
        var got := |items|;
        all := all + items;
        if got < perPage {
          return all, ShortPage;
        }
        if total.None? {
          return all, NoPagination;
        }
        offset := offset + got;
        if offset >= total.value {
          return all, ReachedTotal;
        }
      case Unavailable =>
        return all, RequestFailed;
    }
    end := PageBound;
  }

  // ---- what a run of requests collects, whatever the node answers

  function Joined(pages: seq<seq<Item>>): seq<Item> {
    if pages == [] then [] else pages[0] + Joined(pages[1..])
  }

  /** The loop goes on after this request: a full page, and more announced than has been read. */
  predicate GoesOn(reply: Reply, perPage: nat, offset: nat) {
    reply.Page? && |reply.items| >= perPage && reply.total.Some? && offset + |reply.items| < reply.total.value
  }

  /** Page `i` is the answer to request `k + i`, for what lies behind the pages before it, and the loop
      went on after it unless it is the last. */
  ghost predicate RequestedAt(server: Server, perPage: nat, k: nat, offset: nat, pages: seq<seq<Item>>, i: nat)
    requires i < |pages|
  {
    var reply, here := server(k + i, offset + |Joined(pages[..i])|), offset + |Joined(pages[..i])|;
    reply.Page? && reply.items == pages[i] && (i < |pages| - 1 ==> GoesOn(reply, perPage, here))
  }

  /** `pages` are what requests `k`, `k + 1`, ... were answered with. */
  ghost predicate Requested(server: Server, perPage: nat, k: nat, offset: nat, pages: seq<seq<Item>>) {
    forall i :: 0 <= i < |pages| ==> RequestedAt(server, perPage, k, offset, pages, i)
  }

  /** Why it ended after those pages: at the page bound or a failed request, with more to ask for, or
      because the last page said so. */
  ghost predicate EndsWith(server: Server, perPage: nat, k: nat, offset: nat, pages: seq<seq<Item>>, end: End) {
    var n := |pages|;
    var goesOn := n == 0 || GoesOn(LastReply(server, k, offset, pages), perPage, offset + |Joined(pages[..n - 1])|);
    match end
    case PageBound => goesOn && k + n >= 200
    case RequestFailed => goesOn && k + n < 200 && server(k + n, offset + |Joined(pages)|) == Unavailable
    case ShortPage => !goesOn && |pages[n - 1]| < perPage
    case NoPagination => !goesOn && |pages[n - 1]| >= perPage && LastReply(server, k, offset, pages).total.None?
    case ReachedTotal =>
      && !goesOn && |pages[n - 1]| >= perPage && LastReply(server, k, offset, pages).total.Some?
      && offset + |Joined(pages)| >= LastReply(server, k, offset, pages).total.value
  }

  function LastReply(server: Server, k: nat, offset: nat, pages: seq<seq<Item>>): (r: Reply)
    ensures pages == [] ==> r == Page([], None)
  {
    if pages == [] then Page([], None)
    else
      var reply := server(k + |pages| - 1, offset + |Joined(pages[..|pages| - 1])|);
      if reply.Page? then reply else Page(pages[|pages| - 1], None)
  }

  lemma JoinedOne(page: seq<Item>)
    ensures Joined([page]) == page && Joined([]) == []
  {
    assert [page][1..] == [];
  }

  lemma JoinedCons(page: seq<Item>, rest: seq<seq<Item>>, i: nat)
    requires i <= |rest|
    ensures Joined(([page] + rest)[..i + 1]) == page + Joined(rest[..i])
  {
    assert ([page] + rest)[..i + 1] == [page] + rest[..i];
    assert ([page] + rest[..i])[1..] == rest[..i];
  }

  lemma RequestedAtCons(server: Server, perPage: nat, k: nat, offset: nat, page: seq<Item>, rest: seq<seq<Item>>, i: nat)
    requires i < |rest| && RequestedAt(server, perPage, k + 1, offset + |page|, rest, i)
    ensures RequestedAt(server, perPage, k, offset, [page] + rest, i + 1)
  {
    JoinedCons(page, rest, i);
    assert k + 1 + i == k + (i + 1);
    hide Joined, GoesOn;
  }

  lemma RequestedCons(server: Server, perPage: nat, k: nat, offset: nat, page: seq<Item>, rest: seq<seq<Item>>)
    requires server(k, offset).Page? && server(k, offset).items == page && GoesOn(server(k, offset), perPage, offset)
    requires Requested(server, perPage, k + 1, offset + |page|, rest)
    ensures Requested(server, perPage, k, offset, [page] + rest)
  {
    var pages := [page] + rest;
    assert pages[..0] == [] && Joined(pages[..0]) == [];
    assert RequestedAt(server, perPage, k, offset, pages, 0);
    hide RequestedAt;
    forall i | 0 < i < |pages| ensures RequestedAt(server, perPage, k, offset, pages, i) {
      RequestedAtCons(server, perPage, k, offset, page, rest, i - 1);
    }
  }

  lemma EndsWithCons(server: Server, perPage: nat, k: nat, offset: nat, page: seq<Item>, rest: seq<seq<Item>>, end: End)
    requires server(k, offset).Page? && server(k, offset).items == page && GoesOn(server(k, offset), perPage, offset)
    requires EndsWith(server, perPage, k + 1, offset + |page|, rest, end)
    ensures EndsWith(server, perPage, k, offset, [page] + rest, end)
  {
    var pages, n := [page] + rest, |rest|;
    JoinedCons(page, rest, n);
    assert pages[..n + 1] == pages && rest[..n] == rest;
    if n == 0 {
      JoinedOne(page);
      assert pages[..0] == [];
    } else {
      JoinedCons(page, rest, n - 1);
      assert k + 1 + n - 1 == k + n;
    }
  }

  lemma NothingRequested(server: Server, perPage: nat, k: nat, offset: nat, end: End)
    requires end == if k >= 200 then PageBound else RequestFailed
    requires k < 200 ==> server(k, offset) == Unavailable
    ensures Requested(server, perPage, k, offset, []) && EndsWith(server, perPage, k, offset, [], end)
  {
  }

  lemma LastRequested(server: Server, perPage: nat, k: nat, offset: nat, page: seq<Item>, end: End)
    requires server(k, offset).Page? && server(k, offset).items == page && !GoesOn(server(k, offset), perPage, offset)
    requires end == if |page| < perPage then ShortPage else if server(k, offset).total.None? then NoPagination else ReachedTotal
    ensures Requested(server, perPage, k, offset, [page]) && EndsWith(server, perPage, k, offset, [page], end)
  {
    JoinedOne(page);
    assert [page][..0] == [] && Joined([page][..0]) == [];
    assert RequestedAt(server, perPage, k, offset, [page], 0);
    assert LastReply(server, k, offset, [page]) == server(k, offset);
    hide LastReply, Joined, RequestedAt;
  }

  /** What the loop returns, for any node: the pages of a run of requests, one behind the other, and the
      reason that run ended. Nothing that has arrived is dropped, not even when a later request fails. */
  lemma {:induction false} PagingCollects(server: Server, perPage: nat, k: nat, offset: nat, all: seq<Item>)
    returns (pages: seq<seq<Item>>)
    requires k <= 200
    ensures var (found, end) := PageFrom(server, perPage, k, offset, all);
            && found == all + Joined(pages) && k + |pages| <= 200
            && Requested(server, perPage, k, offset, pages) && EndsWith(server, perPage, k, offset, pages, end)
    decreases MAX_PAGES - k
  {
    hide Requested, EndsWith, Joined;
    var (found, end) := PageFrom(server, perPage, k, offset, all);
    JoinedOne([]);
    if k >= MAX_PAGES || server(k, offset).Unavailable? {
      pages := [];
      NothingRequested(server, perPage, k, offset, end);
    } else {
      var page := server(k, offset).items;
      JoinedOne(page);
      if GoesOn(server(k, offset), perPage, offset) {
        assert (found, end) == PageFrom(server, perPage, k + 1, offset + |page|, all + page);
        hide PageFrom, GoesOn;
        var rest := PagingCollects(server, perPage, k + 1, offset + |page|, all + page);
        RequestedCons(server, perPage, k, offset, page, rest);
        EndsWithCons(server, perPage, k, offset, page, rest, end);
        JoinedCons(page, rest, |rest|);
        assert ([page] + rest)[..|rest| + 1] == [page] + rest && rest[..|rest|] == rest;
        pages := [page] + rest;
      } else {
        pages := [page];
        LastRequested(server, perPage, k, offset, page, end);
      }
    }
  }

  // ---- an honest node

  function Window(feed: seq<Item>, offset: nat, limit: nat): seq<Item> {
    if offset >= |feed| then [] else feed[offset..Min(offset + limit, |feed|)]
  }

  /** The node pages through `feeds(k)`, its newest-first feed at request `k`, by at most `cap` items
      at a time; any single request may still fail. */
  ghost predicate Honest(server: Server, feeds: nat -> seq<Item>, perPage: nat, cap: nat) {
    forall k: nat, offset: nat :: server(k, offset) == Unavailable
                        || server(k, offset) == Page(Window(feeds(k), offset, Min(perPage, cap)), Some(|feeds(k)|))
  }

  /** Between two requests the feed only gains items, at the front. */
  ghost predicate GrowsInFront(feeds: nat -> seq<Item>) {
    forall k: nat :: GrowsAt(feeds, k)
  }

  ghost predicate GrowsAt(feeds: nat -> seq<Item>, k: nat) {
    Extends(feeds(k), feeds(k + 1))
  }

  predicate Extends(before: seq<Item>, after: seq<Item>) {
    |before| <= |after| && after[|after| - |before|..] == before
  }

  /** `item` is on the page that request asks for. */
  ghost predicate OnPage(feed: seq<Item>, item: Item, offset: nat, perPage: nat) {
    exists p :: offset <= p < offset + perPage && p < |feed| && feed[p] == item
  }

  /** Some page that is asked for shows the item: this one, or a later one if there is more to ask for.
      About what lies beyond the page bound nothing is said. */
  ghost predicate Met(feeds: nat -> seq<Item>, perPage: nat, item: Item, k: nat, offset: nat)
    decreases MAX_PAGES - k
  {
    || k >= MAX_PAGES || OnPage(feeds(k), item, offset, perPage)
    || (offset + perPage < |feeds(k)| && Met(feeds, perPage, item, k + 1, offset + perPage))
  }

  lemma WindowShows(feed: seq<Item>, item: Item, offset: nat, perPage: nat)
    ensures item in Window(feed, offset, perPage) <==> OnPage(feed, item, offset, perPage)
  {
    var page := Window(feed, offset, perPage);
    if p :| offset <= p < offset + perPage && p < |feed| && feed[p] == item {
      assert page[p - offset] == item;
    }
    if i :| 0 <= i < |page| && page[i] == item {
      assert feed[offset + i] == item;
    }
  }

  lemma HonestPage(server: Server, feeds: nat -> seq<Item>, perPage: nat, cap: nat, k: nat, offset: nat)
    requires Honest(server, feeds, perPage, cap) && perPage <= cap && server(k, offset).Page?
    ensures server(k, offset) == Page(Window(feeds(k), offset, perPage), Some(|feeds(k)|))
    ensures |Window(feeds(k), offset, perPage)| <= perPage
    ensures |Window(feeds(k), offset, perPage)| < perPage ==> offset + perPage > |feeds(k)|
  {
  }

  lemma {:induction false} FoundFromIff(server: Server, feeds: nat -> seq<Item>, perPage: nat, cap: nat,
                                        item: Item, k: nat, offset: nat, all: seq<Item>)
    requires Honest(server, feeds, perPage, cap) && perPage <= cap
    ensures var (found, end) := PageFrom(server, perPage, k, offset, all);
            Finished(end) ==> (item in found <==> item in all || Met(feeds, perPage, item, k, offset))
    decreases MAX_PAGES - k
  {
    if k < MAX_PAGES && server(k, offset).Page? {
      var page := Window(feeds(k), offset, perPage);
      HonestPage(server, feeds, perPage, cap, k, offset);
      WindowShows(feeds(k), item, offset, perPage);
      hide Honest, Window, OnPage;
      assert PageFrom(server, perPage, k, offset, all)
             == if |page| < perPage then (all + page, ShortPage)
                else if offset + perPage >= |feeds(k)| then (all + page, ReachedTotal)
                else PageFrom(server, perPage, k + 1, offset + perPage, all + page);
      assert Met(feeds, perPage, item, k, offset)
             <==> item in page || (offset + perPage < |feeds(k)| && Met(feeds, perPage, item, k + 1, offset + perPage));
      hide PageFrom, Met;
      if |page| == perPage && offset + perPage < |feeds(k)| {
        FoundFromIff(server, feeds, perPage, cap, item, k + 1, offset + perPage, all + page);
      }
    }
  }

  /** Exactly what a finished loop has collected, on a feed that may change in any way between two
      requests: the items that were on the page asked for at the time it was asked for. */
  lemma FoundIff(server: Server, feeds: nat -> seq<Item>, perPage: nat, cap: nat, item: Item)
    requires Honest(server, feeds, perPage, cap) && perPage <= cap
    ensures var (found, end) := PageFrom(server, perPage, 0, 0, []);
            Finished(end) ==> (item in found <==> Met(feeds, perPage, item, 0, 0))
  {
    FoundFromIff(server, feeds, perPage, cap, item, 0, 0, []);
  }

  /** `item` is listed at every request, and from one to the next it never moves to the front. */
  ghost predicate NeverRises(feeds: nat -> seq<Item>, item: Item, depth: nat -> nat) {
    && (forall k: nat :: depth(k) < |feeds(k)| && feeds(k)[depth(k)] == item)
    && (forall k: nat :: depth(k) <= depth(k + 1))
  }

  lemma {:induction false} SettledIsMet(feeds: nat -> seq<Item>, perPage: nat, item: Item, depth: nat -> nat, k: nat, offset: nat)
    requires NeverRises(feeds, item, depth) && offset <= depth(k)
    ensures Met(feeds, perPage, item, k, offset)
    decreases MAX_PAGES - k
  {
    if k < MAX_PAGES && offset + perPage <= depth(k) {
      assert depth(k) <= depth(k + 1);
      SettledIsMet(feeds, perPage, item, depth, k + 1, offset + perPage);
    }
  }

  /** An item that stays listed and never moves to the front is collected, whatever else happens to
      the feed, whenever the loop ends on a short page or on the announced total. */
  lemma SettledItemsAreFound(server: Server, feeds: nat -> seq<Item>, perPage: nat, cap: nat,
                             item: Item, depth: nat -> nat)
    requires Honest(server, feeds, perPage, cap) && perPage <= cap && NeverRises(feeds, item, depth)
    ensures var (found, end) := PageFrom(server, perPage, 0, 0, []); Finished(end) ==> item in found
  {
    SettledIsMet(feeds, perPage, item, depth, 0, 0);
    FoundIff(server, feeds, perPage, cap, item);
  }

  /** Offset paging never skips. If the node serves pages as long as they are asked for and its feed
      only grows in front, then whenever the loop ends on a short page or on the announced total,
      everything that was listed when it began has been collected. */
  lemma PagingNeverSkips(server: Server, feeds: nat -> seq<Item>, perPage: nat, cap: nat)
    requires Honest(server, feeds, perPage, cap) && GrowsInFront(feeds) && perPage <= cap
    ensures var (found, end) := PageFrom(server, perPage, 0, 0, []);
            Finished(end) ==> forall item :: item in feeds(0) ==> item in found
  {
    var (found, end) := PageFrom(server, perPage, 0, 0, []);
    forall item | Finished(end) && item in feeds(0) ensures item in found {
      var p :| 0 <= p < |feeds(0)| && feeds(0)[p] == item;
      var depth := (k: nat) => if |feeds(k)| < |feeds(0)| then 0 else |feeds(k)| - |feeds(0)| + p;
      forall k: nat ensures depth(k) < |feeds(k)| && feeds(k)[depth(k)] == item && depth(k) <= depth(k + 1) {
        GrownSinceFirst(feeds, k);
        GrownSinceFirst(feeds, k + 1);
        assert GrowsAt(feeds, k);
        assert feeds(k)[|feeds(k)| - |feeds(0)|..][p] == item;
      }
      SettledItemsAreFound(server, feeds, perPage, cap, item, depth);
    }
  }

  lemma {:induction false} GrownSinceFirst(feeds: nat -> seq<Item>, k: nat)
    requires GrowsInFront(feeds)
    ensures Extends(feeds(0), feeds(k))
  {
    if k > 0 {
      GrownSinceFirst(feeds, k - 1);
      var a, b, c := feeds(0), feeds(k - 1), feeds(k);
      assert GrowsAt(feeds, k - 1);
      assert c[|c| - |a|..] == c[|c| - |b|..][|b| - |a|..];
    }
  }

  lemma TimesLess(a: nat, b: nat, m: nat)
    requires a * m < b * m
    ensures a < b
  {
  }

  lemma TimesNext(k: nat, m: nat)
    ensures (k + 1) * m == k * m + m
  {
  }

  /** And it does end that way unless a request fails, as long as the feed stays within what the
      page bound can hold. */
  lemma PagingFinishes(server: Server, feeds: nat -> seq<Item>, perPage: nat, cap: nat)
    requires Honest(server, feeds, perPage, cap) && 0 < perPage <= cap
    requires forall j: nat :: |feeds(j)| <= MAX_PAGES * perPage
    ensures var end := PageFrom(server, perPage, 0, 0, []).1; Finished(end) || end == RequestFailed
  {
    PagingFinishesFrom(server, feeds, perPage, cap, 0, 0, MAX_PAGES * perPage, []);
  }

  lemma {:induction false} PagingFinishesFrom(server: Server, feeds: nat -> seq<Item>, perPage: nat, cap: nat,
                                              k: nat, offset: nat, bound: nat, all: seq<Item>)
    requires Honest(server, feeds, perPage, cap) && 0 < perPage <= cap && k < MAX_PAGES
    requires offset == k * perPage && bound == MAX_PAGES * perPage && forall j: nat :: |feeds(j)| <= bound
    ensures var end := PageFrom(server, perPage, k, offset, all).1; Finished(end) || end == RequestFailed
    decreases MAX_PAGES - k
  {
    if server(k, offset).Page? {
      var page := server(k, offset).items;
      assert server(k, offset) == Page(Window(feeds(k), offset, Min(perPage, cap)), Some(|feeds(k)|));
      if |page| == perPage && offset + perPage < |feeds(k)| {
        assert |feeds(k)| <= bound;
        TimesNext(k, perPage);
        TimesLess(k + 1, MAX_PAGES, perPage);
        PagingFinishesFrom(server, feeds, perPage, cap, k + 1, offset + perPage, bound, all + page);
      }
    }
  }

  // ---- where it does skip

  /** Asking for more per page than the node's own cap makes the first page look short: the loop
      stops with the newest `cap` items, which is everything exactly when the feed fits one page. */
  lemma AskingAboveTheCapTruncates(server: Server, feeds: nat -> seq<Item>, perPage: nat, cap: nat)
    requires Honest(server, feeds, perPage, cap) && cap < perPage && server(0, 0).Page?
    requires forall i, j :: 0 <= i < j < |feeds(0)| ==> feeds(0)[i] != feeds(0)[j]
    ensures PageFrom(server, perPage, 0, 0, []) == (Window(feeds(0), 0, cap), ShortPage)
    ensures (forall item :: item in feeds(0) ==> item in Window(feeds(0), 0, cap)) <==> |feeds(0)| <= cap
  {
    var page := Window(feeds(0), 0, cap);
    assert [] + page == page;
    if |feeds(0)| > cap {
      var missed := feeds(0)[cap];
      assert missed in feeds(0) && missed !in page;
    }
  }

  /** The smallest case in which `Met` fails for an item listed throughout: the feed loses its first
      item between two requests, and the one behind it moves to a page already read. */
  lemma ShrinkingFeedSkips(a: Item, b: Item, c: Item)
    requires a != b && b != c && a != c
    ensures var feeds := (k: nat) => if k == 0 then [a, b, c] else [b, c];
            var server := (k: nat, offset: nat) => Page(Window(feeds(k), offset, 1), Some(|feeds(k)|));
            && Honest(server, feeds, 1, 1)
            && Finished(PageFrom(server, 1, 0, 0, []).1)
            && b in feeds(0) && b in feeds(1) && b !in PageFrom(server, 1, 0, 0, []).0
  {
    var feeds := (k: nat) => if k == 0 then [a, b, c] else [b, c];
    var server := (k: nat, offset: nat) => Page(Window(feeds(k), offset, 1), Some(|feeds(k)|));
    assert Window([a, b, c], 0, 1) == [a] && Window([b, c], 1, 1) == [c];
    assert PageFrom(server, 1, 1, 1, [a]) == ([a] + [c], ReachedTotal);
    assert [] + [a] == [a];
    assert PageFrom(server, 1, 0, 0, []) == ([a] + [c], ReachedTotal);
  }
}
