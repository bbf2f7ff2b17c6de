/** The pin set: confirmed proposals, one per hash, oldest first. */
module Pins {
  import opened Text
  import opened Hashes
  import opened Totals
  import opened Paging

  function MaxHeight(tip: nat, confirmations: nat): nat {
    SatSub(tip, confirmations)
  }

  /** A block is this deep in the chain; on a chain shorter than that, only its very first one counts. */
  predicate Confirmed(height: nat, tip: nat, confirmations: nat) {
    height + confirmations <= tip || (tip < confirmations && height == 0)
  }

  lemma MaxHeightIsConfirmed(height: nat, tip: nat, confirmations: nat)
    ensures height <= MaxHeight(tip, confirmations) <==> Confirmed(height, tip, confirmations)
  {
  }

  function Flatten(fetched: seq<seq<Item>>): seq<Item> {
    if fetched == [] then [] else Flatten(fetched[..|fetched| - 1]) + fetched[|fetched| - 1]
  }

  /** Position of the first confirmed item under this hash, or the length when there is none. */
  function FirstOf(items: seq<Item>, maxH: nat, hash: string): (n: nat)
    ensures n <= |items|
    ensures n < |items| ==> items[n].height <= maxH && Lower(items[n].hash) == hash
    ensures forall i :: 0 <= i < n ==> !(items[i].height <= maxH && Lower(items[i].hash) == hash)
  {
    if items == [] then 0
    else if items[0].height <= maxH && Lower(items[0].hash) == hash then 0
    else 1 + FirstOf(items[1..], maxH, hash)
  }

  /** Every pin is the first confirmed proposal of its hash, and every confirmed hash has one. */
  ghost predicate Collects(byHash: map<string, Item>, items: seq<Item>, maxH: nat) {
    && (forall i :: 0 <= i < |items| && items[i].height <= maxH ==> Lower(items[i].hash) in byHash)
    && (forall h :: h in byHash ==> IsFirst(byHash[h], items, maxH, h))
  }

  ghost predicate IsFirst(pin: Item, items: seq<Item>, maxH: nat, h: string) {
    var n := FirstOf(items, maxH, h);
    n < |items| && pin == items[n].(hash := h)
  }

  lemma {:induction false} FirstOfAppend(items: seq<Item>, x: Item, maxH: nat, hash: string)
    ensures var n := FirstOf(items, maxH, hash);
            FirstOf(items + [x], maxH, hash)
            == if n < |items| then n
               else if x.height <= maxH && Lower(x.hash) == hash then |items| else |items| + 1
  {
    if items != [] {
      assert (items + [x])[1..] == items[1..] + [x];
      FirstOfAppend(items[1..], x, maxH, hash);
    } else {
      assert [] + [x] == [x];
    }
  }

  lemma CollectsNext(byHash: map<string, Item>, items: seq<Item>, x: Item, maxH: nat)
    requires Collects(byHash, items, maxH)
    ensures var h := Lower(x.hash);
            Collects(if x.height > maxH || h in byHash then byHash else byHash[h := x.(hash := h)], items + [x], maxH)
  {
    var h := Lower(x.hash);
    var after := if x.height > maxH || h in byHash then byHash else byHash[h := x.(hash := h)];
    forall g | g in after ensures IsFirst(after[g], items + [x], maxH, g) {
      FirstOfAppend(items, x, maxH, g);
    }
    forall i | 0 <= i < |items + [x]| && (items + [x])[i].height <= maxH
      ensures Lower((items + [x])[i].hash) in after
    {
      if i < |items| {
        assert (items + [x])[i] == items[i];
      }
    }
  }

  ghost predicate SortedByHeight(pins: seq<Item>) {
    forall i, j :: 0 <= i < j < |pins| ==> pins[i].height <= pins[j].height
  }

  function InsertAt(xs: seq<Item>, n: nat, x: Item): (r: seq<Item>)
    requires n <= |xs|
    ensures |r| == |xs| + 1
    ensures forall k :: 0 <= k < |r| ==> r[k] == if k < n then xs[k] else if k == n then x else xs[k - 1]
  {
    xs[..n] + [x] + xs[n..]
  }

  lemma InsertAdds(xs: seq<Item>, n: nat, x: Item)
    requires n <= |xs|
    ensures multiset(InsertAt(xs, n, x)) == multiset(xs) + multiset{x}
  {
    assert xs == xs[..n] + xs[n..];
  }

  lemma InsertKeepsSorted(xs: seq<Item>, n: nat, x: Item)
    requires SortedByHeight(xs) && n <= |xs|
    requires n > 0 ==> xs[n - 1].height <= x.height
    requires n < |xs| ==> x.height <= xs[n].height
    ensures SortedByHeight(InsertAt(xs, n, x))
  {
    var r := InsertAt(xs, n, x);
    forall i, j | 0 <= i < j < |r| ensures r[i].height <= r[j].height {
      assert i == n || r[i] == xs[if i < n then i else i - 1];
      assert j == n || r[j] == xs[if j < n then j else j - 1];
    }
  }

  /** The items of one height, in order. */
  function AtHeight(xs: seq<Item>, height: nat): seq<Item> {
    if xs == [] then []
    else AtHeight(xs[..|xs| - 1], height) + if xs[|xs| - 1].height == height then [xs[|xs| - 1]] else []
  }

  lemma {:induction false} AtHeightAppend(xs: seq<Item>, ys: seq<Item>, height: nat)
    ensures AtHeight(xs + ys, height) == AtHeight(xs, height) + AtHeight(ys, height)
  {
    if ys == [] {
      assert xs + ys == xs;
    } else {
      var n := |ys| - 1;
      assert (xs + ys)[..|xs + ys| - 1] == xs + ys[..n];
      AtHeightAppend(xs, ys[..n], height);
    }
  }

  lemma {:induction false} NoneAtHeight(xs: seq<Item>, height: nat)
    requires forall i :: 0 <= i < |xs| ==> xs[i].height != height
    ensures AtHeight(xs, height) == []
  {
    if xs != [] {
      NoneAtHeight(xs[..|xs| - 1], height);
    }
  }

  /** Inserted behind those not above it, an item comes last among those of its height. */
  lemma InsertKeepsOrder(xs: seq<Item>, n: nat, x: Item, height: nat)
    requires SortedByHeight(xs) && n <= |xs| && (n < |xs| ==> x.height < xs[n].height)
    ensures AtHeight(InsertAt(xs, n, x), height) == AtHeight(xs + [x], height)
  {
    hide AtHeight, SortedByHeight;
    var a, b, one := xs[..n], xs[n..], [x];
    assert xs == a + b;
    AtHeightAppend(a + one, b, height);
    AtHeightAppend(a, one, height);
    AtHeightAppend(a, b, height);
    AtHeightAppend(xs, one, height);
    if height == x.height {
      BehindIsHigher(xs, n);
      NoneAtHeight(b, height);
    } else {
      NoneAtHeight(one, height);
    }
  }

  lemma BehindIsHigher(xs: seq<Item>, n: nat)
    requires SortedByHeight(xs) && n <= |xs|
    ensures forall i :: 0 <= i < |xs| - n ==> xs[n..][i].height >= xs[n].height
  {
  }

  ghost predicate SameOrder(xs: seq<Item>, ys: seq<Item>) {
    forall height: nat :: AtHeight(xs, height) == AtHeight(ys, height)
  }

  lemma SameOrderNext(sorted: seq<Item>, n: nat, x: Item, pins: seq<Item>)
    requires SortedByHeight(sorted) && n <= |sorted| && (n < |sorted| ==> x.height < sorted[n].height)
    requires SameOrder(sorted, pins)
    ensures SameOrder(InsertAt(sorted, n, x), pins + [x])
  {
    forall height: nat ensures AtHeight(InsertAt(sorted, n, x), height) == AtHeight(pins + [x], height) {
      InsertKeepsOrder(sorted, n, x, height);
      AtHeightAppend(sorted, [x], height);
      AtHeightAppend(pins, [x], height);
    }
  }

  /** `sort_by_key(height)`: a stable insertion of each pin behind those not above it. */
  method SortByHeight(pins: seq<Item>) returns (sorted: seq<Item>)
    ensures SortedByHeight(sorted) && multiset(sorted) == multiset(pins)
    ensures SameOrder(sorted, pins)
  {
    hide InsertAt, SortedByHeight, SameOrder;
    sorted := [];
    SortedEmpty();
    for i := 0 to |pins|
      invariant SortedByHeight(sorted) && multiset(sorted) == multiset(pins[..i])
      invariant SameOrder(sorted, pins[..i])
    {
      assert pins[..i + 1] == pins[..i] + [pins[i]];
      var n := |sorted|;
      while n > 0 && sorted[n - 1].height > pins[i].height
        invariant 0 <= n <= |sorted|
        invariant n < |sorted| ==> sorted[n].height > pins[i].height
      {
        n := n - 1;
      }
      InsertKeepsSorted(sorted, n, pins[i]);
      InsertAdds(sorted, n, pins[i]);
      SameOrderNext(sorted, n, pins[i], pins[..i]);
      sorted := InsertAt(sorted, n, pins[i]);
    }
    assert pins[..|pins|] == pins;
  }

  lemma SortedEmpty()
    ensures SortedByHeight([]) && SameOrder([], [])
  {
  }

  /** What a pin list says about the proposals it was made from. */
  ghost predicate PinsOf(out: seq<Item>, items: seq<Item>, maxH: nat) {
    && SortedByHeight(out)
    && (forall i, j :: 0 <= i < j < |out| ==> out[i].hash != out[j].hash)
    && (forall i :: 0 <= i < |out| ==> IsFirst(out[i], items, maxH, out[i].hash))
    && (forall i :: 0 <= i < |items| && items[i].height <= maxH ==>
          exists j :: 0 <= j < |out| && out[j].hash == Lower(items[i].hash))
  }

  lemma SortedPinsAreDistinct(out: seq<Item>, pins: seq<Item>)
    requires multiset(out) == multiset(pins)
    requires forall i, j :: 0 <= i < j < |pins| ==> pins[i].hash != pins[j].hash
    ensures forall i, j :: 0 <= i < j < |out| ==> out[i].hash != out[j].hash
  {
    forall i, j | 0 <= i < j < |out| ensures out[i].hash != out[j].hash {
      if out[i].hash == out[j].hash {
        assert out[i] in multiset(pins) && out[j] in multiset(pins);
        var a :| 0 <= a < |pins| && pins[a] == out[i];
        var b :| 0 <= b < |pins| && pins[b] == out[j];
        assert a == b;
        TwoCopies(out, i, j);
        OneCopy(pins, a);
      }
    }
  }

  lemma TwoCopies(xs: seq<Item>, i: nat, j: nat)
    requires i < j < |xs| && xs[i] == xs[j]
    ensures multiset(xs)[xs[i]] >= 2
  {
    assert xs == xs[..i] + [xs[i]] + xs[i + 1..j] + [xs[j]] + xs[j + 1..];
  }

  lemma OneCopy(xs: seq<Item>, a: nat)
    requires a < |xs| && forall i, j :: 0 <= i < j < |xs| ==> xs[i].hash != xs[j].hash
    ensures multiset(xs)[xs[a]] == 1
  {
    assert xs == xs[..a] + [xs[a]] + xs[a + 1..];
    assert xs[a] !in xs[..a] && xs[a] !in xs[a + 1..];
  }

  /** What paging through each domain yields, the domains in the order in which they completed. */
  function Fetched(domains: seq<Server>, perPage: nat): seq<seq<Item>> {
    seq(|domains|, d requires 0 <= d < |domains| => PageFrom(domains[d], perPage, 0, 0, []).0)
  }

  /** A confirmed proposal of this hash was fetched for some domain. */
  ghost predicate HasConfirmed(domains: seq<Server>, perPage: nat, h: string, tip: nat, confirmations: nat) {
    exists d, item :: 0 <= d < |domains| && item in PageFrom(domains[d], perPage, 0, 0, []).0
                      && Lower(item.hash) == h && Confirmed(item.height, tip, confirmations)
  }

  lemma PinnedIffConfirmed(out: seq<Item>, domains: seq<Server>, perPage: nat, tip: nat, confirmations: nat)
    requires PinsOf(out, Flatten(Fetched(domains, perPage)), MaxHeight(tip, confirmations))
    ensures forall h :: h in HashesIn(out) <==> HasConfirmed(domains, perPage, h, tip, confirmations)
    ensures forall pin :: pin in out ==> Confirmed(pin.height, tip, confirmations)
  {
    var maxH, items := MaxHeight(tip, confirmations), Flatten(Fetched(domains, perPage));
    forall pin | pin in out ensures Confirmed(pin.height, tip, confirmations) {
      var i :| 0 <= i < |out| && out[i] == pin;
      assert IsFirst(out[i], items, maxH, out[i].hash);
      MaxHeightIsConfirmed(pin.height, tip, confirmations);
    }
    hide PinsOf, MaxHeight, Confirmed;
    forall h ensures h in HashesIn(out) <==> HasConfirmed(domains, perPage, h, tip, confirmations) {
      if h in HashesIn(out) {
        PinnedWasServed(out, maxH, domains, perPage, h);
        var d, item :| 0 <= d < |domains| && item in PageFrom(domains[d], perPage, 0, 0, []).0
                       && item.height <= maxH && Lower(item.hash) == h;
        MaxHeightIsConfirmed(item.height, tip, confirmations);
      }
      if HasConfirmed(domains, perPage, h, tip, confirmations) {
        var d, item :| 0 <= d < |domains| && item in PageFrom(domains[d], perPage, 0, 0, []).0
                       && Lower(item.hash) == h && Confirmed(item.height, tip, confirmations);
        MaxHeightIsConfirmed(item.height, tip, confirmations);
        ConfirmedIsPinned(out, maxH, domains, perPage, d, item);
      }
    }
  }

  lemma ConfirmedIsPinned(out: seq<Item>, maxH: nat, domains: seq<Server>, perPage: nat, d: nat, item: Item)
    requires PinsOf(out, Flatten(Fetched(domains, perPage)), maxH) && d < |domains|
    requires item in PageFrom(domains[d], perPage, 0, 0, []).0 && item.height <= maxH
    ensures Lower(item.hash) in HashesIn(out)
  {
    hide PinsOf;
    var fetched := Fetched(domains, perPage);
    assert item in fetched[d];
    FlattenHas(fetched, item);
    PinnedHashesExact(out, Flatten(fetched), maxH);
    var i :| 0 <= i < |Flatten(fetched)| && Flatten(fetched)[i] == item;
    assert Lower(item.hash) in ConfirmedHashes(Flatten(fetched), maxH);
  }

  /** The confirmed pins, unless the tip or the list of domains cannot be had. */
  method ConfirmedPins(tip: Option<nat>, confirmations: nat, domains: Option<seq<Server>>, perPage: nat)
    returns (r: Option<seq<Item>>)
    ensures r.Some? <==> tip.Some? && domains.Some?
    ensures r.Some? ==> PinsOf(r.value, Flatten(Fetched(domains.value, perPage)), MaxHeight(tip.value, confirmations))
    ensures r.Some? ==> forall h :: h in HashesIn(r.value) <==> HasConfirmed(domains.value, perPage, h, tip.value, confirmations)
    ensures r.Some? ==> forall pin :: pin in r.value ==> Confirmed(pin.height, tip.value, confirmations)
  {
    if tip.None? || domains.None? {
      return None;
    }
    var fetched: seq<seq<Item>> := [];
    for d := 0 to |domains.value|
      invariant fetched == Fetched(domains.value[..d], perPage)
    {
      var all, end := FetchDomain(domains.value[d], perPage);
      fetched := fetched + [all];
    }
    assert domains.value[..|domains.value|] == domains.value;
    var out := PinsFrom(tip.value, confirmations, fetched);
    PinnedIffConfirmed(out, domains.value, perPage, tip.value, confirmations);
    r := Some(out);
  }

  /** From the fetched proposals to the pin list. */
  method PinsFrom(tip: nat, confirmations: nat, fetched: seq<seq<Item>>) returns (out: seq<Item>)
    ensures PinsOf(out, Flatten(fetched), MaxHeight(tip, confirmations))
  {
    var maxH := MaxHeight(tip, confirmations);
    var byHash: map<string, Item> := map[];
    for d := 0 to |fetched|
      invariant Collects(byHash, Flatten(fetched[..d]), maxH)
    {
      ghost var earlier := Flatten(fetched[..d]);
      assert fetched[..d + 1][..d] == fetched[..d];
      var ps := fetched[d];
      assert earlier + ps[..0] == earlier;
      for i := 0 to |ps|
        invariant Collects(byHash, earlier + ps[..i], maxH)
      {
        assert earlier + ps[..i + 1] == earlier + ps[..i] + [ps[i]];
        CollectsNext(byHash, earlier + ps[..i], ps[i], maxH);
        var p := ps[i];
        if p.height > maxH {
          continue;
        }
        var h := Lower(p.hash);
        if h !in byHash {
          byHash := byHash[h := p.(hash := h)];
        }
      }
      assert ps[..|ps|] == ps;
    }
    assert fetched[..|fetched|] == fetched;
    forall h | h in byHash ensures byHash[h].hash == h {
      assert IsFirst(byHash[h], Flatten(fetched), maxH, h);
    }
    var pins := Values(byHash);
    out := SortByHeight(pins);
    PinsSurviveSort(out, pins, Flatten(fetched), maxH, byHash);
  }

  /** `into_values`: the map's values in some order. */
  method Values(byHash: map<string, Item>) returns (pins: seq<Item>)
    requires forall h :: h in byHash ==> byHash[h].hash == h
    ensures forall i, j :: 0 <= i < j < |pins| ==> pins[i].hash != pins[j].hash
    ensures forall p :: p in pins <==> p.hash in byHash && byHash[p.hash] == p
  {
    pins := [];
    var todo := byHash.Keys;
    while todo != {}
      invariant todo <= byHash.Keys
      invariant forall i, j :: 0 <= i < j < |pins| ==> pins[i].hash != pins[j].hash
      invariant forall p :: p in pins <==> p.hash in byHash && p.hash !in todo && byHash[p.hash] == p
      decreases todo
    {
      var h :| h in todo;
      todo, pins := todo - {h}, pins + [byHash[h]];
    }
  }

  lemma PinsSurviveSort(out: seq<Item>, pins: seq<Item>, items: seq<Item>, maxH: nat, byHash: map<string, Item>)
    requires Collects(byHash, items, maxH) && SortedByHeight(out) && multiset(out) == multiset(pins)
    requires forall i, j :: 0 <= i < j < |pins| ==> pins[i].hash != pins[j].hash
    requires forall p :: p in pins <==> p.hash in byHash && byHash[p.hash] == p
    ensures PinsOf(out, items, maxH)
  {
    SortedPinsAreDistinct(out, pins);
    forall i | 0 <= i < |out| ensures IsFirst(out[i], items, maxH, out[i].hash) {
      assert out[i] in multiset(pins);
    }
    forall i | 0 <= i < |items| && items[i].height <= maxH
      ensures exists j :: 0 <= j < |out| && out[j].hash == Lower(items[i].hash)
    {
      var h := Lower(items[i].hash);
      assert IsFirst(byHash[h], items, maxH, h);
      assert byHash[h] in multiset(out);
      var j :| 0 <= j < |out| && out[j] == byHash[h];
    }
  }

  ghost function HashesIn(items: seq<Item>): set<string> {
    set i | 0 <= i < |items| :: items[i].hash
  }

  ghost function ConfirmedHashes(items: seq<Item>, maxH: nat): set<string> {
    set i | 0 <= i < |items| && items[i].height <= maxH :: Lower(items[i].hash)
  }

  /** The pinned hashes are exactly the confirmed ones. */
  lemma PinnedHashesExact(out: seq<Item>, items: seq<Item>, maxH: nat)
    requires PinsOf(out, items, maxH)
    ensures HashesIn(out) == ConfirmedHashes(items, maxH)
  {
    forall i | 0 <= i < |out| ensures out[i].hash in ConfirmedHashes(items, maxH) {
      assert IsFirst(out[i], items, maxH, out[i].hash);
    }
    forall i | 0 <= i < |items| && items[i].height <= maxH ensures Lower(items[i].hash) in HashesIn(out) {
      var j :| 0 <= j < |out| && out[j].hash == Lower(items[i].hash);
    }
  }

  /** Neither the order in which domains complete nor an item listed twice changes the pinned hashes. */
  lemma PinnedHashesIgnoreOrder(out: seq<Item>, items: seq<Item>, out': seq<Item>, items': seq<Item>, maxH: nat)
    requires PinsOf(out, items, maxH) && PinsOf(out', items', maxH)
    requires forall item :: item in items <==> item in items'
    ensures HashesIn(out) == HashesIn(out') && |out| == |out'|
  {
    PinnedHashesExact(out, items, maxH);
    PinnedHashesExact(out', items', maxH);
    SameItemsSameHashes(items, items', maxH);
    SameItemsSameHashes(items', items, maxH);
    DistinctHashesCount(out);
    DistinctHashesCount(out');
  }

  lemma SameItemsSameHashes(items: seq<Item>, items': seq<Item>, maxH: nat)
    requires forall item :: item in items ==> item in items'
    ensures ConfirmedHashes(items, maxH) <= ConfirmedHashes(items', maxH)
  {
    forall h | h in ConfirmedHashes(items, maxH) ensures h in ConfirmedHashes(items', maxH) {
      var i :| 0 <= i < |items| && items[i].height <= maxH && Lower(items[i].hash) == h;
      assert items[i] in items';
      var j :| 0 <= j < |items'| && items'[j] == items[i];
    }
  }

  lemma {:induction false} DistinctHashesCount(out: seq<Item>)
    requires forall i, j :: 0 <= i < j < |out| ==> out[i].hash != out[j].hash
    ensures |HashesIn(out)| == |out|
  {
    if out != [] {
      var n := |out| - 1;
      DistinctHashesCount(out[..n]);
      assert HashesIn(out) == HashesIn(out[..n]) + {out[n].hash};
    }
  }

  lemma {:induction false} FlattenHas(fetched: seq<seq<Item>>, item: Item)
    ensures item in Flatten(fetched) <==> exists d :: 0 <= d < |fetched| && item in fetched[d]
  {
    if fetched != [] {
      var n := |fetched| - 1;
      FlattenHas(fetched[..n], item);
      assert forall d :: 0 <= d < n ==> fetched[..n][d] == fetched[d];
    }
  }

  /** From feed to pin list. Every proposal that was confirmed and listed when the enumeration of its
      domain began is pinned, if the node pages honestly, its feed only grows in front meanwhile, and
      the loop ends by itself. */
  lemma ListedAndConfirmedIsPinned(out: seq<Item>, maxH: nat, domains: seq<Server>, perPage: nat,
                                   d: nat, feeds: nat -> seq<Item>, cap: nat, item: Item)
    requires PinsOf(out, Flatten(Fetched(domains, perPage)), maxH) && d < |domains|
    requires Honest(domains[d], feeds, perPage, cap) && GrowsInFront(feeds) && perPage <= cap
    requires Finished(PageFrom(domains[d], perPage, 0, 0, []).1)
    requires item in feeds(0) && item.height <= maxH
    ensures Lower(item.hash) in HashesIn(out)
  {
    hide PinsOf, Honest, GrowsInFront;
    PagingNeverSkips(domains[d], feeds, perPage, cap);
    ConfirmedIsPinned(out, maxH, domains, perPage, d, item);
  }

  /** And nothing else is: what is pinned was served for some domain, confirmed. */
  lemma PinnedWasServed(out: seq<Item>, maxH: nat, domains: seq<Server>, perPage: nat, h: string)
    requires PinsOf(out, Flatten(Fetched(domains, perPage)), maxH) && h in HashesIn(out)
    ensures exists d, item :: 0 <= d < |domains| && item in PageFrom(domains[d], perPage, 0, 0, []).0
                              && item.height <= maxH && Lower(item.hash) == h
  {
    hide PinsOf;
    var fetched := Fetched(domains, perPage);
    PinnedHashesExact(out, Flatten(fetched), maxH);
    var i :| 0 <= i < |Flatten(fetched)| && Flatten(fetched)[i].height <= maxH && Lower(Flatten(fetched)[i].hash) == h;
    FlattenHas(fetched, Flatten(fetched)[i]);
    var d :| 0 <= d < |fetched| && Flatten(fetched)[i] in fetched[d];
    assert fetched[d] == PageFrom(domains[d], perPage, 0, 0, []).0;
  }

  /** The store keys of a pin list: its hashes in normal form. */
  ghost function Keys(pins: seq<Item>): set<string> {
    set i | 0 <= i < |pins| :: Norm(pins[i].hash)
  }
}
