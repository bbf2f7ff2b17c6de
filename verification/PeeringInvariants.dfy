/** What every run of the event loop keeps, whatever the peers send. */
module PeeringInvariants {
  import opened Text
  import opened Hashes
  import opened Peering

  function Count<T>(log: seq<(nat, T)>, n: nat): nat {
    if log == [] then 0 else Count(log[..|log| - 1], n) + if log[|log| - 1].0 == n then 1 else 0
  }

  lemma CountSnoc<T>(log: seq<(nat, T)>, x: (nat, T), n: nat)
    ensures Count(log + [x], n) == Count(log, n) + if x.0 == n then 1 else 0
  {
    assert (log + [x])[..|log|] == log;
  }

  lemma {:induction false} CountTail<T>(log: seq<(nat, T)>, n: nat)
    requires log != []
    ensures Count(log, n) == Count(log[1..], n) + if log[0].0 == n then 1 else 0
  {
    if |log| > 1 {
      var k := |log| - 1;
      CountTail(log[..k], n);
      assert log[..k][1..] == log[1..][..k - 1];
    } else {
      assert log[1..] == [] && log[..0] == [];
    }
  }

  // ---- providers

  ghost predicate GoodEntry(h: string, peers: set<PeerId>) {
    IsCanonical(h) && peers != {} && |peers| <= MAX_PEERS_PER_HASH
  }

  /** Bounded, and keyed by canonical hashes with between 1 and 64 peers each. */
  ghost predicate ProvidersBounded(providers: Providers) {
    && |providers| <= MAX_TRACKED_HASHES
    && forall h :: h in providers ==> GoodEntry(h, providers[h])
  }

  /** `after` has everything `before` had, and otherwise only what the lines announce. */
  ghost predicate GrowsBy(before: Providers, after: Providers,
                          lines: seq<string>, source: PeerId) {
    && (forall h :: h in before ==> h in after && before[h] <= after[h])
    && (forall h, p :: h in after && p in after[h] ==>
          (h in before && p in before[h]) || (p == source && Names(lines, h)))
  }

  ghost predicate Names(lines: seq<string>, h: string) {
    exists l :: l in lines && Norm(l) == h
  }

  lemma NamesNext(lines: seq<string>, h: string)
    requires lines != []
    ensures Names(lines, h) <==> Names(lines[..|lines| - 1], h) || Names([lines[|lines| - 1]], h)
  {
    hide Norm;
    assert lines == lines[..|lines| - 1] + [lines[|lines| - 1]];
    if Names([lines[|lines| - 1]], h) {
      assert lines[|lines| - 1] in lines;
    }
  }

  lemma GrowsByNext(first: Providers, before: Providers, after: Providers, lines: seq<string>, source: PeerId)
    requires lines != []
    requires GrowsBy(first, before, lines[..|lines| - 1], source) && GrowsBy(before, after, [lines[|lines| - 1]], source)
    ensures GrowsBy(first, after, lines, source)
  {
    hide Names;
    forall h, p | h in after && p in after[h]
      ensures (h in first && p in first[h]) || (p == source && Names(lines, h))
    {
      NamesNext(lines, h);
    }
  }

  lemma InsertSize<V>(m: map<string, V>, h: string, v: V)
    ensures m[h := v].Keys == m.Keys + {h}
    ensures |m[h := v]| == |m| + if h in m then 0 else 1
  {
    assert m[h := v].Keys == m.Keys + {h};
    assert |m[h := v].Keys| == |m[h := v]| && |m.Keys| == |m|;
  }

  lemma AddPeerBounds(peers: set<PeerId>, source: PeerId)
    requires |peers| <= MAX_PEERS_PER_HASH
    ensures var after := AddPeer(peers, source);
            peers <= after <= peers + {source} && after != {} && |after| <= MAX_PEERS_PER_HASH
  {
    if |peers| < MAX_PEERS_PER_HASH {
      assert |peers + {source}| <= |peers| + |{source}|;
    }
  }

  lemma EntryKeepsBounded(providers: Providers, h: string, peers: set<PeerId>)
    requires ProvidersBounded(providers) && GoodEntry(h, peers)
    requires h in providers || |providers| < MAX_TRACKED_HASHES
    ensures ProvidersBounded(providers[h := peers])
  {
    hide GoodEntry;
    InsertSize(providers, h, peers);
  }

  lemma AddProviderBounded(providers: Providers, hash: string, source: PeerId)
    requires ProvidersBounded(providers)
    ensures ProvidersBounded(AddProvider(providers, Norm(hash), source))
  {
    var h := Norm(hash);
    if IsValidHash(h) {
      ValidNormIsCanonical(hash);
    }
    hide Norm, IsValidHash, IsCanonical;
    var peers := if h in providers then providers[h] else {};
    assert h in providers ==> GoodEntry(h, providers[h]);
    AddPeerBounds(peers, source);
    hide AddPeer;
    if IsValidHash(h) && (h in providers || |providers| < MAX_TRACKED_HASHES) {
      assert GoodEntry(h, AddPeer(peers, source));
      EntryKeepsBounded(providers, h, AddPeer(peers, source));
    }
    hide ProvidersBounded;
  }

  lemma AddProviderGrows(providers: Providers, hash: string, source: PeerId)
    requires ProvidersBounded(providers)
    ensures GrowsBy(providers, AddProvider(providers, Norm(hash), source), [hash], source)
  {
    hide Norm, IsValidHash, AddPeer, IsCanonical;
    var h := Norm(hash);
    assert h in providers ==> GoodEntry(h, providers[h]);
    AddPeerBounds(if h in providers then providers[h] else {}, source);
    assert hash in [hash];
  }

  lemma GrowsByItself(providers: Providers, source: PeerId)
    ensures GrowsBy(providers, providers, [], source)
  {
  }

  lemma {:induction false} AddProvidersKeep(providers: Providers, lines: seq<string>, source: PeerId)
    requires ProvidersBounded(providers)
    ensures ProvidersBounded(AddProviders(providers, lines, source))
    ensures GrowsBy(providers, AddProviders(providers, lines, source), lines, source)
    decreases |lines|
  {
    hide ProvidersBounded, AddProvider, Norm, GrowsBy;
    GrowsByItself(providers, source);
    if lines != [] {
      var n := |lines| - 1;
      var before := AddProviders(providers, lines[..n], source);
      AddProvidersKeep(providers, lines[..n], source);
      AddProviderBounded(before, lines[n], source);
      AddProviderGrows(before, lines[n], source);
      GrowsByNext(providers, before, AddProvider(before, Norm(lines[n]), source), lines, source);
    }
  }

  // ---- wants

  /** Want `r` is waiting in some pending entry. */
  ghost predicate Waiting(w: Wants, r: nat) {
    exists q :: q in w.pending && w.pending[q].1 == r
  }

  /** Each want is either answered, once, or sits in one pending entry. */
  ghost predicate WantsConserved(w: Wants) {
    && (forall r: nat :: Count(w.delivered, r) == if r < |w.wanted| && !Waiting(w, r) then 1 else 0)
    && (forall q :: q in w.pending ==> q < |w.sent| && w.pending[q].1 < |w.wanted|)
    && (forall q, q' :: q in w.pending && q' in w.pending && w.pending[q].1 == w.pending[q'].1 ==> q == q')
  }

  /** A pending entry is for the normalised hash of its want, which is also what was asked for. */
  ghost predicate EntryTruthful(w: Wants, q: nat)
    requires q in w.pending
  {
    var (h, r) := w.pending[q];
    q < |w.sent| && r < |w.wanted| && IsCanonical(h) && h == Norm(w.wanted[r]) && w.sent[q].1 == "0x" + h
  }

  /** Delivered bytes hash to the normalised hash of their want and are within the cap. */
  ghost predicate AnswerTruthful(w: Wants, maxBytes: nat, answer: (nat, Option<Bytes>)) {
    answer.1.Some? ==>
      && answer.0 < |w.wanted| && Sha256Hex(answer.1.value) == Norm(w.wanted[answer.0])
      && |answer.1.value| <= maxBytes
  }

  ghost predicate WantsTruthful(w: Wants, maxBytes: nat) {
    && (forall q :: q in w.pending ==> EntryTruthful(w, q))
    && (forall i :: 0 <= i < |w.delivered| ==> AnswerTruthful(w, maxBytes, w.delivered[i]))
  }

  lemma DeliverConserves(w: Wants, q: nat, outcome: Option<Bytes>)
    requires WantsConserved(w) && q in w.pending
    ensures WantsConserved(Deliver(w, q, outcome))
  {
    var w' := Deliver(w, q, outcome);
    var reply := w.pending[q].1;
    forall r: nat ensures Count(w'.delivered, r) == if r < |w.wanted| && !Waiting(w', r) then 1 else 0 {
      CountSnoc(w.delivered, (reply, outcome), r);
      if r != reply && Waiting(w, r) {
        var p :| p in w.pending && w.pending[p].1 == r;
        assert p in w'.pending && w'.pending[p].1 == r;
      }
      assert r == reply ==> Waiting(w, r);
    }
  }

  lemma QueryConserves(w: Wants, hash: string, peer: PeerId)
    requires WantsConserved(w)
    ensures WantsConserved(w.(wanted := w.wanted + [hash], sent := w.sent + [(peer, "0x" + Norm(hash))],
                              pending := w.pending[|w.sent| := (Norm(hash), |w.wanted|)]))
  {
    hide Norm;
    var w' := w.(wanted := w.wanted + [hash], sent := w.sent + [(peer, "0x" + Norm(hash))],
                 pending := w.pending[|w.sent| := (Norm(hash), |w.wanted|)]);
    forall r: nat ensures Waiting(w', r) <==> Waiting(w, r) || r == |w.wanted| {
      if Waiting(w, r) {
        var p :| p in w.pending && w.pending[p].1 == r;
        assert p in w'.pending && w'.pending[p].1 == r;
      }
      assert |w.sent| in w'.pending && w'.pending[|w.sent|].1 == |w.wanted|;
    }
  }

  lemma RefusalConserves(w: Wants, hash: string)
    requires WantsConserved(w)
    ensures WantsConserved(w.(wanted := w.wanted + [hash], delivered := w.delivered + [(|w.wanted|, None)]))
  {
    var w' := w.(wanted := w.wanted + [hash], delivered := w.delivered + [(|w.wanted|, None)]);
    forall r: nat ensures Count(w'.delivered, r) == if r < |w'.wanted| && !Waiting(w', r) then 1 else 0 {
      CountSnoc(w.delivered, (|w.wanted|, None), r);
      assert Waiting(w', r) <==> Waiting(w, r);
    }
  }

  lemma WantsConservedStep(w: Wants, maxBytes: nat, providers: Providers, e: Event)
    requires WantsConserved(w)
    ensures WantsConserved(WantsAfter(w, maxBytes, providers, e))
  {
    hide WantsConserved, Deliver, AcceptGet;
    match e
    case Want(hash, peer) =>
      QueryConserves(w, hash, peer);
      RefusalConserves(w, hash);
    case Response(q, resp) =>
      if q in w.pending {
        DeliverConserves(w, q, AcceptGet(w.pending[q].0, resp, maxBytes));
      }
    case OutboundFailure(q) =>
      if q in w.pending {
        DeliverConserves(w, q, None);
      }
    case _ =>
  }

  lemma DeliverTruthful(w: Wants, maxBytes: nat, q: nat, outcome: Option<Bytes>)
    requires WantsTruthful(w, maxBytes) && q in w.pending
    requires outcome.Some? ==> Sha256Hex(outcome.value) == Norm(w.pending[q].0) && |outcome.value| <= maxBytes
    ensures WantsTruthful(Deliver(w, q, outcome), maxBytes)
  {
    assert EntryTruthful(w, q);
    NormOfCanonical(w.pending[q].0);
    hide Sha256Hex, Norm, IsCanonical;
    var w' := Deliver(w, q, outcome);
    forall i | 0 <= i < |w'.delivered| ensures AnswerTruthful(w', maxBytes, w'.delivered[i]) {
      assert i < |w.delivered| ==> AnswerTruthful(w, maxBytes, w.delivered[i]);
    }
    forall p | p in w'.pending ensures EntryTruthful(w', p) {
      assert EntryTruthful(w, p);
    }
  }

  lemma WantTruthful(w: Wants, maxBytes: nat, providers: Providers, hash: string, peer: PeerId)
    requires WantsTruthful(w, maxBytes) && ProvidersBounded(providers)
    ensures WantsTruthful(WantsAfter(w, maxBytes, providers, Want(hash, peer)), maxBytes)
  {
    hide Sha256Hex, Norm, IsCanonical;
    var w' := WantsAfter(w, maxBytes, providers, Want(hash, peer));
    forall i | 0 <= i < |w'.delivered| ensures AnswerTruthful(w', maxBytes, w'.delivered[i]) {
      assert i < |w.delivered| ==> AnswerTruthful(w, maxBytes, w.delivered[i]);
    }
    forall p | p in w'.pending ensures EntryTruthful(w', p) {
      assert p in w.pending ==> EntryTruthful(w, p);
      assert Norm(hash) in providers ==> GoodEntry(Norm(hash), providers[Norm(hash)]);
    }
  }

  lemma WantsTruthfulStep(w: Wants, maxBytes: nat, providers: Providers, e: Event)
    requires WantsTruthful(w, maxBytes) && ProvidersBounded(providers)
    ensures WantsTruthful(WantsAfter(w, maxBytes, providers, e), maxBytes)
  {
    match e
    case Want(hash, peer) => WantTruthful(w, maxBytes, providers, hash, peer);
    case Response(q, resp) =>
      if q in w.pending {
        DeliverTruthful(w, maxBytes, q, AcceptGet(w.pending[q].0, resp, maxBytes));
      }
    case OutboundFailure(q) =>
      if q in w.pending {
        DeliverTruthful(w, maxBytes, q, None);
      }
    case _ =>
  }

  // ---- serving

  /** How many times inbound request `c` shows up: still being read, queued, or answered. */
  function Places(v: Serves, c: nat): nat {
    (if c in v.serving && !v.serving[c].HandedOver? then 1 else 0) + Count(v.queue, c) + Count(v.answered, c)
  }

  ghost predicate ServesConserved(v: Serves) {
    && v.permits + |v.serving| == MAX_CONCURRENT_SERVES
    && |v.queue| <= MAX_CONCURRENT_SERVES
    && (forall c :: c in v.serving ==> c < v.inbound)
    && (forall c: nat :: Places(v, c) == if c < v.inbound then 1 else 0)
  }

  lemma PlacesMove(v: Serves, e: Event, c: nat)
    requires ServesConserved(v)
    ensures Places(ServesAfter(v, e), c) == if c < ServesAfter(v, e).inbound then 1 else 0
  {
    hide Norm, Count;
    assert Places(v, c) == if c < v.inbound then 1 else 0;
    match e
    case HaveRequest(resp) => CountSnoc(v.answered, (v.inbound, resp), c);
    case GetRequest(_) => CountSnoc(v.answered, (v.inbound, GetResp(None)), c);
    case ServeHandsOver(k) =>
      if k in v.serving && v.serving[k].Holding? {
        CountSnoc(v.queue, (k, GetResp(v.serving[k].body)), c);
      }
    case AnswerNext =>
      if v.queue != [] {
        CountTail(v.queue, c);
        CountSnoc(v.answered, v.queue[0], c);
      }
    case _ =>
  }

  lemma ServesConservedStep(v: Serves, e: Event)
    requires ServesConserved(v)
    ensures ServesConserved(ServesAfter(v, e))
  {
    forall c: nat ensures Places(ServesAfter(v, e), c) == if c < ServesAfter(v, e).inbound then 1 else 0 {
      PlacesMove(v, e, c);
    }
    hide Places, Norm;
    match e
    case GetRequest(_) =>
      assert v.inbound !in v.serving;
    case ServeEnds(c) =>
      if c in v.serving {
        assert (v.serving - {c}).Keys == v.serving.Keys - {c};
      }
    case ServeReads(c, body) =>
      if c in v.serving {
        assert v.serving[c := Holding(body)].Keys == v.serving.Keys;
      }
    case ServeHandsOver(c) =>
      if c in v.serving {
        assert v.serving[c := HandedOver].Keys == v.serving.Keys;
      }
    case _ =>
  }

  // ---- whole runs

  ghost predicate Inv(s: State) {
    && ProvidersBounded(s.providers)
    && WantsConserved(s.wants) && WantsTruthful(s.wants, s.maxBytes)
    && ServesConserved(s.serves)
  }

  lemma InvStep(s: State, e: Event)
    requires Inv(s)
    ensures Inv(Step(s, e))
  {
    hide WantsConserved, WantsTruthful, ServesConserved, WantsAfter, ServesAfter;
    WantsConservedStep(s.wants, s.maxBytes, s.providers, e);
    WantsTruthfulStep(s.wants, s.maxBytes, s.providers, e);
    ServesConservedStep(s.serves, e);
    if e.Gossip? && e.source.Some? {
      AddProvidersKeep(s.providers, Lines(e.data), e.source.value);
    }
  }

  lemma {:induction false} InvAlways(maxBytes: nat, events: seq<Event>)
    ensures Inv(Play(Start(maxBytes), events))
    decreases |events|
  {
    hide Step;
    if events != [] {
      InvAlways(maxBytes, events[..|events| - 1]);
      InvStep(Play(Start(maxBytes), events[..|events| - 1]), events[|events| - 1]);
    }
  }

  /** Want conservation. Every want of every run has been answered exactly once or waits in exactly
      one pending entry; bytes handed to it hash to its normalised hash and respect the cap. */
  lemma WantsAreConserved(maxBytes: nat, events: seq<Event>, r: nat)
    ensures var w := Play(Start(maxBytes), events).wants;
            && (r < |w.wanted| ==> Count(w.delivered, r) == if Waiting(w, r) then 0 else 1)
            && (forall q, q' :: q in w.pending && q' in w.pending && w.pending[q].1 == r == w.pending[q'].1 ==> q == q')
    ensures var s := Play(Start(maxBytes), events);
            forall i :: 0 <= i < |s.wants.delivered| && s.wants.delivered[i].0 == r && s.wants.delivered[i].1.Some? ==>
              && r < |s.wants.wanted| && |s.wants.delivered[i].1.value| <= s.maxBytes
              && Sha256Hex(s.wants.delivered[i].1.value) == Norm(s.wants.wanted[r])
  {
    InvAlways(maxBytes, events);
    hide Play, Sha256Hex, Norm;
    var s := Play(Start(maxBytes), events);
    forall i | 0 <= i < |s.wants.delivered| && s.wants.delivered[i].0 == r && s.wants.delivered[i].1.Some?
      ensures r < |s.wants.wanted| && |s.wants.delivered[i].1.value| <= s.maxBytes
              && Sha256Hex(s.wants.delivered[i].1.value) == Norm(s.wants.wanted[r])
    {
      assert AnswerTruthful(s.wants, s.maxBytes, s.wants.delivered[i]);
    }
  }

  /** A response or failure for an id that is unknown or already settled changes nothing. */
  lemma StrayAnswersAreIgnored(w: Wants, maxBytes: nat, providers: Providers, q: nat, first: Resp, again: Resp)
    ensures q !in w.pending ==> WantsAfter(w, maxBytes, providers, Response(q, first)) == w
    ensures q !in w.pending ==> WantsAfter(w, maxBytes, providers, OutboundFailure(q)) == w
    ensures var w' := WantsAfter(w, maxBytes, providers, Response(q, first));
            && WantsAfter(w', maxBytes, providers, Response(q, again)) == w'
            && WantsAfter(w', maxBytes, providers, OutboundFailure(q)) == w'
  {
    hide AcceptGet;
  }

  // ---- how a want is settled

  /** The event is the end of request `q`: a response to it, or its failure. */
  predicate Settles(e: Event, q: nat) {
    (e.Response? && e.request == q) || (e.OutboundFailure? && e.request == q)
  }

  /** What the end of a request brings: its verified body, or nothing. */
  function Outcome(e: Event, want: string, maxBytes: nat): Option<Bytes> {
    match e
    case Response(_, GetResp(Some(bytes))) =>
      if |bytes| <= maxBytes && Sha256Hex(bytes) == want then Some(bytes) else None
    case _ => None
  }

  /** Any response to a pending request, and any failure of it, settles its want: the entry is gone and
      the want is answered, with the body if it is verified and with nothing otherwise. */
  lemma EndSettlesWant(s: State, e: Event, q: nat)
    requires Inv(s) && q in s.wants.pending && Settles(e, q)
    ensures var (h, r) := s.wants.pending[q];
            && Step(s, e).wants.pending == s.wants.pending - {q}
            && Step(s, e).wants.delivered == s.wants.delivered + [(r, Outcome(e, h, s.maxBytes))]
  {
    assert EntryTruthful(s.wants, q);
    NormOfCanonical(s.wants.pending[q].0);
    hide Norm, Sha256Hex, IsCanonical, ServesAfter, ProvidersAfter, Inv, EntryTruthful;
    if e.Response? {
      OutcomeIsAccepted(e, s.wants.pending[q].0, s.maxBytes);
      hide AcceptGet, Outcome;
    }
  }

  lemma OutcomeIsAccepted(e: Event, want: string, maxBytes: nat)
    requires e.Response? && Norm(want) == want
    ensures Outcome(e, want, maxBytes) == AcceptGet(want, e.resp, maxBytes)
  {
    hide Norm, Sha256Hex;
  }

  /** Want `r` was sent as request `q` by event number `i` of the run. */
  ghost predicate SentAs(maxBytes: nat, events: seq<Event>, i: nat, q: nat, r: nat)
    requires i < |events|
  {
    var before, after := Play(Start(maxBytes), events[..i]).wants, Play(Start(maxBytes), events[..i + 1]).wants;
    |before.sent| == q && |after.sent| == q + 1 && |before.wanted| == r && |after.wanted| == r + 1
  }

  ghost predicate OpenSince(maxBytes: nat, events: seq<Event>, i: nat, q: nat, r: nat)
    requires i < |events|
  {
    SentAs(maxBytes, events, i, q, r) && forall j :: i < j < |events| ==> !Settles(events[j], q)
  }

  ghost predicate Outstanding(maxBytes: nat, events: seq<Event>, q: nat, r: nat) {
    exists i :: 0 <= i < |events| && OpenSince(maxBytes, events, i, q, r)
  }

  /** One event opens at most one request, the next in number, and ends exactly those it settles. */
  lemma PendingStep(w: Wants, maxBytes: nat, providers: Providers, e: Event, q: nat, r: nat)
    requires forall p :: p in w.pending ==> p < |w.sent|
    ensures var w' := WantsAfter(w, maxBytes, providers, e);
            && (|w'.sent| == |w.sent| || (|w'.sent| == |w.sent| + 1 && |w'.wanted| == |w.wanted| + 1 && e.Want?))
            && (q in w'.pending && w'.pending[q].1 == r <==>
                  || (q in w.pending && w.pending[q].1 == r && !Settles(e, q))
                  || (|w.sent| == q && |w'.sent| == q + 1 && |w.wanted| == r))
  {
    hide AcceptGet, Norm;
  }

  lemma OutstandingNext(maxBytes: nat, events: seq<Event>, e: Event, q: nat, r: nat)
    ensures var before, after := Play(Start(maxBytes), events).wants, Play(Start(maxBytes), events + [e]).wants;
            Outstanding(maxBytes, events + [e], q, r) <==>
              || (Outstanding(maxBytes, events, q, r) && !Settles(e, q))
              || (|before.sent| == q && |after.sent| == q + 1 && |before.wanted| == r && |after.wanted| == r + 1)
  {
    hide Play, Settles;
    var es, n := events + [e], |events|;
    assert es[..n] == events && es[..n + 1] == es;
    forall i | 0 <= i < n ensures SentAs(maxBytes, es, i, q, r) <==> SentAs(maxBytes, events, i, q, r) {
      assert es[..i] == events[..i] && es[..i + 1] == events[..i + 1];
    }
    forall i | 0 <= i < n
      ensures OpenSince(maxBytes, es, i, q, r) <==> OpenSince(maxBytes, events, i, q, r) && !Settles(e, q)
    {
      if OpenSince(maxBytes, es, i, q, r) {
        assert es[n] == e;
        forall j | i < j < n ensures !Settles(events[j], q) {
          assert es[j] == events[j];
        }
      }
    }
    assert OpenSince(maxBytes, es, n, q, r) <==> SentAs(maxBytes, es, n, q, r);
    hide OpenSince;
    if Outstanding(maxBytes, events, q, r) && !Settles(e, q) {
      var i :| 0 <= i < n && OpenSince(maxBytes, events, i, q, r);
      assert OpenSince(maxBytes, es, i, q, r);
    }
  }

  /** A request is pending, for its want, exactly when it was sent and neither a response to it nor its
      failure has come up since. */
  lemma {:induction false} PendingIff(maxBytes: nat, events: seq<Event>, q: nat, r: nat)
    ensures var w := Play(Start(maxBytes), events).wants;
            q in w.pending && w.pending[q].1 == r <==> Outstanding(maxBytes, events, q, r)
    decreases |events|
  {
    hide Outstanding, WantsAfter, ServesAfter, ProvidersAfter, Settles;
    if events == [] {
      NothingOutstanding(maxBytes, q, r);
    } else {
      var n := |events| - 1;
      var s, e := Play(Start(maxBytes), events[..n]), events[n];
      PendingIff(maxBytes, events[..n], q, r);
      InvAlways(maxBytes, events[..n]);
      PendingStep(s.wants, s.maxBytes, s.providers, e, q, r);
      OutstandingNext(maxBytes, events[..n], e, q, r);
      assert events[..n] + [e] == events;
    }
  }

  lemma NothingOutstanding(maxBytes: nat, q: nat, r: nat)
    ensures !Outstanding(maxBytes, [], q, r)
  {
  }

  /** No want waits for nothing: it is waiting exactly when a request was sent for it that has had
      neither a response nor a failure since. */
  lemma WaitingIff(maxBytes: nat, events: seq<Event>, r: nat)
    ensures Waiting(Play(Start(maxBytes), events).wants, r) <==> exists q :: Outstanding(maxBytes, events, q, r)
  {
    hide Play, Outstanding;
    var w := Play(Start(maxBytes), events).wants;
    if Waiting(w, r) {
      var q :| q in w.pending && w.pending[q].1 == r;
      PendingIff(maxBytes, events, q, r);
    }
    if q :| Outstanding(maxBytes, events, q, r) {
      PendingIff(maxBytes, events, q, r);
    }
  }

  // ---- how a request is served

  /** A Have is answered at once. A Get is refused at once exactly when no permit is free, and otherwise
      takes one and reads the store under its normalised key. */
  lemma RequestIsTaken(s: State, hash: string, resp: Resp)
    requires Inv(s)
    ensures var v, had, got := s.serves, Step(s, HaveRequest(resp)).serves, Step(s, GetRequest(hash)).serves;
            && had == v.(inbound := v.inbound + 1, answered := v.answered + [(v.inbound, resp)])
            && (v.permits == 0 ==> got == v.(inbound := v.inbound + 1, answered := v.answered + [(v.inbound, GetResp(None))]))
            && (v.permits > 0 ==>
                  && got.permits == v.permits - 1 && got.answered == v.answered && got.queue == v.queue
                  && got.serving == v.serving[v.inbound := Reading(Norm(Norm(hash)))])
  {
    hide Norm, WantsAfter, ProvidersAfter;
  }

  /** What a serve still has to go through. */
  function StagesLeft(v: Serve): nat {
    match v
    case Reading(_) => 3
    case Holding(_) => 2
    case HandedOver => 1
  }

  /** Its next event. */
  function NextStage(c: nat, v: Serve): Event {
    match v
    case Reading(_) => ServeReads(c, None)
    case Holding(_) => ServeHandsOver(c)
    case HandedOver => ServeEnds(c)
  }

  function WorkLeft(s: State, c: nat): nat {
    if c in s.serves.serving then StagesLeft(s.serves.serving[c]) else 0
  }

  lemma StageDone(s: State, c: nat)
    requires Inv(s) && c in s.serves.serving && s.serves.queue == []
    ensures var s' := Step(s, NextStage(c, s.serves.serving[c]));
            && Inv(s') && WorkLeft(s', c) < WorkLeft(s, c) && |s'.serves.queue| <= 1
            && s'.serves.serving.Keys <= s.serves.serving.Keys
            && forall d :: d in s'.serves.serving && d != c ==> s'.serves.serving[d] == s.serves.serving[d]
  {
    InvStep(s, NextStage(c, s.serves.serving[c]));
    hide Inv, WantsAfter, ProvidersAfter;
  }

  lemma QueueServed(s: State)
    requires Inv(s) && |s.serves.queue| <= 1
    ensures var s' := if s.serves.queue == [] then s else Step(s, AnswerNext);
            Inv(s') && s'.serves.queue == [] && s'.serves.serving == s.serves.serving
  {
    if s.serves.queue != [] {
      InvStep(s, AnswerNext);
    }
    hide Inv, WantsAfter, ProvidersAfter;
  }

  lemma {:induction false} PlayAppend(s: State, xs: seq<Event>, ys: seq<Event>)
    ensures Play(s, xs + ys) == Play(Play(s, xs), ys)
    decreases |ys|
  {
    hide Step;
    if ys == [] {
      assert xs + ys == xs;
    } else {
      var n := |ys| - 1;
      assert (xs + ys)[..|xs + ys| - 1] == xs + ys[..n];
      PlayAppend(s, xs, ys[..n]);
    }
  }

  lemma PlayOne(s: State, e: Event)
    ensures Play(s, [e]) == Step(s, e)
  {
    hide Step;
    assert [e][..0] == [];
  }

  /** One serve can finish by its own steps and the loop's answering. */
  lemma {:induction false} ServeFinishes(s: State, c: nat) returns (events: seq<Event>)
    requires Inv(s) && s.serves.queue == []
    ensures var s' := Play(s, events);
            && Inv(s') && s'.serves.queue == [] && s'.serves.serving.Keys <= s.serves.serving.Keys - {c}
    decreases WorkLeft(s, c)
  {
    hide Inv, Step;
    events := [];
    if c in s.serves.serving {
      var e := NextStage(c, s.serves.serving[c]);
      StageDone(s, c);
      var s1 := Step(s, e);
      QueueServed(s1);
      PlayOne(s, e);
      events := [e];
      var s2 := s1;
      if s1.serves.queue != [] {
        PlayOne(s1, AnswerNext);
        PlayAppend(s, [e], [AnswerNext]);
        events, s2 := [e] + [AnswerNext], Step(s1, AnswerNext);
      }
      var rest := ServeFinishes(s2, c);
      PlayAppend(s, events, rest);
      events := events + rest;
    }
  }

  /** No permit is lost: from any state of any run, when the serves under way go through and the queue
      is answered, all 16 permits are free again. */
  lemma {:induction false} PermitsComeBack(s: State) returns (events: seq<Event>)
    requires Inv(s)
    ensures var s' := Play(s, events);
            Inv(s') && s'.serves.serving == map[] && s'.serves.permits == 16 && s'.serves.queue == []
    decreases s.serves.serving.Keys, |s.serves.queue|
  {
    events := [];
    if s.serves.queue != [] {
      InvStep(s, AnswerNext);
      PlayOne(s, AnswerNext);
      var rest := PermitsComeBack(Step(s, AnswerNext));
      PlayAppend(s, [AnswerNext], rest);
      events := [AnswerNext] + rest;
    } else if s.serves.serving != map[] {
      hide Step;
      var c :| c in s.serves.serving;
      var first := ServeFinishes(s, c);
      var s1 := Play(s, first);
      assert c !in s1.serves.serving.Keys;
      var rest := PermitsComeBack(s1);
      PlayAppend(s, first, rest);
      events := first + rest;
    }
  }

  /** Serve conservation. Permits and permit holders always add up to 16, the finished queue holds at
      most 16, so at most 32 bodies are buffered; and every inbound request is in exactly one of
      reading, queued and answered, hence never answered twice. */
  lemma ServesAreConserved(maxBytes: nat, events: seq<Event>, c: nat)
    ensures var v := Play(Start(maxBytes), events).serves;
            && v.permits + |v.serving| == 16
            && |v.serving| + |v.queue| <= 32
            && Places(v, c) == (if c < v.inbound then 1 else 0)
            && Count(v.answered, c) <= 1
  {
    InvAlways(maxBytes, events);
  }

  /** The provider table in any run: at most 100,000 hashes, all canonical, each with 1 to 64 peers. */
  lemma ProvidersStayBounded(maxBytes: nat, events: seq<Event>)
    ensures var providers := Play(Start(maxBytes), events).providers;
            && |providers| <= 100_000
            && forall h :: h in providers ==> IsCanonical(h) && providers[h] != {} && |providers[h]| <= 64
  {
    InvAlways(maxBytes, events);
    hide Play, IsCanonical;
    var providers := Play(Start(maxBytes), events).providers;
    assert forall h :: h in providers ==> GoodEntry(h, providers[h]);
  }

  ghost predicate Announces(e: Event, h: string, p: PeerId) {
    e.Gossip? && e.source == Some(p) && Names(Lines(e.data), h)
  }

  lemma NewProviderWasAnnounced(providers: Providers, e: Event, h: string, p: PeerId)
    requires ProvidersBounded(providers)
    requires var after := ProvidersAfter(providers, e); h in after && p in after[h]
    ensures (h in providers && p in providers[h]) || Announces(e, h, p)
  {
    if e.Gossip? && e.source.Some? {
      AddProvidersKeep(providers, Lines(e.data), e.source.value);
    }
  }

  /** Every provider on record announced the hash itself, in a gossip message of this run. */
  lemma {:induction false} ProvidersWereAnnounced(maxBytes: nat, events: seq<Event>, h: string, p: PeerId)
    requires var s := Play(Start(maxBytes), events); h in s.providers && p in s.providers[h]
    ensures exists k :: 0 <= k < |events| && Announces(events[k], h, p)
    decreases |events|
  {
    hide Announces, ProvidersAfter, WantsAfter, ServesAfter;
    if events != [] {
      var n := |events| - 1;
      var before := Play(Start(maxBytes), events[..n]);
      InvAlways(maxBytes, events[..n]);
      NewProviderWasAnnounced(before.providers, events[n], h, p);
      if h in before.providers && p in before.providers[h] {
        ProvidersWereAnnounced(maxBytes, events[..n], h, p);
        var k :| 0 <= k < n && Announces(events[..n][k], h, p);
        assert events[..n][k] == events[k];
      }
    }
  }

  /** Providers are never forgotten. */
  lemma ProvidersOnlyGrow(s: State, e: Event)
    requires Inv(s)
    ensures var after := Step(s, e).providers;
            forall h :: h in s.providers ==> h in after && s.providers[h] <= after[h]
  {
    hide WantsAfter, ServesAfter;
    if e.Gossip? && e.source.Some? {
      AddProvidersKeep(s.providers, Lines(e.data), e.source.value);
    }
  }

  /** A want finds a peer to ask exactly when its hash is on record, and is turned away otherwise. */
  lemma WantFindsPeerIff(s: State, hash: string, peer: PeerId)
    requires Inv(s)
    ensures Norm(hash) in s.providers
            <==> exists p :: Step(s, Want(hash, p)).wants.sent == s.wants.sent + [(p, "0x" + Norm(hash))]
    ensures Norm(hash) !in s.providers ==>
              Step(s, Want(hash, peer)).wants.delivered == s.wants.delivered + [(|s.wants.wanted|, None)]
  {
    hide ServesAfter, ProvidersAfter, Norm;
    var h := Norm(hash);
    if h in s.providers {
      assert GoodEntry(h, s.providers[h]);
      var p :| p in s.providers[h];
      assert Step(s, Want(hash, p)).wants.sent == s.wants.sent + [(p, "0x" + h)];
    }
  }

  /** The answer of an honest holder gets through: the request names the key the holder looks up,
      and the gate lets the bytes pass. */
  lemma HonestReplyIsAccepted(s: State, q: nat, bytes: Bytes)
    requires Inv(s) && q in s.wants.pending
    requires Sha256Hex(bytes) == s.wants.pending[q].0 && |bytes| <= s.maxBytes
    ensures q < |s.wants.sent| && Norm(Norm(s.wants.sent[q].1)) == s.wants.pending[q].0
    ensures Step(s, Response(q, GetResp(Some(bytes)))).wants.delivered
            == s.wants.delivered + [(s.wants.pending[q].1, Some(bytes))]
  {
    hide ServesAfter, ProvidersAfter;
    assert EntryTruthful(s.wants, q);
    NormOfCanonical(s.wants.pending[q].0);
    hide Norm, Sha256Hex, IsCanonical;
  }
}
