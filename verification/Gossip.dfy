/** Announcing held hashes: what one node publishes is what another understands. */
module Gossip {
  import opened Text
  import opened Hashes
  import opened Operations
  import opened Peering
  import opened PeeringInvariants

  /** The body published for a listing of the store: the listed hashes, normalised, one per line. */
  function Published(held: seq<(string, nat)>): string {
    JoinLines(seq(|held|, i requires 0 <= i < |held| => Norm(held[i].0)))
  }

  /** The keys a listing goes through. */
  ghost predicate Lists(held: seq<(string, nat)>, order: seq<string>) {
    |held| == |order| && forall i :: 0 <= i < |held| ==> held[i].0 == "0x" + order[i]
  }

  /** The keys of a listing, in its order. */
  function KeysOf(held: seq<(string, nat)>): seq<string> {
    seq(|held|, i requires 0 <= i < |held| => StripHexPrefix(held[i].0))
  }

  lemma EntryKey(e: (string, nat), index: map<string, nat>)
    requires IsEntry(e, index)
    ensures e.0 == "0x" + StripHexPrefix(e.0) && StripHexPrefix(e.0) in index
  {
  }

  lemma PrefixComesOff(k: string)
    ensures StripHexPrefix("0x" + k) == k
  {
    assert ("0x" + k)[2..] == k;
  }

  /** What `Stores.Store.List` returns is a listing of exactly the index. */
  lemma ListingLists(held: seq<(string, nat)>, index: map<string, nat>)
    requires Listing(held, index)
    ensures Lists(held, KeysOf(held)) && forall k :: k in KeysOf(held) <==> k in index
  {
    hide IsEntry, StripHexPrefix;
    forall i | 0 <= i < |held| ensures held[i].0 == "0x" + KeysOf(held)[i] && KeysOf(held)[i] in index {
      assert held[i] in held;
      EntryKey(held[i], index);
    }
    forall k | k in index ensures k in KeysOf(held) {
      var i :| 0 <= i < |held| && held[i] == ("0x" + k, index[k]);
      PrefixComesOff(k);
      assert KeysOf(held)[i] == k;
    }
  }

  /** Whatever order the store lists its keys in, the receiver splits the body into exactly them. */
  lemma PublishedIsUnderstood(held: seq<(string, nat)>, order: seq<string>)
    requires Lists(held, order) && forall h :: h in order ==> IsCanonical(h)
    ensures Lines(Published(held)) == order
    ensures forall h :: h in order ==> IsValidHash(Norm(h)) && Norm(h) == h
  {
    var lines := seq(|held|, i requires 0 <= i < |held| => Norm(held[i].0));
    forall i | 0 <= i < |order| ensures lines[i] == order[i] {
      assert order[i] in order;
      NormOfCanonical(order[i]);
    }
    assert lines == order;
    forall h | h in order ensures Plain(h) && h != "" && Norm(h) == h {
      CanonicalIsPlain(h);
      NormOfCanonical(h);
    }
    hide Norm, IsCanonical, IsValidHash;
    LinesOfJoin(order);
  }

  function Peers(providers: Providers, h: string): set<PeerId> {
    if h in providers then providers[h] else {}
  }

  /** The receiver may still add this peer under this hash. */
  ghost predicate HasRoom(providers: Providers, h: string, source: PeerId) {
    source in Peers(providers, h) || |Peers(providers, h)| < MAX_PEERS_PER_HASH
  }

  /** `after` is `before` plus the source, and only under these hashes. */
  ghost predicate Recorded(before: Providers, after: Providers, hs: set<string>, source: PeerId) {
    && after.Keys == before.Keys + hs
    && forall h :: Peers(after, h) == Peers(before, h) + if h in hs then {source} else {}
  }

  /** The hashes a message names; lines that name none are skipped. */
  ghost function Named(lines: seq<string>): set<string> {
    set l | l in lines && IsValidHash(Norm(l)) :: Norm(l)
  }

  /** However they are written: a line names a hash by its 64 digits in either case, with `0x` or not. */
  lemma NamedIff(lines: seq<string>, h: string)
    ensures h in Named(lines) <==> IsCanonical(h) && exists l :: l in lines && Writes(l, h)
  {
    if h in Named(lines) {
      var l :| l in lines && IsValidHash(Norm(l)) && Norm(l) == h;
      ValidNormIsCanonical(l);
      NormIff(l, h);
    }
    if IsCanonical(h) {
      forall l | l in lines ensures Norm(l) == h <==> Writes(l, h) {
        NormIff(l, h);
      }
    }
  }

  lemma NamedNext(lines: seq<string>)
    requires lines != []
    ensures var l := lines[|lines| - 1];
            Named(lines) == Named(lines[..|lines| - 1]) + if IsValidHash(Norm(l)) then {Norm(l)} else {}
  {
    hide Norm, IsValidHash;
    assert lines == lines[..|lines| - 1] + [lines[|lines| - 1]];
  }

  /** One line, exactly: the sender is added under the hash it writes, if that hash is known or there is
      room for another, and if there is room for another peer under it. */
  lemma LineRecordsIff(providers: Providers, line: string, source: PeerId, h: string, p: PeerId)
    requires Inv(State(0, providers, Wants([], [], map[], []), Serves(0, 16, map[], [], [])))
    ensures p in Peers(AddProvider(providers, Norm(line), source), h) <==>
              || p in Peers(providers, h)
              || (&& p == source && IsCanonical(h) && Writes(line, h)
                  && (h in providers || |providers| < 100_000) && |Peers(providers, h)| < 64)
  {
    if IsValidHash(Norm(line)) {
      ValidNormIsCanonical(line);
    }
    if IsCanonical(h) {
      NormIff(line, h);
    }
    hide Norm, IsValidHash, IsCanonical, Writes, Inv;
  }

  lemma RecordedNothing(providers: Providers, source: PeerId)
    ensures Recorded(providers, providers, Named([]), source)
  {
  }

  /** A receiver with room records the sender for exactly the hashes of the message, whatever else is in
      it. */
  lemma {:induction false} ReceiverRecords(providers: Providers, lines: seq<string>, source: PeerId)
    requires forall l :: l in lines && IsValidHash(Norm(l)) ==> HasRoom(providers, Norm(l), source)
    requires |providers| + |lines| <= MAX_TRACKED_HASHES
    ensures var after := AddProviders(providers, lines, source);
            |after| <= |providers| + |lines| && Recorded(providers, after, Named(lines), source)
    decreases |lines|
  {
    hide IsValidHash, Norm, Named, AddProvider, Recorded, HasRoom;
    if lines == [] {
      RecordedNothing(providers, source);
    } else {
      var n := |lines| - 1;
      assert lines[n] in lines && forall g :: g in lines[..n] ==> g in lines;
      ReceiverRecords(providers, lines[..n], source);
      NamedNext(lines);
      if IsValidHash(Norm(lines[n])) {
        RecordedNext(providers, AddProviders(providers, lines[..n], source), Named(lines[..n]), Norm(lines[n]), source);
      } else {
        OthersAreSkipped(AddProviders(providers, lines[..n], source), Norm(lines[n]), source);
        assert Named(lines) == Named(lines[..n]);
      }
    }
  }

  lemma OthersAreSkipped(providers: Providers, h: string, source: PeerId)
    requires !IsValidHash(h)
    ensures AddProvider(providers, h, source) == providers
  {
  }

  lemma RecordedNext(first: Providers, before: Providers, hs: set<string>, h: string, source: PeerId)
    requires Recorded(first, before, hs, source) && HasRoom(first, h, source) && IsValidHash(h)
    requires |before| < MAX_TRACKED_HASHES
    ensures Recorded(first, AddProvider(before, h, source), hs + {h}, source)
    ensures |AddProvider(before, h, source)| <= |before| + 1
  {
    hide IsValidHash, AddProvider;
    assert HasRoom(before, h, source) by {
      assert Peers(before, h) == Peers(first, h) + if h in hs then {source} else {};
      if h !in hs {
        assert Peers(before, h) == Peers(first, h);
      }
    }
    RecordOne(before, h, source);
    RecordedTransitive(first, before, AddProvider(before, h, source), hs, {h}, source);
  }

  lemma RecordedTransitive(a: Providers, b: Providers, c: Providers, hs: set<string>, gs: set<string>, source: PeerId)
    requires Recorded(a, b, hs, source) && Recorded(b, c, gs, source)
    ensures Recorded(a, c, hs + gs, source)
  {
    hide Peers;
    forall h ensures Peers(c, h) == Peers(a, h) + if h in hs + gs then {source} else {} {
      assert Peers(c, h) == Peers(b, h) + if h in gs then {source} else {};
      assert Peers(b, h) == Peers(a, h) + if h in hs then {source} else {};
    }
  }

  lemma RecordOne(before: Providers, h: string, source: PeerId)
    requires IsValidHash(h) && |before| < MAX_TRACKED_HASHES && HasRoom(before, h, source)
    ensures Recorded(before, AddProvider(before, h, source), {h}, source)
    ensures |AddProvider(before, h, source)| <= |before| + 1
  {
    hide IsValidHash;
    var peers := Peers(before, h) + {source};
    assert AddPeer(Peers(before, h), source) == peers;
    hide AddPeer;
    InsertSize(before, h, peers);
    assert AddProvider(before, h, source) == before[h := peers];
    hide AddProvider;
  }

  // ---- the holder's side

  /** The loop answers what is queued. */
  function Drained(s: State): State
    decreases |s.serves.queue|
  {
    if s.serves.queue == [] then s else Drained(Step(s, AnswerNext))
  }

  lemma {:induction false} DrainAnswers(s: State)
    ensures Drained(s) == s.(serves := s.serves.(queue := [], answered := s.serves.answered + s.serves.queue))
    decreases |s.serves.queue|
  {
    if s.serves.queue != [] {
      DrainAnswers(Step(s, AnswerNext));
      assert [s.serves.queue[0]] + s.serves.queue[1..] == s.serves.queue;
    }
  }

  /** A Get from its arrival to its answer: a permit is taken, the denylist checked and the store read
      under the key the serve was given, the queue comes empty, and the response goes through it. */
  function ServedGet(s: State, wire: string, store: Image): State {
    var c := s.serves.inbound;
    var taken := Step(s, GetRequest(wire));
    var body := if c in taken.serves.serving && taken.serves.serving[c].Reading? then Lookup(store, taken.serves.serving[c].key)
                else None;
    Step(Step(Drained(Step(taken, ServeReads(c, body))), ServeHandsOver(c)), AnswerNext)
  }

  /** A holder with a permit to spare answers a Get with what it holds, undenied, under the normalised key. */
  lemma HolderAnswers(s: State, wire: string, store: Image)
    requires s.serves.permits > 0
    ensures ServedGet(s, wire, store).serves.answered
            == s.serves.answered + s.serves.queue + [(s.serves.inbound, GetResp(Lookup(store, Norm(Norm(wire)))))]
  {
    hide Norm, WantsAfter, ProvidersAfter, Lookup;
    var c := s.serves.inbound;
    var taken := Step(s, GetRequest(wire));
    DrainAnswers(Step(taken, ServeReads(c, Lookup(store, Norm(Norm(wire))))));
    hide Drained;
  }

  function LastAnswer(s: State): Resp {
    if s.serves.answered == [] then GetResp(None) else s.serves.answered[|s.serves.answered| - 1].1
  }

  /** What the receiver asks for last. */
  function LastSent(s: State): string {
    if s.wants.sent == [] then "" else s.wants.sent[|s.wants.sent| - 1].1
  }

  /** The receiver of an announcement with room for it knows whom to ask for each hash on it. */
  lemma AnnouncedIsKnown(s: State, holder: PeerId, held: seq<(string, nat)>, order: seq<string>, h: string)
    requires Inv(s) && Lists(held, order) && h in order && |s.providers| + |order| <= MAX_TRACKED_HASHES
    requires forall k :: k in order ==> IsCanonical(k) && HasRoom(s.providers, k, holder)
    ensures var told := Step(s, Event.Gossip(Some(holder), Published(held)));
            && told.wants == s.wants && told.maxBytes == s.maxBytes
            && h in told.providers && holder in told.providers[h]
  {
    PublishedIsUnderstood(held, order);
    ReceiverRecords(s.providers, order, holder);
    assert h in Named(order);
    assert holder in Peers(AddProviders(s.providers, order, holder), h);
    GossipTells(s, holder, Published(held));
    hide Published, AddProviders, Norm, IsCanonical, IsValidHash, Named, Step, HasRoom, Inv;
  }

  lemma TakenIsHeld(store: Image, h: string, bytes: Bytes, io: Io)
    requires PutResult(store, h, |bytes|, io).Ok?
    ensures var after := AfterPut(store, h, bytes, io);
            h in after.index && after.disk.bins == store.disk.bins[h := bytes]
  {
  }

  /** Replication without an origin, from one node's store to another's. The holder announces what its
      store lists; the receiver then wants a hash on it and asks the holder; the holder serves the
      request from its store; its answer is accepted and delivered to that want; and a store that takes
      the bytes has them. */
  lemma ReplicationWorks(s: State, g: State, holder: PeerId, from: Image, held: seq<(string, nat)>,
                         raw: string, store: Image, io: Io)
    requires Inv(s) && g.serves.permits > 0
    requires Listing(held, from.index) && |s.providers| + |from.index| <= MAX_TRACKED_HASHES
    requires forall k :: k in from.index ==> IsCanonical(k) && HasRoom(s.providers, k, holder)
    requires Norm(raw) in from.index && Norm(raw) !in from.denied && Norm(raw) in from.disk.bins
    requires Sha256Hex(from.disk.bins[Norm(raw)]) == Norm(raw) && |from.disk.bins[Norm(raw)]| <= s.maxBytes
    ensures var bytes := from.disk.bins[Norm(raw)];
            var told := Step(s, Event.Gossip(Some(holder), Published(held)));
            var asked := Step(told, Want(raw, holder));
            var served := ServedGet(g, LastSent(asked), from);
            var answered := Step(asked, Response(|s.wants.sent|, LastAnswer(served)));
            && asked.wants.sent == s.wants.sent + [(holder, "0x" + Norm(raw))]
            && answered.wants.delivered == s.wants.delivered + [(|s.wants.wanted|, Some(bytes))]
            && (PutResult(store, Norm(raw), |bytes|, io).Ok? ==>
                  var after := AfterPut(store, Norm(raw), bytes, io);
                  Norm(raw) in after.index && after.disk.bins == store.disk.bins[Norm(raw) := bytes])
  {
    var h, bytes := Norm(raw), from.disk.bins[Norm(raw)];
    ListingLists(held, from.index);
    AnnouncedIsKnown(s, holder, held, KeysOf(held), h);
    NormOfCanonical(h);
    assert Lookup(from, h) == Some(bytes);
    hide Published, Norm, Sha256Hex, IsCanonical, Step, HasRoom, Inv, ServedGet, Lists, AfterPut, PutResult, Lookup, Listing;
    var told := Step(s, Event.Gossip(Some(holder), Published(held)));
    AskingDelivers(told, holder, raw, bytes);
    assert LastSent(Step(told, Want(raw, holder))) == "0x" + h;
    HolderAnswers(g, "0x" + h, from);
    assert LastAnswer(ServedGet(g, "0x" + h, from)) == GetResp(Some(bytes));
    if PutResult(store, h, |bytes|, io).Ok? {
      TakenIsHeld(store, h, bytes, io);
    }
  }

  lemma GossipTells(s: State, source: PeerId, data: string)
    ensures Step(s, Event.Gossip(Some(source), data)) == s.(providers := AddProviders(s.providers, Lines(data), source))
  {
  }

  lemma AskingDelivers(s: State, holder: PeerId, raw: string, bytes: Bytes)
    requires Norm(raw) in s.providers && holder in s.providers[Norm(raw)] && IsCanonical(Norm(raw))
    requires Sha256Hex(bytes) == Norm(raw) && |bytes| <= s.maxBytes
    ensures var asked := Step(s, Want(raw, holder));
            var answered := Step(asked, Response(|s.wants.sent|, GetResp(Some(bytes))));
            && asked.wants.sent == s.wants.sent + [(holder, "0x" + Norm(raw))]
            && answered.wants.delivered == s.wants.delivered + [(|s.wants.wanted|, Some(bytes))]
  {
    NormOfCanonical(Norm(raw));
    hide Norm, Sha256Hex, IsCanonical, ServesAfter, ProvidersAfter;
    var asked := Step(s, Want(raw, holder));
    assert asked.wants.pending[|s.wants.sent|] == (Norm(raw), |s.wants.wanted|);
  }
}
