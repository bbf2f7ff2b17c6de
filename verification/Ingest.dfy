/** One ingest pass over the pin list. */
module Ingest {
  import opened Text
  import opened Hashes
  import opened Operations
  import opened Stores
  import opened Paging
  import opened Acquire
  import opened Peering
  import Pins

  /** What a pin meets during a pass: the responses of its candidate URLs, the peers' answer, if any
      comes, and how the disk behaves when its payload is stored. */
  datatype Sources = Sources(http: seq<Acquire.Response>, peer: Option<Resp>, io: Io)

  datatype Outcome = Denied | AlreadyHeld | Fetched | FromPeer | Failed

  datatype Counters = Counters(held: nat, fetched: nat, fromPeer: nat, failed: nat)

  function Tally(outcomes: seq<Outcome>, o: Outcome): nat {
    if outcomes == [] then 0
    else Tally(outcomes[..|outcomes| - 1], o) + if outcomes[|outcomes| - 1] == o then 1 else 0
  }

  /** The four counters of a pass, as tallies of its outcomes. */
  predicate Counts(c: Counters, outcomes: seq<Outcome>) {
    && c.held == Tally(outcomes, AlreadyHeld) && c.fetched == Tally(outcomes, Outcome.Fetched)
    && c.fromPeer == Tally(outcomes, FromPeer) && c.failed == Tally(outcomes, Outcome.Failed)
  }

  lemma {:induction false} EveryOutcomeIsCounted(outcomes: seq<Outcome>, c: Counters)
    requires Counts(c, outcomes)
    ensures c.held + c.fetched + c.fromPeer + c.failed + Tally(outcomes, Denied) == |outcomes|
  {
    if outcomes != [] {
      var before := outcomes[..|outcomes| - 1];
      EveryOutcomeIsCounted(before, Counters(Tally(before, AlreadyHeld), Tally(before, Outcome.Fetched),
                                             Tally(before, FromPeer), Tally(before, Outcome.Failed)));
    }
  }

  function Count(c: Counters, o: Outcome): Counters {
    match o
    case Denied => c
    case AlreadyHeld => c.(held := c.held + 1)
    case Fetched => c.(fetched := c.fetched + 1)
    case FromPeer => c.(fromPeer := c.fromPeer + 1)
    case Failed => c.(failed := c.failed + 1)
  }

  lemma CountsNext(c: Counters, outcomes: seq<Outcome>, o: Outcome)
    requires Counts(c, outcomes)
    ensures Counts(Count(c, o), outcomes + [o])
  {
    assert (outcomes + [o])[..|outcomes|] == outcomes;
  }

  /** Some candidate or the peers have the wanted bytes. */
  ghost predicate Available(hash: string, sources: Sources, maxBytes: nat) {
    || (exists i :: 0 <= i < |sources.http| && Delivers(sources.http[i], hash, maxBytes))
    || (sources.peer.Some? && AcceptGet(Norm(hash), sources.peer.value, maxBytes).Some?)
  }

  /** The bytes for a pin: from the candidates, else from the peers, verified either way. */
  function Payload(hash: string, sources: Sources, maxBytes: nat): Option<Bytes> {
    var fetched := FirstVerified(sources.http, hash, maxBytes);
    if fetched.Some? then fetched
    else if sources.peer.Some? then AcceptGet(Norm(hash), sources.peer.value, maxBytes)
    else None
  }

  /** For a well-formed hash there is a payload exactly when somebody has it, and it is the real one. */
  lemma PayloadIff(hash: string, sources: Sources, maxBytes: nat)
    requires IsValidHash(Norm(hash))
    ensures Payload(hash, sources, maxBytes).Some? <==> Available(hash, sources, maxBytes)
    ensures var p := Payload(hash, sources, maxBytes);
            p.Some? ==> Sha256Hex(p.value) == Norm(hash) && |p.value| <= maxBytes
  {
    NormTwiceOnValid(hash);
    FirstVerifiedIff(sources.http, hash, maxBytes);
    FirstVerifiedIsSound(sources.http, hash, maxBytes);
  }

  method Obtain(hash: string, sources: Sources, maxBytes: nat) returns (bytes: Option<Bytes>, viaPeer: bool)
    ensures bytes == Payload(hash, sources, maxBytes)
    ensures viaPeer <==> bytes.Some? && forall i :: 0 <= i < |sources.http| ==> !Delivers(sources.http[i], hash, maxBytes)
  {
    var acquired := Acquire.Acquire(hash, sources.http, maxBytes);
    if acquired.Verified? {
      return Some(acquired.bytes), false;
    }
    bytes := if sources.peer.Some? then AcceptGet(Norm(hash), sources.peer.value, maxBytes) else None;
    viaPeer := bytes.Some?;
  }

  /** How a pin ends, from the state of the store it meets. */
  function PinOutcome(s: Image, hash: string, sources: Sources, maxBytes: nat): Outcome {
    var h := Norm(hash);
    var p := Payload(hash, sources, maxBytes);
    if h in s.denied then Denied
    else if h in s.index then AlreadyHeld
    else if p.None? || PutResult(s, h, |p.value|, sources.io).Err? then Outcome.Failed
    else if FirstVerified(sources.http, hash, maxBytes).Some? then Outcome.Fetched
    else FromPeer
  }

  function AfterPin(s: Image, hash: string, sources: Sources, maxBytes: nat): Image {
    var h := Norm(hash);
    var p := Payload(hash, sources, maxBytes);
    if h in s.denied || h in s.index || p.None? then s else AfterPut(s, h, p.value, sources.io)
  }

  /** The store after the first `n` pins of a pass. */
  function AfterPins(s: Image, pins: seq<Item>, world: seq<Sources>, maxBytes: nat, n: nat): Image
    requires n <= |pins| && |world| == |pins|
  {
    if n == 0 then s else AfterPin(AfterPins(s, pins, world, maxBytes, n - 1), pins[n - 1].hash, world[n - 1], maxBytes)
  }

  /** A pin can be had and stored, if the budget lets it. */
  ghost predicate Obtainable(s: Image, hash: string, sources: Sources, maxBytes: nat) {
    && IsValidHash(Norm(hash)) && Norm(hash) !in s.denied
    && Payload(hash, sources, maxBytes).Some? && sources.io.write && sources.io.rename
  }

  lemma AfterPinHolds(s: Image, hash: string, sources: Sources, maxBytes: nat, h: string)
    requires s.max == 0
    ensures var s' := AfterPin(s, hash, sources, maxBytes);
            && s'.max == 0 && s'.denied == s.denied
            && (h in s'.index <==> h in s.index || (h == Norm(hash) && Obtainable(s, hash, sources, maxBytes)))
  {
    hide Norm, IsValidHash, Payload;
  }

  /** Convergence, exactly. Without a budget, a hash is held after a pass if and only if it was held
      before or one of the pins with that hash could be had and stored. */
  lemma {:induction false} HeldAfterPassIff(s: Image, pins: seq<Item>, world: seq<Sources>, maxBytes: nat, n: nat, h: string)
    requires n <= |pins| && |world| == |pins| && s.max == 0
    ensures var s' := AfterPins(s, pins, world, maxBytes, n);
            && s'.max == 0 && s'.denied == s.denied
            && (h in s'.index <==>
                  || h in s.index
                  || exists i :: 0 <= i < n && Norm(pins[i].hash) == h && Obtainable(s, pins[i].hash, world[i], maxBytes))
  {
    hide Norm, AfterPin, Obtainable;
    if n > 0 {
      var before := AfterPins(s, pins, world, maxBytes, n - 1);
      HeldAfterPassIff(s, pins, world, maxBytes, n - 1, h);
      AfterPinHolds(before, pins[n - 1].hash, world[n - 1], maxBytes, h);
      SameObtainable(s, before, pins[n - 1].hash, world[n - 1], maxBytes);
    }
  }

  lemma SameObtainable(s: Image, s': Image, hash: string, sources: Sources, maxBytes: nat)
    requires s'.denied == s.denied
    ensures Obtainable(s', hash, sources, maxBytes) <==> Obtainable(s, hash, sources, maxBytes)
  {
  }

  /** What handling one pin does to the store: nothing it held changes, and what is new is the
      verified payload of that pin. */
  ghost predicate AddsAtMost(before: map<string, Bytes>, after: map<string, Bytes>, hash: string, maxBytes: nat) {
    || after == before
    || (Norm(hash) !in before && Norm(hash) in after && after == before[Norm(hash) := after[Norm(hash)]]
        && Sha256Hex(after[Norm(hash)]) == Norm(hash) && |after[Norm(hash)]| <= maxBytes)
  }

  /** One pin, every outcome with the exact condition under which it comes about. */
  method IngestPin(store: Store, hash: string, sources: Sources, maxBytes: nat) returns (o: Outcome)
    requires store.Valid()
    modifies store, store.dir
    ensures store.Valid() && store.denied == old(store.denied)
    ensures o == PinOutcome(old(store.Snapshot()), hash, sources, maxBytes)
    ensures store.Snapshot() == AfterPin(old(store.Snapshot()), hash, sources, maxBytes)
    ensures AddsAtMost(old(store.Held()), store.Held(), hash, maxBytes)
    ensures o == Denied <==> Norm(hash) in store.denied
    ensures o == AlreadyHeld <==> Norm(hash) in old(store.Held())
    ensures var p := Payload(hash, sources, maxBytes);
            && (o in {Outcome.Fetched, FromPeer} <==>
                  && IsValidHash(Norm(hash)) && Norm(hash) !in store.denied && Norm(hash) !in old(store.Held())
                  && p.Some? && Admits(old(store.Snapshot()), Norm(hash), |p.value|) && sources.io.write && sources.io.rename)
            && store.Held() == if o in {Outcome.Fetched, FromPeer} then old(store.Held())[Norm(hash) := p.value]
                               else old(store.Held())
    ensures o == Outcome.Fetched ==> exists i :: 0 <= i < |sources.http| && Delivers(sources.http[i], hash, maxBytes)
    ensures o == FromPeer ==> forall i :: 0 <= i < |sources.http| ==> !Delivers(sources.http[i], hash, maxBytes)
  {
    var denied := store.IsDenied(hash);
    if denied {
      assert Norm(hash) !in store.Held();
      return Denied;
    }
    var len := store.Has(hash);
    if len.Some? {
      return AlreadyHeld;
    }
    var bytes, viaPeer := Obtain(hash, sources, maxBytes);
    if bytes.None? {
      return Outcome.Failed;
    }
    var put := store.Put(hash, bytes.value, sources.io);
    if IsValidHash(Norm(hash)) {
      PayloadIff(hash, sources, maxBytes);
    }
    FirstVerifiedIff(sources.http, hash, maxBytes);
    o := if put.Err? then Outcome.Failed else if viaPeer then FromPeer else Outcome.Fetched;
  }

  /** `after` extends `before` by verified payloads of the pins only. */
  ghost predicate AddsOnlyPins(before: map<string, Bytes>, after: map<string, Bytes>, pins: seq<Item>, maxBytes: nat) {
    && (forall h :: h in before ==> h in after && after[h] == before[h])
    && (forall h :: h in after && h !in before ==>
          && Sha256Hex(after[h]) == h && |after[h]| <= maxBytes
          && h in Pins.Keys(pins))
  }

  lemma KeysNext(pins: seq<Item>, n: nat)
    requires n < |pins|
    ensures Pins.Keys(pins[..n + 1]) == Pins.Keys(pins[..n]) + {Norm(pins[n].hash)}
  {
    assert pins[..n + 1] == pins[..n] + [pins[n]];
    assert pins[..n + 1][n] == pins[n];
    forall i | 0 <= i < n ensures pins[..n + 1][i] == pins[..n][i] {
    }
  }

  lemma AddsOnlyPinsNext(first: map<string, Bytes>, before: map<string, Bytes>, after: map<string, Bytes>,
                         pins: seq<Item>, n: nat, maxBytes: nat)
    requires n < |pins| && AddsOnlyPins(first, before, pins[..n], maxBytes)
    requires AddsAtMost(before, after, pins[n].hash, maxBytes)
    ensures AddsOnlyPins(first, after, pins[..n + 1], maxBytes)
  {
    hide Pins.Keys, Norm, Sha256Hex;
    KeysNext(pins, n);
    assert forall h :: h in Pins.Keys(pins[..n]) ==> h in Pins.Keys(pins[..n + 1]);
  }

  /** How a pin stands after it has been handled. */
  ghost predicate Settled(o: Outcome, hash: string, first: map<string, Bytes>, now: map<string, Bytes>, denied: set<string>) {
    && (o == Denied <==> Norm(hash) in denied)
    && (o in {Denied, Outcome.Failed} || Norm(hash) in now)
    && (Norm(hash) in first ==> o == AlreadyHeld)
  }

  /** What holds after some pins of a pass: `first` and `start` are what was held and the store at its
      beginning, `now` what is held. */
  ghost predicate PassedSoFar(outcomes: seq<Outcome>, pins: seq<Item>, world: seq<Sources>, maxBytes: nat,
                              first: map<string, Bytes>, now: map<string, Bytes>, start: Image)
    requires |outcomes| <= |pins| == |world|
  {
    && AddsOnlyPins(first, now, pins[..|outcomes|], maxBytes)
    && forall j :: 0 <= j < |outcomes| ==>
         && Settled(outcomes[j], pins[j].hash, first, now, start.denied)
         && outcomes[j] == PinOutcome(AfterPins(start, pins, world, maxBytes, j), pins[j].hash, world[j], maxBytes)
  }

  lemma StaysSettled(o: Outcome, hash: string, first: map<string, Bytes>, before: map<string, Bytes>,
                     after: map<string, Bytes>, denied: set<string>, other: string, maxBytes: nat)
    requires Settled(o, hash, first, before, denied) && AddsAtMost(before, after, other, maxBytes)
    ensures Settled(o, hash, first, after, denied)
  {
    hide Norm, Sha256Hex;
  }

  lemma PassedNext(outcomes: seq<Outcome>, pins: seq<Item>, world: seq<Sources>, maxBytes: nat, o: Outcome,
                   first: map<string, Bytes>, before: map<string, Bytes>, after: map<string, Bytes>, start: Image)
    requires |outcomes| < |pins| == |world|
    requires PassedSoFar(outcomes, pins, world, maxBytes, first, before, start)
    requires AddsAtMost(before, after, pins[|outcomes|].hash, maxBytes)
    requires var h := Norm(pins[|outcomes|].hash);
             && (o == Denied <==> h in start.denied) && (o == AlreadyHeld <==> h in before)
             && (o in {Outcome.Fetched, FromPeer} ==> h in after)
    requires var n := |outcomes|;
             o == PinOutcome(AfterPins(start, pins, world, maxBytes, n), pins[n].hash, world[n], maxBytes)
    ensures PassedSoFar(outcomes + [o], pins, world, maxBytes, first, after, start)
  {
    hide Norm, Sha256Hex, PinOutcome, AfterPins, Pins.Keys;
    var n := |outcomes|;
    assert Settled(o, pins[n].hash, first, after, start.denied);
    hide Settled, AddsOnlyPins, AddsAtMost;
    AddsOnlyPinsNext(first, before, after, pins, n, maxBytes);
    forall j | 0 <= j < n ensures Settled(outcomes[j], pins[j].hash, first, after, start.denied) {
      StaysSettled(outcomes[j], pins[j].hash, first, before, after, start.denied, pins[n].hash, maxBytes);
    }
  }

  lemma PassBegins(pins: seq<Item>, world: seq<Sources>, maxBytes: nat, first: map<string, Bytes>, start: Image)
    requires |pins| == |world|
    ensures PassedSoFar([], pins, world, maxBytes, first, first, start)
  {
    hide Norm, Sha256Hex;
  }

  /** A pass with no admin call in between. Every pin has one outcome and the counters tally them;
      nothing held is lost or changed; what is added is the verified, bounded payload of a pin; every
      pin ends up denied, held or counted as failed, and as which is decided by the store as the pins
      before it have left it; and a pin that was held is never fetched. */
  method IngestPass(store: Store, pins: seq<Item>, world: seq<Sources>, maxBytes: nat)
    returns (c: Counters, ghost outcomes: seq<Outcome>)
    requires store.Valid() && |world| == |pins|
    modifies store, store.dir
    ensures store.Valid() && store.denied == old(store.denied)
    ensures |outcomes| == |pins| && Counts(c, outcomes)
    ensures c.held + c.fetched + c.fromPeer + c.failed + Tally(outcomes, Denied) == |pins|
    ensures AddsOnlyPins(old(store.Held()), store.Held(), pins, maxBytes)
    ensures forall i :: 0 <= i < |pins| ==>
              Settled(outcomes[i], pins[i].hash, old(store.Held()), store.Held(), store.denied)
    ensures forall i :: 0 <= i < |pins| ==>
              outcomes[i] == PinOutcome(AfterPins(old(store.Snapshot()), pins, world, maxBytes, i), pins[i].hash, world[i], maxBytes)
    ensures store.Snapshot() == AfterPins(old(store.Snapshot()), pins, world, maxBytes, |pins|)
  {
    assert Counts(Counters(0, 0, 0, 0), []);
    hide Norm, Sha256Hex, Pins.Keys, Delivers, IsValidHash, Counts, Tally, AfterPin, PinOutcome, PassedSoFar, Settled, AddsOnlyPins;
    ghost var held0, image0 := store.Held(), store.Snapshot();
    c, outcomes := Counters(0, 0, 0, 0), [];
    PassBegins(pins, world, maxBytes, held0, image0);
    for i := 0 to |pins|
      invariant store.Valid() && store.denied == image0.denied
      invariant |outcomes| == i && Counts(c, outcomes)
      invariant PassedSoFar(outcomes, pins, world, maxBytes, held0, store.Held(), image0)
      invariant store.Snapshot() == AfterPins(image0, pins, world, maxBytes, i)
    {
      var o := IngestNext(store, pins, world, maxBytes, i, outcomes, held0, image0);
      CountsNext(c, outcomes, o);
      c, outcomes := Count(c, o), outcomes + [o];
    }
    assert pins[..|pins|] == pins;
    PassEnds(outcomes, pins, world, maxBytes, held0, store.Held(), image0);
    EveryOutcomeIsCounted(outcomes, c);
  }

  /** One turn of the loop. */
  method IngestNext(store: Store, pins: seq<Item>, world: seq<Sources>, maxBytes: nat, i: nat,
                    ghost outcomes: seq<Outcome>, ghost first: map<string, Bytes>, ghost start: Image) returns (o: Outcome)
    requires i == |outcomes| < |pins| == |world| && store.Valid() && store.denied == start.denied
    requires PassedSoFar(outcomes, pins, world, maxBytes, first, store.Held(), start)
    requires store.Snapshot() == AfterPins(start, pins, world, maxBytes, i)
    modifies store, store.dir
    ensures store.Valid() && store.denied == start.denied
    ensures PassedSoFar(outcomes + [o], pins, world, maxBytes, first, store.Held(), start)
    ensures store.Snapshot() == AfterPins(start, pins, world, maxBytes, i + 1)
  {
    hide Norm, Sha256Hex, Delivers, IsValidHash, Payload, Admits, AfterPin, PinOutcome, AddsAtMost, PassedSoFar;
    ghost var before := store.Held();
    o := IngestPin(store, pins[i].hash, world[i], maxBytes);
    PassedNext(outcomes, pins, world, maxBytes, o, first, before, store.Held(), start);
  }

  lemma PassEnds(outcomes: seq<Outcome>, pins: seq<Item>, world: seq<Sources>, maxBytes: nat,
                 first: map<string, Bytes>, now: map<string, Bytes>, start: Image)
    requires |outcomes| == |pins| == |world| && PassedSoFar(outcomes, pins, world, maxBytes, first, now, start)
    ensures AddsOnlyPins(first, now, pins[..|pins|], maxBytes)
    ensures forall i :: 0 <= i < |pins| ==> Settled(outcomes[i], pins[i].hash, first, now, start.denied)
    ensures forall i :: 0 <= i < |pins| ==>
              outcomes[i] == PinOutcome(AfterPins(start, pins, world, maxBytes, i), pins[i].hash, world[i], maxBytes)
  {
    hide Settled, AddsOnlyPins, PinOutcome, AfterPins;
  }
}
