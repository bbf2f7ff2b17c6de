/** Any number of nodes, each against arbitrary content servers and arbitrary peers, among which are
    the other nodes. */
module Network {
  import opened Text
  import opened Hashes
  import opened Denylist
  import opened Disks
  import opened Operations
  import opened Paging
  import Pins
  import opened Acquire
  import opened Peering
  import opened PeeringInvariants
  import opened Gossip

  /** Where a node's ingest loop is with the pin it is working on. */
  datatype Phase =
    | Idle
    | Fetching(raw: string)
    | Waiting(raw: string, want: nat)
    | Storing(raw: string, bytes: Bytes)

  /** `found` are the blobs that were in the directory when the node started for the first time. `pins`
      is the list of the current pass, `listed` the normalised hashes of every pin the chain has ever
      returned to this node. */
  datatype Node = Node(maxObject: nat, loop: State, store: Image, pins: seq<Item>, listed: set<string>, phase: Phase,
                       found: map<string, Bytes>)

  datatype NodeEvent =
    | Pass(pins: seq<Item>)                                          // confirmed_pins has returned
    | Take(i: nat)                                                   // next pin, past both checks
    | Acquired(responses: seq<Acquire.Response>, peer: PeerId)       // what the candidates sent
    | Answered(i: nat)                                               // entry of the delivery log
    | Stored(io: Io)
    | Loop(e: Event)                                                 // anything the peers cause
    | Deny(h: string, io: Io, r: Result<bool, DenyError>, after: Image)
    | Allow(h: string, io: Io, r: Result<bool, DenyError>, after: Image)
    | Restart(opening: OpenIo)

  /** The store's operations are those of `Operations`; a deny or allow comes with what it makes of the
      store, and one that could not does not happen. */
  ghost function NodeStep(n: Node, e: NodeEvent): Node {
    match e
    case Pass(pins) =>
      if n.phase == Idle then n.(pins := pins, listed := n.listed + Pins.Keys(pins)) else n
    case Take(i) =>
      if n.phase == Idle && i < |n.pins| && Norm(n.pins[i].hash) !in n.store.denied && Norm(n.pins[i].hash) !in n.store.index
      then n.(phase := Fetching(n.pins[i].hash))
      else n
    case Acquired(responses, peer) =>
      if !n.phase.Fetching? then n
      else
        var body := FirstVerified(responses, n.phase.raw, n.maxObject);
        if body.Some? then n.(phase := Storing(n.phase.raw, body.value))
        else
          var asked := Step(n.loop, Want(n.phase.raw, peer));
          if asked.wants.wanted == n.loop.wants.wanted then n
          else n.(loop := asked, phase := Waiting(n.phase.raw, |n.loop.wants.wanted|))
    case Answered(i) =>
      var log := n.loop.wants.delivered;
      if n.phase.Waiting? && i < |log| && log[i].0 == n.phase.want then
        n.(phase := if log[i].1.Some? then Storing(n.phase.raw, log[i].1.value) else Idle)
      else n
    case Stored(io) =>
      if n.phase.Storing? then n.(store := AfterPut(n.store, Norm(n.phase.raw), n.phase.bytes, io), phase := Idle) else n
    case Loop(le) => if le.Want? then n else n.(loop := Step(n.loop, le))
    case Deny(h, io, r, after) => if DenyDoes(n.store, Norm(h), io, r, after) then n.(store := after) else n
    case Allow(h, io, r, after) => if AllowDoes(n.store, Norm(h), io, r, after) then n.(store := after) else n
    case Restart(io) =>
      n.(loop := Start(n.maxObject), pins := [], phase := Idle, store := Opened(n.store.disk, n.store.max, io))
  }

  type Net = map<nat, Node>

  ghost function NetStep(net: Net, who: nat, e: NodeEvent): Net {
    if who in net then net[who := NodeStep(net[who], e)] else net
  }

  ghost function Evolve(net: Net, history: seq<(nat, NodeEvent)>): Net {
    if history == [] then net
    else
      var (who, e) := history[|history| - 1];
      NetStep(Evolve(net, history[..|history| - 1]), who, e)
  }

  // ---- safety

  /** A payload that may be stored for `key`: it hashes to the key, is within the object cap, and the
      chain has listed it. */
  ghost predicate Legitimate(n: Node, key: string, bytes: Bytes) {
    Sha256Hex(bytes) == key && |bytes| <= n.maxObject && key in n.listed
  }

  /** A file that was found at the start or is legitimate. */
  ghost predicate Accounted(n: Node, h: string)
    requires h in n.store.disk.bins
  {
    (h in n.found && n.store.disk.bins[h] == n.found[h]) || Legitimate(n, h, n.store.disk.bins[h])
  }

  ghost predicate PhaseSound(n: Node) {
    match n.phase
    case Idle => true
    case Fetching(raw) => Norm(raw) in n.listed
    case Waiting(raw, want) =>
      Norm(raw) in n.listed && want < |n.loop.wants.wanted| && n.loop.wants.wanted[want] == raw
    case Storing(raw, bytes) => Legitimate(n, Norm(raw), bytes)
  }

  ghost predicate Sound(n: Node) {
    && Inv(n.loop) && n.loop.maxBytes == n.maxObject
    && Pins.Keys(n.pins) <= n.listed
    && PhaseSound(n)
    && n.store.index.Keys <= n.store.disk.bins.Keys
    && forall h :: h in n.store.disk.bins ==> Accounted(n, h)
  }

  /** The log of wants only ever gets longer. */
  lemma WantedOnlyGrows(s: State, e: Event)
    ensures s.wants.wanted <= Step(s, e).wants.wanted && Step(s, e).maxBytes == s.maxBytes
  {
    hide ServesAfter, ProvidersAfter, AcceptGet, Norm;
  }

  lemma AcquiredKeepsSound(n: Node, responses: seq<Acquire.Response>, peer: PeerId)
    requires Sound(n)
    ensures Sound(NodeStep(n, Acquired(responses, peer)))
  {
    if n.phase.Fetching? {
      FirstVerifiedIsSound(responses, n.phase.raw, n.maxObject);
      InvStep(n.loop, Want(n.phase.raw, peer));
      hide ServesAfter, ProvidersAfter, AcceptGet, Norm, FirstVerified, Inv, Sha256Hex;
    }
  }

  lemma AnsweredKeepsSound(n: Node, i: nat)
    requires Sound(n)
    ensures Sound(NodeStep(n, Answered(i)))
  {
    var log := n.loop.wants.delivered;
    if n.phase.Waiting? && i < |log| && log[i].0 == n.phase.want {
      assert AnswerTruthful(n.loop.wants, n.loop.maxBytes, log[i]);
    }
    hide Inv, Norm, Sha256Hex;
  }

  lemma LoopKeepsSound(n: Node, e: Event)
    requires Sound(n)
    ensures Sound(NodeStep(n, Loop(e)))
  {
    hide Inv, Norm, Sha256Hex, Step, IsValidHash, FirstVerified;
    InvStep(n.loop, e);
    WantedOnlyGrows(n.loop, e);
  }

  /** Index and files of `after` are among those of `before`. */
  ghost predicate OnlyLess(before: Image, after: Image) {
    && after.index.Keys <= after.disk.bins.Keys
    && forall h :: h in after.disk.bins ==> h in before.disk.bins && after.disk.bins[h] == before.disk.bins[h]
  }

  lemma DenyOnlyRemoves(s: Image, h: string, io: Io, r: Result<bool, DenyError>, after: Image)
    requires DenyDoes(s, h, io, r, after) && s.index.Keys <= s.disk.bins.Keys
    ensures OnlyLess(s, after)
  {
    hide IsValidHash;
  }

  lemma AllowOnlyLists(s: Image, h: string, io: Io, r: Result<bool, DenyError>, after: Image)
    requires AllowDoes(s, h, io, r, after) && s.index.Keys <= s.disk.bins.Keys
    ensures OnlyLess(s, after)
  {
    hide IsValidHash;
  }

  lemma OpenOnlyRemoves(d: Disk, max: nat, io: OpenIo, s: Image)
    requires s.disk == d
    ensures OnlyLess(s, Opened(d, max, io))
  {
    hide IsValidHash, LoadedDenylist;
  }

  lemma LessKeepsSound(n: Node, after: Image)
    requires Sound(n) && OnlyLess(n.store, after)
    ensures Sound(n.(store := after))
  {
    hide Inv, Norm, Sha256Hex;
    forall h | h in after.disk.bins ensures Accounted(n.(store := after), h) {
      assert Accounted(n, h);
    }
  }

  lemma StoredKeepsSound(n: Node, io: Io)
    requires Sound(n)
    ensures Sound(NodeStep(n, Stored(io)))
  {
    hide Inv, Norm, Sha256Hex, IsValidHash, Admits;
    var n' := NodeStep(n, Stored(io));
    if n.phase.Storing? {
      assert n'.store.index.Keys <= n'.store.disk.bins.Keys;
      forall h | h in n'.store.disk.bins ensures Accounted(n', h) {
        if h in n.store.disk.bins {
          assert Accounted(n, h);
        }
      }
    }
  }

  lemma LocalKeepsSound(n: Node, e: NodeEvent)
    requires Sound(n) && (e.Pass? || e.Take? || e.Deny? || e.Allow?)
    ensures Sound(NodeStep(n, e))
  {
    hide Inv, Norm, Sha256Hex, Step, FirstVerified, IsValidHash, OnlyLess;
    match e
    case Pass(_) =>
    case Take(_) =>
    case Deny(h, io, r, after) =>
      if DenyDoes(n.store, Norm(h), io, r, after) {
        DenyOnlyRemoves(n.store, Norm(h), io, r, after);
        LessKeepsSound(n, after);
      }
    case Allow(h, io, r, after) =>
      if AllowDoes(n.store, Norm(h), io, r, after) {
        AllowOnlyLists(n.store, Norm(h), io, r, after);
        LessKeepsSound(n, after);
      }
  }

  lemma RestartKeepsSound(n: Node, io: OpenIo)
    requires Sound(n)
    ensures Sound(NodeStep(n, Restart(io)))
  {
    InvAlways(n.maxObject, []);
    OpenOnlyRemoves(n.store.disk, n.store.max, io, n.store);
    LessKeepsSound(n, Opened(n.store.disk, n.store.max, io));
    hide Inv, Norm, Sha256Hex, Step, FirstVerified, Opened;
  }

  lemma NodeStepKeepsSound(n: Node, e: NodeEvent)
    requires Sound(n)
    ensures Sound(NodeStep(n, e))
  {
    hide Sound, NodeStep;
    match e
    case Acquired(responses, peer) => AcquiredKeepsSound(n, responses, peer);
    case Answered(i) => AnsweredKeepsSound(n, i);
    case Loop(le) => LoopKeepsSound(n, le);
    case Restart(io) => RestartKeepsSound(n, io);
    case Stored(io) => StoredKeepsSound(n, io);
    case _ => LocalKeepsSound(n, e);
  }

  /** A node that has just opened its store, on whatever is in its directory, and knows nothing yet. */
  ghost predicate IsFresh(n: Node) {
    && n.loop == Start(n.maxObject) && n.pins == [] && n.listed == {} && n.phase == Idle
    && n.found == n.store.disk.bins && n.store.index.Keys <= n.found.Keys
  }

  lemma FreshIsSound(n: Node)
    requires IsFresh(n)
    ensures Sound(n)
  {
    InvAlways(n.maxObject, []);
    hide Inv;
  }

  lemma {:induction false} NetworkStaysSound(net: Net, history: seq<(nat, NodeEvent)>)
    requires forall who :: who in net ==> Sound(net[who])
    ensures var now := Evolve(net, history);
            now.Keys == net.Keys && forall who :: who in now ==> Sound(now[who])
    decreases |history|
  {
    hide Sound, NodeStep;
    if history != [] {
      var before := history[..|history| - 1];
      NetworkStaysSound(net, before);
      var (who, e) := history[|history| - 1];
      if who in net {
        NodeStepKeepsSound(Evolve(net, before)[who], e);
      }
    }
  }

  /** Self-certification and allowlist, network-wide. Whatever content servers and peers send, and in
      whatever order things happen, restarts on leftover files included: every blob a node holds is one
      that was in its directory at the very start, or hashes to its key, is within that node's object
      cap, and its key is the normalised hash of a pin the chain returned to that node. */
  lemma OnlyListedVerifiedContent(net: Net, history: seq<(nat, NodeEvent)>, who: nat, h: string)
    requires forall k :: k in net ==> IsFresh(net[k])
    requires who in Evolve(net, history) && h in Evolve(net, history)[who].store.index
    ensures var n := Evolve(net, history)[who];
            && h in n.store.disk.bins
            && (|| (h in n.found && n.store.disk.bins[h] == n.found[h])
                || (&& Sha256Hex(n.store.disk.bins[h]) == h && |n.store.disk.bins[h]| <= n.maxObject
                    && h in n.listed))
  {
    forall k | k in net ensures Sound(net[k]) {
      FreshIsSound(net[k]);
    }
    NetworkStaysSound(net, history);
    hide Evolve, Inv;
    var n := Evolve(net, history)[who];
    assert Sound(n);
    assert Accounted(n, h);
  }

  lemma ListsMore(n: Node, e: NodeEvent, h: string)
    requires h in NodeStep(n, e).listed
    ensures h in n.listed || (e.Pass? && h in Pins.Keys(e.pins))
  {
    hide Step, FirstVerified, Norm;
  }

  /** The allowlist has nothing that the chain did not return to this very node. */
  lemma {:induction false} ListedWasReturned(net: Net, history: seq<(nat, NodeEvent)>, who: nat, h: string)
    requires who in Evolve(net, history) && h in Evolve(net, history)[who].listed
    ensures who in net
    ensures h in net[who].listed
            || exists k :: 0 <= k < |history| && history[k].0 == who && history[k].1.Pass? && h in Pins.Keys(history[k].1.pins)
    decreases |history|
  {
    hide NodeStep;
    if history != [] {
      var n := |history| - 1;
      var before := Evolve(net, history[..n]);
      var (actor, e) := history[n];
      if actor == who {
        ListsMore(before[who], e, h);
      }
      if h in before[who].listed {
        ListedWasReturned(net, history[..n], who, h);
        if h !in net[who].listed {
          var k :| 0 <= k < n && history[..n][k].0 == who && history[..n][k].1.Pass? && h in Pins.Keys(history[..n][k].1.pins);
          assert history[k] == history[..n][k];
        }
      } else {
        assert history[n].0 == who && history[n].1.Pass?;
        KeysKnown(net, history[..n], who);
      }
    }
  }

  lemma {:induction false} KeysKnown(net: Net, history: seq<(nat, NodeEvent)>, who: nat)
    requires who in Evolve(net, history)
    ensures who in net
    decreases |history|
  {
    hide NodeStep;
    if history != [] {
      KeysKnown(net, history[..|history| - 1], who);
    }
  }

  // ---- it does get there

  ghost function NodePlay(n: Node, events: seq<NodeEvent>): Node
    decreases |events|
  {
    if events == [] then n else NodePlay(NodeStep(n, events[0]), events[1..])
  }

  /** From the chain to the store: a pin that is neither denied nor held, and that some candidate
      delivers, is in the store after its turn if the store takes it. */
  lemma PinGetsStored(n: Node, pins: seq<Item>, i: nat, responses: seq<Acquire.Response>, peer: PeerId, io: Io)
    requires n.phase == Idle && i < |pins|
    requires var h := Norm(pins[i].hash); h !in n.store.denied && h !in n.store.index
    requires exists c :: 0 <= c < |responses| && Delivers(responses[c], pins[i].hash, n.maxObject)
    ensures var h, body := Norm(pins[i].hash), FirstVerified(responses, pins[i].hash, n.maxObject);
            body.Some? && (PutResult(n.store, h, |body.value|, io).Ok? ==>
              var end := NodePlay(n, [Pass(pins), Take(i), Acquired(responses, peer), Stored(io)]);
              h in end.store.index && h in end.store.disk.bins && end.store.disk.bins[h] == body.value
              && h in end.listed && end.phase == Idle)
  {
    var raw := pins[i].hash;
    var h := Norm(raw);
    FirstVerifiedIff(responses, raw, n.maxObject);
    var body := FirstVerified(responses, raw, n.maxObject);
    assert h in Pins.Keys(pins);
    hide NodeStep, NodePlay, Norm, FirstVerified, Step, Sha256Hex, IsValidHash, Delivers, AfterPut, PutResult, Pins.Keys;
    var n1 := n.(pins := pins, listed := n.listed + Pins.Keys(pins));
    PassLists(n, pins);
    var n2 := n1.(phase := Fetching(raw));
    TakeFetches(n1, i);
    var n3 := n1.(phase := Storing(raw, body.value));
    AcquiredStores(n2, raw, responses, peer);
    PlayFour(n, Pass(pins), Take(i), Acquired(responses, peer), Stored(io));
    StoringStores(n3, raw, body.value, io);
  }

  lemma PassLists(n: Node, pins: seq<Item>)
    requires n.phase == Idle
    ensures NodeStep(n, Pass(pins)) == n.(pins := pins, listed := n.listed + Pins.Keys(pins))
  {
    hide Step, FirstVerified, Norm;
  }

  lemma TakeFetches(n: Node, i: nat)
    requires n.phase == Idle && i < |n.pins|
    requires Norm(n.pins[i].hash) !in n.store.denied && Norm(n.pins[i].hash) !in n.store.index
    ensures NodeStep(n, Take(i)) == n.(phase := Fetching(n.pins[i].hash))
  {
    hide Step, FirstVerified, Norm;
  }

  lemma AcquiredStores(n: Node, raw: string, responses: seq<Acquire.Response>, peer: PeerId)
    requires n.phase == Fetching(raw) && FirstVerified(responses, raw, n.maxObject).Some?
    ensures NodeStep(n, Acquired(responses, peer)) == n.(phase := Storing(raw, FirstVerified(responses, raw, n.maxObject).value))
  {
    hide Step, FirstVerified, Norm;
  }

  lemma PlayFour(n: Node, a: NodeEvent, b: NodeEvent, c: NodeEvent, d: NodeEvent)
    ensures NodePlay(n, [a, b, c, d]) == NodeStep(NodeStep(NodeStep(NodeStep(n, a), b), c), d)
  {
    hide NodeStep;
    assert [a, b, c, d][1..] == [b, c, d] && [b, c, d][1..] == [c, d] && [c, d][1..] == [d] && [d][1..] == [];
    var n1 := NodeStep(n, a);
    var n2 := NodeStep(n1, b);
    var n3 := NodeStep(n2, c);
    assert NodePlay(n3, [d]) == NodeStep(n3, d);
    assert NodePlay(n2, [c, d]) == NodePlay(n3, [d]);
    assert NodePlay(n1, [b, c, d]) == NodePlay(n2, [c, d]);
  }

  /** And if no candidate delivers, a peer that is on record for it does: the want is sent, its answer
      comes back verified, and goes the same way. */
  lemma PinGetsStoredFromPeer(n: Node, raw: string, responses: seq<Acquire.Response>, peer: PeerId, bytes: Bytes, io: Io)
    requires Sound(n) && n.phase == Fetching(raw)
    requires forall c :: 0 <= c < |responses| ==> !Delivers(responses[c], raw, n.maxObject)
    requires Norm(raw) in n.loop.providers && peer in n.loop.providers[Norm(raw)]
    requires Sha256Hex(bytes) == Norm(raw) && |bytes| <= n.maxObject
    ensures var w := n.loop.wants;
            var end := NodePlay(n, [Acquired(responses, peer), Loop(Response(|w.sent|, GetResp(Some(bytes)))),
                                    Answered(|w.delivered|), Stored(io)]);
            && (PutResult(n.store, Norm(raw), |bytes|, io).Ok? ==>
                  Norm(raw) in end.store.index && Norm(raw) in end.store.disk.bins && end.store.disk.bins[Norm(raw)] == bytes)
            && end.phase == Idle
  {
    FirstVerifiedIff(responses, raw, n.maxObject);
    assert GoodEntry(Norm(raw), n.loop.providers[Norm(raw)]);
    AskingDelivers(n.loop, peer, raw, bytes);
    AskingIsWanting(n.loop, raw, peer);
    var w := n.loop.wants;
    var asked := Step(n.loop, Want(raw, peer));
    var answer := Response(|w.sent|, GetResp(Some(bytes)));
    hide NodeStep, NodePlay, Norm, FirstVerified, Step, Sha256Hex, IsValidHash, Delivers, Inv, IsCanonical, AfterPut, PutResult;
    PlayFour(n, Acquired(responses, peer), Loop(answer), Answered(|w.delivered|), Stored(io));
    var n1 := n.(loop := asked, phase := Waiting(raw, |w.wanted|));
    AcquiredAsks(n, raw, responses, peer);
    var n2 := n1.(loop := Step(asked, answer));
    LoopSteps(n1, answer);
    var n3 := n2.(phase := Storing(raw, bytes));
    AnsweredStores(n2, raw, |w.wanted|, |w.delivered|, bytes);
    StoringStores(n3, raw, bytes, io);
  }

  lemma AcquiredAsks(n: Node, raw: string, responses: seq<Acquire.Response>, peer: PeerId)
    requires n.phase == Fetching(raw) && FirstVerified(responses, raw, n.maxObject).None?
    requires Step(n.loop, Want(raw, peer)).wants.wanted == n.loop.wants.wanted + [raw]
    ensures NodeStep(n, Acquired(responses, peer))
            == n.(loop := Step(n.loop, Want(raw, peer)), phase := Waiting(raw, |n.loop.wants.wanted|))
  {
    hide Step, FirstVerified, Norm;
  }

  lemma LoopSteps(n: Node, e: Event)
    requires !e.Want?
    ensures NodeStep(n, Loop(e)) == n.(loop := Step(n.loop, e))
  {
    hide Step, FirstVerified, Norm;
  }

  lemma AnsweredStores(n: Node, raw: string, want: nat, i: nat, bytes: Bytes)
    requires n.phase == Waiting(raw, want)
    requires i < |n.loop.wants.delivered| && n.loop.wants.delivered[i] == (want, Some(bytes))
    ensures NodeStep(n, Answered(i)) == n.(phase := Storing(raw, bytes))
  {
    hide Step, FirstVerified, Norm;
  }

  lemma StoringStores(n: Node, raw: string, bytes: Bytes, io: Io)
    requires n.phase == Storing(raw, bytes)
    ensures var n', h := NodeStep(n, Stored(io)), Norm(raw);
            && n'.phase == Idle && n'.listed == n.listed
            && (PutResult(n.store, h, |bytes|, io).Ok? ==>
                  h in n'.store.index && h in n'.store.disk.bins && n'.store.disk.bins[h] == bytes)
  {
    hide Norm, IsValidHash, Admits;
  }

  lemma AskingIsWanting(s: State, raw: string, peer: PeerId)
    requires Norm(raw) in s.providers && peer in s.providers[Norm(raw)]
    ensures Step(s, Want(raw, peer)).wants.wanted == s.wants.wanted + [raw]
  {
    hide Norm;
  }

  /** A pin that neither a candidate nor any known peer has is given up, and the next one can be taken. */
  lemma PinGetsGivenUp(n: Node, raw: string, responses: seq<Acquire.Response>, peer: PeerId)
    requires n.phase == Fetching(raw) && Norm(raw) !in n.loop.providers
    requires forall c :: 0 <= c < |responses| ==> !Delivers(responses[c], raw, n.maxObject)
    ensures var end := NodeStep(NodeStep(n, Acquired(responses, peer)), Answered(|n.loop.wants.delivered|));
            end.phase == Idle && end.store == n.store && end.pins == n.pins
  {
    FirstVerifiedIff(responses, raw, n.maxObject);
    UnknownIsRefused(n.loop, raw, peer);
    hide NodeStep, Norm, FirstVerified, Step, Delivers;
    AcquiredAsks(n, raw, responses, peer);
    var w := n.loop.wants;
    AnsweredGivesUp(n.(loop := Step(n.loop, Want(raw, peer)), phase := Waiting(raw, |w.wanted|)), raw, |w.wanted|, |w.delivered|);
  }

  lemma UnknownIsRefused(s: State, raw: string, peer: PeerId)
    requires Norm(raw) !in s.providers
    ensures var w' := Step(s, Want(raw, peer)).wants;
            w'.wanted == s.wants.wanted + [raw] && w'.delivered == s.wants.delivered + [(|s.wants.wanted|, None)]
  {
    hide Norm;
  }

  lemma AnsweredGivesUp(n: Node, raw: string, want: nat, i: nat)
    requires n.phase == Waiting(raw, want)
    requires i < |n.loop.wants.delivered| && n.loop.wants.delivered[i] == (want, None)
    ensures NodeStep(n, Answered(i)) == n.(phase := Idle)
  {
    hide Step, FirstVerified, Norm;
  }

  /** A deny that succeeds leaves its hash denied and not held, an allow leaves it not denied. */
  lemma AdminTakesEffect(n: Node, h: string, io: Io, r: Result<bool, DenyError>, after: Image)
    requires r.Ok?
    ensures DenyDoes(n.store, Norm(h), io, r, after) ==>
              var s' := NodeStep(n, Deny(h, io, r, after)).store;
              s'.denied == n.store.denied + {Norm(h)} && s'.index == n.store.index - {Norm(h)}
    ensures AllowDoes(n.store, Norm(h), io, r, after) ==>
              var s' := NodeStep(n, Allow(h, io, r, after)).store;
              s'.denied == n.store.denied - {Norm(h)} && s'.index == n.store.index
  {
    hide Norm, Step, FirstVerified, IsValidHash, Rewritten;
    if Norm(h) !in n.store.denied {
      assert n.store.denied - {Norm(h)} == n.store.denied;
    } else {
      assert n.store.denied + {Norm(h)} == n.store.denied;
    }
  }

  /** A restart forgets what was under way and knows again what its directory says: the denylist, if it
      can be read, and as held every file with a valid name that is not denied. */
  lemma RestartReadsDirectory(n: Node, io: OpenIo)
    ensures var n', d := NodeStep(n, Restart(io)), n.store.disk;
            && n'.phase == Idle && n'.loop == Start(n.maxObject) && n'.pins == [] && n'.listed == n.listed
            && (forall h :: h in n'.store.denied <==> io.readable && d.denyFile.Some? && TextDenies(d.denyFile.value, h))
            && (forall h :: h in n'.store.index <==> h in d.bins && IsValidHash(h) && h !in n'.store.denied)
  {
    hide IsValidHash, Parse, TextDenies, Step, FirstVerified, Norm;
    if n.store.disk.denyFile.Some? {
      forall h ensures h in Parse(n.store.disk.denyFile.value) <==> TextDenies(n.store.disk.denyFile.value, h) {
        ParseIff(n.store.disk.denyFile.value, h);
      }
    }
  }
}
