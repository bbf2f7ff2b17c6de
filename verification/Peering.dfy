/** The p2p event loop: who is known to hold what, which wants wait for which request, and which
    inbound requests are being served. Peers may send anything, in any order. */
module Peering {
  import opened Text
  import opened Hashes

  type PeerId = nat

  const MAX_TRACKED_HASHES: nat := 100_000
  const MAX_PEERS_PER_HASH: nat := 64
  const MAX_CONCURRENT_SERVES: nat := 16

  datatype Resp = HaveResp(has: bool, len: nat) | GetResp(body: Option<Bytes>)

  /** The gate for peer-served bytes: within the cap, and hashing to what was wanted. */
  function AcceptGet(want: string, resp: Resp, maxBytes: nat): (r: Option<Bytes>)
    ensures r.Some? <==>
              && resp.GetResp? && resp.body.Some?
              && |resp.body.value| <= maxBytes && Sha256Hex(resp.body.value) == Norm(want)
    ensures r.Some? ==> r == resp.body
  {
    match resp
    case GetResp(Some(bytes)) => if |bytes| <= maxBytes && Sha256Hex(bytes) == Norm(want) then Some(bytes) else None
    case _ => None
  }

  /** A spawned serve: reading the store, waiting to hand its response over, or done with that and
      about to release its permit. */
  datatype Serve = Reading(key: string) | Holding(body: Option<Bytes>) | HandedOver

  /** Wants and outbound requests, each numbered in the order they come up; `wanted`, `sent` and
      `delivered` are logs. A pending entry maps a request to the hash and the want it is for. */
  datatype Wants = Wants(wanted: seq<string>, sent: seq<(PeerId, string)>, pending: map<nat, (string, nat)>,
                         delivered: seq<(nat, Option<Bytes>)>)

  /** Inbound requests, numbered in the order they come up; `answered` is a log. */
  datatype Serves = Serves(inbound: nat, permits: nat, serving: map<nat, Serve>,
                           queue: seq<(nat, Resp)>, answered: seq<(nat, Resp)>)

  type Providers = map<string, set<PeerId>>

  datatype State = State(maxBytes: nat, providers: Providers, wants: Wants, serves: Serves)

  function Start(maxBytes: nat): State {
    State(maxBytes, map[], Wants([], [], map[], []), Serves(0, MAX_CONCURRENT_SERVES, map[], [], []))
  }

  datatype Event =
    | Want(hash: string, peer: PeerId)                 // `peer`: which provider iteration yields
    | Gossip(source: Option<PeerId>, data: string)
    | HaveRequest(resp: Resp)                          // answered from the store at once
    | GetRequest(hash: string)
    | ServeReads(inbound: nat, body: Option<Bytes>)    // the spawned task has read the store
    | ServeHandsOver(inbound: nat)
    | ServeEnds(inbound: nat)
    | AnswerNext
    | Response(request: nat, resp: Resp)
    | OutboundFailure(request: nat)

  function AddPeer(peers: set<PeerId>, source: PeerId): set<PeerId> {
    if |peers| < MAX_PEERS_PER_HASH then peers + {source} else peers
  }

  function AddProvider(providers: Providers, h: string, source: PeerId): Providers {
    if !IsValidHash(h) then providers
    else if h in providers || |providers| < MAX_TRACKED_HASHES then
      providers[h := AddPeer(if h in providers then providers[h] else {}, source)]
    else providers
  }

  function AddProviders(providers: Providers, lines: seq<string>, source: PeerId): Providers {
    if lines == [] then providers
    else AddProvider(AddProviders(providers, lines[..|lines| - 1], source), Norm(lines[|lines| - 1]), source)
  }

  function ProvidersAfter(providers: Providers, e: Event): Providers {
    if e.Gossip? && e.source.Some? then AddProviders(providers, Lines(e.data), e.source.value) else providers
  }

  function Deliver(w: Wants, request: nat, outcome: Option<Bytes>): Wants
    requires request in w.pending
  {
    w.(pending := w.pending - {request}, delivered := w.delivered + [(w.pending[request].1, outcome)])
  }

  function WantsAfter(w: Wants, maxBytes: nat, providers: Providers, e: Event): Wants {
    match e
    case Want(hash, peer) =>
      var h := Norm(hash);
      if h in providers && providers[h] != {} then
        if peer in providers[h] then
          w.(wanted := w.wanted + [hash], sent := w.sent + [(peer, "0x" + h)],
             pending := w.pending[|w.sent| := (h, |w.wanted|)])
        else w
      else w.(wanted := w.wanted + [hash], delivered := w.delivered + [(|w.wanted|, None)])
    case Response(request, resp) =>
      if request in w.pending then Deliver(w, request, AcceptGet(w.pending[request].0, resp, maxBytes)) else w
    case OutboundFailure(request) =>
      if request in w.pending then Deliver(w, request, None) else w
    case _ => w
  }

  function ServesAfter(v: Serves, e: Event): Serves {
    match e
    case HaveRequest(resp) =>
      v.(inbound := v.inbound + 1, answered := v.answered + [(v.inbound, resp)])
    case GetRequest(hash) =>
      if v.permits > 0 then
        v.(inbound := v.inbound + 1, permits := v.permits - 1,
           serving := v.serving[v.inbound := Reading(Norm(Norm(hash)))])
      else v.(inbound := v.inbound + 1, answered := v.answered + [(v.inbound, GetResp(None))])
    case ServeReads(c, body) =>
      if c in v.serving && v.serving[c].Reading? then v.(serving := v.serving[c := Holding(body)]) else v
    case ServeHandsOver(c) =>
      if c in v.serving && v.serving[c].Holding? && |v.queue| < MAX_CONCURRENT_SERVES then
        v.(serving := v.serving[c := HandedOver], queue := v.queue + [(c, GetResp(v.serving[c].body))])
      else v
    case ServeEnds(c) =>
      if c in v.serving && v.serving[c].HandedOver? then v.(serving := v.serving - {c}, permits := v.permits + 1)
      else v
    case AnswerNext =>
      if v.queue == [] then v else v.(queue := v.queue[1..], answered := v.answered + [v.queue[0]])
    case _ => v
  }

  function Step(s: State, e: Event): State {
    State(s.maxBytes, ProvidersAfter(s.providers, e), WantsAfter(s.wants, s.maxBytes, s.providers, e),
          ServesAfter(s.serves, e))
  }

  function Play(s: State, events: seq<Event>): State {
    if events == [] then s else Step(Play(s, events[..|events| - 1]), events[|events| - 1])
  }
}
