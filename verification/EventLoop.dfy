/** The p2p event loop as the object that runs it. */
module EventLoops {
  import opened Text
  import opened Hashes
  import opened Peering
  import opened PeeringInvariants

  /** `played` is an event as it happened: for a want, with the provider that came up. */
  predicate Resolves(event: Event, played: Event) {
    played == event || (played.Want? && event.Want? && played.hash == event.hash)
  }

  /** Each arm of the loop changes one part of the state, as its `modifies` clause says. */
  class EventLoop {
    const maxBytes: nat
    var providers: Providers
    var wanted: seq<string>
    var sent: seq<(PeerId, string)>
    var pending: map<nat, (string, nat)>
    var delivered: seq<(nat, Option<Bytes>)>
    var inbound: nat
    var permits: nat
    var serving: map<nat, Serve>
    var queue: seq<(nat, Resp)>
    var answered: seq<(nat, Resp)>

    ghost function View(): State
      reads this
    {
      State(maxBytes, providers, Wants(wanted, sent, pending, delivered), Serves(inbound, permits, serving, queue, answered))
    }

    /** Everything `PeeringInvariants` promises about a run. */
    ghost predicate Valid()
      reads this
    {
      Inv(View())
    }

    constructor (maxBytes: nat)
      ensures View() == Start(maxBytes) && Valid()
    {
      this.maxBytes := maxBytes;
      providers, wanted, sent, pending, delivered := map[], [], [], map[], [];
      inbound, permits, serving, queue, answered := 0, MAX_CONCURRENT_SERVES, map[], [], [];
      new;
      InvAlways(maxBytes, []);
    }

    /** Ask a known provider, or say at once that there is none. */
    method OnWant(hash: string) returns (ghost peer: PeerId)
      requires Valid()
      modifies this`wanted, this`sent, this`pending, this`delivered
      ensures Valid() && View() == Step(old(View()), Want(hash, peer))
      ensures |wanted| == |old(wanted)| + 1
    {
      hide Norm, Inv;
      ghost var before := View();
      var h := Norm(hash);
      var reply := |wanted|;
      wanted := wanted + [hash];
      peer := 0;
      if h in providers && providers[h] != {} {
        var p :| p in providers[h];
        peer := p;
        var request := |sent|;
        sent := sent + [(p, "0x" + h)];
        pending := pending[request := (h, reply)];
      } else {
        delivered := delivered + [(reply, None)];
      }
      InvStep(before, Want(hash, peer));
    }

    /** Bounded insertion of one announced hash. */
    method Track(h: string, source: PeerId)
      modifies this`providers
      ensures providers == AddProvider(old(providers), h, source)
    {
      if IsValidHash(h) && (h in providers || |providers| < MAX_TRACKED_HASHES) {
        var peers := if h in providers then providers[h] else {};
        if |peers| < MAX_PEERS_PER_HASH {
          peers := peers + {source};
        }
        providers := providers[h := peers];
      }
    }

    method OnGossip(source: Option<PeerId>, data: string)
      requires Valid()
      modifies this`providers
      ensures Valid() && View() == Step(old(View()), Gossip(source, data))
    {
      hide Norm, IsValidHash, Lines, AddProvider, Inv;
      ghost var before := View();
      if source.Some? {
        var lines := Lines(data);
        for i := 0 to |lines|
          invariant providers == AddProviders(old(providers), lines[..i], source.value)
        {
          assert lines[..i + 1][..i] == lines[..i];
          Track(Norm(lines[i]), source.value);
        }
        assert lines[..|lines|] == lines;
      }
      InvStep(before, Gossip(source, data));
    }

    method OnHaveRequest(resp: Resp)
      requires Valid()
      modifies this`answered, this`inbound
      ensures Valid() && View() == Step(old(View()), HaveRequest(resp))
    {
      hide Inv;
      InvStep(View(), HaveRequest(resp));
      answered := answered + [(inbound, resp)];
      inbound := inbound + 1;
    }

    method OnGetRequest(hash: string)
      requires Valid()
      modifies this`permits, this`serving, this`answered, this`inbound
      ensures Valid() && View() == Step(old(View()), GetRequest(hash))
    {
      hide Norm, Inv;
      InvStep(View(), GetRequest(hash));
      var c := inbound;
      inbound := inbound + 1;
      if permits > 0 {
        permits, serving := permits - 1, serving[c := Reading(Norm(Norm(hash)))];
      } else {
        answered := answered + [(c, GetResp(None))];
      }
    }

    /** The spawned serve, step by step: what it read, ... */
    method ServeReadsStore(c: nat, body: Option<Bytes>)
      requires Valid()
      modifies this`serving
      ensures Valid() && View() == Step(old(View()), ServeReads(c, body))
    {
      hide Inv;
      InvStep(View(), ServeReads(c, body));
      if c in serving && serving[c].Reading? {
        serving := serving[c := Holding(body)];
      }
    }

    /** ... handing the response to the loop once the queue has room, ... */
    method ServeSends(c: nat)
      requires Valid()
      modifies this`serving, this`queue
      ensures Valid() && View() == Step(old(View()), ServeHandsOver(c))
    {
      hide Inv;
      InvStep(View(), ServeHandsOver(c));
      if c in serving && serving[c].Holding? && |queue| < MAX_CONCURRENT_SERVES {
        queue := queue + [(c, GetResp(serving[c].body))];
        serving := serving[c := HandedOver];
      }
    }

    /** ... and only then releasing the permit. */
    method ServeDropsPermit(c: nat)
      requires Valid()
      modifies this`serving, this`permits
      ensures Valid() && View() == Step(old(View()), ServeEnds(c))
    {
      hide Inv;
      InvStep(View(), ServeEnds(c));
      if c in serving && serving[c].HandedOver? {
        serving := serving - {c};
        permits := permits + 1;
      }
    }

    method OnServed()
      requires Valid()
      modifies this`answered, this`queue
      ensures Valid() && View() == Step(old(View()), AnswerNext)
    {
      hide Inv;
      InvStep(View(), AnswerNext);
      if queue != [] {
        answered := answered + [queue[0]];
        queue := queue[1..];
      }
    }

    method OnResponse(request: nat, resp: Resp)
      requires Valid()
      modifies this`pending, this`delivered
      ensures Valid() && View() == Step(old(View()), Response(request, resp))
    {
      hide Inv;
      InvStep(View(), Response(request, resp));
      if request in pending {
        var (want, reply) := pending[request];
        pending := pending - {request};
        delivered := delivered + [(reply, AcceptGet(want, resp, maxBytes))];
      }
    }

    method OnOutboundFailure(request: nat)
      requires Valid()
      modifies this`pending, this`delivered
      ensures Valid() && View() == Step(old(View()), OutboundFailure(request))
    {
      hide Inv;
      InvStep(View(), OutboundFailure(request));
      if request in pending {
        var reply := pending[request].1;
        pending := pending - {request};
        delivered := delivered + [(reply, None)];
      }
    }

    /** One turn of the loop: whatever comes up goes to its arm. */
    method Handle(event: Event) returns (ghost played: Event)
      requires Valid()
      modifies this
      ensures Valid() && Resolves(event, played) && View() == Step(old(View()), played)
    {
      hide Inv, Step;
      played := event;
      match event
      case Want(hash, _) =>
        ghost var peer := OnWant(hash);
        played := Want(hash, peer);
      case Gossip(source, data) => OnGossip(source, data);
      case HaveRequest(resp) => OnHaveRequest(resp);
      case GetRequest(hash) => OnGetRequest(hash);
      case ServeReads(c, body) => ServeReadsStore(c, body);
      case ServeHandsOver(c) => ServeSends(c);
      case ServeEnds(c) => ServeDropsPermit(c);
      case AnswerNext => OnServed();
      case Response(request, resp) => OnResponse(request, resp);
      case OutboundFailure(request) => OnOutboundFailure(request);
    }

    /** The loop, from its start, over whatever comes up: the object ends in the state that the run
        theorems of `PeeringInvariants` speak about, with all their invariants. */
    static method Run(maxBytes: nat, events: seq<Event>) returns (loop: EventLoop, ghost played: seq<Event>)
      ensures fresh(loop) && loop.Valid() && loop.View() == Play(Start(maxBytes), played)
      ensures |played| == |events| && forall i :: 0 <= i < |events| ==> Resolves(events[i], played[i])
    {
      hide Inv, Step;
      loop := new EventLoop(maxBytes);
      played := [];
      for i := 0 to |events|
        invariant fresh(loop) && loop.Valid() && loop.View() == Play(Start(maxBytes), played)
        invariant |played| == i && forall j :: 0 <= j < i ==> Resolves(events[j], played[j])
      {
        ghost var e := loop.Handle(events[i]);
        assert (played + [e])[..i] == played;
        played := played + [e];
      }
    }
  }
}
