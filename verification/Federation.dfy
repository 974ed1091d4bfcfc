/** The beacon federation: a last-writer-wins soft-state directory, reachability
    pings and idempotent bridging. */
module Federation {
  import opened Seqs
  import opened Identity

  const BEACON_TTL := 90.0
  const REACHABLE_TTL := 45.0

  type PingNonce = nat

  datatype BeaconInfo = BeaconInfo(advert: Advert, blob: Blob, seenAt: real, reachable: bool, lastPong: Option<real>)

  type Beacons = map<NodeId, BeaconInfo>

  // ---- the registry ----

  predicate Stale(bs: Beacons, self: NodeId, a: Advert) {
    a.nodeId == self || (a.nodeId in bs && a.ts < bs[a.nodeId].advert.ts)
  }

  // Newest advert wins; what is known about reachability survives a refresh.
  function Recorded1(bs: Beacons, self: NodeId, a: Advert, blob: Blob, now: real): Beacons {
    if Stale(bs, self, a) then bs
    else if a.nodeId in bs then
      bs[a.nodeId := BeaconInfo(a, blob, now, bs[a.nodeId].reachable, bs[a.nodeId].lastPong)]
    else bs[a.nodeId := BeaconInfo(a, blob, now, false, None)]
  }

  predicate IsNew(bs: Beacons, self: NodeId, a: Advert) {
    a.nodeId != self && a.nodeId !in bs
  }

  function Marked(bs: Beacons, id: NodeId, now: real): Beacons {
    if id in bs then bs[id := bs[id].(reachable := true, lastPong := Some(now))] else bs
  }

  function Aged(info: BeaconInfo, now: real): BeaconInfo {
    if info.reachable && info.lastPong.Some? && now - info.lastPong.value > REACHABLE_TTL
    then info.(reachable := false) else info
  }

  function Expired(bs: Beacons, now: real): Beacons {
    map id | id in bs && now - bs[id].seenAt <= BEACON_TTL :: Aged(bs[id], now)
  }

  class BeaconRegistry {
    const self: NodeId
    var beacons: Beacons

    constructor (self: NodeId)
      ensures this.self == self && beacons == map[]
    {
      this.self, beacons := self, map[];
    }

    method Record(a: Advert, blob: Blob, now: real) returns (isNew: bool)
      modifies this
      ensures isNew == IsNew(old(beacons), self, a)
      ensures beacons == Recorded1(old(beacons), self, a, blob, now)
    {
      if a.nodeId == self { return false; }
      var existing := if a.nodeId in beacons then Some(beacons[a.nodeId]) else None;
      if existing.Some? && a.ts < existing.value.advert.ts { return false; }
      isNew := existing.None?;
      beacons := beacons[a.nodeId := BeaconInfo(a, blob, now,
                           if existing.Some? then existing.value.reachable else false,
                           if existing.Some? then existing.value.lastPong else None)];
    }

    method MarkReachable(id: NodeId, now: real)
      modifies this
      ensures beacons == Marked(old(beacons), id, now)
    {
      if id in beacons {
        beacons := beacons[id := beacons[id].(reachable := true, lastPong := Some(now))];
      }
    }

    method Expire(now: real)
      modifies this
      ensures beacons == Expired(old(beacons), now)
    {
      var todo := beacons.Keys;
      while todo != {}
        invariant todo <= beacons.Keys <= old(beacons).Keys
        invariant forall id | id in todo :: beacons[id] == old(beacons)[id]
        invariant forall id | id in old(beacons) && id !in todo ::
                    (id in beacons <==> now - old(beacons)[id].seenAt <= BEACON_TTL)
                    && (id in beacons ==> beacons[id] == Aged(old(beacons)[id], now))
        decreases |todo|
      {
        var id :| id in todo;
        var info := beacons[id];
        if now - info.seenAt > BEACON_TTL {
          beacons := beacons - {id};
        } else if info.reachable && info.lastPong.Some? && now - info.lastPong.value > REACHABLE_TTL {
          beacons := beacons[id := info.(reachable := false)];
        }
        todo := todo - {id};
      }
    }
  }

  // ---- the service ----

  datatype FedConfig = FedConfig(self: NodeId, ownFp: string, capacity: nat)

  datatype FedState = FedState(
    beacons: Beacons, seen: seq<Nonce>, pending: map<PingNonce, NodeId>, bridged: set<NodeId>,
    dialable: map<NodeId, (nat, nat)>)

  // Calls to the bridge callback, with the fingerprint bridged on.
  datatype Bridge = Bridge(id: NodeId, spaceFp: string)

  datatype PingOut = PingOut(nonce: PingNonce, target: NodeId)

  // pings: probes sent; bridges: callback calls; heard: envelopes accepted.
  datatype FedOutcome = FedOutcome(state: FedState, pings: seq<PingOut>, bridges: seq<Bridge>, heard: seq<Envelope>)

  function Quiet(s: FedState): FedOutcome { FedOutcome(s, [], [], []) }

  function Pinged(s: FedState, id: NodeId, nonce: PingNonce): FedOutcome {
    FedOutcome(s.(pending := s.pending[nonce := id]), [PingOut(nonce, id)], [], [])
  }

  predicate Bridgeable(cfg: FedConfig, s: FedState, id: NodeId) {
    && id in s.beacons && id !in s.bridged
    && cfg.ownFp != "" && s.beacons[id].advert.spaceFp == cfg.ownFp && s.beacons[id].reachable
  }

  function MaybeBridged(cfg: FedConfig, s: FedState, id: NodeId): FedOutcome {
    if Bridgeable(cfg, s, id)
    then FedOutcome(s.(bridged := s.bridged + {id}), [], [Bridge(id, s.beacons[id].advert.spaceFp)], [])
    else Quiet(s)
  }

  // An accepted envelope that carries its own sender's advert, and not ours.
  predicate Listable(cfg: FedConfig, env: Envelope) {
    env.body.BeaconAdvert? && env.body.advert.nodeId == env.sender && env.sender != cfg.self
  }

  function GossipOne(cfg: FedConfig, s: FedState, blob: Blob, now: real, nonce: PingNonce): FedOutcome {
    if !Acceptable(s.seen, blob, 0.0, None) then Quiet(s)
    else
      var env := blob.env;
      var s1 := s.(seen := SeenAfter(s.seen, cfg.capacity, blob, 0.0, None));
      if !Listable(cfg, env) then FedOutcome(s1, [], [], [env])
      else
        var a := env.body.advert;
        var s2 := s1.(beacons := Recorded1(s.beacons, cfg.self, a, blob, now),
                      dialable := s1.dialable[a.nodeId := (a.host, a.gossipPort)]);
        if IsNew(s.beacons, cfg.self, a) then Pinged(s2, a.nodeId, nonce).(heard := [env])
        else FedOutcome(s2, [], [], [env])
  }

  function Then(o: FedOutcome, next: FedOutcome): FedOutcome {
    FedOutcome(next.state, o.pings + next.pings, o.bridges + next.bridges, o.heard + next.heard)
  }

  function Gossiped(cfg: FedConfig, s: FedState, blobs: seq<Blob>, now: real, rand: nat -> PingNonce,
                    i: nat): FedOutcome
    requires i <= |blobs|
    decreases |blobs| - i
  {
    if i == |blobs| then Quiet(s)
    else
      var one := GossipOne(cfg, s, blobs[i], now, rand(i));
      Then(one, Gossiped(cfg, one.state, blobs, now, rand, i + 1))
  }

  function Ponged(cfg: FedConfig, s: FedState, nonce: PingNonce, now: real): FedOutcome {
    if nonce !in s.pending then Quiet(s)
    else
      var id := s.pending[nonce];
      MaybeBridged(cfg, s.(pending := s.pending - {nonce}, beacons := Marked(s.beacons, id, now)), id)
  }

  // Probe every listed beacon and re-assert its bridge, in the table's order.
  function Probed(cfg: FedConfig, s: FedState, order: seq<NodeId>, rand: nat -> PingNonce, i: nat): FedOutcome
    requires i <= |order|
    decreases |order| - i
  {
    if i == |order| then Quiet(s)
    else
      var ping := Pinged(s, order[i], rand(i));
      var bridge := MaybeBridged(cfg, ping.state, order[i]);
      Then(Then(ping, bridge), Probed(cfg, bridge.state, order, rand, i + 1))
  }

  function Ticked(cfg: FedConfig, s: FedState, order: seq<NodeId>, now: real, rand: nat -> PingNonce): FedOutcome {
    var o := Probed(cfg, s, order, rand, 0);
    o.(state := o.state.(beacons := Expired(o.state.beacons, now)))
  }

  class FederationService {
    const cfg: FedConfig
    const registry: BeaconRegistry
    const guard: ReplayGuard
    var pending: map<PingNonce, NodeId>
    var bridged: set<NodeId>
    var dialable: map<NodeId, (nat, nat)>

    ghost predicate Valid() {
      registry.self == cfg.self && guard.capacity == cfg.capacity
    }

    function State(): FedState
      reads this, registry, guard
    {
      FedState(registry.beacons, guard.seen, pending, bridged, dialable)
    }

    constructor (cfg: FedConfig)
      ensures Valid() && this.cfg == cfg && fresh(registry) && fresh(guard)
      ensures State() == FedState(map[], [], map[], {}, map[])
    {
      this.cfg := cfg;
      registry := new BeaconRegistry(cfg.self);
      guard := new ReplayGuard(cfg.capacity);
      pending, bridged, dialable := map[], {}, map[];
    }

    method MaybeBridge(id: NodeId) returns (bridges: seq<Bridge>)
      requires Valid()
      modifies this`bridged
      ensures State() == MaybeBridged(cfg, old(State()), id).state
      ensures bridges == MaybeBridged(cfg, old(State()), id).bridges
    {
      if id !in registry.beacons || id in bridged { return []; }
      var info := registry.beacons[id];
      if cfg.ownFp == "" || info.advert.spaceFp != cfg.ownFp || !info.reachable { return []; }
      bridged := bridged + {id};
      return [Bridge(id, info.advert.spaceFp)];
    }

    method Ping(id: NodeId, nonce: PingNonce) returns (pings: seq<PingOut>)
      requires Valid()
      modifies this`pending
      ensures State() == Pinged(old(State()), id, nonce).state
      ensures pings == Pinged(old(State()), id, nonce).pings
    {
      pending := pending[nonce := id];
      return [PingOut(nonce, id)];
    }

    method OnGossipBlob(blob: Blob, now: real, nonce: PingNonce) returns (pings: seq<PingOut>)
      requires Valid()
      modifies this`pending, this`dialable, registry, guard
      ensures State() == GossipOne(cfg, old(State()), blob, now, nonce).state
      ensures pings == GossipOne(cfg, old(State()), blob, now, nonce).pings
    {
      var res := VerifyEnvelope(blob, guard, 0.0, None);
      if res.Rejected? { return []; }
      if !res.body.BeaconAdvert? { return []; }
      var a := res.body.advert;
      if a.nodeId != res.sender { return []; }
      if a.nodeId == cfg.self { return []; }
      var isNew := registry.Record(a, blob, now);
      dialable := dialable[a.nodeId := (a.host, a.gossipPort)];
      pings := [];
      if isNew { pings := Ping(a.nodeId, nonce); }
    }

    method OnGossip(blobs: seq<Blob>, now: real, rand: nat -> PingNonce) returns (pings: seq<PingOut>)
      requires Valid()
      modifies this`pending, this`dialable, registry, guard
      ensures State() == Gossiped(cfg, old(State()), blobs, now, rand, 0).state
      ensures pings == Gossiped(cfg, old(State()), blobs, now, rand, 0).pings
    {
      pings := [];
      ghost var whole := Gossiped(cfg, State(), blobs, now, rand, 0);
      for i := 0 to |blobs|
        invariant whole.state == Gossiped(cfg, State(), blobs, now, rand, i).state
        invariant whole.pings == pings + Gossiped(cfg, State(), blobs, now, rand, i).pings
      {
        ghost var rest := Gossiped(cfg, State(), blobs, now, rand, i);
        var one := OnGossipBlob(blobs[i], now, rand(i));
        ghost var next := Gossiped(cfg, State(), blobs, now, rand, i + 1);
        assert rest.pings == one + next.pings && rest.state == next.state;
        ConcatAssoc(pings, one, next.pings);
        pings := pings + one;
      }
    }

    method OnPong(nonce: PingNonce, now: real) returns (bridges: seq<Bridge>)
      requires Valid()
      modifies this`pending, this`bridged, registry
      ensures State() == Ponged(cfg, old(State()), nonce, now).state
      ensures bridges == Ponged(cfg, old(State()), nonce, now).bridges
    {
      if nonce !in pending { return []; }
      var id := pending[nonce];
      pending := pending - {nonce};
      registry.MarkReachable(id, now);
      bridges := MaybeBridge(id);
    }

    method Probe(order: seq<NodeId>, rand: nat -> PingNonce) returns (pings: seq<PingOut>, bridges: seq<Bridge>)
      requires Valid()
      modifies this`pending, this`bridged
      ensures State() == Probed(cfg, old(State()), order, rand, 0).state
      ensures pings == Probed(cfg, old(State()), order, rand, 0).pings
      ensures bridges == Probed(cfg, old(State()), order, rand, 0).bridges
    {
      pings, bridges := [], [];
      ghost var whole := Probed(cfg, State(), order, rand, 0);
      for i := 0 to |order|
        invariant whole.state == Probed(cfg, State(), order, rand, i).state
        invariant whole.pings == pings + Probed(cfg, State(), order, rand, i).pings
        invariant whole.bridges == bridges + Probed(cfg, State(), order, rand, i).bridges
      {
        ghost var rest := Probed(cfg, State(), order, rand, i);
        var p := Ping(order[i], rand(i));
        var b := MaybeBridge(order[i]);
        ghost var next := Probed(cfg, State(), order, rand, i + 1);
        assert rest.state == next.state && rest.pings == p + [] + next.pings && rest.bridges == [] + b + next.bridges;
        assert p + [] == p && [] + b == b;
        ConcatAssoc(pings, p, next.pings);
        ConcatAssoc(bridges, b, next.bridges);
        pings, bridges := pings + p, bridges + b;
      }
    }

    // order: the iteration order of the directory.
    method Tick(order: seq<NodeId>, now: real, rand: nat -> PingNonce) returns (pings: seq<PingOut>,
                bridges: seq<Bridge>)
      requires Valid()
      requires forall id :: id in order <==> id in registry.beacons
      modifies this`pending, this`bridged, registry
      ensures State() == Ticked(cfg, old(State()), order, now, rand).state
      ensures pings == Ticked(cfg, old(State()), order, now, rand).pings
      ensures bridges == Ticked(cfg, old(State()), order, now, rand).bridges
    {
      pings, bridges := Probe(order, rand);
      registry.Expire(now);
    }
  }
}
