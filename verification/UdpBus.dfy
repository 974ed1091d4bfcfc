/** The signed UDP transport: chunked sends, direct delivery, and the relay
    fallback that wraps, forwards and unwraps origin-signed envelopes. */
module UdpBuses {
  import opened Seqs
  import opened Identity

  const MAX_DATAGRAM: nat := 1200
  const GOSSIP_CHUNK_SIZE: nat := 12
  const RELAY_GOSSIP_CHUNK_SIZE: nat := 8

  datatype Message = Message(sender: NodeId, recipient: NodeId, kind: string, payload: Payload)

  datatype Packet = Packet(env: Envelope, addr: Addr)

  // size: encoded length of an envelope, noise: of anything else; kinds: those with a
  // registered codec.
  datatype BusConfig = BusConfig(
    pk: PubKey, enableRelay: bool, skew: real, capacity: nat, kinds: set<string>,
    size: Envelope -> nat, noise: nat -> nat)

  function LengthOf(cfg: BusConfig, data: Blob): nat {
    match data
    case Env(env) => cfg.size(env)
    case Junk(tag) => cfg.noise(tag)
  }

  datatype BusState = BusState(
    peerAddrs: map<NodeId, Addr>, seen: seq<Nonce>,
    relayId: Option<NodeId>, relayIds: seq<NodeId>, relayOnly: set<NodeId>,
    droppedOversized: nat, droppedUnverified: nat, droppedLoss: nat,
    relayedTx: nat, relayedFwd: nat, relayedRx: nat, open: bool, txBytes: nat, rxBytes: nat)

  // A step of the bus: its new state, what it accepted, what it handed to the
  // application, what it put on the wire and what it signed.
  datatype Outcome = Outcome(
    state: BusState, accepted: seq<Acceptance>, handed: seq<Message>, sent: seq<Packet>, signed: seq<Envelope>)

  function Idle(s: BusState): Outcome { Outcome(s, [], [], [], []) }

  // ---- relay choice ----

  // The primary relay first, then the extras, each once.
  function Candidates(relayId: Option<NodeId>, relayIds: seq<NodeId>): seq<NodeId> {
    Dedup(if relayId.Some? then [relayId.value] + relayIds else relayIds)
  }

  function Dedup(ids: seq<NodeId>): (out: seq<NodeId>)
    ensures forall x :: x in out <==> x in ids
    ensures forall i, j | 0 <= i < j < |out| :: out[i] != out[j]
  {
    if ids == [] then []
    else
      var n := |ids| - 1;
      assert ids == ids[..n] + [ids[n]];
      var front := Dedup(ids[..n]);
      if ids[n] in front then front else front + [ids[n]]
  }

  function FirstReachable(ids: seq<NodeId>, recipient: NodeId, addrs: map<NodeId, Addr>): (a: Option<Addr>)
    ensures a.Some? <==> exists r | r in ids :: r != recipient && r in addrs
    ensures a.Some? ==> exists r | r in ids :: r != recipient && r in addrs && addrs[r] == a.value
  {
    if ids == [] then None
    else if ids[0] != recipient && ids[0] in addrs then Some(addrs[ids[0]])
    else FirstReachable(ids[1..], recipient, addrs)
  }

  function RelayTarget(cfg: BusConfig, s: BusState, recipient: NodeId): Option<Addr> {
    if cfg.enableRelay && recipient in s.relayOnly
    then FirstReachable(Candidates(s.relayId, s.relayIds), recipient, s.peerAddrs)
    else None
  }

  // ---- raw sends ----

  // One datagram on the wire, unless oversized or lost.
  function RawSend(cfg: BusConfig, s: BusState, env: Envelope, addr: Addr, lost: bool): (BusState, seq<Packet>) {
    if cfg.size(env) > MAX_DATAGRAM then (s.(droppedOversized := s.droppedOversized + 1), [])
    else if lost then (s.(droppedLoss := s.droppedLoss + 1), [])
    else (s.(txBytes := s.txBytes + cfg.size(env)), [Packet(env, addr)])
  }

  // ---- application sends ----

  function Chunks(payload: Payload, n: nat): seq<Payload>
    requires n > 0
  {
    if payload.Items? && |payload.items| > n
    then var parts := Split(payload.items, n);
         seq(|parts|, i requires 0 <= i < |parts| => Items(parts[i]))
    else [payload]
  }

  // rand supplies fresh nonces, loss the injected packet loss.
  datatype Luck = Luck(rand: nat -> Nonce, lost: nat -> bool)

  // The i-th chunk of a message, wrapped for the relay if there is one.
  function SendChunk(cfg: BusConfig, s: BusState, relay: Option<Addr>, direct: Option<Addr>, recipient: NodeId,
                     kind: string, chunk: Payload, now: real, luck: Luck, i: nat): Outcome
    requires relay.Some? || direct.Some?
  {
    var inner := SignEnvelope(cfg.pk, now, luck.rand(2 * i), App(kind, chunk));
    if cfg.size(inner) > MAX_DATAGRAM then
      Outcome(s.(droppedOversized := s.droppedOversized + 1), [], [], [], [inner])
    else if relay.Some? then
      var outer := SignEnvelope(cfg.pk, now, luck.rand(2 * i + 1), Relay(recipient, Env(inner)));
      var (s', sent) := RawSend(cfg, s, outer, relay.value, luck.lost(i));
      Outcome(s'.(relayedTx := s'.relayedTx + |sent|), [], [], sent, [inner, outer])
    else
      var (s', sent) := RawSend(cfg, s, inner, direct.value, luck.lost(i));
      Outcome(s', [], [], sent, [inner])
  }

  function SendChunks(cfg: BusConfig, s: BusState, relay: Option<Addr>, direct: Option<Addr>, recipient: NodeId,
                      kind: string, chunks: seq<Payload>, now: real, luck: Luck, i: nat): Outcome
    requires relay.Some? || direct.Some?
    requires i <= |chunks|
    decreases |chunks| - i
  {
    if i == |chunks| then Idle(s)
    else
      var first := SendChunk(cfg, s, relay, direct, recipient, kind, chunks[i], now, luck, i);
      var rest := SendChunks(cfg, first.state, relay, direct, recipient, kind, chunks, now, luck, i + 1);
      Outcome(rest.state, [], [], first.sent + rest.sent, first.signed + rest.signed)
  }

  function Lookup(addrs: map<NodeId, Addr>, id: NodeId): Option<Addr> {
    if id in addrs then Some(addrs[id]) else None
  }

  function ChunkSize(relaying: bool): nat {
    if relaying then RELAY_GOSSIP_CHUNK_SIZE else GOSSIP_CHUNK_SIZE
  }

  function Sends(cfg: BusConfig, s: BusState, recipient: NodeId, kind: string, payload: Payload, now: real,
                 luck: Luck): Outcome {
    var relay, direct := RelayTarget(cfg, s, recipient), Lookup(s.peerAddrs, recipient);
    if !s.open || kind !in cfg.kinds || (relay.None? && direct.None?) then Idle(s)
    else SendChunks(cfg, s, relay, direct, recipient, kind, Chunks(payload, ChunkSize(relay.Some?)), now, luck, 0)
  }

  // ---- arrivals ----

  // We are the relay: pass the blob on, still origin-signed, if we know the target.
  function Forwards(cfg: BusConfig, s: BusState, origin: NodeId, target: NodeId, blob: Blob, now: real, nonce: Nonce,
                    lost: bool): Outcome {
    if target !in s.peerAddrs then Idle(s)
    else
      var outer := SignEnvelope(cfg.pk, now, nonce, Relayed(origin, blob));
      var (s', sent) := RawSend(cfg, s, outer, s.peerAddrs[target], lost);
      Outcome(s'.(relayedFwd := s'.relayedFwd + |sent|), [], [], sent, [outer])
  }

  // Remember the way back to the origin.
  function LearnRelay(s: BusState, relay: NodeId, origin: NodeId): BusState {
    var s1 := if s.relayId.None? then s.(relayId := Some(relay))
              else if relay != s.relayId.value && relay !in s.relayIds then s.(relayIds := s.relayIds + [relay])
              else s;
    s1.(relayOnly := s1.relayOnly + {origin})
  }

  function Handoff(cfg: BusConfig, sender: NodeId, body: Body): seq<Message> {
    if body.App? && body.kind in cfg.kinds then [Message(sender, HashOf(cfg.pk), body.kind, body.payload)] else []
  }

  // We are the destination: verify the origin's own envelope before delivering.
  function Unwraps(cfg: BusConfig, s: BusState, relay: NodeId, origin: NodeId, blob: Blob, now: real): Outcome {
    var s1 := s.(seen := SeenAfter(s.seen, cfg.capacity, blob, cfg.skew, Some(now)));
    if !Acceptable(s.seen, blob, cfg.skew, Some(now)) then
      Idle(s1.(droppedUnverified := s1.droppedUnverified + 1))
    else if blob.env.sender != origin then
      Outcome(s1.(droppedUnverified := s1.droppedUnverified + 1), [Acceptance(blob.env, Some(now), false)], [], [], [])
    else
      var s2 := s1.(relayedRx := s1.relayedRx + 1);
      var handed := Handoff(cfg, origin, blob.env.body);
      Outcome(if cfg.enableRelay then LearnRelay(s2, relay, origin) else s2,
              [Acceptance(blob.env, Some(now), handed != [])], handed, [], [])
  }

  function Dispatches(cfg: BusConfig, s: BusState, sender: NodeId, body: Body, now: real, nonce: Nonce,
                      lost: bool): Outcome {
    match body
    case Relay(target, blob) =>
      if cfg.enableRelay then Forwards(cfg, s, sender, target, blob, now, nonce, lost) else Idle(s)
    case Relayed(origin, blob) => Unwraps(cfg, s, sender, origin, blob, now)
    case _ => Outcome(s, [], Handoff(cfg, sender, body), [], [])
  }

  // Counted and verified, and the sender's return address learned.
  function Admits(cfg: BusConfig, s: BusState, data: Blob, addr: Addr, now: real): BusState {
    var s0 := s.(rxBytes := s.rxBytes + LengthOf(cfg, data));
    if !Acceptable(s.seen, data, cfg.skew, Some(now)) then s0.(droppedUnverified := s.droppedUnverified + 1)
    else s0.(seen := SeenAfter(s.seen, cfg.capacity, data, cfg.skew, Some(now)),
             peerAddrs := s.peerAddrs[data.env.sender := addr])
  }

  function Arrives(cfg: BusConfig, s: BusState, data: Blob, addr: Addr, now: real, nonce: Nonce, lost: bool): Outcome {
    var s1 := Admits(cfg, s, data, addr, now);
    if !Acceptable(s.seen, data, cfg.skew, Some(now)) then Idle(s1)
    else
      var env := data.env;
      var o := Dispatches(cfg, s1, env.sender, env.body, now, nonce, lost);
      o.(accepted := [Acceptance(env, Some(now), Handoff(cfg, env.sender, env.body) != [])] + o.accepted)
  }

  class UdpBus {
    const cfg: BusConfig
    const replayGuard: ReplayGuard
    var peerAddrs: map<NodeId, Addr>
    var relayId: Option<NodeId>
    var relayIds: seq<NodeId>
    var relayOnly: set<NodeId>
    var droppedOversized: nat
    var droppedUnverified: nat
    var droppedLoss: nat
    var relayedTx: nat
    var relayedFwd: nat
    var relayedRx: nat
    var transport: bool
    var txBytes: nat
    var rxBytes: nat

    ghost predicate Valid()
    {
      replayGuard.capacity == cfg.capacity
    }

    function State(): BusState
      reads this, replayGuard
    {
      BusState(peerAddrs, replayGuard.seen, relayId, relayIds, relayOnly,
               droppedOversized, droppedUnverified, droppedLoss, relayedTx, relayedFwd, relayedRx,
               transport, txBytes, rxBytes)
    }

    constructor (cfg: BusConfig)
      ensures Valid() && this.cfg == cfg && fresh(replayGuard)
      ensures State() == BusState(map[], [], None, [], {}, 0, 0, 0, 0, 0, 0, false, 0, 0)
    {
      this.cfg := cfg;
      replayGuard := new ReplayGuard(cfg.capacity);
      peerAddrs, relayId, relayIds, relayOnly := map[], None, [], {};
      droppedOversized, droppedUnverified, droppedLoss, relayedTx, relayedFwd, relayedRx := 0, 0, 0, 0, 0, 0;
      transport, txBytes, rxBytes := false, 0, 0;
    }

    method Start()
      modifies this`transport
      ensures State() == old(State()).(open := true)
    {
      transport := true;
    }

    method RelayCandidates() returns (out: seq<NodeId>)
      ensures out == Candidates(relayId, relayIds)
    {
      var all := if relayId.Some? then [relayId.value] + relayIds else relayIds;
      out := [];
      for i := 0 to |all|
        invariant out == Dedup(all[..i])
      {
        assert all[..i + 1][..i] == all[..i];
        if all[i] !in out { out := out + [all[i]]; }
      }
      assert all[..|all|] == all;
    }

    // Any reachable shared relay will do, in order of preference.
    method RelayTargetAddr(recipient: NodeId) returns (addr: Option<Addr>)
      ensures addr == RelayTarget(cfg, State(), recipient)
    {
      if !(cfg.enableRelay && recipient in relayOnly) { return None; }
      var ids := RelayCandidates();
      for i := 0 to |ids|
        invariant FirstReachable(ids, recipient, peerAddrs) == FirstReachable(ids[i..], recipient, peerAddrs)
      {
        assert ids[i..][1..] == ids[i + 1..];
        if ids[i] == recipient { continue; }
        if ids[i] in peerAddrs { return Some(peerAddrs[ids[i]]); }
      }
      return None;
    }

    method RawSendTo(env: Envelope, addr: Addr, lost: bool) returns (sent: seq<Packet>)
      requires Valid()
      modifies this`droppedOversized, this`droppedLoss, this`txBytes
      ensures State() == RawSend(cfg, old(State()), env, addr, lost).0
      ensures sent == RawSend(cfg, old(State()), env, addr, lost).1
    {
      if cfg.size(env) > MAX_DATAGRAM {
        droppedOversized := droppedOversized + 1;
        return [];
      }
      if lost {
        droppedLoss := droppedLoss + 1;
        return [];
      }
      txBytes := txBytes + cfg.size(env);
      return [Packet(env, addr)];
    }

    method SendOne(relay: Option<Addr>, direct: Option<Addr>, recipient: NodeId, kind: string, chunk: Payload,
                   now: real, luck: Luck, i: nat) returns (sent: seq<Packet>)
      requires Valid() && (relay.Some? || direct.Some?)
      modifies this`droppedOversized, this`droppedLoss, this`relayedTx, this`txBytes
      ensures State() == SendChunk(cfg, old(State()), relay, direct, recipient, kind, chunk, now, luck, i).state
      ensures sent == SendChunk(cfg, old(State()), relay, direct, recipient, kind, chunk, now, luck, i).sent
    {
      var inner := SignEnvelope(cfg.pk, now, luck.rand(2 * i), App(kind, chunk));
      if cfg.size(inner) > MAX_DATAGRAM {
        droppedOversized := droppedOversized + 1;
        return [];
      }
      if relay.Some? {
        var outer := SignEnvelope(cfg.pk, now, luck.rand(2 * i + 1), Relay(recipient, Env(inner)));
        sent := RawSendTo(outer, relay.value, luck.lost(i));
        if sent != [] { relayedTx := relayedTx + 1; }
      } else {
        sent := RawSendTo(inner, direct.value, luck.lost(i));
      }
    }

    method Send(recipient: NodeId, kind: string, payload: Payload, now: real, luck: Luck) returns (sent: seq<Packet>)
      requires Valid()
      modifies this`droppedOversized, this`droppedLoss, this`relayedTx, this`txBytes
      ensures State() == Sends(cfg, old(State()), recipient, kind, payload, now, luck).state
      ensures sent == Sends(cfg, old(State()), recipient, kind, payload, now, luck).sent
    {
      sent := [];
      if !transport || kind !in cfg.kinds { return; }
      var relay := RelayTargetAddr(recipient);
      var direct := Lookup(peerAddrs, recipient);
      if relay.None? && direct.None? { return; }
      var chunks := Chunks(payload, ChunkSize(relay.Some?));
      ghost var whole := SendChunks(cfg, State(), relay, direct, recipient, kind, chunks, now, luck, 0);
      for i := 0 to |chunks|
        invariant whole.state == SendChunks(cfg, State(), relay, direct, recipient, kind, chunks, now, luck, i).state
        invariant whole.sent == sent + SendChunks(cfg, State(), relay, direct, recipient, kind, chunks, now, luck,
                  i).sent
      {
        ghost var rest := SendChunks(cfg, State(), relay, direct, recipient, kind, chunks, now, luck, i);
        var one := SendOne(relay, direct, recipient, kind, chunks[i], now, luck, i);
        ghost var next := SendChunks(cfg, State(), relay, direct, recipient, kind, chunks, now, luck, i + 1);
        assert rest.sent == one + next.sent && rest.state == next.state;
        ConcatAssoc(sent, one, next.sent);
        sent := sent + one;
      }
    }

    method ForwardRelay(origin: NodeId, target: NodeId, blob: Blob, now: real, nonce: Nonce,
                        lost: bool) returns (sent: seq<Packet>)
      requires Valid()
      modifies this`droppedOversized, this`droppedLoss, this`relayedFwd, this`txBytes
      ensures State() == Forwards(cfg, old(State()), origin, target, blob, now, nonce, lost).state
      ensures sent == Forwards(cfg, old(State()), origin, target, blob, now, nonce, lost).sent
    {
      if target !in peerAddrs { return []; }
      var outer := SignEnvelope(cfg.pk, now, nonce, Relayed(origin, blob));
      sent := RawSendTo(outer, peerAddrs[target], lost);
      if sent != [] { relayedFwd := relayedFwd + 1; }
    }

    method ReceiveRelayed(relay: NodeId, origin: NodeId, blob: Blob, now: real) returns (handed: seq<Message>)
      requires Valid()
      modifies this`droppedUnverified, this`relayedRx, this`relayId, this`relayIds, this`relayOnly, replayGuard
      ensures State() == Unwraps(cfg, old(State()), relay, origin, blob, now).state
      ensures handed == Unwraps(cfg, old(State()), relay, origin, blob, now).handed
    {
      var res := VerifyEnvelope(blob, replayGuard, cfg.skew, Some(now));
      if res.Rejected? || res.sender != origin {
        droppedUnverified := droppedUnverified + 1;
        return [];
      }
      relayedRx := relayedRx + 1;
      if cfg.enableRelay {
        if relayId.None? {
          relayId := Some(relay);
        } else if relay != relayId.value && relay !in relayIds {
          relayIds := relayIds + [relay];
        }
        relayOnly := relayOnly + {origin};
      }
      return Handoff(cfg, origin, res.body);
    }

    method OnDatagram(data: Blob, addr: Addr, now: real, nonce: Nonce, lost: bool)
      returns (handed: seq<Message>, sent: seq<Packet>)
      requires Valid()
      modifies this, replayGuard
      ensures State() == Arrives(cfg, old(State()), data, addr, now, nonce, lost).state
      ensures handed == Arrives(cfg, old(State()), data, addr, now, nonce, lost).handed
      ensures sent == Arrives(cfg, old(State()), data, addr, now, nonce, lost).sent
    {
      handed, sent := [], [];
      var res := Admit(data, addr, now);
      if res.Rejected? { return; }
      handed, sent := Dispatch(res.sender, res.body, now, nonce, lost);
    }

    method Admit(data: Blob, addr: Addr, now: real) returns (res: VerifyResult)
      requires Valid()
      modifies this`rxBytes, this`droppedUnverified, this`peerAddrs, replayGuard
      ensures State() == Admits(cfg, old(State()), data, addr, now)
      ensures res.Verified? <==> Acceptable(old(State()).seen, data, cfg.skew, Some(now))
      ensures res.Verified? ==> res == Verified(data.env.sender, data.env.body)
    {
      rxBytes := rxBytes + LengthOf(cfg, data);
      res := VerifyEnvelope(data, replayGuard, cfg.skew, Some(now));
      if res.Rejected? {
        droppedUnverified := droppedUnverified + 1;
      } else {
        peerAddrs := peerAddrs[res.sender := addr];
      }
    }

    method Dispatch(sender: NodeId, body: Body, now: real, nonce: Nonce, lost: bool)
      returns (handed: seq<Message>, sent: seq<Packet>)
      requires Valid()
      modifies this, replayGuard
      ensures State() == Dispatches(cfg, old(State()), sender, body, now, nonce, lost).state
      ensures handed == Dispatches(cfg, old(State()), sender, body, now, nonce, lost).handed
      ensures sent == Dispatches(cfg, old(State()), sender, body, now, nonce, lost).sent
    {
      handed, sent := [], [];
      match body {
        case Relay(target, blob) =>
          if cfg.enableRelay { sent := ForwardRelay(sender, target, blob, now, nonce, lost); }
        case Relayed(origin, blob) =>
          handed := ReceiveRelayed(sender, origin, blob, now);
        case _ =>
          handed := Handoff(cfg, sender, body);
      }
    }
  }

  // ---- chunking ----

  // Chunks of a list payload concatenate back to it and each fits the size; any
  // other payload goes whole.
  lemma ChunksRebuild(payload: Payload, n: nat)
    requires n > 0
    ensures payload.Single? ==> Chunks(payload, n) == [payload]
    ensures payload.Items? ==>
              && (forall c | c in Chunks(payload, n) :: c.Items? && |c.items| <= n)
              && ItemsOf(Chunks(payload, n)) == payload.items
    ensures payload.Items? && |payload.items| > n ==> |payload.items| <= |Chunks(payload, n)| * n < |payload.items| + n
  {
    if payload.Items? {
      if |payload.items| > n {
        var parts := Split(payload.items, n);
        ItemsOfParts(parts);
        SplitCount(payload.items, n);
      } else {
        assert [payload][1..] == [];
        assert ItemsOf([payload]) == payload.items + ItemsOf([]);
      }
    }
  }

  function ItemsOf(chunks: seq<Payload>): seq<nat> {
    if chunks == [] then []
    else (if chunks[0].Items? then chunks[0].items else []) + ItemsOf(chunks[1..])
  }

  lemma {:induction false} ItemsOfParts(parts: seq<seq<nat>>)
    ensures ItemsOf(seq(|parts|, i requires 0 <= i < |parts| => Items(parts[i]))) == Concat(parts)
  {
    if parts != [] {
      var all := seq(|parts|, i requires 0 <= i < |parts| => Items(parts[i]));
      assert all[1..] == seq(|parts[1..]|, i requires 0 <= i < |parts[1..]| => Items(parts[1..][i]));
      ItemsOfParts(parts[1..]);
    }
  }
}
