/** End to end: what one node sends is what the other hands to its application,
    chunk by chunk and in order, directly or through an honest relay. */
module Delivery {
  import opened Seqs
  import opened Identity
  import opened UdpBuses

  // The datagrams dialled to `home` arrive there in turn, and what is handed over.
  function DeliverAll(cfg: BusConfig, s: BusState, home: Addr, packets: seq<Packet>, from: Addr,
                      now: real): seq<Message>
    decreases |packets|
  {
    if packets == [] then []
    else if packets[0].addr != home then DeliverAll(cfg, s, home, packets[1..], from, now)
    else
      var o := Arrives(cfg, s, Env(packets[0].env), from, now, 0, false);
      o.handed + DeliverAll(cfg, o.state, home, packets[1..], from, now)
  }

  // A relay at `home` taking the datagrams dialled there in turn, and what it sends on.
  function RelayAll(cfg: BusConfig, s: BusState, home: Addr, packets: seq<Packet>, from: Addr, now: real,
                    salt: nat -> Nonce, i: nat): seq<Packet>
    decreases |packets|
  {
    if packets == [] then []
    else if packets[0].addr != home then RelayAll(cfg, s, home, packets[1..], from, now, salt, i)
    else
      var o := Arrives(cfg, s, Env(packets[0].env), from, now, salt(i), false);
      o.sent + RelayAll(cfg, o.state, home, packets[1..], from, now, salt, i + 1)
  }

  function MessagesOf(sender: NodeId, recipient: NodeId, kind: string, chunks: seq<Payload>): (ms: seq<Message>)
    ensures |ms| == |chunks|
  {
    seq(|chunks|, k requires 0 <= k < |chunks| => Message(sender, recipient, kind, chunks[k]))
  }

  function PayloadsOf(ms: seq<Message>): (ps: seq<Payload>)
    ensures |ps| == |ms|
  {
    seq(|ms|, k requires 0 <= k < |ms| => ms[k].payload)
  }

  function InnerOf(cfg: BusConfig, kind: string, chunk: Payload, now: real, luck: Luck, i: nat): Envelope {
    SignEnvelope(cfg.pk, now, luck.rand(2 * i), App(kind, chunk))
  }

  predicate Close(a: real, b: real, skew: real) { -skew <= a - b <= skew }

  // Nonces are drawn once: nobody has seen those from `at` on, and none repeats.
  ghost predicate Fresh(rand: nat -> Nonce, at: nat, seen: seq<Nonce>) {
    && (forall k: nat | k >= at :: rand(k) !in seen)
    && forall j: nat, k: nat | j < k :: rand(j) != rand(k)
  }

  lemma SeenGrowsBy(seen: seq<Nonce>, capacity: nat, data: Blob, skew: real, now: Option<real>)
    requires data.Env?
    ensures forall n | n in SeenAfter(seen, capacity, data, skew, now) :: n in seen || n == data.env.nonce
  {
  }

  // ---- directly ----

  // Chunk i fits a datagram and is not lost.
  predicate Passes(c: BusConfig, kind: string, chunk: Payload, now: real, luck: Luck, i: nat) {
    c.size(InnerOf(c, kind, chunk, now, luck, i)) <= MAX_DATAGRAM && !luck.lost(i)
  }

  // The chunks from i on that get through.
  function Passing(c: BusConfig, kind: string, chunks: seq<Payload>, now: real, luck: Luck, i: nat): seq<Payload>
    requires i <= |chunks|
    decreases |chunks| - i
  {
    if i == |chunks| then []
    else
      var rest := Passing(c, kind, chunks, now, luck, i + 1);
      if Passes(c, kind, chunks[i], now, luck, i) then [chunks[i]] + rest else rest
  }

  lemma {:induction false} AllPass(c: BusConfig, kind: string, chunks: seq<Payload>, now: real, luck: Luck, i: nat)
    requires i <= |chunks| && forall k: nat | k < |chunks| :: Passes(c, kind, chunks[k], now, luck, k)
    ensures Passing(c, kind, chunks, now, luck, i) == chunks[i..]
    decreases |chunks| - i
  {
    if i < |chunks| { AllPass(c, kind, chunks, now, luck, i + 1); }
  }

  lemma DirectChunk(c: BusConfig, s: BusState, d: BusConfig, r: BusState, addr: Addr, kind: string, chunk: Payload,
                    now: real, later: real, luck: Luck, i: nat, from: Addr)
    requires kind in d.kinds && Close(later, now, d.skew) && Fresh(luck.rand, 2 * i, r.seen)
    requires Passes(c, kind, chunk, now, luck, i)
    ensures var sent := SendChunk(c, s, None, Some(addr), HashOf(d.pk), kind, chunk, now, luck, i).sent;
            |sent| == 1 && sent[0].addr == addr &&
            var o := Arrives(d, r, Env(sent[0].env), from, later, 0, false);
            && o.handed == [Message(HashOf(c.pk), HashOf(d.pk), kind, chunk)]
            && Fresh(luck.rand, 2 * (i + 1), o.state.seen)
  {
    var inner := InnerOf(c, kind, chunk, now, luck, i);
    SeenGrowsBy(r.seen, d.capacity, Env(inner), d.skew, Some(later));
  }

  lemma {:induction false} DirectChunks(c: BusConfig, s: BusState, d: BusConfig, r: BusState, addr: Addr, kind: string,
                                        chunks: seq<Payload>, now: real, later: real, luck: Luck, i: nat, from: Addr)
    requires i <= |chunks| && kind in d.kinds && Close(later, now, d.skew) && Fresh(luck.rand, 2 * i, r.seen)
    ensures DeliverAll(d, r, addr, SendChunks(c, s, None, Some(addr), HashOf(d.pk), kind, chunks, now, luck, i).sent,
            from, later)
         == MessagesOf(HashOf(c.pk), HashOf(d.pk), kind, Passing(c, kind, chunks, now, luck, i))
    decreases |chunks| - i
  {
    if i < |chunks| {
      var first := SendChunk(c, s, None, Some(addr), HashOf(d.pk), kind, chunks[i], now, luck, i);
      var rest := SendChunks(c, first.state, None, Some(addr), HashOf(d.pk), kind, chunks, now, luck, i + 1);
      if Passes(c, kind, chunks[i], now, luck, i) {
        DirectChunk(c, s, d, r, addr, kind, chunks[i], now, later, luck, i, from);
        var o := Arrives(d, r, Env(first.sent[0].env), from, later, 0, false);
        DirectChunks(c, first.state, d, o.state, addr, kind, chunks, now, later, luck, i + 1, from);
        assert (first.sent + rest.sent)[1..] == rest.sent;
        MessagesSplit(HashOf(c.pk), HashOf(d.pk), kind, chunks[i], Passing(c, kind, chunks, now, luck, i + 1));
      } else {
        assert first.sent == [] && [] + rest.sent == rest.sent;
        DirectChunks(c, first.state, d, r, addr, kind, chunks, now, later, luck, i + 1, from);
      }
    }
  }

  lemma MessagesSplit(sender: NodeId, recipient: NodeId, kind: string, chunk: Payload, chunks: seq<Payload>)
    ensures MessagesOf(sender, recipient, kind, [chunk] + chunks)
         == [Message(sender, recipient, kind, chunk)] + MessagesOf(sender, recipient, kind, chunks)
  {
  }

  // If the sender knows where the receiver is, the receiver's application gets exactly
  // the chunks that fitted and were not lost, in order; if none was dropped it gets the
  // payload back whole.
  lemma DirectDelivery(c: BusConfig, s: BusState, d: BusConfig, r: BusState, kind: string, payload: Payload,
                       now: real, later: real, luck: Luck, from: Addr, home: Addr)
    requires s.open && kind in c.kinds && kind in d.kinds && Close(later, now, d.skew) && Fresh(luck.rand, 0, r.seen)
    requires RelayTarget(c, s, HashOf(d.pk)).None? && HashOf(d.pk) in s.peerAddrs && s.peerAddrs[HashOf(d.pk)] == home
    ensures var chunks := Chunks(payload, GOSSIP_CHUNK_SIZE);
            var handed := DeliverAll(d, r, home, Sends(c, s, HashOf(d.pk), kind, payload, now, luck).sent, from, later);
            && handed == MessagesOf(HashOf(c.pk), HashOf(d.pk), kind, Passing(c, kind, chunks, now, luck, 0))
            && ((forall k: nat | k < |chunks| :: Passes(c, kind, chunks[k], now, luck, k))
                  ==> Restores(PayloadsOf(handed), payload))
  {
    var chunks := Chunks(payload, GOSSIP_CHUNK_SIZE);
    DirectChunks(c, s, d, r, home, kind, chunks, now, later, luck, 0, from);
    if forall k: nat | k < |chunks| :: Passes(c, kind, chunks[k], now, luck, k) {
      AllPass(c, kind, chunks, now, luck, 0);
      MessagesRestore(HashOf(c.pk), HashOf(d.pk), kind, payload, GOSSIP_CHUNK_SIZE);
    }
  }

  ghost predicate Restores(parts: seq<Payload>, payload: Payload) {
    if payload.Items? then ItemsOf(parts) == payload.items else parts == [payload]
  }

  lemma MessagesRestore(sender: NodeId, recipient: NodeId, kind: string, payload: Payload, n: nat)
    requires n > 0
    ensures var chunks := Chunks(payload, n);
            chunks[0..] == chunks && Restores(PayloadsOf(MessagesOf(sender, recipient, kind, chunks)), payload)
  {
    var chunks := Chunks(payload, n);
    ChunksRebuild(payload, n);
    assert PayloadsOf(MessagesOf(sender, recipient, kind, chunks)) == chunks;
  }

  // ---- through a relay ----

  // Origin, relay and destination, their clocks at each step, the nonces each
  // draws, the addresses the datagrams come from, and where the last two can be dialled.
  datatype Route = Route(
    origin: BusConfig, relay: BusConfig, target: BusConfig, kind: string,
    sentAt: real, passedAt: real, heardAt: real, luck: Luck, salt: nat -> Nonce, from: Addr, hop: Addr,
    relayHome: Addr, targetHome: Addr)

  // All three clocks agree within the skew, and the relay forwards.
  ghost predicate Open(t: Route) {
    && t.kind in t.target.kinds && t.relay.enableRelay
    && Close(t.passedAt, t.sentAt, t.relay.skew)
    && Close(t.heardAt, t.sentAt, t.target.skew) && Close(t.heardAt, t.passedAt, t.target.skew)
    && forall j: nat, k: nat :: t.salt(j) != t.luck.rand(k)
  }

  function Inner(t: Route, chunk: Payload, i: nat): Envelope {
    InnerOf(t.origin, t.kind, chunk, t.sentAt, t.luck, i)
  }

  function Outer(t: Route, chunk: Payload, i: nat): Envelope {
    SignEnvelope(t.origin.pk, t.sentAt, t.luck.rand(2 * i + 1), Relay(HashOf(t.target.pk), Env(Inner(t, chunk, i))))
  }

  function Forward(t: Route, chunk: Payload, i: nat): Envelope {
    SignEnvelope(t.relay.pk, t.passedAt, t.salt(i), Relayed(HashOf(t.origin.pk), Env(Inner(t, chunk, i))))
  }

  // Chunk i fits its datagram on the first hop and is not lost.
  ghost predicate Passable(t: Route, chunk: Payload, i: nat) {
    && t.origin.size(Inner(t, chunk, i)) <= MAX_DATAGRAM
    && t.origin.size(Outer(t, chunk, i)) <= MAX_DATAGRAM && !t.luck.lost(i)
  }

  // It fits the relay's datagram too.
  ghost predicate Forwardable(t: Route, chunk: Payload, i: nat) {
    t.relay.size(Forward(t, chunk, i)) <= MAX_DATAGRAM
  }

  // The relay can take chunk i on: it knows where the target is, and the origin's nonces
  // from there on are new to it.
  ghost predicate RelayReady(t: Route, w: BusState, i: nat) {
    && HashOf(t.target.pk) in w.peerAddrs && w.peerAddrs[HashOf(t.target.pk)] == t.targetHome
    && Fresh(t.luck.rand, 2 * i, w.seen)
  }

  ghost predicate TargetReady(t: Route, r: BusState, i: nat) {
    Fresh(t.luck.rand, 2 * i, r.seen) && Fresh(t.salt, i, r.seen)
  }

  function SentChunk(t: Route, s: BusState, relay: Addr, direct: Option<Addr>, chunk: Payload, i: nat): Outcome {
    SendChunk(t.origin, s, Some(relay), direct, HashOf(t.target.pk), t.kind, chunk, t.sentAt, t.luck, i)
  }

  function SentChunks(t: Route, s: BusState, relay: Addr, direct: Option<Addr>, chunks: seq<Payload>, i: nat): Outcome
    requires i <= |chunks|
  {
    SendChunks(t.origin, s, Some(relay), direct, HashOf(t.target.pk), t.kind, chunks, t.sentAt, t.luck, i)
  }

  // First hop: the relay takes the wrapped chunk and sends one datagram on, around
  // the untouched inner envelope.
  lemma RelayHop(t: Route, w: BusState, sent: seq<Packet>, chunk: Payload, i: nat) returns (p: Packet, w': BusState)
    requires Open(t) && Forwardable(t, chunk, i) && RelayReady(t, w, i)
    requires t.target.pk == t.origin.pk ==> t.from == t.targetHome
    requires sent != [] && sent[0] == Packet(Outer(t, chunk, i), t.relayHome)
    ensures p == Packet(Forward(t, chunk, i), t.targetHome) && RelayReady(t, w', i + 1)
    ensures RelayAll(t.relay, w, t.relayHome, sent, t.from, t.passedAt, t.salt, i)
         == [p] + RelayAll(t.relay, w', t.relayHome, sent[1..], t.from, t.passedAt, t.salt, i + 1)
  {
    SeenGrowsBy(w.seen, t.relay.capacity, Env(Outer(t, chunk, i)), t.relay.skew, Some(t.passedAt));
    var o := Arrives(t.relay, w, Env(Outer(t, chunk, i)), t.from, t.passedAt, t.salt(i), false);
    p, w' := o.sent[0], o.state;
    assert o.sent == [p];
  }

  // Second hop: the destination unwraps and hands over the origin's chunk.
  lemma LastHop(t: Route, r: BusState, chunk: Payload, i: nat, p: Packet, rest: seq<Packet>) returns (r': BusState)
    requires Open(t) && TargetReady(t, r, i) && p == Packet(Forward(t, chunk, i), t.targetHome)
    ensures TargetReady(t, r', i + 1)
    ensures DeliverAll(t.target, r, t.targetHome, [p] + rest, t.hop, t.heardAt)
         == [Message(HashOf(t.origin.pk), HashOf(t.target.pk), t.kind, chunk)]
            + DeliverAll(t.target, r', t.targetHome, rest, t.hop, t.heardAt)
  {
    var inner, outer := Inner(t, chunk, i), Forward(t, chunk, i);
    var seen1 := SeenAfter(r.seen, t.target.capacity, Env(outer), t.target.skew, Some(t.heardAt));
    SeenGrowsBy(r.seen, t.target.capacity, Env(outer), t.target.skew, Some(t.heardAt));
    assert inner.nonce !in seen1;
    SeenGrowsBy(seen1, t.target.capacity, Env(inner), t.target.skew, Some(t.heardAt));
    assert Acceptable(seen1, Env(inner), t.target.skew, Some(t.heardAt));
    var o := Arrives(t.target, r, Env(outer), t.hop, t.heardAt, 0, false);
    assert o.state.seen == SeenAfter(seen1, t.target.capacity, Env(inner), t.target.skew, Some(t.heardAt));
    assert ([p] + rest)[1..] == rest;
    r' := o.state;
  }

  function Handed(t: Route, w: BusState, r: BusState, sent: seq<Packet>, i: nat): seq<Message> {
    DeliverAll(t.target, r, t.targetHome, RelayAll(t.relay, w, t.relayHome, sent, t.from, t.passedAt, t.salt, i), t.hop,
               t.heardAt)
  }

  lemma BothHops(t: Route, w: BusState, r: BusState, sent: seq<Packet>, chunk: Payload, i: nat)
    returns (w': BusState, r': BusState)
    requires Open(t) && Forwardable(t, chunk, i) && RelayReady(t, w, i) && TargetReady(t, r, i)
    requires t.target.pk == t.origin.pk ==> t.from == t.targetHome
    requires sent != [] && sent[0] == Packet(Outer(t, chunk, i), t.relayHome)
    ensures RelayReady(t, w', i + 1) && TargetReady(t, r', i + 1)
    ensures Handed(t, w, r, sent, i)
         == [Message(HashOf(t.origin.pk), HashOf(t.target.pk), t.kind, chunk)] + Handed(t, w', r', sent[1..], i + 1)
  {
    var p: Packet;
    p, w' := RelayHop(t, w, sent, chunk, i);
    r' := LastHop(t, r, chunk, i, p, RelayAll(t.relay, w', t.relayHome, sent[1..], t.from, t.passedAt, t.salt, i + 1));
  }

  // One wrapped datagram for each chunk from i on.
  ghost predicate Wrapped(t: Route, sent: seq<Packet>, chunks: seq<Payload>, i: nat)
    requires i <= |chunks|
    decreases |chunks| - i
  {
    if i == |chunks| then sent == []
    else sent != [] && sent[0] == Packet(Outer(t, chunks[i], i), t.relayHome) && Wrapped(t, sent[1..], chunks, i + 1)
  }

  lemma {:induction false} SentAreWrapped(t: Route, s: BusState, direct: Option<Addr>, chunks: seq<Payload>, i: nat)
    requires i <= |chunks| && forall k: nat | k < |chunks| :: Passable(t, chunks[k], k)
    ensures Wrapped(t, SentChunks(t, s, t.relayHome, direct, chunks, i).sent, chunks, i)
    decreases |chunks| - i
  {
    if i < |chunks| {
      var first := SentChunk(t, s, t.relayHome, direct, chunks[i], i);
      assert Passable(t, chunks[i], i);
      assert first.sent == [Packet(Outer(t, chunks[i], i), t.relayHome)];
      SentAreWrapped(t, first.state, direct, chunks, i + 1);
      var rest := SentChunks(t, first.state, t.relayHome, direct, chunks, i + 1).sent;
      assert (first.sent + rest)[1..] == rest;
    }
  }

  lemma {:induction false} WrappedDelivered(t: Route, w: BusState, r: BusState, sent: seq<Packet>, chunks: seq<Payload>,
                                            i: nat)
    requires i <= |chunks| && Open(t) && RelayReady(t, w, i) && TargetReady(t, r, i) && Wrapped(t, sent, chunks, i)
    requires t.target.pk == t.origin.pk ==> t.from == t.targetHome
    requires forall k: nat | k < |chunks| :: Forwardable(t, chunks[k], k)
    ensures Handed(t, w, r, sent, i) == MessagesOf(HashOf(t.origin.pk), HashOf(t.target.pk), t.kind, chunks[i..])
    decreases |chunks| - i
  {
    if i == |chunks| {
      assert chunks[i..] == [];
    } else {
      var w', r' := BothHops(t, w, r, sent, chunks[i], i);
      WrappedDelivered(t, w', r', sent[1..], chunks, i + 1);
      MessagesFrom(HashOf(t.origin.pk), HashOf(t.target.pk), t.kind, chunks, i);
    }
  }

  lemma MessagesFrom(sender: NodeId, recipient: NodeId, kind: string, chunks: seq<Payload>, i: nat)
    requires i < |chunks|
    ensures MessagesOf(sender, recipient, kind, chunks[i..])
         == [Message(sender, recipient, kind, chunks[i])] + MessagesOf(sender, recipient, kind, chunks[i + 1..])
  {
    assert chunks[i..] == [chunks[i]] + chunks[i + 1..];
    MessagesSplit(sender, recipient, kind, chunks[i], chunks[i + 1..]);
  }

  // The same through a relay that knows where the target is: whole, in order, and in
  // the origin's name, not the relay's.
  lemma RelayedDelivery(t: Route, s: BusState, w: BusState, r: BusState, payload: Payload)
    requires Open(t) && RelayReady(t, w, 0) && TargetReady(t, r, 0)
    requires (t.target.pk == t.origin.pk ==> t.from == t.targetHome) && s.open && t.kind in t.origin.kinds
    requires RelayTarget(t.origin, s, HashOf(t.target.pk)) == Some(t.relayHome)
    requires var chunks := Chunks(payload, RELAY_GOSSIP_CHUNK_SIZE);
             forall k: nat | k < |chunks| :: Passable(t, chunks[k], k) && Forwardable(t, chunks[k], k)
    ensures var sent := Sends(t.origin, s, HashOf(t.target.pk), t.kind, payload, t.sentAt, t.luck).sent;
            var handed := Handed(t, w, r, sent, 0);
            && handed == MessagesOf(HashOf(t.origin.pk), HashOf(t.target.pk), t.kind, PayloadsOf(handed))
            && Restores(PayloadsOf(handed), payload)
  {
    var chunks := Chunks(payload, RELAY_GOSSIP_CHUNK_SIZE);
    var direct := Lookup(s.peerAddrs, HashOf(t.target.pk));
    SentAreWrapped(t, s, direct, chunks, 0);
    WrappedDelivered(t, w, r, SentChunks(t, s, t.relayHome, direct, chunks, 0).sent, chunks, 0);
    MessagesRestore(HashOf(t.origin.pk), HashOf(t.target.pk), t.kind, payload, RELAY_GOSSIP_CHUNK_SIZE);
  }

  // ---- the way back ----

  // Every datagram of a send is dialled to the relay if there is one, else to the
  // recipient.
  lemma {:induction false} ChunksDialled(c: BusConfig, s: BusState, relay: Option<Addr>, direct: Option<Addr>,
                                         recipient: NodeId, kind: string, chunks: seq<Payload>, now: real, luck: Luck,
                                         i: nat)
    requires (relay.Some? || direct.Some?) && i <= |chunks|
    ensures forall p | p in SendChunks(c, s, relay, direct, recipient, kind, chunks, now, luck, i).sent ::
              p.addr == if relay.Some? then relay.value else direct.value
    decreases |chunks| - i
  {
    if i < |chunks| {
      var first := SendChunk(c, s, relay, direct, recipient, kind, chunks[i], now, luck, i);
      ChunksDialled(c, first.state, relay, direct, recipient, kind, chunks, now, luck, i + 1);
    }
  }

  // Whatever an accepted datagram carried, an answer that needs no relay goes to the
  // address the datagram came from.
  lemma AnswersGoBack(c: BusConfig, s: BusState, data: Blob, from: Addr, now: real, salt: Nonce, lost: bool,
                      kind: string, payload: Payload, later: real, luck: Luck)
    requires Acceptable(s.seen, data, c.skew, Some(now))
    requires RelayTarget(c, Arrives(c, s, data, from, now, salt, lost).state, data.env.sender).None?
    ensures forall p | p in Sends(c, Arrives(c, s, data, from, now, salt, lost).state, data.env.sender, kind, payload,
                                  later, luck).sent :: p.addr == from
  {
    var s' := Arrives(c, s, data, from, now, salt, lost).state;
    AddressLearned(c, s, data, from, now, salt, lost);
    if s'.open && kind in c.kinds {
      ChunksDialled(c, s', None, Some(from), data.env.sender, kind, Chunks(payload, GOSSIP_CHUNK_SIZE), later, luck, 0);
    }
  }

  lemma AddressLearned(c: BusConfig, s: BusState, data: Blob, from: Addr, now: real, salt: Nonce, lost: bool)
    requires Acceptable(s.seen, data, c.skew, Some(now))
    ensures var s' := Arrives(c, s, data, from, now, salt, lost).state;
            data.env.sender in s'.peerAddrs && s'.peerAddrs[data.env.sender] == from
  {
  }

  // ---- nothing goes missing unaccounted ----

  // Every chunk was sent, found too large or lost, and counted as that; the bytes
  // counted are those of the datagrams sent.
  lemma {:induction false} ChunksAccounted(c: BusConfig, s: BusState, relay: Option<Addr>, direct: Option<Addr>,
                                           recipient: NodeId, kind: string, chunks: seq<Payload>, now: real, luck: Luck,
                                           i: nat)
    requires (relay.Some? || direct.Some?) && i <= |chunks|
    ensures var o := SendChunks(c, s, relay, direct, recipient, kind, chunks, now, luck, i);
            && |o.sent| + (o.state.droppedOversized - s.droppedOversized) + (o.state.droppedLoss - s.droppedLoss)
               == |chunks| - i
            && o.state.txBytes - s.txBytes == Bytes(c, o.sent)
            && o.state.relayedTx - s.relayedTx == if relay.Some? then |o.sent| else 0
    decreases |chunks| - i
  {
    if i < |chunks| {
      var first := SendChunk(c, s, relay, direct, recipient, kind, chunks[i], now, luck, i);
      var rest := SendChunks(c, first.state, relay, direct, recipient, kind, chunks, now, luck, i + 1);
      ChunksAccounted(c, first.state, relay, direct, recipient, kind, chunks, now, luck, i + 1);
      if first.sent == [] {
        assert [] + rest.sent == rest.sent;
      } else {
        assert first.sent == [first.sent[0]];
        assert ([first.sent[0]] + rest.sent)[1..] == rest.sent;
      }
    }
  }

  function Bytes(c: BusConfig, sent: seq<Packet>): nat {
    if sent == [] then 0 else c.size(sent[0].env) + Bytes(c, sent[1..])
  }

  // Every datagram that arrives is counted in bytes, and one that fails verification as
  // such; of an accepted one that was relayed, either the inner message is counted or
  // its failure.
  lemma ArrivalAccounted(c: BusConfig, s: BusState, data: Blob, from: Addr, now: real, salt: Nonce, lost: bool)
    ensures var o := Arrives(c, s, data, from, now, salt, lost);
            && o.state.rxBytes == s.rxBytes + LengthOf(c, data)
            && (o.accepted == [] <==> !Acceptable(s.seen, data, c.skew, Some(now)))
            && o.state.droppedUnverified - s.droppedUnverified + o.state.relayedRx - s.relayedRx
               == if o.accepted == [] || data.env.body.Relayed? then 1 else 0
  {
    if Acceptable(s.seen, data, c.skew, Some(now)) {
      var s1 := Admits(c, s, data, from, now);
      if data.env.body.Relayed? {
        UnwrapAccounted(c, s1, data.env.sender, data.env.body.origin, data.env.body.blob, now);
      }
    }
  }

  lemma UnwrapAccounted(c: BusConfig, s: BusState, relay: NodeId, origin: NodeId, blob: Blob, now: real)
    ensures var o := Unwraps(c, s, relay, origin, blob, now);
            && o.state.rxBytes == s.rxBytes
            && o.state.droppedUnverified - s.droppedUnverified + o.state.relayedRx - s.relayedRx == 1
  {
  }

  // What a relay forwards is counted, in number and in bytes.
  lemma ForwardAccounted(c: BusConfig, s: BusState, data: Blob, from: Addr, now: real, salt: Nonce, lost: bool)
    ensures var o := Arrives(c, s, data, from, now, salt, lost);
            o.state.relayedFwd - s.relayedFwd == |o.sent| && o.state.txBytes - s.txBytes == Bytes(c, o.sent)
  {
    var o := Arrives(c, s, data, from, now, salt, lost);
    if o.sent != [] {
      assert o.sent[1..] == [] && Bytes(c, o.sent) == c.size(o.sent[0].env) + Bytes(c, []);
    }
  }
}
