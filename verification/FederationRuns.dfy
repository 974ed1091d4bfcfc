/** Whole runs of a beacon: fresh directories, honest reachability, bridges only once. */
module FederationRuns {
  import opened Seqs
  import opened Identity
  import opened Federation

  datatype Heard = Heard(env: Envelope, at: real)

  datatype Pong = Pong(nonce: PingNonce, id: NodeId, at: real)

  // A beacon's state and everything that ever happened to it.
  datatype Trace = Trace(s: FedState, log: seq<Heard>, issued: set<PingOut>, pongs: set<Pong>, bridges: seq<Bridge>)

  datatype FedEvent =
    | GossipIn(blobs: seq<Blob>, now: real, rand: nat -> PingNonce)
    | PongIn(nonce: PingNonce, now: real)
    | Round(order: seq<NodeId>, now: real, rand: nat -> PingNonce)

  function Stamp(envs: seq<Envelope>, now: real): (hs: seq<Heard>)
    ensures |hs| == |envs|
  {
    seq(|envs|, i requires 0 <= i < |envs| => Heard(envs[i], now))
  }

  function PingSet(pings: seq<PingOut>): set<PingOut> { set p | p in pings }

  function Advance(t: Trace, o: FedOutcome, now: real): Trace {
    Trace(o.state, t.log + Stamp(o.heard, now), t.issued + PingSet(o.pings), t.pongs, t.bridges + o.bridges)
  }

  function NotePong(t: Trace, nonce: PingNonce, now: real): Trace {
    if nonce in t.s.pending then t.(pongs := t.pongs + {Pong(nonce, t.s.pending[nonce], now)}) else t
  }

  ghost predicate FedStep(cfg: FedConfig, t: Trace, e: FedEvent, t': Trace) {
    match e
    case GossipIn(blobs, now, rand) => t' == Advance(t, Gossiped(cfg, t.s, blobs, now, rand, 0), now)
    case PongIn(nonce, now) => t' == Advance(NotePong(t, nonce, now), Ponged(cfg, t.s, nonce, now), now)
    case Round(order, now, rand) =>
      && (forall id :: id in order <==> id in t.s.beacons)
      && t' == Advance(t, Ticked(cfg, t.s, order, now, rand), now)
  }

  ghost predicate FedRun(cfg: FedConfig, evs: seq<FedEvent>, ts: seq<Trace>) {
    && |ts| == |evs| + 1
    && ts[0] == Trace(FedState(map[], [], map[], {}, map[]), [], {}, {}, [])
    && forall k | 0 <= k < |evs| :: FedStep(cfg, ts[k], evs[k], ts[k + 1])
  }

  // ---- the invariant ----

  function Acceptances(log: seq<Heard>): (as_: seq<Acceptance>)
    ensures |as_| == |log|
  {
    seq(|log|, i requires 0 <= i < |log| => Acceptance(log[i].env, None, false))
  }

  // The advert listed for id came in a fresh envelope accepted at seenAt.
  ghost predicate Backed(log: seq<Heard>, id: NodeId, info: BeaconInfo) {
    exists k :: 0 <= k < |log| && BackedBy(log[k], id, info)
  }

  predicate BackedBy(h: Heard, id: NodeId, info: BeaconInfo) {
    && h.at == info.seenAt && h.env.sender == id && Env(h.env) == info.blob
    && h.env.body == BeaconAdvert(info.advert) && info.advert.nodeId == id
  }

  // Reachability rests on a pong for a nonce that was issued to that beacon.
  ghost predicate Proven(t: Trace, id: NodeId, info: BeaconInfo) {
    info.reachable ==> (
      && info.lastPong.Some?
      && exists n :: Pong(n, id, info.lastPong.value) in t.pongs && PingOut(n, id) in t.issued)
  }

  ghost predicate BridgesOnce(cfg: FedConfig, t: Trace) {
    && (forall b | b in t.bridges :: b.id in t.s.bridged && b.spaceFp == cfg.ownFp && cfg.ownFp != "")
    && (forall i, j | 0 <= i < j < |t.bridges| :: t.bridges[i].id != t.bridges[j].id)
  }

  ghost predicate GuardHolds(cfg: FedConfig, t: Trace) {
    GuardInvariant(t.s.seen, cfg.capacity, 0.0, Acceptances(t.log))
  }

  ghost predicate DirectoryHolds(cfg: FedConfig, t: Trace) {
    && (forall id | id in t.s.beacons ::
          id != cfg.self && Backed(t.log, id, t.s.beacons[id]) && Proven(t, id, t.s.beacons[id]))
    && (forall n | n in t.s.pending :: PingOut(n, t.s.pending[n]) in t.issued)
  }

  ghost predicate FedInvariant(cfg: FedConfig, t: Trace) {
    GuardHolds(cfg, t) && DirectoryHolds(cfg, t) && BridgesOnce(cfg, t)
  }

  // ---- small steps ----

  lemma BackedGrows(log: seq<Heard>, more: seq<Heard>, id: NodeId, info: BeaconInfo)
    requires Backed(log, id, info)
    ensures Backed(log + more, id, info)
  {
    var k :| 0 <= k < |log| && BackedBy(log[k], id, info);
    assert (log + more)[k] == log[k];
  }

  lemma GossipOneKeepsGuard(cfg: FedConfig, t: Trace, blob: Blob, now: real, nonce: PingNonce)
    requires GuardHolds(cfg, t)
    ensures GuardHolds(cfg, Advance(t, GossipOne(cfg, t.s, blob, now, nonce), now))
  {
    var o := GossipOne(cfg, t.s, blob, now, nonce);
    var log' := t.log + Stamp(o.heard, now);
    if Acceptable(t.s.seen, blob, 0.0, None) {
      AcceptKeepsGuard(t.s.seen, cfg.capacity, 0.0, Acceptances(t.log), blob, None, false);
      assert o.heard == [blob.env];
      assert Acceptances(log') == Acceptances(t.log) + [Acceptance(blob.env, None, false)];
    } else {
      assert log' == t.log;
    }
  }

  lemma RecordedBacked(cfg: FedConfig, t: Trace, env: Envelope, now: real)
    requires DirectoryHolds(cfg, t) && Listable(cfg, env)
    ensures var bs := Recorded1(t.s.beacons, cfg.self, env.body.advert, Env(env), now);
            forall id | id in bs ::
              id != cfg.self && Backed(t.log + [Heard(env, now)], id, bs[id]) && Proven(t, id, bs[id])
  {
    var bs := Recorded1(t.s.beacons, cfg.self, env.body.advert, Env(env), now);
    var log' := t.log + [Heard(env, now)];
    forall id | id in bs
      ensures id != cfg.self && Backed(log', id, bs[id]) && Proven(t, id, bs[id])
    {
      if id in t.s.beacons && bs[id] == t.s.beacons[id] {
        BackedGrows(t.log, [Heard(env, now)], id, bs[id]);
      } else {
        assert BackedBy(log'[|t.log|], id, bs[id]);
      }
    }
  }

  lemma GossipOneKeepsDirectory(cfg: FedConfig, t: Trace, blob: Blob, now: real, nonce: PingNonce)
    requires DirectoryHolds(cfg, t)
    ensures DirectoryHolds(cfg, Advance(t, GossipOne(cfg, t.s, blob, now, nonce), now))
  {
    var o := GossipOne(cfg, t.s, blob, now, nonce);
    var t' := Advance(t, o, now);
    if !Acceptable(t.s.seen, blob, 0.0, None) {
      assert t'.log == t.log;
    } else {
      var env := blob.env;
      assert Stamp(o.heard, now) == [Heard(env, now)];
      if Listable(cfg, env) {
        RecordedBacked(cfg, t, env, now);
        forall id | id in t'.s.beacons ensures Proven(t', id, t'.s.beacons[id]) {
          assert Proven(t, id, t'.s.beacons[id]);
        }
        assert IsNew(t.s.beacons, cfg.self, env.body.advert) ==> o.pings == [PingOut(nonce, env.sender)];
      } else {
        forall id | id in t.s.beacons ensures Backed(t'.log, id, t.s.beacons[id]) {
          BackedGrows(t.log, [Heard(env, now)], id, t.s.beacons[id]);
        }
      }
    }
  }

  lemma GossipOneKeeps(cfg: FedConfig, t: Trace, blob: Blob, now: real, nonce: PingNonce)
    requires FedInvariant(cfg, t)
    ensures FedInvariant(cfg, Advance(t, GossipOne(cfg, t.s, blob, now, nonce), now))
  {
    GossipOneKeepsGuard(cfg, t, blob, now, nonce);
    GossipOneKeepsDirectory(cfg, t, blob, now, nonce);
    assert t.bridges + [] == t.bridges;
  }

  lemma PingKeeps(cfg: FedConfig, t: Trace, id: NodeId, nonce: PingNonce, now: real)
    requires FedInvariant(cfg, t)
    ensures FedInvariant(cfg, Advance(t, Pinged(t.s, id, nonce), now))
  {
    var t' := Advance(t, Pinged(t.s, id, nonce), now);
    assert t'.log == t.log && t'.bridges == t.bridges;
    assert PingOut(nonce, id) in t'.issued;
    forall b | b in t'.s.beacons ensures Proven(t', b, t'.s.beacons[b]) {
      assert Proven(t, b, t.s.beacons[b]);
    }
  }

  lemma BridgeKeeps(cfg: FedConfig, t: Trace, id: NodeId, now: real)
    requires FedInvariant(cfg, t)
    ensures FedInvariant(cfg, Advance(t, MaybeBridged(cfg, t.s, id), now))
  {
    var o := MaybeBridged(cfg, t.s, id);
    var t' := Advance(t, o, now);
    assert t'.log == t.log && t'.issued == t.issued;
    forall b | b in t'.s.beacons ensures Proven(t', b, t'.s.beacons[b]) {
      assert Proven(t, b, t.s.beacons[b]);
    }
    if Bridgeable(cfg, t.s, id) {
      assert forall i | 0 <= i < |t.bridges| :: t.bridges[i] in t.bridges;
    } else {
      assert t'.bridges == t.bridges;
    }
  }

  // ---- composition ----

  lemma AdvanceTwice(t: Trace, o: FedOutcome, next: FedOutcome, now: real)
    ensures Advance(Advance(t, o, now), next, now) == Advance(t, Then(o, next), now)
  {
    assert Stamp(o.heard + next.heard, now) == Stamp(o.heard, now) + Stamp(next.heard, now);
    ConcatAssoc(t.log, Stamp(o.heard, now), Stamp(next.heard, now));
    ConcatAssoc(t.bridges, o.bridges, next.bridges);
    assert PingSet(o.pings + next.pings) == PingSet(o.pings) + PingSet(next.pings);
  }

  lemma AdvanceQuiet(t: Trace, now: real)
    ensures Advance(t, Quiet(t.s), now) == t
  {
  }

  lemma {:induction false} GossipKeeps(cfg: FedConfig, t: Trace, blobs: seq<Blob>, now: real, rand: nat -> PingNonce,
                                       i: nat)
    requires FedInvariant(cfg, t) && i <= |blobs|
    ensures FedInvariant(cfg, Advance(t, Gossiped(cfg, t.s, blobs, now, rand, i), now))
    decreases |blobs| - i
  {
    if i == |blobs| {
      AdvanceQuiet(t, now);
    } else {
      var one := GossipOne(cfg, t.s, blobs[i], now, rand(i));
      GossipOneKeeps(cfg, t, blobs[i], now, rand(i));
      GossipKeeps(cfg, Advance(t, one, now), blobs, now, rand, i + 1);
      AdvanceTwice(t, one, Gossiped(cfg, one.state, blobs, now, rand, i + 1), now);
    }
  }

  lemma {:induction false} ProbeKeeps(cfg: FedConfig, t: Trace, order: seq<NodeId>, now: real, rand: nat -> PingNonce,
                                      i: nat)
    requires FedInvariant(cfg, t) && i <= |order|
    ensures FedInvariant(cfg, Advance(t, Probed(cfg, t.s, order, rand, i), now))
    decreases |order| - i
  {
    if i == |order| {
      AdvanceQuiet(t, now);
    } else {
      var ping := Pinged(t.s, order[i], rand(i));
      var t1 := Advance(t, ping, now);
      PingKeeps(cfg, t, order[i], rand(i), now);
      var bridge := MaybeBridged(cfg, t1.s, order[i]);
      BridgeKeeps(cfg, t1, order[i], now);
      AdvanceTwice(t, ping, bridge, now);
      var t2 := Advance(t, Then(ping, bridge), now);
      ProbeKeeps(cfg, t2, order, now, rand, i + 1);
      AdvanceTwice(t, Then(ping, bridge), Probed(cfg, bridge.state, order, rand, i + 1), now);
    }
  }

  lemma ExpireKeeps(cfg: FedConfig, t: Trace, now: real)
    requires FedInvariant(cfg, t)
    ensures FedInvariant(cfg, t.(s := t.s.(beacons := Expired(t.s.beacons, now))))
  {
    var t' := t.(s := t.s.(beacons := Expired(t.s.beacons, now)));
    forall id | id in t'.s.beacons ensures Backed(t'.log, id, t'.s.beacons[id]) && Proven(t', id, t'.s.beacons[id]) {
      assert Proven(t, id, t.s.beacons[id]);
      var k :| 0 <= k < |t.log| && BackedBy(t.log[k], id, t.s.beacons[id]);
      assert BackedBy(t'.log[k], id, t'.s.beacons[id]);
    }
  }

  lemma TickKeeps(cfg: FedConfig, t: Trace, order: seq<NodeId>, now: real, rand: nat -> PingNonce)
    requires FedInvariant(cfg, t)
    ensures FedInvariant(cfg, Advance(t, Ticked(cfg, t.s, order, now, rand), now))
  {
    var o := Probed(cfg, t.s, order, rand, 0);
    ProbeKeeps(cfg, t, order, now, rand, 0);
    ExpireKeeps(cfg, Advance(t, o, now), now);
  }

  lemma PongMarks(cfg: FedConfig, t: Trace, nonce: PingNonce, now: real)
    requires FedInvariant(cfg, t) && nonce in t.s.pending
    ensures var id := t.s.pending[nonce];
            FedInvariant(cfg, NotePong(t, nonce, now).(s := t.s.(pending := t.s.pending - {nonce},
              beacons := Marked(t.s.beacons, id, now))))
  {
    var id := t.s.pending[nonce];
    var t' := NotePong(t, nonce, now).(s := t.s.(pending := t.s.pending - {nonce}, beacons := Marked(t.s.beacons,
                       id, now)));
    forall b | b in t'.s.beacons ensures Backed(t'.log, b, t'.s.beacons[b]) && Proven(t', b, t'.s.beacons[b]) {
      assert Proven(t, b, t.s.beacons[b]);
      var k :| 0 <= k < |t.log| && BackedBy(t.log[k], b, t.s.beacons[b]);
      assert BackedBy(t'.log[k], b, t'.s.beacons[b]);
      if b == id {
        assert Pong(nonce, id, now) in t'.pongs && PingOut(nonce, id) in t'.issued;
      }
    }
  }

  lemma PongKeeps(cfg: FedConfig, t: Trace, nonce: PingNonce, now: real)
    requires FedInvariant(cfg, t)
    ensures FedInvariant(cfg, Advance(NotePong(t, nonce, now), Ponged(cfg, t.s, nonce, now), now))
  {
    if nonce in t.s.pending {
      var id := t.s.pending[nonce];
      PongMarks(cfg, t, nonce, now);
      var t1 := NotePong(t, nonce, now).(s := t.s.(pending := t.s.pending - {nonce}, beacons := Marked(t.s.beacons,
                         id, now)));
      BridgeKeeps(cfg, t1, id, now);
    } else {
      AdvanceQuiet(t, now);
    }
  }

  lemma FedStepKeeps(cfg: FedConfig, t: Trace, e: FedEvent, t': Trace)
    requires FedInvariant(cfg, t) && FedStep(cfg, t, e, t')
    ensures FedInvariant(cfg, t')
  {
    match e {
      case GossipIn(blobs, now, rand) => GossipKeeps(cfg, t, blobs, now, rand, 0);
      case PongIn(nonce, now) => PongKeeps(cfg, t, nonce, now);
      case Round(order, now, rand) => TickKeeps(cfg, t, order, now, rand);
    }
  }

  lemma {:induction false} FedAlways(cfg: FedConfig, evs: seq<FedEvent>, ts: seq<Trace>, k: nat)
    requires FedRun(cfg, evs, ts) && k <= |evs|
    ensures FedInvariant(cfg, ts[k])
  {
    if k > 0 {
      FedAlways(cfg, evs, ts, k - 1);
      FedStepKeeps(cfg, ts[k - 1], evs[k - 1], ts[k]);
    }
  }

  // ---- theorems ----

  // An advert of id accepted at most BEACON_TTL ago, whose nonce had not been
  // recorded within the last `capacity` acceptances.
  ghost predicate FreshlyHeard(cfg: FedConfig, log: seq<Heard>, id: NodeId, now: real) {
    exists k :: 0 <= k < |log| && FreshAt(cfg, log, k, id, now)
  }

  ghost predicate FreshAt(cfg: FedConfig, log: seq<Heard>, k: nat, id: NodeId, now: real)
    requires k < |log|
  {
    && log[k].env.sender == id && Authentic(log[k].env) && log[k].env.body.BeaconAdvert?
    && now - log[k].at <= BEACON_TTL
    && forall i | 0 <= i < k && log[i].env.nonce == log[k].env.nonce :: k - i - 1 >= cfg.capacity
  }

  // After a tick every listed beacon was heard within the TTL, through an envelope
  // the replay window did not remember; and every reachable one answered a ping of
  // ours within REACHABLE_TTL.
  lemma FreshAfterTick(cfg: FedConfig, evs: seq<FedEvent>, ts: seq<Trace>, k: nat, id: NodeId)
    requires FedRun(cfg, evs, ts) && k < |evs| && evs[k].Round? && id in ts[k + 1].s.beacons
    ensures id != cfg.self && FreshlyHeard(cfg, ts[k + 1].log, id, evs[k].now)
    ensures var info := ts[k + 1].s.beacons[id];
            info.reachable ==>
              && info.lastPong.Some? && evs[k].now - info.lastPong.value <= REACHABLE_TTL
              && exists n :: Pong(n, id, info.lastPong.value) in ts[k + 1].pongs && PingOut(n, id) in ts[k + 1].issued
  {
    FedAlways(cfg, evs, ts, k + 1);
    assert FedStep(cfg, ts[k], evs[k], ts[k + 1]);
    var t := ts[k + 1];
    var info := t.s.beacons[id];
    assert Proven(t, id, info);
    assert evs[k].now - info.seenAt <= BEACON_TTL;
    var j :| 0 <= j < |t.log| && BackedBy(t.log[j], id, info);
    BackedIsFresh(cfg, t, id, info, j, evs[k].now);
  }

  lemma BackedIsFresh(cfg: FedConfig, t: Trace, id: NodeId, info: BeaconInfo, j: nat, now: real)
    requires GuardHolds(cfg, t) && j < |t.log| && BackedBy(t.log[j], id, info) && now - info.seenAt <= BEACON_TTL
    ensures FreshAt(cfg, t.log, j, id, now)
  {
    var acc := Acceptances(t.log);
    assert Authentic(acc[j].env);
    forall i | 0 <= i < j && t.log[i].env.nonce == t.log[j].env.nonce ensures j - i - 1 >= cfg.capacity {
      assert acc[i].env.nonce == acc[j].env.nonce;
    }
  }

  // Hence a beacon none of whose adverts was accepted in the last BEACON_TTL is gone.
  lemma SilentBeaconIsDropped(cfg: FedConfig, evs: seq<FedEvent>, ts: seq<Trace>, k: nat, id: NodeId)
    requires FedRun(cfg, evs, ts) && k < |evs| && evs[k].Round?
    requires forall h | h in ts[k + 1].log && h.env.sender == id :: evs[k].now - h.at > BEACON_TTL
    ensures id !in ts[k + 1].s.beacons
  {
    var log := ts[k + 1].log;
    assert forall j | 0 <= j < |log| :: log[j] in log;
    assert !FreshlyHeard(cfg, log, id, evs[k].now);
    if id in ts[k + 1].s.beacons {
      FreshAfterTick(cfg, evs, ts, k, id);
    }
  }

  // The bridge callback fires at most once per beacon, and only between equal,
  // non-empty space fingerprints.
  lemma BridgedAtMostOnce(cfg: FedConfig, evs: seq<FedEvent>, ts: seq<Trace>, k: nat)
    requires FedRun(cfg, evs, ts) && k <= |evs|
    ensures forall i, j | 0 <= i < j < |ts[k].bridges| :: ts[k].bridges[i].id != ts[k].bridges[j].id
    ensures forall b | b in ts[k].bridges :: b.spaceFp == cfg.ownFp && cfg.ownFp != ""
  {
    FedAlways(cfg, evs, ts, k);
  }
}
