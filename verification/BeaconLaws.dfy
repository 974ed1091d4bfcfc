/** What a beacon does for those it hears from: news is listed and pinged, answers are
    believed and bridged, and every tick probes, bridges and forgets. */
module BeaconLaws {
  import opened Seqs
  import opened Identity
  import opened Federation

  // ---- one advert, one answer ----

  // A verified advert of a beacon not listed yet lists it as unproven, makes it dialable
  // where it says, and sends one ping whose nonce stands for it.
  lemma NewsIsPinged(cfg: FedConfig, s: FedState, env: Envelope, now: real, nonce: PingNonce)
    requires Authentic(env) && env.nonce !in s.seen
    requires env.body.BeaconAdvert? && env.body.advert.nodeId == env.sender
    requires env.sender != cfg.self && env.sender !in s.beacons
    ensures var o, id, a := GossipOne(cfg, s, Env(env), now, nonce), env.sender, env.body.advert;
            && o.state.beacons == s.beacons[id := BeaconInfo(a, Env(env), now, false, None)]
            && o.state.dialable == s.dialable[id := (a.host, a.gossipPort)]
            && o.pings == [PingOut(nonce, id)] && o.state.pending == s.pending[nonce := id]
            && o.bridges == [] && o.state.bridged == s.bridged
  {
  }

  // Anything else verified, a foreign or own advert included, is remembered by its nonce
  // and otherwise ignored; what fails verification is ignored altogether.
  lemma OthersAreIgnored(cfg: FedConfig, s: FedState, blob: Blob, now: real, nonce: PingNonce)
    requires !Acceptable(s.seen, blob, 0.0, None) || !blob.env.body.BeaconAdvert?
             || blob.env.body.advert.nodeId != blob.env.sender || blob.env.sender == cfg.self
    ensures var o := GossipOne(cfg, s, blob, now, nonce);
            && o.state == s.(seen := o.state.seen) && o.pings == [] && o.bridges == []
            && (!Acceptable(s.seen, blob, 0.0, None) ==> o.state.seen == s.seen)
  {
  }

  // The beacon's space is ours.
  predicate SameSpace(cfg: FedConfig, s: FedState, id: NodeId) {
    id in s.beacons && cfg.ownFp != "" && s.beacons[id].advert.spaceFp == cfg.ownFp
  }

  // An answer to an outstanding ping proves its beacon reachable now, and bridges with it
  // if its space is ours and it was not bridged with before.
  lemma AnswerIsBelieved(cfg: FedConfig, s: FedState, nonce: PingNonce, now: real)
    requires nonce in s.pending && s.pending[nonce] in s.beacons
    ensures var o, id := Ponged(cfg, s, nonce, now), s.pending[nonce];
            && o.state.beacons == s.beacons[id := s.beacons[id].(reachable := true, lastPong := Some(now))]
            && o.state.pending == s.pending - {nonce}
            && (if SameSpace(cfg, s, id) && id !in s.bridged
                then o.bridges == [Bridge(id, cfg.ownFp)] && o.state.bridged == s.bridged + {id}
                else o.bridges == [] && o.state.bridged == s.bridged)
  {
  }

  // A nonce nobody was asked with proves nothing.
  lemma UnaskedAnswer(cfg: FedConfig, s: FedState, nonce: PingNonce, now: real)
    requires nonce !in s.pending
    ensures Ponged(cfg, s, nonce, now) == FedOutcome(s, [], [], [])
  {
  }

  // So a beacon of our space that answers its first ping is bridged with at once.
  lemma HeardThenBridged(cfg: FedConfig, s: FedState, env: Envelope, now: real, nonce: PingNonce, later: real)
    requires Authentic(env) && env.nonce !in s.seen
    requires env.body.BeaconAdvert? && env.body.advert.nodeId == env.sender
    requires env.sender != cfg.self && env.sender !in s.beacons && env.sender !in s.bridged
    requires cfg.ownFp != "" && env.body.advert.spaceFp == cfg.ownFp
    ensures var heard := GossipOne(cfg, s, Env(env), now, nonce);
            var o := Ponged(cfg, heard.state, heard.pings[0].nonce, later);
            && o.bridges == [Bridge(env.sender, cfg.ownFp)]
            && o.state.beacons[env.sender].reachable && o.state.beacons[env.sender].seenAt == now
  {
    var heard := GossipOne(cfg, s, Env(env), now, nonce);
    NewsIsPinged(cfg, s, env, now, nonce);
    AnswerIsBelieved(cfg, heard.state, nonce, later);
  }

  // ---- a tick ----

  // Reachable beacons of our space.
  predicate Ours(cfg: FedConfig, s: FedState, id: NodeId) {
    SameSpace(cfg, s, id) && s.beacons[id].reachable
  }

  // The pings of a tick, from position i of the table on.
  function PingsFrom(order: seq<NodeId>, rand: nat -> PingNonce, i: nat): (ps: seq<PingOut>)
    requires i <= |order|
    ensures |ps| == |order| - i && forall k | 0 <= k < |ps| :: ps[k] == PingOut(rand(i + k), order[i + k])
  {
    seq(|order| - i, k requires 0 <= k < |order| - i => PingOut(rand(i + k), order[i + k]))
  }

  lemma {:induction false} ProbesAll(cfg: FedConfig, s: FedState, order: seq<NodeId>, rand: nat -> PingNonce, i: nat)
    requires i <= |order|
    ensures var o := Probed(cfg, s, order, rand, i);
            && o.pings == PingsFrom(order, rand, i) && o.state.beacons == s.beacons
            && (forall id :: id in o.state.bridged <==> id in s.bridged || (id in order[i..] && Ours(cfg, s, id)))
            && (forall b :: b in o.bridges <==>
                  b.spaceFp == cfg.ownFp && b.id in order[i..] && Ours(cfg, s, b.id) && b.id !in s.bridged)
    decreases |order| - i
  {
    if i == |order| {
      assert order[i..] == [];
    } else {
      var ping := Pinged(s, order[i], rand(i));
      var bridge := MaybeBridged(cfg, ping.state, order[i]);
      var next := Probed(cfg, bridge.state, order, rand, i + 1);
      ProbesAll(cfg, bridge.state, order, rand, i + 1);
      assert order[i..] == [order[i]] + order[i + 1..];
      assert PingsFrom(order, rand, i) == [PingOut(rand(i), order[i])] + PingsFrom(order, rand, i + 1);
      assert Probed(cfg, s, order, rand, i).pings == ping.pings + [] + next.pings;
      assert Probed(cfg, s, order, rand, i).bridges == [] + bridge.bridges + next.bridges;
    }
  }

  // A tick pings every listed beacon, bridges with those reachable in our space, then
  // keeps exactly the beacons heard within 90 seconds, reachable exactly if they were
  // and answered within 45.
  lemma TickDoesItAll(cfg: FedConfig, s: FedState, order: seq<NodeId>, now: real, rand: nat -> PingNonce)
    requires forall id :: id in order <==> id in s.beacons
    ensures var o := Ticked(cfg, s, order, now, rand);
            && o.pings == PingsFrom(order, rand, 0)
            && (forall id :: id in o.state.bridged <==> id in s.bridged || Ours(cfg, s, id))
            && (forall b :: b in o.bridges <==> b.spaceFp == cfg.ownFp && Ours(cfg, s, b.id) && b.id !in s.bridged)
            && (forall id :: id in o.state.beacons <==> id in s.beacons && now - s.beacons[id].seenAt <= 90.0)
            && (forall id | id in o.state.beacons ::
                  var info := s.beacons[id];
                  o.state.beacons[id] == info.(reachable :=
                    info.reachable && (info.lastPong.Some? ==> now - info.lastPong.value <= 45.0)))
  {
    ProbesAll(cfg, s, order, rand, 0);
    assert order[0..] == order;
  }
}
