/** Beacons that fell silent: when echoes of what they once signed bring them back
    into the directory, and when they cannot. */
module Zombies {
  import opened Seqs
  import opened Identity
  import opened Federation
  import opened FederationRuns

  // ---- a silent beacon goes, while the replay window still remembers it ----

  // From index m on, whatever is accepted in id's name was accepted before: id
  // itself has signed nothing new.
  ghost predicate Silent(log: seq<Heard>, id: NodeId, m: nat) {
    forall j | m <= j < |log| && log[j].env.sender == id :: EchoOf(log, m, log[j].env)
  }

  ghost predicate EchoOf(log: seq<Heard>, m: nat, env: Envelope) {
    exists i :: 0 <= i < m && i < |log| && log[i].env == env
  }

  // Every envelope of id was accepted long ago, and no more than `capacity`
  // acceptances came after any of them.
  ghost predicate Remembered(cfg: FedConfig, log: seq<Heard>, id: NodeId, m: nat, now: real) {
    forall i | 0 <= i < m && i < |log| && log[i].env.sender == id ::
      now - log[i].at > BEACON_TTL && |log| - 1 - i <= cfg.capacity
  }

  // Echoed gossip keeps nobody alive as long as the window reaches back to all that
  // could be echoed.
  lemma DeadBeaconIsDropped(cfg: FedConfig, evs: seq<FedEvent>, ts: seq<Trace>, k: nat, id: NodeId, m: nat)
    requires FedRun(cfg, evs, ts) && k < |evs| && evs[k].Round?
    requires Silent(ts[k + 1].log, id, m) && Remembered(cfg, ts[k + 1].log, id, m, evs[k].now)
    ensures id !in ts[k + 1].s.beacons
  {
    NothingFresh(cfg, ts[k + 1].log, id, m, evs[k].now);
    if id in ts[k + 1].s.beacons {
      FreshAfterTick(cfg, evs, ts, k, id);
    }
  }

  lemma NothingFresh(cfg: FedConfig, log: seq<Heard>, id: NodeId, m: nat, now: real)
    requires Silent(log, id, m) && Remembered(cfg, log, id, m, now)
    ensures !FreshlyHeard(cfg, log, id, now)
  {
    forall j: nat | j < |log| ensures !FreshAt(cfg, log, j, id, now) {
      if j >= m && log[j].env.sender == id {
        assert EchoOf(log, m, log[j].env);
        var i :| 0 <= i < m && i < |log| && log[i].env == log[j].env;
        assert log[i].env.nonce == log[j].env.nonce;
      }
    }
  }

  // ---- an echo works exactly when the window has moved on ----

  // Every acceptance of this nonce has had at least `capacity` others after it.
  ghost predicate Forgotten(cfg: FedConfig, log: seq<Heard>, nonce: Nonce) {
    forall i | 0 <= i < |log| && log[i].env.nonce == nonce :: |log| - 1 - i >= cfg.capacity
  }

  // A captured advert of a beacon not listed any more lists it again, as heard now,
  // if and only if its nonce has been forgotten.
  lemma EchoRelistsExactly(cfg: FedConfig, t: Trace, env: Envelope, now: real, nonce: PingNonce)
    requires FedInvariant(cfg, t) && Authentic(env) && Listable(cfg, env) && env.sender !in t.s.beacons
    ensures var s' := GossipOne(cfg, t.s, Env(env), now, nonce).state;
            && (env.sender in s'.beacons <==> Forgotten(cfg, t.log, env.nonce))
            && (env.sender in s'.beacons ==>
                  s'.beacons[env.sender].advert == env.body.advert && s'.beacons[env.sender].seenAt == now)
  {
    ForgottenExactly(cfg, t, env);
  }

  // And of one still listed, it renews the entry if and only if its nonce has been
  // forgotten and no newer advert has come in since.
  lemma EchoRenewsExactly(cfg: FedConfig, t: Trace, env: Envelope, now: real, nonce: PingNonce)
    requires FedInvariant(cfg, t) && Authentic(env) && Listable(cfg, env)
    requires env.sender in t.s.beacons && t.s.beacons[env.sender].seenAt != now
    ensures var bs := GossipOne(cfg, t.s, Env(env), now, nonce).state.beacons;
            && env.sender in bs
            && (bs[env.sender].seenAt == now <==>
                  Forgotten(cfg, t.log, env.nonce) && env.body.advert.ts >= t.s.beacons[env.sender].advert.ts)
  {
    ForgottenExactly(cfg, t, env);
  }

  lemma ForgottenExactly(cfg: FedConfig, t: Trace, env: Envelope)
    requires GuardHolds(cfg, t) && Authentic(env)
    ensures Acceptable(t.s.seen, Env(env), 0.0, None) <==> Forgotten(cfg, t.log, env.nonce)
  {
    var log := Acceptances(t.log);
    SeenIsRecent(t.s.seen, cfg.capacity, log, env.nonce);
    if env.nonce in t.s.seen {
      var i :| 0 <= i < |log| && log[i].env.nonce == env.nonce && |log| - i <= cfg.capacity;
      assert t.log[i].env.nonce == env.nonce;
    } else {
      forall i | 0 <= i < |t.log| && t.log[i].env.nonce == env.nonce ensures |t.log| - 1 - i >= cfg.capacity {
        assert log[i].env.nonce == env.nonce;
      }
    }
  }

  // ---- a run in which a dead beacon comes back ----

  lemma Hear(cfg: FedConfig, t: Trace, env: Envelope, now: real, rand: nat -> PingNonce) returns (t': Trace)
    requires Authentic(env) && env.nonce !in t.s.seen
    ensures FedStep(cfg, t, GossipIn([Env(env)], now, rand), t')
    ensures t'.log == t.log + [Heard(env, now)]
    ensures t'.s.seen == Recorded(t.s.seen, cfg.capacity, env.nonce)
    ensures t'.s.beacons == if Listable(cfg, env)
                            then Recorded1(t.s.beacons, cfg.self, env.body.advert, Env(env), now) else t.s.beacons
  {
    var blobs := [Env(env)];
    var one := GossipOne(cfg, t.s, blobs[0], now, rand(0));
    assert Gossiped(cfg, one.state, blobs, now, rand, 1) == Quiet(one.state);
    var all := Gossiped(cfg, t.s, blobs, now, rand, 0);
    assert all == Then(one, Quiet(one.state));
    assert all.heard == [env] + [];
    assert Stamp(all.heard, now) == [Heard(env, now)];
    t' := Advance(t, all, now);
  }

  lemma {:induction false} ProbingKeepsTables(cfg: FedConfig, s: FedState, order: seq<NodeId>, rand: nat -> PingNonce,
                                              i: nat)
    requires i <= |order|
    ensures var o := Probed(cfg, s, order, rand, i);
            o.state.beacons == s.beacons && o.state.seen == s.seen && o.heard == []
    decreases |order| - i
  {
    if i < |order| {
      var ping := Pinged(s, order[i], rand(i));
      var bridge := MaybeBridged(cfg, ping.state, order[i]);
      ProbingKeepsTables(cfg, bridge.state, order, rand, i + 1);
    }
  }

  lemma TickOnce(cfg: FedConfig, t: Trace, order: seq<NodeId>, now: real, rand: nat -> PingNonce) returns (t': Trace)
    requires forall id :: id in order <==> id in t.s.beacons
    ensures FedStep(cfg, t, Round(order, now, rand), t')
    ensures t'.log == t.log && t'.s.seen == t.s.seen && t'.s.beacons == Expired(t.s.beacons, now)
  {
    ProbingKeepsTables(cfg, t.s, order, rand, 0);
    t' := Advance(t, Ticked(cfg, t.s, order, now, rand), now);
    assert Stamp([], now) == [];
  }

  const X: NodeId := HashOf(1)

  const X_ADVERT := Advert(X, 0, 0, "", "", 0.0)

  function XSigned(): Envelope { SignEnvelope(1, 0.0, 7, BeaconAdvert(X_ADVERT)) }

  // What another node says at 1000, the i-th time.
  function YSigned(i: nat): Envelope { SignEnvelope(2, 1000.0, 8 + i, Unreadable(0)) }

  function YHeard(n: nat): (hs: seq<Heard>)
    ensures |hs| == n && forall i | 0 <= i < n :: hs[i] == Heard(YSigned(i), 1000.0)
  {
    seq(n, i requires 0 <= i < n => Heard(YSigned(i), 1000.0))
  }

  // 7, 8, ... up to 7 + n.
  function NoncesFrom7(n: nat): (ns: seq<Nonce>)
    ensures |ns| == n + 1 && forall i | 0 <= i <= n :: ns[i] == 7 + i
  {
    seq(n + 1, i requires 0 <= i <= n => 7 + i)
  }

  lemma RunOn(cfg: FedConfig, evs: seq<FedEvent>, ts: seq<Trace>, e: FedEvent, t': Trace)
    requires FedRun(cfg, evs, ts) && FedStep(cfg, ts[|evs|], e, t')
    ensures FedRun(cfg, evs + [e], ts + [t'])
  {
    var evs', ts' := evs + [e], ts + [t'];
    forall k | 0 <= k < |evs'| ensures FedStep(cfg, ts'[k], evs'[k], ts'[k + 1]) {
      if k < |evs| { assert FedStep(cfg, ts[k], evs[k], ts[k + 1]); }
    }
  }

  // X is heard at 0 and dropped at 500.
  lemma HeardAndDropped(cfg: FedConfig, rand: nat -> PingNonce) returns (evs: seq<FedEvent>, ts: seq<Trace>)
    requires cfg.self != X
    ensures FedRun(cfg, evs, ts) && |evs| == 2 && OthersHeard(cfg, ts[2], 0)
  {
    var t0 := Trace(FedState(map[], [], map[], {}, map[]), [], {}, {}, []);
    var t1 := Hear(cfg, t0, XSigned(), 0.0, rand);
    assert t1.s.beacons.Keys == {X};
    var t2 := TickOnce(cfg, t1, [X], 500.0, rand);
    var e1, e2 := GossipIn([Env(XSigned())], 0.0, rand), Round([X], 500.0, rand);
    RunOn(cfg, [], [t0], e1, t1);
    RunOn(cfg, [] + [e1], [t0] + [t1], e2, t2);
    evs, ts := [] + [e1] + [e2], [t0] + [t1] + [t2];
    assert NoncesFrom7(0) == [7];
  }

  // X is off the list, and n other envelopes have been accepted since its own.
  ghost predicate OthersHeard(cfg: FedConfig, t: Trace, n: nat) {
    && t.s.beacons == map[] && t.log == [Heard(XSigned(), 0.0)] + YHeard(n)
    && t.s.seen == LastN(cfg.capacity, NoncesFrom7(n))
  }

  lemma HearOther(cfg: FedConfig, t: Trace, n: nat, rand: nat -> PingNonce) returns (t': Trace)
    requires OthersHeard(cfg, t, n)
    ensures FedStep(cfg, t, GossipIn([Env(YSigned(n))], 1000.0, rand), t') && OthersHeard(cfg, t', n + 1)
  {
    RecordedPush(cfg.capacity, NoncesFrom7(n), 8 + n);
    t' := Hear(cfg, t, YSigned(n), 1000.0, rand);
    assert NoncesFrom7(n) + [8 + n] == NoncesFrom7(n + 1);
    YHeardNext(n);
  }

  lemma RecordedPush(capacity: nat, h: seq<Nonce>, nonce: Nonce)
    requires nonce !in h
    ensures nonce !in LastN(capacity, h)
    ensures Recorded(LastN(capacity, h), capacity, nonce) == LastN(capacity, h + [nonce])
  {
  }

  lemma YHeardNext(n: nat)
    ensures [Heard(XSigned(), 0.0)] + YHeard(n) + [Heard(YSigned(n), 1000.0)]
         == [Heard(XSigned(), 0.0)] + YHeard(n + 1)
  {
    assert YHeard(n) + [Heard(YSigned(n), 1000.0)] == YHeard(n + 1);
  }

  lemma HearOthers(cfg: FedConfig, rand: nat -> PingNonce, n: nat) returns (evs: seq<FedEvent>, ts: seq<Trace>)
    requires cfg.self != X
    ensures FedRun(cfg, evs, ts) && |evs| == n + 2 && X !in ts[2].s.beacons && OthersHeard(cfg, ts[n + 2], n)
  {
    if n == 0 {
      evs, ts := HeardAndDropped(cfg, rand);
    } else {
      evs, ts := HearOthers(cfg, rand, n - 1);
      var t' := HearOther(cfg, ts[n + 1], n - 1, rand);
      var e := GossipIn([Env(YSigned(n - 1))], 1000.0, rand);
      RunOn(cfg, evs, ts, e, t');
      evs, ts := evs + [e], ts + [t'];
    }
  }

  // Whatever the size of the window: X is heard at 0 and dropped at 500; once as many
  // other envelopes have come as the window holds, an echo of that same advert lists
  // X again, as if heard at 1000.
  lemma EchoRevives(cfg: FedConfig, rand: nat -> PingNonce) returns (evs: seq<FedEvent>, ts: seq<Trace>)
    requires cfg.self != X
    ensures FedRun(cfg, evs, ts) && |evs| == cfg.capacity + 4 && evs[|evs| - 1] == Round([X], 1000.0, rand)
    ensures X !in ts[2].s.beacons
    ensures var last := ts[|evs|];
            && X in last.s.beacons && last.s.beacons[X].seenAt == 1000.0
            && Silent(last.log, X, 1) && |last.log| == cfg.capacity + 2 && last.log[0].at == 0.0
  {
    evs, ts := HearOthers(cfg, rand, cfg.capacity);
    var t2 := ts[|evs|];
    var t3 := Hear(cfg, t2, XSigned(), 1000.0, rand);
    assert t3.s.beacons.Keys == {X};
    var t4 := TickOnce(cfg, t3, [X], 1000.0, rand);
    var e1, e2 := GossipIn([Env(XSigned())], 1000.0, rand), Round([X], 1000.0, rand);
    RunOn(cfg, evs, ts, e1, t3);
    RunOn(cfg, evs + [e1], ts + [t3], e2, t4);
    evs, ts := evs + [e1] + [e2], ts + [t3] + [t4];
    EchoLog(t4.log, cfg.capacity);
  }

  lemma EchoLog(log: seq<Heard>, n: nat)
    requires log == [Heard(XSigned(), 0.0)] + YHeard(n) + [Heard(XSigned(), 1000.0)]
    ensures Silent(log, X, 1)
  {
    forall i | 0 <= i < n ensures log[i + 1].env == YSigned(i) {
      assert log[i + 1] == YHeard(n)[i];
    }
    assert log[0].env == XSigned() && log[n + 1].env == XSigned();
    assert EchoOf(log, 1, XSigned());
  }
}
