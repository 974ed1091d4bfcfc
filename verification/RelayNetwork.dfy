/** Many signed buses and an adversary who owns the network: authenticity and
    at-most-once delivery through untrusted relays, and no relay loops. */
module RelayNetwork {
  import opened Seqs
  import opened Identity
  import opened UdpBuses

  // ---- what one arrival does to the guard and the wire ----

  function MessageOf(self: PubKey, a: Acceptance): seq<Message> {
    if a.handed && a.env.body.App? then
      [Message(a.env.sender, HashOf(self), a.env.body.kind, a.env.body.payload)]
    else []
  }

  // The messages a log of acceptances handed to the application, in order.
  function HandedBy(self: PubKey, log: seq<Acceptance>): seq<Message> {
    if log == [] then []
    else HandedBy(self, log[..|log| - 1]) + MessageOf(self, log[|log| - 1])
  }

  lemma HandedSnoc(self: PubKey, log: seq<Acceptance>, a: Acceptance)
    ensures HandedBy(self, log + [a]) == HandedBy(self, log) + MessageOf(self, a)
  {
    assert (log + [a])[..|log|] == log;
  }

  lemma UnwrapsShape(cfg: BusConfig, s: BusState, relay: NodeId, origin: NodeId, blob: Blob, now: real)
    ensures var o := Unwraps(cfg, s, relay, origin, blob, now);
            && o.state.seen == SeenAfter(s.seen, cfg.capacity, blob, cfg.skew, Some(now))
            && if Acceptable(s.seen, blob, cfg.skew, Some(now)) then
                 var a := Acceptance(blob.env, Some(now), o.handed != []);
                 o.accepted == [a] && o.handed == MessageOf(cfg.pk, a)
               else o.accepted == [] && o.handed == []
  {
  }

  ghost predicate LogGrows(cfg: BusConfig, log: seq<Acceptance>, accepted: seq<Acceptance>, handed: seq<Message>,
                           seen: seq<Nonce>) {
    && GuardInvariant(seen, cfg.capacity, cfg.skew, log + accepted)
    && HandedBy(cfg.pk, log + accepted) == HandedBy(cfg.pk, log) + handed
  }

  lemma AcceptLogs(cfg: BusConfig, seen: seq<Nonce>, data: Blob, now: real, log: seq<Acceptance>, a: Acceptance)
    requires GuardInvariant(seen, cfg.capacity, cfg.skew, log) && Acceptable(seen, data, cfg.skew, Some(now))
    requires a.env == data.env && a.at == Some(now)
    ensures LogGrows(cfg, log, [a], MessageOf(cfg.pk, a), SeenAfter(seen, cfg.capacity, data, cfg.skew, Some(now)))
  {
    AcceptKeepsGuard(seen, cfg.capacity, cfg.skew, log, data, Some(now), a.handed);
    HandedSnoc(cfg.pk, log, a);
  }

  lemma NothingLogs(cfg: BusConfig, seen: seq<Nonce>, log: seq<Acceptance>)
    requires GuardInvariant(seen, cfg.capacity, cfg.skew, log)
    ensures LogGrows(cfg, log, [], [], seen)
  {
    assert log + [] == log;
  }

  lemma LogsCompose(cfg: BusConfig, log: seq<Acceptance>, a1: seq<Acceptance>, h1: seq<Message>,
                    a2: seq<Acceptance>, h2: seq<Message>, seen: seq<Nonce>)
    requires HandedBy(cfg.pk, log + a1) == HandedBy(cfg.pk, log) + h1
    requires LogGrows(cfg, log + a1, a2, h2, seen)
    ensures LogGrows(cfg, log, a1 + a2, h1 + h2, seen)
  {
    ConcatAssoc(log, a1, a2);
    ConcatAssoc(HandedBy(cfg.pk, log), h1, h2);
  }

  lemma UnwrapsLogs(cfg: BusConfig, s: BusState, relay: NodeId, origin: NodeId, blob: Blob, now: real,
                    log: seq<Acceptance>)
    requires GuardInvariant(s.seen, cfg.capacity, cfg.skew, log)
    ensures var o := Unwraps(cfg, s, relay, origin, blob, now);
            && LogGrows(cfg, log, o.accepted, o.handed, o.state.seen)
            && forall a | a in o.accepted :: blob.Env? && a.env == blob.env && a.at == Some(now)
  {
    UnwrapsShape(cfg, s, relay, origin, blob, now);
    if Acceptable(s.seen, blob, cfg.skew, Some(now)) {
      AcceptLogs(cfg, s.seen, blob, now, log, Unwraps(cfg, s, relay, origin, blob, now).accepted[0]);
    } else {
      NothingLogs(cfg, s.seen, log);
    }
  }

  // An accepted datagram is logged, then whatever its body leads to.
  lemma ArrivesShape(cfg: BusConfig, s: BusState, data: Blob, addr: Addr, now: real, nonce: Nonce, lost: bool)
    requires Acceptable(s.seen, data, cfg.skew, Some(now))
    ensures var o := Arrives(cfg, s, data, addr, now, nonce, lost);
            var env, seen1 := data.env, SeenAfter(s.seen, cfg.capacity, data, cfg.skew, Some(now));
            var a := Acceptance(env, Some(now), Handoff(cfg, env.sender, env.body) != []);
            if env.body.Relayed? then
              var inner := Unwraps(cfg, Admits(cfg, s, data, addr, now), env.sender, env.body.origin, env.body.blob,
                                   now);
              o.accepted == [a] + inner.accepted && o.handed == inner.handed
              && o.state.seen == inner.state.seen && MessageOf(cfg.pk, a) == []
            else o.accepted == [a] && o.handed == MessageOf(cfg.pk, a) && o.state.seen == seen1
  {
  }

  lemma RelayedLogs(cfg: BusConfig, s: BusState, relay: NodeId, origin: NodeId, blob: Blob, now: real,
                    log: seq<Acceptance>, a: Acceptance)
    requires LogGrows(cfg, log, [a], [], s.seen)
    ensures var o := Unwraps(cfg, s, relay, origin, blob, now);
            LogGrows(cfg, log, [a] + o.accepted, o.handed, o.state.seen)
  {
    var o := Unwraps(cfg, s, relay, origin, blob, now);
    UnwrapsLogs(cfg, s, relay, origin, blob, now, log + [a]);
    LogsCompose(cfg, log, [a], [], o.accepted, o.handed, o.state.seen);
    assert [] + o.handed == o.handed;
  }

  // An arrival keeps the guard invariant, and what it hands over is what its
  // acceptances say.
  lemma ArrivesLogs(cfg: BusConfig, s: BusState, data: Blob, addr: Addr, now: real, nonce: Nonce, lost: bool,
                    log: seq<Acceptance>)
    requires GuardInvariant(s.seen, cfg.capacity, cfg.skew, log)
    ensures var o := Arrives(cfg, s, data, addr, now, nonce, lost);
            LogGrows(cfg, log, o.accepted, o.handed, o.state.seen)
  {
    if !Acceptable(s.seen, data, cfg.skew, Some(now)) {
      NothingLogs(cfg, s.seen, log);
    } else {
      ArrivesShape(cfg, s, data, addr, now, nonce, lost);
      var env, seen1 := data.env, SeenAfter(s.seen, cfg.capacity, data, cfg.skew, Some(now));
      var a := Acceptance(env, Some(now), Handoff(cfg, env.sender, env.body) != []);
      AcceptLogs(cfg, s.seen, data, now, log, a);
      if env.body.Relayed? {
        var s1 := Admits(cfg, s, data, addr, now);
        RelayedLogs(cfg, s1, env.sender, env.body.origin, env.body.blob, now, log, a);
      }
    }
  }

  // Everything an arrival accepts is an envelope found inside the datagram.
  lemma ArrivesEnvelopes(cfg: BusConfig, s: BusState, data: Blob, addr: Addr, now: real, nonce: Nonce, lost: bool)
    ensures forall a | a in Arrives(cfg, s, data, addr, now, nonce, lost).accepted ::
              a.env.sig in SigsOf(data) && a.at == Some(now)
  {
    if Acceptable(s.seen, data, cfg.skew, Some(now)) {
      ArrivesShape(cfg, s, data, addr, now, nonce, lost);
      var env := data.env;
      if env.body.Relayed? {
        var s1 := Admits(cfg, s, data, addr, now);
        UnwrapsShape(cfg, s1, env.sender, env.body.origin, env.body.blob, now);
        assert SigsIn(env.body) == SigsOf(env.body.blob);
      }
    }
  }

  // ---- no relay loops ----

  // How many further datagrams a datagram may cause.
  function Work(env: Envelope): nat { if env.body.Relay? then 1 else 0 }

  function TotalWork(pending: seq<Envelope>): nat {
    if pending == [] then 0 else Work(pending[0]) + TotalWork(pending[1..])
  }

  lemma {:induction false} TotalWorkRemove(pending: seq<Envelope>, i: nat)
    requires i < |pending|
    ensures TotalWork(RemoveAt(pending, i)) + Work(pending[i]) == TotalWork(pending)
  {
    if i == 0 {
      assert RemoveAt(pending, 0) == pending[1..];
    } else {
      TotalWorkRemove(pending[1..], i - 1);
      assert RemoveAt(pending, i) == [pending[0]] + RemoveAt(pending[1..], i - 1);
    }
  }

  lemma {:induction false} TotalWorkAppend(a: seq<Envelope>, b: seq<Envelope>)
    ensures TotalWork(a + b) == TotalWork(a) + TotalWork(b)
  {
    if a == [] {
      assert a + b == b;
    } else {
      assert (a + b)[1..] == a[1..] + b;
      TotalWorkAppend(a[1..], b);
    }
  }

  function EnvsOf(packets: seq<Packet>): seq<Envelope> {
    seq(|packets|, i requires 0 <= i < |packets| => packets[i].env)
  }

  // Any datagram, however nested, causes at most its work and no work after that.
  lemma ArrivalSpendsWork(cfg: BusConfig, s: BusState, env: Envelope, addr: Addr, now: real, nonce: Nonce, lost: bool)
    ensures var sent := Arrives(cfg, s, Env(env), addr, now, nonce, lost).sent;
            |sent| <= Work(env) && TotalWork(EnvsOf(sent)) == 0
  {
    var sent := EnvsOf(Arrives(cfg, s, Env(env), addr, now, nonce, lost).sent);
    if sent != [] {
      assert TotalWork(sent) == Work(sent[0]) + TotalWork(sent[1..]) && sent[1..] == [];
    }
  }

  // Datagrams in flight, and how many were ever put on the wire.
  datatype Traffic = Traffic(pending: seq<Envelope>, total: nat)

  // One pending datagram reaches some bus in some state, whose reaction joins.
  ghost predicate Delivered(t: Traffic, t': Traffic) {
    exists i: nat, cfg, s, addr, now, nonce, lost :: i < |t.pending| &&
      var sent := Arrives(cfg, s, Env(t.pending[i]), addr, now, nonce, lost).sent;
      t' == Traffic(RemoveAt(t.pending, i) + EnvsOf(sent), t.total + |sent|)
  }

  ghost predicate Cascade(ts: seq<Traffic>) {
    |ts| > 0 && forall k | 0 <= k < |ts| - 1 :: Delivered(ts[k], ts[k + 1])
  }

  lemma {:induction false} CascadeSpendsWork(ts: seq<Traffic>, k: nat)
    requires Cascade(ts) && k < |ts|
    ensures ts[k].total + TotalWork(ts[k].pending) <= ts[0].total + TotalWork(ts[0].pending)
    ensures k + |ts[k].pending| + TotalWork(ts[k].pending) <= |ts[0].pending| + TotalWork(ts[0].pending)
  {
    if k > 0 {
      CascadeSpendsWork(ts, k - 1);
      var t := ts[k - 1];
      assert Delivered(ts[k - 1], ts[k - 1 + 1]);
      var i: nat, cfg, s, addr, now, nonce, lost :| i < |t.pending| &&
        var sent := Arrives(cfg, s, Env(t.pending[i]), addr, now, nonce, lost).sent;
        ts[k] == Traffic(RemoveAt(t.pending, i) + EnvsOf(sent), t.total + |sent|);
      var sent := Arrives(cfg, s, Env(t.pending[i]), addr, now, nonce, lost).sent;
      ArrivalSpendsWork(cfg, s, t.pending[i], addr, now, nonce, lost);
      TotalWorkRemove(t.pending, i);
      TotalWorkAppend(RemoveAt(t.pending, i), EnvsOf(sent));
    }
  }

  // One application chunk causes at most two datagrams and two deliveries, over
  // any route and any relays: relaying cannot loop.
  lemma ChunkCausesAtMostTwo(cfg: BusConfig, s: BusState, relay: Option<Addr>, direct: Option<Addr>, recipient: NodeId,
                             kind: string, chunk: Payload, now: real, luck: Luck, i: nat, ts: seq<Traffic>)
    requires relay.Some? || direct.Some?
    requires Cascade(ts)
    requires var sent := SendChunk(cfg, s, relay, direct, recipient, kind, chunk, now, luck, i).sent;
             ts[0] == Traffic(EnvsOf(sent), |sent|)
    ensures forall k | 0 <= k < |ts| :: ts[k].total <= 2
    ensures |ts| - 1 <= 2
  {
    var sent := EnvsOf(SendChunk(cfg, s, relay, direct, recipient, kind, chunk, now, luck, i).sent);
    assert |sent| <= 1;
    if sent != [] {
      assert TotalWork(sent) == Work(sent[0]) + TotalWork(sent[1..]) && sent[1..] == [];
    }
    forall k | 0 <= k < |ts| ensures ts[k].total <= 2 {
      CascadeSpendsWork(ts, k);
    }
    CascadeSpendsWork(ts, |ts| - 1);
  }

  // ---- the network ----

  // Every signature inside a datagram, however deeply relayed.
  function SigsOf(blob: Blob): set<Signature> {
    match blob
    case Junk(_) => {}
    case Env(env) => {env.sig} + SigsIn(env.body)
  }

  function SigsIn(body: Body): set<Signature> {
    match body
    case Relay(_, blob) => SigsOf(blob)
    case Relayed(_, blob) => SigsOf(blob)
    case _ => {}
  }

  // What the adversary can put together: anything whose honest signatures exist.
  ghost predicate Derivable(honest: set<PubKey>, signed: set<Signature>, blob: Blob) {
    forall g | g in SigsOf(blob) && g.SignedBy? && g.signer in honest :: g in signed
  }

  datatype Site = Site(bus: BusState, log: seq<Acceptance>, handed: seq<Message>)

  // An application asked its bus to send this body there.
  datatype Request = Request(origin: PubKey, recipient: NodeId, body: Body)

  predicate AskedBy(apps: set<Request>, origin: PubKey, body: Body) {
    exists r | r in apps :: r.origin == origin && r.body == body
  }

  // apps: what the honest applications asked for.
  datatype Net = Net(sites: map<PubKey, Site>, signed: set<Signature>, apps: set<Request>)

  datatype NetEvent =
    | Sent(pk: PubKey, recipient: NodeId, kind: string, payload: Payload, now: real, luck: Luck)
    | Arrived(at: PubKey, data: Blob, addr: Addr, now: real, nonce: Nonce, lost: bool)

  function SigSet(envs: seq<Envelope>): set<Signature> { set e | e in envs :: e.sig }

  function SendChunkSize(cfg: BusConfig, s: BusState, recipient: NodeId): (n: nat)
    ensures n > 0
  {
    ChunkSize(RelayTarget(cfg, s, recipient).Some?)
  }

  function Asked(cfg: BusConfig, s: BusState, pk: PubKey, recipient: NodeId, kind: string,
                 payload: Payload): set<Request> {
    set c | c in Chunks(payload, SendChunkSize(cfg, s, recipient)) :: Request(pk, recipient, App(kind, c))
  }

  ghost predicate NetStep(cfgs: map<PubKey, BusConfig>, n: Net, e: NetEvent, n': Net) {
    match e
    case Sent(pk, recipient, kind, payload, now, luck) =>
      && pk in cfgs && pk in n.sites
      && var site := n.sites[pk];
         var o := Sends(cfgs[pk], site.bus, recipient, kind, payload, now, luck);
         n' == Net(n.sites[pk := site.(bus := o.state)], n.signed + SigSet(o.signed),
                   n.apps + Asked(cfgs[pk], site.bus, pk, recipient, kind, payload))
    case Arrived(pk, data, addr, now, nonce, lost) =>
      && pk in cfgs && pk in n.sites && Derivable(cfgs.Keys, n.signed, data)
      && var site := n.sites[pk];
         var o := Arrives(cfgs[pk], site.bus, data, addr, now, nonce, lost);
         n' == Net(n.sites[pk := Site(o.state, site.log + o.accepted, site.handed + o.handed)],
                   n.signed + SigSet(o.signed), n.apps)
  }

  ghost predicate NetInit(cfgs: map<PubKey, BusConfig>, n: Net) {
    && n.sites.Keys == cfgs.Keys && n.signed == {} && n.apps == {}
    && (forall pk | pk in cfgs :: cfgs[pk].pk == pk)
    && forall pk | pk in n.sites :: n.sites[pk].bus.seen == [] && n.sites[pk].log == [] && n.sites[pk].handed == []
  }

  ghost predicate NetRun(cfgs: map<PubKey, BusConfig>, evs: seq<NetEvent>, ns: seq<Net>) {
    && |ns| == |evs| + 1 && NetInit(cfgs, ns[0])
    && forall t | 0 <= t < |evs| :: NetStep(cfgs, ns[t], evs[t], ns[t + 1])
  }

  // Honest keys sign application bodies only for their own application.
  ghost predicate SignedHonestly(honest: set<PubKey>, signed: set<Signature>, apps: set<Request>) {
    forall g | g in signed ::
      g.SignedBy? && g.signer in honest && (g.content.body.App? ==> AskedBy(apps, g.signer, g.content.body))
  }

  ghost predicate SiteInvariant(cfg: BusConfig, honest: set<PubKey>, signed: set<Signature>, site: Site) {
    && GuardInvariant(site.bus.seen, cfg.capacity, cfg.skew, site.log)
    && site.handed == HandedBy(cfg.pk, site.log)
    && forall a | a in site.log :: a.at.Some? && (a.env.pk in honest ==> a.env.sig in signed)
  }

  ghost predicate NetInvariant(cfgs: map<PubKey, BusConfig>, n: Net) {
    && n.sites.Keys == cfgs.Keys
    && (forall pk | pk in cfgs :: cfgs[pk].pk == pk)
    && SignedHonestly(cfgs.Keys, n.signed, n.apps)
    && SitesInvariant(cfgs, n.signed, n.sites)
  }

  ghost predicate SitesInvariant(cfgs: map<PubKey, BusConfig>, signed: set<Signature>, sites: map<PubKey, Site>) {
    forall pk | pk in sites && pk in cfgs :: SiteInvariant(cfgs[pk], cfgs.Keys, signed, sites[pk])
  }

  lemma {:induction false} SendsSigned(cfg: BusConfig, s: BusState, relay: Option<Addr>, direct: Option<Addr>,
                                       recipient: NodeId,
                                       kind: string, chunks: seq<Payload>, now: real, luck: Luck, i: nat)
    requires (relay.Some? || direct.Some?) && i <= |chunks|
    ensures var o := SendChunks(cfg, s, relay, direct, recipient, kind, chunks, now, luck, i);
            && o.state.seen == s.seen
            && (forall e | e in o.signed ::
                  && e.sig == SignedBy(cfg.pk, SignableOf(e))
                  && (e.body.App? ==> exists c | c in chunks :: e.body == App(kind, c)))
            && (forall p | p in o.sent :: p.env in o.signed && SigsOf(Env(p.env)) <= SigSet(o.signed))
    decreases |chunks| - i
  {
    if i < |chunks| {
      var first := SendChunk(cfg, s, relay, direct, recipient, kind, chunks[i], now, luck, i);
      SendsSigned(cfg, first.state, relay, direct, recipient, kind, chunks, now, luck, i + 1);
      assert chunks[i] in chunks;
      SendChunkSigned(cfg, s, relay, direct, recipient, kind, chunks[i], now, luck, i);
    }
  }

  lemma SendChunkSigned(cfg: BusConfig, s: BusState, relay: Option<Addr>, direct: Option<Addr>, recipient: NodeId,
                        kind: string, chunk: Payload, now: real, luck: Luck, i: nat)
    requires relay.Some? || direct.Some?
    ensures var o := SendChunk(cfg, s, relay, direct, recipient, kind, chunk, now, luck, i);
            && o.state.seen == s.seen
            && (forall e | e in o.signed :: e.sig == SignedBy(cfg.pk, SignableOf(e)) && (e.body.App? ==>
               e.body == App(kind, chunk)))
            && (forall p | p in o.sent :: p.env in o.signed && SigsOf(Env(p.env)) <= SigSet(o.signed))
  {
    var inner := SignEnvelope(cfg.pk, now, luck.rand(2 * i), App(kind, chunk));
    var outer := SignEnvelope(cfg.pk, now, luck.rand(2 * i + 1), Relay(recipient, Env(inner)));
    assert SigsOf(Env(inner)) == {inner.sig};
    assert SigsOf(Env(outer)) == {outer.sig} + SigsOf(Env(inner));
  }

  lemma InitHolds(cfgs: map<PubKey, BusConfig>, n: Net)
    requires NetInit(cfgs, n)
    ensures NetInvariant(cfgs, n)
  {
  }

  lemma SiteSurvives(cfg: BusConfig, honest: set<PubKey>, signed: set<Signature>, more: set<Signature>, site: Site,
                     site': Site)
    requires SiteInvariant(cfg, honest, signed, site) && signed <= more
    requires site'.log == site.log && site'.handed == site.handed && site'.bus.seen == site.bus.seen
    ensures SiteInvariant(cfg, honest, more, site')
  {
  }

  lemma SiteUpdated(cfgs: map<PubKey, BusConfig>, n: Net, pk: PubKey, site: Site, signed: set<Signature>,
                    apps: set<Request>)
    requires NetInvariant(cfgs, n) && pk in cfgs && n.signed <= signed
    requires SignedHonestly(cfgs.Keys, signed, apps) && SiteInvariant(cfgs[pk], cfgs.Keys, signed, site)
    ensures NetInvariant(cfgs, Net(n.sites[pk := site], signed, apps))
  {
    OtherSites(cfgs, n.signed, n.sites, pk, site, signed);
  }

  lemma OtherSites(cfgs: map<PubKey, BusConfig>, signed: set<Signature>, sites: map<PubKey, Site>, pk: PubKey,
                   site: Site, more: set<Signature>)
    requires SitesInvariant(cfgs, signed, sites) && pk in cfgs && signed <= more
    requires SiteInvariant(cfgs[pk], cfgs.Keys, more, site)
    ensures SitesInvariant(cfgs, more, sites[pk := site])
  {
    forall k | k in sites && k in cfgs ensures SiteInvariant(cfgs[k], cfgs.Keys, more, sites[k]) {
      SiteSurvives(cfgs[k], cfgs.Keys, signed, more, sites[k], sites[k]);
    }
  }

  lemma MoreSigned(honest: set<PubKey>, signed: set<Signature>, apps: set<Request>, pk: PubKey,
                   envs: seq<Envelope>, apps': set<Request>)
    requires SignedHonestly(honest, signed, apps) && pk in honest && apps <= apps'
    requires forall x | x in envs :: x.sig == SignedBy(pk, SignableOf(x)) && (x.body.App? ==>
             AskedBy(apps', pk, x.body))
    ensures SignedHonestly(honest, signed + SigSet(envs), apps')
  {
    forall g | g in SigSet(envs) && g !in signed
      ensures g.SignedBy? && g.signer in honest && (g.content.body.App? ==> AskedBy(apps', g.signer, g.content.body))
    {
      var x :| x in envs && x.sig == g;
    }
  }

  lemma SentKeepsInvariant(cfgs: map<PubKey, BusConfig>, n: Net, e: NetEvent, n': Net)
    requires NetInvariant(cfgs, n) && NetStep(cfgs, n, e, n') && e.Sent?
    ensures NetInvariant(cfgs, n')
  {
    var pk := e.pk;
    var cfg, site := cfgs[pk], n.sites[pk];
    var o := Sends(cfg, site.bus, e.recipient, e.kind, e.payload, e.now, e.luck);
    SendsHonest(cfg, site.bus, e.recipient, e.kind, e.payload, e.now, e.luck);
    forall x | x in o.signed && x.body.App? ensures AskedBy(n'.apps, pk, x.body) {
      assert Request(pk, e.recipient, x.body) in n'.apps;
    }
    MoreSigned(cfgs.Keys, n.signed, n.apps, pk, o.signed, n'.apps);
    SiteSurvives(cfg, cfgs.Keys, n.signed, n'.signed, site, site.(bus := o.state));
    SiteUpdated(cfgs, n, pk, site.(bus := o.state), n'.signed, n'.apps);
  }

  lemma SendsHonest(cfg: BusConfig, s: BusState, recipient: NodeId, kind: string, payload: Payload, now: real,
                    luck: Luck)
    ensures var o := Sends(cfg, s, recipient, kind, payload, now, luck);
            && o.state.seen == s.seen
            && (forall x | x in o.signed ::
                  && x.sig == SignedBy(cfg.pk, SignableOf(x))
                  && (x.body.App? ==>
                        Request(cfg.pk, recipient, x.body) in Asked(cfg, s, cfg.pk, recipient, kind, payload)))
            && (forall p | p in o.sent :: SigsOf(Env(p.env)) <= SigSet(o.signed))
  {
    var relay, direct := RelayTarget(cfg, s, recipient), Lookup(s.peerAddrs, recipient);
    if kind in cfg.kinds && (relay.Some? || direct.Some?) {
      SendsSigned(cfg, s, relay, direct, recipient, kind, Chunks(payload, ChunkSize(relay.Some?)), now, luck, 0);
    }
  }

  lemma ArrivedKeepsSite(cfg: BusConfig, honest: set<PubKey>, signed: set<Signature>, site: Site, e: NetEvent)
    requires e.Arrived? && SiteInvariant(cfg, honest, signed, site) && Derivable(honest, signed, e.data)
    ensures var o := Arrives(cfg, site.bus, e.data, e.addr, e.now, e.nonce, e.lost);
            SiteInvariant(cfg, honest, signed, Site(o.state, site.log + o.accepted, site.handed + o.handed))
  {
    var o := Arrives(cfg, site.bus, e.data, e.addr, e.now, e.nonce, e.lost);
    ArrivesLogs(cfg, site.bus, e.data, e.addr, e.now, e.nonce, e.lost, site.log);
    ArrivesEnvelopes(cfg, site.bus, e.data, e.addr, e.now, e.nonce, e.lost);
    var log := site.log + o.accepted;
    forall i | 0 <= i < |log| ensures log[i].at.Some? && (log[i].env.pk in honest ==> log[i].env.sig in signed) {
      if i < |site.log| {
        assert log[i] in site.log;
      } else {
        assert log[i] in o.accepted;
        assert Authentic(log[i].env);
      }
    }
  }

  // A forward signs only a wrapper around a blob that was already derivable.
  lemma ArrivesSigned(cfg: BusConfig, s: BusState, data: Blob, addr: Addr, now: real, nonce: Nonce, lost: bool)
    ensures var o := Arrives(cfg, s, data, addr, now, nonce, lost);
            && (forall x | x in o.signed :: x.sig == SignedBy(cfg.pk, SignableOf(x)) && x.body.Relayed?)
            && (forall p | p in o.sent :: SigsOf(Env(p.env)) <= SigsOf(data) + SigSet(o.signed))
  {
    var o := Arrives(cfg, s, data, addr, now, nonce, lost);
    forall p | p in o.sent ensures SigsOf(Env(p.env)) <= SigsOf(data) + SigSet(o.signed) {
      assert p.env in o.signed && p.env.body == Relayed(data.env.sender, data.env.body.blob);
      assert SigsOf(Env(p.env)) == {p.env.sig} + SigsOf(data.env.body.blob);
      assert SigsOf(data) == {data.env.sig} + SigsOf(data.env.body.blob);
    }
  }

  lemma ArrivedKeepsInvariant(cfgs: map<PubKey, BusConfig>, n: Net, e: NetEvent, n': Net)
    requires NetInvariant(cfgs, n) && NetStep(cfgs, n, e, n') && e.Arrived?
    ensures NetInvariant(cfgs, n')
  {
    var cfg, site := cfgs[e.at], n.sites[e.at];
    var o := Arrives(cfg, site.bus, e.data, e.addr, e.now, e.nonce, e.lost);
    var site' := Site(o.state, site.log + o.accepted, site.handed + o.handed);
    ArrivedKeepsSite(cfg, cfgs.Keys, n.signed, site, e);
    ArrivesSigned(cfg, site.bus, e.data, e.addr, e.now, e.nonce, e.lost);
    MoreSigned(cfgs.Keys, n.signed, n.apps, e.at, o.signed, n.apps);
    SiteSurvives(cfg, cfgs.Keys, n.signed, n'.signed, site', site');
    SiteUpdated(cfgs, n, e.at, site', n'.signed, n'.apps);
  }

  lemma StepKeepsInvariant(cfgs: map<PubKey, BusConfig>, evs: seq<NetEvent>, ns: seq<Net>, t: nat)
    requires NetRun(cfgs, evs, ns) && t < |evs| && NetInvariant(cfgs, ns[t])
    ensures NetInvariant(cfgs, ns[t + 1])
  {
    if evs[t].Sent? {
      SentKeepsInvariant(cfgs, ns[t], evs[t], ns[t + 1]);
    } else {
      ArrivedKeepsInvariant(cfgs, ns[t], evs[t], ns[t + 1]);
    }
  }

  lemma {:induction false} NetAlwaysInvariant(cfgs: map<PubKey, BusConfig>, evs: seq<NetEvent>, ns: seq<Net>, t: nat)
    requires NetRun(cfgs, evs, ns) && t <= |evs|
    ensures NetInvariant(cfgs, ns[t])
  {
    if t == 0 {
      InitHolds(cfgs, ns[0]);
    } else {
      NetAlwaysInvariant(cfgs, evs, ns, t - 1);
      StepKeepsInvariant(cfgs, evs, ns, t - 1);
    }
  }

  lemma {:induction false} HandedComesFromLog(self: PubKey, log: seq<Acceptance>, m: Message)
    requires m in HandedBy(self, log)
    ensures exists a :: a in log && m in MessageOf(self, a)
    decreases |log|
  {
    var n := |log| - 1;
    if m in MessageOf(self, log[n]) {
      assert log[n] in log;
    } else {
      HandedComesFromLog(self, log[..n], m);
    }
  }

  // Whatever route it took and whoever relayed it, a message handed to an honest
  // node's handler in an honest node's name was asked for by that node's own
  // application, kind and payload included. The recipient is not: no signature binds
  // it, as HandedToAnother shows.
  lemma HandedIsAuthentic(cfgs: map<PubKey, BusConfig>, evs: seq<NetEvent>, ns: seq<Net>, t: nat, pk: PubKey,
                          origin: PubKey, m: Message)
    requires NetRun(cfgs, evs, ns) && t <= |evs|
    requires pk in ns[t].sites && m in ns[t].sites[pk].handed
    requires m.sender == HashOf(origin) && origin in cfgs
    ensures AskedBy(ns[t].apps, origin, App(m.kind, m.payload))
  {
    NetAlwaysInvariant(cfgs, evs, ns, t);
    HandedWasAsked(cfgs[pk], cfgs.Keys, ns[t].signed, ns[t].apps, ns[t].sites[pk], origin, m);
  }

  lemma HandedWasAsked(cfg: BusConfig, honest: set<PubKey>, signed: set<Signature>, apps: set<Request>,
                       site: Site, origin: PubKey, m: Message)
    requires SiteInvariant(cfg, honest, signed, site) && SignedHonestly(honest, signed, apps)
    requires m in site.handed && m.sender == HashOf(origin) && origin in honest
    ensures AskedBy(apps, origin, App(m.kind, m.payload))
  {
    HandedComesFromLog(cfg.pk, site.log, m);
    var a :| a in site.log && m in MessageOf(cfg.pk, a);
    assert Authentic(a.env);
    assert a.env.sig in signed;
  }

  // The bus reaches b without a relay.
  predicate Direct(cfg: BusConfig, s: BusState, b: PubKey) {
    s.open && RelayTarget(cfg, s, HashOf(b)).None? && HashOf(b) in s.peerAddrs
  }

  // A message to b goes out, and the one datagram is delivered to c instead.
  lemma HandedToAnother(cfgs: map<PubKey, BusConfig>, n0: Net, a: PubKey, b: PubKey, c: PubKey, kind: string, v: nat,
                        now: real, luck: Luck, addr: Addr) returns (evs: seq<NetEvent>, ns: seq<Net>)
    requires NetInit(cfgs, n0) && a in cfgs && c in cfgs && a != c && b != c
    requires kind in cfgs[a].kinds && kind in cfgs[c].kinds && cfgs[c].skew >= 0.0
    requires Direct(cfgs[a], n0.sites[a].bus, b)
    requires cfgs[a].size(SignEnvelope(a, now, luck.rand(0), App(kind, Single(v)))) <= MAX_DATAGRAM && !luck.lost(0)
    ensures NetRun(cfgs, evs, ns) && |evs| == 2 && ns[0] == n0 && c in ns[2].sites
    ensures ns[2].sites[c].handed == [Message(HashOf(a), HashOf(c), kind, Single(v))]
    ensures ns[2].apps == {Request(a, HashOf(b), App(kind, Single(v)))}
  {
    var env := SignEnvelope(a, now, luck.rand(0), App(kind, Single(v)));
    var e1 := NetEvent.Sent(a, HashOf(b), kind, Single(v), now, luck);
    var n1 := SingleSent(cfgs, n0, a, b, kind, v, now, luck);
    var site := n1.sites[c];
    var o := Arrives(cfgs[c], site.bus, Env(env), addr, now, 0, false);
    var e2 := Arrived(c, Env(env), addr, now, 0, false);
    assert SigsOf(Env(env)) == {env.sig};
    assert o.handed == [Message(HashOf(a), HashOf(c), kind, Single(v))];
    var n2 := Net(n1.sites[c := Site(o.state, site.log + o.accepted, site.handed + o.handed)],
                  n1.signed + SigSet(o.signed), n1.apps);
    evs, ns := [e1, e2], [n0, n1, n2];
    TwoSteps(cfgs, n0, e1, n1, e2, n2);
  }

  // A bus hands over only kinds it has a codec for ...
  lemma ArrivesKnown(cfg: BusConfig, s: BusState, data: Blob, addr: Addr, now: real, nonce: Nonce, lost: bool)
    ensures forall m | m in Arrives(cfg, s, data, addr, now, nonce, lost).handed :: m.kind in cfg.kinds
  {
  }

  ghost predicate KindsKnown(cfgs: map<PubKey, BusConfig>, n: Net) {
    forall pk | pk in n.sites && pk in cfgs :: OnlyKnown(cfgs[pk], n.sites[pk].handed)
  }

  ghost predicate OnlyKnown(cfg: BusConfig, handed: seq<Message>) {
    forall m | m in handed :: m.kind in cfg.kinds
  }

  lemma StepKeepsKnown(cfgs: map<PubKey, BusConfig>, n: Net, e: NetEvent, n': Net)
    requires NetStep(cfgs, n, e, n') && KindsKnown(cfgs, n)
    ensures KindsKnown(cfgs, n')
  {
    if e.Arrived? {
      ArrivesKnown(cfgs[e.at], n.sites[e.at].bus, e.data, e.addr, e.now, e.nonce, e.lost);
    }
  }

  // ... in every run.
  lemma {:induction false} HandedIsKnown(cfgs: map<PubKey, BusConfig>, evs: seq<NetEvent>, ns: seq<Net>, t: nat)
    requires NetRun(cfgs, evs, ns) && t <= |evs|
    ensures KindsKnown(cfgs, ns[t])
  {
    if t > 0 {
      HandedIsKnown(cfgs, evs, ns, t - 1);
      StepKeepsKnown(cfgs, ns[t - 1], evs[t - 1], ns[t - 1 + 1]);
    }
  }

  // Some run from n0 hands m to c although a's only request, the only one there was,
  // named b.
  ghost predicate Misdelivers(cfgs: map<PubKey, BusConfig>, n0: Net, a: PubKey, b: PubKey, c: PubKey, m: Message) {
    exists evs, ns :: NetRun(cfgs, evs, ns) && ns[0] == n0 && MisdeliveredIn(ns[|evs|], a, b, c, m)
  }

  predicate MisdeliveredIn(n: Net, a: PubKey, b: PubKey, c: PubKey, m: Message) {
    && c in n.sites && m in n.sites[c].handed
    && n.apps == {Request(a, HashOf(b), App(m.kind, m.payload))}
  }

  // The other node's handler can get the message if and only if it has a codec for
  // the kind.
  lemma HandedToAnotherExactly(cfgs: map<PubKey, BusConfig>, n0: Net, a: PubKey, b: PubKey, c: PubKey, kind: string,
                               v: nat, now: real, luck: Luck, addr: Addr)
    requires NetInit(cfgs, n0) && a in cfgs && c in cfgs && a != c && b != c
    requires kind in cfgs[a].kinds && cfgs[c].skew >= 0.0 && Direct(cfgs[a], n0.sites[a].bus, b)
    requires cfgs[a].size(SignEnvelope(a, now, luck.rand(0), App(kind, Single(v)))) <= MAX_DATAGRAM && !luck.lost(0)
    ensures Misdelivers(cfgs, n0, a, b, c, Message(HashOf(a), HashOf(c), kind, Single(v))) <==> kind in cfgs[c].kinds
  {
    var m := Message(HashOf(a), HashOf(c), kind, Single(v));
    if kind in cfgs[c].kinds {
      var evs, ns := HandedToAnother(cfgs, n0, a, b, c, kind, v, now, luck, addr);
      assert MisdeliveredIn(ns[|evs|], a, b, c, m);
    }
    if Misdelivers(cfgs, n0, a, b, c, m) {
      var evs, ns :| NetRun(cfgs, evs, ns) && ns[0] == n0 && MisdeliveredIn(ns[|evs|], a, b, c, m);
      HandedIsKnown(cfgs, evs, ns, |evs|);
    }
  }

  lemma SingleSent(cfgs: map<PubKey, BusConfig>, n: Net, a: PubKey, b: PubKey, kind: string, v: nat, now: real,
                   luck: Luck)
    returns (n': Net)
    requires NetInit(cfgs, n) && a in cfgs && kind in cfgs[a].kinds
    requires Direct(cfgs[a], n.sites[a].bus, b)
    requires cfgs[a].size(SignEnvelope(a, now, luck.rand(0), App(kind, Single(v)))) <= MAX_DATAGRAM && !luck.lost(0)
    ensures NetStep(cfgs, n, Sent(a, HashOf(b), kind, Single(v), now, luck), n')
    ensures n'.sites.Keys == cfgs.Keys && forall k | k in n.sites && k != a :: n'.sites[k] == n.sites[k]
    ensures n'.signed == {SignEnvelope(a, now, luck.rand(0), App(kind, Single(v))).sig}
    ensures n'.apps == {Request(a, HashOf(b), App(kind, Single(v)))}
  {
    var cfg, site := cfgs[a], n.sites[a];
    var relay, direct := RelayTarget(cfg, site.bus, HashOf(b)), Lookup(site.bus.peerAddrs, HashOf(b));
    var chunks := [Single(v)];
    assert Chunks(Single(v), GOSSIP_CHUNK_SIZE) == chunks;
    var first := SendChunk(cfg, site.bus, relay, direct, HashOf(b), kind, Single(v), now, luck, 0);
    assert SendChunks(cfg, first.state, relay, direct, HashOf(b), kind, chunks, now, luck, 1) == Idle(first.state);
    var o := Sends(cfg, site.bus, HashOf(b), kind, Single(v), now, luck);
    assert o.signed == first.signed + [];
    assert SigSet(o.signed) == {first.signed[0].sig};
    n' := Net(n.sites[a := site.(bus := o.state)], n.signed + SigSet(o.signed),
              n.apps + Asked(cfg, site.bus, a, HashOf(b), kind, Single(v)));
  }

  lemma TwoSteps(cfgs: map<PubKey, BusConfig>, n0: Net, e1: NetEvent, n1: Net, e2: NetEvent, n2: Net)
    requires NetInit(cfgs, n0) && NetStep(cfgs, n0, e1, n1) && NetStep(cfgs, n1, e2, n2)
    ensures NetRun(cfgs, [e1, e2], [n0, n1, n2])
  {
    var evs, ns := [e1, e2], [n0, n1, n2];
    forall t | 0 <= t < 2 ensures NetStep(cfgs, ns[t], evs[t], ns[t + 1]) {
      assert t == 0 || t == 1;
    }
  }

  // Two acceptances of one nonce, direct or relayed, are always separated by at
  // least `capacity` others; below that rate nothing is handed over twice.
  lemma HandedAtMostOnce(cfgs: map<PubKey, BusConfig>, evs: seq<NetEvent>, ns: seq<Net>, t: nat, pk: PubKey)
    requires NetRun(cfgs, evs, ns) && t <= |evs| && pk in cfgs && pk in ns[t].sites
    ensures var site, cfg := ns[t].sites[pk], cfgs[pk];
            && site.handed == HandedBy(pk, site.log)
            && Separated(cfg.capacity, site.log)
            && (RateBounded(cfg.capacity, cfg.skew, site.log) ==>
                  forall i, j | 0 <= i < j < |site.log| :: site.log[i].env != site.log[j].env)
  {
    NetAlwaysInvariant(cfgs, evs, ns, t);
    var site, cfg := ns[t].sites[pk], cfgs[pk];
    assert SiteInvariant(cfg, cfgs.Keys, ns[t].signed, site);
    if RateBounded(cfg.capacity, cfg.skew, site.log) {
      forall i, j | 0 <= i < j < |site.log| ensures site.log[i].env != site.log[j].env {
        assert site.log[i] in site.log && site.log[j] in site.log;
        if site.log[i].env == site.log[j].env {
          AcceptedAtMostOnce(cfg.capacity, cfg.skew, site.log, i, j);
        }
      }
    }
  }

  // The adversary's reach covers everything honest buses really send.
  lemma HonestTrafficIsDerivable(cfgs: map<PubKey, BusConfig>, n: Net, e: NetEvent, n': Net, p: Packet)
    requires NetInvariant(cfgs, n) && NetStep(cfgs, n, e, n')
    requires match e
             case Sent(pk, recipient, kind, payload, now, luck) =>
               p in Sends(cfgs[pk], n.sites[pk].bus, recipient, kind, payload, now, luck).sent
             case Arrived(pk, data, addr, now, nonce, lost) =>
               p in Arrives(cfgs[pk], n.sites[pk].bus, data, addr, now, nonce, lost).sent
    ensures Derivable(cfgs.Keys, n'.signed, Env(p.env))
  {
    match e {
      case Sent(pk, recipient, kind, payload, now, luck) =>
        SendsHonest(cfgs[pk], n.sites[pk].bus, recipient, kind, payload, now, luck);
      case Arrived(pk, data, addr, now, nonce, lost) =>
        ArrivesSigned(cfgs[pk], n.sites[pk].bus, data, addr, now, nonce, lost);
    }
  }

  // ---- the honest path through a relay ----

  // The relay passes on exactly the origin's envelope.
  lemma RelayForwards(cfg: BusConfig, s: BusState, origin: PubKey, target: NodeId, inner: Envelope, ts: real,
                      nonce: Nonce, addr: Addr, now: real, salt: Nonce)
    requires cfg.enableRelay && target in s.peerAddrs && target != HashOf(origin)
    requires -cfg.skew <= now - ts <= cfg.skew && nonce !in s.seen
    requires cfg.size(SignEnvelope(cfg.pk, now, salt, Relayed(HashOf(origin), Env(inner)))) <= MAX_DATAGRAM
    ensures Arrives(cfg, s, Env(SignEnvelope(origin, ts, nonce, Relay(target, Env(inner)))), addr, now, salt,
            false).sent
         == [Packet(SignEnvelope(cfg.pk, now, salt, Relayed(HashOf(origin), Env(inner))), s.peerAddrs[target])]
  {
  }

  // The destination hands over the origin's message, and its reply to the origin
  // has a relay to go through.
  lemma DestinationUnwraps(cfg: BusConfig, s: BusState, origin: PubKey, relay: PubKey, kind: string, chunk: Payload,
                           ts: real, nonce: Nonce, ts2: real, nonce2: Nonce, addr: Addr, now: real, salt: Nonce,
                             lost: bool)
    requires origin != relay && kind in cfg.kinds
    requires -cfg.skew <= now - ts <= cfg.skew && -cfg.skew <= now - ts2 <= cfg.skew
    requires nonce !in s.seen && nonce2 !in s.seen && nonce != nonce2
    ensures var inner := SignEnvelope(origin, ts, nonce, App(kind, chunk));
            var o := Arrives(cfg, s, Env(SignEnvelope(relay, ts2, nonce2, Relayed(HashOf(origin), Env(inner)))),
                             addr, now, salt, lost);
            && o.handed == [Message(HashOf(origin), HashOf(cfg.pk), kind, chunk)]
            && (cfg.enableRelay ==> RelayTarget(cfg, o.state, HashOf(origin)).Some?)
  {
    var inner := SignEnvelope(origin, ts, nonce, App(kind, chunk));
    var outer := SignEnvelope(relay, ts2, nonce2, Relayed(HashOf(origin), Env(inner)));
    var s1 := Admits(cfg, s, Env(outer), addr, now);
    assert nonce !in s1.seen;
    assert Acceptable(s1.seen, Env(inner), cfg.skew, Some(now));
    var o := Unwraps(cfg, s1, HashOf(relay), HashOf(origin), Env(inner), now);
    assert Arrives(cfg, s, Env(outer), addr, now, salt, lost).state == o.state;
    if cfg.enableRelay {
      LearnedRelay(cfg, s1, HashOf(relay), HashOf(origin));
    }
  }

  lemma LearnedRelay(cfg: BusConfig, s: BusState, relay: NodeId, origin: NodeId)
    requires cfg.enableRelay && relay in s.peerAddrs && relay != origin
    ensures forall r: nat, u: seq<Nonce> ::
              RelayTarget(cfg, LearnRelay(s.(relayedRx := r, seen := u), relay, origin), origin).Some?
  {
    forall r: nat, u: seq<Nonce>
      ensures RelayTarget(cfg, LearnRelay(s.(relayedRx := r, seen := u), relay, origin), origin).Some?
    {
      var s' := LearnRelay(s.(relayedRx := r, seen := u), relay, origin);
      assert relay in Candidates(s'.relayId, s'.relayIds);
    }
  }

  // Failover: where relaying is on, a relay-only peer, and no other, is reached through
  // a relay, exactly while some candidate other than itself has a known address.
  lemma RelayFailover(cfg: BusConfig, s: BusState, recipient: NodeId)
    ensures RelayTarget(cfg, s, recipient).Some? <==>
            && cfg.enableRelay && recipient in s.relayOnly
            && exists r :: (s.relayId == Some(r) || r in s.relayIds) && r != recipient && r in s.peerAddrs
  {
    var all := if s.relayId.Some? then [s.relayId.value] + s.relayIds else s.relayIds;
    assert forall r :: r in all <==> s.relayId == Some(r) || r in s.relayIds;
    assert forall r :: r in Candidates(s.relayId, s.relayIds) <==> r in all;
  }

  // No relay is listed twice.
  ghost predicate RelaysDistinct(s: BusState) {
    && (forall i, j | 0 <= i < j < |s.relayIds| :: s.relayIds[i] != s.relayIds[j])
    && (s.relayId.Some? ==> s.relayId.value !in s.relayIds)
  }

  // A relay an origin was heard through joins the relays behind those known, once unless
  // it was a spare while there was no primary, and the origin is relayed to from then on.
  lemma RelayLearnedOnce(s: BusState, relay: NodeId, origin: NodeId)
    ensures var s' := LearnRelay(s, relay, origin);
            && s'.relayOnly == s.relayOnly + {origin}
            && (forall r :: (s'.relayId == Some(r) || r in s'.relayIds) <==>
                            r == relay || s.relayId == Some(r) || r in s.relayIds)
            && s.relayIds <= s'.relayIds && (s.relayId.Some? ==> s'.relayId == s.relayId)
            && (RelaysDistinct(s) ==> (RelaysDistinct(s') <==> s.relayId.Some? || relay !in s.relayIds))
  {
  }
}
