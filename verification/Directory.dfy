/** When the order of gossip does not matter to the beacon directory. */
module Directory {
  import opened Seqs
  import opened Identity
  import opened Federation

  // ---- last writer wins ----

  datatype Arrival = Arrival(advert: Advert, blob: Blob, now: real)

  // The directory after recording these adverts in turn, none expiring.
  function RecordAll(self: NodeId, arrivals: seq<Arrival>): Beacons {
    if arrivals == [] then map[]
    else
      var n := |arrivals| - 1;
      var a := arrivals[n];
      Recorded1(RecordAll(self, arrivals[..n]), self, a.advert, a.blob, a.now)
  }

  function Listed(bs: Beacons): map<NodeId, Advert> { map id | id in bs :: bs[id].advert }

  // k is the last of id's adverts with the highest timestamp.
  ghost predicate LastNewest(arrivals: seq<Arrival>, id: NodeId, k: int) {
    && 0 <= k < |arrivals| && arrivals[k].advert.nodeId == id
    && forall j | 0 <= j < |arrivals| && arrivals[j].advert.nodeId == id ::
         arrivals[j].advert.ts <= arrivals[k].advert.ts && (j > k ==> arrivals[j].advert.ts < arrivals[k].advert.ts)
  }

  ghost predicate Advertised(arrivals: seq<Arrival>, id: NodeId) {
    exists j :: 0 <= j < |arrivals| && arrivals[j].advert.nodeId == id
  }

  ghost predicate ListedAs(self: NodeId, arrivals: seq<Arrival>, id: NodeId) {
    var bs := RecordAll(self, arrivals);
    if id == self || !Advertised(arrivals, id) then id !in bs
    else id in bs && exists k :: LastNewest(arrivals, id, k) && arrivals[k].advert == bs[id].advert
  }

  lemma NewestMoves(arrivals: seq<Arrival>, id: NodeId, k: int)
    requires arrivals != []
    requires LastNewest(arrivals[..|arrivals| - 1], id, k)
    ensures var last := arrivals[|arrivals| - 1].advert;
            if last.nodeId == id && last.ts >= arrivals[k].advert.ts
            then LastNewest(arrivals, id, |arrivals| - 1) else LastNewest(arrivals, id, k)
  {
    var front := arrivals[..|arrivals| - 1];
    assert forall j | 0 <= j < |front| :: front[j] == arrivals[j];
  }

  // The directory lists, per beacon other than ourselves, its newest advert.
  lemma {:induction false} NewestWins(self: NodeId, arrivals: seq<Arrival>, id: NodeId)
    ensures ListedAs(self, arrivals, id)
  {
    if arrivals != [] {
      var n := |arrivals| - 1;
      var front := arrivals[..n];
      NewestWins(self, front, id);
      assert forall j | 0 <= j < n :: front[j] == arrivals[j];
      if id != self && Advertised(front, id) {
        var k :| LastNewest(front, id, k) && front[k].advert == RecordAll(self, front)[id].advert;
        NewestMoves(arrivals, id, k);
      } else if id != self && arrivals[n].advert.nodeId == id {
        assert LastNewest(arrivals, id, n);
      }
    }
  }

  // Two different adverts of one beacon share its highest timestamp.
  ghost predicate Ambiguous(self: NodeId, arrivals: seq<Arrival>) {
    exists x, y | x in arrivals && y in arrivals ::
      && x.advert.nodeId == y.advert.nodeId != self && x.advert.ts == y.advert.ts && x.advert != y.advert
      && forall z | z in arrivals && z.advert.nodeId == x.advert.nodeId :: z.advert.ts <= x.advert.ts
  }

  function Adverts(arrivals: seq<Arrival>): set<Advert> { set a | a in arrivals :: a.advert }

  lemma Carrier(arrivals: seq<Arrival>, advert: Advert) returns (a: Arrival)
    requires advert in Adverts(arrivals)
    ensures a in arrivals && a.advert == advert
  {
    a :| a in arrivals && a.advert == advert;
  }

  ghost predicate NewestOf(arrivals: seq<Arrival>, id: NodeId, a: Arrival) {
    && a in arrivals && a.advert.nodeId == id
    && forall z | z in arrivals && z.advert.nodeId == id :: z.advert.ts <= a.advert.ts
  }

  lemma ListedNewest(self: NodeId, arrivals: seq<Arrival>, id: NodeId) returns (a: Arrival)
    requires id in RecordAll(self, arrivals)
    ensures id != self && NewestOf(arrivals, id, a) && a.advert == RecordAll(self, arrivals)[id].advert
  {
    NewestWins(self, arrivals, id);
    var k :| LastNewest(arrivals, id, k) && arrivals[k].advert == RecordAll(self, arrivals)[id].advert;
    a := arrivals[k];
  }

  lemma ListedWhenAdvertised(self: NodeId, arrivals: seq<Arrival>, id: NodeId, a: Arrival)
    requires id != self && a in arrivals && a.advert.nodeId == id
    ensures id in RecordAll(self, arrivals)
  {
    NewestWins(self, arrivals, id);
    var j :| 0 <= j < |arrivals| && arrivals[j] == a;
    assert Advertised(arrivals, id);
  }

  lemma NewestAgree(self: NodeId, b1: seq<Arrival>, b2: seq<Arrival>, id: NodeId, x: Arrival, y: Arrival)
    requires Adverts(b1) == Adverts(b2) && !Ambiguous(self, b1) && id != self
    requires NewestOf(b1, id, x) && NewestOf(b2, id, y)
    ensures x.advert == y.advert
  {
    var y' := Carrier(b1, y.advert);
    var x' := Carrier(b2, x.advert);
  }

  lemma SameEntry(self: NodeId, b1: seq<Arrival>, b2: seq<Arrival>, id: NodeId)
    requires Adverts(b1) == Adverts(b2) && !Ambiguous(self, b1)
    ensures id in RecordAll(self, b1) <==> id in RecordAll(self, b2)
    ensures id in RecordAll(self, b1) ==> RecordAll(self, b2)[id].advert == RecordAll(self, b1)[id].advert
  {
    if id in RecordAll(self, b1) {
      var x := ListedNewest(self, b1, id);
      var x' := Carrier(b2, x.advert);
      ListedWhenAdvertised(self, b2, id, x');
      var y := ListedNewest(self, b2, id);
      NewestAgree(self, b1, b2, id, x, y);
    } else if id in RecordAll(self, b2) {
      var y := ListedNewest(self, b2, id);
      var y' := Carrier(b1, y.advert);
      ListedWhenAdvertised(self, b1, id, y');
    }
  }

  // Any order, any repetition and any timing of one set of unambiguous adverts
  // leads to the same directory.
  lemma SameAdvertsSameDirectory(self: NodeId, b1: seq<Arrival>, b2: seq<Arrival>)
    requires Adverts(b1) == Adverts(b2) && !Ambiguous(self, b1)
    ensures Listed(RecordAll(self, b1)) == Listed(RecordAll(self, b2))
  {
    var l1, l2 := Listed(RecordAll(self, b1)), Listed(RecordAll(self, b2));
    forall id ensures (id in l1 <==> id in l2) && (id in l1 ==> l1[id] == l2[id]) {
      SameEntry(self, b1, b2, id);
    }
  }

  ghost predicate OrderFree(self: NodeId, arrivals: seq<Arrival>) {
    forall b1, b2 | multiset(b1) == multiset(arrivals) && multiset(b2) == multiset(arrivals) ::
      Listed(RecordAll(self, b1)) == Listed(RecordAll(self, b2))
  }

  lemma LastTieWins(self: NodeId, arrivals: seq<Arrival>, rest: seq<Arrival>, x: Arrival, y: Arrival)
    requires multiset(rest + [x, y]) == multiset(arrivals)
    requires x.advert.nodeId == y.advert.nodeId != self && x.advert.ts == y.advert.ts
    requires forall z | z in arrivals && z.advert.nodeId == y.advert.nodeId :: z.advert.ts <= y.advert.ts
    ensures var d := Listed(RecordAll(self, rest + [x, y])); y.advert.nodeId in d && d[y.advert.nodeId] == y.advert
  {
    var all := rest + [x, y];
    SameMembers(all, arrivals);
    NewestWins(self, all, y.advert.nodeId);
    assert all[|all| - 1] == y && Advertised(all, y.advert.nodeId);
    var k :| LastNewest(all, y.advert.nodeId, k) && all[k].advert == RecordAll(self, all)[y.advert.nodeId].advert;
    assert all[k] in arrivals;
    assert k == |all| - 1;
  }

  lemma TiesMatter(self: NodeId, arrivals: seq<Arrival>, x: Arrival, y: Arrival)
    requires x in arrivals && y in arrivals && x.advert != y.advert
    requires x.advert.nodeId == y.advert.nodeId != self && x.advert.ts == y.advert.ts
    requires forall z | z in arrivals && z.advert.nodeId == y.advert.nodeId :: z.advert.ts <= y.advert.ts
    ensures !OrderFree(self, arrivals)
  {
    var rest := PullOut(arrivals, x, y);
    var b1, b2 := rest + [x, y], rest + [y, x];
    assert multiset(b1) == multiset(arrivals) && multiset(b2) == multiset(arrivals);
    LastTieWins(self, arrivals, rest, x, y);
    LastTieWins(self, arrivals, rest, y, x);
    assert Listed(RecordAll(self, b1)) != Listed(RecordAll(self, b2));
  }

  // The order of arrival matters exactly when some beacon's newest advert is ambiguous.
  lemma OrderFreeExactly(self: NodeId, arrivals: seq<Arrival>)
    ensures OrderFree(self, arrivals) <==> !Ambiguous(self, arrivals)
  {
    if Ambiguous(self, arrivals) {
      var x, y :| x in arrivals && y in arrivals
        && x.advert.nodeId == y.advert.nodeId != self && x.advert.ts == y.advert.ts && x.advert != y.advert
        && forall z | z in arrivals && z.advert.nodeId == x.advert.nodeId :: z.advert.ts <= x.advert.ts;
      TiesMatter(self, arrivals, x, y);
    } else {
      forall b | multiset(b) == multiset(arrivals)
        ensures Listed(RecordAll(self, b)) == Listed(RecordAll(self, arrivals))
      {
        SameMembers(b, arrivals);
        assert Adverts(b) == Adverts(arrivals);
        SameAdvertsSameDirectory(self, arrivals, b);
      }
    }
  }

  // How often recording reported this beacon new.
  function NewReports(self: NodeId, arrivals: seq<Arrival>, id: NodeId): nat {
    if arrivals == [] then 0
    else
      var n := |arrivals| - 1;
      NewReports(self, arrivals[..n], id) +
      if arrivals[n].advert.nodeId == id && IsNew(RecordAll(self, arrivals[..n]), self,
         arrivals[n].advert) then 1 else 0
  }

  // Each listed beacon was reported new exactly once, any other never.
  lemma {:induction false} ReportedNewOnce(self: NodeId, arrivals: seq<Arrival>, id: NodeId)
    ensures NewReports(self, arrivals, id) == if id in RecordAll(self, arrivals) then 1 else 0
  {
    if arrivals != [] {
      ReportedNewOnce(self, arrivals[..|arrivals| - 1], id);
    }
  }

  // ---- the address dialled ----

  // The directory keeps the newer of two adverts, the bus the address of the last
  // one heard: the two agree on a beacon after hearing its advert exactly when the
  // advert was not stale, or named the listed address anyway.
  lemma DialsTheListedExactly(cfg: FedConfig, s: FedState, blob: Blob, now: real, nonce: PingNonce)
    requires Acceptable(s.seen, blob, 0.0, None) && Listable(cfg, blob.env)
    ensures var a := blob.env.body.advert;
            var s' := GossipOne(cfg, s, blob, now, nonce).state;
            && a.nodeId in s'.beacons && a.nodeId in s'.dialable
            && (DialsListed(s', a.nodeId) <==>
                  || !Stale(s.beacons, cfg.self, a)
                  || AddressOf(s.beacons[a.nodeId].advert) == AddressOf(a))
  {
    var a := blob.env.body.advert;
    if Stale(s.beacons, cfg.self, a) {
      assert a.nodeId in s.beacons && !IsNew(s.beacons, cfg.self, a);
    }
  }

  function AddressOf(a: Advert): (nat, nat) { (a.host, a.gossipPort) }

  predicate DialsListed(s: FedState, id: NodeId)
    requires id in s.beacons && id in s.dialable
  {
    s.dialable[id] == AddressOf(s.beacons[id].advert)
  }

  const HOME := Advert(HashOf(1), 5, 0, "", "", 2.0)
  const FORMER := Advert(HashOf(1), 9, 0, "", "", 1.0)

  // Hearing the newer advert first and the older one after it: the directory keeps
  // the newer, the bus dials the older.
  lemma StaleAdvertMovesTheDial(cfg: FedConfig, s: FedState, now: real, nonce: PingNonce) returns (s': FedState)
    requires cfg.self != HashOf(1) && s.beacons == map[] && s.seen == []
    ensures var first := GossipOne(cfg, s, Env(SignEnvelope(1, 2.0, 7, BeaconAdvert(HOME))), now, nonce).state;
            s' == GossipOne(cfg, first, Env(SignEnvelope(1, 1.0, 8, BeaconAdvert(FORMER))), now, nonce).state
    ensures HashOf(1) in s'.beacons && s'.beacons[HashOf(1)].advert == HOME
    ensures HashOf(1) in s'.dialable && s'.dialable[HashOf(1)] == (9, 0) && !DialsListed(s', HashOf(1))
  {
    var home, former := SignEnvelope(1, 2.0, 7, BeaconAdvert(HOME)), SignEnvelope(1, 1.0, 8, BeaconAdvert(FORMER));
    var s1 := GossipOne(cfg, s, Env(home), now, nonce).state;
    assert 8 !in s1.seen;
    assert s1.beacons[HashOf(1)].advert == HOME;
    s' := GossipOne(cfg, s1, Env(former), now, nonce).state;
    assert Stale(s1.beacons, cfg.self, FORMER);
  }
}
