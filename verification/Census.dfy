/** The swarm census: which peers other beacons vouch for, and until when. */
module Census {
  import opened Seqs
  import opened Identity

  const CENSUS_TTL := 90.0

  datatype Entry = Entry(id: NodeId, ep: string, topics: set<int>)

  datatype Peer = Peer(ep: string, topics: set<int>, sources: map<NodeId, real>, seenAt: real)

  type Table = map<NodeId, Peer>

  // Credit one reported peer to the reporting beacon.
  function Credited(c: Table, self: NodeId, sender: NodeId, e: Entry, now: real): Table {
    if e.id == self then c
    else
      var rec := if e.id in c then c[e.id] else Peer(e.ep, e.topics, map[], now);
      c[e.id := Peer(if e.ep != "" then e.ep else rec.ep, rec.topics + e.topics, rec.sources[sender := now], now)]
  }

  function Reported(c: Table, self: NodeId, sender: NodeId, entries: seq<Entry>, now: real): Table
    decreases |entries|
  {
    if entries == [] then c else Reported(Credited(c, self, sender, entries[0], now), self, sender, entries[1..], now)
  }

  function Live(sources: map<NodeId, real>, now: real): map<NodeId, real> {
    map b | b in sources && now - sources[b] <= CENSUS_TTL :: sources[b]
  }

  ghost predicate IsLatest(x: real, sources: map<NodeId, real>) {
    && (exists b :: b in sources && sources[b] == x)
    && forall b | b in sources :: sources[b] <= x
  }

  // A peer survives on its live sources alone, dated by the latest of them.
  ghost predicate AgesTo(c: Table, now: real, c': Table) {
    && (forall p :: p in c' <==> p in c && Live(c[p].sources, now) != map[])
    && forall p | p in c' ::
         && c'[p].ep == c[p].ep && c'[p].topics == c[p].topics
         && c'[p].sources == Live(c[p].sources, now) && IsLatest(c'[p].seenAt, c'[p].sources)
  }

  class SwarmCensus {
    const self: NodeId
    var table: Table

    constructor (self: NodeId)
      ensures this.self == self && table == map[]
    {
      this.self, table := self, map[];
    }

    method OnCensus(sender: NodeId, entries: seq<Entry>, now: real)
      modifies this
      ensures table == Reported(old(table), self, sender, entries, now)
    {
      for i := 0 to |entries|
        invariant Reported(old(table), self, sender, entries, now) == Reported(table, self, sender, entries[i..], now)
      {
        assert entries[i..][1..] == entries[i + 1..];
        var e := entries[i];
        if e.id == self { continue; }
        var rec := if e.id in table then table[e.id] else Peer(e.ep, e.topics, map[], now);
        if e.ep != "" { rec := rec.(ep := e.ep); }
        if e.topics != {} { rec := rec.(topics := rec.topics + e.topics); }
        rec := rec.(sources := rec.sources[sender := now], seenAt := now);
        assert e.topics == {} ==> rec.topics + e.topics == rec.topics;
        assert table[e.id := rec] == Credited(table, self, sender, e, now);
        table := table[e.id := rec];
      }
    }

    method Latest(sources: map<NodeId, real>) returns (x: real)
      requires sources != map[]
      ensures IsLatest(x, sources)
    {
      var first :| first in sources;
      x := sources[first];
      var todo := sources.Keys;
      while todo != {}
        invariant todo <= sources.Keys
        invariant exists b :: b in sources && sources[b] == x
        invariant forall b | b in sources && b !in todo :: sources[b] <= x
        decreases |todo|
      {
        var b :| b in todo;
        if sources[b] > x { x := sources[b]; }
        todo := todo - {b};
      }
    }

    method Expire(now: real)
      modifies this
      ensures AgesTo(old(table), now, table)
    {
      var todo := table.Keys;
      while todo != {}
        invariant todo <= table.Keys <= old(table).Keys
        invariant forall p | p in todo :: table[p] == old(table)[p]
        invariant forall p | p in old(table) && p !in todo :: p in table <==> Live(old(table)[p].sources, now) != map[]
        invariant forall p | p in table && p !in todo ::
                    && table[p].ep == old(table)[p].ep && table[p].topics == old(table)[p].topics
                    && table[p].sources == Live(old(table)[p].sources, now) &&
                       IsLatest(table[p].seenAt, table[p].sources)
        decreases |todo|
      {
        var p :| p in todo;
        var live := Live(table[p].sources, now);
        if live == map[] {
          table := table - {p};
        } else {
          var latest := Latest(live);
          table := table[p := table[p].(sources := live, seenAt := latest)];
        }
        todo := todo - {p};
      }
    }
  }

  // ---- whole runs ----

  datatype CensusEvent = Report(sender: NodeId, entries: seq<Entry>, now: real) | Age(now: real)

  ghost predicate CensusStep(self: NodeId, c: Table, e: CensusEvent, c': Table) {
    match e
    case Report(sender, entries, now) => c' == Reported(c, self, sender, entries, now)
    case Age(now) => AgesTo(c, now, c')
  }

  ghost predicate CensusRun(self: NodeId, evs: seq<CensusEvent>, cs: seq<Table>) {
    && |cs| == |evs| + 1 && cs[0] == map[]
    && (forall t | 0 <= t < |evs| :: CensusStep(self, cs[t], evs[t], cs[t + 1]))
    && forall s, t | 0 <= s <= t < |evs| :: evs[s].now <= evs[t].now
  }

  predicate Mentions(entries: seq<Entry>, p: NodeId) { exists e | e in entries :: e.id == p }

  // When beacon b last reported peer p.
  function LastReport(evs: seq<CensusEvent>, b: NodeId, p: NodeId): Option<real> {
    if evs == [] then None
    else
      var e := evs[|evs| - 1];
      if e.Report? && e.sender == b && Mentions(e.entries, p) then Some(e.now)
      else LastReport(evs[..|evs| - 1], b, p)
  }

  function SourceTime(c: Table, b: NodeId, p: NodeId): Option<real> {
    if p in c && b in c[p].sources then Some(c[p].sources[b]) else None
  }

  lemma {:induction false} ReportedSources(c: Table, self: NodeId, sender: NodeId, entries: seq<Entry>, now: real,
                                           b: NodeId, p: NodeId)
    requires p != self
    ensures SourceTime(Reported(c, self, sender, entries, now), b, p)
         == if b == sender && Mentions(entries, p) then Some(now) else SourceTime(c, b, p)
    decreases |entries|
  {
    if entries != [] {
      var c1 := Credited(c, self, sender, entries[0], now);
      ReportedSources(c1, self, sender, entries[1..], now, b, p);
      assert entries == [entries[0]] + entries[1..];
      assert Mentions(entries, p) <==> entries[0].id == p || Mentions(entries[1..], p);
    }
  }

  // What the table says of (b, p) at time now, given b's last report of p.
  predicate Accounts(source: Option<real>, last: Option<real>, now: real) {
    source == last || (source.None? && last.Some? && now - last.value > CENSUS_TTL)
  }

  lemma {:induction false} SourcesFollowReports(self: NodeId, evs: seq<CensusEvent>, cs: seq<Table>, t: nat,
                                                b: NodeId, p: NodeId)
    requires CensusRun(self, evs, cs) && 0 < t <= |evs| && p != self
    ensures Accounts(SourceTime(cs[t], b, p), LastReport(evs[..t], b, p), evs[t - 1].now)
  {
    assert evs[..t][..t - 1] == evs[..t - 1];
    if t > 1 {
      SourcesFollowReports(self, evs, cs, t - 1, b, p);
    }
    var e := evs[t - 1];
    assert CensusStep(self, cs[t - 1], e, cs[t - 1 + 1]);
    if e.Report? {
      ReportedSources(cs[t - 1], self, e.sender, e.entries, e.now, b, p);
    } else {
      AgedSource(cs[t - 1], e.now, cs[t], b, p);
    }
  }

  lemma AgedSource(c: Table, now: real, c': Table, b: NodeId, p: NodeId)
    requires AgesTo(c, now, c')
    ensures SourceTime(c', b, p) == match SourceTime(c, b, p)
                                    case None => None
                                    case Some(at) => if now - at <= CENSUS_TTL then Some(at) else None
  {
    if p in c && b in c[p].sources && now - c[p].sources[b] <= CENSUS_TTL {
      assert b in Live(c[p].sources, now);
    }
  }

  predicate Vouches(c: Table, b: NodeId, p: NodeId) { p in c && b in c[p].sources }

  lemma AgedVouch(c: Table, now: real, c': Table, b: NodeId, p: NodeId)
    requires AgesTo(c, now, c')
    ensures Vouches(c', b, p) <==> SourceTime(c', b, p).Some?
    ensures SourceTime(c', b, p).Some? ==> now - SourceTime(c', b, p).value <= CENSUS_TTL
  {
    AgedSource(c, now, c', b, p);
  }

  predicate RecentlyReported(evs: seq<CensusEvent>, b: NodeId, p: NodeId, now: real) {
    LastReport(evs, b, p).Some? && now - LastReport(evs, b, p).value <= CENSUS_TTL
  }

  // After aging at `now`, the census shows peer p vouched for by b exactly when
  // b's last report of p is at most CENSUS_TTL old, and it shows p at all exactly
  // when some beacon does.
  lemma CensusIsExact(self: NodeId, evs: seq<CensusEvent>, cs: seq<Table>, t: nat, p: NodeId)
    requires CensusRun(self, evs, cs) && t < |evs| && evs[t].Age? && p != self
    ensures var c := cs[t + 1];
            && (forall b :: Vouches(c, b, p) <==> RecentlyReported(evs[..t + 1], b, p, evs[t].now))
            && (p in c <==> exists b :: Vouches(c, b, p))
            && (p in c ==> DatedByLatest(evs[..t + 1], p, evs[t].now, c[p].seenAt))
  {
    var c := cs[t + 1];
    assert CensusStep(self, cs[t], evs[t], c);
    forall b ensures Vouches(c, b, p) <==> RecentlyReported(evs[..t + 1], b, p, evs[t].now) {
      SourcesFollowReports(self, evs, cs, t + 1, b, p);
      AgedVouch(cs[t], evs[t].now, c, b, p);
    }
    if p in c {
      assert c[p].sources != map[];
      var b :| b in c[p].sources && c[p].sources[b] == c[p].seenAt;
      assert Vouches(c, b, p);
      DatesFollowReports(self, evs, cs, t, p);
    }
  }

  // `at` is when a beacon last reported p recently, and none did later.
  ghost predicate DatedByLatest(evs: seq<CensusEvent>, p: NodeId, now: real, at: real) {
    && (exists b :: RecentlyReported(evs, b, p, now) && LastReport(evs, b, p).value == at)
    && (forall b | RecentlyReported(evs, b, p, now) :: LastReport(evs, b, p).value <= at)
  }

  lemma DatesFollowReports(self: NodeId, evs: seq<CensusEvent>, cs: seq<Table>, t: nat, p: NodeId)
    requires CensusRun(self, evs, cs) && t < |evs| && evs[t].Age? && p != self && p in cs[t + 1]
    ensures DatedByLatest(evs[..t + 1], p, evs[t].now, cs[t + 1][p].seenAt)
  {
    var c, now, past := cs[t + 1], evs[t].now, evs[..t + 1];
    assert CensusStep(self, cs[t], evs[t], c);
    forall b ensures SourceIsReport(c, past, b, p, now) {
      SourcesFollowReports(self, evs, cs, t + 1, b, p);
      AgedVouch(cs[t], now, c, b, p);
    }
    var b :| b in c[p].sources && c[p].sources[b] == c[p].seenAt;
    assert SourceIsReport(c, past, b, p, now);
    forall d | RecentlyReported(past, d, p, now) ensures LastReport(past, d, p).value <= c[p].seenAt {
      assert SourceIsReport(c, past, d, p, now);
    }
  }

  // What the table says of (b, p) is b's last report of p, while that is recent.
  ghost predicate SourceIsReport(c: Table, evs: seq<CensusEvent>, b: NodeId, p: NodeId, now: real) {
    && (SourceTime(c, b, p).Some? <==> RecentlyReported(evs, b, p, now))
    && (SourceTime(c, b, p).Some? ==> LastReport(evs, b, p) == SourceTime(c, b, p))
  }

  // ---- what is known of a peer ----

  // The endpoint named last, unless none is named.
  function EndpointAfter(ep: string, entries: seq<Entry>, p: NodeId): string
    decreases |entries|
  {
    if entries == [] then ep
    else EndpointAfter(if entries[0].id == p && entries[0].ep != "" then entries[0].ep else ep, entries[1..], p)
  }

  function TopicsNamed(entries: seq<Entry>, p: NodeId): set<int> {
    set e, t | e in entries && e.id == p && t in e.topics :: t
  }

  lemma TopicsSplit(e: Entry, rest: seq<Entry>, p: NodeId)
    ensures TopicsNamed([e] + rest, p) == (if e.id == p then e.topics else {}) + TopicsNamed(rest, p)
  {
    var all := [e] + rest;
    forall t ensures t in TopicsNamed(all, p) <==> (e.id == p && t in e.topics) || t in TopicsNamed(rest, p) {
      if t in TopicsNamed(all, p) {
        var x :| x in all && x.id == p && t in x.topics;
        assert x == e || x in rest;
      }
      if e.id == p && t in e.topics { assert e in all; }
      if t in TopicsNamed(rest, p) {
        var x :| x in rest && x.id == p && t in x.topics;
        assert x in all;
      }
    }
  }

  lemma {:induction false} NothingNamed(entries: seq<Entry>, p: NodeId, ep: string)
    requires !Mentions(entries, p)
    ensures TopicsNamed(entries, p) == {} && EndpointAfter(ep, entries, p) == ep
    decreases |entries|
  {
    if entries != [] {
      assert entries[0] in entries && forall e | e in entries[1..] :: e in entries;
      NothingNamed(entries[1..], p, ep);
    }
  }

  // Whoever a report does not mention stays as it was, and the node itself is never
  // listed.
  lemma {:induction false} ReportLeavesOthers(c: Table, self: NodeId, sender: NodeId, entries: seq<Entry>, now: real,
                                              p: NodeId)
    requires p == self || !Mentions(entries, p)
    ensures var c' := Reported(c, self, sender, entries, now);
            (p in c' <==> p in c) && (p in c ==> c'[p] == c[p])
    decreases |entries|
  {
    if entries != [] {
      assert entries[0] in entries && forall e | e in entries[1..] :: e in entries;
      ReportLeavesOthers(Credited(c, self, sender, entries[0], now), self, sender, entries[1..], now, p);
    }
  }

  function TopicsIn(c: Table, p: NodeId): set<int> { if p in c then c[p].topics else {} }

  function EndpointIn(c: Table, p: NodeId): string { if p in c then c[p].ep else "" }

  // A report adds the topics it names for a peer to those known, moves the endpoint to
  // the last one it names and dates the peer now.
  lemma {:induction false} ReportLearns(c: Table, self: NodeId, sender: NodeId, entries: seq<Entry>, now: real,
                                        p: NodeId)
    requires p != self && Mentions(entries, p)
    ensures var c' := Reported(c, self, sender, entries, now);
            && p in c' && c'[p].seenAt == now
            && c'[p].topics == TopicsIn(c, p) + TopicsNamed(entries, p)
            && c'[p].ep == EndpointAfter(EndpointIn(c, p), entries, p)
    decreases |entries|
  {
    var e, rest := entries[0], entries[1..];
    var c1 := Credited(c, self, sender, e, now);
    assert entries == [e] + rest;
    TopicsSplit(e, rest, p);
    OneLearned(c, self, sender, e, now, p);
    assert Reported(c, self, sender, entries, now) == Reported(c1, self, sender, rest, now);
    if Mentions(rest, p) {
      ReportLearns(c1, self, sender, rest, now, p);
    } else {
      assert e.id == p;
      ReportLeavesOthers(c1, self, sender, rest, now, p);
      NothingNamed(rest, p, EndpointIn(c1, p));
    }
  }

  lemma OneLearned(c: Table, self: NodeId, sender: NodeId, e: Entry, now: real, p: NodeId)
    requires p != self
    ensures var c' := Credited(c, self, sender, e, now);
            && TopicsIn(c', p) == TopicsIn(c, p) + (if e.id == p then e.topics else {})
            && EndpointIn(c', p) == (if e.id == p && e.ep != "" then e.ep else EndpointIn(c, p))
            && (e.id == p ==> p in c' && c'[p].seenAt == now)
  {
  }

  // Aging moves the date of a peer, and neither its endpoint nor its topics.
  lemma AgingForgetsNothing(c: Table, now: real, c': Table, p: NodeId)
    requires AgesTo(c, now, c') && p in c'
    ensures p in c && c'[p].ep == c[p].ep && c'[p].topics == c[p].topics
  {
  }
}
