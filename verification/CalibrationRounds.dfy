/** A whole calibration round: replies of all peers arrive interleaved, late or
    never, waits end or run out, and the resulting trust is what the direct,
    peer-by-peer form computes for the peers that were heard. */
module CalibrationRounds {
  import opened Seqs
  import opened Prototypes
  import opened SwarmNodes
  import opened Calibrations

  // What one round of calibration is about.
  datatype Setting = Setting(self: Id, trust: map<Id, real>, peers: seq<Peer>, samples: seq<Sample>)

  // One peer's conversation. flying: the replies still under way, each once.
  datatype Lane = Lane(table: Pending, flying: set<int>, waiting: bool)

  // scored: the peers whose tables were read, in that order.
  datatype Round = Round(trust: map<Id, real>, lanes: seq<Lane>, scored: seq<nat>)

  datatype Event =
    | Deliver(peer: nat, index: int)
    | Lose(peer: nat, index: int)
    | Finish(peer: nat)
    | GiveUp(peer: nat)

  ghost predicate Distinct(peers: seq<Peer>) {
    forall i, j | 0 <= i < j < |peers| :: peers[i].id != peers[j].id
  }

  function Parts(c: Setting): seq<seq<Vec>> { Chunks(c.samples) }

  function Start(c: Setting): Round {
    var n := |Parts(c)|;
    Round(c.trust,
          seq(|c.peers|, i requires 0 <= i < |c.peers| =>
            if c.peers[i].id == c.self then Lane(Opened(n), {}, false) else Lane(Opened(n), Range(n), true)),
          [])
  }

  predicate Enabled(s: Round, e: Event) {
    && e.peer < |s.lanes|
    && match e
       case Deliver(i, k) => k in s.lanes[i].flying
       case Lose(i, k) => k in s.lanes[i].flying
       case Finish(i) => s.lanes[i].waiting && s.lanes[i].table.done
       case GiveUp(i) => s.lanes[i].waiting
  }

  function ReplyOf(c: Setting, i: nat, k: int): CalibReply
    requires i < |c.peers| && 0 <= k < |Parts(c)|
  {
    CalibReply(i, k, AnswerAll(c.peers[i].answer, Parts(c)[k]))
  }

  // A reply that comes after the wait has ended finds no entry.
  function LaneAfter(c: Setting, l: Lane, e: Event): Lane
    requires e.peer < |c.peers| && l.flying <= Range(|Parts(c)|)
    requires e.Deliver? ==> e.index in l.flying
  {
    match e
    case Deliver(i, k) =>
      Lane(if l.waiting then Filled(l.table, ReplyOf(c, i, k)) else l.table, l.flying - {k}, l.waiting)
    case Lose(i, k) => l.(flying := l.flying - {k})
    case Finish(i) => l.(waiting := false)
    case GiveUp(i) => l.(waiting := false)
  }

  ghost predicate Next(c: Setting, s: Round, e: Event, s': Round) {
    && |s.lanes| == |c.peers| && Enabled(s, e) && s.lanes[e.peer].flying <= Range(|Parts(c)|)
    && s'.lanes == s.lanes[e.peer := LaneAfter(c, s.lanes[e.peer], e)]
    && (if e.Finish?
        then && s'.trust == Scored(s.trust, c.peers[e.peer].id, s.lanes[e.peer].table.labels, c.samples)
             && s'.scored == s.scored + [e.peer]
        else s'.trust == s.trust && s'.scored == s.scored)
  }

  ghost predicate Run(c: Setting, ss: seq<Round>, es: seq<Event>) {
    && |ss| == |es| + 1 && ss[0] == Start(c)
    && forall t: nat | t < |es| :: NextAt(c, ss, es, t)
  }

  ghost predicate NextAt(c: Setting, ss: seq<Round>, es: seq<Event>, t: nat)
    requires t < |es| && t + 1 < |ss|
  {
    Next(c, ss[t], es[t], ss[t + 1])
  }

  // ---- each lane ----

  function Held(p: Pending, n: nat): (s: set<int>)
    requires n <= |p.labels|
    ensures forall k :: k in s <==> 0 <= k < n && p.labels[k].Some?
  {
    if n == 0 then {} else Held(p, n - 1) + if p.labels[n - 1].Some? then {n - 1} else {}
  }

  // While the wait lasts, the replies counted are the positions filled.
  ghost predicate LaneOk(answer: Vec -> Label, chunks: seq<seq<Vec>>, l: Lane) {
    && Truthful(answer, chunks, l.table)
    && l.flying <= Range(|chunks|)
    && (forall k | k in l.flying :: l.table.labels[k].None?)
    && l.table.got == |Held(l.table, |chunks|)|
    && (l.table.done <==> l.table.got >= |chunks|)
  }

  lemma DeliverKeepsLane(answer: Vec -> Label, chunks: seq<seq<Vec>>, l: Lane, r: CalibReply)
    requires LaneOk(answer, chunks, l) && r.index in l.flying && Honest(answer, chunks, r)
    ensures LaneOk(answer, chunks, Lane(Filled(l.table, r), l.flying - {r.index}, l.waiting))
  {
    var p, k := Filled(l.table, r), r.index;
    assert 0 <= k < |chunks| && l.table.labels[k].None?;
    assert p == Pending(l.table.labels[k := Some(r.labels)], l.table.got + 1, l.table.done || l.table.got +
           1 >= |chunks|);
    HeldGrows(l.table, p, |chunks|, k);
  }

  lemma HeldGrows(p: Pending, p': Pending, n: nat, k: nat)
    requires k < n == |p.labels| == |p'.labels| && p.labels[k].None? && p'.labels[k].Some?
    requires forall j | 0 <= j < n && j != k :: p'.labels[j] == p.labels[j]
    ensures |Held(p', n)| == |Held(p, n)| + 1
  {
    forall j ensures j in Held(p', n) <==> j in Held(p, n) + {k} {
      if 0 <= j < n && j != k { assert p'.labels[j] == p.labels[j]; }
    }
    assert Held(p', n) == Held(p, n) + {k};
  }

  lemma DoneMeansFull(answer: Vec -> Label, chunks: seq<seq<Vec>>, l: Lane)
    requires LaneOk(answer, chunks, l) && l.table.done
    ensures Full(l.table.labels)
  {
    SubsetSize(Held(l.table, |chunks|), Range(|chunks|));
    forall k | 0 <= k < |chunks| ensures l.table.labels[k].Some? {
      assert k in Range(|chunks|);
    }
  }

  lemma OpenLane(answer: Vec -> Label, chunks: seq<seq<Vec>>, flying: set<int>, waiting: bool)
    requires chunks != [] && flying <= Range(|chunks|)
    ensures LaneOk(answer, chunks, Lane(Opened(|chunks|), flying, waiting))
  {
    assert Held(Opened(|chunks|), |chunks|) == {};
  }

  // ---- trust, peer by peer ----

  function Pick(peers: seq<Peer>, order: seq<nat>): (picked: seq<Peer>)
    requires forall i | i in order :: i < |peers|
    ensures |picked| == |order|
  {
    seq(|order|, k requires 0 <= k < |order| => assert order[k] in order; peers[order[k]])
  }

  lemma PickSnoc(peers: seq<Peer>, order: seq<nat>, last: nat)
    requires last < |peers| && forall i | i in order :: i < |peers|
    ensures Pick(peers, order + [last]) == Pick(peers, order) + [peers[last]]
  {
  }

  lemma {:induction false} CalibratedAllSnoc(self: Id, trust: map<Id, real>, dir: seq<Peer>, peer: Peer,
                                             samples: seq<Sample>)
    requires samples != [] && peer.id != self
    ensures CalibratedAll(self, trust, dir + [peer], samples)
         == Calibrated(CalibratedAll(self, trust, dir, samples), peer.id, Answers(peer.answer, samples), samples)
    decreases |dir|
  {
    if dir == [] {
      assert dir + [peer] == [peer] && [peer][1..] == [];
    } else {
      var first := dir[0];
      var next := if first.id == self then trust
                  else Calibrated(trust, first.id, Answers(first.answer, samples), samples);
      assert (dir + [peer])[1..] == dir[1..] + [peer];
      CalibratedAllSnoc(self, next, dir[1..], peer, samples);
    }
  }

  // A peer's new trust depends on its own answers alone.
  lemma {:induction false} EachOnItsOwn(self: Id, trust: map<Id, real>, dir: seq<Peer>, samples: seq<Sample>, i: nat)
    requires Distinct(dir) && i < |dir| && dir[i].id != self && samples != []
    ensures SameAt(CalibratedAll(self, trust, dir, samples),
                   Calibrated(trust, dir[i].id, Answers(dir[i].answer, samples), samples), dir[i].id)
    decreases |dir|
  {
    var first := dir[0];
    var next := if first.id == self then trust
                else Calibrated(trust, first.id, Answers(first.answer, samples), samples);
    if i == 0 {
      OthersUntouched(self, next, dir[1..], samples, first.id);
    } else {
      assert dir[1..][i - 1] == dir[i];
      EachOnItsOwn(self, next, dir[1..], samples, i - 1);
      assert SameAt(next, trust, dir[i].id);
    }
  }

  // ---- every reachable state ----

  ghost predicate ScoredOk(c: Setting, s: Round) {
    && (forall i | i in s.scored :: i < |c.peers| && i < |s.lanes| && !s.lanes[i].waiting && c.peers[i].id != c.self)
    && (forall a, b | 0 <= a < b < |s.scored| :: s.scored[a] != s.scored[b])
  }

  ghost predicate RoundOk(c: Setting, s: Round) {
    && |s.lanes| == |c.peers|
    && (forall i | 0 <= i < |s.lanes| :: LaneOk(c.peers[i].answer, Parts(c), s.lanes[i]))
    && (forall i | 0 <= i < |s.lanes| && s.lanes[i].waiting :: c.peers[i].id != c.self)
    && ScoredOk(c, s)
    && s.trust == CalibratedAll(c.self, c.trust, Pick(c.peers, s.scored), c.samples)
  }

  lemma StartOk(c: Setting)
    requires c.samples != []
    ensures RoundOk(c, Start(c))
  {
    forall i | 0 <= i < |c.peers| ensures LaneOk(c.peers[i].answer, Parts(c), Start(c).lanes[i]) {
      OpenLane(c.peers[i].answer, Parts(c), Start(c).lanes[i].flying, Start(c).lanes[i].waiting);
    }
  }

  lemma LaneStep(c: Setting, s: Round, e: Event, s': Round)
    requires RoundOk(c, s) && Next(c, s, e, s')
    ensures forall i | 0 <= i < |s'.lanes| :: LaneOk(c.peers[i].answer, Parts(c), s'.lanes[i])
  {
    var l := s.lanes[e.peer];
    assert LaneOk(c.peers[e.peer].answer, Parts(c), l);
    if e.Deliver? && l.waiting {
      var r := ReplyOf(c, e.peer, e.index);
      assert Honest(c.peers[e.peer].answer, Parts(c), r);
      DeliverKeepsLane(c.peers[e.peer].answer, Parts(c), l, r);
    }
    forall i | 0 <= i < |s'.lanes| ensures LaneOk(c.peers[i].answer, Parts(c), s'.lanes[i]) {
      if i != e.peer { assert s'.lanes[i] == s.lanes[i]; }
    }
  }

  lemma FinishScores(c: Setting, s: Round, i: nat)
    requires RoundOk(c, s) && i < |s.lanes| && s.lanes[i].waiting && s.lanes[i].table.done && c.samples != []
    ensures Scored(s.trust, c.peers[i].id, s.lanes[i].table.labels, c.samples)
         == CalibratedAll(c.self, c.trust, Pick(c.peers, s.scored) + [c.peers[i]], c.samples)
  {
    var peer, p := c.peers[i], s.lanes[i].table;
    assert LaneOk(peer.answer, Parts(c), s.lanes[i]);
    DoneMeansFull(peer.answer, Parts(c), s.lanes[i]);
    FlatExactly(peer.answer, Parts(c), p);
    DirectAnswers(peer.answer, c.samples);
    CalibratedAllSnoc(c.self, c.trust, Pick(c.peers, s.scored), peer, c.samples);
  }

  lemma TrustStep(c: Setting, s: Round, e: Event, s': Round)
    requires RoundOk(c, s) && Next(c, s, e, s') && c.samples != [] && ScoredOk(c, s')
    ensures s'.trust == CalibratedAll(c.self, c.trust, Pick(c.peers, s'.scored), c.samples)
  {
    if e.Finish? {
      FinishScores(c, s, e.peer);
      PickSnoc(c.peers, s.scored, e.peer);
    }
  }

  lemma StepOk(c: Setting, s: Round, e: Event, s': Round)
    requires RoundOk(c, s) && Next(c, s, e, s') && c.samples != []
    ensures RoundOk(c, s')
  {
    LaneStep(c, s, e, s');
    ScoredStep(c, s, e, s');
    TrustStep(c, s, e, s');
  }

  lemma ScoredStep(c: Setting, s: Round, e: Event, s': Round)
    requires RoundOk(c, s) && Next(c, s, e, s')
    ensures ScoredOk(c, s')
    ensures forall i | 0 <= i < |s'.lanes| && s'.lanes[i].waiting :: c.peers[i].id != c.self
  {
    forall i | i in s'.scored
      ensures i < |c.peers| && i < |s'.lanes| && !s'.lanes[i].waiting && c.peers[i].id != c.self
    {
      if e.Finish? && i == e.peer {
        assert s.lanes[i].waiting;
      } else {
        assert i in s.scored;
      }
    }
    if e.Finish? {
      assert e.peer !in s.scored;
    }
  }

  lemma StepAt(c: Setting, ss: seq<Round>, es: seq<Event>, t: nat)
    requires t < |es| && t + 1 < |ss| && NextAt(c, ss, es, t) && RoundOk(c, ss[t]) && c.samples != []
    ensures RoundOk(c, ss[t + 1])
  {
    StepOk(c, ss[t], es[t], ss[t + 1]);
  }

  lemma {:induction false} RunOk(c: Setting, ss: seq<Round>, es: seq<Event>, t: nat)
    requires Run(c, ss, es) && t <= |es| && c.samples != []
    ensures RoundOk(c, ss[t])
  {
    if t == 0 {
      StartOk(c);
    } else {
      var prev := t - 1;
      RunOk(c, ss, es, prev);
      assert NextAt(c, ss, es, prev);
      StepAt(c, ss, es, prev);
    }
  }

  // ---- the networked form refines the direct one ----

  // At any point of any run each peer scored so far has exactly the trust the
  // direct form gives it, and nobody else's trust has moved.
  lemma RoundRefinesDirect(c: Setting, ss: seq<Round>, es: seq<Event>, t: nat, id: Id)
    requires Run(c, ss, es) && t <= |es| && c.samples != [] && Distinct(c.peers)
    ensures if exists i :: i in ss[t].scored && i < |c.peers| && c.peers[i].id == id
            then SameAt(ss[t].trust, CalibratedAll(c.self, c.trust, c.peers, c.samples), id)
            else SameAt(ss[t].trust, c.trust, id)
  {
    RunOk(c, ss, es, t);
    var s := ss[t];
    var heard := Pick(c.peers, s.scored);
    PickDistinct(c.peers, s.scored);
    if i :| i in s.scored && i < |c.peers| && c.peers[i].id == id {
      var k :| 0 <= k < |s.scored| && s.scored[k] == i;
      assert heard[k] == c.peers[i];
      EachOnItsOwn(c.self, c.trust, heard, c.samples, k);
      EachOnItsOwn(c.self, c.trust, c.peers, c.samples, i);
    } else {
      forall k | 0 <= k < |heard| ensures heard[k].id != id {
        assert s.scored[k] in s.scored;
      }
      OthersUntouched(c.self, c.trust, heard, c.samples, id);
    }
  }

  lemma PickDistinct(peers: seq<Peer>, order: seq<nat>)
    requires Distinct(peers) && forall i | i in order :: i < |peers|
    requires forall a, b | 0 <= a < b < |order| :: order[a] != order[b]
    ensures Distinct(Pick(peers, order))
  {
    forall a, b | 0 <= a < b < |order| ensures Pick(peers, order)[a].id != Pick(peers, order)[b].id {
      assert order[a] in order && order[b] in order;
      assert if order[a] < order[b] then peers[order[a]].id != peers[order[b]].id
             else peers[order[b]].id != peers[order[a]].id;
    }
  }

  // Once every other peer was heard the whole trust map is the direct result,
  // whatever the interleaving was.
  lemma AllHeardIsDirect(c: Setting, ss: seq<Round>, es: seq<Event>, t: nat)
    requires Run(c, ss, es) && t <= |es| && c.samples != [] && Distinct(c.peers)
    requires forall i | 0 <= i < |c.peers| && c.peers[i].id != c.self :: i in ss[t].scored
    ensures ss[t].trust == CalibratedAll(c.self, c.trust, c.peers, c.samples)
  {
    var direct := CalibratedAll(c.self, c.trust, c.peers, c.samples);
    RunOk(c, ss, es, t);
    forall id ensures SameAt(ss[t].trust, direct, id) {
      RoundRefinesDirect(c, ss, es, t, id);
      if !exists i :: i in ss[t].scored && i < |c.peers| && c.peers[i].id == id {
        OthersUntouched(c.self, c.trust, c.peers, c.samples, id);
      }
    }
    SameEverywhere(ss[t].trust, direct);
  }

  lemma SameEverywhere(a: map<Id, real>, b: map<Id, real>)
    requires forall id :: SameAt(a, b, id)
    ensures a == b
  {
    forall id ensures id in a <==> id in b { assert SameAt(a, b, id); }
    forall id | id in a ensures a[id] == b[id] { assert SameAt(a, b, id); }
  }
}
