/** Safety of a SwarmNode over whole runs of local samples, gossip, anonymous
    corrections and calibrations, whatever the senders do. */
module NodeRuns {
  import opened Seqs
  import opened Prototypes
  import opened PrototypeModels
  import opened PruneTheorems
  import opened SwarmNodes

  datatype Event =
    | Sampled(x: Vec, y: int, held: bool)
    | Gossiped(msg: Message)
    | Corrected(cx: Vec, cy: int, sender: Id)
    | Recalibrated(directory: seq<Peer>)

  ghost predicate Step(cfg: Config, s: NodeState, e: Event, s': NodeState) {
    match e
    case Sampled(x, y, held) => Observes(cfg, s, x, y, held, s')
    case Gossiped(msg) => Receives(cfg, s, msg, s')
    case Corrected(x, y, sender) => exists reply :: Submits(cfg, s, x, y, sender, s', reply)
    case Recalibrated(directory) => s' == s.(trust := CalibratedAll(cfg.id, s.trust, directory, s.holdout))
  }

  ghost predicate Run(cfg: Config, evs: seq<Event>, ss: seq<NodeState>) {
    && |ss| == |evs| + 1 && ss[0] == INITIAL
    && forall t: nat | t < |evs| :: StepAt(cfg, evs, ss, t)
  }

  ghost predicate StepAt(cfg: Config, evs: seq<Event>, ss: seq<NodeState>, t: nat)
    requires t < |evs| && t + 1 < |ss|
  {
    Step(cfg, ss[t], evs[t], ss[t + 1])
  }

  lemma RunSplit(cfg: Config, evs: seq<Event>, ss: seq<NodeState>, t: nat)
    requires Run(cfg, evs, ss) && t < |evs|
    ensures Run(cfg, evs[..t], ss[..t + 1]) && Step(cfg, ss[t], evs[t], ss[t + 1])
    ensures ss[..t + 1][t] == ss[t] && evs[..t + 1] == evs[..t] + [evs[t]]
  {
    assert StepAt(cfg, evs, ss, t);
    var before, states := evs[..t], ss[..t + 1];
    forall u: nat | u < |before| ensures StepAt(cfg, before, states, u) {
      assert StepAt(cfg, evs, ss, u);
    }
  }

  // What one gossip or correction step does to the state around the merge.
  ghost predicate Attempts(cfg: Config, s: NodeState, e: Event, batch: seq<Proto>, q: seq<Claim>, t: real, c: Union,
                           s': NodeState) {
    && !Unmergeable(cfg, s, batch) && Merges(cfg.radii, cfg.budget, s.protos, batch, t, c)
    && match e
       case Gossiped(msg) =>
         && !Ignores(s, msg) && t == TrustOf(s.trust, msg.sender)
         && Screened(cfg, s, msg) == (batch, s.(quarantine := q))
         && s' == Judge(cfg, s.(quarantine := q), c, msg.sender, t)
       case Corrected(x, y, sender) =>
         && batch == [Proto(x, y, 1.0)] && t == TRUST_INIT
         && Corroborated(s.quarantine, batch[0], sender, cfg.corroborationRadius)
         && q == Buffer(s.quarantine, batch[0], sender)
         && s' == JudgeClaim(cfg, s.(quarantine := q), c).0
       case _ => false
  }

  // Every step is a sample, a calibration, a change of the quarantine alone, or
  // an attempted merge.
  lemma StepKinds(cfg: Config, s: NodeState, e: Event, s': NodeState)
    requires Step(cfg, s, e, s') && (e.Gossiped? || e.Corrected?)
    ensures (exists q :: s' == s.(quarantine := q))
         || (exists batch, q, t, c :: Attempts(cfg, s, e, batch, q, t, c, s'))
  {
    match e {
      case Gossiped(msg) =>
        if !Ignores(s, msg) {
          var (batch, s1) := Screened(cfg, s, msg);
          var t := TrustOf(s.trust, msg.sender);
          if batch != [] && !Unmergeable(cfg, s1, batch) {
            var c :| Merges(cfg.radii, cfg.budget, s1.protos, batch, t, c) && s' == Judge(cfg, s1, c, msg.sender, t);
            assert Attempts(cfg, s, e, batch, s1.quarantine, t, c, s');
          } else {
            assert s' == s.(quarantine := s1.quarantine);
          }
        } else {
          assert s' == s.(quarantine := s.quarantine);
        }
      case Corrected(x, y, sender) =>
        var p := Proto(x, y, 1.0);
        var q := Buffer(s.quarantine, p, sender);
        var s1 := s.(quarantine := q);
        var reply :| Submits(cfg, s, x, y, sender, s', reply);
        if Corroborated(s.quarantine, p, sender, cfg.corroborationRadius) && !Unmergeable(cfg, s1, [p]) {
          var c :| Merges(cfg.radii, cfg.budget, s1.protos, [p], TRUST_INIT, c) &&
            (s', reply) == JudgeClaim(cfg, s1, c);
          assert Attempts(cfg, s, e, [p], q, TRUST_INIT, c, s');
        } else {
          assert s' == s.(quarantine := q);
        }
    }
  }

  // ---- where labels come from ----

  ghost predicate ObservedIn(evs: seq<Event>, l: int) {
    exists e :: e in evs && e.Sampled? && e.y == l
  }

  ghost predicate ClaimedIn(evs: seq<Event>, p: Proto, id: Id) {
    exists e :: e in evs &&
      match e
      case Gossiped(msg) => msg.sender == id && p in msg.payload
      case Corrected(x, y, sender) => sender == id && p == Proto(x, y, 1.0)
      case _ => false
  }

  // id claimed label p.lbl in p's region.
  ghost predicate Vouches(evs: seq<Event>, p: Proto, radius: real, id: Id) {
    exists q :: ClaimedIn(evs, q, id) && q.lbl == p.lbl && (q == p || Near(q.vector, p.vector, radius))
  }

  ghost predicate QuorumAround(evs: seq<Event>, p: Proto, voters: set<Id>, radius: real) {
    |voters| >= CORROBORATION && forall id | id in voters :: Vouches(evs, p, radius, id)
  }

  // At least CORROBORATION distinct senders agreed on one prototype of label l.
  ghost predicate QuorumFor(evs: seq<Event>, l: int, radius: real) {
    exists p: Proto, voters :: p.lbl == l && QuorumAround(evs, p, voters, radius)
  }

  ghost predicate Sourced(cfg: Config, evs: seq<Event>, l: int) {
    ObservedIn(evs, l) || QuorumFor(evs, l, cfg.corroborationRadius)
  }

  ghost predicate Traceable(cfg: Config, evs: seq<Event>, s: NodeState) {
    && (forall h | h in s.holdout :: ObservedIn(evs, h.y))
    && (forall c | c in s.quarantine :: ClaimedIn(evs, c.proto, c.sender))
    && (forall p | p in s.protos :: Sourced(cfg, evs, p.lbl))
  }

  lemma MoreEvents(cfg: Config, evs: seq<Event>, e: Event, s: NodeState)
    requires Traceable(cfg, evs, s)
    ensures Traceable(cfg, evs + [e], s)
  {
    var more := evs + [e];
    assert forall d | d in evs :: d in more;
    forall p, id | ClaimedIn(evs, p, id) ensures ClaimedIn(more, p, id) {
    }
    forall p, r, id | Vouches(evs, p, r, id) ensures Vouches(more, p, r, id) {
    }
    forall l | QuorumFor(evs, l, cfg.corroborationRadius) ensures QuorumFor(more, l, cfg.corroborationRadius) {
      var p: Proto, voters :| p.lbl == l && QuorumAround(evs, p, voters, cfg.corroborationRadius);
      assert QuorumAround(more, p, voters, cfg.corroborationRadius);
    }
  }

  ghost predicate AllClaimed(evs: seq<Event>, q: seq<Claim>) {
    forall c | c in q :: ClaimedIn(evs, c.proto, c.sender)
  }

  lemma CorroboratedHasQuorum(evs: seq<Event>, q: seq<Claim>, p: Proto, sender: Id, radius: real)
    requires AllClaimed(evs, q) && ClaimedIn(evs, p, sender) && Corroborated(q, p, sender, radius)
    ensures QuorumFor(evs, p.lbl, radius)
  {
    var voters := Backers(q, p, sender, p.lbl, radius);
    forall id | id in voters ensures Vouches(evs, p, radius, id) {
      if id != sender {
        var c :| c in q && c.proto.lbl == p.lbl && Near(c.proto.vector, p.vector, radius) && c.sender == id;
        assert ClaimedIn(evs, c.proto, id);
      }
    }
    assert QuorumAround(evs, p, voters, radius);
  }

  lemma {:induction false} PromotedHaveQuorums(evs: seq<Event>, q: seq<Claim>, ps: seq<Proto>, sender: Id, radius: real)
    requires AllClaimed(evs, q) && forall p | p in ps :: ClaimedIn(evs, p, sender)
    ensures var (promoted, q') := CorroborateAll(q, ps, sender, radius);
            AllClaimed(evs, q') && forall p | p in promoted :: p in ps && QuorumFor(evs, p.lbl, radius)
    decreases |ps|
  {
    if ps != [] {
      assert ps[0] in ps;
      LastNMembers(QUARANTINE_SIZE, q + [Claim(ps[0], sender)]);
      assert AllClaimed(evs, Buffer(q, ps[0], sender));
      PromotedHaveQuorums(evs, Buffer(q, ps[0], sender), ps[1..], sender, radius);
      if Corroborated(q, ps[0], sender, radius) {
        CorroboratedHasQuorum(evs, q, ps[0], sender, radius);
      }
    }
  }

  lemma MergeLabels(radii: Radii, budget: nat, ps: seq<Proto>, batch: seq<Proto>, trust: real, c: Union)
    requires Merges(radii, budget, ps, batch, trust, c)
    ensures Labels(c.protos) <= Labels(ps) + Labels(batch)
  {
    FoldMembers(radii, trust, Keys(ps), Union(ps, 0, 0), batch);
    PruneSize(UnionOf(radii, trust, ps, batch).protos, budget, c.protos);
  }

  lemma {:induction false} FoldMembers(radii: Radii, trust: real, seen: set<Key>, m: Union, batch: seq<Proto>)
    ensures forall p | p in UnionFold(radii, trust, seen, m, batch).protos :: p in m.protos || p in batch
    decreases |batch|
  {
    if batch != [] {
      FoldMembers(radii, trust, seen, UnionOne(radii, trust, seen, m, batch[0]), batch[1..]);
    }
  }

  // Everything a step may commit or buffer is accounted for.
  lemma StepTraceable(cfg: Config, evs: seq<Event>, s: NodeState, e: Event, s': NodeState)
    requires Traceable(cfg, evs, s) && Step(cfg, s, e, s')
    ensures Traceable(cfg, evs + [e], s')
  {
    var more := evs + [e];
    MoreEvents(cfg, evs, e, s);
    assert e in more;
    match e {
      case Sampled(x, y, held) =>
        assert ObservedIn(more, y);
        SampleTraceable(cfg, more, s, x, y, held, s');
      case Recalibrated(_) =>
      case Gossiped(msg) =>
        assert forall p | p in msg.payload :: ClaimedIn(more, p, msg.sender);
        GossipTraceable(cfg, more, s, msg, s');
      case Corrected(x, y, sender) =>
        assert ClaimedIn(more, Proto(x, y, 1.0), sender);
        CorrectionTraceable(cfg, more, s, x, y, sender, s');
    }
  }

  lemma SampleTraceable(cfg: Config, evs: seq<Event>, s: NodeState, x: Vec, y: int, held: bool, s': NodeState)
    requires Traceable(cfg, evs, s) && ObservedIn(evs, y) && Observes(cfg, s, x, y, held, s')
    ensures Traceable(cfg, evs, s')
  {
    if held {
      LastNMembers(HOLDOUT_SIZE, s.holdout + [Sample(x, y)]);
    } else {
      LearnLabels(cfg.radii, cfg.budget, s.protos, x, y, s'.protos);
      LabelsTraceable(cfg, evs, s.protos, y, s'.protos);
    }
  }

  lemma LearnLabels(radii: Radii, budget: nat, ps: seq<Proto>, x: Vec, l: int, qs: seq<Proto>)
    requires Learns(radii, budget, ps, x, l, qs)
    ensures Labels(qs) <= Labels(ps) + {l}
  {
    var grown := ps + [Proto(x, l, 1.0)];
    if Comparable(ps, x, l) {
      if exists i :: AbsorbsAt(radii, budget, ps, x, l, i) {
        var i :| AbsorbsAt(radii, budget, ps, x, l, i) && qs == ps[i := Absorb(ps[i], x)];
        assert forall p | p in qs :: p in ps || p == Absorb(ps[i], x);
      } else if !PruneRaises(grown, budget) {
        PruneSize(grown, budget, qs);
      }
    }
  }

  lemma LabelsTraceable(cfg: Config, evs: seq<Event>, ps: seq<Proto>, l: int, qs: seq<Proto>)
    requires forall p | p in ps :: Sourced(cfg, evs, p.lbl)
    requires Sourced(cfg, evs, l) && Labels(qs) <= Labels(ps) + {l}
    ensures forall q | q in qs :: Sourced(cfg, evs, q.lbl)
  {
    forall q | q in qs ensures Sourced(cfg, evs, q.lbl) {
      assert q.lbl in Labels(qs);
    }
  }

  // Committed or rolled back, a merge of sourced prototypes brings in no other label.
  lemma MergeTraceable(cfg: Config, evs: seq<Event>, s: NodeState, batch: seq<Proto>, t: real, c: Union, s': NodeState)
    requires Traceable(cfg, evs, s) && Merges(cfg.radii, cfg.budget, s.protos, batch, t, c)
    requires forall p | p in batch :: Sourced(cfg, evs, p.lbl)
    requires s'.holdout == s.holdout && s'.quarantine == s.quarantine &&
             (s'.protos == s.protos || s'.protos == c.protos)
    ensures Traceable(cfg, evs, s')
  {
    MergeLabels(cfg.radii, cfg.budget, s.protos, batch, t, c);
    forall q | q in c.protos ensures Sourced(cfg, evs, q.lbl) {
      assert q.lbl in Labels(c.protos);
    }
  }

  lemma ScreenedTraceable(cfg: Config, evs: seq<Event>, s: NodeState, msg: Message)
    requires Traceable(cfg, evs, s)
    requires forall p | p in msg.payload :: ClaimedIn(evs, p, msg.sender)
    ensures Traceable(cfg, evs, Screened(cfg, s, msg).1)
    ensures forall p | p in Screened(cfg, s, msg).0 :: Sourced(cfg, evs, p.lbl)
  {
    var known := HoldoutLabels(s.holdout);
    var unknown := Filter(UnknownIn(known), msg.payload);
    PromotedHaveQuorums(evs, s.quarantine, unknown, msg.sender, cfg.corroborationRadius);
    forall p | p in Screened(cfg, s, msg).0 ensures Sourced(cfg, evs, p.lbl) {
      if p in Filter(KnownIn(known), msg.payload) {
        var h :| h in s.holdout && h.y == p.lbl;
      }
    }
  }

  lemma GossipTraceable(cfg: Config, evs: seq<Event>, s: NodeState, msg: Message, s': NodeState)
    requires Traceable(cfg, evs, s) && Receives(cfg, s, msg, s')
    requires forall p | p in msg.payload :: ClaimedIn(evs, p, msg.sender)
    ensures Traceable(cfg, evs, s')
  {
    if !Ignores(s, msg) {
      var (batch, s1) := Screened(cfg, s, msg);
      ScreenedTraceable(cfg, evs, s, msg);
      if batch != [] {
        JudgedTraceable(cfg, evs, s1, batch, msg.sender, TrustOf(s.trust, msg.sender), s');
      }
    }
  }

  lemma JudgedTraceable(cfg: Config, evs: seq<Event>, s: NodeState, batch: seq<Proto>, sender: Id, t: real,
                        s': NodeState)
    requires Traceable(cfg, evs, s) && forall p | p in batch :: Sourced(cfg, evs, p.lbl)
    requires MergeJudged(cfg, s, batch, sender, t, s')
    ensures Traceable(cfg, evs, s')
  {
    if !Unmergeable(cfg, s, batch) {
      var c :| Merges(cfg.radii, cfg.budget, s.protos, batch, t, c) && s' == Judge(cfg, s, c, sender, t);
      MergeTraceable(cfg, evs, s, batch, t, c, s');
    }
  }

  lemma BufferTraceable(cfg: Config, evs: seq<Event>, s: NodeState, p: Proto, sender: Id)
    requires Traceable(cfg, evs, s) && ClaimedIn(evs, p, sender)
    ensures Traceable(cfg, evs, s.(quarantine := Buffer(s.quarantine, p, sender)))
  {
    LastNMembers(QUARANTINE_SIZE, s.quarantine + [Claim(p, sender)]);
  }

  lemma ClaimTraceable(cfg: Config, evs: seq<Event>, s: NodeState, p: Proto, s': NodeState, reply: Reply)
    requires Traceable(cfg, evs, s) && Sourced(cfg, evs, p.lbl) && ClaimJudged(cfg, s, p, s', reply)
    ensures Traceable(cfg, evs, s')
  {
    if !Unmergeable(cfg, s, [p]) {
      var c :| Merges(cfg.radii, cfg.budget, s.protos, [p], TRUST_INIT, c) && (s', reply) == JudgeClaim(cfg, s, c);
      MergeTraceable(cfg, evs, s, [p], TRUST_INIT, c, s');
    }
  }

  lemma CorrectionTraceable(cfg: Config, evs: seq<Event>, s: NodeState, x: Vec, y: int, sender: Id, s': NodeState)
    requires Traceable(cfg, evs, s) && ClaimedIn(evs, Proto(x, y, 1.0), sender)
    requires exists reply :: Submits(cfg, s, x, y, sender, s', reply)
    ensures Traceable(cfg, evs, s')
  {
    var p := Proto(x, y, 1.0);
    var reply :| Submits(cfg, s, x, y, sender, s', reply);
    BufferTraceable(cfg, evs, s, p, sender);
    if Corroborated(s.quarantine, p, sender, cfg.corroborationRadius) {
      CorroboratedHasQuorum(evs, s.quarantine, p, sender, cfg.corroborationRadius);
      ClaimTraceable(cfg, evs, s.(quarantine := Buffer(s.quarantine, p, sender)), p, s', reply);
    }
  }

  // In every run each label in the model was observed locally or backed by a
  // quorum of distinct senders around one prototype.
  lemma {:induction false} EveryLabelIsSourced(cfg: Config, evs: seq<Event>, ss: seq<NodeState>, t: nat)
    requires Run(cfg, evs, ss) && t <= |evs|
    ensures Traceable(cfg, evs[..t], ss[t])
  {
    if t > 0 {
      EveryLabelIsSourced(cfg, evs, ss, t - 1);
      RunSplit(cfg, evs, ss, t - 1);
      StepTraceable(cfg, evs[..t - 1], ss[t - 1], evs[t - 1], ss[t]);
    }
  }

  // So fewer than CORROBORATION colluders never introduce a label of their own.
  lemma ColludersCannotIntroduceALabel(cfg: Config, evs: seq<Event>, ss: seq<NodeState>, l: int, colluders: set<Id>)
    requires Run(cfg, evs, ss) && |colluders| < CORROBORATION
    requires !ObservedIn(evs, l)
    requires forall p, id | ClaimedIn(evs, p, id) && p.lbl == l :: id in colluders
    ensures forall t | 0 <= t <= |evs| :: l !in Labels(ss[t].protos)
  {
    forall t | 0 <= t <= |evs| ensures l !in Labels(ss[t].protos) {
      var prior := evs[..t];
      assert forall e | e in prior :: e in evs;
      EveryLabelIsSourced(cfg, evs, ss, t);
      if QuorumFor(prior, l, cfg.corroborationRadius) {
        var p: Proto, voters :| p.lbl == l && QuorumAround(prior, p, voters, cfg.corroborationRadius);
        forall id | id in voters ensures id in colluders {
          var q :| ClaimedIn(prior, q, id) && q.lbl == l;
          assert ClaimedIn(evs, q, id);
        }
        SubsetSize(voters, colluders);
        assert false;
      }
      assert !Sourced(cfg, prior, l);
    }
  }
}
