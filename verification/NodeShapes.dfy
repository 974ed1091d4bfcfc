/** Which vector shapes get into a node's model. A node learns from a stream of one
    dimension, but gossip and corrections may carry any. */
module NodeShapes {
  import opened Seqs
  import opened Prototypes
  import opened PrototypeModels
  import opened PruneTheorems
  import opened MergeTheorems
  import opened SwarmNodes
  import opened NodeRuns

  // Within the budget and in the node's own vector space.
  ghost predicate Fits(cfg: Config, dim: nat, ps: seq<Proto>) {
    OfDim(ps, dim) && |ps| <= cfg.budget
  }

  ghost predicate OwnHoldout(dim: nat, holdout: seq<Sample>) {
    forall h | h in holdout :: |h.x| == dim
  }

  ghost predicate OwnStream(dim: nat, evs: seq<Event>) {
    forall e | e in evs && e.Sampled? :: |e.x| == dim
  }

  // ---- one merge ----

  // The batch brings a foreign shape in: the model is empty, so nothing sets a
  // shape, and the holdout is empty too or combines with the newcomer.
  ghost predicate Opens(cfg: Config, dim: nat, s: NodeState, batch: seq<Proto>, t: real) {
    && s.protos == [] && batch != [] && cfg.budget > 0
    && |batch[0].vector| != dim && (s.holdout == [] || Broadcasts(|batch[0].vector|, dim))
    && var u := UnionOf(cfg.radii, t, [], batch); u.conflicts <= u.accepted
  }

  lemma FirstShapeSets(radii: Radii, t: real, batch: seq<Proto>)
    requires batch != []
    ensures var u := UnionOf(radii, t, [], batch);
            u.protos != [] && OfDim(u.protos, |batch[0].vector|) && u.accepted >= 1
  {
    var m := Union([], 0, 0);
    var m' := UnionOne(radii, t, {}, m, batch[0]);
    assert Keys([]) == {};
    assert Filter(ClearOf(batch[0], radii.conflict), []) + [batch[0]] == [batch[0]];
    assert m'.protos == [batch[0]];
    UnionMembers(radii, t, {}, m', batch[1..]);
  }

  lemma LaterShapeStays(radii: Radii, t: real, ps: seq<Proto>, batch: seq<Proto>, dim: nat)
    requires ps != [] && OfDim(ps, dim)
    ensures var u := UnionOf(radii, t, ps, batch); u.protos != [] && OfDim(u.protos, dim)
  {
    assert ps[0] in ps;
    UnionMembers(radii, t, Keys(ps), Union(ps, 0, 0), batch);
    var u := UnionOf(radii, t, ps, batch);
    assert u.protos[0] in u.protos;
  }

  lemma OwnIsMergeable(cfg: Config, dim: nat, s: NodeState, batch: seq<Proto>)
    requires Fits(cfg, dim, s.protos) && OwnHoldout(dim, s.holdout)
    ensures !Unmergeable(cfg, s, batch)
  {
    assert s.protos != [] ==> s.protos[0] in s.protos;
    assert s.holdout != [] ==> s.holdout[0] in s.holdout;
  }

  // The shape a candidate has, and when its score can be computed.
  lemma CandidateShape(cfg: Config, dim: nat, s: NodeState, batch: seq<Proto>, t: real, c: Union)
    requires Fits(cfg, dim, s.protos) && OwnHoldout(dim, s.holdout) && batch != []
    requires Merges(cfg.radii, cfg.budget, s.protos, batch, t, c)
    ensures |c.protos| <= cfg.budget && (c.protos == [] <==> cfg.budget == 0)
    ensures OfDim(c.protos, if s.protos == [] then |batch[0].vector| else dim)
    ensures s.protos == [] ==> c.accepted >= 1
  {
    if s.protos == [] {
      FirstShapeSets(cfg.radii, t, batch);
    } else {
      LaterShapeStays(cfg.radii, t, s.protos, batch, dim);
    }
    PruneSize(UnionOf(cfg.radii, t, s.protos, batch).protos, cfg.budget, c.protos);
  }

  lemma ScorableExactly(ps: seq<Proto>, d: nat, holdout: seq<Sample>, dim: nat)
    requires OfDim(ps, d) && OwnHoldout(dim, holdout)
    ensures Scorable(ps, holdout) <==> holdout == [] || ps == [] || Broadcasts(d, dim)
  {
    assert ps != [] ==> ps[0] in ps;
    assert holdout != [] ==> holdout[0] in holdout;
  }

  // Whether a candidate is committed, and with it a foreign shape.
  ghost predicate Committed(s: NodeState, c: Union) {
    Scorable(c.protos, s.holdout) && !Refused(s, c) && c.accepted > 0
  }

  lemma CommitShape(cfg: Config, dim: nat, s: NodeState, batch: seq<Proto>, t: real, c: Union)
    requires Fits(cfg, dim, s.protos) && OwnHoldout(dim, s.holdout) && batch != []
    requires Merges(cfg.radii, cfg.budget, s.protos, batch, t, c)
    ensures Committed(s, c) && !Fits(cfg, dim, c.protos) <==> Opens(cfg, dim, s, batch, t)
  {
    CandidateShape(cfg, dim, s, batch, t, c);
    if s.protos == [] {
      ScorableExactly(c.protos, |batch[0].vector|, s.holdout, dim);
      assert !Degraded(s, c);
      assert c.protos != [] ==> c.protos[0] in c.protos;
    }
  }

  lemma MergeShape(cfg: Config, dim: nat, s: NodeState, batch: seq<Proto>, sender: Id, t: real, s': NodeState)
    requires Fits(cfg, dim, s.protos) && OwnHoldout(dim, s.holdout) && batch != []
    requires MergeJudged(cfg, s, batch, sender, t, s')
    ensures Fits(cfg, dim, s'.protos) <==> !Opens(cfg, dim, s, batch, t)
    ensures s'.holdout == s.holdout && (s.protos != [] ==> s'.protos != [])
  {
    OwnIsMergeable(cfg, dim, s, batch);
    var c :| Merges(cfg.radii, cfg.budget, s.protos, batch, t, c) && s' == Judge(cfg, s, c, sender, t);
    CandidateShape(cfg, dim, s, batch, t, c);
    CommitShape(cfg, dim, s, batch, t, c);
  }

  lemma ClaimShape(cfg: Config, dim: nat, s: NodeState, p: Proto, s': NodeState, reply: Reply)
    requires Fits(cfg, dim, s.protos) && OwnHoldout(dim, s.holdout) && ClaimJudged(cfg, s, p, s', reply)
    ensures Fits(cfg, dim, s'.protos) <==> !Opens(cfg, dim, s, [p], TRUST_INIT)
    ensures s'.holdout == s.holdout && (s.protos != [] ==> s'.protos != [])
  {
    OwnIsMergeable(cfg, dim, s, [p]);
    var c :| Merges(cfg.radii, cfg.budget, s.protos, [p], TRUST_INIT, c) && (s', reply) == JudgeClaim(cfg, s, c);
    CandidateShape(cfg, dim, s, [p], TRUST_INIT, c);
    CommitShape(cfg, dim, s, [p], TRUST_INIT, c);
  }

  // ---- one step ----

  // What of an event reaches the merge.
  ghost function BatchOf(cfg: Config, s: NodeState, e: Event): seq<Proto> {
    match e
    case Gossiped(msg) => if Ignores(s, msg) then [] else Screened(cfg, s, msg).0
    case Corrected(x, y, sender) =>
      if Corroborated(s.quarantine, Proto(x, y, 1.0), sender, cfg.corroborationRadius) then [Proto(x, y, 1.0)] else []
    case _ => []
  }

  ghost function TrustIn(s: NodeState, e: Event): real {
    if e.Gossiped? then TrustOf(s.trust, e.msg.sender) else TRUST_INIT
  }

  ghost predicate OpensForeign(cfg: Config, dim: nat, s: NodeState, e: Event) {
    Opens(cfg, dim, s, BatchOf(cfg, s, e), TrustIn(s, e))
  }

  lemma LearnShape(cfg: Config, dim: nat, ps: seq<Proto>, x: Vec, y: int, qs: seq<Proto>)
    requires Fits(cfg, dim, ps) && |x| == dim && Learns(cfg.radii, cfg.budget, ps, x, y, qs)
    ensures Fits(cfg, dim, qs) && (ps != [] ==> qs != [])
  {
    var grown := ps + [Proto(x, y, 1.0)];
    if exists i :: AbsorbsAt(cfg.radii, cfg.budget, ps, x, y, i) {
      var i :| AbsorbsAt(cfg.radii, cfg.budget, ps, x, y, i) && qs == ps[i := Absorb(ps[i], x)];
      assert ps[i] in ps;
      assert forall p | p in qs :: p in ps || p == Absorb(ps[i], x);
    } else {
      PruneSize(grown, cfg.budget, qs);
    }
  }

  // The model of a node keeps its shape and its budget in a step if and only if the
  // step does not open an empty model with a foreign vector.
  lemma StepFitsExactly(cfg: Config, dim: nat, s: NodeState, e: Event, s': NodeState)
    requires Step(cfg, s, e, s') && Fits(cfg, dim, s.protos) && OwnHoldout(dim, s.holdout)
    requires e.Sampled? ==> |e.x| == dim
    ensures Fits(cfg, dim, s'.protos) <==> !OpensForeign(cfg, dim, s, e)
    ensures OwnHoldout(dim, s'.holdout) && (s.protos != [] ==> s'.protos != [])
  {
    match e {
      case Sampled(x, y, held) =>
        if held {
          LastNMembers(HOLDOUT_SIZE, s.holdout + [Sample(x, y)]);
        } else {
          LearnShape(cfg, dim, s.protos, x, y, s'.protos);
        }
      case Gossiped(msg) => GossipShape(cfg, dim, s, msg, s');
      case Corrected(x, y, sender) => CorrectionShape(cfg, dim, s, x, y, sender, s');
      case Recalibrated(_) =>
    }
  }

  lemma GossipShape(cfg: Config, dim: nat, s: NodeState, msg: Message, s': NodeState)
    requires Receives(cfg, s, msg, s') && Fits(cfg, dim, s.protos) && OwnHoldout(dim, s.holdout)
    ensures Fits(cfg, dim, s'.protos) <==> !OpensForeign(cfg, dim, s, Gossiped(msg))
    ensures s'.holdout == s.holdout && (s.protos != [] ==> s'.protos != [])
  {
    if !Ignores(s, msg) {
      var (batch, s1) := Screened(cfg, s, msg);
      if batch != [] {
        MergeShape(cfg, dim, s1, batch, msg.sender, TrustOf(s.trust, msg.sender), s');
      }
    }
  }

  lemma CorrectionShape(cfg: Config, dim: nat, s: NodeState, x: Vec, y: int, sender: Id, s': NodeState)
    requires exists reply :: Submits(cfg, s, x, y, sender, s', reply)
    requires Fits(cfg, dim, s.protos) && OwnHoldout(dim, s.holdout)
    ensures Fits(cfg, dim, s'.protos) <==> !OpensForeign(cfg, dim, s, Corrected(x, y, sender))
    ensures s'.holdout == s.holdout && (s.protos != [] ==> s'.protos != [])
  {
    var p := Proto(x, y, 1.0);
    var reply :| Submits(cfg, s, x, y, sender, s', reply);
    if Corroborated(s.quarantine, p, sender, cfg.corroborationRadius) {
      ClaimShape(cfg, dim, s.(quarantine := Buffer(s.quarantine, p, sender)), p, s', reply);
    }
  }

  // ---- whole runs ----

  lemma RunStepFits(cfg: Config, dim: nat, evs: seq<Event>, ss: seq<NodeState>, t: nat)
    requires Run(cfg, evs, ss) && OwnStream(dim, evs) && t < |evs|
    requires Fits(cfg, dim, ss[t].protos) && OwnHoldout(dim, ss[t].holdout)
    ensures Fits(cfg, dim, ss[t + 1].protos) <==> !OpensForeign(cfg, dim, ss[t], evs[t])
    ensures OwnHoldout(dim, ss[t + 1].holdout) && (ss[t].protos != [] ==> ss[t + 1].protos != [])
    ensures ss[t].protos != [] ==> Fits(cfg, dim, ss[t + 1].protos)
  {
    RunSplit(cfg, evs, ss, t);
    assert evs[t] in evs;
    StepFitsExactly(cfg, dim, ss[t], evs[t], ss[t + 1]);
  }

  lemma {:induction false} FitsUntilOpened(cfg: Config, dim: nat, evs: seq<Event>, ss: seq<NodeState>, i: nat, j: nat)
    requires Run(cfg, evs, ss) && OwnStream(dim, evs) && i <= j <= |evs|
    requires Fits(cfg, dim, ss[i].protos) && OwnHoldout(dim, ss[i].holdout)
    requires forall t | i <= t < j :: !OpensForeign(cfg, dim, ss[t], evs[t])
    ensures Fits(cfg, dim, ss[j].protos) && OwnHoldout(dim, ss[j].holdout)
    decreases j
  {
    if i < j {
      var t := j - 1;
      FitsUntilOpened(cfg, dim, evs, ss, i, t);
      RunStepFits(cfg, dim, evs, ss, t);
    }
  }

  // The model stays within its budget and its own vector space throughout a run if
  // and only if no step opens an empty model with a foreign vector.
  lemma ModelFitsExactly(cfg: Config, dim: nat, evs: seq<Event>, ss: seq<NodeState>)
    requires Run(cfg, evs, ss) && OwnStream(dim, evs)
    ensures (forall t | 0 <= t <= |evs| :: Fits(cfg, dim, ss[t].protos))
       <==> (forall t | 0 <= t < |evs| :: !OpensForeign(cfg, dim, ss[t], evs[t]))
  {
    if forall t | 0 <= t < |evs| :: !OpensForeign(cfg, dim, ss[t], evs[t]) {
      forall t | 0 <= t <= |evs| ensures Fits(cfg, dim, ss[t].protos) {
        FitsUntilOpened(cfg, dim, evs, ss, 0, t);
      }
    }
    if t :| 0 <= t < |evs| && OpensForeign(cfg, dim, ss[t], evs[t]) {
      var u := FirstOpened(cfg, dim, evs, ss, t);
      FitsUntilOpened(cfg, dim, evs, ss, 0, u);
      RunStepFits(cfg, dim, evs, ss, u);
      assert !Fits(cfg, dim, ss[u + 1].protos);
    }
  }

  lemma FirstOpened(cfg: Config, dim: nat, evs: seq<Event>, ss: seq<NodeState>, t: nat) returns (u: nat)
    requires t < |evs| < |ss| && OpensForeign(cfg, dim, ss[t], evs[t])
    ensures u <= t && OpensForeign(cfg, dim, ss[u], evs[u])
    ensures forall v | 0 <= v < u :: !OpensForeign(cfg, dim, ss[v], evs[v])
  {
    u := t;
    if v: nat :| v < t && OpensForeign(cfg, dim, ss[v], evs[v]) {
      u := FirstOpened(cfg, dim, evs, ss, v);
    }
  }

  // A model that once holds its own shape is safe from then on, whatever arrives.
  lemma {:induction false} OnceStartedFits(cfg: Config, dim: nat, evs: seq<Event>, ss: seq<NodeState>, i: nat, j: nat)
    requires Run(cfg, evs, ss) && OwnStream(dim, evs) && i <= j <= |evs|
    requires Fits(cfg, dim, ss[i].protos) && OwnHoldout(dim, ss[i].holdout) && ss[i].protos != []
    ensures Fits(cfg, dim, ss[j].protos) && OwnHoldout(dim, ss[j].holdout) && ss[j].protos != []
    decreases j
  {
    if i < j {
      var t := j - 1;
      OnceStartedFits(cfg, dim, evs, ss, i, t);
      RunStepFits(cfg, dim, evs, ss, t);
    }
  }

  // ---- a foreign shape gets in, and what it does there ----

  lemma {:induction false} NoGap(x: Vec, n: nat)
    ensures GapsTo(x, x, n) == 0.0
  {
    if n > 0 {
      NoGap(x, n - 1);
      assert Square(0.0) == 0.0;
    }
  }

  lemma NearItself(x: Vec, r: real)
    requires r > 0.0
    ensures Near(x, x, r)
  {
    NoGap(x, Wide(|x|, |x|));
    LessThanProduct(Dist2(x, x), r, r);
  }

  lemma LessThanProduct(d: real, x: real, y: real)
    requires d == 0.0 && x > 0.0 && y > 0.0
    ensures d < x * y
  {
  }

  function SendersOf(q: seq<Claim>): set<Id> { set k | k in q :: k.sender }

  // Claims of one prototype alone: the senders are all the votes there are.
  lemma Agreement(cfg: Config, p: Proto, q: seq<Claim>, sender: Id)
    requires cfg.corroborationRadius > 0.0 && forall k | k in q :: k.proto == p
    ensures Corroborated(q, p, sender, cfg.corroborationRadius) <==> |SendersOf(q) + {sender}| >= CORROBORATION
  {
    var r := cfg.corroborationRadius;
    NearItself(p.vector, r);
    assert Voters(q, p, p.lbl, r) == SendersOf(q);
    assert forall l | l != p.lbl :: Voters(q, p, l, r) == {};
    assert Backers(q, p, sender, p.lbl, r) == SendersOf(q) + {sender};
  }

  lemma SendersSnoc(q: seq<Claim>, c: Claim)
    ensures SendersOf(q + [c]) == SendersOf(q) + {c.sender}
  {
    assert forall k :: k in q + [c] <==> k in q || k == c;
  }

  // On a fresh node any vector three senders agree on is committed and reported
  // promoted, whatever its length.
  lemma ThreeCorrections(cfg: Config, x: Vec, y: int, a: Id, b: Id, c: Id)
    returns (s1: NodeState, s2: NodeState, s3: NodeState)
    requires cfg.budget > 0 && cfg.corroborationRadius > 0.0 && a != b && b != c && a != c
    ensures Submits(cfg, INITIAL, x, y, a, s1, Reply(false, false))
    ensures Submits(cfg, s1, x, y, b, s2, Reply(false, false))
    ensures Submits(cfg, s2, x, y, c, s3, Reply(true, true))
    ensures s3.protos == [Proto(x, y, 1.0)] && s3.mergesOk == 1
  {
    var p := Proto(x, y, 1.0);
    var q1, q2 := [Claim(p, a)], [Claim(p, a), Claim(p, b)];
    TwoSenders(p, a, b, q1, q2);
    s1, s2 := INITIAL.(quarantine := q1), INITIAL.(quarantine := q2);
    Agreement(cfg, p, [], a);
    Agreement(cfg, p, q1, b);
    Agreement(cfg, p, q2, c);
    Sizes(a, b, c);
    s3 := FreshCommit(cfg, s2.(quarantine := Buffer(q2, p, c)), p);
  }

  lemma Sizes(a: Id, b: Id, c: Id)
    requires a != b && b != c && a != c
    ensures |{a} + {b}| == 2 && |{a, b} + {c}| == 3
  {
  }

  lemma TwoSenders(p: Proto, a: Id, b: Id, q1: seq<Claim>, q2: seq<Claim>)
    requires q1 == [Claim(p, a)] && q2 == [Claim(p, a), Claim(p, b)]
    ensures SendersOf([]) == {} && SendersOf(q1) == {a} && SendersOf(q2) == {a, b}
    ensures Buffer([], p, a) == q1 && Buffer(q1, p, b) == q2
  {
    SendersSnoc([], Claim(p, a));
    SendersSnoc(q1, Claim(p, b));
    assert [] + [Claim(p, a)] == q1 && q1 + [Claim(p, b)] == q2;
  }

  lemma FreshCommit(cfg: Config, s: NodeState, p: Proto) returns (s': NodeState)
    requires cfg.budget > 0 && s.protos == [] && s.holdout == []
    ensures ClaimJudged(cfg, s, p, s', Reply(true, true))
    ensures s'.protos == [p] && s'.mergesOk == s.mergesOk + 1
  {
    var u := UnionOf(cfg.radii, TRUST_INIT, [], [p]);
    assert Keys([]) == {} && [p][1..] == [];
    var one := UnionOne(cfg.radii, TRUST_INIT, {}, Union([], 0, 0), p);
    assert Filter(ClearOf(p, cfg.radii.conflict), []) + [p] == [p];
    assert u == UnionFold(cfg.radii, TRUST_INIT, {}, one, []) == Union([p], 1, 0);
    assert Merges(cfg.radii, cfg.budget, s.protos, [p], TRUST_INIT, u);
    s' := Commit(cfg, s, u);
    assert (s', Reply(true, true)) == JudgeClaim(cfg, s, u);
  }

  // While the model and the holdout have shapes that do not combine, no merge is
  // committed or even counted: gossip and corrections change the quarantine alone.
  lemma ForeignShapeBlocks(cfg: Config, dim: nat, d: nat, s: NodeState, e: Event, s': NodeState)
    requires Step(cfg, s, e, s') && (e.Gossiped? || e.Corrected?)
    requires s.protos != [] && OfDim(s.protos, d) && s.holdout != [] && OwnHoldout(dim, s.holdout) &&
             !Broadcasts(d, dim)
    ensures s' == s.(quarantine := s'.quarantine)
  {
    ScorableExactly(s.protos, d, s.holdout, dim);
    StepKinds(cfg, s, e, s');
  }
}
