/** When a merge is committed and when it is rolled back, down to the new state. */
module CommitLaws {
  import opened Seqs
  import opened Prototypes
  import opened PrototypeModels
  import opened Scoring
  import opened SwarmNodes
  import opened GossipLaws

  // ---- the verdict of the holdout ----

  // Going from ps to qs loses more than a fiftieth of the samples.
  ghost predicate Loses(ps: seq<Proto>, qs: seq<Proto>, samples: seq<Sample>) {
    50 * (|RightOnes(ps, samples)| - |RightOnes(qs, samples)|) > |samples|
  }

  lemma DegradedExactly(s: NodeState, c: Union)
    ensures Degraded(s, c) <==> Loses(s.protos, c.protos, s.holdout)
  {
    if s.holdout == [] {
      assert RightOnes(s.protos, []) == RightOnes(c.protos, []);
    } else {
      ScoreGap(s.protos, c.protos, s.holdout);
    }
  }

  // A candidate right on every sample is never degraded; one right on none is, unless
  // the model itself had no more than a fiftieth of them right.
  lemma ExtremeCandidates(s: NodeState, c: Union)
    ensures (forall i | 0 <= i < |s.holdout| :: Right(c.protos, s.holdout[i])) ==> !Degraded(s, c)
    ensures (forall i | 0 <= i < |s.holdout| :: !Right(c.protos, s.holdout[i])) ==>
              (Degraded(s, c) <==> 50 * |RightOnes(s.protos, s.holdout)| > |s.holdout|)
  {
    DegradedExactly(s, c);
    RightOnesBounded(s.protos, s.holdout);
    RightOnesBounded(c.protos, s.holdout);
  }

  // ---- merging one prototype ----

  // q has another label inside the conflict radius of p.
  predicate Contradicts(q: Proto, p: Proto, r: real) {
    q.lbl != p.lbl && |q.vector| == |p.vector| && r > 0.0 && Dist2(q.vector, p.vector) < r * r
  }

  function Uncontradicted(ps: seq<Proto>, p: Proto, r: real): seq<Proto> {
    Filter((q: Proto) => !Contradicts(q, p, r), ps)
  }

  // What the model would be with p in it, those it contradicts gone.
  function With(cfg: Config, s: NodeState, p: Proto): seq<Proto> {
    Uncontradicted(s.protos, p, cfg.radii.conflict) + [p]
  }

  // Model, holdout and p share one shape, and p is new to the model.
  ghost predicate News(s: NodeState, p: Proto, dim: nat) {
    && (forall q | q in s.protos :: |q.vector| == dim) && |p.vector| == dim
    && (forall h | h in s.holdout :: |h.x| == dim)
    && (forall q | q in s.protos :: KeyOf(q) != KeyOf(p))
  }

  // Some local prototype contradicts p, and the sender is not trusted enough to evict.
  predicate Overruled(cfg: Config, s: NodeState, p: Proto, t: real) {
    t < cfg.radii.overrideTrust && exists q | q in s.protos :: Contradicts(q, p, cfg.radii.conflict)
  }

  lemma ClearIsUncontradicted(ps: seq<Proto>, p: Proto, r: real)
    ensures Filter(ClearOf(p, r), ps) == Uncontradicted(ps, p, r)
    ensures |Uncontradicted(ps, p, r)| <= |ps|
  {
    FilterAgree(ClearOf(p, r), (q: Proto) => !Contradicts(q, p, r), ps);
  }

  lemma OneUnion(cfg: Config, s: NodeState, p: Proto, t: real, dim: nat)
    requires News(s, p, dim)
    ensures UnionOf(cfg.radii, t, s.protos, [p])
         == if Overruled(cfg, s, p, t) then Union(s.protos, 0, 1) else Union(With(cfg, s, p), 1, 0)
  {
    var m, r := Union(s.protos, 0, 0), cfg.radii.conflict;
    ClearIsUncontradicted(s.protos, p, r);
    assert KeyOf(p) !in Keys(s.protos);
    assert s.protos != [] ==> s.protos[0] in s.protos;
    assert forall q :: Clash(q, p, r) <==> Contradicts(q, p, r);
    assert [p][1..] == [];
    var one := UnionOne(cfg.radii, t, Keys(s.protos), m, p);
    assert UnionFold(cfg.radii, t, Keys(s.protos), one, []) == one;
  }

  // Merging p alone, with room for it, gives just that.
  lemma OneMerge(cfg: Config, s: NodeState, p: Proto, t: real, dim: nat, c: Union)
    requires News(s, p, dim) && |s.protos| <= cfg.budget && |With(cfg, s, p)| <= cfg.budget
    ensures Merges(cfg.radii, cfg.budget, s.protos, [p], t, c) <==> c == UnionOf(cfg.radii, t, s.protos, [p])
  {
    OneUnion(cfg, s, p, t, dim);
  }

  lemma OneIsScorable(cfg: Config, s: NodeState, p: Proto, dim: nat)
    requires News(s, p, dim)
    ensures !Unmergeable(cfg, s, [p]) && Scorable(With(cfg, s, p), s.holdout)
  {
    assert s.protos != [] ==> s.protos[0] in s.protos;
    assert s.holdout != [] ==> s.holdout[0] in s.holdout;
    var qs := With(cfg, s, p);
    assert forall q | q in qs :: q in s.protos || q == p;
    assert qs[0] in qs;
  }

  // ---- gossip about a label the holdout covers ----

  // The state after p was committed, and after it was rolled back.
  function Taken(cfg: Config, s: NodeState, p: Proto): NodeState {
    s.(protos := With(cfg, s, p), version := Version(s.version.counter + 1, cfg.id), mergesOk := s.mergesOk + 1)
  }

  function RolledBack(s: NodeState): NodeState { s.(mergesRejected := s.mergesRejected + 1) }

  // The verdict on p from a sender of trust t: commits and rollbacks move the trust
  // three tenths of the way towards one and towards zero.
  ghost function Verdict(cfg: Config, s: NodeState, p: Proto, sender: Id, t: real): NodeState {
    if Overruled(cfg, s, p, t) || Loses(s.protos, With(cfg, s, p), s.holdout)
    then RolledBack(s).(trust := s.trust[sender := 0.7 * t])
    else Taken(cfg, s, p).(trust := s.trust[sender := 0.7 * t + 0.3])
  }

  lemma EmaIs(t: real)
    ensures Ema(t, 0.0) == 0.7 * t && Ema(t, 1.0) == 0.7 * t + 0.3
  {
  }

  lemma JudgeOverruled(cfg: Config, s: NodeState, sender: Id, t: real)
    requires Scorable(s.protos, s.holdout)
    ensures Judge(cfg, s, Union(s.protos, 0, 1), sender, t) == RolledBack(s).(trust := s.trust[sender := 0.7 * t])
  {
    JudgeRefused(cfg, s, Union(s.protos, 0, 1), sender, t);
  }

  lemma JudgeAdmitted(cfg: Config, s: NodeState, qs: seq<Proto>, sender: Id, t: real)
    requires Scorable(qs, s.holdout)
    ensures Judge(cfg, s, Union(qs, 1, 0), sender, t)
         == if Loses(s.protos, qs, s.holdout) then RolledBack(s).(trust := s.trust[sender := 0.7 * t])
            else s.(protos := qs, version := Version(s.version.counter + 1, cfg.id), mergesOk := s.mergesOk + 1,
                    trust := s.trust[sender := 0.7 * t + 0.3])
  {
    RefusedExactly(s, qs);
    if Loses(s.protos, qs, s.holdout) {
      JudgeRefused(cfg, s, Union(qs, 1, 0), sender, t);
    } else {
      JudgeTaken(cfg, s, Union(qs, 1, 0), sender, t);
    }
  }

  lemma JudgeRefused(cfg: Config, s: NodeState, c: Union, sender: Id, t: real)
    requires Scorable(c.protos, s.holdout) && Refused(s, c)
    ensures Judge(cfg, s, c, sender, t) == RolledBack(s).(trust := s.trust[sender := 0.7 * t])
  {
    EmaIs(t);
  }

  lemma JudgeTaken(cfg: Config, s: NodeState, c: Union, sender: Id, t: real)
    requires Scorable(c.protos, s.holdout) && !Refused(s, c) && c.accepted > 0
    ensures Judge(cfg, s, c, sender, t)
         == s.(protos := c.protos, version := Version(s.version.counter + 1, cfg.id), mergesOk := s.mergesOk + 1,
               trust := s.trust[sender := 0.7 * t + 0.3])
  {
    EmaIs(t);
  }

  lemma RefusedExactly(s: NodeState, qs: seq<Proto>)
    ensures Refused(s, Union(qs, 1, 0)) <==> Loses(s.protos, qs, s.holdout)
  {
    DegradedExactly(s, Union(qs, 1, 0));
  }

  lemma JudgeOne(cfg: Config, s: NodeState, p: Proto, sender: Id, t: real, dim: nat)
    requires News(s, p, dim)
    ensures Judge(cfg, s, UnionOf(cfg.radii, t, s.protos, [p]), sender, t) == Verdict(cfg, s, p, sender, t)
  {
    OneIsScorable(cfg, s, p, dim);
    OneUnion(cfg, s, p, t, dim);
    if Overruled(cfg, s, p, t) {
      JudgeOverruled(cfg, s, sender, t);
    } else {
      JudgeAdmitted(cfg, s, With(cfg, s, p), sender, t);
    }
  }

  lemma MergeOne(cfg: Config, s: NodeState, p: Proto, sender: Id, t: real, dim: nat, s': NodeState)
    requires News(s, p, dim) && |s.protos| <= cfg.budget && |With(cfg, s, p)| <= cfg.budget
    ensures MergeJudged(cfg, s, [p], sender, t, s') <==> s' == Verdict(cfg, s, p, sender, t)
  {
    var u := UnionOf(cfg.radii, t, s.protos, [p]);
    OneIsScorable(cfg, s, p, dim);
    JudgeOne(cfg, s, p, sender, t, dim);
    OneMerge(cfg, s, p, t, dim, u);
    forall c | Merges(cfg.radii, cfg.budget, s.protos, [p], t, c) ensures c == u {
      OneMerge(cfg, s, p, t, dim, c);
    }
  }

  // A message is looked at from a sender with trust 0.15 or more and with ten held-out
  // samples or more.
  predicate LooksAt(s: NodeState, msg: Message) {
    msg.kind == "protos" && TrustOf(s.trust, msg.sender) >= 0.15 && |s.holdout| >= 10
  }

  lemma CoveredAlone(cfg: Config, s: NodeState, msg: Message, p: Proto)
    requires msg.payload == [p] && Covered(s.holdout, p)
    ensures Screened(cfg, s, msg) == ([p], s)
  {
    var known := HoldoutLabels(s.holdout);
    CoveredIsKnown(s.holdout, p);
    assert [p][1..] == [];
    assert Filter(KnownIn(known), [p]) == [p] + Filter(KnownIn(known), []);
    assert Filter(UnknownIn(known), [p]) == [] + Filter(UnknownIn(known), []);
    assert [p] + [] == [p];
  }

  // A new prototype of a covered label, with room for it, is committed unless a
  // contradiction overrules it or the holdout loses by it.
  lemma CoveredNews(cfg: Config, s: NodeState, msg: Message, p: Proto, dim: nat, s': NodeState)
    requires LooksAt(s, msg) && msg.payload == [p] && Covered(s.holdout, p) && News(s, p, dim)
    requires |s.protos| <= cfg.budget && |With(cfg, s, p)| <= cfg.budget
    ensures Receives(cfg, s, msg, s') <==> s' == Verdict(cfg, s, p, msg.sender, TrustOf(s.trust, msg.sender))
  {
    CoveredAlone(cfg, s, msg, p);
    MergeOne(cfg, s, p, msg.sender, TrustOf(s.trust, msg.sender), dim, s');
  }

  // What the model holds already changes nothing at all.
  lemma CoveredDuplicate(cfg: Config, s: NodeState, msg: Message, p: Proto, dim: nat, s': NodeState)
    requires LooksAt(s, msg) && msg.payload == [p] && Covered(s.holdout, p)
    requires (forall q | q in s.protos :: |q.vector| == dim) && forall h | h in s.holdout :: |h.x| == dim
    requires (exists q :: q in s.protos && KeyOf(q) == KeyOf(p)) && |s.protos| <= cfg.budget
    ensures Receives(cfg, s, msg, s') <==> s' == s
  {
    CoveredAlone(cfg, s, msg, p);
    var u := UnionOf(cfg.radii, TrustOf(s.trust, msg.sender), s.protos, [p]);
    assert [p][1..] == [] && KeyOf(p) in Keys(s.protos);
    assert s.protos[0] in s.protos && s.holdout[0] in s.holdout;
    var m := Union(s.protos, 0, 0);
    assert UnionOne(cfg.radii, TrustOf(s.trust, msg.sender), Keys(s.protos), m, p) == m;
    assert UnionFold(cfg.radii, TrustOf(s.trust, msg.sender), Keys(s.protos), m, []) == m;
    assert u == m;
    assert Merges(cfg.radii, cfg.budget, s.protos, [p], TrustOf(s.trust, msg.sender), u);
    DegradedExactly(s, u);
  }

  // ---- corrections ----

  // A correction without the quorum only leaves its claim behind; with it, it is
  // merged like gossip from a sender of trust one half, whose trust does not move.
  lemma CorrectionNews(cfg: Config, s: NodeState, x: Vec, y: int, sender: Id, dim: nat, s': NodeState, reply: Reply)
    requires News(s, Proto(x, y, 1.0), dim) && |s.protos| <= cfg.budget
    requires |With(cfg, s, Proto(x, y, 1.0))| <= cfg.budget
    ensures var p := Proto(x, y, 1.0);
            var s1 := s.(quarantine := LastN(500, s.quarantine + [Claim(p, sender)]));
            Submits(cfg, s, x, y, sender, s', reply) <==>
            (s', reply) == if !Corroborated(s.quarantine, p, sender, cfg.corroborationRadius)
                           then (s1, Reply(false, false))
                           else if Overruled(cfg, s, p, 0.5) || Loses(s.protos, With(cfg, s, p), s.holdout)
                           then (RolledBack(s1), Reply(true, false))
                           else (Taken(cfg, s1, p), Reply(true, true))
  {
    var p := Proto(x, y, 1.0);
    var s1 := s.(quarantine := LastN(500, s.quarantine + [Claim(p, sender)]));
    ClaimOne(cfg, s1, p, dim, s', reply);
  }

  lemma ClaimOne(cfg: Config, s: NodeState, p: Proto, dim: nat, s': NodeState, reply: Reply)
    requires News(s, p, dim) && |s.protos| <= cfg.budget && |With(cfg, s, p)| <= cfg.budget
    ensures ClaimJudged(cfg, s, p, s', reply) <==>
            (s', reply) == if Overruled(cfg, s, p, 0.5) || Loses(s.protos, With(cfg, s, p), s.holdout)
                           then (RolledBack(s), Reply(true, false)) else (Taken(cfg, s, p), Reply(true, true))
  {
    var u := UnionOf(cfg.radii, TRUST_INIT, s.protos, [p]);
    OneIsScorable(cfg, s, p, dim);
    OneUnion(cfg, s, p, TRUST_INIT, dim);
    OneMerge(cfg, s, p, TRUST_INIT, dim, u);
    forall c | Merges(cfg.radii, cfg.budget, s.protos, [p], TRUST_INIT, c) ensures c == u {
      OneMerge(cfg, s, p, TRUST_INIT, dim, c);
    }
    DegradedExactly(s, u);
  }
}
