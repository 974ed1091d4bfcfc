/** SwarmNode: the prototype model behind a quarantine with a distinct-sender
    quorum, commit or rollback against a holdout, and a trust automaton. */
module SwarmNodes {
  import opened Seqs
  import opened Prototypes
  import opened PrototypeModels

  const TRUST_INIT := 0.5
  const TRUST_ALPHA := 0.3
  const TRUST_FLOOR := 0.15
  const DEGRADE_EPS := 0.02
  const HOLDOUT_SIZE: nat := 60
  const QUARANTINE_SIZE: nat := 500
  const CORROBORATION: nat := 3
  const MIN_HOLDOUT: nat := 10

  type Id = int

  datatype Claim = Claim(proto: Proto, sender: Id)

  datatype Message = Message(sender: Id, kind: string, payload: seq<Proto>)

  datatype Config = Config(id: Id, budget: nat, radii: Radii, corroborationRadius: real)

  datatype NodeState = NodeState(
    protos: seq<Proto>, version: Version, trust: map<Id, real>, holdout: seq<Sample>,
    quarantine: seq<Claim>, mergesOk: nat, mergesRejected: nat)

  const INITIAL := NodeState([], GENESIS, map[], [], [], 0, 0)

  function TrustOf(trust: map<Id, real>, sender: Id): real {
    if sender in trust then trust[sender] else TRUST_INIT
  }

  // ---- quarantine ----

  // Distinct senders with a buffered claim of label l in p's region.
  function Voters(quarantine: seq<Claim>, p: Proto, l: int, radius: real): set<Id> {
    set c | c in quarantine && c.proto.lbl == l && Near(c.proto.vector, p.vector, radius) :: c.sender
  }

  // Those, counting the sender of p as a voter for p's own label.
  function Backers(quarantine: seq<Claim>, p: Proto, sender: Id, l: int, radius: real): set<Id> {
    (if l == p.lbl then {sender} else {}) + Voters(quarantine, p, l, radius)
  }

  function VotesFor(votes: map<int, set<Id>>, l: int): set<Id> {
    if l in votes then votes[l] else {}
  }

  function VoteOf(c: Claim, p: Proto, l: int, radius: real): set<Id> {
    if c.proto.lbl == l && Near(c.proto.vector, p.vector, radius) then {c.sender} else {}
  }

  lemma BackersSnoc(quarantine: seq<Claim>, c: Claim, p: Proto, sender: Id, l: int, radius: real)
    ensures Backers(quarantine + [c], p, sender, l, radius)
         == Backers(quarantine, p, sender, l, radius) + VoteOf(c, p, l, radius)
  {
    assert forall d :: d in quarantine + [c] <==> d in quarantine || d == c;
    assert Voters(quarantine + [c], p, l, radius) == Voters(quarantine, p, l, radius) + VoteOf(c, p, l, radius);
  }

  // A quorum backs p's label and no other label there has more backers.
  ghost predicate Corroborated(quarantine: seq<Claim>, p: Proto, sender: Id, radius: real) {
    var n := |Backers(quarantine, p, sender, p.lbl, radius)|;
    && n >= CORROBORATION
    && forall l | l != p.lbl :: n >= |Voters(quarantine, p, l, radius)|
  }

  function Buffer(quarantine: seq<Claim>, p: Proto, sender: Id): seq<Claim> {
    LastN(QUARANTINE_SIZE, quarantine + [Claim(p, sender)])
  }

  // The members of ps promoted, and the quarantine after buffering all of ps.
  ghost function CorroborateAll(quarantine: seq<Claim>, ps: seq<Proto>, sender: Id, radius: real): (seq<Proto>,
                                seq<Claim>)
    decreases |ps|
  {
    if ps == [] then ([], quarantine)
    else
      var rest := CorroborateAll(Buffer(quarantine, ps[0], sender), ps[1..], sender, radius);
      ((if Corroborated(quarantine, ps[0], sender, radius) then [ps[0]] else []) + rest.0, rest.1)
  }

  lemma CorroborateNext(quarantine: seq<Claim>, ps: seq<Proto>, sender: Id, radius: real, i: nat)
    requires i < |ps|
    ensures var here := CorroborateAll(quarantine, ps[i..], sender, radius);
            var next := CorroborateAll(Buffer(quarantine, ps[i], sender), ps[i + 1..], sender, radius);
            && here.0 == (if Corroborated(quarantine, ps[i], sender, radius) then [ps[i]] else []) + next.0
            && here.1 == next.1
  {
    assert ps[i..][1..] == ps[i + 1..];
  }

  // ---- steps ----

  function KnownIn(known: set<int>): Proto -> bool { (p: Proto) => p.lbl in known }

  function UnknownIn(known: set<int>): Proto -> bool { (p: Proto) => p.lbl !in known }

  function HoldoutLabels(holdout: seq<Sample>): set<int> { set s | s in holdout :: s.y }

  // What of a message reaches the merge, and the quarantine it leaves.
  ghost function Screened(cfg: Config, s: NodeState, msg: Message): (seq<Proto>, NodeState) {
    var known := HoldoutLabels(s.holdout);
    var (promoted, q) :=
      CorroborateAll(s.quarantine, Filter(UnknownIn(known), msg.payload), msg.sender, cfg.corroborationRadius);
    (Filter(KnownIn(known), msg.payload) + promoted, s.(quarantine := q))
  }

  predicate Degraded(s: NodeState, c: Union) {
    Accuracy(c.protos, s.holdout) < Accuracy(s.protos, s.holdout) - DEGRADE_EPS
  }

  predicate Refused(s: NodeState, c: Union) {
    Degraded(s, c) || c.conflicts > c.accepted
  }

  function Commit(cfg: Config, s: NodeState, c: Union): NodeState {
    s.(protos := c.protos, version := s.version.Bump(cfg.id), mergesOk := s.mergesOk + 1)
  }

  function Ema(t: real, outcome: real): real {
    (1.0 - TRUST_ALPHA) * t + TRUST_ALPHA * outcome
  }

  // Scoring the model, merging the batch into it or scoring the result raises, and
  // what came before stands.
  ghost predicate Unmergeable(cfg: Config, s: NodeState, batch: seq<Proto>) {
    !Scorable(s.protos, s.holdout) || MergeRaises(cfg.budget, s.protos, batch)
  }

  // Commit or roll back a gossip candidate and move the sender's trust.
  ghost function Judge(cfg: Config, s: NodeState, c: Union, sender: Id, t: real): NodeState {
    if !Scorable(c.protos, s.holdout) then s
    else if Refused(s, c) then
      s.(mergesRejected := s.mergesRejected + 1, trust := s.trust[sender := Ema(t, 0.0)])
    else if c.accepted == 0 then s
    else Commit(cfg, s, c).(trust := s.trust[sender := Ema(t, 1.0)])
  }

  predicate Ignores(s: NodeState, msg: Message) {
    msg.kind != "protos" || TrustOf(s.trust, msg.sender) < TRUST_FLOOR || |s.holdout| < MIN_HOLDOUT
  }

  ghost predicate MergeJudged(cfg: Config, s: NodeState, batch: seq<Proto>, sender: Id, t: real, s': NodeState) {
    if Unmergeable(cfg, s, batch) then s' == s
    else exists c :: Merges(cfg.radii, cfg.budget, s.protos, batch, t, c) && s' == Judge(cfg, s, c, sender, t)
  }

  ghost predicate Receives(cfg: Config, s: NodeState, msg: Message, s': NodeState) {
    if Ignores(s, msg) then s' == s
    else
      var (batch, s1) := Screened(cfg, s, msg);
      if batch == [] then s' == s1 else MergeJudged(cfg, s1, batch, msg.sender, TrustOf(s.trust, msg.sender), s')
  }

  datatype Reply = Reply(corroborated: bool, promoted: bool) | Raised

  ghost function JudgeClaim(cfg: Config, s: NodeState, c: Union): (NodeState, Reply) {
    if !Scorable(c.protos, s.holdout) then (s, Raised)
    else if Refused(s, c) || c.accepted == 0 then
      (s.(mergesRejected := s.mergesRejected + 1), Reply(true, false))
    else (Commit(cfg, s, c), Reply(true, true))
  }

  ghost predicate ClaimJudged(cfg: Config, s: NodeState, p: Proto, s': NodeState, reply: Reply) {
    if Unmergeable(cfg, s, [p]) then s' == s && reply == Raised
    else exists c :: Merges(cfg.radii, cfg.budget, s.protos, [p], TRUST_INIT, c) && (s', reply) == JudgeClaim(cfg, s, c)
  }

  ghost predicate Submits(cfg: Config, s: NodeState, x: Vec, y: int, sender: Id, s': NodeState, reply: Reply) {
    var p := Proto(x, y, 1.0);
    var s1 := s.(quarantine := Buffer(s.quarantine, p, sender));
    if !Corroborated(s.quarantine, p, sender, cfg.corroborationRadius) then
      s' == s1 && reply == Reply(false, false)
    else ClaimJudged(cfg, s1, p, s', reply)
  }

  // A learned sample counts as a version unless learning it raised.
  ghost function Versioned(cfg: Config, s: NodeState, x: Vec, y: int): Version {
    if LearnCompletes(cfg.radii, cfg.budget, s.protos, x, y) then s.version.Bump(cfg.id) else s.version
  }

  ghost predicate Observes(cfg: Config, s: NodeState, x: Vec, y: int, held: bool, s': NodeState) {
    if held then s' == s.(holdout := LastN(HOLDOUT_SIZE, s.holdout + [Sample(x, y)]))
    else exists qs :: Learns(cfg.radii, cfg.budget, s.protos, x, y, qs)
                   && s' == s.(protos := qs, version := Versioned(cfg, s, x, y))
  }

  // ---- calibration ----

  function SeenCount(labels: seq<Option<int>>): nat {
    if labels == [] then 0 else (if labels[0].Some? then 1 else 0) + SeenCount(labels[1..])
  }

  function HitCount(labels: seq<Option<int>>, samples: seq<Sample>): (h: nat)
    ensures h <= SeenCount(labels)
  {
    if labels == [] || samples == [] then 0
    else (if labels[0] == Some(samples[0].y) then 1 else 0) + HitCount(labels[1..], samples[1..])
  }

  // Trust in pid after it answered the holdout with these labels.
  function Calibrated(trust: map<Id, real>, pid: Id, labels: seq<Option<int>>, samples: seq<Sample>): map<Id, real> {
    if SeenCount(labels) == 0 then trust
    else trust[pid := 0.5 * TrustOf(trust, pid) + 0.5 * (HitCount(labels, samples) as real / SeenCount(labels) as real)]
  }

  datatype Peer = Peer(id: Id, answer: Vec -> Option<int>)

  function Answers(answer: Vec -> Option<int>, samples: seq<Sample>): (labels: seq<Option<int>>)
    ensures |labels| == |samples|
  {
    seq(|samples|, i requires 0 <= i < |samples| => answer(samples[i].x))
  }

  function CalibratedAll(self: Id, trust: map<Id, real>, directory: seq<Peer>, samples: seq<Sample>): map<Id, real>
    decreases |directory|
  {
    if directory == [] || samples == [] then trust
    else
      var peer := directory[0];
      var next := if peer.id == self then trust
                  else Calibrated(trust, peer.id, Answers(peer.answer, samples), samples);
      CalibratedAll(self, next, directory[1..], samples)
  }

  // The two maps give id the same trust.
  ghost predicate SameAt(a: map<Id, real>, b: map<Id, real>, id: Id) {
    (id in a <==> id in b) && (id in a ==> a[id] == b[id])
  }

  lemma {:induction false} OthersUntouched(self: Id, trust: map<Id, real>, dir: seq<Peer>, samples: seq<Sample>, id: Id)
    requires id == self || forall i | 0 <= i < |dir| :: dir[i].id != id
    ensures SameAt(CalibratedAll(self, trust, dir, samples), trust, id)
    decreases |dir|
  {
    if dir != [] && samples != [] {
      var first := dir[0];
      var next := if first.id == self then trust
                  else Calibrated(trust, first.id, Answers(first.answer, samples), samples);
      OthersUntouched(self, next, dir[1..], samples, id);
    }
  }

  lemma {:induction false} SeenSnoc(labels: seq<Option<int>>, last: Option<int>)
    ensures SeenCount(labels + [last]) == SeenCount(labels) + if last.Some? then 1 else 0
  {
    if labels == [] {
      assert [last][1..] == [] && labels + [last] == [last];
    } else {
      assert (labels + [last])[1..] == labels[1..] + [last];
      SeenSnoc(labels[1..], last);
    }
  }

  lemma {:induction false} HitSnoc(labels: seq<Option<int>>, last: Option<int>, samples: seq<Sample>)
    requires |labels| < |samples|
    ensures HitCount(labels + [last], samples)
         == HitCount(labels, samples) + if last == Some(samples[|labels|].y) then 1 else 0
  {
    if labels == [] {
      assert [last][1..] == [] && labels + [last] == [last];
    } else {
      assert (labels + [last])[1..] == labels[1..] + [last];
      HitSnoc(labels[1..], last, samples[1..]);
    }
  }

  lemma LastNMembers<T>(cap: nat, h: seq<T>)
    ensures forall x | x in LastN(cap, h) :: x in h
  {
  }

  class SwarmNode {
    const cfg: Config
    var model: PrototypeModel
    var trust: map<Id, real>
    var holdout: seq<Sample>
    var quarantine: seq<Claim>
    var mergesOk: nat
    var mergesRejected: nat

    ghost predicate Valid()
      reads this, model
    {
      model.radii == cfg.radii && model.maxPrototypes == cfg.budget
    }

    ghost function State(): NodeState
      reads this, model
    {
      NodeState(model.protos, model.version, trust, holdout, quarantine, mergesOk, mergesRejected)
    }

    constructor (cfg: Config)
      ensures Valid() && this.cfg == cfg && State() == INITIAL && fresh(model)
    {
      this.cfg := cfg;
      model := new PrototypeModel(cfg.radii, cfg.budget);
      trust, holdout, quarantine, mergesOk, mergesRejected := map[], [], [], 0, 0;
    }

    // held: the random draw that sets one sample in four aside.
    method Observe(x: Vec, y: int, held: bool)
      requires Valid()
      modifies this`holdout, model
      ensures Valid() && Observes(cfg, old(State()), x, y, held, State())
    {
      if held {
        holdout := LastN(HOLDOUT_SIZE, holdout + [Sample(x, y)]);
      } else {
        var _ := model.Learn(x, y, cfg.id);
      }
    }

    // None where stacking or comparing the shapes raises; an empty holdout scores 0
    // without looking at the model.
    method HoldoutAccuracy(m: PrototypeModel) returns (a: Option<real>)
      ensures a == if Scorable(m.protos, holdout) then Some(Accuracy(m.protos, holdout)) else None
    {
      if holdout == [] { return Some(0.0); }
      if !SameShapes(holdout) { return None; }
      if m.protos == [] { return Some(0.0); }
      if !Uniform(m.protos) || !Broadcasts(|holdout[0].x|, |m.protos[0].vector|) { return None; }
      a := Some(Accuracy(m.protos, holdout));
    }

    // Senders claiming each label in p's region, the sender of p included.
    method CountVotes(p: Proto, sender: Id) returns (votes: map<int, set<Id>>)
      ensures p.lbl in votes
      ensures forall l :: VotesFor(votes, l) == Backers(quarantine, p, sender, l, cfg.corroborationRadius)
    {
      var r := cfg.corroborationRadius;
      votes := map[p.lbl := {sender}];
      for i := 0 to |quarantine|
        invariant p.lbl in votes
        invariant forall l :: VotesFor(votes, l) == Backers(quarantine[..i], p, sender, l, r)
      {
        var c := quarantine[i];
        assert quarantine[..i + 1] == quarantine[..i] + [c];
        forall l ensures Backers(quarantine[..i + 1], p, sender, l, r)
                      == Backers(quarantine[..i], p, sender, l, r) + VoteOf(c, p, l, r)
        {
          BackersSnoc(quarantine[..i], c, p, sender, l, r);
        }
        ghost var prior := votes;
        if Near(c.proto.vector, p.vector, r) {
          votes := votes[c.proto.lbl := VotesFor(votes, c.proto.lbl) + {c.sender}];
        }
        assert forall l :: VotesFor(votes, l) == VotesFor(prior, l) + VoteOf(c, p, l, r);
      }
      assert quarantine[..|quarantine|] == quarantine;
    }

    method Corroborate(p: Proto, sender: Id) returns (promoted: bool)
      modifies this`quarantine
      ensures promoted == Corroborated(old(quarantine), p, sender, cfg.corroborationRadius)
      ensures quarantine == Buffer(old(quarantine), p, sender)
    {
      var votes := CountVotes(p, sender);
      var n := |votes[p.lbl]|;
      ghost var r := cfg.corroborationRadius;
      assert votes[p.lbl] == VotesFor(votes, p.lbl);
      forall l | l != p.lbl ensures VotesFor(votes, l) == Voters(quarantine, p, l, r) {
        assert VotesFor(votes, l) == Backers(quarantine, p, sender, l, r);
      }
      assert Corroborated(quarantine, p, sender, r) <==>
             n >= CORROBORATION && forall l | l != p.lbl :: n >= |VotesFor(votes, l)|;
      assert (forall l | l != p.lbl :: n >= |VotesFor(votes, l)|) <==> forall l | l in votes &&
             l != p.lbl :: n >= |votes[l]| by {
        assert forall l | l in votes :: votes[l] == VotesFor(votes, l);
      }
      promoted := n >= CORROBORATION && forall l | l in votes && l != p.lbl :: n >= |votes[l]|;
      quarantine := Buffer(quarantine, p, sender);
    }

    // Submit each of ps to the quorum in turn.
    method Promote(ps: seq<Proto>, sender: Id) returns (promoted: seq<Proto>)
      modifies this`quarantine
      ensures promoted == CorroborateAll(old(quarantine), ps, sender, cfg.corroborationRadius).0
      ensures quarantine == CorroborateAll(old(quarantine), ps, sender, cfg.corroborationRadius).1
    {
      promoted := [];
      ghost var r := cfg.corroborationRadius;
      ghost var whole := CorroborateAll(quarantine, ps, sender, r);
      ghost var rest := whole;
      assert ps[0..] == ps;
      for i := 0 to |ps|
        invariant rest == CorroborateAll(quarantine, ps[i..], sender, r)
        invariant whole.0 == promoted + rest.0 && whole.1 == rest.1
      {
        CorroborateNext(quarantine, ps, sender, r, i);
        var ok := Corroborate(ps[i], sender);
        ghost var next := CorroborateAll(quarantine, ps[i + 1..], sender, r);
        ConcatAssoc(promoted, if ok then [ps[i]] else [], next.0);
        promoted := promoted + if ok then [ps[i]] else [];
        rest := next;
      }
    }

    // Build the union, score it on the holdout, then commit or roll back.
    method MergeAndJudge(batch: seq<Proto>, sender: Id, t: real)
      requires Valid()
      modifies this`model, this`trust, this`mergesOk, this`mergesRejected
      ensures Valid() && (model == old(model) || fresh(model))
      ensures old(model).protos == old(model.protos)
      ensures MergeJudged(cfg, old(State()), batch, sender, t, State())
    {
      var before := HoldoutAccuracy(model);
      if before.None? { return; }
      var ok, candidate := model.MergedWith(batch, cfg.id, t);
      if !ok { return; }
      JudgeCandidate(candidate, sender, t, before.value);
    }

    method JudgeCandidate(candidate: PrototypeModel, sender: Id, t: real, before: real)
      requires Valid()
      requires candidate.radii == cfg.radii && candidate.maxPrototypes == cfg.budget
      requires candidate.version == model.version.Bump(cfg.id) && before == Accuracy(model.protos, holdout)
      modifies this`model, this`trust, this`mergesOk, this`mergesRejected
      ensures Valid() && (model == old(model) || model == candidate)
      ensures State() ==
              Judge(cfg, old(State()), Union(candidate.protos, candidate.accepted, candidate.conflicts), sender, t)
    {
      var after := HoldoutAccuracy(candidate);
      if after.None? { return; }
      var outcome;
      if after.value < before - DEGRADE_EPS || candidate.conflicts > candidate.accepted {
        mergesRejected := mergesRejected + 1;
        outcome := 0.0;
      } else if candidate.accepted == 0 {
        return;
      } else {
        model := candidate;
        mergesOk := mergesOk + 1;
        outcome := 1.0;
      }
      trust := trust[sender := (1.0 - TRUST_ALPHA) * t + TRUST_ALPHA * outcome];
    }

    method Receive(msg: Message)
      requires Valid()
      modifies this
      ensures Valid() && (model == old(model) || fresh(model))
      ensures old(model).protos == old(model.protos)
      ensures Receives(cfg, old(State()), msg, State())
    {
      if msg.kind != "protos" { return; }
      var t := TrustOf(trust, msg.sender);
      if t < TRUST_FLOOR { return; }
      if |holdout| < MIN_HOLDOUT { return; }
      // Labels the holdout covers are judged by it; the rest need a quorum.
      var known := HoldoutLabels(holdout);
      var promoted := Promote(Filter(UnknownIn(known), msg.payload), msg.sender);
      var toMerge := Filter(KnownIn(known), msg.payload) + promoted;
      if toMerge == [] { return; }
      MergeAndJudge(toMerge, msg.sender, t);
    }

    method SubmitCorrectionClaim(x: Vec, y: int, sender: Id) returns (reply: Reply)
      requires Valid()
      modifies this
      ensures Valid() && (model == old(model) || fresh(model))
      ensures old(model).protos == old(model.protos)
      ensures Submits(cfg, old(State()), x, y, sender, State(), reply)
    {
      var p := Proto(x, y, 1.0);
      var quorum := Corroborate(p, sender);
      if !quorum { return Reply(false, false); }
      reply := MergeAndReply(p);
    }

    method MergeAndReply(p: Proto) returns (reply: Reply)
      requires Valid()
      modifies this`model, this`mergesOk, this`mergesRejected
      ensures Valid() && (model == old(model) || fresh(model))
      ensures old(model).protos == old(model.protos)
      ensures ClaimJudged(cfg, old(State()), p, State(), reply)
    {
      var before := HoldoutAccuracy(model);
      if before.None? { return Raised; }
      var ok, candidate := model.MergedWith([p], cfg.id, TRUST_INIT);
      if !ok { return Raised; }
      reply := ReplyFor(candidate, before.value);
    }

    method ReplyFor(candidate: PrototypeModel, before: real) returns (reply: Reply)
      requires Valid()
      requires candidate.radii == cfg.radii && candidate.maxPrototypes == cfg.budget
      requires candidate.version == model.version.Bump(cfg.id) && before == Accuracy(model.protos, holdout)
      modifies this`model, this`mergesOk, this`mergesRejected
      ensures Valid() && (model == old(model) || model == candidate)
      ensures (State(), reply) ==
              JudgeClaim(cfg, old(State()), Union(candidate.protos, candidate.accepted, candidate.conflicts))
    {
      var after := HoldoutAccuracy(candidate);
      if after.None? { return Raised; }
      reply := Reply(true, false);
      if after.value < before - DEGRADE_EPS || candidate.conflicts > candidate.accepted || candidate.accepted == 0 {
        mergesRejected := mergesRejected + 1;
      } else {
        model := candidate;
        mergesOk := mergesOk + 1;
        reply := Reply(true, true);
      }
    }

    method Score(answer: Vec -> Option<int>) returns (hits: nat, seen: nat)
      ensures seen == SeenCount(Answers(answer, holdout))
      ensures hits == HitCount(Answers(answer, holdout), holdout)
    {
      hits, seen := 0, 0;
      ghost var all := Answers(answer, holdout);
      for i := 0 to |holdout|
        invariant seen == SeenCount(all[..i]) && hits == HitCount(all[..i], holdout)
      {
        var lbl := answer(holdout[i].x);
        assert all[..i + 1] == all[..i] + [lbl];
        SeenSnoc(all[..i], lbl);
        HitSnoc(all[..i], lbl, holdout);
        if lbl == None { continue; }
        seen := seen + 1;
        hits := hits + if lbl == Some(holdout[i].y) then 1 else 0;
      }
      assert all[..|holdout|] == all;
    }

    method CalibrateTrust(directory: seq<Peer>)
      modifies this`trust
      ensures trust == CalibratedAll(cfg.id, old(trust), directory, holdout)
    {
      if holdout == [] { return; }
      for d := 0 to |directory|
        invariant CalibratedAll(cfg.id, old(trust), directory, holdout)
               == CalibratedAll(cfg.id, trust, directory[d..], holdout)
      {
        assert directory[d..][1..] == directory[d + 1..];
        var peer := directory[d];
        if peer.id == cfg.id { continue; }
        var hits, seen := Score(peer.answer);
        if seen > 0 {
          var t := TrustOf(trust, peer.id);
          trust := trust[peer.id := 0.5 * t + 0.5 * (hits as real / seen as real)];
        }
      }
    }
  }
}
