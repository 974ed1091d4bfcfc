/** Counting over whole SwarmNode runs: the quarantine window, the trust
    automaton, the cost of committed merges and the version counter. */
module NodeLedger {
  import opened Seqs
  import opened Prototypes
  import opened PrototypeModels
  import opened SwarmNodes
  import opened NodeRuns

  // ---- the quarantine is a window on the claims made ----

  function ClaimsOf(ps: seq<Proto>, sender: Id): seq<Claim> {
    seq(|ps|, i requires 0 <= i < |ps| => Claim(ps[i], sender))
  }

  // The claims a step buffers.
  function BufferedBy(s: NodeState, e: Event): seq<Claim> {
    match e
    case Gossiped(msg) =>
      if Ignores(s, msg) then []
      else ClaimsOf(Filter(UnknownIn(HoldoutLabels(s.holdout)), msg.payload), msg.sender)
    case Corrected(x, y, sender) => [Claim(Proto(x, y, 1.0), sender)]
    case _ => []
  }

  function History(evs: seq<Event>, ss: seq<NodeState>): seq<Claim>
    requires |ss| >= |evs|
  {
    if evs == [] then []
    else History(evs[..|evs| - 1], ss[..|evs| - 1]) + BufferedBy(ss[|evs| - 1], evs[|evs| - 1])
  }

  lemma {:induction false} BufferingIsAWindow(h: seq<Claim>, ps: seq<Proto>, sender: Id, radius: real)
    ensures CorroborateAll(LastN(QUARANTINE_SIZE, h), ps, sender, radius).1
         == LastN(QUARANTINE_SIZE, h + ClaimsOf(ps, sender))
    decreases |ps|
  {
    if ps == [] {
      assert h + ClaimsOf(ps, sender) == h;
    } else {
      var c := Claim(ps[0], sender);
      LastNPush(QUARANTINE_SIZE, h, c);
      BufferingIsAWindow(h + [c], ps[1..], sender, radius);
      assert h + ClaimsOf(ps, sender) == h + [c] + ClaimsOf(ps[1..], sender);
    }
  }

  lemma GossipScreens(cfg: Config, s: NodeState, msg: Message, s': NodeState)
    requires Receives(cfg, s, msg, s') && !Ignores(s, msg)
    ensures s'.quarantine == Screened(cfg, s, msg).1.quarantine
  {
  }

  lemma StepWindow(cfg: Config, h: seq<Claim>, s: NodeState, e: Event, s': NodeState)
    requires Step(cfg, s, e, s') && s.quarantine == LastN(QUARANTINE_SIZE, h)
    ensures s'.quarantine == LastN(QUARANTINE_SIZE, h + BufferedBy(s, e))
  {
    match e {
      case Gossiped(msg) =>
        if Ignores(s, msg) {
          assert h + [] == h;
        } else {
          BufferingIsAWindow(h, Filter(UnknownIn(HoldoutLabels(s.holdout)), msg.payload), msg.sender,
            cfg.corroborationRadius);
          GossipScreens(cfg, s, msg, s');
        }
      case Corrected(x, y, sender) =>
        LastNPush(QUARANTINE_SIZE, h, Claim(Proto(x, y, 1.0), sender));
      case _ =>
        assert h + [] == h;
    }
  }

  // At every point of a run the quarantine is exactly the last QUARANTINE_SIZE
  // claims buffered so far.
  lemma {:induction false} QuarantineIsRecentHistory(cfg: Config, evs: seq<Event>, ss: seq<NodeState>, t: nat)
    requires Run(cfg, evs, ss) && t <= |evs|
    ensures ss[t].quarantine == LastN(QUARANTINE_SIZE, History(evs[..t], ss[..t]))
  {
    if t > 0 {
      QuarantineIsRecentHistory(cfg, evs, ss, t - 1);
      RunSplit(cfg, evs, ss, t - 1);
      assert evs[..t][..t - 1] == evs[..t - 1] && ss[..t][..t - 1] == ss[..t - 1];
      StepWindow(cfg, History(evs[..t - 1], ss[..t - 1]), ss[t - 1], evs[t - 1], ss[t]);
    }
  }

  // ---- the holdout is a window on the samples held out ----

  // The samples set aside so far, in order.
  function HeldOut(evs: seq<Event>): seq<Sample> {
    if evs == [] then []
    else
      var e := evs[|evs| - 1];
      HeldOut(evs[..|evs| - 1]) + if e.Sampled? && e.held then [Sample(e.x, e.y)] else []
  }

  lemma StepHoldout(cfg: Config, s: NodeState, e: Event, s': NodeState)
    requires Step(cfg, s, e, s')
    ensures s'.holdout == if e.Sampled? && e.held then LastN(60, s.holdout + [Sample(e.x, e.y)]) else s.holdout
  {
    if e.Gossiped? || e.Corrected? {
      StepKinds(cfg, s, e, s');
      if batch, q, t, c :| Attempts(cfg, s, e, batch, q, t, c, s') {
        AttemptCost(cfg, s, e, batch, q, t, c, s');
      }
    }
  }

  // At every point of a run the holdout is exactly the last 60 samples held out: no
  // gossip, correction or calibration reaches it.
  lemma {:induction false} HoldoutIsRecentHistory(cfg: Config, evs: seq<Event>, ss: seq<NodeState>, t: nat)
    requires Run(cfg, evs, ss) && t <= |evs|
    ensures ss[t].holdout == LastN(60, HeldOut(evs[..t]))
  {
    if t > 0 {
      HoldoutIsRecentHistory(cfg, evs, ss, t - 1);
      RunSplit(cfg, evs, ss, t - 1);
      var e := evs[t - 1];
      StepHoldout(cfg, ss[t - 1], e, ss[t]);
      assert evs[..t][..t - 1] == evs[..t - 1];
      if e.Sampled? && e.held {
        LastNPush(60, HeldOut(evs[..t - 1]), Sample(e.x, e.y));
      } else {
        assert HeldOut(evs[..t - 1]) + [] == HeldOut(evs[..t - 1]);
      }
    }
  }

  // A minority is refused: whoever claims p's label near p lies in `camp`, and
  // camp is below the quorum or outnumbered by some other label's voters there.
  lemma MinorityIsRefused(q: seq<Claim>, p: Proto, sender: Id, radius: real, camp: set<Id>, other: int)
    requires sender in camp
    requires forall c | c in q && c.proto.lbl == p.lbl && Near(c.proto.vector, p.vector, radius) :: c.sender in camp
    requires |camp| < CORROBORATION || (other != p.lbl && |Voters(q, p, other, radius)| > |camp|)
    ensures !Corroborated(q, p, sender, radius)
  {
    SubsetSize(Backers(q, p, sender, p.lbl, radius), camp);
  }

  // ---- trust ----

  ghost predicate TrustBounded(trust: map<Id, real>) {
    forall id | id in trust :: 0.0 <= trust[id] <= 1.0
  }

  lemma HitRate(labels: seq<Option<int>>, samples: seq<Sample>)
    requires SeenCount(labels) > 0
    ensures 0.0 <= HitCount(labels, samples) as real / SeenCount(labels) as real <= 1.0
  {
    Ratio(HitCount(labels, samples), SeenCount(labels));
  }

  lemma {:induction false} CalibrationBounded(self: Id, trust: map<Id, real>, directory: seq<Peer>,
                                              samples: seq<Sample>)
    requires TrustBounded(trust)
    ensures TrustBounded(CalibratedAll(self, trust, directory, samples))
    decreases |directory|
  {
    if directory != [] && samples != [] {
      var peer := directory[0];
      var labels := Answers(peer.answer, samples);
      if SeenCount(labels) > 0 {
        HitRate(labels, samples);
      }
      var next := if peer.id == self then trust else Calibrated(trust, peer.id, labels, samples);
      assert TrustBounded(next);
      CalibrationBounded(self, next, directory[1..], samples);
    }
  }

  // A judged merge moves its sender's trust, and only that, towards the outcome.
  ghost predicate Judged(s: NodeState, sender: Id, s': NodeState) {
    var t := TrustOf(s.trust, sender);
    && t >= TRUST_FLOOR
    && (|| (Rejects(s, s') && s'.mergesOk == s.mergesOk && s'.trust == s.trust[sender := Ema(t, 0.0)])
        || (Accepts(s, s') && s'.mergesRejected == s.mergesRejected && s'.trust == s.trust[sender := Ema(t, 1.0)]))
  }

  lemma StepTrust(cfg: Config, s: NodeState, e: Event, s': NodeState)
    requires Step(cfg, s, e, s') && !e.Recalibrated?
    ensures (e.Gossiped? && Judged(s, e.msg.sender, s')) || s'.trust == s.trust
    ensures e.Gossiped? && !Judged(s, e.msg.sender, s') ==> !Rejects(s, s') && !Accepts(s, s')
  {
    if e.Gossiped? || e.Corrected? {
      StepKinds(cfg, s, e, s');
      if batch, q, t, c :| Attempts(cfg, s, e, batch, q, t, c, s') {
        AttemptTrust(cfg, s, e, batch, q, t, c, s');
      }
    }
  }

  lemma AttemptTrust(cfg: Config, s: NodeState, e: Event, batch: seq<Proto>, q: seq<Claim>, t: real, c: Union,
                     s': NodeState)
    requires Attempts(cfg, s, e, batch, q, t, c, s')
    ensures (e.Gossiped? && Judged(s, e.msg.sender, s')) || s'.trust == s.trust
    ensures e.Gossiped? && !Judged(s, e.msg.sender, s') ==> !Rejects(s, s') && !Accepts(s, s')
  {
    if e.Gossiped? {
      JudgeTrust(cfg, s, q, c, e.msg.sender, t, s');
    }
  }

  lemma JudgeTrust(cfg: Config, s: NodeState, q: seq<Claim>, c: Union, sender: Id, t: real, s': NodeState)
    requires t == TrustOf(s.trust, sender) >= TRUST_FLOOR && s' == Judge(cfg, s.(quarantine := q), c, sender, t)
    ensures Judged(s, sender, s') || (s'.trust == s.trust && !Rejects(s, s') && !Accepts(s, s'))
  {
  }

  predicate Rejects(s: NodeState, s': NodeState) { s'.mergesRejected == s.mergesRejected + 1 }

  predicate Accepts(s: NodeState, s': NodeState) { s'.mergesOk == s.mergesOk + 1 }

  // All trust values stay in [0, 1].
  lemma {:induction false} TrustStaysInUnit(cfg: Config, evs: seq<Event>, ss: seq<NodeState>, t: nat)
    requires Run(cfg, evs, ss) && t <= |evs|
    ensures TrustBounded(ss[t].trust)
  {
    if t > 0 {
      TrustStaysInUnit(cfg, evs, ss, t - 1);
      RunSplit(cfg, evs, ss, t - 1);
      var s, e, s' := ss[t - 1], evs[t - 1], ss[t];
      if e.Recalibrated? {
        CalibrationBounded(cfg.id, s.trust, e.directory, s.holdout);
      } else {
        StepTrust(cfg, s, e, s');
      }
    }
  }

  // e is a calibration that asks peer id.
  ghost predicate Asks(e: Event, id: Id) {
    e.Recalibrated? && exists i :: 0 <= i < |e.directory| && e.directory[i].id == id
  }

  lemma UnaskedUntouched(cfg: Config, s: NodeState, e: Event, s': NodeState, id: Id)
    requires Step(cfg, s, e, s') && e.Recalibrated? && !Asks(e, id)
    ensures TrustOf(s'.trust, id) == TrustOf(s.trust, id)
  {
    OthersUntouched(cfg.id, s.trust, e.directory, s.holdout, id);
  }

  lemma FloorStep(cfg: Config, s: NodeState, e: Event, s': NodeState, id: Id)
    requires Step(cfg, s, e, s') && !Asks(e, id) && TrustOf(s.trust, id) < TRUST_FLOOR
    ensures TrustOf(s'.trust, id) == TrustOf(s.trust, id)
    ensures e.Gossiped? && e.msg.sender == id ==> s' == s
  {
    if e.Recalibrated? {
      UnaskedUntouched(cfg, s, e, s', id);
    } else {
      StepTrust(cfg, s, e, s');
    }
  }

  lemma {:induction false} FloorStays(cfg: Config, evs: seq<Event>, ss: seq<NodeState>, i: nat, j: nat, id: Id)
    requires Run(cfg, evs, ss) && i <= j <= |evs| && TrustOf(ss[i].trust, id) < TRUST_FLOOR
    requires forall t | i <= t < j :: !Asks(evs[t], id)
    ensures TrustOf(ss[j].trust, id) == TrustOf(ss[i].trust, id)
    decreases j
  {
    if i < j {
      var t := j - 1;
      FloorStays(cfg, evs, ss, i, t, id);
      RunSplit(cfg, evs, ss, t);
      FloorStep(cfg, ss[t], evs[t], ss[j], id);
    }
  }

  // Once below the floor a sender stays exactly there until a calibration asks it,
  // and none of its gossip changes anything at all.
  lemma FloorIsAbsorbing(cfg: Config, evs: seq<Event>, ss: seq<NodeState>, i: nat, j: nat, id: Id)
    requires Run(cfg, evs, ss) && i <= j <= |evs| && TrustOf(ss[i].trust, id) < TRUST_FLOOR
    requires forall t | i <= t < j :: !Asks(evs[t], id)
    ensures TrustOf(ss[j].trust, id) == TrustOf(ss[i].trust, id)
    ensures forall t | i <= t < j && evs[t].Gossiped? && evs[t].msg.sender == id :: SameState(ss, t)
  {
    FloorStays(cfg, evs, ss, i, j, id);
    forall t | i <= t < j && evs[t].Gossiped? && evs[t].msg.sender == id ensures SameState(ss, t) {
      FloorStays(cfg, evs, ss, i, t, id);
      RunSplit(cfg, evs, ss, t);
      FloorStep(cfg, ss[t], evs[t], ss[t + 1], id);
    }
  }

  // Step t left the node as it was.
  ghost predicate SameState(ss: seq<NodeState>, t: int) {
    0 <= t < |ss| - 1 && ss[t + 1] == ss[t]
  }

  // How many further rejections take trust t below the floor.
  function RejectionsLeft(t: real): nat {
    if t < TRUST_FLOOR then 0
    else if 0.7 * t < TRUST_FLOOR then 1
    else if 0.49 * t < TRUST_FLOOR then 2
    else if 0.343 * t < TRUST_FLOOR then 3
    else if 0.2401 * t < TRUST_FLOOR then 4
    else if 0.16807 * t < TRUST_FLOOR then 5
    else 6
  }

  // Merges of one sender that were rolled back, and that were committed.
  ghost function Charged(evs: seq<Event>, ss: seq<NodeState>, id: Id): (nat, nat)
    requires |ss| == |evs| + 1
  {
    var n := |evs|;
    if n == 0 then (0, 0)
    else
      var (bad, good) := Charged(evs[..n - 1], ss[..n], id);
      if evs[n - 1].Gossiped? && evs[n - 1].msg.sender == id then
        (bad + (if Rejects(ss[n - 1], ss[n]) then 1 else 0), good + (if Accepts(ss[n - 1], ss[n]) then 1 else 0))
      else (bad, good)
  }

  lemma StepCharge(cfg: Config, s: NodeState, e: Event, s': NodeState, id: Id, bad: nat, good: nat)
    requires Step(cfg, s, e, s') && !e.Recalibrated? && TrustBounded(s.trust)
    requires bad + RejectionsLeft(TrustOf(s.trust, id)) <= 4 + 6 * good
    ensures var mine := e.Gossiped? && e.msg.sender == id;
            bad + (if mine && Rejects(s, s') then 1 else 0) + RejectionsLeft(TrustOf(s'.trust, id))
            <= 4 + 6 * (good + if mine && Accepts(s, s') then 1 else 0)
  {
    StepTrust(cfg, s, e, s');
  }

  // How often a calibration asked id.
  ghost function TimesAsked(evs: seq<Event>, id: Id): nat {
    if evs == [] then 0
    else TimesAsked(evs[..|evs| - 1], id) + if Asks(evs[|evs| - 1], id) then 1 else 0
  }

  // One sender's rolled-back merges never exceed 4 + 6 times its committed ones and
  // the calibrations that asked it, each of which may restore its trust.
  lemma {:induction false} RejectionsAreBudgeted(cfg: Config, evs: seq<Event>, ss: seq<NodeState>, id: Id)
    requires Run(cfg, evs, ss)
    ensures var (bad, good) := Charged(evs, ss, id);
            bad + RejectionsLeft(TrustOf(ss[|evs|].trust, id)) <= 4 + 6 * (good + TimesAsked(evs, id))
    decreases |evs|
  {
    var n := |evs|;
    if n > 0 {
      RunSplit(cfg, evs, ss, n - 1);
      RejectionsAreBudgeted(cfg, evs[..n - 1], ss[..n], id);
      TrustStaysInUnit(cfg, evs, ss, n - 1);
      var (bad, good) := Charged(evs[..n - 1], ss[..n], id);
      var e, asked := evs[n - 1], TimesAsked(evs[..n - 1], id);
      if !e.Recalibrated? {
        StepCharge(cfg, ss[n - 1], e, ss[n], id, bad, good + asked);
      } else if !Asks(e, id) {
        UnaskedUntouched(cfg, ss[n - 1], e, ss[n], id);
      }
    }
  }

  // ---- what merges may cost ----

  // e learned a sample, without raising.
  ghost predicate Learned(cfg: Config, s: NodeState, e: Event) {
    e.Sampled? && !e.held && LearnCompletes(cfg.radii, cfg.budget, s.protos, e.x, e.y)
  }

  lemma StepCost(cfg: Config, s: NodeState, e: Event, s': NodeState)
    requires Step(cfg, s, e, s')
    ensures s'.version.counter + s.mergesOk == s.version.counter + s'.mergesOk + if Learned(cfg, s, e) then 1 else 0
    ensures s'.version == s.version || s'.version.nodeId == cfg.id
    ensures !e.Sampled? ==> s'.holdout == s.holdout && (s'.mergesOk == s.mergesOk || Accepts(s, s'))
    ensures !e.Sampled? && s'.mergesOk == s.mergesOk ==> s'.protos == s.protos && s'.version == s.version
    ensures !e.Sampled? && Accepts(s, s') ==>
              Accuracy(s'.protos, s.holdout) >= Accuracy(s.protos, s.holdout) - DEGRADE_EPS
  {
    if e.Gossiped? || e.Corrected? {
      StepKinds(cfg, s, e, s');
      if batch, q, t, c :| Attempts(cfg, s, e, batch, q, t, c, s') {
        AttemptCost(cfg, s, e, batch, q, t, c, s');
      }
    }
  }

  lemma AttemptCost(cfg: Config, s: NodeState, e: Event, batch: seq<Proto>, q: seq<Claim>, t: real, c: Union,
                    s': NodeState)
    requires Attempts(cfg, s, e, batch, q, t, c, s')
    ensures s'.version.counter + s.mergesOk == s.version.counter + s'.mergesOk
    ensures s'.version == s.version || s'.version.nodeId == cfg.id
    ensures s'.holdout == s.holdout && (s'.mergesOk == s.mergesOk || Accepts(s, s'))
    ensures s'.mergesOk == s.mergesOk ==> s'.protos == s.protos && s'.version == s.version
    ensures Accepts(s, s') ==> Accuracy(s'.protos, s.holdout) >= Accuracy(s.protos, s.holdout) - DEGRADE_EPS
  {
  }

  // While no sample arrives the holdout is fixed: k committed merges cost at most
  // k * DEGRADE_EPS of its accuracy, and none at all leaves the model untouched.
  lemma {:induction false} MergesCostLittle(cfg: Config, evs: seq<Event>, ss: seq<NodeState>, i: nat, j: nat)
    requires Run(cfg, evs, ss) && i <= j <= |evs|
    requires forall t | i <= t < j :: !evs[t].Sampled?
    ensures ss[j].holdout == ss[i].holdout && ss[j].mergesOk >= ss[i].mergesOk
    ensures Accuracy(ss[j].protos, ss[i].holdout) >=
            Accuracy(ss[i].protos, ss[i].holdout) - (ss[j].mergesOk - ss[i].mergesOk) as real * DEGRADE_EPS
    ensures ss[j].mergesOk == ss[i].mergesOk ==> ss[j].protos == ss[i].protos && ss[j].version == ss[i].version
    decreases j
  {
    if i < j {
      MergesCostLittle(cfg, evs, ss, i, j - 1);
      RunSplit(cfg, evs, ss, j - 1);
      StepCost(cfg, ss[j - 1], evs[j - 1], ss[j]);
    }
  }

  ghost function LearnCount(cfg: Config, evs: seq<Event>, ss: seq<NodeState>): nat
    requires |ss| >= |evs|
  {
    if evs == [] then 0
    else
      var n := |evs| - 1;
      LearnCount(cfg, evs[..n], ss[..n]) + if Learned(cfg, ss[n], evs[n]) then 1 else 0
  }

  // The version counter is the number of samples learned to the end plus the merges
  // committed, and the version carries the node's own id once it counts anything.
  lemma {:induction false} VersionCountsEverything(cfg: Config, evs: seq<Event>, ss: seq<NodeState>, t: nat)
    requires Run(cfg, evs, ss) && t <= |evs|
    ensures ss[t].version.counter == LearnCount(cfg, evs[..t], ss[..t]) + ss[t].mergesOk
    ensures ss[t].version == Version(0, 0) || ss[t].version.nodeId == cfg.id
  {
    if t > 0 {
      VersionCountsEverything(cfg, evs, ss, t - 1);
      RunSplit(cfg, evs, ss, t - 1);
      StepCost(cfg, ss[t - 1], evs[t - 1], ss[t]);
      assert evs[..t][..t - 1] == evs[..t - 1] && ss[..t][..t - 1] == ss[..t - 1];
    }
  }
}
