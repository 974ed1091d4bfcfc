/** Where shapes that do not fit raise, in terms of the shapes alone, and what a raise
    leaves behind. */
module RaiseLaws {
  import opened Prototypes
  import opened PrototypeModels
  import opened SwarmNodes
  import opened Nearness

  // Two prototypes, both of the given label, of different shapes.
  ghost predicate Mixed(ps: seq<Proto>, l: int) {
    exists i, j :: 0 <= i < |ps| && 0 <= j < |ps| && ps[i].lbl == l && ps[j].lbl == l
                && |ps[i].vector| != |ps[j].vector|
  }

  // Array arithmetic on these two lengths raises: they differ and neither is one.
  predicate Misfits(m: nat, n: nat) { m != n && m != 1 && n != 1 }

  lemma MixedExactly(ps: seq<Proto>)
    ensures LabelUniform(ps) <==> forall l :: !Mixed(ps, l)
  {
    if LabelUniform(ps) {
      forall l ensures !Mixed(ps, l) {
        forall i, j | 0 <= i < |ps| && 0 <= j < |ps| && ps[i].lbl == ps[j].lbl
          ensures |ps[i].vector| == |ps[j].vector|
        {
          assert ps[i] in ps && ps[j] in ps;
        }
      }
    } else {
      var p, q :| p in ps && q in ps && p.lbl == q.lbl && |p.vector| != |q.vector|;
      MixedBy(ps, p, q);
    }
  }

  lemma MixedBy(ps: seq<Proto>, p: Proto, q: Proto)
    requires p in ps && q in ps && p.lbl == q.lbl && |p.vector| != |q.vector|
    ensures Mixed(ps, p.lbl)
  {
    var i :| 0 <= i < |ps| && ps[i] == p;
    var j :| 0 <= j < |ps| && ps[j] == q;
  }

  // Learning raises before it changes anything if and only if the prototypes of the
  // label do not stack, or one of them does not combine with the sample.
  lemma ComparingRaises(ps: seq<Proto>, x: Vec, l: int)
    ensures !Comparable(ps, x, l) <==>
            Mixed(ps, l) || exists p :: p in ps && p.lbl == l && Misfits(|p.vector|, |x|)
  {
    if p, q :| p in ps && q in ps && p.lbl == q.lbl == l && |p.vector| != |q.vector| {
      MixedBy(ps, p, q);
    }
    if Mixed(ps, l) {
      var i, j :| 0 <= i < |ps| && 0 <= j < |ps| && ps[i].lbl == l && ps[j].lbl == l
               && |ps[i].vector| != |ps[j].vector|;
      assert ps[i] in ps && ps[j] in ps;
    }
  }

  // It completes if and only if it gets past that, and the sample is absorbed, there is
  // room for it, or with it every label still stacks.
  lemma LearningCompletes(radii: Radii, budget: nat, ps: seq<Proto>, x: Vec, l: int)
    ensures LearnCompletes(radii, budget, ps, x, l) <==>
            && !Mixed(ps, l) && (forall p | p in ps && p.lbl == l :: !Misfits(|p.vector|, |x|))
            && (|| (exists i :: NearestOf(ps, x, l, i) && Within(ps[i].vector, x, AbsorbRadius(radii, budget, |ps|)))
                || |ps| < budget || forall k :: !Mixed(ps + [Proto(x, l, 1.0)], k))
  {
    ComparingRaises(ps, x, l);
    MixedExactly(ps + [Proto(x, l, 1.0)]);
    forall i ensures NearestOf(ps, x, l, i) <==> NearestOfLabel(ps, x, l, i) {
    }
    if i :| AbsorbsAt(radii, budget, ps, x, l, i) {
      assert NearestOf(ps, x, l, i);
    }
    if i :| NearestOf(ps, x, l, i) && Within(ps[i].vector, x, AbsorbRadius(radii, budget, |ps|)) {
      assert AbsorbsAt(radii, budget, ps, x, l, i);
    }
  }

  // A raise leaves the model as it was, or with the sample added and not pruned; a
  // sample in a model where it neither raises nor prunes early is always learned.
  lemma LearningRaised(radii: Radii, budget: nat, ps: seq<Proto>, x: Vec, l: int, qs: seq<Proto>)
    requires Learns(radii, budget, ps, x, l, qs) && !LearnCompletes(radii, budget, ps, x, l)
    ensures qs == if Comparable(ps, x, l) then ps + [Proto(x, l, 1.0)] else ps
  {
  }

  // Merging into a model of one shape never raises. Into a mixed one it does if and only
  // if some new prototype has the shape of the model's first and so gets compared, or the
  // model itself is over its budget with a label that does not stack.
  lemma MergingRaises(budget: nat, ps: seq<Proto>, batch: seq<Proto>)
    ensures MergeRaises(budget, ps, batch) <==>
            && (exists p, q :: p in ps && q in ps && |p.vector| != |q.vector|)
            && (|| (exists b :: b in batch && |b.vector| == |ps[0].vector|
                             && forall p | p in ps :: KeyOf(p) != KeyOf(b))
                || (|ps| > budget && exists l :: Mixed(ps, l)))
  {
    MixedExactly(ps);
    if p, q :| p in ps && q in ps && |p.vector| != |q.vector| {
      assert ps != [];
      forall b ensures KeyOf(b) !in Keys(ps) <==> forall p | p in ps :: KeyOf(p) != KeyOf(b) {
      }
    }
  }

  // Scoring raises if and only if there is something to score with and the held-out
  // samples do not stack, or the prototypes do not, or the two do not combine.
  lemma ScoringRaises(ps: seq<Proto>, samples: seq<Sample>)
    ensures !Scorable(ps, samples) <==>
            || (exists s, t :: s in samples && t in samples && |s.x| != |t.x|)
            || (samples != [] && exists p, q :: p in ps && q in ps && |p.vector| != |q.vector|)
            || (samples != [] && ps != [] && Misfits(|samples[0].x|, |ps[0].vector|))
  {
  }

  // A gossip message or a correction whose merge raises changes the quarantine alone; the
  // one who submitted the correction sees the error.
  lemma RaisedAttempts(cfg: Config, s: NodeState, batch: seq<Proto>, sender: Id, t: real, s': NodeState)
    requires !Scorable(s.protos, s.holdout) || MergeRaises(cfg.budget, s.protos, batch)
    ensures MergeJudged(cfg, s, batch, sender, t, s') <==> s' == s
  {
  }

  lemma RaisedCorrections(cfg: Config, s: NodeState, p: Proto, s': NodeState, reply: Reply)
    requires !Scorable(s.protos, s.holdout) || MergeRaises(cfg.budget, s.protos, [p])
    ensures ClaimJudged(cfg, s, p, s', reply) <==> s' == s && reply == Raised
  {
  }
}
