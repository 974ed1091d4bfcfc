/** Whole runs of online learning: nothing observed is lost while the labels fit
    the budget. */
module LearnTheorems {
  import opened Seqs
  import opened Prototypes
  import opened PrototypeModels
  import opened PruneTheorems

  function Exemplar(s: Sample): Proto { Proto(s.x, s.y, 1.0) }

  // The samples themselves, one unit-weight prototype each.
  function Exemplars(samples: seq<Sample>): (ps: seq<Proto>)
    ensures |ps| == |samples|
    ensures forall i | 0 <= i < |samples| :: ps[i] == Exemplar(samples[i])
  {
    seq(|samples|, i requires 0 <= i < |samples| => Exemplar(samples[i]))
  }

  function CountOf(samples: seq<Sample>, l: int): nat {
    if samples == [] then 0 else (if samples[0].y == l then 1 else 0) + CountOf(samples[1..], l)
  }

  lemma {:induction false} ExemplarsCount(samples: seq<Sample>, l: int)
    ensures LabelWeight(Exemplars(samples), l) == CountOf(samples, l) as real
  {
    if samples != [] {
      ExemplarsCount(samples[1..], l);
      assert Exemplars(samples)[1..] == Exemplars(samples[1..]);
    }
  }

  ghost predicate Inside(ps: seq<Proto>, orig: seq<Proto>) {
    forall l, k, lo, hi | InBox(orig, l, k, lo, hi) :: InBox(ps, l, k, lo, hi)
  }

  // What learning alone leads to: one shape and positive weights.
  ghost predicate Counted(ps: seq<Proto>) {
    Uniform(ps) && PositiveWeights(ps)
  }

  // ps stands for everything in orig.
  ghost predicate StandsFor(ps: seq<Proto>, orig: seq<Proto>) {
    SameTotals(ps, orig) && Labels(ps) == Labels(orig) && Inside(ps, orig)
  }

  lemma AbsorbStandsFor(ps: seq<Proto>, orig: seq<Proto>, i: nat, x: Vec)
    requires Counted(ps) && i < |ps| && |ps[i].vector| == |x| && StandsFor(ps, orig)
    ensures Counted(ps[i := Absorb(ps[i], x)])
    ensures StandsFor(ps[i := Absorb(ps[i], x)], orig + [Proto(x, ps[i].lbl, 1.0)])
  {
    var e := Proto(x, ps[i].lbl, 1.0);
    var c := Absorb(ps[i], x);
    var qs, all := ps[i := c], orig + [e];
    assert ps[i] in ps;
    CentroidTotals(ps[i], e);
    CentroidBetween(ps[i], e);
    assert forall p | p in qs :: p in ps || p == c;
    AppendTotals(orig, e);
    forall l ensures LabelWeight(qs, l) == LabelWeight(all, l) {
      SumUpdate(WeightIn(l), ps, i, c);
    }
    forall l, k: nat ensures LabelMoment(qs, l, k) == LabelMoment(all, l, k) {
      SumUpdate(MomentIn(l, k), ps, i, c);
    }
    AppendLabels(orig, e);
    assert Labels(qs) == Labels(ps) by {
      forall l | l in Labels(ps) ensures l in Labels(qs) {
        var a :| 0 <= a < |ps| && ps[a].lbl == l;
        assert qs[a].lbl == l;
      }
    }
    assert e in all;
    forall l, k, lo, hi | InBox(all, l, k, lo, hi) ensures InBox(qs, l, k, lo, hi) {
      assert InBox(orig, l, k, lo, hi);
    }
  }

  lemma AppendTotals(orig: seq<Proto>, e: Proto)
    ensures forall l :: LabelWeight(orig + [e], l) == LabelWeight(orig, l) + WeightIn(l)(e)
    ensures forall l, k: nat :: LabelMoment(orig + [e], l, k) == LabelMoment(orig, l, k) + MomentIn(l, k)(e)
  {
    forall l ensures LabelWeight(orig + [e], l) == LabelWeight(orig, l) + WeightIn(l)(e) {
      SumAppend(WeightIn(l), orig, [e]);
      assert Sum(WeightIn(l), [e]) == WeightIn(l)(e) + Sum(WeightIn(l), [e][1..]);
    }
    forall l, k: nat ensures LabelMoment(orig + [e], l, k) == LabelMoment(orig, l, k) + MomentIn(l, k)(e) {
      SumAppend(MomentIn(l, k), orig, [e]);
      assert Sum(MomentIn(l, k), [e]) == MomentIn(l, k)(e) + Sum(MomentIn(l, k), [e][1..]);
    }
  }

  lemma AppendLabels(orig: seq<Proto>, e: Proto)
    ensures Labels(orig + [e]) == Labels(orig) + {e.lbl}
  {
    assert e in orig + [e];
  }

  lemma AppendStandsFor(ps: seq<Proto>, orig: seq<Proto>, e: Proto)
    requires StandsFor(ps, orig)
    ensures StandsFor(ps + [e], orig + [e])
  {
    AppendTotals(ps, e);
    AppendTotals(orig, e);
    AppendLabels(ps, e);
    AppendLabels(orig, e);
    assert e in orig + [e];
    forall l, k, lo, hi | InBox(orig + [e], l, k, lo, hi) ensures InBox(ps + [e], l, k, lo, hi) {
      assert InBox(orig, l, k, lo, hi);
    }
  }

  lemma {:induction false} PruneKeepsCounted(ps: seq<Proto>, budget: nat, rs: seq<Proto>)
    requires Prunes(ps, budget, rs) && Counted(ps)
    ensures Counted(rs)
    decreases |ps|
  {
    if |ps| > budget {
      var qs :| PruneStep(ps, qs) && |qs| < |ps| && Prunes(qs, budget, rs);
      StepKeepsCounted(ps, qs);
      PruneKeepsCounted(qs, budget, rs);
    }
  }

  lemma StepKeepsCounted(ps: seq<Proto>, qs: seq<Proto>)
    requires PruneStep(ps, qs) && Counted(ps)
    ensures Counted(qs)
  {
    if i, j :| ClosestPair(ps, i, j) && qs == Consolidate(ps, i, j) {
      ConsolidateMembers(ps, i, j);
      assert ps[i] in ps && ps[j] in ps;
    } else {
      var i :| Lightest(ps, i) && qs == RemoveAt(ps, i);
      RemoveAtMembers(ps, i);
    }
  }

  lemma PruneStandsFor(ps: seq<Proto>, budget: nat, rs: seq<Proto>, orig: seq<Proto>)
    requires Prunes(ps, budget, rs) && Counted(ps) && |Labels(ps)| <= budget && StandsFor(ps, orig)
    ensures Counted(rs) && StandsFor(rs, orig)
  {
    PositiveIsSound(ps);
    PruneKeepsCounted(ps, budget, rs);
    PruneConserves(ps, budget, rs);
    PruneStaysInside(ps, budget, rs);
    assert forall l, k, lo, hi | InBox(orig, l, k, lo, hi) :: InBox(ps, l, k, lo, hi);
  }

  // A run of `learn` from the empty model.
  ghost predicate LearnRun(radii: Radii, budget: nat, samples: seq<Sample>, states: seq<seq<Proto>>) {
    && |states| == |samples| + 1 && states[0] == []
    && forall t | 0 <= t < |samples| ::
         Learns(radii, budget, states[t], samples[t].x, samples[t].y, states[t + 1])
  }

  lemma {:induction false} RunStandsFor(radii: Radii, budget: nat, dim: nat, samples: seq<Sample>,
                                        states: seq<seq<Proto>>)
    requires LearnRun(radii, budget, samples, states)
    requires forall s | s in samples :: |s.x| == dim
    requires |Labels(Exemplars(samples))| <= budget
    ensures var ps := states[|samples|]; |ps| <= budget && OfDim(ps, dim) && Counted(ps)
    ensures StandsFor(states[|samples|], Exemplars(samples))
    decreases |samples|
  {
    var n := |samples|;
    if n > 0 {
      var prior, s := samples[..n - 1], samples[n - 1];
      var orig := Exemplars(prior);
      assert Exemplars(samples) == orig + [Exemplar(s)];
      AppendLabels(orig, Exemplar(s));
      SubsetSize(Labels(orig), Labels(Exemplars(samples)));
      RunStandsFor(radii, budget, dim, prior, states[..n]);
      LearnStandsFor(radii, budget, dim, states[n - 1], s, states[n], orig);
    }
  }

  lemma LearnStandsFor(radii: Radii, budget: nat, dim: nat, ps: seq<Proto>, s: Sample, qs: seq<Proto>, orig: seq<Proto>)
    requires Learns(radii, budget, ps, s.x, s.y, qs) && |s.x| == dim
    requires |ps| <= budget && OfDim(ps, dim) && Counted(ps) && StandsFor(ps, orig)
    requires |Labels(orig + [Exemplar(s)])| <= budget
    ensures |qs| <= budget && OfDim(qs, dim) && Counted(qs) && StandsFor(qs, orig + [Exemplar(s)])
  {
    if exists i :: AbsorbsAt(radii, budget, ps, s.x, s.y, i) {
      var i :| AbsorbsAt(radii, budget, ps, s.x, s.y, i) && qs == ps[i := Absorb(ps[i], s.x)];
      AbsorbStandsFor(ps, orig, i, s.x);
    } else {
      AddStandsFor(budget, dim, ps, Exemplar(s), qs, orig);
    }
  }

  lemma AddStandsFor(budget: nat, dim: nat, ps: seq<Proto>, e: Proto, qs: seq<Proto>, orig: seq<Proto>)
    requires OfDim(ps, dim) && |e.vector| == dim && e.weight > 0.0 && Counted(ps) && StandsFor(ps, orig)
    requires Prunes(ps + [e], budget, qs) && |Labels(orig + [e])| <= budget
    ensures |qs| <= budget && OfDim(qs, dim) && Counted(qs) && StandsFor(qs, orig + [e])
  {
    var grown := ps + [e];
    AppendStandsFor(ps, orig, e);
    GrownCounted(dim, ps, e);
    PruneStandsFor(grown, budget, qs, orig + [e]);
    PruneSize(grown, budget, qs);
  }

  lemma GrownCounted(dim: nat, ps: seq<Proto>, e: Proto)
    requires OfDim(ps, dim) && |e.vector| == dim && e.weight > 0.0 && Counted(ps)
    ensures OfDim(ps + [e], dim) && Counted(ps + [e])
  {
  }

  // Learning never exceeds the budget and forgets nothing: each label's weight is
  // its number of samples, its weighted vector sum is the sum of those samples,
  // and no coordinate leaves the range the samples spanned.
  lemma LearnRunConserves(radii: Radii, budget: nat, dim: nat, samples: seq<Sample>, states: seq<seq<Proto>>)
    requires LearnRun(radii, budget, samples, states)
    requires forall s | s in samples :: |s.x| == dim
    requires |Labels(Exemplars(samples))| <= budget
    ensures var ps := states[|samples|];
            && |ps| <= budget
            && Labels(ps) == Labels(Exemplars(samples))
            && (forall l :: LabelWeight(ps, l) == CountOf(samples, l) as real)
            && (forall l, k: nat :: LabelMoment(ps, l, k) == LabelMoment(Exemplars(samples), l, k))
            && Inside(ps, Exemplars(samples))
  {
    RunStandsFor(radii, budget, dim, samples, states);
    forall l ensures LabelWeight(states[|samples|], l) == CountOf(samples, l) as real {
      ExemplarsCount(samples, l);
    }
  }

  // Whatever is learned, one call keeps the budget exactly when it does not raise
  // in the pruning.
  lemma LearnBoundedExactly(radii: Radii, budget: nat, ps: seq<Proto>, x: Vec, l: int, qs: seq<Proto>)
    requires Learns(radii, budget, ps, x, l, qs) && |ps| <= budget
    ensures |qs| <= budget <==> LearnCompletes(radii, budget, ps, x, l) || !Comparable(ps, x, l)
  {
    var grown := ps + [Proto(x, l, 1.0)];
    if Comparable(ps, x, l) && !(exists i :: AbsorbsAt(radii, budget, ps, x, l, i)) && !PruneRaises(grown, budget) {
      PruneSize(grown, budget, qs);
    }
  }

  // Learning (x, l) neither completes nor raises before it has changed anything.
  ghost predicate RaisesInPruning(radii: Radii, budget: nat, ps: seq<Proto>, s: Sample) {
    Comparable(ps, s.x, s.y) && !LearnCompletes(radii, budget, ps, s.x, s.y)
  }

  lemma StepBounded(radii: Radii, budget: nat, samples: seq<Sample>, states: seq<seq<Proto>>, t: nat)
    requires LearnRun(radii, budget, samples, states) && t < |samples| && |states[t]| <= budget
    ensures |states[t + 1]| <= budget <==> !RaisesInPruning(radii, budget, states[t], samples[t])
  {
    LearnBoundedExactly(radii, budget, states[t], samples[t].x, samples[t].y, states[t + 1]);
  }

  // The first n calls, and the states up to there.
  ghost predicate NoneRaises(radii: Radii, budget: nat, samples: seq<Sample>, states: seq<seq<Proto>>, n: nat)
    requires n <= |samples| <= |states|
  {
    forall t | 0 <= t < n :: !RaisesInPruning(radii, budget, states[t], samples[t])
  }

  predicate WithinBudget(budget: nat, states: seq<seq<Proto>>, n: nat)
    requires n < |states|
  {
    forall t | 0 <= t <= n :: |states[t]| <= budget
  }

  // With any number of labels and any shapes, a run stays within the budget
  // throughout exactly when no call raises in the pruning ...
  lemma {:induction false} LearnRunBoundedExactly(radii: Radii, budget: nat, samples: seq<Sample>,
                                                  states: seq<seq<Proto>>, n: nat)
    requires LearnRun(radii, budget, samples, states) && n <= |samples|
    ensures WithinBudget(budget, states, n) <==> NoneRaises(radii, budget, samples, states, n)
  {
    if n > 0 {
      LearnRunBoundedExactly(radii, budget, samples, states, n - 1);
      if WithinBudget(budget, states, n - 1) {
        StepBounded(radii, budget, samples, states, n - 1);
      }
    }
  }

  // ... so one of calls that complete does, ...
  lemma LearnRunBounded(radii: Radii, budget: nat, samples: seq<Sample>, states: seq<seq<Proto>>)
    requires LearnRun(radii, budget, samples, states)
    requires forall t | 0 <= t < |samples| :: LearnCompletes(radii, budget, states[t], samples[t].x, samples[t].y)
    ensures |states[|samples|]| <= budget
  {
    LearnRunBoundedExactly(radii, budget, samples, states, |samples|);
  }

  // ... and one that raises there overruns it: a single coordinate combines with a pair,
  // but the two do not stack.
  lemma MixedShapesOverrun()
    ensures var radii, ps, x := Radii(0.5, 1.0, 1.5, 0.6), [Proto([0.0], 0, 1.0)], [5.0, 5.0];
            Learns(radii, 1, ps, x, 0, ps + [Proto(x, 0, 1.0)]) && Comparable(ps, x, 0)
  {
    var radii, ps, x := Radii(0.5, 1.0, 1.5, 0.6), [Proto([0.0], 0, 1.0)], [5.0, 5.0];
    var p := Proto([0.0], 0, 1.0);
    assert GapsTo(p.vector, x, 0) == 0.0;
    assert GapsTo(p.vector, x, 1) == 25.0;
    assert Dist2(p.vector, x) == GapsTo(p.vector, x, 2) == 50.0;
    assert forall i :: !AbsorbsAt(radii, 1, ps, x, 0, i);
    var grown := ps + [Proto(x, 0, 1.0)];
    assert grown[0] in grown && grown[1] in grown;
  }
}
