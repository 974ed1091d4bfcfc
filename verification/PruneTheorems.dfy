/** What consolidation down to a budget keeps, for every way ties may break. */
module PruneTheorems {
  import opened Seqs
  import opened Prototypes
  import opened PrototypeModels

  // ---- one weighted average ----

  predicate Between(u: real, m: real, v: real) {
    u <= m <= v || v <= m <= u
  }

  // Neither weight pulls against the other.
  predicate SameSign(a: real, b: real) {
    (a >= 0.0 && b >= 0.0) || (a <= 0.0 && b <= 0.0)
  }

  lemma MeanKeepsMoment(u: real, a: real, v: real, b: real)
    requires a + b != 0.0
    ensures Mean(u, a, v, b) * (a + b) == u * a + v * b
  {
    Quotient(u * a + v * b, a + b);
  }

  lemma Quotient(t: real, w: real)
    requires w != 0.0
    ensures t / w * w == t
  {
  }

  // The mean of two different coordinates lies between them exactly when the
  // weights do not have opposite signs.
  lemma MeanBetweenExactly(u: real, a: real, v: real, b: real)
    requires a + b != 0.0
    ensures SameSign(a, b) ==> Between(u, Mean(u, a, v, b), v)
    ensures u != v && Between(u, Mean(u, a, v, b), v) ==> SameSign(a, b)
  {
    var m, w := Mean(u, a, v, b), a + b;
    MeanKeepsMoment(u, a, v, b);
    // (m - u) * w == (v - u) * b and (v - m) * w == (v - u) * a.
    Expand(m, u, v, a, b);
    Signs(m - u, w, v - u, b);
    Signs(v - m, w, v - u, a);
  }

  lemma Expand(m: real, u: real, v: real, a: real, b: real)
    requires m * (a + b) == u * a + v * b
    ensures (m - u) * (a + b) == (v - u) * b
    ensures (v - m) * (a + b) == (v - u) * a
  {
    assert (m - u) * (a + b) == m * (a + b) - u * (a + b);
    assert (v - m) * (a + b) == v * (a + b) - m * (a + b);
    assert u * (a + b) == u * a + u * b;
    assert v * (a + b) == v * a + v * b;
    assert (v - u) * b == v * b - u * b;
    assert (v - u) * a == v * a - u * a;
  }

  // What equal products say about the signs of their factors.
  lemma Signs(x: real, w: real, y: real, z: real)
    requires x * w == y * z && w != 0.0
    ensures z == 0.0 || y == 0.0 ==> x == 0.0
    ensures y != 0.0 && z != 0.0 ==> x != 0.0 && ((x > 0.0) == (w > 0.0)) == ((y > 0.0) == (z > 0.0))
  {
    ProductSign(x, w);
    ProductSign(y, z);
  }

  lemma ProductSign(x: real, y: real)
    ensures x == 0.0 || y == 0.0 ==> x * y == 0.0
    ensures x != 0.0 && y != 0.0 ==> x * y != 0.0 && (x * y > 0.0) == ((x > 0.0) == (y > 0.0))
  {
    if x > 0.0 && y > 0.0 {
      Positive(x, y);
    } else if x > 0.0 && y < 0.0 {
      Positive(x, -y);
      assert x * -y == -(x * y);
    } else if x < 0.0 && y > 0.0 {
      Positive(-x, y);
      assert -x * y == -(x * y);
    } else if x < 0.0 && y < 0.0 {
      Positive(-x, -y);
      assert -x * -y == x * y;
    }
  }

  lemma Positive(x: real, y: real)
    requires x > 0.0 && y > 0.0
    ensures x * y > 0.0
  {
  }

  // A weight off the wire may have any sign, and then the mean leaves the range.
  lemma OppositeWeightsEscape()
    ensures Centroid(Proto([0.0], 0, 1.0), Proto([1.0], 0, -0.5)).vector == [-1.0]
    ensures !Between(0.0, -1.0, 1.0)
  {
    MeanKeepsMoment(0.0, 1.0, 1.0, -0.5);
  }

  lemma CentroidMean(p: Proto, q: Proto, k: nat)
    requires |p.vector| == |q.vector| && k < |p.vector|
    ensures Centroid(p, q).vector[k] == Mean(p.vector[k], p.weight, q.vector[k], q.weight)
  {
    assert Coord(p.vector, k) == p.vector[k] && Coord(q.vector, k) == q.vector[k];
  }

  lemma CentroidTotals(p: Proto, q: Proto)
    requires p.lbl == q.lbl && |p.vector| == |q.vector| && p.weight + q.weight != 0.0
    ensures forall l :: WeightIn(l)(Centroid(p, q)) == WeightIn(l)(p) + WeightIn(l)(q)
    ensures forall l, k: nat :: MomentIn(l, k)(Centroid(p, q)) == MomentIn(l, k)(p) + MomentIn(l, k)(q)
  {
    forall l, k: nat ensures MomentIn(l, k)(Centroid(p, q)) == MomentIn(l, k)(p) + MomentIn(l, k)(q) {
      if k < |p.vector| {
        CentroidMean(p, q, k);
        MeanKeepsMoment(p.vector[k], p.weight, q.vector[k], q.weight);
      }
    }
  }

  lemma CentroidBetween(p: Proto, q: Proto)
    requires |p.vector| == |q.vector| && p.weight + q.weight != 0.0 && SameSign(p.weight, q.weight)
    ensures forall k: nat | k < |p.vector| :: Between(p.vector[k], Centroid(p, q).vector[k], q.vector[k])
  {
    forall k: nat | k < |p.vector| ensures Between(p.vector[k], Centroid(p, q).vector[k], q.vector[k]) {
      CentroidMean(p, q, k);
      MeanBetweenExactly(p.vector[k], p.weight, q.vector[k], q.weight);
    }
  }

  // ---- weights that never cancel ----

  // Some prototypes of a model, switched on.
  datatype Choice = Choice(p: Proto, on: bool)

  function OnWeight(): Choice -> real {
    (c: Choice) => if c.on then c.p.weight else 0.0
  }

  ghost predicate Chosen(cs: seq<Choice>, ps: seq<Proto>) {
    |cs| == |ps| && forall k | 0 <= k < |ps| :: cs[k].p == ps[k]
  }

  ghost predicate OnlyLabel(cs: seq<Choice>, l: int) {
    forall k | 0 <= k < |cs| && cs[k].on :: cs[k].p.lbl == l
  }

  ghost predicate SeveralOn(cs: seq<Choice>) {
    exists i, j :: 0 <= i < j < |cs| && cs[i].on && cs[j].on
  }

  // No two or more prototypes of one label have weights that sum to zero.
  ghost predicate NoCancel(ps: seq<Proto>) {
    forall cs, l | Chosen(cs, ps) && OnlyLabel(cs, l) && SeveralOn(cs) :: Sum(OnWeight(), cs) != 0.0
  }

  function Off(ps: seq<Proto>): (cs: seq<Choice>)
    ensures |cs| == |ps|
  {
    seq(|ps|, k requires 0 <= k < |ps| => Choice(ps[k], false))
  }

  lemma PairDoesNotCancel(ps: seq<Proto>, i: nat, j: nat)
    requires SameLabelPair(ps, i, j) && NoCancel(ps)
    ensures ps[i].weight + ps[j].weight != 0.0
  {
    var off, f := Off(ps), OnWeight();
    var one := off[i := Choice(ps[i], true)];
    var two := one[j := Choice(ps[j], true)];
    SumZero(f, off);
    SumUpdate(f, off, i, Choice(ps[i], true));
    SumUpdate(f, one, j, Choice(ps[j], true));
    assert two[i].on && two[j].on;
    assert Chosen(two, ps) && OnlyLabel(two, ps[i].lbl) && SeveralOn(two);
  }

  // Undoing a consolidation in a choice: both halves follow the centroid.
  function Unmerged(ps: seq<Proto>, i: nat, j: nat, ds: seq<Choice>): (cs: seq<Choice>)
    requires i < j < |ps| && |ds| == |ps| - 1
    ensures |cs| == |ps|
  {
    seq(|ps|, k requires 0 <= k < |ps| =>
      Choice(ps[k], if k < j then ds[k].on else if k == j then ds[i].on else ds[k - 1].on))
  }

  lemma ConsolidateKeepsNoCancel(ps: seq<Proto>, i: nat, j: nat)
    requires SameLabelPair(ps, i, j) && NoCancel(ps)
    ensures NoCancel(Consolidate(ps, i, j))
  {
    var qs := Consolidate(ps, i, j);
    forall ds: seq<Choice>, l | Chosen(ds, qs) && OnlyLabel(ds, l) && SeveralOn(ds) ensures Sum(OnWeight(), ds) != 0.0 {
      UnmergedSum(ps, i, j, ds);
      UnmergedLabel(ps, i, j, ds, l);
      UnmergedSeveral(ps, i, j, ds);
    }
  }

  lemma UnmergedSum(ps: seq<Proto>, i: nat, j: nat, ds: seq<Choice>)
    requires SameLabelPair(ps, i, j) && Chosen(ds, Consolidate(ps, i, j))
    ensures Sum(OnWeight(), Unmerged(ps, i, j, ds)) == Sum(OnWeight(), ds)
  {
    var cs, f := Unmerged(ps, i, j, ds), OnWeight();
    var c := Choice(Centroid(ps[i], ps[j]), ds[i].on);
    SumUpdate(f, cs, i, c);
    SumRemoveAt(f, cs[i := c], j);
    UnmergedBack(ps, i, j, ds);
    assert f(c) == f(cs[i]) + f(cs[j]);
  }

  lemma UnmergedBack(ps: seq<Proto>, i: nat, j: nat, ds: seq<Choice>)
    requires SameLabelPair(ps, i, j) && Chosen(ds, Consolidate(ps, i, j))
    ensures RemoveAt(Unmerged(ps, i, j, ds)[i := Choice(Centroid(ps[i], ps[j]), ds[i].on)], j) == ds
  {
    var c, qs := Choice(Centroid(ps[i], ps[j]), ds[i].on), Consolidate(ps, i, j);
    var wide := Unmerged(ps, i, j, ds)[i := c];
    var rest := RemoveAt(wide, j);
    forall k | 0 <= k < |ds| ensures rest[k] == ds[k] {
      assert ds[k].p == qs[k];
      if k < j {
        assert rest[k] == wide[k];
      } else {
        assert rest[k] == wide[k + 1];
      }
    }
  }

  lemma UnmergedLabel(ps: seq<Proto>, i: nat, j: nat, ds: seq<Choice>, l: int)
    requires SameLabelPair(ps, i, j) && Chosen(ds, Consolidate(ps, i, j)) && OnlyLabel(ds, l)
    ensures Chosen(Unmerged(ps, i, j, ds), ps) && OnlyLabel(Unmerged(ps, i, j, ds), l)
  {
    var cs, qs := Unmerged(ps, i, j, ds), Consolidate(ps, i, j);
    forall k | 0 <= k < |cs| && cs[k].on ensures cs[k].p.lbl == l {
      var d := if k < j then k else if k == j then i else k - 1;
      assert ds[d].on && ds[d].p == qs[d];
    }
  }

  lemma UnmergedOn(ps: seq<Proto>, i: nat, j: nat, ds: seq<Choice>, k: nat)
    requires i < j < |ps| && |ds| == |ps| - 1 && k < |ds| && ds[k].on
    ensures Unmerged(ps, i, j, ds)[if k < j then k else k + 1].on
  {
  }

  lemma UnmergedSeveral(ps: seq<Proto>, i: nat, j: nat, ds: seq<Choice>)
    requires SameLabelPair(ps, i, j) && |ds| == |ps| - 1 && SeveralOn(ds)
    ensures SeveralOn(Unmerged(ps, i, j, ds))
  {
    var cs := Unmerged(ps, i, j, ds);
    var a, b :| 0 <= a < b < |ds| && ds[a].on && ds[b].on;
    UnmergedOn(ps, i, j, ds, a);
    UnmergedOn(ps, i, j, ds, b);
    SeveralOnAt(cs, if a < j then a else a + 1, if b < j then b else b + 1);
  }

  lemma SeveralOnAt(cs: seq<Choice>, a: nat, b: nat)
    requires a < b < |cs| && cs[a].on && cs[b].on
    ensures SeveralOn(cs)
  {
  }

  // A choice that leaves prototype i out.
  function Without(ps: seq<Proto>, i: nat, ds: seq<Choice>): (cs: seq<Choice>)
    requires i < |ps| && |ds| == |ps| - 1
    ensures |cs| == |ps|
  {
    seq(|ps|, k requires 0 <= k < |ps| =>
      Choice(ps[k], if k < i then ds[k].on else if k == i then false else ds[k - 1].on))
  }

  lemma RemoveKeepsNoCancel(ps: seq<Proto>, i: nat)
    requires i < |ps| && NoCancel(ps)
    ensures NoCancel(RemoveAt(ps, i))
  {
    var qs := RemoveAt(ps, i);
    forall ds: seq<Choice>, l | Chosen(ds, qs) && OnlyLabel(ds, l) && SeveralOn(ds) ensures Sum(OnWeight(), ds) != 0.0 {
      WithoutSum(ps, i, ds);
      WithoutLabel(ps, i, ds, l);
      WithoutSeveral(ps, i, ds);
    }
  }

  lemma WithoutSum(ps: seq<Proto>, i: nat, ds: seq<Choice>)
    requires i < |ps| && Chosen(ds, RemoveAt(ps, i))
    ensures Sum(OnWeight(), Without(ps, i, ds)) == Sum(OnWeight(), ds)
  {
    var cs := Without(ps, i, ds);
    SumRemoveAt(OnWeight(), cs, i);
    var rest := RemoveAt(cs, i);
    forall k | 0 <= k < |ds| ensures rest[k] == ds[k] {
      assert rest[k] == cs[if k < i then k else k + 1];
    }
    assert rest == ds;
  }

  lemma WithoutLabel(ps: seq<Proto>, i: nat, ds: seq<Choice>, l: int)
    requires i < |ps| && Chosen(ds, RemoveAt(ps, i)) && OnlyLabel(ds, l)
    ensures Chosen(Without(ps, i, ds), ps) && OnlyLabel(Without(ps, i, ds), l)
  {
    var cs, qs := Without(ps, i, ds), RemoveAt(ps, i);
    forall k | 0 <= k < |cs| && cs[k].on ensures cs[k].p.lbl == l {
      var d := if k < i then k else k - 1;
      assert ds[d].on && ds[d].p == qs[d];
    }
  }

  lemma WithoutOn(ps: seq<Proto>, i: nat, ds: seq<Choice>, k: nat)
    requires i < |ps| && |ds| == |ps| - 1 && k < |ds| && ds[k].on
    ensures Without(ps, i, ds)[if k < i then k else k + 1].on
  {
  }

  lemma WithoutSeveral(ps: seq<Proto>, i: nat, ds: seq<Choice>)
    requires i < |ps| && |ds| == |ps| - 1 && SeveralOn(ds)
    ensures SeveralOn(Without(ps, i, ds))
  {
    var cs := Without(ps, i, ds);
    var a, b :| 0 <= a < b < |ds| && ds[a].on && ds[b].on;
    WithoutOn(ps, i, ds, a);
    WithoutOn(ps, i, ds, b);
    SeveralOnAt(cs, if a < i then a else a + 1, if b < i then b else b + 1);
  }

  lemma {:induction false} PositiveSum(cs: seq<Choice>)
    requires forall c | c in cs && c.on :: c.p.weight > 0.0
    ensures Sum(OnWeight(), cs) >= 0.0
    ensures (exists c :: c in cs && c.on) ==> Sum(OnWeight(), cs) > 0.0
  {
    if cs != [] {
      PositiveSum(cs[1..]);
      assert cs == [cs[0]] + cs[1..];
    }
  }

  // Counted samples and merges of them have positive weights, and those never cancel.
  lemma PositiveIsSound(ps: seq<Proto>)
    requires PositiveWeights(ps) && LabelUniform(ps)
    ensures Sound(ps) && SignsAgree(ps)
  {
    forall cs: seq<Choice>, l | Chosen(cs, ps) && OnlyLabel(cs, l) && SeveralOn(cs) ensures Sum(OnWeight(), cs) != 0.0 {
      forall c | c in cs ensures c.p in ps {
        var k :| 0 <= k < |cs| && cs[k] == c;
        assert ps[k] == c.p;
      }
      var i, j :| 0 <= i < j < |cs| && cs[i].on && cs[j].on;
      assert cs[i] in cs;
      PositiveSum(cs);
    }
  }

  // ---- one round ----

  // Pruning ps divides by no zero and stacks no two shapes.
  ghost predicate Sound(ps: seq<Proto>) {
    LabelUniform(ps) && NoCancel(ps)
  }

  // No two prototypes of one label have weights of opposite sign.
  ghost predicate SignsAgree(ps: seq<Proto>) {
    forall p, q | p in ps && q in ps && p.lbl == q.lbl :: SameSign(p.weight, q.weight)
  }

  lemma SoundPair(ps: seq<Proto>, i: nat, j: nat)
    requires SameLabelPair(ps, i, j) && Sound(ps)
    ensures ps[i] in ps && ps[j] in ps
    ensures |ps[i].vector| == |ps[j].vector| && ps[i].weight + ps[j].weight != 0.0
  {
    assert ps[i] in ps && ps[j] in ps;
    PairDoesNotCancel(ps, i, j);
  }

  lemma ConsolidateTotals(ps: seq<Proto>, i: nat, j: nat)
    requires SameLabelPair(ps, i, j) && Sound(ps)
    ensures SameTotals(ps, Consolidate(ps, i, j))
  {
    var c := Centroid(ps[i], ps[j]);
    SoundPair(ps, i, j);
    CentroidTotals(ps[i], ps[j]);
    forall f: Proto -> real | f(c) == f(ps[i]) + f(ps[j])
      ensures Sum(f, Consolidate(ps, i, j)) == Sum(f, ps)
    {
      SumUpdate(f, ps, i, c);
      SumRemoveAt(f, ps[i := c], j);
    }
  }

  lemma ConsolidateMembers(ps: seq<Proto>, i: nat, j: nat)
    requires SameLabelPair(ps, i, j)
    ensures forall p | p in Consolidate(ps, i, j) :: p in ps || p == Centroid(ps[i], ps[j])
    ensures Labels(Consolidate(ps, i, j)) == Labels(ps)
  {
    var qs := Consolidate(ps, i, j);
    var upd := ps[i := Centroid(ps[i], ps[j])];
    forall p | p in qs ensures p in ps || p == Centroid(ps[i], ps[j]) {
      var k :| 0 <= k < |qs| && qs[k] == p;
      assert p == upd[if k < j then k else k + 1];
    }
    forall l | l in Labels(ps) ensures l in Labels(qs) {
      var k :| 0 <= k < |ps| && ps[k].lbl == l;
      assert if k < j then qs[k].lbl == l else if k == j then qs[i].lbl == l else qs[k - 1].lbl == l;
    }
  }

  lemma RemoveAtMembers(ps: seq<Proto>, i: nat)
    requires i < |ps|
    ensures forall p | p in RemoveAt(ps, i) :: p in ps
    ensures DistinctLabels(ps) ==> DistinctLabels(RemoveAt(ps, i))
    ensures DistinctLabels(ps) ==> Labels(RemoveAt(ps, i)) == Labels(ps) - {ps[i].lbl}
  {
    var qs := RemoveAt(ps, i);
    assert forall k | 0 <= k < |qs| :: qs[k] == ps[if k < i then k else k + 1];
    if DistinctLabels(ps) {
      assert forall k | 0 <= k < |qs| :: qs[k].lbl != ps[i].lbl;
      forall l | l in Labels(ps) && l != ps[i].lbl ensures l in Labels(qs) {
        var k :| 0 <= k < |ps| && ps[k].lbl == l;
        assert qs[if k < i then k else k - 1].lbl == l;
      }
    }
  }

  lemma StepKeepsLabels(ps: seq<Proto>, qs: seq<Proto>)
    requires PruneStep(ps, qs)
    ensures |qs| == |ps| - 1
    ensures Labels(qs) <= Labels(ps)
    ensures !DistinctLabels(ps) ==> Labels(qs) == Labels(ps)
    ensures forall d: nat | OfDim(ps, d) :: OfDim(qs, d)
  {
    if i, j :| ClosestPair(ps, i, j) && qs == Consolidate(ps, i, j) {
      ConsolidateMembers(ps, i, j);
    } else {
      var i :| Lightest(ps, i) && qs == RemoveAt(ps, i);
      RemoveAtMembers(ps, i);
    }
  }

  lemma ConsolidateKeepsBox(ps: seq<Proto>, i: nat, j: nat, l: int, k: nat, lo: real, hi: real)
    requires SameLabelPair(ps, i, j) && Sound(ps) && SignsAgree(ps) && InBox(ps, l, k, lo, hi)
    ensures InBox(Consolidate(ps, i, j), l, k, lo, hi)
  {
    var c := Centroid(ps[i], ps[j]);
    ConsolidateMembers(ps, i, j);
    SoundPair(ps, i, j);
    CentroidBetween(ps[i], ps[j]);
    if ps[i].lbl == l && k < |c.vector| {
      assert Between(ps[i].vector[k], c.vector[k], ps[j].vector[k]);
    }
  }

  lemma StepKeepsBox(ps: seq<Proto>, qs: seq<Proto>, l: int, k: nat, lo: real, hi: real)
    requires PruneStep(ps, qs) && Sound(ps) && SignsAgree(ps) && InBox(ps, l, k, lo, hi)
    ensures InBox(qs, l, k, lo, hi)
  {
    if i, j :| ClosestPair(ps, i, j) && qs == Consolidate(ps, i, j) {
      ConsolidateKeepsBox(ps, i, j, l, k, lo, hi);
    } else {
      var i :| Lightest(ps, i) && qs == RemoveAt(ps, i);
      RemoveAtMembers(ps, i);
    }
  }

  lemma StepKeepsSound(ps: seq<Proto>, qs: seq<Proto>)
    requires PruneStep(ps, qs) && Sound(ps)
    ensures Sound(qs)
  {
    PruneStepKeepsShapes(ps, qs);
    if i, j :| ClosestPair(ps, i, j) && qs == Consolidate(ps, i, j) {
      ConsolidateKeepsNoCancel(ps, i, j);
    } else {
      var i :| Lightest(ps, i) && qs == RemoveAt(ps, i);
      RemoveKeepsNoCancel(ps, i);
    }
  }

  lemma StepKeepsSigns(ps: seq<Proto>, qs: seq<Proto>)
    requires PruneStep(ps, qs) && Sound(ps) && SignsAgree(ps)
    ensures SignsAgree(qs)
  {
    if i, j :| ClosestPair(ps, i, j) && qs == Consolidate(ps, i, j) {
      ConsolidateMembers(ps, i, j);
      SoundPair(ps, i, j);
      assert SameSign(ps[i].weight, ps[j].weight);
    } else {
      var i :| Lightest(ps, i) && qs == RemoveAt(ps, i);
      RemoveAtMembers(ps, i);
    }
  }

  lemma StepConserves(ps: seq<Proto>, qs: seq<Proto>)
    requires PruneStep(ps, qs) && Sound(ps) && !DistinctLabels(ps)
    ensures SameTotals(ps, qs)
  {
    var i, j :| ClosestPair(ps, i, j) && qs == Consolidate(ps, i, j);
    ConsolidateTotals(ps, i, j);
  }

  // ---- whole prunings ----

  // Exactly min(budget, n) prototypes remain, none with a new label or shape.
  lemma {:induction false} PruneSize(ps: seq<Proto>, budget: nat, rs: seq<Proto>)
    requires Prunes(ps, budget, rs)
    ensures |rs| == if |ps| <= budget then |ps| else budget
    ensures Labels(rs) <= Labels(ps)
    ensures forall d: nat | OfDim(ps, d) :: OfDim(rs, d)
    decreases |ps|
  {
    if |ps| > budget {
      var qs :| PruneStep(ps, qs) && |qs| < |ps| && Prunes(qs, budget, rs);
      StepKeepsLabels(ps, qs);
      PruneSize(qs, budget, rs);
    }
  }

  // No coordinate leaves the range its label spanned, unless weights of opposite
  // sign meet.
  lemma {:induction false} PruneStaysInside(ps: seq<Proto>, budget: nat, rs: seq<Proto>)
    requires Prunes(ps, budget, rs) && Sound(ps) && SignsAgree(ps)
    ensures Sound(rs) && SignsAgree(rs)
    ensures forall l, k, lo, hi | InBox(ps, l, k, lo, hi) :: InBox(rs, l, k, lo, hi)
    decreases |ps|
  {
    if |ps| > budget {
      var qs :| PruneStep(ps, qs) && |qs| < |ps| && Prunes(qs, budget, rs);
      StepKeepsSound(ps, qs);
      StepKeepsSigns(ps, qs);
      PruneStaysInside(qs, budget, rs);
      forall l, k, lo, hi | InBox(ps, l, k, lo, hi) ensures InBox(rs, l, k, lo, hi) {
        StepKeepsBox(ps, qs, l, k, lo, hi);
      }
    }
  }

  // When the labels fit the budget nothing is lost: every label keeps its total
  // weight and its weighted vector sum.
  lemma {:induction false} PruneConserves(ps: seq<Proto>, budget: nat, rs: seq<Proto>)
    requires Prunes(ps, budget, rs) && Sound(ps)
    requires |Labels(ps)| <= budget
    ensures SameTotals(ps, rs) && Labels(rs) == Labels(ps)
    decreases |ps|
  {
    if |ps| > budget {
      var qs :| PruneStep(ps, qs) && |qs| < |ps| && Prunes(qs, budget, rs);
      DistinctLabelsCount(ps);
      StepKeepsLabels(ps, qs);
      StepKeepsSound(ps, qs);
      StepConserves(ps, qs);
      PruneConserves(qs, budget, rs);
    }
  }

  // r is its label's weighted mean over ps, carrying all the label's weight.
  ghost predicate Summarizes(ps: seq<Proto>, r: Proto) {
    && r.weight == LabelWeight(ps, r.lbl)
    && forall k: nat | k < |r.vector| :: r.vector[k] * r.weight == LabelMoment(ps, r.lbl, k)
  }

  ghost predicate HeaviestChoice(ps: seq<Proto>, kept: set<int>) {
    forall l, d | l in kept && d in Labels(ps) - kept :: LabelWeight(ps, d) <= LabelWeight(ps, l)
  }

  // When the labels exceed the budget the survivors are the heaviest labels, one
  // prototype each, equal to that label's weighted mean.
  lemma {:induction false} PruneKeepsHeaviest(ps: seq<Proto>, budget: nat, rs: seq<Proto>)
    requires Prunes(ps, budget, rs) && Sound(ps)
    requires |Labels(ps)| >= budget
    ensures DistinctLabels(rs) && |rs| == |Labels(rs)| == budget
    ensures forall r | r in rs :: Summarizes(ps, r)
    ensures HeaviestChoice(ps, Labels(rs))
    decreases |ps|
  {
    DistinctLabelsCount(ps);
    if |ps| <= budget {
      forall r | r in ps ensures Summarizes(ps, r) {
        var i :| 0 <= i < |ps| && ps[i] == r;
        SoleCarrier(ps, i);
      }
    } else {
      var qs :| PruneStep(ps, qs) && |qs| < |ps| && Prunes(qs, budget, rs);
      StepKeepsLabels(ps, qs);
      StepKeepsSound(ps, qs);
      if !DistinctLabels(ps) {
        PruneKeepsHeaviest(qs, budget, rs);
        StepConserves(ps, qs);
        SameTotalsSummaries(ps, qs, rs);
      } else {
        var i := DroppedIndex(ps, qs);
        RemoveAtMembers(ps, i);
        DistinctLabelsCount(qs);
        PruneKeepsHeaviest(qs, budget, rs);
        PruneSize(qs, budget, rs);
        DropLightest(ps, i, rs);
      }
    }
  }

  lemma DroppedIndex(ps: seq<Proto>, qs: seq<Proto>) returns (i: nat)
    requires PruneStep(ps, qs) && DistinctLabels(ps)
    ensures Lightest(ps, i) && qs == RemoveAt(ps, i)
  {
    assert forall a, b :: !SameLabelPair(ps, a, b);
    i :| Lightest(ps, i) && qs == RemoveAt(ps, i);
  }

  lemma SameTotalsSummaries(ps: seq<Proto>, qs: seq<Proto>, rs: seq<Proto>)
    requires SameTotals(ps, qs) && Labels(ps) == Labels(qs)
    requires forall r | r in rs :: Summarizes(qs, r)
    requires HeaviestChoice(qs, Labels(rs))
    ensures forall r | r in rs :: Summarizes(ps, r)
    ensures HeaviestChoice(ps, Labels(rs))
  {
    assert forall l :: LabelWeight(ps, l) == LabelWeight(qs, l);
    assert forall l, k: nat :: LabelMoment(ps, l, k) == LabelMoment(qs, l, k);
  }

  lemma DropLightest(ps: seq<Proto>, i: nat, rs: seq<Proto>)
    requires DistinctLabels(ps) && Lightest(ps, i)
    requires Labels(rs) <= Labels(RemoveAt(ps, i))
    requires forall r | r in rs :: Summarizes(RemoveAt(ps, i), r)
    requires HeaviestChoice(RemoveAt(ps, i), Labels(rs))
    ensures forall r | r in rs :: Summarizes(ps, r)
    ensures HeaviestChoice(ps, Labels(rs))
  {
    var qs := RemoveAt(ps, i);
    RemoveAtMembers(ps, i);
    forall l | l != ps[i].lbl
      ensures LabelWeight(ps, l) == LabelWeight(qs, l)
      ensures forall k: nat :: LabelMoment(ps, l, k) == LabelMoment(qs, l, k)
    {
      SumRemoveAt(WeightIn(l), ps, i);
      forall k: nat ensures LabelMoment(ps, l, k) == LabelMoment(qs, l, k) {
        SumRemoveAt(MomentIn(l, k), ps, i);
      }
    }
    SoleCarrier(ps, i);
    forall l | l in Labels(ps) ensures LabelWeight(ps, ps[i].lbl) <= LabelWeight(ps, l) {
      var a :| 0 <= a < |ps| && ps[a].lbl == l;
      SoleCarrier(ps, a);
    }
  }
}
