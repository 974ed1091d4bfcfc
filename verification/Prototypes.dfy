/** Labelled, weighted exemplars: the values inside a prototype model. */
module Prototypes {
  import opened Seqs

  type Vec = seq<real>

  datatype Proto = Proto(vector: Vec, lbl: int, weight: real)

  // ---- geometry ----

  // Which lengths array arithmetic combines: a single coordinate is repeated.
  predicate Broadcasts(m: nat, n: nat) {
    m == n || m == 1 || n == 1
  }

  // The length of the combination; on lengths that do not combine, any value.
  function Wide(m: nat, n: nat): nat {
    if m == 1 then n else if n == 1 then m else if m < n then m else n
  }

  // Coordinate k of v, v being repeated if it has one coordinate only.
  function Coord(v: Vec, k: nat): real {
    if |v| == 1 then v[0] else if k < |v| then v[k] else 0.0
  }

  function Product(x: real, y: real): (p: real)
    ensures x > 0.0 && y > 0.0 ==> p > 0.0
    ensures x < 0.0 && y < 0.0 ==> p > 0.0
    ensures x == 0.0 || y == 0.0 ==> p == 0.0
  {
    x * y
  }

  function Square(x: real): (s: real)
    ensures s >= 0.0
    ensures s == 0.0 <==> x == 0.0
  {
    Product(x, x)
  }

  function GapsTo(a: Vec, b: Vec, n: nat): (d: real)
    ensures d >= 0.0
  {
    if n == 0 then 0.0 else GapsTo(a, b, n - 1) + Square(Coord(a, n - 1) - Coord(b, n - 1))
  }

  // Squared Euclidean distance, broadcasting.
  function Dist2(a: Vec, b: Vec): (d: real)
    ensures d >= 0.0
  {
    GapsTo(a, b, Wide(|a|, |b|))
  }

  lemma {:induction false} GapsSymmetric(a: Vec, b: Vec, n: nat)
    ensures GapsTo(a, b, n) == GapsTo(b, a, n)
  {
    if n > 0 {
      GapsSymmetric(a, b, n - 1);
      var x := Coord(a, n - 1) - Coord(b, n - 1);
      assert Square(x) == Square(-x);
    }
  }

  lemma Dist2Symmetric(a: Vec, b: Vec)
    ensures Dist2(a, b) == Dist2(b, a)
  {
    GapsSymmetric(a, b, Wide(|a|, |b|));
  }

  // norm(a - b) < r for vectors of one shape.
  predicate Near(a: Vec, b: Vec, r: real) {
    |a| == |b| && r > 0.0 && Dist2(a, b) < r * r
  }

  lemma NearSymmetric(a: Vec, b: Vec, r: real)
    ensures Near(a, b, r) <==> Near(b, a, r)
  {
    Dist2Symmetric(a, b);
  }

  // All of one shape: what stacking into a matrix needs.
  predicate Uniform(ps: seq<Proto>) {
    forall p, q | p in ps && q in ps :: |p.vector| == |q.vector|
  }

  // Each label of one shape: what consolidating needs.
  predicate LabelUniform(ps: seq<Proto>) {
    forall p, q | p in ps && q in ps && p.lbl == q.lbl :: |p.vector| == |q.vector|
  }

  ghost predicate OfDim(ps: seq<Proto>, dim: nat) {
    forall p | p in ps :: |p.vector| == dim
  }

  // ---- quantized identity ----

  function RoundHalfEven(x: real): (n: int)
    ensures -0.5 <= n as real - x <= 0.5
    ensures n as real - x == 0.5 || n as real - x == -0.5 ==> n % 2 == 0
  {
    var f := x.Floor;
    var d := x - f as real;
    if d < 0.5 then f
    else if d > 0.5 then f + 1
    else if f % 2 == 0 then f else f + 1
  }

  datatype Key = Key(lbl: int, coords: seq<int>)

  // label and vector rounded to four decimals.
  function KeyOf(p: Proto): Key {
    Key(p.lbl, seq(|p.vector|, k requires 0 <= k < |p.vector| => RoundHalfEven(p.vector[k] * 10000.0)))
  }

  function Keys(ps: seq<Proto>): set<Key> {
    set p | p in ps :: KeyOf(p)
  }

  // ---- labels and per-label totals ----

  function Labels(ps: seq<Proto>): set<int> {
    set p | p in ps :: p.lbl
  }

  function WeightIn(lbl: int): Proto -> real {
    (p: Proto) => if p.lbl == lbl then p.weight else 0.0
  }

  function MomentIn(lbl: int, k: nat): Proto -> real {
    (p: Proto) => if p.lbl == lbl && k < |p.vector| then p.vector[k] * p.weight else 0.0
  }

  // Total weight of one label, and coordinate k of its weighted vector sum.
  function LabelWeight(ps: seq<Proto>, lbl: int): real { Sum(WeightIn(lbl), ps) }

  function LabelMoment(ps: seq<Proto>, lbl: int, k: nat): real { Sum(MomentIn(lbl, k), ps) }

  ghost predicate SameTotals(ps: seq<Proto>, qs: seq<Proto>) {
    && (forall l :: LabelWeight(ps, l) == LabelWeight(qs, l))
    && (forall l, k: nat :: LabelMoment(ps, l, k) == LabelMoment(qs, l, k))
  }

  ghost predicate PositiveWeights(ps: seq<Proto>) {
    forall p | p in ps :: p.weight > 0.0
  }

  // Every coordinate-k value carried by the label lies in [lo, hi].
  ghost predicate InBox(ps: seq<Proto>, lbl: int, k: nat, lo: real, hi: real) {
    forall p | p in ps && p.lbl == lbl && k < |p.vector| :: lo <= p.vector[k] <= hi
  }

  predicate DistinctLabels(ps: seq<Proto>) {
    forall i, j | 0 <= i < j < |ps| :: ps[i].lbl != ps[j].lbl
  }

  lemma {:induction false} DistinctLabelsCount(ps: seq<Proto>)
    ensures |Labels(ps)| <= |ps|
    ensures DistinctLabels(ps) <==> |Labels(ps)| == |ps|
  {
    if ps != [] {
      var init, last := ps[..|ps| - 1], ps[|ps| - 1];
      DistinctLabelsCount(init);
      assert ps == init + [last];
      DistinctSnoc(init, last);
      assert Labels(ps) == Labels(init) + {last.lbl};
    }
  }

  lemma DistinctSnoc(init: seq<Proto>, last: Proto)
    ensures DistinctLabels(init + [last]) <==> DistinctLabels(init) && last.lbl !in Labels(init)
  {
    var ps, n := init + [last], |init|;
    if DistinctLabels(ps) {
      forall i, j | 0 <= i < j < n ensures init[i].lbl != init[j].lbl {
        assert ps[i].lbl != ps[j].lbl;
      }
      forall p | p in init ensures p.lbl != last.lbl {
        var i :| 0 <= i < n && init[i] == p;
        assert ps[i].lbl != ps[n].lbl;
      }
    }
  }

  // With one prototype per label, that prototype carries the label's totals.
  lemma {:induction false} SoleCarrier(ps: seq<Proto>, i: nat)
    requires i < |ps| && DistinctLabels(ps)
    ensures LabelWeight(ps, ps[i].lbl) == ps[i].weight
    ensures forall k: nat | k < |ps[i].vector| ::
              LabelMoment(ps, ps[i].lbl, k) == ps[i].vector[k] * ps[i].weight
  {
    var l := ps[i].lbl;
    assert forall j | 0 <= j < |ps| && j != i :: ps[j].lbl != l by {
      assert forall j | 0 <= j < i :: ps[j].lbl != ps[i].lbl;
    }
    SumSplit(WeightIn(l), ps, i);
    SumZero(WeightIn(l), ps[..i]);
    SumZero(WeightIn(l), ps[i + 1..]);
    forall k: nat | k < |ps[i].vector|
      ensures LabelMoment(ps, l, k) == ps[i].vector[k] * ps[i].weight
    {
      SumSplit(MomentIn(l, k), ps, i);
      SumZero(MomentIn(l, k), ps[..i]);
      SumZero(MomentIn(l, k), ps[i + 1..]);
    }
  }

  // ---- inference ----

  // Index of the first prototype at minimal distance from x.
  function Nearest(ps: seq<Proto>, x: Vec): (i: nat)
    requires ps != []
    ensures i < |ps|
    ensures forall j | 0 <= j < |ps| :: Dist2(ps[i].vector, x) <= Dist2(ps[j].vector, x)
    ensures forall j | 0 <= j < i :: Dist2(ps[i].vector, x) < Dist2(ps[j].vector, x)
  {
    var n := |ps| - 1;
    if n == 0 then 0
    else
      var i := Nearest(ps[..n], x);
      if Dist2(ps[n].vector, x) < Dist2(ps[i].vector, x) then n else i
  }

  datatype Sample = Sample(x: Vec, y: int)

  function Hits(ps: seq<Proto>, samples: seq<Sample>): (h: nat)
    requires ps != []
    ensures h <= |samples|
  {
    if samples == [] then 0
    else
      var n := |samples| - 1;
      Hits(ps, samples[..n]) + if ps[Nearest(ps, samples[n].x)].lbl == samples[n].y then 1 else 0
  }

  predicate SameShapes(samples: seq<Sample>) {
    forall s, t | s in samples && t in samples :: |s.x| == |t.x|
  }

  // Scoring ps on the samples completes: both stack, and the two shapes combine.
  // With no sample there is nothing to score.
  predicate Scorable(ps: seq<Proto>, samples: seq<Sample>) {
    samples != [] ==>
      SameShapes(samples) && (ps != [] ==> Uniform(ps) && Broadcasts(|samples[0].x|, |ps[0].vector|))
  }

  // Fraction of samples the 1-NN rule gets right; 0 without prototypes or samples.
  function Accuracy(ps: seq<Proto>, samples: seq<Sample>): (a: real)
    ensures 0.0 <= a <= 1.0
  {
    if ps == [] || samples == [] then 0.0
    else
      Ratio(Hits(ps, samples), |samples|);
      Hits(ps, samples) as real / |samples| as real
  }

  lemma Ratio(h: nat, n: nat)
    requires h <= n && n > 0
    ensures 0.0 <= h as real / n as real <= 1.0
  {
  }
}
