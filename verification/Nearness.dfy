/** What distance, region and key mean, and what learning and pruning do with the
    nearest prototypes. */
module Nearness {
  import opened Prototypes
  import opened PrototypeModels
  import opened PruneTheorems

  // ---- distance ----

  lemma Dist2Empty()
    ensures Dist2([], []) == 0.0
  {
  }

  lemma {:induction false} GapsPrefix(a: Vec, b: Vec, u: real, v: real, n: nat)
    requires n <= |a| == |b|
    ensures GapsTo(a + [u], b + [v], n) == GapsTo(a, b, n)
  {
    if n > 0 {
      GapsPrefix(a, b, u, v, n - 1);
      assert Coord(a + [u], n - 1) == a[n - 1] == Coord(a, n - 1);
      assert Coord(b + [v], n - 1) == b[n - 1] == Coord(b, n - 1);
    }
  }

  lemma Dist2Next(a: Vec, b: Vec, u: real, v: real)
    requires |a| == |b|
    ensures Dist2(a + [u], b + [v]) == Dist2(a, b) + Square(u - v)
  {
    var n := |a|;
    GapsPrefix(a, b, u, v, n);
    assert Coord(a + [u], n) == u && Coord(b + [v], n) == v;
    assert GapsTo(a + [u], b + [v], n + 1) == GapsTo(a + [u], b + [v], n) + Square(u - v);
  }

  // Each coordinate adds the square of its difference: with the empty vectors this
  // is all there is to distance within one shape.
  lemma Dist2Snoc(a: Vec, b: Vec, u: real, v: real)
    requires |a| == |b|
    ensures Dist2(a + [u], b + [v]) == Dist2(a, b) + (u - v) * (u - v)
  {
    Dist2Next(a, b, u, v);
  }

  lemma Dist2Single(u: real, v: real)
    ensures Dist2([u], [v]) == (u - v) * (u - v)
  {
    Dist2Snoc([], [], u, v);
    assert [] + [u] == [u] && [] + [v] == [v];
  }

  // Within one shape only equal vectors are at distance zero.
  lemma {:induction false} Dist2ZeroExactly(a: Vec, b: Vec)
    requires |a| == |b|
    ensures Dist2(a, b) == 0.0 <==> a == b
  {
    if a == [] {
      Dist2Empty();
    } else {
      var n := |a| - 1;
      Dist2ZeroExactly(a[..n], b[..n]);
      assert a == a[..n] + [a[n]] && b == b[..n] + [b[n]];
      Dist2Next(a[..n], b[..n], a[n], b[n]);
    }
  }

  // A single coordinate counts in every dimension.
  lemma Dist2Repeats(u: real, b: Vec)
    ensures Dist2([u], b) == Dist2(seq(|b|, _ => u), b)
  {
    GapsRepeat(u, b, |b|);
  }

  lemma {:induction false} GapsRepeat(u: real, b: Vec, n: nat)
    requires n <= |b|
    ensures GapsTo([u], b, n) == GapsTo(seq(|b|, _ => u), b, n)
  {
    if n > 0 {
      GapsRepeat(u, b, n - 1);
    }
  }

  lemma SquareLess(d: real, r: real)
    ensures r > 0.0 && d * d < r * r <==> -r < d < r
  {
    if r > 0.0 {
      assert r * r - d * d == (r - d) * (r + d);
      if -r < d < r {
        Positive(r - d, r + d);
      } else if d >= r {
        NotPositive(d - r, r + d);
      } else {
        NotPositive(-d - r, r - d);
        assert (-d - r) * (r - d) == d * d - r * r;
      }
    }
  }

  lemma NotPositive(x: real, y: real)
    requires x >= 0.0 && y >= 0.0
    ensures x * y >= 0.0
  {
  }

  // On a line a region is an open interval.
  lemma NearOnALine(u: real, v: real, r: real)
    ensures Near([u], [v], r) <==> -r < u - v < r
  {
    Dist2Single(u, v);
    SquareLess(u - v, r);
  }

  // ---- keys ----

  // A key holds the label and each coordinate to the nearest ten-thousandth.
  lemma KeyRounds(p: Proto)
    ensures KeyOf(p).lbl == p.lbl && |KeyOf(p).coords| == |p.vector|
    ensures forall k | 0 <= k < |p.vector| ::
              -0.00005 <= KeyOf(p).coords[k] as real / 10000.0 - p.vector[k] <= 0.00005
  {
    forall k | 0 <= k < |p.vector|
      ensures -0.00005 <= KeyOf(p).coords[k] as real / 10000.0 - p.vector[k] <= 0.00005
    {
      assert KeyOf(p).coords[k] == RoundHalfEven(p.vector[k] * 10000.0);
    }
  }

  // So prototypes taken for duplicates agree in label, shape and, up to a
  // ten-thousandth, in every coordinate.
  lemma SameKeyIsClose(p: Proto, q: Proto)
    requires KeyOf(p) == KeyOf(q)
    ensures p.lbl == q.lbl && |p.vector| == |q.vector|
    ensures forall k | 0 <= k < |p.vector| :: -0.0001 <= p.vector[k] - q.vector[k] <= 0.0001
  {
    KeyRounds(p);
    KeyRounds(q);
    forall k | 0 <= k < |p.vector| ensures -0.0001 <= p.vector[k] - q.vector[k] <= 0.0001 {
      assert KeyOf(p).coords[k] == KeyOf(q).coords[k];
    }
  }

  // ---- pruning ----

  // i and j are two prototypes of one label, at least as near as any such two.
  ghost predicate NearestPair(ps: seq<Proto>, i: int, j: int) {
    && 0 <= i < j < |ps| && ps[i].lbl == ps[j].lbl
    && forall a, b | 0 <= a < b < |ps| && ps[a].lbl == ps[b].lbl ::
         Dist2(ps[i].vector, ps[j].vector) <= Dist2(ps[a].vector, ps[b].vector)
  }

  // p stands for u and v together: one label, the summed weight, the weighted mean.
  ghost predicate Averages(p: Proto, u: Proto, v: Proto) {
    && p.lbl == u.lbl && p.weight == u.weight + v.weight
    && (|u.vector| == |v.vector| ==> |p.vector| == |u.vector|)
    && (|u.vector| == |v.vector| && p.weight != 0.0 ==>
          forall k | 0 <= k < |u.vector| ::
            p.vector[k] * p.weight == u.vector[k] * u.weight + v.vector[k] * v.weight)
  }

  // qs is ps with the pair merged: the first of the two averaged, the second gone.
  ghost predicate MergesPair(ps: seq<Proto>, i: int, j: int, qs: seq<Proto>) {
    && 0 <= i < j < |ps| == |qs| + 1 && Averages(qs[i], ps[i], ps[j])
    && (forall k | 0 <= k < j && k != i :: qs[k] == ps[k])
    && (forall k | j < k < |ps| :: qs[k - 1] == ps[k])
  }

  lemma CentroidAverages(p: Proto, q: Proto)
    requires p.lbl == q.lbl
    ensures Averages(Centroid(p, q), p, q)
  {
    if |p.vector| == |q.vector| && p.weight + q.weight != 0.0 {
      CentroidTotals(p, q);
      forall k: nat | k < |p.vector|
        ensures Centroid(p, q).vector[k] * (p.weight + q.weight) == p.vector[k] * p.weight + q.vector[k] * q.weight
      {
        assert MomentIn(p.lbl, k)(Centroid(p, q)) == MomentIn(p.lbl, k)(p) + MomentIn(p.lbl, k)(q);
      }
    }
  }

  // While some label has two prototypes, a round of pruning merges a nearest two.
  lemma RoundMergesNearest(ps: seq<Proto>, qs: seq<Proto>)
    requires PruneStep(ps, qs) && !DistinctLabels(ps)
    ensures exists i, j :: NearestPair(ps, i, j) && MergesPair(ps, i, j, qs)
  {
    var i, j :| ClosestPair(ps, i, j) && qs == Consolidate(ps, i, j);
    ClosestIsNearest(ps, i, j);
    CentroidAverages(ps[i], ps[j]);
    assert MergesPair(ps, i, j, qs);
  }

  lemma ClosestIsNearest(ps: seq<Proto>, i: int, j: int)
    ensures ClosestPair(ps, i, j) <==> NearestPair(ps, i, j)
  {
    if ClosestPair(ps, i, j) {
      forall a, b | 0 <= a < b < |ps| && ps[a].lbl == ps[b].lbl
        ensures Dist2(ps[i].vector, ps[j].vector) <= Dist2(ps[a].vector, ps[b].vector)
      {
        assert SameLabelPair(ps, a, b);
        assert Gap(ps, i, j) <= Gap(ps, a, b);
      }
    }
    if NearestPair(ps, i, j) {
      forall a, b | SameLabelPair(ps, a, b) ensures Gap(ps, i, j) <= Gap(ps, a, b) {
      }
    }
  }

  // One over the budget, with one pair of a label strictly nearest: pruning merges
  // those two and touches nothing else.
  lemma PruneMergesNearest(ps: seq<Proto>, budget: nat, rs: seq<Proto>, i: nat, j: nat)
    requires |ps| == budget + 1 && Prunes(ps, budget, rs)
    requires i < j < |ps| && ps[i].lbl == ps[j].lbl
    requires forall a, b | 0 <= a < b < |ps| && ps[a].lbl == ps[b].lbl && (a != i || b != j) ::
               Dist2(ps[i].vector, ps[j].vector) < Dist2(ps[a].vector, ps[b].vector)
    ensures MergesPair(ps, i, j, rs)
  {
    var qs :| PruneStep(ps, qs) && |qs| < |ps| && Prunes(qs, budget, rs);
    assert !DistinctLabels(ps);
    RoundMergesNearest(ps, qs);
    var a, b :| NearestPair(ps, a, b) && MergesPair(ps, a, b, qs);
    assert a == i && b == j;
    assert rs == qs;
  }

  // Three in a row on a line, the first two closer together, with room for two: the
  // first two become their midpoint.
  lemma ThreeOnALine(u: real, v: real, w: real, l: int, rs: seq<Proto>)
    requires u < v < w && v - u < w - v
    requires Prunes([Proto([u], l, 1.0), Proto([v], l, 1.0), Proto([w], l, 1.0)], 2, rs)
    ensures |rs| == 2 && rs[1] == Proto([w], l, 1.0)
    ensures rs[0].lbl == l && rs[0].weight == 2.0 && |rs[0].vector| == 1 && rs[0].vector[0] + rs[0].vector[0] == u + v
  {
    var ps := [Proto([u], l, 1.0), Proto([v], l, 1.0), Proto([w], l, 1.0)];
    FirstPairIsNearest(u, v, w);
    forall a, b | 0 <= a < b < |ps| && (a != 0 || b != 1)
      ensures Dist2(ps[0].vector, ps[1].vector) < Dist2(ps[a].vector, ps[b].vector)
    {
      assert b == 2 && (a == 0 || a == 1);
    }
    PruneMergesNearest(ps, 2, rs, 0, 1);
    assert rs[2 - 1] == ps[2];
  }

  lemma FirstPairIsNearest(u: real, v: real, w: real)
    requires u < v < w && v - u < w - v
    ensures Dist2([u], [v]) < Dist2([u], [w]) && Dist2([u], [v]) < Dist2([v], [w])
  {
    Dist2Single(u, v);
    Dist2Single(u, w);
    Dist2Single(v, w);
    SquareLess(u - v, w - u);
    SquareLess(u - v, w - v);
    SquareNegated(u - w);
    SquareNegated(v - w);
  }

  lemma SquareNegated(x: real)
    ensures x * x == -x * -x
  {
  }

  // ---- learning ----

  // i is a prototype of label l, at least as near to x as any other of that label.
  ghost predicate NearestOf(ps: seq<Proto>, x: Vec, l: int, i: int) {
    && 0 <= i < |ps| && ps[i].lbl == l
    && forall j | 0 <= j < |ps| && ps[j].lbl == l :: Dist2(ps[i].vector, x) <= Dist2(ps[j].vector, x)
  }

  // qs is ps with x absorbed by prototype i.
  ghost predicate AbsorbedBy(ps: seq<Proto>, x: Vec, i: int, qs: seq<Proto>) {
    && 0 <= i < |ps| == |qs| && Averages(qs[i], ps[i], Proto(x, ps[i].lbl, 1.0))
    && forall k | 0 <= k < |ps| && k != i :: qs[k] == ps[k]
  }

  // How near a sample has to be: within the tight radius while less than half the
  // budget is used, then within the wide one.
  ghost predicate InReach(radii: Radii, budget: nat, ps: seq<Proto>, x: Vec, p: Proto) {
    var r := if 2 * |ps| < budget then radii.absorbNear else radii.absorbFull;
    r > 0.0 && Dist2(p.vector, x) < r * r
  }

  // With room left, a sample is absorbed by a nearest prototype of its label if some
  // prototype of its label is in reach, else it becomes a prototype of its own.
  lemma LearnsByDistance(radii: Radii, budget: nat, ps: seq<Proto>, x: Vec, l: int, qs: seq<Proto>)
    requires Learns(radii, budget, ps, x, l, qs) && |ps| < budget
    requires forall p | p in ps && p.lbl == l :: |p.vector| == |x|
    ensures if exists p :: p in ps && p.lbl == l && InReach(radii, budget, ps, x, p)
            then exists i :: NearestOf(ps, x, l, i) && AbsorbedBy(ps, x, i, qs)
            else qs == ps + [Proto(x, l, 1.0)]
  {
    assert Comparable(ps, x, l);
    AbsorbsInReach(radii, budget, ps, x, l);
    if exists i :: AbsorbsAt(radii, budget, ps, x, l, i) {
      var i :| AbsorbsAt(radii, budget, ps, x, l, i) && qs == ps[i := Absorb(ps[i], x)];
      AbsorbingAverages(ps, x, l, i);
      assert NearestOf(ps, x, l, i) && AbsorbedBy(ps, x, i, qs);
    }
  }

  lemma AbsorbingAverages(ps: seq<Proto>, x: Vec, l: int, i: nat)
    requires NearestOfLabel(ps, x, l, i)
    ensures NearestOf(ps, x, l, i) && AbsorbedBy(ps, x, i, ps[i := Absorb(ps[i], x)])
  {
    CentroidAverages(ps[i], Proto(x, l, 1.0));
  }

  lemma AbsorbsInReach(radii: Radii, budget: nat, ps: seq<Proto>, x: Vec, l: int)
    requires |ps| < budget
    ensures (exists i :: AbsorbsAt(radii, budget, ps, x, l, i))
       <==> exists p :: p in ps && p.lbl == l && InReach(radii, budget, ps, x, p)
  {
    var r := AbsorbRadius(radii, budget, |ps|);
    if i :| AbsorbsAt(radii, budget, ps, x, l, i) {
      assert ps[i] in ps && InReach(radii, budget, ps, x, ps[i]);
    }
    if p :| p in ps && p.lbl == l && InReach(radii, budget, ps, x, p) {
      var j :| 0 <= j < |ps| && ps[j] == p;
      var i := SomeNearest(ps, x, l, j);
      NoFarther(Dist2(ps[i].vector, x), Dist2(p.vector, x), r);
      assert AbsorbsAt(radii, budget, ps, x, l, i);
    }
  }

  lemma NoFarther(d: real, e: real, r: real)
    requires d <= e && r > 0.0 && e < r * r
    ensures d < r * r
  {
  }

  lemma SomeNearest(ps: seq<Proto>, x: Vec, l: int, j: nat) returns (i: nat)
    requires j < |ps| && ps[j].lbl == l
    ensures NearestOf(ps, x, l, i)
  {
    i := NearestAmong(ps, x, l, j, |ps|);
  }

  lemma {:induction false} NearestAmong(ps: seq<Proto>, x: Vec, l: int, j: nat, n: nat) returns (i: nat)
    requires j < |ps| && ps[j].lbl == l && n <= |ps|
    ensures i < |ps| && ps[i].lbl == l
    ensures forall k | 0 <= k < n && ps[k].lbl == l :: Dist2(ps[i].vector, x) <= Dist2(ps[k].vector, x)
  {
    i := j;
    if n > 0 {
      i := NearestAmong(ps, x, l, j, n - 1);
      if ps[n - 1].lbl == l && Dist2(ps[n - 1].vector, x) < Dist2(ps[i].vector, x) {
        i := n - 1;
      }
    }
  }
}
