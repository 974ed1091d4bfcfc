/** The bounded prototype model: online learning, k-means-style consolidation
    and the trust-dependent merge. Relations leave distance and weight ties open;
    the class below is one resolution of them. */
module PrototypeModels {
  import opened Seqs
  import opened Prototypes

  datatype Version = Version(counter: nat, nodeId: int) {
    function Bump(id: int): Version { Version(counter + 1, id) }
  }

  const GENESIS := Version(0, 0)

  datatype Radii = Radii(absorbNear: real, absorbFull: real, conflict: real, overrideTrust: real)

  // ---- consolidation ----

  predicate SameLabelPair(ps: seq<Proto>, i: int, j: int) {
    0 <= i < j < |ps| && ps[i].lbl == ps[j].lbl
  }

  function Gap(ps: seq<Proto>, i: int, j: int): real
    requires 0 <= i < |ps| && 0 <= j < |ps|
  {
    Dist2(ps[i].vector, ps[j].vector)
  }

  ghost predicate ClosestPair(ps: seq<Proto>, i: int, j: int) {
    && SameLabelPair(ps, i, j)
    && forall a, b | SameLabelPair(ps, a, b) :: Gap(ps, i, j) <= Gap(ps, a, b)
  }

  ghost predicate Lightest(ps: seq<Proto>, i: int) {
    && 0 <= i < |ps|
    && forall a | 0 <= a < |ps| :: ps[i].weight <= ps[a].weight
  }

  // The weighted mean of two coordinates; where floats would divide by zero the
  // first is kept.
  function Mean(u: real, a: real, v: real, b: real): real {
    if a + b == 0.0 then u else (u * a + v * b) / (a + b)
  }

  function Blend(u: Vec, a: real, v: Vec, b: real): (m: Vec)
    ensures |m| == Wide(|u|, |v|)
  {
    seq(Wide(|u|, |v|), k requires 0 <= k < Wide(|u|, |v|) => Mean(Coord(u, k), a, Coord(v, k), b))
  }

  function Centroid(p: Proto, q: Proto): Proto {
    Proto(Blend(p.vector, p.weight, q.vector, q.weight), p.lbl, p.weight + q.weight)
  }

  function Consolidate(ps: seq<Proto>, i: int, j: int): seq<Proto>
    requires 0 <= i < j < |ps|
  {
    RemoveAt(ps[i := Centroid(ps[i], ps[j])], j)
  }

  // One round of the pruning loop, any tie being broken either way.
  ghost predicate PruneStep(ps: seq<Proto>, qs: seq<Proto>) {
    || (exists i, j :: ClosestPair(ps, i, j) && qs == Consolidate(ps, i, j))
    || (DistinctLabels(ps) && exists i :: Lightest(ps, i) && qs == RemoveAt(ps, i))
  }

  // rs is what pruning ps down to the budget may leave.
  ghost predicate Prunes(ps: seq<Proto>, budget: nat, rs: seq<Proto>)
    decreases |ps|
  {
    if |ps| <= budget then rs == ps
    else exists qs :: PruneStep(ps, qs) && |qs| < |ps| && Prunes(qs, budget, rs)
  }

  // Consolidation stacks each label's vectors, and raises if their shapes differ.
  predicate PruneRaises(ps: seq<Proto>, budget: nat) {
    |ps| > budget && !LabelUniform(ps)
  }

  // ---- learning ----

  function AbsorbRadius(radii: Radii, budget: nat, count: nat): real {
    if 2 * count < (if budget > 1 then budget else 1) then radii.absorbNear else radii.absorbFull
  }

  ghost predicate NearestOfLabel(ps: seq<Proto>, x: Vec, l: int, i: int) {
    && 0 <= i < |ps| && ps[i].lbl == l
    && forall j | 0 <= j < |ps| && ps[j].lbl == l :: Dist2(ps[i].vector, x) <= Dist2(ps[j].vector, x)
  }

  // norm(p - x) < r, broadcasting.
  predicate Within(a: Vec, b: Vec, r: real) {
    r > 0.0 && Dist2(a, b) < r * r
  }

  ghost predicate AbsorbsAt(radii: Radii, budget: nat, ps: seq<Proto>, x: Vec, l: int, i: int) {
    NearestOfLabel(ps, x, l, i) && Within(ps[i].vector, x, AbsorbRadius(radii, budget, |ps|))
  }

  function Absorb(p: Proto, x: Vec): Proto {
    Centroid(p, Proto(x, p.lbl, 1.0))
  }

  // The label's prototypes stack, and combine with x.
  predicate Comparable(ps: seq<Proto>, x: Vec, l: int) {
    && (forall p, q | p in ps && q in ps && p.lbl == q.lbl == l :: |p.vector| == |q.vector|)
    && (forall p | p in ps && p.lbl == l :: Broadcasts(|p.vector|, |x|))
  }

  // Learning (x, l) runs to its end instead of raising on the way.
  ghost predicate LearnCompletes(radii: Radii, budget: nat, ps: seq<Proto>, x: Vec, l: int) {
    && Comparable(ps, x, l)
    && ((exists i :: AbsorbsAt(radii, budget, ps, x, l, i)) || !PruneRaises(ps + [Proto(x, l, 1.0)], budget))
  }

  // qs is what learning (x, l) may turn ps into. Raising early it changes nothing;
  // raising in the pruning it has already added its prototype.
  ghost predicate Learns(radii: Radii, budget: nat, ps: seq<Proto>, x: Vec, l: int, qs: seq<Proto>) {
    var grown := ps + [Proto(x, l, 1.0)];
    if !Comparable(ps, x, l) then qs == ps
    else if exists i :: AbsorbsAt(radii, budget, ps, x, l, i)
    then exists i :: AbsorbsAt(radii, budget, ps, x, l, i) && qs == ps[i := Absorb(ps[i], x)]
    else if PruneRaises(grown, budget) then qs == grown
    else Prunes(grown, budget, qs)
  }

  // ---- merging ----

  predicate Clash(q: Proto, p: Proto, r: real) {
    Near(q.vector, p.vector, r) && q.lbl != p.lbl
  }

  function ClearOf(p: Proto, r: real): Proto -> bool {
    (q: Proto) => !Clash(q, p, r)
  }

  datatype Union = Union(protos: seq<Proto>, accepted: nat, conflicts: nat)

  // The fate of one incoming prototype.
  function UnionOne(radii: Radii, trust: real, seen: set<Key>, m: Union, p: Proto): Union {
    if KeyOf(p) in seen then m
    else if m.protos != [] && |p.vector| != |m.protos[0].vector| then m.(conflicts := m.conflicts + 1)
    else if (exists q | q in m.protos :: Clash(q, p, radii.conflict)) && trust < radii.overrideTrust then
      m.(conflicts := m.conflicts + 1)
    else
      Union(Filter(ClearOf(p, radii.conflict), m.protos) + [p], m.accepted + 1, m.conflicts)
  }

  function UnionFold(radii: Radii, trust: real, seen: set<Key>, m: Union, batch: seq<Proto>): Union
    decreases |batch|
  {
    if batch == [] then m
    else UnionFold(radii, trust, seen, UnionOne(radii, trust, seen, m, batch[0]), batch[1..])
  }

  // The union of ps with a whole batch, before pruning.
  function UnionOf(radii: Radii, trust: real, ps: seq<Proto>, batch: seq<Proto>): Union {
    UnionFold(radii, trust, Keys(ps), Union(ps, 0, 0), batch)
  }

  // Merging raises when a member of the batch gets as far as being compared with
  // prototypes of several shapes, or when pruning them does.
  predicate MergeRaises(budget: nat, ps: seq<Proto>, batch: seq<Proto>) {
    !Uniform(ps) && (Compares(ps, batch) || PruneRaises(ps, budget))
  }

  predicate Compares(ps: seq<Proto>, batch: seq<Proto>) {
    ps != [] && exists p | p in batch :: KeyOf(p) !in Keys(ps) && |p.vector| == |ps[0].vector|
  }

  // c is what merging the batch into ps may produce.
  ghost predicate Merges(radii: Radii, budget: nat, ps: seq<Proto>, batch: seq<Proto>, trust: real, c: Union) {
    var u := UnionOf(radii, trust, ps, batch);
    c.accepted == u.accepted && c.conflicts == u.conflicts && Prunes(u.protos, budget, c.protos)
  }

  lemma PruneBack(ps: seq<Proto>, qs: seq<Proto>, budget: nat)
    requires |ps| > budget && PruneStep(ps, qs) && |qs| < |ps|
    ensures forall rs | Prunes(qs, budget, rs) :: Prunes(ps, budget, rs)
  {
  }

  class PrototypeModel {
    const radii: Radii
    const maxPrototypes: nat
    var protos: seq<Proto>
    var version: Version
    var accepted: nat
    var conflicts: nat

    constructor (radii: Radii, maxPrototypes: nat)
      ensures this.radii == radii && this.maxPrototypes == maxPrototypes
      ensures protos == [] && version == GENESIS && accepted == 0 && conflicts == 0
    {
      this.radii, this.maxPrototypes := radii, maxPrototypes;
      protos, version, accepted, conflicts := [], GENESIS, 0, 0;
    }

    // The two nearest prototypes of one label, if any label has two.
    method FindClosestPair() returns (best: Option<(nat, nat)>)
      ensures best.None? ==> DistinctLabels(protos)
      ensures best.Some? ==> ClosestPair(protos, best.value.0, best.value.1)
      ensures best.Some? ==> forall a, b | SameLabelPair(protos, a, b) ::
                Dist2(protos[best.value.0].vector, protos[best.value.1].vector)
                  <= Dist2(protos[a].vector, protos[b].vector)
    {
      best := None;
      var j := 0;
      while j < |protos|
        invariant 0 <= j <= |protos|
        invariant best.None? ==> forall a, b | SameLabelPair(protos, a, b) :: b >= j
        invariant best.Some? ==> SameLabelPair(protos, best.value.0, best.value.1)
        invariant best.Some? ==> forall a, b | SameLabelPair(protos, a, b) && b < j ::
                    Gap(protos, best.value.0, best.value.1) <= Gap(protos, a, b)
      {
        var i := 0;
        while i < j
          invariant 0 <= i <= j
          invariant best.None? ==> forall a, b | SameLabelPair(protos, a, b) :: b > j || (b == j && a >= i)
          invariant best.Some? ==> SameLabelPair(protos, best.value.0, best.value.1)
          invariant best.Some? ==> forall a, b | SameLabelPair(protos, a, b) && (b < j || (b == j && a < i)) ::
                      Gap(protos, best.value.0, best.value.1) <= Gap(protos, a, b)
        {
          if protos[i].lbl == protos[j].lbl &&
             (best.None? || Gap(protos, i, j) < Gap(protos, best.value.0, best.value.1)) {
            best := Some((i, j));
          }
          i := i + 1;
        }
        j := j + 1;
      }
      if best.None? {
        forall a, b | 0 <= a < b < |protos| ensures protos[a].lbl != protos[b].lbl {
          assert !SameLabelPair(protos, a, b);
        }
      }
    }

    method FindLightest() returns (k: nat)
      requires protos != []
      ensures Lightest(protos, k)
    {
      k := 0;
      for i := 1 to |protos|
        invariant k < |protos|
        invariant forall a | 0 <= a < i :: protos[k].weight <= protos[a].weight
      {
        if protos[i].weight < protos[k].weight { k := i; }
      }
    }

    // ok is false where stacking a label's vectors raises.
    method Prune() returns (ok: bool)
      modifies this`protos
      ensures ok <==> !PruneRaises(old(protos), maxPrototypes)
      ensures ok ==> Prunes(old(protos), maxPrototypes, protos)
      ensures !ok ==> protos == old(protos)
    {
      while |protos| > maxPrototypes
        invariant protos == old(protos) || LabelUniform(old(protos))
        invariant LabelUniform(old(protos)) ==> LabelUniform(protos)
        invariant forall rs | Prunes(protos, maxPrototypes, rs) :: Prunes(old(protos), maxPrototypes, rs)
        invariant |protos| <= |old(protos)|
      {
        if !LabelUniform(protos) { return false; }
        ghost var before := protos;
        var best := FindClosestPair();
        match best {
          case None =>
            var k := FindLightest();
            protos := RemoveAt(protos, k);
          case Some((i, j)) =>
            protos := protos[i := Centroid(protos[i], protos[j])];
            protos := RemoveAt(protos, j);
            assert protos == Consolidate(before, i, j);
        }
        PruneStepKeepsShapes(before, protos);
        PruneBack(before, protos, maxPrototypes);
      }
      return true;
    }

    // ok is false where comparing or pruning raises.
    method Learn(x: Vec, l: int, nodeId: int) returns (ok: bool)
      modifies this`protos, this`version
      ensures ok <==> LearnCompletes(radii, maxPrototypes, old(protos), x, l)
      ensures Learns(radii, maxPrototypes, old(protos), x, l, protos)
      ensures version == if ok then old(version).Bump(nodeId) else old(version)
    {
      if !Comparable(protos, x, l) { return false; }
      var nearest := FindNearest(x, l);
      var radius := AbsorbRadius(radii, maxPrototypes, |protos|);
      if nearest.Some? && Within(protos[nearest.value].vector, x, radius) {
        assert AbsorbsAt(radii, maxPrototypes, protos, x, l, nearest.value);
        protos := protos[nearest.value := Absorb(protos[nearest.value], x)];
        version := version.Bump(nodeId);
        return true;
      }
      assert forall i :: !AbsorbsAt(radii, maxPrototypes, protos, x, l, i);
      protos := protos + [Proto(x, l, 1.0)];
      ok := Prune();
      if ok { version := version.Bump(nodeId); }
    }

    method FindNearest(x: Vec, l: int) returns (nearest: Option<nat>)
      ensures nearest.None? ==> forall j | 0 <= j < |protos| :: protos[j].lbl != l
      ensures nearest.Some? ==> NearestOfLabel(protos, x, l, nearest.value)
    {
      nearest := None;
      for i := 0 to |protos|
        invariant nearest.None? ==> forall j | 0 <= j < i :: protos[j].lbl != l
        invariant nearest.Some? ==> nearest.value < i && protos[nearest.value].lbl == l
        invariant nearest.Some? ==> forall j | 0 <= j < i && protos[j].lbl == l ::
                    Dist2(protos[nearest.value].vector, x) <= Dist2(protos[j].vector, x)
      {
        if protos[i].lbl == l &&
           (nearest.None? || Dist2(protos[i].vector, x) < Dist2(protos[nearest.value].vector, x)) {
          nearest := Some(i);
        }
      }
    }

    // One received prototype against the union built so far; ok is false where
    // stacking the union raises.
    method Admit(p: Proto, seen: set<Key>, senderTrust: real) returns (ok: bool)
      modifies this`protos, this`accepted, this`conflicts
      ensures ok <==> Uniform(old(protos)) || KeyOf(p) in seen || |p.vector| != |old(protos)[0].vector|
      ensures ok ==>
                var before := Union(old(protos), old(accepted), old(conflicts));
                Union(protos, accepted, conflicts) == UnionOne(radii, senderTrust, seen, before, p)
      ensures !ok ==> protos == old(protos)
    {
      if KeyOf(p) in seen { return true; }
      if protos != [] && |p.vector| != |protos[0].vector| {
        conflicts := conflicts + 1;
        return true;
      }
      if !Uniform(protos) { return false; }
      var clear := Filter(ClearOf(p, radii.conflict), protos);
      FilterShrinks(protos, p, radii.conflict);
      if |clear| < |protos| && senderTrust < radii.overrideTrust {
        conflicts := conflicts + 1;
        return true;
      }
      protos := clear + [p];
      accepted := accepted + 1;
      return true;
    }

    // A new model; self is left alone, so rollback is discarding the result. ok is
    // false where the merge raises, and m is then of no use.
    method MergedWith(incoming: seq<Proto>, nodeId: int, senderTrust: real) returns (ok: bool, m: PrototypeModel)
      ensures fresh(m) && m.radii == radii && m.maxPrototypes == maxPrototypes
      ensures ok <==> !MergeRaises(maxPrototypes, protos, incoming)
      ensures ok ==> m.version == version.Bump(nodeId)
      ensures ok ==> Merges(radii, maxPrototypes, protos, incoming, senderTrust, Union(m.protos, m.accepted,
              m.conflicts))
    {
      m := new PrototypeModel(radii, maxPrototypes);
      m.protos := protos;
      var seen := Keys(protos);
      for i := 0 to |incoming|
        invariant fresh(m) && m.radii == radii && m.maxPrototypes == maxPrototypes
        invariant if Uniform(protos) then Uniform(m.protos) else m.protos == protos && !Compares(protos, incoming[..i])
        invariant UnionOf(radii, senderTrust, protos, incoming)
               == UnionFold(radii, senderTrust, seen, Union(m.protos, m.accepted, m.conflicts), incoming[i..])
      {
        assert incoming[i..][1..] == incoming[i + 1..];
        assert incoming[..i + 1] == incoming[..i] + [incoming[i]];
        ok := m.Admit(incoming[i], seen, senderTrust);
        if !ok { return false, m; }
      }
      assert incoming[..|incoming|] == incoming;
      ok := m.Prune();
      m.version := version.Bump(nodeId);
    }
  }

  lemma PruneStepKeepsShapes(ps: seq<Proto>, qs: seq<Proto>)
    requires PruneStep(ps, qs) && LabelUniform(ps)
    ensures LabelUniform(qs)
  {
    if i, j :| ClosestPair(ps, i, j) && qs == Consolidate(ps, i, j) {
      ConsolidatedFrom(ps, i, j);
      assert ps[i] in ps && ps[j] in ps;
    } else {
      var i :| Lightest(ps, i) && qs == RemoveAt(ps, i);
      RemovedFrom(ps, i);
    }
  }

  lemma RemovedFrom<T>(s: seq<T>, i: nat)
    requires i < |s|
    ensures forall x | x in RemoveAt(s, i) :: x in s
  {
  }

  lemma ConsolidatedFrom(ps: seq<Proto>, i: nat, j: nat)
    requires i < j < |ps|
    ensures forall p | p in Consolidate(ps, i, j) :: p in ps || p == Centroid(ps[i], ps[j])
  {
    RemovedFrom(ps[i := Centroid(ps[i], ps[j])], j);
  }

  lemma {:induction false} FilterShrinks(ps: seq<Proto>, p: Proto, r: real)
    ensures |Filter(ClearOf(p, r), ps)| < |ps| <==> exists q | q in ps :: Clash(q, p, r)
  {
    if ps != [] {
      FilterShrinks(ps[1..], p, r);
      assert ps == [ps[0]] + ps[1..];
    }
  }
}
