/** What a merge keeps, and exactly when the order of a batch does not matter. */
module MergeTheorems {
  import opened Seqs
  import opened Prototypes
  import opened PrototypeModels

  // ---- what every merge keeps ----

  // No two differently labelled prototypes inside the conflict radius.
  ghost predicate ConflictFree(ps: seq<Proto>, r: real) {
    forall p, q | p in ps && q in ps :: !Clash(p, q, r)
  }

  lemma ClashSymmetric(p: Proto, q: Proto, r: real)
    ensures Clash(p, q, r) <==> Clash(q, p, r)
  {
    NearSymmetric(p.vector, q.vector, r);
  }

  lemma UnionOneKeepsConflictFree(radii: Radii, trust: real, seen: set<Key>, m: Union, p: Proto)
    requires ConflictFree(m.protos, radii.conflict)
    ensures ConflictFree(UnionOne(radii, trust, seen, m, p).protos, radii.conflict)
  {
    forall q ensures Clash(p, q, radii.conflict) <==> Clash(q, p, radii.conflict) {
      ClashSymmetric(p, q, radii.conflict);
    }
  }

  // For any batch, however hostile, and any trust.
  lemma {:induction false} UnionKeepsConflictFree(radii: Radii, trust: real, seen: set<Key>, m: Union,
                                                  batch: seq<Proto>)
    requires ConflictFree(m.protos, radii.conflict)
    ensures ConflictFree(UnionFold(radii, trust, seen, m, batch).protos, radii.conflict)
    decreases |batch|
  {
    if batch != [] {
      UnionOneKeepsConflictFree(radii, trust, seen, m, batch[0]);
      UnionKeepsConflictFree(radii, trust, seen, UnionOne(radii, trust, seen, m, batch[0]), batch[1..]);
    }
  }

  // Members come from the model or the batch, one shape throughout; a nonempty
  // union never empties and every incoming prototype is accounted for once.
  lemma {:induction false} UnionMembers(radii: Radii, trust: real, seen: set<Key>, m: Union, batch: seq<Proto>)
    requires Uniform(m.protos)
    ensures var u := UnionFold(radii, trust, seen, m, batch);
            && Uniform(u.protos)
            && (forall p | p in u.protos :: p in m.protos || p in batch)
            && (m.protos != [] ==> u.protos != [] && |u.protos[0].vector| == |m.protos[0].vector|)
            && u.accepted >= m.accepted && u.conflicts >= m.conflicts
            && u.accepted + u.conflicts - m.accepted - m.conflicts == |Filter(UnseenIn(seen), batch)|
    decreases |batch|
  {
    if batch != [] {
      var m' := UnionOne(radii, trust, seen, m, batch[0]);
      assert Uniform(m'.protos);
      assert m.protos != [] ==> m'.protos != [] && m'.protos[0] in m'.protos;
      UnionMembers(radii, trust, seen, m', batch[1..]);
    }
  }

  // ---- order of the batch ----

  function UnseenIn(seen: set<Key>): Proto -> bool {
    (p: Proto) => KeyOf(p) !in seen
  }

  // p passes every check the local prototypes alone can make.
  function Admissible(radii: Radii, trust: real, ps: seq<Proto>): Proto -> bool {
    (p: Proto) =>
      && KeyOf(p) !in Keys(ps)
      && (ps != [] ==> |p.vector| == |ps[0].vector|)
      && (trust < radii.overrideTrust ==> forall q | q in ps :: !Clash(q, p, radii.conflict))
  }

  // Neither a duplicate nor admissible.
  function Contradicted(radii: Radii, trust: real, ps: seq<Proto>): Proto -> bool {
    (p: Proto) => KeyOf(p) !in Keys(ps) && !Admissible(radii, trust, ps)(p)
  }

  predicate Compatible(p: Proto, q: Proto, r: real) {
    |p.vector| == |q.vector| && !Clash(p, q, r)
  }

  ghost predicate PairwiseCompatible(ps: seq<Proto>, r: real) {
    forall p, q | p in ps && q in ps :: Compatible(p, q, r)
  }

  function ClearOfAll(batch: seq<Proto>, r: real): Proto -> bool {
    (q: Proto) => forall p | p in batch :: !Clash(q, p, r)
  }

  // The order-free description of a union: the local prototypes no admitted one
  // contradicts, then the admitted ones.
  ghost function OrderFree(radii: Radii, trust: real, ps: seq<Proto>, batch: seq<Proto>): Union {
    var adm := Filter(Admissible(radii, trust, ps), batch);
    Union(Filter(ClearOfAll(adm, radii.conflict), ps) + adm,
          |adm|, |Filter(Contradicted(radii, trust, ps), batch)|)
  }

  // An order-free union for a prefix whose admitted members are `adm`.
  ghost predicate Progress(radii: Radii, ps: seq<Proto>, adm: seq<Proto>, m: Union) {
    && m.protos == Filter(ClearOfAll(adm, radii.conflict), ps) + adm
    && m.accepted == |adm|
  }

  lemma FilterFilter(ps: seq<Proto>, adm: seq<Proto>, p: Proto, r: real)
    ensures Filter(ClearOf(p, r), Filter(ClearOfAll(adm, r), ps)) == Filter(ClearOfAll(adm + [p], r), ps)
    decreases |ps|
  {
    if ps != [] {
      FilterFilter(ps[1..], adm, p, r);
      var rest := Filter(ClearOfAll(adm, r), ps[1..]);
      assert Filter(ClearOfAll(adm, r), ps) == (if ClearOfAll(adm, r)(ps[0]) then [ps[0]] else []) + rest;
      FilterAppend(ClearOf(p, r), if ClearOfAll(adm, r)(ps[0]) then [ps[0]] else [], rest);
      assert ClearOfAll(adm + [p], r)(ps[0]) <==> ClearOfAll(adm, r)(ps[0]) && ClearOf(p, r)(ps[0]);
    }
  }

  // One more prototype of a batch whose admissible members are compatible.
  lemma AdmitOne(radii: Radii, trust: real, ps: seq<Proto>, adm: seq<Proto>, m: Union, p: Proto)
    requires Uniform(ps) && Progress(radii, ps, adm, m)
    requires forall q | q in adm :: Admissible(radii, trust, ps)(q)
    requires Admissible(radii, trust, ps)(p) && PairwiseCompatible(adm + [p], radii.conflict)
    ensures var m' := UnionOne(radii, trust, Keys(ps), m, p);
            Progress(radii, ps, adm + [p], m') && m'.conflicts == m.conflicts
  {
    assert p in adm + [p];
    forall q | q in adm ensures Compatible(q, p, radii.conflict) {
      assert q in adm + [p];
    }
    ShapeOfProgress(radii, trust, ps, adm, m);
    AdmittedContents(radii, ps, adm, m, p);
  }

  lemma AdmittedContents(radii: Radii, ps: seq<Proto>, adm: seq<Proto>, m: Union, p: Proto)
    requires Progress(radii, ps, adm, m)
    requires forall q | q in adm :: Compatible(q, p, radii.conflict)
    ensures Filter(ClearOf(p, radii.conflict), m.protos) + [p]
         == Filter(ClearOfAll(adm + [p], radii.conflict), ps) + (adm + [p])
  {
    var r := radii.conflict;
    FilterAppend(ClearOf(p, r), Filter(ClearOfAll(adm, r), ps), adm);
    FilterAll(ClearOf(p, r), adm);
    FilterFilter(ps, adm, p, r);
  }

  lemma RefuseOne(radii: Radii, trust: real, ps: seq<Proto>, adm: seq<Proto>, m: Union, p: Proto)
    requires Uniform(ps) && Progress(radii, ps, adm, m)
    requires forall q | q in adm :: Admissible(radii, trust, ps)(q)
    requires !Admissible(radii, trust, ps)(p)
    ensures var m' := UnionOne(radii, trust, Keys(ps), m, p);
            && Progress(radii, ps, adm, m')
            && m'.conflicts == m.conflicts + if KeyOf(p) in Keys(ps) then 0 else 1
  {
    ShapeOfProgress(radii, trust, ps, adm, m);
    if KeyOf(p) !in Keys(ps) && ps != [] && |p.vector| == |ps[0].vector| {
      var q :| q in ps && Clash(q, p, radii.conflict);
      forall a | a in adm ensures !Clash(q, a, radii.conflict) {
        assert Admissible(radii, trust, ps)(a);
      }
      assert q in m.protos;
    }
  }

  lemma ShapeOfProgress(radii: Radii, trust: real, ps: seq<Proto>, adm: seq<Proto>, m: Union)
    requires Uniform(ps) && Progress(radii, ps, adm, m)
    requires forall q | q in adm :: Admissible(radii, trust, ps)(q)
    ensures ps != [] ==> m.protos != [] && |m.protos[0].vector| == |ps[0].vector|
    ensures ps == [] ==> m.protos == adm
  {
    if ps != [] {
      var kept := Filter(ClearOfAll(adm, radii.conflict), ps);
      if adm == [] {
        assert forall q | q in ps :: ClearOfAll(adm, radii.conflict)(q);
        FilterAll(ClearOfAll(adm, radii.conflict), ps);
      }
      assert m.protos[0] in kept || m.protos[0] in adm;
    }
  }

  lemma PairwisePrefix(a: seq<Proto>, b: seq<Proto>, r: real)
    requires PairwiseCompatible(a + b, r)
    ensures PairwiseCompatible(a, r)
  {
    assert forall p | p in a :: p in a + b;
  }

  lemma FilterFirst(f: Proto -> bool, adm: seq<Proto>, batch: seq<Proto>)
    requires batch != []
    ensures adm + Filter(f, batch) == (if f(batch[0]) then adm + [batch[0]] else adm) + Filter(f, batch[1..])
  {
  }

  lemma TakeOne(radii: Radii, trust: real, ps: seq<Proto>, adm: seq<Proto>, m: Union, p: Proto)
    requires Uniform(ps) && Progress(radii, ps, adm, m)
    requires forall q | q in adm :: Admissible(radii, trust, ps)(q)
    requires Admissible(radii, trust, ps)(p) ==> PairwiseCompatible(adm + [p], radii.conflict)
    ensures var m' := UnionOne(radii, trust, Keys(ps), m, p);
            && Progress(radii, ps, if Admissible(radii, trust, ps)(p) then adm + [p] else adm, m')
            && m'.conflicts == m.conflicts + if Contradicted(radii, trust, ps)(p) then 1 else 0
  {
    if Admissible(radii, trust, ps)(p) {
      AdmitOne(radii, trust, ps, adm, m, p);
    } else {
      RefuseOne(radii, trust, ps, adm, m, p);
    }
  }

  lemma {:induction false} FoldIsOrderFree(radii: Radii, trust: real, ps: seq<Proto>, adm: seq<Proto>, m: Union,
                                           batch: seq<Proto>)
    requires Uniform(ps) && Progress(radii, ps, adm, m)
    requires forall q | q in adm :: Admissible(radii, trust, ps)(q)
    requires PairwiseCompatible(adm + Filter(Admissible(radii, trust, ps), batch), radii.conflict)
    ensures var u := UnionFold(radii, trust, Keys(ps), m, batch);
            var more := Filter(Admissible(radii, trust, ps), batch);
            && Progress(radii, ps, adm + more, u)
            && u.conflicts == m.conflicts + |Filter(Contradicted(radii, trust, ps), batch)|
    decreases |batch|
  {
    var f := Admissible(radii, trust, ps);
    if batch == [] {
      assert adm + Filter(f, batch) == adm;
    } else {
      var p := batch[0];
      var adm' := if f(p) then adm + [p] else adm;
      FilterFirst(f, adm, batch);
      PairwisePrefix(adm', Filter(f, batch[1..]), radii.conflict);
      TakeOne(radii, trust, ps, adm, m, p);
      FoldIsOrderFree(radii, trust, ps, adm', UnionOne(radii, trust, Keys(ps), m, p), batch[1..]);
    }
  }

  lemma UnionIsOrderFree(radii: Radii, trust: real, ps: seq<Proto>, batch: seq<Proto>)
    requires Uniform(ps)
    requires PairwiseCompatible(Filter(Admissible(radii, trust, ps), batch), radii.conflict)
    ensures var u, o := UnionOf(radii, trust, ps, batch), OrderFree(radii, trust, ps, batch);
            u.protos == o.protos && u.accepted == o.accepted && u.conflicts == o.conflicts
  {
    var adm := Filter(Admissible(radii, trust, ps), batch);
    FilterAll(ClearOfAll([], radii.conflict), ps);
    assert ps + [] == ps;
    assert [] + adm == adm;
    FoldIsOrderFree(radii, trust, ps, [], Union(ps, 0, 0), batch);
  }

  ghost predicate SameUnion(u: Union, v: Union) {
    multiset(u.protos) == multiset(v.protos) && u.accepted == v.accepted && u.conflicts == v.conflicts
  }

  // Merging this batch gives the same prototypes and counts in every order.
  ghost predicate OrderInvariant(radii: Radii, trust: real, ps: seq<Proto>, batch: seq<Proto>) {
    forall b1, b2 | multiset(b1) == multiset(batch) && multiset(b2) == multiset(batch) ::
      SameUnion(UnionOf(radii, trust, ps, b1), UnionOf(radii, trust, ps, b2))
  }

  lemma OrderFreePermutes(radii: Radii, trust: real, ps: seq<Proto>, b1: seq<Proto>, b2: seq<Proto>)
    requires multiset(b1) == multiset(b2)
    ensures SameUnion(OrderFree(radii, trust, ps, b1), OrderFree(radii, trust, ps, b2))
  {
    var f, r := Admissible(radii, trust, ps), radii.conflict;
    FilterPermutation(f, b1, b2);
    PermutationLength(Filter(f, b1), Filter(f, b2));
    var g := Contradicted(radii, trust, ps);
    FilterPermutation(g, b1, b2);
    PermutationLength(Filter(g, b1), Filter(g, b2));
    SameMembers(Filter(f, b1), Filter(f, b2));
    FilterAgree(ClearOfAll(Filter(f, b1), r), ClearOfAll(Filter(f, b2), r), ps);
  }

  // If the admissible members of a batch are mutually compatible, any order of
  // the batch gives the same union.
  lemma CompatibleIsOrderInvariant(radii: Radii, trust: real, ps: seq<Proto>, batch: seq<Proto>)
    requires Uniform(ps)
    requires PairwiseCompatible(Filter(Admissible(radii, trust, ps), batch), radii.conflict)
    ensures OrderInvariant(radii, trust, ps, batch)
  {
    var f := Admissible(radii, trust, ps);
    forall b | multiset(b) == multiset(batch)
      ensures SameUnion(UnionOf(radii, trust, ps, b), OrderFree(radii, trust, ps, batch))
    {
      FilterPermutation(f, b, batch);
      SameMembers(Filter(f, b), Filter(f, batch));
      UnionIsOrderFree(radii, trust, ps, b);
      OrderFreePermutes(radii, trust, ps, b, batch);
    }
  }

  // ---- the converse: two incompatible members make the order matter ----

  lemma {:induction false} FoldAppend(radii: Radii, trust: real, seen: set<Key>, m: Union, a: seq<Proto>, b: seq<Proto>)
    ensures UnionFold(radii, trust, seen, m, a + b)
         == UnionFold(radii, trust, seen, UnionFold(radii, trust, seen, m, a), b)
    decreases |a|
  {
    if a == [] {
      assert a + b == b;
    } else {
      assert (a + b)[1..] == a[1..] + b;
      FoldAppend(radii, trust, seen, UnionOne(radii, trust, seen, m, a[0]), a[1..], b);
    }
  }

  lemma FoldPair(radii: Radii, trust: real, seen: set<Key>, m: Union, p: Proto, q: Proto)
    ensures UnionFold(radii, trust, seen, m, [p, q])
         == UnionOne(radii, trust, seen, UnionOne(radii, trust, seen, m, p), q)
  {
    assert [p, q][1..] == [q] && [q][1..] == [];
    var m' := UnionOne(radii, trust, seen, m, p);
    assert UnionFold(radii, trust, seen, m', [q]) == UnionFold(radii, trust, seen, UnionOne(radii, trust, seen, m',
           q), []);
  }

  // A prototype present after one order and absent after another.
  lemma Distinguishes(radii: Radii, trust: real, ps: seq<Proto>, batch: seq<Proto>, b1: seq<Proto>, b2: seq<Proto>,
                      x: Proto)
    requires multiset(b1) == multiset(batch) && multiset(b2) == multiset(batch)
    requires x in UnionOf(radii, trust, ps, b1).protos && x !in UnionOf(radii, trust, ps, b2).protos
    ensures !OrderInvariant(radii, trust, ps, batch)
  {
    var u1, u2 := UnionOf(radii, trust, ps, b1), UnionOf(radii, trust, ps, b2);
    assert x in multiset(u1.protos) && x !in multiset(u2.protos);
    assert !SameUnion(u1, u2);
  }

  // A low-trust union only grows, and refuses whatever contradicts a member.
  lemma {:induction false} FirstComeStays(radii: Radii, trust: real, seen: set<Key>, m: Union, batch: seq<Proto>,
                                          p: Proto, q: Proto)
    requires trust < radii.overrideTrust && p in m.protos && q !in m.protos && Clash(p, q, radii.conflict)
    ensures var u := UnionFold(radii, trust, seen, m, batch); p in u.protos && q !in u.protos
    decreases |batch|
  {
    if batch != [] {
      FilterAllClear(m.protos, batch[0], radii.conflict);
      FirstComeStays(radii, trust, seen, UnionOne(radii, trust, seen, m, batch[0]), batch[1..], p, q);
    }
  }

  lemma FilterAllClear(ps: seq<Proto>, p: Proto, r: real)
    ensures (forall q | q in ps :: !Clash(q, p, r)) ==> Filter(ClearOf(p, r), ps) == ps
  {
    if forall q | q in ps :: !Clash(q, p, r) {
      FilterAll(ClearOf(p, r), ps);
    }
  }

  lemma DropRegimeOrderMatters(radii: Radii, trust: real, ps: seq<Proto>, batch: seq<Proto>, p: Proto, q: Proto)
    requires Uniform(ps) && trust < radii.overrideTrust
    requires p in Filter(Admissible(radii, trust, ps), batch) && q in Filter(Admissible(radii, trust, ps), batch)
    requires |p.vector| == |q.vector| && Clash(p, q, radii.conflict)
    ensures !OrderInvariant(radii, trust, ps, batch)
  {
    var rest := PullOut(batch, p, q);
    ClashSymmetric(p, q, radii.conflict);
    FirstWins(radii, trust, ps, p, q, rest);
    FirstWins(radii, trust, ps, q, p, rest);
    Distinguishes(radii, trust, ps, batch, [p, q] + rest, [q, p] + rest, p);
  }

  lemma FirstWins(radii: Radii, trust: real, ps: seq<Proto>, p: Proto, q: Proto, rest: seq<Proto>)
    requires trust < radii.overrideTrust
    requires Admissible(radii, trust, ps)(p) && Admissible(radii, trust, ps)(q)
    requires |p.vector| == |q.vector| && Clash(p, q, radii.conflict)
    ensures var u := UnionOf(radii, trust, ps, [p, q] + rest); p in u.protos && q !in u.protos
  {
    var m := Union(ps, 0, 0);
    var m' := UnionOne(radii, trust, Keys(ps), m, p);
    assert forall x | x in ps :: KeyOf(x) in Keys(ps);
    assert p in m'.protos && q !in m'.protos;
    assert ([p, q] + rest)[1..] == [q] + rest;
    FirstComeStays(radii, trust, Keys(ps), m', [q] + rest, p, q);
  }

  lemma EvictRegimeOrderMatters(radii: Radii, trust: real, ps: seq<Proto>, batch: seq<Proto>, p: Proto, q: Proto)
    requires Uniform(ps) && trust >= radii.overrideTrust
    requires p in Filter(Admissible(radii, trust, ps), batch) && q in Filter(Admissible(radii, trust, ps), batch)
    requires |p.vector| == |q.vector| && Clash(p, q, radii.conflict)
    requires ps == [] ==> Uniform(batch)
    ensures !OrderInvariant(radii, trust, ps, batch)
  {
    var rest := PullOut(batch, p, q);
    forall x | x in rest ensures x in batch {
      assert x in multiset(rest);
      assert x in multiset(batch);
    }
    ClashSymmetric(p, q, radii.conflict);
    LastWins(radii, trust, ps, p, q, rest);
    LastWins(radii, trust, ps, q, p, rest);
    Distinguishes(radii, trust, ps, batch, rest + [q, p], rest + [p, q], p);
  }

  lemma LastWins(radii: Radii, trust: real, ps: seq<Proto>, p: Proto, q: Proto, rest: seq<Proto>)
    requires Uniform(ps) && trust >= radii.overrideTrust
    requires Admissible(radii, trust, ps)(p) && Admissible(radii, trust, ps)(q)
    requires |p.vector| == |q.vector| && Clash(p, q, radii.conflict)
    requires ps == [] ==> forall x | x in rest :: |x.vector| == |p.vector|
    ensures var u := UnionOf(radii, trust, ps, rest + [p, q]); q in u.protos && p !in u.protos
  {
    var m0, seen := Union(ps, 0, 0), Keys(ps);
    var m := UnionFold(radii, trust, seen, m0, rest);
    UnionMembers(radii, trust, seen, m0, rest);
    assert m.protos != [] ==> m.protos[0] in m.protos && |m.protos[0].vector| == |p.vector|;
    FoldAppend(radii, trust, seen, m0, rest, [p, q]);
    FoldPair(radii, trust, seen, m, p, q);
    var m' := UnionOne(radii, trust, seen, m, p);
    assert m'.protos == Filter(ClearOf(p, radii.conflict), m.protos) + [p];
    assert |m'.protos[0].vector| == |p.vector| by {
      assert m'.protos[0] in m.protos || m'.protos[0] == p;
    }
    assert UnionOne(radii, trust, seen, m', q).protos == Filter(ClearOf(q, radii.conflict), m'.protos) + [q];
  }

  // On an empty model the first shape to arrive shuts the other out.
  lemma ShapeOrderMatters(radii: Radii, trust: real, batch: seq<Proto>, p: Proto, q: Proto)
    requires p in batch && q in batch && |p.vector| != |q.vector|
    ensures !OrderInvariant(radii, trust, [], batch)
  {
    var rest := PullOut(batch, p, q);
    FirstShapeWins(radii, trust, p, q, rest);
    FirstShapeWins(radii, trust, q, p, rest);
    var x := UnionOf(radii, trust, [], [p, q] + rest).protos[0];
    Distinguishes(radii, trust, [], batch, [p, q] + rest, [q, p] + rest, x);
  }

  lemma FirstShapeWins(radii: Radii, trust: real, p: Proto, q: Proto, rest: seq<Proto>)
    ensures var u := UnionOf(radii, trust, [], [p, q] + rest);
            u.protos != [] && forall x | x in u.protos :: |x.vector| == |p.vector|
  {
    var m := Union([], 0, 0);
    var m' := UnionOne(radii, trust, {}, m, p);
    assert Keys([]) == {};
    assert Filter(ClearOf(p, radii.conflict), []) + [p] == [p];
    assert m'.protos == [p];
    assert ([p, q] + rest)[1..] == [q] + rest;
    UnionMembers(radii, trust, {}, m', [q] + rest);
  }

  // The union stage is order-invariant exactly when the members of the batch that
  // the local prototypes admit do not contradict one another.
  lemma OrderInvariantExactly(radii: Radii, trust: real, ps: seq<Proto>, batch: seq<Proto>)
    requires Uniform(ps)
    ensures OrderInvariant(radii, trust, ps, batch)
       <==> PairwiseCompatible(Filter(Admissible(radii, trust, ps), batch), radii.conflict)
  {
    var adm := Filter(Admissible(radii, trust, ps), batch);
    if PairwiseCompatible(adm, radii.conflict) {
      CompatibleIsOrderInvariant(radii, trust, ps, batch);
    } else {
      var p, q :| p in adm && q in adm && !Compatible(p, q, radii.conflict);
      if ps == [] && exists a, b :: a in batch && b in batch && |a.vector| != |b.vector| {
        var a, b :| a in batch && b in batch && |a.vector| != |b.vector|;
        ShapeOrderMatters(radii, trust, batch, a, b);
      } else if trust < radii.overrideTrust {
        DropRegimeOrderMatters(radii, trust, ps, batch, p, q);
      } else {
        EvictRegimeOrderMatters(radii, trust, ps, batch, p, q);
      }
    }
  }

  // Nothing is pruned, whatever the order.
  ghost predicate FitsInEveryOrder(radii: Radii, budget: nat, trust: real, ps: seq<Proto>, batch: seq<Proto>) {
    forall b | multiset(b) == multiset(batch) :: |UnionOf(radii, trust, ps, b).protos| <= budget
  }

  // Every order of the batch merges to the same prototypes and counts.
  ghost predicate MergesAlike(radii: Radii, budget: nat, trust: real, ps: seq<Proto>, batch: seq<Proto>) {
    forall b1, b2, c1, c2 | multiset(b1) == multiset(batch) && multiset(b2) == multiset(batch)
                            && Merges(radii, budget, ps, b1, trust, c1) && Merges(radii, budget, ps, b2, trust, c2) ::
      SameUnion(c1, c2)
  }

  // A compatible batch whose union fits the budget merges alike in every order ...
  lemma CompatibleMergesAlike(radii: Radii, budget: nat, trust: real, ps: seq<Proto>, batch: seq<Proto>)
    requires Uniform(ps) && PairwiseCompatible(Filter(Admissible(radii, trust, ps), batch), radii.conflict)
    requires |UnionOf(radii, trust, ps, batch).protos| <= budget
    ensures FitsInEveryOrder(radii, budget, trust, ps, batch) && MergesAlike(radii, budget, trust, ps, batch)
  {
    CompatibleIsOrderInvariant(radii, trust, ps, batch);
    forall b | multiset(b) == multiset(batch) ensures |UnionOf(radii, trust, ps, b).protos| <= budget {
      assert SameUnion(UnionOf(radii, trust, ps, b), UnionOf(radii, trust, ps, batch));
      PermutationLength(UnionOf(radii, trust, ps, b).protos, UnionOf(radii, trust, ps, batch).protos);
    }
    FittingMergesExactly(radii, budget, trust, ps, batch);
  }

  lemma FittingMergesExactly(radii: Radii, budget: nat, trust: real, ps: seq<Proto>, batch: seq<Proto>)
    requires FitsInEveryOrder(radii, budget, trust, ps, batch)
    ensures MergesAlike(radii, budget, trust, ps, batch) <==> OrderInvariant(radii, trust, ps, batch)
  {
    forall b | multiset(b) == multiset(batch)
      ensures forall c | Merges(radii, budget, ps, b, trust, c) :: c == UnionOf(radii, trust, ps, b)
      ensures Merges(radii, budget, ps, b, trust, UnionOf(radii, trust, ps, b))
    {
    }
  }

  // ... and among batches that fit in every order only the compatible ones do.
  lemma MergeOrderInvariantExactly(radii: Radii, budget: nat, trust: real, ps: seq<Proto>, batch: seq<Proto>)
    requires Uniform(ps) && FitsInEveryOrder(radii, budget, trust, ps, batch)
    ensures MergesAlike(radii, budget, trust, ps, batch)
       <==> PairwiseCompatible(Filter(Admissible(radii, trust, ps), batch), radii.conflict)
  {
    OrderInvariantExactly(radii, trust, ps, batch);
    FittingMergesExactly(radii, budget, trust, ps, batch);
  }

  // "Merging is order-invariant" fails without that condition: two contradicting
  // newcomers, first come first served.
  lemma OrderMatters()
    ensures var radii := Radii(0.5, 1.0, 1.5, 0.6);
            !OrderInvariant(radii, 0.5, [], [Proto([0.0], 0, 1.0), Proto([1.0], 1, 1.0)])
  {
    var radii := Radii(0.5, 1.0, 1.5, 0.6);
    var p, q := Proto([0.0], 0, 1.0), Proto([1.0], 1, 1.0);
    var batch := [p, q];
    assert GapsTo(p.vector, q.vector, 0) == 0.0;
    assert Dist2(p.vector, q.vector) == GapsTo(p.vector, q.vector, 1) == 1.0;
    assert Clash(p, q, 1.5);
    assert Admissible(radii, 0.5, [])(p) && Admissible(radii, 0.5, [])(q);
    assert p in batch && q in batch;
    assert !Compatible(p, q, 1.5);
    OrderInvariantExactly(radii, 0.5, [], batch);
  }

  // Beyond the budget even compatible newcomers need not merge alike: of any two of
  // different labels and one weight, the first to come is dropped.
  lemma OverflowOrderMatters(radii: Radii, trust: real, p: Proto, q: Proto)
    requires Compatible(p, q, radii.conflict) && p.lbl != q.lbl && p.weight == q.weight
    ensures PairwiseCompatible([p, q], radii.conflict)
    ensures Merges(radii, 1, [], [p, q], trust, Union([q], 2, 0))
    ensures Merges(radii, 1, [], [q, p], trust, Union([p], 2, 0))
    ensures !MergesAlike(radii, 1, trust, [], [p, q])
  {
    ClashSymmetric(p, q, radii.conflict);
    FirstIsDropped(radii, trust, p, q);
    FirstIsDropped(radii, trust, q, p);
    assert multiset([q, p]) == multiset([p, q]);
    assert p in multiset([p]) && p !in multiset([q]);
    assert !SameUnion(Union([q], 2, 0), Union([p], 2, 0));
  }

  lemma NewcomersFit(radii: Radii, trust: real, p: Proto, q: Proto)
    requires |p.vector| == |q.vector| && !Clash(p, q, radii.conflict)
    ensures UnionOf(radii, trust, [], [p, q]) == Union([p, q], 2, 0)
  {
    FoldPair(radii, trust, {}, Union([], 0, 0), p, q);
    assert Keys([]) == {};
    assert UnionOne(radii, trust, {}, Union([], 0, 0), p).protos == [p];
    FilterAllClear([p], q, radii.conflict);
  }

  lemma FirstIsDropped(radii: Radii, trust: real, p: Proto, q: Proto)
    requires |p.vector| == |q.vector| && !Clash(p, q, radii.conflict) && p.lbl != q.lbl && p.weight <= q.weight
    ensures Merges(radii, 1, [], [p, q], trust, Union([q], 2, 0))
  {
    NewcomersFit(radii, trust, p, q);
    assert Lightest([p, q], 0) && RemoveAt([p, q], 0) == [q];
    assert PruneStep([p, q], [q]) && Prunes([q], 1, [q]);
  }

  // ---- repeating a merge ----

  // Merging p again would change nothing.
  predicate Settled(ps: seq<Proto>, p: Proto, r: real) {
    || KeyOf(p) in Keys(ps)
    || (ps != [] && |p.vector| != |ps[0].vector|)
    || exists q | q in ps :: Clash(q, p, r)
  }

  lemma {:induction false} LowTrustSettles(radii: Radii, trust: real, seen: set<Key>, m: Union, batch: seq<Proto>)
    requires trust < radii.overrideTrust && seen <= Keys(m.protos)
    ensures var u := UnionFold(radii, trust, seen, m, batch);
            && m.protos <= u.protos
            && forall p | p in batch :: Settled(u.protos, p, radii.conflict)
    decreases |batch|
  {
    if batch != [] {
      var p := batch[0];
      var m' := UnionOne(radii, trust, seen, m, p);
      FilterAllClear(m.protos, p, radii.conflict);
      assert m.protos <= m'.protos;
      assert forall q | q in m.protos :: q in m'.protos;
      assert Settled(m'.protos, p, radii.conflict);
      LowTrustSettles(radii, trust, seen, m', batch[1..]);
      var u := UnionFold(radii, trust, seen, m', batch[1..]);
      assert forall q | q in m'.protos :: q in u.protos;
      assert forall x | x in batch :: x == p || x in batch[1..];
    }
  }

  lemma {:induction false} SettledChangesNothing(radii: Radii, trust: real, m: Union, batch: seq<Proto>)
    requires trust < radii.overrideTrust
    requires forall p | p in batch :: Settled(m.protos, p, radii.conflict)
    ensures var u := UnionFold(radii, trust, Keys(m.protos), m, batch);
            u.protos == m.protos && u.accepted == m.accepted
    decreases |batch|
  {
    if batch != [] {
      assert batch[0] in batch;
      assert forall p | p in batch[1..] :: p in batch;
      SettledChangesNothing(radii, trust, UnionOne(radii, trust, Keys(m.protos), m, batch[0]), batch[1..]);
    }
  }

  // A low-trust sender repeating a batch that fitted the budget gets nothing
  // accepted and moves no prototype.
  lemma RepeatedMergeIsIdle(radii: Radii, budget: nat, trust: real, ps: seq<Proto>, batch: seq<Proto>, c: Union,
                            again: Union)
    requires trust < radii.overrideTrust
    requires Merges(radii, budget, ps, batch, trust, c)
    requires |UnionOf(radii, trust, ps, batch).protos| <= budget
    requires Merges(radii, budget, c.protos, batch, trust, again)
    ensures again.accepted == 0 && again.protos == c.protos
  {
    LowTrustSettles(radii, trust, Keys(ps), Union(ps, 0, 0), batch);
    SettledChangesNothing(radii, trust, Union(c.protos, 0, 0), batch);
  }
}
