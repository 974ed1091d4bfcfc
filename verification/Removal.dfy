/** Dropping a prototype by value: the list removal compares whole prototypes, and
    two arrays of several coordinates have no truth value to compare by. When pruning
    runs to its end nevertheless. */
module Removals {
  import opened Seqs
  import opened Prototypes
  import opened PrototypeModels
  import opened PruneTheorems

  // Asking whether p == q raises. Arrays that do not combine, or are empty, are not
  // considered.
  predicate TruthFails(p: Proto, q: Proto) {
    Broadcasts(|p.vector|, |q.vector|) && Wide(|p.vector|, |q.vector|) >= 2
  }

  // The one that is removed, found by scanning from the front up to itself.
  ghost predicate FirstLightest(ps: seq<Proto>, k: int) {
    Lightest(ps, k) && forall a | 0 <= a < k :: ps[k].weight < ps[a].weight
  }

  predicate RemovalRaises(ps: seq<Proto>, k: nat)
    requires k < |ps|
  {
    exists a | 0 <= a < k :: TruthFails(ps[a], ps[k])
  }

  // Pruning with that removal: Some of what it may leave, None where it raises.
  ghost predicate PrunesByValue(ps: seq<Proto>, budget: nat, out: Option<seq<Proto>>)
    decreases |ps|
  {
    if |ps| <= budget then out == Some(ps)
    else if DistinctLabels(ps) then
      exists k: nat :: FirstLightest(ps, k) &&
        if RemovalRaises(ps, k) then out == None else PrunesByValue(RemoveAt(ps, k), budget, out)
    else exists i: nat, j: nat :: ClosestPair(ps, i, j) && PrunesByValue(Consolidate(ps, i, j), budget, out)
  }

  // What it completes with, pruning may leave.
  lemma {:induction false} ByValuePrunes(ps: seq<Proto>, budget: nat, rs: seq<Proto>)
    requires PrunesByValue(ps, budget, Some(rs))
    ensures Prunes(ps, budget, rs)
    decreases |ps|
  {
    if |ps| > budget {
      var qs := ps;
      if DistinctLabels(ps) {
        var k: nat :| FirstLightest(ps, k) && !RemovalRaises(ps, k) && PrunesByValue(RemoveAt(ps, k), budget, Some(rs));
        qs := RemoveAt(ps, k);
      } else {
        var i: nat, j: nat :| ClosestPair(ps, i, j) && PrunesByValue(Consolidate(ps, i, j), budget, Some(rs));
        qs := Consolidate(ps, i, j);
      }
      ByValuePrunes(qs, budget, rs);
      PruneBack(ps, qs, budget);
    }
  }

  // ---- it always gets somewhere ----

  lemma {:induction false} SomeFirstLightest(ps: seq<Proto>) returns (k: nat)
    requires ps != []
    ensures FirstLightest(ps, k)
  {
    var n := |ps| - 1;
    k := 0;
    if n > 0 {
      var i := SomeFirstLightest(ps[..n]);
      k := if ps[n].weight < ps[i].weight then n else i;
    }
  }

  // The closest of the pairs below b.
  ghost predicate ClosestBelow(ps: seq<Proto>, i: int, j: int, b: int) {
    && SameLabelPair(ps, i, j)
    && forall c, d | SameLabelPair(ps, c, d) && d < b :: Gap(ps, i, j) <= Gap(ps, c, d)
  }

  // The closest of the given pair and those of b with something below a.
  lemma {:induction false} CloserWith(ps: seq<Proto>, i0: nat, j0: nat, b: nat, a: nat) returns (i: nat, j: nat)
    requires SameLabelPair(ps, i0, j0) && a <= b < |ps|
    ensures SameLabelPair(ps, i, j) && Gap(ps, i, j) <= Gap(ps, i0, j0)
    ensures forall c | 0 <= c < a && SameLabelPair(ps, c, b) :: Gap(ps, i, j) <= Gap(ps, c, b)
    decreases a
  {
    i, j := i0, j0;
    if a > 0 {
      i, j := CloserWith(ps, i0, j0, b, a - 1);
      if SameLabelPair(ps, a - 1, b) && Gap(ps, a - 1, b) < Gap(ps, i, j) {
        i, j := a - 1, b;
      }
    }
  }

  lemma {:induction false} SomeClosestBelow(ps: seq<Proto>, i0: nat, j0: nat, b: nat) returns (i: nat, j: nat)
    requires SameLabelPair(ps, i0, j0) && b <= |ps|
    ensures ClosestBelow(ps, i, j, b)
  {
    i, j := i0, j0;
    if b > 0 {
      i, j := SomeClosestBelow(ps, i0, j0, b - 1);
      var i1, j1 := i, j;
      i, j := CloserWith(ps, i1, j1, b - 1, b - 1);
      forall c, d | SameLabelPair(ps, c, d) && d < b ensures Gap(ps, i, j) <= Gap(ps, c, d) {
        if d < b - 1 { assert Gap(ps, i1, j1) <= Gap(ps, c, d); }
      }
    }
  }

  lemma SomeClosestPair(ps: seq<Proto>) returns (i: nat, j: nat)
    requires !DistinctLabels(ps)
    ensures ClosestPair(ps, i, j)
  {
    var a: nat, b: nat :| a < b < |ps| && ps[a].lbl == ps[b].lbl;
    i, j := SomeClosestBelow(ps, a, b, |ps|);
  }

  // However ties break, pruning by value completes or raises.
  lemma {:induction false} ByValueEnds(ps: seq<Proto>, budget: nat) returns (out: Option<seq<Proto>>)
    ensures PrunesByValue(ps, budget, out)
    decreases |ps|
  {
    if |ps| <= budget {
      out := Some(ps);
    } else if DistinctLabels(ps) {
      var k := SomeFirstLightest(ps);
      if RemovalRaises(ps, k) {
        out := None;
      } else {
        out := ByValueEnds(RemoveAt(ps, k), budget);
      }
    } else {
      var i, j := SomeClosestPair(ps);
      out := ByValueEnds(Consolidate(ps, i, j), budget);
    }
  }

  // ---- which of the two ----

  function LabelSeq(ps: seq<Proto>): (ls: seq<int>)
    ensures |ls| == |ps| && forall i | 0 <= i < |ps| :: ls[i] == ps[i].lbl
  {
    seq(|ps|, i requires 0 <= i < |ps| => ps[i].lbl)
  }

  // Each label once, by first appearance.
  function FirstSeen(ls: seq<int>): seq<int> {
    if ls == [] then []
    else
      var n := |ls| - 1;
      var front := FirstSeen(ls[..n]);
      if ls[n] in front then front else front + [ls[n]]
  }

  lemma {:induction false} FirstSeenMembers(ls: seq<int>, l: int)
    ensures |FirstSeen(ls)| <= |ls|
    ensures l in FirstSeen(ls) <==> l in ls
  {
    if ls != [] {
      var n := |ls| - 1;
      FirstSeenMembers(ls[..n], l);
      assert ls == ls[..n] + [ls[n]];
    }
  }

  // Those that have to go are the first seen, each no heavier than all after it.
  ghost predicate LeaveInTurn(ps: seq<Proto>, budget: nat) {
    var o := FirstSeen(LabelSeq(ps));
    forall a, b | 0 <= a < |o| - budget && a < b < |o| :: LabelWeight(ps, o[a]) <= LabelWeight(ps, o[b])
  }

  lemma {:induction false} RepeatIsNotFirst(ls: seq<int>, i: nat, j: nat)
    requires i < j < |ls| && ls[i] == ls[j]
    ensures FirstSeen(RemoveAt(ls, j)) == FirstSeen(ls)
    decreases |ls|
  {
    var n := |ls| - 1;
    var rest := RemoveAt(ls, j);
    if j == n {
      assert rest == ls[..n];
      assert ls[..n][i] == ls[n];
      FirstSeenMembers(ls[..n], ls[n]);
    } else {
      RepeatIsNotFirst(ls[..n], i, j);
      assert rest[..n - 1] == RemoveAt(ls[..n], j) && rest[n - 1] == ls[n];
    }
  }

  lemma {:induction false} DistinctIsFirstSeen(ls: seq<int>)
    requires forall i, j | 0 <= i < j < |ls| :: ls[i] != ls[j]
    ensures FirstSeen(ls) == ls
  {
    if ls != [] {
      var n := |ls| - 1;
      DistinctIsFirstSeen(ls[..n]);
      assert ls == ls[..n] + [ls[n]];
    }
  }

  lemma ConsolidateKeepsTurn(ps: seq<Proto>, i: nat, j: nat, budget: nat)
    requires SameLabelPair(ps, i, j) && Sound(ps)
    ensures LeaveInTurn(Consolidate(ps, i, j), budget) <==> LeaveInTurn(ps, budget)
  {
    var qs := Consolidate(ps, i, j);
    RepeatIsNotFirst(LabelSeq(ps), i, j);
    assert LabelSeq(qs) == RemoveAt(LabelSeq(ps), j);
    ConsolidateTotals(ps, i, j);
    assert forall l :: LabelWeight(ps, l) == LabelWeight(qs, l);
  }

  ghost predicate WeightsInTurn(ps: seq<Proto>, budget: nat) {
    forall a, b | 0 <= a < |ps| - budget && a < b < |ps| :: ps[a].weight <= ps[b].weight
  }

  lemma DistinctTurn(ps: seq<Proto>, budget: nat)
    requires DistinctLabels(ps)
    ensures LeaveInTurn(ps, budget) <==> WeightsInTurn(ps, budget)
  {
    DistinctIsFirstSeen(LabelSeq(ps));
    forall a | 0 <= a < |ps| ensures LabelWeight(ps, LabelSeq(ps)[a]) == ps[a].weight {
      SoleCarrier(ps, a);
    }
  }

  lemma DropKeepsTurn(ps: seq<Proto>, k: nat, budget: nat)
    requires |ps| > budget && FirstLightest(ps, k)
    ensures k == 0 ==> (WeightsInTurn(RemoveAt(ps, k), budget) <==> WeightsInTurn(ps, budget))
    ensures k > 0 ==> !WeightsInTurn(ps, budget)
  {
    if k == 0 {
      var qs := RemoveAt(ps, 0);
      if WeightsInTurn(qs, budget) {
        forall a, b | 0 <= a < |ps| - budget && a < b < |ps| ensures ps[a].weight <= ps[b].weight {
          if a > 0 { assert qs[a - 1].weight <= qs[b - 1].weight; }
        }
      }
    } else {
      assert ps[k].weight < ps[0].weight;
    }
  }

  lemma RemovalOfDim(ps: seq<Proto>, k: nat, d: nat)
    requires k < |ps| && OfDim(ps, d)
    ensures RemovalRaises(ps, k) <==> k > 0 && d >= 2
  {
    assert forall a | 0 <= a < |ps| :: ps[a] in ps;
    if k > 0 && d >= 2 { assert TruthFails(ps[0], ps[k]); }
  }

  // Among prototypes of one shape, with weights that do not cancel, pruning by value
  // runs to its end exactly on single coordinates, or when the labels to be dropped
  // are the first seen and leave in order of weight; in particular when none has to
  // be dropped.
  lemma {:induction false} RaisesExactly(ps: seq<Proto>, budget: nat, d: nat, out: Option<seq<Proto>>)
    requires PrunesByValue(ps, budget, out) && OfDim(ps, d) && Sound(ps)
    ensures out == None <==> d >= 2 && !LeaveInTurn(ps, budget)
    decreases |ps|
  {
    if |ps| <= budget {
      FirstSeenMembers(LabelSeq(ps), 0);
    } else if DistinctLabels(ps) {
      var k: nat :| FirstLightest(ps, k) &&
        if RemovalRaises(ps, k) then out == None else PrunesByValue(RemoveAt(ps, k), budget, out);
      RemovalOfDim(ps, k, d);
      DistinctTurn(ps, budget);
      DropKeepsTurn(ps, k, budget);
      if !RemovalRaises(ps, k) {
        DroppedRaises(ps, k, budget, d, out);
      }
    } else {
      var i: nat, j: nat :| ClosestPair(ps, i, j) && PrunesByValue(Consolidate(ps, i, j), budget, out);
      var qs := Consolidate(ps, i, j);
      StepKeepsSound(ps, qs);
      StepKeepsLabels(ps, qs);
      ConsolidateKeepsTurn(ps, i, j, budget);
      RaisesExactly(qs, budget, d, out);
    }
  }

  lemma DroppedRaises(ps: seq<Proto>, k: nat, budget: nat, d: nat, out: Option<seq<Proto>>)
    requires |ps| > budget && DistinctLabels(ps) && FirstLightest(ps, k)
    requires PrunesByValue(RemoveAt(ps, k), budget, out) && OfDim(ps, d) && Sound(ps)
    ensures out == None <==> d >= 2 && !WeightsInTurn(RemoveAt(ps, k), budget)
    decreases |ps|, 0
  {
    var qs := RemoveAt(ps, k);
    assert PruneStep(ps, qs);
    StepKeepsSound(ps, qs);
    StepKeepsLabels(ps, qs);
    RemoveAtMembers(ps, k);
    DistinctTurn(qs, budget);
    RaisesExactly(qs, budget, d, out);
  }

  // Two labels, room for one, and the lightest comes second: removing it raises.
  lemma SecondCannotGo()
    ensures PrunesByValue([Proto([0.0, 0.0], 0, 2.0), Proto([9.0, 9.0], 1, 1.0)], 1, None)
  {
    var ps := [Proto([0.0, 0.0], 0, 2.0), Proto([9.0, 9.0], 1, 1.0)];
    assert FirstLightest(ps, 1);
    assert TruthFails(ps[0], ps[1]);
    assert RemovalRaises(ps, 1);
  }

  // Labels that fit the budget are never dropped by value.
  lemma FittingLabelsComplete(ps: seq<Proto>, budget: nat, d: nat, out: Option<seq<Proto>>)
    requires PrunesByValue(ps, budget, out) && OfDim(ps, d) && Sound(ps)
    requires |Labels(ps)| <= budget
    ensures out.Some? && Prunes(ps, budget, out.value)
  {
    var o := FirstSeen(LabelSeq(ps));
    FirstSeenCount(LabelSeq(ps));
    assert Labels(ps) == set l | l in o by {
      forall l | l in o ensures l in Labels(ps) {
        FirstSeenMembers(LabelSeq(ps), l);
        var i :| 0 <= i < |ps| && LabelSeq(ps)[i] == l;
        assert ps[i] in ps;
      }
      forall p | p in ps ensures p.lbl in o {
        var i :| 0 <= i < |ps| && ps[i] == p;
        assert LabelSeq(ps)[i] == p.lbl;
        FirstSeenMembers(LabelSeq(ps), p.lbl);
      }
    }
    RaisesExactly(ps, budget, d, out);
    ByValuePrunes(ps, budget, out.value);
  }

  lemma {:induction false} FirstSeenCount(ls: seq<int>)
    ensures var o := FirstSeen(ls); |o| == |set l | l in o|
  {
    if ls != [] {
      var n := |ls| - 1;
      var o, o' := FirstSeen(ls[..n]), FirstSeen(ls);
      FirstSeenCount(ls[..n]);
      if ls[n] !in o {
        assert (set l | l in o') == (set l | l in o) + {ls[n]};
      }
    }
  }
}
