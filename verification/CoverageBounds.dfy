/** What the greedy allocator guarantees for every input, also when classes get
    stuck: each class ends on at least half of its planned number of nodes. */
module CoverageBounds {
  import opened Seqs
  import opened ClassCoverage

  // A class's cover is large enough, against its plan, to have used up its nodes.
  ghost predicate WellSpread(p: Params, a: Assignment, c: nat)
    requires p.classes > 0
  {
    p.classes * (Plan(p, c) - 1) + 1 <= (p.classes + p.perNode - 1) * Cover(a, c)
  }

  // The greedy loop keeps the classes level: what is outstanding never differs by
  // more than one, and a stuck class was given up at the level then reached.
  ghost predicate LevelAt(p: Params, g: Greedy, c: nat, top: nat)
    requires p.classes > 0 && c < |g.remaining|
  {
    if c in g.stuck
    then Plan(p, c) - Cover(g.assign, c) >= top && WellSpread(p, g.assign, c)
    else top - 1 <= g.remaining[c] <= top
  }

  ghost predicate Level(p: Params, g: Greedy, top: nat) {
    GreedyInvariant(p, g) && forall c: nat | c < p.classes :: LevelAt(p, g, c, top)
  }

  // ---- the moment a class gets stuck ----

  // Only nodes that hold c have room, and each of those is not empty.
  lemma {:induction false} RoomIsOnHolders(a: Assignment, c: int, k: nat)
    requires forall n | 0 <= n < |a| :: |a[n]| <= k && (c !in a[n] ==> |a[n]| == k)
    ensures |a| * k - SizeSum(a) <= (k - 1) * Cover(a, c)
  {
    if a != [] {
      var n := |a| - 1;
      RoomIsOnHolders(a[..n], c, k);
      Distribute(n, k);
      assert forall m | 0 <= m < n :: a[..n][m] == a[m];
      if c in a[n] {
        assert {c} <= a[n];
        SubsetSize({c}, a[n]);
        DistributeLeft(k - 1, Cover(a[..n], c));
      }
    }
  }

  lemma DistributeLeft(a: int, b: int)
    ensures a * (b + 1) == a * b + a
  {
  }

  // The outstanding slots, summed over the classes.
  lemma {:induction false} ShortfallSum(p: Params, g: Greedy, top: nat, d: nat, k: nat)
    requires Level(p, g, top) && top > 0 && k <= p.classes && d < p.classes
    requires d !in g.stuck && g.remaining[d] == top
    ensures PlanSum(p, k) - CoverSum(g.assign, k) >= k * (top - 1) + if d < k then 1 else 0
  {
    if k > 0 {
      var c: nat := k - 1;
      ShortfallSum(p, g, top, d, c);
      assert OnPlan(p, g, c) && LevelAt(p, g, c, top);
      Distribute(c, top - 1);
    }
  }

  lemma StuckIsWellSpread(p: Params, g: Greedy, top: nat, c: nat)
    requires Level(p, g, top) && top > 0 && c < p.classes && c !in g.stuck && g.remaining[c] == top
    requires Blocked(p, g.assign, c)
    ensures WellSpread(p, g.assign, c)
  {
    assert OnPlan(p, g, c);
    ShortfallSum(p, g, top, c, p.classes);
    PlanFillsSlots(p);
    DoubleCount(g.assign, p.classes);
    RoomIsOnHolders(g.assign, c, p.perNode);
    Balance(p.classes, p.perNode, Plan(p, c), Cover(g.assign, c));
  }

  lemma Balance(classes: int, k: int, plan: int, cover: int)
    requires classes * (plan - cover - 1) + 1 <= (k - 1) * cover
    ensures classes * (plan - 1) + 1 <= (classes + k - 1) * cover
  {
    assert classes * (plan - 1) == classes * (plan - cover - 1) + classes * cover;
    assert (classes + k - 1) * cover == classes * cover + (k - 1) * cover;
  }

  // ---- the loop ----

  // The level is the largest count outstanding.
  lemma LevelDown(p: Params, g: Greedy, top: nat) returns (now: nat)
    requires Level(p, g, top)
    ensures now == g.remaining[PickClass(g.remaining)]
    ensures now > 0 ==> Level(p, g, now) && PickClass(g.remaining) !in g.stuck
  {
    var c := PickClass(g.remaining);
    PickClassIsFirstLargest(g.remaining);
    now := g.remaining[c];
    assert OnPlan(p, g, c) && LevelAt(p, g, c, top);
    if now > 0 {
      forall d: nat | d < p.classes ensures LevelAt(p, g, d, now) {
        assert OnPlan(p, g, d) && LevelAt(p, g, d, top);
      }
    }
  }

  lemma PlaceKeepsLevel(p: Params, g: Greedy, top: nat, c: nat, n: nat, d: nat)
    requires Level(p, g, top) && top > 0 && c < p.classes && d < p.classes
    requires c !in g.stuck && g.remaining[c] == top && Eligible(p, g.assign, c, n)
    ensures LevelAt(p, Greedy(g.assign[n := g.assign[n] + {c}], g.remaining[c := top - 1], g.stuck), d, top)
  {
    assert LevelAt(p, g, d, top);
    CoverUpdate(g.assign, n, g.assign[n] + {c}, d);
  }

  lemma StickKeepsLevel(p: Params, g: Greedy, top: nat, c: nat, d: nat)
    requires Level(p, g, top) && top > 0 && c < p.classes && d < p.classes
    requires c !in g.stuck && g.remaining[c] == top && Blocked(p, g.assign, c)
    ensures LevelAt(p, Greedy(g.assign, g.remaining[c := 0], g.stuck + {c}), d, top)
  {
    assert LevelAt(p, g, d, top) && OnPlan(p, g, c);
    StuckIsWellSpread(p, g, top, c);
  }

  lemma StepKeepsLevel(p: Params, g: Greedy, top: nat) returns (now: nat)
    requires Level(p, g, top)
    ensures Level(p, GreedyStep(p, g), now)
  {
    now := LevelDown(p, g, top);
    var c := PickClass(g.remaining);
    StepKeepsInvariant(p, g);
    if now == 0 {
      now := top;
    } else {
      var n := PickNode(p, g.assign, c, |g.assign|);
      PickNodeIsFirstEmptiest(p, g.assign, c, |g.assign|);
      forall d: nat | d < p.classes ensures LevelAt(p, GreedyStep(p, g), d, now) {
        if n.None? {
          NothingEligible(p, g.assign, c);
          StickKeepsLevel(p, g, now, c, d);
        } else {
          PlaceKeepsLevel(p, g, now, c, n.value, d);
        }
      }
    }
  }

  lemma NothingEligible(p: Params, a: Assignment, c: int)
    requires forall m | 0 <= m < |a| :: !Eligible(p, a, c, m)
    ensures Blocked(p, a, c)
  {
    forall m | 0 <= m < |a| && c !in a[m] ensures |a[m]| >= p.perNode {
      assert !Eligible(p, a, c, m);
    }
  }

  lemma {:induction false} RunKeepsLevel(p: Params, g: Greedy, top: nat, steps: nat) returns (now: nat)
    requires Level(p, g, top)
    ensures Level(p, GreedyRun(p, g, steps), now)
    decreases steps
  {
    if steps == 0 {
      now := top;
    } else {
      var t := StepKeepsLevel(p, g, top);
      now := RunKeepsLevel(p, GreedyStep(p, g), t, steps - 1);
    }
  }

  lemma StartIsLevel(p: Params) returns (top: nat)
    requires p.classes > 0
    ensures Level(p, GreedyInit(p), top)
  {
    var g := GreedyInit(p);
    top := Slots(p) / p.classes + 1;
    forall c: nat | c < p.classes ensures OnPlan(p, g, c) && LevelAt(p, g, c, top) {
      NobodyCovers(p.nodes, c);
    }
  }

  // ---- the guarantee, for every input ----

  lemma EveryClassWellSpread(p: Params, a: Assignment, c: nat)
    requires p.classes > 0 && TopsUp(p, GreedyResult(p).assign, a) && c < p.classes
    ensures WellSpread(p, a, c)
  {
    var g := GreedyResult(p);
    var top := StartIsLevel(p);
    var now := RunKeepsLevel(p, GreedyInit(p), top, Slots(p));
    GreedyEnds(p);
    assert LevelAt(p, g, c, now) && OnPlan(p, g, c);
    CoverMonotone(g.assign, a, c);
    if c in g.stuck {
      ScaleUp(p.classes + p.perNode - 1, Cover(g.assign, c), Cover(a, c));
    } else {
      Planned(p.classes, p.perNode, Plan(p, c), Cover(a, c));
    }
  }

  lemma ScaleUp(k: nat, x: nat, y: nat)
    requires x <= y
    ensures k * x <= k * y
  {
  }

  lemma Planned(classes: nat, k: nat, plan: nat, cover: nat)
    requires cover >= plan && classes > 0 && (k == 0 ==> plan == 0)
    ensures classes * (plan - 1) + 1 <= (classes + k - 1) * cover
  {
    DistributeLeft(classes, plan - 1);
    if k == 0 {
      NonNegative(classes - 1, cover);
    } else {
      ScaleUp(classes, plan, cover);
      NonNegative(k - 1, cover);
      SplitFactor(classes, k - 1, cover);
    }
  }

  lemma NonNegative(x: nat, y: nat)
    ensures x * y >= 0
  {
  }

  lemma SplitFactor(x: int, y: int, z: int)
    ensures (x + y) * z == x * z + y * z
  {
  }

  // Whatever the numbers, no class is left with less than half its plan.
  lemma AtLeastHalfThePlan(p: Params, a: Assignment, c: nat)
    requires 0 < p.classes && p.perNode <= p.classes && c < p.classes && TopsUp(p, GreedyResult(p).assign, a)
    ensures 2 * Cover(a, c) >= Plan(p, c)
  {
    EveryClassWellSpread(p, a, c);
    Halve(p.classes, p.perNode, Plan(p, c), Cover(a, c));
  }

  lemma Halve(classes: int, k: int, plan: int, cover: int)
    requires 0 < classes && k <= classes && cover >= 0
    requires classes * (plan - 1) + 1 <= (classes + k - 1) * cover
    ensures 2 * cover >= plan
  {
    ScaleSum(classes, k, cover);
    if 2 * cover < plan {
      Ordered(classes, 2 * cover, plan - 1);
    }
  }

  lemma ScaleSum(classes: int, k: int, cover: int)
    requires k <= classes && cover >= 0
    ensures (classes + k - 1) * cover <= classes * (2 * cover) - cover
  {
    assert (classes + k - 1) * cover == classes * cover + k * cover - cover;
    assert k * cover <= classes * cover;
  }

  lemma Ordered(k: int, x: int, y: int)
    requires k >= 0 && x <= y
    ensures k * x <= k * y
  {
  }

  // A minimum that can be checked against the numbers alone, and then always holds.
  lemma MinimumFromTheNumbers(p: Params, minCoverage: nat, a: Assignment)
    requires 0 < p.classes && TopsUp(p, GreedyResult(p).assign, a)
    requires p.classes * (Slots(p) / p.classes - 1) + 1 > (p.classes + p.perNode - 1) * (minCoverage - 1)
    ensures Covered(p, minCoverage, a)
  {
    forall c: nat | c < p.classes ensures Cover(a, c) >= minCoverage {
      EveryClassWellSpread(p, a, c);
      Ordered(p.classes, Slots(p) / p.classes - 1, Plan(p, c) - 1);
      Outgrows(p.classes + p.perNode - 1, minCoverage - 1, Cover(a, c));
    }
  }

  lemma Outgrows(k: int, x: int, y: int)
    requires k >= 0 && k * x < k * y
    ensures x < y
  {
    if x >= y { Ordered(k, y, x); }
  }
}
