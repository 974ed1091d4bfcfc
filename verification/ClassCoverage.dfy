/** Spreading classes over nodes so that every class can reach the corroboration
    quorum: the greedy allocator, and exactly when it keeps its plan. */
module ClassCoverage {
  import opened Seqs

  // ---- how many classes a node must take ----

  function RequiredPerNode(nodes: nat, classes: nat, perNode: nat, minCoverage: nat): nat
    requires nodes > 0
  {
    var needed := CeilDiv(minCoverage * classes, nodes);
    if perNode >= needed then perNode else needed
  }

  // The least count, at least the one asked for, that leaves enough slots.
  lemma RequiredIsLeast(nodes: nat, classes: nat, perNode: nat, minCoverage: nat)
    requires nodes > 0
    ensures var k := RequiredPerNode(nodes, classes, perNode, minCoverage);
            k >= perNode && nodes * k >= minCoverage * classes
    ensures forall k: nat | k >= perNode && nodes * k >= minCoverage * classes ::
              k >= RequiredPerNode(nodes, classes, perNode, minCoverage)
  {
    var q := CeilDiv(minCoverage * classes, nodes);
    var k0 := RequiredPerNode(nodes, classes, perNode, minCoverage);
    assert nodes * k0 >= nodes * q by { MulMonotone(nodes, q, k0); }
    forall k: nat | k >= perNode && nodes * k >= minCoverage * classes ensures k >= k0 {
      TooFew(nodes, k, q);
    }
  }

  lemma TooFew(n: nat, k: nat, q: nat)
    ensures k < q ==> n * k + n <= n * q
  {
    if k < q {
      MulMonotone(n, k + 1, q);
      Distribute(k, n);
    }
  }

  lemma MulMonotone(n: nat, a: nat, b: nat)
    requires a <= b
    ensures n * a <= n * b
  {
  }

  // ---- the plan ----

  datatype Params = Params(nodes: nat, classes: nat, perNode: nat)

  type Assignment = seq<set<int>>

  function Slots(p: Params): nat { p.nodes * p.perNode }

  // An even split: classes below the remainder get one more.
  function Plan(p: Params, c: nat): nat
    requires p.classes > 0
  {
    Slots(p) / p.classes + if c < Slots(p) % p.classes then 1 else 0
  }

  function PlanSum(p: Params, k: nat): nat
    requires p.classes > 0
  {
    if k == 0 then 0 else PlanSum(p, k - 1) + Plan(p, k - 1)
  }

  lemma {:induction false} PlanSumIs(p: Params, k: nat)
    requires p.classes > 0
    ensures PlanSum(p, k) == k * (Slots(p) / p.classes) + Least(k, Slots(p) % p.classes)
  {
    if k > 0 {
      PlanSumIs(p, k - 1);
      Distribute(k - 1, Slots(p) / p.classes);
    }
  }

  function Least(a: nat, b: nat): nat { if a <= b then a else b }

  lemma PlanFillsSlots(p: Params)
    requires p.classes > 0
    ensures PlanSum(p, p.classes) == Slots(p)
  {
    PlanSumIs(p, p.classes);
  }

  // No two classes are planned for numbers of nodes more than one apart, and the first
  // classes are the ones to get more.
  lemma PlanIsEven(p: Params, c: nat, d: nat)
    requires c <= d < p.classes
    ensures Plan(p, d) <= Plan(p, c) <= Plan(p, d) + 1
  {
  }

  // ---- counting ----

  function In(s: set<int>, c: int): nat { if c in s then 1 else 0 }

  // How many nodes have class c.
  function Cover(a: Assignment, c: int): nat {
    if a == [] then 0 else Cover(a[..|a| - 1], c) + In(a[|a| - 1], c)
  }

  // The nodes that have class c.
  function Holders(a: Assignment, c: int): set<int> {
    set n | 0 <= n < |a| && c in a[n]
  }

  lemma {:induction false} CoverCounts(a: Assignment, c: int)
    ensures Cover(a, c) == |Holders(a, c)|
  {
    if a == [] {
      assert Holders(a, c) == {};
    } else {
      var n := |a| - 1;
      CoverCounts(a[..n], c);
      IndexGrows(Holders(a[..n], c), Holders(a, c), n, c in a[n]);
    }
  }

  lemma {:induction false} CoverUpdate(a: Assignment, n: nat, s: set<int>, c: int)
    requires n < |a|
    ensures Cover(a[n := s], c) + In(a[n], c) == Cover(a, c) + In(s, c)
  {
    var last := |a| - 1;
    if n < last {
      assert a[n := s][..last] == a[..last][n := s];
      CoverUpdate(a[..last], n, s, c);
    } else {
      assert a[n := s][..last] == a[..last];
    }
  }

  lemma {:induction false} CoverMonotone(a: Assignment, b: Assignment, c: int)
    requires |a| == |b| && forall n | 0 <= n < |a| :: a[n] <= b[n]
    ensures Cover(a, c) <= Cover(b, c)
  {
    if a != [] {
      CoverMonotone(a[..|a| - 1], b[..|b| - 1], c);
    }
  }

  lemma {:induction false} CoverAgree(a: Assignment, b: Assignment, c: int)
    requires |a| == |b| && forall n | 0 <= n < |a| :: c in a[n] <==> c in b[n]
    ensures Cover(a, c) == Cover(b, c)
  {
    if a != [] {
      CoverAgree(a[..|a| - 1], b[..|b| - 1], c);
    }
  }

  function CoverSum(a: Assignment, k: nat): nat {
    if k == 0 then 0 else CoverSum(a, k - 1) + Cover(a, k - 1)
  }

  function SizeSum(a: Assignment): nat {
    if a == [] then 0 else SizeSum(a[..|a| - 1]) + |a[|a| - 1]|
  }

  function InSum(s: set<int>, k: nat): nat {
    if k == 0 then 0 else InSum(s, k - 1) + In(s, k - 1)
  }

  lemma {:induction false} InSumIs(s: set<int>, k: nat)
    ensures InSum(s, k) == |s * Range(k)|
  {
    if k == 0 {
      assert s * Range(0) == {};
    } else {
      InSumIs(s, k - 1);
      if k - 1 in s {
        assert s * Range(k) == s * Range(k - 1) + {k - 1};
      } else {
        assert s * Range(k) == s * Range(k - 1);
      }
    }
  }

  lemma {:induction false} CoverSumSnoc(a: Assignment, k: nat)
    requires a != []
    ensures CoverSum(a, k) == CoverSum(a[..|a| - 1], k) + InSum(a[|a| - 1], k)
  {
    if k > 0 {
      CoverSumSnoc(a, k - 1);
    }
  }

  // Counting the slots by class or by node gives the same number.
  lemma {:induction false} DoubleCount(a: Assignment, k: nat)
    requires forall n | 0 <= n < |a| :: a[n] <= Range(k)
    ensures CoverSum(a, k) == SizeSum(a)
  {
    if a == [] {
      EmptyCover(k);
    } else {
      var last := a[|a| - 1];
      DoubleCount(a[..|a| - 1], k);
      CoverSumSnoc(a, k);
      InSumIs(last, k);
      assert last * Range(k) == last;
    }
  }

  lemma {:induction false} EmptyCover(k: nat)
    ensures CoverSum([], k) == 0
  {
    if k > 0 { EmptyCover(k - 1); }
  }

  lemma {:induction false} FullWhenSumIsFull(a: Assignment, m: nat)
    requires forall n | 0 <= n < |a| :: |a[n]| <= m
    ensures SizeSum(a) <= |a| * m
    ensures SizeSum(a) == |a| * m ==> forall n | 0 <= n < |a| :: |a[n]| == m
  {
    if a != [] {
      var k := |a| - 1;
      FullWhenSumIsFull(a[..k], m);
      Distribute(k, m);
      assert forall n | 0 <= n < k :: a[..k][n] == a[n];
    }
  }

  // ---- the greedy loop ----

  // Index of the first largest entry.
  function PickClass(r: seq<nat>): (c: nat)
    requires r != []
    ensures c < |r|
  {
    var n := |r| - 1;
    if n == 0 then 0
    else
      var c := PickClass(r[..n]);
      if r[n] > r[c] then n else c
  }

  lemma {:induction false} PickClassIsFirstLargest(r: seq<nat>)
    requires r != []
    ensures forall j | 0 <= j < |r| :: r[j] <= r[PickClass(r)]
    ensures forall j | 0 <= j < PickClass(r) :: r[j] < r[PickClass(r)]
  {
    var n := |r| - 1;
    if n > 0 {
      PickClassIsFirstLargest(r[..n]);
      assert forall j | 0 <= j < n :: r[j] == r[..n][j];
    }
  }

  predicate Eligible(p: Params, a: Assignment, c: int, n: int) {
    0 <= n < |a| && |a[n]| < p.perNode && c !in a[n]
  }

  // The first emptiest eligible node among the first k.
  function PickNode(p: Params, a: Assignment, c: int, k: nat): (n: Option<nat>)
    requires k <= |a|
    ensures n.Some? ==> n.value < k && Eligible(p, a, c, n.value)
  {
    if k == 0 then None
    else
      var n := PickNode(p, a, c, k - 1);
      if Eligible(p, a, c, k - 1) && (n.None? || |a[k - 1]| < |a[n.value]|) then Some(k - 1) else n
  }

  lemma {:induction false} PickNodeIsFirstEmptiest(p: Params, a: Assignment, c: int, k: nat)
    requires k <= |a|
    ensures var n := PickNode(p, a, c, k);
            && (n.None? <==> forall i | 0 <= i < k :: !Eligible(p, a, c, i))
            && (n.Some? ==> forall i | 0 <= i < k && Eligible(p, a, c, i) ::
                  |a[n.value]| < |a[i]| || (|a[n.value]| == |a[i]| && n.value <= i))
  {
    if k > 0 { PickNodeIsFirstEmptiest(p, a, c, k - 1); }
  }

  // stuck: the classes for which no eligible node was left.
  datatype Greedy = Greedy(assign: Assignment, remaining: seq<nat>, stuck: set<int>)

  function GreedyInit(p: Params): Greedy
    requires p.classes > 0
  {
    Greedy(seq(p.nodes, n => {}), seq(p.classes, c requires 0 <= c < p.classes => Plan(p, c)), {})
  }

  function GreedyStep(p: Params, g: Greedy): Greedy
    requires g.remaining != []
  {
    var c := PickClass(g.remaining);
    if g.remaining[c] == 0 then g
    else
      var n := PickNode(p, g.assign, c, |g.assign|);
      if n.None? then Greedy(g.assign, g.remaining[c := 0], g.stuck + {c})
      else Greedy(g.assign[n.value := g.assign[n.value] + {c}], g.remaining[c := g.remaining[c] - 1], g.stuck)
  }

  function GreedyRun(p: Params, g: Greedy, steps: nat): (r: Greedy)
    requires g.remaining != []
    ensures r.remaining != []
    decreases steps
  {
    if steps == 0 then g else GreedyRun(p, GreedyStep(p, g), steps - 1)
  }

  // What the greedy loop leaves.
  function GreedyResult(p: Params): Greedy
    requires p.classes > 0
  {
    GreedyRun(p, GreedyInit(p), Slots(p))
  }

  function RemainingSum(r: seq<nat>): nat {
    if r == [] then 0 else RemainingSum(r[..|r| - 1]) + r[|r| - 1]
  }

  lemma {:induction false} RemainingUpdate(r: seq<nat>, c: nat, v: nat)
    requires c < |r|
    ensures RemainingSum(r[c := v]) + r[c] == RemainingSum(r) + v
  {
    var last := |r| - 1;
    if c < last {
      assert r[c := v][..last] == r[..last][c := v];
      RemainingUpdate(r[..last], c, v);
    } else {
      assert r[c := v][..last] == r[..last];
    }
  }

  lemma {:induction false} RemainingAtMost(r: seq<nat>, c: nat)
    requires c < |r|
    ensures r[c] <= RemainingSum(r)
  {
    if c < |r| - 1 { RemainingAtMost(r[..|r| - 1], c); }
  }

  ghost predicate Blocked(p: Params, a: Assignment, c: int) {
    forall n | 0 <= n < |a| && c !in a[n] :: |a[n]| >= p.perNode
  }

  ghost predicate Fits(p: Params, a: Assignment) {
    |a| == p.nodes && forall n | 0 <= n < |a| :: a[n] <= Range(p.classes) && |a[n]| <= p.perNode
  }

  // Each class has what it still needs outstanding, unless it got stuck: then it
  // is short of its plan and can never catch up.
  ghost predicate OnPlan(p: Params, g: Greedy, c: nat)
    requires p.classes > 0 && c < |g.remaining|
  {
    if c in g.stuck
    then g.remaining[c] == 0 && Cover(g.assign, c) < Plan(p, c) && Blocked(p, g.assign, c)
    else Cover(g.assign, c) + g.remaining[c] == Plan(p, c)
  }

  ghost predicate GreedyInvariant(p: Params, g: Greedy) {
    && p.classes > 0 && |g.remaining| == p.classes && g.stuck <= Range(p.classes)
    && Fits(p, g.assign)
    && forall c: nat | c < p.classes :: OnPlan(p, g, c)
  }

  lemma PlaceKeepsPlan(p: Params, g: Greedy, c: nat, n: nat, d: nat)
    requires GreedyInvariant(p, g) && c < p.classes && d < p.classes
    requires Eligible(p, g.assign, c, n) && g.remaining[c] > 0
    ensures OnPlan(p, Greedy(g.assign[n := g.assign[n] + {c}], g.remaining[c := g.remaining[c] - 1], g.stuck), d)
  {
    var a' := g.assign[n := g.assign[n] + {c}];
    assert OnPlan(p, g, d) && OnPlan(p, g, c);
    CoverUpdate(g.assign, n, g.assign[n] + {c}, d);
    if d in g.stuck {
      forall m | 0 <= m < |a'| && d !in a'[m] ensures |a'[m]| >= p.perNode {
        assert d !in g.assign[m];
      }
    }
  }

  lemma StickKeepsPlan(p: Params, g: Greedy, c: nat, d: nat)
    requires GreedyInvariant(p, g) && c < p.classes && d < p.classes && g.remaining[c] > 0
    requires forall m | 0 <= m < |g.assign| :: !Eligible(p, g.assign, c, m)
    ensures OnPlan(p, Greedy(g.assign, g.remaining[c := 0], g.stuck + {c}), d)
  {
    assert OnPlan(p, g, d) && OnPlan(p, g, c);
    forall m | 0 <= m < |g.assign| && c !in g.assign[m] ensures |g.assign[m]| >= p.perNode {
      assert !Eligible(p, g.assign, c, m);
    }
    assert Blocked(p, g.assign, c);
  }

  lemma PlaceKeepsInvariant(p: Params, g: Greedy, c: nat, n: nat)
    requires GreedyInvariant(p, g) && c < p.classes && Eligible(p, g.assign, c, n) && g.remaining[c] > 0
    ensures GreedyInvariant(p, Greedy(g.assign[n := g.assign[n] + {c}], g.remaining[c := g.remaining[c] - 1], g.stuck))
  {
    var g' := Greedy(g.assign[n := g.assign[n] + {c}], g.remaining[c := g.remaining[c] - 1], g.stuck);
    forall d: nat | d < p.classes ensures OnPlan(p, g', d) {
      PlaceKeepsPlan(p, g, c, n, d);
    }
  }

  lemma StickKeepsInvariant(p: Params, g: Greedy, c: nat)
    requires GreedyInvariant(p, g) && c < p.classes && g.remaining[c] > 0
    requires forall m | 0 <= m < |g.assign| :: !Eligible(p, g.assign, c, m)
    ensures GreedyInvariant(p, Greedy(g.assign, g.remaining[c := 0], g.stuck + {c}))
  {
    var g' := Greedy(g.assign, g.remaining[c := 0], g.stuck + {c});
    forall d: nat | d < p.classes ensures OnPlan(p, g', d) {
      StickKeepsPlan(p, g, c, d);
    }
  }

  lemma StepKeepsInvariant(p: Params, g: Greedy)
    requires GreedyInvariant(p, g)
    ensures GreedyInvariant(p, GreedyStep(p, g))
    ensures RemainingSum(GreedyStep(p, g).remaining) <= (if RemainingSum(g.remaining) == 0 then 0
            else RemainingSum(g.remaining) - 1)
    ensures g.stuck <= GreedyStep(p, g).stuck
  {
    var c := PickClass(g.remaining);
    PickClassIsFirstLargest(g.remaining);
    RemainingAtMost(g.remaining, c);
    if g.remaining[c] == 0 {
      AllZero(g.remaining);
    } else {
      var n := PickNode(p, g.assign, c, |g.assign|);
      PickNodeIsFirstEmptiest(p, g.assign, c, |g.assign|);
      assert OnPlan(p, g, c);
      if n.None? {
        RemainingUpdate(g.remaining, c, 0);
        StickKeepsInvariant(p, g, c);
      } else {
        RemainingUpdate(g.remaining, c, g.remaining[c] - 1);
        PlaceKeepsInvariant(p, g, c, n.value);
      }
    }
  }

  lemma {:induction false} AllZero(r: seq<nat>)
    requires forall j | 0 <= j < |r| :: r[j] == 0
    ensures RemainingSum(r) == 0
  {
    if r != [] { AllZero(r[..|r| - 1]); }
  }

  lemma {:induction false} RunKeepsInvariant(p: Params, g: Greedy, steps: nat)
    requires GreedyInvariant(p, g) && RemainingSum(g.remaining) <= steps
    ensures var r := GreedyRun(p, g, steps);
            GreedyInvariant(p, r) && RemainingSum(r.remaining) == 0 && g.stuck <= r.stuck
    decreases steps
  {
    if steps > 0 {
      StepKeepsInvariant(p, g);
      var next := GreedyStep(p, g);
      RunKeepsInvariant(p, next, steps - 1);
    }
  }

  lemma {:induction false} InitSum(p: Params, k: nat)
    requires p.classes > 0 && k <= p.classes
    ensures RemainingSum(GreedyInit(p).remaining[..k]) == PlanSum(p, k)
  {
    if k > 0 {
      InitSum(p, k - 1);
      assert GreedyInit(p).remaining[..k][..k - 1] == GreedyInit(p).remaining[..k - 1];
    }
  }

  lemma {:induction false} NobodyCovers(k: nat, c: int)
    ensures Cover(seq(k, n => {}), c) == 0
  {
    if k > 0 {
      var a: Assignment := seq(k, n => {});
      assert a[..k - 1] == seq(k - 1, n => {});
      NobodyCovers(k - 1, c);
    }
  }

  // When the loop ends nothing is outstanding: every class is on plan or stuck.
  lemma GreedyEnds(p: Params)
    requires p.classes > 0
    ensures var g := GreedyResult(p); GreedyInvariant(p, g) && forall c: nat | c < p.classes :: g.remaining[c] == 0
  {
    var g0 := GreedyInit(p);
    forall c: nat | c < p.classes ensures OnPlan(p, g0, c) {
      NobodyCovers(p.nodes, c);
    }
    InitSum(p, p.classes);
    assert g0.remaining[..p.classes] == g0.remaining;
    PlanFillsSlots(p);
    RunKeepsInvariant(p, g0, Slots(p));
    var g := GreedyResult(p);
    forall c: nat | c < p.classes ensures g.remaining[c] == 0 {
      RemainingAtMost(g.remaining, c);
    }
  }

  // ---- the whole assignment ----

  // a fills every short node of g up to perNode with further classes.
  ghost predicate TopsUp(p: Params, g: Assignment, a: Assignment) {
    && |a| == |g| == p.nodes
    && forall n | 0 <= n < |a| :: g[n] <= a[n] <= Range(p.classes) && |a[n]| == p.perNode
  }

  // No result stands for the exceptions: too few slots, no class at all, or more
  // classes per node than there are.
  method AssignClasses(p: Params, minCoverage: nat) returns (r: Option<Assignment>)
    ensures r.Some? <==>
            && Slots(p) >= minCoverage * p.classes && p.classes > 0
            && (p.nodes == 0 || p.perNode <= p.classes)
    ensures r.Some? ==> TopsUp(p, GreedyResult(p).assign, r.value)
  {
    if Slots(p) < minCoverage * p.classes { return None; }
    if p.classes == 0 { return None; }
    var a := GreedyLoop(p);
    GreedyEnds(p);
    if p.nodes > 0 && p.perNode > p.classes { return None; }
    a := TopUp(p, a);
    return Some(a);
  }

  method GreedyLoop(p: Params) returns (a: Assignment)
    requires p.classes > 0
    ensures a == GreedyResult(p).assign
  {
    a := seq(p.nodes, n => {});
    var remaining: seq<nat> := seq(p.classes, c requires 0 <= c < p.classes => Plan(p, c));
    ghost var g := Greedy(a, remaining, {});
    ghost var final := GreedyResult(p);
    var left := Slots(p);
    while left > 0
      invariant remaining != [] && g.assign == a && g.remaining == remaining
      invariant GreedyRun(p, g, left) == final
    {
      var idle;
      a, remaining, idle := GreedyOne(p, a, remaining, g);
      if idle {
        IdleRun(p, g, left);
        break;
      }
      g, left := GreedyStep(p, g), left - 1;
    }
  }

  // One pass of the loop; g carries what the loop itself keeps no record of.
  method GreedyOne(p: Params, a: Assignment, remaining: seq<nat>, ghost g: Greedy)
    returns (a': Assignment, remaining': seq<nat>, idle: bool)
    requires remaining != [] && g.assign == a && g.remaining == remaining
    ensures idle <==> remaining[PickClass(remaining)] == 0
    ensures idle ==> a' == a && remaining' == remaining
    ensures a' == GreedyStep(p, g).assign && remaining' == GreedyStep(p, g).remaining
  {
    a', remaining', idle := a, remaining, false;
    var c := LargestRemaining(remaining);
    if remaining[c] == 0 { idle := true; return; }
    var n := EmptiestEligible(p, a, c);
    if n.None? {
      remaining' := remaining[c := 0];
    } else {
      a', remaining' := a[n.value := a[n.value] + {c}], remaining[c := remaining[c] - 1];
    }
  }

  lemma {:induction false} IdleRun(p: Params, g: Greedy, steps: nat)
    requires g.remaining != [] && g.remaining[PickClass(g.remaining)] == 0
    ensures GreedyRun(p, g, steps) == g
    decreases steps
  {
    if steps > 0 { IdleRun(p, g, steps - 1); }
  }

  method LargestRemaining(r: seq<nat>) returns (c: nat)
    requires r != []
    ensures c == PickClass(r)
  {
    c := 0;
    for i := 1 to |r|
      invariant c == PickClass(r[..i])
    {
      assert r[..i + 1][..i] == r[..i];
      if r[i] > r[c] { c := i; }
    }
    assert r[..|r|] == r;
  }

  method EmptiestEligible(p: Params, a: Assignment, c: int) returns (n: Option<nat>)
    ensures n == PickNode(p, a, c, |a|)
  {
    n := None;
    for k := 0 to |a|
      invariant n == PickNode(p, a, c, k)
    {
      if |a[k]| < p.perNode && c !in a[k] && (n.None? || |a[k]| < |a[n.value]|) { n := Some(k); }
    }
  }

  // Random further classes for nodes that fell short.
  method TopUp(p: Params, g: Assignment) returns (a: Assignment)
    requires Fits(p, g) && (p.nodes == 0 || p.perNode <= p.classes)
    ensures TopsUp(p, g, a)
  {
    a := g;
    for n := 0 to p.nodes
      invariant |a| == p.nodes
      invariant forall m | n <= m < p.nodes :: a[m] == g[m]
      invariant forall m | 0 <= m < n :: g[m] <= a[m] <= Range(p.classes) && |a[m]| == p.perNode
    {
      var s := a[n];
      while |s| < p.perNode
        invariant g[n] <= s <= Range(p.classes) && |s| <= p.perNode
      {
        var choices := Range(p.classes) - s;
        SubsetSize(s, Range(p.classes));
        var c :| c in choices;
        s := s + {c};
      }
      a := a[n := s];
    }
  }

  // ---- what the caller gets ----

  lemma FilledNodeUnchanged(p: Params, g: Assignment, a: Assignment, n: nat)
    requires TopsUp(p, g, a) && n < p.nodes && |g[n]| >= p.perNode
    ensures a[n] == g[n]
  {
    SubsetSize(g[n], a[n]);
  }

  // A stuck class stays where the greedy loop left it, short of its plan.
  lemma StuckStaysShort(p: Params, a: Assignment, c: nat)
    requires p.classes > 0 && c < p.classes && c in GreedyResult(p).stuck
    requires TopsUp(p, GreedyResult(p).assign, a)
    ensures Cover(a, c) == Cover(GreedyResult(p).assign, c) < Plan(p, c)
  {
    GreedyEnds(p);
    var g := GreedyResult(p);
    assert OnPlan(p, g, c);
    forall n | 0 <= n < p.nodes ensures c in g.assign[n] <==> c in a[n] {
      if c !in g.assign[n] {
        FilledNodeUnchanged(p, g.assign, a, n);
      }
    }
    CoverAgree(g.assign, a, c);
  }

  lemma {:induction false} CoverSumIsPlan(p: Params, a: Assignment, k: nat)
    requires p.classes > 0 && k <= p.classes && forall c: nat | c < k :: Cover(a, c) == Plan(p, c)
    ensures CoverSum(a, k) == PlanSum(p, k)
  {
    if k > 0 { CoverSumIsPlan(p, a, k - 1); }
  }

  // If nothing got stuck all slots are taken and topping up changes nothing.
  lemma UnstuckIsComplete(p: Params, a: Assignment)
    requires p.classes > 0 && GreedyResult(p).stuck == {} && TopsUp(p, GreedyResult(p).assign, a)
    ensures a == GreedyResult(p).assign
    ensures forall c: nat | c < p.classes :: Cover(a, c) == Plan(p, c)
  {
    GreedyEnds(p);
    var g := GreedyResult(p);
    forall c: nat | c < p.classes ensures Cover(g.assign, c) == Plan(p, c) {
      assert OnPlan(p, g, c);
    }
    CoverSumIsPlan(p, g.assign, p.classes);
    PlanFillsSlots(p);
    DoubleCount(g.assign, p.classes);
    FullWhenSumIsFull(g.assign, p.perNode);
    forall n | 0 <= n < p.nodes ensures a[n] == g.assign[n] {
      FilledNodeUnchanged(p, g.assign, a, n);
    }
  }

  // Every class ends on exactly its planned number of distinct nodes exactly when
  // the greedy loop never met an empty eligible list.
  lemma PlanKeptExactly(p: Params, a: Assignment)
    requires p.classes > 0 && TopsUp(p, GreedyResult(p).assign, a)
    ensures GreedyResult(p).stuck == {} <==> forall c: nat | c < p.classes :: Cover(a, c) == Plan(p, c)
  {
    if GreedyResult(p).stuck == {} {
      UnstuckIsComplete(p, a);
    } else {
      GreedyEnds(p);
      var c: int :| c in GreedyResult(p).stuck;
      StuckStaysShort(p, a, c);
    }
  }

  lemma PlanCoversMinimum(p: Params, minCoverage: nat, c: nat)
    requires p.classes > 0 && Slots(p) >= minCoverage * p.classes
    ensures Plan(p, c) >= minCoverage
  {
    TooFew(p.classes, Slots(p) / p.classes, minCoverage);
  }

  lemma EachClass(p: Params, minCoverage: nat, a: Assignment, c: nat)
    requires p.classes > 0 && Slots(p) >= minCoverage * p.classes && c < p.classes
    requires TopsUp(p, GreedyResult(p).assign, a)
    ensures Cover(a, c) >= minCoverage <==> MetUnlessStuck(GreedyResult(p), minCoverage, c)
  {
    var g := GreedyResult(p);
    PlanCoversMinimum(p, minCoverage, c);
    if c in g.stuck {
      StuckStaysShort(p, a, c);
    } else {
      GreedyEnds(p);
      assert OnPlan(p, g, c);
      CoverMonotone(g.assign, a, c);
    }
  }

  predicate MetUnlessStuck(g: Greedy, minCoverage: nat, c: nat) {
    c in g.stuck ==> Cover(g.assign, c) >= minCoverage
  }

  ghost predicate Covered(p: Params, minCoverage: nat, a: Assignment) {
    forall c: nat | c < p.classes :: Cover(a, c) >= minCoverage
  }

  ghost predicate StuckWereMet(p: Params, minCoverage: nat, g: Greedy) {
    forall c: nat | c < p.classes :: MetUnlessStuck(g, minCoverage, c)
  }

  // The coverage guarantee holds exactly when every class that got stuck had
  // already been given the minimum.
  lemma CoverageExactly(p: Params, minCoverage: nat, a: Assignment)
    requires p.classes > 0 && Slots(p) >= minCoverage * p.classes && TopsUp(p, GreedyResult(p).assign, a)
    ensures Covered(p, minCoverage, a) <==> StuckWereMet(p, minCoverage, GreedyResult(p))
  {
    if Covered(p, minCoverage, a) {
      forall c: nat | c < p.classes ensures MetUnlessStuck(GreedyResult(p), minCoverage, c) {
        EachClass(p, minCoverage, a, c);
      }
    }
    if StuckWereMet(p, minCoverage, GreedyResult(p)) {
      forall c: nat | c < p.classes ensures Cover(a, c) >= minCoverage {
        EachClass(p, minCoverage, a, c);
      }
    }
  }

  // ---- the guarantee fails without that condition ----

  ghost predicate FirstLargest(r: seq<nat>, c: nat) {
    c < |r| && r[c] > 0 && forall j | 0 <= j < |r| :: r[j] < r[c] || (r[j] == r[c] && c <= j)
  }

  ghost predicate FirstEmptiest(p: Params, a: Assignment, c: nat, n: nat) {
    && Eligible(p, a, c, n)
    && forall i | 0 <= i < |a| && Eligible(p, a, c, i) :: |a[n]| < |a[i]| || (|a[n]| == |a[i]| && n <= i)
  }

  lemma PlaceStep(p: Params, g: Greedy, c: nat, n: nat)
    requires FirstLargest(g.remaining, c) && FirstEmptiest(p, g.assign, c, n)
    ensures GreedyStep(p, g) == Greedy(g.assign[n := g.assign[n] + {c}], g.remaining[c := g.remaining[c] - 1], g.stuck)
  {
    PickClassIsFirstLargest(g.remaining);
    PickNodeIsFirstEmptiest(p, g.assign, c, |g.assign|);
  }

  lemma StickStep(p: Params, g: Greedy, c: nat)
    requires FirstLargest(g.remaining, c) && forall i | 0 <= i < |g.assign| :: !Eligible(p, g.assign, c, i)
    ensures GreedyStep(p, g) == Greedy(g.assign, g.remaining[c := 0], g.stuck + {c})
  {
    PickClassIsFirstLargest(g.remaining);
    PickNodeIsFirstEmptiest(p, g.assign, c, |g.assign|);
  }

  ghost predicate ThreeByTwo(p: Params) { p.nodes == 3 && p.classes == 3 && p.perNode == 2 }

  // Three nodes taking two of three classes each, step by step.
  function ThreeNodes(k: nat): (g: Greedy)
    ensures |g.assign| == |g.remaining| == 3
  {
    if k == 0 then Greedy([{}, {}, {}], [2, 2, 2], {})
    else if k == 1 then Greedy([{0}, {}, {}], [1, 2, 2], {})
    else if k == 2 then Greedy([{0}, {1}, {}], [1, 1, 2], {})
    else if k == 3 then Greedy([{0}, {1}, {2}], [1, 1, 1], {})
    else if k == 4 then Greedy([{0}, {0, 1}, {2}], [0, 1, 1], {})
    else if k == 5 then Greedy([{0, 1}, {0, 1}, {2}], [0, 0, 1], {})
    else Greedy([{0, 1}, {0, 1}, {2}], [0, 0, 0], {2})
  }

  lemma ThreeNodesFill(p: Params, k: nat)
    requires ThreeByTwo(p) && k < 3
    ensures GreedyStep(p, ThreeNodes(k)) == ThreeNodes(k + 1)
  {
    var g := ThreeNodes(k);
    assert g.assign[k] == {} && g.remaining[k] == 2;
    assert FirstEmptiest(p, g.assign, k, k);
    PlaceStep(p, g, k, k);
    assert ThreeNodes(k + 1).assign == g.assign[k := g.assign[k] + {k}];
    assert ThreeNodes(k + 1).remaining == g.remaining[k := 1];
  }

  lemma ThreeNodesShare(p: Params, k: nat)
    requires ThreeByTwo(p) && (k == 3 || k == 4)
    ensures GreedyStep(p, ThreeNodes(k)) == ThreeNodes(k + 1)
  {
    ThreeNodesPick(p, k);
    ThreeNodesPut(k);
    PlaceStep(p, ThreeNodes(k), k - 3, 4 - k);
  }

  lemma ThreeNodesPut(k: nat)
    requires k == 3 || k == 4
    ensures var g, c, n := ThreeNodes(k), k - 3, 4 - k;
            g.remaining[c] == 1 &&
            ThreeNodes(k + 1) == Greedy(g.assign[n := g.assign[n] + {c}], g.remaining[c := 0], g.stuck)
  {
    var g, c, n := ThreeNodes(k), k - 3, 4 - k;
    assert g.assign[n] + {c} == {0, 1};
    assert ThreeNodes(k + 1).assign == g.assign[n := {0, 1}];
    assert ThreeNodes(k + 1).remaining == g.remaining[c := 0];
  }

  lemma ThreeNodesPick(p: Params, k: nat)
    requires ThreeByTwo(p) && (k == 3 || k == 4)
    ensures FirstLargest(ThreeNodes(k).remaining, k - 3) && FirstEmptiest(p, ThreeNodes(k).assign, k - 3, 4 - k)
  {
    var a := ThreeNodes(k).assign;
    if k == 4 {
      assert a[0] == {0} && a[1] == {0, 1} && |a[1]| == 2;
    } else {
      assert a[0] == {0} && a[1] == {1};
    }
  }

  lemma ThreeNodesStick(p: Params)
    requires ThreeByTwo(p)
    ensures GreedyStep(p, ThreeNodes(5)) == ThreeNodes(6)
  {
    var g := ThreeNodes(5);
    assert |g.assign[0]| == 2 && |g.assign[1]| == 2;
    StickStep(p, g, 2);
    assert ThreeNodes(6).remaining == g.remaining[2 := 0];
  }

  lemma ThreeNodesStep(p: Params, k: nat)
    requires ThreeByTwo(p) && k < 6
    ensures GreedyStep(p, ThreeNodes(k)) == ThreeNodes(k + 1)
  {
    if k < 3 {
      ThreeNodesFill(p, k);
    } else if k < 5 {
      ThreeNodesShare(p, k);
    } else {
      ThreeNodesStick(p);
    }
  }

  lemma {:induction false} ThreeNodesRun(p: Params, k: nat)
    requires ThreeByTwo(p) && k <= 6
    ensures GreedyRun(p, ThreeNodes(k), 6 - k) == ThreeNodes(6)
    decreases 6 - k
  {
    if k < 6 {
      ThreeNodesStep(p, k);
      ThreeNodesRun(p, k + 1);
    }
  }

  lemma CoverOfThree(a: Assignment, c: int)
    requires |a| == 3
    ensures Cover(a, c) == In(a[0], c) + In(a[1], c) + In(a[2], c)
  {
    var b := a[..2];
    assert Cover(a, c) == Cover(b, c) + In(a[2], c);
    assert Cover(b, c) == Cover(b[..1], c) + In(b[1], c);
  }

  lemma LastClassIsShort(g: Greedy)
    requires g == ThreeNodes(6)
    ensures 2 in g.stuck && Cover(g.assign, 2) == 1
  {
    CoverOfThree(g.assign, 2);
  }

  lemma ThreeNodesResult(p: Params) returns (g: Greedy)
    requires ThreeByTwo(p)
    ensures g == GreedyResult(p) == ThreeNodes(6)
  {
    assert GreedyInit(p) == ThreeNodes(0);
    ThreeNodesRun(p, 0);
    g := GreedyResult(p);
  }

  lemma LastClassSticks(p: Params)
    requires ThreeByTwo(p)
    ensures 2 in GreedyResult(p).stuck && Cover(GreedyResult(p).assign, 2) == 1
  {
    var g := ThreeNodesResult(p);
    LastClassIsShort(g);
  }

  // Three nodes taking two of three classes each: exactly the slots a minimum of
  // two needs, yet class 2 ends on one node, whatever topping up does.
  lemma SlotsAreNotEnough(p: Params, a: Assignment)
    requires ThreeByTwo(p) && TopsUp(p, GreedyResult(p).assign, a)
    ensures Slots(p) == 2 * p.classes && Cover(a, 2) == 1
  {
    LastClassSticks(p);
    StuckStaysShort(p, a, 2);
  }
}
