/** When the greedy allocator is a plain rotation: classes in turn on nodes in turn.
    Then no class ever runs out of eligible nodes. */
module Rotation {
  import opened Seqs
  import opened ClassCoverage

  // ---- the greatest common divisor ----

  function Gcd(a: nat, b: nat): nat
    decreases b
  {
    if b == 0 then a else Gcd(b, a % b)
  }

  lemma {:induction false} Bezout(a: nat, b: nat) returns (x: int, y: int)
    ensures x * a + y * b == Gcd(a, b)
    decreases b
  {
    if b == 0 {
      x, y := 1, 0;
    } else {
      var u, v := Bezout(b, a % b);
      x, y := v, u - v * (a / b);
      assert v * (a % b) == v * (a - a / b * b);
      assert v * (a / b * b) == v * (a / b) * b;
      assert u * b + v * (a % b) == Gcd(a, b);
    }
  }

  lemma {:induction false} GcdDivides(a: nat, b: nat) returns (p: nat, q: nat)
    ensures a == p * Gcd(a, b) && b == q * Gcd(a, b)
    decreases b
  {
    if b == 0 {
      p, q := 1, 0;
    } else {
      var u, v := GcdDivides(b, a % b);
      var g := Gcd(a, b);
      p, q := a / b * u + v, u;
      assert a / b * b + a % b == a;
      assert (a / b * u + v) * g == a / b * (u * g) + v * g;
    }
  }

  // Whatever makes j turns of n nodes whole turns of c classes does so for j * gcd.
  lemma GcdMultiple(n: nat, c: nat, j: nat, m: int) returns (z: int)
    requires j * n == m * c
    ensures j * Gcd(n, c) == z * c
  {
    var x, y := Bezout(n, c);
    z := x * m + y * j;
    Subtract(x * n, -(y * c), j);
    Swap(j, x, n);
    Swap(j, y, c);
    Reassociate(x, m, c);
    Reassociate(y, j, c);
    Subtract(x * m, -(y * j), c);
  }

  lemma Swap(a: int, b: int, c: int)
    ensures b * c * a == b * (a * c)
  {
  }

  lemma Reassociate(a: int, b: int, c: int)
    ensures a * (b * c) == a * b * c
  {
  }

  // Fewer than k turns of n nodes never make a whole number of turns of c classes.
  lemma NoEarlyRepeat(n: nat, c: nat, k: nat, j: nat, m: int)
    requires n > 0 && c > 0 && k * Gcd(n, c) <= c && 0 < j < k
    ensures j * n != m * c
  {
    var g := Gcd(n, c);
    var _, _ := GcdDivides(n, c);
    StrictMul(j, k, g);
    StrictMul(0, j, g);
    if j * n == m * c {
      var z := GcdMultiple(n, c, j, m);
      MulSign(z, c);
    }
  }

  lemma StrictMul(a: nat, b: nat, g: nat)
    requires a < b
    ensures g > 0 ==> a * g < b * g
  {
  }

  lemma MulSign(z: int, n: nat)
    ensures z <= 0 ==> z * n <= 0
    ensures z >= 1 ==> z * n >= n
    ensures z <= -1 ==> z * n + n <= 0
  {
  }

  // ---- the rotation ----

  function Base(p: Params): nat
    requires p.classes > 0
  {
    Slots(p) / p.classes
  }

  function Extra(p: Params): nat
    requires p.classes > 0
  {
    Slots(p) % p.classes
  }

  // The classes with one more replica first, then all classes in turn.
  function ClassAt(p: Params, t: nat): (c: nat)
    requires p.classes > 0
    ensures c < p.classes
  {
    if t < Extra(p) then t else (t - Extra(p)) % p.classes
  }

  // The first t placements.
  function Rotated(p: Params, t: nat): (g: Greedy)
    requires p.classes > 0 && p.nodes > 0
    ensures |g.assign| == p.nodes && |g.remaining| == p.classes && g.stuck == {}
  {
    if t == 0 then GreedyInit(p)
    else
      var g := Rotated(p, t - 1);
      var c, n := ClassAt(p, t - 1), (t - 1) % p.nodes;
      Greedy(g.assign[n := g.assign[n] + {c}],
             g.remaining[c := if g.remaining[c] > 0 then g.remaining[c] - 1 else 0], {})
  }

  lemma NextTurn(t: nat, n: nat)
    requires n > 0
    ensures t % n + 1 < n ==> (t + 1) / n == t / n && (t + 1) % n == t % n + 1
    ensures t % n + 1 == n ==> (t + 1) / n == t / n + 1 && (t + 1) % n == 0
  {
    var q, m := t / n, t % n;
    assert t == q * n + m;
    if m + 1 < n {
      QuotientIs(t + 1, n, q, m + 1);
    } else {
      Distribute(q, n);
      QuotientIs(t + 1, n, q + 1, 0);
    }
  }

  lemma QuotientIs(t: nat, n: nat, q: nat, m: nat)
    requires n > 0 && t == q * n + m && m < n
    ensures t / n == q && t % n == m
  {
    var q', m' := t / n, t % n;
    Subtract(q, q', n);
    MulSign(q - q', n);
  }

  lemma Subtract(a: int, b: int, n: int)
    ensures (a - b) * n == a * n - b * n
  {
  }

  // ---- what remains after t placements ----

  function Left(p: Params, t: nat, c: nat): int
    requires p.classes > 0
  {
    if t < Extra(p) then Plan(p, c) - if c < t then 1 else 0
    else
      Outstanding(Base(p), (t - Extra(p)) / p.classes, (t - Extra(p)) % p.classes, c)
  }

  lemma LeftNext(p: Params, t: nat, c: nat)
    requires p.classes > 0 && c < p.classes
    ensures Left(p, t + 1, c) == Left(p, t, c) - if c == ClassAt(p, t) then 1 else 0
  {
    if t + 1 == Extra(p) {
      assert 0 / p.classes == 0 && 0 % p.classes == 0;
    } else if t >= Extra(p) {
      NextTurn(t - Extra(p), p.classes);
    }
  }

  // Before the slots are used up the class in turn is the first of those with most
  // outstanding.
  lemma LeftIsLargest(p: Params, t: nat, c: nat)
    requires p.classes > 0 && t < Slots(p) && c < p.classes
    ensures var d := ClassAt(p, t);
            Left(p, t, d) > 0 && (Left(p, t, c) < Left(p, t, d) || (Left(p, t, c) == Left(p, t, d) && d <= c))
  {
    if t >= Extra(p) {
      TurnsRemain(p, t);
      FirstOfTurn(Base(p), (t - Extra(p)) / p.classes, (t - Extra(p)) % p.classes, c);
    }
  }

  lemma TurnsRemain(p: Params, t: nat)
    requires p.classes > 0 && Extra(p) <= t < Slots(p)
    ensures (t - Extra(p)) / p.classes < Base(p)
  {
    TurnsLeft(t - Extra(p), Base(p), p.classes);
  }

  function Outstanding(base: nat, q: nat, m: nat, c: nat): int { base - q - if c < m then 1 else 0 }

  lemma FirstOfTurn(base: nat, q: nat, m: nat, c: nat)
    requires q < base
    ensures Outstanding(base, q, m, m) > 0
    ensures Outstanding(base, q, m, c) < Outstanding(base, q, m, m)
         || (Outstanding(base, q, m, c) == Outstanding(base, q, m, m) && m <= c)
  {
  }

  lemma TurnsLeft(u: nat, base: nat, c: nat)
    requires c > 0 && u < base * c
    ensures u / c < base
  {
    Subtract(u / c, base, c);
    MulSign(u / c - base, c);
    assert u / c * c <= u;
  }

  lemma {:induction false} RemainingIsLeft(p: Params, t: nat, c: nat)
    requires p.classes > 0 && p.nodes > 0 && t <= Slots(p) && c < p.classes
    ensures Rotated(p, t).remaining[c] == Left(p, t, c)
  {
    if t == 0 {
      if Extra(p) == 0 {
        assert 0 / p.classes == 0 && 0 % p.classes == 0;
      }
    } else {
      RemainingIsLeft(p, t - 1, c);
      LeftNext(p, t - 1, c);
      LeftIsLargest(p, t - 1, c);
    }
  }

  // ---- who holds what after t placements ----

  ghost predicate PlacedBefore(p: Params, t: nat, n: nat, c: int)
    requires p.classes > 0 && p.nodes > 0
  {
    exists s: nat :: s < t && s % p.nodes == n && ClassAt(p, s) == c
  }

  lemma {:induction false} HeldWasPlaced(p: Params, t: nat, n: nat, c: int)
    requires p.classes > 0 && p.nodes > 0 && n < p.nodes && c in Rotated(p, t).assign[n]
    ensures PlacedBefore(p, t, n, c)
  {
    if t > 0 {
      var s: nat := t - 1;
      if c in Rotated(p, s).assign[n] {
        HeldWasPlaced(p, s, n, c);
        var r: nat :| r < s && r % p.nodes == n && ClassAt(p, r) == c;
        assert r < t;
      } else {
        assert s % p.nodes == n && ClassAt(p, s) == c;
      }
    }
  }

  predicate Spaced(p: Params) { p.nodes > 0 && p.classes > 0 && p.perNode * Gcd(p.nodes, p.classes) <= p.classes }

  // A class comes back to a node only after the node is full.
  lemma NoRepeat(p: Params, s: nat, t: nat)
    requires Spaced(p) && s < t < Slots(p) && s % p.nodes == t % p.nodes
    ensures ClassAt(p, s) != ClassAt(p, t)
  {
    var j := Turns(s, t, p.nodes, p.perNode);
    if t >= Extra(p) && s >= Extra(p) {
      NoRepeatInTurn(p, s, t, j);
    } else if t >= Extra(p) {
      NoRepeatFromStart(p, s, t, j);
    }
  }

  lemma NoRepeatInTurn(p: Params, s: nat, t: nat, j: nat)
    requires Spaced(p) && Extra(p) <= s < t && 0 < j < p.perNode && t - s == j * p.nodes
    ensures ClassAt(p, s) != ClassAt(p, t)
  {
    var a, b, c := t - Extra(p), s - Extra(p), p.classes;
    NoEarlyRepeat(p.nodes, c, p.perNode, j, a / c - b / c);
    if a % c == b % c {
      SameResidue(a, b, c);
    }
  }

  lemma NoRepeatFromStart(p: Params, s: nat, t: nat, j: nat)
    requires Spaced(p) && s < Extra(p) <= t && 0 < j < p.perNode && t - s == j * p.nodes
    ensures ClassAt(p, s) != ClassAt(p, t)
  {
    var u := t - Extra(p);
    DivMod(Slots(p), p.classes);
    DivMod(u, p.classes);
    NoEarlyRepeat(p.nodes, p.classes, p.perNode, p.perNode - j, Base(p) - u / p.classes);
    NotBackAtStart(Slots(p), p.nodes, p.perNode, j, Base(p), Extra(p), p.classes, s, u / p.classes, u % p.classes);
  }

  lemma DivMod(u: nat, c: nat)
    requires c > 0
    ensures u == u / c * c + u % c
  {
  }

  lemma NotBackAtStart(slots: nat, n: nat, k: nat, j: nat, base: nat, extra: nat, c: nat, s: nat, q: nat, m: nat)
    requires slots == n * k == base * c + extra && extra + q * c + m - s == j * n
    requires (k - j) * n != (base - q) * c
    ensures s != m
  {
    FromTheEnd(slots, n, k, j, base, extra, q, c);
  }

  lemma FromTheEnd(slots: nat, n: nat, k: nat, j: nat, base: nat, extra: nat, q: nat, c: nat)
    requires slots == n * k == base * c + extra
    ensures j * n == extra + q * c ==> (k - j) * n == (base - q) * c
  {
    Subtract(k, j, n);
    Subtract(base, q, c);
  }

  // t is a whole number of turns after s, fewer than k.
  lemma Turns(s: nat, t: nat, n: nat, k: nat) returns (j: nat)
    requires n > 0 && s < t < n * k && s % n == t % n
    ensures 0 < j < k && t - s == j * n
  {
    var a, b := t / n, s / n;
    Subtract(a, b, n);
    MulSign(a - b, n);
    TurnsLeft(t, k, n);
    j := a - b;
  }

  lemma SameResidue(a: nat, b: nat, c: nat)
    requires c > 0 && a % c == b % c
    ensures a - b == (a / c - b / c) * c
  {
    Subtract(a / c, b / c, c);
  }

  lemma {:induction false} Loads(p: Params, t: nat, n: nat)
    requires Spaced(p) && t <= Slots(p) && n < p.nodes
    ensures |Rotated(p, t).assign[n]| == t / p.nodes + if n < t % p.nodes then 1 else 0
  {
    if t == 0 {
      assert 0 / p.nodes == 0 && 0 % p.nodes == 0;
    } else {
      var s := t - 1;
      Loads(p, s, n);
      NextTurn(s, p.nodes);
      if n == s % p.nodes {
        NewToNode(p, s);
      }
    }
  }

  lemma NewToNode(p: Params, t: nat)
    requires Spaced(p) && t < Slots(p)
    ensures ClassAt(p, t) !in Rotated(p, t).assign[t % p.nodes]
  {
    if ClassAt(p, t) in Rotated(p, t).assign[t % p.nodes] {
      HeldWasPlaced(p, t, t % p.nodes, ClassAt(p, t));
      var s: nat :| s < t && s % p.nodes == t % p.nodes && ClassAt(p, s) == ClassAt(p, t);
      NoRepeat(p, s, t);
    }
  }

  // ---- the greedy loop takes the same steps ----

  lemma GreedyRotates(p: Params, t: nat)
    requires Spaced(p) && t < Slots(p)
    ensures GreedyStep(p, Rotated(p, t)) == Rotated(p, t + 1)
  {
    var g := Rotated(p, t);
    var c, n := ClassAt(p, t), t % p.nodes;
    forall d: nat | d < p.classes ensures g.remaining[d] == Left(p, t, d) {
      RemainingIsLeft(p, t, d);
    }
    forall j | 0 <= j < p.classes
      ensures g.remaining[j] < g.remaining[c] || (g.remaining[j] == g.remaining[c] && c <= j)
    {
      LeftIsLargest(p, t, j);
    }
    LeftIsLargest(p, t, c);
    assert FirstLargest(g.remaining, c);
    TurnIsEmptiest(p, t);
    PlaceStep(p, g, c, n);
  }

  lemma TurnIsEmptiest(p: Params, t: nat)
    requires Spaced(p) && t < Slots(p)
    ensures FirstEmptiest(p, Rotated(p, t).assign, ClassAt(p, t), t % p.nodes)
  {
    var a, q, n := Rotated(p, t).assign, t / p.nodes, t % p.nodes;
    forall i: nat | i < p.nodes ensures |a[i]| == q + if i < n then 1 else 0 {
      Loads(p, t, i);
    }
    TurnBelow(p, t);
    NewToNode(p, t);
    LeastLoaded(p, a, ClassAt(p, t), n, q);
  }

  lemma TurnBelow(p: Params, t: nat)
    requires p.nodes > 0 && t < Slots(p)
    ensures t / p.nodes < p.perNode
  {
    Commute(p.nodes, p.perNode);
    TurnsLeft(t, p.perNode, p.nodes);
  }

  lemma Commute(a: nat, b: nat)
    ensures a * b == b * a
  {
  }

  lemma LeastLoaded(p: Params, a: Assignment, c: nat, n: nat, q: nat)
    requires n < |a| && q < p.perNode && c !in a[n]
    requires forall i: nat | i < |a| :: |a[i]| == q + if i < n then 1 else 0
    ensures FirstEmptiest(p, a, c, n)
  {
  }

  lemma {:induction false} RunRotates(p: Params, t: nat)
    requires Spaced(p) && t <= Slots(p)
    ensures GreedyRun(p, Rotated(p, t), Slots(p) - t) == Rotated(p, Slots(p))
    decreases Slots(p) - t
  {
    if t < Slots(p) {
      var g, next := Rotated(p, t), Rotated(p, t + 1);
      GreedyRotates(p, t);
      RunRotates(p, t + 1);
      RunUnfolds(p, g, next, Slots(p) - t);
    }
  }

  lemma RunUnfolds(p: Params, g: Greedy, next: Greedy, left: nat)
    requires left > 0 && g.remaining != [] && GreedyStep(p, g) == next && next.remaining != []
    ensures GreedyRun(p, g, left) == GreedyRun(p, next, left - 1)
  {
  }

  // ---- the guarantee ----

  // Checkable before the call: few enough classes per node for the rotation not to
  // meet itself, or every class on every node.
  predicate NeverSticks(p: Params) {
    p.perNode * Gcd(p.nodes, p.classes) <= p.classes || p.perNode == p.classes
  }

  lemma {:induction false} AllHold(a: Assignment, c: int)
    requires forall n | 0 <= n < |a| :: c in a[n]
    ensures Cover(a, c) == |a|
  {
    if a != [] { AllHold(a[..|a| - 1], c); }
  }

  lemma EverywhereNeverSticks(p: Params)
    requires p.classes > 0 && p.perNode == p.classes
    ensures GreedyResult(p).stuck == {}
  {
    GreedyEnds(p);
    var g := GreedyResult(p);
    forall c | c in g.stuck ensures false {
      assert c in Range(p.classes) && OnPlan(p, g, c);
      forall n | 0 <= n < p.nodes ensures c in g.assign[n] {
        if c !in g.assign[n] {
          assert g.assign[n] <= Range(p.classes) - {c};
          SubsetSize(g.assign[n], Range(p.classes) - {c});
        }
      }
      AllHold(g.assign, c);
      QuotientIs(Slots(p), p.classes, p.nodes, 0);
    }
  }

  lemma NeverSticksIndeed(p: Params)
    requires p.classes > 0 && NeverSticks(p)
    ensures GreedyResult(p).stuck == {}
  {
    if p.nodes == 0 {
      assert Slots(p) == 0;
      assert GreedyRun(p, GreedyInit(p), 0) == GreedyInit(p);
    } else if p.perNode == p.classes {
      EverywhereNeverSticks(p);
    } else {
      assert Rotated(p, 0) == GreedyInit(p);
      RunRotates(p, 0);
    }
  }

  // Then every class ends on exactly its planned number of nodes, and so on at
  // least the minimum.
  lemma CoverageGuaranteed(p: Params, minCoverage: nat, a: Assignment)
    requires p.classes > 0 && NeverSticks(p) && TopsUp(p, GreedyResult(p).assign, a)
    requires Slots(p) >= minCoverage * p.classes
    ensures forall c: nat | c < p.classes :: Cover(a, c) == Plan(p, c)
    ensures Covered(p, minCoverage, a)
  {
    NeverSticksIndeed(p);
    UnstuckIsComplete(p, a);
    forall c: nat | c < p.classes ensures Cover(a, c) >= minCoverage {
      PlanCoversMinimum(p, minCoverage, c);
    }
  }
}
