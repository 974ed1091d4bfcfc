/** Sequence vocabulary shared by the models: removal, filtering, sums, bounded
    FIFO windows and fixed-size chunks, with the facts the proofs need. */
module Seqs {

  datatype Option<+T> = None | Some(value: T)

  function RemoveAt<T>(s: seq<T>, j: nat): (r: seq<T>)
    requires j < |s|
    ensures |r| == |s| - 1
    ensures forall k :: 0 <= k < j ==> r[k] == s[k]
    ensures forall k :: j <= k < |r| ==> r[k] == s[k + 1]
  {
    s[..j] + s[j + 1..]
  }

  function Filter<T>(keep: T -> bool, s: seq<T>): (r: seq<T>)
    ensures forall x | x in r :: x in s && keep(x)
    ensures forall x | x in s && keep(x) :: x in r
    ensures |r| <= |s|
  {
    if s == [] then []
    else (if keep(s[0]) then [s[0]] else []) + Filter(keep, s[1..])
  }

  lemma {:induction false} FilterAppend<T>(keep: T -> bool, a: seq<T>, b: seq<T>)
    ensures Filter(keep, a + b) == Filter(keep, a) + Filter(keep, b)
  {
    if a == [] {
      assert a + b == b;
    } else {
      assert (a + b)[1..] == a[1..] + b;
      FilterAppend(keep, a[1..], b);
    }
  }

  // Filtering commutes with permuting.
  lemma {:induction false} FilterMultiset<T>(keep: T -> bool, s: seq<T>, x: T)
    ensures multiset(Filter(keep, s))[x] == if keep(x) then multiset(s)[x] else 0
  {
    if s != [] {
      assert s == [s[0]] + s[1..];
      FilterMultiset(keep, s[1..], x);
    }
  }

  lemma FilterPermutation<T>(keep: T -> bool, a: seq<T>, b: seq<T>)
    requires multiset(a) == multiset(b)
    ensures multiset(Filter(keep, a)) == multiset(Filter(keep, b))
  {
    var fa, fb := multiset(Filter(keep, a)), multiset(Filter(keep, b));
    forall x | x in fa + fb ensures fa[x] == fb[x] {
      FilterMultiset(keep, a, x);
      FilterMultiset(keep, b, x);
    }
    assert fa == fb;
  }

  lemma PermutationLength<T>(a: seq<T>, b: seq<T>)
    requires multiset(a) == multiset(b)
    ensures |a| == |b|
  {
    assert |multiset(a)| == |multiset(b)|;
  }

  lemma {:induction false} FilterAll<T>(keep: T -> bool, s: seq<T>)
    requires forall x :: x in s ==> keep(x)
    ensures Filter(keep, s) == s
  {
    if s != [] {
      FilterAll(keep, s[1..]);
    }
  }

  lemma {:induction false} FilterAgree<T>(f: T -> bool, g: T -> bool, s: seq<T>)
    requires forall x :: x in s ==> (f(x) <==> g(x))
    ensures Filter(f, s) == Filter(g, s)
  {
    if s != [] {
      FilterAgree(f, g, s[1..]);
    }
  }

  function Sum<T>(f: T -> real, s: seq<T>): real {
    if s == [] then 0.0 else f(s[0]) + Sum(f, s[1..])
  }

  lemma {:induction false} SumAppend<T>(f: T -> real, a: seq<T>, b: seq<T>)
    ensures Sum(f, a + b) == Sum(f, a) + Sum(f, b)
  {
    if a == [] {
      assert a + b == b;
    } else {
      assert (a + b)[1..] == a[1..] + b;
      SumAppend(f, a[1..], b);
    }
  }

  lemma SumSplit<T>(f: T -> real, s: seq<T>, j: nat)
    requires j < |s|
    ensures Sum(f, s) == Sum(f, s[..j]) + f(s[j]) + Sum(f, s[j + 1..])
  {
    assert s == s[..j] + s[j..];
    SumAppend(f, s[..j], s[j..]);
    assert s[j..][1..] == s[j + 1..];
  }

  lemma SumRemoveAt<T>(f: T -> real, s: seq<T>, j: nat)
    requires j < |s|
    ensures Sum(f, RemoveAt(s, j)) == Sum(f, s) - f(s[j])
  {
    SumSplit(f, s, j);
    SumAppend(f, s[..j], s[j + 1..]);
  }

  lemma SumUpdate<T>(f: T -> real, s: seq<T>, j: nat, x: T)
    requires j < |s|
    ensures Sum(f, s[j := x]) == Sum(f, s) - f(s[j]) + f(x)
  {
    SumSplit(f, s, j);
    SumSplit(f, s[j := x], j);
    assert s[j := x][..j] == s[..j];
    assert s[j := x][j + 1..] == s[j + 1..];
  }

  lemma {:induction false} SumZero<T>(f: T -> real, s: seq<T>)
    requires forall x :: x in s ==> f(x) == 0.0
    ensures Sum(f, s) == 0.0
  {
    if s != [] {
      SumZero(f, s[1..]);
    }
  }

  // A FIFO buffer of capacity `cap` after the history `h` has been pushed.
  function LastN<T>(cap: nat, h: seq<T>): (r: seq<T>)
    ensures |r| == if |h| <= cap then |h| else cap
    ensures forall k :: 0 <= k < |r| ==> r[k] == h[|h| - |r| + k]
  {
    if |h| <= cap then h else h[|h| - cap..]
  }

  lemma LastNPush<T>(cap: nat, h: seq<T>, x: T)
    ensures LastN(cap, LastN(cap, h) + [x]) == LastN(cap, h + [x])
  {
  }

  lemma ConcatAssoc<T>(a: seq<T>, b: seq<T>, c: seq<T>)
    ensures a + (b + c) == a + b + c
  {
  }

  function Concat<T>(parts: seq<seq<T>>): seq<T> {
    if parts == [] then [] else parts[0] + Concat(parts[1..])
  }

  lemma {:induction false} ConcatSnoc<T>(parts: seq<seq<T>>, last: seq<T>)
    ensures Concat(parts + [last]) == Concat(parts) + last
  {
    if parts == [] {
      assert parts + [last] == [last];
      assert [last][1..] == [];
      assert Concat([last]) == last + Concat<T>([]);
    } else {
      assert (parts + [last])[1..] == parts[1..] + [last];
      ConcatSnoc(parts[1..], last);
    }
  }

  // s[0:n], s[n:2n], ... exactly as `range(0, len(s), n)` slices it.
  function Split<T>(s: seq<T>, n: nat): (parts: seq<seq<T>>)
    requires n > 0
    ensures Concat(parts) == s
    ensures forall k :: 0 <= k < |parts| ==> 0 < |parts[k]| <= n
    ensures parts == [] <==> s == []
    decreases |s|
  {
    if s == [] then []
    else if |s| <= n then
      assert [s][1..] == [];
      assert Concat([s]) == s + Concat<T>([]);
      [s]
    else
      var rest := Split(s[n..], n);
      assert ([s[..n]] + rest)[1..] == rest;
      [s[..n]] + rest
  }

  // The unique q with a <= q * b < a + b.
  function CeilDiv(a: nat, b: nat): (q: nat)
    requires b > 0
    ensures a <= q * b < a + b
  {
    (a + b - 1) / b
  }

  lemma {:induction false} SplitCount<T>(s: seq<T>, n: nat)
    requires n > 0
    ensures |s| <= |Split(s, n)| * n < |s| + n
    decreases |s|
  {
    if |s| > n {
      SplitCount(s[n..], n);
      assert |Split(s, n)| == |Split(s[n..], n)| + 1;
      Distribute(|Split(s[n..], n)|, n);
    }
  }

  lemma Distribute(q: nat, n: nat)
    ensures (q + 1) * n == q * n + n
  {
  }

  // ---- index sets ----

  function Range(n: nat): (s: set<int>)
    ensures forall i :: i in s <==> 0 <= i < n
    ensures |s| == n
  {
    if n == 0 then {} else Range(n - 1) + {n - 1}
  }

  lemma SubsetSize<T>(a: set<T>, b: set<T>)
    requires a <= b
    ensures |b - a| == |b| - |a|
    ensures |a| <= |b|
    ensures |a| >= |b| <==> a == b
  {
    assert b == a + (b - a);
  }

  // One more index, when it is the last.
  lemma IndexGrows(before: set<int>, after: set<int>, n: nat, now: bool)
    requires n !in before
    requires forall i :: i in after <==> i in before || (i == n && now)
    ensures |after| == |before| + if now then 1 else 0
  {
    forall i ensures i in after <==> i in if now then before + {n} else before {
    }
    assert after == if now then before + {n} else before;
  }

  // ---- permutations ----

  lemma SameMembers<T>(a: seq<T>, b: seq<T>)
    requires multiset(a) == multiset(b)
    ensures forall x | x in a :: x in b
    ensures forall x | x in b :: x in a
  {
    forall x | x in a ensures x in b { assert x in multiset(b); }
    forall x | x in b ensures x in a { assert x in multiset(a); }
  }

  lemma PullOne<T>(s: seq<T>, x: T) returns (rest: seq<T>)
    requires x in s
    ensures multiset(s) == multiset(rest) + multiset{x}
  {
    var i :| 0 <= i < |s| && s[i] == x;
    rest := RemoveAt(s, i);
    assert s == s[..i] + [x] + s[i + 1..];
  }

  lemma PullOut<T>(batch: seq<T>, p: T, q: T) returns (rest: seq<T>)
    requires p in batch && q in batch && p != q
    ensures multiset(batch) == multiset(rest) + multiset{p, q}
  {
    var mid := PullOne(batch, p);
    assert q in multiset(batch);
    assert q in multiset(mid);
    rest := PullOne(mid, q);
  }
}
