/** What the holdout score means: which samples the model gets right. */
module Scoring {
  import opened Seqs
  import opened Prototypes

  // ps[k] is the first of the prototypes nearest to x.
  ghost predicate FirstNearest(ps: seq<Proto>, x: Vec, k: int) {
    && 0 <= k < |ps|
    && (forall j | 0 <= j < |ps| :: Dist2(ps[k].vector, x) <= Dist2(ps[j].vector, x))
    && (forall j | 0 <= j < k :: Dist2(ps[k].vector, x) < Dist2(ps[j].vector, x))
  }

  // The first prototype nearest to the sample carries its label.
  ghost predicate Right(ps: seq<Proto>, s: Sample) {
    exists k :: FirstNearest(ps, s.x, k) && ps[k].lbl == s.y
  }

  ghost function RightOnes(ps: seq<Proto>, samples: seq<Sample>): set<int> {
    set i | 0 <= i < |samples| && Right(ps, samples[i])
  }

  lemma RightIsNearest(ps: seq<Proto>, s: Sample)
    requires ps != []
    ensures Right(ps, s) <==> ps[Nearest(ps, s.x)].lbl == s.y
  {
    var i := Nearest(ps, s.x);
    assert FirstNearest(ps, s.x, i);
    if k :| FirstNearest(ps, s.x, k) && ps[k].lbl == s.y {
      assert k == i;
    }
  }

  lemma RightOnesSnoc(ps: seq<Proto>, front: seq<Sample>, last: Sample)
    ensures |RightOnes(ps, front + [last])| == |RightOnes(ps, front)| + if Right(ps, last) then 1 else 0
  {
    var n, before, after := |front|, RightOnes(ps, front), RightOnes(ps, front + [last]);
    forall i ensures i in after <==> (i in before || (i == n && Right(ps, last))) {
      if 0 <= i < n { assert (front + [last])[i] == front[i]; }
    }
    IndexGrows(before, after, n, Right(ps, last));
  }

  lemma NextSample(ps: seq<Proto>, front: seq<Sample>, last: Sample)
    requires ps != []
    ensures |RightOnes(ps, front + [last])|
         == |RightOnes(ps, front)| + if ps[Nearest(ps, last.x)].lbl == last.y then 1 else 0
  {
    RightOnesSnoc(ps, front, last);
    RightIsNearest(ps, last);
  }

  lemma HitsNext(ps: seq<Proto>, front: seq<Sample>, last: Sample)
    requires ps != []
    ensures Hits(ps, front + [last]) == Hits(ps, front) + if ps[Nearest(ps, last.x)].lbl == last.y then 1 else 0
  {
    assert (front + [last])[..|front|] == front;
  }

  lemma {:induction false} HitsCount(ps: seq<Proto>, samples: seq<Sample>)
    requires ps != []
    ensures Hits(ps, samples) == |RightOnes(ps, samples)|
  {
    if samples != [] {
      var n := |samples| - 1;
      var front, last := samples[..n], samples[n];
      HitsCount(ps, front);
      assert samples == front + [last];
      HitsNext(ps, front, last);
      NextSample(ps, front, last);
    }
  }

  lemma NothingRight(samples: seq<Sample>)
    ensures RightOnes([], samples) == {}
  {
    forall i | 0 <= i < |samples| ensures !Right([], samples[i]) {
    }
  }

  // The accuracy is the fraction of the samples whose first nearest prototype has
  // their label.
  lemma AccuracyIsRight(ps: seq<Proto>, samples: seq<Sample>)
    requires samples != []
    ensures Accuracy(ps, samples) == |RightOnes(ps, samples)| as real / |samples| as real
  {
    if ps == [] {
      NothingRight(samples);
    } else {
      HitsCount(ps, samples);
    }
  }

  lemma RightOnesBounded(ps: seq<Proto>, samples: seq<Sample>)
    ensures |RightOnes(ps, samples)| <= |samples|
    ensures |RightOnes(ps, samples)| == |samples| <==> forall i | 0 <= i < |samples| :: Right(ps, samples[i])
    ensures |RightOnes(ps, samples)| == 0 <==> forall i | 0 <= i < |samples| :: !Right(ps, samples[i])
  {
    var right, all := RightOnes(ps, samples), Range(|samples|);
    SubsetSize(right, all);
    if |right| == |samples| {
      forall i | 0 <= i < |samples| ensures Right(ps, samples[i]) {
        assert i in all;
      }
    }
    if forall i | 0 <= i < |samples| :: Right(ps, samples[i]) {
      assert right == all;
    }
    if |right| == 0 {
      forall i | 0 <= i < |samples| ensures !Right(ps, samples[i]) {
        assert i !in right;
      }
    }
  }

  // A full score means every sample right, and none right scores nothing.
  lemma ExtremeScores(ps: seq<Proto>, samples: seq<Sample>)
    requires samples != []
    ensures Accuracy(ps, samples) == 1.0 <==> forall i | 0 <= i < |samples| :: Right(ps, samples[i])
    ensures Accuracy(ps, samples) == 0.0 <==> forall i | 0 <= i < |samples| :: !Right(ps, samples[i])
  {
    AccuracyIsRight(ps, samples);
    RightOnesBounded(ps, samples);
    Proportion(|RightOnes(ps, samples)| as real, |samples| as real);
  }

  lemma Proportion(k: real, n: real)
    requires n > 0.0
    ensures k / n == 1.0 <==> k == n
    ensures k / n == 0.0 <==> k == 0.0
  {
  }

  // One score is more than 0.02 below another exactly when more than a fiftieth of
  // the samples was lost.
  lemma ScoreGap(ps: seq<Proto>, qs: seq<Proto>, samples: seq<Sample>)
    requires samples != []
    ensures Accuracy(qs, samples) < Accuracy(ps, samples) - 0.02
       <==> 50 * (|RightOnes(ps, samples)| - |RightOnes(qs, samples)|) > |samples|
  {
    AccuracyIsRight(ps, samples);
    AccuracyIsRight(qs, samples);
    ScaleGap(|RightOnes(ps, samples)|, |RightOnes(qs, samples)|, |samples|);
  }

  lemma ScaleGap(a: nat, b: nat, n: nat)
    requires n > 0
    ensures b as real / n as real < a as real / n as real - 0.02 <==> 50 * (a - b) > n
  {
    var x := a as real / n as real - 0.02 - b as real / n as real;
    assert x * n as real == a as real - b as real - 0.02 * n as real;
    PositiveProduct(x, n as real);
  }

  lemma PositiveProduct(x: real, n: real)
    requires n > 0.0
    ensures x > 0.0 <==> x * n > 0.0
  {
  }
}
