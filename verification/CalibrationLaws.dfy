/** What a calibration makes of a peer's answers, position by position. */
module CalibrationLaws {
  import opened Seqs
  import opened Prototypes
  import opened SwarmNodes
  import opened CalibrationRounds

  // ---- the two counts ----

  // The samples the peer answers, and those it answers right.
  function Answered(answer: Vec -> Option<int>, samples: seq<Sample>): set<int> {
    set i | 0 <= i < |samples| && answer(samples[i].x).Some?
  }

  function AnsweredRight(answer: Vec -> Option<int>, samples: seq<Sample>): set<int> {
    set i | 0 <= i < |samples| && answer(samples[i].x) == Some(samples[i].y)
  }

  lemma {:induction false} Counts(answer: Vec -> Option<int>, samples: seq<Sample>)
    ensures SeenCount(Answers(answer, samples)) == |Answered(answer, samples)|
    ensures HitCount(Answers(answer, samples), samples) == |AnsweredRight(answer, samples)|
  {
    if samples != [] {
      var n := |samples| - 1;
      var front, last := samples[..n], answer(samples[n].x);
      Counts(answer, front);
      assert Answers(answer, samples) == Answers(answer, front) + [last];
      SeenSnoc(Answers(answer, front), last);
      HitSnoc(Answers(answer, front), last, samples);
      HitsBefore(Answers(answer, front), front, samples[n]);
      assert samples == front + [samples[n]];
      IndexGrows(Answered(answer, front), Answered(answer, samples), n, last.Some?);
      IndexGrows(AnsweredRight(answer, front), AnsweredRight(answer, samples), n, last == Some(samples[n].y));
    }
  }

  // Samples beyond the labels do not count.
  lemma {:induction false} HitsBefore(labels: seq<Option<int>>, samples: seq<Sample>, more: Sample)
    requires |labels| == |samples|
    ensures HitCount(labels, samples + [more]) == HitCount(labels, samples)
  {
    if labels != [] {
      assert (samples + [more])[1..] == samples[1..] + [more];
      HitsBefore(labels[1..], samples[1..], more);
    }
  }

  // ---- the formula ----

  // Trust t after an answer function was asked about the samples.
  ghost function After(t: real, answer: Vec -> Option<int>, samples: seq<Sample>): real {
    var seen, right := |Answered(answer, samples)|, |AnsweredRight(answer, samples)|;
    if seen == 0 then t else 0.5 * t + 0.5 * (right as real / seen as real)
  }

  lemma OneScored(trust: map<Id, real>, peer: Peer, samples: seq<Sample>)
    ensures TrustOf(Calibrated(trust, peer.id, Answers(peer.answer, samples), samples), peer.id)
         == After(TrustOf(trust, peer.id), peer.answer, samples)
  {
    Counts(peer.answer, samples);
  }

  // Each peer but oneself ends with half its old trust plus half the share of its
  // answers that were right; without an answer it keeps its trust.
  lemma CalibrationFormula(self: Id, trust: map<Id, real>, dir: seq<Peer>, samples: seq<Sample>, i: nat)
    requires Distinct(dir) && i < |dir| && dir[i].id != self
    ensures TrustOf(CalibratedAll(self, trust, dir, samples), dir[i].id)
         == After(TrustOf(trust, dir[i].id), dir[i].answer, samples)
  {
    if samples == [] {
      assert Answered(dir[i].answer, samples) == {};
    } else {
      EachOnItsOwn(self, trust, dir, samples, i);
      OneScored(trust, dir[i], samples);
    }
  }

  // ---- what follows ----

  lemma RightAmongAnswered(answer: Vec -> Option<int>, samples: seq<Sample>)
    ensures AnsweredRight(answer, samples) <= Answered(answer, samples)
    ensures |AnsweredRight(answer, samples)| <= |Answered(answer, samples)|
  {
    SubsetSize(AnsweredRight(answer, samples), Answered(answer, samples));
  }

  // All answers right: half the way to one. All wrong: half the way to zero.
  lemma ExtremeAnswers(t: real, answer: Vec -> Option<int>, samples: seq<Sample>)
    requires Answered(answer, samples) != {}
    ensures AnsweredRight(answer, samples) == Answered(answer, samples) <==> After(t, answer, samples) == 0.5 * t + 0.5
    ensures AnsweredRight(answer, samples) == {} <==> After(t, answer, samples) == 0.5 * t
  {
    var seen, right := Answered(answer, samples), AnsweredRight(answer, samples);
    RightAmongAnswered(answer, samples);
    SubsetSize(right, seen);
    Proportion(|right|, |seen|);
  }

  lemma Proportion(k: nat, n: nat)
    requires n > 0
    ensures k as real / n as real == 1.0 <==> k == n
    ensures k as real / n as real == 0.0 <==> k == 0
  {
  }

  // Samples the peer abstains on do not count.
  lemma AbstainingIsFree(t: real, answer: Vec -> Option<int>, samples: seq<Sample>, extra: Sample)
    requires answer(extra.x) == None
    ensures After(t, answer, samples + [extra]) == After(t, answer, samples)
  {
    var all := samples + [extra];
    forall i ensures i in Answered(answer, all) <==> i in Answered(answer, samples) {
      if 0 <= i < |samples| { assert all[i] == samples[i]; }
    }
    forall i ensures i in AnsweredRight(answer, all) <==> i in AnsweredRight(answer, samples) {
      if 0 <= i < |samples| { assert all[i] == samples[i]; }
    }
    assert Answered(answer, all) == Answered(answer, samples);
    assert AnsweredRight(answer, all) == AnsweredRight(answer, samples);
  }

  // `better` answers the same samples and is right wherever `answer` is.
  ghost predicate NoWorse(answer: Vec -> Option<int>, better: Vec -> Option<int>, samples: seq<Sample>) {
    Answered(better, samples) == Answered(answer, samples)
    && AnsweredRight(answer, samples) <= AnsweredRight(better, samples)
  }

  // Turning wrong answers right never lowers trust, and always raises it.
  lemma BetterAnswersPay(t: real, answer: Vec -> Option<int>, better: Vec -> Option<int>, samples: seq<Sample>)
    requires NoWorse(answer, better, samples)
    ensures After(t, answer, samples) <= After(t, better, samples)
    ensures AnsweredRight(answer, samples) != AnsweredRight(better, samples) ==>
              After(t, answer, samples) < After(t, better, samples)
  {
    SubsetSize(AnsweredRight(answer, samples), AnsweredRight(better, samples));
    RightAmongAnswered(better, samples);
    if Answered(answer, samples) != {} {
      Share(|AnsweredRight(answer, samples)|, |AnsweredRight(better, samples)|, |Answered(answer, samples)|);
    }
  }

  lemma Share(a: nat, b: nat, n: nat)
    requires n > 0
    ensures a <= b ==> a as real / n as real <= b as real / n as real
    ensures a < b ==> a as real / n as real < b as real / n as real
  {
    var x, y := a as real / n as real, b as real / n as real;
    assert (y - x) * n as real == b as real - a as real;
  }

  // ---- over the network ----

  // At any point of any round a peer whose table was read has the trust its answers
  // give it, and everybody else the trust from before.
  lemma RoundFormula(c: Setting, ss: seq<Round>, es: seq<Event>, t: nat, i: nat)
    requires Run(c, ss, es) && t <= |es| && c.samples != [] && Distinct(c.peers)
    requires i < |c.peers| && c.peers[i].id != c.self
    ensures TrustOf(ss[t].trust, c.peers[i].id)
         == if i in ss[t].scored then After(TrustOf(c.trust, c.peers[i].id), c.peers[i].answer, c.samples)
            else TrustOf(c.trust, c.peers[i].id)
  {
    assert forall k | 0 <= k < |c.peers| && c.peers[k].id == c.peers[i].id :: k == i;
    RoundRefinesDirect(c, ss, es, t, c.peers[i].id);
    if i in ss[t].scored {
      CalibrationFormula(c.self, c.trust, c.peers, c.samples, i);
    }
  }
}
