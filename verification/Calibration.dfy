/** Calibrating trust over the network: the querier's holdout goes out in chunks,
    the replies fill a table by chunk index, and the labels are scored like the
    direct, in-process form scores them. */
module Calibrations {
  import opened Seqs
  import opened Prototypes
  import opened SwarmNodes

  const CALIB_CHUNK: nat := 10

  type Label = Option<int>

  datatype CalibQuery = CalibQuery(qid: int, index: int, total: int, xs: seq<Vec>)

  datatype CalibReply = CalibReply(qid: int, index: int, labels: seq<Label>)

  // ---- answering ----

  function AnswerAll(answer: Vec -> Label, xs: seq<Vec>): (labels: seq<Label>)
    ensures |labels| == |xs|
  {
    seq(|xs|, i requires 0 <= i < |xs| => answer(xs[i]))
  }

  function Answered(answer: Vec -> Label, q: CalibQuery): CalibReply {
    CalibReply(q.qid, q.index, AnswerAll(answer, q.xs))
  }

  method HandleQuery(answer: Vec -> Label, q: CalibQuery) returns (r: CalibReply)
    ensures r == Answered(answer, q)
  {
    var labels: seq<Label> := [];
    for i := 0 to |q.xs|
      invariant |labels| == i && forall k | 0 <= k < i :: labels[k] == answer(q.xs[k])
    {
      labels := labels + [answer(q.xs[i])];
    }
    r := CalibReply(q.qid, q.index, labels);
  }

  // ---- asking ----

  function Inputs(samples: seq<Sample>): (xs: seq<Vec>)
    ensures |xs| == |samples|
  {
    seq(|samples|, i requires 0 <= i < |samples| => samples[i].x)
  }

  function Chunks(samples: seq<Sample>): seq<seq<Vec>> {
    Split(Inputs(samples), CALIB_CHUNK)
  }

  function Queries(qid: int, chunks: seq<seq<Vec>>): (qs: seq<CalibQuery>)
    ensures |qs| == |chunks|
  {
    seq(|chunks|, i requires 0 <= i < |chunks| => CalibQuery(qid, i, |chunks|, chunks[i]))
  }

  // One outstanding calibration; done once as many replies as chunks came in.
  datatype Pending = Pending(labels: seq<Option<seq<Label>>>, got: nat, done: bool)

  function Opened(n: nat): Pending {
    Pending(seq(n, i => None), 0, false)
  }

  // A list position counted from the end when negative; none outside the list.
  function Position(n: nat, index: int): (at: Option<nat>)
    ensures at.Some? ==> at.value < n
  {
    if 0 <= index < n then Some(index)
    else if index < 0 && 0 <= n + index then Some(n + index)
    else None
  }

  // Which indices name a position, and which one: counted from the front or the back.
  lemma PositionWraps(n: nat, index: int)
    ensures Position(n, index).Some? <==> 0 <= index + n && index < n
    ensures 0 <= index < n ==> Position(n, index) == Some(index)
    ensures 0 <= index + n < n ==> Position(n, index) == Some(index + n)
  {
  }

  // Replies are counted, not the distinct positions they fill; one outside the
  // table raises before it is counted.
  function Filled(p: Pending, r: CalibReply): Pending {
    var at := Position(|p.labels|, r.index);
    if at.None? then p
    else Pending(p.labels[at.value := Some(r.labels)], p.got + 1, p.done || p.got + 1 >= |p.labels|)
  }

  // The replies joined; none if a position is still empty, which raises.
  function Flat(labels: seq<Option<seq<Label>>>): Option<seq<Label>> {
    if labels == [] then Some([])
    else if labels[0].None? then None
    else
      var rest := Flat(labels[1..]);
      if rest.None? then None else Some(labels[0].value + rest.value)
  }

  function Zipped(labels: seq<Label>, n: nat): seq<Label> {
    if |labels| <= n then labels else labels[..n]
  }

  // Trust after a completed calibration of pid.
  function Scored(trust: map<Id, real>, pid: Id, labels: seq<Option<seq<Label>>>, samples: seq<Sample>): map<Id, real> {
    var flat := Flat(labels);
    if flat.None? then trust else Calibrated(trust, pid, Zipped(flat.value, |samples|), samples)
  }

  class InferenceService {
    var trust: map<Id, real>
    var pending: map<int, Pending>

    constructor (trust: map<Id, real>)
      ensures this.trust == trust && pending == map[]
    {
      this.trust, pending := trust, map[];
    }

    method Begin(qid: int, samples: seq<Sample>) returns (sent: seq<CalibQuery>)
      modifies this`pending
      ensures pending == old(pending)[qid := Opened(|Chunks(samples)|)]
      ensures sent == Queries(qid, Chunks(samples))
    {
      var chunks := Chunks(samples);
      pending := pending[qid := Opened(|chunks|)];
      sent := [];
      for i := 0 to |chunks|
        invariant |sent| == i && forall k | 0 <= k < i :: sent[k] == CalibQuery(qid, k, |chunks|, chunks[k])
        invariant pending == old(pending)[qid := Opened(|chunks|)]
      {
        sent := sent + [CalibQuery(qid, i, |chunks|, chunks[i])];
      }
    }

    method OnReply(r: CalibReply)
      modifies this`pending
      ensures pending == if r.qid in old(pending) then old(pending)[r.qid := Filled(old(pending)[r.qid], r)]
              else old(pending)
    {
      if r.qid !in pending { return; }
      var p := pending[r.qid];
      var at := Position(|p.labels|, r.index);
      if at.None? { return; }
      var labels, got := p.labels[at.value := Some(r.labels)], p.got + 1;
      var done := p.done;
      if got >= |labels| { done := true; }
      pending := pending[r.qid := Pending(labels, got, done)];
    }

    // The calling task resumes: it reads the table as it now is, and raises at a hole.
    method Finish(qid: int, pid: Id, samples: seq<Sample>) returns (raised: bool)
      requires qid in pending && pending[qid].done
      modifies this
      ensures pending == old(pending) - {qid}
      ensures trust == Scored(old(trust), pid, old(pending)[qid].labels, samples)
      ensures raised <==> Flat(old(pending)[qid].labels).None?
    {
      var labels := pending[qid].labels;
      pending := pending - {qid};
      var flat := Flatten(labels);
      if flat.None? { return true; }
      var hits, seen := Tally(flat.value, samples);
      if seen > 0 {
        trust := trust[pid := 0.5 * TrustOf(trust, pid) + 0.5 * (hits as real / seen as real)];
      }
      return false;
    }

    // The wait ran out: the entry goes, trust stays.
    method GiveUp(qid: int)
      modifies this`pending
      ensures pending == old(pending) - {qid}
    {
      pending := pending - {qid};
    }
  }

  method Flatten(labels: seq<Option<seq<Label>>>) returns (flat: Option<seq<Label>>)
    ensures flat == Flat(labels)
  {
    var out: seq<Label> := [];
    PrependNothing(Flat(labels));
    assert labels[0..] == labels;
    for i := 0 to |labels|
      invariant Flat(labels) == Prepend(out, Flat(labels[i..]))
    {
      if labels[i].None? { return None; }
      PrependTwice(out, labels[i].value, Flat(labels[i..][1..]));
      assert labels[i..][1..] == labels[i + 1..];
      out := out + labels[i].value;
    }
    assert labels[|labels|..] == [] && out + [] == out;
    return Some(out);
  }

  function Prepend(a: seq<Label>, rest: Option<seq<Label>>): Option<seq<Label>> {
    if rest.None? then None else Some(a + rest.value)
  }

  lemma PrependNothing(rest: Option<seq<Label>>)
    ensures Prepend([], rest) == rest
  {
    if rest.Some? { assert [] + rest.value == rest.value; }
  }

  lemma PrependTwice(a: seq<Label>, b: seq<Label>, rest: Option<seq<Label>>)
    ensures Prepend(a, Prepend(b, rest)) == Prepend(a + b, rest)
  {
    if rest.Some? { ConcatAssoc(a, b, rest.value); }
  }

  method Tally(labels: seq<Label>, samples: seq<Sample>) returns (hits: nat, seen: nat)
    ensures seen == SeenCount(Zipped(labels, |samples|))
    ensures hits == HitCount(Zipped(labels, |samples|), samples)
  {
    hits, seen := 0, 0;
    ghost var all := Zipped(labels, |samples|);
    var i := 0;
    while i < |labels| && i < |samples|
      invariant i <= |all|
      invariant seen == SeenCount(all[..i]) && hits == HitCount(all[..i], samples)
    {
      assert all[..i + 1] == all[..i] + [labels[i]];
      SeenSnoc(all[..i], labels[i]);
      HitSnoc(all[..i], labels[i], samples);
      if labels[i].Some? {
        seen := seen + 1;
        hits := hits + if labels[i] == Some(samples[i].y) then 1 else 0;
      }
      i := i + 1;
    }
    assert all[..i] == all;
  }

  // ---- one peer ----

  // What the peer behind `answer` sends back for chunk k.
  ghost predicate Honest(answer: Vec -> Label, chunks: seq<seq<Vec>>, r: CalibReply) {
    0 <= r.index < |chunks| && r.labels == AnswerAll(answer, chunks[r.index])
  }

  function Fold(p: Pending, rs: seq<CalibReply>): Pending {
    if rs == [] then p else Filled(Fold(p, rs[..|rs| - 1]), rs[|rs| - 1])
  }

  function Indices(rs: seq<CalibReply>): (s: set<int>)
    ensures |s| <= |rs|
    ensures forall i :: i in s <==> exists k | 0 <= k < |rs| :: rs[k].index == i
  {
    if rs == [] then {} else Indices(rs[..|rs| - 1]) + {rs[|rs| - 1].index}
  }

  ghost predicate NoRepeats(rs: seq<CalibReply>) {
    forall i, j | 0 <= i < j < |rs| :: rs[i].index != rs[j].index
  }

  lemma NoRepeatsSnoc(front: seq<CalibReply>, r: CalibReply)
    ensures NoRepeats(front + [r]) <==> NoRepeats(front) && r.index !in Indices(front)
  {
    var rs, n := front + [r], |front|;
    if NoRepeats(rs) {
      forall i, j | 0 <= i < j < n ensures front[i].index != front[j].index {
        assert rs[i].index != rs[j].index;
      }
      forall k | 0 <= k < n ensures front[k].index != r.index {
        assert rs[k].index != rs[n].index;
      }
    }
  }

  lemma {:induction false} NoRepeatsCounts(rs: seq<CalibReply>)
    ensures NoRepeats(rs) <==> |Indices(rs)| == |rs|
  {
    if rs != [] {
      var n := |rs| - 1;
      assert rs == rs[..n] + [rs[n]];
      NoRepeatsSnoc(rs[..n], rs[n]);
      NoRepeatsCounts(rs[..n]);
    }
  }

  // Chunk k is asked for once, under its own index and the request's id, and the peer's
  // reply to that carries both back with the answers to just that chunk.
  lemma QueryAnswered(answer: Vec -> Label, qid: int, chunks: seq<seq<Vec>>, k: nat)
    requires k < |chunks|
    ensures Queries(qid, chunks)[k] == CalibQuery(qid, k, |chunks|, chunks[k])
    ensures var r := Answered(answer, Queries(qid, chunks)[k]);
            r.qid == qid && r.index == k && Honest(answer, chunks, r)
  {
  }

  // ---- what the table holds ----

  // Each filled position holds the peer's true answers to its chunk.
  ghost predicate Truthful(answer: Vec -> Label, chunks: seq<seq<Vec>>, p: Pending) {
    && |p.labels| == |chunks|
    && forall k | 0 <= k < |chunks| && p.labels[k].Some? :: p.labels[k].value == AnswerAll(answer, chunks[k])
  }

  lemma {:induction false} FoldTable(answer: Vec -> Label, chunks: seq<seq<Vec>>, rs: seq<CalibReply>)
    requires chunks != [] && forall k | 0 <= k < |rs| :: Honest(answer, chunks, rs[k])
    ensures var p := Fold(Opened(|chunks|), rs);
            && Truthful(answer, chunks, p) && p.got == |rs| && (p.done <==> |rs| >= |chunks|)
            && (forall k | 0 <= k < |chunks| :: p.labels[k].Some? <==> k in Indices(rs))
  {
    if rs != [] {
      var n := |rs| - 1;
      FoldTable(answer, chunks, rs[..n]);
      assert Honest(answer, chunks, rs[n]);
    }
  }

  ghost predicate Full(labels: seq<Option<seq<Label>>>) {
    forall k | 0 <= k < |labels| :: labels[k].Some?
  }

  lemma FoldTruthful(answer: Vec -> Label, chunks: seq<seq<Vec>>, rs: seq<CalibReply>)
    requires chunks != [] && forall k | 0 <= k < |rs| :: Honest(answer, chunks, rs[k])
    ensures var p := Fold(Opened(|chunks|), rs);
            && Truthful(answer, chunks, p) && (p.done <==> |rs| >= |chunks|)
            && (Full(p.labels) <==> Range(|chunks|) <= Indices(rs))
  {
    FoldTable(answer, chunks, rs);
    var p := Fold(Opened(|chunks|), rs);
    FullExactly(p, Indices(rs));
  }

  lemma FullExactly(p: Pending, filled: set<int>)
    requires forall k | 0 <= k < |p.labels| :: p.labels[k].Some? <==> k in filled
    ensures Full(p.labels) <==> Range(|p.labels|) <= filled
  {
    if Range(|p.labels|) <= filled {
      forall k | 0 <= k < |p.labels| ensures p.labels[k].Some? { assert k in Range(|p.labels|); }
    }
  }

  lemma AnswersAppend(answer: Vec -> Label, a: seq<Vec>, b: seq<Vec>)
    ensures AnswerAll(answer, a + b) == AnswerAll(answer, a) + AnswerAll(answer, b)
  {
  }

  // A table joins up exactly when no position is empty, and then it spells the
  // answers to the chunks put end to end.
  lemma {:induction false} FlatExactly(answer: Vec -> Label, chunks: seq<seq<Vec>>, p: Pending)
    requires Truthful(answer, chunks, p)
    ensures Flat(p.labels) == if Full(p.labels) then Some(AnswerAll(answer, Concat(chunks))) else None
    decreases |chunks|
  {
    if chunks != [] {
      var rest := p.(labels := p.labels[1..]);
      FlatExactly(answer, chunks[1..], rest);
      if p.labels[0].Some? {
        AnswersAppend(answer, chunks[0], Concat(chunks[1..]));
        FullRest(p.labels);
      }
    }
  }

  lemma FullRest(labels: seq<Option<seq<Label>>>)
    requires labels != [] && labels[0].Some?
    ensures Full(labels) <==> Full(labels[1..])
  {
    if Full(labels[1..]) {
      forall k | 0 <= k < |labels| ensures labels[k].Some? {
        if k > 0 { assert labels[k] == labels[1..][k - 1]; }
      }
    }
  }

  lemma DirectAnswers(answer: Vec -> Label, samples: seq<Sample>)
    ensures AnswerAll(answer, Concat(Chunks(samples))) == Answers(answer, samples)
  {
    assert Concat(Chunks(samples)) == Inputs(samples);
  }

  // ---- one peer: what the querier learns ----

  // After any honest replies, in any order and however often repeated, the wait is
  // over exactly when as many came in as there are chunks, and the table then
  // joins up, to the very labels the direct form collects, exactly when every
  // chunk was answered.
  lemma TableExactly(answer: Vec -> Label, samples: seq<Sample>, rs: seq<CalibReply>)
    requires samples != [] && forall k | 0 <= k < |rs| :: Honest(answer, Chunks(samples), rs[k])
    ensures var p := Fold(Opened(|Chunks(samples)|), rs);
            && (p.done <==> |rs| >= |Chunks(samples)|)
            && Flat(p.labels) == if Range(|Chunks(samples)|) <= Indices(rs)
                                 then Some(Answers(answer, samples)) else None
  {
    var chunks := Chunks(samples);
    FoldTruthful(answer, chunks, rs);
    FlatExactly(answer, chunks, Fold(Opened(|chunks|), rs));
    DirectAnswers(answer, samples);
  }

  // Replies are counted, not chunks: at the reply that ends the wait the trust
  // written is the direct one if and only if no reply came twice.
  lemma CompleteExactlyWithoutRepeats(answer: Vec -> Label, samples: seq<Sample>, rs: seq<CalibReply>)
    requires samples != [] && forall k | 0 <= k < |rs| :: Honest(answer, Chunks(samples), rs[k])
    requires |rs| == |Chunks(samples)|
    ensures var p := Fold(Opened(|Chunks(samples)|), rs);
            p.done && Flat(p.labels) == if NoRepeats(rs) then Some(Answers(answer, samples)) else None
  {
    var n := |Chunks(samples)|;
    TableExactly(answer, samples, rs);
    NoRepeatsCounts(rs);
    IndicesInRange(answer, Chunks(samples), rs);
    SubsetSize(Indices(rs), Range(n));
  }

  lemma IndicesInRange(answer: Vec -> Label, chunks: seq<seq<Vec>>, rs: seq<CalibReply>)
    requires forall k | 0 <= k < |rs| :: Honest(answer, chunks, rs[k])
    ensures Indices(rs) <= Range(|chunks|)
  {
    forall i | i in Indices(rs) ensures i in Range(|chunks|) {
      var k :| 0 <= k < |rs| && rs[k].index == i;
      assert Honest(answer, chunks, rs[k]);
    }
  }

  // The direct value, for every order in which each reply arrives once.
  lemma ScoredDirectly(answer: Vec -> Label, samples: seq<Sample>, rs: seq<CalibReply>, trust: map<Id, real>, pid: Id)
    requires samples != [] && forall k | 0 <= k < |rs| :: Honest(answer, Chunks(samples), rs[k])
    requires |rs| == |Chunks(samples)| && NoRepeats(rs)
    ensures Scored(trust, pid, Fold(Opened(|Chunks(samples)|), rs).labels, samples)
         == Calibrated(trust, pid, Answers(answer, samples), samples)
  {
    CompleteExactlyWithoutRepeats(answer, samples, rs);
  }

  // With two chunks or more, the first reply repeated ends the wait with a table
  // that does not join up: trust is left as it was.
  lemma RepeatedReplySpoils(answer: Vec -> Label, samples: seq<Sample>, r: CalibReply, trust: map<Id, real>, pid: Id)
    requires |samples| > CALIB_CHUNK && Honest(answer, Chunks(samples), r)
    ensures var p := Fold(Opened(|Chunks(samples)|), seq(|Chunks(samples)|, i => r));
            p.done && Scored(trust, pid, p.labels, samples) == trust
  {
    var rs := seq(|Chunks(samples)|, i => r);
    SplitCount(Inputs(samples), CALIB_CHUNK);
    assert rs[0].index == rs[1].index;
    CompleteExactlyWithoutRepeats(answer, samples, rs);
  }
}
