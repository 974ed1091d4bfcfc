/** What gossip and corrections do to a node, told without its own bookkeeping:
    who reaches the merge, what is committed and what is rolled back. */
module GossipLaws {
  import opened Seqs
  import opened Prototypes
  import opened SwarmNodes

  // ---- the quorum ----

  // Sender id has a buffered claim of label l in x's region.
  ghost predicate ClaimsNear(q: seq<Claim>, x: Vec, l: int, r: real, id: Id) {
    exists i :: 0 <= i < |q| && NearClaim(q[i], x, l, r) && q[i].sender == id
  }

  predicate NearClaim(c: Claim, x: Vec, l: int, r: real) {
    c.proto.lbl == l && |c.proto.vector| == |x| && r > 0.0 && Dist2(c.proto.vector, x) < r * r
  }

  // ids are the senders that claim label l near x, `extra` included.
  ghost predicate ClaimantsAre(q: seq<Claim>, x: Vec, l: int, r: real, extra: set<Id>, ids: set<Id>) {
    forall id :: id in ids <==> id in extra || ClaimsNear(q, x, l, r, id)
  }

  // A claim is promoted if and only if at least three senders claim its label in its
  // region, its own included, and no other label has more claimants there.
  lemma CorroboratedExactly(q: seq<Claim>, p: Proto, sender: Id, r: real)
    ensures Corroborated(q, p, sender, r)
       <==> exists ids :: ClaimantsAre(q, p.vector, p.lbl, r, {sender}, ids) && |ids| >= 3
                       && forall l, rivals | l != p.lbl && ClaimantsAre(q, p.vector, l, r, {}, rivals) ::
                            |rivals| <= |ids|
  {
    var mine := Backers(q, p, sender, p.lbl, r);
    forall l ensures ClaimantsAre(q, p.vector, l, r, {}, Voters(q, p, l, r)) {
      VotersClaim(q, p, l, r);
    }
    assert ClaimantsAre(q, p.vector, p.lbl, r, {}, Voters(q, p, p.lbl, r));
    assert ClaimantsAre(q, p.vector, p.lbl, r, {sender}, mine);
    forall ids | ClaimantsAre(q, p.vector, p.lbl, r, {sender}, ids) ensures ids == mine {
      SameClaimants(q, p.vector, p.lbl, r, {sender}, ids, mine);
    }
    forall l, rivals | ClaimantsAre(q, p.vector, l, r, {}, rivals) ensures rivals == Voters(q, p, l, r) {
      SameClaimants(q, p.vector, l, r, {}, rivals, Voters(q, p, l, r));
    }
  }

  lemma SameClaimants(q: seq<Claim>, x: Vec, l: int, r: real, extra: set<Id>, a: set<Id>, b: set<Id>)
    requires ClaimantsAre(q, x, l, r, extra, a) && ClaimantsAre(q, x, l, r, extra, b)
    ensures a == b
  {
    forall id ensures id in a <==> id in b {
      assert id in a <==> id in extra || ClaimsNear(q, x, l, r, id);
    }
  }

  lemma VotersClaim(q: seq<Claim>, p: Proto, l: int, r: real)
    ensures ClaimantsAre(q, p.vector, l, r, {}, Voters(q, p, l, r))
  {
    forall id ensures id in Voters(q, p, l, r) <==> ClaimsNear(q, p.vector, l, r, id) {
      if id in Voters(q, p, l, r) {
        var c :| c in q && c.proto.lbl == l && Near(c.proto.vector, p.vector, r) && c.sender == id;
        var i :| 0 <= i < |q| && q[i] == c;
        assert NearClaim(q[i], p.vector, l, r);
      }
      if i :| 0 <= i < |q| && NearClaim(q[i], p.vector, l, r) && q[i].sender == id {
        assert q[i] in q && Near(q[i].proto.vector, p.vector, r);
      }
    }
  }

  // ---- who reaches the merge ----

  // The holdout can judge p's label.
  ghost predicate Covered(holdout: seq<Sample>, p: Proto) {
    exists i :: 0 <= i < |holdout| && holdout[i].y == p.lbl
  }

  // What a message puts into the quarantine: a claim for each label not covered.
  ghost function OpenClaims(holdout: seq<Sample>, ps: seq<Proto>, sender: Id): seq<Claim> {
    if ps == [] then []
    else
      var n := |ps| - 1;
      OpenClaims(holdout, ps[..n], sender) + if Covered(holdout, ps[n]) then [] else [Claim(ps[n], sender)]
  }

  // A member of the message is judged at once if its label is covered, and otherwise
  // needs the quorum among the last 500 claims up to it.
  ghost predicate PromotedAt(cfg: Config, s: NodeState, ps: seq<Proto>, sender: Id, i: int) {
    && 0 <= i < |ps| && !Covered(s.holdout, ps[i])
    && Corroborated(LastN(500, s.quarantine + OpenClaims(s.holdout, ps[..i], sender)), ps[i], sender,
                    cfg.corroborationRadius)
  }

  ghost predicate CoveredAt(s: NodeState, ps: seq<Proto>, i: int) {
    0 <= i < |ps| && Covered(s.holdout, ps[i])
  }

  ghost function PromotedIndices(cfg: Config, s: NodeState, ps: seq<Proto>, sender: Id): set<int> {
    set i | 0 <= i < |ps| && PromotedAt(cfg, s, ps, sender, i)
  }

  ghost function CoveredIndices(s: NodeState, ps: seq<Proto>): set<int> {
    set i | 0 <= i < |ps| && CoveredAt(s, ps, i)
  }

  lemma CoveredIsKnown(holdout: seq<Sample>, p: Proto)
    ensures Covered(holdout, p) <==> p.lbl in HoldoutLabels(holdout)
  {
    if p.lbl in HoldoutLabels(holdout) {
      var h :| h in holdout && h.y == p.lbl;
      var i :| 0 <= i < |holdout| && holdout[i] == h;
      assert holdout[i].y == p.lbl;
    }
  }

  lemma {:induction false} CorroborateSnoc(q: seq<Claim>, ps: seq<Proto>, p: Proto, sender: Id, r: real)
    ensures var (front, q1) := CorroborateAll(q, ps, sender, r);
            CorroborateAll(q, ps + [p], sender, r)
              == (front + (if Corroborated(q1, p, sender, r) then [p] else []), Buffer(q1, p, sender))
    decreases |ps|
  {
    if ps == [] {
      assert ps + [p] == [p] && [p][1..] == [];
      var one := if Corroborated(q, p, sender, r) then [p] else [];
      assert CorroborateAll(q, [p], sender, r) == (one + [], Buffer(q, p, sender));
      assert one + [] == one && [] + one == one;
    } else {
      assert (ps + [p])[1..] == ps[1..] + [p];
      CorroborateSnoc(Buffer(q, ps[0], sender), ps[1..], p, sender, r);
      var first := if Corroborated(q, ps[0], sender, r) then [ps[0]] else [];
      var (rest, q1) := CorroborateAll(Buffer(q, ps[0], sender), ps[1..], sender, r);
      ConcatAssoc(first, rest, if Corroborated(q1, p, sender, r) then [p] else []);
    }
  }

  lemma FilterSnoc(f: Proto -> bool, ps: seq<Proto>, p: Proto)
    ensures Filter(f, ps + [p]) == Filter(f, ps) + if f(p) then [p] else []
  {
    FilterAppend(f, ps, [p]);
    assert [p][1..] == [] && Filter(f, []) == [];
    assert Filter(f, [p]) == if f(p) then [p] else [];
  }

  // batch consists of the members of ps at the given indices.
  ghost predicate Picks(batch: seq<Proto>, ps: seq<Proto>, at: set<int>) {
    && |batch| == |at|
    && (forall p | p in batch :: exists i :: i in at && 0 <= i < |ps| && ps[i] == p)
    && (forall i | i in at && 0 <= i < |ps| :: ps[i] in batch)
  }

  lemma PicksSnoc(batch: seq<Proto>, ps: seq<Proto>, p: Proto, before: set<int>, after: set<int>, now: bool)
    requires Picks(batch, ps, before) && forall i | i in before :: 0 <= i < |ps|
    requires forall i :: i in after <==> i in before || (i == |ps| && now)
    ensures Picks(batch + (if now then [p] else []), ps + [p], after)
  {
    var more, all := batch + (if now then [p] else []), ps + [p];
    IndexGrows(before, after, |ps|, now);
    forall q | q in more ensures exists i :: i in after && 0 <= i < |all| && all[i] == q {
      if q in batch {
        var i :| i in before && 0 <= i < |ps| && ps[i] == q;
        assert i in after && all[i] == q;
      } else {
        assert |ps| in after && all[|ps|] == q;
      }
    }
    forall i | i in after && 0 <= i < |all| ensures all[i] in more {
      if i in before { assert all[i] == ps[i]; }
    }
  }

  lemma {:induction false} CoveredPicked(s: NodeState, ps: seq<Proto>)
    ensures Picks(Filter(KnownIn(HoldoutLabels(s.holdout)), ps), ps, CoveredIndices(s, ps))
  {
    if ps != [] {
      var n := |ps| - 1;
      var front, p := ps[..n], ps[n];
      assert ps == front + [p];
      CoveredPicked(s, front);
      FilterSnoc(KnownIn(HoldoutLabels(s.holdout)), front, p);
      CoveredIsKnown(s.holdout, p);
      var before, after := CoveredIndices(s, front), CoveredIndices(s, ps);
      forall i ensures i in after <==> (i in before || (i == n && Covered(s.holdout, p))) {
        if 0 <= i < n { assert ps[i] == front[i]; }
      }
      PicksSnoc(Filter(KnownIn(HoldoutLabels(s.holdout)), front), front, p, before, after, Covered(s.holdout, p));
    }
  }

  lemma PromotedGrows(cfg: Config, s: NodeState, front: seq<Proto>, p: Proto, sender: Id, i: int)
    ensures var n := |front|;
            PromotedAt(cfg, s, front + [p], sender, i) <==>
            PromotedAt(cfg, s, front, sender, i) || (i == n && PromotedAt(cfg, s, front + [p], sender, n))
  {
    if 0 <= i < |front| {
      assert (front + [p])[..i] == front[..i] && (front + [p])[i] == front[i];
    }
  }

  lemma PromotedSnoc(cfg: Config, s: NodeState, front: seq<Proto>, p: Proto, sender: Id, out: seq<Proto>)
    requires Picks(out, front, PromotedIndices(cfg, s, front, sender))
    ensures var now := PromotedAt(cfg, s, front + [p], sender, |front|);
            Picks(out + (if now then [p] else []), front + [p], PromotedIndices(cfg, s, front + [p], sender))
  {
    var n, ps := |front|, front + [p];
    var before, after := PromotedIndices(cfg, s, front, sender), PromotedIndices(cfg, s, ps, sender);
    forall i ensures i in after <==> (i in before || (i == n && PromotedAt(cfg, s, ps, sender, n))) {
      PromotedGrows(cfg, s, front, p, sender, i);
    }
    PicksSnoc(out, front, p, before, after, PromotedAt(cfg, s, ps, sender, n));
  }

  lemma PromotedLast(cfg: Config, s: NodeState, front: seq<Proto>, p: Proto, sender: Id)
    ensures PromotedAt(cfg, s, front + [p], sender, |front|) <==>
            !Covered(s.holdout, p) && Corroborated(LastN(500, s.quarantine + OpenClaims(s.holdout, front, sender)), p,
                                                   sender, cfg.corroborationRadius)
  {
    assert (front + [p])[..|front|] == front;
  }

  lemma OpenSnoc(s: NodeState, front: seq<Proto>, p: Proto, sender: Id)
    ensures OpenClaims(s.holdout, front + [p], sender)
         == OpenClaims(s.holdout, front, sender) + if Covered(s.holdout, p) then [] else [Claim(p, sender)]
  {
    assert (front + [p])[..|front|] == front;
  }

  lemma WindowNext(s: NodeState, front: seq<Proto>, p: Proto, sender: Id, q: seq<Claim>)
    requires q == LastN(500, s.quarantine + OpenClaims(s.holdout, front, sender))
    ensures LastN(500, s.quarantine + OpenClaims(s.holdout, front + [p], sender))
         == if Covered(s.holdout, p) then q else Buffer(q, p, sender)
  {
    var claims := OpenClaims(s.holdout, front, sender);
    OpenSnoc(s, front, p, sender);
    if Covered(s.holdout, p) {
      assert claims + [] == claims;
    } else {
      LastNPush(500, s.quarantine + claims, Claim(p, sender));
      ConcatAssoc(s.quarantine, claims, [Claim(p, sender)]);
    }
  }

  lemma ScreenNext(s: NodeState, front: seq<Proto>, p: Proto, sender: Id, r: real, out: seq<Proto>, q: seq<Claim>)
    requires (out, q) == CorroborateAll(s.quarantine, Filter(UnknownIn(HoldoutLabels(s.holdout)), front), sender, r)
    ensures CorroborateAll(s.quarantine, Filter(UnknownIn(HoldoutLabels(s.holdout)), front + [p]), sender, r)
         == (out + (if !Covered(s.holdout, p) && Corroborated(q, p, sender, r) then [p] else []),
             if Covered(s.holdout, p) then q else Buffer(q, p, sender))
  {
    var f := UnknownIn(HoldoutLabels(s.holdout));
    FilterSnoc(f, front, p);
    CoveredIsKnown(s.holdout, p);
    if f(p) {
      CorroborateSnoc(s.quarantine, Filter(f, front), p, sender, r);
    } else {
      assert Filter(f, front) + [] == Filter(f, front) && out + [] == out;
    }
  }

  // Screening ps promotes the right members and leaves the right claims.
  ghost predicate ScreenedRight(cfg: Config, s: NodeState, ps: seq<Proto>, sender: Id) {
    var (out, q) := CorroborateAll(s.quarantine, Filter(UnknownIn(HoldoutLabels(s.holdout)), ps), sender,
                                   cfg.corroborationRadius);
    && q == LastN(500, s.quarantine + OpenClaims(s.holdout, ps, sender))
    && Picks(out, ps, PromotedIndices(cfg, s, ps, sender))
  }

  lemma ScreenedRightNext(cfg: Config, s: NodeState, front: seq<Proto>, p: Proto, sender: Id)
    requires ScreenedRight(cfg, s, front, sender)
    ensures ScreenedRight(cfg, s, front + [p], sender)
  {
    var (out, q) := CorroborateAll(s.quarantine, Filter(UnknownIn(HoldoutLabels(s.holdout)), front), sender,
                                   cfg.corroborationRadius);
    ScreenNext(s, front, p, sender, cfg.corroborationRadius, out, q);
    WindowNext(s, front, p, sender, q);
    PromotedLast(cfg, s, front, p, sender);
    PromotedSnoc(cfg, s, front, p, sender, out);
  }

  lemma {:induction false} PromotedPicked(cfg: Config, s: NodeState, ps: seq<Proto>, sender: Id)
    requires |s.quarantine| <= 500
    ensures ScreenedRight(cfg, s, ps, sender)
  {
    if ps == [] {
      assert s.quarantine + [] == s.quarantine;
    } else {
      var n := |ps| - 1;
      PromotedPicked(cfg, s, ps[..n], sender);
      ScreenedRightNext(cfg, s, ps[..n], ps[n], sender);
      assert ps == ps[..n] + [ps[n]];
    }
  }

  // Of a message that is not ignored exactly the covered and the promoted members
  // reach the merge, the covered ones first; the rest leave claims behind.
  lemma WhoReachesTheMerge(cfg: Config, s: NodeState, msg: Message, s': NodeState)
    requires Receives(cfg, s, msg, s') && |s.quarantine| <= 500
    requires msg.kind == "protos" && TrustOf(s.trust, msg.sender) >= 0.15 && |s.holdout| >= 10
    ensures exists judged, promoted ::
              && Picks(judged, msg.payload, CoveredIndices(s, msg.payload))
              && Picks(promoted, msg.payload, PromotedIndices(cfg, s, msg.payload, msg.sender))
              && var s1 := s.(quarantine :=
                              LastN(500, s.quarantine + OpenClaims(s.holdout, msg.payload, msg.sender)));
                 if judged + promoted == [] then s' == s1
                 else MergeJudged(cfg, s1, judged + promoted, msg.sender, TrustOf(s.trust, msg.sender), s')
  {
    CoveredPicked(s, msg.payload);
    PromotedPicked(cfg, s, msg.payload, msg.sender);
  }
}
