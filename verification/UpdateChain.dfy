/** The signed hash chain of model checkpoints, with ideal hashes and signatures. */
module UpdateChains {
  import opened Seqs
  import opened Prototypes
  import opened Identity

  // ---- model digests ----

  datatype Content = Content(lbl: int, vector: Vec)

  // The hash of the concatenated, sorted part hashes.
  datatype ModelDigest = DigestOfParts(parts: seq<int>)

  function ContentOf(p: Proto): Content { Content(p.lbl, p.vector) }

  function Contents(ps: seq<Proto>): (cs: seq<Content>)
    ensures |cs| == |ps|
  {
    seq(|ps|, i requires 0 <= i < |ps| => ContentOf(ps[i]))
  }

  ghost predicate SortedInts(s: seq<int>) {
    forall i, j | 0 <= i < j < |s| :: s[i] <= s[j]
  }

  function Insert(x: int, s: seq<int>): (r: seq<int>)
    ensures forall y | y in r :: y == x || y in s
  {
    if s == [] || x <= s[0] then [x] + s else [s[0]] + Insert(x, s[1..])
  }

  lemma {:induction false} InsertMultiset(x: int, s: seq<int>)
    ensures multiset(Insert(x, s)) == multiset(s) + multiset{x}
  {
    if !(s == [] || x <= s[0]) {
      InsertMultiset(x, s[1..]);
      assert s == [s[0]] + s[1..];
    }
  }

  lemma {:induction false} InsertSorts(x: int, s: seq<int>)
    requires SortedInts(s)
    ensures SortedInts(Insert(x, s))
  {
    if !(s == [] || x <= s[0]) {
      InsertSorts(x, s[1..]);
      var rest := Insert(x, s[1..]);
      forall k | 0 <= k < |rest| ensures s[0] <= rest[k] {
        assert rest[k] in rest;
      }
    }
  }

  // sorted(hash(part) for part in parts)
  function SortedHashes(hash: Content -> int, ps: seq<Proto>): (r: seq<int>)
    ensures SortedInts(r)
  {
    if ps == [] then []
    else
      var front := SortedHashes(hash, ps[..|ps| - 1]);
      InsertSorts(hash(ContentOf(ps[|ps| - 1])), front);
      Insert(hash(ContentOf(ps[|ps| - 1])), front)
  }

  function ModelDigestOf(hash: Content -> int, ps: seq<Proto>): ModelDigest {
    DigestOfParts(SortedHashes(hash, ps))
  }

  ghost predicate Injective(hash: Content -> int) {
    forall a, b | hash(a) == hash(b) :: a == b
  }

  lemma HeadIsLeast(a: seq<int>, b: seq<int>)
    requires SortedInts(a) && a != [] && multiset(a) == multiset(b)
    ensures b != [] && b[0] in a && a[0] <= b[0]
  {
    assert a[0] in multiset(b);
    assert b[0] in multiset(b);
  }

  lemma {:induction false} SortedIsUnique(a: seq<int>, b: seq<int>)
    requires SortedInts(a) && SortedInts(b) && multiset(a) == multiset(b)
    ensures a == b
  {
    if a == [] {
      assert |multiset(a)| == |multiset(b)|;
    } else {
      HeadIsLeast(a, b);
      HeadIsLeast(b, a);
      assert a == [a[0]] + a[1..] && b == [b[0]] + b[1..];
      assert multiset(a[1..]) == multiset(a) - multiset{a[0]};
      assert multiset(b[1..]) == multiset(b) - multiset{b[0]};
      SortedIsUnique(a[1..], b[1..]);
    }
  }

  lemma CountSnoc(cs: seq<Content>, last: Content, c: Content)
    ensures multiset(cs + [last])[c] == multiset(cs)[c] + if last == c then 1 else 0
  {
  }

  lemma InsertCount(x: int, s: seq<int>, y: int)
    ensures multiset(Insert(x, s))[y] == multiset(s)[y] + if x == y then 1 else 0
  {
    InsertMultiset(x, s);
  }

  // How often a value occurs.
  function Count<T(==)>(s: seq<T>, x: T): nat { multiset(s)[x] }

  lemma ContentsSnoc(ps: seq<Proto>, c: Content)
    requires ps != []
    ensures var n := |ps| - 1;
            Count(Contents(ps), c) == Count(Contents(ps[..n]), c) + if ContentOf(ps[n]) == c then 1 else 0
  {
    var n := |ps| - 1;
    assert Contents(ps) == Contents(ps[..n]) + [ContentOf(ps[n])];
    CountSnoc(Contents(ps[..n]), ContentOf(ps[n]), c);
  }

  lemma HashesSnoc(hash: Content -> int, ps: seq<Proto>, h: int)
    requires ps != []
    ensures var n := |ps| - 1;
            Count(SortedHashes(hash, ps), h)
              == Count(SortedHashes(hash, ps[..n]), h) + if hash(ContentOf(ps[n])) == h then 1 else 0
  {
    var n := |ps| - 1;
    InsertCount(hash(ContentOf(ps[n])), SortedHashes(hash, ps[..n]), h);
  }

  lemma {:induction false} HashMultiset(hash: Content -> int, ps: seq<Proto>, c: Content)
    requires Injective(hash)
    ensures Count(SortedHashes(hash, ps), hash(c)) == Count(Contents(ps), c)
  {
    if ps != [] {
      HashMultiset(hash, ps[..|ps| - 1], c);
      HashesSnoc(hash, ps, hash(c));
      ContentsSnoc(ps, c);
    }
  }

  lemma {:induction false} HashOrigin(hash: Content -> int, ps: seq<Proto>, h: int)
    requires h in SortedHashes(hash, ps)
    ensures exists c :: c in Contents(ps) && hash(c) == h
  {
    var n := |ps| - 1;
    assert Contents(ps)[n] == ContentOf(ps[n]) && ContentOf(ps[n]) in Contents(ps);
    if h != hash(ContentOf(ps[n])) {
      HashOrigin(hash, ps[..n], h);
      var c :| c in Contents(ps[..n]) && hash(c) == h;
      var k :| 0 <= k < n && Contents(ps[..n])[k] == c;
      assert Contents(ps)[k] == c;
    }
  }

  // Two models share a digest exactly when they hold the same labelled vectors,
  // in any order; weights are not committed to.
  lemma DigestIsTheContents(hash: Content -> int, ps: seq<Proto>, qs: seq<Proto>)
    requires Injective(hash)
    ensures ModelDigestOf(hash, ps) == ModelDigestOf(hash, qs) <==> multiset(Contents(ps)) == multiset(Contents(qs))
  {
    var hp, hq := SortedHashes(hash, ps), SortedHashes(hash, qs);
    if hp == hq {
      forall c ensures multiset(Contents(ps))[c] == multiset(Contents(qs))[c] {
        HashMultiset(hash, ps, c);
        HashMultiset(hash, qs, c);
      }
    }
    if multiset(Contents(ps)) == multiset(Contents(qs)) {
      forall h | h in hp || h in hq ensures multiset(hp)[h] == multiset(hq)[h] {
        var c;
        if h in hp {
          HashOrigin(hash, ps, h);
          c :| c in Contents(ps) && hash(c) == h;
        } else {
          HashOrigin(hash, qs, h);
          c :| c in Contents(qs) && hash(c) == h;
        }
        HashMultiset(hash, ps, c);
        HashMultiset(hash, qs, c);
      }
      assert forall h | h in multiset(hp) || h in multiset(hq) :: h in hp || h in hq;
      assert multiset(hp) == multiset(hq);
      SortedIsUnique(hp, hq);
    }
  }

  // ---- entries ----

  // Content hashes; each commits to the previous one, none collides.
  datatype Digest =
    | GenesisHash
    | EntryDigest(prev: Digest, nodeId: NodeId, counter: int, ctrNode: int, model: ModelDigest, seqNo: int)
    | Unrelated(tag: nat)

  datatype ChainSig = ChainSig(signer: PubKey, digest: Digest) | BrokenSig(tag: nat)

  datatype ChainEntry = ChainEntry(
    seqNo: int, prevHash: Digest, nodeId: NodeId, counter: int, ctrNode: int, modelDigest: ModelDigest,
    pubkey: PubKey, signature: ChainSig, entryHash: Digest)

  function DigestOfEntry(e: ChainEntry): Digest {
    EntryDigest(e.prevHash, e.nodeId, e.counter, e.ctrNode, e.modelDigest, e.seqNo)
  }

  function PrevHash(es: seq<ChainEntry>, i: nat): Digest
    requires i <= |es|
  {
    if i == 0 then GenesisHash else es[i - 1].entryHash
  }

  // What the owner of pk builds.
  ghost predicate Built(pk: PubKey, es: seq<ChainEntry>) {
    forall i: nat :: BuiltAt(pk, es, i)
  }

  ghost predicate BuiltAt(pk: PubKey, es: seq<ChainEntry>, i: nat) {
    i < |es| ==>
      && es[i].seqNo == i && es[i].nodeId == HashOf(pk) && es[i].pubkey == pk
      && es[i].prevHash == PrevHash(es, i) && es[i].entryHash == DigestOfEntry(es[i])
      && es[i].signature == ChainSig(pk, es[i].entryHash)
  }

  class UpdateChain {
    const pk: PubKey
    const hash: Content -> int
    var entries: seq<ChainEntry>

    constructor (pk: PubKey, hash: Content -> int)
      ensures this.pk == pk && this.hash == hash && entries == []
    {
      this.pk, this.hash, entries := pk, hash, [];
    }

    function HeadHash(): Digest
      reads this
    {
      if entries == [] then GenesisHash else entries[|entries| - 1].entryHash
    }

    method ComputeModelDigest(protos: seq<Proto>) returns (d: ModelDigest)
      ensures d == ModelDigestOf(hash, protos)
    {
      var parts: seq<int> := [];
      for i := 0 to |protos|
        invariant parts == SortedHashes(hash, protos[..i])
      {
        assert protos[..i + 1][..i] == protos[..i];
        parts := Insert(hash(ContentOf(protos[i])), parts);
      }
      assert protos[..|protos|] == protos;
      d := DigestOfParts(parts);
    }

    // Append a signed checkpoint of the model version and digest.
    method Checkpoint(counter: int, ctrNode: int, protos: seq<Proto>) returns (entry: ChainEntry)
      requires Built(pk, entries)
      modifies this`entries
      ensures Built(pk, entries) && entries == old(entries) + [entry]
      ensures entry.counter == counter && entry.ctrNode == ctrNode && entry.modelDigest == ModelDigestOf(hash, protos)
    {
      var md := ComputeModelDigest(protos);
      var seqNo, prev := |entries|, HeadHash();
      var digest := EntryDigest(prev, HashOf(pk), counter, ctrNode, md, seqNo);
      entry := ChainEntry(seqNo, prev, HashOf(pk), counter, ctrNode, md, pk, ChainSig(pk, digest), digest);
      forall i: nat ensures BuiltAt(pk, entries + [entry], i) {
        assert BuiltAt(pk, entries, i);
      }
      entries := entries + [entry];
    }
  }

  // ---- verification ----

  datatype Flaw = SeqGap | IdMismatch | WrongOwner | BrokenLink | Tampered | BadChainSignature

  function FlawOf(e: ChainEntry, i: nat, prev: Digest, expected: Option<NodeId>): Option<Flaw> {
    if e.seqNo != i then Some(SeqGap)
    else if HashOf(e.pubkey) != e.nodeId then Some(IdMismatch)
    else if expected.Some? && e.nodeId != expected.value then Some(WrongOwner)
    else if e.prevHash != prev then Some(BrokenLink)
    else if DigestOfEntry(e) != e.entryHash then Some(Tampered)
    else if e.signature != ChainSig(e.pubkey, e.entryHash) then Some(BadChainSignature)
    else None
  }

  ghost predicate ValidChain(es: seq<ChainEntry>, expected: Option<NodeId>) {
    forall i: nat :: ValidAt(es, i, expected)
  }

  predicate ValidAt(es: seq<ChainEntry>, i: nat, expected: Option<NodeId>) {
    i < |es| ==> FlawOf(es[i], i, PrevHash(es, i), expected).None?
  }

  datatype ChainVerdict = Accepted | Flawed(at: nat, flaw: Flaw)

  method VerifyChain(entries: seq<ChainEntry>, expected: Option<NodeId>) returns (v: ChainVerdict)
    ensures v.Accepted? <==> ValidChain(entries, expected)
    ensures v.Flawed? ==> v.at < |entries| && ValidChain(entries[..v.at], expected)
    ensures v.Flawed? ==> FlawOf(entries[v.at], v.at, PrevHash(entries, v.at), expected) == Some(v.flaw)
  {
    var prev := GenesisHash;
    for i := 0 to |entries|
      invariant prev == PrevHash(entries, i)
      invariant forall k: nat | k < i :: ValidAt(entries, k, expected)
    {
      var e := entries[i];
      forall k: nat ensures ValidAt(entries[..i], k, expected) {
        if k < i { assert ValidAt(entries, k, expected); }
      }
      assert FlawOf(e, i, prev, expected).Some? ==> !ValidAt(entries, i, expected);
      if e.seqNo != i { return Flawed(i, SeqGap); }
      if HashOf(e.pubkey) != e.nodeId { return Flawed(i, IdMismatch); }
      if expected.Some? && e.nodeId != expected.value { return Flawed(i, WrongOwner); }
      if e.prevHash != prev { return Flawed(i, BrokenLink); }
      if DigestOfEntry(e) != e.entryHash { return Flawed(i, Tampered); }
      if e.signature != ChainSig(e.pubkey, e.entryHash) { return Flawed(i, BadChainSignature); }
      prev := e.entryHash;
    }
    return Accepted;
  }

  // ---- tamper evidence ----

  // Every honest prefix verifies.
  lemma OwnPrefixVerifies(pk: PubKey, built: seq<ChainEntry>, k: nat)
    requires Built(pk, built) && k <= |built|
    ensures ValidChain(built[..k], Some(HashOf(pk)))
  {
    forall i: nat ensures ValidAt(built[..k], i, Some(HashOf(pk))) {
      assert BuiltAt(pk, built, i);
    }
  }

  // Ideal signatures: the owner signed nothing but the entries of these chains.
  ghost predicate Unforged(pk: PubKey, chains: seq<seq<ChainEntry>>, es: seq<ChainEntry>) {
    forall e, d | e in es && e.signature == ChainSig(pk, d) ::
      exists c | c in chains :: exists b | b in c :: b.entryHash == d
  }

  lemma SameHashSameEntry(pk: PubKey, built: seq<ChainEntry>, es: seq<ChainEntry>, i: nat)
    requires Built(pk, built) && ValidChain(es, Some(HashOf(pk)))
    requires i < |es| && i < |built| && es[i].entryHash == built[i].entryHash
    ensures es[i] == built[i]
    ensures i > 0 ==> es[i - 1].entryHash == built[i - 1].entryHash
  {
    assert ValidAt(es, i, Some(HashOf(pk))) && BuiltAt(pk, built, i);
    assert i > 0 ==> BuiltAt(pk, built, i - 1);
  }

  // A link commits to everything before it: agreeing on one entry hash at one
  // position means agreeing on the whole history up to it.
  lemma {:induction false} LinkCommits(pk: PubKey, built: seq<ChainEntry>, es: seq<ChainEntry>, i: nat)
    requires Built(pk, built) && ValidChain(es, Some(HashOf(pk)))
    requires i < |es| && i < |built| && es[i].entryHash == built[i].entryHash
    ensures forall k | 0 <= k <= i :: es[k] == built[k]
  {
    SameHashSameEntry(pk, built, es, i);
    if i > 0 {
      LinkCommits(pk, built, es, i - 1);
    }
  }

  // Even an owner that keeps several divergent chains cannot have them mixed: an
  // accepted chain is a prefix of one of them.
  lemma AcceptedIsAPrefixOfOne(pk: PubKey, chains: seq<seq<ChainEntry>>, es: seq<ChainEntry>)
    requires forall c | c in chains :: Built(pk, c)
    requires Unforged(pk, chains, es)
    requires ValidChain(es, Some(HashOf(pk))) && es != []
    ensures exists c | c in chains :: es <= c
  {
    var n := |es| - 1;
    assert ValidAt(es, n, Some(HashOf(pk)));
    assert es[n] in es && es[n].signature == ChainSig(pk, es[n].entryHash);
    var c :| c in chains && exists b | b in c :: b.entryHash == es[n].entryHash;
    var b :| b in c && b.entryHash == es[n].entryHash;
    var j :| 0 <= j < |c| && c[j] == b;
    assert BuiltAt(pk, c, j);
    assert j == n;
    LinkCommits(pk, c, es, n);
  }

  // For an owner with one chain, accepted means a prefix of what it built.
  lemma AcceptedExactlyPrefixes(pk: PubKey, built: seq<ChainEntry>, es: seq<ChainEntry>)
    requires Built(pk, built) && Unforged(pk, [built], es)
    ensures ValidChain(es, Some(HashOf(pk))) <==> es <= built
  {
    if ValidChain(es, Some(HashOf(pk))) && es != [] {
      AcceptedIsAPrefixOfOne(pk, [built], es);
    }
    if es <= built {
      OwnPrefixVerifies(pk, built, |es|);
      assert built[..|es|] == es;
    }
  }

  // Without an expected owner the entries need not share one ...
  lemma OwnersMayMix()
    ensures exists es: seq<ChainEntry> :: ValidChain(es, None) && |es| == 2 && es[0].nodeId != es[1].nodeId
  {
    var md := DigestOfParts([]);
    var d0 := EntryDigest(GenesisHash, HashOf(0), 1, 0, md, 0);
    var d1 := EntryDigest(d0, HashOf(1), 1, 1, md, 1);
    var e0 := ChainEntry(0, GenesisHash, HashOf(0), 1, 0, md, 0, ChainSig(0, d0), d0);
    var e1 := ChainEntry(1, d0, HashOf(1), 1, 1, md, 1, ChainSig(1, d1), d1);
    var es := [e0, e1];
    forall i: nat ensures ValidAt(es, i, None) {
      if i == 1 { assert PrevHash(es, 1) == d0; }
    }
    assert ValidChain(es, None);
  }

  // ... and naming the owner adds exactly that.
  lemma OwnerCheckAddsExactly(es: seq<ChainEntry>, owner: NodeId)
    ensures ValidChain(es, Some(owner)) <==> ValidChain(es, None) && forall e | e in es :: e.nodeId == owner
  {
    if ValidChain(es, Some(owner)) {
      forall i: nat ensures ValidAt(es, i, None) && (i < |es| ==> es[i].nodeId == owner) {
        assert ValidAt(es, i, Some(owner));
      }
    }
    if ValidChain(es, None) && forall e | e in es :: e.nodeId == owner {
      forall i: nat ensures ValidAt(es, i, Some(owner)) {
        assert ValidAt(es, i, None);
        assert i < |es| ==> es[i] in es;
      }
    }
  }
}
