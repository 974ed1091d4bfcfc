/** Serving a long list in chunks and putting it back together from responses
    that arrive in any order, repeated or not: the update-chain audit and, with
    bytes for entries, the shared embedding. */
module Reassembly {
  import opened Seqs
  import opened Identity
  import opened UpdateChains

  const CHAIN_ENTRIES_PER_CHUNK: nat := 3

  datatype Response<T> = Response(index: int, total: int, data: seq<T>)

  // What a request is answered with: the chunks, or one empty chunk.
  function ChunksToServe<T>(entries: seq<T>, n: nat): (parts: seq<seq<T>>)
    requires n > 0
    ensures parts != [] && Concat(parts) == entries
  {
    if entries == [] then
      assert Concat([entries]) == entries + Concat([entries][1..]);
      [entries]
    else Split(entries, n)
  }

  function Responses<T>(entries: seq<T>, n: nat): (rs: seq<Response<T>>)
    requires n > 0
    ensures |rs| == |ChunksToServe(entries, n)|
  {
    var parts := ChunksToServe(entries, n);
    seq(|parts|, i requires 0 <= i < |parts| => Response(i, |parts|, parts[i]))
  }

  lemma SplitFirst<T>(entries: seq<T>, n: nat, at: nat, stop: nat)
    requires n > 0 && at < |entries| && stop == if at + n <= |entries| then at + n else |entries|
    ensures Split(entries[at..], n) == [entries[at..stop]] + Split(entries[stop..], n)
  {
    if |entries| - at > n {
      assert entries[at..][..n] == entries[at..stop] && entries[at..][n..] == entries[stop..];
    } else {
      assert entries[at..] == entries[at..stop] && entries[stop..] == [];
    }
  }

  method CutChunks<T>(entries: seq<T>, n: nat) returns (chunks: seq<seq<T>>)
    requires n > 0
    ensures chunks == ChunksToServe(entries, n)
  {
    chunks := [];
    var at := 0;
    while at < |entries|
      invariant at <= |entries|
      invariant chunks + Split(entries[at..], n) == Split(entries, n)
    {
      var stop := if at + n <= |entries| then at + n else |entries|;
      SplitFirst(entries, n, at, stop);
      ConcatAssoc(chunks, [entries[at..stop]], Split(entries[stop..], n));
      chunks := chunks + [entries[at..stop]];
      at := stop;
    }
    assert entries[at..] == [] && chunks + [] == chunks;
    if chunks == [] { chunks := [[]]; }
  }

  method Serve<T>(entries: seq<T>, n: nat) returns (sent: seq<Response<T>>)
    requires n > 0
    ensures sent == Responses(entries, n)
  {
    var chunks := CutChunks(entries, n);
    sent := [];
    for i := 0 to |chunks|
      invariant |sent| == i
      invariant forall k | 0 <= k < i :: sent[k] == Response(k, |chunks|, chunks[k])
    {
      sent := sent + [Response(i, |chunks|, chunks[i])];
    }
  }

  // ---- the requester ----

  // result: the completed fetch; total: the last announced chunk count.
  datatype Fetch<T> = Fetch(chunks: map<int, seq<T>>, total: int, result: Option<seq<T>>)

  function Joined<T>(chunks: map<int, seq<T>>, k: nat): (all: seq<T>)
    requires forall i | 0 <= i < k :: i in chunks
  {
    if k == 0 then [] else Joined(chunks, k - 1) + chunks[k - 1]
  }

  // Once as many chunks as announced are held the fetch completes; if one of the
  // announced indices is missing then, joining raises and nothing completes.
  function Responded<T>(f: Fetch<T>, r: Response<T>): Fetch<T> {
    var chunks := f.chunks[r.index := r.data];
    if |chunks| >= r.total && f.result.None? && forall i | 0 <= i < r.total :: i in chunks
    then Fetch(chunks, r.total, Some(Joined(chunks, if r.total > 0 then r.total else 0)))
    else Fetch(chunks, r.total, f.result)
  }

  class PendingFetch<T> {
    var chunks: map<int, seq<T>>
    var total: int
    var result: Option<seq<T>>

    constructor ()
      ensures State() == Fetch(map[], 0, None)
    {
      chunks, total, result := map[], 0, None;
    }

    function State(): Fetch<T>
      reads this
    {
      Fetch(chunks, total, result)
    }

    method OnResponse(r: Response<T>)
      modifies this
      ensures State() == Responded(old(State()), r)
    {
      chunks := chunks[r.index := r.data];
      total := r.total;
      if |chunks| >= total && result.None? {
        var ordered: seq<T> := [];
        var i := 0;
        while i < total
          invariant 0 <= i && (total > 0 ==> i <= total) && (total <= 0 ==> i == 0)
          invariant forall k | 0 <= k < i :: k in chunks
          invariant ordered == Joined(chunks, i)
        {
          if i !in chunks { return; }
          ordered := ordered + chunks[i];
          i := i + 1;
        }
        result := Some(ordered);
      }
    }
  }

  function Fold<T>(f: Fetch<T>, rs: seq<Response<T>>): Fetch<T>
    decreases |rs|
  {
    if rs == [] then f else Fold(Responded(f, rs[0]), rs[1..])
  }

  // The responses that reach the requester: any of those served, in any order,
  // any number of times.
  function Arriving<T>(served: seq<Response<T>>, order: seq<nat>): (rs: seq<Response<T>>)
    requires forall i | i in order :: i < |served|
  {
    seq(|order|, k requires 0 <= k < |order| => assert order[k] in order; served[order[k]])
  }

  // Held chunks are served ones, and the fetch is complete exactly when all are held.
  ghost predicate Honest<T>(parts: seq<seq<T>>, f: Fetch<T>) {
    && f.chunks.Keys <= Range(|parts|)
    && (forall i | i in f.chunks :: f.chunks[i] == parts[i])
    && f.result == if f.chunks.Keys == Range(|parts|) then Some(Concat(parts)) else None
  }

  lemma {:induction false} JoinedIsConcat<T>(chunks: map<int, seq<T>>, parts: seq<seq<T>>, k: nat)
    requires k <= |parts| && forall i | 0 <= i < k :: i in chunks && chunks[i] == parts[i]
    ensures Joined(chunks, k) == Concat(parts[..k])
  {
    if k > 0 {
      JoinedIsConcat(chunks, parts, k - 1);
      ConcatSnoc(parts[..k - 1], parts[k - 1]);
      assert parts[..k] == parts[..k - 1] + [parts[k - 1]];
    }
  }

  lemma RespondedHonestly<T>(parts: seq<seq<T>>, f: Fetch<T>, i: nat)
    requires parts != [] && i < |parts| && Honest(parts, f)
    ensures Honest(parts, Responded(f, Response(i, |parts|, parts[i])))
    ensures Responded(f, Response(i, |parts|, parts[i])).chunks.Keys == f.chunks.Keys + {i}
  {
    var chunks := f.chunks[i := parts[i]];
    assert chunks.Keys == f.chunks.Keys + {i};
    HeldEnough(chunks, |parts|);
    if chunks.Keys == Range(|parts|) {
      JoinedIsConcat(chunks, parts, |parts|);
      assert parts[..|parts|] == parts;
    }
    if f.chunks.Keys == Range(|parts|) {
      assert chunks.Keys == Range(|parts|);
    }
  }

  lemma HeldEnough<T>(chunks: map<int, T>, n: nat)
    requires chunks.Keys <= Range(n)
    ensures |chunks| >= n <==> chunks.Keys == Range(n)
    ensures chunks.Keys == Range(n) <==> forall i | 0 <= i < n :: i in chunks
  {
    SubsetSize(chunks.Keys, Range(n));
  }

  lemma {:induction false} FoldHonestly<T>(parts: seq<seq<T>>, served: seq<Response<T>>, order: seq<nat>, f: Fetch<T>)
    requires parts != [] && |served| == |parts| && Honest(parts, f)
    requires forall i: nat | i < |parts| :: served[i] == Response(i, |parts|, parts[i])
    requires forall i | i in order :: i < |served|
    ensures var g := Fold(f, Arriving(served, order));
            Honest(parts, g) && forall i :: i in g.chunks <==> i in f.chunks || i in order
    decreases |order|
  {
    if order != [] {
      assert order[0] in order && forall i | i in order[1..] :: i in order;
      RespondedHonestly(parts, f, order[0]);
      assert Arriving(served, order)[1..] == Arriving(served, order[1..]);
      FoldHonestly(parts, served, order[1..], Responded(f, served[order[0]]));
      assert forall i :: i in order <==> i == order[0] || i in order[1..];
    }
  }

  // A fetch from an honest server completes exactly when every chunk has arrived
  // at least once, and then with exactly what was served.
  lemma ReassembledExactly<T>(entries: seq<T>, n: nat, order: seq<nat>)
    requires n > 0 && forall i | i in order :: i < |Responses(entries, n)|
    ensures var g := Fold(Fetch(map[], 0, None), Arriving(Responses(entries, n), order));
            && (g.result.Some? <==> forall i: nat | i < |Responses(entries, n)| :: i in order)
            && (g.result.Some? ==> g.result.value == entries)
  {
    var parts := ChunksToServe(entries, n);
    var f: Fetch<T> := Fetch(map[], 0, None);
    assert 0 in Range(|parts|);
    FoldHonestly(parts, Responses(entries, n), order, f);
    var g := Fold(f, Arriving(Responses(entries, n), order));
    if forall i: nat | i < |parts| :: i in order {
      assert g.chunks.Keys == Range(|parts|);
    } else {
      var i: nat :| i < |parts| && i !in order;
      assert i in Range(|parts|) && i !in g.chunks.Keys;
    }
  }

  // An audit of the owner's own chain always passes once its chunks are in ...
  lemma FetchedChainVerifies(pk: PubKey, built: seq<ChainEntry>, order: seq<nat>)
    requires Built(pk, built)
    requires forall i | i in order :: i < |Responses(built, CHAIN_ENTRIES_PER_CHUNK)|
    requires forall i: nat | i < |Responses(built, CHAIN_ENTRIES_PER_CHUNK)| :: i in order
    ensures var g := Fold(Fetch(map[], 0, None), Arriving(Responses(built, CHAIN_ENTRIES_PER_CHUNK), order));
            g.result == Some(built) && ValidChain(g.result.value, Some(HashOf(pk)))
  {
    ReassembledExactly(built, CHAIN_ENTRIES_PER_CHUNK, order);
    OwnPrefixVerifies(pk, built, |built|);
    assert built[..|built|] == built;
  }

  // Everything held, and the joined result, passes the test.
  ghost predicate AllPass<T>(f: Fetch<T>, ok: T -> bool) {
    && (forall i, x | i in f.chunks && x in f.chunks[i] :: ok(x))
    && (f.result.Some? ==> forall x | x in f.result.value :: ok(x))
  }

  lemma {:induction false} JoinedPasses<T>(chunks: map<int, seq<T>>, k: nat, ok: T -> bool)
    requires forall i | 0 <= i < k :: i in chunks
    requires forall i, x | i in chunks && x in chunks[i] :: ok(x)
    ensures forall x | x in Joined(chunks, k) :: ok(x)
  {
    if k > 0 { JoinedPasses(chunks, k - 1, ok); }
  }

  // A fetch holds nothing but what came in the responses.
  lemma {:induction false} FoldPasses<T>(f: Fetch<T>, rs: seq<Response<T>>, ok: T -> bool)
    requires AllPass(f, ok) && forall r, x | r in rs && x in r.data :: ok(x)
    ensures AllPass(Fold(f, rs), ok)
    decreases |rs|
  {
    if rs != [] {
      var r := rs[0];
      var chunks := f.chunks[r.index := r.data];
      assert r in rs;
      if forall i | 0 <= i < r.total :: i in chunks {
        JoinedPasses(chunks, if r.total > 0 then r.total else 0, ok);
      }
      FoldPasses(Responded(f, r), rs[1..], ok);
    }
  }

  // ... and whatever responses arrive, from whomever, in whatever order: as long as
  // no signature in them is forged, only a prefix of what the owner built can pass.
  lemma FetchedChainIsAPrefix(pk: PubKey, built: seq<ChainEntry>, rs: seq<Response<ChainEntry>>)
    requires Built(pk, built) && forall r | r in rs :: Unforged(pk, [built], r.data)
    ensures var g := Fold(Fetch(map[], 0, None), rs);
            g.result.Some? && ValidChain(g.result.value, Some(HashOf(pk))) ==> g.result.value <= built
  {
    var f: Fetch<ChainEntry> := Fetch(map[], 0, None);
    var ok := (e: ChainEntry) => Unforged(pk, [built], [e]);
    forall r, e | r in rs && e in r.data ensures ok(e) {
      assert Unforged(pk, [built], r.data);
    }
    FoldPasses(f, rs, ok);
    var g := Fold(f, rs);
    if g.result.Some? {
      forall e, d | e in g.result.value && e.signature == ChainSig(pk, d)
        ensures exists b | b in built :: b.entryHash == d {
        assert ok(e) && e in [e];
      }
      assert built in [built];
      assert Unforged(pk, [built], g.result.value);
      AcceptedExactlyPrefixes(pk, built, g.result.value);
    }
  }
}
