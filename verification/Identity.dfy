/** Signed envelopes with ideal cryptography, the FIFO replay guard, and how far
    apart two acceptances of one nonce must be. */
module Identity {
  import opened Seqs

  type PubKey = nat
  type Nonce = nat
  type Addr = nat

  // Collision-free hashing: an id is the hash of one key, or of none.
  datatype NodeId = HashOf(pk: PubKey) | Keyless(tag: nat)

  datatype Payload = Items(items: seq<nat>) | Single(value: nat)

  datatype Advert = Advert(
    nodeId: NodeId, host: nat, gossipPort: nat, task: string, spaceFp: string, ts: real)

  datatype Body =
    | App(kind: string, payload: Payload)
    | Relay(target: NodeId, blob: Blob)
    | Relayed(origin: NodeId, blob: Blob)
    | BeaconAdvert(advert: Advert)
    | Unreadable(tag: nat)

  // Bytes off the wire: an envelope, or nothing that parses as one.
  datatype Blob = Env(env: Envelope) | Junk(tag: nat)

  datatype Signable = Signable(pk: PubKey, sender: NodeId, ts: real, nonce: Nonce, body: Body)

  // An ideal signature says which key signed what.
  datatype Signature = SignedBy(signer: PubKey, content: Signable) | Noise(tag: nat)

  datatype Envelope = Envelope(pk: PubKey, sender: NodeId, ts: real, nonce: Nonce, sig: Signature, body: Body)

  function SignableOf(env: Envelope): Signable {
    Signable(env.pk, env.sender, env.ts, env.nonce, env.body)
  }

  function SignEnvelope(pk: PubKey, ts: real, nonce: Nonce, body: Body): Envelope {
    var content := Signable(pk, HashOf(pk), ts, nonce, body);
    Envelope(pk, HashOf(pk), ts, nonce, SignedBy(pk, content), body)
  }

  // ---- verification ----

  datatype Reason = MalformedEnvelope | Impersonation | BadSignature | ClockSkew | Replayed

  datatype VerifyResult = Rejected(reason: Reason) | Verified(sender: NodeId, body: Body)

  // Sender bound to the key, and the key signed exactly this content.
  predicate Authentic(env: Envelope) {
    env.sender == HashOf(env.pk) && env.sig == SignedBy(env.pk, SignableOf(env))
  }

  predicate InSkew(env: Envelope, skew: real, now: Option<real>) {
    now.Some? ==> -skew <= now.value - env.ts <= skew
  }

  predicate Acceptable(seen: seq<Nonce>, data: Blob, skew: real, now: Option<real>) {
    data.Env? && Authentic(data.env) && InSkew(data.env, skew, now) && data.env.nonce !in seen
  }

  // The seen-nonce set, oldest first, after recording one more.
  function Recorded(seen: seq<Nonce>, capacity: nat, nonce: Nonce): seq<Nonce> {
    if nonce in seen then seen
    else if |seen| + 1 > capacity then (seen + [nonce])[1..]
    else seen + [nonce]
  }

  function SeenAfter(seen: seq<Nonce>, capacity: nat, data: Blob, skew: real, now: Option<real>): seq<Nonce> {
    if Acceptable(seen, data, skew, now) then Recorded(seen, capacity, data.env.nonce) else seen
  }

  class ReplayGuard {
    const capacity: nat
    var seen: seq<Nonce>

    constructor (capacity: nat)
      ensures this.capacity == capacity && seen == []
    {
      this.capacity := capacity;
      seen := [];
    }

    predicate SeenBefore(nonce: Nonce)
      reads this
    {
      nonce in seen
    }

    method Record(nonce: Nonce)
      modifies this
      ensures seen == Recorded(old(seen), capacity, nonce)
    {
      if nonce in seen { return; }
      seen := seen + [nonce];
      if |seen| > capacity {
        seen := seen[1..];
      }
    }
  }

  // Id binding, then signature, then freshness, then replay; only a fully
  // verified envelope is recorded.
  method VerifyEnvelope(data: Blob, guard: ReplayGuard, maxClockSkew: real,
                        now: Option<real>) returns (res: VerifyResult)
    modifies guard
    ensures res.Verified? <==> Acceptable(old(guard.seen), data, maxClockSkew, now)
    ensures res.Verified? ==> res == Verified(data.env.sender, data.env.body)
    ensures guard.seen == SeenAfter(old(guard.seen), guard.capacity, data, maxClockSkew, now)
    ensures res == Rejected(Replayed) <==>
            data.Env? && Authentic(data.env) && InSkew(data.env, maxClockSkew, now) && data.env.nonce in old(guard.seen)
  {
    if data.Junk? { return Rejected(MalformedEnvelope); }
    var env := data.env;
    if HashOf(env.pk) != env.sender { return Rejected(Impersonation); }
    if env.sig != SignedBy(env.pk, SignableOf(env)) { return Rejected(BadSignature); }
    if now.Some? && (now.value - env.ts > maxClockSkew || env.ts - now.value > maxClockSkew) {
      return Rejected(ClockSkew);
    }
    if guard.SeenBefore(env.nonce) { return Rejected(Replayed); }
    guard.Record(env.nonce);
    return Verified(env.sender, env.body);
  }

  // Verification accepts what an identity signs, once.
  lemma SignedIsAuthentic(pk: PubKey, ts: real, nonce: Nonce, body: Body, seen: seq<Nonce>, skew: real, now: real)
    requires -skew <= now - ts <= skew && nonce !in seen
    ensures Acceptable(seen, Env(SignEnvelope(pk, ts, nonce, body)), skew, Some(now))
  {
  }

  // ---- the log of acceptances ----

  // handed: the envelope's message went to the application handler.
  datatype Acceptance = Acceptance(env: Envelope, at: Option<real>, handed: bool)

  function Nonces(log: seq<Acceptance>): (ns: seq<Nonce>)
    ensures |ns| == |log|
    ensures forall i | 0 <= i < |log| :: ns[i] == log[i].env.nonce
  {
    seq(|log|, i requires 0 <= i < |log| => log[i].env.nonce)
  }

  // The guard holds exactly the nonces of the last `capacity` acceptances.
  ghost predicate Tracks(seen: seq<Nonce>, capacity: nat, log: seq<Acceptance>) {
    seen == LastN(capacity, Nonces(log))
  }

  // Acceptances of one nonce have at least `capacity` other recordings between.
  ghost predicate Separated(capacity: nat, log: seq<Acceptance>) {
    forall i, j | 0 <= i < j < |log| && log[i].env.nonce == log[j].env.nonce :: j - i - 1 >= capacity
  }

  // Each logged envelope was authentic and on time when accepted.
  ghost predicate Checked(skew: real, log: seq<Acceptance>) {
    forall i | 0 <= i < |log| :: Authentic(log[i].env) && InSkew(log[i].env, skew, log[i].at)
  }

  ghost predicate GuardInvariant(seen: seq<Nonce>, capacity: nat, skew: real, log: seq<Acceptance>) {
    Tracks(seen, capacity, log) && Separated(capacity, log) && Checked(skew, log)
  }

  // A valid envelope is accepted exactly when its nonce is not among the last
  // `capacity` recordings; so a replay gets through once that many came between.
  lemma AcceptedExactlyWhen(seen: seq<Nonce>, capacity: nat, log: seq<Acceptance>, env: Envelope, skew: real,
                            now: Option<real>)
    requires Tracks(seen, capacity, log) && Authentic(env) && InSkew(env, skew, now)
    ensures Acceptable(seen, Env(env), skew, now)
       <==> forall i | 0 <= i < |log| && log[i].env.nonce == env.nonce :: |log| - i - 1 >= capacity
  {
    SeenIsRecent(seen, capacity, log, env.nonce);
  }

  // n envelopes of somebody else, accepted at 1.
  function OthersAccepted(n: nat, body: Body): (log: seq<Acceptance>)
    ensures |log| == n
    ensures forall i | 0 <= i < n :: log[i] == Acceptance(SignEnvelope(2, 1.0, 8 + i, body), Some(1.0), true)
  {
    seq(n, i requires 0 <= i < n => Acceptance(SignEnvelope(2, 1.0, 8 + i, body), Some(1.0), true))
  }

  // Whatever the size of the window: an envelope accepted at 0, as many others at 1 as
  // the window holds, and the first is accepted again at 2, still inside a skew of 5.
  lemma CapturedEnvelopeReturns(capacity: nat, body: Body)
    returns (env: Envelope, seen: seq<Nonce>, log: seq<Acceptance>)
    ensures GuardInvariant(seen, capacity, 5.0, log) && |log| == capacity + 1
    ensures log[0] == Acceptance(env, Some(0.0), true) && Authentic(env) && InSkew(env, 5.0, Some(2.0))
    ensures Acceptable(seen, Env(env), 5.0, Some(2.0))
  {
    env := SignEnvelope(1, 0.0, 7, body);
    var others := OthersAccepted(capacity, body);
    log := [Acceptance(env, Some(0.0), true)] + others;
    seen := LastN(capacity, Nonces(log));
    forall i | 0 <= i < |log|
      ensures log[i].env.nonce == 7 + i && Authentic(log[i].env) && InSkew(log[i].env, 5.0, log[i].at)
    {
      if i > 0 { assert log[i] == others[i - 1]; }
    }
    forall k | 0 <= k < |seen| ensures seen[k] != 7 {
      assert seen[k] == log[k + 1].env.nonce;
    }
  }

  lemma SeenIsRecent(seen: seq<Nonce>, capacity: nat, log: seq<Acceptance>, nonce: Nonce)
    requires Tracks(seen, capacity, log)
    ensures nonce in seen <==> exists i | 0 <= i < |log| :: log[i].env.nonce == nonce && |log| - i <= capacity
  {
    var off := |log| - |seen|;
    assert forall k | 0 <= k < |seen| :: seen[k] == log[off + k].env.nonce;
    if nonce in seen {
      var k :| 0 <= k < |seen| && seen[k] == nonce;
      assert log[off + k].env.nonce == nonce;
    }
    if i :| 0 <= i < |log| && log[i].env.nonce == nonce && |log| - i <= capacity {
      assert seen[i - off] == nonce;
    }
  }

  lemma AcceptKeepsGuard(seen: seq<Nonce>, capacity: nat, skew: real, log: seq<Acceptance>, data: Blob,
                         now: Option<real>, handed: bool)
    requires GuardInvariant(seen, capacity, skew, log)
    requires Acceptable(seen, data, skew, now)
    ensures GuardInvariant(SeenAfter(seen, capacity, data, skew, now), capacity, skew,
                           log + [Acceptance(data.env, now, handed)])
  {
    var log' := log + [Acceptance(data.env, now, handed)];
    AcceptedExactlyWhen(seen, capacity, log, data.env, skew, now);
    assert Nonces(log') == Nonces(log) + [data.env.nonce];
  }

  // Fewer than capacity + 2 recordings fall in any window of 2 * skew.
  ghost predicate RateBounded(capacity: nat, skew: real, log: seq<Acceptance>) {
    forall i, j | 0 <= i < j < |log| && log[i].at.Some? && log[j].at.Some?
                  && -2.0 * skew <= log[j].at.value - log[i].at.value <= 2.0 * skew :: j - i <= capacity
  }

  // At that rate no envelope is ever accepted twice.
  lemma AcceptedAtMostOnce(capacity: nat, skew: real, log: seq<Acceptance>, i: nat, j: nat)
    requires Separated(capacity, log) && Checked(skew, log) && RateBounded(capacity, skew, log)
    requires i < |log| && j < |log| && log[i].env == log[j].env
    requires log[i].at.Some? && log[j].at.Some?
    ensures i == j
  {
    assert InSkew(log[i].env, skew, log[i].at) && InSkew(log[j].env, skew, log[j].at);
  }
}
