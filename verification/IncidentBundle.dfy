/**
  Incident bundles: appending hash-linked events, sealing and verifying
  (internal/incidentbundle/bundle.go).

  JSON encoding, SHA-256 and Ed25519 come in through a Codec and the keys. A nil payload is None.
 */
module IncidentBundle {
  import opened Wrappers
  import opened Episode
  import opened Hex

  datatype Manifest = Manifest(
    bundleId: string, specVersion: string, createdAt: int, eventCount: nat, headHash: string,
    policyHash: string, policyId: string, keyId: string, algorithm: string, publicKey: string, signature: string)

  datatype Codec = Codec(encodeEvent: Event -> string, encodeManifest: Manifest -> string, sha: string -> string)

  /** `sign` gives the signature, or None when the backend fails; `public` is None for a key that is not Ed25519. */
  datatype SigningKey = SigningKey(
    keyId: string, algorithm: string, public: Option<seq<Byte>>, sign: string -> Option<seq<Byte>>)

  /** `algorithm` is empty for a verifier that reports none. */
  datatype VerifyingKey = VerifyingKey(
    keyId: string, algorithm: string, public: Option<seq<Byte>>, check: (string, seq<Byte>) -> bool)

  const SPEC_VERSION := "0.1"

  predicate Ed25519Label(a: string) {
    a == "ed25519" || "ed25519-" <= a
  }

  function EventHash(c: Codec, e: Event): string {
    c.sha(c.encodeEvent(e.(hash := "")))
  }

  function ManifestPayload(c: Codec, m: Manifest): string {
    c.encodeManifest(m.(signature := ""))
  }

  function HeadOf(events: seq<Event>): string {
    if events == [] then "" else events[|events| - 1].hash
  }

  // ----- what every bundle built by Append satisfies -----

  predicate PayloadBound(c: Codec, e: Event) {
    match e.payload
    case Some(p) => e.payloadHash == c.sha(p)
    case None => ValidDigest(e.payloadHash)
  }

  predicate LinkedAt(c: Codec, events: seq<Event>, i: nat)
    requires i < |events|
  {
    && events[i].seqNo == i
    && PayloadBound(c, events[i])
    && events[i].prevHash == HeadOf(events[..i])
    && events[i].hash == EventHash(c, events[i])
  }

  ghost predicate Linked(c: Codec, events: seq<Event>) {
    forall i :: 0 <= i < |events| ==> LinkedAt(c, events, i)
  }

  ghost predicate Tallied(m: Manifest, events: seq<Event>) {
    m.specVersion == SPEC_VERSION && m.eventCount == |events| && (events != [] ==> m.headHash == HeadOf(events))
  }

  /** The event Append makes of what the builder left in `built`: content is the builder's, framing is not. */
  function Framed(c: Codec, events: seq<Event>, kind: Kind, timestamp: int, built: Event): Option<Event> {
    var placed := built.(kind := kind, seqNo := |events|, prevHash := HeadOf(events), timestamp := timestamp);
    var bound :=
      match built.payload
      case Some(p) =>
        if built.payloadHash != "" && built.payloadHash != c.sha(p) then None else Some(placed.(payloadHash := c.sha(p)))
      case None => if ValidDigest(built.payloadHash) then Some(placed) else None;
    if bound.None? then None else Some(bound.value.(hash := EventHash(c, bound.value)))
  }

  lemma LinkedSnoc(c: Codec, events: seq<Event>, e: Event)
    requires Linked(c, events) && LinkedAt(c, events + [e], |events|)
    ensures Linked(c, events + [e])
  {
    var longer := events + [e];
    forall i | 0 <= i < |events| ensures LinkedAt(c, longer, i) {
      assert longer[..i] == events[..i] && LinkedAt(c, events, i);
    }
  }

  // ----- sealing and verifying -----

  predicate CanSeal(events: seq<Event>, key: SigningKey) {
    events != [] && Ed25519Label(key.algorithm)
  }

  function Stamped(m: Manifest, key: SigningKey): Manifest {
    m.(keyId := key.keyId, algorithm := key.algorithm,
       publicKey := if key.public.Some? then Encode(key.public.value) else m.publicKey, signature := "")
  }

  predicate AlgorithmAgrees(m: Manifest, key: VerifyingKey) {
    if key.algorithm != "" then m.algorithm == key.algorithm && Ed25519Label(m.algorithm)
    else m.algorithm == "ed25519"
  }

  predicate SignatureHolds(c: Codec, m: Manifest, key: VerifyingKey) {
    && m.signature != "" && m.keyId != "" && key.keyId != ""
    && AlgorithmAgrees(m, key)
    && key.keyId == m.keyId
    && key.public.Some? && key.public == Decode(m.publicKey)
    && Decode(m.signature).Some? && key.check(ManifestPayload(c, m), Decode(m.signature).value)
  }

  ghost predicate Verified(c: Codec, m: Manifest, events: seq<Event>, key: Option<VerifyingKey>) {
    && m.bundleId != "" && m.policyHash != ""
    && Tallied(m, events) && GoodEpisode(events) && Linked(c, events)
    && key.Some? && SignatureHolds(c, m, key.value)
  }

  /** The checks of Verify, in order. */
  method VerifyEvents(c: Codec, manifest: Manifest, events: seq<Event>, key: Option<VerifyingKey>) returns (ok: bool)
    ensures ok <==> Verified(c, manifest, events, key)
  {
    if manifest.specVersion != SPEC_VERSION || |events| != manifest.eventCount
       || manifest.bundleId == "" || manifest.policyHash == "" {
      return false;
    }
    var episode := CheckEpisode(events);
    if !episode {
      return false;
    }
    var prev := "";
    for i := 0 to |events|
      invariant prev == HeadOf(events[..i])
      invariant forall j :: 0 <= j < i ==> LinkedAt(c, events, j)
    {
      var ev := events[i];
      assert Linked(c, events) ==> LinkedAt(c, events, i);
      if ev.seqNo != i {
        return false;
      }
      if ev.payload.None? && !ValidDigest(ev.payloadHash) {
        return false;
      }
      if ev.prevHash != prev {
        return false;
      }
      if ev.payload.Some? && ev.payloadHash != c.sha(ev.payload.value) {
        return false;
      }
      if ev.hash != EventHash(c, ev) {
        return false;
      }
      prev := ev.hash;
      assert events[..i + 1][i] == ev;
    }
    if |events| > 0 && manifest.headHash != events[|events| - 1].hash {
      return false;
    }
    if key.None? {
      return false;
    }
    return SignatureHolds(c, manifest, key.value);
  }

  class Bundle {
    const c: Codec
    var manifest: Manifest
    var events: seq<Event>

    ghost predicate Valid()
      reads this
    {
      Tallied(manifest, events) && Linked(c, events)
    }

    constructor (c: Codec, bundleId: string, policyHash: string, createdAt: int)
      ensures Valid() && this.c == c && events == []
      ensures manifest == Manifest(bundleId, SPEC_VERSION, createdAt, 0, "", policyHash, "", "", "", "", "")
    {
      this.c := c;
      manifest, events := Manifest(bundleId, SPEC_VERSION, createdAt, 0, "", policyHash, "", "", "", "", ""), [];
    }

    method Append(kind: Kind, timestamp: int, built: Event) returns (ok: bool)
      requires Valid()
      modifies this
      ensures Valid()
      ensures ok <==> !kind.UnknownKind? && Framed(c, old(events), kind, timestamp, built).Some?
      ensures if !ok then events == old(events) && manifest == old(manifest)
        else
          && events == old(events) + [Framed(c, old(events), kind, timestamp, built).value]
          && manifest == old(manifest).(eventCount := |events|, headHash := HeadOf(events))
    {
      if kind.UnknownKind? {
        return false;
      }
      var ev := built.(kind := kind, seqNo := |events|, prevHash := HeadOf(events), timestamp := timestamp);
      if ev.payload.Some? {
        var sum := c.sha(ev.payload.value);
        if ev.payloadHash != "" && ev.payloadHash != sum {
          return false;
        }
        ev := ev.(payloadHash := sum);
      } else if ev.payloadHash == "" {
        return false;
      } else if !ValidDigest(ev.payloadHash) {
        return false;
      }
      var h := EventHash(c, ev);
      ev := ev.(hash := h);
      assert ev.(hash := "") == ev.(hash := h).(hash := "");
      assert (events + [ev])[..|events|] == events;
      LinkedSnoc(c, events, ev);
      events := events + [ev];
      manifest := manifest.(eventCount := |events|, headHash := h);
      return true;
    }

    method Seal(key: SigningKey) returns (ok: bool)
      requires Valid()
      modifies this`manifest
      ensures Valid()
      ensures ok <==>
        events != [] && Ed25519Label(key.algorithm) && key.sign(ManifestPayload(c, Stamped(old(manifest), key))).Some?
      ensures if events == [] || !Ed25519Label(key.algorithm) then manifest == old(manifest)
        else if ok then
          var stamped := Stamped(old(manifest), key);
          manifest == stamped.(signature := Encode(key.sign(ManifestPayload(c, stamped)).value))
        else manifest == Stamped(old(manifest), key)
    {
      if |events| == 0 || !Ed25519Label(key.algorithm) {
        return false;
      }
      manifest := manifest.(keyId := key.keyId);
      manifest := manifest.(algorithm := key.algorithm);
      if key.public.Some? {
        manifest := manifest.(publicKey := Encode(key.public.value));
      }
      manifest := manifest.(signature := "");
      var sig := key.sign(ManifestPayload(c, manifest));
      if sig.None? {
        return false;
      }
      assert manifest.(signature := Encode(sig.value)).(signature := "") == manifest.(signature := "");
      manifest := manifest.(signature := Encode(sig.value));
      return true;
    }

    /** Verify takes any bundle, tampered ones included. */
    method Verify(key: Option<VerifyingKey>) returns (ok: bool)
      ensures ok <==> Verified(c, manifest, events, key)
    {
      ok := VerifyEvents(c, manifest, events, key);
    }
  }

  // ----- main results -----

  /** A verifier that belongs to a signing key: same key, same label, and it accepts what that key signs. */
  ghost predicate Belongs(vk: VerifyingKey, sk: SigningKey) {
    && vk.keyId == sk.keyId != "" && sk.public.Some? && vk.public == sk.public
    && (if vk.algorithm == "" then sk.algorithm == "ed25519" else vk.algorithm == sk.algorithm)
    && (forall p :: sk.sign(p).Some? ==> sk.sign(p).value != [] && vk.check(p, sk.sign(p).value))
  }

  /**
    A bundle built by Append and sealed verifies under the signer's key exactly when it names a
    bundle and a policy and tells an acceptable episode.
   */
  lemma SealedBundleVerifies(c: Codec, m: Manifest, events: seq<Event>, sk: SigningKey, vk: VerifyingKey)
    requires Tallied(m, events) && Linked(c, events) && CanSeal(events, sk) && Belongs(vk, sk)
    requires sk.sign(ManifestPayload(c, Stamped(m, sk))).Some?
    ensures var sealed := Stamped(m, sk).(signature := Encode(sk.sign(ManifestPayload(c, Stamped(m, sk))).value));
      Verified(c, sealed, events, Some(vk)) <==> m.bundleId != "" && m.policyHash != "" && GoodEpisode(events)
  {
    var stamped := Stamped(m, sk);
    var sealed := stamped.(signature := Encode(sk.sign(ManifestPayload(c, stamped)).value));
    DecodeEncode(sk.public.value);
    DecodeEncode(sk.sign(ManifestPayload(c, stamped)).value);
    assert sealed.(signature := "") == stamped.(signature := "");
  }

  /** Two different texts with one digest. */
  predicate Collision(sha: string -> string, x: string, y: string) {
    x != y && sha(x) == sha(y)
  }

  /** An empty payload is left out when an event is encoded, as an absent one is. */
  function Canon(e: Event): Event {
    if e.payload == Some(EMPTY) then e.(payload := None) else e
  }

  const EMPTY := "{}"

  function CanonAll(events: seq<Event>): seq<Event> {
    seq(|events|, i requires 0 <= i < |events| => Canon(events[i]))
  }

  /** The hashes of an event are digests, or not there yet. */
  predicate Digested(e: Event) {
    (e.prevHash == "" || ValidDigest(e.prevHash)) && ValidDigest(e.payloadHash) && (e.hash == "" || ValidDigest(e.hash))
  }

  /** Hashes are digests, and encoding loses the distinction between absent and empty payloads and nothing else. */
  ghost predicate Faithful(c: Codec) {
    && (forall text :: ValidDigest(c.sha(text)))
    && (forall a, b :: Digested(a) && Digested(b) ==> (c.encodeEvent(a) == c.encodeEvent(b) <==> Canon(a) == Canon(b)))
  }

  lemma LinkedIsDigested(c: Codec, events: seq<Event>, i: nat)
    requires Faithful(c) && Linked(c, events) && i < |events|
    ensures Digested(events[i].(hash := ""))
  {
    assert LinkedAt(c, events, i);
    if i > 0 {
      assert LinkedAt(c, events, i - 1);
      assert HeadOf(events[..i]) == events[i - 1].hash;
    }
  }

  /**
    The head hash commits to every event: two linked lists with one head are equal but for empty
    payloads, or SHA-256 collides on a pair found here.
   */
  lemma {:induction false} HeadCommitsToEvents(c: Codec, a: seq<Event>, b: seq<Event>) returns (x: string, y: string)
    requires Faithful(c) && Linked(c, a) && Linked(c, b)
    requires a != [] && b != [] && HeadOf(a) == HeadOf(b)
    ensures CanonAll(a) == CanonAll(b) || Collision(c.sha, x, y)
    decreases |a|
  {
    var p, q := |a| - 1, |b| - 1;
    assert LinkedAt(c, a, p) && LinkedAt(c, b, q);
    x, y := c.encodeEvent(a[p].(hash := "")), c.encodeEvent(b[q].(hash := ""));
    if x == y {
      LinkedIsDigested(c, a, p);
      LinkedIsDigested(c, b, q);
      SameLastEvent(a[p], b[q]);
      assert p == q;
      if p > 0 {
        LinkedPrefix(c, a, p);
        LinkedPrefix(c, b, p);
        x, y := HeadCommitsToEvents(c, a[..p], b[..p]);
      }
      CanonSnoc(a, p);
      CanonSnoc(b, p);
    }
  }

  lemma CanonSnoc(events: seq<Event>, n: nat)
    requires |events| == n + 1
    ensures CanonAll(events) == CanonAll(events[..n]) + [Canon(events[n])]
  {
  }

  lemma SameLastEvent(a: Event, b: Event)
    requires a.hash == b.hash && Canon(a.(hash := "")) == Canon(b.(hash := ""))
    ensures Canon(a) == Canon(b) && a.seqNo == b.seqNo && a.prevHash == b.prevHash
  {
    assert Canon(a) == Canon(a.(hash := "")).(hash := a.hash);
    assert Canon(b) == Canon(b.(hash := "")).(hash := b.hash);
  }

  lemma LinkedPrefix(c: Codec, events: seq<Event>, n: nat)
    requires Linked(c, events) && n <= |events|
    ensures Linked(c, events[..n])
  {
    forall i | 0 <= i < n ensures LinkedAt(c, events[..n], i) {
      assert LinkedAt(c, events, i) && events[..n][..i] == events[..i];
    }
  }

  /** Two verified bundles under one signed manifest have the same events but for empty payloads, unless SHA-256 collides. */
  lemma ManifestPinsEvents(c: Codec, m: Manifest, a: seq<Event>, b: seq<Event>, k: Option<VerifyingKey>, l: Option<VerifyingKey>)
      returns (x: string, y: string)
    requires Faithful(c) && Verified(c, m, a, k) && Verified(c, m, b, l)
    ensures CanonAll(a) == CanonAll(b) || Collision(c.sha, x, y)
  {
    assert a != [] && b != [];
    x, y := HeadCommitsToEvents(c, a, b);
  }

  // ----- exactly when a manifest pins its events -----

  /** The two lists differ in empty payloads at most. */
  lemma AlikeAt(a: seq<Event>, b: seq<Event>, i: nat)
    requires CanonAll(a) == CanonAll(b) && i < |a|
    ensures |a| == |b| && Canon(a[i]) == Canon(b[i]) && a[i].(payload := None) == b[i].(payload := None)
  {
    assert CanonAll(a)[i] == Canon(a[i]) && CanonAll(b)[i] == Canon(b[i]);
    assert |CanonAll(a)| == |a| && |CanonAll(b)| == |b|;
    assert Canon(a[i]).(payload := None) == a[i].(payload := None);
    assert Canon(b[i]).(payload := None) == b[i].(payload := None);
  }

  lemma {:induction false} AlikeStages(a: seq<Event>, b: seq<Event>, n: nat)
    requires CanonAll(a) == CanonAll(b) && n <= |a| == |b|
    ensures Stages(a, n) == Stages(b, n)
  {
    if n > 0 {
      AlikeAt(a, b, n - 1);
      AlikeStages(a, b, n - 1);
    }
  }

  /** An acceptable episode is told by kinds, confirmations, sequence numbers and upgrades alone. */
  lemma AlikeEpisode(a: seq<Event>, b: seq<Event>)
    requires CanonAll(a) == CanonAll(b) && GoodEpisode(a)
    ensures GoodEpisode(b)
  {
    assert |CanonAll(a)| == |a| && |CanonAll(b)| == |b|;
    AlikeStages(a, b, |a|);
    forall i | 0 <= i < |a|
      ensures a[i].kind == b[i].kind && a[i].confirmation == b[i].confirmation
      ensures a[i].supersedes == b[i].supersedes && a[i].seqNo == b[i].seqNo
    {
      AlikeAt(a, b, i);
    }
  }

  lemma AlikeHash(c: Codec, a: Event, b: Event)
    requires Faithful(c) && Canon(a) == Canon(b) && a.(payload := None) == b.(payload := None) && Digested(a.(hash := ""))
    ensures EventHash(c, a) == EventHash(c, b)
  {
    assert Canon(a.(hash := "")) == Canon(a).(hash := "");
    assert Canon(b.(hash := "")) == Canon(b).(hash := "");
    assert b.(payload := None).payloadHash == a.payloadHash;
  }

  lemma AlikeLinked(c: Codec, a: seq<Event>, b: seq<Event>, i: nat)
    requires Faithful(c) && Linked(c, a) && CanonAll(a) == CanonAll(b) && i < |a| == |b| && PayloadBound(c, b[i])
    ensures LinkedAt(c, b, i)
  {
    assert LinkedAt(c, a, i);
    AlikeAt(a, b, i);
    LinkedIsDigested(c, a, i);
    AlikeHash(c, a[i], b[i]);
    if i > 0 {
      AlikeAt(a, b, i - 1);
      assert HeadOf(a[..i]) == a[i - 1].hash && HeadOf(b[..i]) == b[i - 1].hash;
    }
  }

  /** Besides a verified list, exactly the lists like it whose payloads are bound verify under its manifest. */
  lemma VerifiedAlike(c: Codec, m: Manifest, a: seq<Event>, b: seq<Event>, k: Option<VerifyingKey>)
    requires Faithful(c) && Verified(c, m, a, k) && CanonAll(a) == CanonAll(b)
    ensures Verified(c, m, b, k) <==> forall i :: 0 <= i < |b| ==> PayloadBound(c, b[i])
  {
    assert |CanonAll(a)| == |a| && |CanonAll(b)| == |b|;
    if forall i :: 0 <= i < |b| ==> PayloadBound(c, b[i]) {
      forall i | 0 <= i < |b| ensures LinkedAt(c, b, i) {
        AlikeLinked(c, a, b, i);
      }
      AlikeEpisode(a, b);
      if a != [] {
        AlikeAt(a, b, |a| - 1);
      }
    } else {
      var i :| 0 <= i < |b| && !PayloadBound(c, b[i]);
      assert !LinkedAt(c, b, i);
    }
  }

  /** The event's payload can be swapped between absent and empty under the hash it carries. */
  predicate HasTwin(c: Codec, e: Event) {
    e.payload == Some(EMPTY) || (e.payload.None? && e.payloadHash == c.sha(EMPTY))
  }

  function Twin(e: Event): Event {
    e.(payload := if e.payload.None? then Some(EMPTY) else None)
  }

  lemma TwinIsAlike(c: Codec, a: seq<Event>, i: nat)
    requires i < |a| && HasTwin(c, a[i])
    ensures CanonAll(a[i := Twin(a[i])]) == CanonAll(a) && a[i := Twin(a[i])] != a
  {
    var b := a[i := Twin(a[i])];
    assert Canon(Twin(a[i])) == Canon(a[i]);
    assert forall j :: 0 <= j < |a| && j != i ==> b[j] == a[j];
    assert b[i].payload != a[i].payload;
  }

  lemma TwinVerifies(c: Codec, m: Manifest, a: seq<Event>, k: Option<VerifyingKey>, i: nat)
    requires Faithful(c) && Verified(c, m, a, k) && i < |a| && HasTwin(c, a[i])
    ensures Verified(c, m, a[i := Twin(a[i])], k)
  {
    var b := a[i := Twin(a[i])];
    TwinIsAlike(c, a, i);
    forall j | 0 <= j < |b| ensures PayloadBound(c, b[j]) {
      assert LinkedAt(c, a, j);
    }
    VerifiedAlike(c, m, a, b, k);
  }

  lemma DifferentHasTwin(c: Codec, a: seq<Event>, b: seq<Event>)
    requires Linked(c, a) && Linked(c, b) && CanonAll(a) == CanonAll(b) && a != b
    ensures exists i :: 0 <= i < |a| && HasTwin(c, a[i])
  {
    assert |CanonAll(a)| == |a| && |CanonAll(b)| == |b|;
    var i :| 0 <= i < |a| && a[i] != b[i];
    AlikeAt(a, b, i);
    assert a[i].(payload := None).(payload := a[i].payload) == a[i];
    assert b[i].(payload := None).(payload := b[i].payload) == b[i];
    assert LinkedAt(c, a, i) && LinkedAt(c, b, i);
  }

  /**
    A verified bundle's events can be exchanged for others like them, under the same manifest, if and only
    if one of them carries the empty payload, or none and the empty payload's hash.
   */
  lemma EventsArePinnedExactlyWhen(c: Codec, m: Manifest, a: seq<Event>, k: Option<VerifyingKey>)
    requires Faithful(c) && Verified(c, m, a, k)
    ensures (exists b :: b != a && CanonAll(b) == CanonAll(a) && Verified(c, m, b, k))
       <==> (exists i :: 0 <= i < |a| && HasTwin(c, a[i]))
  {
    if i :| 0 <= i < |a| && HasTwin(c, a[i]) {
      TwinIsAlike(c, a, i);
      TwinVerifies(c, m, a, k, i);
    }
    if b :| b != a && CanonAll(b) == CanonAll(a) && Verified(c, m, b, k) {
      DifferentHasTwin(c, a, b);
    }
  }

  /** A verified bundle stays verified, under the same manifest, when its empty payloads are left out. */
  lemma EmptyPayloadsAreNotPinned(c: Codec, m: Manifest, events: seq<Event>, k: Option<VerifyingKey>)
    requires Faithful(c) && Verified(c, m, events, k)
    ensures Verified(c, m, CanonAll(events), k)
  {
    var canon := CanonAll(events);
    assert CanonAll(canon) == canon;
    forall i | 0 <= i < |canon| ensures PayloadBound(c, canon[i]) {
      assert LinkedAt(c, events, i);
    }
    VerifiedAlike(c, m, events, canon, k);
  }
}
