/**
  What Append makes of an event, what a signature covers and exactly which bundles verify, spelled out
  (internal/incidentbundle/bundle.go).
 */
module IncidentExact {
  import opened Wrappers
  import opened Episode
  import opened Hex
  import opened IncidentBundle

  // ----- appending -----

  /** The payload hash Append records: the payload's own, or the one given, which must be a digest. */
  function RecordedHash(c: Codec, built: Event): Option<string> {
    match built.payload
    case Some(p) => if built.payloadHash == "" || built.payloadHash == c.sha(p) then Some(c.sha(p)) else None
    case None => if |built.payloadHash| == 64 && Decode(built.payloadHash).Some? then Some(built.payloadHash) else None
  }

  /**
    Append takes an event exactly if its payload hash is right; the event keeps the builder's content and gets its
    kind, place, time and link from the bundle, and the hash of its own encoding.
   */
  lemma AppendsExactly(c: Codec, events: seq<Event>, kind: Kind, timestamp: int, built: Event)
    ensures var framed := Framed(c, events, kind, timestamp, built);
      && (framed.Some? <==> RecordedHash(c, built).Some?)
      && (framed.Some? ==>
            var e := framed.value;
            && e.payload == built.payload && e.content == built.content && e.confirmation == built.confirmation
            && e.supersedes == built.supersedes && e.payloadHash == RecordedHash(c, built).value
            && e.kind == kind && e.timestamp == timestamp && e.seqNo == |events|
            && e.prevHash == (if events == [] then "" else events[|events| - 1].hash)
            && e.hash == c.sha(c.encodeEvent(e.(hash := ""))))
  {
    var framed := Framed(c, events, kind, timestamp, built);
    if framed.Some? {
      assert framed.value.(hash := "").(hash := framed.value.hash) == framed.value;
      FramedHash(c, events, kind, timestamp, built);
    }
  }

  lemma FramedHash(c: Codec, events: seq<Event>, kind: Kind, timestamp: int, built: Event)
    requires Framed(c, events, kind, timestamp, built).Some?
    ensures var e := Framed(c, events, kind, timestamp, built).value; e.hash == c.sha(c.encodeEvent(e.(hash := "")))
  {
    var placed := built.(kind := kind, seqNo := |events|, prevHash := HeadOf(events), timestamp := timestamp);
    var bound := if built.payload.Some? then placed.(payloadHash := c.sha(built.payload.value)) else placed;
    var e := bound.(hash := EventHash(c, bound));
    assert e.(hash := "") == bound.(hash := "");
  }

  // ----- signatures -----

  /** A label of Ed25519 or of one of its backends. */
  predicate NamesEd25519(name: string) {
    name == "ed25519" || (|name| >= 8 && name[..8] == "ed25519-")
  }

  /** The manifest as it is signed: without its signature. */
  lemma SignatureCoversManifest(c: Codec, a: Manifest, b: Manifest)
    requires forall x, y :: c.encodeManifest(x) == c.encodeManifest(y) ==> x == y
    requires ManifestPayload(c, a) == ManifestPayload(c, b)
    ensures a == b.(signature := a.signature)
  {
    assert a == a.(signature := "").(signature := a.signature);
    assert b.(signature := a.signature) == b.(signature := "").(signature := a.signature);
  }

  /**
    The key vouches for the manifest: both name the same key, with the same label, its public half is the manifest's, and it
    accepts the manifest's signature of everything in it but the signature.
   */
  predicate Vouches(c: Codec, m: Manifest, key: VerifyingKey) {
    && m.keyId != "" && key.keyId == m.keyId
    && NamesEd25519(m.algorithm) && m.algorithm == (if key.algorithm == "" then "ed25519" else key.algorithm)
    && key.public.Some? && Decode(m.publicKey) == key.public
    && m.signature != "" && Decode(m.signature).Some?
    && key.check(c.encodeManifest(m.(signature := "")), Decode(m.signature).value)
  }

  lemma LabelSpelledOut(name: string)
    ensures Ed25519Label(name) <==> NamesEd25519(name)
  {
  }

  lemma SignatureSpelledOut(c: Codec, m: Manifest, key: VerifyingKey)
    ensures SignatureHolds(c, m, key) <==> Vouches(c, m, key)
  {
    LabelSpelledOut(m.algorithm);
  }

  // ----- verifying -----

  /** Event i is in place, linked to the one before, under its own hash, with its payload bound. */
  predicate InPlace(c: Codec, events: seq<Event>, i: nat)
    requires i < |events|
  {
    var e := events[i];
    && e.seqNo == i && e.prevHash == (if i == 0 then "" else events[i - 1].hash)
    && e.hash == c.sha(c.encodeEvent(e.(hash := "")))
    && (if e.payload.Some? then e.payloadHash == c.sha(e.payload.value)
        else |e.payloadHash| == 64 && Decode(e.payloadHash).Some?)
  }

  lemma LinkSpelledOut(c: Codec, events: seq<Event>, i: nat)
    requires i < |events|
    ensures LinkedAt(c, events, i) <==> InPlace(c, events, i)
  {
    if i > 0 {
      assert events[..i][i - 1] == events[i - 1];
    }
  }

  /**
    Verify accepts exactly the bundles whose manifest is of this version, names a bundle and a policy, counts the events and
    ends on their last hash, whose events are in place and tell an acceptable episode, and whose key vouches for the manifest.
   */
  lemma VerifiesExactlyWhen(c: Codec, m: Manifest, events: seq<Event>, key: Option<VerifyingKey>)
    ensures Verified(c, m, events, key) <==>
      && m.specVersion == "0.1" && m.bundleId != "" && m.policyHash != "" && m.eventCount == |events|
      && events != [] && m.headHash == events[|events| - 1].hash
      && (forall i :: 0 <= i < |events| ==> InPlace(c, events, i)) && GoodEpisode(events)
      && key.Some? && Vouches(c, m, key.value)
  {
    forall i | 0 <= i < |events| ensures LinkedAt(c, events, i) <==> InPlace(c, events, i) {
      LinkSpelledOut(c, events, i);
    }
    if key.Some? {
      SignatureSpelledOut(c, m, key.value);
    }
    assert GoodEpisode([]) ==> Stages([], 0) == [];
  }
}
