/**
  The incident recorder: deduplication keys, sealed receipts, and recording at most once
  (internal/incidentbench/recorder.go).

  The synthetic key pair, the JSON payloads and the policy identifiers come in through a Setup.
 */
module BenchRecorder {
  import opened Wrappers
  import opened IncidentBench
  import Framing
  import Bundles = IncidentBundle
  import Story = Episode

  const PERSIST_AFTER := 4

  /** What a record says of an incident, apart from its key, ticks and bundle. The delivery ID is not kept. */
  datatype Facts = Facts(trajectoryId: string, env: Environment, result: BoundaryResult)

  datatype IncidentRecord = IncidentRecord(
    key: string, facts: Facts, persistedTick: nat, manifest: Bundles.Manifest, events: seq<Story.Event>)

  datatype Setup = Setup(
    codec: Bundles.Codec, signer: Bundles.SigningKey, verifier: Bundles.VerifyingKey, sha: string -> string,
    payload: (Facts, nat) -> string, policyHash: Epoch -> string, policyId: Epoch -> string)

  /** The verifier accepts what the signer signs, signing does not fail, and no hash is empty. */
  ghost predicate Sound(s: Setup) {
    && Bundles.Belongs(s.verifier, s.signer) && Bundles.Ed25519Label(s.signer.algorithm)
    && (forall p :: s.signer.sign(p).Some?)
    && (forall e :: s.policyHash(e) != "")
    && (forall text :: s.sha(text) != "")
  }

  const OBSERVER_SOURCE := "synthetic-fixture-observer"
  const BOUNDARY_SOURCE := "synthetic-action-boundary"
  const BUNDLE_UNIX_BASE := 1_704_067_200

  // ----- deduplication keys -----

  function IncidentParts(trajectoryId: string, e: Effect): seq<string> {
    [trajectoryId, e.id, KindText(e.kind), e.target, e.tenant]
  }

  function IncidentText(trajectoryId: string, e: Effect): string {
    Framing.Join('\0', IncidentParts(trajectoryId, e))
  }

  function KeyParts(tr: Trajectory): seq<string> {
    IncidentParts(tr.id, tr.effect)
  }

  function KeyText(tr: Trajectory): string {
    IncidentText(tr.id, tr.effect)
  }

  function DedupKey(sha: string -> string, tr: Trajectory): string {
    sha(KeyText(tr))
  }

  /** Equal keys mean the same trajectory ID and the same effect, unless the hash collides on the two texts. */
  lemma DedupKeyIdentifies(sha: string -> string, a: Trajectory, b: Trajectory)
    requires ValidTrajectory(a) && ValidTrajectory(b) && NulFree(a) && NulFree(b) && DedupKey(sha, a) == DedupKey(sha, b)
    ensures (a.id == b.id && a.effect == b.effect) || Bundles.Collision(sha, KeyText(a), KeyText(b))
  {
    if KeyText(a) == KeyText(b) {
      KeyPartsFreeOfNul(a);
      KeyPartsFreeOfNul(b);
      Framing.JoinInjective('\0', KeyParts(a), KeyParts(b));
      var x, y := KeyParts(a), KeyParts(b);
      assert x[0] == y[0] && x[1] == y[1] && x[2] == y[2] && x[3] == y[3] && x[4] == y[4];
      KindTextInjective(a.effect.kind, b.effect.kind);
    }
  }

  lemma KeyPartsFreeOfNul(tr: Trajectory)
    requires NulFree(tr)
    ensures Framing.FreeOf('\0', KeyParts(tr))
  {
    var p := Parts(tr);
    assert p[0] == KindText(tr.effect.kind) && p[1] == tr.effect.target && p[2] == tr.effect.tenant;
  }

  // ----- receipts -----

  function FactsOf(tr: Trajectory, r: BoundaryResult): Facts {
    Facts(tr.id, tr.env, r.(deliveryId := ""))
  }

  function Stage(i: nat): Story.Kind
    requires i < 4
  {
    Story.REQUIRED[i]
  }

  /** The i-th event's content, before Append frames it. */
  function Built(s: Setup, facts: Facts, absent: bool, i: nat): Story.Event
    requires i < 4
  {
    var confirmation :=
      if i < 3 then Story.Absent else if absent then Story.Confirmed else Story.Unconfirmed;
    var source := if i < 3 then BOUNDARY_SOURCE else OBSERVER_SOURCE;
    Story.Event(0, "", Stage(i), 0, confirmation, None, Some(s.payload(facts, i)), "", source, "")
  }

  /** Four stages in order, each carrying its payload; the effect is confirmed when the observer saw none. */
  ghost predicate TellsEpisode(s: Setup, facts: Facts, absent: bool, events: seq<Story.Event>, n: nat)
    requires n <= 4
  {
    && |events| == n
    && forall i :: 0 <= i < n ==>
         var b := Built(s, facts, absent, i);
         events[i].kind == b.kind && events[i].confirmation == b.confirmation && events[i].supersedes.None?
         && events[i].payload == b.payload && events[i].content == b.content
  }

  lemma FourStagesAreAnEpisode(s: Setup, facts: Facts, absent: bool, events: seq<Story.Event>)
    requires TellsEpisode(s, facts, absent, events, 4)
    ensures Story.GoodEpisode(events)
  {
    assert Story.Stages(events, 0) == [];
    assert Story.Stages(events, 1) == [0];
    assert Story.Stages(events, 2) == [0, 1];
    assert Story.Stages(events, 3) == [0, 1, 2];
    assert Story.Stages(events, 4) == [0, 1, 2, 3];
  }

  /** buildBundle: whatever the facts, the sealed bundle verifies under the synthetic key. */
  method BuildBundle(s: Setup, key: string, facts: Facts, absent: bool) returns (m: Bundles.Manifest, events: seq<Story.Event>)
    requires Sound(s)
    ensures TellsEpisode(s, facts, absent, events, 4)
    ensures m.bundleId == "incident-" + key
    ensures m.policyHash == s.policyHash(facts.result.epoch) && m.policyId == s.policyId(facts.result.epoch)
    ensures Bundles.Verified(s.codec, m, events, Some(s.verifier))
  {
    var ts := BUNDLE_UNIX_BASE + facts.result.boundaryTick;
    var b := new Bundles.Bundle(s.codec, "incident-" + key, s.policyHash(facts.result.epoch), ts);
    b.manifest := b.manifest.(policyId := s.policyId(facts.result.epoch));
    for i := 0 to 4
      invariant b.Valid() && b.c == s.codec && fresh(b)
      invariant TellsEpisode(s, facts, absent, b.events, i)
      invariant b.manifest.bundleId == "incident-" + key
      invariant b.manifest.policyHash == s.policyHash(facts.result.epoch)
      invariant b.manifest.policyId == s.policyId(facts.result.epoch)
    {
      var ok := b.Append(Stage(i), ts + i, Built(s, facts, absent, i));
      assert ok;
    }
    ghost var unsealed := b.manifest;
    var sealed := b.Seal(s.signer);
    assert sealed;
    FourStagesAreAnEpisode(s, facts, absent, b.events);
    Bundles.SealedBundleVerifies(s.codec, unsealed, b.events, s.signer, s.verifier);
    return b.manifest, b.events;
  }

  /** A receipt that stands on its own: an uncommitted denial for authority with a verified bundle telling just that. */
  ghost predicate Complete(s: Setup, rec: IncidentRecord) {
    && rec.facts.trajectoryId != "" && rec.key != ""
    && rec.facts.result.decision.DenyOutOfAuthority? && !rec.facts.result.committed
    && rec.persistedTick == rec.facts.result.boundaryTick + 4 && rec.facts.result.boundaryTick != 0
    && !rec.facts.result.telemetry.UnknownTelemetry? && rec.facts.env.principal != ""
    && rec.manifest.bundleId == "incident-" + rec.key
    && rec.manifest.policyHash == s.policyHash(rec.facts.result.epoch)
    && rec.manifest.policyId == s.policyId(rec.facts.result.epoch)
    && |rec.events| == 4
    && (forall i :: 0 <= i < 4 ==> rec.events[i].kind == Stage(i) && rec.events[i].payload == Some(s.payload(rec.facts, i)))
    && rec.events[3].confirmation.Confirmed? && rec.events[3].content == "synthetic-fixture-observer"
    && Bundles.Verified(s.codec, rec.manifest, rec.events, Some(s.verifier))
  }

  /** ReceiptComplete, with JSON equality of payload members as equality of payloads. */
  method ReceiptComplete(s: Setup, rec: IncidentRecord) returns (ok: bool)
    ensures ok <==> Complete(s, rec)
  {
    var r := rec.facts.result;
    if rec.facts.trajectoryId == "" || rec.key == "" || !r.decision.DenyOutOfAuthority? || r.committed
       || rec.persistedTick != r.boundaryTick + PERSIST_AFTER || r.boundaryTick == 0
       || r.telemetry.UnknownTelemetry? || rec.facts.env.principal == ""
       || |rec.events| != 4 || rec.manifest.bundleId != "incident-" + rec.key
       || rec.manifest.policyId != s.policyId(r.epoch) || rec.manifest.policyHash != s.policyHash(r.epoch) {
      return false;
    }
    for i := 0 to 4
      invariant forall j :: 0 <= j < i ==> rec.events[j].kind == Stage(j) && rec.events[j].payload == Some(s.payload(rec.facts, j))
    {
      if rec.events[i].kind != Stage(i) || rec.events[i].payload != Some(s.payload(rec.facts, i)) {
        return false;
      }
    }
    if !rec.events[3].confirmation.Confirmed? || rec.events[3].content != OBSERVER_SOURCE {
      return false;
    }
    ok := Bundles.VerifyEvents(s.codec, rec.manifest, rec.events, Some(s.verifier));
  }

  // ----- recording -----

  predicate ResultMatches(tr: Trajectory, r: BoundaryResult) {
    r.trajectoryId == tr.id && r.effect == tr.effect && r.epoch == tr.epoch && r.telemetry == tr.telemetry
    && r.authority == tr.authority
  }

  /** What a new record still needs once the result matches a valid trajectory and denies for authority. */
  predicate Completable(tr: Trajectory, r: BoundaryResult, absent: bool) {
    tr.env.principal != "" && r.boundaryTick != 0 && !r.committed && absent
  }

  /** The record under a key carries that key, the key of its own incident, and is complete. */
  ghost predicate Stored(s: Setup, byKey: map<string, IncidentRecord>, k: string)
    requires k in byKey
  {
    && byKey[k].key == k && k == s.sha(IncidentText(byKey[k].facts.trajectoryId, byKey[k].facts.result.effect))
    && Complete(s, byKey[k])
  }

  ghost predicate AllStored(s: Setup, byKey: map<string, IncidentRecord>) {
    forall k {:trigger Stored(s, byKey, k)} :: k in byKey ==> Stored(s, byKey, k)
  }

  lemma OneMoreStored(s: Setup, byKey: map<string, IncidentRecord>, k: string, rec: IncidentRecord)
    requires AllStored(s, byKey) && Stored(s, map[k := rec], k)
    ensures AllStored(s, byKey[k := rec])
  {
    var byKey' := byKey[k := rec];
    forall j | j in byKey' ensures Stored(s, byKey', j) {
      assert j != k ==> Stored(s, byKey, j);
    }
  }

  class Recorder {
    const setup: Setup
    var byKey: map<string, IncidentRecord>

    ghost predicate Valid()
      reads this
    {
      AllStored(setup, byKey)
    }

    constructor (setup: Setup)
      ensures Valid() && this.setup == setup && byKey == map[]
    {
      this.setup, byKey := setup, map[];
    }

    /**
      PutIfAbsent: one record per key. The first eligible result is built, sealed and stored; an equivalent
      one later is answered from the map; anything else is refused and changes nothing.
     */
    method PutIfAbsent(tr: Trajectory, r: BoundaryResult, absent: bool) returns (out: Result<bool, Error>)
      requires Sound(setup) && Valid()
      modifies this`byKey
      ensures Valid()
      ensures var key := DedupKey(setup.sha, tr);
        && (out.Ok? <==>
              && ValidTrajectory(tr) && ResultMatches(tr, r) && r.decision.DenyOutOfAuthority?
              && (if key in old(byKey) then old(byKey)[key].facts == FactsOf(tr, r) else Completable(tr, r, absent)))
        && (out.Ok? ==> out.value == (key !in old(byKey)))
        && (out.Ok? && out.value ==>
              key in byKey && byKey[key].facts == FactsOf(tr, r) && byKey == old(byKey)[key := byKey[key]])
        && (!(out.Ok? && out.value) ==> byKey == old(byKey))
    {
      if !ValidTrajectory(tr) {
        return Err(InvalidTrajectory);
      }
      if !ResultMatches(tr, r) {
        return Err(ResultMismatch);
      }
      if !tr.effect.consequential || !r.decision.DenyOutOfAuthority? {
        return Err(Ineligible);
      }
      var key := DedupKey(setup.sha, tr);
      var facts := FactsOf(tr, r);
      if key in byKey {
        if byKey[key].facts != facts {
          return Err(IdempotencyCollision);
        }
        return Ok(false);
      }
      var m, events := BuildBundle(setup, key, facts, absent);
      var rec := IncidentRecord(key, facts, r.boundaryTick + PERSIST_AFTER, m, events);
      var complete := ReceiptComplete(setup, rec);
      if !complete {
        return Err(IncompleteReceipt);
      }
      OneMoreStored(setup, byKey, key, rec);
      byKey := byKey[key := rec];
      return Ok(true);
    }

    /** Record: only results denied for authority are recorded. */
    method Record(tr: Trajectory, r: BoundaryResult, absent: bool) returns (out: Result<bool, Error>)
      requires Sound(setup) && Valid()
      modifies this`byKey
      ensures Valid()
      ensures var key := DedupKey(setup.sha, tr);
        && (!tr.effect.consequential || !r.decision.DenyOutOfAuthority? ==> out == Ok(false) && byKey == old(byKey))
        && (out.Ok? && tr.effect.consequential && r.decision.DenyOutOfAuthority? ==>
              && ResultMatches(tr, r)
              && (if key in old(byKey) then byKey == old(byKey) && byKey[key].facts == FactsOf(tr, r)
                  else key in byKey && byKey[key].facts == FactsOf(tr, r) && byKey == old(byKey)[key := byKey[key]]))
        && (out.Err? ==> byKey == old(byKey))
        && (tr.effect.consequential && r.decision.DenyOutOfAuthority? ==>
              (out.Ok? <==>
                && ValidTrajectory(tr) && ResultMatches(tr, r)
                && (if key in old(byKey) then old(byKey)[key].facts == FactsOf(tr, r) else Completable(tr, r, absent))))
    {
      if !tr.effect.consequential || !r.decision.DenyOutOfAuthority? {
        return Ok(false);
      }
      out := PutIfAbsent(tr, r, absent);
    }
  }
}
