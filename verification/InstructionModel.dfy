/**
  Instruction objects, hops and the hop commitment
  (internal/instructionauthority/model.go).

  SHA-256 followed by hex encoding is the parameter `sha`; nothing is assumed of it. Results
  that need collision freedom name the two colliding strings instead.
 */
module InstructionModel {
  import opened Wrappers
  import Framing

  const MAX_HISTORY_HOPS := 8

  const DATA_ONLY := "DATA_ONLY"
  const USER := "USER"
  const DEVELOPER := "DEVELOPER"
  const SYSTEM := "SYSTEM"

  const TRUSTED_USER := "TRUSTED_USER"
  const TRUSTED_DEVELOPER := "TRUSTED_DEVELOPER"
  const TRUSTED_SYSTEM := "TRUSTED_SYSTEM"

  const ROLE_NONE := "NONE"

  datatype Continuity = Pass | Failed

  datatype Origin = Origin(principal: string, trustClass: string)

  datatype Derivation = Derivation(transformer: string, fromRepr: string, viaRepr: string, toRepr: string)

  datatype Promotion = Promotion(
    requestedAuthority: string, attempted: bool, authorizedPromoter: string,
    endorsementId: string, continuity: Continuity, digestFailure: bool)

  datatype Provenance = Provenance(
    origin: Origin, derivedBy: seq<Derivation>, currentRepr: string, visibleRole: string,
    authority: string, lineage: seq<string>, contentSha: string, parentContentSha: string,
    promotion: Promotion)

  /** What the caller vouches for; nothing on the object itself is trusted in its place. */
  datatype EvaluationRoot = EvaluationRoot(
    origin: Origin, instructionBearing: bool, effectClass: string, contentSha: string)

  datatype Endorsement = Endorsement(
    id: string, promoter: string, grantAuthority: string, parentContentSha: string,
    childContentSha: string, transformer: string, targetRepr: string)

  datatype TrustedPrincipal = TrustedPrincipal(name: string, ceiling: string)

  type Registry = map<string, TrustedPrincipal>

  datatype Hop = Hop(
    derivation: Derivation, content: string, contentDigest: string, parentDigest: string,
    visibleRole: string, requestedAuthority: string, endorsement: Option<Endorsement>,
    endorsementValid: bool, observedCeiling: string, parentHopDigest: string, hopDigest: string)

  datatype InstructionObject = InstructionObject(
    schemaVersion: int, content: string, instructionBearing: bool, effectClass: string,
    provenance: Provenance, history: seq<Hop>, instructionEligible: bool)

  /** Position in the authority lattice; None for a name outside it. */
  function AuthorityRank(a: string): Option<nat> {
    if a == DATA_ONLY then Some(0)
    else if a == USER then Some(1)
    else if a == DEVELOPER then Some(2)
    else if a == SYSTEM then Some(3)
    else None
  }

  /** Unknown trust classes fail closed as DATA_ONLY. */
  function CeilingForTrust(trustClass: string): string {
    if trustClass == TRUSTED_USER then USER
    else if trustClass == TRUSTED_DEVELOPER then DEVELOPER
    else if trustClass == TRUSTED_SYSTEM then SYSTEM
    else DATA_ONLY
  }

  function Digest(sha: string -> string, content: string): string {
    "sha256:" + sha(content)
  }

  /** The fields hopDigest writes, in its order; the hop digest itself is not one of them. */
  function HopFields(hop: Hop): seq<string> {
    [hop.parentDigest, hop.contentDigest, hop.content, hop.visibleRole, hop.requestedAuthority,
     hop.parentHopDigest, hop.observedCeiling, if hop.endorsementValid then "1" else "0"]
    + EndorsementFields(hop.endorsement)
    + [hop.derivation.transformer, hop.derivation.fromRepr, hop.derivation.viaRepr, hop.derivation.toRepr]
  }

  function EndorsementFields(e: Option<Endorsement>): seq<string> {
    match e
    case None => ["0"]
    case Some(e) => ["1", e.id, e.promoter, e.grantAuthority, e.parentContentSha,
                     e.childContentSha, e.transformer, e.targetRepr]
  }

  /** The bytes hopDigest hashes. */
  function EncodeHop(hop: Hop): string {
    Framing.FrameAll(Framing.Uvarint, HopFields(hop))
  }

  function HopDigest(sha: string -> string, hop: Hop): string {
    Digest(sha, EncodeHop(hop))
  }

  /** The hop encoding determines every field of the hop but the digest computed from it. */
  lemma EncodeHopInjective(a: Hop, b: Hop)
    requires EncodeHop(a) == EncodeHop(b)
    ensures a == b.(hopDigest := a.hopDigest)
  {
    var fa, fb := HopFields(a), HopFields(b);
    assert fa == fb by {
      Framing.UvarintPrefixFree();
      Framing.FrameAllInjective(Framing.Uvarint, Framing.AnyLength, fa, fb);
    }
    var n := |fa| - 4;
    assert fa[8..n] == EndorsementFields(a.endorsement) && fb[8..n] == EndorsementFields(b.endorsement);
    EndorsementFieldsInjective(a.endorsement, b.endorsement);
    assert fa[0] == fb[0] && fa[1] == fb[1] && fa[2] == fb[2] && fa[3] == fb[3];
    assert fa[4] == fb[4] && fa[5] == fb[5] && fa[6] == fb[6] && fa[7] == fb[7];
    assert "1"[0] != "0"[0];
    assert fa[n] == fb[n] && fa[n + 1] == fb[n + 1] && fa[n + 2] == fb[n + 2] && fa[n + 3] == fb[n + 3];
  }

  lemma EndorsementFieldsInjective(a: Option<Endorsement>, b: Option<Endorsement>)
    requires EndorsementFields(a) == EndorsementFields(b)
    ensures a == b
  {
    var fa, fb := EndorsementFields(a), EndorsementFields(b);
    assert |fa| == |fb|;
    if a.Some? {
      assert fa[1] == fb[1] && fa[2] == fb[2] && fa[3] == fb[3] && fa[4] == fb[4]
          && fa[5] == fb[5] && fa[6] == fb[6] && fa[7] == fb[7];
    }
  }

  /** A hop's encoding is longer than the content inside it. */
  lemma EncodeHopLongerThanContent(hop: Hop)
    ensures |EncodeHop(hop)| > |hop.content|
  {
    var f := HopFields(hop);
    assert f[2] == hop.content;
    FramedFieldShorter(f, 2);
  }

  lemma {:induction false} FramedFieldShorter(fields: seq<string>, k: nat)
    requires k < |fields|
    ensures |Framing.FrameAll(Framing.Uvarint, fields)| > |fields[k]|
  {
    if k > 0 {
      FramedFieldShorter(fields[1..], k - 1);
    }
  }
}
