/**
  What VerifyProvenance accepts and what accepted provenance records, stated hop by hop without the fold's own
  tests (internal/instructionauthority/evaluator.go).
 */
module InstructionVerified {
  import opened Wrappers
  import opened InstructionModel
  import opened InstructionAuthority
  import opened InstructionTheorems

  /** The level in force before hop i. */
  function LevelBefore(sha: string -> string, obj: InstructionObject, root: EvaluationRoot, i: nat): string
    requires i <= |obj.history| && obj.history != []
  {
    PreAuthority(sha, root.origin, obj.history[0].derivation.fromRepr, obj.history, i)
  }

  /** Hop i follows on the hop before it, or on the root, and its digests and verdict are what they should be. */
  predicate GenuineHop(sha: string -> string, obj: InstructionObject, root: EvaluationRoot, registry: Registry, i: nat)
    requires i < |obj.history|
  {
    var hop := obj.history[i];
    && hop.parentDigest == ParentSha(sha, obj, root, i)
    && hop.contentDigest == Digest(sha, hop.content)
    && hop.parentHopDigest == (if i == 0 then root.contentSha else obj.history[i - 1].hopDigest)
    && hop.hopDigest == Digest(sha, EncodeHop(hop))
    && (hop.endorsementValid <==>
          && hop.endorsement.Some?
          && Endorses(hop.endorsement.value, ParentSha(sha, obj, root, i), Digest(sha, hop.content),
                      hop.derivation.transformer, hop.derivation.toRepr, hop.requestedAuthority,
                      LevelBefore(sha, obj, root, i), registry))
  }

  ghost predicate Genuine(sha: string -> string, obj: InstructionObject, root: EvaluationRoot, registry: Registry) {
    && root.contentSha != ""
    && if obj.history == [] then
         && Digest(sha, obj.content) == root.contentSha
         && obj.provenance == Provenance(root.origin, [], obj.provenance.currentRepr, ROLE_NONE,
              StartingLevel(root.origin.trustClass), [], root.contentSha, "", Promotion("", false, "", "", Pass, false))
       else
         && |obj.history| <= 8
         && Digest(sha, obj.content) == Digest(sha, obj.history[|obj.history| - 1].content)
         && obj.provenance == Folded(sha, root.origin, obj.history[0].derivation.fromRepr, obj.history).prov
         && forall i :: 0 <= i < |obj.history| ==> GenuineHop(sha, obj, root, registry, i)
  }

  lemma GenuineHopIsLinked(sha: string -> string, obj: InstructionObject, root: EvaluationRoot, registry: Registry, i: nat)
    requires i < |obj.history| && GenuineHop(sha, obj, root, registry, i)
    requires i > 0 ==> GenuineHop(sha, obj, root, registry, i - 1)
    ensures LinkedAt(sha, obj.history, i) && VerdictAgreesAt(sha, obj.history, root.origin, registry, i)
  {
    var hop := obj.history[i];
    if hop.endorsement.Some? {
      ValidExactlyIfItEndorses(hop.endorsement.value, hop.parentDigest, LevelBefore(sha, obj, root, i), hop.contentDigest,
        hop.derivation.transformer, hop.derivation.toRepr, hop.requestedAuthority, registry);
    }
  }

  lemma AcceptedHopIsGenuine(sha: string -> string, obj: InstructionObject, root: EvaluationRoot, registry: Registry, i: nat)
    requires Accepts(sha, obj, root, registry) && i < |obj.history|
    ensures GenuineHop(sha, obj, root, registry, i)
  {
    var hop := obj.history[i];
    VerifiedIsLinked(sha, obj, root, registry, i);
    DigestFailureMeansUnlinked(sha, root.origin, obj.history[0].derivation.fromRepr, obj.history);
    assert LinkedAt(sha, obj.history, i);
    assert VerdictAgreesAt(sha, obj.history, root.origin, registry, i);
    if hop.endorsement.Some? {
      ValidExactlyIfItEndorses(hop.endorsement.value, hop.parentDigest, LevelBefore(sha, obj, root, i), hop.contentDigest,
        hop.derivation.transformer, hop.derivation.toRepr, hop.requestedAuthority, registry);
    }
  }

  /** VerifyProvenance accepts exactly the genuine objects. */
  lemma VerifiesExactlyWhenGenuine(sha: string -> string, obj: InstructionObject, root: EvaluationRoot, registry: Registry)
    ensures Accepts(sha, obj, root, registry) <==> Genuine(sha, obj, root, registry)
  {
    if obj.history != [] {
      if Accepts(sha, obj, root, registry) {
        forall i | 0 <= i < |obj.history| ensures GenuineHop(sha, obj, root, registry, i) {
          AcceptedHopIsGenuine(sha, obj, root, registry, i);
        }
      }
      if Genuine(sha, obj, root, registry) {
        GenuineIsAccepted(sha, obj, root, registry);
      }
    }
  }

  lemma GenuineIsAccepted(sha: string -> string, obj: InstructionObject, root: EvaluationRoot, registry: Registry)
    requires Genuine(sha, obj, root, registry) && obj.history != []
    ensures Accepts(sha, obj, root, registry)
  {
    forall i | 0 <= i < |obj.history|
      ensures LinkedAt(sha, obj.history, i) && VerdictAgreesAt(sha, obj.history, root.origin, registry, i)
    {
      assert GenuineHop(sha, obj, root, registry, i);
      GenuineHopIsLinked(sha, obj, root, registry, i);
    }
    GenuineEndsMatch(sha, obj, root, registry);
    DigestFailureMeansUnlinked(sha, root.origin, obj.history[0].derivation.fromRepr, obj.history);
    assert AcceptsFold(sha, obj, root, registry, Folded(sha, root.origin, obj.history[0].derivation.fromRepr, obj.history));
  }

  lemma GenuineEndsMatch(sha: string -> string, obj: InstructionObject, root: EvaluationRoot, registry: Registry)
    requires Genuine(sha, obj, root, registry) && obj.history != []
    ensures !ContentChainBroken(sha, root, obj.content, obj.history)
  {
    assert GenuineHop(sha, obj, root, registry, 0);
    assert GenuineHop(sha, obj, root, registry, |obj.history| - 1);
  }

  // ----- what the accepted provenance records -----

  /** One more hop of a verified object: what it appends and replaces. */
  lemma VerifiedHopRecords(sha: string -> string, obj: InstructionObject, root: EvaluationRoot, registry: Registry, i: nat)
    requires Accepts(sha, obj, root, registry) && i < |obj.history|
    ensures
      var repr, hop := obj.history[0].derivation.fromRepr, obj.history[i];
      var p, q := Trace(sha, root.origin, repr, obj.history, i).prov, Trace(sha, root.origin, repr, obj.history, i + 1).prov;
      && q.origin == p.origin && q.derivedBy == p.derivedBy + [hop.derivation] && q.lineage == p.lineage + [q.authority]
      && q.currentRepr == hop.derivation.toRepr && q.visibleRole == hop.visibleRole
      && q.contentSha == Digest(sha, hop.content) && q.parentContentSha == ParentSha(sha, obj, root, i)
      && q.promotion ==
         (if hop.requestedAuthority == "" then p.promotion
          else if p.promotion.continuity == Pass && Promotes(sha, obj, root, registry, i, p.authority) then
            Promotion(hop.requestedAuthority, true, hop.endorsement.value.promoter, hop.endorsement.value.id, Pass,
                      p.promotion.digestFailure)
          else Promotion(hop.requestedAuthority, true, "", "", Failed, p.promotion.digestFailure))
  {
    var repr := obj.history[0].derivation.fromRepr;
    VerdictIsExplicit(sha, obj, root, registry, i);
    VerifiedSoFar(sha, obj, root, registry, i);
    VerifiedIsLinked(sha, obj, root, registry, i);
    RunningBefore(sha, obj, root, registry, i);
    HopRecords(sha, Trace(sha, root.origin, repr, obj.history, i), obj.history[i], i == 0);
  }

  lemma {:induction false} RunningBefore(sha: string -> string, obj: InstructionObject, root: EvaluationRoot, registry: Registry, i: nat)
    requires Accepts(sha, obj, root, registry) && i < |obj.history|
    ensures Trace(sha, root.origin, obj.history[0].derivation.fromRepr, obj.history, i).runningDigest
            == ParentSha(sha, obj, root, i) != ""
  {
    VerifiedIsLinked(sha, obj, root, registry, 0);
    assert !ContentChainBroken(sha, root, obj.content, obj.history);
    if i > 0 {
      VerifiedIsLinked(sha, obj, root, registry, i - 1);
    }
  }

  lemma HopRecords(sha: string -> string, f: Fold, hop: Hop, first: bool)
    requires !DigestBroken(sha, f, hop, first) && f.runningDigest != ""
    ensures var p, q := f.prov, FoldHop(sha, f, hop, first).prov;
      && q.origin == p.origin && q.derivedBy == p.derivedBy + [hop.derivation] && q.lineage == p.lineage + [q.authority]
      && q.currentRepr == hop.derivation.toRepr && q.visibleRole == hop.visibleRole
      && q.contentSha == hop.contentDigest && q.parentContentSha == f.runningDigest
      && q.promotion ==
         (if hop.requestedAuthority == "" then p.promotion
          else if p.promotion.continuity == Pass && Grants(hop) then
            Promotion(hop.requestedAuthority, true, hop.endorsement.value.promoter, hop.endorsement.value.id, Pass,
                      p.promotion.digestFailure)
          else Promotion(hop.requestedAuthority, true, "", "", Failed, p.promotion.digestFailure))
  {
    var begun := BeginHop(f.prov, hop, f.runningDigest);
    assert begun.lineage == f.prov.lineage + [f.prov.authority];
  }

  /** Entry i of the record: hop i's derivation, and the level it left. */
  predicate RecordedAt(sha: string -> string, origin: Origin, repr: string, hops: seq<Hop>, p: Provenance, i: nat)
    requires i < |hops| && i < |p.derivedBy| && i < |p.lineage|
  {
    p.derivedBy[i] == hops[i].derivation && p.lineage[i] == PreAuthority(sha, origin, repr, hops, i + 1)
  }

  ghost predicate Records(sha: string -> string, origin: Origin, repr: string, hops: seq<Hop>, n: nat, p: Provenance)
    requires n <= |hops|
  {
    && p.origin == origin && |p.derivedBy| == |p.lineage| == n
    && forall i {:trigger RecordedAt(sha, origin, repr, hops, p, i)} :: 0 <= i < n ==> RecordedAt(sha, origin, repr, hops, p, i)
  }

  /** Whatever the hop, honest or not. */
  lemma HopAppends(sha: string -> string, f: Fold, hop: Hop, first: bool)
    ensures var p, q := f.prov, FoldHop(sha, f, hop, first).prov;
      q.origin == p.origin && q.derivedBy == p.derivedBy + [hop.derivation] && q.lineage == p.lineage + [q.authority]
  {
    var begun := BeginHop(f.prov, hop, f.runningDigest);
    assert begun.lineage == f.prov.lineage + [f.prov.authority];
  }

  lemma RecordsOneMore(sha: string -> string, origin: Origin, repr: string, hops: seq<Hop>, n: nat, p: Provenance, q: Provenance)
    requires n < |hops| && Records(sha, origin, repr, hops, n, p) && q.origin == p.origin
    requires q.derivedBy == p.derivedBy + [hops[n].derivation]
    requires q.lineage == p.lineage + [PreAuthority(sha, origin, repr, hops, n + 1)]
    ensures Records(sha, origin, repr, hops, n + 1, q)
  {
    forall i | 0 <= i < n + 1 ensures RecordedAt(sha, origin, repr, hops, q, i) {
      assert i < n ==> RecordedAt(sha, origin, repr, hops, p, i);
    }
  }

  /** Over every log the fold records each hop's derivation and the level it left. */
  lemma {:induction false} EveryHopIsRecorded(sha: string -> string, origin: Origin, repr: string, hops: seq<Hop>, n: nat)
    requires n <= |hops|
    ensures Records(sha, origin, repr, hops, n, Trace(sha, origin, repr, hops, n).prov)
  {
    if n > 0 {
      var f := Trace(sha, origin, repr, hops, n - 1);
      EveryHopIsRecorded(sha, origin, repr, hops, n - 1);
      HopAppends(sha, f, hops[n - 1], n == 1);
      RecordsOneMore(sha, origin, repr, hops, n - 1, f.prov, Trace(sha, origin, repr, hops, n).prov);
    }
  }

  /** The accepted object carries the record of all its hops. */
  lemma AcceptedProvenanceIsTheRecord(sha: string -> string, obj: InstructionObject, root: EvaluationRoot, registry: Registry)
    requires Accepts(sha, obj, root, registry) && obj.history != []
    ensures Records(sha, root.origin, obj.history[0].derivation.fromRepr, obj.history, |obj.history|, obj.provenance)
    ensures obj.provenance.authority == LevelBefore(sha, obj, root, |obj.history|)
  {
    EveryHopIsRecorded(sha, root.origin, obj.history[0].derivation.fromRepr, obj.history, |obj.history|);
  }

  /** And it ends where its last hop ended. */
  lemma AcceptedProvenanceEndsOnLastHop(sha: string -> string, obj: InstructionObject, root: EvaluationRoot, registry: Registry)
    requires Accepts(sha, obj, root, registry) && obj.history != []
    ensures var p, n, last := obj.provenance, |obj.history|, obj.history[|obj.history| - 1];
      && p.contentSha == Digest(sha, obj.content) && p.parentContentSha == ParentSha(sha, obj, root, n - 1)
      && p.currentRepr == last.derivation.toRepr && p.visibleRole == last.visibleRole
  {
    VerifiedHopEnds(sha, obj, root, registry, |obj.history| - 1);
    ContentIsTheLastHops(sha, obj, root, registry);
  }

  lemma ContentIsTheLastHops(sha: string -> string, obj: InstructionObject, root: EvaluationRoot, registry: Registry)
    requires Accepts(sha, obj, root, registry) && obj.history != []
    ensures Digest(sha, obj.content) == Digest(sha, obj.history[|obj.history| - 1].content)
  {
    VerifiedIsLinked(sha, obj, root, registry, |obj.history| - 1);
    assert !ContentChainBroken(sha, root, obj.content, obj.history);
  }

  lemma {:induction false} VerifiedHopEnds(sha: string -> string, obj: InstructionObject, root: EvaluationRoot, registry: Registry, i: nat)
    requires Accepts(sha, obj, root, registry) && i < |obj.history|
    ensures
      var q, hop := Trace(sha, root.origin, obj.history[0].derivation.fromRepr, obj.history, i + 1).prov, obj.history[i];
      && q.contentSha == Digest(sha, hop.content) && q.parentContentSha == ParentSha(sha, obj, root, i)
      && q.currentRepr == hop.derivation.toRepr && q.visibleRole == hop.visibleRole
  {
    VerifiedHopRecords(sha, obj, root, registry, i);
  }

  /** No edit of the provenance of an accepted object with a history is accepted. */
  lemma EditedProvenanceIsRefused(sha: string -> string, obj: InstructionObject, root: EvaluationRoot, registry: Registry,
      edited: Provenance)
    requires Accepts(sha, obj, root, registry) && obj.history != [] && edited != obj.provenance
    ensures !Accepts(sha, obj.(provenance := edited), root, registry)
  {
    assert obj.provenance == Folded(sha, root.origin, obj.history[0].derivation.fromRepr, obj.history).prov;
  }

  /** No other content is accepted with the same history, unless SHA-256 collides on the two. */
  lemma ContentIsPinned(sha: string -> string, obj: InstructionObject, other: InstructionObject, root: EvaluationRoot,
      registry: Registry)
    requires Accepts(sha, obj, root, registry) && Accepts(sha, other, root, registry) && other.history == obj.history
    ensures sha(other.content) == sha(obj.content)
    ensures obj.history != [] ==> other.provenance == obj.provenance
  {
    VerifiesExactlyWhenGenuine(sha, obj, root, registry);
    VerifiesExactlyWhenGenuine(sha, other, root, registry);
    assert Digest(sha, obj.content) == Digest(sha, other.content);
    assert Digest(sha, obj.content)[7..] == sha(obj.content) && Digest(sha, other.content)[7..] == sha(other.content);
  }

  // ----- what building an object leaves -----

  /** The hop a transform appends says what was asked, from what into what, and what the registry made of it. */
  predicate HopOf(sha: string -> string, obj: InstructionObject, s: Step, registry: Registry, hop: Hop) {
    && hop.derivation == Derivation(s.t.transformer, obj.provenance.currentRepr, s.t.via, s.t.to)
    && hop.content == s.t.newContent && hop.contentDigest == Digest(sha, s.t.newContent)
    && hop.parentDigest == Digest(sha, obj.content)
    && hop.parentHopDigest == (if obj.history == [] then Digest(sha, obj.content) else obj.history[|obj.history| - 1].hopDigest)
    && hop.visibleRole == s.t.visibleRole && hop.requestedAuthority == s.t.requestedAuthority && hop.endorsement == s.endorse
    && hop.observedCeiling == (if s.endorse.Some? && s.endorse.value.promoter in registry
                               then registry[s.endorse.value.promoter].ceiling else "")
    && (hop.endorsementValid <==>
          && s.endorse.Some?
          && Endorses(s.endorse.value, Digest(sha, obj.content), Digest(sha, s.t.newContent), s.t.transformer, s.t.to,
                      s.t.requestedAuthority, obj.provenance.authority, registry))
    && hop.hopDigest == Digest(sha, EncodeHop(hop))
  }

  /**
    A transform of an object with at most eight hops appends that one hop, takes over its content, refolds the provenance and
    is never eligible on its own; beyond that it changes nothing.
   */
  lemma TransformLeaves(sha: string -> string, obj: InstructionObject, s: Step, registry: Registry)
    ensures var next := ApplyTransform(sha, obj, s, registry);
      && (|obj.history| > 8 ==> next == obj)
      && (|obj.history| <= 8 ==>
            && next.schemaVersion == obj.schemaVersion && next.instructionBearing == obj.instructionBearing
            && next.effectClass == obj.effectClass && !next.instructionEligible && next.content == s.t.newContent
            && |next.history| == |obj.history| + 1 && next.history[..|obj.history|] == obj.history
            && HopOf(sha, obj, s, registry, next.history[|obj.history|])
            && next.provenance == FoldProvenance(sha, obj.provenance.origin, obj.provenance.currentRepr, next.history))
  {
    if s.endorse.Some? {
      ValidExactlyIfItEndorses(s.endorse.value, Digest(sha, obj.content), obj.provenance.authority,
        Digest(sha, s.t.newContent), s.t.transformer, s.t.to, s.t.requestedAuthority, registry);
    }
    var draft := DraftHop(sha, obj, s, registry);
    assert EncodeHop(draft.(hopDigest := HopDigest(sha, draft))) == EncodeHop(draft);
  }
}
