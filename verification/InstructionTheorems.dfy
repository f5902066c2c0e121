/**
  Instruction authority continuity: the laws the package promises of every hop log
  (internal/instructionauthority).
 */
module InstructionTheorems {
  import opened Wrappers
  import opened InstructionModel
  import opened InstructionAuthority

  function RootOf(sha: string -> string, content: string, origin: Origin, effectClass: string, bearing: bool): EvaluationRoot {
    EvaluationRoot(origin, bearing, effectClass, Digest(sha, content))
  }

  // ----- what an endorsement must say, stated on its own -----

  /** The lattice, spelled out. */
  predicate Outranks(a: string, b: string) {
    || (b == DATA_ONLY && (a == USER || a == DEVELOPER || a == SYSTEM))
    || (b == USER && (a == DEVELOPER || a == SYSTEM))
    || (b == DEVELOPER && a == SYSTEM)
  }

  predicate AtLeast(a: string, b: string) {
    (a == b && (a == DATA_ONLY || a == USER || a == DEVELOPER || a == SYSTEM)) || Outranks(a, b)
  }

  /** The endorsement of exactly this promotion, of this content into that, by a registry principal who may grant it. */
  predicate Endorses(e: Endorsement, parentSha: string, childSha: string, transformer: string, target: string,
                     requested: string, from: string, registry: Registry)
  {
    && e.id != "" && e.promoter != "" && e.promoter in registry
    && e.grantAuthority == requested && Outranks(requested, from) && AtLeast(registry[e.promoter].ceiling, requested)
    && e.parentContentSha == parentSha && e.childContentSha == childSha
    && e.transformer == transformer && e.targetRepr == target
  }

  lemma RanksAreTheLattice(a: string, b: string)
    ensures Outranks(a, b) <==>
      AuthorityRank(a).Some? && AuthorityRank(b).Some? && AuthorityRank(a).value > AuthorityRank(b).value
    ensures AtLeast(a, b) <==>
      AuthorityRank(a).Some? && AuthorityRank(b).Some? && AuthorityRank(a).value >= AuthorityRank(b).value
  {
  }

  lemma ValidExactlyIfItEndorses(e: Endorsement, parentSha: string, from: string, childSha: string, transformer: string,
                                 target: string, requested: string, registry: Registry)
    ensures ValidEndorsement(e, parentSha, from, childSha, transformer, target, requested, registry)
       <==> Endorses(e, parentSha, childSha, transformer, target, requested, from, registry)
  {
    RanksAreTheLattice(requested, from);
    if e.promoter in registry {
      RanksAreTheLattice(registry[e.promoter].ceiling, requested);
    }
  }

  // ----- round trip: what ApplyTransform builds, VerifyProvenance accepts -----

  /** What holds of an object built from an origin by transforms under one registry. */
  ghost predicate Built(sha: string -> string, obj: InstructionObject, root: EvaluationRoot, registry: Registry) {
    && obj.provenance.origin == root.origin
    && (obj.history == [] ==>
          && obj.provenance == GenesisProvenance(root.origin, obj.provenance.currentRepr, root.contentSha)
          && Digest(sha, obj.content) == root.contentSha)
    && (obj.history != [] ==>
          && Linked(sha, obj.history)
          && obj.history[0].parentDigest == root.contentSha
          && Digest(sha, obj.content) == obj.history[|obj.history| - 1].contentDigest
          && obj.provenance == Folded(sha, root.origin, obj.history[0].derivation.fromRepr, obj.history).prov
          && forall i :: 0 <= i < |obj.history| ==> VerdictAgreesAt(sha, obj.history, root.origin, registry, i))
  }

  lemma NewHopLinksAtEnd(sha: string -> string, obj: InstructionObject, s: Step, root: EvaluationRoot, registry: Registry)
    requires Built(sha, obj, root, registry)
    ensures LinkedAt(sha, obj.history + [NewHop(sha, obj, s, registry)], |obj.history|)
  {
    assert EncodeHop(NewHop(sha, obj, s, registry)) == EncodeHop(DraftHop(sha, obj, s, registry));
  }

  lemma NewHopLinks(sha: string -> string, obj: InstructionObject, s: Step, root: EvaluationRoot, registry: Registry)
    requires Built(sha, obj, root, registry)
    ensures var hops := obj.history + [NewHop(sha, obj, s, registry)];
      && Linked(sha, hops)
      && hops[0].parentDigest == root.contentSha
      && hops[|obj.history|].contentDigest == Digest(sha, s.t.newContent)
  {
    var hop := NewHop(sha, obj, s, registry);
    var hops := obj.history + [hop];
    NewHopLinksAtEnd(sha, obj, s, root, registry);
    forall i | 0 <= i < |obj.history|
      ensures LinkedAt(sha, hops, i)
    {
      assert LinkedAt(sha, obj.history, i);
    }
  }

  lemma VerdictsCarryOver(sha: string -> string, obj: InstructionObject, s: Step, root: EvaluationRoot, registry: Registry, i: nat)
    requires Built(sha, obj, root, registry) && i <= |obj.history|
    ensures var hops := obj.history + [NewHop(sha, obj, s, registry)];
      VerdictAgreesAt(sha, hops, root.origin, registry, i)
  {
    var hop := NewHop(sha, obj, s, registry);
    var hops := obj.history + [hop];
    PrefixFoldsAlike(sha, root.origin, hops[0].derivation.fromRepr, obj.history, hop, i);
    if i < |obj.history| {
      assert VerdictAgreesAt(sha, obj.history, root.origin, registry, i);
    }
  }

  lemma TransformKeepsBuilt(sha: string -> string, obj: InstructionObject, s: Step, root: EvaluationRoot, registry: Registry)
    requires Built(sha, obj, root, registry) && |obj.history| < MAX_HISTORY_HOPS
    ensures Built(sha, ApplyTransform(sha, obj, s, registry), root, registry)
  {
    var hops := obj.history + [NewHop(sha, obj, s, registry)];
    NewHopLinks(sha, obj, s, root, registry);
    forall i | 0 <= i < |hops|
      ensures VerdictAgreesAt(sha, hops, root.origin, registry, i)
    {
      VerdictsCarryOver(sha, obj, s, root, registry, i);
    }
    StartingReprIrrelevant(sha, root.origin, obj.provenance.currentRepr, hops[0].derivation.fromRepr, hops, |hops|);
    TraceShape(sha, root.origin, hops[0].derivation.fromRepr, hops, |hops|);
  }

  lemma BuiltChainHolds(sha: string -> string, obj: InstructionObject, root: EvaluationRoot, registry: Registry)
    requires Built(sha, obj, root, registry) && root.contentSha != ""
    ensures !ContentChainBroken(sha, root, obj.content, obj.history)
  {
    if obj.history != [] {
      assert LinkedAt(sha, obj.history, 0);
    }
  }

  lemma BuiltIsAccepted(sha: string -> string, obj: InstructionObject, root: EvaluationRoot, registry: Registry)
    requires Built(sha, obj, root, registry) && |obj.history| <= MAX_HISTORY_HOPS && root.contentSha != ""
    ensures Accepts(sha, obj, root, registry)
  {
    BuiltChainHolds(sha, obj, root, registry);
    if obj.history != [] {
      var f := Folded(sha, root.origin, obj.history[0].derivation.fromRepr, obj.history);
      DigestFailureMeansUnlinked(sha, root.origin, obj.history[0].derivation.fromRepr, obj.history);
      assert AcceptsFold(sha, obj, root, registry, f);
    }
  }

  lemma {:induction false} TransformedIsBuilt(
      sha: string -> string, obj: InstructionObject, steps: seq<Step>, root: EvaluationRoot, registry: Registry)
    requires Built(sha, obj, root, registry) && obj.history == []
    ensures |Transformed(sha, obj, steps, registry).history| == if |steps| <= 9 then |steps| else 9
    ensures |steps| <= MAX_HISTORY_HOPS ==> Built(sha, Transformed(sha, obj, steps, registry), root, registry)
  {
    if steps != [] {
      var n := |steps| - 1;
      TransformedIsBuilt(sha, obj, steps[..n], root, registry);
      if n < MAX_HISTORY_HOPS {
        TransformKeepsBuilt(sha, Transformed(sha, obj, steps[..n], registry), steps[n], root, registry);
      }
    }
  }

  /** Every object built by transforms verifies under the registry it was built with, up to the hop bound and not beyond. */
  lemma {:induction false} RoundTrip(sha: string -> string, content: string, origin: Origin, repr: string, effectClass: string,
                  bearing: bool, steps: seq<Step>, registry: Registry)
    ensures var obj := Transformed(sha, NewOriginObject(sha, content, origin, repr, effectClass, bearing), steps, registry);
            Accepts(sha, obj, RootOf(sha, content, origin, effectClass, bearing), registry) <==> |steps| <= MAX_HISTORY_HOPS
  {
    var origin0 := NewOriginObject(sha, content, origin, repr, effectClass, bearing);
    var root := RootOf(sha, content, origin, effectClass, bearing);
    TransformedIsBuilt(sha, origin0, steps, root, registry);
    if |steps| <= MAX_HISTORY_HOPS {
      BuiltIsAccepted(sha, Transformed(sha, origin0, steps, registry), root, registry);
    }
  }

  // ----- no escalation -----

  /** One hop either leaves the authority alone or installs that hop's own grant. */
  lemma AuthorityStep(sha: string -> string, origin: Origin, repr: string, hops: seq<Hop>, n: nat)
    requires n < |hops|
    ensures var a, b := PreAuthority(sha, origin, repr, hops, n), PreAuthority(sha, origin, repr, hops, n + 1);
      a == b || (Grants(hops[n]) && b == hops[n].requestedAuthority)
  {
  }

  lemma {:induction false} AuthorityUpTo(sha: string -> string, origin: Origin, repr: string, hops: seq<Hop>, n: nat)
    requires n <= |hops|
    ensures var a := PreAuthority(sha, origin, repr, hops, n);
      || a == CeilingForTrust(origin.trustClass)
      || exists i :: 0 <= i < n && Grants(hops[i]) && hops[i].requestedAuthority == a
  {
    if n > 0 {
      AuthorityUpTo(sha, origin, repr, hops, n - 1);
      AuthorityStep(sha, origin, repr, hops, n - 1);
    }
  }

  /** Over all hop logs, honest or not: authority is the origin's ceiling or a grant the log itself records. */
  lemma AuthorityIsCeilingOrGrant(sha: string -> string, origin: Origin, repr: string, hops: seq<Hop>)
    ensures var a := FoldProvenance(sha, origin, repr, hops).authority;
      && AuthorityRank(a).Some?
      && (|| a == CeilingForTrust(origin.trustClass)
          || exists i :: 0 <= i < |hops| && Grants(hops[i]) && hops[i].requestedAuthority == a)
  {
    AuthorityUpTo(sha, origin, repr, hops, |hops|);
  }

  /** The digest of the content hop i transformed. */
  function ParentSha(sha: string -> string, obj: InstructionObject, root: EvaluationRoot, i: nat): string
    requires i < |obj.history|
  {
    if i == 0 then root.contentSha else Digest(sha, obj.history[i - 1].content)
  }

  /** Hop i asks for a level, and carries the endorsement of exactly that, within the ceiling it observed. */
  predicate Promotes(sha: string -> string, obj: InstructionObject, root: EvaluationRoot, registry: Registry, i: nat, from: string)
    requires i < |obj.history|
  {
    var hop := obj.history[i];
    && hop.requestedAuthority != "" && hop.endorsement.Some? && AtLeast(hop.observedCeiling, hop.requestedAuthority)
    && Endorses(hop.endorsement.value, ParentSha(sha, obj, root, i), Digest(sha, hop.content),
                hop.derivation.transformer, hop.derivation.toRepr, hop.requestedAuthority, from, registry)
  }

  /** In a verified object the hops link up from the root's content to the object's. */
  lemma VerifiedIsLinked(sha: string -> string, obj: InstructionObject, root: EvaluationRoot, registry: Registry, i: nat)
    requires Accepts(sha, obj, root, registry) && i < |obj.history|
    ensures obj.history[i].parentDigest == ParentSha(sha, obj, root, i)
    ensures obj.history[i].contentDigest == Digest(sha, obj.history[i].content)
    ensures !Folded(sha, root.origin, obj.history[0].derivation.fromRepr, obj.history).prov.promotion.digestFailure
  {
    var repr := obj.history[0].derivation.fromRepr;
    assert !ContentChainBroken(sha, root, obj.content, obj.history);
    DigestFailureMeansUnlinked(sha, root.origin, repr, obj.history);
    assert LinkedAt(sha, obj.history, i);
    if i > 0 {
      assert LinkedAt(sha, obj.history, i - 1);
    }
  }

  /** The verdict recorded on hop i is that of the explicit test. */
  lemma VerdictIsExplicit(sha: string -> string, obj: InstructionObject, root: EvaluationRoot, registry: Registry, i: nat)
    requires Accepts(sha, obj, root, registry) && i < |obj.history|
    ensures var from := PreAuthority(sha, root.origin, obj.history[0].derivation.fromRepr, obj.history, i);
      obj.history[i].requestedAuthority != "" && Grants(obj.history[i]) <==> Promotes(sha, obj, root, registry, i, from)
  {
    var hop := obj.history[i];
    var from := PreAuthority(sha, root.origin, obj.history[0].derivation.fromRepr, obj.history, i);
    VerifiedIsLinked(sha, obj, root, registry, i);
    assert VerdictAgreesAt(sha, obj.history, root.origin, registry, i);
    RanksAreTheLattice(hop.observedCeiling, hop.requestedAuthority);
    if hop.endorsement.Some? {
      ValidExactlyIfItEndorses(hop.endorsement.value, hop.parentDigest, from, hop.contentDigest,
        hop.derivation.transformer, hop.derivation.toRepr, hop.requestedAuthority, registry);
    }
  }

  /** Before hop i the fold of a verified object has broken no digest. */
  lemma {:induction false} VerifiedSoFar(sha: string -> string, obj: InstructionObject, root: EvaluationRoot, registry: Registry, i: nat)
    requires Accepts(sha, obj, root, registry) && i < |obj.history|
    ensures var repr := obj.history[0].derivation.fromRepr;
      !DigestBroken(sha, Trace(sha, root.origin, repr, obj.history, i), obj.history[i], i == 0)
  {
    var repr := obj.history[0].derivation.fromRepr;
    VerifiedIsLinked(sha, obj, root, registry, i);
    DigestFailureMeansUnlinked(sha, root.origin, repr, obj.history);
    assert LinkedAt(sha, obj.history, i);
    if i > 0 {
      assert LinkedAt(sha, obj.history, i - 1);
    }
    BrokenMeansUnlinked(sha, root.origin, repr, obj.history, i);
  }

  /**
    In a verified object a hop changes the level exactly if nothing was refused before it and it carries the endorsement
    of that promotion: of the content it was given into the content it gave, by its transformer into its target,
    by a registry principal who stands at least at the level granted, itself above the level before. The level is then the one asked for.
   */
  lemma VerifiedAuthorityRisesOnlyByPromotion(
      sha: string -> string, obj: InstructionObject, root: EvaluationRoot, registry: Registry, i: nat)
    requires Accepts(sha, obj, root, registry) && i < |obj.history|
    ensures
      var repr := obj.history[0].derivation.fromRepr;
      var before := PreAuthority(sha, root.origin, repr, obj.history, i);
      var after := PreAuthority(sha, root.origin, repr, obj.history, i + 1);
      var refused := Trace(sha, root.origin, repr, obj.history, i).prov.promotion.continuity == Failed;
      && (after != before <==> !refused && Promotes(sha, obj, root, registry, i, before))
      && (after != before ==> after == obj.history[i].requestedAuthority && Outranks(after, before))
  {
    var repr := obj.history[0].derivation.fromRepr;
    VerdictIsExplicit(sha, obj, root, registry, i);
    VerifiedSoFar(sha, obj, root, registry, i);
    IntactHop(sha, Trace(sha, root.origin, repr, obj.history, i), obj.history[i], i == 0);
    assert forall a: string :: !Outranks(a, a);
  }

  /** And it is refused for good exactly if it asks without that endorsement, or something was refused before it. */
  lemma VerifiedRefusesExactlyWhen(
      sha: string -> string, obj: InstructionObject, root: EvaluationRoot, registry: Registry, i: nat)
    requires Accepts(sha, obj, root, registry) && i < |obj.history|
    ensures
      var repr := obj.history[0].derivation.fromRepr;
      var f, g := Trace(sha, root.origin, repr, obj.history, i), Trace(sha, root.origin, repr, obj.history, i + 1);
      g.prov.promotion.continuity == Failed <==>
        || f.prov.promotion.continuity == Failed
        || (obj.history[i].requestedAuthority != "" && !Promotes(sha, obj, root, registry, i, f.prov.authority))
  {
    var repr := obj.history[0].derivation.fromRepr;
    VerdictIsExplicit(sha, obj, root, registry, i);
    VerifiedSoFar(sha, obj, root, registry, i);
    IntactHop(sha, Trace(sha, root.origin, repr, obj.history, i), obj.history[i], i == 0);
  }

  // ----- sticky failure -----

  /** A fold that has not failed ends on the digest of the last hop's content. */
  lemma PassingFoldEndsOnContent(sha: string -> string, origin: Origin, repr: string, hops: seq<Hop>)
    requires hops != [] && Folded(sha, origin, repr, hops).prov.promotion.continuity == Pass
    ensures Folded(sha, origin, repr, hops).runningDigest == hops[|hops| - 1].contentDigest != ""
  {
  }

  /** The next hop restates the object's content digest, so a log that did not end on it breaks there. */
  lemma NextHopExposesContent(sha: string -> string, obj: InstructionObject, s: Step, root: EvaluationRoot, registry: Registry)
    requires 0 < |obj.history| < MAX_HISTORY_HOPS
    requires var f := Folded(sha, root.origin, obj.history[0].derivation.fromRepr, obj.history);
      || f.prov.promotion.continuity == Failed
      || Digest(sha, obj.content) != obj.history[|obj.history| - 1].contentDigest
    ensures Folded(sha, root.origin, obj.history[0].derivation.fromRepr, obj.history + [NewHop(sha, obj, s, registry)])
            .prov.promotion.continuity == Failed
  {
    var repr := obj.history[0].derivation.fromRepr;
    var hop := NewHop(sha, obj, s, registry);
    var f := Folded(sha, root.origin, repr, obj.history);
    if f.prov.promotion.continuity == Pass {
      PassingFoldEndsOnContent(sha, root.origin, repr, obj.history);
      assert hop.parentDigest == Digest(sha, obj.content);
    }
    FailureStays(sha, f, hop, false);
    FoldedSnoc(sha, root.origin, repr, obj.history, hop);
  }

  /** Once the derived provenance has failed, one more transform does not clear it. */
  lemma TransformKeepsFailure(sha: string -> string, obj: InstructionObject, s: Step, root: EvaluationRoot, registry: Registry)
    requires DerivedProvenance(sha, obj, root).promotion.continuity == Failed
    ensures DerivedProvenance(sha, ApplyTransform(sha, obj, s, registry), root).promotion.continuity == Failed
  {
    if 0 < |obj.history| < MAX_HISTORY_HOPS
       && obj.history[0].parentDigest == obj.history[0].parentHopDigest == root.contentSha != "" {
      NextHopExposesContent(sha, obj, s, root, registry);
    }
  }

  /** No sequence of further transforms, under any registries, makes a failed object executable. */
  lemma {:induction false} FailureIsSticky(
      sha: string -> string, obj: InstructionObject, steps: seq<Step>, root: EvaluationRoot, registries: seq<Registry>)
    requires DerivedProvenance(sha, obj, root).promotion.continuity == Failed
    requires |registries| == |steps|
    ensures !Authorize(sha, TransformedUnder(sha, obj, steps, registries), root).execute
    decreases |steps|
  {
    if steps != [] {
      TransformKeepsFailure(sha, obj, steps[0], root, registries[0]);
      FailureIsSticky(sha, ApplyTransform(sha, obj, steps[0], registries[0]), steps[1..], root, registries[1..]);
    }
  }

  /** Transforms applied first to last, each under its own registry. */
  function TransformedUnder(sha: string -> string, obj: InstructionObject, steps: seq<Step>, registries: seq<Registry>)
      : InstructionObject
    requires |registries| == |steps|
    decreases |steps|
  {
    if steps == [] then obj
    else TransformedUnder(sha, ApplyTransform(sha, obj, steps[0], registries[0]), steps[1..], registries[1..])
  }

  // ----- an exact account of Authorize on built objects -----

  /** A two-variable account of a run: the current level, and whether some promotion was refused. */
  datatype Level = Level(authority: string, refused: bool)

  /** The content in force before step k. */
  function ContentBefore(content: string, steps: seq<Step>): string {
    if steps == [] then content else steps[|steps| - 1].t.newContent
  }

  /** Whether the step carries the endorsement of the promotion it asks for, given the content and level in force. */
  predicate Honoured(sha: string -> string, content: string, authority: string, s: Step, registry: Registry) {
    && s.endorse.Some?
    && Endorses(s.endorse.value, Digest(sha, content), Digest(sha, s.t.newContent), s.t.transformer, s.t.to,
                s.t.requestedAuthority, authority, registry)
  }

  /** A promotion takes effect if honoured and refuses the run for good otherwise. */
  function Advance(sha: string -> string, content: string, level: Level, s: Step, registry: Registry): Level {
    if s.t.requestedAuthority == "" || level.refused then level
    else if Honoured(sha, content, level.authority, s, registry) then level.(authority := s.t.requestedAuthority)
    else level.(refused := true)
  }

  /** Each trusted class starts at its own level, and any other class, known or not, as data. */
  function StartingLevel(trustClass: string): string {
    if trustClass == TRUSTED_SYSTEM then SYSTEM
    else if trustClass == TRUSTED_DEVELOPER then DEVELOPER
    else if trustClass == TRUSTED_USER then USER
    else DATA_ONLY
  }

  function Simulate(sha: string -> string, content: string, origin: Origin, steps: seq<Step>, registry: Registry): Level {
    if steps == [] then Level(StartingLevel(origin.trustClass), false)
    else
      var earlier := steps[..|steps| - 1];
      Advance(sha, ContentBefore(content, earlier), Simulate(sha, content, origin, earlier, registry),
              steps[|steps| - 1], registry)
  }

  function LevelOf(p: Provenance): Level {
    Level(p.authority, p.promotion.continuity == Failed)
  }

  /** Appended hops record exactly the verdict the registry gives at append. */
  lemma NewHopGrantsIfHonoured(sha: string -> string, obj: InstructionObject, s: Step, registry: Registry)
    requires s.t.requestedAuthority != ""
    ensures Grants(NewHop(sha, obj, s, registry)) <==> Honoured(sha, obj.content, obj.provenance.authority, s, registry)
  {
    if s.endorse.Some? {
      ValidExactlyIfItEndorses(s.endorse.value, Digest(sha, obj.content), obj.provenance.authority,
        Digest(sha, s.t.newContent), s.t.transformer, s.t.to, s.t.requestedAuthority, registry);
    }
  }

  lemma NewHopIsIntact(sha: string -> string, obj: InstructionObject, s: Step, root: EvaluationRoot, registry: Registry)
    requires Built(sha, obj, root, registry)
    ensures var hop := NewHop(sha, obj, s, registry);
      !DigestBroken(sha, Trace(sha, root.origin, obj.provenance.currentRepr, obj.history + [hop], |obj.history|), hop,
                    |obj.history| == 0)
  {
    var n := |obj.history|;
    var hops := obj.history + [NewHop(sha, obj, s, registry)];
    NewHopLinks(sha, obj, s, root, registry);
    assert LinkedAt(sha, hops, n);
    if n > 0 {
      assert LinkedAt(sha, hops, n - 1);
    }
    BrokenMeansUnlinked(sha, root.origin, obj.provenance.currentRepr, hops, n);
  }

  lemma TransformIsOneHop(sha: string -> string, obj: InstructionObject, s: Step, registry: Registry)
    requires |obj.history| < MAX_HISTORY_HOPS
    ensures var hop, n := NewHop(sha, obj, s, registry), |obj.history|;
      var f := Trace(sha, obj.provenance.origin, obj.provenance.currentRepr, obj.history + [hop], n);
      ApplyTransform(sha, obj, s, registry).provenance == FoldHop(sha, f, hop, n == 0).prov
  {
  }

  /** A transform's provenance is one intact hop folded onto what the object already had. */
  lemma TransformFolds(sha: string -> string, obj: InstructionObject, s: Step, root: EvaluationRoot, registry: Registry)
      returns (f: Fold)
    requires Built(sha, obj, root, registry) && |obj.history| < MAX_HISTORY_HOPS
    ensures f.prov.authority == obj.provenance.authority && f.prov.promotion == obj.provenance.promotion
    ensures var hop, first := NewHop(sha, obj, s, registry), obj.history == [];
      && !DigestBroken(sha, f, hop, first)
      && ApplyTransform(sha, obj, s, registry).provenance == FoldHop(sha, f, hop, first).prov
  {
    var hop, n := NewHop(sha, obj, s, registry), |obj.history|;
    f := Trace(sha, root.origin, obj.provenance.currentRepr, obj.history + [hop], n);
    TransformIsOneHop(sha, obj, s, registry);
    NewHopIsIntact(sha, obj, s, root, registry);
    OwnFoldSoFar(sha, obj, hop, root, registry);
  }

  lemma TransformAdvances(sha: string -> string, obj: InstructionObject, s: Step, root: EvaluationRoot, registry: Registry)
    requires Built(sha, obj, root, registry) && |obj.history| < MAX_HISTORY_HOPS
    ensures LevelOf(ApplyTransform(sha, obj, s, registry).provenance)
            == Advance(sha, obj.content, LevelOf(obj.provenance), s, registry)
  {
    var f := TransformFolds(sha, obj, s, root, registry);
    IntactHop(sha, f, NewHop(sha, obj, s, registry), obj.history == []);
    if s.t.requestedAuthority != "" {
      NewHopGrantsIfHonoured(sha, obj, s, registry);
    }
  }

  lemma {:induction false} BuiltMatchesSimulation(
      sha: string -> string, obj: InstructionObject, steps: seq<Step>, root: EvaluationRoot, registry: Registry)
    requires Built(sha, obj, root, registry) && obj.history == []
    requires |steps| <= MAX_HISTORY_HOPS
    ensures var built := Transformed(sha, obj, steps, registry);
      && built.content == ContentBefore(obj.content, steps)
      && LevelOf(built.provenance) == Simulate(sha, obj.content, root.origin, steps, registry)
  {
    if steps != [] {
      var n := |steps| - 1;
      BuiltMatchesSimulation(sha, obj, steps[..n], root, registry);
      TransformedIsBuilt(sha, obj, steps[..n], root, registry);
      TransformAdvances(sha, Transformed(sha, obj, steps[..n], registry), steps[n], root, registry);
    }
  }

  /** Folding a built object's log from its own current label reaches the provenance it carries. */
  lemma OwnFoldSoFar(sha: string -> string, obj: InstructionObject, hop: Hop, root: EvaluationRoot, registry: Registry)
    requires Built(sha, obj, root, registry)
    ensures var f := Trace(sha, root.origin, obj.provenance.currentRepr, obj.history + [hop], |obj.history|);
      && f.prov.authority == obj.provenance.authority
      && f.prov.promotion == obj.provenance.promotion
  {
    var repr, n := obj.provenance.currentRepr, |obj.history|;
    PrefixFoldsAlike(sha, root.origin, repr, obj.history, hop, n);
    if n > 0 {
      StartingReprIrrelevant(sha, root.origin, repr, obj.history[0].derivation.fromRepr, obj.history, n);
    }
  }

  /**
    Authorize on a built object says yes exactly when the root bears instructions, the log is
    within the bound, no promotion along the way was refused, and the level reached is USER or above.
   */
  lemma {:induction false} AuthorizeExactly(sha: string -> string, content: string, origin: Origin, repr: string, effectClass: string,
                         bearing: bool, steps: seq<Step>, registry: Registry)
    ensures var obj := Transformed(sha, NewOriginObject(sha, content, origin, repr, effectClass, bearing), steps, registry);
            var level := Simulate(sha, content, origin, steps, registry);
            Authorize(sha, obj, RootOf(sha, content, origin, effectClass, bearing)).execute
            <==> bearing && |steps| <= MAX_HISTORY_HOPS && !level.refused && level.authority in {USER, DEVELOPER, SYSTEM}
  {
    var origin0 := NewOriginObject(sha, content, origin, repr, effectClass, bearing);
    var root := RootOf(sha, content, origin, effectClass, bearing);
    TransformedIsBuilt(sha, origin0, steps, root, registry);
    if |steps| <= MAX_HISTORY_HOPS {
      BuiltMatchesSimulation(sha, origin0, steps, root, registry);
      DerivedOnBuilt(sha, Transformed(sha, origin0, steps, registry), root, registry);
    }
  }

  /** On a built object, what Authorize derives is what the object carries. */
  lemma DerivedOnBuilt(sha: string -> string, obj: InstructionObject, root: EvaluationRoot, registry: Registry)
    requires Built(sha, obj, root, registry) && |obj.history| <= MAX_HISTORY_HOPS && root.contentSha != ""
    ensures var p := DerivedProvenance(sha, obj, root);
      && p.authority == obj.provenance.authority
      && p.promotion == obj.provenance.promotion
      && !p.promotion.digestFailure
      && AuthorityRank(p.authority).Some?
  {
    if obj.history != [] {
      var repr := obj.history[0].derivation.fromRepr;
      assert LinkedAt(sha, obj.history, 0);
      DigestFailureMeansUnlinked(sha, root.origin, repr, obj.history);
      AuthorityIsCeilingOrGrant(sha, root.origin, repr, obj.history);
    }
  }

  // ----- tamper evidence -----

  /** Every string hashed for a log: each hop's encoding and each hop's content. */
  ghost function Hashed(hops: seq<Hop>): set<string> {
    set i | 0 <= i < |hops| :: EncodeHop(hops[i])
  }

  ghost function Contents(hops: seq<Hop>): set<string> {
    set i | 0 <= i < |hops| :: hops[i].content
  }

  /** Two different strings hashed for these logs with one hash between them. */
  ghost predicate CollisionAmong(sha: string -> string, a: seq<Hop>, b: seq<Hop>) {
    exists x, y :: && x in Hashed(a) + Hashed(b) + Contents(a) + Contents(b)
                   && y in Hashed(a) + Hashed(b) + Contents(a) + Contents(b)
                   && x != y && sha(x) == sha(y)
  }

  lemma DigestsAgree(sha: string -> string, x: string, y: string)
    requires Digest(sha, x) == Digest(sha, y)
    ensures sha(x) == sha(y)
  {
    assert Digest(sha, x)[7..] == sha(x) && Digest(sha, y)[7..] == sha(y);
  }

  /** A first hop cannot share its digest with a later one: its parent would hash two strings alike. */
  lemma FirstHopIsFirst(sha: string -> string, a: seq<Hop>, b: seq<Hop>)
    requires |a| == 1 && |b| > 1 && Linked(sha, a) && Linked(sha, b)
    requires a[0] == b[|b| - 1]
    ensures CollisionAmong(sha, a, b)
  {
    assert LinkedAt(sha, a, 0) && LinkedAt(sha, b, |b| - 1) && LinkedAt(sha, b, |b| - 2);
    var prior := b[|b| - 2];
    assert Digest(sha, EncodeHop(prior)) == Digest(sha, prior.content);
    DigestsAgree(sha, EncodeHop(prior), prior.content);
    EncodeHopLongerThanContent(prior);
    assert EncodeHop(prior) in Hashed(b) && prior.content in Contents(b);
  }

  /** Two linked logs that end on one hop digest end on one hop. */
  lemma LastHopsAgree(sha: string -> string, a: seq<Hop>, b: seq<Hop>)
    requires a != [] && b != [] && Linked(sha, a) && Linked(sha, b)
    requires a[|a| - 1].hopDigest == b[|b| - 1].hopDigest
    ensures a[|a| - 1] == b[|b| - 1] || CollisionAmong(sha, a, b)
  {
    var x, y := a[|a| - 1], b[|b| - 1];
    assert LinkedAt(sha, a, |a| - 1) && LinkedAt(sha, b, |b| - 1);
    DigestsAgree(sha, EncodeHop(x), EncodeHop(y));
    assert EncodeHop(x) in Hashed(a) && EncodeHop(y) in Hashed(b);
    if EncodeHop(x) == EncodeHop(y) {
      EncodeHopInjective(x, y);
    }
  }

  lemma LinkedPrefix(sha: string -> string, hops: seq<Hop>)
    requires hops != [] && Linked(sha, hops)
    ensures Linked(sha, hops[..|hops| - 1]) && LinkedAt(sha, hops, |hops| - 1)
  {
    var prefix := hops[..|hops| - 1];
    forall i | 0 <= i < |prefix|
      ensures LinkedAt(sha, prefix, i)
    {
      assert LinkedAt(sha, hops, i);
    }
  }

  lemma {:induction false} LinkedLogsAgree(sha: string -> string, a: seq<Hop>, b: seq<Hop>)
    requires a != [] && b != [] && Linked(sha, a) && Linked(sha, b)
    requires a[|a| - 1].hopDigest == b[|b| - 1].hopDigest
    ensures a == b || CollisionAmong(sha, a, b)
    decreases |a|
  {
    var m, n := |a| - 1, |b| - 1;
    LastHopsAgree(sha, a, b);
    if a[m] == b[n] {
      assert a == a[..m] + [a[m]] && b == b[..n] + [b[n]];
      if m > 0 && n > 0 {
        LinkedPrefix(sha, a);
        LinkedPrefix(sha, b);
        LinkedLogsAgree(sha, a[..m], b[..n]);
        CollisionInPrefixes(sha, a, b);
      } else if n > 0 {
        FirstHopIsFirst(sha, a, b);
      } else if m > 0 {
        FirstHopIsFirst(sha, b, a);
      }
    }
  }

  lemma CollisionInPrefixes(sha: string -> string, a: seq<Hop>, b: seq<Hop>)
    requires a != [] && b != []
    ensures CollisionAmong(sha, a[..|a| - 1], b[..|b| - 1]) ==> CollisionAmong(sha, a, b)
  {
    var p, q := a[..|a| - 1], b[..|b| - 1];
    assert Hashed(p) <= Hashed(a) && Hashed(q) <= Hashed(b);
    assert Contents(p) <= Contents(a) && Contents(q) <= Contents(b);
  }

  /**
    The last hop digest commits to the whole log: two logs that fold without a digest failure
    and share it have the same length and the same hops, or two strings hashed for them collide.
   */
  lemma LastDigestCommitsToHistory(
      sha: string -> string, a: seq<Hop>, b: seq<Hop>, originA: Origin, originB: Origin, reprA: string, reprB: string)
    requires a != [] && b != []
    requires !FoldProvenance(sha, originA, reprA, a).promotion.digestFailure
    requires !FoldProvenance(sha, originB, reprB, b).promotion.digestFailure
    requires a[|a| - 1].hopDigest == b[|b| - 1].hopDigest
    ensures a == b || CollisionAmong(sha, a, b)
  {
    DigestFailureMeansUnlinked(sha, originA, reprA, a);
    DigestFailureMeansUnlinked(sha, originB, reprB, b);
    LinkedLogsAgree(sha, a, b);
  }
}
