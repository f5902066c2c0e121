/**
  Folding a hop log, appending to it, verifying it and deciding on it
  (internal/instructionauthority/evaluator.go).
 */
module InstructionAuthority {
  import opened Wrappers
  import opened InstructionModel

  // ----- the fold -----

  /** The fold's local variables: provenance so far and the running digests. */
  datatype Fold = Fold(prov: Provenance, runningDigest: string, runningHop: string)

  function FreshPromotion(c: Continuity, digestFailure: bool): Promotion {
    Promotion("", false, "", "", c, digestFailure)
  }

  function GenesisProvenance(origin: Origin, repr: string, contentSha: string): Provenance {
    Provenance(origin, [], repr, ROLE_NONE, CeilingForTrust(origin.trustClass), [], contentSha, "",
               FreshPromotion(Pass, false))
  }

  function BoundExceededProvenance(origin: Origin, repr: string): Provenance {
    GenesisProvenance(origin, repr, "").(promotion := FreshPromotion(Failed, true))
  }

  /** Records a hop's presentation, lineage and attempt, before any verdict on it. */
  function BeginHop(prov: Provenance, hop: Hop, runningDigest: string): Provenance {
    var promotion :=
      if hop.requestedAuthority == "" then prov.promotion
      else prov.promotion.(attempted := true, requestedAuthority := hop.requestedAuthority,
                           endorsementId := "", authorizedPromoter := "");
    prov.(derivedBy := prov.derivedBy + [hop.derivation],
          lineage := prov.lineage + [prov.authority],
          currentRepr := hop.derivation.toRepr,
          visibleRole := hop.visibleRole,
          parentContentSha := if runningDigest != "" then runningDigest else prov.parentContentSha,
          contentSha := hop.contentDigest,
          promotion := promotion)
  }

  /** Whether the log's own record of a hop carries a grant: no registry is consulted. */
  predicate Grants(hop: Hop) {
    && hop.endorsementValid
    && hop.endorsement.Some?
    && hop.endorsement.value.grantAuthority == hop.requestedAuthority
    && AuthorityRank(hop.requestedAuthority).Some?
    && AuthorityRank(hop.observedCeiling).Some?
    && AuthorityRank(hop.requestedAuthority).value <= AuthorityRank(hop.observedCeiling).value
  }

  /** None when the hop does not grant; the caller then fails continuity. */
  function GrantFromHop(prov: Provenance, hop: Hop): Option<Provenance>
    requires prov.lineage != []
  {
    if !Grants(hop) then None
    else
      var e := hop.endorsement.value;
      Some(prov.(authority := e.grantAuthority,
                 lineage := prov.lineage[|prov.lineage| - 1 := e.grantAuthority],
                 promotion := prov.promotion.(authorizedPromoter := e.promoter, endorsementId := e.id,
                                              continuity := Pass)))
  }

  predicate DigestBroken(sha: string -> string, f: Fold, hop: Hop, first: bool) {
    || (f.runningDigest != "" && hop.parentDigest != f.runningDigest)
    || (f.runningHop != "" && hop.parentHopDigest != f.runningHop)
    || Digest(sha, hop.content) != hop.contentDigest
    || hop.hopDigest != HopDigest(sha, hop)
    || (hop.endorsementValid && hop.endorsement.None?)
    || (first && hop.parentHopDigest != hop.parentDigest)
  }

  function FoldHop(sha: string -> string, f: Fold, hop: Hop, first: bool): Fold {
    var begun := BeginHop(f.prov, hop, f.runningDigest);
    var prov :=
      if DigestBroken(sha, f, hop, first) then
        begun.(promotion := begun.promotion.(continuity := Failed, digestFailure := true))
      else if begun.promotion.continuity == Failed || hop.requestedAuthority == "" then begun
      else match GrantFromHop(begun, hop)
        case Some(granted) => granted
        case None => begun.(promotion := begun.promotion.(continuity := Failed));
    Fold(prov,
         if hop.contentDigest != "" then hop.contentDigest else f.runningDigest,
         if hop.hopDigest != "" then hop.hopDigest else HopDigest(sha, hop))
  }

  /** Before any hop; a non-empty log seeds the running digests from its first hop. */
  function FoldStart(origin: Origin, repr: string, hops: seq<Hop>): Fold {
    Fold(GenesisProvenance(origin, repr, ""),
         if hops == [] then "" else hops[0].parentDigest,
         if hops == [] then "" else hops[0].parentHopDigest)
  }

  /** The fold after the first n hops: each hop extends the fold of the hops before it. */
  function Trace(sha: string -> string, origin: Origin, repr: string, hops: seq<Hop>, n: nat): Fold
    requires n <= |hops|
  {
    if n == 0 then FoldStart(origin, repr, hops)
    else FoldHop(sha, Trace(sha, origin, repr, hops, n - 1), hops[n - 1], n == 1)
  }

  function Folded(sha: string -> string, origin: Origin, repr: string, hops: seq<Hop>): Fold {
    Trace(sha, origin, repr, hops, |hops|)
  }

  function FoldProvenance(sha: string -> string, origin: Origin, repr: string, hops: seq<Hop>): Provenance {
    if |hops| > MAX_HISTORY_HOPS then BoundExceededProvenance(origin, repr)
    else Folded(sha, origin, repr, hops).prov
  }

  /** The authority in force before hop i. */
  function PreAuthority(sha: string -> string, origin: Origin, repr: string, hops: seq<Hop>, i: nat): string
    requires i <= |hops|
  {
    Trace(sha, origin, repr, hops, i).prov.authority
  }

  /** The loop body of foldTrace: the hop is recorded first, then judged. */
  method FoldOne(sha: string -> string, f: Fold, hop: Hop, first: bool) returns (f': Fold)
    ensures f' == FoldHop(sha, f, hop, first)
  {
    var runningDigest, runningHop := f.runningDigest, f.runningHop;
    var prov := BeginHop(f.prov, hop, runningDigest);
    var broken := DigestBroken(sha, f, hop, first);
    if hop.contentDigest != "" {
      runningDigest := hop.contentDigest;
    }
    if hop.hopDigest != "" {
      runningHop := hop.hopDigest;
    } else {
      runningHop := HopDigest(sha, hop);
    }
    if broken {
      prov := prov.(promotion := prov.promotion.(continuity := Failed, digestFailure := true));
    } else if prov.promotion.continuity != Failed && hop.requestedAuthority != "" {
      match GrantFromHop(prov, hop) {
        case Some(granted) => prov := granted;
        case None => prov := prov.(promotion := prov.promotion.(continuity := Failed));
      }
    }
    return Fold(prov, runningDigest, runningHop);
  }

  /** The pass over the log, noting the authority before each hop. */
  method FoldLoop(sha: string -> string, origin: Origin, repr: string, hops: seq<Hop>) returns (f: Fold, pre: seq<string>)
    ensures f == Folded(sha, origin, repr, hops)
    ensures |pre| == |hops| && forall i :: 0 <= i < |pre| ==> pre[i] == PreAuthority(sha, origin, repr, hops, i)
  {
    f := FoldStart(origin, repr, hops);
    pre := [];
    for i := 0 to |hops|
      invariant f == Trace(sha, origin, repr, hops, i)
      invariant |pre| == i && forall k :: 0 <= k < i ==> pre[k] == PreAuthority(sha, origin, repr, hops, k)
    {
      pre := pre + [f.prov.authority];
      f := FoldOne(sha, f, hops[i], i == 0);
    }
  }

  /** foldTrace: a log beyond the bound is not folded at all. */
  method FoldTrace(sha: string -> string, origin: Origin, repr: string, hops: seq<Hop>)
    returns (prov: Provenance, pre: seq<string>)
    ensures prov == FoldProvenance(sha, origin, repr, hops)
    ensures |hops| <= MAX_HISTORY_HOPS ==>
      |pre| == |hops| && forall i :: 0 <= i < |pre| ==> pre[i] == PreAuthority(sha, origin, repr, hops, i)
  {
    if |hops| > MAX_HISTORY_HOPS {
      return BoundExceededProvenance(origin, repr), [];
    }
    var f;
    f, pre := FoldLoop(sha, origin, repr, hops);
    prov := f.prov;
  }

  // ----- endorsements and transforms -----

  /** The registry check of one endorsement against the hop it is attached to. */
  predicate ValidEndorsement(e: Endorsement, parentDigest: string, parentAuthority: string, childDigest: string,
                             transformer: string, to: string, requested: string, registry: Registry)
  {
    && e.id != "" && e.promoter != "" && e.grantAuthority != ""
    && requested != "" && e.grantAuthority == requested
    && e.promoter in registry
    && e.parentContentSha == parentDigest
    && e.childContentSha == childDigest
    && e.transformer == transformer && e.targetRepr == to
    && (var grant := AuthorityRank(e.grantAuthority);
        var ceiling := AuthorityRank(registry[e.promoter].ceiling);
        var input := AuthorityRank(parentAuthority);
        && grant.Some? && ceiling.Some? && grant.value <= ceiling.value
        && input.Some? && ceiling.value > input.value && grant.value > input.value)
  }

  datatype Transform = Transform(
    transformer: string, to: string, via: string, visibleRole: string,
    requestedAuthority: string, newContent: string)

  /** One context-construction step: the transform and the endorsement presented with it. */
  datatype Step = Step(t: Transform, endorse: Option<Endorsement>)

  function NewOriginObject(sha: string -> string, content: string, origin: Origin, repr: string,
                           effectClass: string, bearing: bool): InstructionObject
  {
    InstructionObject(1, content, bearing, effectClass,
                      GenesisProvenance(origin, repr, Digest(sha, content)), [], false)
  }

  /** The hop ApplyTransform appends, before its own digest is filled in. */
  function DraftHop(sha: string -> string, obj: InstructionObject, s: Step, registry: Registry): Hop {
    var parentDigest := Digest(sha, obj.content);
    var parentHop := if obj.history == [] then parentDigest else obj.history[|obj.history| - 1].hopDigest;
    var childDigest := Digest(sha, s.t.newContent);
    var observed := if s.endorse.Some? && s.endorse.value.promoter in registry
                    then registry[s.endorse.value.promoter].ceiling else "";
    var verdict := s.endorse.Some? && s.t.requestedAuthority != ""
                   && ValidEndorsement(s.endorse.value, parentDigest, obj.provenance.authority, childDigest,
                                       s.t.transformer, s.t.to, s.t.requestedAuthority, registry);
    Hop(Derivation(s.t.transformer, obj.provenance.currentRepr, s.t.via, s.t.to), s.t.newContent, childDigest,
        parentDigest, s.t.visibleRole, s.t.requestedAuthority, s.endorse, verdict, observed, parentHop, "")
  }

  function NewHop(sha: string -> string, obj: InstructionObject, s: Step, registry: Registry): Hop {
    var draft := DraftHop(sha, obj, s, registry);
    draft.(hopDigest := HopDigest(sha, draft))
  }

  function ApplyTransform(sha: string -> string, obj: InstructionObject, s: Step, registry: Registry): InstructionObject {
    if |obj.history| > MAX_HISTORY_HOPS then obj
    else
      var history := obj.history + [NewHop(sha, obj, s, registry)];
      obj.(content := s.t.newContent, history := history, instructionEligible := false,
           provenance := FoldProvenance(sha, obj.provenance.origin, obj.provenance.currentRepr, history))
  }

  /** The object after a sequence of transforms under one registry. */
  function Transformed(sha: string -> string, obj: InstructionObject, steps: seq<Step>, registry: Registry): InstructionObject {
    if steps == [] then obj
    else
      var n := |steps| - 1;
      ApplyTransform(sha, Transformed(sha, obj, steps[..n], registry), steps[n], registry)
  }

  // ----- verification and authorization -----

  /** root digest -> first hop ... last hop -> content, both ends. */
  predicate ContentChainBroken(sha: string -> string, root: EvaluationRoot, content: string, hops: seq<Hop>) {
    || root.contentSha == ""
    || (hops == [] && Digest(sha, content) != root.contentSha)
    || (hops != [] && (|| hops[0].parentDigest != root.contentSha
                       || hops[0].parentHopDigest != root.contentSha
                       || Digest(sha, content) != hops[|hops| - 1].contentDigest))
  }

  /** The verdict recorded on hop i is the one the registry gives now. */
  predicate VerdictAgrees(hop: Hop, preAuthority: string, registry: Registry) {
    match hop.endorsement
    case None => !hop.endorsementValid
    case Some(e) =>
      hop.endorsementValid == ValidEndorsement(e, hop.parentDigest, preAuthority, hop.contentDigest,
        hop.derivation.transformer, hop.derivation.toRepr, hop.requestedAuthority, registry)
  }

  /** What it takes for VerifyProvenance to return no error. */
  ghost predicate Accepts(sha: string -> string, obj: InstructionObject, root: EvaluationRoot, registry: Registry) {
    if obj.history == [] then
      && !ContentChainBroken(sha, root, obj.content, [])
      && obj.provenance == GenesisProvenance(root.origin, obj.provenance.currentRepr, root.contentSha)
    else
      && |obj.history| <= MAX_HISTORY_HOPS
      && AcceptsFold(sha, obj, root, registry,
                     Folded(sha, root.origin, obj.history[0].derivation.fromRepr, obj.history))
  }

  ghost predicate AcceptsFold(sha: string -> string, obj: InstructionObject, root: EvaluationRoot,
                              registry: Registry, fold: Fold)
  {
    && !ContentChainBroken(sha, root, obj.content, obj.history)
    && !fold.prov.promotion.digestFailure
    && obj.provenance == fold.prov
    && forall i :: 0 <= i < |obj.history| ==> VerdictAgreesAt(sha, obj.history, root.origin, registry, i)
  }

  /** Hop i's recorded verdict is the registry's, given the authority of the log before it. */
  ghost predicate VerdictAgreesAt(sha: string -> string, hops: seq<Hop>, origin: Origin, registry: Registry, i: nat)
    requires i < |hops|
  {
    VerdictAgrees(hops[i], PreAuthority(sha, origin, hops[0].derivation.fromRepr, hops, i), registry)
  }

  datatype VerifyError =
    | HistoryExceedsBound | ContentMismatch | OriginMismatch | ContentChain
    | MissingEndorsement(hop: nat) | HopContent(hop: nat) | HopDigestMismatch(hop: nat)
    | DigestChain | ProvenanceMismatch | VerdictDisagrees(hop: nat) | ContentDigestMismatch

  /** The digests a hop carries about itself; links between hops are the fold's job. */
  predicate SelfConsistent(sha: string -> string, hop: Hop) {
    && (hop.endorsementValid ==> hop.endorsement.Some?)
    && Digest(sha, hop.content) == hop.contentDigest
    && hop.hopDigest == HopDigest(sha, hop)
  }

  method CheckHops(sha: string -> string, hops: seq<Hop>) returns (err: Option<VerifyError>)
    ensures err.None? <==> forall i :: 0 <= i < |hops| ==> SelfConsistent(sha, hops[i])
  {
    for i := 0 to |hops|
      invariant forall j :: 0 <= j < i ==> SelfConsistent(sha, hops[j])
    {
      var hop := hops[i];
      if hop.endorsementValid && hop.endorsement.None? {
        return Some(MissingEndorsement(i));
      }
      if Digest(sha, hop.content) != hop.contentDigest {
        return Some(HopContent(i));
      }
      if hop.hopDigest != HopDigest(sha, hop) {
        return Some(HopDigestMismatch(i));
      }
    }
    return None;
  }

  method CheckVerdicts(hops: seq<Hop>, pre: seq<string>, registry: Registry) returns (err: Option<VerifyError>)
    requires |hops| == |pre|
    ensures err.None? <==> forall i :: 0 <= i < |hops| ==> VerdictAgrees(hops[i], pre[i], registry)
  {
    for i := 0 to |hops|
      invariant forall j :: 0 <= j < i ==> VerdictAgrees(hops[j], pre[j], registry)
    {
      if !VerdictAgrees(hops[i], pre[i], registry) {
        return Some(if hops[i].endorsement.None? then MissingEndorsement(i) else VerdictDisagrees(i));
      }
    }
    return None;
  }

  method VerifyProvenance(sha: string -> string, obj: InstructionObject, root: EvaluationRoot, registry: Registry)
    returns (err: Option<VerifyError>)
    ensures err.None? <==> Accepts(sha, obj, root, registry)
  {
    if |obj.history| > MAX_HISTORY_HOPS {
      return Some(HistoryExceedsBound);
    }
    if obj.history == [] {
      if root.contentSha == "" || Digest(sha, obj.content) != root.contentSha {
        return Some(ContentMismatch);
      }
      var want := GenesisProvenance(root.origin, obj.provenance.currentRepr, root.contentSha);
      return if want == obj.provenance then None else Some(OriginMismatch);
    }
    if ContentChainBroken(sha, root, obj.content, obj.history) {
      return Some(ContentChain);
    }
    err := VerifyHistory(sha, obj, root, registry);
  }

  /** The part of VerifyProvenance that walks a non-empty history whose two ends already match. */
  method VerifyHistory(sha: string -> string, obj: InstructionObject, root: EvaluationRoot, registry: Registry)
    returns (err: Option<VerifyError>)
    requires 0 < |obj.history| <= MAX_HISTORY_HOPS && !ContentChainBroken(sha, root, obj.content, obj.history)
    ensures err.None? <==> AcceptsFold(sha, obj, root, registry,
                                       Folded(sha, root.origin, obj.history[0].derivation.fromRepr, obj.history))
  {
    var repr := obj.history[0].derivation.fromRepr;
    TraceShape(sha, root.origin, repr, obj.history, |obj.history|);
    err := CheckHops(sha, obj.history);
    if err.Some? {
      SelfConsistentUnlessFlagged(sha, root.origin, repr, obj.history);
      return;
    }
    var folded, pre := FoldTrace(sha, root.origin, repr, obj.history);
    if folded.promotion.digestFailure {
      return Some(DigestChain);
    }
    if folded != obj.provenance {
      return Some(ProvenanceMismatch);
    }
    err := CheckVerdicts(obj.history, pre, registry);
    assert forall i :: 0 <= i < |pre| ==>
      (VerdictAgrees(obj.history[i], pre[i], registry) <==> VerdictAgreesAt(sha, obj.history, root.origin, registry, i));
    if err.Some? {
      return;
    }
    var last := obj.history[|obj.history| - 1].contentDigest;
    if obj.provenance.contentSha != last || Digest(sha, obj.content) != last {
      return Some(ContentDigestMismatch);
    }
    return None;
  }

  /** The provenance Authorize decides on: folded from the root, never read off the object. */
  function DerivedProvenance(sha: string -> string, obj: InstructionObject, root: EvaluationRoot): Provenance {
    if |obj.history| > MAX_HISTORY_HOPS then BoundExceededProvenance(root.origin, "")
    else
      var p := if obj.history == [] then GenesisProvenance(root.origin, "", root.contentSha)
               else FoldProvenance(sha, root.origin, obj.history[0].derivation.fromRepr, obj.history);
      if ContentChainBroken(sha, root, obj.content, obj.history)
      then p.(promotion := p.promotion.(continuity := Failed, digestFailure := true))
      else p
  }

  datatype Decision = Decision(execute: bool, reason: string)

  function Decide(p: Provenance, root: EvaluationRoot): Decision {
    if !root.instructionBearing then Decision(false, "not instruction-bearing content")
    else if p.promotion.digestFailure then Decision(false, "digest linkage broken")
    else if p.promotion.continuity == Failed then
      Decision(false, if p.promotion.attempted then "authority-expanding instruction" else "continuity FAILED")
    else match AuthorityRank(p.authority)
      case None => Decision(false, "unknown authority")
      case Some(rank) => if rank < 1 then Decision(false, "insufficient authority") else Decision(true, "authorized")
  }

  function Authorize(sha: string -> string, obj: InstructionObject, root: EvaluationRoot): Decision {
    if |obj.history| > MAX_HISTORY_HOPS then Decision(false, "history exceeds bound")
    else Decide(DerivedProvenance(sha, obj, root), root)
  }

  // ----- what the fold keeps -----

  /** What one hop adds to the fold, whatever the fold was. */
  lemma FoldHopShape(sha: string -> string, f: Fold, hop: Hop, first: bool)
    ensures var g := FoldHop(sha, f, hop, first);
      && |g.prov.lineage| == |f.prov.lineage| + 1 && |g.prov.derivedBy| == |f.prov.derivedBy| + 1
      && g.prov.origin == f.prov.origin && g.prov.contentSha == hop.contentDigest
      && (g.prov.promotion.digestFailure <==> f.prov.promotion.digestFailure || DigestBroken(sha, f, hop, first))
  {
  }

  /** What an intact hop does to authority and continuity. */
  lemma IntactHop(sha: string -> string, f: Fold, hop: Hop, first: bool)
    requires !DigestBroken(sha, f, hop, first)
    ensures var p, q := f.prov, FoldHop(sha, f, hop, first).prov;
      var asks := hop.requestedAuthority != "" && p.promotion.continuity == Pass;
      && q.authority == (if asks && Grants(hop) then hop.requestedAuthority else p.authority)
      && (q.promotion.continuity == Failed <==> p.promotion.continuity == Failed || (asks && !Grants(hop)))
  {
  }

  /** A failed fold stays failed, and a broken hop fails it. */
  lemma FailureStays(sha: string -> string, f: Fold, hop: Hop, first: bool)
    requires f.prov.promotion.continuity == Failed || DigestBroken(sha, f, hop, first)
    ensures FoldHop(sha, f, hop, first).prov.promotion.continuity == Failed
  {
  }

  lemma {:induction false} TraceShape(sha: string -> string, origin: Origin, repr: string, hops: seq<Hop>, n: nat)
    requires n <= |hops|
    ensures var f := Trace(sha, origin, repr, hops, n);
      && |f.prov.lineage| == |f.prov.derivedBy| == n
      && f.prov.origin == origin
      && (n > 0 ==> f.prov.contentSha == hops[n - 1].contentDigest)
  {
    if n > 0 {
      TraceShape(sha, origin, repr, hops, n - 1);
      FoldHopShape(sha, Trace(sha, origin, repr, hops, n - 1), hops[n - 1], n == 1);
    }
  }

  /** A log whose stored digests all recompute and link up, stated without folding. */
  ghost predicate Linked(sha: string -> string, hops: seq<Hop>) {
    forall i :: 0 <= i < |hops| ==> LinkedAt(sha, hops, i)
  }

  ghost predicate LinkedUpTo(sha: string -> string, hops: seq<Hop>, n: nat)
    requires n <= |hops|
  {
    forall i :: 0 <= i < n ==> LinkedAt(sha, hops, i)
  }

  ghost predicate LinkedAt(sha: string -> string, hops: seq<Hop>, i: nat)
    requires i < |hops|
  {
    && SelfConsistent(sha, hops[i])
    && if i == 0 then hops[i].parentHopDigest == hops[i].parentDigest
       else hops[i].parentDigest == hops[i - 1].contentDigest && hops[i].parentHopDigest == hops[i - 1].hopDigest
  }

  /** After a self-consistent hop the running digests are that hop's own. */
  lemma {:induction false} RunningDigests(sha: string -> string, origin: Origin, repr: string, hops: seq<Hop>, n: nat)
    requires 0 < n <= |hops| && SelfConsistent(sha, hops[n - 1])
    ensures Trace(sha, origin, repr, hops, n).runningDigest == hops[n - 1].contentDigest != ""
    ensures Trace(sha, origin, repr, hops, n).runningHop == hops[n - 1].hopDigest != ""
  {
  }

  /** Among hops that link up before it, a hop is flagged exactly when it does not link. */
  lemma {:induction false} BrokenMeansUnlinked(sha: string -> string, origin: Origin, repr: string, hops: seq<Hop>, n: nat)
    requires n < |hops| && (n > 0 ==> LinkedAt(sha, hops, n - 1))
    ensures DigestBroken(sha, Trace(sha, origin, repr, hops, n), hops[n], n == 0) <==> !LinkedAt(sha, hops, n)
  {
    if n > 0 {
      RunningDigests(sha, origin, repr, hops, n);
    }
  }

  lemma FailureStep(sha: string -> string, origin: Origin, repr: string, hops: seq<Hop>, n: nat)
    requires n < |hops|
    ensures var f := Trace(sha, origin, repr, hops, n);
      Trace(sha, origin, repr, hops, n + 1).prov.promotion.digestFailure
      <==> f.prov.promotion.digestFailure || DigestBroken(sha, f, hops[n], n == 0)
  {
    FoldHopShape(sha, Trace(sha, origin, repr, hops, n), hops[n], n == 0);
  }

  lemma LinkedOneMore(sha: string -> string, hops: seq<Hop>, n: nat)
    requires n < |hops|
    ensures LinkedUpTo(sha, hops, n + 1) <==> LinkedUpTo(sha, hops, n) && LinkedAt(sha, hops, n)
  {
  }

  lemma {:induction false} FailureMeansUnlinked(sha: string -> string, origin: Origin, repr: string, hops: seq<Hop>, n: nat)
    requires n <= |hops|
    ensures Trace(sha, origin, repr, hops, n).prov.promotion.digestFailure <==> !LinkedUpTo(sha, hops, n)
  {
    if n > 0 {
      var m := n - 1;
      FailureMeansUnlinked(sha, origin, repr, hops, m);
      FailureStep(sha, origin, repr, hops, m);
      LinkedOneMore(sha, hops, m);
      if LinkedUpTo(sha, hops, m) {
        BrokenMeansUnlinked(sha, origin, repr, hops, m);
      }
    }
  }

  /** The fold flags a digest failure exactly when the log does not link up. */
  lemma DigestFailureMeansUnlinked(sha: string -> string, origin: Origin, repr: string, hops: seq<Hop>)
    ensures Folded(sha, origin, repr, hops).prov.promotion.digestFailure <==> !Linked(sha, hops)
  {
    FailureMeansUnlinked(sha, origin, repr, hops, |hops|);
  }

  lemma SelfConsistentUnlessFlagged(sha: string -> string, origin: Origin, repr: string, hops: seq<Hop>)
    requires exists i :: 0 <= i < |hops| && !SelfConsistent(sha, hops[i])
    ensures Folded(sha, origin, repr, hops).prov.promotion.digestFailure
  {
    DigestFailureMeansUnlinked(sha, origin, repr, hops);
    var i :| 0 <= i < |hops| && !SelfConsistent(sha, hops[i]);
    assert !LinkedAt(sha, hops, i);
  }

  /** The starting representation is only a label: once there is a hop, nothing depends on it. */
  lemma {:induction false} StartingReprIrrelevant(
      sha: string -> string, origin: Origin, r0: string, r1: string, hops: seq<Hop>, n: nat)
    requires 0 < n <= |hops|
    ensures Trace(sha, origin, r0, hops, n) == Trace(sha, origin, r1, hops, n)
  {
    if n > 1 {
      StartingReprIrrelevant(sha, origin, r0, r1, hops, n - 1);
    }
  }

  /** A longer log folds over its shared part exactly as the shorter one did. */
  lemma {:induction false} PrefixFoldsAlike(sha: string -> string, origin: Origin, repr: string, hops: seq<Hop>, hop: Hop, n: nat)
    requires n <= |hops|
    ensures Trace(sha, origin, repr, hops + [hop], n).prov == Trace(sha, origin, repr, hops, n).prov
    ensures hops != [] ==> Trace(sha, origin, repr, hops + [hop], n) == Trace(sha, origin, repr, hops, n)
  {
    if n > 0 {
      PrefixFoldsAlike(sha, origin, repr, hops, hop, n - 1);
    }
  }

  /** Appending a hop folds it onto the fold of the log so far. */
  lemma FoldedSnoc(sha: string -> string, origin: Origin, repr: string, hops: seq<Hop>, hop: Hop)
    requires hops != []
    ensures Folded(sha, origin, repr, hops + [hop]) == FoldHop(sha, Folded(sha, origin, repr, hops), hop, false)
  {
    PrefixFoldsAlike(sha, origin, repr, hops, hop, |hops|);
  }
}
