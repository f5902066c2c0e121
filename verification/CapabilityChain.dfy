/**
  The per-session capability evaluator and the adapter that calls it
  (internal/capability/evaluator.go, internal/capability/capability.go,
  internal/capability/receipt.go, internal/proxy/tools_call.go).

  Authority validation and normalisation, signal extraction, target binding, attribution and
  workspace containment come in through an Environment; JSON and SHA-256 through `digest`.
 */
module CapabilityChain {
  import opened Wrappers

  // ----- the capability lattice -----

  datatype Cap = ReadSandboxMem | OobRead | OobWrite | HeapEscape | NativeExec | HostExec | NetEgress

  const LATTICE := [ReadSandboxMem, OobRead, OobWrite, HeapEscape, NativeExec, HostExec, NetEgress]

  function CapRank(c: Cap): nat {
    match c
    case ReadSandboxMem => 0
    case OobRead => 1
    case OobWrite => 2
    case HeapEscape => 3
    case NativeExec => 4
    case HostExec => 5
    case NetEgress => 6
  }

  /** Strictly ascending in the lattice's emission order, so without repeats. */
  ghost predicate InLatticeOrder(caps: seq<Cap>) {
    forall i, j :: 0 <= i < j < |caps| ==> CapRank(caps[i]) < CapRank(caps[j])
  }

  function CapSet(caps: seq<Cap>): set<Cap> {
    set c | c in caps
  }

  /** unionLattice: the members of both lists, each once, in lattice order. */
  method UnionLattice(before: seq<Cap>, delta: seq<Cap>) returns (out: seq<Cap>)
    ensures InLatticeOrder(out) && CapSet(out) == CapSet(before) + CapSet(delta)
  {
    var have := CapSet(before) + CapSet(delta);
    out := [];
    for i := 0 to |LATTICE|
      invariant InLatticeOrder(out)
      invariant forall c :: c in out <==> c in have && CapRank(c) < i
    {
      assert CapRank(LATTICE[i]) == i;
      assert forall c :: CapRank(c) == i ==> c == LATTICE[i];
      if LATTICE[i] in have {
        out := out + [LATTICE[i]];
      }
    }
  }

  /** newlyHeld: what is not held yet, in the order given. */
  method NewlyHeld(add: seq<Cap>, held: seq<Cap>) returns (out: seq<Cap>)
    ensures CapSet(out) == CapSet(add) - CapSet(held)
    ensures InLatticeOrder(add) ==> InLatticeOrder(out)
  {
    out := [];
    for i := 0 to |add|
      invariant forall c :: c in out <==> c in add[..i] && c !in held
      invariant InLatticeOrder(add) ==> InLatticeOrder(out)
      invariant InLatticeOrder(add) ==> forall j, k :: 0 <= j < |out| && i <= k < |add| ==> CapRank(out[j]) < CapRank(add[k])
    {
      assert add[..i + 1] == add[..i] + [add[i]];
      if add[i] !in held {
        out := out + [add[i]];
      }
    }
    assert add[..|add|] == add;
  }

  /** highestCapability. */
  method Highest(caps: seq<Cap>) returns (best: Option<Cap>)
    ensures best.None? <==> caps == []
    ensures best.Some? ==> best.value in caps && forall c :: c in caps ==> CapRank(c) <= CapRank(best.value)
  {
    best := None;
    for i := 0 to |caps|
      invariant best.None? <==> i == 0
      invariant best.Some? ==> best.value in caps && forall j :: 0 <= j < i ==> CapRank(caps[j]) <= CapRank(best.value)
    {
      if best.None? || CapRank(caps[i]) > CapRank(best.value) {
        best := Some(caps[i]);
      }
    }
  }

  // ----- steps and signals -----

  datatype Level = DeclaredOnly | ArtifactLevel | RuntimeMarker | BoundaryRequest

  datatype SignalKind =
    | DeclaredIntent | PocCreated | BuildArtifact | MemoryCorruption | SandboxEscape
    | BoundaryHostExec | BoundaryEgress | BoundaryFileOutside

  datatype Signal = Signal(kind: SignalKind, level: Level, observation: string)

  datatype Effect =
    | NoEffect | HostExecEffect | NetEgressEffect | FileAccessEffect | CanaryAccessEffect
    | UnknownEffect(text: string)

  /** `observed` stands for the tool, arguments, path, destination and result fields. */
  datatype Step = Step(
    sessionId: string, stepId: int, effect: Effect, declared: string, primitive: string, observed: string)

  datatype Error = InvalidStep | Internal

  /** Where an empty-effect step's mediated file surface lies. */
  datatype Surface = NoSurface | Inside | Outside | Unresolvable

  datatype Environment = Environment(
    validates: string -> bool,
    normalize: string -> string,
    extract: Step -> seq<Signal>,
    surface: Step -> Surface,
    bind: (Step, Effect) -> Step,
    attributable: Step -> Result<bool, Error>,
    digest: Artifact -> string)

  predicate HasLevel(signals: seq<Signal>, kind: SignalKind, level: Level) {
    exists i :: 0 <= i < |signals| && signals[i].kind == kind && signals[i].level == level
  }

  predicate IsBoundary(kind: SignalKind) {
    kind.BoundaryHostExec? || kind.BoundaryEgress? || kind.BoundaryFileOutside?
  }

  predicate HasBoundary(signals: seq<Signal>) {
    exists i :: 0 <= i < |signals| && IsBoundary(signals[i].kind)
  }

  function DeriveEffect(signals: seq<Signal>): Effect {
    if HasLevel(signals, BoundaryHostExec, BoundaryRequest) then HostExecEffect
    else if HasLevel(signals, BoundaryEgress, BoundaryRequest) then NetEgressEffect
    else NoEffect
  }

  /** What the signals confirm, before removing what is held. */
  function Confirmed(signals: seq<Signal>, attrib: bool): seq<Cap> {
    var boundary := HasBoundary(signals);
    (if attrib && !boundary && HasLevel(signals, MemoryCorruption, RuntimeMarker) then [OobRead, OobWrite] else [])
    + (if attrib && !boundary && HasLevel(signals, SandboxEscape, RuntimeMarker) then [HeapEscape, NativeExec] else [])
    + (if HasLevel(signals, BoundaryHostExec, BoundaryRequest) then [HostExec] else [])
    + (if HasLevel(signals, BoundaryEgress, BoundaryRequest) then [NetEgress] else [])
  }

  /** confirmedDelta: runtime markers and boundary requests never confirm together, so the list is in lattice order. */
  method ConfirmedDelta(signals: seq<Signal>, attrib: bool, held: seq<Cap>) returns (delta: seq<Cap>)
    ensures InLatticeOrder(delta)
    ensures CapSet(delta) == CapSet(Confirmed(signals, attrib)) - CapSet(held)
  {
    var add: seq<Cap> := [];
    if HasLevel(signals, BoundaryHostExec, BoundaryRequest) {
      add := add + [HostExec];
    }
    if HasLevel(signals, BoundaryEgress, BoundaryRequest) {
      add := add + [NetEgress];
    }
    assert add != [] ==> HasBoundary(signals);
    if attrib && !HasBoundary(signals) {
      if HasLevel(signals, MemoryCorruption, RuntimeMarker) {
        add := add + [OobRead, OobWrite];
      }
      if HasLevel(signals, SandboxEscape, RuntimeMarker) {
        add := add + [HeapEscape, NativeExec];
      }
    }
    assert InLatticeOrder(add) && add == Confirmed(signals, attrib);
    delta := NewlyHeld(add, held);
  }

  // ----- receipts -----

  datatype Envelope = High | BoundaryCrossing

  datatype Observed = Nothing | Capability(cap: Cap) | Requested(effect: Effect)

  datatype Artifact =
    | Receipt(
        sessionId: string, stepId: int, prevHash: string, hash: string, allow: bool,
        declared: string, signals: seq<Signal>, before: seq<Cap>, delta: seq<Cap>, after: seq<Cap>,
        observed: Observed, authorityChanged: bool, envelopeBefore: Envelope, envelopeAfter: Envelope,
        provisional: Option<string>)
    | Pause(sessionId: string, stepId: int, prevHash: string, hash: string, error: Error)

  const GENESIS := "sha256:e3b0c44298fc1c149afbf4c8996fb92427ae41e490166ae4ba7b5b37bcd8deac"

  /** Seal: "sha256:" and the digest of the artifact with its hash cleared. */
  function HashOf(env: Environment, a: Artifact): string {
    "sha256:" + env.digest(a.(hash := ""))
  }

  function Sealed(env: Environment, a: Artifact, prevHash: string): Artifact {
    var linked := a.(prevHash := prevHash);
    linked.(hash := HashOf(env, linked))
  }

  lemma SealedHashes(env: Environment, a: Artifact, prevHash: string)
    ensures Sealed(env, a, prevHash).hash == HashOf(env, Sealed(env, a, prevHash))
    ensures Sealed(env, a, prevHash).hash != ""
  {
    var linked := a.(prevHash := prevHash);
    assert Sealed(env, a, prevHash).(hash := "") == linked.(hash := "");
  }

  // ----- one evaluation, as a relation -----

  datatype State = State(sessionId: string, lastStep: int, lastHash: string, held: seq<Cap>, envelope: Envelope)

  function Tip(s: State): string {
    if s.lastStep != 0 then s.lastHash else GENESIS
  }

  /** The checks on the step's place in the chain. */
  predicate Accepts(s: State, step: Step, prior: string) {
    && step.sessionId == s.sessionId && step.stepId > 0
    && (s.lastStep != 0 ==> step.stepId > s.lastStep)
    && prior != "" && prior == Tip(s)
  }

  /** The step attribution sees, or None for an untyped boundary observation. */
  function Typed(env: Environment, step: Step, signals: seq<Signal>): Option<Step> {
    if step.effect != NoEffect then Some(step)
    else
      var kind := DeriveEffect(signals);
      if kind != NoEffect then Some(env.bind(step, kind))
      else if HasBoundary(signals) || env.surface(step).Outside? || env.surface(step).Unresolvable? then None
      else Some(step)
  }

  /** Whether the step is inside the declared envelope, or None when evaluation fails. */
  function Attribution(env: Environment, s: State, step: Step, prior: string): Option<bool> {
    if !Accepts(s, step, prior) || !env.validates(step.declared) then None
    else
      var norm := step.(declared := env.normalize(step.declared));
      match Typed(env, norm, env.extract(norm))
      case None => None
      case Some(t) => match env.attributable(t)
        case Err(_) => None
        case Ok(attrib) => Some(attrib)
  }

  predicate IsHighest(best: Cap, caps: seq<Cap>) {
    best in caps && forall c :: c in caps ==> CapRank(c) <= CapRank(best)
  }

  /** What the receipt of a step says, given whether it is attributable. */
  ghost predicate Accounts(env: Environment, s: State, step: Step, prior: string, attrib: bool, r: Artifact) {
    var norm := step.(declared := env.normalize(step.declared));
    var signals := env.extract(norm);
    && r.Receipt?
    && r.sessionId == step.sessionId && r.stepId == step.stepId && r.prevHash == prior && r.hash == HashOf(env, r)
    && r.declared == norm.declared && r.signals == signals && r.allow == attrib
    && r.before == s.held && InLatticeOrder(r.delta) && InLatticeOrder(r.after)
    && CapSet(r.delta) == CapSet(Confirmed(signals, attrib)) - CapSet(s.held)
    && CapSet(r.after) == CapSet(r.before) + CapSet(r.delta)
    && r.envelopeBefore == s.envelope && r.envelopeAfter == (if attrib then s.envelope else BoundaryCrossing)
    && r.authorityChanged == (r.delta != [] || r.envelopeAfter.BoundaryCrossing?)
    && (r.delta != [] ==> r.observed.Capability? && IsHighest(r.observed.cap, r.delta))
    && (r.delta == [] ==> r.observed == if !attrib && step.effect != NoEffect then Requested(step.effect) else Nothing)
    && r.provisional == (if step.primitive != "" && r.delta == [] then Some(step.primitive) else None)
  }

  function Advanced(s: State, r: Artifact): State
    requires r.Receipt?
  {
    State(s.sessionId, r.stepId, r.hash, r.after, r.envelopeAfter)
  }

  /** AdvanceAfterError. */
  function PausedAt(s: State, stepId: int, hash: string): State {
    if stepId <= 0 || hash == "" || (s.lastStep != 0 && stepId <= s.lastStep) then s
    else s.(lastStep := stepId, lastHash := hash)
  }

  /** The accounting half of Eval: deltas, envelope and the sealed receipt. */
  method Account(env: Environment, s: State, step: Step, prior: string, attrib: bool) returns (r: Artifact)
    ensures Accounts(env, s, step, prior, attrib, r)
  {
    var norm := step.(declared := env.normalize(step.declared));
    var signals := env.extract(norm);
    var delta := ConfirmedDelta(signals, attrib, s.held);
    var after := UnionLattice(s.held, delta);
    var highest := Highest(delta);
    var observed := Nothing;
    if highest.Some? {
      observed := Capability(highest.value);
    } else if !attrib && step.effect != NoEffect {
      observed := Requested(step.effect);
    }
    var envelopeAfter := if attrib then s.envelope else BoundaryCrossing;
    var receipt := Receipt(
      step.sessionId, step.stepId, "", "", attrib, norm.declared, signals, s.held, delta, after, observed,
      |delta| > 0 || envelopeAfter == BoundaryCrossing, s.envelope, envelopeAfter,
      if step.primitive != "" && |delta| == 0 then Some(step.primitive) else None);
    SealedHashes(env, receipt, prior);
    return Sealed(env, receipt, prior);
  }

  class ChainEvaluator {
    const env: Environment
    const sessionId: string
    var lastStep: int
    var lastHash: string
    var held: seq<Cap>
    var envelope: Envelope

    function View(): State
      reads this
    {
      State(sessionId, lastStep, lastHash, held, envelope)
    }

    constructor (env: Environment, sessionId: string)
      requires sessionId != ""
      ensures this.env == env && View() == State(sessionId, 0, "", [ReadSandboxMem], High)
    {
      this.env, this.sessionId := env, sessionId;
      lastStep, lastHash, held, envelope := 0, "", [ReadSandboxMem], High;
    }

    /** Eval: a sealed receipt and the state it leaves, or an error and nothing changed. */
    method Eval(step: Step, prior: string) returns (r: Result<Artifact, Error>)
      modifies this
      ensures r.Ok? <==> Attribution(env, old(View()), step, prior).Some?
      ensures r.Ok? ==>
        && Accounts(env, old(View()), step, prior, Attribution(env, old(View()), step, prior).value, r.value)
        && View() == Advanced(old(View()), r.value)
      ensures r.Err? ==> View() == old(View())
    {
      if step.sessionId != sessionId || step.stepId <= 0 {
        return Err(InvalidStep);
      }
      if lastStep != 0 && step.stepId <= lastStep {
        return Err(InvalidStep);
      }
      if prior == "" {
        return Err(InvalidStep);
      }
      var expected := GENESIS;
      if lastStep != 0 {
        expected := lastHash;
      }
      if prior != expected || !env.validates(step.declared) {
        return Err(InvalidStep);
      }
      var norm := step.(declared := env.normalize(step.declared));
      var signals := env.extract(norm);
      var attribStep := norm;
      if norm.effect == NoEffect {
        var kind := DeriveEffect(signals);
        if kind != NoEffect {
          attribStep := env.bind(norm, kind);
        } else {
          if HasBoundary(signals) {
            return Err(InvalidStep);
          }
          if env.surface(norm).Unresolvable? || env.surface(norm).Outside? {
            return Err(InvalidStep);
          }
        }
      }
      var attribution := env.attributable(attribStep);
      if attribution.Err? {
        return Err(attribution.error);
      }
      var attrib := attribution.value;
      var receipt := Account(env, View(), step, prior, attrib);
      lastStep, lastHash, held, envelope := step.stepId, receipt.hash, receipt.after, receipt.envelopeAfter;
      return Ok(receipt);
    }

    method AdvanceAfterError(stepId: int, pauseHash: string)
      modifies this`lastStep, this`lastHash
      ensures View() == PausedAt(old(View()), stepId, pauseHash)
    {
      if stepId <= 0 || pauseHash == "" {
        return;
      }
      if lastStep != 0 && stepId <= lastStep {
        return;
      }
      lastStep, lastHash := stepId, pauseHash;
    }
  }

  /** NewPauseReceipt refuses to seal without a predecessor. */
  function NewPause(env: Environment, sessionId: string, stepId: int, prevHash: string, error: Error): Option<Artifact> {
    if prevHash == "" then None else Some(Sealed(env, Pause(sessionId, stepId, "", "", error), prevHash))
  }
}
