/**
  What a capability receipt's delta and judgement are made of, signal by signal, exactly when a step is evaluated,
  and what the last hash of a chain commits to (internal/capability/evaluator.go, internal/capability/capability.go).
 */
module CapabilityExact {
  import opened Wrappers
  import opened CapabilityChain
  import opened CapabilityTheorems

  predicate Shows(signals: seq<Signal>, kind: SignalKind, level: Level) {
    exists i :: 0 <= i < |signals| && signals[i].kind == kind && signals[i].level == level
  }

  /** Some request to cross the host, network or workspace boundary was seen, at whatever level. */
  predicate Crosses(signals: seq<Signal>) {
    exists i :: 0 <= i < |signals|
      && (signals[i].kind == BoundaryHostExec || signals[i].kind == BoundaryEgress || signals[i].kind == BoundaryFileOutside)
  }

  // ----- deltas -----

  /** What a step's signals confirm: requests confirm themselves, markers only an attributable step that crosses nothing. */
  predicate Confirms(signals: seq<Signal>, attrib: bool, c: Cap) {
    match c
    case ReadSandboxMem => false
    case OobRead => attrib && !Crosses(signals) && Shows(signals, MemoryCorruption, RuntimeMarker)
    case OobWrite => attrib && !Crosses(signals) && Shows(signals, MemoryCorruption, RuntimeMarker)
    case HeapEscape => attrib && !Crosses(signals) && Shows(signals, SandboxEscape, RuntimeMarker)
    case NativeExec => attrib && !Crosses(signals) && Shows(signals, SandboxEscape, RuntimeMarker)
    case HostExec => Shows(signals, BoundaryHostExec, BoundaryRequest)
    case NetEgress => Shows(signals, BoundaryEgress, BoundaryRequest)
  }

  lemma ConfirmedSpelledOut(signals: seq<Signal>, attrib: bool, c: Cap)
    ensures c in Confirmed(signals, attrib) <==> Confirms(signals, attrib, c)
    ensures HasBoundary(signals) <==> Crosses(signals)
  {
    assert forall k, l :: HasLevel(signals, k, l) <==> Shows(signals, k, l);
  }

  /** A receipt's delta holds exactly what its signals confirm and the session did not hold yet. */
  lemma DeltaHoldsExactly(env: Environment, s: State, step: Step, prior: string, attrib: bool, r: Artifact, c: Cap)
    requires Accounts(env, s, step, prior, attrib, r)
    ensures c in r.delta <==> Confirms(r.signals, r.allow, c) && c !in r.before
    ensures c in r.after <==> c in r.before || c in r.delta
  {
    ConfirmedSpelledOut(r.signals, attrib, c);
    assert c in CapSet(r.delta) <==> c in r.delta;
    assert c in CapSet(Confirmed(r.signals, attrib)) <==> c in Confirmed(r.signals, attrib);
    assert c in CapSet(s.held) <==> c in s.held;
    assert c in CapSet(r.after) <==> c in r.after;
  }

  /** Over every run, what a receipt adds is what its own signals confirm and no earlier receipt added. */
  lemma {:induction false} ReceiptAddsExactly(env: Environment, sessionId: string, events: seq<Event>, w: World, i: nat, c: Cap)
    requires Run(env, Start(sessionId), events, w) && i < |w.artifacts| && w.artifacts[i].Receipt?
    ensures var r := w.artifacts[i];
      c in r.delta <==>
        && Confirms(r.signals, r.allow, c) && c != ReadSandboxMem
        && !(exists j :: 0 <= j < i && w.artifacts[j].Receipt? && c in w.artifacts[j].delta)
  {
    RunConfirms(env, Start(sessionId), events, w);
    EveryRunIsOneChain(env, sessionId, events, w);
    assert AccumulatesAt(w.artifacts, i) && DeltaConfirmed(w.artifacts[i]);
    HeldIsWhatDeltasAdded(env, w.state.sessionId, w.artifacts, i, c);
  }

  /** The receipt's delta is what its signals confirm beyond what was held before it. */
  ghost predicate DeltaConfirmed(a: Artifact) {
    a.Receipt? ==> forall c :: c in a.delta <==> Confirms(a.signals, a.allow, c) && c !in a.before
  }

  ghost predicate AllConfirmed(arts: seq<Artifact>) {
    forall i {:trigger DeltaConfirmed(arts[i])} :: 0 <= i < |arts| ==> DeltaConfirmed(arts[i])
  }

  lemma OneMoreConfirmed(arts: seq<Artifact>, a: Artifact)
    requires AllConfirmed(arts) && DeltaConfirmed(a)
    ensures AllConfirmed(arts + [a])
  {
    forall i | 0 <= i < |arts| + 1 ensures DeltaConfirmed((arts + [a])[i]) {
      assert i < |arts| ==> DeltaConfirmed(arts[i]);
    }
  }

  lemma EventConfirms(env: Environment, w: World, e: Event)
    requires Possible(env, w, e) && AllConfirmed(w.artifacts)
    ensures AllConfirmed(After(env, w, e).artifacts)
  {
    match e
    case Evaluated(step, prior, r) =>
      forall c ensures c in r.delta <==> Confirms(r.signals, r.allow, c) && c !in r.before {
        DeltaHoldsExactly(env, w.state, step, prior, Attribution(env, w.state, step, prior).value, r, c);
      }
      OneMoreConfirmed(w.artifacts, r);
    case Refused(_, _) =>
    case Recorded(stepId, error) =>
      var p := NewPause(env, w.state.sessionId, stepId, Tip(w.state), error);
      if p.Some? {
        OneMoreConfirmed(w.artifacts, p.value);
      }
  }

  lemma {:induction false} RunConfirms(env: Environment, w: World, events: seq<Event>, w': World)
    requires AllConfirmed(w.artifacts) && Run(env, w, events, w')
    ensures AllConfirmed(w'.artifacts)
    decreases |events|
  {
    if events != [] {
      EventConfirms(env, w, events[0]);
      RunConfirms(env, After(env, w, events[0]), events[1..], w');
    }
  }

  /** A capability later in the order of the lattice. */
  predicate Beyond(a: Cap, b: Cap) {
    match b
    case ReadSandboxMem => a != ReadSandboxMem
    case OobRead => a != ReadSandboxMem && a != OobRead
    case OobWrite => a == HeapEscape || a == NativeExec || a == HostExec || a == NetEgress
    case HeapEscape => a == NativeExec || a == HostExec || a == NetEgress
    case NativeExec => a == HostExec || a == NetEgress
    case HostExec => a == NetEgress
    case NetEgress => false
  }

  /**
    What a receipt says it observed: the capability of its delta that nothing in it is beyond; with an empty delta, the effect
    refused, if the step named one. Authority has changed if something was added or the envelope is crossed, and a
    declared primitive stays provisional until something is confirmed.
   */
  lemma ReceiptObserves(env: Environment, s: State, step: Step, prior: string, attrib: bool, r: Artifact)
    requires Accounts(env, s, step, prior, attrib, r)
    ensures r.observed.Capability? <==> r.delta != []
    ensures r.observed.Capability? ==> r.observed.cap in r.delta && forall c <- r.delta :: !Beyond(c, r.observed.cap)
    ensures r.delta == [] ==>
      (r.observed == Requested(step.effect) && !r.allow && step.effect != NoEffect) || (r.observed == Nothing && (r.allow || step.effect == NoEffect))
    ensures r.authorityChanged <==> r.delta != [] || r.envelopeAfter == BoundaryCrossing
    ensures r.envelopeAfter == BoundaryCrossing <==> r.envelopeBefore == BoundaryCrossing || !r.allow
    ensures r.provisional == if step.primitive != "" && r.delta == [] then Some(step.primitive) else None
  {
    assert forall a, b :: Beyond(a, b) <==> CapRank(a) > CapRank(b);
  }

  // ----- judgements -----

  /** A boundary request is judged as host execution if it asks for any, else as egress; a file request as nothing. */
  lemma DerivedEffectIs(signals: seq<Signal>)
    ensures DeriveEffect(signals) ==
      if Shows(signals, BoundaryHostExec, BoundaryRequest) then HostExecEffect
      else if Shows(signals, BoundaryEgress, BoundaryRequest) then NetEgressEffect
      else NoEffect
  {
    assert forall k, l :: HasLevel(signals, k, l) <==> Shows(signals, k, l);
  }

  /** The step is next in its session and follows on the last artifact. */
  predicate Follows(s: State, step: Step, prior: string) {
    && step.sessionId == s.sessionId && step.stepId >= 1 && (s.lastStep == 0 || step.stepId > s.lastStep)
    && prior != "" && prior == (if s.lastStep == 0 then GENESIS else s.lastHash)
  }

  /** What attribution is asked about; None where a step without an effect has nothing attributable to ask. */
  function Asked(env: Environment, norm: Step, signals: seq<Signal>): Option<Step> {
    if norm.effect != NoEffect then Some(norm)
    else if Shows(signals, BoundaryHostExec, BoundaryRequest) then Some(env.bind(norm, HostExecEffect))
    else if Shows(signals, BoundaryEgress, BoundaryRequest) then Some(env.bind(norm, NetEgressEffect))
    else if Crosses(signals) then None
    else if env.surface(norm) == NoSurface || env.surface(norm) == Inside then Some(norm)
    else None
  }

  /** A step is evaluated, and as attributable or not, exactly when it follows on, its authority is valid and attribution answers. */
  lemma EvaluatesExactlyWhen(env: Environment, s: State, step: Step, prior: string, attrib: bool)
    ensures var norm := step.(declared := env.normalize(step.declared));
      var asked := Asked(env, norm, env.extract(norm));
      Attribution(env, s, step, prior) == Some(attrib) <==>
        Follows(s, step, prior) && env.validates(step.declared) && asked.Some? && env.attributable(asked.value) == Ok(attrib)
  {
    var norm := step.(declared := env.normalize(step.declared));
    DerivedEffectIs(env.extract(norm));
    ConfirmedSpelledOut(env.extract(norm), attrib, HostExec);
  }

  // ----- what the tip commits to -----

  /** Two different artifacts with one digest. */
  predicate Collision(env: Environment, x: Artifact, y: Artifact) {
    x != y && env.digest(x) == env.digest(y)
  }

  lemma HashFixesArtifact(env: Environment, a: Artifact, b: Artifact)
    requires a.hash == HashOf(env, a) && b.hash == HashOf(env, b) && a.hash == b.hash
    ensures a == b || Collision(env, a.(hash := ""), b.(hash := ""))
  {
    assert env.digest(a.(hash := "")) == HashOf(env, a)[7..] && env.digest(b.(hash := "")) == HashOf(env, b)[7..];
    if a.(hash := "") == b.(hash := "") {
      assert a == a.(hash := "").(hash := a.hash) && b == b.(hash := "").(hash := b.hash);
    }
  }

  /**
    The last hash of a chain commits to every artifact: two chains that end on one hash are the same, or the digest
    collides on two artifacts found here, or it takes one to the fixed hash every chain starts from.
   */
  lemma {:induction false} TipCommitsToChain(env: Environment, sessionId: string, a: seq<Artifact>, b: seq<Artifact>)
      returns (x: Artifact, y: Artifact)
    requires IsChain(env, sessionId, a) && IsChain(env, sessionId, b) && a != [] && b != []
    requires a[|a| - 1].hash == b[|b| - 1].hash
    ensures a == b || Collision(env, x, y) || "sha256:" + env.digest(x) == GENESIS
    decreases |a|
  {
    var p, q := |a| - 1, |b| - 1;
    assert LinkedAt(env, sessionId, a, p) && LinkedAt(env, sessionId, b, q);
    x, y := a[p].(hash := ""), b[q].(hash := "");
    HashFixesArtifact(env, a[p], b[q]);
    if a[p] == b[q] {
      if p == 0 && q == 0 {
        assert a == [a[0]] && b == [b[0]];
      } else if p == 0 {
        x := b[q - 1].(hash := "");
        assert LinkedAt(env, sessionId, b, q - 1);
      } else if q == 0 {
        x := a[p - 1].(hash := "");
        assert LinkedAt(env, sessionId, a, p - 1);
      } else {
        ChainPrefix(env, sessionId, a, p);
        ChainPrefix(env, sessionId, b, q);
        x, y := TipCommitsToChain(env, sessionId, a[..p], b[..q]);
        assert a == a[..p] + [a[p]] && b == b[..q] + [b[q]];
      }
    }
  }

  lemma ChainPrefix(env: Environment, sessionId: string, arts: seq<Artifact>, n: nat)
    requires IsChain(env, sessionId, arts) && n <= |arts|
    ensures IsChain(env, sessionId, arts[..n])
  {
    forall i | 0 <= i < n ensures LinkedAt(env, sessionId, arts[..n], i) && AccumulatesAt(arts[..n], i) {
      assert LinkedAt(env, sessionId, arts, i) && AccumulatesAt(arts, i);
      PrefixIsPrefix(arts, n, i);
    }
  }

  lemma {:induction false} PrefixIsPrefix(arts: seq<Artifact>, n: nat, i: nat)
    requires i <= n <= |arts|
    ensures HeldAfter(arts[..n], i) == HeldAfter(arts, i) && EnvelopeAt(arts[..n], i) == EnvelopeAt(arts, i)
    ensures TipOf(arts[..n], i) == TipOf(arts, i)
  {
    if i > 0 {
      PrefixIsPrefix(arts, n, i - 1);
    }
  }
}
