/**
  Capability receipts over every run of evaluations and recorded pauses
  (internal/capability/evaluator.go, internal/capability/receipt.go, internal/proxy/tools_call.go).
 */
module CapabilityTheorems {
  import opened Wrappers
  import opened CapabilityChain

  // ----- what an artifact stream must look like -----

  function TipOf(arts: seq<Artifact>, n: nat): string
    requires n <= |arts|
  {
    if n == 0 then GENESIS else arts[n - 1].hash
  }

  /** The capabilities held after the first n artifacts; a pause adds none. */
  function HeldAfter(arts: seq<Artifact>, n: nat): seq<Cap>
    requires n <= |arts|
  {
    if n == 0 then [ReadSandboxMem]
    else if arts[n - 1].Receipt? then arts[n - 1].after else HeldAfter(arts, n - 1)
  }

  function EnvelopeAt(arts: seq<Artifact>, n: nat): Envelope
    requires n <= |arts|
  {
    if n == 0 then High
    else if arts[n - 1].Receipt? then arts[n - 1].envelopeAfter else EnvelopeAt(arts, n - 1)
  }

  /** Artifact i carries the session, a later step than the one before it, and the previous artifact's hash. */
  ghost predicate LinkedAt(env: Environment, sessionId: string, arts: seq<Artifact>, i: nat)
    requires i < |arts|
  {
    && arts[i].sessionId == sessionId && arts[i].stepId > 0
    && (i > 0 ==> arts[i].stepId > arts[i - 1].stepId)
    && arts[i].prevHash == TipOf(arts, i) && arts[i].hash == HashOf(env, arts[i])
  }

  /** A receipt starts from what was held, adds a disjoint delta, and never takes the envelope back to HIGH. */
  ghost predicate AccumulatesAt(arts: seq<Artifact>, i: nat)
    requires i < |arts|
  {
    arts[i].Receipt? ==>
      && arts[i].before == HeldAfter(arts, i) && arts[i].envelopeBefore == EnvelopeAt(arts, i)
      && InLatticeOrder(arts[i].before) && InLatticeOrder(arts[i].delta) && InLatticeOrder(arts[i].after)
      && CapSet(arts[i].before) !! CapSet(arts[i].delta)
      && CapSet(arts[i].after) == CapSet(arts[i].before) + CapSet(arts[i].delta)
      && arts[i].envelopeAfter == (if arts[i].allow then arts[i].envelopeBefore else BoundaryCrossing)
  }

  ghost predicate IsChain(env: Environment, sessionId: string, arts: seq<Artifact>) {
    forall i :: 0 <= i < |arts| ==> LinkedAt(env, sessionId, arts, i) && AccumulatesAt(arts, i)
  }

  /** The evaluator's fields are the end of the artifact stream. */
  ghost predicate Tracks(env: Environment, s: State, arts: seq<Artifact>) {
    && IsChain(env, s.sessionId, arts)
    && s.lastStep == (if arts == [] then 0 else arts[|arts| - 1].stepId)
    && (arts != [] ==> s.lastHash == arts[|arts| - 1].hash)
    && s.held == HeldAfter(arts, |arts|) && InLatticeOrder(s.held)
    && s.envelope == EnvelopeAt(arts, |arts|)
  }

  lemma {:induction false} PrefixAgrees(arts: seq<Artifact>, a: Artifact, n: nat)
    requires n <= |arts|
    ensures HeldAfter(arts + [a], n) == HeldAfter(arts, n) && EnvelopeAt(arts + [a], n) == EnvelopeAt(arts, n)
    ensures TipOf(arts + [a], n) == TipOf(arts, n)
  {
    if n > 0 {
      PrefixAgrees(arts, a, n - 1);
    }
  }

  lemma ChainSnoc(env: Environment, sessionId: string, arts: seq<Artifact>, a: Artifact)
    requires IsChain(env, sessionId, arts)
    requires LinkedAt(env, sessionId, arts + [a], |arts|) && AccumulatesAt(arts + [a], |arts|)
    ensures IsChain(env, sessionId, arts + [a])
  {
    var longer := arts + [a];
    forall i | 0 <= i < |arts| ensures LinkedAt(env, sessionId, longer, i) && AccumulatesAt(longer, i) {
      assert LinkedAt(env, sessionId, arts, i) && AccumulatesAt(arts, i);
      PrefixAgrees(arts, a, i);
    }
  }

  // ----- runs of the evaluator -----

  /** A successful Eval and its receipt, an Eval that fails, or a pause sealed on the tip and recorded. */
  datatype Event =
    | Evaluated(step: Step, prior: string, receipt: Artifact)
    | Refused(step: Step, prior: string)
    | Recorded(stepId: int, error: Error)

  datatype World = World(state: State, artifacts: seq<Artifact>)

  ghost predicate Possible(env: Environment, w: World, e: Event) {
    match e
    case Evaluated(step, prior, r) =>
      var attrib := Attribution(env, w.state, step, prior);
      attrib.Some? && Accounts(env, w.state, step, prior, attrib.value, r)
    case Refused(step, prior) => Attribution(env, w.state, step, prior).None?
    case Recorded(stepId, error) => NewPause(env, w.state.sessionId, stepId, Tip(w.state), error).Some?
  }

  /** A recorded pause joins the stream when the evaluator takes it as its predecessor; a rewind is ignored. */
  function After(env: Environment, w: World, e: Event): World {
    match e
    case Evaluated(_, _, r) => if r.Receipt? then World(Advanced(w.state, r), w.artifacts + [r]) else w
    case Refused(_, _) => w
    case Recorded(stepId, error) =>
      var p := NewPause(env, w.state.sessionId, stepId, Tip(w.state), error);
      if p.None? || stepId <= 0 || (w.state.lastStep != 0 && stepId <= w.state.lastStep) then w
      else World(PausedAt(w.state, stepId, p.value.hash), w.artifacts + [p.value])
  }

  ghost predicate Run(env: Environment, w: World, events: seq<Event>, w': World)
    decreases |events|
  {
    if events == [] then w == w'
    else Possible(env, w, events[0]) && Run(env, After(env, w, events[0]), events[1..], w')
  }

  function Start(sessionId: string): World {
    World(State(sessionId, 0, "", [ReadSandboxMem], High), [])
  }

  // ----- every event keeps the chain -----

  lemma TracksTip(env: Environment, s: State, arts: seq<Artifact>)
    requires Tracks(env, s, arts)
    ensures Tip(s) == TipOf(arts, |arts|)
  {
    if arts != [] {
      assert LinkedAt(env, s.sessionId, arts, |arts| - 1);
    }
  }

  lemma EvaluatedKeeps(env: Environment, s: State, arts: seq<Artifact>, step: Step, prior: string, attrib: bool, r: Artifact)
    requires Tracks(env, s, arts) && Accepts(s, step, prior) && Accounts(env, s, step, prior, attrib, r)
    ensures Tracks(env, Advanced(s, r), arts + [r])
  {
    TracksTip(env, s, arts);
    PrefixAgrees(arts, r, |arts|);
    assert LinkedAt(env, s.sessionId, arts + [r], |arts|);
    ChainSnoc(env, s.sessionId, arts, r);
  }

  lemma RecordedKeeps(env: Environment, s: State, arts: seq<Artifact>, stepId: int, error: Error)
    requires Tracks(env, s, arts) && stepId > 0 && (s.lastStep != 0 ==> stepId > s.lastStep)
    requires NewPause(env, s.sessionId, stepId, Tip(s), error).Some?
    ensures var p := NewPause(env, s.sessionId, stepId, Tip(s), error).value;
      Tracks(env, PausedAt(s, stepId, p.hash), arts + [p])
  {
    var p := NewPause(env, s.sessionId, stepId, Tip(s), error).value;
    SealedHashes(env, Pause(s.sessionId, stepId, "", "", error), Tip(s));
    TracksTip(env, s, arts);
    PrefixAgrees(arts, p, |arts|);
    if arts != [] {
      assert LinkedAt(env, s.sessionId, arts, |arts| - 1);
    }
    assert LinkedAt(env, s.sessionId, arts + [p], |arts|);
    ChainSnoc(env, s.sessionId, arts, p);
  }

  lemma EventKeeps(env: Environment, w: World, e: Event)
    requires Tracks(env, w.state, w.artifacts) && Possible(env, w, e)
    ensures Tracks(env, After(env, w, e).state, After(env, w, e).artifacts)
  {
    match e
    case Evaluated(step, prior, r) =>
      EvaluatedKeeps(env, w.state, w.artifacts, step, prior, Attribution(env, w.state, step, prior).value, r);
    case Refused(_, _) =>
    case Recorded(stepId, error) =>
      if stepId > 0 && (w.state.lastStep != 0 ==> stepId > w.state.lastStep) {
        RecordedKeeps(env, w.state, w.artifacts, stepId, error);
      }
  }

  lemma {:induction false} RunKeeps(env: Environment, w: World, events: seq<Event>, w': World)
    requires Tracks(env, w.state, w.artifacts) && Run(env, w, events, w')
    ensures Tracks(env, w'.state, w'.artifacts)
    decreases |events|
  {
    if events != [] {
      EventKeeps(env, w, events[0]);
      RunKeeps(env, After(env, w, events[0]), events[1..], w');
    }
  }

  // ----- main results -----

  /** Every run's artifacts form one hash-linked, accumulating chain, and the evaluator stands at its end. */
  lemma {:induction false} EveryRunIsOneChain(env: Environment, sessionId: string, events: seq<Event>, w: World)
    requires Run(env, Start(sessionId), events, w)
    ensures Tracks(env, w.state, w.artifacts)
  {
    RunKeeps(env, Start(sessionId), events, w);
  }

  /** Capabilities once held stay held, and everything held is the baseline or was some earlier receipt's delta. */
  lemma {:induction false} HeldIsWhatDeltasAdded(env: Environment, sessionId: string, arts: seq<Artifact>, n: nat, c: Cap)
    requires IsChain(env, sessionId, arts) && n <= |arts|
    ensures c in HeldAfter(arts, n) <==>
      c == ReadSandboxMem || exists i :: 0 <= i < n && arts[i].Receipt? && c in arts[i].delta
  {
    if n > 0 {
      HeldIsWhatDeltasAdded(env, sessionId, arts, n - 1, c);
      assert AccumulatesAt(arts, n - 1);
      if arts[n - 1].Receipt? {
        assert c in HeldAfter(arts, n) <==> c in CapSet(arts[n - 1].after);
        assert c in HeldAfter(arts, n - 1) <==> c in CapSet(arts[n - 1].before);
        assert c in arts[n - 1].delta <==> c in CapSet(arts[n - 1].delta);
      }
    }
  }

  /** No capability is in the delta of two receipts. */
  lemma DeltasAreDisjoint(env: Environment, sessionId: string, arts: seq<Artifact>, i: nat, j: nat)
    requires IsChain(env, sessionId, arts) && i < j < |arts| && arts[i].Receipt? && arts[j].Receipt?
    ensures CapSet(arts[i].delta) !! CapSet(arts[j].delta)
  {
    forall c | c in arts[i].delta ensures c !in arts[j].delta {
      HeldIsWhatDeltasAdded(env, sessionId, arts, j, c);
      assert AccumulatesAt(arts, j);
      assert c in CapSet(arts[j].before);
    }
  }

  /** The envelope crosses the boundary exactly at the first receipt that is not allowed, and never comes back. */
  lemma {:induction false} EnvelopeIsOneWay(env: Environment, sessionId: string, arts: seq<Artifact>, n: nat)
    requires IsChain(env, sessionId, arts) && n <= |arts|
    ensures EnvelopeAt(arts, n).BoundaryCrossing? <==> exists i :: 0 <= i < n && arts[i].Receipt? && !arts[i].allow
  {
    if n > 0 {
      EnvelopeIsOneWay(env, sessionId, arts, n - 1);
      assert AccumulatesAt(arts, n - 1);
    }
  }

  // ----- steps without a structured effect fail closed -----

  /**
    The receipt was made of this step, whose boundary signals, if any, derived an effect that attribution
    judged; with none, the step had no file surface outside the workspace and was itself judged.
   */
  predicate JudgedFrom(env: Environment, r: Artifact, step: Step)
    requires r.Receipt?
  {
    && step.effect == NoEffect && step.sessionId == r.sessionId && step.stepId == r.stepId
    && step.declared == r.declared && env.extract(step) == r.signals
    && if HasBoundary(r.signals) then
         DeriveEffect(r.signals) != NoEffect && env.attributable(env.bind(step, DeriveEffect(r.signals))) == Ok(r.allow)
       else
         (env.surface(step).NoSurface? || env.surface(step).Inside?) && env.attributable(step) == Ok(r.allow)
  }

  ghost predicate Judged(env: Environment, a: Artifact) {
    a.Receipt? ==> exists step :: JudgedFrom(env, a, step)
  }

  ghost predicate AllJudged(env: Environment, arts: seq<Artifact>) {
    forall i {:trigger Judged(env, arts[i])} :: 0 <= i < |arts| ==> Judged(env, arts[i])
  }

  /** No event of the run evaluates a step with a structured effect. */
  predicate Untyped(events: seq<Event>) {
    forall i :: 0 <= i < |events| && events[i].Evaluated? ==> events[i].step.effect == NoEffect
  }

  lemma UntypedIsJudged(env: Environment, s: State, step: Step, prior: string, r: Artifact)
    requires step.effect == NoEffect && Attribution(env, s, step, prior).Some?
    requires Accounts(env, s, step, prior, Attribution(env, s, step, prior).value, r)
    ensures Judged(env, r)
  {
    var norm := step.(declared := env.normalize(step.declared));
    assert DeriveEffect(r.signals) != NoEffect ==> HasBoundary(r.signals);
    assert JudgedFrom(env, r, norm);
  }

  lemma OneMoreJudged(env: Environment, arts: seq<Artifact>, a: Artifact)
    requires AllJudged(env, arts) && Judged(env, a)
    ensures AllJudged(env, arts + [a])
  {
    forall i | 0 <= i < |arts| + 1 ensures Judged(env, (arts + [a])[i]) {
      assert i < |arts| ==> Judged(env, arts[i]);
    }
  }

  lemma EventJudges(env: Environment, w: World, e: Event)
    requires Possible(env, w, e) && AllJudged(env, w.artifacts) && (e.Evaluated? ==> e.step.effect == NoEffect)
    ensures AllJudged(env, After(env, w, e).artifacts)
  {
    match e
    case Evaluated(step, prior, r) =>
      UntypedIsJudged(env, w.state, step, prior, r);
      OneMoreJudged(env, w.artifacts, r);
    case Refused(_, _) =>
    case Recorded(stepId, error) =>
      var p := NewPause(env, w.state.sessionId, stepId, Tip(w.state), error);
      if p.Some? {
        OneMoreJudged(env, w.artifacts, p.value);
      }
  }

  lemma {:induction false} RunJudges(env: Environment, w: World, events: seq<Event>, w': World)
    requires AllJudged(env, w.artifacts) && Run(env, w, events, w') && Untyped(events)
    ensures AllJudged(env, w'.artifacts)
    decreases |events|
  {
    if events != [] {
      EventJudges(env, w, events[0]);
      RunJudges(env, After(env, w, events[0]), events[1..], w');
    }
  }

  /**
    Fail closed, over every run of steps without a structured effect: every receipt that carries a boundary
    signal is allowed exactly if the effect derived from its signals was found attributable, and a receipt
    without one is of a step whose file surface stays inside the workspace.
   */
  lemma {:induction false} UntypedBoundariesAreJudged(env: Environment, sessionId: string, events: seq<Event>, w: World, i: nat)
    requires Run(env, Start(sessionId), events, w) && Untyped(events) && i < |w.artifacts| && w.artifacts[i].Receipt?
    ensures exists step :: JudgedFrom(env, w.artifacts[i], step)
  {
    RunJudges(env, Start(sessionId), events, w);
    assert Judged(env, w.artifacts[i]);
  }

  // ----- the proxy's adapter -----

  class Adapter {
    const env: Environment
    const eval: ChainEvaluator
    var stepId: int
    var lastHash: string
    ghost var artifacts: seq<Artifact>

    ghost predicate Valid()
      reads this, eval
    {
      && eval.env == env
      && Tracks(env, eval.View(), artifacts) && AllJudged(env, artifacts)
      && stepId >= 0 && eval.lastStep <= stepId
      && lastHash == Tip(eval.View()) != ""
    }

    constructor (env: Environment, sessionId: string)
      requires sessionId != ""
      ensures Valid() && fresh(eval) && eval.sessionId == sessionId && artifacts == []
    {
      this.env := env;
      eval := new ChainEvaluator(env, sessionId);
      stepId, lastHash, artifacts := 0, GENESIS, [];
    }

    /**
      The accounting part of a tools/call: exactly one artifact per call joins the chain, a receipt or,
      when evaluation fails, a sealed pause; only an allowed receipt leaves the decision unpaused. The step
      it builds never carries a structured effect or a primitive.
     */
    method Mediate(call: Step) returns (artifact: Artifact, paused: bool)
      requires Valid()
      modifies this, eval
      ensures Valid()
      ensures artifacts == old(artifacts) + [artifact] && stepId == old(stepId) + 1 == artifact.stepId
      ensures paused <==> !(artifact.Receipt? && artifact.allow)
      ensures var step := call.(sessionId := eval.sessionId, stepId := stepId, effect := NoEffect, primitive := "");
        var attrib := Attribution(env, old(eval.View()), step, old(lastHash));
        && (artifact.Pause? <==> attrib.None?)
        && (attrib.Some? ==> Accounts(env, old(eval.View()), step, old(lastHash), attrib.value, artifact))
    {
      stepId := stepId + 1;
      var step := call.(sessionId := eval.sessionId, stepId := stepId, effect := NoEffect, primitive := "");
      ghost var s := eval.View();
      var r := eval.Eval(step, lastHash);
      if r.Err? {
        var pause := NewPause(env, eval.sessionId, stepId, lastHash, r.error);
        RecordedKeeps(env, s, artifacts, stepId, r.error);
        SealedHashes(env, Pause(eval.sessionId, stepId, "", "", r.error), lastHash);
        artifact, paused := pause.value, true;
        lastHash := artifact.hash;
        eval.AdvanceAfterError(stepId, artifact.hash);
        OneMoreJudged(env, artifacts, artifact);
        artifacts := artifacts + [artifact];
        return;
      }
      artifact := r.value;
      EvaluatedKeeps(env, s, artifacts, step, lastHash, Attribution(env, s, step, lastHash).value, artifact);
      UntypedIsJudged(env, s, step, lastHash, artifact);
      OneMoreJudged(env, artifacts, artifact);
      lastHash := artifact.hash;
      artifacts := artifacts + [artifact];
      paused := !artifact.allow;
    }
  }
}
