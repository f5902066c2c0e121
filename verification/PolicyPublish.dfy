/**
  What a reload achieves, over every run: the policy it loaded is published, with every surface if the
  committer is installed; and what snapshots and readers hold was in force while they ran
  (internal/policy/watcher.go, internal/proxy/proxy.go).
 */
module PolicyPublish {
  import opened Wrappers
  import opened PolicyReload

  // ----- a thread's own statements in a run -----

  /** Thread t runs its next statement at step k. */
  ghost predicate Moves(run: seq<State>, k: nat, t: nat, load: Option<Policy>) {
    k + 1 < |run| && StepBy(run[k], t, load, run[k + 1])
  }

  lemma RunSteps(run: seq<State>, k: nat)
    requires IsRun(run) && k + 1 < |run|
    ensures Inv(run[k]) && Inv(run[k + 1]) && Step(run[k], run[k + 1])
  {
    RunKeepsInvariant(run, k);
    RunKeepsInvariant(run, k + 1);
  }

  lemma StaysOrMoves(s: State, s': State, t: nat)
    requires Step(s, s') && t < |s.pcs|
    ensures |s'.pcs| == |s.pcs| && s'.cfg == s.cfg && s'.capFlag == s.capFlag
    ensures s'.pcs[t] == s.pcs[t] || exists load :: StepBy(s, t, load, s')
  {
    var u: nat, load :| StepBy(s, u, load, s');
  }

  // ----- a reload publishes what it loaded -----

  /** Past the two stores of the publication. */
  predicate PastPublication(pc: PC) {
    || pc.RDirectUnlock? || pc.CPublishUnlock? || pc.CRedactor? || pc.CTimeout? || pc.CCap? || pc.CInstr? || pc.CAudit?
    || pc.CUnlock? || pc.Done?
  }

  /** In a reload that publishes without a committer, after it found none. */
  predicate Direct(pc: PC) {
    pc.RDirectRegistry? || pc.RDirectUnlock?
  }

  /** A reload carrying the policy it loaded, or past its end. */
  predicate Carries(pc: PC, pol: Policy) {
    match pc
    case RStallLock(p) => p == pol case RStallUnlock(p) => p == pol case RLock(p) => p == pol case RLocked(p) => p == pol
    case RDecide(p) => p == pol case RDirectRegistry(p) => p == pol case RDirectUnlock(p) => p == pol
    case RUnlock(p) => p == pol case CLock(p) => p == pol case CLocked(p) => p == pol case CPublish(p) => p == pol
    case CPublishLocked(p) => p == pol case CPolicy(p) => p == pol case CRegistry(p) => p == pol
    case CPublishUnlock(p) => p == pol case CRedactor(p) => p == pol case CTimeout(p) => p == pol case CCap(p) => p == pol
    case CInstr(p) => p == pol case CAudit(p) => p == pol case CUnlock(p) => p == pol
    case Done => true
    case _ => false
  }

  predicate Published(s: State, pol: Policy) {
    s.data.policy == pol && s.data.registry == pol
  }

  /** Every surface is the policy's while thread t holds the runtime lock. */
  predicate InForceUnder(s: State, t: nat, pol: Policy) {
    s.rt.writer == Some(t) && s.data.policy == pol && s.data.surfaces == SurfacesOf(pol, s.capFlag)
  }

  lemma CarriesOn(cfg: Policy, d: Shared, pc: PC, load: Option<Policy>, pol: Policy)
    requires Carries(pc, pol) && !pc.Done?
    ensures Carries(After(cfg, d, pc, load), pol)
  {
  }

  lemma PublicationStores(cfg: Policy, capFlag: bool, d: Shared, pc: PC, load: Option<Policy>, pol: Policy)
    requires Carries(pc, pol) && !pc.Done? && PcOk(cfg, capFlag, d, pc)
    requires !PastPublication(pc) && PastPublication(After(cfg, d, pc, load))
    ensures Store(capFlag, d, pc).policy == pol && Store(capFlag, d, pc).registry == pol
  {
  }

  lemma CommitEnds(s: State, t: nat, pol: Policy)
    requires Inv(s) && t < |s.pcs| && s.pcs[t] == CUnlock(pol)
    ensures InForceUnder(s, t, pol)
  {
    assert PcOk(s.cfg, s.capFlag, s.data, s.pcs[t]);
    assert RuntimeHolds(s)[t].Writing?;
  }

  lemma DoneComesFrom(cfg: Policy, d: Shared, pc: PC, load: Option<Policy>, pol: Policy)
    requires Carries(pc, pol) && !pc.Done? && After(cfg, d, pc, load).Done?
    ensures pc == CUnlock(pol) || Direct(pc)
  {
  }

  lemma DirectComesFrom(cfg: Policy, d: Shared, pc: PC, load: Option<Policy>, pol: Policy)
    requires Carries(pc, pol) && !Direct(pc) && Direct(After(cfg, d, pc, load))
    ensures pc == RDecide(pol) && !d.committer
  {
  }

  /** Step j of the run is thread t's decision to publish without a committer, there being none. */
  ghost predicate DecidesAlone(run: seq<State>, j: nat, t: nat, pol: Policy) {
    && j + 1 < |run| && t < |run[j].pcs| && t < |run[j + 1].pcs|
    && run[j].pcs[t] == RDecide(pol) && !run[j].data.committer && Direct(run[j + 1].pcs[t])
  }

  ghost predicate PublishedSince(run: seq<State>, i: nat, k: nat, pol: Policy) {
    exists m :: i < m <= k < |run| && Published(run[m], pol)
  }

  ghost predicate InForceSince(run: seq<State>, i: nat, k: nat, t: nat, pol: Policy) {
    exists m :: i < m <= k < |run| && InForceUnder(run[m], t, pol)
  }

  ghost predicate AloneSince(run: seq<State>, i: nat, k: nat, t: nat, pol: Policy) {
    exists j: nat :: i < j < k < |run| && DecidesAlone(run, j, t, pol)
  }

  /** What the way thread t has come since it loaded the policy at step i says of the states passed. */
  ghost predicate Way(run: seq<State>, i: nat, k: nat, t: nat, pol: Policy)
    requires k < |run| && t < |run[k].pcs|
  {
    var pc := run[k].pcs[t];
    && Carries(pc, pol)
    && (PastPublication(pc) ==> PublishedSince(run, i, k, pol))
    && (Direct(pc) ==> AloneSince(run, i, k, t, pol))
    && (pc.Done? ==> InForceSince(run, i, k, t, pol) || AloneSince(run, i, k, t, pol))
  }

  lemma SinceLasts(run: seq<State>, i: nat, k: nat, t: nat, pol: Policy)
    requires k + 1 < |run|
    ensures PublishedSince(run, i, k, pol) ==> PublishedSince(run, i, k + 1, pol)
    ensures InForceSince(run, i, k, t, pol) ==> InForceSince(run, i, k + 1, t, pol)
    ensures AloneSince(run, i, k, t, pol) ==> AloneSince(run, i, k + 1, t, pol)
  {
  }

  lemma OwnStatement(run: seq<State>, i: nat, k: nat, t: nat, load: Option<Policy>, pol: Policy)
    requires IsRun(run) && i < k && Moves(run, k, t, load) && Way(run, i, k, t, pol)
    ensures t < |run[k + 1].pcs| && Way(run, i, k + 1, t, pol)
  {
    RunSteps(run, k);
    var s, pc := run[k], run[k].pcs[t];
    var pc' := After(s.cfg, s.data, pc, load);
    assert run[k + 1].pcs[t] == pc' && PcOk(s.cfg, s.capFlag, s.data, pc);
    CarriesOn(s.cfg, s.data, pc, load, pol);
    SinceLasts(run, i, k, t, pol);
    if !PastPublication(pc) && PastPublication(pc') {
      PublicationStores(s.cfg, s.capFlag, s.data, pc, load, pol);
      assert Published(run[k + 1], pol);
    }
    if !Direct(pc) && Direct(pc') {
      DirectComesFrom(s.cfg, s.data, pc, load, pol);
      assert DecidesAlone(run, k, t, pol);
    }
    if pc'.Done? {
      DoneComesFrom(s.cfg, s.data, pc, load, pol);
      if pc == CUnlock(pol) {
        CommitEnds(s, t, pol);
      }
    }
  }

  lemma WayGoesOn(run: seq<State>, i: nat, k: nat, t: nat, pol: Policy)
    requires IsRun(run) && i < k && k + 1 < |run| && t < |run[k].pcs| && Way(run, i, k, t, pol)
    ensures t < |run[k + 1].pcs| && Way(run, i, k + 1, t, pol)
  {
    RunSteps(run, k);
    StaysOrMoves(run[k], run[k + 1], t);
    SinceLasts(run, i, k, t, pol);
    if run[k + 1].pcs[t] != run[k].pcs[t] {
      var load :| StepBy(run[k], t, load, run[k + 1]);
      OwnStatement(run, i, k, t, load, pol);
    }
  }

  /** The same, opaque to quantifiers over states. */
  ghost predicate OnWay(run: seq<State>, i: nat, k: nat, t: nat, pol: Policy) {
    k < |run| && t < |run[k].pcs| && Way(run, i, k, t, pol)
  }

  lemma {:induction false} OnWayFrom(run: seq<State>, i: nat, m: nat, k: nat, t: nat, pol: Policy)
    requires IsRun(run) && i < m <= k < |run| && OnWay(run, i, m, t, pol)
    ensures OnWay(run, i, k, t, pol)
    decreases k - m
  {
    if m < k {
      WayGoesOn(run, i, m, t, pol);
      OnWayFrom(run, i, m + 1, k, t, pol);
    }
  }

  lemma WayBegins(run: seq<State>, i: nat, t: nat, pol: Policy)
    requires Moves(run, i, t, Some(pol)) && run[i].pcs[t].RLoad?
    ensures OnWay(run, i, i + 1, t, pol)
  {
    assert run[i + 1].pcs[t] == RStallLock(pol);
  }

  lemma WayOf(run: seq<State>, i: nat, k: nat, t: nat, pol: Policy)
    requires IsRun(run) && i < k < |run| && Moves(run, i, t, Some(pol)) && run[i].pcs[t].RLoad?
    ensures OnWay(run, i, k, t, pol)
  {
    WayBegins(run, i, t, pol);
    OnWayFrom(run, i, i + 1, k, t, pol);
  }

  /**
    A reload that loads a policy and finishes has published it: some state in between has it as policy and
    registry. And some state in between has every surface of that policy, under the runtime lock, unless the
    reload decided, with no committer installed, to publish alone.
   */
  lemma FinishedReloadHasPublished(run: seq<State>, i: nat, k: nat, t: nat, pol: Policy)
    requires IsRun(run) && i < k < |run| && Moves(run, i, t, Some(pol)) && run[i].pcs[t].RLoad?
    requires t < |run[k].pcs| && run[k].pcs[t].Done?
    ensures exists m :: i < m <= k && Published(run[m], pol)
    ensures (exists m :: i < m <= k && InForceUnder(run[m], t, pol)) || (exists j: nat :: i < j < k && DecidesAlone(run, j, t, pol))
  {
    WayOf(run, i, k, t, pol);
  }

  // ----- the only policy loaded is the one in force at the end -----

  /** Nothing but this policy is ever loaded. */
  ghost predicate LoadsOnly(run: seq<State>, pol: Policy) {
    forall k: nat, t: nat, p :: Moves(run, k, t, Some(p)) && run[k].pcs[t].RLoad? ==> p == pol
  }

  /** Not a reload: the registration, a tools/call or a reader. */
  predicate Outsider(pc: PC) {
    || IsRegistration(pc) || pc.KLock? || AtRuntime(pc).Reading? || pc.KDone?
    || pc.VLock? || pc.VPolicy? || pc.VRegistry? || pc.VUnlock? || pc.VDone?
  }

  /** Not in a reload of another policy. */
  predicate CarriesNoOther(pc: PC, pol: Policy) {
    Carries(pc, pol) || pc.RLoad? || Outsider(pc)
  }

  ghost predicate NoOther(s: State, pol: Policy) {
    forall t {:trigger CarriesNoOther(s.pcs[t], pol)} :: 0 <= t < |s.pcs| ==> CarriesNoOther(s.pcs[t], pol)
  }

  lemma RegistrationAfter(cfg: Policy, d: Shared, pc: PC, load: Option<Policy>)
    requires IsRegistration(pc)
    ensures After(cfg, d, pc, load).Done? || IsRegistration(After(cfg, d, pc, load))
  {
  }

  lemma SnapshotOrReaderAfter(cfg: Policy, d: Shared, pc: PC, load: Option<Policy>)
    requires Outsider(pc) && !IsRegistration(pc)
    ensures Outsider(After(cfg, d, pc, load))
  {
  }

  lemma OutsiderAfter(cfg: Policy, d: Shared, pc: PC, load: Option<Policy>)
    requires Outsider(pc)
    ensures After(cfg, d, pc, load).Done? || Outsider(After(cfg, d, pc, load))
  {
    if IsRegistration(pc) {
      RegistrationAfter(cfg, d, pc, load);
    } else {
      SnapshotOrReaderAfter(cfg, d, pc, load);
    }
  }

  lemma NoOtherComes(cfg: Policy, d: Shared, pc: PC, load: Option<Policy>, pol: Policy)
    requires CarriesNoOther(pc, pol) && !Finished(pc) && (pc.RLoad? && load.Some? ==> load.value == pol)
    ensures CarriesNoOther(After(cfg, d, pc, load), pol)
  {
    if Carries(pc, pol) {
      CarriesOn(cfg, d, pc, load, pol);
    } else if Outsider(pc) {
      OutsiderAfter(cfg, d, pc, load);
    }
  }

  lemma StoresNoOther(capFlag: bool, d: Shared, pc: PC, pol: Policy)
    requires CarriesNoOther(pc, pol)
    ensures Store(capFlag, d, pc).policy == d.policy || Store(capFlag, d, pc).policy == pol
    ensures Store(capFlag, d, pc).registry == d.registry || Store(capFlag, d, pc).registry == pol
  {
  }

  lemma NoOtherStep(s: State, t: nat, load: Option<Policy>, s': State, pol: Policy)
    requires StepBy(s, t, load, s') && NoOther(s, pol) && (s.pcs[t].RLoad? && load.Some? ==> load.value == pol)
    ensures NoOther(s', pol) && (Published(s, pol) ==> Published(s', pol))
  {
    assert CarriesNoOther(s.pcs[t], pol);
    NoOtherComes(s.cfg, s.data, s.pcs[t], load, pol);
    StoresNoOther(s.capFlag, s.data, s.pcs[t], pol);
    forall u | 0 <= u < |s'.pcs| ensures CarriesNoOther(s'.pcs[u], pol) {
      assert u != t ==> s'.pcs[u] == s.pcs[u] && CarriesNoOther(s.pcs[u], pol);
    }
  }

  lemma NoOtherOn(run: seq<State>, k: nat, pol: Policy)
    requires IsRun(run) && k + 1 < |run| && LoadsOnly(run, pol) && NoOther(run[k], pol)
    ensures NoOther(run[k + 1], pol)
    ensures Published(run[k], pol) ==> Published(run[k + 1], pol)
  {
    RunSteps(run, k);
    var t: nat, load :| StepBy(run[k], t, load, run[k + 1]);
    assert Moves(run, k, t, load);
    NoOtherStep(run[k], t, load, run[k + 1], pol);
  }

  /** No thread is in a reload of another policy, and once this one is published it stays so. */
  ghost predicate OnlyThis(s: State, pol: Policy, published: bool) {
    NoOther(s, pol) && (published ==> Published(s, pol))
  }

  lemma OnlyThisOn(run: seq<State>, k: nat, pol: Policy, published: bool)
    requires IsRun(run) && k + 1 < |run| && LoadsOnly(run, pol) && OnlyThis(run[k], pol, published)
    ensures OnlyThis(run[k + 1], pol, published)
  {
    NoOtherOn(run, k, pol);
  }

  lemma {:induction false} OnlyThisFrom(run: seq<State>, m: nat, k: nat, pol: Policy, published: bool)
    requires IsRun(run) && m <= k < |run| && LoadsOnly(run, pol) && OnlyThis(run[m], pol, published)
    ensures OnlyThis(run[k], pol, published)
    decreases k - m
  {
    if m < k {
      OnlyThisOn(run, m, pol, published);
      OnlyThisFrom(run, m + 1, k, pol, published);
    }
  }

  lemma PublishedStays(run: seq<State>, m: nat, k: nat, pol: Policy)
    requires IsRun(run) && m <= k < |run| && LoadsOnly(run, pol) && Published(run[m], pol)
    ensures Published(run[k], pol)
  {
    assert OnlyThis(run[0], pol, false);
    OnlyThisFrom(run, 0, m, pol, false);
    OnlyThisFrom(run, m, k, pol, true);
  }

  ghost predicate AllFinished(s: State) {
    forall t :: 0 <= t < |s.pcs| ==> Finished(s.pcs[t])
  }

  /** When every thread has finished, registration has returned and the surfaces are the published policy's. */
  lemma FinishedIsCoherent(s: State)
    requires Inv(s) && AllFinished(s)
    ensures s.data.committer && Coherent(s)
  {
    assert forall t :: InRegistration(Roles(s), t) ==> IsRegistration(s.pcs[t]);
    assert forall t :: 0 <= t < |s.pcs| ==> RuntimeHolds(s)[t] == AtRuntime(s.pcs[t]);
  }

  lemma PublishedFromThenOn(run: seq<State>, i: nat, k: nat, t: nat, pol: Policy)
    requires IsRun(run) && LoadsOnly(run, pol) && i < k < |run| && Moves(run, i, t, Some(pol)) && run[i].pcs[t].RLoad?
    requires t < |run[k].pcs| && run[k].pcs[t].Done?
    ensures Published(run[k], pol)
  {
    FinishedReloadHasPublished(run, i, k, t, pol);
    var m :| i < m <= k && Published(run[m], pol);
    PublishedStays(run, m, k, pol);
  }

  lemma LoadedPolicyIsPublished(run: seq<State>, i: nat, k: nat, t: nat, pol: Policy)
    requires IsRun(run) && LoadsOnly(run, pol) && i < k < |run| && Moves(run, i, t, Some(pol)) && run[i].pcs[t].RLoad?
    requires AllFinished(run[k])
    ensures Published(run[k], pol)
  {
    WayOf(run, i, k, t, pol);
    FinishedOnItsWay(run, i, k, t, pol);
    PublishedFromThenOn(run, i, k, t, pol);
  }

  lemma FinishedSurfaces(s: State, pol: Policy)
    requires Inv(s) && AllFinished(s) && Published(s, pol)
    ensures var f := s.data.surfaces;
      && s.data.committer && s.data.policy == pol && s.data.registry == pol
      && f.redactor == pol.redaction && f.auditPatterns == pol.redaction && f.timeout == pol.timeout
      && f.capGate == (s.capFlag || pol.capAccounting)
      && f.instrGate == pol.instrContinuity && f.instrKeys == (if pol.instrContinuity then pol.keys else 0)
  {
    FinishedIsCoherent(s);
  }

  /**
    In a run that has finished every thread, a policy that a reload loaded, when no other was loaded, is the
    one in force: policy, registry and every surface, whether the reload came before or after registration.
   */
  lemma LoadedPolicyTakesEffect(run: seq<State>, i: nat, k: nat, t: nat, pol: Policy)
    requires IsRun(run) && LoadsOnly(run, pol) && i < k < |run| && AllFinished(run[k])
    requires Moves(run, i, t, Some(pol)) && run[i].pcs[t].RLoad?
    ensures var s, f := run[k], run[k].data.surfaces;
      && s.data.committer && s.data.policy == pol && s.data.registry == pol
      && f.redactor == pol.redaction && f.auditPatterns == pol.redaction && f.timeout == pol.timeout
      && f.capGate == (s.capFlag || pol.capAccounting)
      && f.instrGate == pol.instrContinuity && f.instrKeys == (if pol.instrContinuity then pol.keys else 0)
  {
    LoadedPolicyIsPublished(run, i, k, t, pol);
    RunKeepsInvariant(run, k);
    FinishedSurfaces(run[k], pol);
  }

  lemma FinishedOnItsWay(run: seq<State>, i: nat, k: nat, t: nat, pol: Policy)
    requires OnWay(run, i, k, t, pol) && AllFinished(run[k])
    ensures run[k].pcs[t].Done?
  {
    CarriedAndFinished(run[k].pcs[t], pol);
  }

  lemma CarriedAndFinished(pc: PC, pol: Policy)
    requires Carries(pc, pol) && Finished(pc)
    ensures pc.Done?
  {
  }

  // ----- snapshots and readers see one moment -----

  /** The values are those in force in this state, all of one generation. */
  predicate InForce(s: State, pol: Policy, redactor: nat, gate: bool, keys: nat) {
    && Coherent(s) && s.data.policy == pol && s.data.surfaces.redactor == redactor
    && s.data.surfaces.instrGate == gate && s.data.surfaces.instrKeys == keys
  }

  predicate Snapshotting(pc: PC) {
    pc.KLock? || AtRuntime(pc).Reading? || pc.KDone?
  }

  predicate Reading(pc: PC) {
    pc.VLock? || pc.VPolicy? || pc.VRegistry? || pc.VUnlock? || pc.VDone?
  }

  ghost predicate InForceBefore(run: seq<State>, k: nat, pol: Policy, redactor: nat, gate: bool, keys: nat) {
    exists m :: 0 <= m < k <= |run| && InForce(run[m], pol, redactor, gate, keys)
  }

  ghost predicate SnapshotSince(run: seq<State>, k: nat, pc: PC) {
    match pc
    case KUnlock(pol, r, g, keys) => InForceBefore(run, k, pol, r, g, keys)
    case KDone(pol, r, g, keys) => InForceBefore(run, k, pol, r, g, keys)
    case _ => true
  }

  lemma SnapshotLasts(run: seq<State>, k: nat, pc: PC)
    requires k < |run| && SnapshotSince(run, k, pc)
    ensures SnapshotSince(run, k + 1, pc)
  {
  }

  lemma SnapshotAfter(cfg: Policy, d: Shared, pc: PC, load: Option<Policy>)
    requires Snapshotting(pc) && !Finished(pc)
    ensures Snapshotting(After(cfg, d, pc, load))
    ensures After(cfg, d, pc, load).KDone? ==>
      pc.KUnlock? && After(cfg, d, pc, load) == KDone(pc.pol, pc.redactor, pc.gate, pc.keys)
    ensures After(cfg, d, pc, load).KUnlock? ==>
      pc.KKeys? && After(cfg, d, pc, load) == KUnlock(pc.pol, pc.redactor, pc.gate, d.surfaces.instrKeys)
  {
  }

  lemma LastLookIsInForce(s: State, t: nat)
    requires Inv(s) && t < |s.pcs| && s.pcs[t].KKeys?
    ensures InForce(s, s.pcs[t].pol, s.pcs[t].redactor, s.pcs[t].gate, s.data.surfaces.instrKeys)
  {
    assert PcOk(s.cfg, s.capFlag, s.data, s.pcs[t]);
    assert RuntimeHolds(s)[t].Reading?;
    assert Roles(s)[t].Served?;
    assert forall g :: 0 <= g < |s.pcs| && IsRegistration(s.pcs[g]) ==> InRegistration(Roles(s), g);
  }

  lemma SnapshotStep(run: seq<State>, k: nat, t: nat, load: Option<Policy>)
    requires IsRun(run) && Moves(run, k, t, load) && Snapshotting(run[k].pcs[t]) && SnapshotSince(run, k, run[k].pcs[t])
    ensures t < |run[k + 1].pcs| && Snapshotting(run[k + 1].pcs[t]) && SnapshotSince(run, k + 1, run[k + 1].pcs[t])
  {
    RunSteps(run, k);
    SnapshotAfter(run[k].cfg, run[k].data, run[k].pcs[t], load);
    SnapshotLasts(run, k, run[k].pcs[t]);
    if run[k].pcs[t].KKeys? {
      LastLookIsInForce(run[k], t);
    }
  }

  lemma {:induction false} SnapshotAlong(run: seq<State>, k: nat, t: nat)
    requires IsRun(run) && k < |run| && t < |run[0].pcs| && run[0].pcs[t].KLock?
    ensures t < |run[k].pcs| && Snapshotting(run[k].pcs[t]) && SnapshotSince(run, k, run[k].pcs[t])
  {
    if k > 0 {
      SnapshotAlong(run, k - 1, t);
      RunSteps(run, k - 1);
      StaysOrMoves(run[k - 1], run[k], t);
      if run[k].pcs[t] != run[k - 1].pcs[t] {
        var load :| StepBy(run[k - 1], t, load, run[k]);
        SnapshotStep(run, k - 1, t, load);
      }
    }
  }

  /** A tools/call that has finished holds a snapshot of what was in force at one moment of the run. */
  lemma SnapshotIsOneMoment(run: seq<State>, k: nat, t: nat)
    requires IsRun(run) && k < |run| && t < |run[0].pcs| && run[0].pcs[t].KLock?
    requires t < |run[k].pcs| && Finished(run[k].pcs[t])
    ensures var pc := run[k].pcs[t];
      pc.KDone? && exists m :: 0 <= m < k && InForce(run[m], pc.pol, pc.redactor, pc.gate, pc.keys)
  {
    SnapshotAlong(run, k, t);
  }

  ghost predicate ReadSince(run: seq<State>, k: nat, pc: PC)
    requires k <= |run|
  {
    match pc
    case VUnlock(pol, reg) => exists m :: 0 <= m < k && run[m].data.policy == pol && run[m].data.registry == reg
    case VDone(pol, reg) => exists m :: 0 <= m < k && run[m].data.policy == pol && run[m].data.registry == reg
    case _ => true
  }

  lemma ReadStep(run: seq<State>, k: nat, t: nat, load: Option<Policy>)
    requires IsRun(run) && Moves(run, k, t, load) && Reading(run[k].pcs[t]) && ReadSince(run, k, run[k].pcs[t])
    ensures t < |run[k + 1].pcs| && Reading(run[k + 1].pcs[t]) && ReadSince(run, k + 1, run[k + 1].pcs[t])
  {
    RunSteps(run, k);
    if run[k].pcs[t].VRegistry? {
      assert PcOk(run[k].cfg, run[k].capFlag, run[k].data, run[k].pcs[t]);
    }
  }

  lemma {:induction false} ReadAlong(run: seq<State>, k: nat, t: nat)
    requires IsRun(run) && k < |run| && t < |run[0].pcs| && run[0].pcs[t].VLock?
    ensures t < |run[k].pcs| && Reading(run[k].pcs[t]) && ReadSince(run, k, run[k].pcs[t])
  {
    if k > 0 {
      ReadAlong(run, k - 1, t);
      RunSteps(run, k - 1);
      StaysOrMoves(run[k - 1], run[k], t);
      if run[k].pcs[t] != run[k - 1].pcs[t] {
        var load :| StepBy(run[k - 1], t, load, run[k]);
        ReadStep(run, k - 1, t, load);
      }
    }
  }

  /** A reader of Current that has finished holds the policy and the registry of one moment. */
  lemma ReadIsOneMoment(run: seq<State>, k: nat, t: nat)
    requires IsRun(run) && k < |run| && t < |run[0].pcs| && run[0].pcs[t].VLock?
    requires t < |run[k].pcs| && Finished(run[k].pcs[t])
    ensures var pc := run[k].pcs[t];
      pc.VDone? && exists m :: 0 <= m < k && run[m].data.policy == pc.pol && run[m].data.registry == pc.reg
  {
    ReadAlong(run, k, t);
  }
}
