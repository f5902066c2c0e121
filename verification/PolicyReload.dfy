/**
  The policy reload transaction as a step system
  (internal/policy/watcher.go, internal/proxy/proxy.go).

  Any number of threads run concurrently: policy reloads, the one registration of the reload
  committer, tools/call snapshots, and readers of Watcher.Current. A step is one lock
  operation or one store to a shared field. Registration takes the watcher lock and then the
  runtime lock; a committed reload takes them in the opposite order.
 */
module PolicyReload {
  import opened Wrappers

  // ----- shared state -----

  /** A loaded policy; `ptr` is the identity of the Go pointer. */
  datatype Policy = Policy(ptr: nat, redaction: nat, timeout: nat, capAccounting: bool, instrContinuity: bool, keys: nat)

  /** The policy-derived runtime surfaces a Proxy holds beside the watcher's snapshot. */
  datatype Surfaces = Surfaces(redactor: nat, timeout: nat, auditPatterns: nat, capGate: bool, instrGate: bool, instrKeys: nat)

  /** A sync.RWMutex: `waiting` are the threads blocked inside Lock. */
  datatype RWMutex = RWMutex(writer: Option<nat>, readers: set<nat>, waiting: set<nat>)

  /** Program counters, named after the statement about to run; the payload is the thread's locals. */
  datatype PC =
    // Watcher.reload
    | RLoad
    | RStallLock(pol: Policy) | RStallUnlock(pol: Policy)
    | RLock(pol: Policy) | RLocked(pol: Policy) | RDecide(pol: Policy)
    | RDirectRegistry(pol: Policy) | RDirectUnlock(pol: Policy) | RUnlock(pol: Policy)
    // Proxy.commitPolicyRuntime
    | CLock(pol: Policy) | CLocked(pol: Policy)
    | CPublish(pol: Policy) | CPublishLocked(pol: Policy) | CPolicy(pol: Policy) | CRegistry(pol: Policy)
    | CPublishUnlock(pol: Policy) | CRedactor(pol: Policy) | CTimeout(pol: Policy) | CCap(pol: Policy)
    | CInstr(pol: Policy) | CAudit(pol: Policy) | CUnlock(pol: Policy)
    // Watcher.SetReloadCommitter with Proxy.reconcilePublishedRuntime
    | GLock | GLocked | GInstall | GReconcile
    | GRuntimeLock(pol: Policy) | GRuntimeLocked(pol: Policy)
    | GRedactor(pol: Policy) | GTimeout(pol: Policy) | GAudit(pol: Policy) | GCap(pol: Policy) | GInstr(pol: Policy)
    | GRuntimeUnlock(pol: Policy) | GUnlock
    // tools/call: runtimeSnapshotLocked under runtimeMu.RLock
    | KLock | KPolicyLock | KPolicy | KPolicyUnlock(pol: Policy) | KRedactor(pol: Policy) | KGate(pol: Policy, redactor: nat)
    | KKeys(pol: Policy, redactor: nat, gate: bool) | KUnlock(pol: Policy, redactor: nat, gate: bool, keys: nat)
    | KDone(pol: Policy, redactor: nat, gate: bool, keys: nat)
    // Watcher.Current
    | VLock | VPolicy | VRegistry(pol: Policy) | VUnlock(pol: Policy, reg: Policy) | VDone(pol: Policy, reg: Policy)
    | Done

  /** The fields threads share; `registry` is the policy it was built from. */
  datatype Shared = Shared(policy: Policy, registry: Policy, committer: bool, surfaces: Surfaces)

  /** `cfg` and `capFlag` are the constructor's configuration; `w` is Watcher.mu, `rt` is Proxy.runtimeMu. */
  datatype State = State(cfg: Policy, capFlag: bool, data: Shared, w: RWMutex, rt: RWMutex, pcs: seq<PC>)

  /** The instruction authority keys are only in force with the gate. */
  function KeysOf(pol: Policy): nat {
    if pol.instrContinuity then pol.keys else 0
  }

  function SurfacesOf(pol: Policy, capFlag: bool): Surfaces {
    Surfaces(pol.redaction, pol.timeout, pol.redaction, capFlag || pol.capAccounting, pol.instrContinuity,
             KeysOf(pol))
  }

  /** Every surface belongs to the published policy's generation. */
  predicate Coherent(s: State) {
    s.data.surfaces == SurfacesOf(s.data.policy, s.capFlag)
  }

  // ----- where threads stand -----

  /** A thread's standing towards one lock. */
  datatype Hold = Free | Waiting | Writing | Reading

  predicate Owns(h: Hold) {
    h.Writing? || h.Reading?
  }

  function AtWatcher(pc: PC): Hold {
    if pc.RLocked? || pc.CPublishLocked? || pc.GLocked? then Waiting
    else if || pc.RDecide? || pc.RDirectRegistry? || pc.RDirectUnlock? || pc.RUnlock?
            || pc.CPolicy? || pc.CRegistry? || pc.CPublishUnlock? || pc.GInstall? || Installed(pc) then Writing
    else if || pc.RStallUnlock? || pc.KPolicy? || pc.KPolicyUnlock? || pc.VPolicy? || pc.VRegistry? || pc.VUnlock? then Reading
    else Free
  }

  function AtRuntime(pc: PC): Hold {
    if pc.CLocked? || pc.GRuntimeLocked? then Waiting
    else if Committing(pc) || Refreshing(pc) then Writing
    else if || pc.KPolicyLock? || pc.KPolicy? || pc.KPolicyUnlock? || pc.KRedactor? || pc.KGate? || pc.KKeys? || pc.KUnlock? then Reading
    else Free
  }

  /** Registration inside refreshPolicyRuntime, holding the runtime lock. */
  predicate Refreshing(pc: PC) {
    pc.GRedactor? || pc.GTimeout? || pc.GAudit? || pc.GCap? || pc.GInstr? || pc.GRuntimeUnlock?
  }

  /** Registration after it has stored the committer, still holding the watcher lock. */
  predicate Installed(pc: PC) {
    pc.GReconcile? || pc.GRuntimeLock? || pc.GRuntimeLocked? || Refreshing(pc) || pc.GUnlock?
  }

  /** A reload inside commitPolicyRuntime's critical section. */
  predicate Committing(pc: PC) {
    || pc.CPublish? || pc.CPublishLocked? || pc.CPolicy? || pc.CRegistry? || pc.CPublishUnlock?
    || pc.CRedactor? || pc.CTimeout? || pc.CCap? || pc.CInstr? || pc.CAudit? || pc.CUnlock?
  }

  /** A thread's part in the registration order; Served needs registration to have returned. */
  datatype Role = Plain | Registering | Installing | Served

  function RoleOf(pc: PC): Role {
    if pc.GLock? || pc.GLocked? || pc.GInstall? then Registering
    else if Installed(pc) then Installing
    else if pc.RUnlock? || pc.CLock? || pc.CLocked? || Committing(pc) || AtRuntime(pc).Reading? || pc.KDone? then Served
    else Plain
  }

  predicate IsRegistration(pc: PC) {
    RoleOf(pc).Registering? || RoleOf(pc).Installing?
  }

  predicate Finished(pc: PC) {
    pc.Done? || pc.KDone? || pc.VDone?
  }

  /** Registration has returned: the committer is installed and no thread is in registration. */
  predicate Registered(s: State) {
    s.data.committer && forall t :: 0 <= t < |s.pcs| ==> !IsRegistration(s.pcs[t])
  }

  // ----- steps -----

  predicate CanLock(m: RWMutex) {
    m.writer.None? && m.readers == {}
  }

  /** Whether thread t's next statement can run. Calls are served only once registration has returned. */
  predicate Enabled(s: State, t: nat)
    requires t < |s.pcs|
  {
    var pc := s.pcs[t];
    && !Finished(pc)
    && (AtWatcher(pc).Waiting? ==> CanLock(s.w))
    && (AtRuntime(pc).Waiting? ==> CanLock(s.rt))
    && (pc.RStallLock? || pc.KPolicyLock? || pc.VLock? ==> s.w.writer.None?)
    && (pc.KLock? ==> s.rt.writer.None? && Registered(s))
  }

  /** The same, also deferring to writers already blocked in Lock, as sync.RWMutex may. */
  predicate Unblocked(s: State, t: nat)
    requires t < |s.pcs|
  {
    var pc := s.pcs[t];
    && Enabled(s, t)
    && (pc.RStallLock? || pc.KPolicyLock? || pc.VLock? ==> s.w.waiting == {})
    && (pc.KLock? ==> s.rt.waiting == {})
  }

  /** Where a thread goes next; `load` is what LoadFile returns, None for a policy that fails to load. */
  function After(cfg: Policy, d: Shared, pc: PC, load: Option<Policy>): PC {
    match pc
    case RLoad => if load.None? then Done else RStallLock(load.value)
    case RStallLock(pol) => RStallUnlock(pol)
    case RStallUnlock(pol) => RLock(pol)
    case RLock(pol) => RLocked(pol)
    case RLocked(pol) => RDecide(pol)
    case RDecide(pol) => if d.committer then RUnlock(pol) else RDirectRegistry(pol)
    case RDirectRegistry(pol) => RDirectUnlock(pol)
    case RDirectUnlock(pol) => Done
    case RUnlock(pol) => CLock(pol)
    case CLock(pol) => CLocked(pol)
    case CLocked(pol) => CPublish(pol)
    case CPublish(pol) => CPublishLocked(pol)
    case CPublishLocked(pol) => CPolicy(pol)
    case CPolicy(pol) => CRegistry(pol)
    case CRegistry(pol) => CPublishUnlock(pol)
    case CPublishUnlock(pol) => CRedactor(pol)
    case CRedactor(pol) => CTimeout(pol)
    case CTimeout(pol) => CCap(pol)
    case CCap(pol) => CInstr(pol)
    case CInstr(pol) => CAudit(pol)
    case CAudit(pol) => CUnlock(pol)
    case CUnlock(pol) => Done
    case GLock => GLocked
    case GLocked => GInstall
    case GInstall => GReconcile
    case GReconcile => if d.policy.ptr == cfg.ptr then GUnlock else GRuntimeLock(d.policy)
    case GRuntimeLock(pol) => GRuntimeLocked(pol)
    case GRuntimeLocked(pol) => GRedactor(pol)
    case GRedactor(pol) => GTimeout(pol)
    case GTimeout(pol) => GAudit(pol)
    case GAudit(pol) => GCap(pol)
    case GCap(pol) => GInstr(pol)
    case GInstr(pol) => GRuntimeUnlock(pol)
    case GRuntimeUnlock(pol) => GUnlock
    case GUnlock => Done
    case KLock => KPolicyLock
    case KPolicyLock => KPolicy
    case KPolicy => KPolicyUnlock(d.policy)
    case KPolicyUnlock(pol) => KRedactor(pol)
    case KRedactor(pol) => KGate(pol, d.surfaces.redactor)
    case KGate(pol, r) => KKeys(pol, r, d.surfaces.instrGate)
    case KKeys(pol, r, g) => KUnlock(pol, r, g, d.surfaces.instrKeys)
    case KUnlock(pol, r, g, k) => KDone(pol, r, g, k)
    case VLock => VPolicy
    case VPolicy => VRegistry(d.policy)
    case VRegistry(pol) => VUnlock(pol, d.registry)
    case VUnlock(pol, reg) => VDone(pol, reg)
    case _ => pc
  }

  /** The store a statement makes to the shared fields. */
  function Store(capFlag: bool, d: Shared, pc: PC): Shared {
    match pc
    case RDecide(pol) => if d.committer then d else d.(policy := pol)
    case RDirectRegistry(pol) => d.(registry := pol)
    case CPolicy(pol) => d.(policy := pol)
    case CRegistry(pol) => d.(registry := pol)
    case CRedactor(pol) => d.(surfaces := d.surfaces.(redactor := pol.redaction))
    case CTimeout(pol) => d.(surfaces := d.surfaces.(timeout := pol.timeout))
    case CCap(pol) => d.(surfaces := d.surfaces.(capGate := capFlag || pol.capAccounting))
    case CInstr(pol) => d.(surfaces := SyncInstruction(d.surfaces, pol))
    case CAudit(pol) => d.(surfaces := d.surfaces.(auditPatterns := pol.redaction))
    case GInstall => d.(committer := true)
    case GRedactor(pol) => d.(surfaces := d.surfaces.(redactor := pol.redaction))
    case GTimeout(pol) => d.(surfaces := d.surfaces.(timeout := pol.timeout))
    case GAudit(pol) => d.(surfaces := d.surfaces.(auditPatterns := pol.redaction))
    case GCap(pol) => d.(surfaces := d.surfaces.(capGate := capFlag || pol.capAccounting))
    case GInstr(pol) => d.(surfaces := SyncInstruction(d.surfaces, pol))
    case _ => d
  }

  /** The lock operation that takes thread t from one standing to the next. */
  function Move(m: RWMutex, t: nat, h: Hold, h': Hold): RWMutex {
    if h == h' then m
    else match h'
      case Waiting => m.(waiting := m.waiting + {t})
      case Writing => m.(writer := Some(t), waiting := m.waiting - {t})
      case Reading => m.(readers := m.readers + {t})
      case Free => if h.Writing? then m.(writer := None) else m.(readers := m.readers - {t})
  }

  /** One statement of thread t. */
  function Next(s: State, t: nat, load: Option<Policy>): State
    requires t < |s.pcs|
  {
    var pc := s.pcs[t];
    var pc' := After(s.cfg, s.data, pc, load);
    State(s.cfg, s.capFlag, Store(s.capFlag, s.data, pc),
          Move(s.w, t, AtWatcher(pc), AtWatcher(pc')), Move(s.rt, t, AtRuntime(pc), AtRuntime(pc')),
          s.pcs[t := pc'])
  }

  function SyncInstruction(f: Surfaces, pol: Policy): Surfaces {
    f.(instrGate := pol.instrContinuity, instrKeys := KeysOf(pol))
  }

  /** A pointer determines the policy behind it. */
  predicate SamePolicyBehind(cfg: Policy, pol: Policy) {
    pol.ptr == cfg.ptr ==> pol == cfg
  }

  ghost predicate StepBy(s: State, t: nat, load: Option<Policy>, s': State) {
    && t < |s.pcs| && Enabled(s, t) && s' == Next(s, t, load)
    && (load.Some? ==> SamePolicyBehind(s.cfg, load.value))
  }

  ghost predicate Init(s: State) {
    && s.data.surfaces == SurfacesOf(s.cfg, s.capFlag)
    && s.data.registry == s.data.policy && SamePolicyBehind(s.cfg, s.data.policy)
    && !s.data.committer
    && s.w == RWMutex(None, {}, {}) && s.rt == RWMutex(None, {}, {})
    && (forall t :: 0 <= t < |s.pcs| ==> s.pcs[t] in {RLoad, GLock, KLock, VLock})
    && exists g :: 0 <= g < |s.pcs| && s.pcs[g] == GLock && forall t :: 0 <= t < |s.pcs| && t != g ==> s.pcs[t] != GLock
  }

  // ----- the invariant -----

  /** A lock's owner sets are exactly the threads standing where `holds` says. */
  ghost predicate Tracks(m: RWMutex, holds: seq<Hold>) {
    && (forall t: nat :: m.writer == Some(t) <==> t < |holds| && holds[t].Writing?)
    && (forall t: nat :: t in m.readers <==> t < |holds| && holds[t].Reading?)
    && (forall t: nat :: t in m.waiting <==> t < |holds| && holds[t].Waiting?)
    && (m.writer.Some? ==> m.readers == {})
  }

  function WatcherHolds(s: State): seq<Hold> {
    seq(|s.pcs|, t requires 0 <= t < |s.pcs| => AtWatcher(s.pcs[t]))
  }

  function RuntimeHolds(s: State): seq<Hold> {
    seq(|s.pcs|, t requires 0 <= t < |s.pcs| => AtRuntime(s.pcs[t]))
  }

  function Roles(s: State): seq<Role> {
    seq(|s.pcs|, t requires 0 <= t < |s.pcs| => RoleOf(s.pcs[t]))
  }

  ghost predicate InRegistration(roles: seq<Role>, t: int) {
    0 <= t < |roles| && (roles[t].Registering? || roles[t].Installing?)
  }

  /** One registration; it stores the committer on its way; nobody is served before it returns. */
  ghost predicate Ordered(committer: bool, roles: seq<Role>) {
    && (forall t, u :: InRegistration(roles, t) && InRegistration(roles, u) ==> t == u)
    && (!committer ==> exists t :: InRegistration(roles, t))
    && (forall t :: 0 <= t < |roles| && roles[t].Registering? ==> !committer)
    && (forall t :: 0 <= t < |roles| && roles[t].Installing? ==> committer)
    && (forall t, u :: InRegistration(roles, t) && 0 <= u < |roles| ==> !roles[u].Served?)
  }

  /** What thread-local values and half-done stores say about the shared state. */
  ghost predicate PcOk(cfg: Policy, capFlag: bool, d: Shared, pc: PC) {
    var f := d.surfaces;
    match pc
    case RStallLock(pol) => SamePolicyBehind(cfg, pol)
    case RStallUnlock(pol) => SamePolicyBehind(cfg, pol)
    case RLock(pol) => SamePolicyBehind(cfg, pol)
    case RLocked(pol) => SamePolicyBehind(cfg, pol)
    case RDecide(pol) => SamePolicyBehind(cfg, pol)
    case RUnlock(pol) => SamePolicyBehind(cfg, pol)
    case CLock(pol) => SamePolicyBehind(cfg, pol)
    case CLocked(pol) => SamePolicyBehind(cfg, pol)
    case CPublish(pol) => SamePolicyBehind(cfg, pol)
    case CPublishLocked(pol) => SamePolicyBehind(cfg, pol)
    case CPolicy(pol) => SamePolicyBehind(cfg, pol)
    case RDirectRegistry(pol) => d.policy == pol
    case CRegistry(pol) => d.policy == pol
    case CPublishUnlock(pol) => d.policy == pol
    case CRedactor(pol) => d.policy == pol
    case CTimeout(pol) => d.policy == pol && f.redactor == pol.redaction
    case CCap(pol) => d.policy == pol && f.redactor == pol.redaction && f.timeout == pol.timeout
    case CInstr(pol) => && d.policy == pol && f.redactor == pol.redaction && f.timeout == pol.timeout
                        && f.capGate == (capFlag || pol.capAccounting)
    case CAudit(pol) => d.policy == pol && f.(auditPatterns := pol.redaction) == SurfacesOf(pol, capFlag)
    case CUnlock(pol) => d.policy == pol && f == SurfacesOf(pol, capFlag)
    case GRuntimeLock(pol) => d.policy == pol && f == SurfacesOf(cfg, capFlag)
    case GRuntimeLocked(pol) => d.policy == pol && f == SurfacesOf(cfg, capFlag)
    case GRedactor(pol) => d.policy == pol
    case GTimeout(pol) => d.policy == pol && f.redactor == pol.redaction
    case GAudit(pol) => d.policy == pol && f.redactor == pol.redaction && f.timeout == pol.timeout
    case GCap(pol) => && d.policy == pol && f.redactor == pol.redaction && f.timeout == pol.timeout
                      && f.auditPatterns == pol.redaction
    case GInstr(pol) => d.policy == pol && SyncInstruction(f, pol) == SurfacesOf(pol, capFlag)
    case GRuntimeUnlock(pol) => f == SurfacesOf(d.policy, capFlag)
    case GUnlock => f == SurfacesOf(d.policy, capFlag)
    case KPolicyUnlock(pol) => d.policy == pol
    case KRedactor(pol) => d.policy == pol
    case KGate(pol, r) => d.policy == pol && r == pol.redaction
    case KKeys(pol, r, g) => d.policy == pol && r == pol.redaction && g == pol.instrContinuity
    case KUnlock(pol, r, g, k) => r == pol.redaction && g == pol.instrContinuity && k == KeysOf(pol)
    case KDone(pol, r, g, k) => r == pol.redaction && g == pol.instrContinuity && k == KeysOf(pol)
    case VRegistry(pol) => d.policy == pol
    case VUnlock(pol, reg) => reg == pol
    case VDone(pol, reg) => reg == pol
    case _ => IsRegistration(pc) ==> f == SurfacesOf(cfg, capFlag)
  }

  /** Registration has returned and the runtime lock is not write-held: one generation everywhere. */
  predicate OneGeneration(s: State) {
    Registered(s) && s.rt.writer.None? ==> Coherent(s)
  }

  /** Between the two stores of a publication, and only then, policy and registry may differ. */
  predicate MidPublish(pc: PC) {
    pc.RDirectRegistry? || pc.CRegistry?
  }

  ghost predicate RegistryFollows(s: State) {
    (forall t :: 0 <= t < |s.pcs| ==> !MidPublish(s.pcs[t])) ==> s.data.registry == s.data.policy
  }

  ghost predicate AllPcsOk(s: State) {
    forall t :: 0 <= t < |s.pcs| ==> PcOk(s.cfg, s.capFlag, s.data, s.pcs[t])
  }

  ghost predicate Inv(s: State) {
    && Tracks(s.w, WatcherHolds(s)) && Tracks(s.rt, RuntimeHolds(s))
    && Ordered(s.data.committer, Roles(s))
    && SamePolicyBehind(s.cfg, s.data.policy)
    && AllPcsOk(s) && RegistryFollows(s) && OneGeneration(s)
  }

  lemma StartStandings(pc: PC)
    requires pc in {RLoad, GLock, KLock, VLock}
    ensures AtWatcher(pc).Free? && AtRuntime(pc).Free? && !MidPublish(pc)
    ensures RoleOf(pc) == if pc.GLock? then Registering else Plain
    ensures IsRegistration(pc) <==> pc.GLock?
  {
  }

  lemma InitEstablishes(s: State)
    requires Init(s)
    ensures Inv(s)
  {
    forall t | 0 <= t < |s.pcs|
      ensures AtWatcher(s.pcs[t]).Free? && AtRuntime(s.pcs[t]).Free? && !MidPublish(s.pcs[t])
      ensures RoleOf(s.pcs[t]) == if s.pcs[t].GLock? then Registering else Plain
      ensures PcOk(s.cfg, s.capFlag, s.data, s.pcs[t])
    {
      StartStandings(s.pcs[t]);
    }
    var g :| 0 <= g < |s.pcs| && s.pcs[g] == GLock && forall t :: 0 <= t < |s.pcs| && t != g ==> s.pcs[t] != GLock;
    assert InRegistration(Roles(s), g);
  }

  // ----- one lemma per way a step touches the state -----

  /** The standings a thread may move between, and what the lock must allow. */
  predicate LegalMove(m: RWMutex, h: Hold, h': Hold) {
    || h == h'
    || (h.Free? && h'.Waiting?)
    || (h.Waiting? && h'.Writing? && CanLock(m))
    || (h.Writing? && h'.Free?)
    || (h.Free? && h'.Reading? && m.writer.None?)
    || (h.Reading? && h'.Free?)
  }

  lemma MoveKeepsTracking(m: RWMutex, holds: seq<Hold>, t: nat, h': Hold)
    requires Tracks(m, holds) && t < |holds| && LegalMove(m, holds[t], h')
    ensures Tracks(Move(m, t, holds[t], h'), holds[t := h'])
  {
  }

  lemma WatcherMove(s: State, t: nat, load: Option<Policy>)
    requires t < |s.pcs| && Enabled(s, t)
    ensures LegalMove(s.w, AtWatcher(s.pcs[t]), AtWatcher(After(s.cfg, s.data, s.pcs[t], load)))
  {
  }

  lemma RuntimeMove(s: State, t: nat, load: Option<Policy>)
    requires t < |s.pcs| && Enabled(s, t)
    ensures LegalMove(s.rt, AtRuntime(s.pcs[t]), AtRuntime(After(s.cfg, s.data, s.pcs[t], load)))
  {
  }

  /** Which shared fields thread t may change, and what it must hold to change them. */
  ghost predicate DataEffect(s: State, t: nat, s': State)
    requires t < |s.pcs|
  {
    && s'.cfg == s.cfg && s'.capFlag == s.capFlag
    && (s'.data.policy != s.data.policy ==>
          && AtWatcher(s.pcs[t]).Writing?
          && (s.data.committer ==> AtRuntime(s.pcs[t]).Writing?)
          && SamePolicyBehind(s.cfg, s'.data.policy))
    && (s'.data.surfaces != s.data.surfaces ==> AtRuntime(s.pcs[t]).Writing?)
    && (s'.data.committer != s.data.committer ==> s.pcs[t].GInstall? && s'.data.committer)
  }

  lemma StepDataEffect(s: State, t: nat, load: Option<Policy>)
    requires t < |s.pcs| && Enabled(s, t) && PcOk(s.cfg, s.capFlag, s.data, s.pcs[t])
    ensures DataEffect(s, t, Next(s, t, load))
  {
  }

  /** The standing a thread needs for its locals to speak about shared fields. */
  lemma FramePc(cfg: Policy, capFlag: bool, d: Shared, d': Shared, pc: PC)
    requires PcOk(cfg, capFlag, d, pc)
    requires Owns(AtWatcher(pc)) || Owns(AtRuntime(pc)) ==> d'.policy == d.policy
    requires AtRuntime(pc).Writing? || IsRegistration(pc) ==> d'.surfaces == d.surfaces
    ensures PcOk(cfg, capFlag, d', pc)
  {
  }

  // ----- every step keeps the invariant -----

  lemma LocksKept(s: State, t: nat, load: Option<Policy>)
    requires Inv(s) && t < |s.pcs| && Enabled(s, t)
    ensures var s' := Next(s, t, load);
      Tracks(s'.w, WatcherHolds(s')) && Tracks(s'.rt, RuntimeHolds(s'))
  {
    var pc' := After(s.cfg, s.data, s.pcs[t], load);
    WatcherMove(s, t, load);
    RuntimeMove(s, t, load);
    MoveKeepsTracking(s.w, WatcherHolds(s), t, AtWatcher(pc'));
    MoveKeepsTracking(s.rt, RuntimeHolds(s), t, AtRuntime(pc'));
    assert WatcherHolds(Next(s, t, load)) == WatcherHolds(s)[t := AtWatcher(pc')];
    assert RuntimeHolds(Next(s, t, load)) == RuntimeHolds(s)[t := AtRuntime(pc')];
  }

  /** How the registration order may move when one thread steps. */
  ghost predicate RoleEffect(committer: bool, roles: seq<Role>, t: nat, r': Role, committer': bool)
    requires t < |roles|
  {
    if roles[t] == r' then committer' == committer
    else if roles[t].Registering? then r'.Installing? && !committer && committer'
    else if roles[t].Installing? then r'.Plain? && committer'
    else
      && committer' == committer
      && (r'.Plain? || (r'.Served? && committer && forall u :: !InRegistration(roles, u)))
  }

  lemma RoleEffectKeepsOrder(committer: bool, roles: seq<Role>, t: nat, r': Role, committer': bool)
    requires Ordered(committer, roles) && t < |roles| && RoleEffect(committer, roles, t, r', committer')
    ensures Ordered(committer', roles[t := r'])
  {
    var roles' := roles[t := r'];
    assert forall u :: u != t ==> (InRegistration(roles', u) <==> InRegistration(roles, u));
    assert roles[t].Registering? || roles[t].Installing? ==> InRegistration(roles, t);
    if !committer' {
      var u :| InRegistration(roles, u);
      assert InRegistration(roles', u);
    }
    assert forall u :: 0 <= u < |roles| && (roles[u].Registering? || roles[u].Installing?) ==> InRegistration(roles, u);
  }

  /** A reload that reads the committer excludes registration, which holds the same lock until it returns. */
  lemma DecidingMeansRegistered(s: State, t: nat)
    requires Inv(s) && t < |s.pcs| && s.pcs[t].RDecide? && s.data.committer
    ensures forall u :: !InRegistration(Roles(s), u)
  {
    assert WatcherHolds(s)[t].Writing?;
    forall u
      ensures !InRegistration(Roles(s), u)
    {
      if 0 <= u < |s.pcs| {
        assert WatcherHolds(s)[u] == AtWatcher(s.pcs[u]) && Roles(s)[u] == RoleOf(s.pcs[u]);
      }
    }
  }

  /** Only storing the committer takes a thread from registering to installing. */
  lemma InstallMovesRole(cfg: Policy, d: Shared, pc: PC, load: Option<Policy>)
    ensures RoleOf(pc).Registering? && RoleOf(After(cfg, d, pc, load)) != RoleOf(pc) <==> pc.GInstall?
    ensures pc.GInstall? ==> RoleOf(After(cfg, d, pc, load)).Installing?
  {
  }

  /** Any other move ends a part or takes up serving, which a reload does on seeing the committer. */
  lemma RoleMoves(cfg: Policy, d: Shared, pc: PC, load: Option<Policy>)
    requires !RoleOf(pc).Registering?
    ensures var r' := RoleOf(After(cfg, d, pc, load));
      r' == RoleOf(pc) || r'.Plain? || (r'.Served? && ((pc.RDecide? && d.committer) || pc.KLock?))
  {
  }

  lemma OnlyInstallStoresCommitter(capFlag: bool, d: Shared, pc: PC)
    ensures Store(capFlag, d, pc).committer == (d.committer || pc.GInstall?)
  {
  }

  lemma StepMovesRole(cfg: Policy, capFlag: bool, d: Shared, pc: PC, load: Option<Policy>)
    ensures var r, r' := RoleOf(pc), RoleOf(After(cfg, d, pc, load));
      var committer' := Store(capFlag, d, pc).committer;
      if r == r' then committer' == d.committer
      else if r.Registering? then r'.Installing? && committer'
      else
        && committer' == d.committer
        && (r'.Plain? || (r'.Served? && ((pc.RDecide? && d.committer) || pc.KLock?)))
  {
    InstallMovesRole(cfg, d, pc, load);
    if !RoleOf(pc).Registering? {
      RoleMoves(cfg, d, pc, load);
    }
    OnlyInstallStoresCommitter(capFlag, d, pc);
  }

  lemma StepRoleEffect(s: State, t: nat, load: Option<Policy>)
    requires Inv(s) && t < |s.pcs| && Enabled(s, t)
    ensures var s' := Next(s, t, load);
      RoleEffect(s.data.committer, Roles(s), t, RoleOf(s'.pcs[t]), s'.data.committer)
  {
    var roles := Roles(s);
    assert roles[t] == RoleOf(s.pcs[t]);
    StepMovesRole(s.cfg, s.capFlag, s.data, s.pcs[t], load);
    if s.pcs[t].RDecide? && s.data.committer {
      DecidingMeansRegistered(s, t);
    }
    assert forall u :: InRegistration(roles, u) ==> IsRegistration(s.pcs[u]);
  }

  lemma OrderKept(s: State, t: nat, load: Option<Policy>)
    requires Inv(s) && t < |s.pcs| && Enabled(s, t)
    ensures var s' := Next(s, t, load); Ordered(s'.data.committer, Roles(s'))
  {
    var s' := Next(s, t, load);
    StepRoleEffect(s, t, load);
    RoleEffectKeepsOrder(s.data.committer, Roles(s), t, RoleOf(s'.pcs[t]), s'.data.committer);
    assert Roles(s') == Roles(s)[t := RoleOf(s'.pcs[t])];
  }

  lemma CommitStoresInOrder(cfg: Policy, capFlag: bool, d: Shared, pc: PC, load: Option<Policy>)
    requires PcOk(cfg, capFlag, d, pc) && Committing(pc)
    ensures PcOk(cfg, capFlag, Store(capFlag, d, pc), After(cfg, d, pc, load))
  {
  }

  lemma RefreshStoresInOrder(cfg: Policy, capFlag: bool, d: Shared, pc: PC, load: Option<Policy>)
    requires PcOk(cfg, capFlag, d, pc) && Refreshing(pc)
    ensures PcOk(cfg, capFlag, Store(capFlag, d, pc), After(cfg, d, pc, load))
  {
  }

  lemma RegistrationStoresInOrder(cfg: Policy, capFlag: bool, d: Shared, pc: PC, load: Option<Policy>)
    requires PcOk(cfg, capFlag, d, pc) && IsRegistration(pc) && !Refreshing(pc) && SamePolicyBehind(cfg, d.policy)
    ensures PcOk(cfg, capFlag, Store(capFlag, d, pc), After(cfg, d, pc, load))
  {
  }

  lemma PlainStepKeepsPc(cfg: Policy, capFlag: bool, d: Shared, pc: PC, load: Option<Policy>)
    requires PcOk(cfg, capFlag, d, pc) && !Committing(pc) && !IsRegistration(pc)
    requires SamePolicyBehind(cfg, d.policy) && (load.Some? ==> SamePolicyBehind(cfg, load.value))
    requires pc.KRedactor? || pc.KGate? || pc.KKeys? ==> d.surfaces == SurfacesOf(d.policy, capFlag)
    requires pc.VRegistry? ==> d.registry == d.policy
    ensures PcOk(cfg, capFlag, Store(capFlag, d, pc), After(cfg, d, pc, load))
  {
  }

  /** The stepping thread's own assertion, from what it may rely on about the shared fields. */
  lemma OwnPcStep(cfg: Policy, capFlag: bool, d: Shared, pc: PC, load: Option<Policy>)
    requires PcOk(cfg, capFlag, d, pc)
    requires SamePolicyBehind(cfg, d.policy) && (load.Some? ==> SamePolicyBehind(cfg, load.value))
    requires pc.KRedactor? || pc.KGate? || pc.KKeys? ==> d.surfaces == SurfacesOf(d.policy, capFlag)
    requires pc.VRegistry? ==> d.registry == d.policy
    ensures PcOk(cfg, capFlag, Store(capFlag, d, pc), After(cfg, d, pc, load))
  {
    if Committing(pc) {
      CommitStoresInOrder(cfg, capFlag, d, pc, load);
    } else if Refreshing(pc) {
      RefreshStoresInOrder(cfg, capFlag, d, pc, load);
    } else if IsRegistration(pc) {
      RegistrationStoresInOrder(cfg, capFlag, d, pc, load);
    } else {
      PlainStepKeepsPc(cfg, capFlag, d, pc, load);
    }
  }

  lemma OwnPcKept(s: State, t: nat, load: Option<Policy>)
    requires Inv(s) && t < |s.pcs| && Enabled(s, t)
    requires load.Some? ==> SamePolicyBehind(s.cfg, load.value)
    ensures PcOk(s.cfg, s.capFlag, Store(s.capFlag, s.data, s.pcs[t]), After(s.cfg, s.data, s.pcs[t], load))
  {
    assert PcOk(s.cfg, s.capFlag, s.data, s.pcs[t]);
    if AtRuntime(s.pcs[t]).Reading? {
      CallsSeeOneGeneration(s, t);
    }
    if AtWatcher(s.pcs[t]).Reading? {
      ReadersSeeOnePublication(s, t);
    }
    OwnPcStep(s.cfg, s.capFlag, s.data, s.pcs[t], load);
  }

  lemma ReadersSeeOnePublication(s: State, t: nat)
    requires Inv(s) && t < |s.pcs| && AtWatcher(s.pcs[t]).Reading?
    ensures s.data.registry == s.data.policy
  {
    assert WatcherHolds(s)[t].Reading?;
    forall u | 0 <= u < |s.pcs|
      ensures !MidPublish(s.pcs[u])
    {
      assert WatcherHolds(s)[u] == AtWatcher(s.pcs[u]);
    }
  }

  /** While a call holds the runtime lock the surfaces it reads belong to the published policy. */
  lemma CallsSeeOneGeneration(s: State, t: nat)
    requires Inv(s) && t < |s.pcs| && AtRuntime(s.pcs[t]).Reading?
    ensures Coherent(s)
  {
    assert RuntimeHolds(s)[t].Reading?;
    assert Roles(s)[t].Served?;
    assert forall u :: 0 <= u < |s.pcs| && IsRegistration(s.pcs[u]) ==> InRegistration(Roles(s), u);
  }

  /** Nobody else's locals speak about a field thread t is changing. */
  lemma OthersStandClear(s: State, t: nat, s': State, u: nat)
    requires Inv(s) && t < |s.pcs| && u < |s.pcs| && u != t && DataEffect(s, t, s')
    ensures Owns(AtWatcher(s.pcs[u])) || Owns(AtRuntime(s.pcs[u])) ==> s'.data.policy == s.data.policy
    ensures AtRuntime(s.pcs[u]).Writing? || IsRegistration(s.pcs[u]) ==> s'.data.surfaces == s.data.surfaces
  {
    var w, rt, roles := WatcherHolds(s), RuntimeHolds(s), Roles(s);
    assert w[t] == AtWatcher(s.pcs[t]) && w[u] == AtWatcher(s.pcs[u]);
    assert rt[t] == AtRuntime(s.pcs[t]) && rt[u] == AtRuntime(s.pcs[u]);
    assert roles[t] == RoleOf(s.pcs[t]) && roles[u] == RoleOf(s.pcs[u]);
    RuntimeOwnersAreLate(s.pcs[t]);
    RuntimeOwnersAreLate(s.pcs[u]);
    assert InRegistration(roles, u) <==> IsRegistration(s.pcs[u]);
    assert InRegistration(roles, t) <==> IsRegistration(s.pcs[t]);
    if !s.data.committer {
      var g :| InRegistration(roles, g);
      assert roles[g].Registering?;
    }
  }

  /** The runtime lock is only ever owned after the committer is in place. */
  lemma RuntimeOwnersAreLate(pc: PC)
    ensures Owns(AtRuntime(pc)) ==> RoleOf(pc).Served? || RoleOf(pc).Installing?
  {
  }

  lemma AllPcsKept(s: State, t: nat, load: Option<Policy>)
    requires Inv(s) && t < |s.pcs| && Enabled(s, t)
    requires load.Some? ==> SamePolicyBehind(s.cfg, load.value)
    ensures AllPcsOk(Next(s, t, load))
  {
    var s' := Next(s, t, load);
    OwnPcKept(s, t, load);
    StepDataEffect(s, t, load);
    forall u | 0 <= u < |s'.pcs|
      ensures PcOk(s'.cfg, s'.capFlag, s'.data, s'.pcs[u])
    {
      if u != t {
        OthersStandClear(s, t, s', u);
        FramePc(s.cfg, s.capFlag, s.data, s'.data, s.pcs[u]);
      }
    }
  }

  lemma RegistryKept(s: State, t: nat, load: Option<Policy>)
    requires Inv(s) && t < |s.pcs| && Enabled(s, t)
    ensures RegistryFollows(Next(s, t, load))
  {
    var s' := Next(s, t, load);
    assert PcOk(s.cfg, s.capFlag, s.data, s.pcs[t]);
    assert WatcherHolds(s)[t] == AtWatcher(s.pcs[t]);
    assert MidPublish(s'.pcs[t]) || MidPublish(s.pcs[t])
           || (s'.data.registry == s.data.registry && s'.data.policy == s.data.policy);
    forall u | 0 <= u < |s.pcs| && u != t && MidPublish(s.pcs[u])
      ensures s'.pcs[u] == s.pcs[u]
    {
    }
  }

  /** Where a generation change ends, it is complete. */
  lemma GenerationEndsComplete(cfg: Policy, capFlag: bool, d: Shared, pc: PC)
    requires PcOk(cfg, capFlag, d, pc) && (pc.CUnlock? || pc.GUnlock?)
    ensures var d' := Store(capFlag, d, pc); d'.surfaces == SurfacesOf(d'.policy, capFlag)
  {
  }

  /** The only statements that end a generation change. */
  lemma RegistrationEndsAt(cfg: Policy, d: Shared, pc: PC, load: Option<Policy>)
    ensures IsRegistration(pc) && !IsRegistration(After(cfg, d, pc, load)) ==> pc.GUnlock?
  {
  }

  lemma RuntimeWriteEndsAt(cfg: Policy, d: Shared, pc: PC, load: Option<Policy>)
    ensures AtRuntime(pc).Writing? && !AtRuntime(After(cfg, d, pc, load)).Writing? ==> pc.CUnlock? || pc.GRuntimeUnlock?
  {
  }

  lemma OneGenerationKept(s: State, t: nat, load: Option<Policy>)
    requires Inv(s) && t < |s.pcs| && Enabled(s, t)
    ensures OneGeneration(Next(s, t, load))
  {
    var s' := Next(s, t, load);
    assert PcOk(s.cfg, s.capFlag, s.data, s.pcs[t]);
    RuntimeMove(s, t, load);
    StepDataEffect(s, t, load);
    if s.pcs[t].CUnlock? || s.pcs[t].GUnlock? {
      GenerationEndsComplete(s.cfg, s.capFlag, s.data, s.pcs[t]);
    }
    RegistrationEndsAt(s.cfg, s.data, s.pcs[t], load);
    RuntimeWriteEndsAt(s.cfg, s.data, s.pcs[t], load);
    StepMovesRole(s.cfg, s.capFlag, s.data, s.pcs[t], load);
    if Registered(s') && s'.rt.writer.None? && !(s.pcs[t].CUnlock? || s.pcs[t].GUnlock?) {
      assert !IsRegistration(s'.pcs[t]);
      assert forall u :: 0 <= u < |s.pcs| && u != t ==> s'.pcs[u] == s.pcs[u];
      assert RuntimeHolds(s)[t] == AtRuntime(s.pcs[t]);
      assert Registered(s) && s.rt.writer.None?;
    }
  }

  lemma StepKeeps(s: State, t: nat, load: Option<Policy>, s': State)
    requires Inv(s) && StepBy(s, t, load, s')
    ensures Inv(s')
  {
    assert PcOk(s.cfg, s.capFlag, s.data, s.pcs[t]);
    LocksKept(s, t, load);
    OrderKept(s, t, load);
    StepDataEffect(s, t, load);
    AllPcsKept(s, t, load);
    RegistryKept(s, t, load);
    OneGenerationKept(s, t, load);
  }

  // ----- main results -----

  ghost predicate Step(s: State, s': State) {
    exists t: nat, load :: StepBy(s, t, load, s')
  }

  /** A run: a start state, then any thread's next statement, again and again. */
  ghost predicate IsRun(run: seq<State>) {
    run != [] && Init(run[0]) && Follows(run)
  }

  ghost predicate Follows(run: seq<State>) {
    forall i, j :: 0 <= i < |run| && 0 <= j < |run| && j == i + 1 ==> Step(run[i], run[j])
  }

  lemma AnyStepKeeps(s: State, s': State)
    requires Inv(s) && Step(s, s')
    ensures Inv(s')
  {
    var t: nat, load :| StepBy(s, t, load, s');
    StepKeeps(s, t, load, s');
  }

  lemma {:induction false} FollowingKeeps(run: seq<State>, i: nat)
    requires i < |run| && Inv(run[0]) && Follows(run)
    ensures Inv(run[i])
  {
    if i > 0 {
      FollowingKeeps(run, i - 1);
      AnyStepKeeps(run[i - 1], run[i]);
    }
  }

  lemma RunKeepsInvariant(run: seq<State>, i: nat)
    requires IsRun(run) && i < |run|
    ensures Inv(run[i])
  {
    InitEstablishes(run[0]);
    FollowingKeeps(run, i);
  }

  /**
    In every state of every run: once registration has returned, whenever the runtime lock is
    not write-held, all surfaces and the published policy are of one generation; and whenever
    the watcher lock is not write-held, policy and registry match.
   */
  lemma EveryStateIsCoherent(run: seq<State>, i: nat)
    requires IsRun(run) && i < |run|
    ensures Registered(run[i]) && run[i].rt.writer.None? ==> Coherent(run[i])
    ensures run[i].w.writer.None? ==> run[i].data.registry == run[i].data.policy
  {
    RunKeepsInvariant(run, i);
    var s := run[i];
    if s.w.writer.None? {
      forall u | 0 <= u < |s.pcs|
        ensures !MidPublish(s.pcs[u])
      {
        assert WatcherHolds(s)[u] == AtWatcher(s.pcs[u]);
      }
    }
  }

  /** No finished tools/call, and no finished reader of Current, ever mixed two generations. */
  lemma NoReaderMixesGenerations(run: seq<State>, i: nat, t: nat)
    requires IsRun(run) && i < |run| && t < |run[i].pcs|
    ensures match run[i].pcs[t]
      case KDone(pol, redactor, gate, keys) =>
        redactor == pol.redaction && gate == pol.instrContinuity && keys == (if pol.instrContinuity then pol.keys else 0)
      case VDone(pol, reg) => reg == pol
      case _ => true
  {
    RunKeepsInvariant(run, i);
    var s := run[i];
    assert PcOk(s.cfg, s.capFlag, s.data, s.pcs[t]);
  }

  // ----- no deadlock -----

  lemma NoReaders(m: RWMutex, holds: seq<Hold>)
    requires Tracks(m, holds) && forall u :: 0 <= u < |holds| ==> !holds[u].Reading?
    ensures m.readers == {}
  {
    assert forall u: nat :: u !in m.readers;
  }

  lemma HolderOfWatcherMoves(s: State, t: nat)
    requires Inv(s) && t < |s.pcs| && AtWatcher(s.pcs[t]).Writing?
    ensures Unblocked(s, t)
  {
    assert WatcherHolds(s)[t].Writing?;
    if s.pcs[t].GRuntimeLocked? {
      assert InRegistration(Roles(s), t);
      forall u | 0 <= u < |s.pcs|
        ensures !Owns(AtRuntime(s.pcs[u])) || u == t
      {
        RuntimeOwnersAreLate(s.pcs[u]);
        assert Roles(s)[u] == RoleOf(s.pcs[u]);
        assert InRegistration(Roles(s), u) <==> IsRegistration(s.pcs[u]);
      }
      NoReaders(s.rt, RuntimeHolds(s));
      assert CanLock(s.rt);
    }
  }

  lemma WatcherFreeUnlessHeld(s: State)
    requires Inv(s)
    requires forall t :: 0 <= t < |s.pcs| ==> !Owns(AtWatcher(s.pcs[t]))
    ensures CanLock(s.w)
    ensures s.w.waiting != {} ==> exists t :: 0 <= t < |s.pcs| && Unblocked(s, t)
  {
    var holds := WatcherHolds(s);
    assert forall t :: 0 <= t < |s.pcs| ==> holds[t] == AtWatcher(s.pcs[t]);
    assert s.w.readers == {};
    if s.w.waiting != {} {
      var t :| t in s.w.waiting;
      assert AtWatcher(s.pcs[t]).Waiting?;
      assert Unblocked(s, t);
    }
  }

  lemma RuntimeFreeUnlessHeld(s: State)
    requires Inv(s)
    requires forall t :: 0 <= t < |s.pcs| ==> !Owns(AtWatcher(s.pcs[t])) && !AtWatcher(s.pcs[t]).Waiting?
    requires forall t :: 0 <= t < |s.pcs| ==> !Owns(AtRuntime(s.pcs[t]))
    ensures CanLock(s.rt)
    ensures s.rt.waiting != {} ==> exists t :: 0 <= t < |s.pcs| && Unblocked(s, t)
  {
    var holds := RuntimeHolds(s);
    assert forall t :: 0 <= t < |s.pcs| ==> holds[t] == AtRuntime(s.pcs[t]);
    assert s.rt.readers == {};
    if s.rt.waiting != {} {
      var t :| t in s.rt.waiting;
      assert AtRuntime(s.pcs[t]).Waiting?;
      assert Unblocked(s, t);
    }
  }

  /** With both locks free and nobody queueing, every unfinished thread can start its next statement. */
  lemma IdleLocksBlockNobody(s: State, t: nat)
    requires Inv(s) && t < |s.pcs| && !Finished(s.pcs[t])
    requires CanLock(s.w) && CanLock(s.rt) && s.w.waiting == {} && s.rt.waiting == {}
    ensures exists u :: 0 <= u < |s.pcs| && Unblocked(s, u)
  {
    if s.pcs[t].KLock? && !Registered(s) {
      if !s.data.committer {
        var g :| InRegistration(Roles(s), g);
        assert IsRegistration(s.pcs[g]) && Unblocked(s, g);
      } else {
        var g :| 0 <= g < |s.pcs| && IsRegistration(s.pcs[g]);
        assert Unblocked(s, g);
      }
    } else {
      assert Unblocked(s, t);
    }
  }

  /** No reachable state is stuck: while a thread is unfinished, some thread can step. */
  lemma NoDeadlock(run: seq<State>, i: nat, t: nat)
    requires IsRun(run) && i < |run| && t < |run[i].pcs| && !Finished(run[i].pcs[t])
    ensures exists u :: 0 <= u < |run[i].pcs| && Unblocked(run[i], u)
  {
    RunKeepsInvariant(run, i);
    SomeThreadMoves(run[i], t);
  }

  lemma WatcherOwnerMoves(s: State, u: nat)
    requires Inv(s) && u < |s.pcs| && Owns(AtWatcher(s.pcs[u]))
    ensures Unblocked(s, u)
  {
    if AtWatcher(s.pcs[u]).Writing? {
      HolderOfWatcherMoves(s, u);
    }
  }

  lemma RuntimeOwnerMoves(s: State, u: nat)
    requires Inv(s) && u < |s.pcs| && Owns(AtRuntime(s.pcs[u])) && CanLock(s.w) && s.w.waiting == {}
    ensures Unblocked(s, u)
  {
  }

  lemma NobodyWaits(m: RWMutex, holds: seq<Hold>)
    requires Tracks(m, holds) && m.waiting == {}
    ensures forall u :: 0 <= u < |holds| ==> !holds[u].Waiting?
  {
  }

  lemma SomeThreadMoves(s: State, t: nat)
    requires Inv(s) && t < |s.pcs| && !Finished(s.pcs[t])
    ensures exists u :: 0 <= u < |s.pcs| && Unblocked(s, u)
  {
    if u :| 0 <= u < |s.pcs| && Owns(AtWatcher(s.pcs[u])) {
      WatcherOwnerMoves(s, u);
    } else {
      WatcherFreeUnlessHeld(s);
      if s.w.waiting == {} {
        NobodyWaits(s.w, WatcherHolds(s));
        assert forall v :: 0 <= v < |s.pcs| ==> WatcherHolds(s)[v] == AtWatcher(s.pcs[v]);
        if u :| 0 <= u < |s.pcs| && Owns(AtRuntime(s.pcs[u])) {
          RuntimeOwnerMoves(s, u);
        } else {
          RuntimeFreeUnlessHeld(s);
          if s.rt.waiting == {} {
            IdleLocksBlockNobody(s, t);
          }
        }
      }
    }
  }

  // ----- every run ends -----

  /** Statements a thread still has to run, at most. */
  function Remaining(pc: PC): nat {
    match pc
    case RLoad => 22 case RStallLock(_) => 21 case RStallUnlock(_) => 20 case RLock(_) => 19
    case RLocked(_) => 18 case RDecide(_) => 17 case RDirectRegistry(_) => 2 case RDirectUnlock(_) => 1
    case RUnlock(_) => 16 case CLock(_) => 15 case CLocked(_) => 14 case CPublish(_) => 13
    case CPublishLocked(_) => 12 case CPolicy(_) => 11 case CRegistry(_) => 10 case CPublishUnlock(_) => 9
    case CRedactor(_) => 8 case CTimeout(_) => 7 case CCap(_) => 6 case CInstr(_) => 5 case CAudit(_) => 4 case CUnlock(_) => 3
    case GLock => 13 case GLocked => 12 case GInstall => 11 case GReconcile => 10
    case GRuntimeLock(_) => 9 case GRuntimeLocked(_) => 8 case GRedactor(_) => 7 case GTimeout(_) => 6
    case GAudit(_) => 5 case GCap(_) => 4 case GInstr(_) => 3 case GRuntimeUnlock(_) => 2 case GUnlock => 1
    case KLock => 8 case KPolicyLock => 7 case KPolicy => 6 case KPolicyUnlock(_) => 5
    case KRedactor(_) => 4 case KGate(_, _) => 3 case KKeys(_, _, _) => 2 case KUnlock(_, _, _, _) => 1
    case KDone(_, _, _, _) => 0
    case VLock => 4 case VPolicy => 3 case VRegistry(_) => 2 case VUnlock(_, _) => 1 case VDone(_, _) => 0
    case Done => 0
  }

  function TotalRemaining(pcs: seq<PC>): nat {
    if pcs == [] then 0 else Remaining(pcs[0]) + TotalRemaining(pcs[1..])
  }

  lemma {:induction false} TotalAfterUpdate(pcs: seq<PC>, t: nat, pc: PC)
    requires t < |pcs|
    ensures TotalRemaining(pcs[t := pc]) == TotalRemaining(pcs) - Remaining(pcs[t]) + Remaining(pc)
  {
    if t == 0 {
      assert pcs[0 := pc][1..] == pcs[1..];
    } else {
      assert pcs[t := pc][1..] == pcs[1..][t - 1 := pc];
      TotalAfterUpdate(pcs[1..], t - 1, pc);
    }
  }

  lemma CommitShrinks(cfg: Policy, d: Shared, pc: PC, load: Option<Policy>)
    requires Committing(pc)
    ensures Remaining(After(cfg, d, pc, load)) < Remaining(pc)
  {
  }

  lemma RefreshShrinks(cfg: Policy, d: Shared, pc: PC, load: Option<Policy>)
    requires Refreshing(pc)
    ensures Remaining(After(cfg, d, pc, load)) < Remaining(pc)
  {
  }

  lemma StatementShrinks(cfg: Policy, d: Shared, pc: PC, load: Option<Policy>)
    requires !Finished(pc)
    ensures Remaining(After(cfg, d, pc, load)) < Remaining(pc)
  {
    if Committing(pc) {
      CommitShrinks(cfg, d, pc, load);
    } else if Refreshing(pc) {
      RefreshShrinks(cfg, d, pc, load);
    }
  }

  lemma StepShrinks(s: State, s': State)
    requires Step(s, s')
    ensures TotalRemaining(s'.pcs) < TotalRemaining(s.pcs)
  {
    var t: nat, load :| StepBy(s, t, load, s');
    StatementShrinks(s.cfg, s.data, s.pcs[t], load);
    TotalAfterUpdate(s.pcs, t, After(s.cfg, s.data, s.pcs[t], load));
  }

  /** No run is longer than its threads' statements, so with NoDeadlock every maximal run finishes every thread. */
  lemma {:induction false} RunsAreFinite(run: seq<State>)
    requires run != [] && Follows(run)
    ensures |run| + TotalRemaining(run[|run| - 1].pcs) <= TotalRemaining(run[0].pcs) + 1
    decreases |run|
  {
    if |run| > 1 {
      var n := |run| - 1;
      RunsAreFinite(run[..n]);
      StepShrinks(run[n - 1], run[n]);
    }
  }
}
