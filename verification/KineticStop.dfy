/**
  The kinetic stop as a step system (internal/proxy/kinetic_stop.go).

  One thread launches the supervised child, one enforces the stop (kineticStopOnce lets only
  one through), any number encode messages to the child and any number join the stop through
  kineticOr. kineticIOMu is explicit; supervisedMu and kineticRunMu sections, and the atomic
  flag, are single steps. SIGKILL is its effect: the child is dead. A write the child does not drain
  is stuck while the pipe is open and fails once it is closed; the child may come to drain it.
 */
module KineticStop {

  datatype Child = NotStarted | Running | Dead

  datatype Pipes = Unregistered | Open | Closed

  /** The error Run will report: none, the provisional "enforced", or the outcome of persisting, the same text if it succeeds. */
  datatype RunErr = NoErr | Provisional | Final

  datatype Event = Latched | Launched | Encoded | Contained | StopRecorded | StateWritten

  /** The proxy's fields; `contained` and `recorded` remember that the kill and the stop record happened. */
  datatype Data = Data(
    revoked: bool, contained: bool, recorded: bool, child: Child, cmd: bool, pipes: Pipes, runErr: RunErr, persisting: bool)

  datatype LaunchPC =
    | LLock | LCheck | LStart | LRegister | LRegisterPipes | LRecheck | LClosePipes | LKill
    | LUnlock(ok: bool) | LDone(ok: bool)

  datatype StopPC =
    | SBegin | SLatch | SProvisional | SReadPipes | SClosePipes(seen: bool) | SLock | SKill | SUnlock | SProvisionalAgain
    | SCommit | SWriteState | SFinal | SPersisted | SDone

  /** Encoders and joiners. */
  datatype OtherPC =
    | ELock | ECheck | EWrite(stuck: bool) | EUnlock(sent: bool) | EDone(sent: bool)
    | JRead | JWait | JReadAgain(waited: bool) | JDone(waited: bool, err: RunErr)

  datatype Owner = Nobody | Launcher | Stopper | Other(i: nat)

  /** `enabled` and `revokedContained` (the stop's resulting state) are fixed for a run. */
  datatype State = State(
    enabled: bool, revokedContained: bool, d: Data, io: Owner, launch: LaunchPC, stop: StopPC, others: seq<OtherPC>, events: seq<Event>)

  /** What the environment answers: whether a call succeeded, whether its file landed, whether the child drains a write. */
  datatype Outcome = Outcome(ok: bool, landed: bool, drains: bool)

  // ----- who holds kineticIOMu -----

  predicate LaunchInside(pc: LaunchPC) {
    !pc.LLock? && !pc.LDone?
  }

  predicate StopInside(pc: StopPC) {
    pc.SKill? || pc.SUnlock?
  }

  predicate OtherInside(pc: OtherPC) {
    pc.ECheck? || pc.EWrite? || pc.EUnlock?
  }

  // ----- steps -----

  /** startSupervised */
  function LaunchAfter(enabled: bool, d: Data, pc: LaunchPC, o: Outcome): LaunchPC {
    match pc
    case LLock => LCheck
    case LCheck => if enabled && d.revoked then LUnlock(false) else LStart
    case LStart => if !o.ok then LUnlock(false) else if enabled then LRegister else LUnlock(true)
    case LRegister => LRegisterPipes
    case LRegisterPipes => LRecheck
    case LRecheck => if d.revoked then LClosePipes else LUnlock(true)
    case LClosePipes => LKill
    case LKill => LUnlock(false)
    case LUnlock(ok) => LDone(ok)
    case LDone(ok) => LDone(ok)
  }

  function LaunchStore(d: Data, pc: LaunchPC, o: Outcome): Data {
    match pc
    case LStart => if o.ok then d.(child := Running) else d
    case LRegister => d.(cmd := true)
    case LRegisterPipes => d.(pipes := Open)
    case LClosePipes => d.(pipes := Closed)
    case LKill => Kill(d)
    case _ => d
  }

  function LaunchEvent(pc: LaunchPC, o: Outcome): seq<Event> {
    if pc.LStart? && o.ok then [Launched] else []
  }

  /** killSupervisedLocked: only the registered process can be signalled. */
  function Kill(d: Data): Data {
    if d.cmd then d.(child := Dead) else d
  }

  /** enforceKineticStop */
  function StopAfter(revokedContained: bool, d: Data, pc: StopPC, o: Outcome): StopPC {
    match pc
    case SBegin => SLatch
    case SLatch => SProvisional
    case SProvisional => SReadPipes
    case SReadPipes => SClosePipes(d.pipes != Unregistered)
    case SClosePipes(_) => SLock
    case SLock => SKill
    case SKill => SUnlock
    case SUnlock => SProvisionalAgain
    case SProvisionalAgain => SCommit
    case SCommit => if o.ok && revokedContained then SWriteState else SFinal
    case SWriteState => SFinal
    case SFinal => SPersisted
    case SPersisted => SDone
    case SDone => SDone
  }

  function StopStore(d: Data, pc: StopPC, o: Outcome): Data {
    match pc
    case SBegin => d.(persisting := true)
    case SLatch => d.(revoked := true)
    case SProvisional => d.(runErr := Provisional)
    case SClosePipes(seen) => if seen then d.(pipes := Closed) else d
    case SKill => Kill(d).(contained := true)
    case SProvisionalAgain => d.(runErr := Provisional)
    case SCommit => if o.ok then d.(recorded := true) else d
    case SFinal => d.(runErr := Final)
    case SPersisted => d.(persisting := false)
    case _ => d
  }

  /** The event a stop statement records, if any. */
  function StopEvent(pc: StopPC, o: Outcome): seq<Event> {
    match pc
    case SLatch => [Latched]
    case SKill => [Contained]
    case SCommit => if o.ok then [StopRecorded] else []
    case SWriteState => if o.landed then [StateWritten] else []
    case _ => []
  }

  /** encodeIfNotRevoked and kineticOr */
  function OtherAfter(enabled: bool, d: Data, pc: OtherPC, o: Outcome): OtherPC {
    match pc
    case ELock => ECheck
    case ECheck => if enabled && d.revoked then EUnlock(false) else EWrite(!o.drains)
    case EWrite(stuck) => EUnlock(Succeeds(d, stuck, o))
    case EUnlock(sent) => EDone(sent)
    case EDone(sent) => EDone(sent)
    case JRead => if d.runErr.NoErr? then JReadAgain(false) else JWait
    case JWait => JReadAgain(true)
    case JReadAgain(waited) => JDone(waited, d.runErr)
    case JDone(waited, err) => JDone(waited, err)
  }

  predicate Succeeds(d: Data, stuck: bool, o: Outcome) {
    o.ok && !stuck && !d.pipes.Closed?
  }

  function OtherEvent(d: Data, pc: OtherPC, o: Outcome): seq<Event> {
    if pc.EWrite? && Succeeds(d, pc.stuck, o) then [Encoded] else []
  }

  function MoveIO(io: Owner, self: Owner, before: bool, after: bool): Owner {
    if !before && after then self else if before && !after then Nobody else io
  }

  predicate LaunchEnabled(s: State) {
    !s.launch.LDone? && (s.launch.LLock? ==> s.io == Nobody)
  }

  /** Only an enabled proxy has a monitor to call the stop. */
  predicate StopEnabled(s: State) {
    s.enabled && !s.stop.SDone? && (s.stop.SLock? ==> s.io == Nobody)
  }

  predicate OtherEnabled(s: State, i: nat)
    requires i < |s.others|
  {
    var pc := s.others[i];
    && !pc.EDone? && !pc.JDone? && (pc.ELock? ==> s.io == Nobody) && (pc.JWait? ==> !s.d.persisting)
    && (pc.EWrite? && pc.stuck ==> !s.d.pipes.Open?)
  }

  function LaunchStep(s: State, o: Outcome): State {
    var pc' := LaunchAfter(s.enabled, s.d, s.launch, o);
    s.(d := LaunchStore(s.d, s.launch, o), launch := pc', events := s.events + LaunchEvent(s.launch, o),
       io := MoveIO(s.io, Launcher, LaunchInside(s.launch), LaunchInside(pc')))
  }

  function StopStep(s: State, o: Outcome): State {
    var pc' := StopAfter(s.revokedContained, s.d, s.stop, o);
    s.(d := StopStore(s.d, s.stop, o), stop := pc', events := s.events + StopEvent(s.stop, o),
       io := MoveIO(s.io, Stopper, StopInside(s.stop), StopInside(pc')))
  }

  function OtherStep(s: State, i: nat, o: Outcome): State
    requires i < |s.others|
  {
    var pc' := OtherAfter(s.enabled, s.d, s.others[i], o);
    s.(others := s.others[i := pc'], events := s.events + OtherEvent(s.d, s.others[i], o),
       io := MoveIO(s.io, Other(i), OtherInside(s.others[i]), OtherInside(pc')))
  }

  /** The child may also exit by itself, or because its context was cancelled. */
  function ChildExits(s: State): State
    requires s.d.child.Running?
  {
    s.(d := s.d.(child := Dead))
  }

  /** The child drains a stuck write. */
  function Drained(s: State, i: nat): State
    requires i < |s.others|
  {
    s.(others := s.others[i := EWrite(false)])
  }

  ghost predicate Drains(s: State, s': State) {
    exists i: nat :: i < |s.others| && s.others[i] == EWrite(true) && s' == Drained(s, i)
  }

  ghost predicate Step(s: State, s': State) {
    || (exists o :: LaunchEnabled(s) && s' == LaunchStep(s, o))
    || (exists o :: StopEnabled(s) && s' == StopStep(s, o))
    || (exists i: nat, o :: i < |s.others| && OtherEnabled(s, i) && s' == OtherStep(s, i, o))
    || (s.d.child.Running? && s' == ChildExits(s))
    || Drains(s, s')
  }

  ghost predicate Init(s: State) {
    && s.d == Data(false, false, false, NotStarted, false, Unregistered, NoErr, false) && s.events == []
    && s.io == Nobody && s.launch.LLock? && s.stop.SBegin?
    && forall i :: 0 <= i < |s.others| ==> s.others[i].ELock? || s.others[i].JRead?
  }

  ghost predicate IsRun(run: seq<State>) {
    run != [] && Init(run[0]) && Follows(run)
  }

  ghost predicate Follows(run: seq<State>) {
    forall i, j :: 0 <= i < |run| && 0 <= j < |run| && j == i + 1 ==> Step(run[i], run[j])
  }

  // ----- histories -----

  predicate Acts(e: Event) {
    e.Launched? || e.Encoded?
  }

  /** No launch and no encode is recorded after containment. */
  predicate NothingAfterContainment(events: seq<Event>) {
    forall i, j :: 0 <= i < j < |events| && events[i].Contained? ==> !Acts(events[j])
  }

  /** Containment, then a durable stop record, then the state file. */
  predicate PersistedInOrder(events: seq<Event>) {
    && (forall j :: 0 <= j < |events| && events[j].StateWritten? ==> StopRecorded in events[..j])
    && (forall j :: 0 <= j < |events| && events[j].StopRecorded? ==> Contained in events[..j])
  }

  /** Launches and encodes recorded once the flag is up. */
  function ActsAfterLatch(events: seq<Event>): nat {
    if events == [] then 0
    else
      var n := |events| - 1;
      ActsAfterLatch(events[..n]) + if Acts(events[n]) && Latched in events[..n] then 1 else 0
  }

  // ----- the invariant -----

  ghost predicate OwnerKnown(s: State) {
    && (s.io == Launcher <==> LaunchInside(s.launch))
    && (s.io == Stopper <==> StopInside(s.stop))
    && (forall i: nat :: s.io == Other(i) <==> i < |s.others| && OtherInside(s.others[i]))
  }

  predicate PastLatch(pc: StopPC) {
    !pc.SBegin? && !pc.SLatch?
  }

  predicate PastKill(pc: StopPC) {
    pc.SUnlock? || pc.SProvisionalAgain? || pc.SCommit? || pc.SWriteState? || pc.SFinal? || pc.SPersisted? || pc.SDone?
  }

  /** The error Run would report now: each one is in force over a stretch of the stop's statements. */
  function RunErrAt(pc: StopPC): RunErr {
    if pc.SBegin? || pc.SLatch? || pc.SProvisional? then NoErr
    else if pc.SPersisted? || pc.SDone? then Final else Provisional
  }

  /** Between a passed check and its effect: the holder of kineticIOMu about to launch or encode. */
  predicate Committed(s: State) {
    match s.io
    case Launcher => s.launch.LStart?
    case Other(i) => i < |s.others| && s.others[i].EWrite?
    case _ => false
  }

  predicate Launching(pc: LaunchPC) {
    pc.LStart? || pc.LRegister? || pc.LRegisterPipes? || pc.LRecheck? || pc.LClosePipes? || pc.LKill?
  }

  /** A launch that succeeded started the child; one that did not left none running, and had to kill only under the flag. */
  predicate LaunchEnded(s: State, ok: bool) {
    && (s.enabled && s.d.child == Running ==> s.d.cmd) && (s.d.cmd ==> s.d.child != NotStarted)
    && (ok ==> s.d.child != NotStarted)
    && (!ok ==> s.d.child != Running && (s.d.child != NotStarted ==> s.enabled && s.d.revoked))
  }

  /** How far the launch has got, in terms of the child and its registration. */
  ghost predicate LaunchOk(s: State) {
    match s.launch
    case LLock => s.d.child == NotStarted && !s.d.cmd && s.d.pipes == Unregistered
    case LCheck => s.d.child == NotStarted && !s.d.cmd && s.d.pipes == Unregistered
    case LStart => s.d.child == NotStarted && !s.d.cmd && s.d.pipes == Unregistered
    case LRegister => s.enabled && s.d.child != NotStarted && !s.d.cmd && s.d.pipes == Unregistered
    case LRegisterPipes => s.enabled && s.d.child != NotStarted && s.d.cmd && s.d.pipes == Unregistered
    case LRecheck => s.enabled && s.d.child != NotStarted && s.d.cmd
    case LClosePipes => s.enabled && s.d.child != NotStarted && s.d.cmd && s.d.revoked
    case LKill => s.enabled && s.d.child != NotStarted && s.d.cmd && s.d.revoked && s.d.pipes == Closed
    case LUnlock(ok) => LaunchEnded(s, ok)
    case LDone(ok) => LaunchEnded(s, ok)
  }

  ghost predicate StopOk(s: State) {
    && (s.d.revoked <==> PastLatch(s.stop))
    && (s.d.contained <==> PastKill(s.stop))
    && (s.d.recorded ==> s.d.contained)
    && (s.stop.SWriteState? ==> s.d.recorded && s.revokedContained)
    && (s.stop == SClosePipes(true) ==> s.d.pipes != Unregistered)
    && (!s.stop.SBegin? ==> s.enabled)
    && (s.d.pipes.Closed? ==> s.d.revoked)
    && (s.d.persisting <==> !s.stop.SBegin? && !s.stop.SDone?)
    && s.d.runErr == RunErrAt(s.stop)
  }

  /** A child that passed its second look, or was launched before it, is within the stop's reach. */
  ghost predicate PipesOk(s: State) {
    PastKill(s.stop) || s.stop.SLock? || s.stop.SKill? || s.stop == SClosePipes(false) ==>
      s.d.pipes != Open || s.launch.LRecheck? || s.launch.LClosePipes?
  }

  ghost predicate ContainedOk(s: State) {
    PastKill(s.stop) ==>
      && s.d.child != Running
      && !Launching(s.launch)
      && forall i :: 0 <= i < |s.others| ==> !s.others[i].EWrite?
  }

  /** The history tells the same story as the fields. */
  ghost predicate HistoryOk(s: State) {
    && NothingAfterContainment(s.events) && PersistedInOrder(s.events)
    && (Latched in s.events <==> s.d.revoked)
    && (Contained in s.events <==> s.d.contained)
    && (StopRecorded in s.events <==> s.d.recorded)
    && (Launched in s.events <==> s.d.child != NotStarted)
    && (StateWritten in s.events ==> s.revokedContained)
    && ActsAfterLatch(s.events) + (if s.d.revoked && Committed(s) then 1 else 0) <= 1
  }

  ghost predicate JoinOk(s: State) {
    forall i :: 0 <= i < |s.others| ==>
      match s.others[i]
      case JWait => !s.stop.SBegin?
      case JReadAgain(waited) => waited ==> s.stop.SDone?
      case JDone(waited, err) => (waited ==> s.stop.SDone? && err.Final?) && (!s.enabled ==> err.NoErr?)
      case _ => true
  }

  ghost predicate Inv(s: State) {
    OwnerKnown(s) && LaunchOk(s) && StopOk(s) && PipesOk(s) && ContainedOk(s) && JoinOk(s) && HistoryOk(s)
  }

  // ----- every step keeps the invariant -----

  lemma {:induction false} RecordKeepsHistory(events: seq<Event>, e: Event)
    requires NothingAfterContainment(events) && PersistedInOrder(events)
    requires Acts(e) ==> Contained !in events
    requires e.StateWritten? ==> StopRecorded in events
    requires e.StopRecorded? ==> Contained in events
    ensures NothingAfterContainment(events + [e]) && PersistedInOrder(events + [e])
    ensures ActsAfterLatch(events + [e]) == ActsAfterLatch(events) + if Acts(e) && Latched in events then 1 else 0
    ensures forall x :: x in events + [e] <==> x in events || x == e
  {
    var longer := events + [e];
    assert longer[..|events|] == events;
    assert forall j :: 0 <= j < |events| ==> longer[..j] == events[..j];
  }

  /** Nobody counts before the latch. */
  lemma {:induction false} NoActsCountedBeforeLatch(events: seq<Event>)
    requires Latched !in events
    ensures ActsAfterLatch(events) == 0
  {
    if events != [] {
      NoActsCountedBeforeLatch(events[..|events| - 1]);
    }
  }

  lemma LaunchMovesOwner(s: State, o: Outcome)
    requires OwnerKnown(s) && LaunchEnabled(s)
    ensures OwnerKnown(LaunchStep(s, o))
  {
  }

  lemma StopMovesOwner(s: State, o: Outcome)
    requires OwnerKnown(s) && StopEnabled(s)
    ensures OwnerKnown(StopStep(s, o))
  {
  }

  lemma OtherMovesOwner(s: State, i: nat, o: Outcome)
    requires OwnerKnown(s) && i < |s.others| && OtherEnabled(s, i)
    ensures OwnerKnown(OtherStep(s, i, o))
  {
  }

  /** Appending what a step records keeps the history in step with the fields. */
  lemma HistoryKept(s: State, e: seq<Event>, s': State)
    requires HistoryOk(s) && s'.events == s.events + e && |e| <= 1
    requires s'.d.revoked == (s.d.revoked || e == [Latched])
    requires s'.d.contained == (s.d.contained || e == [Contained])
    requires s'.d.recorded == (s.d.recorded || e == [StopRecorded])
    requires e == [StopRecorded] ==> s.d.contained
    requires e == [StateWritten] ==> s.d.recorded && s.revokedContained
    requires (s'.d.child != NotStarted) == (s.d.child != NotStarted || e == [Launched])
    requires s'.revokedContained == s.revokedContained
    requires e != [] && Acts(e[0]) ==> !s.d.contained && Committed(s) && !Committed(s')
    requires s.d.revoked && Committed(s') ==> Committed(s)
    ensures HistoryOk(s')
  {
    if e == [] {
      assert s.events + e == s.events;
    } else {
      assert e == [e[0]];
      RecordKeepsHistory(s.events, e[0]);
    }
    if !s.d.revoked {
      NoActsCountedBeforeLatch(s.events);
    }
  }

  lemma LaunchMovesFields(s: State, o: Outcome)
    requires OwnerKnown(s) && LaunchOk(s) && StopOk(s) && PipesOk(s) && ContainedOk(s) && LaunchEnabled(s)
    ensures var s' := LaunchStep(s, o);
      LaunchOk(s') && StopOk(s') && PipesOk(s') && ContainedOk(s')
  {
    assert s.launch.LCheck? ==> s.io == Launcher;
  }

  lemma LaunchKeeps(s: State, o: Outcome)
    requires Inv(s) && LaunchEnabled(s)
    ensures Inv(LaunchStep(s, o))
  {
    LaunchMovesOwner(s, o);
    LaunchMovesFields(s, o);
    HistoryKept(s, LaunchEvent(s.launch, o), LaunchStep(s, o));
  }

  lemma StopMovesStop(s: State, o: Outcome)
    requires StopOk(s) && StopEnabled(s)
    ensures StopOk(StopStep(s, o))
  {
  }

  lemma StopKeepsLaunch(s: State, o: Outcome)
    requires LaunchOk(s) && StopOk(s) && StopEnabled(s)
    ensures LaunchOk(StopStep(s, o))
  {
  }

  lemma StopKeepsPipes(s: State, o: Outcome)
    requires OwnerKnown(s) && LaunchOk(s) && StopOk(s) && PipesOk(s) && StopEnabled(s)
    ensures PipesOk(StopStep(s, o))
  {
  }

  /** The kill finds nobody else inside the lock, and every running child registered. */
  lemma StopKeepsContained(s: State, o: Outcome)
    requires OwnerKnown(s) && LaunchOk(s) && ContainedOk(s) && StopEnabled(s)
    ensures ContainedOk(StopStep(s, o))
  {
    if s.stop.SKill? {
      assert s.io == Stopper;
    }
  }

  lemma StopKeepsJoins(s: State, o: Outcome)
    requires JoinOk(s) && StopEnabled(s)
    ensures JoinOk(StopStep(s, o))
  {
    assert StopStep(s, o).others == s.others;
  }

  lemma StopKeepsHistory(s: State, o: Outcome)
    requires OwnerKnown(s) && LaunchOk(s) && StopOk(s) && HistoryOk(s) && StopEnabled(s)
    ensures HistoryOk(StopStep(s, o))
  {
    HistoryKept(s, StopEvent(s.stop, o), StopStep(s, o));
  }

  lemma StopKeeps(s: State, o: Outcome)
    requires Inv(s) && StopEnabled(s)
    ensures Inv(StopStep(s, o))
  {
    StopMovesOwner(s, o);
    StopMovesStop(s, o);
    StopKeepsLaunch(s, o);
    StopKeepsPipes(s, o);
    StopKeepsContained(s, o);
    StopKeepsJoins(s, o);
    StopKeepsHistory(s, o);
  }

  lemma OtherKeepsFields(s: State, i: nat, o: Outcome)
    requires OwnerKnown(s) && StopOk(s) && ContainedOk(s) && JoinOk(s) && i < |s.others| && OtherEnabled(s, i)
    ensures var s' := OtherStep(s, i, o); ContainedOk(s') && JoinOk(s')
  {
  }

  lemma OtherKeepsHistory(s: State, i: nat, o: Outcome)
    requires OwnerKnown(s) && StopOk(s) && ContainedOk(s) && HistoryOk(s) && i < |s.others| && OtherEnabled(s, i)
    ensures HistoryOk(OtherStep(s, i, o))
  {
    HistoryKept(s, OtherEvent(s.d, s.others[i], o), OtherStep(s, i, o));
  }

  lemma OtherKeeps(s: State, i: nat, o: Outcome)
    requires Inv(s) && i < |s.others| && OtherEnabled(s, i)
    ensures Inv(OtherStep(s, i, o))
  {
    OtherMovesOwner(s, i, o);
    OtherKeepsFields(s, i, o);
    OtherKeepsHistory(s, i, o);
  }

  lemma DrainsKeeps(s: State, s': State)
    requires Inv(s) && Drains(s, s')
    ensures Inv(s')
  {
    var i: nat :| i < |s.others| && s.others[i] == EWrite(true) && s' == Drained(s, i);
    assert OwnerKnown(s') && JoinOk(s');
    assert s.events + [] == s'.events;
    HistoryKept(s, [], s');
  }

  lemma StepKeeps(s: State, s': State)
    requires Inv(s) && Step(s, s')
    ensures Inv(s')
  {
    if o :| LaunchEnabled(s) && s' == LaunchStep(s, o) {
      LaunchKeeps(s, o);
    } else if o :| StopEnabled(s) && s' == StopStep(s, o) {
      StopKeeps(s, o);
    } else if i: nat, o :| i < |s.others| && OtherEnabled(s, i) && s' == OtherStep(s, i, o) {
      OtherKeeps(s, i, o);
    } else if Drains(s, s') {
      DrainsKeeps(s, s');
    }
  }

  lemma {:induction false} FollowingKeeps(run: seq<State>, i: nat)
    requires i < |run| && Inv(run[0]) && Follows(run)
    ensures Inv(run[i])
  {
    if i > 0 {
      FollowingKeeps(run, i - 1);
      StepKeeps(run[i - 1], run[i]);
    }
  }

  lemma RunKeepsInvariant(run: seq<State>, i: nat)
    requires IsRun(run) && i < |run|
    ensures Inv(run[i])
  {
    FollowingKeeps(run, i);
  }

  // ----- main results -----

  /**
    From the kill on, in every state of every run: no supervised child is running, nothing is
    between its check and its launch or encode, and the registered pipes are closed.
   */
  lemma ContainmentHolds(run: seq<State>, i: nat)
    requires IsRun(run) && i < |run| && Contained in run[i].events
    ensures run[i].d.child != Running && !Committed(run[i]) && run[i].d.pipes != Open
  {
    RunKeepsInvariant(run, i);
  }

  /** No run launches or encodes after containment. */
  lemma NothingActsAfterContainment(run: seq<State>, i: nat)
    requires IsRun(run) && i < |run|
    ensures NothingAfterContainment(run[i].events)
  {
    RunKeepsInvariant(run, i);
  }

  /** The revoked_contained state is written only after a durable stop record, itself only after containment. */
  lemma StateFollowsRecordFollowsContainment(run: seq<State>, i: nat)
    requires IsRun(run) && i < |run|
    ensures PersistedInOrder(run[i].events)
    ensures StateWritten in run[i].events ==> StopRecorded in run[i].events && Contained in run[i].events
  {
    RunKeepsInvariant(run, i);
    var events := run[i].events;
    if StateWritten in events {
      var j :| 0 <= j < |events| && events[j] == StateWritten;
      var k :| 0 <= k < j && events[..j][k] == StopRecorded;
      assert events[k] == StopRecorded;
    }
  }

  /** After the flag goes up at most one launch or encode, already past its check, still completes. */
  lemma AtMostOneActAfterLatch(run: seq<State>, i: nat)
    requires IsRun(run) && i < |run|
    ensures ActsAfterLatch(run[i].events) <= 1
  {
    RunKeepsInvariant(run, i);
  }

  // ----- where the documentation promises more than the code keeps -----

  const YES := Outcome(true, true, true)

  function Start(others: seq<OtherPC>): State {
    State(true, true, Data(false, false, false, NotStarted, false, Unregistered, NoErr, false),
          Nobody, LLock, SBegin, others, [])
  }

  lemma Extend(run: seq<State>, s': State) returns (longer: seq<State>)
    requires IsRun(run) && Step(run[|run| - 1], s')
    ensures IsRun(longer) && longer[|longer| - 1] == s'
  {
    longer := run + [s'];
  }

  /** The flag is not raised under the I/O mutex, so an encode past its check completes after it. */
  lemma LatchedStopCanBeFollowedByAnEncode()
    ensures exists run: seq<State> :: IsRun(run) && run[|run| - 1].events == [Latched, Encoded]
  {
    var s := Start([ELock]);
    var run := Extend([s], OtherStep(s, 0, YES));
    s := OtherStep(s, 0, YES);
    run := Extend(run, OtherStep(s, 0, YES));
    s := OtherStep(s, 0, YES);
    run := Extend(run, StopStep(s, YES));
    s := StopStep(s, YES);
    run := Extend(run, StopStep(s, YES));
    s := StopStep(s, YES);
    run := Extend(run, OtherStep(s, 0, YES));
    assert run[|run| - 1].events == [Latched, Encoded];
  }

  /** kineticOr waits only if its first look finds an error; a stop starting between its two looks is returned unpersisted. */
  lemma UnwaitedJoinCanReturnProvisional()
    ensures exists run: seq<State> ::
      IsRun(run) && run[|run| - 1].others == [JDone(false, Provisional)] && run[|run| - 1].d.persisting
  {
    var s := Start([JRead]);
    var run := Extend([s], OtherStep(s, 0, YES));
    s := OtherStep(s, 0, YES);
    run := Extend(run, StopStep(s, YES));
    s := StopStep(s, YES);
    run := Extend(run, StopStep(s, YES));
    s := StopStep(s, YES);
    run := Extend(run, StopStep(s, YES));
    s := StopStep(s, YES);
    run := Extend(run, OtherStep(s, 0, YES));
    assert run[|run| - 1].others == [JDone(false, Provisional)];
  }
}
