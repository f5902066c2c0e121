/**
  The stop always gets through: under an enabled proxy no reachable state is stuck, even when the
  child drains nothing and an encoder holds kineticIOMu in the middle of its write, and no run is endless
  (internal/proxy/kinetic_stop.go).
 */
module KineticProgress {
  import opened KineticStop

  // ----- nothing is stuck -----

  predicate OtherFinished(pc: OtherPC) {
    pc.EDone? || pc.JDone?
  }

  predicate AllFinished(s: State) {
    s.stop.SDone? && s.launch.LDone? && forall i :: 0 <= i < |s.others| ==> OtherFinished(s.others[i])
  }

  predicate SomeOtherEnabled(s: State) {
    exists i :: 0 <= i < |s.others| && OtherEnabled(s, i)
  }

  predicate Enabled(s: State) {
    LaunchEnabled(s) || StopEnabled(s) || SomeOtherEnabled(s)
  }

  /** The stop closes the pipes before it asks for the lock, so a write holding the lock does not block then. */
  lemma WaitingStopFindsHolderEnabled(s: State)
    requires Inv(s) && s.stop.SLock? && s.io != Nobody
    ensures LaunchEnabled(s) || SomeOtherEnabled(s)
  {
    assert OwnerKnown(s);
    if s.io.Other? {
      assert OtherInside(s.others[s.io.i]);
      assert OtherEnabled(s, s.io.i);
    }
  }

  /** After the stop, whoever is left can go on: the pipes are closed and nothing is being persisted. */
  lemma FinishedStopLeavesNobodyStuck(s: State)
    requires Inv(s) && s.stop.SDone? && !AllFinished(s)
    ensures LaunchEnabled(s) || SomeOtherEnabled(s)
  {
    assert OwnerKnown(s);
    if s.io.Other? {
      assert OtherInside(s.others[s.io.i]);
      assert OtherEnabled(s, s.io.i);
    } else if s.launch.LDone? {
      var i :| 0 <= i < |s.others| && !OtherFinished(s.others[i]);
      assert OtherEnabled(s, i);
    }
  }

  /**
    In every reachable state of an enabled proxy some thread of it can move, whatever the child does,
    unless all have finished.
   */
  lemma NothingIsStuck(run: seq<State>)
    requires IsRun(run) && run[|run| - 1].enabled && !AllFinished(run[|run| - 1])
    ensures Enabled(run[|run| - 1])
  {
    var s := run[|run| - 1];
    RunKeepsInvariant(run, |run| - 1);
    if s.stop.SDone? {
      FinishedStopLeavesNobodyStuck(s);
    } else if s.stop.SLock? && s.io != Nobody {
      WaitingStopFindsHolderEnabled(s);
    }
  }

  // ----- no run is endless -----

  function LaunchLeft(pc: LaunchPC): nat {
    match pc
    case LLock => 10
    case LCheck => 9
    case LStart => 8
    case LRegister => 6
    case LRegisterPipes => 5
    case LRecheck => 4
    case LClosePipes => 3
    case LKill => 2
    case LUnlock(_) => 1
    case LDone(_) => 0
  }

  function StopLeft(pc: StopPC): nat {
    match pc
    case SBegin => 13
    case SLatch => 12
    case SProvisional => 11
    case SReadPipes => 10
    case SClosePipes(_) => 9
    case SLock => 8
    case SKill => 7
    case SUnlock => 6
    case SProvisionalAgain => 5
    case SCommit => 4
    case SWriteState => 3
    case SFinal => 2
    case SPersisted => 1
    case SDone => 0
  }

  function OtherLeft(pc: OtherPC): nat {
    match pc
    case ELock => 5
    case ECheck => 4
    case EWrite(stuck) => if stuck then 3 else 2
    case EUnlock(_) => 1
    case EDone(_) => 0
    case JRead => 3
    case JWait => 2
    case JReadAgain(_) => 1
    case JDone(_, _) => 0
  }

  function OthersLeft(pcs: seq<OtherPC>): nat {
    if pcs == [] then 0 else OtherLeft(pcs[0]) + OthersLeft(pcs[1..])
  }

  lemma {:induction false} OthersLeftUpdated(pcs: seq<OtherPC>, i: nat, pc: OtherPC)
    requires i < |pcs|
    ensures OthersLeft(pcs[i := pc]) == OthersLeft(pcs) - OtherLeft(pcs[i]) + OtherLeft(pc)
  {
    if i > 0 {
      assert pcs[i := pc][1..] == pcs[1..][i - 1 := pc];
      OthersLeftUpdated(pcs[1..], i - 1, pc);
    }
  }

  /** Statements left, and one more for a child that has yet to exit. */
  function Left(s: State): nat {
    LaunchLeft(s.launch) + StopLeft(s.stop) + OthersLeft(s.others) + if s.d.child.Running? then 1 else 0
  }

  lemma LaunchDecreases(s: State, o: Outcome)
    requires LaunchEnabled(s)
    ensures Left(LaunchStep(s, o)) < Left(s)
  {
  }

  lemma StopDecreases(s: State, o: Outcome)
    requires StopEnabled(s)
    ensures Left(StopStep(s, o)) < Left(s)
  {
  }

  lemma OtherDecreases(s: State, i: nat, o: Outcome)
    requires i < |s.others| && OtherEnabled(s, i)
    ensures Left(OtherStep(s, i, o)) < Left(s)
  {
    OthersLeftUpdated(s.others, i, OtherAfter(s.enabled, s.d, s.others[i], o));
  }

  lemma StepDecreases(s: State, s': State)
    requires Step(s, s')
    ensures Left(s') < Left(s)
  {
    if o :| LaunchEnabled(s) && s' == LaunchStep(s, o) {
      LaunchDecreases(s, o);
    } else if o :| StopEnabled(s) && s' == StopStep(s, o) {
      StopDecreases(s, o);
    } else if i: nat, o :| i < |s.others| && OtherEnabled(s, i) && s' == OtherStep(s, i, o) {
      OtherDecreases(s, i, o);
    } else if i: nat :| i < |s.others| && s.others[i] == EWrite(true) && s' == Drained(s, i) {
      OthersLeftUpdated(s.others, i, EWrite(false));
    }
  }

  lemma {:induction false} LeftFalls(run: seq<State>, i: nat)
    requires IsRun(run) && i < |run|
    ensures i + Left(run[i]) <= Left(run[0])
  {
    if i > 0 {
      LeftFalls(run, i - 1);
      assert Step(run[i - 1], run[i]);
      StepDecreases(run[i - 1], run[i]);
    }
  }

  lemma {:induction false} OthersLeftBound(pcs: seq<OtherPC>)
    ensures OthersLeft(pcs) <= 5 * |pcs|
  {
    if pcs != [] {
      OthersLeftBound(pcs[1..]);
    }
  }

  /** A run takes at most a fixed number of steps, so with `NothingIsStuck` the stop of every maximal run ends. */
  lemma RunsAreFinite(run: seq<State>)
    requires IsRun(run)
    ensures |run| <= 24 + 5 * |run[0].others|
  {
    LeftFalls(run, |run| - 1);
    OthersLeftBound(run[0].others);
  }

  /** A run in which no thread can move has ended the stop, contained the child and finished every thread. */
  lemma MaximalRunsAreContained(run: seq<State>)
    requires IsRun(run) && run[|run| - 1].enabled && !Enabled(run[|run| - 1])
    ensures var s := run[|run| - 1];
      AllFinished(s) && Contained in s.events && s.d.child != Running && !s.d.persisting
  {
    if !AllFinished(run[|run| - 1]) {
      NothingIsStuck(run);
    }
    RunKeepsInvariant(run, |run| - 1);
  }
}
