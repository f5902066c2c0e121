/**
  What is exactly true where a latched stop, or a join on it, falls short of what is documented;
  and that the stop always gets through (internal/proxy/kinetic_stop.go).
 */
module KineticExact {
  import opened KineticStop

  function Last(run: seq<State>): State
    requires run != []
  {
    run[|run| - 1]
  }

  /** `longer` is a run that begins with `run`. */
  ghost predicate Extends(run: seq<State>, longer: seq<State>) {
    IsRun(longer) && |run| <= |longer| && longer[..|run|] == run
  }

  lemma OneMoreStep(run: seq<State>, longer: seq<State>, s': State)
    requires Extends(run, longer) && Step(Last(longer), s')
    ensures Extends(run, longer + [s']) && Last(longer + [s']) == s'
  {
    var next := longer + [s'];
    assert next[..|run|] == longer[..|run|];
  }

  /** A property of states that every step keeps holds from any state of a run on. */
  lemma {:induction false} KeptFrom(p: State -> bool, run: seq<State>, k: nat, i: nat)
    requires IsRun(run) && k <= i < |run| && p(run[k])
    requires forall s, s' :: Inv(s) && p(s) && Step(s, s') ==> p(s')
    ensures p(run[i])
    decreases i - k
  {
    if k < i {
      RunKeepsInvariant(run, k);
      assert Step(run[k], run[k + 1]);
      KeptFrom(p, run, k + 1, i);
    }
  }

  // ----- what still completes after the latch -----

  /** The flag is up, nothing has acted since, and nobody is past its check. */
  ghost predicate Quiet(s: State) {
    s.d.revoked && !Committed(s) && ActsAfterLatch(s.events) == 0
  }

  lemma {:induction false} QuietHistory(events: seq<Event>, e: seq<Event>)
    requires |e| <= 1 && ActsAfterLatch(events) == 0
    requires e != [] ==> !Acts(e[0])
    ensures ActsAfterLatch(events + e) == 0
  {
    if e == [] {
      assert events + e == events;
    } else {
      assert (events + e)[..|events|] == events;
    }
  }

  lemma LaunchStaysQuiet(s: State, o: Outcome)
    requires Inv(s) && Quiet(s) && LaunchEnabled(s)
    ensures Quiet(LaunchStep(s, o))
  {
    assert OwnerKnown(s);
    assert s.launch.LCheck? ==> s.enabled;
    QuietHistory(s.events, LaunchEvent(s.launch, o));
  }

  lemma StopCommitsNobody(s: State, o: Outcome)
    requires StopEnabled(s) && !Committed(s)
    ensures !Committed(StopStep(s, o))
  {
  }

  lemma StopNeverActs(pc: StopPC, o: Outcome)
    ensures |StopEvent(pc, o)| <= 1 && (StopEvent(pc, o) != [] ==> !Acts(StopEvent(pc, o)[0]))
  {
  }

  lemma StopStaysQuiet(s: State, o: Outcome)
    requires Quiet(s) && StopEnabled(s)
    ensures Quiet(StopStep(s, o))
  {
    StopCommitsNobody(s, o);
    StopNeverActs(s.stop, o);
    QuietHistory(s.events, StopEvent(s.stop, o));
  }

  lemma OtherStaysQuiet(s: State, i: nat, o: Outcome)
    requires Inv(s) && Quiet(s) && i < |s.others| && OtherEnabled(s, i)
    ensures Quiet(OtherStep(s, i, o))
  {
    assert OwnerKnown(s);
    assert s.others[i].ECheck? ==> s.enabled;
    QuietHistory(s.events, OtherEvent(s.d, s.others[i], o));
  }

  lemma StaysQuiet(s: State, s': State)
    requires Inv(s) && Quiet(s) && Step(s, s')
    ensures Quiet(s')
  {
    if o :| LaunchEnabled(s) && s' == LaunchStep(s, o) {
      LaunchStaysQuiet(s, o);
    } else if o :| StopEnabled(s) && s' == StopStep(s, o) {
      StopStaysQuiet(s, o);
    } else if i: nat, o :| i < |s.others| && OtherEnabled(s, i) && s' == OtherStep(s, i, o) {
      OtherStaysQuiet(s, i, o);
    }
  }

  lemma QuietFrom(run: seq<State>, k: nat, i: nat)
    requires IsRun(run) && k <= i < |run| && Quiet(run[k])
    ensures Quiet(run[i])
  {
    forall s, s' | Inv(s) && Quiet(s) && Step(s, s') ensures Quiet(s') {
      StaysQuiet(s, s');
    }
    KeptFrom(s => Quiet(s), run, k, i);
  }

  lemma LaunchLeavesFlag(s: State, o: Outcome)
    ensures LaunchStep(s, o).d.revoked == s.d.revoked
  {
  }

  lemma StopRaisesFlag(s: State, o: Outcome)
    requires StopEnabled(s) && !s.d.revoked && StopStep(s, o).d.revoked
    ensures s.stop.SLatch? && StopStep(s, o) == StopStep(s, YES)
    ensures Committed(StopStep(s, o)) == Committed(s) && StopStep(s, o).events == s.events + [Latched]
  {
  }

  /** Only the stop raises the flag, and it touches neither the lock nor its holder. */
  lemma LatchStep(s: State, s': State)
    requires Step(s, s') && !s.d.revoked && s'.d.revoked
    ensures s.stop.SLatch? && s' == StopStep(s, YES)
    ensures Committed(s') == Committed(s) && s'.events == s.events + [Latched]
  {
    if o :| LaunchEnabled(s) && s' == LaunchStep(s, o) {
      LaunchLeavesFlag(s, o);
    } else if o :| StopEnabled(s) && s' == StopStep(s, o) {
      StopRaisesFlag(s, o);
    }
  }

  lemma QuietAtLatch(s: State, s': State)
    requires Inv(s) && Step(s, s') && !s.d.revoked && s'.d.revoked && !Committed(s)
    ensures Quiet(s')
  {
    LatchStep(s, s');
    NoActsCountedBeforeLatch(s.events);
    QuietHistory(s.events, [Latched]);
  }

  /**
    In every run, what completes after the flag went up at step j is at most the one act of the
    holder of kineticIOMu at that moment, and nothing at all if that holder was not past its check.
   */
  lemma OnlyTheHolderActsAfterLatch(run: seq<State>, j: nat, i: nat)
    requires IsRun(run) && j < i < |run| && !run[j].d.revoked && run[j + 1].d.revoked
    ensures ActsAfterLatch(run[i].events) <= if Committed(run[j]) then 1 else 0
  {
    RunKeepsInvariant(run, j);
    if Committed(run[j]) {
      AtMostOneActAfterLatch(run, i);
    } else {
      QuietAtLatch(run[j], run[j + 1]);
      QuietFrom(run, j + 1, i);
    }
  }

  lemma {:induction false} RecordsOneAct(events: seq<Event>, e: Event)
    requires Acts(e) && Latched in events && ActsAfterLatch(events) == 0
    ensures ActsAfterLatch(events + [e]) == 1
  {
    assert (events + [e])[..|events|] == events;
  }

  predicate HolderStuck(s: State) {
    s.io.Other? && s.io.i < |s.others| && s.others[s.io.i] == EWrite(true)
  }

  /** The state after a holder past its check goes on. */
  lemma HolderActs(s: State) returns (s': State)
    requires Inv(s) && Committed(s) && !HolderStuck(s) && s.d.revoked && !s.d.pipes.Closed?
    requires ActsAfterLatch(s.events) == 0
    ensures Step(s, s') && ActsAfterLatch(s'.events) == 1
  {
    if s.io.Launcher? {
      assert LaunchEnabled(s);
      assert LaunchEvent(s.launch, YES) == [Launched];
      RecordsOneAct(s.events, Launched);
      s' := LaunchStep(s, YES);
    } else {
      var i := s.io.i;
      assert OtherEnabled(s, i);
      assert OtherEvent(s.d, s.others[i], YES) == [Encoded];
      RecordsOneAct(s.events, Encoded);
      s' := OtherStep(s, i, YES);
    }
  }

  lemma LatchedThenActs(run: seq<State>) returns (longer: seq<State>)
    requires IsRun(run) && Last(run).stop.SLatch? && Committed(Last(run))
    ensures Extends(WithStopStep(run), longer) && ActsAfterLatch(Last(longer).events) == 1
  {
    var s := Last(run);
    RunKeepsInvariant(run, |run| - 1);
    assert StopEnabled(s);
    OneMoreStep(run, run, StopStep(s, YES));
    StopRaisesFlag(s, YES);
    NoActsCountedBeforeLatch(s.events);
    QuietHistory(s.events, [Latched]);
    longer := WithStopStep(run);
    StepKeeps(s, Last(longer));
    if HolderStuck(s) {
      var drained := Drained(Last(longer), s.io.i);
      assert Drains(Last(longer), drained);
      StepKeeps(Last(longer), drained);
      OneMoreStep(WithStopStep(run), longer, drained);
      longer := longer + [drained];
    }
    var s' := HolderActs(Last(longer));
    OneMoreStep(WithStopStep(run), longer, s');
    longer := longer + [s'];
  }

  /** The run with the stop's next statement appended. */
  function WithStopStep(run: seq<State>): seq<State>
    requires run != []
  {
    run + [StopStep(Last(run), YES)]
  }

  /** With nobody past its check at the latch, nothing acts after it in any continuation. */
  lemma NobodyActs(run: seq<State>, longer: seq<State>)
    requires IsRun(run) && Last(run).stop.SLatch? && !Committed(Last(run)) && Extends(WithStopStep(run), longer)
    ensures ActsAfterLatch(Last(longer).events) == 0
  {
    var n := |run|;
    RunKeepsInvariant(run, n - 1);
    assert longer[n - 1] == longer[..n + 1][n - 1] == Last(run);
    assert longer[n] == longer[..n + 1][n] == StopStep(Last(run), YES);
    OnlyTheHolderActsAfterLatch(longer, n - 1, |longer| - 1);
  }

  /**
    A stop about to raise the flag is followed by no launch and no encode, however the run goes on,
    if and only if nobody is past its check under kineticIOMu when the flag goes up.
   */
  lemma NothingActsAfterLatchExactlyWhen(run: seq<State>)
    requires IsRun(run) && Last(run).stop.SLatch?
    ensures (forall longer {:trigger Extends(WithStopStep(run), longer)} ::
               Extends(WithStopStep(run), longer) ==> ActsAfterLatch(Last(longer).events) == 0)
            <==> !Committed(Last(run))
  {
    if Committed(Last(run)) {
      var longer := LatchedThenActs(run);
      assert Extends(WithStopStep(run), longer);
    } else {
      forall longer | Extends(WithStopStep(run), longer) ensures ActsAfterLatch(Last(longer).events) == 0 {
        NobodyActs(run, longer);
      }
    }
  }

  // ----- what a join returns -----

  lemma StepMovesOther(s: State, s': State, t: nat)
    requires Step(s, s') && t < |s.others|
    ensures |s'.others| == |s.others| && s'.enabled == s.enabled
    ensures s'.others[t] == s.others[t] || (s.others[t].EWrite? && s'.others[t].EWrite?)
            || (OtherEnabled(s, t) && s'.stop == s.stop && s'.d == s.d
                && exists o :: s'.others[t] == OtherAfter(s.enabled, s.d, s.others[t], o))
  {
    if o :| LaunchEnabled(s) && s' == LaunchStep(s, o) {
    } else if o :| StopEnabled(s) && s' == StopStep(s, o) {
    } else if i: nat, o :| i < |s.others| && OtherEnabled(s, i) && s' == OtherStep(s, i, o) {
      assert i == t ==> s'.others[t] == OtherAfter(s.enabled, s.d, s.others[t], o);
    }
  }

  /** Step k of the run is the second look of thread t, after which its join has ended. */
  predicate SecondLook(run: seq<State>, k: nat, t: nat) {
    && k + 1 < |run| && t < |run[k].others| && t < |run[k + 1].others|
    && run[k].others[t].JReadAgain? && run[k + 1].others[t] == JDone(run[k].others[t].waited, run[k].d.runErr)
  }

  /** That look ends the join this way, with the error the stop's place then puts in force. */
  predicate EndedBy(run: seq<State>, k: nat, t: nat, end: OtherPC) {
    SecondLook(run, k, t) && run[k + 1].others[t] == end && end.JDone? && end.err == RunErrAt(run[k].stop)
  }

  lemma StepEndsJoin(s: State, s': State, t: nat)
    requires Inv(s) && Step(s, s') && t < |s.others| && t < |s'.others| && s'.others[t].JDone? && s.others[t] != s'.others[t]
    ensures s.others[t].JReadAgain? && s'.others[t] == JDone(s.others[t].waited, s.d.runErr) && s.d.runErr == RunErrAt(s.stop)
  {
    StepMovesOther(s, s', t);
  }

  lemma RunSteps(run: seq<State>, i: nat)
    requires IsRun(run) && i + 1 < |run|
    ensures Inv(run[i]) && Step(run[i], run[i + 1])
  {
    RunKeepsInvariant(run, i);
  }

  /** A join returns the error in force at its second look, and where the stop then stood decides which that is. */
  lemma {:induction false} JoinReturnsItsSecondLook(run: seq<State>, i: nat, t: nat)
    requires IsRun(run) && i < |run| && t < |run[i].others| && run[i].others[t].JDone?
    ensures exists k: nat :: k < i && EndedBy(run, k, t, run[i].others[t])
  {
    NoJoinHasEnded(run, t);
    RunSteps(run, i - 1);
    StepKeepsThreads(run[i - 1], run[i]);
    if run[i - 1].others[t] == run[i].others[t] {
      JoinReturnsItsSecondLook(run, i - 1, t);
    } else {
      StepEndsJoin(run[i - 1], run[i], t);
      assert EndedBy(run, i - 1, t, run[i].others[t]);
    }
  }

  lemma NoJoinHasEnded(run: seq<State>, t: nat)
    requires IsRun(run)
    ensures t < |run[0].others| ==> !run[0].others[t].JDone?
  {
    assert Init(run[0]);
  }

  lemma StepKeepsThreads(s: State, s': State)
    requires Step(s, s')
    ensures |s'.others| == |s.others|
  {
  }

  predicate JoinEnded(s: State, t: nat, err: RunErr) {
    t < |s.others| && s.others[t].JDone? && s.others[t].err == err
  }

  /** The error the join of thread t ends with is reported while the outcome is still being persisted. */
  predicate EndedUnpersisted(s: State, t: nat) {
    JoinEnded(s, t, Provisional) && s.d.persisting
  }

  /** With the provisional error in force, a second look ends the join with it. */
  lemma LookAtProvisional(run: seq<State>, longer: seq<State>, t: nat) returns (ended: seq<State>)
    requires Extends(run, longer) && t < |Last(longer).others| && Last(longer).others[t] == JReadAgain(false)
    requires Last(longer).d.runErr.Provisional?
    ensures Extends(run, ended) && EndedUnpersisted(Last(ended), t)
  {
    var s := Last(longer);
    RunKeepsInvariant(longer, |longer| - 1);
    assert OtherEnabled(s, t);
    OneMoreStep(run, longer, OtherStep(s, t, YES));
    ended := longer + [OtherStep(s, t, YES)];
  }

  /** The stop reaches its provisional error without waiting for anybody. */
  lemma {:induction false} ReachProvisional(run: seq<State>, longer: seq<State>, t: nat) returns (reached: seq<State>)
    requires Extends(run, longer) && t < |Last(longer).others| && Last(longer).others[t] == JReadAgain(false)
    requires Last(longer).enabled && !Last(longer).d.runErr.Final?
    ensures Extends(run, reached) && t < |Last(reached).others| && Last(reached).others[t] == JReadAgain(false)
    ensures Last(reached).d.runErr.Provisional?
    decreases var pc := Last(longer).stop; if pc.SBegin? then 2 else if pc.SLatch? then 1 else 0
  {
    var s := Last(longer);
    RunKeepsInvariant(longer, |longer| - 1);
    if s.d.runErr.Provisional? {
      reached := longer;
    } else {
      assert StopEnabled(s);
      OneMoreStep(run, longer, StopStep(s, YES));
      reached := longer + [StopStep(s, YES)];
      if !s.stop.SProvisional? {
        reached := ReachProvisional(run, reached, t);
      }
    }
  }

  lemma CanEndUnpersisted(run: seq<State>, longer: seq<State>, t: nat) returns (ended: seq<State>)
    requires Extends(run, longer) && t < |Last(longer).others| && Last(longer).others[t] == JReadAgain(false)
    requires Last(longer).enabled && !Last(longer).d.runErr.Final?
    ensures Extends(run, ended) && EndedUnpersisted(Last(ended), t)
  {
    var reached := ReachProvisional(run, longer, t);
    ended := LookAtProvisional(run, reached, t);
  }

  /** The join of thread t is past its first look, which found an error. */
  predicate Waits(s: State, t: nat) {
    t < |s.others| && (s.others[t].JWait? || s.others[t] == JReadAgain(true) || (s.others[t].JDone? && s.others[t].waited))
  }

  /** The final error is in force, and thread t has yet to look again or ended with it. */
  predicate LooksLate(s: State, t: nat) {
    && t < |s.others| && (s.stop.SPersisted? || s.stop.SDone?)
    && (s.others[t] == JReadAgain(false) || JoinEnded(s, t, Final))
  }

  lemma WaitsOn(run: seq<State>, k: nat, i: nat, t: nat)
    requires IsRun(run) && k <= i < |run| && Waits(run[k], t)
    ensures Waits(run[i], t)
  {
    forall s, s' | Inv(s) && Waits(s, t) && Step(s, s') ensures Waits(s', t) {
      StepMovesOther(s, s', t);
    }
    KeptFrom(s => Waits(s, t), run, k, i);
  }

  lemma LooksLateOn(run: seq<State>, k: nat, i: nat, t: nat)
    requires IsRun(run) && k <= i < |run| && LooksLate(run[k], t)
    ensures LooksLate(run[i], t)
  {
    forall s, s' | Inv(s) && LooksLate(s, t) && Step(s, s') ensures LooksLate(s', t) {
      StepMovesOther(s, s', t);
      StopStaysLate(s, s');
    }
    KeptFrom(s => LooksLate(s, t), run, k, i);
  }

  lemma StopStaysLate(s: State, s': State)
    requires Step(s, s') && (s.stop.SPersisted? || s.stop.SDone?)
    ensures s'.stop.SPersisted? || s'.stop.SDone?
  {
  }

  lemma DisabledOn(run: seq<State>, k: nat, i: nat)
    requires IsRun(run) && k <= i < |run| && !run[k].enabled
    ensures !run[i].enabled
  {
    forall s, s' | Inv(s) && !s.enabled && Step(s, s') ensures !s'.enabled {
      StepKeepsThreads(s, s');
    }
    KeptFrom((s: State) => !s.enabled, run, k, i);
  }

  /** Under the final error, or with no stop to come, no continuation ends the join with the provisional error. */
  lemma LateLookFindsFinal(run: seq<State>, t: nat, longer: seq<State>)
    requires IsRun(run) && Extends(run, longer) && LooksLate(Last(run), t)
    ensures !JoinEnded(Last(longer), t, Provisional)
  {
    assert longer[|run| - 1] == longer[..|run|][|run| - 1];
    LooksLateOn(longer, |run| - 1, |longer| - 1, t);
  }

  lemma DisabledLookFindsNone(run: seq<State>, t: nat, longer: seq<State>)
    requires IsRun(run) && Extends(run, longer) && !Last(run).enabled
    ensures !JoinEnded(Last(longer), t, Provisional)
  {
    assert longer[|run| - 1] == longer[..|run|][|run| - 1];
    DisabledOn(longer, |run| - 1, |longer| - 1);
    RunKeepsInvariant(longer, |longer| - 1);
  }

  /**
    A join that did not wait may still end with the unpersisted error if and only if a stop can come,
    and its final error is not in force yet.
   */
  lemma SecondLookMayFindProvisional(run: seq<State>, t: nat)
    requires IsRun(run) && t < |Last(run).others| && Last(run).others[t] == JReadAgain(false)
    ensures (exists longer {:trigger Extends(run, longer)} :: Extends(run, longer) && EndedUnpersisted(Last(longer), t))
            <==> Last(run).enabled && !Last(run).stop.SPersisted? && !Last(run).stop.SDone?
  {
    RunKeepsInvariant(run, |run| - 1);
    if Last(run).enabled && !Last(run).stop.SPersisted? && !Last(run).stop.SDone? {
      var ended := CanEndUnpersisted(run, run, t);
      assert Extends(run, ended);
    } else {
      forall longer | Extends(run, longer) ensures !JoinEnded(Last(longer), t, Provisional) {
        if Last(run).enabled {
          LateLookFindsFinal(run, t, longer);
        } else {
          DisabledLookFindsNone(run, t, longer);
        }
      }
    }
  }

  /** The run with thread t's next statement appended. */
  function WithLook(run: seq<State>, t: nat): seq<State>
    requires run != [] && t < |Last(run).others|
  {
    run + [OtherStep(Last(run), t, YES)]
  }

  /** A join whose first look finds an error ends, in every continuation, with the persisted outcome. */
  lemma FirstLookAtAnErrorEndsFinal(run: seq<State>, t: nat, longer: seq<State>, err: RunErr)
    requires IsRun(run) && t < |Last(run).others| && Last(run).others[t].JRead? && !Last(run).d.runErr.NoErr?
    requires Extends(WithLook(run, t), longer) && JoinEnded(Last(longer), t, err)
    ensures err == Final && Last(longer).stop.SDone?
  {
    assert longer[|run|] == WithLook(run, t)[|run|];
    WaitsOn(longer, |run|, |longer| - 1, t);
    RunKeepsInvariant(longer, |longer| - 1);
    assert JoinOk(Last(longer));
  }

  /**
    A join about to take its first look is safe from the unpersisted error, however the run goes on,
    if and only if that look finds an error or no stop can come.
   */
  lemma JoinIsSafeExactlyWhen(run: seq<State>, t: nat)
    requires IsRun(run) && t < |Last(run).others| && Last(run).others[t].JRead?
    ensures (forall longer {:trigger Extends(WithLook(run, t), longer)} ::
               Extends(WithLook(run, t), longer) ==> !EndedUnpersisted(Last(longer), t))
            <==> !Last(run).d.runErr.NoErr? || !Last(run).enabled
  {
    var s := Last(run);
    RunKeepsInvariant(run, |run| - 1);
    assert OtherEnabled(s, t);
    OneMoreStep(run, run, OtherStep(s, t, YES));
    if s.d.runErr.NoErr? && s.enabled {
      var ended := CanEndUnpersisted(WithLook(run, t), WithLook(run, t), t);
      assert Extends(WithLook(run, t), ended);
    } else {
      forall longer | Extends(WithLook(run, t), longer) ensures !EndedUnpersisted(Last(longer), t) {
        if !s.enabled {
          DisabledLookFindsNone(WithLook(run, t), t, longer);
        } else if JoinEnded(Last(longer), t, Provisional) {
          FirstLookAtAnErrorEndsFinal(run, t, longer, Provisional);
        }
      }
    }
  }
}
