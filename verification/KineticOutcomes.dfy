/**
  What each thread of the kinetic stop achieved by the time it is done, over every run: when the state file
  is written, what a launch's and an encode's answer mean, and that encodes are counted right
  (internal/proxy/kinetic_stop.go).
 */
module KineticOutcomes {
  import opened KineticStop

  lemma RunSteps(run: seq<State>, k: nat)
    requires IsRun(run) && k + 1 < |run|
    ensures Inv(run[k]) && Inv(run[k + 1]) && Step(run[k], run[k + 1])
  {
    RunKeepsInvariant(run, k);
    RunKeepsInvariant(run, k + 1);
  }

  // ----- the state file -----

  /** Step j of the run is the stop's next statement. */
  ghost predicate StopMoves(run: seq<State>, j: nat, o: Outcome) {
    j + 1 < |run| && StopEnabled(run[j]) && run[j + 1] == StopStep(run[j], o)
  }

  /** The stop has stood at its state write. */
  ghost predicate StoodAtWrite(run: seq<State>, k: nat) {
    exists j :: 0 <= j <= k < |run| && run[j].stop.SWriteState?
  }

  /** A state write has landed. */
  ghost predicate WriteLanded(run: seq<State>, k: nat) {
    exists j: nat, o :: j < k && StopMoves(run, j, o) && run[j].stop.SWriteState? && o.landed
  }

  predicate PastCommit(pc: StopPC) {
    pc.SWriteState? || pc.SFinal? || pc.SPersisted? || pc.SDone?
  }

  ghost predicate WriteTrail(run: seq<State>, k: nat)
    requires k < |run|
  {
    var s := run[k];
    && (if PastCommit(s.stop) then StoodAtWrite(run, k) <==> s.revokedContained && s.d.recorded
        else !StoodAtWrite(run, k) && !s.d.recorded)
    && (StateWritten in s.events <==> WriteLanded(run, k))
  }

  lemma StandsLater(run: seq<State>, k: nat)
    requires k + 1 < |run|
    ensures StoodAtWrite(run, k + 1) <==> StoodAtWrite(run, k) || run[k + 1].stop.SWriteState?
  {
  }

  lemma LandsLater(run: seq<State>, k: nat)
    requires k + 1 < |run|
    ensures WriteLanded(run, k + 1)
       <==> WriteLanded(run, k) || exists o :: StopMoves(run, k, o) && run[k].stop.SWriteState? && o.landed
  {
  }

  /** A step that is not the stop's leaves the stop and what it persisted alone. */
  lemma OthersLeaveStop(s: State, s': State)
    requires Step(s, s') && !(exists o :: StopEnabled(s) && s' == StopStep(s, o))
    ensures s'.stop == s.stop && s'.d.recorded == s.d.recorded && s'.revokedContained == s.revokedContained
    ensures StateWritten in s'.events <==> StateWritten in s.events
  {
    if o :| LaunchEnabled(s) && s' == LaunchStep(s, o) {
    } else if i: nat, o :| i < |s.others| && OtherEnabled(s, i) && s' == OtherStep(s, i, o) {
    } else if i: nat :| i < |s.others| && s.others[i] == EWrite(true) && s' == Drained(s, i) {
    }
  }

  lemma StopStatement(s: State, o: Outcome)
    requires Inv(s) && StopEnabled(s)
    ensures var s' := StopStep(s, o);
      && s'.stop != s.stop && s'.revokedContained == s.revokedContained
      && (StateWritten in s'.events <==> StateWritten in s.events || (s.stop.SWriteState? && o.landed))
      && (PastCommit(s.stop) ==> PastCommit(s'.stop) && s'.d.recorded == s.d.recorded && !s'.stop.SWriteState?)
      && (!PastCommit(s.stop) && !s.stop.SCommit? ==> !PastCommit(s'.stop) && s'.d.recorded == s.d.recorded)
      && (s.stop.SCommit? ==>
            && PastCommit(s'.stop) && s'.d.recorded == (s.d.recorded || o.ok)
            && (s'.stop.SWriteState? <==> o.ok && s.revokedContained))
  {
  }

  lemma NoWriteWithoutStop(run: seq<State>, k: nat)
    requires k + 1 < |run| && run[k + 1].stop == run[k].stop
    ensures forall o :: !StopMoves(run, k, o)
  {
  }

  lemma WriteTrailStop(run: seq<State>, k: nat, o: Outcome)
    requires StopMoves(run, k, o) && Inv(run[k]) && WriteTrail(run, k)
    ensures WriteTrail(run, k + 1)
  {
    StandsLater(run, k);
    LandsLater(run, k);
    StopStatement(run[k], o);
    forall p | StopMoves(run, k, p) && run[k].stop.SWriteState? ensures p.landed == o.landed {
      assert |run[k + 1].events| == |run[k].events| + if p.landed then 1 else 0;
      assert |run[k + 1].events| == |run[k].events| + if o.landed then 1 else 0;
    }
  }

  lemma WriteTrailOther(run: seq<State>, k: nat)
    requires k + 1 < |run| && Step(run[k], run[k + 1]) && WriteTrail(run, k)
    requires !(exists o :: StopEnabled(run[k]) && run[k + 1] == StopStep(run[k], o))
    ensures WriteTrail(run, k + 1)
  {
    StandsLater(run, k);
    LandsLater(run, k);
    OthersLeaveStop(run[k], run[k + 1]);
    NoWriteWithoutStop(run, k);
  }

  lemma {:induction false} WriteTrailFrom(run: seq<State>, m: nat, k: nat)
    requires IsRun(run) && m <= k < |run| && WriteTrail(run, m)
    ensures WriteTrail(run, k)
    decreases k - m
  {
    if m < k {
      RunSteps(run, m);
      WriteTrailStep(run, m);
      WriteTrailFrom(run, m + 1, k);
    }
  }

  lemma WriteTrailStep(run: seq<State>, k: nat)
    requires k + 1 < |run| && Inv(run[k]) && Step(run[k], run[k + 1]) && WriteTrail(run, k)
    ensures WriteTrail(run, k + 1)
  {
    if o :| StopEnabled(run[k]) && run[k + 1] == StopStep(run[k], o) {
      WriteTrailStop(run, k, o);
    } else {
      WriteTrailOther(run, k);
    }
  }

  /**
    In every run, a state is only ever written for revoked_contained; a stop that has ended went to write it exactly
    if its resulting state was revoked_contained and its record was committed; and it is written exactly if that write landed.
   */
  lemma StateIsWrittenExactlyWhen(run: seq<State>, k: nat)
    requires IsRun(run) && k < |run|
    ensures StateWritten in run[k].events ==> run[k].revokedContained
    ensures run[k].stop.SDone? ==>
      ((exists j :: 0 <= j <= k && run[j].stop.SWriteState?) <==> run[k].revokedContained && StopRecorded in run[k].events)
    ensures StateWritten in run[k].events
       <==> exists j: nat, o :: j < k && StopMoves(run, j, o) && run[j].stop.SWriteState? && o.landed
  {
    WriteTrailFrom(run, 0, k);
    RunKeepsInvariant(run, k);
  }

  // ----- the launch -----

  ghost predicate LaunchMoves(run: seq<State>, j: nat, o: Outcome) {
    j + 1 < |run| && LaunchEnabled(run[j]) && run[j + 1] == LaunchStep(run[j], o)
  }

  /** Starting the process has failed. */
  ghost predicate StartFailed(run: seq<State>, k: nat) {
    exists j: nat, o :: j < k && LaunchMoves(run, j, o) && run[j].launch.LStart? && !o.ok
  }

  /** The launch has looked at the flag after registering the child, and found it down. */
  ghost predicate SecondLookClear(run: seq<State>, k: nat) {
    exists j: nat, o :: j < k && LaunchMoves(run, j, o) && run[j].launch.LRecheck? && !run[j].d.revoked
  }

  ghost predicate LaunchAnswer(run: seq<State>, k: nat, ok: bool)
    requires k < |run|
  {
    && (ok ==> run[k].enabled ==> SecondLookClear(run, k))
    && (!ok ==> (run[k].enabled && run[k].d.revoked) || StartFailed(run, k))
  }

  ghost predicate LaunchTrail(run: seq<State>, k: nat)
    requires k < |run|
  {
    match run[k].launch
    case LClosePipes => run[k].enabled && run[k].d.revoked
    case LKill => run[k].enabled && run[k].d.revoked
    case LUnlock(ok) => LaunchAnswer(run, k, ok)
    case LDone(ok) => LaunchAnswer(run, k, ok)
    case _ => true
  }

  lemma OthersLeaveLaunch(s: State, s': State)
    requires Step(s, s') && !(exists o :: LaunchEnabled(s) && s' == LaunchStep(s, o))
    ensures s'.launch == s.launch && s'.enabled == s.enabled && (s.d.revoked ==> s'.d.revoked)
  {
    if o :| StopEnabled(s) && s' == StopStep(s, o) {
    } else if i: nat, o :| i < |s.others| && OtherEnabled(s, i) && s' == OtherStep(s, i, o) {
    } else if i: nat :| i < |s.others| && s.others[i] == EWrite(true) && s' == Drained(s, i) {
    }
  }

  lemma AnswerLasts(run: seq<State>, k: nat, ok: bool)
    requires k + 1 < |run| && LaunchAnswer(run, k, ok)
    requires run[k + 1].enabled == run[k].enabled && (run[k].d.revoked ==> run[k + 1].d.revoked)
    ensures LaunchAnswer(run, k + 1, ok)
  {
  }

  lemma LaunchStatement(run: seq<State>, k: nat, o: Outcome)
    requires LaunchMoves(run, k, o) && LaunchTrail(run, k) && LaunchOk(run[k])
    ensures LaunchTrail(run, k + 1)
  {
    assert run[k].launch.LRecheck? ==> run[k].enabled;
    match run[k].launch
    case LUnlock(ok) => AnswerLasts(run, k, ok);
    case LDone(ok) => AnswerLasts(run, k, ok);
    case _ =>
  }

  lemma {:induction false} LaunchTrailFrom(run: seq<State>, m: nat, k: nat)
    requires IsRun(run) && m <= k < |run| && LaunchTrail(run, m)
    ensures LaunchTrail(run, k)
    decreases k - m
  {
    if m < k {
      RunSteps(run, m);
      LaunchTrailStep(run, m);
      LaunchTrailFrom(run, m + 1, k);
    }
  }

  lemma LaunchTrailStep(run: seq<State>, k: nat)
    requires k + 1 < |run| && LaunchOk(run[k]) && Step(run[k], run[k + 1]) && LaunchTrail(run, k)
    ensures LaunchTrail(run, k + 1)
  {
    if o :| LaunchEnabled(run[k]) && run[k + 1] == LaunchStep(run[k], o) {
      assert LaunchMoves(run, k, o);
      LaunchStatement(run, k, o);
    } else {
      OthersLeaveLaunch(run[k], run[k + 1]);
      if run[k].launch.LUnlock? || run[k].launch.LDone? {
        AnswerLasts(run, k, run[k].launch.ok);
      }
    }
  }

  /**
    A finished launch answers ok only for a started child, and under an enabled proxy only after a second look that
    found the flag down; otherwise no child of it runs, and either starting failed or the flag is up.
   */
  lemma LaunchOutcome(run: seq<State>, k: nat)
    requires IsRun(run) && k < |run| && run[k].launch.LDone?
    ensures run[k].launch.ok ==> Launched in run[k].events && (run[k].enabled ==> SecondLookClear(run, k))
    ensures !run[k].launch.ok ==>
      && run[k].d.child != Running && (Launched in run[k].events ==> run[k].d.revoked)
      && ((run[k].enabled && run[k].d.revoked) || StartFailed(run, k))
  {
    LaunchTrailFrom(run, 0, k);
    RunKeepsInvariant(run, k);
  }

  // ----- encodes -----

  ghost predicate OtherMoves(run: seq<State>, j: nat, t: nat, o: Outcome) {
    j + 1 < |run| && t < |run[j].others| && OtherEnabled(run[j], t) && run[j + 1] == OtherStep(run[j], t, o)
  }

  /** Thread t has written its message through open pipes to a child that drained it. */
  ghost predicate WroteMessage(run: seq<State>, k: nat, t: nat) {
    exists j: nat, o :: j < k && OtherMoves(run, j, t, o) && run[j].others[t] == EWrite(false) && o.ok
                        && run[j].d.pipes != Closed && run[j + 1].events == run[j].events + [Encoded]
  }

  /** Thread t's write has failed: the encoder reported it, or the pipes were closed on it or missing. */
  ghost predicate WriteFailed(run: seq<State>, k: nat, t: nat) {
    exists j: nat, o :: j < k && OtherMoves(run, j, t, o) && run[j].others[t].EWrite?
                        && (!o.ok || run[j].d.pipes == Closed || (run[j].others[t].stuck && run[j].d.pipes != Open))
  }

  ghost predicate EncodeAnswer(run: seq<State>, k: nat, t: nat, sent: bool)
    requires k < |run|
  {
    && (sent ==> WroteMessage(run, k, t))
    && (!sent ==> (run[k].enabled && run[k].d.revoked) || WriteFailed(run, k, t))
  }

  ghost predicate EncodeTrail(run: seq<State>, k: nat, t: nat) {
    k < |run| && t < |run[k].others| &&
    match run[k].others[t]
    case EUnlock(sent) => EncodeAnswer(run, k, t, sent)
    case EDone(sent) => EncodeAnswer(run, k, t, sent)
    case _ => true
  }

  lemma LaunchLeavesThread(s: State, o: Outcome)
    ensures LaunchStep(s, o).others == s.others && LaunchStep(s, o).enabled == s.enabled
    ensures s.d.revoked ==> LaunchStep(s, o).d.revoked
  {
  }

  lemma StopLeavesThread(s: State, o: Outcome)
    ensures StopStep(s, o).others == s.others && StopStep(s, o).enabled == s.enabled
    ensures s.d.revoked ==> StopStep(s, o).d.revoked
  {
  }

  lemma OthersLeaveThread(s: State, s': State, t: nat)
    requires Step(s, s') && t < |s.others| && !(exists o :: OtherEnabled(s, t) && s' == OtherStep(s, t, o))
    ensures |s'.others| == |s.others| && s'.enabled == s.enabled && (s.d.revoked ==> s'.d.revoked)
    ensures s'.others[t] == s.others[t] || s'.others[t].EWrite?
  {
    if o :| LaunchEnabled(s) && s' == LaunchStep(s, o) {
      LaunchLeavesThread(s, o);
    } else if o :| StopEnabled(s) && s' == StopStep(s, o) {
      StopLeavesThread(s, o);
    } else if i: nat, o :| i < |s.others| && OtherEnabled(s, i) && s' == OtherStep(s, i, o) {
      assert i != t;
    }
  }

  lemma EncodeLasts(run: seq<State>, k: nat, t: nat, sent: bool)
    requires k + 1 < |run| && EncodeAnswer(run, k, t, sent)
    requires run[k + 1].enabled == run[k].enabled && (run[k].d.revoked ==> run[k + 1].d.revoked)
    ensures EncodeAnswer(run, k + 1, t, sent)
  {
  }

  lemma WriteAnswers(run: seq<State>, k: nat, t: nat, o: Outcome)
    requires OtherMoves(run, k, t, o) && run[k].others[t].EWrite?
    ensures run[k + 1].others[t].EUnlock? && EncodeAnswer(run, k + 1, t, run[k + 1].others[t].sent)
  {
  }

  lemma OwnStatement(run: seq<State>, k: nat, t: nat, o: Outcome)
    requires OtherMoves(run, k, t, o) && EncodeTrail(run, k, t)
    ensures EncodeTrail(run, k + 1, t)
  {
    match run[k].others[t]
    case EWrite(_) => WriteAnswers(run, k, t, o);
    case EUnlock(sent) => EncodeLasts(run, k, t, sent);
    case _ =>
  }

  lemma EncodeTrailStep(run: seq<State>, k: nat, t: nat)
    requires k + 1 < |run| && Step(run[k], run[k + 1]) && EncodeTrail(run, k, t)
    ensures EncodeTrail(run, k + 1, t)
  {
    if o :| OtherEnabled(run[k], t) && run[k + 1] == OtherStep(run[k], t, o) {
      OwnStatement(run, k, t, o);
    } else {
      OthersLeaveThread(run[k], run[k + 1], t);
      if run[k].others[t].EUnlock? || run[k].others[t].EDone? {
        EncodeLasts(run, k, t, run[k].others[t].sent);
      }
    }
  }

  lemma EncodeTrailNext(run: seq<State>, k: nat, t: nat)
    requires IsRun(run) && k + 1 < |run| && EncodeTrail(run, k, t)
    ensures EncodeTrail(run, k + 1, t)
  {
    RunSteps(run, k);
    EncodeTrailStep(run, k, t);
  }

  lemma {:induction false} EncodeTrailFrom(run: seq<State>, m: nat, k: nat, t: nat)
    requires IsRun(run) && m <= k < |run| && EncodeTrail(run, m, t)
    ensures EncodeTrail(run, k, t)
    decreases k - m
  {
    if m < k {
      EncodeTrailNext(run, m, t);
      EncodeTrailFrom(run, m + 1, k, t);
    }
  }

  /**
    A finished encode answers sent exactly for a message written through pipes that were not closed to a child that
    drained it; one not sent was refused under a raised flag, or its write failed.
   */
  lemma EncodeOutcome(run: seq<State>, k: nat, t: nat)
    requires IsRun(run) && k < |run| && t < |run[0].others|
    ensures t < |run[k].others|
    ensures run[k].others[t] == EDone(true) ==> WroteMessage(run, k, t)
    ensures run[k].others[t] == EDone(false) ==> (run[k].enabled && run[k].d.revoked) || WriteFailed(run, k, t)
  {
    EncodeTrailFrom(run, 0, k, t);
  }

  // ----- every encode is recorded once -----

  function SentNow(pc: OtherPC): nat {
    if pc == EUnlock(true) || pc == EDone(true) then 1 else 0
  }

  function Sent(pcs: seq<OtherPC>): nat {
    if pcs == [] then 0 else SentNow(pcs[0]) + Sent(pcs[1..])
  }

  function Encodes(events: seq<Event>): nat {
    if events == [] then 0 else Encodes(events[..|events| - 1]) + if events[|events| - 1].Encoded? then 1 else 0
  }

  lemma {:induction false} SentUpdated(pcs: seq<OtherPC>, i: nat, pc: OtherPC)
    requires i < |pcs|
    ensures Sent(pcs[i := pc]) == Sent(pcs) - SentNow(pcs[i]) + SentNow(pc)
  {
    if i > 0 {
      assert pcs[i := pc][1..] == pcs[1..][i - 1 := pc];
      SentUpdated(pcs[1..], i - 1, pc);
    }
  }

  lemma {:induction false} EncodesAppended(events: seq<Event>, e: seq<Event>)
    requires |e| <= 1
    ensures Encodes(events + e) == Encodes(events) + if e == [Encoded] then 1 else 0
  {
    if e == [] {
      assert events + e == events;
    } else {
      assert (events + e)[..|events|] == events;
    }
  }

  lemma LaunchCounts(s: State, o: Outcome)
    ensures Encodes(LaunchStep(s, o).events) == Encodes(s.events) && LaunchStep(s, o).others == s.others
  {
    EncodesAppended(s.events, LaunchEvent(s.launch, o));
  }

  lemma StopCounts(s: State, o: Outcome)
    ensures Encodes(StopStep(s, o).events) == Encodes(s.events) && StopStep(s, o).others == s.others
  {
    EncodesAppended(s.events, StopEvent(s.stop, o));
  }

  /** A statement records an encode exactly if its thread has sent after it and not before. */
  lemma SentIsRecorded(enabled: bool, d: Data, pc: OtherPC, o: Outcome)
    ensures |OtherEvent(d, pc, o)| <= 1
    ensures SentNow(OtherAfter(enabled, d, pc, o)) == SentNow(pc) + if OtherEvent(d, pc, o) == [Encoded] then 1 else 0
  {
  }

  lemma OtherCounts(s: State, i: nat, o: Outcome)
    requires i < |s.others| && OtherEnabled(s, i) && Encodes(s.events) == Sent(s.others)
    ensures Encodes(OtherStep(s, i, o).events) == Sent(OtherStep(s, i, o).others)
  {
    EncodesAppended(s.events, OtherEvent(s.d, s.others[i], o));
    SentUpdated(s.others, i, OtherAfter(s.enabled, s.d, s.others[i], o));
    SentIsRecorded(s.enabled, s.d, s.others[i], o);
  }

  lemma StepCounts(s: State, s': State)
    requires Step(s, s') && Encodes(s.events) == Sent(s.others)
    ensures Encodes(s'.events) == Sent(s'.others)
  {
    if o :| LaunchEnabled(s) && s' == LaunchStep(s, o) {
      LaunchCounts(s, o);
    } else if o :| StopEnabled(s) && s' == StopStep(s, o) {
      StopCounts(s, o);
    } else if i: nat, o :| i < |s.others| && OtherEnabled(s, i) && s' == OtherStep(s, i, o) {
      OtherCounts(s, i, o);
    } else if i: nat :| i < |s.others| && s.others[i] == EWrite(true) && s' == Drained(s, i) {
      SentUpdated(s.others, i, EWrite(false));
    }
  }

  lemma {:induction false} NoneSentYet(pcs: seq<OtherPC>)
    requires forall i :: 0 <= i < |pcs| ==> pcs[i].ELock? || pcs[i].JRead?
    ensures Sent(pcs) == 0
  {
    if pcs != [] {
      NoneSentYet(pcs[1..]);
    }
  }

  /** In every state, the encodes recorded are as many as the threads that have sent. */
  lemma {:induction false} EncodesAreCounted(run: seq<State>, k: nat)
    requires IsRun(run) && k < |run|
    ensures Encodes(run[k].events) == Sent(run[k].others)
  {
    if k == 0 {
      NoneSentYet(run[0].others);
    } else {
      EncodesAreCounted(run, k - 1);
      RunSteps(run, k - 1);
      StepCounts(run[k - 1], run[k]);
    }
  }
}
