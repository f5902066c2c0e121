/**
  The episode state machine of an incident bundle (internal/incidentbundle/bundle.go).
 */
module Episode {
  import opened Wrappers

  datatype Kind =
    | RequestedAction | PolicyDecision | RuntimeAttempt | ExternalEffect
    | StateDelta | Propagation
    | UnknownKind(text: string)

  datatype Confirmation = Absent | Unconfirmed | Confirmed | Invalid(text: string)

  /** `content` stands for the principal, delegation, authority, redaction and evidence fields as they are encoded. */
  datatype Event = Event(
    seqNo: nat, prevHash: string, kind: Kind, timestamp: int, confirmation: Confirmation, supersedes: Option<nat>,
    payload: Option<string>, payloadHash: string, content: string, hash: string)

  const REQUIRED := [RequestedAction, PolicyDecision, RuntimeAttempt, ExternalEffect]

  predicate IsStage(k: Kind) {
    k.RequestedAction? || k.PolicyDecision? || k.RuntimeAttempt? || k.ExternalEffect?
  }

  // ----- what an acceptable episode is -----

  /** The positions of the events that are not auxiliary, in order. */
  function Stages(events: seq<Event>, n: nat): seq<nat>
    requires n <= |events|
  {
    if n == 0 then []
    else Stages(events, n - 1) + (if IsStage(events[n - 1].kind) then [n - 1] else [])
  }

  predicate Admissible(e: Event) {
    && !e.kind.UnknownKind?
    && !e.confirmation.Invalid?
    && (e.kind.ExternalEffect? ==> !e.confirmation.Absent?)
  }

  /** Event i confirms the unconfirmed effect at position t. */
  predicate Upgrades(events: seq<Event>, i: nat, t: nat)
    requires i < |events| && t < |events|
  {
    && events[i].kind.ExternalEffect? && events[i].confirmation.Confirmed? && events[i].supersedes == Some(t)
    && events[t].kind.ExternalEffect? && events[t].confirmation.Unconfirmed? && events[t].seqNo == t
  }

  /**
    Ignoring auxiliary events: the four stages in order, then at most one confirmed effect that
    supersedes the first, unconfirmed one. Nothing else supersedes anything.
   */
  ghost predicate GoodEpisode(events: seq<Event>) {
    && (forall i :: 0 <= i < |events| ==> Admissible(events[i]))
    && var s := Stages(events, |events|);
       && StagesFit(events, s, 4)
       && (forall i :: 0 <= i < |events| && (|s| == 5 ==> i != s[4]) ==> events[i].supersedes.None?)
  }

  /** The first `need` stages found are the required ones, and a fifth upgrades the fourth. */
  ghost predicate StagesFit(events: seq<Event>, s: seq<nat>, need: nat)
    requires need <= 4
  {
    && (|s| == need || (need == 4 && |s| == 5))
    && (forall j :: 0 <= j < need ==> s[j] < |events| && events[s[j]].kind == REQUIRED[j])
    && (|s| == 5 ==> s[4] < |events| && Upgrades(events, s[4], s[3]))
  }

  // ----- lemmas about stages -----

  lemma {:induction false} StagesAre(events: seq<Event>, n: nat)
    requires n <= |events|
    ensures var s := Stages(events, n);
      && (forall j :: 0 <= j < |s| ==> s[j] < n && IsStage(events[s[j]].kind))
      && (forall j, k :: 0 <= j < k < |s| ==> s[j] < s[k])
      && (forall i :: 0 <= i < n && IsStage(events[i].kind) ==> i in s)
  {
    if n > 0 {
      StagesAre(events, n - 1);
    }
  }

  lemma {:induction false} StagesGrow(events: seq<Event>, i: nat, n: nat)
    requires i <= n <= |events|
    ensures Stages(events, i) <= Stages(events, n)
  {
    if i < n {
      StagesGrow(events, i, n - 1);
    }
  }

  /** No accepted episode has more than two external effects. */
  lemma AtMostTwoEffects(events: seq<Event>, i: nat, j: nat, k: nat)
    requires GoodEpisode(events) && i < j < k < |events|
    ensures !(events[i].kind.ExternalEffect? && events[j].kind.ExternalEffect? && events[k].kind.ExternalEffect?)
  {
    StagesAre(events, |events|);
    var s := Stages(events, |events|);
    if events[i].kind.ExternalEffect? && events[j].kind.ExternalEffect? && events[k].kind.ExternalEffect? {
      assert IsStage(events[i].kind) && IsStage(events[j].kind) && IsStage(events[k].kind);
      EffectIsLate(events, s, i);
      EffectIsLate(events, s, j);
      EffectIsLate(events, s, k);
    }
  }

  lemma EffectIsLate(events: seq<Event>, s: seq<nat>, i: nat)
    requires StagesFit(events, s, 4) && i < |events| && events[i].kind.ExternalEffect? && i in s
    ensures i == s[3] || (|s| == 5 && i == s[4])
  {
    var j :| 0 <= j < |s| && s[j] == i;
    assert forall q :: 0 <= q < 3 ==> !events[s[q]].kind.ExternalEffect?;
  }

  // ----- the checker -----

  function StageRank(k: Kind): int {
    match k
    case RequestedAction => 0
    case PolicyDecision => 1
    case RuntimeAttempt => 2
    case ExternalEffect => 3
    case _ => -1
  }

  predicate ValidUpgradeTarget(events: seq<Event>, i: nat, consumed: set<nat>)
    requires i < |events|
  {
    && events[i].supersedes.Some?
    && var t := events[i].supersedes.value;
       t < i && t !in consumed && events[t].seqNo == t
       && events[t].kind.ExternalEffect? && events[t].confirmation.Unconfirmed?
  }

  /** What checkEpisode knows after i events: how far the stages got and which effects were upgraded. */
  ghost predicate Progress(events: seq<Event>, i: nat, need: nat, consumed: set<nat>)
    requires i <= |events| && need <= 4
  {
    && (forall k :: 0 <= k < i ==> Admissible(events[k]))
    && var s := Stages(events, i);
       && StagesFit(events, s, need)
       && consumed == (if |s| == 5 then {s[3]} else {})
       && (forall k :: 0 <= k < i && (|s| == 5 ==> k != s[4]) ==> events[k].supersedes.None?)
  }

  /** Only a complete, not yet upgraded episode has a valid target left, and it is the first effect. */
  lemma {:induction false} TargetIsFirstEffect(events: seq<Event>, i: nat, need: nat, consumed: set<nat>)
    requires i < |events| && need <= 4 && Progress(events, i, need, consumed)
    requires ValidUpgradeTarget(events, i, consumed)
    ensures |Stages(events, i)| == need == 4 && events[i].supersedes == Some(Stages(events, i)[3])
  {
    var s, t := Stages(events, i), events[i].supersedes.value;
    StagesAre(events, i);
    assert IsStage(events[t].kind);
    var j :| 0 <= j < |s| && s[j] == t;
    assert forall q :: 0 <= q < 3 && q < need ==> !events[s[q]].kind.ExternalEffect?;
  }

  /** A stage out of place that upgrades nothing spoils the episode. */
  lemma MisplacedSpoils(events: seq<Event>, i: nat, need: nat, consumed: set<nat>)
    requires i < |events| && need <= 4 && Progress(events, i, need, consumed)
    requires IsStage(events[i].kind) && StageRank(events[i].kind) != need
    requires !(need == 4 && events[i].kind.ExternalEffect? && events[i].confirmation.Confirmed?
               && ValidUpgradeTarget(events, i, consumed))
    ensures !GoodEpisode(events)
  {
    var s, all := Stages(events, i), Stages(events, |events|);
    assert Stages(events, i + 1) == s + [i];
    StagesGrow(events, i + 1, |events|);
    assert all[|s|] == i && all[..|s|] == s;
    StagesAre(events, i);
    if |s| < 4 {
      assert events[all[|s|]].kind != REQUIRED[|s|];
    } else if |s| == 4 {
      assert all[3] == s[3];
    }
  }

  /** An upgrade edge on anything but a fifth stage spoils the episode. */
  lemma StraySupersedesSpoils(events: seq<Event>, i: nat, need: nat, consumed: set<nat>)
    requires i < |events| && need < 4 && Progress(events, i, need, consumed)
    requires events[i].supersedes.Some?
    requires IsStage(events[i].kind)
    ensures !GoodEpisode(events)
  {
    var s, all := Stages(events, i), Stages(events, |events|);
    assert Stages(events, i + 1) == s + [i];
    StagesGrow(events, i + 1, |events|);
    StagesAre(events, |events|);
    assert all[|s|] == i;
  }

  lemma AuxiliarySupersedesSpoils(events: seq<Event>, i: nat)
    requires i < |events| && events[i].supersedes.Some? && !IsStage(events[i].kind)
    ensures !GoodEpisode(events)
  {
    StagesAre(events, |events|);
  }

  lemma IncompleteSpoils(events: seq<Event>, need: nat, consumed: set<nat>)
    requires need < 4 && Progress(events, |events|, need, consumed)
    ensures !GoodEpisode(events)
  {
  }

  /** checkEpisode accepts exactly the acceptable episodes. */
  method CheckEpisode(events: seq<Event>) returns (ok: bool)
    ensures ok <==> GoodEpisode(events)
  {
    var need: nat := 0;
    var consumed: set<nat> := {};
    for i := 0 to |events|
      invariant need <= 4 && Progress(events, i, need, consumed)
    {
      var ev := events[i];
      if ev.kind.UnknownKind? {
        return false;
      }
      var rank := StageRank(ev.kind);
      if rank < 0 {
        if ev.supersedes.Some? {
          AuxiliarySupersedesSpoils(events, i);
          return false;
        }
        if ev.confirmation.Invalid? {
          return false;
        }
        continue;
      }
      if ev.kind.ExternalEffect? {
        if !ev.confirmation.Confirmed? && !ev.confirmation.Unconfirmed? {
          return false;
        }
      } else if ev.confirmation.Invalid? {
        return false;
      }
      assert Stages(events, i + 1) == Stages(events, i) + [i];
      if rank != need {
        if need == 4 && ev.kind.ExternalEffect? && ev.confirmation.Confirmed? && ValidUpgradeTarget(events, i, consumed) {
          TargetIsFirstEffect(events, i, need, consumed);
          consumed := consumed + {ev.supersedes.value};
          continue;
        }
        MisplacedSpoils(events, i, need, consumed);
        return false;
      }
      if ev.supersedes.Some? {
        StraySupersedesSpoils(events, i, need, consumed);
        return false;
      }
      need := need + 1;
    }
    if need < 4 {
      IncompleteSpoils(events, need, consumed);
      return false;
    }
    return true;
  }
}
