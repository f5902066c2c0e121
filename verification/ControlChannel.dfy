/**
  The kinetic stop's control directory: signed commands, the durable revocation state, and the
  check a proxy makes before it starts (internal/killswitch/control.go).

  HMAC verification is the parameter `verified`; files are their decoded content.
 */
module ControlChannel {
  import opened Wrappers
  import opened Framing

  datatype Command = Command(
    commandId: string, sessionId: string, revokeThroughEpoch: nat, controllerId: string, reason: string, signature: string)

  datatype RevokedState = RevokedState(
    sessionId: string, revokedThroughEpoch: nat, commandId: string, controllerId: string, reason: string,
    observedAt: string, resultingState: string, requestSha: string, signature: string)

  // ----- what is signed -----

  const COMMAND_CONTEXT := "mcp-visor-kinetic-command-v1"
  const STATE_CONTEXT := "mcp-visor-kinetic-state-v1"

  /** macFields: context and fields, each behind its length in eight big-endian bytes. */
  function MacFields(context: string, fields: seq<string>): string {
    FrameAll(BigEndian64, [context] + fields)
  }

  /** The loop that writes lengths and bytes into one buffer builds exactly the framed fields. */
  method BuildMac(context: string, fields: seq<string>) returns (b: string)
    ensures b == MacFields(context, fields)
  {
    var all := [context] + fields;
    b := "";
    for i := 0 to |all|
      invariant b == FrameAll(BigEndian64, all[..i])
    {
      assert all[..i + 1] == all[..i] + [all[i]];
      FrameAllSnoc(BigEndian64, all[..i], all[i]);
      assert Frame(BigEndian64, all[i]) == BigEndian64(|all[i]|) + all[i];
      b := b + (BigEndian64(|all[i]|) + all[i]);
    }
    assert all[..|all|] == all;
  }

  function CommandPayload(c: Command): string {
    MacFields(COMMAND_CONTEXT, CommandFields(c))
  }

  /** The schema version is always 1 in a command that validates. */
  function CommandFields(c: Command): seq<string> {
    [Decimal(1), c.commandId, c.sessionId, Decimal(c.revokeThroughEpoch), c.controllerId, c.reason]
  }

  function StatePayload(s: RevokedState): string {
    MacFields(STATE_CONTEXT, StateFields(s))
  }

  function StateFields(s: RevokedState): seq<string> {
    [Decimal(1), s.sessionId, Decimal(s.revokedThroughEpoch), s.commandId, s.controllerId, s.reason,
     s.observedAt, s.resultingState, s.requestSha]
  }

  /** Lengths a uint64 can hold, as every Go string's is. */
  ghost predicate Representable(fields: seq<string>) {
    AllFit(FitsUint64, fields)
  }

  lemma MacFieldsInjective(ctxA: string, a: seq<string>, ctxB: string, b: seq<string>)
    requires Representable([ctxA] + a) && Representable([ctxB] + b)
    requires MacFields(ctxA, a) == MacFields(ctxB, b)
    ensures ctxA == ctxB && a == b
  {
    BigEndianPrefixFree();
    FrameAllInjective(BigEndian64, FitsUint64, [ctxA] + a, [ctxB] + b);
    assert ([ctxA] + a)[0] == ctxA && ([ctxB] + b)[0] == ctxB;
    assert ([ctxA] + a)[1..] == a && ([ctxB] + b)[1..] == b;
  }

  /** A command's signature covers every one of its fields. */
  lemma CommandPayloadBindsFields(a: Command, b: Command)
    requires Representable([COMMAND_CONTEXT] + CommandFields(a)) && Representable([COMMAND_CONTEXT] + CommandFields(b))
    requires CommandPayload(a) == CommandPayload(b)
    ensures a.(signature := "") == b.(signature := "")
  {
    MacFieldsInjective(COMMAND_CONTEXT, CommandFields(a), COMMAND_CONTEXT, CommandFields(b));
    var fa, fb := CommandFields(a), CommandFields(b);
    assert fa[1] == fb[1] && fa[2] == fb[2] && fa[3] == fb[3] && fa[4] == fb[4] && fa[5] == fb[5];
    DecimalInjective(a.revokeThroughEpoch, b.revokeThroughEpoch);
  }

  lemma StatePayloadBindsFields(a: RevokedState, b: RevokedState)
    requires Representable([STATE_CONTEXT] + StateFields(a)) && Representable([STATE_CONTEXT] + StateFields(b))
    requires StatePayload(a) == StatePayload(b)
    ensures a.(signature := "") == b.(signature := "")
  {
    MacFieldsInjective(STATE_CONTEXT, StateFields(a), STATE_CONTEXT, StateFields(b));
    var fa, fb := StateFields(a), StateFields(b);
    assert fa[1] == fb[1] && fa[2] == fb[2] && fa[3] == fb[3] && fa[4] == fb[4] && fa[5] == fb[5]
        && fa[6] == fb[6] && fa[7] == fb[7] && fa[8] == fb[8];
    DecimalInjective(a.revokedThroughEpoch, b.revokedThroughEpoch);
  }

  /** No command is signed over the bytes of any state. */
  lemma CommandAndStatePayloadsDiffer(c: Command, s: RevokedState)
    requires Representable([COMMAND_CONTEXT] + CommandFields(c)) && Representable([STATE_CONTEXT] + StateFields(s))
    ensures CommandPayload(c) != StatePayload(s)
  {
    if CommandPayload(c) == StatePayload(s) {
      MacFieldsInjective(COMMAND_CONTEXT, CommandFields(c), STATE_CONTEXT, StateFields(s));
    }
  }

  // ----- the control directory, for one session -----

  /** What reading a control file yields: nothing, something that does not decode or verify, or a value. */
  datatype File<T> = Absent | Unreadable | Readable(value: T)

  datatype ControlDir = ControlDir(session: string, command: File<Command>, state: File<RevokedState>)

  /** Whether an existing command forbids replacing it. */
  predicate Weaker(dir: ControlDir, cmd: Command) {
    dir.command.Readable? && dir.command.value.sessionId == cmd.sessionId
    && dir.command.value.revokeThroughEpoch > cmd.revokeThroughEpoch
  }

  /** WriteCommand under the publish lock; `landed` says whether the rename happened. */
  function WriteCommand(dir: ControlDir, cmd: Command, landed: bool): ControlDir {
    if Weaker(dir, cmd) || !landed then dir else dir.(command := Readable(cmd))
  }

  /** The state WriteState signs: never through a lower epoch than the one on disk. */
  function NextState(dir: ControlDir, stop: RevokedState): RevokedState {
    if dir.state.Readable? && dir.state.value.revokedThroughEpoch > stop.revokedThroughEpoch
    then stop.(revokedThroughEpoch := dir.state.value.revokedThroughEpoch)
    else stop
  }

  /** WriteState; `signs` says whether what it signs will verify when read back. */
  function WriteState(dir: ControlDir, stop: RevokedState, landed: bool, signs: bool): ControlDir {
    if dir.state.Unreadable? || !landed then dir
    else dir.(state := if signs then Readable(NextState(dir, stop)) else Unreadable)
  }

  datatype StartError = BadState | PreviouslyRevoked | ControlInvalid | ControlUnavailable

  /** NewMonitor then StartupCheck; `verified` is VerifyCommand under the configured controllers. */
  function Startup(dir: ControlDir, available: bool, epoch: nat, verified: Command -> bool): Option<StartError> {
    if dir.state.Unreadable? then Some(BadState)
    else if dir.state.Readable? && dir.state.value.sessionId == dir.session
            && dir.state.value.revokedThroughEpoch >= epoch then Some(PreviouslyRevoked)
    else if !available then Some(ControlUnavailable)
    else match dir.command
      case Absent => None
      case Unreadable => Some(ControlInvalid)
      case Readable(cmd) =>
        if cmd.sessionId != dir.session || !verified(cmd) then Some(ControlInvalid)
        else if cmd.revokeThroughEpoch < epoch then None
        else Some(PreviouslyRevoked)
  }

  /** The same directory as files changed in place, with the monitor's and the operator's operations on it. */
  class ControlFiles {
    const session: string
    var command: File<Command>
    var state: File<RevokedState>

    function View(): ControlDir
      reads this
    {
      ControlDir(session, command, state)
    }

    constructor (session: string)
      ensures View() == ControlDir(session, Absent, Absent)
    {
      this.session, command, state := session, Absent, Absent;
    }

    /** `landed` is the rename, `synced` the directory sync after it: a failed sync is reported, but the file is there. */
    method PublishCommand(cmd: Command, landed: bool, synced: bool) returns (ok: bool)
      modifies this`command
      ensures View() == WriteCommand(old(View()), cmd, landed)
      ensures ok <==> !Weaker(old(View()), cmd) && landed && synced
    {
      match command {
        case Readable(prev) =>
          if prev.sessionId == cmd.sessionId && prev.revokeThroughEpoch > cmd.revokeThroughEpoch {
            return false;
          }
        case _ =>
      }
      if !landed {
        return false;
      }
      command := Readable(cmd);
      return synced;
    }

    method PersistState(stop: RevokedState, landed: bool, synced: bool, signs: bool) returns (ok: bool)
      modifies this`state
      ensures View() == WriteState(old(View()), stop, landed, signs)
      ensures ok <==> !old(state).Unreadable? && landed && synced
    {
      if state.Unreadable? {
        return false;
      }
      var epoch := stop.revokedThroughEpoch;
      if state.Readable? && state.value.revokedThroughEpoch > epoch {
        epoch := state.value.revokedThroughEpoch;
      }
      if !landed {
        return false;
      }
      var st := stop.(revokedThroughEpoch := epoch);
      state := if signs then Readable(st) else Unreadable;
      return synced;
    }
  }

  /** What may happen to the directory between starts: commands, states, and any damage to the command file. */
  datatype Op =
    | Publish(cmd: Command, landed: bool)
    | Persist(stop: RevokedState, landed: bool, signs: bool)
    | Damage(file: File<Command>)

  function Apply(dir: ControlDir, op: Op): ControlDir {
    match op
    case Publish(cmd, landed) => WriteCommand(dir, cmd, landed)
    case Persist(stop, landed, signs) => WriteState(dir, stop, landed, signs)
    case Damage(file) => dir.(command := file)
  }

  function ApplyAll(dir: ControlDir, ops: seq<Op>): ControlDir
    decreases |ops|
  {
    if ops == [] then dir else ApplyAll(Apply(dir, ops[0]), ops[1..])
  }

  /** The directory remembers a revocation through at least `e`, or can no longer be read at all. */
  predicate Remembers(dir: ControlDir, e: nat) {
    dir.state.Unreadable?
    || (dir.state.Readable? && dir.state.value.sessionId == dir.session && dir.state.value.revokedThroughEpoch >= e)
  }

  /** Monitors of a session only ever write states of that session. */
  predicate OwnSession(session: string, op: Op) {
    op.Persist? ==> op.stop.sessionId == session
  }

  /**
    Once a revocation through epoch e is on disk, no later commands, states or damage to the
    command file let a session of epoch e or below start again.
   */
  lemma {:induction false} RevocationIsPermanent(
      dir: ControlDir, ops: seq<Op>, e: nat, epoch: nat, available: bool, verified: Command -> bool)
    requires Remembers(dir, e) && epoch <= e
    requires forall op :: op in ops ==> OwnSession(dir.session, op)
    ensures Startup(ApplyAll(dir, ops), available, epoch, verified).Some?
    decreases |ops|
  {
    if ops != [] {
      assert OwnSession(dir.session, ops[0]);
      RevocationIsPermanent(Apply(dir, ops[0]), ops[1..], e, epoch, available, verified);
    }
  }

  /** Published commands for the session never weaken while nobody damages the file. */
  lemma {:induction false} CommandsNeverWeaken(dir: ControlDir, ops: seq<Op>)
    requires dir.command.Readable?
    requires forall op :: op in ops ==> !op.Damage? && (op.Publish? ==> op.cmd.sessionId == dir.command.value.sessionId)
    ensures var after := ApplyAll(dir, ops).command;
      && after.Readable? && after.value.sessionId == dir.command.value.sessionId
      && after.value.revokeThroughEpoch >= dir.command.value.revokeThroughEpoch
    decreases |ops|
  {
    if ops != [] {
      var next := Apply(dir, ops[0]);
      assert ops[0] in ops;
      assert next.command.Readable? && next.command.value.sessionId == dir.command.value.sessionId;
      CommandsNeverWeaken(next, ops[1..]);
    }
  }

  /** A written state is the higher of the two epochs, so a higher session epoch starts when no command covers it. */
  lemma StartsExactlyAboveRevocation(dir: ControlDir, stop: RevokedState, epoch: nat, verified: Command -> bool)
    requires dir.state.Readable? ==> dir.state.value.sessionId == dir.session
    requires stop.sessionId == dir.session && !dir.state.Unreadable?
    ensures var after := WriteState(dir, stop, true, true);
      Startup(after, true, epoch, verified).None?
      <==> && stop.revokedThroughEpoch < epoch
           && (dir.state.Readable? ==> dir.state.value.revokedThroughEpoch < epoch)
           && (dir.command.Absent?
               || (dir.command.Readable? && dir.command.value.sessionId == dir.session && verified(dir.command.value)
                   && dir.command.value.revokeThroughEpoch < epoch))
  {
  }
}
