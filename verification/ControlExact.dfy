/**
  What publishing a command and persisting a state leave, and exactly when a session may start
  (internal/killswitch/control.go).
 */
module ControlExact {
  import opened Wrappers
  import opened ControlChannel

  /** A command of the session that revokes more is on file. */
  predicate Outdone(dir: ControlDir, cmd: Command) {
    match dir.command
    case Readable(prev) => prev.sessionId == cmd.sessionId && prev.revokeThroughEpoch > cmd.revokeThroughEpoch
    case _ => false
  }

  /** A command is on file exactly if it was before, or was just put there and nothing there outdoes it. */
  lemma PublishLeaves(dir: ControlDir, cmd: Command, landed: bool)
    ensures var after := WriteCommand(dir, cmd, landed);
      && after.session == dir.session && after.state == dir.state
      && after.command == (if landed && !Outdone(dir, cmd) then Readable(cmd) else dir.command)
  {
  }

  /** The persisted state is the stop's own, through the higher of its epoch and the one on file. */
  lemma PersistLeaves(dir: ControlDir, stop: RevokedState, signs: bool)
    requires !dir.state.Unreadable?
    ensures var after := WriteState(dir, stop, true, signs);
      && after.session == dir.session && after.command == dir.command
      && (!signs ==> after.state.Unreadable?)
      && (signs ==>
            && after.state.Readable? && after.state.value.(revokedThroughEpoch := stop.revokedThroughEpoch) == stop
            && after.state.value.revokedThroughEpoch >= stop.revokedThroughEpoch
            && (dir.state.Readable? ==> after.state.value.revokedThroughEpoch >= dir.state.value.revokedThroughEpoch)
            && (after.state.value.revokedThroughEpoch == stop.revokedThroughEpoch
                || (dir.state.Readable? && after.state.value.revokedThroughEpoch == dir.state.value.revokedThroughEpoch)))
  {
    var after := WriteState(dir, stop, true, signs);
    assert stop.(revokedThroughEpoch := stop.revokedThroughEpoch) == stop;
  }

  /** Nothing is written over a state that cannot be read, nor by a rename that fails. */
  lemma PersistRefuses(dir: ControlDir, stop: RevokedState, landed: bool, signs: bool)
    requires dir.state.Unreadable? || !landed
    ensures WriteState(dir, stop, landed, signs) == dir
  {
  }

  /** The session's own state revokes this epoch. */
  predicate StateRevokes(dir: ControlDir, epoch: nat) {
    dir.state.Readable? && dir.state.value.sessionId == dir.session && epoch <= dir.state.value.revokedThroughEpoch
  }

  /** The command on file is the session's and a controller's. */
  predicate GenuineCommand(dir: ControlDir, verified: Command -> bool) {
    dir.command.Readable? && dir.command.value.sessionId == dir.session && verified(dir.command.value)
  }

  /**
    For every directory a session starts exactly if its state is readable or absent and does not revoke its epoch, the channel
    is there, and there is no command or a genuine one for lower epochs; and each refusal has its own condition.
   */
  lemma StartsExactlyWhen(dir: ControlDir, available: bool, epoch: nat, verified: Command -> bool)
    ensures var r := Startup(dir, available, epoch, verified);
      var genuine := GenuineCommand(dir, verified);
      && (r.None? <==>
            && !dir.state.Unreadable? && !StateRevokes(dir, epoch) && available
            && (dir.command.Absent? || (genuine && dir.command.value.revokeThroughEpoch < epoch)))
      && (r == Some(BadState) <==> dir.state.Unreadable?)
      && (r == Some(PreviouslyRevoked) <==>
            && !dir.state.Unreadable?
            && (StateRevokes(dir, epoch) || (available && genuine && epoch <= dir.command.value.revokeThroughEpoch)))
      && (r == Some(ControlUnavailable) <==> !dir.state.Unreadable? && !StateRevokes(dir, epoch) && !available)
      && (r == Some(ControlInvalid) <==>
            && !dir.state.Unreadable? && !StateRevokes(dir, epoch) && available && !dir.command.Absent? && !genuine)
  {
  }

  /** A published command stops every epoch up to its own from starting, and no other session or later epoch. */
  lemma PublishedCommandStopsExactly(dir: ControlDir, cmd: Command, epoch: nat, verified: Command -> bool)
    requires !Outdone(dir, cmd) && cmd.sessionId == dir.session && verified(cmd)
    requires !dir.state.Unreadable? && !StateRevokes(dir, epoch)
    ensures Startup(WriteCommand(dir, cmd, true), true, epoch, verified).Some? <==> epoch <= cmd.revokeThroughEpoch
  {
    PublishLeaves(dir, cmd, true);
    StartsExactlyWhen(WriteCommand(dir, cmd, true), true, epoch, verified);
  }
}
