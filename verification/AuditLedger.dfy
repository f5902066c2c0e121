/**
  The hash-chained audit log: appending, committing, failing, crashing and reopening
  (internal/audit/logger.go).

  JSON encoding and SHA-256 come in through a Codec; Sound states what is assumed of them.
  One process at a time has the file open.
 */
module AuditLedger {
  import opened Wrappers
  import AuditTail
  import Spaces

  datatype Event = Event(
    eventType: string, decision: string, resultingState: string, body: string,
    prevHash: string, chainIndex: nat, hash: string)

  datatype Codec = Codec(marshal: Event -> string, unmarshal: string -> Option<Event>, sha: string -> string)

  /** Encoded events are one line, begin and end like a JSON object, and decode to themselves. */
  ghost predicate Sound(c: Codec) {
    && (forall e :: c.unmarshal(c.marshal(e)) == Some(e))
    && (forall e :: c.marshal(e) != "" && '\n' !in c.marshal(e))
    && (forall e :: !Spaces.IsSpace(c.marshal(e)[0]) && !Spaces.IsSpace(c.marshal(e)[|c.marshal(e)| - 1]))
    && (forall s :: c.sha(s) != "")
  }

  /** What the file system does with one append: whether JSON encoded, bytes landed, errors reported, sync held. */
  datatype Io = Io(marshals: bool, wrote: nat, writeError: bool, syncs: bool)

  datatype Error = SinkUnhealthy | NotCommittable | MarshalFailed | WriteFailed | ShortWrite | SyncFailed

  // ----- the file and one open logger, as values -----

  /** `synced` is how much of the content a crash cannot take away. */
  datatype Disk = Disk(content: string, synced: nat)

  /** `durable` is false for the stderr fallback, whose writes do not reach the file. */
  datatype Mem = Mem(prevHash: string, chainIndex: nat, durable: bool, poisoned: bool)

  function RecordHash(c: Codec, e: Event): string {
    c.sha(c.marshal(e.(hash := "")))
  }

  function Prepare(c: Codec, m: Mem, e: Event): Event {
    var linked := e.(prevHash := m.prevHash, chainIndex := m.chainIndex);
    linked.(hash := RecordHash(c, linked))
  }

  function Line(c: Codec, e: Event): string {
    c.marshal(e) + "\n"
  }

  function Landed(line: string, io: Io): string {
    line[..if io.wrote < |line| then io.wrote else |line|]
  }

  /** One append, with a sync when it is a commit: the disk, the logger and the error left behind. */
  function Append(c: Codec, d: Disk, m: Mem, e: Event, io: Io, commit: bool): (Disk, Mem, Option<Error>) {
    var prepared := Prepare(c, m, e);
    var line := Line(c, prepared);
    var failed := m.(poisoned := true);
    var d' := if m.durable then d.(content := d.content + Landed(line, io)) else d;
    if !io.marshals then (d, failed, Some(MarshalFailed))
    else if io.writeError then (d', failed, Some(WriteFailed))
    else if Landed(line, io) != line then (d', failed, Some(ShortWrite))
    else if commit && !io.syncs then (d', failed, Some(SyncFailed))
    else
      (if commit then d'.(synced := |d'.content|) else d',
       m.(prevHash := prepared.hash, chainIndex := m.chainIndex + 1), None)
  }

  function Log(c: Codec, d: Disk, m: Mem, e: Event, io: Io): (Disk, Mem, Option<Error>) {
    if m.poisoned then (d, m, Some(SinkUnhealthy)) else Append(c, d, m, e, io, false)
  }

  predicate IsAllow(e: Event) {
    e.eventType == "tool_call_allowed" && e.decision == "allow"
  }

  predicate IsStop(e: Event) {
    e.eventType == "kinetic_stop_enforced" && e.decision == "revoked" && e.resultingState != ""
  }

  function Commit(c: Codec, d: Disk, m: Mem, e: Event, io: Io, acceptable: bool): (Disk, Mem, Option<Error>) {
    if m.poisoned then (d, m, Some(SinkUnhealthy))
    else if !m.durable then (d, m.(poisoned := true), Some(SinkUnhealthy))
    else if !acceptable then (d, m, Some(NotCommittable))
    else Append(c, d, m, e, io, true)
  }

  datatype RecoverError = IncompleteTail | CorruptRecord

  /** recoverChainState on the file's last complete line. */
  function Recover(c: Codec, content: string): Result<(string, nat), RecoverError> {
    match AuditTail.TailOf(content)
    case Err(_) => Err(IncompleteTail)
    case Ok(line) =>
      if line == "" then Ok(("", 0))
      else match c.unmarshal(line)
        case None => Err(CorruptRecord)
        case Some(e) =>
          if e.hash == "" then
            if e.prevHash != "" || e.chainIndex > 0 then Err(CorruptRecord) else Ok(("", 0))
          else if RecordHash(c, e) != e.hash then Err(CorruptRecord)
          else Ok((e.hash, e.chainIndex + 1))
  }

  // ----- the same operations on a file and a logger object -----

  class LogFile {
    var content: string
    var synced: nat

    constructor ()
      ensures content == "" && synced == 0
    {
      content, synced := "", 0;
    }

    function View(): Disk
      reads this
    {
      Disk(content, synced)
    }
  }

  class Logger {
    const c: Codec
    const file: LogFile
    var prevHash: string
    var chainIndex: nat
    const durable: bool
    var poisoned: bool

    function View(): Mem
      reads this
    {
      Mem(prevHash, chainIndex, durable, poisoned)
    }

    constructor (c: Codec, file: LogFile, prevHash: string, chainIndex: nat, durable: bool)
      ensures this.c == c && this.file == file && View() == Mem(prevHash, chainIndex, durable, false)
    {
      this.c, this.file, this.prevHash, this.chainIndex := c, file, prevHash, chainIndex;
      this.durable, this.poisoned := durable, false;
    }

    /** appendFull: one write that must land whole. */
    method AppendFull(line: string, io: Io) returns (err: Option<Error>)
      modifies file`content
      ensures file.content == if durable then old(file.content) + Landed(line, io) else old(file.content)
      ensures err == if io.writeError then Some(WriteFailed) else if Landed(line, io) != line then Some(ShortWrite) else None
    {
      var n := if io.wrote < |line| then io.wrote else |line|;
      if durable {
        file.content := file.content + line[..n];
      }
      if io.writeError {
        return Some(WriteFailed);
      }
      if n != |line| {
        return Some(ShortWrite);
      }
      assert line[..n] == line;
      return None;
    }

    method LogEvent(e: Event, io: Io) returns (err: Option<Error>)
      modifies this`prevHash, this`chainIndex, this`poisoned, file`content
      ensures (file.View(), View(), err) == Log(c, old(file.View()), old(View()), e, io)
    {
      if poisoned {
        return Some(SinkUnhealthy);
      }
      if !io.marshals {
        poisoned := true;
        return Some(MarshalFailed);
      }
      var prepared := Prepare(c, View(), e);
      err := AppendFull(Line(c, prepared), io);
      if err.Some? {
        poisoned := true;
        return;
      }
      prevHash := prepared.hash;
      chainIndex := chainIndex + 1;
    }

    /** CommitAuthorization and CommitKineticStop differ only in the events they accept. */
    method CommitEvent(e: Event, io: Io, acceptable: bool) returns (err: Option<Error>)
      modifies this`prevHash, this`chainIndex, this`poisoned, file
      ensures (file.View(), View(), err) == Commit(c, old(file.View()), old(View()), e, io, acceptable)
    {
      if poisoned {
        return Some(SinkUnhealthy);
      }
      if !durable {
        poisoned := true;
        return Some(SinkUnhealthy);
      }
      if !acceptable {
        return Some(NotCommittable);
      }
      if !io.marshals {
        poisoned := true;
        return Some(MarshalFailed);
      }
      var prepared := Prepare(c, View(), e);
      err := AppendFull(Line(c, prepared), io);
      if err.Some? {
        poisoned := true;
        return;
      }
      if !io.syncs {
        poisoned := true;
        return Some(SyncFailed);
      }
      file.synced := |file.content|;
      prevHash := prepared.hash;
      chainIndex := chainIndex + 1;
    }

    method CommitAuthorization(e: Event, io: Io) returns (err: Option<Error>)
      modifies this`prevHash, this`chainIndex, this`poisoned, file
      ensures (file.View(), View(), err) == Commit(c, old(file.View()), old(View()), e, io, IsAllow(e))
    {
      err := CommitEvent(e, io, IsAllow(e));
    }

    method CommitKineticStop(e: Event, io: Io) returns (err: Option<Error>)
      modifies this`prevHash, this`chainIndex, this`poisoned, file
      ensures (file.View(), View(), err) == Commit(c, old(file.View()), old(View()), e, io, IsStop(e))
    {
      err := CommitEvent(e, io, IsStop(e));
    }
  }

  /** recoverChainState as it runs, over the chunked reader. */
  method RecoverChainState(c: Codec, file: LogFile) returns (r: Result<(string, nat), RecoverError>)
    ensures r == Recover(c, file.content)
  {
    var tail := AuditTail.ReadLastCompleteLine(file.content, 64 * 1024);
    if tail.Err? {
      return Err(IncompleteTail);
    }
    if tail.value == "" {
      return Ok(("", 0));
    }
    var decoded := c.unmarshal(tail.value);
    if decoded.None? {
      return Err(CorruptRecord);
    }
    var last := decoded.value;
    if last.hash == "" {
      if last.prevHash != "" || last.chainIndex > 0 {
        return Err(CorruptRecord);
      }
      return Ok(("", 0));
    }
    if RecordHash(c, last) != last.hash {
      return Err(CorruptRecord);
    }
    return Ok((last.hash, last.chainIndex + 1));
  }

  /** NewLogger: recover the chain from the opened file, then sync its directory. */
  method NewLogger(c: Codec, file: LogFile, directorySyncs: bool) returns (l: Logger?)
    ensures l != null <==> Recover(c, file.content).Ok? && directorySyncs
    ensures l != null ==>
      && fresh(l) && l.c == c && l.file == file
      && l.View() == Mem(Recover(c, file.content).value.0, Recover(c, file.content).value.1, true, false)
  {
    var r := RecoverChainState(c, file);
    if r.Err? || !directorySyncs {
      return null;
    }
    l := new Logger(c, file, r.value.0, r.value.1, true);
  }
}
