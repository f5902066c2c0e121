/**
  What every run of the audit log keeps, whatever fails along the way (internal/audit/logger.go).
 */
module AuditTheorems {
  import opened Wrappers
  import opened AuditLedger
  import opened AuditTail
  import Spaces

  // ----- runs -----

  /** The file and the process that has it open, if any. */
  datatype World = World(disk: Disk, mem: Option<Mem>)

  /** Open covers NewLogger, Fallback the stderr logger; Crash keeps at least what was synced. */
  datatype Op =
    | Open(directorySyncs: bool) | Fallback | Close
    | LogOp(e: Event, io: Io) | AllowOp(e: Event, io: Io) | StopOp(e: Event, io: Io)
    | Crash(keep: nat)

  function Opened(c: Codec, w: World, directorySyncs: bool): World {
    match Recover(c, w.disk.content)
    case Err(_) => w.(mem := None)
    case Ok(tip) => w.(mem := if directorySyncs then Some(Mem(tip.0, tip.1, true, false)) else None)
  }

  function Survived(d: Disk, keep: nat): Disk {
    var n := if keep < d.synced then d.synced else keep;
    var kept := if n < |d.content| then d.content[..n] else d.content;
    Disk(kept, |kept|)
  }

  /** An operation on a logger needs one; with none open it does nothing. */
  function Apply(c: Codec, w: World, op: Op): World {
    match op
    case Open(directorySyncs) => Opened(c, w, directorySyncs)
    case Fallback => w.(mem := Some(Mem("", 0, false, false)))
    case Close => w.(mem := None)
    case Crash(keep) => World(Survived(w.disk, keep), None)
    case _ => if w.mem.None? then w else var (d, m, _) := Run(c, w, op); World(d, Some(m))
  }

  function Run(c: Codec, w: World, op: Op): (Disk, Mem, Option<Error>)
    requires w.mem.Some? && (op.LogOp? || op.AllowOp? || op.StopOp?)
  {
    match op
    case LogOp(e, io) => Log(c, w.disk, w.mem.value, e, io)
    case AllowOp(e, io) => Commit(c, w.disk, w.mem.value, e, io, IsAllow(e))
    case StopOp(e, io) => Commit(c, w.disk, w.mem.value, e, io, IsStop(e))
  }

  function ApplyAll(c: Codec, w: World, ops: seq<Op>): World {
    if ops == [] then w else Apply(c, ApplyAll(c, w, ops[..|ops| - 1]), ops[|ops| - 1])
  }

  const EMPTY := World(Disk("", 0), None)

  // ----- chains -----

  function Flatten(c: Codec, records: seq<Event>): string {
    if records == [] then "" else Flatten(c, records[..|records| - 1]) + Line(c, records[|records| - 1])
  }

  function TipHash(records: seq<Event>): string {
    if records == [] then "" else records[|records| - 1].hash
  }

  /** One chain: consecutive indexes, each record carrying its predecessor's hash and its own. */
  ghost predicate Chained(c: Codec, records: seq<Event>) {
    forall i :: 0 <= i < |records| ==>
      && records[i].chainIndex == i
      && records[i].prevHash == TipHash(records[..i])
      && records[i].hash == RecordHash(c, records[i])
  }

  /** The text is a chain of complete records followed by at most one torn line. */
  ghost predicate Spells(c: Codec, content: string, records: seq<Event>, torn: string) {
    Chained(c, records) && content == Flatten(c, records) + torn && '\n' !in torn
  }

  ghost predicate Holds(c: Codec, w: World, records: seq<Event>, torn: string) {
    && Spells(c, w.disk.content, records, torn)
    && w.disk.synced <= |w.disk.content|
    && (w.mem.Some? && w.mem.value.durable && !w.mem.value.poisoned ==>
          torn == "" && w.mem.value.prevHash == TipHash(records) && w.mem.value.chainIndex == |records|)
  }

  // ----- lemmas about lines -----

  lemma {:induction false} FlattenSnoc(c: Codec, records: seq<Event>, e: Event)
    ensures Flatten(c, records + [e]) == Flatten(c, records) + Line(c, e)
  {
    assert (records + [e])[..|records|] == records;
  }

  lemma ChainedSnoc(c: Codec, records: seq<Event>, e: Event)
    requires Chained(c, records)
    requires e.chainIndex == |records| && e.prevHash == TipHash(records) && e.hash == RecordHash(c, e)
    ensures Chained(c, records + [e])
  {
    var longer := records + [e];
    assert longer[..|records|] == records;
    assert forall i :: 0 <= i < |records| ==> longer[..i] == records[..i];
  }

  lemma ChainedPrefix(c: Codec, records: seq<Event>, n: nat)
    requires Chained(c, records) && n <= |records|
    ensures Chained(c, records[..n])
  {
    assert forall i :: 0 <= i < n ==> records[..n][..i] == records[..i];
  }

  /** The last line of a file of records is the last record's encoding. */
  lemma {:induction false} LastRecordLine(c: Codec, records: seq<Event>)
    requires Sound(c) && records != []
    ensures LastLine(Flatten(c, records)) == c.marshal(records[|records| - 1])
  {
    var n := |records| - 1;
    var l := c.marshal(records[n]);
    var p := Flatten(c, records[..n]);
    assert n > 0 ==> p[|p| - 1] == '\n';
    assert !Spaces.IsSpace(l[0]) && !Spaces.IsSpace(l[|l| - 1]);
    LastLineShape(p, l, "\n");
    assert Flatten(c, records) == p + l + "\n";
  }

  /** A file that holds a chain recovers exactly that chain's tip, and a torn one does not open. */
  lemma RecoverHolds(c: Codec, w: World, records: seq<Event>, torn: string)
    requires Sound(c) && Holds(c, w, records, torn)
    ensures Recover(c, w.disk.content)
            == if torn == "" then Ok((TipHash(records), |records|)) else Err(RecoverError.IncompleteTail)
  {
    var content := w.disk.content;
    if torn != "" {
      assert content[|content| - 1] == torn[|torn| - 1];
      assert content[|content| - 1] in torn;
    } else if records != [] {
      assert content == Flatten(c, records);
      LastRecordLine(c, records);
      var last := records[|records| - 1];
      assert content[|content| - 1] == '\n';
      assert c.unmarshal(c.marshal(last)) == Some(last);
    }
  }

  /** Cutting a chain's text anywhere leaves a shorter chain and a torn line; records before the cut stay. */
  lemma {:induction false} CutFlatten(c: Codec, records: seq<Event>, k: nat, kept: nat) returns (j: nat, torn: string)
    requires Sound(c) && k <= |Flatten(c, records)| && kept <= |records| && |Flatten(c, records[..kept])| <= k
    ensures kept <= j <= |records| && '\n' !in torn
    ensures Flatten(c, records)[..k] == Flatten(c, records[..j]) + torn
  {
    if k == |Flatten(c, records)| {
      j, torn := |records|, "";
      assert records[..j] == records;
    } else {
      var n := |records| - 1;
      var p, line := Flatten(c, records[..n]), Line(c, records[n]);
      assert records[..n + 1] == records;
      if k >= |p| {
        j, torn := n, line[..k - |p|];
        assert forall i :: 0 <= i < |torn| ==> torn[i] == c.marshal(records[n])[i];
        assert Flatten(c, records)[..k] == p + torn;
      } else {
        assert records[..n][..kept] == records[..kept];
        j, torn := CutFlatten(c, records[..n], k, kept);
        assert records[..n][..j] == records[..j];
        assert Flatten(c, records)[..k] == p[..k];
      }
    }
  }

  // ----- every operation keeps the chain -----

  /** A fully landed record extends the chain. */
  lemma {:induction false} WholeRecordHolds(c: Codec, w: World, e: Event, records: seq<Event>)
    requires Holds(c, w, records, "") && w.mem.Some? && w.mem.value.durable && !w.mem.value.poisoned
    ensures var prepared := Prepare(c, w.mem.value, e);
      && Chained(c, records + [prepared])
      && w.disk.content + Line(c, prepared) == Flatten(c, records + [prepared]) + ""
  {
    var prepared := Prepare(c, w.mem.value, e);
    assert Flatten(c, records) + "" == Flatten(c, records);
    FlattenSnoc(c, records, prepared);
    assert prepared.(hash := "") == e.(prevHash := w.mem.value.prevHash, chainIndex := w.mem.value.chainIndex, hash := "");
    ChainedSnoc(c, records, prepared);
  }

  /** Part of a line is a torn line. */
  lemma PartialLineIsTorn(c: Codec, e: Event, io: Io)
    requires Sound(c) && Landed(Line(c, e), io) != Line(c, e)
    ensures '\n' !in Landed(Line(c, e), io)
  {
    var landed := Landed(Line(c, e), io);
    assert forall i :: 0 <= i < |landed| ==> landed[i] == c.marshal(e)[i];
  }

  /** What an append leaves behind: the whole record, or a torn line and a latched logger. */
  lemma AppendHolds(c: Codec, w: World, e: Event, io: Io, commit: bool, records: seq<Event>)
      returns (records': seq<Event>, torn': string)
    requires Sound(c) && Holds(c, w, records, "") && w.mem.Some? && w.mem.value.durable && !w.mem.value.poisoned
    ensures var (d, m, err) := Append(c, w.disk, w.mem.value, e, io, commit);
      && Holds(c, World(d, Some(m)), records', torn')
      && (records' == records || records' == records + [Prepare(c, w.mem.value, e)])
      && (err.None? ==> torn' == "" && records' == records + [Prepare(c, w.mem.value, e)])
      && (err.None? && commit ==> d.synced == |d.content|)
      && w.disk.synced <= d.synced
  {
    var prepared := Prepare(c, w.mem.value, e);
    var line := Line(c, prepared);
    if !io.marshals {
      records', torn' := records, "";
    } else if Landed(line, io) == line {
      records', torn' := records + [prepared], "";
      WholeRecordHolds(c, w, e, records);
      assert TipHash(records') == prepared.hash;
    } else {
      records', torn' := records, Landed(line, io);
      PartialLineIsTorn(c, prepared, io);
      assert Flatten(c, records) + "" == Flatten(c, records);
    }
  }

  /** Any prefix of a file that holds a chain holds a chain. */
  lemma PrefixHolds(c: Codec, content: string, n: nat, records: seq<Event>, torn: string, kept: nat)
      returns (j: nat, torn': string)
    requires Sound(c) && Spells(c, content, records, torn) && n <= |content|
    requires kept <= |records| && |Flatten(c, records[..kept])| <= n
    ensures kept <= j <= |records| && Spells(c, content[..n], records[..j], torn')
  {
    var whole := Flatten(c, records);
    if n < |whole| {
      j, torn' := CutFlatten(c, records, n, kept);
      assert content[..n] == whole[..n];
    } else {
      j, torn' := |records|, torn[..n - |whole|];
      assert records[..j] == records;
      assert content[..n] == whole + torn';
    }
    ChainedPrefix(c, records, j);
  }

  lemma PrefixOfPrefix(records: seq<Event>, j: nat, kept: nat)
    requires kept <= j <= |records|
    ensures records[..j][..kept] == records[..kept]
  {
  }

  lemma SurvivedIsPrefix(d: Disk, keep: nat) returns (n: nat)
    requires d.synced <= |d.content|
    ensures d.synced <= n <= |d.content| && Survived(d, keep) == Disk(d.content[..n], n)
  {
    n := |Survived(d, keep).content|;
    assert Survived(d, keep).content == d.content[..n];
  }

  /** A crash keeps a prefix of the file no shorter than what was synced. */
  lemma CrashHolds(c: Codec, w: World, keep: nat, records: seq<Event>, torn: string, kept: nat)
      returns (records': seq<Event>, torn': string)
    requires Sound(c) && Holds(c, w, records, torn)
    requires kept <= |records| && |Flatten(c, records[..kept])| <= w.disk.synced
    ensures Holds(c, World(Survived(w.disk, keep), None), records', torn')
    ensures kept <= |records'| && records'[..kept] == records[..kept]
    ensures w.disk.synced <= Survived(w.disk, keep).synced
  {
    var n := SurvivedIsPrefix(w.disk, keep);
    var j, t := PrefixHolds(c, w.disk.content, n, records, torn, kept);
    PrefixOfPrefix(records, j, kept);
    records', torn' := records[..j], t;
  }

  /** A write through an open logger extends the chain or leaves it. */
  lemma WriteHolds(c: Codec, w: World, op: Op, records: seq<Event>, torn: string)
      returns (records': seq<Event>, torn': string)
    requires Sound(c) && Holds(c, w, records, torn) && (op.LogOp? || op.AllowOp? || op.StopOp?)
    ensures Holds(c, Apply(c, w, op), records', torn')
    ensures records <= records' && w.disk.synced <= Apply(c, w, op).disk.synced
  {
    records', torn' := records, torn;
    if w.mem.Some? && !w.mem.value.poisoned && w.mem.value.durable
       && (op.LogOp? || (op.AllowOp? && IsAllow(op.e)) || (op.StopOp? && IsStop(op.e))) {
      records', torn' := AppendHolds(c, w, op.e, op.io, !op.LogOp?, records);
    }
  }

  /** Opening, falling back and closing leave the file alone. */
  lemma OpeningHolds(c: Codec, w: World, op: Op, records: seq<Event>, torn: string)
    requires Sound(c) && Holds(c, w, records, torn) && (op.Open? || op.Fallback? || op.Close?)
    ensures Holds(c, Apply(c, w, op), records, torn) && Apply(c, w, op).disk == w.disk
  {
    RecoverHolds(c, w, records, torn);
  }

  /** One operation takes a chain to a chain, and the records already synced stay where they are. */
  lemma OpHolds(c: Codec, w: World, op: Op, records: seq<Event>, torn: string, kept: nat)
      returns (records': seq<Event>, torn': string)
    requires Sound(c) && Holds(c, w, records, torn)
    requires kept <= |records| && |Flatten(c, records[..kept])| <= w.disk.synced
    ensures Holds(c, Apply(c, w, op), records', torn')
    ensures kept <= |records'| && records'[..kept] == records[..kept]
    ensures w.disk.synced <= Apply(c, w, op).disk.synced
    ensures op.Crash? || records <= records'
  {
    if op.Crash? {
      records', torn' := CrashHolds(c, w, op.keep, records, torn, kept);
    } else if !IsWrite(op) {
      records', torn' := records, torn;
      OpeningHolds(c, w, op, records, torn);
    } else {
      records', torn' := WriteHolds(c, w, op, records, torn);
    }
  }

  // ----- main results -----

  /** From an empty file, every run of every operation with every failure leaves one chain and at most one torn line. */
  lemma {:induction false} EveryRunHoldsAChain(c: Codec, ops: seq<Op>) returns (records: seq<Event>, torn: string)
    requires Sound(c)
    ensures Holds(c, ApplyAll(c, EMPTY, ops), records, torn)
  {
    if ops == [] {
      records, torn := [], "";
    } else {
      var r, t := EveryRunHoldsAChain(c, ops[..|ops| - 1]);
      records, torn := OpHolds(c, ApplyAll(c, EMPTY, ops[..|ops| - 1]), ops[|ops| - 1], r, t, 0);
    }
  }

  /** After any run, opening the log resumes exactly the chain on disk, or is refused because the tail is torn. */
  lemma ReopenResumesOrRefuses(c: Codec, ops: seq<Op>) returns (records: seq<Event>, torn: string)
    requires Sound(c)
    ensures var w := ApplyAll(c, EMPTY, ops);
      && Holds(c, w, records, torn)
      && Opened(c, w, true).mem == if torn == "" then Some(Mem(TipHash(records), |records|, true, false)) else None
  {
    records, torn := EveryRunHoldsAChain(c, ops);
    RecoverHolds(c, ApplyAll(c, EMPTY, ops), records, torn);
  }

  // ----- the latch over runs -----

  predicate IsWrite(op: Op) {
    op.LogOp? || op.AllowOp? || op.StopOp?
  }

  /** The operation finds an open logger and fails; refusing an event that is no commit at all is not a failure. */
  predicate Fails(c: Codec, w: World, op: Op) {
    IsWrite(op) && w.mem.Some? && Run(c, w, op).2.Some? && Run(c, w, op).2 != Some(NotCommittable)
  }

  lemma WriteLatches(c: Codec, w: World, op: Op)
    requires w.mem.Some? && IsWrite(op)
    ensures Apply(c, w, op).mem.Some?
    ensures Apply(c, w, op).mem.value.poisoned <==> w.mem.value.poisoned || Fails(c, w, op)
    ensures w.mem.value.poisoned ==> Apply(c, w, op) == w && Run(c, w, op).2 == Some(SinkUnhealthy)
  {
  }

  predicate FailsAt(c: Codec, w: World, ops: seq<Op>, i: int) {
    0 <= i < |ops| && Fails(c, ApplyAll(c, w, ops[..i]), ops[i])
  }

  lemma FailsAtPrefix(c: Codec, w: World, ops: seq<Op>, n: nat, i: int)
    requires n <= |ops| && i < n
    ensures FailsAt(c, w, ops[..n], i) == FailsAt(c, w, ops, i)
  {
    if i >= 0 {
      assert ops[..n][..i] == ops[..i];
    }
  }

  /** Some operation of the run fails. */
  ghost predicate SomeFails(c: Codec, w: World, ops: seq<Op>) {
    exists i :: FailsAt(c, w, ops, i)
  }

  lemma {:induction false} SomeFailsSnoc(c: Codec, w: World, ops: seq<Op>, n: nat)
    requires |ops| == n + 1
    ensures SomeFails(c, w, ops) <==> SomeFails(c, w, ops[..n]) || Fails(c, ApplyAll(c, w, ops[..n]), ops[n])
  {
    forall i | i < n ensures FailsAt(c, w, ops[..n], i) == FailsAt(c, w, ops, i) {
      FailsAtPrefix(c, w, ops, n, i);
    }
    assert FailsAt(c, w, ops, n) == Fails(c, ApplyAll(c, w, ops[..n]), ops[n]);
  }

  /** However many writes follow each other, the logger is latched exactly when one of them failed. */
  lemma {:induction false} LatchedExactlyAfterAFailure(c: Codec, w: World, ops: seq<Op>)
    requires w.mem.Some? && !w.mem.value.poisoned && forall i :: 0 <= i < |ops| ==> IsWrite(ops[i])
    ensures ApplyAll(c, w, ops).mem.Some?
    ensures ApplyAll(c, w, ops).mem.value.poisoned <==> SomeFails(c, w, ops)
  {
    if ops != [] {
      var n := |ops| - 1;
      LatchedExactlyAfterAFailure(c, w, ops[..n]);
      WriteLatches(c, ApplyAll(c, w, ops[..n]), ops[n]);
      SomeFailsSnoc(c, w, ops, n);
    }
  }

  /** What is left once a logger failed: it stays latched or is gone, and the file keeps at least what was synced. */
  ghost predicate Silenced(failed: World, w: World) {
    && (w.mem == failed.mem || w.mem.None?) && w.disk.content <= failed.disk.content
    && failed.disk.synced <= w.disk.synced <= |w.disk.content|
  }

  lemma StaysSilenced(c: Codec, failed: World, w: World, op: Op)
    requires failed.mem.Some? && failed.mem.value.poisoned && !op.Open? && !op.Fallback? && Silenced(failed, w)
    ensures Silenced(failed, Apply(c, w, op)) && (!op.Crash? ==> Apply(c, w, op).disk == w.disk)
  {
    if IsWrite(op) && w.mem.Some? {
      WriteLatches(c, w, op);
    } else if op.Crash? {
      var n := SurvivedIsPrefix(w.disk, op.keep);
    }
  }

  lemma {:induction false} LaterRunsAreSilenced(c: Codec, failed: World, later: seq<Op>)
    requires failed.mem.Some? && failed.mem.value.poisoned && failed.disk.synced <= |failed.disk.content|
    requires forall i :: 0 <= i < |later| ==> !later[i].Open? && !later[i].Fallback?
    ensures Silenced(failed, ApplyAll(c, failed, later))
    ensures (forall i :: 0 <= i < |later| ==> !later[i].Crash?) ==> ApplyAll(c, failed, later).disk == failed.disk
  {
    if later != [] {
      var n := |later| - 1;
      LaterRunsAreSilenced(c, failed, later[..n]);
      StaysSilenced(c, failed, ApplyAll(c, failed, later[..n]), later[n]);
    }
  }

  lemma {:induction false} FailedIsLatched(c: Codec, before: seq<Op>, op: Op)
    requires Sound(c) && Fails(c, ApplyAll(c, EMPTY, before), op)
    ensures var failed := Apply(c, ApplyAll(c, EMPTY, before), op);
      failed.mem.Some? && failed.mem.value.poisoned && failed.disk.synced <= |failed.disk.content|
  {
    var w := ApplyAll(c, EMPTY, before);
    WriteLatches(c, w, op);
    var r, t := EveryRunHoldsAChain(c, before);
    r, t := WriteHolds(c, w, op, r, t);
  }

  /**
    After a failure in any run nothing more reaches the file until the log is opened again: whatever writes,
    closes and crashes follow, the file only loses what was never synced, and a write that still finds a
    logger reports the sink unhealthy.
   */
  lemma {:induction false} NothingIsWrittenAfterAFailure(c: Codec, before: seq<Op>, op: Op, later: seq<Op>)
    requires Sound(c) && Fails(c, ApplyAll(c, EMPTY, before), op)
    requires forall i :: 0 <= i < |later| ==> !later[i].Open? && !later[i].Fallback?
    ensures var failed := Apply(c, ApplyAll(c, EMPTY, before), op);
      var end := ApplyAll(c, failed, later);
      && Silenced(failed, end)
      && ((forall i :: 0 <= i < |later| ==> !later[i].Crash?) ==> end.disk == failed.disk)
      && (end.mem.Some? ==> forall next :: IsWrite(next) ==> Run(c, end, next) == (end.disk, end.mem.value, Some(SinkUnhealthy)))
  {
    var w := ApplyAll(c, EMPTY, before);
    FailedIsLatched(c, before, op);
    LaterRunsAreSilenced(c, Apply(c, w, op), later);
  }

  /** A commit reports success only after a whole synced append on a durable, healthy logger. */
  lemma SuccessfulCommitAppends(c: Codec, w: World, op: Op)
    requires (op.AllowOp? || op.StopOp?) && w.mem.Some? && Run(c, w, op).2.None?
    ensures w.mem.value.durable && !w.mem.value.poisoned
    ensures if op.AllowOp? then IsAllow(op.e) else IsStop(op.e)
    ensures var (d, m, err) := Append(c, w.disk, w.mem.value, op.e, op.io, true);
      err.None? && Apply(c, w, op) == World(d, Some(m))
  {
  }

  /** One successful commit: its event, linked to the tip, ends the chain and the whole file is synced. */
  lemma CommitEndsTheChain(c: Codec, w: World, op: Op, before: seq<Event>, t: string)
      returns (records: seq<Event>)
    requires Sound(c) && (op.AllowOp? || op.StopOp?) && Holds(c, w, before, t)
    requires w.mem.Some? && Run(c, w, op).2.None?
    ensures Holds(c, Apply(c, w, op), records, "") && records == before + [Prepare(c, w.mem.value, op.e)]
    ensures Apply(c, w, op).disk.synced == |Apply(c, w, op).disk.content|
  {
    SuccessfulCommitAppends(c, w, op);
    var torn;
    records, torn := AppendHolds(c, w, op.e, op.io, true, before);
  }

  /**
    A commit that reports success is only ever made on an accepted event; that event, linked to the
    tip, is the last record, the whole file is synced, and the records survive any later run.
   */
  lemma CommittedRecordIsSyncedTip(c: Codec, ops: seq<Op>, op: Op, later: seq<Op>)
      returns (records: seq<Event>, after: seq<Event>, torn: string)
    requires Sound(c) && (op.AllowOp? || op.StopOp?)
    requires var w := ApplyAll(c, EMPTY, ops); w.mem.Some? && Run(c, w, op).2.None?
    ensures if op.AllowOp? then IsAllow(op.e) else IsStop(op.e)
    ensures var w := Apply(c, ApplyAll(c, EMPTY, ops), op);
      && Holds(c, w, records, "") && w.disk.synced == |w.disk.content|
      && Holds(c, ApplyAll(c, w, later), after, torn)
    ensures records != [] && records <= after
    ensures var last := records[|records| - 1];
      last.(prevHash := op.e.prevHash, chainIndex := op.e.chainIndex, hash := op.e.hash) == op.e
  {
    var w := ApplyAll(c, EMPTY, ops);
    SuccessfulCommitAppends(c, w, op);
    var before, t := EveryRunHoldsAChain(c, ops);
    records := CommitEndsTheChain(c, w, op, before, t);
    var w' := Apply(c, w, op);
    assert w'.disk.content == Flatten(c, records);
    after, torn := SyncedRecordsSurvive(c, w', records, "", later);
  }

  /** Records already synced are there, unchanged and in place, after every later run. */
  lemma {:induction false} SyncedRecordsSurvive(c: Codec, w: World, records: seq<Event>, torn: string, ops: seq<Op>)
      returns (records': seq<Event>, torn': string)
    requires Sound(c) && Holds(c, w, records, torn) && |Flatten(c, records)| <= w.disk.synced
    ensures Holds(c, ApplyAll(c, w, ops), records', torn') && records <= records'
    ensures |Flatten(c, records)| <= ApplyAll(c, w, ops).disk.synced
  {
    if ops == [] {
      records', torn' := records, torn;
    } else {
      var n := |ops| - 1;
      var r, t := SyncedRecordsSurvive(c, w, records, torn, ops[..n]);
      assert r[..|records|] == records;
      records', torn' := OpHolds(c, ApplyAll(c, w, ops[..n]), ops[n], r, t, |records|);
    }
  }
}
