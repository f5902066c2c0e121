/**
  What each operation of the audit log reports and leaves, over every run: exactly when it succeeds, which
  record it adds, which tail recovery accepts, and that a tip commits to the whole chain
  (internal/audit/logger.go).
 */
module AuditOutcomes {
  import opened Wrappers
  import opened AuditLedger
  import opened AuditTheorems
  import AuditTail

  // ----- what is written -----

  /** The event as it is recorded at a tip: chained to it, under the hash of its own encoding without one. */
  function Record(c: Codec, e: Event, prevHash: string, chainIndex: nat): Event {
    var linked := e.(prevHash := prevHash, chainIndex := chainIndex, hash := "");
    linked.(hash := c.sha(c.marshal(linked)))
  }

  lemma PreparedIsRecorded(c: Codec, m: Mem, e: Event)
    ensures Prepare(c, m, e) == Record(c, e, m.prevHash, m.chainIndex)
  {
  }

  /** The whole line, its newline included, reached the sink. */
  predicate LandsWhole(c: Codec, e: Event, io: Io) {
    io.wrote > |c.marshal(e)|
  }

  lemma LandedWhole(c: Codec, e: Event, io: Io)
    ensures Landed(Line(c, e), io) == Line(c, e) <==> LandsWhole(c, e, io)
  {
  }

  /** What an append through a healthy logger reports. */
  function AppendReport(c: Codec, e: Event, io: Io): Option<Error> {
    if !io.marshals then Some(MarshalFailed)
    else if io.writeError then Some(WriteFailed)
    else if !LandsWhole(c, e, io) then Some(ShortWrite)
    else None
  }

  lemma AppendOutcome(c: Codec, d: Disk, m: Mem, e: Event, io: Io, commit: bool)
    ensures var rec := Record(c, e, m.prevHash, m.chainIndex);
      var (d', m', err) := Append(c, d, m, e, io, commit);
      && err == (if AppendReport(c, rec, io).None? && commit && !io.syncs then Some(SyncFailed) else AppendReport(c, rec, io))
      && (err.None? ==> m' == m.(prevHash := rec.hash, chainIndex := m.chainIndex + 1))
      && (err.Some? ==> m' == m.(poisoned := true))
  {
    PreparedIsRecorded(c, m, e);
    LandedWhole(c, Record(c, e, m.prevHash, m.chainIndex), io);
  }

  /** The file holds the chain it held before and the event's record, linked to the tip. */
  ghost predicate Adds(c: Codec, w': World, before: seq<Event>, e: Event) {
    Holds(c, w', before + [Record(c, e, TipHash(before), |before|)], "")
  }

  // ----- Log -----

  /**
    Log over every run reports an error exactly if the logger is latched or the event does not encode, the write
    errs or falls short; on a durable logger, without an error, the chain is the one before and the event's
    record, linked to the tip.
   */
  lemma LogOutcome(c: Codec, ops: seq<Op>, e: Event, io: Io) returns (before: seq<Event>, torn: string)
    requires Sound(c) && ApplyAll(c, EMPTY, ops).mem.Some?
    ensures var w := ApplyAll(c, EMPTY, ops);
      var m, err := w.mem.value, Run(c, w, LogOp(e, io)).2;
      && Holds(c, w, before, torn)
      && err == (if m.poisoned then Some(SinkUnhealthy) else AppendReport(c, Record(c, e, m.prevHash, m.chainIndex), io))
      && (err.None? && m.durable ==> torn == "" && Adds(c, Apply(c, w, LogOp(e, io)), before, e))
      && (err.None? && !m.durable ==> Apply(c, w, LogOp(e, io)).disk == w.disk)
  {
    var w := ApplyAll(c, EMPTY, ops);
    before, torn := EveryRunHoldsAChain(c, ops);
    AppendOutcome(c, w.disk, w.mem.value, e, io, false);
    if Run(c, w, LogOp(e, io)).2.None? && w.mem.value.durable {
      var after, t := AppendHolds(c, w, e, io, false, before);
      PreparedIsRecorded(c, w.mem.value, e);
    }
  }

  // ----- commits -----

  /** The events a commit of each kind takes. */
  predicate Takes(op: Op) {
    match op
    case AllowOp(e, _) => e.eventType == "tool_call_allowed" && e.decision == "allow"
    case StopOp(e, _) => e.eventType == "kinetic_stop_enforced" && e.decision == "revoked" && e.resultingState != ""
    case _ => false
  }

  /**
    A commit over every run reports what Log would, and besides refuses a logger that is not durable, an event
    that is none of its kind and a file that does not sync; without an error the chain is the one before and
    the event's record, all of it synced.
   */
  lemma CommitOutcome(c: Codec, ops: seq<Op>, op: Op) returns (before: seq<Event>, torn: string)
    requires Sound(c) && (op.AllowOp? || op.StopOp?) && ApplyAll(c, EMPTY, ops).mem.Some?
    ensures var w := ApplyAll(c, EMPTY, ops);
      var m, err, w' := w.mem.value, Run(c, w, op).2, Apply(c, w, op);
      var report := AppendReport(c, Record(c, op.e, m.prevHash, m.chainIndex), op.io);
      && Holds(c, w, before, torn)
      && err == (if m.poisoned || !m.durable then Some(SinkUnhealthy)
                 else if !Takes(op) then Some(NotCommittable)
                 else if report.None? && !op.io.syncs then Some(SyncFailed) else report)
      && (err.None? ==> torn == "" && Adds(c, w', before, op.e) && w'.disk.synced == |w'.disk.content|)
      && (err == Some(NotCommittable) ==> w' == w)
  {
    var w := ApplyAll(c, EMPTY, ops);
    before, torn := EveryRunHoldsAChain(c, ops);
    AppendOutcome(c, w.disk, w.mem.value, op.e, op.io, true);
    if Run(c, w, op).2.None? {
      CommitAdds(c, w, op, before, torn);
    }
  }

  lemma CommitAdds(c: Codec, w: World, op: Op, before: seq<Event>, torn: string)
    requires Sound(c) && (op.AllowOp? || op.StopOp?) && Holds(c, w, before, torn) && w.mem.Some? && Run(c, w, op).2.None?
    ensures torn == "" && Adds(c, Apply(c, w, op), before, op.e)
    ensures Apply(c, w, op).disk.synced == |Apply(c, w, op).disk.content|
  {
    SuccessfulCommitAppends(c, w, op);
    var after := CommitEndsTheChain(c, w, op, before, torn);
    PreparedIsRecorded(c, w.mem.value, op.e);
  }

  // ----- the last line -----

  /** What is cut off the end of the file: blanks and line ends. */
  predicate Padding(s: string) {
    forall i :: 0 <= i < |s| ==> s[i] == ' ' || s[i] == '\t' || s[i] == '\r' || s[i] == '\n'
  }

  /** What is cut off both ends of a line: the ASCII spaces. */
  predicate White(c: char) {
    c == ' ' || c == '\t' || c == '\r' || c == '\n' || c as int == 11 || c as int == 12
  }

  lemma {:induction false} WhiteEnds(s: string, white: string)
    requires forall i :: 0 <= i < |white| ==> White(white[i])
    ensures AuditTail.TrimSpaceRight(s + white) == AuditTail.TrimSpaceRight(s)
  {
    if white == "" {
      assert s + white == s;
    } else {
      var n := |white| - 1;
      assert (s + white)[..|s| + n] == s + white[..n];
      WhiteEnds(s, white[..n]);
    }
  }

  lemma {:induction false} WhiteStarts(white: string, s: string)
    requires forall i :: 0 <= i < |white| ==> White(white[i])
    ensures AuditTail.TrimSpaceLeft(white + s) == AuditTail.TrimSpaceLeft(s)
  {
    if white == "" {
      assert white + s == s;
    } else {
      assert (white + s)[1..] == white[1..] + s;
      WhiteStarts(white[1..], s);
    }
  }

  /**
    The last line of a file, spelled out: behind whole lines, and before padding, the text between the white space around
    it; and a file of padding has none.
   */
  lemma LastLineIs(before: string, left: string, text: string, right: string, padding: string)
    requires before == "" || before[|before| - 1] == '\n'
    requires text != "" && !White(text[0]) && !White(text[|text| - 1]) && '\n' !in left + text + right
    requires (forall i :: 0 <= i < |left| ==> White(left[i])) && (forall i :: 0 <= i < |right| ==> White(right[i]))
    requires Padding(padding) && (right != "" ==> !Padding([right[|right| - 1]]))
    ensures AuditTail.LastLine(before + (left + text + right) + padding) == text
  {
    var line := left + text + right;
    assert AuditTail.AllBlank(padding);
    assert right == "" ==> line[|line| - 1] == text[|text| - 1];
    if right != "" {
      var c := right[|right| - 1];
      assert line[|line| - 1] == c;
    }
    AuditTail.LastLineShape(before, line, padding);
    WhiteEnds(left + text, right);
    assert AuditTail.TrimSpaceRight(left + text) == left + text;
    WhiteStarts(left, text);
  }

  lemma PaddingHasNoLine(padding: string)
    requires Padding(padding)
    ensures AuditTail.LastLine(padding) == ""
  {
    AuditTail.FeedBlankFile(padding);
    var f := AuditTail.FeedAll(AuditTail.Scanner("", ""), padding);
    AuditTail.TrimmedLengthDetermined(f.line, |f.line|, 0);
  }

  // ----- recovery -----

  /** The record carries the hash of its own encoding. */
  predicate SelfConsistent(c: Codec, e: Event) {
    e.hash != "" && e.hash == c.sha(c.marshal(e.(hash := "")))
  }

  /** A record from before there was a chain. */
  predicate Unchained(e: Event) {
    e.hash == "" && e.prevHash == "" && e.chainIndex == 0
  }

  /**
    For every file, honest or not: recovery succeeds exactly if the file ends in a newline and its last line is
    blank, a record whose hash is its own, or an unchained one; only the second gives a tip to continue from.
   */
  lemma RecoversExactly(c: Codec, content: string)
    ensures var whole := content == "" || content[|content| - 1] == '\n';
      var line := AuditTail.LastLine(content);
      var last := c.unmarshal(line);
      var r := Recover(c, content);
      && (r == Err(RecoverError.IncompleteTail) <==> !whole)
      && (r.Ok? <==> whole && (content == "" || line == "" || (last.Some? && (SelfConsistent(c, last.value) || Unchained(last.value)))))
      && (r.Ok? ==>
            r.value == if content != "" && line != "" && SelfConsistent(c, last.value)
                       then (last.value.hash, last.value.chainIndex + 1) else ("", 0))
  {
  }

  // ----- what a tip commits to -----

  /** Two different texts under one digest. */
  predicate Collision(c: Codec, x: string, y: string) {
    x != y && c.sha(x) == c.sha(y)
  }

  /** The tip hash commits to every record: two chains with one tip are equal, or SHA-256 collides on a pair found here. */
  lemma {:induction false} TipCommitsToChain(c: Codec, a: seq<Event>, b: seq<Event>) returns (x: string, y: string)
    requires Sound(c) && Chained(c, a) && Chained(c, b) && a != [] && b != [] && TipHash(a) == TipHash(b)
    ensures a == b || Collision(c, x, y)
    decreases |a|
  {
    var p, q := |a| - 1, |b| - 1;
    x, y := c.marshal(a[p].(hash := "")), c.marshal(b[q].(hash := ""));
    if x == y {
      SameRecord(c, a[p], b[q]);
      assert p == q;
      SplitLast(a, p);
      SplitLast(b, p);
      if p > 0 {
        ChainedPrefix(c, a, p);
        ChainedPrefix(c, b, p);
        x, y := TipCommitsToChain(c, a[..p], b[..p]);
      }
    }
  }

  lemma SplitLast(records: seq<Event>, p: nat)
    requires |records| == p + 1
    ensures records == records[..p] + [records[p]]
  {
  }

  lemma SameRecord(c: Codec, a: Event, b: Event)
    requires Sound(c) && a.hash == b.hash && c.marshal(a.(hash := "")) == c.marshal(b.(hash := ""))
    ensures a == b
  {
    assert c.unmarshal(c.marshal(a.(hash := ""))) == c.unmarshal(c.marshal(b.(hash := "")));
    assert a == a.(hash := "").(hash := a.hash);
    assert b == b.(hash := "").(hash := b.hash);
  }
}
