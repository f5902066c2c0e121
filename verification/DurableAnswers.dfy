/**
  What the durable engine answers, over every run, in terms of the receipts it holds
  (internal/approval/durable.go, RequestApproval and SubmitReceipt).
 */
module DurableAnswers {
  import opened Wrappers
  import opened DurableApproval
  import opened DurableTheorems

  /** One call of RequestApproval: the request, the execution ID made for it and what its file write does. */
  datatype Call = Call(req: Request, execId: string, write: Write)

  /** What RequestApproval returns for a call. */
  function Reply(d: Disk, m: Mem, c: Call, now: int): Result<Decision, Error> {
    Requested(d, m, c.req, now, c.execId, c.write).2
  }

  /** The call names a server, a tool, a session and an agent, and its ID is one path component. */
  predicate WellFormed(req: Request) {
    && req.subject.server != "" && req.subject.tool != "" && req.subject.sessionId != "" && req.subject.agentId != ""
    && (forall c <- req.id :: c != '\0' && c != '/' && c != '\\') && req.id != "." && req.id != ".."
  }

  /** Unix seconds count whole seconds, so a receipt lasts to the end of the second it expires in. */
  predicate Lasts(r: Receipt, now: int) {
    now < (r.expiry + 1) * 1_000_000_000
  }

  /** The engine holds this receipt for the subject; it was settled for exactly that subject and has not expired. */
  ghost predicate Held(w: World, s: Subject, r: Receipt) {
    && w.mem.Some? && Key(s) in w.mem.value.receipts && w.mem.value.receipts[Key(s)] == r
    && r.subject == s && r.executionId in w.settled && w.settled[r.executionId] == r && Lasts(r, w.now)
  }

  lemma LastsUntilExpired(r: Receipt, now: int)
    ensures Lasts(r, now) <==> !Expired(r, now)
  {
  }

  lemma AcceptableIsWellFormed(req: Request)
    ensures Acceptable(req) <==> WellFormed(req)
  {
  }

  /** Whatever is in memory under a subject's key was settled for that subject. */
  lemma {:induction false} HeldOrLapsed(verified: Receipt -> bool, steps: seq<Step>, w: World, s: Subject)
    requires Run(verified, START, steps, w) && w.mem.Some?
    ensures Key(s) in w.mem.value.receipts ==>
      var r := w.mem.value.receipts[Key(s)];
      && (Held(w, s, r) <==> !Expired(r, w.now)) && verified(r) && (r.decision == "approve" || r.decision == "deny")
      && r.executionId in w.issued && w.issued[r.executionId].subject == s
  {
    RunKeeps(verified, START, steps, w);
    if Key(s) in w.mem.value.receipts {
      var r := w.mem.value.receipts[Key(s)];
      KeyInjective(s, r.subject);
      LastsUntilExpired(r, w.now);
    }
  }

  /**
    RequestApproval over every run. A malformed request is an error. Otherwise the call is approved exactly on a held
    approving receipt, which it returns; a held receipt that denies answers neither approved nor pending; and with
    no held receipt a new request waits for an hour under its ID once its file is written whole, and only then.
   */
  lemma {:induction false} RequestAnswersExactly(verified: Receipt -> bool, steps: seq<Step>, w: World, c: Call)
    requires Run(verified, START, steps, w) && w.mem.Some?
    ensures var s, reply := c.req.subject, Reply(w.disk, w.mem.value, c, w.now);
      && (!WellFormed(c.req) ==> reply == Err(BadRequest))
      && (WellFormed(c.req) ==>
            && (reply.Ok? && reply.value.approved <==> exists r :: Held(w, s, r) && r.decision == "approve")
            && (forall r :: Held(w, s, r) ==>
                  reply == Ok(if r.decision == "approve" then Decision(true, false, r.executionId, Some(r))
                              else Decision(false, false, r.executionId, None)))
            && ((forall r :: !Held(w, s, r)) ==>
                  reply == if c.write == Complete then Ok(Decision(false, true, c.execId, None)) else Err(PersistFailed)))
  {
    AcceptableIsWellFormed(c.req);
    HeldOrLapsed(verified, steps, w, c.req.subject);
    if r :| Held(w, c.req.subject, r) {
      assert w.mem.value.receipts[Key(c.req.subject)] == r;
    } else if Key(c.req.subject) in w.mem.value.receipts {
      assert !Held(w, c.req.subject, w.mem.value.receipts[Key(c.req.subject)]);
    }
  }

  /**
    So it grants only on a receipt that verifies, lasts, says approve, and was submitted for an issued request of the
    very same server, tool, session and agent.
   */
  lemma {:induction false} GrantsOnlyOnAMatchingApproval(verified: Receipt -> bool, steps: seq<Step>, w: World, c: Call)
    requires Run(verified, START, steps, w) && w.mem.Some?
    requires var reply := Reply(w.disk, w.mem.value, c, w.now); reply.Ok? && reply.value.approved
    ensures exists r: Receipt ::
              && Reply(w.disk, w.mem.value, c, w.now) == Ok(Decision(true, false, r.executionId, Some(r)))
              && verified(r) && Lasts(r, w.now) && r.decision == "approve" && r.subject == c.req.subject
              && r.executionId in w.issued && w.issued[r.executionId].subject == c.req.subject
              && r.executionId in w.settled && w.settled[r.executionId] == r
  {
    RequestAnswersExactly(verified, steps, w, c);
    var r :| Held(w, c.req.subject, r) && r.decision == "approve";
    HeldOrLapsed(verified, steps, w, c.req.subject);
  }

  lemma {:induction false} UnusedDoesNotWait(verified: Receipt -> bool, steps: seq<Step>, w: World, id: string)
    requires Run(verified, START, steps, w) && w.mem.Some? && Unused(w, id)
    ensures id !in w.mem.value.pending
  {
    RunKeeps(verified, START, steps, w);
  }

  /** And it leaves a request that waits, on disk and in memory, exactly when it answers that approval is required. */
  lemma {:induction false} RequestWaitsExactlyWhenItSaysSo(verified: Receipt -> bool, steps: seq<Step>, w: World, c: Call)
    requires Run(verified, START, steps, w) && w.mem.Some? && Unused(w, c.execId)
    ensures var (d, m, reply) := Requested(w.disk, w.mem.value, c.req, w.now, c.execId, c.write);
      var p := Pending(c.execId, c.req.subject, w.now + 3_600 * 1_000_000_000);
      && (c.execId in m.pending <==> reply == Ok(Decision(false, true, c.execId, None)))
      && (c.execId in m.pending ==> m.pending == w.mem.value.pending[c.execId := p] && d.pending == w.disk.pending[c.execId := Whole(p)])
      && (reply.Ok? && !reply.value.requiresApproval ==> d == w.disk && m == w.mem.value)
      && (c.execId !in m.pending ==> m.pending == w.mem.value.pending)
  {
    UnusedDoesNotWait(verified, steps, w, c.execId);
  }

  /**
    SubmitReceipt over every run, its expiry read at `checkedAt`. A receipt for a waiting request settles it exactly when
    it lasts, verifies, names the request's own server, tool, session and agent, decides, and both file operations
    work; the answer then is its own decision.
   */
  lemma {:induction false} SubmitSettlesExactlyWhen(verified: Receipt -> bool, steps: seq<Step>, w: World, r: Receipt, checkedAt: int,
      write: Write, removes: bool)
    requires Run(verified, START, steps, w) && w.mem.Some? && r.executionId in w.mem.value.pending
    ensures var (d, m, reply) := Submitted(verified, w.disk, w.mem.value, r, checkedAt, write, removes);
      && (reply.Ok? <==>
            && Lasts(r, checkedAt) && verified(r) && r.subject == w.mem.value.pending[r.executionId].subject
            && (r.decision == "approve" || r.decision == "deny") && write == Complete && removes)
      && (reply.Ok? ==>
            && reply.value == Decision(r.decision == "approve", false, r.executionId, Some(r))
            && r.executionId !in m.pending && Key(r.subject) in m.receipts && m.receipts[Key(r.subject)] == r
            && r.executionId !in d.pending && r.executionId in d.receipts && d.receipts[r.executionId] == Whole(r))
      && (reply.Err? ==> m == w.mem.value && d.pending == w.disk.pending)
      && r.executionId in w.issued && w.mem.value.pending[r.executionId] == w.issued[r.executionId]
  {
    RunKeeps(verified, START, steps, w);
    LastsUntilExpired(r, checkedAt);
  }

  /**
    For an ID that is not waiting, SubmitReceipt changes nothing, and answers with whatever receipt memory has for the
    submitted receipt's subject, whether or not that one still lasts.
   */
  lemma {:induction false} SubmitUnknownAnswersFromMemory(verified: Receipt -> bool, steps: seq<Step>, w: World, r: Receipt, checkedAt: int,
      write: Write, removes: bool)
    requires Run(verified, START, steps, w) && w.mem.Some? && r.executionId !in w.mem.value.pending
    ensures var (d, m, reply) := Submitted(verified, w.disk, w.mem.value, r, checkedAt, write, removes);
      && d == w.disk && m == w.mem.value
      && (reply.Ok? <==> Lasts(r, checkedAt) && verified(r) && Key(r.subject) in m.receipts)
      && (reply.Ok? ==>
            var held := m.receipts[Key(r.subject)];
            && held.subject == r.subject && held.executionId in w.settled && w.settled[held.executionId] == held
            && reply.value == Decision(held.decision == "approve", false, held.executionId, Some(held)))
  {
    RunKeeps(verified, START, steps, w);
    LastsUntilExpired(r, checkedAt);
    if Key(r.subject) in w.mem.value.receipts {
      KeyInjective(r.subject, w.mem.value.receipts[Key(r.subject)].subject);
    }
  }
}
