/**
  Exactly which state directories load, whoever wrote them, and what a load takes from them
  (internal/approval/durable.go, loadState).
 */
module DurableExact {
  import opened Wrappers
  import opened DurableApproval
  import opened DurableAnswers
  import opened DurableReload

  /** One path component. */
  predicate FileName(id: string) {
    id != "" && id != "." && id != ".." && forall c <- id :: c != '\0' && c != '/' && c != '\\'
  }

  predicate Named(s: Subject) {
    s.server != "" && s.tool != "" && s.sessionId != "" && s.agentId != ""
  }

  /** A receipt in force: verified, deciding, and filed under its own execution ID. */
  predicate Genuine(verified: Receipt -> bool, r: Receipt, id: string) {
    verified(r) && Named(r.subject) && (r.decision == "approve" || r.decision == "deny") && r.executionId == id && FileName(id)
  }

  /** The receipt file of this ID is whole and lasts. */
  predicate Lasting(d: Disk, id: string, now: int) {
    id in d.receipts && d.receipts[id].Whole? && Lasts(d.receipts[id].value, now)
  }

  lemma LiveIsLasting(d: Disk, id: string, now: int)
    ensures Live(d, id, now) <==> Lasting(d, id, now)
  {
    if id in d.receipts && d.receipts[id].Whole? {
      LastsUntilExpired(d.receipts[id].value, now);
    }
  }

  predicate GoodReceiptFile(verified: Receipt -> bool, d: Disk, id: string, now: int)
    requires id in d.receipts
  {
    d.receipts[id].Whole? && (Lasting(d, id, now) ==> Genuine(verified, d.receipts[id].value, id))
  }

  /** A request filed under its own ID, complete, with an expiry other than Go's zero time, answered by its own receipt if by any. */
  predicate GoodRequestFile(d: Disk, id: string, now: int)
    requires id in d.pending
  {
    && d.pending[id].Whole?
    && var p := d.pending[id].value;
       && p.id == id && FileName(id) && Named(p.subject) && p.expiresAt != -62_135_596_800 * 1_000_000_000
       && (Lasting(d, id, now) ==> d.receipts[id].value.executionId == id && d.receipts[id].value.subject == p.subject)
  }

  /** A directory loads exactly if every file in it is whole and good; only receipts that have expired are not looked at. */
  lemma LoadsExactlyWhen(verified: Receipt -> bool, d: Disk, now: int)
    ensures Loadable(verified, d, now) <==>
      && (forall id <- d.receipts :: GoodReceiptFile(verified, d, id, now))
      && (forall id <- d.pending :: GoodRequestFile(d, id, now))
  {
    forall id <- d.receipts ensures ReceiptLoads(verified, d, id, now) <==> GoodReceiptFile(verified, d, id, now) {
      LiveIsLasting(d, id, now);
      FileNameIsSafe(id);
    }
    forall id <- d.pending ensures PendingLoads(d, id, now) <==> GoodRequestFile(d, id, now) {
      LiveIsLasting(d, id, now);
      FileNameIsSafe(id);
    }
  }

  lemma FileNameIsSafe(id: string)
    ensures FileName(id) <==> id != "" && SafeId(id)
  {
  }

  /** After a load exactly the unexpired requests without a lasting receipt wait, as they are on file. */
  lemma LoadWaitsExactlyFor(d: Disk, names: seq<string>, now: int, id: string)
    ensures var waiting := MemFrom(d, names, now).pending;
      && (id in waiting <==>
            id in d.pending && d.pending[id].Whole? && now < d.pending[id].value.expiresAt && !Lasting(d, id, now))
      && (id in waiting ==> d.pending[id] == Whole(waiting[id]))
  {
    LiveIsLasting(d, id, now);
  }

  /** And every receipt it keeps is on file, lasting and genuine, whoever put it there. */
  lemma LoadKeepsOnlyGenuineReceipts(verified: Receipt -> bool, d: Disk, names: seq<string>, now: int, s: Subject)
    requires Loadable(verified, d, now) && Listing(names, d.receipts) && Key(s) in MemFrom(d, names, now).receipts
    ensures var r := MemFrom(d, names, now).receipts[Key(s)];
      && r.subject == s && verified(r) && Lasts(r, now) && (r.decision == "approve" || r.decision == "deny")
      && r.executionId in d.receipts && d.receipts[r.executionId] == Whole(r)
  {
    var j := KeptIsLast(d, names, now, s);
    LoadsExactlyWhen(verified, d, now);
    LiveIsLasting(d, names[j], now);
    assert GoodReceiptFile(verified, d, names[j], now);
  }

  /** So whatever the directory holds, what it makes RequestApproval grant is a verified approval of that very subject. */
  lemma LoadedGrantIsGenuine(verified: Receipt -> bool, d: Disk, names: seq<string>, now: int, files: Disk, c: Call)
    requires Loadable(verified, d, now) && Listing(names, d.receipts)
    requires Approves(Reply(files, MemFrom(d, names, now), c, now))
    ensures exists r: Receipt ::
              && Reply(files, MemFrom(d, names, now), c, now) == Ok(Decision(true, false, r.executionId, Some(r)))
              && verified(r) && Lasts(r, now) && r.decision == "approve" && r.subject == c.req.subject
  {
    AcceptableIsWellFormed(c.req);
    ReplyFollows(files, MemFrom(d, names, now), c, now);
    LoadKeepsOnlyGenuineReceipts(verified, d, names, now, c.req.subject);
  }
}
