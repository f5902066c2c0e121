/**
  The durable approval engine as it runs: maps and files updated in place
  (internal/approval/durable.go), each method proved against DurableApproval's steps.
 */
module DurableEngine {
  import opened Wrappers
  import opened DurableApproval

  /** The request files Cleanup removes: of the IDs looked at, those expired whose removal works. */
  function LapsedFiles(pending: map<string, Pending>, now: int, removes: string -> bool, unseen: set<string>): set<string> {
    set id <- pending | id !in unseen && now > pending[id].expiresAt && removes(id)
  }

  /** The map while some IDs have not been looked at. */
  function Kept(pending: map<string, Pending>, now: int, unseen: set<string>): map<string, Pending> {
    map id <- pending | id in unseen || now <= pending[id].expiresAt :: pending[id]
  }

  lemma NothingLapsedYet(pending: map<string, Pending>, files: map<string, File<Pending>>, now: int, removes: string -> bool)
    ensures Kept(pending, now, pending.Keys) == pending
    ensures files - LapsedFiles(pending, now, removes, pending.Keys) == files
  {
  }

  lemma OneMoreLooked(pending: map<string, Pending>, files: map<string, File<Pending>>, now: int, removes: string -> bool,
      unseen: set<string>, id: string)
    requires id in unseen && unseen <= pending.Keys
    ensures id in Kept(pending, now, unseen) && Kept(pending, now, unseen)[id] == pending[id]
    ensures Kept(pending, now, unseen - {id})
         == if now > pending[id].expiresAt then Kept(pending, now, unseen) - {id} else Kept(pending, now, unseen)
    ensures files - LapsedFiles(pending, now, removes, unseen - {id})
         == if now > pending[id].expiresAt && removes(id) then files - LapsedFiles(pending, now, removes, unseen) - {id}
            else files - LapsedFiles(pending, now, removes, unseen)
  {
    var before, after := LapsedFiles(pending, now, removes, unseen), LapsedFiles(pending, now, removes, unseen - {id});
    assert after == before + (if now > pending[id].expiresAt && removes(id) then {id} else {});
  }

  /** The receipt files Cleanup removes: of the keys looked at, those expired whose removal works. */
  function ExpiredFiles(receipts: map<string, Receipt>, now: int, removes: string -> bool, unseen: set<string>): set<string> {
    set k <- receipts | k !in unseen && Expired(receipts[k], now) && removes(receipts[k].executionId) :: receipts[k].executionId
  }

  function Unexpired(receipts: map<string, Receipt>, now: int, unseen: set<string>): map<string, Receipt> {
    map k <- receipts | k in unseen || !Expired(receipts[k], now) :: receipts[k]
  }

  lemma NothingExpiredYet(receipts: map<string, Receipt>, files: map<string, File<Receipt>>, now: int, removes: string -> bool)
    ensures Unexpired(receipts, now, receipts.Keys) == receipts
    ensures files - ExpiredFiles(receipts, now, removes, receipts.Keys) == files
  {
  }

  lemma OneMoreReceipt(receipts: map<string, Receipt>, files: map<string, File<Receipt>>, now: int, removes: string -> bool,
      unseen: set<string>, k: string)
    requires k in unseen && unseen <= receipts.Keys
    ensures k in Unexpired(receipts, now, unseen) && Unexpired(receipts, now, unseen)[k] == receipts[k]
    ensures Unexpired(receipts, now, unseen - {k})
         == if Expired(receipts[k], now) then Unexpired(receipts, now, unseen) - {k} else Unexpired(receipts, now, unseen)
    ensures files - ExpiredFiles(receipts, now, removes, unseen - {k})
         == if Expired(receipts[k], now) && removes(receipts[k].executionId)
            then files - ExpiredFiles(receipts, now, removes, unseen) - {receipts[k].executionId}
            else files - ExpiredFiles(receipts, now, removes, unseen)
  {
    var before, after := ExpiredFiles(receipts, now, removes, unseen), ExpiredFiles(receipts, now, removes, unseen - {k});
    assert after == before
      + (if Expired(receipts[k], now) && removes(receipts[k].executionId) then {receipts[k].executionId} else {});
  }

  class StateDir {
    var pending: map<string, File<Pending>>
    var receipts: map<string, File<Receipt>>

    constructor ()
      ensures View() == Disk(map[], map[])
    {
      pending, receipts := map[], map[];
    }

    function View(): Disk
      reads this
    {
      Disk(pending, receipts)
    }
  }

  class Engine {
    const verified: Receipt -> bool
    const dir: StateDir
    var pending: map<string, Pending>
    var receipts: map<string, Receipt>

    function View(): Mem
      reads this
    {
      Mem(pending, receipts)
    }

    constructor (verified: Receipt -> bool, dir: StateDir)
      ensures this.verified == verified && this.dir == dir && View() == Mem(map[], map[])
    {
      this.verified, this.dir := verified, dir;
      pending, receipts := map[], map[];
    }

    /** RequestApproval; `execId` is the fresh execution ID it makes from the clock and the request ID. */
    method RequestApproval(req: Request, now: int, execId: string, write: Write) returns (r: Result<Decision, Error>)
      modifies this, dir`pending
      ensures (dir.View(), View(), r) == Requested(old(dir.View()), old(View()), req, now, execId, write)
    {
      if !Acceptable(req) {
        return Err(BadRequest);
      }
      var key := Key(req.subject);
      if key in receipts {
        var rec := receipts[key];
        if Expired(rec, now) {
          receipts := receipts - {key};
        } else if rec.decision == "approve" {
          return Ok(Decision(true, false, rec.executionId, Some(rec)));
        } else {
          return Ok(Decision(false, false, rec.executionId, None));
        }
      }
      var p := Pending(execId, req.subject, now + HOUR);
      dir.pending := Written(dir.pending, execId, p, write);
      if write != Complete {
        return Err(PersistFailed);
      }
      pending := pending[execId := p];
      return Ok(Decision(false, true, execId, None));
    }

    method SubmitReceipt(rec: Receipt, checkedAt: int, write: Write, removes: bool) returns (r: Result<Decision, Error>)
      modifies this, dir
      ensures (dir.View(), View(), r) == Submitted(verified, old(dir.View()), old(View()), rec, checkedAt, write, removes)
    {
      var id, key := rec.executionId, Key(rec.subject);
      if Expired(rec, checkedAt) {
        return Err(ReceiptExpired);
      }
      if !verified(rec) {
        return Err(Unverified);
      }
      if id !in pending {
        if key in receipts {
          return Ok(Answer(receipts[key]));
        }
        return Err(UnknownId);
      }
      if !Matches(rec, pending[id]) {
        return Err(Mismatch);
      }
      if !Decided(rec) {
        return Err(BadDecision);
      }
      dir.receipts := Written(dir.receipts, id, rec, write);
      if write != Complete {
        return Err(PersistFailed);
      }
      if !removes {
        return Err(RemoveFailed);
      }
      dir.pending := dir.pending - {id};
      pending := pending - {id};
      receipts := receipts[key := rec];
      return Ok(Answer(rec));
    }

    /** GetPendingRequest: an expired request is dropped from the map whether or not its file goes. */
    method GetPendingRequest(id: string, now: int, removes: bool) returns (p: Option<Pending>)
      modifies this`pending, dir`pending
      ensures p == if id in old(pending) && now <= old(pending)[id].expiresAt then Some(old(pending)[id]) else None
      ensures receipts == old(receipts) && dir.receipts == old(dir.receipts)
      ensures pending == (if p.None? then old(pending) - {id} else old(pending))
      ensures dir.pending == (if id in old(pending) && p.None? && removes then old(dir.pending) - {id} else old(dir.pending))
    {
      if id !in pending {
        return None;
      }
      var found := pending[id];
      if now > found.expiresAt {
        pending := pending - {id};
        if removes {
          dir.pending := dir.pending - {id};
        }
        return None;
      }
      return Some(found);
    }

    /** Cleanup: every expired entry leaves its map; its file goes when the removal works. */
    method Cleanup(now: int, removes: string -> bool)
      modifies this, dir
      ensures pending == map id <- old(pending) | now <= old(pending)[id].expiresAt :: old(pending)[id]
      ensures receipts == map k <- old(receipts) | !Expired(old(receipts)[k], now) :: old(receipts)[k]
      ensures dir.pending == old(dir.pending) - LapsedFiles(old(pending), now, removes, {})
      ensures dir.receipts == old(dir.receipts) - ExpiredFiles(old(receipts), now, removes, {})
    {
      CleanupPending(now, removes);
      CleanupReceipts(now, removes);
    }

    method CleanupPending(now: int, removes: string -> bool)
      modifies this`pending, dir`pending
      ensures pending == map id <- old(pending) | now <= old(pending)[id].expiresAt :: old(pending)[id]
      ensures dir.pending == old(dir.pending) - LapsedFiles(old(pending), now, removes, {})
    {
      var ids := pending.Keys;
      ghost var p, files := pending, dir.pending;
      NothingLapsedYet(p, files, now, removes);
      while ids != {}
        invariant ids <= p.Keys
        invariant pending == Kept(p, now, ids)
        invariant dir.pending == files - LapsedFiles(p, now, removes, ids)
        decreases |ids|
      {
        var id :| id in ids;
        OneMoreLooked(p, files, now, removes, ids, id);
        ids := ids - {id};
        if now > pending[id].expiresAt {
          pending := pending - {id};
          if removes(id) {
            dir.pending := dir.pending - {id};
          }
        }
      }
    }

    method CleanupReceipts(now: int, removes: string -> bool)
      modifies this`receipts, dir`receipts
      ensures receipts == map k <- old(receipts) | !Expired(old(receipts)[k], now) :: old(receipts)[k]
      ensures dir.receipts == old(dir.receipts) - ExpiredFiles(old(receipts), now, removes, {})
    {
      var keys := receipts.Keys;
      ghost var r, files := receipts, dir.receipts;
      NothingExpiredYet(r, files, now, removes);
      while keys != {}
        invariant keys <= r.Keys
        invariant receipts == Unexpired(r, now, keys)
        invariant dir.receipts == files - ExpiredFiles(r, now, removes, keys)
        decreases |keys|
      {
        var k :| k in keys;
        OneMoreReceipt(r, files, now, removes, keys, k);
        keys := keys - {k};
        var rec := receipts[k];
        if Expired(rec, now) {
          receipts := receipts - {k};
          if removes(rec.executionId) {
            dir.receipts := dir.receipts - {rec.executionId};
          }
        }
      }
    }
  }

  // ----- loading -----

  /** The receipt loop of loadState, over the names in the order given. */
  method LoadReceipts(verified: Receipt -> bool, dir: StateDir, names: seq<string>, now: int)
      returns (ok: bool, receipts: map<string, Receipt>, completed: map<string, Receipt>)
    requires forall id :: id in names <==> id in dir.receipts
    ensures ok <==> forall id <- dir.receipts :: ReceiptLoads(verified, dir.View(), id, now)
    ensures ok ==> receipts == ReceiptsFrom(dir.View(), names, now)
    ensures ok ==> forall id :: id in completed <==> Live(dir.View(), id, now)
    ensures ok ==> forall id <- completed :: id in dir.receipts && dir.receipts[id] == Whole(completed[id])
  {
    receipts, completed := map[], map[];
    var d := dir.View();
    for i := 0 to |names|
      invariant forall j :: 0 <= j < i ==> ReceiptLoads(verified, d, names[j], now)
      invariant receipts == ReceiptsFrom(d, names[..i], now)
      invariant forall j :: 0 <= j < i && Live(d, names[j], now) ==> names[j] in completed
      invariant forall id <- completed :: Live(d, id, now) && d.receipts[id] == Whole(completed[id])
    {
      var id := names[i];
      assert id in d.receipts && names[..i + 1][..i] == names[..i];
      var file := dir.receipts[id];
      if file.Torn? {
        return false, receipts, completed;
      }
      var rec := file.value;
      if !Expired(rec, now) {
        if !ValidReceipt(verified, rec, id) {
          return false, receipts, completed;
        }
        receipts := receipts[Key(rec.subject) := rec];
        completed := completed[id := rec];
      }
    }
    assert names[..|names|] == names;
    return true, receipts, completed;
  }

  /** One step of the pending loop: the file is bad, left over and removed, waiting, or expired. */
  method LoadOne(dir: StateDir, id: string, completed: map<string, Receipt>, now: int, removes: bool)
      returns (ok: bool, waits: Option<Pending>)
    requires id in dir.pending
    requires id in completed <==> Live(dir.View(), id, now)
    requires id in completed ==> id in dir.receipts && dir.receipts[id] == Whole(completed[id])
    modifies dir`pending
    ensures ok <==> PendingLoads(old(dir.View()), id, now) && (Live(old(dir.View()), id, now) ==> removes)
    ensures dir.pending == if ok && id in completed then old(dir.pending) - {id} else old(dir.pending)
    ensures ok ==> (waits.Some? <==> Waiting(old(dir.View()), id, now))
    ensures ok && waits.Some? ==> old(dir.pending)[id] == Whole(waits.value)
  {
    var file := dir.pending[id];
    if file.Torn? || !ValidPending(file.value, id) {
      return false, None;
    }
    if id in completed {
      if !Matches(completed[id], file.value) || !removes {
        return false, None;
      }
      dir.pending := dir.pending - {id};
      return true, None;
    }
    return true, if now < file.value.expiresAt then Some(file.value) else None;
  }

  /** The pending loop of loadState; leftovers of completed approvals are removed as they are met. */
  method LoadPending(dir: StateDir, names: seq<string>, completed: map<string, Receipt>, now: int, removes: string -> bool)
      returns (ok: bool, pending: map<string, Pending>)
    requires forall id :: id in names <==> id in dir.pending
    requires forall i, j :: 0 <= i < j < |names| ==> names[i] != names[j]
    requires forall id :: id in completed <==> Live(dir.View(), id, now)
    requires forall id <- completed :: id in dir.receipts && dir.receipts[id] == Whole(completed[id])
    modifies dir`pending
    ensures var d := old(dir.View());
      && (ok <==> forall id <- d.pending :: Admitted(d, id, now, removes))
      && (ok ==> dir.pending == d.pending - Leftover(d, now))
      && (ok ==> forall id :: id in pending <==> Waiting(d, id, now))
      && (ok ==> forall id <- pending :: d.pending[id] == Whole(pending[id]))
      && (exists gone: set<string> :: gone <= Leftover(d, now) && dir.pending == d.pending - gone)
  {
    pending := map[];
    ghost var d := dir.View();
    ghost var gone: set<string> := {};
    for i := 0 to |names|
      invariant dir.pending == d.pending - gone && dir.receipts == d.receipts
      invariant RemovedSoFar(d, names, i, now, gone)
      invariant forall j {:trigger Admitted(d, names[j], now, removes)} :: 0 <= j < i ==> Admitted(d, names[j], now, removes)
      invariant WaitingSoFar(d, names, i, now, pending)
    {
      var id := names[i];
      assert id in d.pending && id !in gone;
      SameFile(d, dir.View(), id, now);
      var loaded, waits := LoadOne(dir, id, completed, now, removes(id));
      assert loaded <==> Admitted(d, id, now, removes);
      if !loaded {
        return false, pending;
      }
      RemovedOneMore(d, names, i, now, gone);
      WaitingOneMore(d, names, i, now, pending, waits);
      if id in completed {
        MinusTwice(d.pending, gone, id);
        gone := gone + {id};
      }
      if waits.Some? {
        pending := pending[id := waits.value];
      }
    }
    AllRemoved(d, names, now, gone);
    return true, pending;
  }

  /** The first n names' leftovers, and nothing else, are gone. */
  ghost predicate RemovedSoFar(d: Disk, names: seq<string>, n: nat, now: int, gone: set<string>)
    requires n <= |names|
  {
    && gone <= Leftover(d, now)
    && (forall j :: n <= j < |names| ==> names[j] !in gone)
    && (forall j :: 0 <= j < n && names[j] in Leftover(d, now) ==> names[j] in gone)
  }

  /** The map holds the waiting requests among the first n names. */
  ghost predicate WaitingSoFar(d: Disk, names: seq<string>, n: nat, now: int, pending: map<string, Pending>)
    requires n <= |names|
  {
    && (forall id <- pending :: Waiting(d, id, now) && d.pending[id] == Whole(pending[id]))
    && (forall j :: 0 <= j < n && Waiting(d, names[j], now) ==> names[j] in pending)
  }

  lemma RemovedOneMore(d: Disk, names: seq<string>, n: nat, now: int, gone: set<string>)
    requires n < |names| && RemovedSoFar(d, names, n, now, gone) && names[n] in d.pending
    requires forall i, j :: 0 <= i < j < |names| ==> names[i] != names[j]
    ensures RemovedSoFar(d, names, n + 1, now, if Live(d, names[n], now) then gone + {names[n]} else gone)
  {
  }

  lemma WaitingOneMore(d: Disk, names: seq<string>, n: nat, now: int, pending: map<string, Pending>, waits: Option<Pending>)
    requires n < |names| && WaitingSoFar(d, names, n, now, pending)
    requires waits.Some? <==> Waiting(d, names[n], now)
    requires waits.Some? ==> d.pending[names[n]] == Whole(waits.value)
    ensures WaitingSoFar(d, names, n + 1, now, if waits.Some? then pending[names[n] := waits.value] else pending)
  {
  }

  lemma MinusTwice(m: map<string, File<Pending>>, gone: set<string>, id: string)
    ensures m - gone - {id} == m - (gone + {id})
  {
  }

  lemma AllRemoved(d: Disk, names: seq<string>, now: int, gone: set<string>)
    requires RemovedSoFar(d, names, |names|, now, gone) && forall id :: id in names <==> id in d.pending
    ensures gone == Leftover(d, now)
  {
  }

  ghost predicate Admitted(d: Disk, id: string, now: int, removes: string -> bool)
    requires id in d.pending
  {
    PendingLoads(d, id, now) && (Live(d, id, now) ==> removes(id))
  }

  /** What a directory says of one ID depends on that ID's two files alone. */
  lemma SameFile(d: Disk, d': Disk, id: string, now: int)
    requires d'.receipts == d.receipts && id in d.pending && id in d'.pending && d.pending[id] == d'.pending[id]
    ensures PendingLoads(d', id, now) == PendingLoads(d, id, now)
    ensures Waiting(d', id, now) == Waiting(d, id, now) && Live(d', id, now) == Live(d, id, now)
  {
  }

  /** NewDurableEngine: the state is read whole or the engine is not built. */
  method NewDurableEngine(verified: Receipt -> bool, dir: StateDir, receiptNames: seq<string>, pendingNames: seq<string>,
      now: int, removes: string -> bool) returns (e: Engine?)
    requires forall id :: id in receiptNames <==> id in dir.receipts
    requires forall id :: id in pendingNames <==> id in dir.pending
    requires forall i, j :: 0 <= i < j < |pendingNames| ==> pendingNames[i] != pendingNames[j]
    modifies dir`pending
    ensures var d := old(dir.View());
      && (e != null <==> Loadable(verified, d, now) && forall id <- Leftover(d, now) :: removes(id))
      && (e != null ==> fresh(e) && e.dir == dir && e.verified == verified && e.View() == MemFrom(d, receiptNames, now))
      && (e != null ==> dir.View() == d.(pending := d.pending - Leftover(d, now)))
      && (exists gone: set<string> :: gone <= Leftover(d, now) && dir.View() == d.(pending := d.pending - gone))
  {
    ghost var d := dir.View();
    assert d.pending - {} == d.pending;
    var ok, receipts, completed := LoadReceipts(verified, dir, receiptNames, now);
    if !ok {
      return null;
    }
    var pending;
    ok, pending := LoadPending(dir, pendingNames, completed, now, removes);
    if !ok {
      return null;
    }
    e := new Engine(verified, dir);
    e.pending, e.receipts := pending, receipts;
  }
}
