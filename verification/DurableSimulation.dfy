/**
  Each engine call is a run of the steps the theorems quantify over, so what holds of every run holds
  of every sequence of calls (internal/approval/durable.go).
 */
module DurableSimulation {
  import opened Wrappers
  import opened DurableApproval
  import opened DurableEngine
  import opened DurableTheorems

  /** The world with other files and maps. */
  function Became(w: World, d: Disk, m: Mem): World {
    w.(disk := d, mem := Some(m))
  }

  ghost predicate Reaches(verified: Receipt -> bool, w: World, d: Disk, m: Mem) {
    exists steps, w' :: Run(verified, w, steps, w') && w'.disk == d && w'.mem == Some(m) && w'.now == w.now
  }

  lemma {:induction false} ReachesBy(verified: Receipt -> bool, w: World, steps: seq<Step>, w': World)
    requires Run(verified, w, steps, w') && w'.mem.Some? && w'.now == w.now
    ensures Reaches(verified, w, w'.disk, w'.mem.value)
  {
  }

  lemma {:induction false} PersistThenInsert(verified: Receipt -> bool, w: World, mid: World, steps: seq<Step>, req: Request, execId: string, write: Write)
    requires Run(verified, w, steps, mid) && mid.now == w.now && Unused(mid, execId)
    requires mid.mem.Some? && Acceptable(req) && execId != "" && SafeId(execId)
    ensures var p := Pending(execId, req.subject, w.now + HOUR);
      Reaches(verified, w, Persisted(mid.disk, p, write), if write == Complete then Inserted(mid.mem.value, p) else mid.mem.value)
  {
    var p, persist := Pending(execId, req.subject, w.now + HOUR), Persist(req, execId, write);
    Continue(verified, w, steps, mid, persist);
    var w1 := Next(verified, mid, persist);
    if write == Complete {
      Continue(verified, w, steps + [persist], w1, Insert(p));
      ReachesBy(verified, w, steps + [persist] + [Insert(p)], Next(verified, w1, Insert(p)));
    } else {
      ReachesBy(verified, w, steps + [persist], w1);
    }
  }

  /** RequestApproval drops a stale receipt, writes its file and then enters the request, or does nothing. */
  lemma RequestIsARun(verified: Receipt -> bool, w: World, req: Request, execId: string, write: Write)
    requires w.mem.Some? && Unused(w, execId) && execId != "" && SafeId(execId)
    ensures var (d, m, _) := Requested(w.disk, w.mem.value, req, w.now, execId, write); Reaches(verified, w, d, m)
  {
    if !Acceptable(req) {
      ReachesBy(verified, w, [], w);
      return;
    }
    match Find(w.mem.value, req.subject, w.now)
    case Granted(_) => ReachesBy(verified, w, [], w);
    case Denied(_) => ReachesBy(verified, w, [], w);
    case Absent => PersistThenInsert(verified, w, w, [], req, execId, write);
    case Stale =>
      var drop := DropStale(req.subject);
      Continue(verified, w, [], w, drop);
      PersistThenInsert(verified, w, Next(verified, w, drop), [] + [drop], req, execId, write);
  }

  /** SubmitReceipt is one step. */
  lemma SubmitIsARun(verified: Receipt -> bool, w: World, r: Receipt, checkedAt: int, write: Write, removes: bool)
    requires w.mem.Some? && checkedAt <= w.now
    ensures var (d, m, _) := Submitted(verified, w.disk, w.mem.value, r, checkedAt, write, removes); Reaches(verified, w, d, m)
  {
    var s := Submit(r, checkedAt, write, removes);
    Continue(verified, w, [], w, s);
    ReachesBy(verified, w, [] + [s], Next(verified, w, s));
  }

  /** GetPendingRequest drops an expired request, or changes nothing. */
  lemma GetPendingIsARun(verified: Receipt -> bool, w: World, id: string, removes: bool)
    requires w.mem.Some?
    ensures var m := w.mem.value;
      var lapses := id in m.pending && w.now > m.pending[id].expiresAt;
      Reaches(verified, w,
        if lapses && removes then w.disk.(pending := w.disk.pending - {id}) else w.disk,
        if lapses then m.(pending := m.pending - {id}) else m)
  {
    var m, s := w.mem.value, LapsePending(id, removes);
    if id in m.pending && w.now > m.pending[id].expiresAt {
      Continue(verified, w, [], w, s);
      ReachesBy(verified, w, [] + [s], Next(verified, w, s));
    } else {
      ReachesBy(verified, w, [], w);
    }
  }

  /** NewDurableEngine over the directory's listing by name is one load. */
  lemma OpeningIsARun(verified: Receipt -> bool, w: World, names: seq<string>)
    requires w.mem.None? && Loadable(verified, w.disk, w.now) && DirectoryOrder(names, w.disk.receipts)
    ensures Reaches(verified, w, w.disk.(pending := w.disk.pending - Leftover(w.disk, w.now)), MemFrom(w.disk, names, w.now))
  {
    var s := Load(names);
    Continue(verified, w, [], w, s);
    ReachesBy(verified, w, [] + [s], Next(verified, w, s));
  }

  /** The pending loop of Cleanup with some IDs still to come. */
  function PendingSwept(w: World, removes: string -> bool, unseen: set<string>): World
    requires w.mem.Some?
  {
    var m := w.mem.value;
    Became(w, w.disk.(pending := w.disk.pending - LapsedFiles(m.pending, w.now, removes, unseen)),
           m.(pending := Kept(m.pending, w.now, unseen)))
  }

  lemma NoPendingSwept(w: World, removes: string -> bool)
    requires w.mem.Some?
    ensures PendingSwept(w, removes, w.mem.value.pending.Keys) == w
  {
    NothingLapsedYet(w.mem.value.pending, w.disk.pending, w.now, removes);
  }

  lemma {:induction false} PendingSweepIsARun(verified: Receipt -> bool, w: World, removes: string -> bool, unseen: set<string>)
      returns (steps: seq<Step>)
    requires w.mem.Some? && unseen <= w.mem.value.pending.Keys
    ensures Run(verified, w, steps, PendingSwept(w, removes, unseen))
    decreases |w.mem.value.pending.Keys - unseen|
  {
    var p := w.mem.value.pending;
    if p.Keys <= unseen {
      assert unseen == p.Keys;
      NoPendingSwept(w, removes);
      return [];
    }
    var id :| id in p.Keys && id !in unseen;
    assert p.Keys - (unseen + {id}) < p.Keys - unseen;
    SmallerSet(p.Keys - (unseen + {id}), p.Keys - unseen);
    steps := PendingSweepIsARun(verified, w, removes, unseen + {id});
    OneMoreLooked(p, w.disk.pending, w.now, removes, unseen + {id}, id);
    assert unseen + {id} - {id} == unseen;
    if w.now > p[id].expiresAt {
      var s := LapsePending(id, removes(id));
      Continue(verified, w, steps, PendingSwept(w, removes, unseen + {id}), s);
      steps := steps + [s];
    }
  }

  lemma SmallerSet(a: set<string>, b: set<string>)
    requires a < b
    ensures |a| < |b|
  {
    assert b == a + (b - a);
  }

  /** The receipt loop of Cleanup with some keys still to come. */
  function ReceiptsSwept(w: World, removes: string -> bool, unseen: set<string>): World
    requires w.mem.Some?
  {
    var m := w.mem.value;
    Became(w, w.disk.(receipts := w.disk.receipts - ExpiredFiles(m.receipts, w.now, removes, unseen)),
           m.(receipts := Unexpired(m.receipts, w.now, unseen)))
  }

  lemma NoReceiptSwept(w: World, removes: string -> bool)
    requires w.mem.Some?
    ensures ReceiptsSwept(w, removes, w.mem.value.receipts.Keys) == w
  {
    NothingExpiredYet(w.mem.value.receipts, w.disk.receipts, w.now, removes);
  }

  lemma {:induction false} ReceiptSweepIsARun(verified: Receipt -> bool, w0: World, before: seq<Step>, w: World,
      removes: string -> bool, unseen: set<string>) returns (steps: seq<Step>)
    requires Run(verified, w0, before, w) && w.mem.Some? && unseen <= w.mem.value.receipts.Keys
    ensures Run(verified, w0, steps, ReceiptsSwept(w, removes, unseen))
    decreases |w.mem.value.receipts.Keys - unseen|
  {
    var r := w.mem.value.receipts;
    if r.Keys <= unseen {
      assert unseen == r.Keys;
      NoReceiptSwept(w, removes);
      return before;
    }
    var k :| k in r.Keys && k !in unseen;
    assert r.Keys - (unseen + {k}) < r.Keys - unseen;
    SmallerSet(r.Keys - (unseen + {k}), r.Keys - unseen);
    steps := ReceiptSweepIsARun(verified, w0, before, w, removes, unseen + {k});
    OneMoreReceipt(r, w.disk.receipts, w.now, removes, unseen + {k}, k);
    assert unseen + {k} - {k} == unseen;
    if Expired(r[k], w.now) {
      var s := LapseReceipt(k, removes(r[k].executionId));
      Continue(verified, w0, steps, ReceiptsSwept(w, removes, unseen + {k}), s);
      steps := steps + [s];
    }
  }

  /** Cleanup drops the expired entries one after the other, each with its file where removal works. */
  lemma CleanupIsARun(verified: Receipt -> bool, w: World, removes: string -> bool)
    requires w.mem.Some?
    ensures var m := w.mem.value;
      Reaches(verified, w,
        Disk(w.disk.pending - LapsedFiles(m.pending, w.now, removes, {}),
             w.disk.receipts - ExpiredFiles(m.receipts, w.now, removes, {})),
        Mem(map id <- m.pending | w.now <= m.pending[id].expiresAt :: m.pending[id],
            map k <- m.receipts | !Expired(m.receipts[k], w.now) :: m.receipts[k]))
  {
    var m := w.mem.value;
    var steps := PendingSweepIsARun(verified, w, removes, {});
    var mid := PendingSwept(w, removes, {});
    steps := ReceiptSweepIsARun(verified, w, steps, mid, removes, {});
    ReachesBy(verified, w, steps, ReceiptsSwept(mid, removes, {}));
    assert Kept(m.pending, w.now, {}) == map id <- m.pending | w.now <= m.pending[id].expiresAt :: m.pending[id];
    assert Unexpired(m.receipts, w.now, {}) == map k <- m.receipts | !Expired(m.receipts[k], w.now) :: m.receipts[k];
  }
}
