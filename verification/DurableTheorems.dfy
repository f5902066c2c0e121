/**
  Durable approvals over every run: requests, receipts, clean-up, failed and partial writes,
  crashes at any point and reloads (internal/approval/durable.go).

  A step is what one critical section or one file operation does, so that calls of
  RequestApproval may interleave with everything else. A crash inside SubmitReceipt or
  Cleanup leaves the files that a failed write or removal leaves, and loses the maps: it is
  that failure followed by Crash.
 */
module DurableTheorems {
  import opened Wrappers
  import opened DurableApproval

  /**
    `inflight` holds requests persisted but not yet in the pending map. `issued` and `settled` are
    history: every request ever persisted whole, and the last receipt persisted whole for each ID.
   */
  datatype World = World(
    now: int, disk: Disk, mem: Option<Mem>, inflight: set<Pending>,
    issued: map<string, Pending>, settled: map<string, Receipt>)

  datatype Step =
    | Tick(now: int)
    | DropStale(subject: Subject)
    | Persist(req: Request, id: string, write: Write)
    | Insert(p: Pending)
    | Submit(r: Receipt, checkedAt: int, write: Write, removes: bool)
    | LapsePending(lapsed: string, removes: bool)
    | LapseReceipt(key: string, removes: bool)
    | Crash
    | Load(names: seq<string>)
    | LoadFails(gone: set<string>)

  const START := World(0, Disk(map[], map[]), None, {}, map[], map[])

  /** Execution IDs carry the clock and the request ID; they are taken to be new each time. */
  ghost predicate Unused(w: World, id: string) {
    id !in w.issued && id !in w.disk.pending && id !in w.disk.receipts
  }

  ghost predicate Enabled(verified: Receipt -> bool, w: World, s: Step) {
    match s
    case Tick(now) => w.now <= now
    case DropStale(_) => w.mem.Some?
    case Persist(req, id, _) => w.mem.Some? && Acceptable(req) && Unused(w, id) && id != "" && SafeId(id)
    case Insert(p) => w.mem.Some? && p in w.inflight
    case Submit(_, checkedAt, _, _) => w.mem.Some? && checkedAt <= w.now
    case LapsePending(id, _) =>
      w.mem.Some? && id in w.mem.value.pending && w.now > w.mem.value.pending[id].expiresAt
    case LapseReceipt(key, _) =>
      w.mem.Some? && key in w.mem.value.receipts && Expired(w.mem.value.receipts[key], w.now)
    case Crash => true
    case Load(names) =>
      w.mem.None? && Loadable(verified, w.disk, w.now) && DirectoryOrder(names, w.disk.receipts)
    case LoadFails(gone) => w.mem.None? && gone <= Leftover(w.disk, w.now)
  }

  predicate Lands(verified: Receipt -> bool, w: World, s: Step)
    requires s.Submit? && w.mem.Some?
  {
    && s.write == Complete && s.r.executionId in w.mem.value.pending
    && var (_, _, result) := Submitted(verified, w.disk, w.mem.value, s.r, s.checkedAt, s.write, s.removes);
       (result.Ok? || result == Err(RemoveFailed))
  }

  ghost function Next(verified: Receipt -> bool, w: World, s: Step): World
    requires Enabled(verified, w, s)
  {
    match s
    case Tick(now) => w.(now := now)
    case DropStale(subject) => w.(mem := Some(Dropped(w.mem.value, subject)))
    case Persist(req, id, write) =>
      var p := Pending(id, req.subject, w.now + HOUR);
      var w' := w.(disk := Persisted(w.disk, p, write));
      if write == Complete then w'.(inflight := w.inflight + {p}, issued := w.issued[id := p]) else w'
    case Insert(p) => w.(inflight := w.inflight - {p}, mem := Some(Inserted(w.mem.value, p)))
    case Submit(r, checkedAt, write, removes) =>
      var (d, m, _) := Submitted(verified, w.disk, w.mem.value, r, checkedAt, write, removes);
      w.(disk := d, mem := Some(m),
         settled := if Lands(verified, w, s) then w.settled[r.executionId := r] else w.settled)
    case LapsePending(id, removes) =>
      var (d, m) := PendingLapsed(w.disk, w.mem.value, id, removes);
      w.(disk := d, mem := Some(m))
    case LapseReceipt(key, removes) =>
      var (d, m) := ReceiptLapsed(w.disk, w.mem.value, key, removes);
      w.(disk := d, mem := Some(m))
    case Crash => w.(mem := None, inflight := {})
    case Load(names) =>
      w.(disk := w.disk.(pending := w.disk.pending - Leftover(w.disk, w.now)), mem := Some(MemFrom(w.disk, names, w.now)))
    case LoadFails(gone) => w.(disk := w.disk.(pending := w.disk.pending - gone))
  }

  ghost predicate Run(verified: Receipt -> bool, w: World, steps: seq<Step>, w': World)
    decreases |steps|
  {
    if steps == [] then w == w'
    else Enabled(verified, w, steps[0]) && Run(verified, Next(verified, w, steps[0]), steps[1..], w')
  }

  lemma {:induction false} Continue(verified: Receipt -> bool, w: World, steps: seq<Step>, mid: World, s: Step)
    requires Run(verified, w, steps, mid) && Enabled(verified, mid, s)
    ensures Run(verified, w, steps + [s], Next(verified, mid, s))
    decreases |steps|
  {
    if steps != [] {
      assert (steps + [s])[1..] == steps[1..] + [s];
      Continue(verified, Next(verified, w, steps[0]), steps[1..], mid, s);
    }
  }

  // ----- the invariant, one predicate for each pair of things that must agree -----

  ghost predicate IssuedValid(issued: map<string, Pending>) {
    forall id <- issued :: ValidPending(issued[id], id)
  }

  /** Whole request files hold what was issued. */
  ghost predicate RequestFilesGenuine(files: map<string, File<Pending>>, issued: map<string, Pending>) {
    forall id <- files :: files[id].Whole? ==> id in issued && files[id].value == issued[id]
  }

  /** Whole receipt files hold what was settled. */
  ghost predicate ReceiptFilesGenuine(files: map<string, File<Receipt>>, issued: map<string, Pending>,
      settled: map<string, Receipt>) {
    forall id <- files ::
      && id in issued
      && (files[id].Whole? ==> id in settled && files[id].value == settled[id])
  }

  /** A settled receipt was verified, decides, and answers the request issued under its ID. */
  ghost predicate SettledGenuine(verified: Receipt -> bool, issued: map<string, Pending>, settled: map<string, Receipt>) {
    forall id <- settled ::
      id in issued && Matches(settled[id], issued[id]) && verified(settled[id]) && Decided(settled[id])
  }

  ghost predicate InflightBacked(d: Disk, inflight: set<Pending>) {
    forall p <- inflight :: p.id in d.pending && d.pending[p.id] == Whole(p) && p.id !in d.receipts
  }

  ghost predicate PendingBacked(files: map<string, File<Pending>>, pending: map<string, Pending>) {
    forall id <- pending :: pending[id].id == id && id in files && files[id] == Whole(pending[id])
  }

  /** Every receipt in memory has its file. */
  ghost predicate ReceiptsOnDisk(files: map<string, File<Receipt>>, receipts: map<string, Receipt>) {
    forall k <- receipts :: receipts[k].executionId in files && files[receipts[k].executionId] == Whole(receipts[k])
  }

  ghost predicate ReceiptsBacked(receipts: map<string, Receipt>, settled: map<string, Receipt>) {
    forall k <- receipts ::
      k == Key(receipts[k].subject) && receipts[k].executionId in settled && settled[receipts[k].executionId] == receipts[k]
  }

  /** No ID is at once waiting, or about to wait, and settled in memory. */
  ghost predicate Separate(inflight: set<Pending>, m: Mem) {
    && (forall p <- inflight :: p.id !in m.pending)
    && (forall p <- inflight, k <- m.receipts :: m.receipts[k].executionId != p.id)
    && (forall k <- m.receipts :: m.receipts[k].executionId !in m.pending)
  }

  ghost predicate MapsBacked(d: Disk, m: Mem, inflight: set<Pending>, settled: map<string, Receipt>) {
    && PendingBacked(d.pending, m.pending) && ReceiptsBacked(m.receipts, settled)
    && ReceiptsOnDisk(d.receipts, m.receipts) && Separate(inflight, m)
  }

  /** Nothing issued is lost: its request file, or its receipt file, or one of the two has run out. */
  ghost predicate Accounted(now: int, d: Disk, p: Pending, settled: map<string, Receipt>) {
    || (p.id in d.pending && d.pending[p.id] == Whole(p))
    || (p.id in settled && p.id in d.receipts && d.receipts[p.id] == Whole(settled[p.id]))
    || now > p.expiresAt
    || (p.id in settled && Expired(settled[p.id], now))
  }

  ghost predicate AllAccounted(now: int, d: Disk, issued: map<string, Pending>, settled: map<string, Receipt>) {
    forall id <- issued :: Accounted(now, d, issued[id], settled)
  }

  ghost predicate Inv(verified: Receipt -> bool, w: World) {
    && w.now >= 0
    && IssuedValid(w.issued)
    && RequestFilesGenuine(w.disk.pending, w.issued)
    && ReceiptFilesGenuine(w.disk.receipts, w.issued, w.settled)
    && SettledGenuine(verified, w.issued, w.settled)
    && InflightBacked(w.disk, w.inflight)
    && (w.mem.None? ==> w.inflight == {})
    && (w.mem.Some? ==> MapsBacked(w.disk, w.mem.value, w.inflight, w.settled))
    && AllAccounted(w.now, w.disk, w.issued, w.settled)
  }

  // ----- each step keeps it -----

  lemma TickKeeps(verified: Receipt -> bool, w: World, now: int)
    requires Inv(verified, w) && w.now <= now
    ensures Inv(verified, Next(verified, w, Tick(now)))
  {
    forall id <- w.issued ensures Accounted(now, w.disk, w.issued[id], w.settled) {
      assert Accounted(w.now, w.disk, w.issued[id], w.settled);
    }
  }

  lemma DropStaleKeeps(verified: Receipt -> bool, w: World, subject: Subject)
    requires Inv(verified, w) && w.mem.Some?
    ensures Inv(verified, Next(verified, w, DropStale(subject)))
  {
  }

  lemma IssueKeepsFiles(verified: Receipt -> bool, d: Disk, issued: map<string, Pending>, settled: map<string, Receipt>,
      p: Pending)
    requires IssuedValid(issued) && RequestFilesGenuine(d.pending, issued) && ReceiptFilesGenuine(d.receipts, issued, settled)
    requires SettledGenuine(verified, issued, settled)
    requires p.id !in issued && ValidPending(p, p.id)
    ensures IssuedValid(issued[p.id := p]) && RequestFilesGenuine(d.pending[p.id := Whole(p)], issued[p.id := p])
    ensures ReceiptFilesGenuine(d.receipts, issued[p.id := p], settled)
    ensures SettledGenuine(verified, issued[p.id := p], settled)
  {
  }

  lemma IssueKeepsMaps(d: Disk, m: Mem, inflight: set<Pending>, settled: map<string, Receipt>, p: Pending)
    requires InflightBacked(d, inflight) && MapsBacked(d, m, inflight, settled)
    requires p.id !in d.pending && p.id !in d.receipts && p.id !in settled
    ensures InflightBacked(d.(pending := d.pending[p.id := Whole(p)]), inflight + {p})
    ensures MapsBacked(d.(pending := d.pending[p.id := Whole(p)]), m, inflight + {p}, settled)
  {
  }

  /** A request file cut short under a new name disturbs nothing. */
  lemma TornRequestKeeps(verified: Receipt -> bool, w: World, id: string, w': World)
    requires Inv(verified, w) && w.mem.Some? && Unused(w, id)
    requires w' == w.(disk := w.disk.(pending := w.disk.pending[id := Torn]))
    ensures Inv(verified, w')
  {
    forall i <- w.issued ensures Accounted(w.now, w'.disk, w.issued[i], w.settled) {
      assert Accounted(w.now, w.disk, w.issued[i], w.settled);
    }
  }

  /** A whole request file under a new name is issued, and in flight. */
  lemma IssueKeeps(verified: Receipt -> bool, w: World, p: Pending, w': World)
    requires Inv(verified, w) && w.mem.Some? && Unused(w, p.id) && ValidPending(p, p.id)
    requires w' == w.(disk := w.disk.(pending := w.disk.pending[p.id := Whole(p)]),
                      inflight := w.inflight + {p}, issued := w.issued[p.id := p])
    ensures Inv(verified, w')
  {
    assert p.id !in w.settled;
    IssueKeepsFiles(verified, w.disk, w.issued, w.settled, p);
    IssueKeepsMaps(w.disk, w.mem.value, w.inflight, w.settled, p);
    forall id <- w'.issued ensures Accounted(w.now, w'.disk, w'.issued[id], w.settled) {
      assert id != p.id ==> Accounted(w.now, w.disk, w.issued[id], w.settled);
    }
  }

  lemma PersistKeeps(verified: Receipt -> bool, w: World, s: Step)
    requires Inv(verified, w) && s.Persist? && Enabled(verified, w, s)
    ensures Inv(verified, Next(verified, w, s))
  {
    var w' := Next(verified, w, s);
    match s.write
    case Untouched =>
      assert w' == w;
    case Partial =>
      TornRequestKeeps(verified, w, s.id, w');
    case Complete =>
      IssueKeeps(verified, w, Pending(s.id, s.req.subject, w.now + HOUR), w');
  }

  lemma InsertKeeps(verified: Receipt -> bool, w: World, p: Pending)
    requires Inv(verified, w) && w.mem.Some? && p in w.inflight
    ensures Inv(verified, Next(verified, w, Insert(p)))
  {
    var w' := Next(verified, w, Insert(p));
    forall q <- w'.inflight ensures q.id != p.id {
      assert w.disk.pending[q.id] == Whole(q) && w.disk.pending[p.id] == Whole(p);
    }
  }

  lemma SettleKeepsFiles(verified: Receipt -> bool, files: map<string, File<Receipt>>, issued: map<string, Pending>,
      settled: map<string, Receipt>, r: Receipt)
    requires ReceiptFilesGenuine(files, issued, settled) && SettledGenuine(verified, issued, settled)
    requires r.executionId in issued && Matches(r, issued[r.executionId]) && verified(r) && Decided(r)
    ensures ReceiptFilesGenuine(files[r.executionId := Whole(r)], issued, settled[r.executionId := r])
    ensures SettledGenuine(verified, issued, settled[r.executionId := r])
  {
  }

  /** While a request file is on disk, whatever happens to the ID's receipt file loses nothing. */
  lemma WaitingStaysAccounted(now: int, d: Disk, issued: map<string, Pending>, settled: map<string, Receipt>,
      id: string, file: File<Receipt>, settled': map<string, Receipt>)
    requires AllAccounted(now, d, issued, settled) && IssuedValid(issued)
    requires id in issued && id in d.pending && d.pending[id] == Whole(issued[id])
    requires forall i <- settled :: i != id ==> i in settled' && settled'[i] == settled[i]
    ensures AllAccounted(now, d.(receipts := d.receipts[id := file]), issued, settled')
  {
    forall i <- issued ensures Accounted(now, d.(receipts := d.receipts[id := file]), issued[i], settled') {
      assert Accounted(now, d, issued[i], settled) && issued[i].id == i;
    }
  }

  /** Whatever becomes of the receipt file of a waiting request, the maps stay backed. */
  lemma ReceiptFileKeepsMaps(d: Disk, m: Mem, inflight: set<Pending>, settled: map<string, Receipt>,
      id: string, file: File<Receipt>, settled': map<string, Receipt>)
    requires InflightBacked(d, inflight) && MapsBacked(d, m, inflight, settled) && id in m.pending
    requires forall i <- settled :: i != id ==> i in settled' && settled'[i] == settled[i]
    ensures var d' := d.(receipts := d.receipts[id := file]);
      InflightBacked(d', inflight) && MapsBacked(d', m, inflight, settled')
  {
    assert forall p <- inflight :: p.id != id;
    assert forall k <- m.receipts :: m.receipts[k].executionId != id;
  }

  /** The receipt file of a waiting request is cut short. */
  lemma TornReceiptKeeps(verified: Receipt -> bool, w: World, id: string, w': World)
    requires Inv(verified, w) && w.mem.Some? && id in w.mem.value.pending
    requires w' == w.(disk := w.disk.(receipts := w.disk.receipts[id := Torn]))
    ensures Inv(verified, w')
  {
    var p := w.mem.value.pending[id];
    assert p.id == id && w.disk.pending[id] == Whole(p) && w.issued[id] == p;
    WaitingStaysAccounted(w.now, w.disk, w.issued, w.settled, id, Torn, w.settled);
    ReceiptFileKeepsMaps(w.disk, w.mem.value, w.inflight, w.settled, id, Torn, w.settled);
  }

  /** The receipt file of a waiting request is written whole. */
  lemma ReceiptWriteKeeps(verified: Receipt -> bool, w: World, r: Receipt, w': World)
    requires Inv(verified, w) && w.mem.Some? && r.executionId in w.mem.value.pending
    requires Matches(r, w.mem.value.pending[r.executionId]) && verified(r) && Decided(r)
    requires w' == w.(disk := w.disk.(receipts := w.disk.receipts[r.executionId := Whole(r)]),
                      settled := w.settled[r.executionId := r])
    ensures Inv(verified, w')
  {
    var m, id := w.mem.value, r.executionId;
    assert m.pending[id].id == id && w.disk.pending[id] == Whole(m.pending[id]) && w.issued[id] == m.pending[id];
    SettleKeepsFiles(verified, w.disk.receipts, w.issued, w.settled, r);
    WaitingStaysAccounted(w.now, w.disk, w.issued, w.settled, id, Whole(r), w'.settled);
    ReceiptFileKeepsMaps(w.disk, m, w.inflight, w.settled, id, Whole(r), w'.settled);
  }

  /** A request whose settled receipt is on disk leaves the waiting map for the receipts map. */
  lemma CompletionKeepsSeparate(m: Mem, inflight: set<Pending>, r: Receipt)
    requires Separate(inflight, m) && r.executionId in m.pending
    ensures Separate(inflight, Mem(m.pending - {r.executionId}, m.receipts[Key(r.subject) := r]))
  {
    assert forall p <- inflight :: p.id != r.executionId;
  }

  lemma CompletionKeepsBacked(d: Disk, m: Mem, inflight: set<Pending>, settled: map<string, Receipt>, r: Receipt)
    requires InflightBacked(d, inflight) && MapsBacked(d, m, inflight, settled)
    requires r.executionId in m.pending && r.executionId in settled && settled[r.executionId] == r
    ensures InflightBacked(d.(pending := d.pending - {r.executionId}), inflight)
    ensures PendingBacked(d.pending - {r.executionId}, m.pending - {r.executionId})
    ensures ReceiptsBacked(m.receipts[Key(r.subject) := r], settled)
  {
    assert forall p <- inflight :: p.id != r.executionId;
  }

  lemma CompletionKeeps(verified: Receipt -> bool, w: World, r: Receipt, w': World)
    requires Inv(verified, w) && w.mem.Some? && r.executionId in w.mem.value.pending
    requires r.executionId in w.settled && w.settled[r.executionId] == r
    requires r.executionId in w.disk.receipts && w.disk.receipts[r.executionId] == Whole(r)
    requires w' == w.(disk := w.disk.(pending := w.disk.pending - {r.executionId}),
                      mem := Some(Mem(w.mem.value.pending - {r.executionId}, w.mem.value.receipts[Key(r.subject) := r])))
    ensures Inv(verified, w')
  {
    CompletionKeepsBacked(w.disk, w.mem.value, w.inflight, w.settled, r);
    CompletionKeepsSeparate(w.mem.value, w.inflight, r);
    forall i <- w.issued ensures Accounted(w.now, w'.disk, w.issued[i], w.settled) {
      assert Accounted(w.now, w.disk, w.issued[i], w.settled);
    }
  }

  lemma SubmitKeeps(verified: Receipt -> bool, w: World, s: Step)
    requires Inv(verified, w) && s.Submit? && Enabled(verified, w, s)
    ensures Inv(verified, Next(verified, w, s))
  {
    var m, r, id := w.mem.value, s.r, s.r.executionId;
    var w' := Next(verified, w, s);
    if Expired(r, s.checkedAt) || !verified(r) || id !in m.pending || !Matches(r, m.pending[id]) || !Decided(r)
       || s.write == Untouched {
      assert w' == w;
    } else if s.write == Partial {
      TornReceiptKeeps(verified, w, id, w');
    } else {
      var mid := w.(disk := w.disk.(receipts := w.disk.receipts[id := Whole(r)]), settled := w.settled[id := r]);
      ReceiptWriteKeeps(verified, w, r, mid);
      if s.removes {
        CompletionKeeps(verified, mid, r, w');
      } else {
        assert w' == mid;
      }
    }
  }

  lemma LapsePendingKeeps(verified: Receipt -> bool, w: World, s: Step)
    requires Inv(verified, w) && s.LapsePending? && Enabled(verified, w, s)
    ensures Inv(verified, Next(verified, w, s))
  {
    var w' := Next(verified, w, s);
    forall i <- w'.issued ensures Accounted(w.now, w'.disk, w'.issued[i], w'.settled) {
      assert Accounted(w.now, w.disk, w.issued[i], w.settled);
    }
  }

  /** Two keys of one execution ID are one key, so the receipt file goes with the only entry it backs. */
  lemma LapseKeepsReceiptsOnDisk(files: map<string, File<Receipt>>, receipts: map<string, Receipt>,
      settled: map<string, Receipt>, key: string)
    requires ReceiptsOnDisk(files, receipts) && ReceiptsBacked(receipts, settled) && key in receipts
    ensures ReceiptsOnDisk(files - {receipts[key].executionId}, receipts - {key})
  {
  }

  lemma LapseKeepsAccounted(w: World, key: string)
    requires AllAccounted(w.now, w.disk, w.issued, w.settled) && IssuedValid(w.issued)
    requires w.mem.Some? && ReceiptsBacked(w.mem.value.receipts, w.settled)
    requires key in w.mem.value.receipts && Expired(w.mem.value.receipts[key], w.now)
    ensures AllAccounted(w.now, w.disk.(receipts := w.disk.receipts - {w.mem.value.receipts[key].executionId}), w.issued, w.settled)
  {
    var d := w.disk.(receipts := w.disk.receipts - {w.mem.value.receipts[key].executionId});
    forall i <- w.issued ensures Accounted(w.now, d, w.issued[i], w.settled) {
      assert Accounted(w.now, w.disk, w.issued[i], w.settled);
    }
  }

  lemma LapseReceiptKeeps(verified: Receipt -> bool, w: World, s: Step)
    requires Inv(verified, w) && s.LapseReceipt? && Enabled(verified, w, s)
    ensures Inv(verified, Next(verified, w, s))
  {
    LapseKeepsReceiptsOnDisk(w.disk.receipts, w.mem.value.receipts, w.settled, s.key);
    LapseKeepsAccounted(w, s.key);
  }

  lemma LoadKeeps(verified: Receipt -> bool, w: World, s: Step)
    requires Inv(verified, w) && s.Load? && Enabled(verified, w, s)
    ensures Inv(verified, Next(verified, w, s))
  {
    var w' := Next(verified, w, s);
    LoadedInAnyOrder(verified, w.disk, s.names, w.now);
    LoadedIsBacked(verified, w, w'.disk, w'.mem.value);
    LeftoversAccounted(w, Leftover(w.disk, w.now));
  }

  lemma LoadFailsKeeps(verified: Receipt -> bool, w: World, s: Step)
    requires Inv(verified, w) && s.LoadFails? && Enabled(verified, w, s)
    ensures Inv(verified, Next(verified, w, s))
  {
    LeftoversAccounted(w, s.gone);
  }

  /** The request files a load removes have their receipt files. */
  lemma LeftoversAccounted(w: World, gone: set<string>)
    requires AllAccounted(w.now, w.disk, w.issued, w.settled) && gone <= Leftover(w.disk, w.now)
    requires ReceiptFilesGenuine(w.disk.receipts, w.issued, w.settled) && IssuedValid(w.issued)
    ensures AllAccounted(w.now, w.disk.(pending := w.disk.pending - gone), w.issued, w.settled)
  {
    var w' := w.(disk := w.disk.(pending := w.disk.pending - gone));
    forall i <- w'.issued ensures Accounted(w.now, w'.disk, w'.issued[i], w'.settled) {
      assert Accounted(w.now, w.disk, w.issued[i], w.settled);
    }
  }

  lemma LoadedIsBacked(verified: Receipt -> bool, w: World, d: Disk, m: Mem)
    requires Inv(verified, w) && Loadable(verified, w.disk, w.now) && Loaded(w.disk, w.now, m)
    requires d == w.disk.(pending := w.disk.pending - Leftover(w.disk, w.now))
    ensures MapsBacked(d, m, {}, w.settled)
  {
  }

  lemma StepKeeps(verified: Receipt -> bool, w: World, s: Step)
    requires Inv(verified, w) && Enabled(verified, w, s)
    ensures Inv(verified, Next(verified, w, s))
  {
    match s
    case Tick(now) => TickKeeps(verified, w, now);
    case DropStale(subject) => DropStaleKeeps(verified, w, subject);
    case Persist(_, _, _) => PersistKeeps(verified, w, s);
    case Insert(p) => InsertKeeps(verified, w, p);
    case Submit(_, _, _, _) => SubmitKeeps(verified, w, s);
    case LapsePending(_, _) => LapsePendingKeeps(verified, w, s);
    case LapseReceipt(_, _) => LapseReceiptKeeps(verified, w, s);
    case Crash =>
    case Load(_) => LoadKeeps(verified, w, s);
    case LoadFails(_) => LoadFailsKeeps(verified, w, s);
  }

  lemma {:induction false} RunKeeps(verified: Receipt -> bool, w: World, steps: seq<Step>, w': World)
    requires Inv(verified, w) && Run(verified, w, steps, w')
    ensures Inv(verified, w')
    decreases |steps|
  {
    if steps != [] {
      StepKeeps(verified, w, steps[0]);
      RunKeeps(verified, Next(verified, w, steps[0]), steps[1..], w');
    }
  }

  // ----- main results -----

  /**
    A request that was issued stays accounted for through every later write failure, crash and
    reload: its file is on disk, or a verified receipt for exactly it is, or one of them has expired.
   */
  lemma {:induction false} IssuedRequestsAreNeverLost(verified: Receipt -> bool, steps: seq<Step>, w: World, id: string)
    requires Run(verified, START, steps, w) && id in w.issued
    ensures Accounted(w.now, w.disk, w.issued[id], w.settled)
    ensures id in w.settled ==> verified(w.settled[id]) && Matches(w.settled[id], w.issued[id])
  {
    RunKeeps(verified, START, steps, w);
  }

  /**
    After a reload, an execution ID waits in memory exactly when it has an unexpired request file and no
    unexpired receipt file; an ID with either is in exactly one of the two places, and its receipt file stays.
   */
  lemma {:induction false} ReloadPutsEveryIdInOnePlace(verified: Receipt -> bool, steps: seq<Step>, w: World, names: seq<string>, id: string)
    requires Run(verified, START, steps, w) && Enabled(verified, w, Load(names))
    ensures var w', m := Next(verified, w, Load(names)), MemFrom(w.disk, names, w.now);
      var waits, live := id in m.pending, Live(w'.disk, id, w.now);
      var requested := id in w.disk.pending && w.disk.pending[id].Whole? && w.now < w.disk.pending[id].value.expiresAt;
      && live == Live(w.disk, id, w.now)
      && (waits <==> requested && !live)
      && (requested || live ==> waits != live)
      && (waits ==> id in w.issued && m.pending[id] == w.issued[id])
      && (live ==> id !in w'.disk.pending && id in w.issued && Key(w.issued[id].subject) in m.receipts)
  {
    RunKeeps(verified, START, steps, w);
    LoadedInAnyOrder(verified, w.disk, names, w.now);
  }

  /** What these runs leave behind always loads, except when a write was cut short and left a torn file. */
  lemma {:induction false} LoadsUnlessTorn(verified: Receipt -> bool, steps: seq<Step>, w: World)
    requires Run(verified, START, steps, w)
    ensures Loadable(verified, w.disk, w.now) <==>
      && (forall id <- w.disk.pending :: w.disk.pending[id].Whole?)
      && (forall id <- w.disk.receipts :: w.disk.receipts[id].Whole?)
  {
    RunKeeps(verified, START, steps, w);
    var d := w.disk;
    if (forall id <- d.pending :: d.pending[id].Whole?) && (forall id <- d.receipts :: d.receipts[id].Whole?) {
      forall id <- d.receipts ensures ReceiptLoads(verified, d, id, w.now) {
        assert ValidPending(w.issued[id], id) && Matches(w.settled[id], w.issued[id]);
      }
      forall id <- d.pending ensures PendingLoads(d, id, w.now) {
        assert ValidPending(w.issued[id], id);
      }
    } else {
      assert forall id <- d.receipts :: ReceiptLoads(verified, d, id, w.now) ==> d.receipts[id].Whole?;
      assert forall id <- d.pending :: PendingLoads(d, id, w.now) ==> d.pending[id].Whole?;
    }
  }
}
