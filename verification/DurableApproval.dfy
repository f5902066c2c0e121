/**
  Durable approvals: the engine's maps, the state directory, and loading one from the other
  (internal/approval/durable.go).

  The engine has a state directory and no interactive approver. `verified` is the Ed25519 check
  of a receipt against the configured key. Times are nanoseconds; receipt expiries are Unix seconds.
 */
module DurableApproval {
  import opened Wrappers
  import opened Framing

  // ----- values -----

  datatype Subject = Subject(server: string, tool: string, sessionId: string, agentId: string)

  datatype Request = Request(id: string, subject: Subject)

  datatype Pending = Pending(id: string, subject: Subject, expiresAt: int)

  datatype Receipt = Receipt(executionId: string, subject: Subject, decision: string, expiry: int, body: string)

  /** A state file: complete JSON, or the strict prefix an interrupted write leaves. */
  datatype File<T> = Whole(value: T) | Torn

  /** What one os.WriteFile did: everything, part of the file, or nothing (the open failed). */
  datatype Write = Complete | Partial | Untouched

  /** The state directory, its pending- and receipt- files keyed by the ID in their names. */
  datatype Disk = Disk(pending: map<string, File<Pending>>, receipts: map<string, File<Receipt>>)

  /** The engine's maps: pending by execution ID, receipts by request key. */
  datatype Mem = Mem(pending: map<string, Pending>, receipts: map<string, Receipt>)

  const HOUR := 3_600_000_000_000

  predicate Expired(r: Receipt, now: int) {
    now / 1_000_000_000 > r.expiry
  }

  predicate Complete4(s: Subject) {
    s.server != "" && s.tool != "" && s.sessionId != "" && s.agentId != ""
  }

  predicate SafeId(id: string) {
    '\0' !in id && '/' !in id && '\\' !in id && id != "." && id != ".."
  }

  predicate Decided(r: Receipt) {
    r.decision == "approve" || r.decision == "deny"
  }

  predicate Matches(r: Receipt, p: Pending) {
    r.executionId == p.id && r.subject == p.subject
  }

  // ----- the request key -----

  /** hashRequest's "%d:%s:%d:%s:%d:%s:%d:%s". */
  function Key(s: Subject): string {
    DecimalField(s.server) + (":" + (DecimalField(s.tool) + (":" +
      (DecimalField(s.sessionId) + (":" + DecimalField(s.agentId))))))
  }

  /** Two subjects with the same key are the same subject, whatever colons or digits they contain. */
  lemma KeyInjective(a: Subject, b: Subject)
    requires Key(a) == Key(b)
    ensures a == b
  {
    var a1, b1 := ":" + DecimalField(a.agentId), ":" + DecimalField(b.agentId);
    var a2, b2 := ":" + (DecimalField(a.sessionId) + a1), ":" + (DecimalField(b.sessionId) + b1);
    var a3, b3 := ":" + (DecimalField(a.tool) + a2), ":" + (DecimalField(b.tool) + b2);
    DecimalFieldReadBack(a.server, b.server, a3, b3);
    assert a3[1..] == DecimalField(a.tool) + a2 && b3[1..] == DecimalField(b.tool) + b2;
    DecimalFieldReadBack(a.tool, b.tool, a2, b2);
    assert a2[1..] == DecimalField(a.sessionId) + a1 && b2[1..] == DecimalField(b.sessionId) + b1;
    DecimalFieldReadBack(a.sessionId, b.sessionId, a1, b1);
    assert a1[1..] == DecimalField(a.agentId) + "" && b1[1..] == DecimalField(b.agentId) + "";
    DecimalFieldReadBack(a.agentId, b.agentId, "", "");
  }

  // ----- the operations as steps on values -----

  datatype Error = BadRequest | PersistFailed | ReceiptExpired | Unverified | UnknownId | Mismatch | BadDecision | RemoveFailed

  datatype Decision = Decision(approved: bool, requiresApproval: bool, executionId: string, receipt: Option<Receipt>)

  datatype Found = Granted(receipt: Receipt) | Denied(receipt: Receipt) | Stale | Absent

  predicate Acceptable(req: Request) {
    Complete4(req.subject) && SafeId(req.id)
  }

  /** What RequestApproval finds in the receipts map. */
  function Find(m: Mem, s: Subject, now: int): Found {
    if Key(s) !in m.receipts then Absent
    else
      var r := m.receipts[Key(s)];
      if Expired(r, now) then Stale else if r.decision == "approve" then Granted(r) else Denied(r)
  }

  function Dropped(m: Mem, s: Subject): Mem {
    m.(receipts := m.receipts - {Key(s)})
  }

  function Written<T>(files: map<string, File<T>>, id: string, v: T, write: Write): map<string, File<T>> {
    match write
    case Complete => files[id := Whole(v)]
    case Partial => files[id := Torn]
    case Untouched => files
  }

  function Persisted(d: Disk, p: Pending, write: Write): Disk {
    d.(pending := Written(d.pending, p.id, p, write))
  }

  function Inserted(m: Mem, p: Pending): Mem {
    m.(pending := m.pending[p.id := p])
  }

  function Answer(r: Receipt): Decision {
    Decision(r.decision == "approve", false, r.executionId, Some(r))
  }

  /** RequestApproval, whose pending request carries the execution ID made for it. */
  function Requested(d: Disk, m: Mem, req: Request, now: int, execId: string, write: Write)
      : (Disk, Mem, Result<Decision, Error>) {
    var p := Pending(execId, req.subject, now + HOUR);
    var found := Find(m, req.subject, now);
    var m1 := if found.Stale? then Dropped(m, req.subject) else m;
    if !Acceptable(req) then (d, m, Err(BadRequest))
    else match found
      case Granted(rec) => (d, m, Ok(Decision(true, false, rec.executionId, Some(rec))))
      case Denied(rec) => (d, m, Ok(Decision(false, false, rec.executionId, None)))
      case _ =>
        if write == Complete then (Persisted(d, p, write), Inserted(m1, p), Ok(Decision(false, true, execId, None)))
        else (Persisted(d, p, write), m1, Err(PersistFailed))
  }

  /** SubmitReceipt of a receipt that decoded: the expiry is read before the lock is taken. */
  function Submitted(verified: Receipt -> bool, d: Disk, m: Mem, r: Receipt, checkedAt: int, write: Write, removes: bool)
      : (Disk, Mem, Result<Decision, Error>) {
    var id := r.executionId;
    if Expired(r, checkedAt) then (d, m, Err(ReceiptExpired))
    else if !verified(r) then (d, m, Err(Unverified))
    else if id !in m.pending then
      (d, m, if Key(r.subject) in m.receipts then Ok(Answer(m.receipts[Key(r.subject)])) else Err(UnknownId))
    else if !Matches(r, m.pending[id]) then (d, m, Err(Mismatch))
    else if !Decided(r) then (d, m, Err(BadDecision))
    else
      var d1 := d.(receipts := Written(d.receipts, id, r, write));
      if write != Complete then (d1, m, Err(PersistFailed))
      else if !removes then (d1, m, Err(RemoveFailed))
      else
        (d1.(pending := d1.pending - {id}),
         Mem(m.pending - {id}, m.receipts[Key(r.subject) := r]), Ok(Answer(r)))
  }

  /** Dropping one expired pending request, by GetPendingRequest or by Cleanup. */
  function PendingLapsed(d: Disk, m: Mem, id: string, removes: bool): (Disk, Mem) {
    (if removes then d.(pending := d.pending - {id}) else d, m.(pending := m.pending - {id}))
  }

  /** Cleanup dropping one expired receipt. */
  function ReceiptLapsed(d: Disk, m: Mem, key: string, removes: bool): (Disk, Mem)
    requires key in m.receipts
  {
    (if removes then d.(receipts := d.receipts - {m.receipts[key].executionId}) else d,
     m.(receipts := m.receipts - {key}))
  }

  // ----- what loading must and does accept -----

  predicate Live(d: Disk, id: string, now: int) {
    id in d.receipts && d.receipts[id].Whole? && !Expired(d.receipts[id].value, now)
  }

  predicate ValidReceipt(verified: Receipt -> bool, r: Receipt, id: string) {
    && verified(r) && r.executionId != "" && Complete4(r.subject)
    && SafeId(r.executionId) && Decided(r) && r.executionId == id
  }

  /** Go's zero time, 1 January of year 1, which an absent expires_at decodes to. */
  const ZERO_TIME := -62_135_596_800_000_000_000

  predicate ValidPending(p: Pending, id: string) {
    p.id != "" && Complete4(p.subject) && p.expiresAt != ZERO_TIME && SafeId(p.id) && p.id == id
  }

  predicate ReceiptLoads(verified: Receipt -> bool, d: Disk, id: string, now: int)
    requires id in d.receipts
  {
    d.receipts[id].Whole? && (Live(d, id, now) ==> ValidReceipt(verified, d.receipts[id].value, id))
  }

  predicate PendingLoads(d: Disk, id: string, now: int)
    requires id in d.pending
  {
    && d.pending[id].Whole? && ValidPending(d.pending[id].value, id)
    && (Live(d, id, now) ==> Matches(d.receipts[id].value, d.pending[id].value))
  }

  predicate Loadable(verified: Receipt -> bool, d: Disk, now: int) {
    && (forall id <- d.receipts :: ReceiptLoads(verified, d, id, now))
    && (forall id <- d.pending :: PendingLoads(d, id, now))
  }

  /** The execution IDs whose pending file is left over from a completed approval. */
  function Leftover(d: Disk, now: int): set<string> {
    set id <- d.pending | Live(d, id, now)
  }

  predicate Waiting(d: Disk, id: string, now: int) {
    id in d.pending && d.pending[id].Whole? && now < d.pending[id].value.expiresAt && !Live(d, id, now)
  }

  /** The receipt loop: reads the files in the order given, a later one taking the place of an earlier one. */
  function ReceiptsFrom(d: Disk, names: seq<string>, now: int): map<string, Receipt> {
    if names == [] then map[]
    else
      var n := |names| - 1;
      var earlier := ReceiptsFrom(d, names[..n], now);
      if Live(d, names[n], now) then
        earlier[Key(d.receipts[names[n]].value.subject) := d.receipts[names[n]].value]
      else earlier
  }

  /** The maps a load builds when the receipt files are read in the order of `names`. */
  function MemFrom(d: Disk, names: seq<string>, now: int): Mem {
    Mem(map id <- d.pending | Waiting(d, id, now) :: d.pending[id].value, ReceiptsFrom(d, names, now))
  }

  /** Every file, once, in some order. */
  ghost predicate Listing<T>(names: seq<string>, files: map<string, T>) {
    && (forall id :: id in names <==> id in files)
    && (forall i, j :: 0 <= i < j < |names| ==> names[i] != names[j])
  }

  function NameOf(id: string): string {
    "receipt-" + id + ".json"
  }

  /** Go's order on strings: byte by byte, a proper prefix first. */
  predicate Before(a: string, b: string) {
    b != [] && (a == [] || a[0] < b[0] || (a[0] == b[0] && Before(a[1..], b[1..])))
  }

  /** The listing os.ReadDir returns: by file name. */
  ghost predicate DirectoryOrder<T>(names: seq<string>, files: map<string, T>) {
    Listing(names, files) && forall i, j :: 0 <= i < j < |names| ==> Before(NameOf(names[i]), NameOf(names[j]))
  }

  /** What holds of the maps a successful load builds, whatever the order. */
  ghost predicate Loaded(d: Disk, now: int, m: Mem) {
    && (forall id :: id in m.pending <==> Waiting(d, id, now))
    && (forall id <- m.pending :: d.pending[id] == Whole(m.pending[id]))
    && (forall k <- m.receipts :: FromFile(d, now, k, m.receipts[k]))
    && (forall id <- d.receipts :: Live(d, id, now) ==> Key(d.receipts[id].value.subject) in m.receipts)
  }

  predicate FromFile(d: Disk, now: int, key: string, r: Receipt) {
    && key == Key(r.subject) && Live(d, r.executionId, now)
    && d.receipts[r.executionId] == Whole(r)
  }

  predicate LiveAt(d: Disk, id: string, now: int, key: string) {
    Live(d, id, now) && Key(d.receipts[id].value.subject) == key
  }

  /** The receipt kept for a key is that of the last unexpired file of that key, at j; with no such file, j is -1 and none is kept. */
  lemma {:induction false} LastLiveWins(d: Disk, names: seq<string>, now: int, key: string) returns (j: int)
    ensures -1 <= j < |names| && (j >= 0 <==> key in ReceiptsFrom(d, names, now))
    ensures j >= 0 ==> LiveAt(d, names[j], now, key) && ReceiptsFrom(d, names, now)[key] == d.receipts[names[j]].value
    ensures forall i :: j < i < |names| ==> !LiveAt(d, names[i], now, key)
  {
    j := |names| - 1;
    if names != [] && !LiveAt(d, names[j], now, key) {
      var earlier := names[..j];
      assert forall i :: 0 <= i < j ==> names[i] == earlier[i];
      j := LastLiveWins(d, earlier, now, key);
    }
  }

  lemma LoadedInAnyOrder(verified: Receipt -> bool, d: Disk, names: seq<string>, now: int)
    requires Loadable(verified, d, now) && Listing(names, d.receipts)
    ensures Loaded(d, now, MemFrom(d, names, now))
  {
    var receipts := ReceiptsFrom(d, names, now);
    forall k <- receipts ensures FromFile(d, now, k, receipts[k]) {
      var j := LastLiveWins(d, names, now, k);
      assert ReceiptLoads(verified, d, names[j], now);
    }
    forall id <- d.receipts | Live(d, id, now) ensures Key(d.receipts[id].value.subject) in receipts {
      var j := LastLiveWins(d, names, now, Key(d.receipts[id].value.subject));
      assert id in names;
    }
  }
}
