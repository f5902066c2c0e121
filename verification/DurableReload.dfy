/**
  What a reload answers when several unexpired receipts exist for one subject
  (internal/approval/durable.go, loadState): the file names decide.
 */
module DurableReload {
  import opened Wrappers
  import opened DurableApproval
  import opened DurableTheorems
  import opened DurableAnswers

  // ----- the order of file names -----

  lemma {:induction false} BeforeIsTotal(a: string, b: string)
    ensures a == b || Before(a, b) || Before(b, a)
    ensures !(Before(a, b) && Before(b, a)) && !(a == b && Before(a, b))
  {
    if a != [] && b != [] && a[0] == b[0] {
      BeforeIsTotal(a[1..], b[1..]);
      assert a == [a[0]] + a[1..] && b == [b[0]] + b[1..];
    }
  }

  lemma {:induction false} BeforeIsTransitive(a: string, b: string, c: string)
    requires Before(a, b) && Before(b, c)
    ensures Before(a, c)
  {
    if a != [] && a[0] == b[0] && b[0] == c[0] {
      BeforeIsTransitive(a[1..], b[1..], c[1..]);
    }
  }

  lemma NameOfInjective(a: string, b: string)
    requires NameOf(a) == NameOf(b)
    ensures a == b
  {
    assert a == NameOf(a)[8..|NameOf(a)| - 5] && b == NameOf(b)[8..|NameOf(b)| - 5];
  }

  lemma NamesCompare(a: string, b: string)
    ensures a == b || Before(NameOf(a), NameOf(b)) || Before(NameOf(b), NameOf(a))
    ensures !(Before(NameOf(a), NameOf(b)) && Before(NameOf(b), NameOf(a))) && !Before(NameOf(a), NameOf(a))
  {
    BeforeIsTotal(NameOf(a), NameOf(b));
    BeforeIsTotal(NameOf(a), NameOf(a));
    if NameOf(a) == NameOf(b) {
      NameOfInjective(a, b);
    }
  }

  lemma {:induction false} GreatestName(ids: set<string>) returns (g: string)
    requires ids != {}
    ensures g in ids && forall id <- ids :: id != g ==> Before(NameOf(id), NameOf(g))
    decreases |ids|
  {
    var x :| x in ids;
    if ids == {x} {
      return x;
    }
    var h := GreatestName(ids - {x});
    NamesCompare(x, h);
    if Before(NameOf(x), NameOf(h)) {
      return h;
    }
    forall id <- ids | id != x ensures Before(NameOf(id), NameOf(x)) {
      if id != h {
        BeforeIsTransitive(NameOf(id), NameOf(h), NameOf(x));
      }
    }
    return x;
  }

  lemma ListedLast(files: map<string, File<Receipt>>, g: string, rest: seq<string>)
    requires g in files && forall id <- files :: id != g ==> Before(NameOf(id), NameOf(g))
    requires DirectoryOrder(rest, files - {g})
    ensures DirectoryOrder(rest + [g], files)
  {
    assert forall i :: 0 <= i < |rest| ==> rest[i] in rest;
  }

  /** Any state directory has a listing by name. */
  lemma {:induction false} DirectoryOrderExists(files: map<string, File<Receipt>>) returns (names: seq<string>)
    ensures DirectoryOrder(names, files)
    decreases |files|
  {
    if files == map[] {
      return [];
    }
    var g := GreatestName(files.Keys);
    assert (files - {g}).Keys == files.Keys - {g};
    var rest := DirectoryOrderExists(files - {g});
    ListedLast(files, g, rest);
    return rest + [g];
  }

  // ----- which receipt a reload keeps -----

  ghost predicate LiveFor(d: Disk, id: string, s: Subject, now: int) {
    Live(d, id, now) && d.receipts[id].value.subject == s
  }

  /** Of the unexpired receipts of a subject, the one whose file has the greatest name. */
  ghost predicate Greatest(d: Disk, id: string, s: Subject, now: int) {
    LiveFor(d, id, s, now) && forall i :: LiveFor(d, i, s, now) && i != id ==> Before(NameOf(i), NameOf(id))
  }

  lemma OneGreatest(d: Disk, a: string, b: string, s: Subject, now: int)
    requires Greatest(d, a, s, now) && Greatest(d, b, s, now)
    ensures a == b
  {
    NamesCompare(a, b);
  }

  lemma LiveAtIsLiveFor(d: Disk, id: string, s: Subject, now: int)
    ensures LiveAt(d, id, now, Key(s)) <==> LiveFor(d, id, s, now)
  {
    if LiveAt(d, id, now, Key(s)) {
      KeyInjective(d.receipts[id].value.subject, s);
    }
  }

  /** In whatever order the files are read, the last unexpired receipt of the subject is kept. */
  lemma KeptIsLast(d: Disk, names: seq<string>, now: int, s: Subject) returns (j: int)
    requires Listing(names, d.receipts)
    ensures -1 <= j < |names| && (j >= 0 <==> Key(s) in ReceiptsFrom(d, names, now))
    ensures j >= 0 ==> LiveFor(d, names[j], s, now) && ReceiptsFrom(d, names, now)[Key(s)] == d.receipts[names[j]].value
    ensures forall id :: LiveFor(d, id, s, now) ==> exists i :: 0 <= i <= j && names[i] == id
  {
    j := LastLiveWins(d, names, now, Key(s));
    if j >= 0 {
      LiveAtIsLiveFor(d, names[j], s, now);
    }
    forall id | LiveFor(d, id, s, now) ensures exists i :: 0 <= i <= j && names[i] == id {
      LiveAtIsLiveFor(d, id, s, now);
      assert id in names;
    }
  }

  /** A reload has a receipt for a subject exactly when an unexpired one is on disk, and then keeps the greatest-named. */
  lemma GreatestNameWins(verified: Receipt -> bool, d: Disk, names: seq<string>, now: int, s: Subject)
    requires Loadable(verified, d, now) && DirectoryOrder(names, d.receipts)
    ensures var m := MemFrom(d, names, now);
      && (Key(s) in m.receipts <==> exists id :: LiveFor(d, id, s, now))
      && (Key(s) in m.receipts ==>
            var r := m.receipts[Key(s)]; Greatest(d, r.executionId, s, now) && d.receipts[r.executionId] == Whole(r))
  {
    var j := KeptIsLast(d, names, now, s);
    if j >= 0 {
      var id := names[j];
      assert ReceiptLoads(verified, d, id, now);
      forall i | LiveFor(d, i, s, now) && i != id ensures Before(NameOf(i), NameOf(id)) {
        var k :| 0 <= k <= j && names[k] == i;
      }
    }
  }

  predicate Settles(f: Found) {
    f.Granted? || f.Denied?
  }

  /** A reply that names a receipt instead of asking for approval. */
  predicate Decides(reply: Result<Decision, Error>) {
    reply.Ok? && !reply.value.requiresApproval
  }

  /** The reply a receipt gives. */
  function ReplyOf(r: Receipt): Result<Decision, Error> {
    if r.decision == "approve" then Ok(Decision(true, false, r.executionId, Some(r)))
    else Ok(Decision(false, false, r.executionId, None))
  }

  /** The reply follows what is found under the subject's key. */
  lemma ReplyFollows(d: Disk, m: Mem, c: Call, now: int)
    requires WellFormed(c.req)
    ensures var f := Find(m, c.req.subject, now);
      && (Decides(Reply(d, m, c, now)) <==> Settles(f))
      && (Settles(f) ==> Reply(d, m, c, now) == ReplyOf(f.receipt) && (f.Granted? <==> f.receipt.decision == "approve"))
  {
    AcceptableIsWellFormed(c.req);
  }

  /** What RequestApproval answers right after a reload: the decision of the greatest-named unexpired receipt. */
  lemma ReloadedAnswer(verified: Receipt -> bool, d: Disk, names: seq<string>, now: int, files: Disk, c: Call, id: string)
    requires Loadable(verified, d, now) && DirectoryOrder(names, d.receipts) && Greatest(d, id, c.req.subject, now)
    requires WellFormed(c.req)
    ensures var r := d.receipts[id].value;
      Reply(files, MemFrom(d, names, now), c, now)
      == if r.decision == "approve" then Ok(Decision(true, false, id, Some(r))) else Ok(Decision(false, false, id, None))
  {
    GreatestNameWins(verified, d, names, now, c.req.subject);
    OneGreatest(d, id, MemFrom(d, names, now).receipts[Key(c.req.subject)].executionId, c.req.subject, now);
    ReplyFollows(files, MemFrom(d, names, now), c, now);
  }

  lemma {:induction false} MemoryIsBacked(verified: Receipt -> bool, steps: seq<Step>, w: World)
    requires Run(verified, START, steps, w) && w.mem.Some?
    ensures ReceiptsBacked(w.mem.value.receipts, w.settled) && ReceiptsOnDisk(w.disk.receipts, w.mem.value.receipts)
  {
    RunKeeps(verified, START, steps, w);
  }

  /** The receipt the engine answers from is on disk, unexpired. */
  lemma AnswerIsOnDisk(files: map<string, File<Receipt>>, m: Mem, settled: map<string, Receipt>, s: Subject, now: int)
    requires ReceiptsBacked(m.receipts, settled) && ReceiptsOnDisk(files, m.receipts) && Settles(Find(m, s, now))
    ensures var r := Find(m, s, now).receipt;
      r.executionId in files && files[r.executionId] == Whole(r) && !Expired(r, now) && r.subject == s
  {
    KeyInjective(s, m.receipts[Key(s)].subject);
  }

  /** The engine after a crash and a reload at the same instant. */
  function Reloaded(w: World, names: seq<string>): World {
    w.(disk := w.disk.(pending := w.disk.pending - Leftover(w.disk, w.now)),
       mem := Some(MemFrom(w.disk, names, w.now)), inflight := {})
  }

  lemma {:induction false} CrashThenLoad(verified: Receipt -> bool, w: World, names: seq<string>)
    requires Loadable(verified, w.disk, w.now) && DirectoryOrder(names, w.disk.receipts)
    ensures Run(verified, w, [Crash, Load(names)], Reloaded(w, names))
  {
    var down := w.(mem := None, inflight := {});
    Continue(verified, w, [], w, Crash);
    assert Next(verified, w, Crash) == down && [] + [Crash] == [Crash];
    Continue(verified, w, [Crash], down, Load(names));
    assert [Crash] + [Load(names)] == [Crash, Load(names)];
  }

  /** What the engine would reply in this world. */
  function Replies(w: World, c: Call): Result<Decision, Error>
    requires w.mem.Some?
  {
    Reply(w.disk, w.mem.value, c, w.now)
  }

  lemma DecidedFromDisk(verified: Receipt -> bool, steps: seq<Step>, w: World, c: Call) returns (r: Receipt)
    requires Run(verified, START, steps, w) && w.mem.Some? && WellFormed(c.req) && Decides(Replies(w, c))
    ensures Replies(w, c) == ReplyOf(r) && Replies(w, c).value.executionId == r.executionId
    ensures LiveFor(w.disk, r.executionId, c.req.subject, w.now) && w.disk.receipts[r.executionId] == Whole(r)
  {
    MemoryIsBacked(verified, steps, w);
    ReplyFollows(w.disk, w.mem.value, c, w.now);
    AnswerIsOnDisk(w.disk.receipts, w.mem.value, w.settled, c.req.subject, w.now);
    r := Find(w.mem.value, c.req.subject, w.now).receipt;
  }

  /** The reload replies with the receipt that has the greatest name, and there is one if there is any. */
  lemma ReloadedFromGreatest(verified: Receipt -> bool, w: World, names: seq<string>, c: Call, id: string) returns (top: string)
    requires Loadable(verified, w.disk, w.now) && DirectoryOrder(names, w.disk.receipts) && WellFormed(c.req)
    requires LiveFor(w.disk, id, c.req.subject, w.now)
    ensures Greatest(w.disk, top, c.req.subject, w.now) && Replies(Reloaded(w, names), c) == ReplyOf(w.disk.receipts[top].value)
    ensures w.disk.receipts[top].value.executionId == top
    ensures forall other :: Greatest(w.disk, other, c.req.subject, w.now) ==> other == top
  {
    var m := MemFrom(w.disk, names, w.now);
    GreatestNameWins(verified, w.disk, names, w.now, c.req.subject);
    top := m.receipts[Key(c.req.subject)].executionId;
    ReloadedAnswer(verified, w.disk, names, w.now, Reloaded(w, names).disk, c, top);
    forall other | Greatest(w.disk, other, c.req.subject, w.now) ensures other == top {
      OneGreatest(w.disk, other, top, c.req.subject, w.now);
    }
  }

  /**
    Over every run: after a crash and reload RequestApproval answers a call as it would have before if and only if
    the receipt it would have answered from is the greatest-named of the subject's unexpired receipts.
   */
  lemma {:induction false} ReloadKeepsTheAnswerExactlyWhen(verified: Receipt -> bool, steps: seq<Step>, w: World, names: seq<string>, c: Call)
    requires Run(verified, START, steps, w) && w.mem.Some? && WellFormed(c.req) && Decides(Replies(w, c))
    requires Loadable(verified, w.disk, w.now) && DirectoryOrder(names, w.disk.receipts)
    ensures LiveFor(w.disk, Replies(w, c).value.executionId, c.req.subject, w.now)
    ensures Replies(Reloaded(w, names), c) == Replies(w, c)
       <==> Greatest(w.disk, Replies(w, c).value.executionId, c.req.subject, w.now)
  {
    var r := DecidedFromDisk(verified, steps, w, c);
    var top := ReloadedFromGreatest(verified, w, names, c, r.executionId);
  }

  /**
    And it decides as it would have before, grant or deny, if and only if the greatest-named of the subject's
    unexpired receipts says what the receipt answered from said.
   */
  lemma {:induction false} ReloadKeepsTheDecisionExactlyWhen(verified: Receipt -> bool, steps: seq<Step>, w: World, names: seq<string>, c: Call)
    requires Run(verified, START, steps, w) && w.mem.Some? && WellFormed(c.req) && Decides(Replies(w, c))
    requires Loadable(verified, w.disk, w.now) && DirectoryOrder(names, w.disk.receipts)
    ensures Decides(Replies(Reloaded(w, names), c))
    ensures LiveFor(w.disk, Replies(w, c).value.executionId, c.req.subject, w.now)
    ensures Replies(Reloaded(w, names), c).value.approved == Replies(w, c).value.approved
       <==> forall id :: Greatest(w.disk, id, c.req.subject, w.now) ==>
              (w.disk.receipts[id].value.decision == "approve"
               <==> w.disk.receipts[Replies(w, c).value.executionId].value.decision == "approve")
  {
    var r := DecidedFromDisk(verified, steps, w, c);
    var top := ReloadedFromGreatest(verified, w, names, c, r.executionId);
  }

  // ----- in any other order -----

  /** Reading one file last lets its receipt win. */
  lemma ReadLast(verified: Receipt -> bool, d: Disk, names: seq<string>, now: int, s: Subject, id: string) returns (moved: seq<string>)
    requires Loadable(verified, d, now) && Listing(names, d.receipts) && LiveFor(d, id, s, now)
    ensures Listing(moved, d.receipts)
    ensures var r := d.receipts[id].value;
      Find(MemFrom(d, moved, now), s, now) == if r.decision == "approve" then Granted(r) else Denied(r)
  {
    moved := MovedLast(names, d.receipts, id);
    assert ReceiptsFrom(d, moved, now)[Key(s)] == d.receipts[id].value;
  }

  lemma MovedLast(names: seq<string>, files: map<string, File<Receipt>>, id: string) returns (moved: seq<string>)
    requires Listing(names, files) && id in files
    ensures Listing(moved, files) && moved != [] && moved[|moved| - 1] == id
  {
    var k :| 0 <= k < |names| && names[k] == id;
    var rest := names[..k] + names[k + 1..];
    Without(names, k);
    assert forall i :: 0 <= i < |rest| ==> rest[i] in rest;
    moved := rest + [id];
  }

  lemma Without(names: seq<string>, k: nat)
    requires k < |names| && forall i, j :: 0 <= i < j < |names| ==> names[i] != names[j]
    ensures var rest := names[..k] + names[k + 1..];
      && (forall x :: x in rest <==> x in names && x != names[k])
      && (forall i, j :: 0 <= i < j < |rest| ==> rest[i] != rest[j])
  {
    var rest := names[..k] + names[k + 1..];
    forall x | x in names && x != names[k] ensures x in rest {
      var i :| 0 <= i < |names| && names[i] == x;
      assert rest[if i < k then i else i - 1] == x;
    }
  }

  /**
    Were the files read in an arbitrary order, the reply to a call would be settled by the files
    exactly when its subject's unexpired receipts agree; so it is the order by name that settles it otherwise.
   */
  lemma ReloadDecisionIsOrderFree(verified: Receipt -> bool, d: Disk, names: seq<string>, now: int, files: Disk, c: Call)
    requires Loadable(verified, d, now) && Listing(names, d.receipts) && WellFormed(c.req)
    ensures (forall other {:trigger Listing(other, d.receipts)} :: Listing(other, d.receipts) ==>
               (Approves(Reply(files, MemFrom(d, other, now), c, now)) <==> Approves(Reply(files, MemFrom(d, names, now), c, now))))
       <==> (forall i, j :: LiveFor(d, i, c.req.subject, now) && LiveFor(d, j, c.req.subject, now) ==>
               (d.receipts[i].value.decision == "approve" <==> d.receipts[j].value.decision == "approve"))
  {
    var s := c.req.subject;
    ReplyFollows(files, MemFrom(d, names, now), c, now);
    if i, j :| LiveFor(d, i, s, now) && LiveFor(d, j, s, now)
               && d.receipts[i].value.decision == "approve" && d.receipts[j].value.decision != "approve" {
      var lastI := ReadLast(verified, d, names, now, s, i);
      var lastJ := ReadLast(verified, d, names, now, s, j);
      ReplyFollows(files, MemFrom(d, lastI, now), c, now);
      ReplyFollows(files, MemFrom(d, lastJ, now), c, now);
      assert Listing(lastI, d.receipts) && Listing(lastJ, d.receipts);
    } else {
      forall other | Listing(other, d.receipts)
        ensures Approves(Reply(files, MemFrom(d, other, now), c, now)) <==> Approves(Reply(files, MemFrom(d, names, now), c, now))
      {
        AgreementDecides(d, names, other, now, s);
        ReplyFollows(files, MemFrom(d, other, now), c, now);
        PendingIsNoApproval(files, MemFrom(d, other, now), c, now);
        PendingIsNoApproval(files, MemFrom(d, names, now), c, now);
      }
    }
  }

  predicate Approves(reply: Result<Decision, Error>) {
    reply.Ok? && reply.value.approved
  }

  lemma PendingIsNoApproval(d: Disk, m: Mem, c: Call, now: int)
    ensures Approves(Reply(d, m, c, now)) ==> Decides(Reply(d, m, c, now))
  {
  }

  lemma AgreementDecides(d: Disk, names: seq<string>, other: seq<string>, now: int, s: Subject)
    requires Listing(names, d.receipts) && Listing(other, d.receipts)
    requires forall i, j :: LiveFor(d, i, s, now) && LiveFor(d, j, s, now) && d.receipts[i].value.decision == "approve"
               ==> d.receipts[j].value.decision == "approve"
    ensures Find(MemFrom(d, other, now), s, now).Granted? == Find(MemFrom(d, names, now), s, now).Granted?
  {
    var j := KeptIsLast(d, names, now, s);
    var k := KeptIsLast(d, other, now, s);
  }

  // ----- runs that show it -----

  const FRESH := Mem(map[], map[])

  /** The engine over an empty directory. */
  lemma Opened(verified: Receipt -> bool) returns (steps: seq<Step>)
    ensures Run(verified, START, steps, START.(mem := Some(FRESH)))
  {
    assert DirectoryOrder([], START.disk.receipts);
    assert MemFrom(START.disk, [], 0) == FRESH;
    assert Enabled(verified, START, Load([]));
    assert Next(verified, START, Load([])) == START.(mem := Some(FRESH));
    Continue(verified, START, [], START, Load([]));
    steps := [Load([])];
  }

  /** A run can leave a directory that does not load: one request file cut short is enough. */
  lemma TornDirectoryIsReachable(verified: Receipt -> bool, req: Request, id: string)
    requires Acceptable(req) && SafeId(id) && id != ""
    ensures exists steps, w :: Run(verified, START, steps, w) && w.disk.pending == map[id := Torn] && !Loadable(verified, w.disk, w.now)
  {
    var steps := Opened(verified);
    var w := START.(mem := Some(FRESH));
    Continue(verified, START, steps, w, Persist(req, id, Partial));
    var w' := Next(verified, w, Persist(req, id, Partial));
    assert w'.disk.pending == map[id := Torn];
    assert !PendingLoads(w'.disk, id, w'.now);
  }

  function Ask(r: Receipt): Pending {
    Pending(r.executionId, r.subject, HOUR)
  }

  lemma Issued(verified: Receipt -> bool, steps: seq<Step>, w: World, r: Receipt) returns (more: seq<Step>)
    requires Run(verified, START, steps, w) && w.mem.Some? && w.now == 0 && Unused(w, r.executionId)
    requires Complete4(r.subject) && r.executionId != "" && SafeId(r.executionId)
    requires Ask(r) !in w.inflight
    ensures Run(verified, START, more, w.(disk := Persisted(w.disk, Ask(r), Complete),
              issued := w.issued[r.executionId := Ask(r)], mem := Some(Inserted(w.mem.value, Ask(r)))))
  {
    var persist, insert := Persist(Request("r", r.subject), r.executionId, Complete), Insert(Ask(r));
    assert Acceptable(persist.req);
    Continue(verified, START, steps, w, persist);
    var w' := Next(verified, w, persist);
    Continue(verified, START, steps + [persist], w', insert);
    assert w'.inflight - {Ask(r)} == w.inflight;
    more := steps + [persist] + [insert];
  }

  /** What a submission that is accepted at time 0 leaves. */
  function AfterSubmit(w: World, r: Receipt): World
    requires w.mem.Some?
  {
    w.(disk := Disk(w.disk.pending - {r.executionId}, w.disk.receipts[r.executionId := Whole(r)]),
       mem := Some(Mem(w.mem.value.pending - {r.executionId}, w.mem.value.receipts[Key(r.subject) := r])),
       settled := w.settled[r.executionId := r])
  }

  lemma {:induction false} SubmitAccepted(verified: Receipt -> bool, steps: seq<Step>, w: World, r: Receipt)
    requires Run(verified, START, steps, w) && w.mem.Some? && w.now == 0
    requires r.executionId in w.mem.value.pending && w.mem.value.pending[r.executionId] == Ask(r)
    requires verified(r) && Decided(r) && !Expired(r, 0)
    ensures Run(verified, START, steps + [Submit(r, 0, Complete, true)], AfterSubmit(w, r))
  {
    var s := Submit(r, 0, Complete, true);
    Continue(verified, START, steps, w, s);
    assert Lands(verified, w, s);
    assert Next(verified, w, s) == AfterSubmit(w, r);
  }

  /** Two requests for one subject, waiting. */
  function BothWait(a: Receipt, b: Receipt): World {
    var pending := map[b.executionId := Ask(b)][a.executionId := Ask(a)];
    World(0, Disk(map[b.executionId := Whole(Ask(b))][a.executionId := Whole(Ask(a))], map[]), Some(Mem(pending, map[])), {},
          pending, map[])
  }

  predicate Usable(verified: Receipt -> bool, r: Receipt) {
    verified(r) && Decided(r) && !Expired(r, 0) && Complete4(r.subject) && r.executionId != "" && SafeId(r.executionId)
  }

  lemma BothCanWait(verified: Receipt -> bool, a: Receipt, b: Receipt) returns (steps: seq<Step>)
    requires Usable(verified, a) && Usable(verified, b) && a.executionId != b.executionId
    ensures Run(verified, START, steps, BothWait(a, b))
  {
    steps := Opened(verified);
    var w := START.(mem := Some(FRESH));
    steps := Issued(verified, steps, w, b);
    w := w.(disk := Persisted(w.disk, Ask(b), Complete),
            issued := w.issued[b.executionId := Ask(b)], mem := Some(Inserted(w.mem.value, Ask(b))));
    steps := Issued(verified, steps, w, a);
  }

  /** What the two submissions leave. */
  function BothSubmitted(a: Receipt, b: Receipt): World {
    AfterSubmit(AfterSubmit(BothWait(a, b), b), a)
  }

  lemma BothCanBeSubmitted(verified: Receipt -> bool, a: Receipt, b: Receipt) returns (steps: seq<Step>)
    requires Usable(verified, a) && Usable(verified, b) && a.executionId != b.executionId
    ensures Run(verified, START, steps, BothSubmitted(a, b))
  {
    steps := BothCanWait(verified, a, b);
    SubmitAccepted(verified, steps, BothWait(a, b), b);
    steps := steps + [Submit(b, 0, Complete, true)];
    SubmitAccepted(verified, steps, AfterSubmit(BothWait(a, b), b), a);
    steps := steps + [Submit(a, 0, Complete, true)];
  }

  lemma {:induction false} BothSubmittedLoads(verified: Receipt -> bool, steps: seq<Step>, a: Receipt, b: Receipt)
    requires Run(verified, START, steps, BothSubmitted(a, b)) && a.executionId != b.executionId
    ensures Loadable(verified, BothSubmitted(a, b).disk, 0)
  {
    LoadsUnlessTorn(verified, steps, BothSubmitted(a, b));
  }

  /**
    A reload can reverse an answer: of two receipts for one subject, the later submission answers until the
    crash, and the greater file name after the reload.
   */
  lemma ReloadCanReverseTheAnswer(verified: Receipt -> bool, a: Receipt, b: Receipt, c: Call)
    requires Usable(verified, a) && Usable(verified, b) && a.subject == b.subject == c.req.subject && WellFormed(c.req)
    requires a.decision == "deny" && b.decision == "approve" && Before(NameOf(a.executionId), NameOf(b.executionId))
    ensures exists steps, w, names, w' ::
              && Run(verified, START, steps, w) && w.mem.Some? && Run(verified, w, [Crash, Load(names)], w') && w'.mem.Some?
              && Replies(w, c) == Ok(Decision(false, false, a.executionId, None))
              && Replies(w', c) == Ok(Decision(true, false, b.executionId, Some(b)))
  {
    NamesCompare(a.executionId, b.executionId);
    var w := BothSubmitted(a, b);
    var steps := BothCanBeSubmitted(verified, a, b);
    BothSubmittedLoads(verified, steps, a, b);
    assert Find(w.mem.value, a.subject, 0) == Denied(a);
    ReplyFollows(w.disk, w.mem.value, c, 0);
    GreaterNameIsGreatest(a, b);
    var names := DirectoryOrderExists(w.disk.receipts);
    CrashThenLoad(verified, w, names);
    ReloadedAnswer(verified, w.disk, names, 0, Reloaded(w, names).disk, c, b.executionId);
  }

  lemma GreaterNameIsGreatest(a: Receipt, b: Receipt)
    requires Before(NameOf(a.executionId), NameOf(b.executionId)) && a.subject == b.subject && !Expired(b, 0)
    ensures var d := BothSubmitted(a, b).disk;
      Greatest(d, b.executionId, a.subject, 0) && d.receipts[b.executionId] == Whole(b)
  {
    NamesCompare(a.executionId, b.executionId);
    assert LiveFor(BothSubmitted(a, b).disk, b.executionId, a.subject, 0);
  }
}
