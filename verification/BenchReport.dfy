/**
  Running a corpus through the boundary and the recorder, and scoring it
  (internal/incidentbench/report.go).
 */
module BenchReport {
  import opened Wrappers
  import opened IncidentBench
  import opened BenchRecorder
  import Bundles = IncidentBundle

  // ----- what the boundary and recorder owe to the trajectories run so far -----

  /** A cache entry came from a trajectory of this corpus and holds that trajectory's verdict. */
  ghost predicate ComesFrom(entry: Entry, tr: Trajectory) {
    && ValidTrajectory(tr) && entry.result.effect == tr.effect && entry.fingerprint == Fingerprint(tr)
    && (entry.result.decision.DenyOutOfAuthority? <==> !Authorized(tr))
    && (entry.result.decision.Allow? <==> Authorized(tr) && HasFixture(tr))
  }

  /** The target exists where the trajectory says it runs. */
  predicate HasFixture(tr: Trajectory) {
    tr.effect.target in tr.env.fixtures
  }

  /** The trajectory at o is the first to request this effect. */
  ghost predicate FirstOf(trajs: seq<Trajectory>, o: int, id: string) {
    0 <= o < |trajs| && trajs[o].effect.id == id && forall j :: 0 <= j < o ==> trajs[j].effect.id != id
  }

  ghost predicate EntryTraced(cache: map<string, Entry>, trajs: seq<Trajectory>, n: nat, origin: map<string, nat>, id: string)
    requires n <= |trajs| && id in cache
  {
    id in origin && origin[id] < n && FirstOf(trajs, origin[id], id) && ComesFrom(cache[id], trajs[origin[id]])
  }

  ghost predicate CacheTraced(cache: map<string, Entry>, trajs: seq<Trajectory>, n: nat, origin: map<string, nat>)
    requires n <= |trajs|
  {
    forall id {:trigger EntryTraced(cache, trajs, n, origin, id)} :: id in cache ==> EntryTraced(cache, trajs, n, origin, id)
  }

  ghost predicate KeyTraced(sha: string -> string, trajs: seq<Trajectory>, n: nat, source: map<string, nat>, k: string)
    requires n <= |trajs|
  {
    k in source && source[k] < n && !Authorized(trajs[source[k]]) && DedupKey(sha, trajs[source[k]]) == k
  }

  ghost predicate KeysTraced(sha: string -> string, byKey: map<string, IncidentRecord>, trajs: seq<Trajectory>, n: nat,
      source: map<string, nat>)
    requires n <= |trajs|
  {
    forall k {:trigger KeyTraced(sha, trajs, n, source, k)} :: k in byKey ==> KeyTraced(sha, trajs, n, source, k)
  }

  /** The recorder has this trajectory's incident, if the result is one. */
  ghost predicate KeptFor(sha: string -> string, byKey: map<string, IncidentRecord>, tr: Trajectory, r: BoundaryResult) {
    r.decision.DenyOutOfAuthority? ==>
      ResultMatches(tr, r) && DedupKey(sha, tr) in byKey && byKey[DedupKey(sha, tr)].facts == FactsOf(tr, r)
  }

  /** The trajectory's effect is cached with its fingerprint. */
  ghost predicate Cached(cache: map<string, Entry>, tr: Trajectory) {
    tr.effect.id in cache && cache[tr.effect.id].fingerprint == Fingerprint(tr)
  }

  /** A trajectory that has been delivered: its effect is cached with its verdict, and its incident recorded if it has one. */
  ghost predicate Delivered(sha: string -> string, cache: map<string, Entry>, byKey: map<string, IncidentRecord>, tr: Trajectory) {
    && ValidTrajectory(tr) && Cached(cache, tr)
    && (cache[tr.effect.id].result.decision.DenyOutOfAuthority? <==> !Authorized(tr))
    && KeptFor(sha, byKey, tr, cache[tr.effect.id].result)
  }

  /** Every recorded incident's effect is cached, and every cached denial for authority is recorded. */
  ghost predicate Backed(sha: string -> string, cache: map<string, Entry>, byKey: map<string, IncidentRecord>) {
    && (forall k <- byKey :: byKey[k].facts.result.effect.id in cache)
    && (forall id <- cache :: cache[id].result.decision.DenyOutOfAuthority? ==>
          sha(IncidentText(cache[id].result.trajectoryId, cache[id].result.effect)) in byKey)
  }

  ghost predicate AllNulFree(trajs: seq<Trajectory>) {
    forall i {:trigger NulFree(trajs[i])} :: 0 <= i < |trajs| ==> NulFree(trajs[i])
  }

  ghost predicate AllDelivered(sha: string -> string, cache: map<string, Entry>, byKey: map<string, IncidentRecord>,
      trajs: seq<Trajectory>, n: nat)
    requires n <= |trajs|
  {
    forall j {:trigger Delivered(sha, cache, byKey, trajs[j])} :: 0 <= j < n ==> Delivered(sha, cache, byKey, trajs[j])
  }

  ghost predicate Grew<T>(m: map<string, T>, m': map<string, T>) {
    forall k <- m :: k in m' && m'[k] == m[k]
  }

  lemma DeliveredLasts(sha: string -> string, cache: map<string, Entry>, byKey: map<string, IncidentRecord>,
      cache': map<string, Entry>, byKey': map<string, IncidentRecord>, trajs: seq<Trajectory>, n: nat)
    requires n <= |trajs| && AllDelivered(sha, cache, byKey, trajs, n) && Grew(cache, cache') && Grew(byKey, byKey')
    ensures AllDelivered(sha, cache', byKey', trajs, n)
  {
    forall j | 0 <= j < n ensures Delivered(sha, cache', byKey', trajs[j]) {
      assert Delivered(sha, cache, byKey, trajs[j]);
    }
  }

  /** A cached verdict is the verdict of every trajectory with that effect ID and fingerprint. */
  lemma CachedVerdict(entry: Entry, o: Trajectory, tr: Trajectory)
    requires ComesFrom(entry, o) && ValidTrajectory(tr) && NulFree(o) && NulFree(tr)
    requires entry.fingerprint == Fingerprint(tr)
    ensures entry.result.decision.DenyOutOfAuthority? <==> !Authorized(tr)
  {
    FingerprintInjective(o, tr);
  }

  lemma TracesWiden(sha: string -> string, cache: map<string, Entry>, byKey: map<string, IncidentRecord>,
      trajs: seq<Trajectory>, n: nat, origin: map<string, nat>, source: map<string, nat>)
    requires n < |trajs| && CacheTraced(cache, trajs, n, origin) && KeysTraced(sha, byKey, trajs, n, source)
    ensures CacheTraced(cache, trajs, n + 1, origin) && KeysTraced(sha, byKey, trajs, n + 1, source)
  {
    forall id | id in cache ensures EntryTraced(cache, trajs, n + 1, origin, id) {
      assert EntryTraced(cache, trajs, n, origin, id);
    }
    forall k | k in byKey ensures KeyTraced(sha, trajs, n + 1, source, k) {
      assert KeyTraced(sha, trajs, n, source, k);
    }
  }

  /** A cached effect keeps its result, which is the trajectory's verdict. */
  lemma RepeatTraces(cache: map<string, Entry>, trajs: seq<Trajectory>, i: nat, origin: map<string, nat>)
    requires i < |trajs| && AllNulFree(trajs) && CacheTraced(cache, trajs, i + 1, origin)
    requires ValidTrajectory(trajs[i]) && Cached(cache, trajs[i])
    ensures cache[trajs[i].effect.id].result.decision.DenyOutOfAuthority? <==> !Authorized(trajs[i])
  {
    var id := trajs[i].effect.id;
    assert EntryTraced(cache, trajs, i + 1, origin, id);
    assert NulFree(trajs[i]) && NulFree(trajs[origin[id]]);
    CachedVerdict(cache[id], trajs[origin[id]], trajs[i]);
  }

  ghost predicate EarlierCached(cache: map<string, Entry>, trajs: seq<Trajectory>, i: nat)
    requires i < |trajs|
  {
    forall j {:trigger CachedAt(cache, trajs, j)} :: 0 <= j < i ==> CachedAt(cache, trajs, j)
  }

  predicate CachedAt(cache: map<string, Entry>, trajs: seq<Trajectory>, j: nat)
    requires j < |trajs|
  {
    trajs[j].effect.id in cache
  }

  lemma FirstTraces(cache: map<string, Entry>, trajs: seq<Trajectory>, i: nat, entry: Entry, origin: map<string, nat>)
    requires i < |trajs| && CacheTraced(cache, trajs, i + 1, origin)
    requires trajs[i].effect.id !in cache && ComesFrom(entry, trajs[i]) && EarlierCached(cache, trajs, i)
    ensures CacheTraced(cache[trajs[i].effect.id := entry], trajs, i + 1, origin[trajs[i].effect.id := i])
  {
    var id := trajs[i].effect.id;
    var cache', origin' := cache[id := entry], origin[id := i];
    forall j | 0 <= j < i ensures trajs[j].effect.id != id {
      assert CachedAt(cache, trajs, j);
    }
    forall x | x in cache' ensures EntryTraced(cache', trajs, i + 1, origin', x) {
      assert x != id ==> EntryTraced(cache, trajs, i + 1, origin, x);
    }
  }

  /** Recording leaves a traced key for a trajectory without authority. */
  lemma RecordingTraces(sha: string -> string, byKey: map<string, IncidentRecord>, trajs: seq<Trajectory>, i: nat,
      key: string, byKey': map<string, IncidentRecord>, source: map<string, nat>)
    requires i < |trajs| && KeysTraced(sha, byKey, trajs, i + 1, source)
    requires key == DedupKey(sha, trajs[i]) && key !in byKey && !Authorized(trajs[i]) && byKey'.Keys == byKey.Keys + {key}
    ensures KeysTraced(sha, byKey', trajs, i + 1, source[key := i])
  {
    var source' := source[key := i];
    forall k | k in byKey' ensures KeyTraced(sha, trajs, i + 1, source', k) {
      assert k != key ==> KeyTraced(sha, trajs, i + 1, source, k);
    }
  }

  // ----- when execute succeeds -----

  /** One effect ID may come back only as the same request, and a denied one only as the same incident. */
  ghost predicate SameIncident(a: Trajectory, b: Trajectory) {
    && Fingerprint(a) == Fingerprint(b)
    && (!Authorized(b) ==>
          && a.id == b.id && a.env == b.env && a.effect == b.effect && a.epoch == b.epoch
          && a.telemetry == b.telemetry && a.authority == b.authority)
  }

  /** Some earlier trajectory requests the same effect. */
  ghost predicate Repeats(trajs: seq<Trajectory>, i: nat)
    requires i < |trajs|
  {
    exists j :: 0 <= j < i && trajs[j].effect.id == trajs[i].effect.id
  }

  /** A denial that is new has to be recordable, under a key of its own. */
  ghost predicate NewIncident(sha: string -> string, trajs: seq<Trajectory>, i: nat)
    requires i < |trajs| && trajs[i].deliveries != []
  {
    && trajs[i].env.principal != "" && trajs[i].deliveries[0].tick != 0
    && forall j :: 0 <= j < i && !Authorized(trajs[j]) ==> DedupKey(sha, trajs[j]) != DedupKey(sha, trajs[i])
  }

  ghost predicate GoesAt(sha: string -> string, trajs: seq<Trajectory>, i: nat)
    requires i < |trajs|
  {
    && ValidTrajectory(trajs[i])
    && (forall j :: 0 <= j < i && trajs[j].effect.id == trajs[i].effect.id ==> SameIncident(trajs[j], trajs[i]))
    && (Authorized(trajs[i]) || Repeats(trajs, i) || NewIncident(sha, trajs, i))
  }

  /** What a corpus must satisfy for execute to run through it. */
  ghost predicate RunsThrough(sha: string -> string, trajs: seq<Trajectory>) {
    forall i {:trigger GoesAt(sha, trajs, i)} :: 0 <= i < |trajs| ==> GoesAt(sha, trajs, i)
  }

  /** The same test for one delivery, against the cache and the records it meets. */
  ghost predicate Ready(sha: string -> string, cache: map<string, Entry>, byKey: map<string, IncidentRecord>, tr: Trajectory,
      tick: nat)
  {
    if tr.effect.id in cache then Cached(cache, tr) && KeptFor(sha, byKey, tr, cache[tr.effect.id].result)
    else Authorized(tr) || (tr.env.principal != "" && tick != 0 && DedupKey(sha, tr) !in byKey)
  }

  lemma RepeatIsSameIncident(sha: string -> string, cache: map<string, Entry>, byKey: map<string, IncidentRecord>,
      a: Trajectory, b: Trajectory)
    requires Delivered(sha, cache, byKey, a) && ValidTrajectory(b) && NulFree(a) && NulFree(b) && a.effect.id == b.effect.id
    ensures Cached(cache, b) && KeptFor(sha, byKey, b, cache[b.effect.id].result) <==> SameIncident(a, b)
  {
    if Fingerprint(a) == Fingerprint(b) {
      FingerprintInjective(a, b);
    }
  }

  lemma KeyIsTaken(sha: string -> string, cache: map<string, Entry>, byKey: map<string, IncidentRecord>,
      trajs: seq<Trajectory>, i: nat, source: map<string, nat>, key: string)
    requires i <= |trajs| && AllDelivered(sha, cache, byKey, trajs, i) && KeysTraced(sha, byKey, trajs, i, source)
    ensures key in byKey <==> exists j :: 0 <= j < i && !Authorized(trajs[j]) && DedupKey(sha, trajs[j]) == key
  {
    if key in byKey {
      assert KeyTraced(sha, trajs, i, source, key);
    }
    if j :| 0 <= j < i && !Authorized(trajs[j]) && DedupKey(sha, trajs[j]) == key {
      assert Delivered(sha, cache, byKey, trajs[j]);
    }
  }

  /** Nothing but the trajectories themselves decides whether the next one goes through. */
  lemma ReadyExactlyWhen(sha: string -> string, cache: map<string, Entry>, byKey: map<string, IncidentRecord>,
      trajs: seq<Trajectory>, i: nat, origin: map<string, nat>, source: map<string, nat>)
    requires i < |trajs| && AllNulFree(trajs) && Progress(sha, cache, byKey, trajs, i, origin, source)
    requires ValidTrajectory(trajs[i])
    ensures Ready(sha, cache, byKey, trajs[i], trajs[i].deliveries[0].tick) <==> GoesAt(sha, trajs, i)
  {
    var tr := trajs[i];
    assert NulFree(tr);
    forall j | 0 <= j < i && trajs[j].effect.id == tr.effect.id
      ensures tr.effect.id in cache
      ensures Cached(cache, tr) && KeptFor(sha, byKey, tr, cache[tr.effect.id].result) <==> SameIncident(trajs[j], tr)
    {
      assert NulFree(trajs[j]) && Delivered(sha, cache, byKey, trajs[j]);
      RepeatIsSameIncident(sha, cache, byKey, trajs[j], tr);
    }
    if tr.effect.id in cache {
      assert EntryTraced(cache, trajs, i, origin, tr.effect.id);
      assert trajs[origin[tr.effect.id]].effect.id == tr.effect.id;
    }
    KeyIsTaken(sha, cache, byKey, trajs, i, source, DedupKey(sha, tr));
  }

  predicate Recordable(tr: Trajectory) {
    ValidTrajectory(tr) && tr.env.principal != "" && tr.deliveries[0].tick != 0
  }

  ghost predicate NoKeyCollision(sha: string -> string, trajs: seq<Trajectory>) {
    forall i, j :: 0 <= i < |trajs| && 0 <= j < |trajs| ==> !Bundles.Collision(sha, KeyText(trajs[i]), KeyText(trajs[j]))
  }

  /** Recordable trajectories, each with an effect ID of its own. */
  ghost predicate Clean(trajs: seq<Trajectory>) {
    && (forall i :: 0 <= i < |trajs| ==> Recordable(trajs[i]))
    && (forall i, j :: 0 <= i < j < |trajs| ==> trajs[i].effect.id != trajs[j].effect.id)
  }

  /** No two trajectories without authority share a key. */
  ghost predicate IncidentKeysDiffer(sha: string -> string, trajs: seq<Trajectory>) {
    forall i, j :: 0 <= i < j < |trajs| && !Authorized(trajs[i]) && !Authorized(trajs[j]) ==>
      DedupKey(sha, trajs[i]) != DedupKey(sha, trajs[j])
  }

  /** On a clean corpus the keys alone decide. */
  lemma CleanRunsThroughExactlyWhen(sha: string -> string, trajs: seq<Trajectory>)
    requires Clean(trajs)
    ensures RunsThrough(sha, trajs) <==> IncidentKeysDiffer(sha, trajs)
  {
    forall i | 0 <= i < |trajs| ensures GoesAt(sha, trajs, i) <==> Authorized(trajs[i]) || NewIncident(sha, trajs, i) {
      assert Recordable(trajs[i]) && !Repeats(trajs, i);
    }
    if RunsThrough(sha, trajs) {
      forall i, j | 0 <= i < j < |trajs| && !Authorized(trajs[i]) && !Authorized(trajs[j])
        ensures DedupKey(sha, trajs[i]) != DedupKey(sha, trajs[j])
      {
        assert GoesAt(sha, trajs, j);
      }
    } else {
      var j :| 0 <= j < |trajs| && !GoesAt(sha, trajs, j);
      assert !NewIncident(sha, trajs, j) && Recordable(trajs[j]);
    }
  }

  /** And they differ unless the hash collides. */
  lemma KeysDifferUnlessTheyCollide(sha: string -> string, trajs: seq<Trajectory>)
    requires AllNulFree(trajs) && Clean(trajs) && NoKeyCollision(sha, trajs)
    ensures IncidentKeysDiffer(sha, trajs)
  {
    forall i, j | 0 <= i < j < |trajs| && DedupKey(sha, trajs[i]) == DedupKey(sha, trajs[j]) ensures false {
      assert NulFree(trajs[i]) && NulFree(trajs[j]) && Recordable(trajs[i]) && Recordable(trajs[j]);
      DedupKeyIdentifies(sha, trajs[i], trajs[j]);
    }
  }

  lemma DeliveredAreCached(sha: string -> string, cache: map<string, Entry>, byKey: map<string, IncidentRecord>,
      trajs: seq<Trajectory>, i: nat)
    requires i < |trajs| && AllDelivered(sha, cache, byKey, trajs, i)
    ensures EarlierCached(cache, trajs, i)
  {
    forall j | 0 <= j < i ensures CachedAt(cache, trajs, j) {
      assert Delivered(sha, cache, byKey, trajs[j]);
    }
  }

  // ----- one delivery -----

  /** When Record reports no error. */
  ghost predicate RecordGoes(sha: string -> string, byKey: map<string, IncidentRecord>, tr: Trajectory, r: BoundaryResult,
      absent: bool)
  {
    r.decision.DenyOutOfAuthority? ==>
      && ResultMatches(tr, r)
      && (if DedupKey(sha, tr) in byKey then byKey[DedupKey(sha, tr)].facts == FactsOf(tr, r) else Completable(tr, r, absent))
  }

  /** A cached denial is already recorded, so it goes exactly if it is recorded for this trajectory. */
  lemma RepeatGoes(sha: string -> string, cache: map<string, Entry>, byKey: map<string, IncidentRecord>, tr: Trajectory,
      absent: bool)
    requires Backed(sha, cache, byKey) && tr.effect.id in cache
    ensures RecordGoes(sha, byKey, tr, cache[tr.effect.id].result, absent) <==> KeptFor(sha, byKey, tr, cache[tr.effect.id].result)
  {
  }

  /** A new denial is never recorded yet, so it goes exactly if it can be, under a free key. */
  lemma FirstGoes(sha: string -> string, cache: map<string, Entry>, byKey: map<string, IncidentRecord>, tr: Trajectory,
      d: Delivery, r: BoundaryResult, absent: bool)
    requires Backed(sha, cache, byKey) && tr.effect.id !in cache && FreshResult(tr, d, r.reachable, r)
    requires r.decision.DenyOutOfAuthority? ==> absent
    ensures RecordGoes(sha, byKey, tr, r, absent) <==> Ready(sha, cache, byKey, tr, d.tick)
  {
  }

  lemma FirstKeepsBacked(sha: string -> string, cache: map<string, Entry>, byKey: map<string, IncidentRecord>, tr: Trajectory,
      entry: Entry, byKey': map<string, IncidentRecord>)
    requires Backed(sha, cache, byKey) && KeptFor(sha, byKey', tr, entry.result) && entry.result.effect == tr.effect
    requires Extended(sha, byKey, tr, byKey') && (byKey' != byKey ==> entry.result.decision.DenyOutOfAuthority?)
    ensures Backed(sha, cache[tr.effect.id := entry], byKey')
  {
  }

  /** The records are those before, or those and one more under the trajectory's key. */
  ghost predicate Extended(sha: string -> string, byKey: map<string, IncidentRecord>, tr: Trajectory,
      byKey': map<string, IncidentRecord>)
  {
    var key := DedupKey(sha, tr);
    byKey' == byKey || (key !in byKey && key in byKey' && byKey' == byKey[key := byKey'[key]])
  }

  // ----- execute -----

  method EvaluateTraced(b: Boundary, trajs: seq<Trajectory>, i: nat, d: Delivery, ghost origin0: map<string, nat>)
      returns (r: Result<BoundaryResult, Error>, ghost origin: map<string, nat>)
    requires b.Valid() && i < |trajs| && AllNulFree(trajs) && CacheTraced(b.cache, trajs, i + 1, origin0)
    requires EarlierCached(b.cache, trajs, i) && b.Reaches(trajs[i].effect.target) == HasFixture(trajs[i])
    modifies b`cache, b`ledger
    ensures b.Valid() && Grew(old(b.cache), b.cache)
    ensures r.Ok? ==> CacheTraced(b.cache, trajs, i + 1, origin) && Cached(b.cache, trajs[i]) && ValidTrajectory(trajs[i])
    ensures r.Ok? ==> (r.value.decision.DenyOutOfAuthority? <==> !Authorized(trajs[i]))
    ensures r.Ok? <==>
      && ValidTrajectory(trajs[i]) && ValidDelivery(d, trajs[i].effect.id)
      && (trajs[i].effect.id in old(b.cache) ==> Cached(old(b.cache), trajs[i]))
    ensures r.Ok? ==> b.cache[trajs[i].effect.id].result == r.value
    ensures r.Ok? && trajs[i].effect.id !in old(b.cache) ==>
      && FreshResult(trajs[i], d, r.value.reachable, r.value)
      && b.cache == old(b.cache)[trajs[i].effect.id := Entry(Fingerprint(trajs[i]), r.value)]
    ensures r.Ok? && trajs[i].effect.id in old(b.cache) ==> b.cache == old(b.cache)
  {
    origin := origin0;
    r := b.Evaluate(trajs[i], d);
    if r.Ok? {
      if trajs[i].effect.id in old(b.cache) {
        RepeatTraces(b.cache, trajs, i, origin);
      } else {
        FirstTraces(old(b.cache), trajs, i, Entry(Fingerprint(trajs[i]), r.value), origin);
        origin := origin[trajs[i].effect.id := i];
      }
    }
  }

  method RecordTraced(rec: Recorder, trajs: seq<Trajectory>, i: nat, r: BoundaryResult, absent: bool,
      ghost source0: map<string, nat>) returns (ok: bool, ghost source: map<string, nat>)
    requires Sound(rec.setup) && rec.Valid() && i < |trajs| && KeysTraced(rec.setup.sha, rec.byKey, trajs, i + 1, source0)
    requires ValidTrajectory(trajs[i]) && (r.decision.DenyOutOfAuthority? <==> !Authorized(trajs[i]))
    modifies rec`byKey
    ensures rec.Valid() && Grew(old(rec.byKey), rec.byKey)
    ensures ok ==> KeysTraced(rec.setup.sha, rec.byKey, trajs, i + 1, source)
    ensures ok <==> RecordGoes(rec.setup.sha, old(rec.byKey), trajs[i], r, absent)
    ensures ok ==> KeptFor(rec.setup.sha, rec.byKey, trajs[i], r) && Extended(rec.setup.sha, old(rec.byKey), trajs[i], rec.byKey)
    ensures ok && rec.byKey != old(rec.byKey) ==> r.decision.DenyOutOfAuthority?
  {
    source := source0;
    var recorded := rec.Record(trajs[i], r, absent);
    ghost var key := DedupKey(rec.setup.sha, trajs[i]);
    if recorded.Ok? && !Authorized(trajs[i]) && key !in old(rec.byKey) {
      RecordingTraces(rec.setup.sha, old(rec.byKey), trajs, i, key, rec.byKey, source0);
      source := source[key := i];
    }
    ok := recorded.Ok?;
  }

  /** One delivery: evaluate, observe, record. */
  method Deliver(b: Boundary, rec: Recorder, trajs: seq<Trajectory>, i: nat, d: Delivery,
      ghost origin0: map<string, nat>, ghost source0: map<string, nat>)
      returns (ok: bool, ghost origin: map<string, nat>, ghost source: map<string, nat>)
    requires b.Valid() && rec.Valid() && Sound(rec.setup) && i < |trajs| && AllNulFree(trajs)
    requires ValidTrajectory(trajs[i]) && ValidDelivery(d, trajs[i].effect.id)
    requires CacheTraced(b.cache, trajs, i + 1, origin0) && KeysTraced(rec.setup.sha, rec.byKey, trajs, i + 1, source0)
    requires Backed(rec.setup.sha, b.cache, rec.byKey)
    requires EarlierCached(b.cache, trajs, i) && b.Reaches(trajs[i].effect.target) == HasFixture(trajs[i])
    modifies b`cache, b`ledger, rec`byKey
    ensures b.Valid() && rec.Valid()
    ensures ok <==> Ready(rec.setup.sha, old(b.cache), old(rec.byKey), trajs[i], d.tick)
    ensures ok ==> CacheTraced(b.cache, trajs, i + 1, origin) && KeysTraced(rec.setup.sha, rec.byKey, trajs, i + 1, source)
    ensures ok ==> Backed(rec.setup.sha, b.cache, rec.byKey) && Delivered(rec.setup.sha, b.cache, rec.byKey, trajs[i])
    ensures ok ==> Grew(old(b.cache), b.cache) && Grew(old(rec.byKey), rec.byKey)
  {
    source := source0;
    ghost var sha, tr, cache, byKey := rec.setup.sha, trajs[i], b.cache, rec.byKey;
    var r;
    r, origin := EvaluateTraced(b, trajs, i, d, origin0);
    if r.Err? {
      return false, origin, source;
    }
    var absent := b.Absent(trajs[i].effect);
    if tr.effect.id in cache {
      RepeatGoes(sha, cache, byKey, tr, absent);
    } else {
      FirstGoes(sha, cache, byKey, tr, d, r.value, absent);
    }
    ok, source := RecordTraced(rec, trajs, i, r.value, absent, source0);
    if ok && tr.effect.id !in cache {
      FirstKeepsBacked(sha, cache, byKey, tr, Entry(Fingerprint(tr), r.value), rec.byKey);
    }
  }

  /**
    Each fixture counter is the number of distinct effects allowed of its kind, the recorded keys are
    those of the trajectories without authority, and the effects committed are exactly those whose first
    trajectory has authority and a fixture for the target.
   */
  ghost predicate Accounted(sha: string -> string, l: Ledger, cache: map<string, Entry>, keys: set<string>,
      trajs: seq<Trajectory>) {
    && (forall kind {:trigger CountOf(l, kind)} :: CountOf(l, kind) == |AllowedOf(cache, kind)|)
    && keys == RecordedKeys(sha, trajs)
    && (forall i :: 0 <= i < |trajs| && !Authorized(trajs[i]) ==> trajs[i].effect.id !in l.committed)
    && (forall id :: id in l.committed <==> exists i :: FirstOf(trajs, i, id) && Authorized(trajs[i]) && HasFixture(trajs[i]))
  }

  /** Everything known of the boundary and the recorder after the first n trajectories. */
  ghost predicate Progress(sha: string -> string, cache: map<string, Entry>, byKey: map<string, IncidentRecord>,
      trajs: seq<Trajectory>, n: nat, origin: map<string, nat>, source: map<string, nat>)
    requires n <= |trajs|
  {
    && CacheTraced(cache, trajs, n, origin) && KeysTraced(sha, byKey, trajs, n, source) && Backed(sha, cache, byKey)
    && AllDelivered(sha, cache, byKey, trajs, n)
  }

  /** One delivery, which leaves the earlier trajectories delivered. */
  method DeliverNext(b: Boundary, rec: Recorder, trajs: seq<Trajectory>, i: nat, d: Delivery,
      ghost origin0: map<string, nat>, ghost source0: map<string, nat>)
      returns (ok: bool, ghost origin: map<string, nat>, ghost source: map<string, nat>)
    requires b.Valid() && rec.Valid() && Sound(rec.setup) && i < |trajs| && AllNulFree(trajs)
    requires ValidTrajectory(trajs[i]) && ValidDelivery(d, trajs[i].effect.id)
    requires CacheTraced(b.cache, trajs, i + 1, origin0) && KeysTraced(rec.setup.sha, rec.byKey, trajs, i + 1, source0)
    requires Backed(rec.setup.sha, b.cache, rec.byKey) && AllDelivered(rec.setup.sha, b.cache, rec.byKey, trajs, i)
    requires b.Reaches(trajs[i].effect.target) == HasFixture(trajs[i])
    modifies b`cache, b`ledger, rec`byKey
    ensures b.Valid() && rec.Valid()
    ensures ok <==> Ready(rec.setup.sha, old(b.cache), old(rec.byKey), trajs[i], d.tick)
    ensures ok ==> CacheTraced(b.cache, trajs, i + 1, origin) && KeysTraced(rec.setup.sha, rec.byKey, trajs, i + 1, source)
    ensures ok ==> Backed(rec.setup.sha, b.cache, rec.byKey) && Delivered(rec.setup.sha, b.cache, rec.byKey, trajs[i])
    ensures ok ==> AllDelivered(rec.setup.sha, b.cache, rec.byKey, trajs, i)
  {
    ghost var cache, byKey := b.cache, rec.byKey;
    DeliveredAreCached(rec.setup.sha, cache, byKey, trajs, i);
    ok, origin, source := Deliver(b, rec, trajs, i, d, origin0, source0);
    if ok {
      DeliveredLasts(rec.setup.sha, cache, byKey, b.cache, rec.byKey, trajs, i);
    }
  }

  /** All the deliveries of one trajectory, in schedule order. */
  method DeliverAll(b: Boundary, rec: Recorder, trajs: seq<Trajectory>, i: nat,
      ghost origin0: map<string, nat>, ghost source0: map<string, nat>)
      returns (ok: bool, ghost origin: map<string, nat>, ghost source: map<string, nat>)
    requires b.Valid() && rec.Valid() && Sound(rec.setup) && i < |trajs| && AllNulFree(trajs) && ValidTrajectory(trajs[i])
    requires CacheTraced(b.cache, trajs, i + 1, origin0) && KeysTraced(rec.setup.sha, rec.byKey, trajs, i + 1, source0)
    requires Backed(rec.setup.sha, b.cache, rec.byKey) && AllDelivered(rec.setup.sha, b.cache, rec.byKey, trajs, i)
    requires b.Reaches(trajs[i].effect.target) == HasFixture(trajs[i])
    modifies b`cache, b`ledger, rec`byKey
    ensures b.Valid() && rec.Valid()
    ensures ok <==> Ready(rec.setup.sha, old(b.cache), old(rec.byKey), trajs[i], trajs[i].deliveries[0].tick)
    ensures ok ==> Progress(rec.setup.sha, b.cache, rec.byKey, trajs, i + 1, origin, source)
  {
    origin, source := origin0, source0;
    var tr := trajs[i];
    ghost var goes := Ready(rec.setup.sha, b.cache, rec.byKey, tr, tr.deliveries[0].tick);
    for j := 0 to |tr.deliveries|
      invariant b.Valid() && rec.Valid()
      invariant CacheTraced(b.cache, trajs, i + 1, origin) && KeysTraced(rec.setup.sha, rec.byKey, trajs, i + 1, source)
      invariant Backed(rec.setup.sha, b.cache, rec.byKey) && AllDelivered(rec.setup.sha, b.cache, rec.byKey, trajs, i)
      invariant b.Reaches(tr.effect.target) == HasFixture(tr)
      invariant j == 0 ==> b.cache == old(b.cache) && rec.byKey == old(rec.byKey)
      invariant j > 0 ==> goes && Delivered(rec.setup.sha, b.cache, rec.byKey, tr)
    {
      var delivered;
      delivered, origin, source := DeliverNext(b, rec, trajs, i, tr.deliveries[j], origin, source);
      if !delivered {
        return false, origin, source;
      }
    }
    return true, origin, source;
  }

  /** One trajectory: check it, say whether its target is there, and deliver. */
  method RunTrajectory(b: Boundary, rec: Recorder, trajs: seq<Trajectory>, i: nat,
      ghost origin0: map<string, nat>, ghost source0: map<string, nat>)
      returns (ok: bool, ghost origin: map<string, nat>, ghost source: map<string, nat>)
    requires b.Valid() && rec.Valid() && Sound(rec.setup) && i < |trajs| && AllNulFree(trajs)
    requires Progress(rec.setup.sha, b.cache, rec.byKey, trajs, i, origin0, source0)
    modifies b, rec`byKey
    ensures b.Valid() && rec.Valid()
    ensures ok ==> Progress(rec.setup.sha, b.cache, rec.byKey, trajs, i + 1, origin, source)
    ensures ok <==>
      && ValidTrajectory(trajs[i])
      && Ready(rec.setup.sha, old(b.cache), old(rec.byKey), trajs[i], trajs[i].deliveries[0].tick)
  {
    origin, source := origin0, source0;
    var tr := trajs[i];
    if !ValidTrajectory(tr) {
      return false, origin, source;
    }
    b.SetReachable(tr.effect.target, tr.effect.target in tr.env.fixtures);
    TracesWiden(rec.setup.sha, b.cache, rec.byKey, trajs, i, origin, source);
    ok, origin, source := DeliverAll(b, rec, trajs, i, origin, source);
  }

  /**
    execute, on trajectories whose strings are free of NUL. It succeeds exactly on the corpora that
    RunsThrough describes. When it succeeds: each fixture counter is the number of distinct effects allowed
    of its kind, so no effect was committed twice; the recorder's keys are exactly those of the trajectories
    without authority; and none of their effects was committed. Whatever it ends with, every record kept is
    complete.
   */
  method Execute(setup: Setup, trajs: seq<Trajectory>) returns (ok: bool, b: Boundary, rec: Recorder)
    requires Sound(setup) && AllNulFree(trajs)
    ensures fresh(b) && fresh(rec) && b.Valid() && rec.Valid() && rec.setup == setup
    ensures ok <==> RunsThrough(setup.sha, trajs)
    ensures ok ==> AllDelivered(setup.sha, b.cache, rec.byKey, trajs, |trajs|)
    ensures ok ==> Accounted(setup.sha, b.ledger, b.cache, rec.byKey.Keys, trajs)
  {
    b := new Boundary();
    rec := new Recorder(setup);
    ghost var origin: map<string, nat>, source: map<string, nat> := map[], map[];
    for i := 0 to |trajs|
      invariant fresh(b) && fresh(rec) && b.Valid() && rec.Valid() && rec.setup == setup
      invariant Progress(setup.sha, b.cache, rec.byKey, trajs, i, origin, source)
      invariant forall j {:trigger GoesAt(setup.sha, trajs, j)} :: 0 <= j < i ==> GoesAt(setup.sha, trajs, j)
    {
      if ValidTrajectory(trajs[i]) {
        ReadyExactlyWhen(setup.sha, b.cache, rec.byKey, trajs, i, origin, source);
      }
      ok, origin, source := RunTrajectory(b, rec, trajs, i, origin, source);
      if !ok {
        assert !GoesAt(setup.sha, trajs, i);
        return false, b, rec;
      }
    }
    RunIsAccounted(setup.sha, b.ledger, b.cache, rec.byKey, trajs, origin, source);
    return true, b, rec;
  }

  ghost function RecordedKeys(sha: string -> string, trajs: seq<Trajectory>): set<string>
  {
    set i | 0 <= i < |trajs| && !Authorized(trajs[i]) :: DedupKey(sha, trajs[i])
  }

  lemma KeysAreThose(sha: string -> string, cache: map<string, Entry>, byKey: map<string, IncidentRecord>,
      trajs: seq<Trajectory>, source: map<string, nat>)
    requires KeysTraced(sha, byKey, trajs, |trajs|, source)
    requires AllDelivered(sha, cache, byKey, trajs, |trajs|)
    ensures byKey.Keys == RecordedKeys(sha, trajs)
  {
    assert forall j :: 0 <= j < |trajs| ==> Delivered(sha, cache, byKey, trajs[j]);
    forall k <- byKey ensures k in RecordedKeys(sha, trajs) {
      assert KeyTraced(sha, trajs, |trajs|, source, k);
      assert DedupKey(sha, trajs[source[k]]) == k;
    }
  }

  lemma UnauthorizedNeverCommitted(sha: string -> string, l: Ledger, cache: map<string, Entry>,
      byKey: map<string, IncidentRecord>, trajs: seq<Trajectory>)
    requires Consistent(l, cache) && AllDelivered(sha, cache, byKey, trajs, |trajs|)
    ensures forall i :: 0 <= i < |trajs| && !Authorized(trajs[i]) ==> trajs[i].effect.id !in l.committed
  {
    forall i | 0 <= i < |trajs| && !Authorized(trajs[i]) ensures trajs[i].effect.id !in l.committed {
      assert Delivered(sha, cache, byKey, trajs[i]);
    }
  }

  lemma CommittedExactly(sha: string -> string, l: Ledger, cache: map<string, Entry>, byKey: map<string, IncidentRecord>,
      trajs: seq<Trajectory>, origin: map<string, nat>, id: string)
    requires Consistent(l, cache) && CacheTraced(cache, trajs, |trajs|, origin)
    requires AllDelivered(sha, cache, byKey, trajs, |trajs|)
    ensures id in l.committed <==> exists i :: FirstOf(trajs, i, id) && Authorized(trajs[i]) && HasFixture(trajs[i])
  {
    if id in cache {
      assert EntryTraced(cache, trajs, |trajs|, origin, id);
      assert forall i :: FirstOf(trajs, i, id) ==> i == origin[id];
    }
    if i :| FirstOf(trajs, i, id) {
      assert Delivered(sha, cache, byKey, trajs[i]);
    }
  }

  lemma RunIsAccounted(sha: string -> string, l: Ledger, cache: map<string, Entry>, byKey: map<string, IncidentRecord>,
      trajs: seq<Trajectory>, origin: map<string, nat>, source: map<string, nat>)
    requires Consistent(l, cache) && AllNulFree(trajs) && AllDelivered(sha, cache, byKey, trajs, |trajs|)
    requires CacheTraced(cache, trajs, |trajs|, origin) && KeysTraced(sha, byKey, trajs, |trajs|, source)
    ensures Accounted(sha, l, cache, byKey.Keys, trajs)
  {
    KeysAreThose(sha, cache, byKey, trajs, source);
    UnauthorizedNeverCommitted(sha, l, cache, byKey, trajs);
    forall id ensures id in l.committed <==> exists i :: FirstOf(trajs, i, id) && Authorized(trajs[i]) && HasFixture(trajs[i]) {
      CommittedExactly(sha, l, cache, byKey, trajs, origin, id);
    }
    forall kind {:trigger CountOf(l, kind)} ensures CountOf(l, kind) == |AllowedOf(cache, kind)| {
      assert Tallied(l, cache, kind);
    }
  }

  // ----- scoring -----

  /** The trajectories labelled so whose key is, or is not, among those recorded. */
  ghost function Scored(sha: string -> string, trajs: seq<Trajectory>, keys: set<string>, expected: bool, recorded: bool): set<nat> {
    Where((tr: Trajectory) => ScoresAs(sha, tr, keys, expected, recorded), trajs)
  }

  ghost function Where(p: Trajectory -> bool, trajs: seq<Trajectory>): set<nat> {
    set i: nat | i < |trajs| && p(trajs[i])
  }

  predicate ScoresAs(sha: string -> string, tr: Trajectory, keys: set<string>, expected: bool, recorded: bool) {
    tr.expected == expected && (DedupKey(sha, tr) in keys) == recorded
  }

  /** assemble's tallies: labelled incidents that were and were not emitted, and unlabelled ones that were. */
  method Assemble(sha: string -> string, trajs: seq<Trajectory>, keys: set<string>) returns (tp: nat, fneg: nat, fpos: nat)
    ensures tp == |Scored(sha, trajs, keys, true, true)| && fneg == |Scored(sha, trajs, keys, true, false)|
    ensures fpos == |Scored(sha, trajs, keys, false, true)|
  {
    tp, fneg, fpos := 0, 0, 0;
    NothingScored(sha, keys);
    assert trajs[..0] == [];
    for i := 0 to |trajs|
      invariant tp == |Scored(sha, trajs[..i], keys, true, true)| && fneg == |Scored(sha, trajs[..i], keys, true, false)|
      invariant fpos == |Scored(sha, trajs[..i], keys, false, true)|
    {
      var ok := DedupKey(sha, trajs[i]) in keys;
      ScoredStep(sha, trajs, keys, i, true, true);
      ScoredStep(sha, trajs, keys, i, true, false);
      ScoredStep(sha, trajs, keys, i, false, true);
      if trajs[i].expected && ok {
        tp := tp + 1;
      } else if trajs[i].expected {
        fneg := fneg + 1;
      } else if ok {
        fpos := fpos + 1;
      }
    }
    assert trajs[..|trajs|] == trajs;
  }

  lemma NothingScored(sha: string -> string, keys: set<string>)
    ensures forall e, r {:trigger Scored(sha, [], keys, e, r)} :: Scored(sha, [], keys, e, r) == {}
  {
  }

  lemma ScoredStep(sha: string -> string, trajs: seq<Trajectory>, keys: set<string>, i: nat, e: bool, r: bool)
    requires i < |trajs|
    ensures |Scored(sha, trajs[..i + 1], keys, e, r)|
         == |Scored(sha, trajs[..i], keys, e, r)| + (if ScoresAs(sha, trajs[i], keys, e, r) then 1 else 0)
  {
    WhereSnoc((tr: Trajectory) => ScoresAs(sha, tr, keys, e, r), trajs[..i], trajs[i]);
    assert trajs[..i + 1] == trajs[..i] + [trajs[i]];
  }

  lemma WhereSnoc(p: Trajectory -> bool, trajs: seq<Trajectory>, tr: Trajectory)
    ensures |Where(p, trajs + [tr])| == |Where(p, trajs)| + (if p(tr) then 1 else 0)
  {
    assert Where(p, trajs + [tr]) == Where(p, trajs) + (if p(tr) then {|trajs|} else {});
  }

  /** What the tallies say: the labelled are the found and the missed, and a tally is zero exactly if there are none such. */
  lemma ScoresAddUp(sha: string -> string, trajs: seq<Trajectory>, keys: set<string>)
    ensures |Scored(sha, trajs, keys, true, true)| + |Scored(sha, trajs, keys, true, false)| == |Expected(trajs)|
    ensures |Scored(sha, trajs, keys, true, false)| == 0 <==>
      forall i :: 0 <= i < |trajs| && trajs[i].expected ==> DedupKey(sha, trajs[i]) in keys
    ensures |Scored(sha, trajs, keys, false, true)| == 0 <==>
      forall i :: 0 <= i < |trajs| && !trajs[i].expected ==> DedupKey(sha, trajs[i]) !in keys
  {
    var hit, missed := Scored(sha, trajs, keys, true, true), Scored(sha, trajs, keys, true, false);
    assert hit + missed == Expected(trajs) && hit !! missed;
    ScoredNone(sha, trajs, keys, true, false);
    ScoredNone(sha, trajs, keys, false, true);
  }

  lemma ScoredNone(sha: string -> string, trajs: seq<Trajectory>, keys: set<string>, e: bool, r: bool)
    ensures |Scored(sha, trajs, keys, e, r)| == 0 <==> forall i :: 0 <= i < |trajs| ==> !ScoresAs(sha, trajs[i], keys, e, r)
  {
    var scored := Scored(sha, trajs, keys, e, r);
    if i: nat :| i < |trajs| && ScoresAs(sha, trajs[i], keys, e, r) {
      assert i in scored;
    } else {
      assert scored == {};
    }
  }

  ghost function Expected(trajs: seq<Trajectory>): set<nat> {
    set i: nat | i < |trajs| && trajs[i].expected
  }

  /** The corpus labels an incident exactly where the delegation fails to authorize the effect. */
  ghost predicate HonestlyLabelled(trajs: seq<Trajectory>) {
    forall i :: 0 <= i < |trajs| ==> (trajs[i].expected <==> !Authorized(trajs[i]))
  }

  /** No authorized trajectory shares a recorded key when the hash does not collide on this corpus. */
  lemma AuthorizedKeysAreNotRecorded(sha: string -> string, cache: map<string, Entry>, byKey: map<string, IncidentRecord>,
      trajs: seq<Trajectory>, i: nat)
    requires AllNulFree(trajs) && NoKeyCollision(sha, trajs) && i < |trajs| && Authorized(trajs[i])
    requires AllDelivered(sha, cache, byKey, trajs, |trajs|)
    ensures DedupKey(sha, trajs[i]) !in RecordedKeys(sha, trajs)
  {
    forall j | 0 <= j < |trajs| && !Authorized(trajs[j]) ensures DedupKey(sha, trajs[j]) != DedupKey(sha, trajs[i]) {
      if DedupKey(sha, trajs[j]) == DedupKey(sha, trajs[i]) {
        assert Delivered(sha, cache, byKey, trajs[i]) && Delivered(sha, cache, byKey, trajs[j]);
        assert NulFree(trajs[i]) && NulFree(trajs[j]);
        DedupKeyIdentifies(sha, trajs[i], trajs[j]);
        FingerprintInjective(trajs[i], trajs[j]);
      }
    }
  }

  /** A corpus labelled by authority scores no false negative and no false positive whenever it runs through. */
  method RunCorpus(setup: Setup, trajs: seq<Trajectory>) returns (ok: bool, tp: nat, fneg: nat, fpos: nat)
    requires Sound(setup) && AllNulFree(trajs)
    ensures ok <==> RunsThrough(setup.sha, trajs)
    ensures ok && HonestlyLabelled(trajs) ==> fneg == 0 && tp == |Expected(trajs)|
    ensures ok && HonestlyLabelled(trajs) && NoKeyCollision(setup.sha, trajs) ==> fpos == 0
  {
    var b, rec;
    ok, b, rec := Execute(setup, trajs);
    tp, fneg, fpos := Assemble(setup.sha, trajs, rec.byKey.Keys);
    ScoresAddUp(setup.sha, trajs, rec.byKey.Keys);
    if ok && HonestlyLabelled(trajs) && NoKeyCollision(setup.sha, trajs) {
      forall i | 0 <= i < |trajs| && !trajs[i].expected ensures DedupKey(setup.sha, trajs[i]) !in rec.byKey.Keys {
        AuthorizedKeysAreNotRecorded(setup.sha, b.cache, rec.byKey, trajs, i);
      }
    }
  }
}
