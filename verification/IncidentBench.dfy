/**
  The incident bench's action boundary: trajectories, authority, fingerprints, the fixture ledger and
  the result cache (internal/incidentbench/boundary.go, internal/incidentbench/model.go).

  uint64 values are naturals; a fixture counter would need 2^64 commits to wrap.
 */
module IncidentBench {
  import opened Wrappers
  import opened Framing

  // ----- trajectories -----

  datatype Kind =
    | ExternalNetwork | CredentialRead | CrossTenantRequest | PackagePublication | LateralMovement
    | UnknownKind(text: string)

  function KindText(k: Kind): string {
    match k
    case ExternalNetwork => "external_network"
    case CredentialRead => "credential_read"
    case CrossTenantRequest => "cross_tenant_request"
    case PackagePublication => "package_publication"
    case LateralMovement => "lateral_movement"
    case UnknownKind(text) => text
  }

  lemma KindTextInjective(a: Kind, b: Kind)
    requires ValidKind(a) && ValidKind(b) && KindText(a) == KindText(b)
    ensures a == b
  {
    assert KindText(a)[0] == KindText(b)[0] && KindText(a)[1] == KindText(b)[1];
  }

  datatype Epoch = Epoch(policy: nat, authority: nat)

  datatype Grant = Grant(kind: Kind, target: string, tenant: string)

  datatype Environment = Environment(id: string, principal: string, tenant: string, fixtures: seq<string>)

  datatype Authority = Authority(
    id: string, principal: string, delegator: string, tenant: string, grants: seq<Grant>, epoch: Epoch)

  datatype Effect = Effect(id: string, kind: Kind, target: string, tenant: string, consequential: bool)

  datatype Telemetry = Present | Missing | UnknownTelemetry(text: string)

  datatype DeliveryKind = Primary | Duplicate | Replay | UnknownDelivery(text: string)

  datatype Delivery = Delivery(id: string, effectId: string, tick: nat, kind: DeliveryKind)

  /** `expected` is the corpus label: the scenario calls for an incident. */
  datatype Trajectory = Trajectory(
    id: string, env: Environment, authority: Authority, effect: Effect, epoch: Epoch,
    telemetry: Telemetry, deliveries: seq<Delivery>, expected: bool)

  predicate ValidKind(k: Kind) {
    !k.UnknownKind?
  }

  predicate ValidDelivery(d: Delivery, effectId: string) {
    !d.kind.UnknownDelivery? && d.id != "" && d.effectId == effectId
  }

  predicate ValidTrajectory(tr: Trajectory) {
    && tr.id != "" && tr.effect.id != "" && tr.effect.target != "" && tr.effect.tenant != ""
    && ValidKind(tr.effect.kind) && tr.effect.consequential && !tr.telemetry.UnknownTelemetry?
    && tr.deliveries != []
    && (forall i :: 0 <= i < |tr.deliveries| ==> ValidDelivery(tr.deliveries[i], tr.effect.id))
    && (forall i :: 0 <= i < |tr.authority.grants| ==> ValidKind(tr.authority.grants[i].kind))
  }

  // ----- authority -----

  datatype AuthReason =
    | PrincipalMismatch | TenantMismatch | StalePolicyEpoch | StaleAuthorityEpoch | NoMatchingGrant
    | AuthorizedReason | Unreachable

  predicate GrantMatches(g: Grant, e: Effect) {
    g.kind == e.kind && g.target == e.target && g.tenant == e.tenant
  }

  /** The delegation is for the declared principal and tenant, is current, and grants exactly the effect. */
  ghost predicate Authorized(tr: Trajectory) {
    && tr.authority.principal == tr.env.principal && tr.authority.tenant == tr.env.tenant
    && tr.authority.epoch == tr.epoch
    && exists i :: 0 <= i < |tr.authority.grants| && GrantMatches(tr.authority.grants[i], tr.effect)
  }

  /** Spelled out: a grant of exactly the effect's kind, target and tenant, to the declared principal and tenant, in both epochs. */
  lemma AuthorizedExactlyWhen(tr: Trajectory)
    ensures Authorized(tr) <==>
      && tr.authority.principal == tr.env.principal && tr.authority.tenant == tr.env.tenant
      && tr.authority.epoch.policy == tr.epoch.policy && tr.authority.epoch.authority == tr.epoch.authority
      && Grant(tr.effect.kind, tr.effect.target, tr.effect.tenant) in tr.authority.grants
  {
    var wanted := Grant(tr.effect.kind, tr.effect.target, tr.effect.tenant);
    if i :| 0 <= i < |tr.authority.grants| && GrantMatches(tr.authority.grants[i], tr.effect) {
      assert tr.authority.grants[i] == wanted;
    }
    if wanted in tr.authority.grants {
      var i :| 0 <= i < |tr.authority.grants| && tr.authority.grants[i] == wanted;
      assert GrantMatches(tr.authority.grants[i], tr.effect);
    }
  }

  /** The five kinds of effect. */
  predicate Known(k: Kind) {
    k == ExternalNetwork || k == CredentialRead || k == CrossTenantRequest || k == PackagePublication || k == LateralMovement
  }

  /** Spelled out: everything named and of a known kind, consequential, and delivered at least once, always for its own effect. */
  lemma ValidExactlyWhen(tr: Trajectory)
    ensures ValidTrajectory(tr) <==>
      && tr.id != "" && tr.effect.id != "" && tr.effect.target != "" && tr.effect.tenant != "" && tr.effect.consequential
      && Known(tr.effect.kind) && (tr.telemetry == Present || tr.telemetry == Missing) && |tr.deliveries| > 0
      && (forall d <- tr.deliveries ::
            d.id != "" && d.effectId == tr.effect.id && (d.kind == Primary || d.kind == Duplicate || d.kind == Replay))
      && (forall g <- tr.authority.grants :: Known(g.kind))
  {
    assert forall k :: ValidKind(k) <==> Known(k);
    forall d <- tr.deliveries | ValidTrajectory(tr) ensures ValidDelivery(d, tr.effect.id) {
      var i :| 0 <= i < |tr.deliveries| && tr.deliveries[i] == d;
    }
    forall g <- tr.authority.grants | ValidTrajectory(tr) ensures ValidKind(g.kind) {
      var i :| 0 <= i < |tr.authority.grants| && tr.authority.grants[i] == g;
    }
  }

  method CheckAuth(tr: Trajectory) returns (ok: bool, reason: AuthReason)
    ensures ok <==> Authorized(tr)
    ensures ok <==> reason == AuthorizedReason
    ensures reason != Unreachable
  {
    var d := tr.authority;
    if d.principal != tr.env.principal {
      return false, PrincipalMismatch;
    }
    if d.tenant != tr.env.tenant {
      return false, TenantMismatch;
    }
    if d.epoch.policy != tr.epoch.policy {
      return false, StalePolicyEpoch;
    }
    if d.epoch.authority != tr.epoch.authority {
      return false, StaleAuthorityEpoch;
    }
    for i := 0 to |d.grants|
      invariant forall j :: 0 <= j < i ==> !GrantMatches(d.grants[j], tr.effect)
    {
      if GrantMatches(d.grants[i], tr.effect) {
        return true, AuthorizedReason;
      }
    }
    return false, NoMatchingGrant;
  }

  // ----- fingerprints -----

  function GrantParts(grants: seq<Grant>): seq<string> {
    if grants == [] then []
    else [KindText(grants[0].kind), grants[0].target, grants[0].tenant] + GrantParts(grants[1..])
  }

  function FixedParts(tr: Trajectory): seq<string> {
    [KindText(tr.effect.kind), tr.effect.target, tr.effect.tenant,
     tr.env.principal, tr.env.tenant, tr.authority.principal, tr.authority.tenant,
     Decimal(tr.authority.epoch.policy), Decimal(tr.authority.epoch.authority),
     Decimal(tr.epoch.policy), Decimal(tr.epoch.authority)]
  }

  function Parts(tr: Trajectory): seq<string> {
    FixedParts(tr) + GrantParts(tr.authority.grants)
  }

  function Fingerprint(tr: Trajectory): string {
    Join('\0', Parts(tr))
  }

  lemma {:induction false} GrantPartsSnoc(grants: seq<Grant>, g: Grant)
    ensures GrantParts(grants + [g]) == GrantParts(grants) + [KindText(g.kind), g.target, g.tenant]
  {
    if grants == [] {
      assert grants + [g] == [g];
    } else {
      assert (grants + [g])[1..] == grants[1..] + [g];
      GrantPartsSnoc(grants[1..], g);
    }
  }

  /** fingerprint: the loop over the grants appends three parts for each. */
  method BuildFingerprint(tr: Trajectory) returns (fp: string)
    ensures fp == Fingerprint(tr)
  {
    var parts := FixedParts(tr);
    var grants := tr.authority.grants;
    for i := 0 to |grants|
      invariant parts == FixedParts(tr) + GrantParts(grants[..i])
    {
      assert grants[..i + 1] == grants[..i] + [grants[i]];
      GrantPartsSnoc(grants[..i], grants[i]);
      parts := parts + [KindText(grants[i].kind), grants[i].target, grants[i].tenant];
    }
    assert grants[..|grants|] == grants;
    fp := Join('\0', parts);
  }

  /** No string that goes into a fingerprint or a deduplication key contains NUL. */
  ghost predicate NulFree(tr: Trajectory) {
    FreeOf('\0', Parts(tr)) && '\0' !in tr.id && '\0' !in tr.effect.id
  }

  lemma {:induction false} GrantPartsInjective(a: seq<Grant>, b: seq<Grant>)
    requires GrantParts(a) == GrantParts(b)
    requires forall i :: 0 <= i < |a| ==> ValidKind(a[i].kind)
    requires forall i :: 0 <= i < |b| ==> ValidKind(b[i].kind)
    ensures a == b
  {
    if a != [] && b != [] {
      var x, y := GrantParts(a), GrantParts(b);
      assert x[0] == y[0] && x[1] == y[1] && x[2] == y[2];
      KindTextInjective(a[0].kind, b[0].kind);
      assert x[3..] == GrantParts(a[1..]) && y[3..] == GrantParts(b[1..]);
      GrantPartsInjective(a[1..], b[1..]);
      assert a == [a[0]] + a[1..] && b == [b[0]] + b[1..];
    }
  }

  /** One fingerprint, one effect, one declared principal and tenant, one delegation, one pair of epochs. */
  lemma FingerprintInjective(a: Trajectory, b: Trajectory)
    requires ValidTrajectory(a) && ValidTrajectory(b) && NulFree(a) && NulFree(b) && Fingerprint(a) == Fingerprint(b)
    ensures a.effect.kind == b.effect.kind && a.effect.target == b.effect.target && a.effect.tenant == b.effect.tenant
    ensures a.env.principal == b.env.principal && a.env.tenant == b.env.tenant
    ensures a.authority.principal == b.authority.principal && a.authority.tenant == b.authority.tenant
    ensures a.authority.epoch == b.authority.epoch && a.epoch == b.epoch
    ensures a.authority.grants == b.authority.grants
    ensures Authorized(a) <==> Authorized(b)
  {
    var x, y := Parts(a), Parts(b);
    JoinInjective('\0', x, y);
    assert FixedParts(a) == x[..11] && FixedParts(b) == y[..11];
    FixedPartsInjective(a, b);
    assert GrantParts(a.authority.grants) == x[11..] && GrantParts(b.authority.grants) == y[11..];
    GrantPartsInjective(a.authority.grants, b.authority.grants);
  }

  lemma FixedPartsInjective(a: Trajectory, b: Trajectory)
    requires FixedParts(a) == FixedParts(b) && ValidKind(a.effect.kind) && ValidKind(b.effect.kind)
    ensures a.effect.kind == b.effect.kind && a.effect.target == b.effect.target && a.effect.tenant == b.effect.tenant
    ensures a.env.principal == b.env.principal && a.env.tenant == b.env.tenant
    ensures a.authority.principal == b.authority.principal && a.authority.tenant == b.authority.tenant
    ensures a.authority.epoch == b.authority.epoch && a.epoch == b.epoch
  {
    var x, y := FixedParts(a), FixedParts(b);
    assert forall i :: 0 <= i < 11 ==> x[i] == y[i];
    assert x[0] == y[0] && x[1] == y[1] && x[2] == y[2] && x[3] == y[3] && x[4] == y[4] && x[5] == y[5] && x[6] == y[6];
    assert x[7] == y[7] && x[8] == y[8] && x[9] == y[9] && x[10] == y[10];
    KindTextInjective(a.effect.kind, b.effect.kind);
    DecimalInjective(a.authority.epoch.policy, b.authority.epoch.policy);
    DecimalInjective(a.authority.epoch.authority, b.authority.epoch.authority);
    DecimalInjective(a.epoch.policy, b.epoch.policy);
    DecimalInjective(a.epoch.authority, b.epoch.authority);
  }

  // ----- the fixture ledger -----

  datatype Ledger = Ledger(
    committed: set<string>, netSent: map<string, nat>, credRead: nat,
    tenantHit: map<string, nat>, published: map<string, nat>, hostMove: map<string, nat>)

  const EMPTY_LEDGER := Ledger({}, map[], 0, map[], map[], map[])

  function Bumped(m: map<string, nat>, target: string): map<string, nat> {
    m[target := (if target in m then m[target] else 0) + 1]
  }

  function Committed(l: Ledger, e: Effect): Ledger {
    var l' := l.(committed := l.committed + {e.id});
    match e.kind
    case ExternalNetwork => l'.(netSent := Bumped(l.netSent, e.target))
    case CredentialRead => l'.(credRead := l.credRead + 1)
    case CrossTenantRequest => l'.(tenantHit := Bumped(l.tenantHit, e.target))
    case PackagePublication => l'.(published := Bumped(l.published, e.target))
    case LateralMovement => l'.(hostMove := Bumped(l.hostMove, e.target))
    case UnknownKind(_) => l'
  }

  ghost function SumOver(keys: set<string>, m: map<string, nat>): nat
    requires keys <= m.Keys
  {
    if keys == {} then 0 else var k :| k in keys; m[k] + SumOver(keys - {k}, m)
  }

  /** The sum does not depend on the order of the keys. */
  lemma {:induction false} SumTakesAny(keys: set<string>, m: map<string, nat>, k: string)
    requires keys <= m.Keys && k in keys
    ensures SumOver(keys, m) == m[k] + SumOver(keys - {k}, m)
    decreases |keys|
  {
    var first :| first in keys && SumOver(keys, m) == m[first] + SumOver(keys - {first}, m);
    if first != k {
      SumTakesAny(keys - {first}, m, k);
      SumTakesAny(keys - {k}, m, first);
      assert keys - {first} - {k} == keys - {k} - {first};
    }
  }

  lemma {:induction false} SumOverAgrees(keys: set<string>, m: map<string, nat>, m': map<string, nat>)
    requires keys <= m.Keys && keys <= m'.Keys && forall k <- keys :: m[k] == m'[k]
    ensures SumOver(keys, m) == SumOver(keys, m')
    decreases |keys|
  {
    if keys != {} {
      var k :| k in keys;
      SumTakesAny(keys, m, k);
      SumTakesAny(keys, m', k);
      SumOverAgrees(keys - {k}, m, m');
    }
  }

  ghost function Sum(m: map<string, nat>): nat {
    SumOver(m.Keys, m)
  }

  lemma BumpAddsOne(m: map<string, nat>, target: string)
    ensures Sum(Bumped(m, target)) == Sum(m) + 1
  {
    var m' := Bumped(m, target);
    SumTakesAny(m'.Keys, m', target);
    assert m'.Keys - {target} == m.Keys - {target};
    SumOverAgrees(m.Keys - {target}, m, m');
    if target in m {
      SumTakesAny(m.Keys, m, target);
    } else {
      assert m.Keys - {target} == m.Keys;
    }
  }

  method SumMap(m: map<string, nat>) returns (n: nat)
    ensures n == Sum(m)
  {
    n := 0;
    var keys := m.Keys;
    while keys != {}
      invariant keys <= m.Keys
      invariant n + SumOver(keys, m) == Sum(m)
      decreases |keys|
    {
      var k :| k in keys;
      SumTakesAny(keys, m, k);
      n := n + m[k];
      keys := keys - {k};
    }
  }

  /** What fixtureCount reports for a kind. */
  ghost function CountOf(l: Ledger, kind: Kind): nat {
    match kind
    case ExternalNetwork => Sum(l.netSent)
    case CredentialRead => l.credRead
    case CrossTenantRequest => Sum(l.tenantHit)
    case PackagePublication => Sum(l.published)
    case LateralMovement => Sum(l.hostMove)
    case UnknownKind(_) => 0
  }

  method FixtureCount(l: Ledger, kind: Kind) returns (n: nat)
    ensures n == CountOf(l, kind)
  {
    match kind {
      case ExternalNetwork => n := SumMap(l.netSent);
      case CredentialRead => n := l.credRead;
      case CrossTenantRequest => n := SumMap(l.tenantHit);
      case PackagePublication => n := SumMap(l.published);
      case LateralMovement => n := SumMap(l.hostMove);
      case UnknownKind(_) => n := 0;
    }
  }

  /** A commit adds one to its own kind's count and to no other. */
  lemma CommitCountsOnce(l: Ledger, e: Effect, kind: Kind)
    requires ValidKind(e.kind)
    ensures CountOf(Committed(l, e), kind) == CountOf(l, kind) + (if kind == e.kind then 1 else 0)
  {
    BumpAddsOne(l.netSent, e.target);
    BumpAddsOne(l.tenantHit, e.target);
    BumpAddsOne(l.published, e.target);
    BumpAddsOne(l.hostMove, e.target);
  }

  // ----- evaluation -----

  datatype Decision = Allow | DenyOutOfAuthority | DenyUnreachable

  datatype BoundaryResult = BoundaryResult(
    trajectoryId: string, deliveryId: string, decision: Decision, reason: AuthReason,
    reachable: bool, authority: Authority, effect: Effect, committed: bool, boundaryTick: nat,
    epoch: Epoch, telemetry: Telemetry)

  datatype Entry = Entry(fingerprint: string, result: BoundaryResult)

  datatype Error =
    | InvalidTrajectory | InvalidDelivery | EffectIdCollision
    | ResultMismatch | Ineligible | IdempotencyCollision | IncompleteReceipt

  /** A first evaluation's result for a trajectory and a delivery. */
  ghost predicate FreshResult(tr: Trajectory, d: Delivery, reachable: bool, r: BoundaryResult) {
    && r.trajectoryId == tr.id && r.deliveryId == d.id && r.authority == tr.authority && r.effect == tr.effect
    && r.epoch == tr.epoch && r.telemetry == tr.telemetry && r.boundaryTick == d.tick && r.reachable == reachable
    && r.decision == (if !Authorized(tr) then DenyOutOfAuthority else if !reachable then DenyUnreachable else Allow)
    && r.committed == r.decision.Allow?
    && (r.decision.Allow? ==> r.reason == AuthorizedReason)
    && (r.decision.DenyUnreachable? ==> r.reason == Unreachable)
    && (r.decision.DenyOutOfAuthority? ==> r.reason != AuthorizedReason && r.reason != Unreachable)
  }

  /** The effects whose cached result is an ALLOW of this kind. */
  ghost function AllowedOf(cache: map<string, Entry>, kind: Kind): set<string> {
    set id <- cache | cache[id].result.decision.Allow? && cache[id].result.effect.kind == kind
  }

  ghost predicate Tallied(l: Ledger, cache: map<string, Entry>, kind: Kind) {
    CountOf(l, kind) == |AllowedOf(cache, kind)|
  }

  /** Commits are exactly the cached ALLOW results, each counted once under its own kind. */
  ghost predicate Consistent(l: Ledger, cache: map<string, Entry>) {
    && (forall id :: id in l.committed <==> id in cache && cache[id].result.decision.Allow?)
    && (forall id <- cache :: cache[id].result.effect.id == id)
    && (forall kind {:trigger Tallied(l, cache, kind)} :: Tallied(l, cache, kind))
  }

  lemma CachingAddsOne(cache: map<string, Entry>, id: string, entry: Entry, kind: Kind)
    requires id !in cache
    ensures |AllowedOf(cache[id := entry], kind)|
         == |AllowedOf(cache, kind)| + (if entry.result.decision.Allow? && entry.result.effect.kind == kind then 1 else 0)
  {
    if entry.result.decision.Allow? && entry.result.effect.kind == kind {
      assert AllowedOf(cache[id := entry], kind) == AllowedOf(cache, kind) + {id};
    } else {
      assert AllowedOf(cache[id := entry], kind) == AllowedOf(cache, kind);
    }
  }

  /** A new entry, and the commit that goes with an ALLOW. */
  ghost predicate Records(l: Ledger, entry: Entry, l': Ledger) {
    l' == if entry.result.decision.Allow? then Committed(l, entry.result.effect) else l
  }

  lemma CachingKeepsTally(l: Ledger, cache: map<string, Entry>, id: string, entry: Entry, l': Ledger, kind: Kind)
    requires Tallied(l, cache, kind) && id !in cache && ValidKind(entry.result.effect.kind) && Records(l, entry, l')
    ensures Tallied(l', cache[id := entry], kind)
  {
    CommitCountsOnce(l, entry.result.effect, kind);
    CachingAddsOne(cache, id, entry, kind);
  }

  lemma RecordedIds(l: Ledger, entry: Entry, l': Ledger)
    requires Records(l, entry, l')
    ensures l'.committed == l.committed + (if entry.result.decision.Allow? then {entry.result.effect.id} else {})
  {
  }

  lemma CachingKeepsConsistent(l: Ledger, cache: map<string, Entry>, id: string, entry: Entry, l': Ledger)
    requires Consistent(l, cache) && id !in cache && id == entry.result.effect.id && ValidKind(entry.result.effect.kind)
    requires Records(l, entry, l')
    ensures Consistent(l', cache[id := entry])
  {
    var cache' := cache[id := entry];
    RecordedIds(l, entry, l');
    forall kind {:trigger Tallied(l', cache', kind)} ensures Tallied(l', cache', kind) {
      assert Tallied(l, cache, kind);
      CachingKeepsTally(l, cache, id, entry, l', kind);
    }
  }

  /** The decision of a first delivery. */
  method Decide(tr: Trajectory, d: Delivery, reach: bool) returns (res: BoundaryResult)
    ensures FreshResult(tr, d, reach, res)
  {
    var hasAuth, reason := CheckAuth(tr);
    var decision := Allow;
    if !hasAuth {
      decision := DenyOutOfAuthority;
    } else if !reach {
      decision, reason := DenyUnreachable, Unreachable;
    }
    return BoundaryResult(
        tr.id, d.id, decision, reason, reach, tr.authority, tr.effect, decision == Allow, d.tick, tr.epoch, tr.telemetry);
  }

  class Boundary {
    var reachable: map<string, bool>
    var cache: map<string, Entry>
    var ledger: Ledger

    ghost predicate Valid()
      reads this
    {
      Consistent(ledger, cache)
    }

    constructor ()
      ensures Valid() && reachable == map[] && cache == map[] && ledger == EMPTY_LEDGER
    {
      reachable, cache, ledger := map[], map[], EMPTY_LEDGER;
      new;
      forall kind ensures Tallied(ledger, cache, kind) {
        assert AllowedOf(cache, kind) == {};
      }
    }

    method SetReachable(target: string, ok: bool)
      modifies this`reachable
      ensures reachable == old(reachable)[target := ok]
    {
      reachable := reachable[target := ok];
    }

    predicate Reaches(target: string)
      reads this
    {
      target in reachable && reachable[target]
    }

    /** Observe: whether the ledger has no commit of the effect. */
    predicate Absent(e: Effect)
      reads this
    {
      e.id !in ledger.committed
    }

    /**
      Evaluate: the first delivery of an effect decides, caches and, when allowed, commits; every later
      delivery with the same fingerprint gets the cached result and changes nothing.
     */
    method Evaluate(tr: Trajectory, d: Delivery) returns (r: Result<BoundaryResult, Error>)
      requires Valid()
      modifies this`cache, this`ledger
      ensures Valid()
      ensures r.Ok? <==>
        && ValidTrajectory(tr) && ValidDelivery(d, tr.effect.id)
        && (d.effectId in old(cache) ==> old(cache)[d.effectId].fingerprint == Fingerprint(tr))
      ensures r.Err? || d.effectId in old(cache) ==> cache == old(cache) && ledger == old(ledger)
      ensures r.Ok? && d.effectId in old(cache) ==> r.value == old(cache)[d.effectId].result
      ensures r.Ok? && d.effectId !in old(cache) ==>
        && FreshResult(tr, d, Reaches(tr.effect.target), r.value)
        && cache == old(cache)[d.effectId := Entry(Fingerprint(tr), r.value)]
        && ledger == (if r.value.decision.Allow? then Committed(old(ledger), tr.effect) else old(ledger))
    {
      if !ValidTrajectory(tr) {
        return Err(InvalidTrajectory);
      }
      if !ValidDelivery(d, tr.effect.id) {
        return Err(InvalidDelivery);
      }
      var fp := BuildFingerprint(tr);
      if d.effectId in cache {
        if cache[d.effectId].fingerprint != fp {
          return Err(EffectIdCollision);
        }
        return Ok(cache[d.effectId].result);
      }
      var res := Decide(tr, d, Reaches(tr.effect.target));
      ghost var before := ledger;
      if res.decision.Allow? {
        ledger := Committed(ledger, tr.effect);
      }
      CachingKeepsConsistent(before, cache, d.effectId, Entry(fp, res), ledger);
      cache := cache[d.effectId := Entry(fp, res)];
      return Ok(res);
    }
  }
}
