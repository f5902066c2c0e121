/**
  The generated corpus (internal/incidentbench/corpus.go): every size of it runs through the boundary and
  the recorder, and scores no error.
 */
module BenchCorpus {
  import opened Framing
  import opened IncidentBench
  import opened BenchRecorder
  import opened BenchReport

  const DEFAULT_CORPUS_SIZE := 100_000

  // ----- names -----

  function Zeros(n: nat): (z: string)
    ensures |z| == n && forall i :: 0 <= i < n ==> z[i] == '0'
  {
    if n == 0 then "" else "0" + Zeros(n - 1)
  }

  function Padding(width: nat): (z: string)
    ensures forall i :: 0 <= i < |z| ==> z[i] == '0'
  {
    if width < 6 then Zeros(6 - width) else ""
  }

  /** fmt's %06d of a natural number. */
  function Pad6(n: nat): string {
    Padding(|Decimal(n)|) + Decimal(n)
  }

  function ValueOf(s: string): int {
    if s == "" then 0 else 10 * ValueOf(s[..|s| - 1]) + (s[|s| - 1] as int - '0' as int)
  }

  lemma {:induction false} DecimalValue(n: nat)
    ensures ValueOf(Decimal(n)) == n
  {
    var d := Decimal(n);
    assert d[..|d| - 1] == if n < 10 then "" else Decimal(n / 10);
    if n >= 10 {
      DecimalValue(n / 10);
    }
  }

  lemma {:induction false} LeadingZerosCountNothing(z: string, s: string)
    requires forall i :: 0 <= i < |z| ==> z[i] == '0'
    ensures ValueOf(z + s) == ValueOf(s)
    decreases |z| + |s|
  {
    if s != "" {
      assert (z + s)[..|z + s| - 1] == z + s[..|s| - 1];
      LeadingZerosCountNothing(z, s[..|s| - 1]);
    } else if z != "" {
      assert z + s == z && z[..|z| - 1] + "" == z[..|z| - 1];
      LeadingZerosCountNothing(z[..|z| - 1], "");
    }
  }

  lemma Pad6Value(n: nat)
    ensures ValueOf(Pad6(n)) == n
  {
    LeadingZerosCountNothing(Padding(|Decimal(n)|), Decimal(n));
    DecimalValue(n);
  }

  /** Padded numbers name their number, also beyond six digits. */
  lemma Pad6Injective(m: nat, n: nat)
    requires Pad6(m) == Pad6(n)
    ensures m == n
  {
    Pad6Value(m);
    Pad6Value(n);
  }

  lemma Pad6NoNul(n: nat)
    ensures '\0' !in Pad6(n)
  {
    var d := Decimal(n);
    assert forall i :: 0 <= i < |d| ==> IsDigit(d[i]);
    assert '\0' !in d;
  }

  function Name(prefix: string, i: nat): string {
    prefix + Pad6(i)
  }

  lemma NameNoNul(prefix: string, i: nat)
    requires '\0' !in prefix
    ensures '\0' !in Name(prefix, i) && Name(prefix, i) != ""
  {
    Pad6NoNul(i);
  }

  lemma NameInjective(prefix: string, i: nat, j: nat)
    requires Name(prefix, i) == Name(prefix, j)
    ensures i == j
  {
    assert Name(prefix, i)[|prefix|..] == Pad6(i) && Name(prefix, j)[|prefix|..] == Pad6(j);
    Pad6Injective(i, j);
  }

  // ----- one trajectory -----

  function KindAt(i: nat): Kind {
    match i % 5
    case 0 => ExternalNetwork
    case 1 => CredentialRead
    case 2 => CrossTenantRequest
    case 3 => PackagePublication
    case _ => LateralMovement
  }

  function Scenario(i: nat): nat {
    i / 5 % 10
  }

  function EffectTenant(i: nat): string {
    if KindAt(i).CrossTenantRequest? then Name("tenant-", i) + "-x-8d26ef04" else Name("tenant-", i)
  }

  function TargetFor(i: nat): string {
    match KindAt(i)
    case ExternalNetwork => "fixture://network/" + EffectTenant(i)
    case CredentialRead => "fixture://credential/synthetic"
    case CrossTenantRequest => "fixture://tenant/" + EffectTenant(i)
    case PackagePublication => Name("fixture://registry/pkg-", i)
    case _ => Name("fixture://host/host-", i)
  }

  /** Scenarios 1, 3, 4 and 5 grant nothing, scenario 2 grants under a stale authority epoch. */
  function GrantsAt(i: nat): seq<Grant> {
    if Scenario(i) in {1, 3, 4, 5} then [] else [Grant(KindAt(i), TargetFor(i), EffectTenant(i))]
  }

  function DeliveriesAt(i: nat): seq<Delivery> {
    var eid, tick := Name("effect-", i), (i + 1) * 10;
    [Delivery(Name("delivery-", i) + "-0", eid, tick, Primary)]
    + (if Scenario(i) in {3, 7} then [Delivery(Name("delivery-", i) + "-1", eid, tick, Duplicate)]
       else if Scenario(i) in {4, 8} then [Delivery(Name("delivery-", i) + "-1", eid, tick + 5, Replay)]
       else [])
  }

  function GenerateOne(i: nat): Trajectory {
    var home, principal := Name("tenant-", i), Name("principal-", i);
    var epoch := Epoch(40 + i / 50 % 3, 700 + i / 150 % 5);
    var delegated := if Scenario(i) == 2 then Epoch(epoch.policy, epoch.authority - 1) else epoch;
    Trajectory(
      Name("trajectory-", i),
      Environment(Name("env-", i), principal, home, if Scenario(i) != 6 then [TargetFor(i)] else []),
      Authority(Name("delegation-", i), principal, Name("delegator-", i), home, GrantsAt(i), delegated),
      Effect(Name("effect-", i), KindAt(i), TargetFor(i), EffectTenant(i), true),
      epoch,
      if Scenario(i) == 5 then Missing else Present,
      DeliveriesAt(i),
      1 <= Scenario(i) <= 5)
  }

  function Corpus(n: nat): seq<Trajectory> {
    seq(n, i requires 0 <= i < n => GenerateOne(i))
  }

  method Generate(n: nat) returns (out: seq<Trajectory>)
    ensures out == Corpus(n)
  {
    out := [];
    for i := 0 to n
      invariant |out| == i && forall j :: 0 <= j < i ==> out[j] == GenerateOne(j)
    {
      out := out + [GenerateOne(i)];
    }
  }

  // ----- what holds of every generated trajectory -----

  /** The scenario label calls for an incident exactly where the delegation does not authorize the effect. */
  lemma LabelIsHonest(i: nat)
    ensures GenerateOne(i).expected <==> !Authorized(GenerateOne(i))
  {
    var tr := GenerateOne(i);
    if Scenario(i) !in {1, 2, 3, 4, 5} {
      assert GrantMatches(tr.authority.grants[0], tr.effect);
    }
  }

  lemma NamesNoNul(i: nat)
    ensures '\0' !in EffectTenant(i) && EffectTenant(i) != "" && '\0' !in TargetFor(i) && TargetFor(i) != ""
    ensures '\0' !in Name("tenant-", i) && '\0' !in Name("principal-", i) && Name("principal-", i) != ""
    ensures '\0' !in Name("effect-", i) && Name("effect-", i) != ""
    ensures '\0' !in Name("trajectory-", i) && Name("trajectory-", i) != ""
  {
    NameNoNul("tenant-", i);
    NameNoNul("principal-", i);
    NameNoNul("effect-", i);
    NameNoNul("trajectory-", i);
    TargetNoNul(i);
  }

  lemma TargetNoNul(i: nat)
    ensures '\0' !in EffectTenant(i) && EffectTenant(i) != "" && '\0' !in TargetFor(i) && TargetFor(i) != ""
  {
    NameNoNul("tenant-", i);
    NameNoNul("fixture://registry/pkg-", i);
    NameNoNul("fixture://host/host-", i);
  }

  lemma {:induction false} DecimalNoNul(n: nat)
    ensures '\0' !in Decimal(n)
  {
    var d := Decimal(n);
    assert forall i :: 0 <= i < |d| ==> IsDigit(d[i]);
  }

  lemma KindTextNoNul(k: Kind)
    requires ValidKind(k)
    ensures '\0' !in KindText(k)
  {
  }

  lemma FixedPartsNoNul(tr: Trajectory)
    requires ValidKind(tr.effect.kind) && '\0' !in tr.effect.target && '\0' !in tr.effect.tenant
    requires '\0' !in tr.env.principal && '\0' !in tr.env.tenant && '\0' !in tr.authority.principal && '\0' !in tr.authority.tenant
    ensures FreeOf('\0', FixedParts(tr))
  {
    KindTextNoNul(tr.effect.kind);
    DecimalNoNul(tr.authority.epoch.policy);
    DecimalNoNul(tr.authority.epoch.authority);
    DecimalNoNul(tr.epoch.policy);
    DecimalNoNul(tr.epoch.authority);
  }

  lemma {:induction false} GrantPartsNoNul(g: seq<Grant>)
    requires |g| <= 1
    requires g != [] ==> ValidKind(g[0].kind) && '\0' !in g[0].target && '\0' !in g[0].tenant
    ensures FreeOf('\0', GrantParts(g))
  {
    if g != [] {
      KindTextNoNul(g[0].kind);
      assert g[1..] == [];
      assert GrantParts(g) == [KindText(g[0].kind), g[0].target, g[0].tenant];
    }
  }

  lemma PartsNoNul(tr: Trajectory)
    requires FreeOf('\0', FixedParts(tr)) && FreeOf('\0', GrantParts(tr.authority.grants))
    ensures FreeOf('\0', Parts(tr))
  {
  }

  lemma GeneratedIsNulFree(i: nat)
    ensures NulFree(GenerateOne(i))
  {
    NamesNoNul(i);
    FixedPartsNoNul(GenerateOne(i));
    GrantPartsNoNul(GrantsAt(i));
    PartsNoNul(GenerateOne(i));
  }

  lemma GeneratedIsRecordable(i: nat)
    ensures Recordable(GenerateOne(i))
  {
    NamesNoNul(i);
  }

  // ----- the whole corpus -----

  /** Every generated corpus is clean, so nothing but two equal keys could stop it. */
  lemma GeneratedIsClean(n: nat)
    ensures AllNulFree(Corpus(n)) && Clean(Corpus(n)) && HonestlyLabelled(Corpus(n))
  {
    var trajs := Corpus(n);
    forall i | 0 <= i < n ensures NulFree(trajs[i]) {
      GeneratedIsNulFree(i);
    }
    forall i | 0 <= i < n ensures Recordable(trajs[i]) && (trajs[i].expected <==> !Authorized(trajs[i])) {
      GeneratedIsRecordable(i);
      LabelIsHonest(i);
    }
    forall i, j | 0 <= i < j < n ensures trajs[i].effect.id != trajs[j].effect.id {
      if trajs[i].effect.id == trajs[j].effect.id {
        NameInjective("effect-", i, j);
      }
    }
  }

  lemma ExpectedOfCorpus(n: nat)
    ensures Expected(Corpus(n)) == set i: nat | i < n && 1 <= Scenario(i) <= 5
  {
  }

  /**
    RunSize: a corpus of at least the default size runs to the end exactly if its incidents have keys of
    their own, which only a hash collision could deny them. It then finds every labelled incident, and
    without a collision it reports no other.
   */
  method RunSize(setup: Setup, n: nat) returns (ok: bool, tp: nat, fneg: nat, fpos: nat)
    requires Sound(setup)
    ensures ok <==> n >= 100_000 && IncidentKeysDiffer(setup.sha, Corpus(n))
    ensures NoKeyCollision(setup.sha, Corpus(n)) ==> IncidentKeysDiffer(setup.sha, Corpus(n))
    ensures ok ==> fneg == 0 && tp == |set i: nat | i < n && 1 <= Scenario(i) <= 5|
    ensures ok && NoKeyCollision(setup.sha, Corpus(n)) ==> fpos == 0
  {
    GeneratedIsClean(n);
    CleanRunsThroughExactlyWhen(setup.sha, Corpus(n));
    if NoKeyCollision(setup.sha, Corpus(n)) {
      KeysDifferUnlessTheyCollide(setup.sha, Corpus(n));
    }
    if n < DEFAULT_CORPUS_SIZE {
      return false, 0, 0, 0;
    }
    var trajs := Generate(n);
    ExpectedOfCorpus(n);
    ok, tp, fneg, fpos := RunCorpus(setup, trajs);
  }
}
