/**
  Authorization-state fidelity: replaying a grant and revoke log
  (internal/authstatefidelity/evaluator.go, internal/authstatefidelity/model.go).
 */
module AuthState {
  import opened Wrappers

  datatype Kind = Grant | Revoke | OtherKind(text: string)

  datatype Event = Event(
    id: string, kind: Kind, principal: string, subject: string, permission: string, grantRef: string, tick: int)

  datatype Principal = Principal(id: string, grantable: seq<string>)

  datatype Root = Root(schemaVersion: int, log: seq<Event>, principals: seq<Principal>, currentTick: int, enabled: bool)

  datatype Binding = Binding(subject: string, permission: string, principal: string, tick: int)

  datatype Action = Action(id: string, subject: string, permission: string, cited: string)

  datatype Reason =
    | InvalidRoot | ActionAbsent | SubjectAbsent | PermissionAbsent | CitationAbsent | Disabled
    | CitedAbsent | NotGrant | NotYet | PairMismatch | PrincipalNotAuthorized | Revoked | Authorized

  const SCHEMA_VERSION := 1

  // ----- well-formed roots -----

  predicate EventOk(e: Event) {
    && e.id != "" && e.principal != "" && e.subject != "" && e.permission != "" && e.tick >= 0
    && ((e.kind.Grant? && e.grantRef == "") || (e.kind.Revoke? && e.grantRef != ""))
  }

  ghost predicate LogOk(log: seq<Event>) {
    && (forall i :: 0 <= i < |log| ==> EventOk(log[i]))
    && (forall i, j :: 0 <= i < j < |log| ==> log[i].tick <= log[j].tick && log[i].id != log[j].id)
  }

  ghost predicate NoRepeats(names: seq<string>) {
    && (forall i :: 0 <= i < |names| ==> names[i] != "")
    && (forall i, j :: 0 <= i < j < |names| ==> names[i] != names[j])
  }

  ghost predicate PrincipalsOk(ps: seq<Principal>) {
    && (forall i :: 0 <= i < |ps| ==> ps[i].id != "" && NoRepeats(ps[i].grantable))
    && (forall i, j :: 0 <= i < j < |ps| ==> ps[i].id != ps[j].id)
  }

  ghost predicate Structural(r: Root) {
    && r.schemaVersion == SCHEMA_VERSION && r.currentTick >= 0 && r.log != [] && r.principals != []
    && LogOk(r.log) && PrincipalsOk(r.principals)
  }

  method LogIsOk(log: seq<Event>) returns (ok: bool)
    ensures ok <==> LogOk(log)
  {
    var eids: set<string> := {};
    var last := -1;
    for i := 0 to |log|
      invariant forall j :: 0 <= j < i ==> EventOk(log[j])
      invariant forall j, k :: 0 <= j < k < i ==> log[j].tick <= log[k].tick && log[j].id != log[k].id
      invariant eids == set j | 0 <= j < i :: log[j].id
      invariant last == if i == 0 then -1 else log[i - 1].tick
    {
      var e := log[i];
      if e.id == "" || e.principal == "" || e.subject == "" || e.permission == "" || e.tick < 0 {
        return false;
      }
      if e.tick < last {
        assert log[i - 1].tick > log[i].tick;
        return false;
      }
      if e.id in eids {
        return false;
      }
      eids, last := eids + {e.id}, e.tick;
      if (!e.kind.Grant? || e.grantRef != "") && (!e.kind.Revoke? || e.grantRef == "") {
        return false;
      }
    }
    return true;
  }

  method HasNoRepeats(names: seq<string>) returns (ok: bool)
    ensures ok <==> NoRepeats(names)
  {
    var seen: set<string> := {};
    for i := 0 to |names|
      invariant seen == set j | 0 <= j < i :: names[j]
      invariant NoRepeats(names[..i])
    {
      assert names[..i + 1] == names[..i] + [names[i]];
      if names[i] == "" || names[i] in seen {
        return false;
      }
      seen := seen + {names[i]};
    }
    assert names[..|names|] == names;
    return true;
  }

  method StructuralOk(r: Root) returns (ok: bool)
    ensures ok <==> Structural(r)
  {
    if r.schemaVersion != SCHEMA_VERSION || r.currentTick < 0 || |r.log| == 0 || |r.principals| == 0 {
      return false;
    }
    var logOk := LogIsOk(r.log);
    if !logOk {
      return false;
    }
    var ps := r.principals;
    var pids: set<string> := {};
    for i := 0 to |ps|
      invariant pids == set j | 0 <= j < i :: ps[j].id
      invariant forall j :: 0 <= j < i ==> ps[j].id != "" && NoRepeats(ps[j].grantable)
      invariant forall j, k :: 0 <= j < k < i ==> ps[j].id != ps[k].id
    {
      if ps[i].id == "" || ps[i].id in pids {
        return false;
      }
      pids := pids + {ps[i].id};
      var distinct := HasNoRepeats(ps[i].grantable);
      if !distinct {
        return false;
      }
    }
    return true;
  }

  // ----- what a log leaves active -----

  ghost predicate CanGrant(ps: seq<Principal>, principal: string, permission: string) {
    exists i :: 0 <= i < |ps| && ps[i].id == principal && permission in ps[i].grantable
  }

  method MayGrant(ps: seq<Principal>, principal: string, permission: string) returns (b: bool)
    ensures b <==> CanGrant(ps, principal, permission)
  {
    for i := 0 to |ps|
      invariant forall j :: 0 <= j < i ==>
        !(ps[j].id == principal && permission in ps[j].grantable)
    {
      if ps[i].id == principal {
        var perms := ps[i].grantable;
        for k := 0 to |perms|
          invariant permission !in perms[..k]
        {
          if perms[k] == permission {
            return true;
          }
        }
        assert perms[..|perms|] == perms;
      }
    }
    return false;
  }

  /** Event j takes back grant i: a later, effective revoke that names it and agrees with it in every field. */
  predicate Revokes(r: Root, j: nat, i: nat)
    requires i < |r.log| && j < |r.log|
  {
    && i < j && r.log[j].kind.Revoke? && r.log[j].tick <= r.currentTick
    && r.log[j].grantRef == r.log[i].id && r.log[j].principal == r.log[i].principal
    && r.log[j].subject == r.log[i].subject && r.log[j].permission == r.log[i].permission
  }

  /** Event i is a grant in force by the current tick from a principal entitled to it. */
  ghost predicate Granted(r: Root, i: nat)
    requires i < |r.log|
  {
    r.log[i].kind.Grant? && r.log[i].tick <= r.currentTick && CanGrant(r.principals, r.log[i].principal, r.log[i].permission)
  }

  ghost predicate RevokedWithin(r: Root, i: nat, n: nat)
    requires i < |r.log| && n <= |r.log|
  {
    exists j :: 0 <= j < n && Revokes(r, j, i)
  }

  ghost predicate Active(r: Root, i: nat, n: nat)
    requires i < n <= |r.log|
  {
    Granted(r, i) && !RevokedWithin(r, i, n)
  }

  function BindingOf(e: Event): Binding {
    Binding(e.subject, e.permission, e.principal, e.tick)
  }

  predicate SameGrant(b: Binding, e: Event) {
    b.principal == e.principal && b.subject == e.subject && b.permission == e.permission
  }

  /** The map holds exactly the active grants among the first n events, each under its event ID. */
  ghost predicate Holds(r: Root, n: nat, active: map<string, Binding>)
    requires n <= |r.log|
  {
    && (forall i {:trigger r.log[i]} :: 0 <= i < n ==>
          (r.log[i].id in active <==> Active(r, i, n))
          && (r.log[i].id in active ==> active[r.log[i].id] == BindingOf(r.log[i])))
    && (forall id <- active :: exists i :: 0 <= i < n && r.log[i].id == id)
  }

  lemma ActiveStep(r: Root, i: nat, n: nat)
    requires i < n < |r.log|
    ensures Active(r, i, n + 1) <==> Active(r, i, n) && !Revokes(r, n, i)
  {
    assert RevokedWithin(r, i, n) ==> RevokedWithin(r, i, n + 1);
  }

  lemma NewestIsFresh(r: Root, n: nat, active: map<string, Binding>)
    requires n < |r.log| && LogOk(r.log) && Holds(r, n, active)
    ensures r.log[n].id !in active && !RevokedWithin(r, n, n + 1)
  {
    assert forall i :: 0 <= i < n ==> r.log[i].id != r.log[n].id;
  }

  /** One replayed event, when it changes nothing. */
  lemma HoldsIdle(r: Root, n: nat, active: map<string, Binding>)
    requires n < |r.log| && LogOk(r.log) && Holds(r, n, active)
    requires !Granted(r, n) && forall i :: 0 <= i < n && Active(r, i, n) ==> !Revokes(r, n, i)
    ensures Holds(r, n + 1, active)
  {
    NewestIsFresh(r, n, active);
    forall i | 0 <= i < n ensures Active(r, i, n) <==> Active(r, i, n + 1) {
      ActiveStep(r, i, n);
    }
  }

  lemma HoldsGrant(r: Root, n: nat, active: map<string, Binding>)
    requires n < |r.log| && LogOk(r.log) && Holds(r, n, active) && Granted(r, n)
    ensures Holds(r, n + 1, active[r.log[n].id := BindingOf(r.log[n])])
  {
    NewestIsFresh(r, n, active);
    forall i | 0 <= i < n ensures Active(r, i, n) <==> Active(r, i, n + 1) {
      ActiveStep(r, i, n);
    }
    assert Active(r, n, n + 1);
  }

  lemma HoldsRevoke(r: Root, n: nat, active: map<string, Binding>, i: nat)
    requires n < |r.log| && LogOk(r.log) && Holds(r, n, active)
    requires i < n && Active(r, i, n) && Revokes(r, n, i)
    ensures Holds(r, n + 1, active - {r.log[i].id})
  {
    var left := active - {r.log[i].id};
    NewestIsFresh(r, n, active);
    forall k | 0 <= k <= n ensures r.log[k].id in left <==> Active(r, k, n + 1) {
      if k < n {
        assert r.log[k].id in active <==> Active(r, k, n);
        ActiveStep(r, k, n);
        assert k != i ==> r.log[k].id != r.log[i].id;
      }
    }
  }

  /** A revoke that removes nothing matched no active grant. */
  lemma RevokeMisses(r: Root, n: nat, active: map<string, Binding>, may: bool)
    requires n < |r.log| && Holds(r, n, active) && !r.log[n].kind.Grant?
    requires may <==> CanGrant(r.principals, r.log[n].principal, r.log[n].permission)
    requires var e := r.log[n];
      !(e.grantRef in active && SameGrant(active[e.grantRef], e) && may)
    ensures forall i :: 0 <= i < n && Active(r, i, n) ==> !Revokes(r, n, i)
  {
  }

  /** reduce: replaying a well-formed log leaves exactly the unrevoked, entitled, effective grants. */
  method Reduce(r: Root) returns (active: map<string, Binding>)
    requires Structural(r)
    ensures Holds(r, |r.log|, active)
  {
    active := map[];
    for n := 0 to |r.log|
      invariant Holds(r, n, active)
    {
      var e := r.log[n];
      if e.tick > r.currentTick {
        HoldsIdle(r, n, active);
        continue;
      }
      if e.kind.Grant? {
        var may := MayGrant(r.principals, e.principal, e.permission);
        if may {
          HoldsGrant(r, n, active);
          active := active[e.id := BindingOf(e)];
        } else {
          HoldsIdle(r, n, active);
        }
        continue;
      }
      var may := MayGrant(r.principals, e.principal, e.permission);
      if e.grantRef in active && SameGrant(active[e.grantRef], e) && may {
        ghost var i :| 0 <= i < n && r.log[i].id == e.grantRef;
        assert Active(r, i, n) && Revokes(r, n, i);
        HoldsRevoke(r, n, active, i);
        active := active - {e.grantRef};
      } else {
        RevokeMisses(r, n, active, may);
        HoldsIdle(r, n, active);
      }
    }
  }

  // ----- the decision -----

  ghost predicate Cites(r: Root, a: Action, i: nat) {
    i < |r.log| && r.log[i].id == a.cited
  }

  predicate Complete(a: Action) {
    a.id != "" && a.subject != "" && a.permission != "" && a.cited != ""
  }

  predicate SamePair(e: Event, a: Action) {
    e.subject == a.subject && e.permission == a.permission
  }

  /** The action cites an active grant of exactly its subject and permission. */
  ghost predicate Entitled(r: Root, a: Action) {
    exists i: nat :: Cites(r, a, i) && SamePair(r.log[i], a) && Active(r, i, |r.log|)
  }

  /** The action cites a grant that would entitle it, but a matching effective revoke came later. */
  ghost predicate TakenBack(r: Root, a: Action) {
    exists i: nat, j: nat :: Cites(r, a, i) && SamePair(r.log[i], a) && Granted(r, i) && j < |r.log| && Revokes(r, j, i)
  }

  method FindCited(r: Root, a: Action) returns (found: Option<nat>)
    ensures found.Some? ==> Cites(r, a, found.value)
    ensures found.None? ==> forall i :: 0 <= i < |r.log| ==> r.log[i].id != a.cited
  {
    for i := 0 to |r.log|
      invariant forall j :: 0 <= j < i ==> r.log[j].id != a.cited
    {
      if r.log[i].id == a.cited {
        return Some(i);
      }
    }
    return None;
  }

  /**
    Authorize: a complete request on an enabled, well-formed root is allowed exactly when the cited
    grant is active, and "cited grant revoked" is reported exactly when a matching revoke took it back.
   */
  method Authorize(r: Root, a: Action) returns (allow: bool, reason: Reason)
    ensures allow <==> Structural(r) && Complete(a) && r.enabled && Entitled(r, a)
    ensures allow <==> reason == Authorized
    ensures reason == Revoked <==> Structural(r) && Complete(a) && r.enabled && TakenBack(r, a)
    ensures !Structural(r) <==> reason == InvalidRoot
    ensures Structural(r) && Complete(a) ==> (!r.enabled <==> reason == Disabled)
  {
    var found := FindCited(r, a);
    var ok := StructuralOk(r);
    if !ok {
      return false, InvalidRoot;
    }
    if a.id == "" {
      return false, ActionAbsent;
    }
    if a.subject == "" {
      return false, SubjectAbsent;
    }
    if a.permission == "" {
      return false, PermissionAbsent;
    }
    if a.cited == "" {
      return false, CitationAbsent;
    }
    if !r.enabled {
      return false, Disabled;
    }
    var active := Reduce(r);
    if found.None? {
      return false, CitedAbsent;
    }
    var i := found.value;
    var ev := r.log[i];
    assert forall k: nat :: Cites(r, a, k) ==> k == i;
    var okP := false;
    if ev.kind.Grant? {
      okP := MayGrant(r.principals, ev.principal, ev.permission);
    }
    var on := a.cited in active && active[a.cited].subject == a.subject && active[a.cited].permission == a.permission;
    if !ev.kind.Grant? {
      return false, NotGrant;
    }
    if ev.tick > r.currentTick {
      return false, NotYet;
    }
    if !SamePair(ev, a) {
      return false, PairMismatch;
    }
    if !okP {
      return false, PrincipalNotAuthorized;
    }
    assert Granted(r, i) && (on <==> Active(r, i, |r.log|));
    if !on {
      assert RevokedWithin(r, i, |r.log|);
      return false, Revoked;
    }
    return true, Authorized;
  }

  // ----- main results about growing logs -----

  /** The same authority with a longer log, read at the same tick or later. */
  ghost predicate Extends(r': Root, r: Root) {
    r.log <= r'.log && r'.principals == r.principals && r'.currentTick >= r.currentTick
  }

  /** No well-formed extension of the log, and no later reading of it, revives a grant that was taken back. */
  lemma RevokedStaysRevoked(r: Root, r': Root, a: Action)
    requires Structural(r) && Structural(r') && Extends(r', r) && TakenBack(r, a)
    ensures TakenBack(r', a) && !Entitled(r', a)
  {
    var i: nat, j: nat :| Cites(r, a, i) && SamePair(r.log[i], a) && Granted(r, i) && j < |r.log| && Revokes(r, j, i);
    assert r'.log[i] == r.log[i] && r'.log[j] == r.log[j];
    assert Granted(r', i) && Revokes(r', j, i);
    assert forall k: nat :: Cites(r', a, k) ==> k == i;
  }

  /** An entitlement is lost to an extension read at the same tick exactly when the extension revokes it. */
  lemma OnlyARevokeEndsAGrant(r: Root, r': Root, a: Action)
    requires Structural(r) && Structural(r') && Extends(r', r) && Entitled(r, a)
    ensures Entitled(r', a) <==> !TakenBack(r', a)
  {
    var i: nat :| Cites(r, a, i) && SamePair(r.log[i], a) && Active(r, i, |r.log|);
    assert r'.log[i] == r.log[i];
    assert Granted(r', i) && Cites(r', a, i);
    forall k: nat | Cites(r', a, k) ensures k == i {
      assert r'.log[k].id == r'.log[i].id;
    }
    if !TakenBack(r', a) {
      assert Active(r', i, |r'.log|);
    }
  }
}
