/**
  Building a lineage registry and judging a call against it
  (internal/lineage/registry.go, internal/lineage/validate.go).
 */
module LineageValidate {
  import opened Wrappers
  import opened Lineage

  // ----- what NewRegistry accepts -----

  function Humans(agents: seq<Agent>): set<string> {
    set i | 0 <= i < |agents| :: agents[i].human
  }

  ghost predicate AgentsAcceptable(agents: seq<Agent>) {
    && (forall i :: 0 <= i < |agents| ==> AgentOk(agents[i]))
    && DistinctAgents(agents)
    && ParentsRegistered(AgentMap(agents, |agents|))
    && !ParentCycle(AgentMap(agents, |agents|))
  }

  ghost predicate GrantsAcceptable(agents: map<string, Agent>, humans: set<string>, grants: seq<Grant>) {
    && (forall i :: 0 <= i < |grants| ==> GrantOk(agents, grants[i]))
    && DistinctGrants(grants)
    && GrantsPlaced(agents, humans, GrantMap(grants, |grants|))
    && GrantsRooted(GrantMap(grants, |grants|))
  }

  ghost predicate GrantsPlaced(agents: map<string, Agent>, humans: set<string>, grants: map<string, Grant>) {
    forall id <- grants :: grants[id].subject in agents && GrantPlaced(agents, humans, grants, grants[id])
  }

  /** Every grant reaches a root within the depth limit. */
  ghost predicate GrantsRooted(grants: map<string, Grant>) {
    forall id <- grants :: Chain(grants, id, MAX_GRANT_DEPTH).Some?
  }

  predicate TrajectoryShaped(agents: map<string, Agent>, grants: map<string, Grant>, t: Trajectory) {
    && !Blank(t.id) && t.actor in agents && t.grantId in grants && grants[t.grantId].subject == t.actor
    && !Blank(t.capability) && !Blank(t.server) && !Blank(t.tool) && t.resources != []
    && !Blank(t.effect) && !Blank(t.priorStateHash)
  }

  predicate TrajectoryOk(agents: map<string, Agent>, grants: map<string, Grant>, t: Trajectory) {
    && TrajectoryShaped(agents, grants, t)
    && Chain(grants, t.grantId, MAX_GRANT_DEPTH).Some?
    && CoveredByChain(Chain(grants, t.grantId, MAX_GRANT_DEPTH).value, t.capability, t.resources)
  }

  function TrajectoryMap(ts: seq<Trajectory>, n: nat): map<string, Trajectory>
    requires n <= |ts|
  {
    if n == 0 then map[] else TrajectoryMap(ts, n - 1)[ts[n - 1].id := ts[n - 1]]
  }

  ghost predicate TrajectoriesAcceptable(agents: map<string, Agent>, grants: map<string, Grant>, ts: seq<Trajectory>) {
    && (forall i {:trigger TrajectoryOk(agents, grants, ts[i])} :: 0 <= i < |ts| ==> TrajectoryOk(agents, grants, ts[i]))
    && (forall i, j :: 0 <= i < j < |ts| ==> ts[i].id != ts[j].id)
  }

  ghost predicate Acceptable(agents: seq<Agent>, grants: seq<Grant>, ts: seq<Trajectory>) {
    var am, gm := AgentMap(agents, |agents|), GrantMap(grants, |grants|);
    AgentsAcceptable(agents) && GrantsAcceptable(am, Humans(agents), grants) && TrajectoriesAcceptable(am, gm, ts)
  }

  lemma {:induction false} GrantMapHolds(grants: seq<Grant>, n: nat)
    requires n <= |grants|
    ensures forall id <- GrantMap(grants, n) ::
      GrantMap(grants, n)[id].id == id && exists i :: 0 <= i < n && grants[i] == GrantMap(grants, n)[id]
  {
    if n > 0 {
      GrantMapHolds(grants, n - 1);
    }
  }

  lemma {:induction false} GrantMapKeys(grants: seq<Grant>, n: nat, id: string)
    requires n <= |grants|
    ensures id in GrantMap(grants, n) <==> exists i :: 0 <= i < n && grants[i].id == id
  {
    if n > 0 {
      GrantMapKeys(grants, n - 1, id);
    }
  }

  lemma {:induction false} TrajectoryMapKeys(ts: seq<Trajectory>, n: nat, id: string)
    requires n <= |ts|
    ensures id in TrajectoryMap(ts, n) <==> exists i :: 0 <= i < n && ts[i].id == id
  {
    if n > 0 {
      TrajectoryMapKeys(ts, n - 1, id);
    }
  }

  method IndexGrants(agents: map<string, Agent>, grants: seq<Grant>) returns (m: Option<map<string, Grant>>)
    ensures m == if (forall i :: 0 <= i < |grants| ==> GrantOk(agents, grants[i])) && DistinctGrants(grants)
                 then Some(GrantMap(grants, |grants|)) else None
  {
    var out: map<string, Grant> := map[];
    for i := 0 to |grants|
      invariant out == GrantMap(grants, i)
      invariant forall j :: 0 <= j < i ==> GrantOk(agents, grants[j])
      invariant forall j, k :: 0 <= j < k < i ==> grants[j].id != grants[k].id
    {
      GrantMapKeys(grants, i, grants[i].id);
      if !GrantOk(agents, grants[i]) || grants[i].id in out {
        return None;
      }
      out := out[grants[i].id := grants[i]];
    }
    return Some(out);
  }

  method CheckGrants(agents: map<string, Agent>, humans: set<string>, grants: map<string, Grant>) returns (ok: bool)
    requires forall id <- grants :: grants[id].subject in agents
    ensures ok <==> GrantsPlaced(agents, humans, grants) && GrantsRooted(grants)
  {
    var ids := grants.Keys;
    while ids != {}
      invariant ids <= grants.Keys
      invariant forall id <- grants :: id in ids || GrantPlaced(agents, humans, grants, grants[id])
      decreases |ids|
    {
      var id :| id in ids;
      ids := ids - {id};
      if !GrantPlaced(agents, humans, grants, grants[id]) {
        return false;
      }
    }
    ids := grants.Keys;
    while ids != {}
      invariant ids <= grants.Keys
      invariant forall id <- grants :: id in ids || Chain(grants, id, MAX_GRANT_DEPTH).Some?
      decreases |ids|
    {
      var id :| id in ids;
      ids := ids - {id};
      var chain := WalkToRoot(grants, id);
      if chain.None? {
        return false;
      }
    }
    return true;
  }

  method IndexTrajectories(agents: map<string, Agent>, grants: map<string, Grant>, ts: seq<Trajectory>)
      returns (m: Option<map<string, Trajectory>>)
    ensures m == if TrajectoriesAcceptable(agents, grants, ts) then Some(TrajectoryMap(ts, |ts|)) else None
  {
    var out: map<string, Trajectory> := map[];
    for i := 0 to |ts|
      invariant out == TrajectoryMap(ts, i)
      invariant forall j {:trigger TrajectoryOk(agents, grants, ts[j])} :: 0 <= j < i ==> TrajectoryOk(agents, grants, ts[j])
      invariant forall j, k :: 0 <= j < k < i ==> ts[j].id != ts[k].id
    {
      TrajectoryMapKeys(ts, i, ts[i].id);
      var t := ts[i];
      assert TrajectoriesAcceptable(agents, grants, ts) ==> TrajectoryOk(agents, grants, t);
      if t.id in out || !TrajectoryShaped(agents, grants, t) {
        return None;
      }
      var chain := WalkToRoot(grants, t.grantId);
      if chain.None? || !CoveredByChain(chain.value, t.capability, t.resources) {
        return None;
      }
      out := out[t.id := t];
    }
    return Some(out);
  }

  method ReadAgents(agents: seq<Agent>) returns (m: Option<map<string, Agent>>)
    ensures m == if AgentsAcceptable(agents) then Some(AgentMap(agents, |agents|)) else None
  {
    var am := IndexAgents(agents);
    if am.None? {
      return None;
    }
    AgentMapHolds(agents, |agents|);
    var ids := am.value.Keys;
    while ids != {}
      invariant ids <= am.value.Keys
      invariant forall id <- am.value :: id in ids || am.value[id].parent == "" || am.value[id].parent in am.value
      decreases |ids|
    {
      var id :| id in ids;
      ids := ids - {id};
      if am.value[id].parent != "" && am.value[id].parent !in am.value {
        return None;
      }
    }
    var acyclic, _ := DetectAgentCycles(am.value);
    return if acyclic then am else None;
  }

  method ReadGrants(agents: map<string, Agent>, humans: set<string>, grants: seq<Grant>)
      returns (m: Option<map<string, Grant>>)
    ensures m == if GrantsAcceptable(agents, humans, grants) then Some(GrantMap(grants, |grants|)) else None
  {
    m := IndexGrants(agents, grants);
    if m.Some? {
      GrantMapHolds(grants, |grants|);
      var placed := CheckGrants(agents, humans, m.value);
      if !placed {
        return None;
      }
    }
  }

  /** NewRegistry builds the registry exactly from acceptable lists. */
  method NewRegistry(agents: seq<Agent>, grants: seq<Grant>, ts: seq<Trajectory>) returns (r: Option<Registry>)
    ensures r == if Acceptable(agents, grants, ts)
      then Some(Registry(AgentMap(agents, |agents|), GrantMap(grants, |grants|), TrajectoryMap(ts, |ts|))) else None
  {
    var am := ReadAgents(agents);
    if am.None? {
      return None;
    }
    var gm := ReadGrants(am.value, Humans(agents), grants);
    if gm.None? {
      return None;
    }
    var tm := IndexTrajectories(am.value, gm.value, ts);
    if tm.None? {
      return None;
    }
    return Some(Registry(am.value, gm.value, tm.value));
  }

  // ----- judging a call -----

  datatype Envelope = Envelope(
    actor: string, grantId: string, capability: string, resource: string, effect: string,
    priorStateHash: string, trajectoryId: string, server: string, tool: string)

  datatype Verdict = Allow | UnregisteredPrincipal | DelegationCeiling | TrajectoryMismatch

  predicate AgentLive(reg: Registry, id: string, now: int) {
    id in reg.agents && InInterval(reg.agents[id].createdAt, reg.agents[id].expiry, now)
  }

  predicate GrantLive(g: Grant, now: int) {
    InInterval(g.issuedAt, g.expiry, now)
  }

  /** The rules on the i-th grant of the chain that no clock enters. */
  predicate LinkFits(reg: Registry, env: Envelope, human: string, chain: seq<Grant>, i: nat)
    requires i < |chain|
  {
    var g := chain[i];
    && g.subject in reg.agents && reg.agents[g.subject].human == human
    && (if i == 0 then
          g.parent == "" && g.issuer == human && g.issuer !in reg.agents && reg.agents[g.subject].parent == ""
        else
          && g.issuer == chain[i - 1].subject
          && ExactSubset(g.capabilities, chain[i - 1].capabilities) && ExactSubset(g.resources, chain[i - 1].resources)
          && g.issuer in reg.agents && reg.agents[g.issuer].human == human
          && reg.agents[g.subject].parent == g.issuer)
    && ContainsExact(g.capabilities, env.capability) && ContainsExact(g.resources, env.resource)
  }

  predicate LinkLive(reg: Registry, chain: seq<Grant>, i: nat, now: int)
    requires i < |chain|
  {
    GrantLive(chain[i], now) && AgentLive(reg, chain[i].subject, now) && (i > 0 ==> AgentLive(reg, chain[i].issuer, now))
  }

  predicate GrantUsable(reg: Registry, env: Envelope, now: int) {
    && env.grantId in reg.grants && GrantLive(reg.grants[env.grantId], now)
    && reg.grants[env.grantId].subject == env.actor
  }

  ghost predicate ChainAllows(reg: Registry, env: Envelope, now: int)
    requires env.actor in reg.agents
  {
    && GrantUsable(reg, env, now)
    && var c := Chain(reg.grants, env.grantId, MAX_GRANT_DEPTH);
       c.Some? && forall i :: 0 <= i < |c.value| ==>
         LinkFits(reg, env, reg.agents[env.actor].human, c.value, i) && LinkLive(reg, c.value, i, now)
  }

  predicate TrajectoryFits(reg: Registry, env: Envelope) {
    && env.trajectoryId != "" && env.trajectoryId in reg.trajectories
    && var t := reg.trajectories[env.trajectoryId];
       t.actor == env.actor && t.grantId == env.grantId && t.capability == env.capability
       && t.server == env.server && t.tool == env.tool && t.effect == env.effect
       && t.priorStateHash == env.priorStateHash && ContainsExact(t.resources, env.resource)
  }

  ghost predicate Allowed(reg: Registry, env: Envelope, now: int) {
    AgentLive(reg, env.actor, now) && ChainAllows(reg, env, now) && TrajectoryFits(reg, env)
  }

  lemma {:induction false} ChainNotEmpty(grants: map<string, Grant>, id: string, steps: nat)
    requires Chain(grants, id, steps).Some?
    ensures Chain(grants, id, steps).value != []
  {
  }

  /** ValidateAt: the first of the three rules to fail names the denial; on allow the grant chain is reported. */
  method ValidateAt(env: Envelope, reg: Registry, now: int) returns (v: Verdict, grantChain: seq<string>)
    ensures v.Allow? <==> Allowed(reg, env, now)
    ensures v.UnregisteredPrincipal? <==> !AgentLive(reg, env.actor, now)
    ensures v.DelegationCeiling? <==> AgentLive(reg, env.actor, now) && !ChainAllows(reg, env, now)
    ensures v.Allow? || v.TrajectoryMismatch? ==>
      var c := Chain(reg.grants, env.grantId, MAX_GRANT_DEPTH);
      c.Some? && |grantChain| == |c.value| && forall i :: 0 <= i < |grantChain| ==> grantChain[i] == c.value[i].id
  {
    grantChain := [];
    if env.actor !in reg.agents || !InInterval(reg.agents[env.actor].createdAt, reg.agents[env.actor].expiry, now) {
      return UnregisteredPrincipal, [];
    }
    if !GrantUsable(reg, env, now) {
      return DelegationCeiling, [];
    }
    var walked := WalkToRoot(reg.grants, env.grantId);
    if walked.None? || |walked.value| == 0 {
      assert walked.Some? ==> walked.value != [] by {
        if walked.Some? {
          ChainNotEmpty(reg.grants, env.grantId, MAX_GRANT_DEPTH);
        }
      }
      return DelegationCeiling, [];
    }
    var chain, human := walked.value, reg.agents[env.actor].human;
    for i := 0 to |chain|
      invariant |grantChain| == i && forall j :: 0 <= j < i ==> grantChain[j] == chain[j].id
      invariant forall j :: 0 <= j < i ==> LinkFits(reg, env, human, chain, j) && LinkLive(reg, chain, j, now)
    {
      var g := chain[i];
      assert ChainAllows(reg, env, now) ==> LinkFits(reg, env, human, chain, i) && LinkLive(reg, chain, i, now);
      grantChain := grantChain + [g.id];
      if !InInterval(g.issuedAt, g.expiry, now) {
        return DelegationCeiling, [];
      }
      if !AgentLive(reg, g.subject, now) || reg.agents[g.subject].human != human {
        return DelegationCeiling, [];
      }
      var subject := reg.agents[g.subject];
      if i == 0 {
        if g.parent != "" || g.issuer != human || g.issuer in reg.agents || subject.parent != "" {
          return DelegationCeiling, [];
        }
      } else {
        var parent := chain[i - 1];
        if g.issuer != parent.subject {
          return DelegationCeiling, [];
        }
        if !ExactSubset(g.capabilities, parent.capabilities) || !ExactSubset(g.resources, parent.resources) {
          return DelegationCeiling, [];
        }
        if !AgentLive(reg, g.issuer, now) || reg.agents[g.issuer].human != human {
          return DelegationCeiling, [];
        }
        if subject.parent != g.issuer {
          return DelegationCeiling, [];
        }
      }
      if !ContainsExact(g.capabilities, env.capability) || !ContainsExact(g.resources, env.resource) {
        return DelegationCeiling, [];
      }
    }
    if !TrajectoryFits(reg, env) {
      return TrajectoryMismatch, grantChain;
    }
    return Allow, grantChain;
  }
}
