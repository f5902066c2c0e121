/**
  What an allowed call proves about its grant chain, and when it is allowed
  (internal/lineage/registry.go, internal/lineage/validate.go).
 */
module LineageTheorems {
  import opened Wrappers
  import opened Lineage
  import opened LineageValidate

  // ----- chains -----

  ghost predicate Keyed(grants: map<string, Grant>) {
    forall id <- grants :: grants[id].id == id
  }

  /** A chain is registered grants, each the parent of the next, from a root grant to the one asked for. */
  ghost predicate IsChain(grants: map<string, Grant>, c: seq<Grant>, id: string) {
    && c != [] && c[|c| - 1].id == id && c[0].parent == ""
    && (forall i :: 0 <= i < |c| ==> c[i].id in grants && grants[c[i].id] == c[i])
    && (forall i :: 1 <= i < |c| ==> c[i].parent == c[i - 1].id)
  }

  lemma {:induction false} ChainIsChain(grants: map<string, Grant>, id: string, steps: nat)
    requires Keyed(grants) && Chain(grants, id, steps).Some?
    ensures IsChain(grants, Chain(grants, id, steps).value, id) && |Chain(grants, id, steps).value| <= steps
    decreases steps
  {
    if grants[id].parent != "" {
      ChainIsChain(grants, grants[id].parent, steps - 1);
    }
  }

  /** Every grant of a chain has the chain up to it as its own. */
  lemma {:induction false} ChainPrefix(grants: map<string, Grant>, id: string, steps: nat, i: nat) returns (k: nat)
    requires Keyed(grants) && Chain(grants, id, steps).Some? && i < |Chain(grants, id, steps).value|
    ensures var c := Chain(grants, id, steps).value; Chain(grants, c[i].id, k) == Some(c[..i + 1])
    decreases steps
  {
    var c := Chain(grants, id, steps).value;
    if i == |c| - 1 {
      ChainIsChain(grants, id, steps);
      k := steps;
      assert c[..i + 1] == c;
    } else {
      var up := Chain(grants, grants[id].parent, steps - 1).value;
      k := ChainPrefix(grants, grants[id].parent, steps - 1, i);
      assert c[..i + 1] == up[..i + 1];
    }
  }

  /** No grant occurs twice in a chain. */
  lemma {:induction false} ChainHasNoRepeats(grants: map<string, Grant>, id: string, steps: nat, i: nat, j: nat)
    requires Keyed(grants) && Chain(grants, id, steps).Some? && i < j < |Chain(grants, id, steps).value|
    ensures var c := Chain(grants, id, steps).value; c[i].id != c[j].id
  {
    var c := Chain(grants, id, steps).value;
    var k := ChainPrefix(grants, id, steps, i);
    var l := ChainPrefix(grants, id, steps, j);
    if c[i].id == c[j].id {
      ChainIgnoresSteps(grants, c[i].id, k, l);
    }
  }

  // ----- an allowed call -----

  /** What NewRegistry guarantees of the registry, apart from its trajectories. */
  ghost predicate Registered(reg: Registry) {
    "" !in reg.agents && !ParentCycle(reg.agents) && Keyed(reg.grants)
  }

  lemma {:induction false} AcceptedIsRegistered(agents: seq<Agent>, grants: seq<Grant>, ts: seq<Trajectory>)
    requires Acceptable(agents, grants, ts)
    ensures Registered(Registry(AgentMap(agents, |agents|), GrantMap(grants, |grants|), TrajectoryMap(ts, |ts|)))
  {
    AgentMapHolds(agents, |agents|);
    GrantMapHolds(grants, |grants|);
    AgentMapKeys(agents, |agents|, "");
    assert Blank("");
    assert forall i :: 0 <= i < |agents| ==> AgentOk(agents[i]) && agents[i].id != "";
  }

  predicate Within(a: seq<string>, b: seq<string>) {
    forall i :: 0 <= i < |a| ==> a[i] in b
  }

  /** Containment in the parent at every link is containment in every earlier grant. */
  lemma {:induction false} Attenuates(reg: Registry, env: Envelope, human: string, c: seq<Grant>, i: nat, j: nat)
    requires i <= j < |c| && forall k :: 0 <= k < |c| ==> LinkFits(reg, env, human, c, k)
    ensures Within(c[j].capabilities, c[i].capabilities) && Within(c[j].resources, c[i].resources)
    decreases j
  {
    if i < j {
      assert LinkFits(reg, env, human, c, j);
      Attenuates(reg, env, human, c, i, j - 1);
    }
  }

  /** The subjects of the chain, read backwards, are the actor and the agents above it. */
  lemma {:induction false} SubjectsAreAncestors(reg: Registry, env: Envelope, human: string, c: seq<Grant>, n: nat)
    requires n < |c| && forall k :: 0 <= k < |c| ==> LinkFits(reg, env, human, c, k)
    requires c[|c| - 1].subject == env.actor
    ensures Above(reg.agents, env.actor, n) == c[|c| - 1 - n].subject
  {
    if n > 0 {
      SubjectsAreAncestors(reg, env, human, c, n - 1);
      assert LinkFits(reg, env, human, c, |c| - n);
    }
  }

  lemma {:induction false} AboveAdds(agents: map<string, Agent>, id: string, m: nat, n: nat)
    requires "" !in agents
    ensures Above(agents, id, m + n) == Above(agents, Above(agents, id, m), n)
  {
    if n > 0 {
      AboveAdds(agents, id, m, n - 1);
      assert Above(agents, id, m + n - 1) == Above(agents, id, m + (n - 1));
    }
  }

  /**
    An allowed call rests on at most 32 different grants, from a root grant issued by one human to the
    grant it names. Their subjects are exactly the actor's parent path, down from a root agent, and no
    agent occurs twice; all belong to that human.
   */
  lemma AllowedCallFollowsTheParentPath(reg: Registry, env: Envelope, now: int)
    requires Registered(reg) && Allowed(reg, env, now)
    ensures var c := Chain(reg.grants, env.grantId, MAX_GRANT_DEPTH).value; var human := reg.agents[env.actor].human;
      && IsChain(reg.grants, c, env.grantId) && |c| <= MAX_GRANT_DEPTH
      && (forall i, j :: 0 <= i < j < |c| ==> c[i].id != c[j].id && c[i].subject != c[j].subject)
      && (forall n :: 0 <= n < |c| ==> c[|c| - 1 - n].subject == Above(reg.agents, env.actor, n))
      && Above(reg.agents, env.actor, |c|) == ""
      && c[0].issuer == human && human !in reg.agents
      && (forall i :: 0 <= i < |c| ==> c[i].subject in reg.agents && reg.agents[c[i].subject].human == human)
  {
    var c := Chain(reg.grants, env.grantId, MAX_GRANT_DEPTH).value;
    var human := reg.agents[env.actor].human;
    ChainIsChain(reg.grants, env.grantId, MAX_GRANT_DEPTH);
    forall n | 0 <= n < |c| ensures c[|c| - 1 - n].subject == Above(reg.agents, env.actor, n) {
      SubjectsAreAncestors(reg, env, human, c, n);
    }
    assert LinkFits(reg, env, human, c, 0);
    assert Above(reg.agents, env.actor, |c| - 1) == c[0].subject;
    forall i, j | 0 <= i < j < |c| ensures c[i].id != c[j].id && c[i].subject != c[j].subject {
      ChainHasNoRepeats(reg.grants, env.grantId, MAX_GRANT_DEPTH, i, j);
      SubjectsAreAncestors(reg, env, human, c, |c| - 1 - i);
      SubjectsAreAncestors(reg, env, human, c, |c| - 1 - j);
      AboveAdds(reg.agents, env.actor, |c| - 1 - j, j - i);
      assert LinkFits(reg, env, human, c, j);
      assert Above(reg.agents, c[j].subject, j - i) == c[i].subject;
    }
    forall i | 0 <= i < |c| ensures c[i].subject in reg.agents && reg.agents[c[i].subject].human == human {
      assert LinkFits(reg, env, human, c, i);
    }
  }

  /** Along the chain of an allowed call authority only shrinks, and every grant in it covers the request. */
  lemma AllowedCallIsAttenuated(reg: Registry, env: Envelope, now: int, i: nat, j: nat)
    requires Allowed(reg, env, now) && i <= j < |Chain(reg.grants, env.grantId, MAX_GRANT_DEPTH).value|
    ensures var c := Chain(reg.grants, env.grantId, MAX_GRANT_DEPTH).value;
      && Within(c[j].capabilities, c[i].capabilities) && Within(c[j].resources, c[i].resources)
      && env.capability in c[i].capabilities && env.resource in c[i].resources
  {
    var c := Chain(reg.grants, env.grantId, MAX_GRANT_DEPTH).value;
    var human := reg.agents[env.actor].human;
    Attenuates(reg, env, human, c, i, j);
    assert LinkFits(reg, env, human, c, i);
  }

  // ----- the instants at which a call is allowed -----

  /** Instants from lo up to but not including hi. */
  datatype Span = Span(lo: int, hi: int)

  const NEVER := Span(0, 0)

  predicate During(s: Span, now: int) {
    s.lo <= now < s.hi
  }

  function Meet(s: Span, start: Option<int>, expiry: Option<int>): Span {
    if start.None? || expiry.None? then NEVER
    else Span(if s.lo < start.value then start.value else s.lo, if s.hi < expiry.value then s.hi else expiry.value)
  }

  function MeetAgent(s: Span, reg: Registry, id: string): Span {
    if id in reg.agents then Meet(s, reg.agents[id].createdAt, reg.agents[id].expiry) else NEVER
  }

  /** The span of the first n links, within the span of the named grant and its subject. */
  function ChainSpan(reg: Registry, env: Envelope, human: string, chain: seq<Grant>, n: nat, start: Span): Span
    requires n <= |chain|
  {
    if n == 0 then start
    else
      var i := n - 1;
      var s := ChainSpan(reg, env, human, chain, i, start);
      var live := MeetAgent(Meet(s, chain[i].issuedAt, chain[i].expiry), reg, chain[i].subject);
      if !LinkFits(reg, env, human, chain, i) then NEVER
      else if i > 0 then MeetAgent(live, reg, chain[i].issuer) else live
  }

  lemma {:induction false} ChainSpanIs(reg: Registry, env: Envelope, human: string, chain: seq<Grant>, n: nat,
      start: Span, now: int)
    requires n <= |chain|
    ensures During(ChainSpan(reg, env, human, chain, n, start), now) <==>
      During(start, now)
      && forall i :: 0 <= i < n ==> LinkFits(reg, env, human, chain, i) && LinkLive(reg, chain, i, now)
  {
    if n > 0 {
      ChainSpanIs(reg, env, human, chain, n - 1, start, now);
    }
  }

  /** The span a call is allowed in, read off the registry; empty when the call is never allowed. */
  function AllowedSpan(reg: Registry, env: Envelope): Span {
    if env.actor !in reg.agents || env.grantId !in reg.grants then NEVER
    else
      var actor, grant := reg.agents[env.actor], reg.grants[env.grantId];
      var chain := Chain(reg.grants, env.grantId, MAX_GRANT_DEPTH);
      if chain.None? || grant.subject != env.actor || !TrajectoryFits(reg, env)
         || actor.createdAt.None? || actor.expiry.None? then NEVER
      else
        var start := Meet(Span(actor.createdAt.value, actor.expiry.value), grant.issuedAt, grant.expiry);
        ChainSpan(reg, env, actor.human, chain.value, |chain.value|, start)
  }

  /** The instants at which a call is allowed form one interval, closed below and open above. */
  lemma AllowedInstantsFormOneInterval(reg: Registry, env: Envelope, now: int)
    ensures Allowed(reg, env, now) <==> During(AllowedSpan(reg, env), now)
  {
    if env.actor in reg.agents && env.grantId in reg.grants {
      var actor, grant := reg.agents[env.actor], reg.grants[env.grantId];
      var chain := Chain(reg.grants, env.grantId, MAX_GRANT_DEPTH);
      if chain.Some? && actor.createdAt.Some? && actor.expiry.Some? {
        var start := Meet(Span(actor.createdAt.value, actor.expiry.value), grant.issuedAt, grant.expiry);
        ChainSpanIs(reg, env, actor.human, chain.value, |chain.value|, start, now);
      }
    }
  }
}
