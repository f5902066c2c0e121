/**
  Exactly which calls are allowed and which registries are accepted, spelled out without the checks the code
  is built from (internal/lineage/registry.go, internal/lineage/validate.go).
 */
module LineageExact {
  import opened Wrappers
  import opened Lineage
  import opened LineageValidate
  import opened LineageTheorems

  // ----- allowed calls -----

  /** The interval has begun and not ended. */
  predicate Current(start: Option<int>, expiry: Option<int>, now: int) {
    start.Some? && expiry.Some? && start.value <= now && now < expiry.value
  }

  predicate CurrentAgent(reg: Registry, id: string, human: string, now: int) {
    id in reg.agents && Current(reg.agents[id].createdAt, reg.agents[id].expiry, now) && reg.agents[id].human == human
  }

  /** The grant is in force, held by a current agent of the human, and names the capability and the resource asked for. */
  predicate Covers(reg: Registry, env: Envelope, human: string, g: Grant, now: int) {
    && Current(g.issuedAt, g.expiry, now) && CurrentAgent(reg, g.subject, human, now)
    && env.capability != "" && env.capability in g.capabilities && env.resource != "" && env.resource in g.resources
  }

  /** Everything the second grant gives, the first one had to give, and its holder is the parent of the second's. */
  predicate HandsDown(reg: Registry, g: Grant, h: Grant) {
    && h.issuer == g.subject && h.subject in reg.agents && reg.agents[h.subject].parent == g.subject
    && (forall c <- h.capabilities :: c != "" && c in g.capabilities) && (forall r <- h.resources :: r != "" && r in g.resources)
  }

  predicate FromHuman(reg: Registry, g: Grant, human: string) {
    g.issuer == human && human !in reg.agents && g.subject in reg.agents && reg.agents[g.subject].parent == ""
  }

  /** The grants from the human's to the one named, which the actor holds. */
  ghost predicate Delegates(reg: Registry, env: Envelope, now: int, c: seq<Grant>) {
    && IsChain(reg.grants, c, env.grantId) && |c| <= 32 && env.actor in reg.agents && c[|c| - 1].subject == env.actor
    && Spells(reg, env, reg.agents[env.actor].human, c, now)
  }

  /** The call is the one declared under its trajectory ID, on one of its resources. */
  predicate Declared(reg: Registry, env: Envelope) {
    && env.trajectoryId != "" && env.trajectoryId in reg.trajectories
    && var t := reg.trajectories[env.trajectoryId];
       && env.actor == t.actor && env.grantId == t.grantId && env.capability == t.capability && env.server == t.server
       && env.tool == t.tool && env.effect == t.effect && env.priorStateHash == t.priorStateHash
       && env.resource != "" && env.resource in t.resources
  }

  lemma {:induction false} ChainOf(grants: map<string, Grant>, c: seq<Grant>, id: string, steps: nat)
    requires IsChain(grants, c, id) && "" !in grants && |c| <= steps
    ensures Chain(grants, id, steps) == Some(c)
    decreases |c|
  {
    var n := |c| - 1;
    assert grants[id] == c[n] && c == c[..n] + [c[n]];
    if n > 0 {
      assert c[n].parent == c[n - 1].id;
      assert c[n - 1].id in grants;
      ChainOf(grants, c[..n], c[n - 1].id, steps - 1);
    } else {
      assert c == [c[0]];
    }
  }

  lemma SubsetSpelledOut(need: seq<string>, have: seq<string>)
    requires need != []
    ensures ExactSubset(need, have) <==> forall x <- need :: x != "" && x in have
  {
    if ExactSubset(need, have) {
      forall x <- need ensures x != "" && x in have {
        var i :| 0 <= i < |need| && need[i] == x;
        assert ContainsExact(have, need[i]);
      }
    } else {
      var i :| 0 <= i < |need| && !ContainsExact(have, need[i]);
      assert need[i] in need;
    }
  }

  lemma LinkSpelledOut(reg: Registry, env: Envelope, human: string, c: seq<Grant>, i: nat, now: int)
    requires i < |c| && c[0].parent == ""
    requires i > 0 ==> CurrentAgent(reg, c[i - 1].subject, human, now)
    requires c[i].capabilities != [] && c[i].resources != []
    ensures LinkFits(reg, env, human, c, i) && LinkLive(reg, c, i, now)
       <==> Covers(reg, env, human, c[i], now) && (if i == 0 then FromHuman(reg, c[0], human) else HandsDown(reg, c[i - 1], c[i]))
  {
    if i > 0 {
      SubsetSpelledOut(c[i].capabilities, c[i - 1].capabilities);
      SubsetSpelledOut(c[i].resources, c[i - 1].resources);
    }
  }

  /** Link i is as it should be, spelled out. */
  predicate Spelled(reg: Registry, env: Envelope, human: string, c: seq<Grant>, i: nat, now: int)
    requires i < |c|
  {
    Covers(reg, env, human, c[i], now) && (if i == 0 then FromHuman(reg, c[0], human) else HandsDown(reg, c[i - 1], c[i]))
  }

  /** What registration also guarantees: grants give something, and nothing is filed under the empty ID. */
  ghost predicate Filled(reg: Registry) {
    Keyed(reg.grants) && "" !in reg.grants && forall id <- reg.grants :: reg.grants[id].capabilities != [] && reg.grants[id].resources != []
  }

  /** The first n links keep the code's rules. */
  ghost predicate FirstFit(reg: Registry, env: Envelope, human: string, c: seq<Grant>, n: nat, now: int)
    requires n <= |c|
  {
    forall i :: 0 <= i < n ==> LinkFits(reg, env, human, c, i) && LinkLive(reg, c, i, now)
  }

  ghost predicate FirstSpelled(reg: Registry, env: Envelope, human: string, c: seq<Grant>, n: nat, now: int)
    requires n <= |c|
  {
    forall i :: 0 <= i < n ==> Spelled(reg, env, human, c, i, now)
  }

  lemma OneMoreLink(reg: Registry, env: Envelope, human: string, c: seq<Grant>, n: nat, now: int)
    requires n < |c|
    ensures FirstFit(reg, env, human, c, n + 1, now)
       <==> FirstFit(reg, env, human, c, n, now) && LinkFits(reg, env, human, c, n) && LinkLive(reg, c, n, now)
    ensures FirstSpelled(reg, env, human, c, n + 1, now)
       <==> FirstSpelled(reg, env, human, c, n, now) && Spelled(reg, env, human, c, n, now)
  {
  }

  lemma {:induction false} LinksSpelledOut(reg: Registry, env: Envelope, human: string, c: seq<Grant>, now: int, n: nat)
    requires Filled(reg) && IsChain(reg.grants, c, env.grantId) && n <= |c|
    ensures FirstFit(reg, env, human, c, n, now) <==> FirstSpelled(reg, env, human, c, n, now)
  {
    if n > 0 {
      LinksSpelledOut(reg, env, human, c, now, n - 1);
      OneMoreLink(reg, env, human, c, n - 1, now);
      assert c[n - 1].id in reg.grants && reg.grants[c[n - 1].id] == c[n - 1];
      if FirstSpelled(reg, env, human, c, n - 1, now) {
        assert n > 1 ==> Spelled(reg, env, human, c, n - 2, now);
        LinkSpelledOut(reg, env, human, c, n - 1, now);
      }
    }
  }

  ghost predicate Spells(reg: Registry, env: Envelope, human: string, c: seq<Grant>, now: int)
    requires c != []
  {
    && (forall i :: 0 <= i < |c| ==> Covers(reg, env, human, c[i], now)) && FromHuman(reg, c[0], human)
    && (forall i :: 1 <= i < |c| ==> HandsDown(reg, c[i - 1], c[i]))
  }

  lemma ChainSpelledOut(reg: Registry, env: Envelope, human: string, c: seq<Grant>, now: int)
    requires c != []
    ensures FirstSpelled(reg, env, human, c, |c|, now) <==> Spells(reg, env, human, c, now)
  {
    if FirstSpelled(reg, env, human, c, |c|, now) {
      assert Spelled(reg, env, human, c, 0, now);
      forall i | 0 <= i < |c| ensures Covers(reg, env, human, c[i], now) && (i > 0 ==> HandsDown(reg, c[i - 1], c[i])) {
        assert Spelled(reg, env, human, c, i, now);
      }
    }
    if Spells(reg, env, human, c, now) {
      forall i | 0 <= i < |c| ensures Spelled(reg, env, human, c, i, now) {
        assert Covers(reg, env, human, c[i], now) && (i > 0 ==> HandsDown(reg, c[i - 1], c[i]));
      }
    }
  }

  /**
    Over a registered registry a call is allowed exactly if it is the one declared for its trajectory and the named grant
    comes down to the actor from a human: at most 32 grants in force at that instant, each held by a current agent of that
    human and covering the call, each handed down by the holder of the one before, who is the parent of its own holder.
   */
  lemma AllowedExactlyWhen(reg: Registry, env: Envelope, now: int)
    requires Filled(reg)
    ensures Allowed(reg, env, now) <==> Declared(reg, env) && exists c :: Delegates(reg, env, now, c)
  {
    if Allowed(reg, env, now) {
      var c := Chain(reg.grants, env.grantId, MAX_GRANT_DEPTH).value;
      ChainIsChain(reg.grants, env.grantId, MAX_GRANT_DEPTH);
      LinksSpelledOut(reg, env, reg.agents[env.actor].human, c, now, |c|);
      ChainSpelledOut(reg, env, reg.agents[env.actor].human, c, now);
      assert Delegates(reg, env, now, c);
    }
    if c :| Delegates(reg, env, now, c) {
      ChainOf(reg.grants, c, env.grantId, MAX_GRANT_DEPTH);
      LinksSpelledOut(reg, env, reg.agents[env.actor].human, c, now, |c|);
      ChainSpelledOut(reg, env, reg.agents[env.actor].human, c, now);
      assert Covers(reg, env, reg.agents[env.actor].human, c[|c| - 1], now);
    }
  }

  /** An allowed call is the one registered for its trajectory. */
  lemma AllowedCallIsTheDeclaredOne(reg: Registry, env: Envelope, now: int)
    requires Filled(reg) && Allowed(reg, env, now)
    ensures env.trajectoryId in reg.trajectories
    ensures var t := reg.trajectories[env.trajectoryId];
      && t.actor == env.actor && t.grantId == env.grantId && t.capability == env.capability && t.server == env.server
      && t.tool == env.tool && t.effect == env.effect && t.priorStateHash == env.priorStateHash && env.resource in t.resources
  {
    AllowedExactlyWhen(reg, env, now);
  }

  // ----- accepted registries -----

  /** At least one character that is not a space. */
  predicate SomeText(s: string) {
    exists i :: 0 <= i < |s| && s[i] != ' ' && s[i] != '\t' && s[i] != '\r' && s[i] != '\n' && s[i] != 11 as char && s[i] != 12 as char
  }

  predicate Lasts(start: Option<int>, expiry: Option<int>) {
    start.Some? && expiry.Some? && start.value < expiry.value
  }

  ghost predicate GoodAgents(agents: seq<Agent>) {
    && (forall i :: 0 <= i < |agents| ==>
          var a := agents[i];
          SomeText(a.id) && SomeText(a.human) && Lasts(a.createdAt, a.expiry)
          && (a.parent == "" || exists j :: 0 <= j < |agents| && agents[j].id == a.parent))
    && (forall i, j :: 0 <= i < j < |agents| ==> agents[i].id != agents[j].id)
    && !ParentCycle(AgentMap(agents, |agents|))
  }

  lemma BlankIsNoText(s: string)
    ensures Blank(s) <==> !SomeText(s)
  {
  }

  lemma {:induction false} AgentsByIndex(agents: seq<Agent>, n: nat)
    requires n <= |agents| && forall i, j :: 0 <= i < j < |agents| ==> agents[i].id != agents[j].id
    ensures forall i :: 0 <= i < n ==> agents[i].id in AgentMap(agents, n) && AgentMap(agents, n)[agents[i].id] == agents[i]
    ensures forall id <- AgentMap(agents, n) :: exists i :: 0 <= i < n && agents[i].id == id
  {
    AgentMapHolds(agents, n);
    forall i | 0 <= i < n ensures agents[i].id in AgentMap(agents, n) {
      AgentMapKeys(agents, n, agents[i].id);
    }
  }

  /** The agents accepted are exactly: named, under a human, in order, with parents among them and no cycle. */
  lemma AgentsAcceptableExactlyWhen(agents: seq<Agent>)
    ensures AgentsAcceptable(agents) <==> GoodAgents(agents)
  {
    forall i | 0 <= i < |agents| ensures Blank(agents[i].id) <==> !SomeText(agents[i].id) {
      BlankIsNoText(agents[i].id);
    }
    forall i | 0 <= i < |agents| ensures Blank(agents[i].human) <==> !SomeText(agents[i].human) {
      BlankIsNoText(agents[i].human);
    }
    if DistinctAgents(agents) {
      AgentsByIndex(agents, |agents|);
      ParentsByIndex(agents);
      if GoodAgents(agents) {
        NobodyIsItsOwnParent(agents);
      }
    }
  }

  lemma {:induction false} ParentsByIndex(agents: seq<Agent>)
    requires DistinctAgents(agents)
    ensures ParentsRegistered(AgentMap(agents, |agents|)) <==>
      forall i :: 0 <= i < |agents| ==> agents[i].parent == "" || exists j :: 0 <= j < |agents| && agents[j].id == agents[i].parent
  {
    AgentsByIndex(agents, |agents|);
    var am := AgentMap(agents, |agents|);
    if ParentsRegistered(am) {
      forall i | 0 <= i < |agents|
        ensures agents[i].parent == "" || exists j :: 0 <= j < |agents| && agents[j].id == agents[i].parent
      {
        assert agents[i].id in am;
      }
    }
  }

  /** An agent that is its own parent is a cycle. */
  lemma NobodyIsItsOwnParent(agents: seq<Agent>)
    requires GoodAgents(agents)
    ensures forall i :: 0 <= i < |agents| ==> agents[i].parent != agents[i].id
  {
    var am := AgentMap(agents, |agents|);
    AgentsByIndex(agents, |agents|);
    forall i | 0 <= i < |agents| ensures agents[i].parent != agents[i].id {
      assert agents[i].id in am && Above(am, agents[i].id, 0) == agents[i].id;
      assert Above(am, agents[i].id, 1) == am[agents[i].id].parent;
    }
  }

  ghost predicate AllText(list: seq<string>) {
    list != [] && forall i :: 0 <= i < |list| ==> SomeText(list[i])
  }

  /** A root grant is a registered human's to a root agent of any human; any other is its parent's holder's. */
  ghost predicate WellPlaced(agents: seq<Agent>, am: map<string, Agent>, grants: seq<Grant>, g: Grant)
    requires g.subject in am
  {
    if g.parent == "" then
      g.issuer !in am && (exists k :: 0 <= k < |agents| && agents[k].human == g.issuer) && am[g.subject].parent == ""
    else
      exists j :: 0 <= j < |grants| && grants[j].id == g.parent && g.issuer == grants[j].subject
  }

  ghost predicate Rooted(gm: map<string, Grant>, id: string) {
    exists c :: IsChain(gm, c, id) && |c| <= 32
  }

  /** A grant on its own: its texts, its holder and its time. */
  ghost predicate GoodGrant(am: map<string, Agent>, g: Grant) {
    && SomeText(g.id) && SomeText(g.issuer) && g.subject in am && AllText(g.capabilities) && AllText(g.resources)
    && Lasts(g.issuedAt, g.expiry)
  }

  ghost predicate EachGood(am: map<string, Agent>, grants: seq<Grant>) {
    forall i {:trigger GoodGrant(am, grants[i])} :: 0 <= i < |grants| ==> GoodGrant(am, grants[i])
  }

  ghost predicate EachPlaced(agents: seq<Agent>, am: map<string, Agent>, grants: seq<Grant>)
    requires EachGood(am, grants)
  {
    forall i :: 0 <= i < |grants| ==> GoodGrant(am, grants[i]) && WellPlaced(agents, am, grants, grants[i])
  }

  ghost predicate EachRooted(grants: seq<Grant>) {
    forall i :: 0 <= i < |grants| ==> Rooted(GrantMap(grants, |grants|), grants[i].id)
  }

  ghost predicate GoodGrants(agents: seq<Agent>, am: map<string, Agent>, grants: seq<Grant>) {
    && EachGood(am, grants) && (forall i, j :: 0 <= i < j < |grants| ==> grants[i].id != grants[j].id)
    && EachPlaced(agents, am, grants) && EachRooted(grants)
  }

  lemma BlankTexts(list: seq<string>)
    ensures AllText(list) <==> list != [] && forall i :: 0 <= i < |list| ==> !Blank(list[i])
  {
    forall i | 0 <= i < |list| ensures Blank(list[i]) <==> !SomeText(list[i]) {
      BlankIsNoText(list[i]);
    }
  }

  lemma {:induction false} GrantsByIndex(grants: seq<Grant>, n: nat)
    requires n <= |grants| && forall i, j :: 0 <= i < j < |grants| ==> grants[i].id != grants[j].id
    ensures forall i :: 0 <= i < n ==> grants[i].id in GrantMap(grants, n) && GrantMap(grants, n)[grants[i].id] == grants[i]
    ensures forall id <- GrantMap(grants, n) :: GrantMap(grants, n)[id].id == id && exists i :: 0 <= i < n && grants[i].id == id
  {
    GrantMapHolds(grants, n);
    forall i | 0 <= i < n ensures grants[i].id in GrantMap(grants, n) {
      GrantMapKeys(grants, n, grants[i].id);
    }
  }

  lemma GrantSpelledOut(am: map<string, Agent>, g: Grant)
    requires forall id <- am :: SomeText(id)
    ensures GrantOk(am, g) <==> GoodGrant(am, g) && g.parent != g.id
  {
    BlankIsNoText(g.id);
    BlankIsNoText(g.issuer);
    BlankIsNoText(g.subject);
    BlankTexts(g.capabilities);
    BlankTexts(g.resources);
  }

  lemma {:induction false} PlaceSpelledOut(agents: seq<Agent>, am: map<string, Agent>, grants: seq<Grant>, g: Grant)
    requires g.subject in am && DistinctGrants(grants)
    requires forall i :: 0 <= i < |grants| ==> grants[i].subject in am
    ensures GrantPlaced(am, Humans(agents), GrantMap(grants, |grants|), g) <==> WellPlaced(agents, am, grants, g)
  {
    GrantsByIndex(grants, |grants|);
  }

  lemma {:induction false} RootSpelledOut(gm: map<string, Grant>, id: string)
    requires Keyed(gm) && "" !in gm
    ensures Chain(gm, id, MAX_GRANT_DEPTH).Some? <==> Rooted(gm, id)
    ensures Chain(gm, id, MAX_GRANT_DEPTH).Some? ==>
      forall c :: IsChain(gm, c, id) && |c| <= 32 ==> c == Chain(gm, id, MAX_GRANT_DEPTH).value
  {
    if Chain(gm, id, MAX_GRANT_DEPTH).Some? {
      ChainIsChain(gm, id, MAX_GRANT_DEPTH);
    }
    forall c | IsChain(gm, c, id) && |c| <= 32 ensures Chain(gm, id, MAX_GRANT_DEPTH) == Some(c) {
      ChainOf(gm, c, id, MAX_GRANT_DEPTH);
    }
  }

  lemma {:induction false} RootedIsNotItsOwnParent(gm: map<string, Grant>, id: string)
    requires Keyed(gm) && "" !in gm && id in gm && Chain(gm, id, MAX_GRANT_DEPTH).Some?
    ensures gm[id].parent != id
  {
    ChainIsChain(gm, id, MAX_GRANT_DEPTH);
    var c := Chain(gm, id, MAX_GRANT_DEPTH).value;
    if |c| > 1 {
      ChainHasNoRepeats(gm, id, MAX_GRANT_DEPTH, |c| - 2, |c| - 1);
    }
  }

  lemma EachGoodSpelledOut(am: map<string, Agent>, grants: seq<Grant>)
    requires forall id <- am :: SomeText(id)
    ensures (forall i :: 0 <= i < |grants| ==> GrantOk(am, grants[i]))
       <==> EachGood(am, grants) && forall i :: 0 <= i < |grants| ==> grants[i].parent != grants[i].id
  {
    forall i | 0 <= i < |grants|
      ensures GrantOk(am, grants[i]) <==> GoodGrant(am, grants[i]) && grants[i].parent != grants[i].id
    {
      GrantSpelledOut(am, grants[i]);
    }
  }

  lemma {:induction false} PlacedByIndex(agents: seq<Agent>, am: map<string, Agent>, grants: seq<Grant>)
    requires DistinctGrants(grants) && forall i :: 0 <= i < |grants| ==> grants[i].subject in am
    ensures GrantsPlaced(am, Humans(agents), GrantMap(grants, |grants|)) <==>
      forall i :: 0 <= i < |grants| ==> GrantPlaced(am, Humans(agents), GrantMap(grants, |grants|), grants[i])
  {
    GrantsByIndex(grants, |grants|);
    var gm := GrantMap(grants, |grants|);
    if GrantsPlaced(am, Humans(agents), gm) {
      forall i | 0 <= i < |grants| ensures GrantPlaced(am, Humans(agents), gm, grants[i]) {
        assert grants[i].id in gm;
      }
    }
  }

  lemma {:induction false} RootedByIndex(grants: seq<Grant>)
    requires DistinctGrants(grants)
    ensures GrantsRooted(GrantMap(grants, |grants|)) <==>
      forall i :: 0 <= i < |grants| ==> Chain(GrantMap(grants, |grants|), grants[i].id, MAX_GRANT_DEPTH).Some?
  {
    GrantsByIndex(grants, |grants|);
    var gm := GrantMap(grants, |grants|);
    if GrantsRooted(gm) {
      forall i | 0 <= i < |grants| ensures Chain(gm, grants[i].id, MAX_GRANT_DEPTH).Some? {
        assert grants[i].id in gm;
      }
    }
  }

  lemma {:induction false} EachPlacedSpelledOut(agents: seq<Agent>, am: map<string, Agent>, grants: seq<Grant>)
    requires DistinctGrants(grants) && EachGood(am, grants)
    ensures GrantsPlaced(am, Humans(agents), GrantMap(grants, |grants|)) <==> EachPlaced(agents, am, grants)
  {
    forall i | 0 <= i < |grants| ensures grants[i].subject in am {
      assert GoodGrant(am, grants[i]);
    }
    PlacedByIndex(agents, am, grants);
    forall i | 0 <= i < |grants|
      ensures GoodGrant(am, grants[i])
      ensures GrantPlaced(am, Humans(agents), GrantMap(grants, |grants|), grants[i]) <==> WellPlaced(agents, am, grants, grants[i])
    {
      PlaceSpelledOut(agents, am, grants, grants[i]);
    }
  }

  lemma {:induction false} EachRootedSpelledOut(am: map<string, Agent>, grants: seq<Grant>)
    requires DistinctGrants(grants) && EachGood(am, grants)
    ensures GrantsRooted(GrantMap(grants, |grants|)) <==> EachRooted(grants)
    ensures EachRooted(grants) ==> forall i :: 0 <= i < |grants| ==> grants[i].parent != grants[i].id
  {
    var gm := GrantMap(grants, |grants|);
    GrantsByIndex(grants, |grants|);
    NothingUnderEmpty(am, grants);
    forall i | 0 <= i < |grants|
      ensures Chain(gm, grants[i].id, MAX_GRANT_DEPTH).Some? <==> Rooted(gm, grants[i].id)
      ensures Rooted(gm, grants[i].id) ==> grants[i].parent != grants[i].id
    {
      RootSpelledOut(gm, grants[i].id);
      if Rooted(gm, grants[i].id) {
        RootedIsNotItsOwnParent(gm, grants[i].id);
      }
    }
    RootedByIndex(grants);
  }

  lemma {:induction false} NothingUnderEmpty(am: map<string, Agent>, grants: seq<Grant>)
    requires DistinctGrants(grants) && EachGood(am, grants)
    ensures "" !in GrantMap(grants, |grants|)
  {
    GrantsByIndex(grants, |grants|);
    forall i | 0 <= i < |grants| ensures grants[i].id != "" {
      assert GoodGrant(am, grants[i]);
    }
  }

  /** The grants accepted are exactly: complete, placed under a human or a parent's holder, and rooted within 32 steps. */
  lemma GrantsAcceptableExactlyWhen(agents: seq<Agent>, am: map<string, Agent>, grants: seq<Grant>)
    requires forall id <- am :: SomeText(id)
    ensures GrantsAcceptable(am, Humans(agents), grants) <==> GoodGrants(agents, am, grants)
  {
    EachGoodSpelledOut(am, grants);
    if DistinctGrants(grants) && EachGood(am, grants) {
      EachPlacedSpelledOut(agents, am, grants);
      EachRootedSpelledOut(am, grants);
    }
  }

  // ----- trajectories -----

  /** Declared for the holder of a registered grant, whose whole chain covers its capability and every resource. */
  ghost predicate GoodTrajectory(am: map<string, Agent>, gm: map<string, Grant>, t: Trajectory) {
    && SomeText(t.id) && t.actor in am && t.grantId in gm && gm[t.grantId].subject == t.actor
    && SomeText(t.capability) && SomeText(t.server) && SomeText(t.tool) && SomeText(t.effect) && SomeText(t.priorStateHash)
    && t.resources != []
    && (exists c :: IsChain(gm, c, t.grantId) && |c| <= 32 && ChainCovers(c, t.capability, t.resources))
  }

  predicate ChainCovers(c: seq<Grant>, capability: string, resources: seq<string>) {
    forall i :: 0 <= i < |c| ==>
      capability in c[i].capabilities && forall r <- resources :: r != "" && r in c[i].resources
  }

  lemma CoverSpelledOut(c: seq<Grant>, capability: string, resources: seq<string>)
    requires c != [] && capability != "" && resources != []
    ensures CoveredByChain(c, capability, resources) <==> ChainCovers(c, capability, resources)
  {
    forall i | 0 <= i < |c|
      ensures (forall j :: 0 <= j < |resources| ==> ContainsExact(c[i].resources, resources[j]))
         <==> (forall r <- resources :: r != "" && r in c[i].resources)
    {
      SubsetSpelledOut(resources, c[i].resources);
    }
  }

  lemma TrajectorySpelledOut(am: map<string, Agent>, gm: map<string, Grant>, t: Trajectory)
    requires Keyed(gm) && "" !in gm
    ensures TrajectoryOk(am, gm, t) <==> GoodTrajectory(am, gm, t)
  {
    BlankIsNoText(t.id);
    BlankIsNoText(t.capability);
    BlankIsNoText(t.server);
    BlankIsNoText(t.tool);
    BlankIsNoText(t.effect);
    BlankIsNoText(t.priorStateHash);
    if t.grantId in gm && SomeText(t.capability) && t.resources != [] {
      RootSpelledOut(gm, t.grantId);
      if Chain(gm, t.grantId, MAX_GRANT_DEPTH).Some? {
        var c := Chain(gm, t.grantId, MAX_GRANT_DEPTH).value;
        ChainIsChain(gm, t.grantId, MAX_GRANT_DEPTH);
        CoverSpelledOut(c, t.capability, t.resources);
      }
    }
  }

  /** NewRegistry accepts exactly good agents, good grants among them, and good trajectories on those. */
  lemma {:induction false} AcceptableExactlyWhen(agents: seq<Agent>, grants: seq<Grant>, ts: seq<Trajectory>)
    ensures var am, gm := AgentMap(agents, |agents|), GrantMap(grants, |grants|);
      Acceptable(agents, grants, ts) <==>
        && GoodAgents(agents) && GoodGrants(agents, am, grants)
        && (forall i :: 0 <= i < |ts| ==> GoodTrajectory(am, gm, ts[i]))
        && (forall i, j :: 0 <= i < j < |ts| ==> ts[i].id != ts[j].id)
  {
    var am, gm := AgentMap(agents, |agents|), GrantMap(grants, |grants|);
    AgentsAcceptableExactlyWhen(agents);
    if GoodAgents(agents) {
      AgentsByIndex(agents, |agents|);
      GrantsAcceptableExactlyWhen(agents, am, grants);
      if GoodGrants(agents, am, grants) {
        GrantsByIndex(grants, |grants|);
        NothingUnderEmpty(am, grants);
        forall i | 0 <= i < |ts| ensures TrajectoryOk(am, gm, ts[i]) <==> GoodTrajectory(am, gm, ts[i]) {
          TrajectorySpelledOut(am, gm, ts[i]);
        }
      }
    }
  }

  /** What NewRegistry accepts is filled, so that `AllowedExactlyWhen` speaks of it. */
  lemma {:induction false} AcceptedIsFilled(agents: seq<Agent>, grants: seq<Grant>, ts: seq<Trajectory>)
    requires Acceptable(agents, grants, ts)
    ensures Filled(Registry(AgentMap(agents, |agents|), GrantMap(grants, |grants|), TrajectoryMap(ts, |ts|)))
  {
    AcceptableExactlyWhen(agents, grants, ts);
    GrantsByIndex(grants, |grants|);
    var am, gm := AgentMap(agents, |agents|), GrantMap(grants, |grants|);
    NothingUnderEmpty(am, grants);
    forall id <- gm ensures gm[id].capabilities != [] && gm[id].resources != [] {
      var i :| 0 <= i < |grants| && grants[i].id == id;
      assert GoodGrant(am, grants[i]);
    }
  }
}
