/**
  The lineage registry: indexing, cycle detection, grant chains
  (internal/lineage/registry.go, internal/lineage/types.go).

  A time is the instant an RFC 3339 string parses to, or None when it does not parse.
 */
module Lineage {
  import opened Wrappers
  import Spaces

  datatype Agent = Agent(id: string, parent: string, human: string, createdAt: Option<int>, expiry: Option<int>)

  datatype Grant = Grant(
    id: string, issuer: string, subject: string, parent: string,
    capabilities: seq<string>, resources: seq<string>, issuedAt: Option<int>, expiry: Option<int>)

  datatype Trajectory = Trajectory(
    id: string, actor: string, grantId: string, capability: string, server: string, tool: string,
    resources: seq<string>, effect: string, priorStateHash: string)

  datatype Registry = Registry(
    agents: map<string, Agent>, grants: map<string, Grant>, trajectories: map<string, Trajectory>)

  const MAX_GRANT_DEPTH := 32

  // ----- small checks -----

  /** strings.TrimSpace leaves nothing, for ASCII spaces. */
  predicate Blank(s: string) {
    forall i :: 0 <= i < |s| ==> Spaces.IsSpace(s[i])
  }

  predicate ValidInterval(start: Option<int>, expiry: Option<int>) {
    start.Some? && expiry.Some? && start.value < expiry.value
  }

  predicate InInterval(start: Option<int>, expiry: Option<int>, now: int) {
    start.Some? && expiry.Some? && start.value <= now < expiry.value
  }

  predicate ContainsExact(have: seq<string>, need: string) {
    need != "" && need in have
  }

  predicate ExactSubset(need: seq<string>, have: seq<string>) {
    need != [] && forall i :: 0 <= i < |need| ==> ContainsExact(have, need[i])
  }

  predicate CoveredByChain(chain: seq<Grant>, capability: string, resources: seq<string>) {
    && capability != "" && resources != []
    && forall i :: 0 <= i < |chain| ==>
         ContainsExact(chain[i].capabilities, capability)
         && forall j :: 0 <= j < |resources| ==> ContainsExact(chain[i].resources, resources[j])
  }

  // ----- agents and their parent paths -----

  predicate AgentOk(a: Agent) {
    !Blank(a.id) && !Blank(a.human) && ValidInterval(a.createdAt, a.expiry) && a.parent != a.id
  }

  function AgentMap(agents: seq<Agent>, n: nat): map<string, Agent>
    requires n <= |agents|
  {
    if n == 0 then map[] else AgentMap(agents, n - 1)[agents[n - 1].id := agents[n - 1]]
  }

  ghost predicate DistinctAgents(agents: seq<Agent>) {
    forall i, j :: 0 <= i < j < |agents| ==> agents[i].id != agents[j].id
  }

  predicate ParentsRegistered(agents: map<string, Agent>) {
    forall id <- agents :: agents[id].parent == "" || agents[id].parent in agents
  }

  /** The n-th agent above this one, or "" once past a root. */
  function Above(agents: map<string, Agent>, id: string, n: nat): string {
    if n == 0 then id
    else var p := Above(agents, id, n - 1); if p in agents then agents[p].parent else ""
  }

  ghost predicate ParentCycle(agents: map<string, Agent>) {
    exists id <- agents, n: nat :: n > 0 && Above(agents, id, n) == id
  }

  /** A numbering that falls from every agent to its parent. */
  ghost predicate Ranked(agents: map<string, Agent>, rank: map<string, nat>) {
    forall id <- rank :: id in agents &&
      (agents[id].parent == "" || (agents[id].parent in rank && rank[agents[id].parent] < rank[id]))
  }

  lemma {:induction false} RankFallsAbove(agents: map<string, Agent>, rank: map<string, nat>, id: string, n: nat)
    requires Ranked(agents, rank) && id in rank && "" !in agents
    ensures Above(agents, id, n) == "" || (Above(agents, id, n) in rank && rank[Above(agents, id, n)] + n <= rank[id])
  {
    if n > 0 {
      RankFallsAbove(agents, rank, id, n - 1);
    }
  }

  lemma RankedHasNoCycle(agents: map<string, Agent>, rank: map<string, nat>)
    requires Ranked(agents, rank) && rank.Keys == agents.Keys && "" !in agents
    ensures !ParentCycle(agents)
  {
    forall id <- agents, n: nat | n > 0 && Above(agents, id, n) == id ensures false {
      RankFallsAbove(agents, rank, id, n);
    }
  }

  lemma {:induction false} AgentMapHolds(agents: seq<Agent>, n: nat)
    requires n <= |agents|
    ensures forall id <- AgentMap(agents, n) ::
      AgentMap(agents, n)[id].id == id && exists i :: 0 <= i < n && agents[i] == AgentMap(agents, n)[id]
  {
    if n > 0 {
      AgentMapHolds(agents, n - 1);
    }
  }

  lemma {:induction false} AgentMapKeys(agents: seq<Agent>, n: nat, id: string)
    requires n <= |agents|
    ensures id in AgentMap(agents, n) <==> exists i :: 0 <= i < n && agents[i].id == id
  {
    if n > 0 {
      AgentMapKeys(agents, n - 1, id);
    }
  }

  method IndexAgents(agents: seq<Agent>) returns (m: Option<map<string, Agent>>)
    ensures m == if (forall i :: 0 <= i < |agents| ==> AgentOk(agents[i])) && DistinctAgents(agents)
                 then Some(AgentMap(agents, |agents|)) else None
  {
    var out: map<string, Agent> := map[];
    for i := 0 to |agents|
      invariant out == AgentMap(agents, i)
      invariant forall j :: 0 <= j < i ==> AgentOk(agents[j])
      invariant forall j, k :: 0 <= j < k < i ==> agents[j].id != agents[k].id
    {
      AgentMapKeys(agents, i, agents[i].id);
      if !AgentOk(agents[i]) || agents[i].id in out {
        return None;
      }
      out := out[agents[i].id := agents[i]];
    }
    return Some(out);
  }

  datatype Color = Gray | Black

  /** Gray agents lie below the one being visited; black ones are ranked. */
  ghost predicate Visiting(agents: map<string, Agent>, color: map<string, Color>, at: string, rank: map<string, nat>) {
    && Ranked(agents, rank)
    && (forall x <- color :: color[x].Black? <==> x in rank)
    && (forall x <- rank :: x in color)
    && (forall x <- color :: color[x].Gray? ==> x in agents && exists n: nat :: n > 0 && Above(agents, x, n) == at)
  }

  method Visit(agents: map<string, Agent>, id: string, color0: map<string, Color>, ghost rank0: map<string, nat>)
      returns (ok: bool, color: map<string, Color>, ghost rank: map<string, nat>)
    requires "" !in agents && ParentsRegistered(agents) && id in agents && color0.Keys <= agents.Keys
    requires Visiting(agents, color0, id, rank0)
    ensures !ok ==> ParentCycle(agents)
    ensures ok ==> Ranked(agents, rank) && id in rank && rank0.Keys <= rank.Keys && color.Keys <= agents.Keys
    ensures ok ==> forall x :: (x in color && color[x].Gray?) <==> (x in color0 && color0[x].Gray?)
    ensures ok ==> forall x :: (x in color && color[x].Black?) <==> x in rank
    decreases agents.Keys - color0.Keys
  {
    color, rank := color0, rank0;
    if id in color && color[id] == Gray {
      return false, color, rank;
    }
    if id in color {
      return true, color, rank;
    }
    color := color[id := Gray];
    assert id in agents.Keys - color0.Keys && id !in agents.Keys - color.Keys;
    assert agents.Keys - color.Keys < agents.Keys - color0.Keys;
    var parent := agents[id].parent;
    if parent != "" {
      assert Above(agents, id, 1) == parent by {
        assert Above(agents, id, 0) == id;
      }
      forall x <- color | color[x].Gray? ensures exists n: nat :: n > 0 && Above(agents, x, n) == parent {
        if x != id {
          var n: nat :| n > 0 && Above(agents, x, n) == id;
          assert Above(agents, x, n + 1) == parent;
        }
      }
      ok, color, rank := Visit(agents, parent, color, rank);
      if !ok {
        return;
      }
    }
    rank := rank[id := if parent == "" then 0 else rank[parent] + 1];
    color := color[id := Black];
    return true, color, rank;
  }

  /** detectAgentCycles: succeeds exactly when no agent is its own ancestor. */
  method DetectAgentCycles(agents: map<string, Agent>) returns (ok: bool, ghost rank: map<string, nat>)
    requires "" !in agents && ParentsRegistered(agents)
    ensures ok <==> !ParentCycle(agents)
    ensures ok ==> Ranked(agents, rank) && rank.Keys == agents.Keys
  {
    var color: map<string, Color> := map[];
    rank := map[];
    var ids := agents.Keys;
    while ids != {}
      invariant ids <= agents.Keys && color.Keys <= agents.Keys
      invariant Ranked(agents, rank)
      invariant forall x <- color :: color[x].Black?
      invariant forall x :: x in color <==> x in rank
      invariant forall x <- agents :: x in ids || x in rank
      decreases |ids|
    {
      var id :| id in ids;
      ids := ids - {id};
      ok, color, rank := Visit(agents, id, color, rank);
      if !ok {
        return;
      }
    }
    RankedHasNoCycle(agents, rank);
    return true, rank;
  }

  // ----- grants and their chains -----

  predicate GrantOk(agents: map<string, Agent>, g: Grant) {
    && !Blank(g.id) && !Blank(g.issuer) && !Blank(g.subject) && g.subject in agents
    && g.capabilities != [] && g.resources != []
    && (forall i :: 0 <= i < |g.capabilities| ==> !Blank(g.capabilities[i]))
    && (forall i :: 0 <= i < |g.resources| ==> !Blank(g.resources[i]))
    && ValidInterval(g.issuedAt, g.expiry) && g.parent != g.id
  }

  function GrantMap(grants: seq<Grant>, n: nat): map<string, Grant>
    requires n <= |grants|
  {
    if n == 0 then map[] else GrantMap(grants, n - 1)[grants[n - 1].id := grants[n - 1]]
  }

  ghost predicate DistinctGrants(grants: seq<Grant>) {
    forall i, j :: 0 <= i < j < |grants| ==> grants[i].id != grants[j].id
  }

  /** The issuer and subject rules between a grant and what is registered around it. */
  predicate GrantPlaced(agents: map<string, Agent>, humans: set<string>, grants: map<string, Grant>, g: Grant)
    requires g.subject in agents
  {
    if g.parent == "" then g.issuer !in agents && g.issuer in humans && agents[g.subject].parent == ""
    else g.parent in grants && g.issuer in agents && g.issuer == grants[g.parent].subject
  }

  /** The chain of a grant, root first, found within a number of steps. */
  function Chain(grants: map<string, Grant>, id: string, steps: nat): Option<seq<Grant>>
    decreases steps, grants
  {
    if steps == 0 || id == "" || id !in grants then None
    else if grants[id].parent == "" then Some([grants[id]])
    else match Chain(grants, grants[id].parent, steps - 1)
      case Some(c) => Some(c + [grants[id]])
      case None => None
  }

  lemma {:induction false} ChainIgnoresSteps(grants: map<string, Grant>, id: string, j: nat, k: nat)
    requires Chain(grants, id, j).Some? && Chain(grants, id, k).Some?
    ensures Chain(grants, id, j) == Chain(grants, id, k)
    decreases j
  {
    if grants[id].parent != "" {
      ChainIgnoresSteps(grants, grants[id].parent, j - 1, k - 1);
    }
  }

  ghost predicate LongerChain(grants: map<string, Grant>, id: string, length: nat) {
    exists k: nat :: Chain(grants, id, k).Some? && |Chain(grants, id, k).value| > length
  }

  function Reversed(s: seq<Grant>): seq<Grant> {
    if s == [] then [] else [s[|s| - 1]] + Reversed(s[..|s| - 1])
  }

  lemma {:induction false} ReversedSnoc(s: seq<Grant>, g: Grant)
    ensures Reversed(s + [g]) == [g] + Reversed(s)
  {
    assert (s + [g])[..|s|] == s;
  }

  lemma {:induction false} ReversedAt(s: seq<Grant>, i: nat)
    requires i < |s|
    ensures |Reversed(s)| == |s| && Reversed(s)[|s| - 1 - i] == s[i]
    decreases |s|
  {
    if i < |s| - 1 {
      ReversedAt(s[..|s| - 1], i);
    } else if |s| > 1 {
      ReversedAt(s[..|s| - 1], 0);
    }
  }

  /** Meeting a grant again on the way up means the way up never ends. */
  lemma {:induction false} SeenHasNoChain(grants: map<string, Grant>, id: string, steps: nat)
    requires Chain(grants, id, steps).Some? ==> LongerChain(grants, id, |Chain(grants, id, steps).value|)
    ensures Chain(grants, id, steps).None?
  {
    if Chain(grants, id, steps).Some? {
      var k: nat :| Chain(grants, id, k).Some? && |Chain(grants, id, k).value| > |Chain(grants, id, steps).value|;
      ChainIgnoresSteps(grants, id, steps, k);
    }
  }

  /** The whole chain is what lies above the current grant, followed by what was climbed already. */
  ghost predicate Climbed(whole: Option<seq<Grant>>, above: Option<seq<Grant>>, below: seq<Grant>) {
    whole == if above.Some? then Some(above.value + below) else None
  }

  lemma ClimbStep(grants: map<string, Grant>, whole: Option<seq<Grant>>, cur: string, steps: nat, below: seq<Grant>)
    requires steps > 0 && cur in grants && cur != "" && Climbed(whole, Chain(grants, cur, steps), below)
    ensures var g := grants[cur];
      if g.parent == "" then whole == Some([g] + below)
      else Climbed(whole, Chain(grants, g.parent, steps - 1), [g] + below)
  {
    var g := grants[cur];
    if g.parent != "" && Chain(grants, g.parent, steps - 1).Some? {
      var c := Chain(grants, g.parent, steps - 1).value;
      assert c + [g] + below == c + ([g] + below);
    }
  }

  /** Each grant climbed past has a longer chain than the current one, if that has a chain at all. */
  ghost predicate Shorter(grants: map<string, Grant>, seen: set<string>, above: Option<seq<Grant>>) {
    above.Some? ==> forall x <- seen :: LongerChain(grants, x, |above.value|)
  }

  lemma ShorterStep(grants: map<string, Grant>, seen: set<string>, cur: string, steps: nat)
    requires steps > 0 && cur in grants && cur != "" && grants[cur].parent != ""
    requires Shorter(grants, seen, Chain(grants, cur, steps))
    ensures Shorter(grants, seen + {cur}, Chain(grants, grants[cur].parent, steps - 1))
  {
    var next := Chain(grants, grants[cur].parent, steps - 1);
    if next.Some? {
      forall x <- seen ensures LongerChain(grants, x, |next.value|) {
        assert LongerChain(grants, x, |Chain(grants, cur, steps).value|);
        var k: nat :| Chain(grants, x, k).Some? && |Chain(grants, x, k).value| > |Chain(grants, cur, steps).value|;
      }
    }
  }

  method ReverseChain(leafToRoot: seq<Grant>) returns (chain: seq<Grant>)
    ensures chain == Reversed(leafToRoot)
  {
    var n := |leafToRoot|;
    chain := seq(n, j requires 0 <= j < n => leafToRoot[n - 1 - j]);
    assert n == 0 ==> leafToRoot == [];
    forall j | 0 <= j < n ensures |Reversed(leafToRoot)| == n && chain[j] == Reversed(leafToRoot)[j] {
      ReversedAt(leafToRoot, n - 1 - j);
    }
    assert |Reversed(leafToRoot)| == n by {
      if n > 0 {
        ReversedAt(leafToRoot, 0);
      }
    }
  }

  /** walkToRoot: the loop up the parents, with its cycle check and depth limit, finds exactly the chain. */
  method WalkToRoot(grants: map<string, Grant>, grantId: string) returns (chain: Option<seq<Grant>>)
    ensures chain == Chain(grants, grantId, MAX_GRANT_DEPTH)
  {
    var leafToRoot: seq<Grant> := [];
    var seen: set<string> := {};
    var cur := grantId;
    ghost var whole := Chain(grants, grantId, MAX_GRANT_DEPTH);
    assert whole.Some? ==> whole.value + [] == whole.value;
    for i := 0 to MAX_GRANT_DEPTH
      invariant Climbed(whole, Chain(grants, cur, MAX_GRANT_DEPTH - i), Reversed(leafToRoot))
      invariant Shorter(grants, seen, Chain(grants, cur, MAX_GRANT_DEPTH - i))
    {
      if cur == "" {
        return None;
      }
      if cur in seen {
        SeenHasNoChain(grants, cur, MAX_GRANT_DEPTH - i);
        return None;
      }
      if cur !in grants {
        return None;
      }
      var g := grants[cur];
      ClimbStep(grants, whole, cur, MAX_GRANT_DEPTH - i, Reversed(leafToRoot));
      ReversedSnoc(leafToRoot, g);
      leafToRoot := leafToRoot + [g];
      if g.parent == "" {
        var rooted := ReverseChain(leafToRoot);
        return Some(rooted);
      }
      ShorterStep(grants, seen, cur, MAX_GRANT_DEPTH - i);
      seen := seen + {cur};
      cur := g.parent;
    }
    return None;
  }
}
