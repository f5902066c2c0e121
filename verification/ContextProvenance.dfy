/**
  Context Provenance Proofs: the graph searches and the decision
  (internal/contextprovenance/evaluator.go).

  The maps a Go closure updates are handed in and out. Map iteration order is arbitrary.
 */
module ContextProvenance {
  import opened Wrappers
  import opened ContextGraph

  datatype Root = Root(schemaVersion: int, currentTick: int, requiredTrust: Trust, fragments: seq<Fragment>)

  datatype Reason = InvalidRoot | UnknownRequired | TargetMissing | Escalates | Insufficient | Authorized

  /** Trust and verdict; the evidence lines are not modelled. */
  datatype Decision = Decision(
    proofValid: bool, escalation: bool, authoritative: bool, effectiveTrust: Option<Trust>, reason: Reason)

  const SCHEMA_VERSION := 1

  // ----- indexing -----

  function IndexOf(frags: seq<Fragment>, n: nat): Graph
    requires n <= |frags|
  {
    if n == 0 then map[] else IndexOf(frags, n - 1)[frags[n - 1].id := frags[n - 1]]
  }

  predicate ValidFragment(f: Fragment) {
    f.id != "" && f.origin != "" && f.principal != "" && f.scope != "" && TrustRank(f.trust).Some?
  }

  ghost predicate ValidFragments(frags: seq<Fragment>) {
    && (forall i :: 0 <= i < |frags| ==> ValidFragment(frags[i]))
    && (forall i, j :: 0 <= i < j < |frags| ==> frags[i].id != frags[j].id)
  }

  lemma {:induction false} IndexHolds(frags: seq<Fragment>, n: nat)
    requires n <= |frags|
    ensures forall id <- IndexOf(frags, n) :: exists i :: 0 <= i < n && frags[i].id == id && IndexOf(frags, n)[id] == frags[i]
    ensures forall i :: 0 <= i < n ==> frags[i].id in IndexOf(frags, n)
  {
    if n > 0 {
      IndexHolds(frags, n - 1);
    }
  }

  /** Nothing but the fragments of a well-formed list, each under its own ID. */
  lemma {:induction false} IndexIsTrusted(frags: seq<Fragment>)
    requires ValidFragments(frags)
    ensures Trusted(IndexOf(frags, |frags|))
  {
    IndexHolds(frags, |frags|);
  }

  method IndexFragments(frags: seq<Fragment>) returns (g: Option<Graph>)
    ensures g == if ValidFragments(frags) then Some(IndexOf(frags, |frags|)) else None
  {
    var out: Graph := map[];
    for i := 0 to |frags|
      invariant out == IndexOf(frags, i)
      invariant forall j :: 0 <= j < i ==> ValidFragment(frags[j])
      invariant forall j, k :: 0 <= j < k < i ==> frags[j].id != frags[k].id
    {
      IndexHolds(frags, i);
      var f := frags[i];
      if !ValidFragment(f) {
        return None;
      }
      if f.id in out {
        return None;
      }
      out := out[f.id := f];
    }
    return Some(out);
  }

  // ----- cycle detection -----

  datatype Color = Gray | Black

  /** Gray fragments are the path being searched, black ones are finished and ranked. */
  ghost predicate Searching(g: Graph, color: map<string, Color>, stack: seq<string>, rank: map<string, nat>) {
    && Ranked(g, rank)
    && (forall x :: x in color <==> x in stack || x in rank)
    && (forall x <- color :: color[x] == Black <==> x in rank)
    && (forall x :: x in stack ==> x in color && color[x] == Gray)
  }

  lemma PathSnoc(g: Graph, path: seq<string>, p: string)
    requires IsPath(g, path) && Edge(g, path[|path| - 1], p) && p in g
    ensures IsPath(g, path + [p])
  {
  }

  /** Meeting a gray fragment closes a cycle. */
  lemma GrayMakesACycle(g: Graph, stack: seq<string>, p: string)
    requires IsPath(g, stack) && p in stack && Edge(g, stack[|stack| - 1], p)
    ensures HasCycle(g)
  {
    var k :| 0 <= k < |stack| && stack[k] == p;
    PathSnoc(g, stack, p);
    var cycle := (stack + [p])[k..];
    assert IsPath(g, cycle) && |cycle| > 1 && cycle[0] == cycle[|cycle| - 1];
  }

  lemma TurnGray(g: Graph, color: map<string, Color>, stack: seq<string>, rank: map<string, nat>, id: string)
    requires Searching(g, color, stack, rank) && id !in color
    ensures Searching(g, color[id := Gray], stack + [id], rank)
  {
  }

  /** A fragment whose parents are all ranked may be ranked after them. */
  lemma TurnBlack(g: Graph, color: map<string, Color>, stack: seq<string>, rank: map<string, nat>, id: string)
    requires id in g && id !in stack && Searching(g, color, stack + [id], rank)
    requires forall p <- g[id].derivedFrom :: p in rank
    ensures id !in rank && Searching(g, color[id := Black], stack, rank[id := |rank|])
  {
    assert id in stack + [id];
    assert forall x :: x in stack + [id] <==> x in stack || x == id;
  }

  method Dfs(g: Graph, id: string, color0: map<string, Color>, ghost stack0: seq<string>, ghost rank0: map<string, nat>)
      returns (cyc: bool, color: map<string, Color>, ghost rank: map<string, nat>)
    requires Closed(g) && id in g && id !in color0 && color0.Keys <= g.Keys
    requires Searching(g, color0, stack0, rank0) && IsPath(g, stack0 + [id])
    ensures cyc ==> HasCycle(g)
    ensures !cyc ==>
      && Searching(g, color, stack0, rank) && color.Keys <= g.Keys
      && color0.Keys <= color.Keys && rank0.Keys <= rank.Keys && id in rank
    decreases g.Keys - color0.Keys
  {
    color, rank := color0[id := Gray], rank0;
    ghost var stack := stack0 + [id];
    TurnGray(g, color0, stack0, rank0, id);
    var parents := g[id].derivedFrom;
    for i := 0 to |parents|
      invariant Searching(g, color, stack, rank) && color.Keys <= g.Keys
      invariant color0.Keys <= color.Keys && rank0.Keys <= rank.Keys && id in color
      invariant forall j :: 0 <= j < i ==> parents[j] in rank
    {
      var p := parents[i];
      assert Edge(g, id, p);
      if p in color {
        if color[p] == Gray {
          GrayMakesACycle(g, stack, p);
          return true, color, rank;
        }
      } else {
        PathSnoc(g, stack, p);
        cyc, color, rank := Dfs(g, p, color, stack, rank);
        if cyc {
          return;
        }
      }
    }
    TurnBlack(g, color, stack0, rank, id);
    color, rank := color[id := Black], rank[id := |rank|];
    return false, color, rank;
  }

  /** cyclic: whatever order the fragments are visited in, true exactly when the graph has a cycle. */
  method Cyclic(g: Graph) returns (cyc: bool, ghost rank: map<string, nat>)
    requires Closed(g)
    ensures cyc <==> HasCycle(g)
    ensures !cyc ==> Ranked(g, rank) && rank.Keys == g.Keys
  {
    var color: map<string, Color> := map[];
    rank := map[];
    var ids := g.Keys;
    while ids != {}
      invariant ids <= g.Keys && color.Keys <= g.Keys && Searching(g, color, [], rank)
      invariant forall id <- g :: id in ids || id in rank
      decreases |ids|
    {
      var id :| id in ids;
      ids := ids - {id};
      if id !in color {
        assert IsPath(g, [] + [id]);
        cyc, color, rank := Dfs(g, id, color, [], rank);
        if cyc {
          return;
        }
      }
    }
    assert rank.Keys == g.Keys;
    RankedIsAcyclic(g, rank);
    return false, rank;
  }

  // ----- structural check -----

  predicate TimelyIn(g: Graph, f: Fragment, now: int) {
    && 0 <= f.introducedAt <= now
    && (forall p <- f.derivedFrom :: p in g && g[p].introducedAt <= f.introducedAt)
  }

  ghost predicate Structural(root: Root, g: Graph) {
    && root.schemaVersion == SCHEMA_VERSION
    && (forall id <- g :: TimelyIn(g, g[id], root.currentTick))
    && !HasCycle(g)
  }

  method StructuralOk(root: Root, g: Graph) returns (ok: bool, ghost rank: map<string, nat>)
    ensures ok <==> Structural(root, g)
    ensures ok ==> Closed(g) && Ranked(g, rank) && rank.Keys == g.Keys
  {
    rank := map[];
    if root.schemaVersion != SCHEMA_VERSION {
      return false, rank;
    }
    var ids := g.Keys;
    while ids != {}
      invariant ids <= g.Keys
      invariant forall id <- g :: id in ids || TimelyIn(g, g[id], root.currentTick)
      decreases |ids|
    {
      var id :| id in ids;
      ids := ids - {id};
      var f := g[id];
      if f.introducedAt < 0 || f.introducedAt > root.currentTick {
        return false, rank;
      }
      for i := 0 to |f.derivedFrom|
        invariant forall j :: 0 <= j < i ==>
          f.derivedFrom[j] in g && g[f.derivedFrom[j]].introducedAt <= f.introducedAt
      {
        if f.derivedFrom[i] !in g || g[f.derivedFrom[i]].introducedAt > f.introducedAt {
          return false, rank;
        }
      }
    }
    var cyc;
    cyc, rank := Cyclic(g);
    return !cyc, rank;
  }

  // ----- trust ceilings -----

  ghost predicate CeilingsSoFar(g: Graph, out: map<string, Trust>) {
    forall id <- out :: IsCeiling(g, id, out[id])
  }

  /** The least trust among a fragment and the ceilings of its first n parents. */
  ghost predicate PartialCeiling(g: Graph, id: string, n: nat, c: Trust)
    requires id in g && n <= |g[id].derivedFrom|
  {
    && TrustRank(c).Some? && Rank(c) <= Rank(g[id].trust)
    && (exists a <- g :: Ancestor(g, a, id) && g[a].trust == c)
    && (forall j, a :: 0 <= j < n && a in g && Ancestor(g, a, g[id].derivedFrom[j]) ==> Rank(c) <= Rank(g[a].trust))
  }

  lemma PartialCeilingStep(g: Graph, id: string, n: nat, c: Trust, pc: Trust)
    requires id in g && n < |g[id].derivedFrom| && PartialCeiling(g, id, n, c)
    requires IsCeiling(g, g[id].derivedFrom[n], pc)
    ensures PartialCeiling(g, id, n + 1, MinTrust(c, pc))
  {
    var p := g[id].derivedFrom[n];
    var a :| a in g && Ancestor(g, a, p) && g[a].trust == pc;
    AncestorOfParent(g, a, p, id);
  }

  lemma PartialCeilingWhole(g: Graph, id: string, c: Trust)
    requires id in g && PartialCeiling(g, id, |g[id].derivedFrom|, c)
    ensures IsCeiling(g, id, c)
  {
    forall a <- g | Ancestor(g, a, id) ensures Rank(c) <= Rank(g[a].trust) {
      if a != id {
        var p := AncestorViaParent(g, a, id);
        var j :| 0 <= j < |g[id].derivedFrom| && g[id].derivedFrom[j] == p;
      }
    }
  }

  /** One memoised ceiling. */
  method Ceil(g: Graph, id: string, out0: map<string, Trust>, ghost rank: map<string, nat>)
      returns (c: Trust, out: map<string, Trust>)
    requires Closed(g) && Trusted(g) && id in g && Ranked(g, rank) && rank.Keys == g.Keys
    requires CeilingsSoFar(g, out0)
    ensures IsCeiling(g, id, c) && CeilingsSoFar(g, out)
    ensures id in out && out[id] == c && out0.Keys <= out.Keys
    decreases rank[id]
  {
    if id in out0 {
      return out0[id], out0;
    }
    var f := g[id];
    c, out := f.trust, out0;
    AncestorSelf(g, id);
    for i := 0 to |f.derivedFrom|
      invariant PartialCeiling(g, id, i, c)
      invariant CeilingsSoFar(g, out) && out0.Keys <= out.Keys
    {
      var pc;
      pc, out := Ceil(g, f.derivedFrom[i], out, rank);
      PartialCeilingStep(g, id, i, c, pc);
      c := MinTrust(c, pc);
    }
    PartialCeilingWhole(g, id, c);
    out := out[id := c];
  }

  ghost predicate AllCeilings(g: Graph, ceil: map<string, Trust>) {
    g.Keys <= ceil.Keys && forall id {:trigger IsCeiling(g, id, ceil[id])} :: id in g ==> IsCeiling(g, id, ceil[id])
  }

  /** ceilings: every fragment's entry is the minimum trust over all of its ancestors. */
  method Ceilings(g: Graph, ghost rank: map<string, nat>) returns (out: map<string, Trust>)
    requires Closed(g) && Trusted(g) && Ranked(g, rank) && rank.Keys == g.Keys
    ensures AllCeilings(g, out)
  {
    out := map[];
    var ids := g.Keys;
    while ids != {}
      invariant ids <= g.Keys && CeilingsSoFar(g, out)
      invariant forall id <- g :: id in ids || id in out
      decreases |ids|
    {
      var id :| id in ids;
      ids := ids - {id};
      var _, next := Ceil(g, id, out, rank);
      out := next;
    }
  }

  // ----- the ancestry walk -----

  /** A list without repeats in which every parent of a member stands before it. */
  ghost predicate ParentsFirst(g: Graph, ids: seq<string>) {
    && (forall i :: 0 <= i < |ids| ==> ids[i] in g)
    && (forall i, j :: 0 <= i < j < |ids| ==> ids[i] != ids[j])
    && (forall i, p :: 0 <= i < |ids| && Edge(g, ids[i], p) ==> p in ids[..i])
  }

  lemma ParentsFirstSnoc(g: Graph, ids: seq<string>, id: string)
    requires ParentsFirst(g, ids) && id in g && id !in ids
    requires forall p <- g[id].derivedFrom :: p in ids
    ensures ParentsFirst(g, ids + [id])
  {
    var longer := ids + [id];
    forall i, p | 0 <= i < |longer| && Edge(g, longer[i], p) ensures p in longer[..i] {
      assert longer[..i] == ids[..i];
      assert i == |ids| ==> ids[..i] == ids;
    }
  }

  method Walk(g: Graph, cur: string, seen0: set<string>, ids0: seq<string>, ghost rank: map<string, nat>)
      returns (seen: set<string>, ids: seq<string>)
    requires Closed(g) && cur in g && Ranked(g, rank) && rank.Keys == g.Keys && ParentsFirst(g, ids0)
    requires forall x <- seen0 :: x in ids0 || (x in rank && rank[x] > rank[cur])
    requires forall x :: x in ids0 ==> x in seen0
    ensures ParentsFirst(g, ids) && cur in ids && ids0 <= ids
    ensures forall x :: x in ids ==> x in ids0 || Ancestor(g, x, cur)
    ensures forall x :: x in seen <==> x in seen0 || x in ids
    decreases rank[cur]
  {
    AncestorSelf(g, cur);
    if cur in seen0 {
      return seen0, ids0;
    }
    seen, ids := seen0 + {cur}, ids0;
    var parents := g[cur].derivedFrom;
    for i := 0 to |parents|
      invariant ParentsFirst(g, ids) && ids0 <= ids && cur !in ids
      invariant forall j :: 0 <= j < i ==> parents[j] in ids
      invariant forall x :: x in ids ==> x in ids0 || Ancestor(g, x, cur)
      invariant forall x :: x in seen <==> x in seen0 || x in ids || x == cur
    {
      var p := parents[i];
      assert Edge(g, cur, p);
      ghost var before := ids;
      seen, ids := Walk(g, p, seen, ids, rank);
      forall x | x in ids ensures x in ids0 || Ancestor(g, x, cur) {
        if x !in before {
          AncestorOfParent(g, x, p, cur);
        }
      }
      NotItsOwnAncestor(g, cur, p, rank);
    }
    ParentsFirstSnoc(g, ids, cur);
    ids := ids + [cur];
  }

  lemma NotItsOwnAncestor(g: Graph, id: string, p: string, rank: map<string, nat>)
    requires Ranked(g, rank) && rank.Keys == g.Keys && Edge(g, id, p)
    ensures !Ancestor(g, id, p)
  {
    forall path: seq<string> | PathBetween(g, path, p, id) ensures false {
      RankFallsAlongPath(g, rank, path);
    }
  }

  /** ancestryIDs: exactly the ancestors, each once, every parent before its child. */
  method AncestryIds(g: Graph, id: string, ghost rank: map<string, nat>) returns (ids: seq<string>)
    requires Closed(g) && id in g && Ranked(g, rank) && rank.Keys == g.Keys
    ensures ParentsFirst(g, ids)
    ensures forall x :: x in ids <==> Ancestor(g, x, id)
  {
    var _, walked := Walk(g, id, {}, [], rank);
    ids := walked;
    forall x | Ancestor(g, x, id) ensures x in ids {
      var path: seq<string> :| PathBetween(g, path, id, x);
      ParentsFirstIsClosed(g, ids);
      ClosedSetHoldsAncestors(g, (set y | y in ids), path);
    }
  }

  lemma ParentsFirstIsClosed(g: Graph, ids: seq<string>)
    requires ParentsFirst(g, ids)
    ensures forall x, p :: x in ids && Edge(g, x, p) ==> p in ids
  {
    forall x, p | x in ids && Edge(g, x, p) ensures p in ids {
      var i :| 0 <= i < |ids| && ids[i] == x;
      assert p in ids[..i];
    }
  }

  // ----- the breach check -----

  /** The test at one fragment: it declares more trust than the ceiling of one of its parents. */
  predicate Exceeds(g: Graph, ceil: map<string, Trust>, id: string)
    requires Closed(g) && g.Keys <= ceil.Keys
  {
    id in g && exists p <- g[id].derivedFrom :: Rank(g[id].trust) > Rank(ceil[p])
  }

  method ExceedsParents(g: Graph, ceil: map<string, Trust>, id: string) returns (b: bool)
    requires Closed(g) && g.Keys <= ceil.Keys && id in g
    ensures b <==> Exceeds(g, ceil, id)
  {
    var f := g[id];
    if |f.derivedFrom| > 0 {
      var parentMin := ceil[f.derivedFrom[0]];
      ghost var who := f.derivedFrom[0];
      for i := 1 to |f.derivedFrom|
        invariant who in f.derivedFrom && parentMin == ceil[who]
        invariant forall j :: 0 <= j < i ==> Rank(parentMin) <= Rank(ceil[f.derivedFrom[j]])
      {
        var p := f.derivedFrom[i];
        if Rank(ceil[p]) < Rank(parentMin) {
          who := p;
        }
        parentMin := MinTrust(parentMin, ceil[p]);
      }
      if Rank(f.trust) > Rank(parentMin) {
        return true;
      }
    }
    return false;
  }

  method BreachWalk(g: Graph, ceil: map<string, Trust>, id: string, seen0: set<string>,
      ghost rank: map<string, nat>, ghost done0: set<string>)
      returns (b: bool, seen: set<string>, ghost done: set<string>)
    requires Closed(g) && g.Keys <= ceil.Keys && id in g
    requires Ranked(g, rank) && rank.Keys == g.Keys && Cleared(g, ceil, done0) && done0 <= seen0
    requires forall x <- seen0 :: x in done0 || (x in rank && rank[x] > rank[id])
    ensures b ==> exists a :: Ancestor(g, a, id) && Exceeds(g, ceil, a)
    ensures !b ==> Cleared(g, ceil, done) && id in done && done0 <= done
    ensures !b ==> seen == seen0 + done
    decreases rank[id]
  {
    AncestorSelf(g, id);
    if id in seen0 {
      return false, seen0, done0;
    }
    seen, done := seen0 + {id}, done0;
    var over := ExceedsParents(g, ceil, id);
    if over {
      return true, seen, done;
    }
    var parents := g[id].derivedFrom;
    for i := 0 to |parents|
      invariant Cleared(g, ceil, done) && done0 <= done && seen == seen0 + {id} + done
      invariant forall j :: 0 <= j < i ==> parents[j] in done
    {
      var p := parents[i];
      assert Edge(g, id, p);
      b, seen, done := BreachWalk(g, ceil, p, seen, rank, done);
      if b {
        ghost var a :| Ancestor(g, a, p) && Exceeds(g, ceil, a);
        AncestorOfParent(g, a, p, id);
        return;
      }
    }
    done := done + {id};
    return false, seen, done;
  }

  /** Walked completely: closed under parents, and no member exceeds its parents. */
  ghost predicate Cleared(g: Graph, ceil: map<string, Trust>, done: set<string>)
    requires Closed(g) && g.Keys <= ceil.Keys
  {
    && (forall x <- done, p :: Edge(g, x, p) ==> p in done)
    && (forall x <- done :: x in g && !Exceeds(g, ceil, x))
  }

  /** An ancestor that exceeds a parent's ceiling has a rising edge in its own ancestry. */
  lemma ExceedingNeedsARise(g: Graph, ceil: map<string, Trust>, a: string, p: string)
    requires Closed(g) && Edge(g, a, p) && p in ceil && IsCeiling(g, p, ceil[p])
    requires Rank(g[a].trust) > Rank(ceil[p])
    ensures RisesAbove(g, a)
  {
    var x :| x in g && Ancestor(g, x, p) && g[x].trust == ceil[p];
    var path: seq<string> :| PathBetween(g, path, p, x);
    assert IsPath(g, [a] + path);
    FallNeedsARisingEdge(g, [a] + path);
  }

  ghost predicate Breached(g: Graph, ceil: map<string, Trust>, id: string)
    requires Closed(g) && g.Keys <= ceil.Keys
  {
    exists a :: Ancestor(g, a, id) && Exceeds(g, ceil, a)
  }

  lemma BreachMeansARise(g: Graph, ceil: map<string, Trust>, id: string)
    requires Closed(g) && AllCeilings(g, ceil) && Breached(g, ceil, id)
    ensures RisesAbove(g, id)
  {
    var a :| Ancestor(g, a, id) && Exceeds(g, ceil, a);
    var p :| p in g[a].derivedFrom && Rank(g[a].trust) > Rank(ceil[p]);
    ExceedingNeedsARise(g, ceil, a, p);
    var child, parent :| Ancestor(g, child, a) && Rises(g, child, parent);
    AncestorTransitive(g, child, a, id);
  }

  lemma CeilingAtMostOwn(g: Graph, id: string, c: Trust)
    requires IsCeiling(g, id, c)
    ensures Rank(c) <= Rank(g[id].trust)
  {
    AncestorSelf(g, id);
  }

  lemma RiseMeansABreach(g: Graph, ceil: map<string, Trust>, id: string)
    requires Closed(g) && AllCeilings(g, ceil) && RisesAbove(g, id)
    ensures Breached(g, ceil, id)
  {
    var child, parent :| Ancestor(g, child, id) && Rises(g, child, parent);
    CeilingAtMostOwn(g, parent, ceil[parent]);
    assert Exceeds(g, ceil, child);
  }

  /** The local test fires somewhere in the ancestry exactly when some edge in the ancestry rises. */
  lemma BreachIsARisingEdge(g: Graph, ceil: map<string, Trust>, id: string)
    requires Closed(g) && AllCeilings(g, ceil)
    ensures Breached(g, ceil, id) <==> RisesAbove(g, id)
  {
    if Breached(g, ceil, id) {
      BreachMeansARise(g, ceil, id);
    } else if RisesAbove(g, id) {
      RiseMeansABreach(g, ceil, id);
    }
  }

  lemma ClearedIsNotBreached(g: Graph, ceil: map<string, Trust>, done: set<string>, id: string)
    requires Closed(g) && g.Keys <= ceil.Keys && Cleared(g, ceil, done) && id in done
    ensures !Breached(g, ceil, id)
  {
    forall a | Ancestor(g, a, id) ensures !Exceeds(g, ceil, a) {
      var path: seq<string> :| PathBetween(g, path, id, a);
      ClosedSetHoldsAncestors(g, done, path);
    }
  }

  method TestAncestry(g: Graph, ceil: map<string, Trust>, target: string, ghost rank: map<string, nat>)
      returns (b: bool)
    requires Closed(g) && g.Keys <= ceil.Keys && target in g && Ranked(g, rank) && rank.Keys == g.Keys
    ensures b <==> Breached(g, ceil, target)
  {
    var breach, _, done := BreachWalk(g, ceil, target, {}, rank, {});
    if !breach {
      ClearedIsNotBreached(g, ceil, done, target);
    }
    return breach;
  }

  /** ancestryBreach: true exactly when some derivation edge in the target's ancestry raises declared trust. */
  method AncestryBreach(g: Graph, ceil: map<string, Trust>, target: string, ghost rank: map<string, nat>)
      returns (b: bool)
    requires Closed(g) && target in g && AllCeilings(g, ceil) && Ranked(g, rank) && rank.Keys == g.Keys
    ensures b <==> RisesAbove(g, target)
  {
    BreachIsARisingEdge(g, ceil, target);
    b := TestAncestry(g, ceil, target, rank);
  }

  // ----- the decision -----

  ghost predicate WellFormed(root: Root) {
    ValidFragments(root.fragments) && Structural(root, IndexOf(root.fragments, |root.fragments|))
  }

  function Closing(reason: Reason): Decision {
    Decision(false, true, false, None, reason)
  }

  /** What Authorize says of a fragment of a well-formed graph. */
  ghost predicate Judged(g: Graph, target: string, required: Trust, d: Decision) {
    && target in g && d.effectiveTrust.Some? && IsCeiling(g, target, d.effectiveTrust.value)
    && d.escalation == RisesAbove(g, target)
    && d.proofValid == !d.escalation
    && d.authoritative == (!d.escalation && Dominates(g[target].trust, required))
    && d.reason == (if d.escalation then Escalates else if d.authoritative then Authorized else Insufficient)
  }

  method Judge(g: Graph, target: string, required: Trust, ghost rank: map<string, nat>) returns (d: Decision)
    requires Closed(g) && Trusted(g) && target in g && Ranked(g, rank) && rank.Keys == g.Keys
    ensures Judged(g, target, required, d)
  {
    var ceil := Ceilings(g, rank);
    var effective := ceil[target];
    var breach := AncestryBreach(g, ceil, target, rank);
    if breach {
      return Closing(Escalates).(effectiveTrust := Some(effective));
    }
    CeilingWithoutRise(g, target, effective);
    if !Dominates(effective, required) {
      return Decision(true, false, false, Some(effective), Insufficient);
    }
    return Decision(true, false, true, Some(effective), Authorized);
  }

  /**
    Authorize. The fragment speaks with authority exactly when the root is well formed, the fragment
    exists, no edge in its ancestry raises trust, and its declared trust reaches what is required.
   */
  method Authorize(root: Root, target: string) returns (d: Decision)
    ensures var g := IndexOf(root.fragments, |root.fragments|);
      && (d.authoritative <==>
            && WellFormed(root) && target in g
            && !RisesAbove(g, target) && Dominates(g[target].trust, root.requiredTrust))
      && (if !WellFormed(root) then d == Decision(false, true, false, None, InvalidRoot)
          else if root.requiredTrust.Unrecognised? then d == Decision(false, true, false, None, UnknownRequired)
          else if target !in g then d == Decision(false, true, false, None, TargetMissing)
          else
            && d.effectiveTrust.Some? && IsCeiling(g, target, d.effectiveTrust.value)
            && (d.escalation <==> RisesAbove(g, target)) && (d.proofValid <==> !d.escalation)
            && d.reason == (if d.escalation then Escalates else if d.authoritative then Authorized else Insufficient))
  {
    var indexed := IndexFragments(root.fragments);
    if indexed.None? {
      return Closing(InvalidRoot);
    }
    var g := indexed.value;
    var ok, rank := StructuralOk(root, g);
    if !ok {
      return Closing(InvalidRoot);
    }
    if TrustRank(root.requiredTrust).None? {
      return Closing(UnknownRequired);
    }
    if target !in g {
      return Closing(TargetMissing);
    }
    IndexIsTrusted(root.fragments);
    d := Judge(g, target, root.requiredTrust, rank);
  }
}
