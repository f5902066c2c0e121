/**
  Fragment graphs: paths, ancestors, cycles, minimum trust
  (internal/contextprovenance/evaluator.go, internal/contextprovenance/model.go).

  An edge goes from a fragment to a fragment it is derived from, its parent.
 */
module ContextGraph {
  import opened Wrappers

  datatype Fragment = Fragment(
    id: string, origin: string, principal: string, trust: Trust, scope: string,
    introducedAt: int, derivedFrom: seq<string>)

  type Graph = map<string, Fragment>

  // ----- trust -----

  /** The four trust strings; Unrecognised is any other. */
  datatype Trust = Untrusted | UserTrusted | DeveloperTrusted | SystemTrusted | Unrecognised(text: string)

  function TrustRank(t: Trust): Option<nat> {
    match t
    case Untrusted => Some(0)
    case UserTrusted => Some(1)
    case DeveloperTrusted => Some(2)
    case SystemTrusted => Some(3)
    case Unrecognised(_) => None
  }

  /** The rank alone: an unknown trust ranks 0, as in the comparisons that ignore the second result. */
  function Rank(t: Trust): nat {
    match TrustRank(t)
    case Some(n) => n
    case None => 0
  }

  function MinTrust(a: Trust, b: Trust): Trust {
    if Rank(b) < Rank(a) then b else a
  }

  predicate Dominates(have: Trust, need: Trust) {
    TrustRank(have).Some? && TrustRank(need).Some? && Rank(have) >= Rank(need)
  }

  lemma RankInjective(a: Trust, b: Trust)
    requires TrustRank(a).Some? && TrustRank(b).Some? && Rank(a) == Rank(b)
    ensures a == b
  {
  }

  // ----- paths and ancestors -----

  predicate Closed(g: Graph) {
    forall id <- g :: forall p <- g[id].derivedFrom :: p in g
  }

  predicate Edge(g: Graph, child: string, parent: string) {
    child in g && parent in g[child].derivedFrom
  }

  ghost predicate IsPath(g: Graph, path: seq<string>) {
    && path != []
    && (forall i :: 0 <= i < |path| ==> path[i] in g)
    && (forall i, j :: 0 <= i && j == i + 1 && j < |path| ==> Edge(g, path[i], path[j]))
  }

  ghost predicate PathBetween(g: Graph, path: seq<string>, from: string, to: string) {
    IsPath(g, path) && path[0] == from && path[|path| - 1] == to
  }

  /** `a` is `id` or one of the fragments it is derived from, directly or not. */
  ghost predicate Ancestor(g: Graph, a: string, id: string) {
    exists path: seq<string> :: PathBetween(g, path, id, a)
  }

  ghost predicate HasCycle(g: Graph) {
    exists path: seq<string> :: IsPath(g, path) && |path| > 1 && path[0] == path[|path| - 1]
  }

  lemma AncestorSelf(g: Graph, id: string)
    requires id in g
    ensures Ancestor(g, id, id)
  {
    assert PathBetween(g, [id], id, id);
  }

  lemma AncestorOfParent(g: Graph, a: string, p: string, id: string)
    requires Edge(g, id, p) && Ancestor(g, a, p)
    ensures Ancestor(g, a, id)
  {
    var path: seq<string> :| PathBetween(g, path, p, a);
    assert PathBetween(g, [id] + path, id, a);
  }

  /** An ancestor other than the fragment itself is an ancestor of one of its parents. */
  lemma AncestorViaParent(g: Graph, a: string, id: string) returns (p: string)
    requires Ancestor(g, a, id) && a != id
    ensures Edge(g, id, p) && Ancestor(g, a, p)
  {
    var path: seq<string> :| PathBetween(g, path, id, a);
    p := path[1];
    assert PathBetween(g, path[1..], p, a);
  }

  lemma AncestorTransitive(g: Graph, a: string, b: string, c: string)
    requires Ancestor(g, a, b) && Ancestor(g, b, c)
    ensures Ancestor(g, a, c)
  {
    var ab: seq<string> :| PathBetween(g, ab, b, a);
    var bc: seq<string> :| PathBetween(g, bc, c, b);
    assert PathBetween(g, bc + ab[1..], c, a);
  }

  /** A set closed under parents holds every ancestor of its members. */
  lemma {:induction false} ClosedSetHoldsAncestors(g: Graph, s: set<string>, path: seq<string>)
    requires IsPath(g, path) && path[0] in s
    requires forall x <- s, p :: Edge(g, x, p) ==> p in s
    ensures path[|path| - 1] in s
  {
    if |path| > 1 {
      assert Edge(g, path[0], path[1]);
      ClosedSetHoldsAncestors(g, s, path[1..]);
    }
  }

  // ----- ranked graphs have no cycle -----

  /** A numbering of some fragments in which every parent comes before its child. */
  ghost predicate Ranked(g: Graph, rank: map<string, nat>) {
    && (forall id <- rank :: id in g && rank[id] < |rank|)
    && (forall id <- rank :: forall p <- g[id].derivedFrom :: p in rank && rank[p] < rank[id])
  }

  lemma {:induction false} RankFallsAlongPath(g: Graph, rank: map<string, nat>, path: seq<string>)
    requires Ranked(g, rank) && IsPath(g, path) && path[0] in rank
    ensures path[|path| - 1] in rank
    ensures if |path| == 1 then path[|path| - 1] == path[0] else rank[path[|path| - 1]] < rank[path[0]]
  {
    if |path| > 1 {
      assert Edge(g, path[0], path[1]);
      RankFallsAlongPath(g, rank, path[1..]);
    }
  }

  lemma RankedIsAcyclic(g: Graph, rank: map<string, nat>)
    requires Ranked(g, rank) && rank.Keys == g.Keys
    ensures !HasCycle(g)
  {
    forall path: seq<string> | IsPath(g, path) && |path| > 1 && path[0] == path[|path| - 1] ensures false {
      RankFallsAlongPath(g, rank, path);
    }
  }

  // ----- minimum trust and rising edges -----

  ghost predicate Trusted(g: Graph) {
    forall id <- g :: TrustRank(g[id].trust).Some?
  }

  /** The least trust declared anywhere in the ancestry. */
  ghost predicate IsCeiling(g: Graph, id: string, c: Trust) {
    && id in g && TrustRank(c).Some?
    && (exists a {:trigger Ancestor(g, a, id)} :: a in g && Ancestor(g, a, id) && g[a].trust == c)
    && (forall a {:trigger Ancestor(g, a, id)} :: a in g && Ancestor(g, a, id) ==> Rank(c) <= Rank(g[a].trust))
  }

  /** A derivation edge whose child declares more trust than the parent it came from. */
  predicate Rises(g: Graph, child: string, parent: string) {
    Edge(g, child, parent) && parent in g && Rank(g[child].trust) > Rank(g[parent].trust)
  }

  ghost predicate RisesAbove(g: Graph, id: string) {
    exists child, parent :: Ancestor(g, child, id) && Rises(g, child, parent)
  }

  /** Declared trust can fall along a path only if some edge on it rises. */
  lemma {:induction false} FallNeedsARisingEdge(g: Graph, path: seq<string>)
    requires Closed(g) && IsPath(g, path) && Rank(g[path[|path| - 1]].trust) < Rank(g[path[0]].trust)
    ensures RisesAbove(g, path[0])
  {
    assert Edge(g, path[0], path[1]);
    AncestorSelf(g, path[0]);
    if !Rises(g, path[0], path[1]) {
      FallNeedsARisingEdge(g, path[1..]);
      var child, parent :| Ancestor(g, child, path[1]) && Rises(g, child, parent);
      AncestorOfParent(g, child, path[1], path[0]);
    }
  }

  /** With no rising edge in the ancestry, the ceiling is the declared trust. */
  lemma CeilingWithoutRise(g: Graph, id: string, c: Trust)
    requires Closed(g) && Trusted(g) && IsCeiling(g, id, c) && !RisesAbove(g, id)
    ensures c == g[id].trust
  {
    AncestorSelf(g, id);
    var a :| a in g && Ancestor(g, a, id) && g[a].trust == c;
    var path: seq<string> :| PathBetween(g, path, id, a);
    if Rank(c) < Rank(g[id].trust) {
      FallNeedsARisingEdge(g, path);
    }
    RankInjective(c, g[id].trust);
  }
}
