/**
  Exactly which fragments speak with authority, spelled out over the list of fragments and the four trusts
  (internal/contextprovenance/evaluator.go).
 */
module ContextExact {
  import opened Wrappers
  import opened ContextGraph
  import opened ContextProvenance

  // ----- trust -----

  /** The declared trusts each requirement accepts; one that is not recognised accepts none. */
  predicate Meets(have: Trust, need: Trust) {
    match need
    case Untrusted => have.Untrusted? || have.UserTrusted? || have.DeveloperTrusted? || have.SystemTrusted?
    case UserTrusted => have.UserTrusted? || have.DeveloperTrusted? || have.SystemTrusted?
    case DeveloperTrusted => have.DeveloperTrusted? || have.SystemTrusted?
    case SystemTrusted => have.SystemTrusted?
    case Unrecognised(_) => false
  }

  lemma DominatesSpelledOut(have: Trust, need: Trust)
    ensures Dominates(have, need) <==> Meets(have, need)
    ensures TrustRank(need).Some? <==> !need.Unrecognised?
  {
  }

  /** A trust above an accepted one is accepted, and one below a refused one is refused. */
  lemma HigherIsNeverRefused(higher: Trust, lower: Trust, need: Trust)
    requires Dominates(higher, lower) && Dominates(lower, need)
    ensures Dominates(higher, need)
  {
  }

  // ----- well-formed roots -----

  /** A fragment names itself, its origin, principal and scope, is of a known trust, and comes no later than now. */
  predicate Complete(f: Fragment, now: int) {
    && f.id != "" && f.origin != "" && f.principal != "" && f.scope != "" && !f.trust.Unrecognised?
    && f.introducedAt >= 0 && f.introducedAt <= now
  }

  /** The parent of that ID is among the fragments, and no younger than its child. */
  predicate HasParent(frags: seq<Fragment>, child: Fragment, parent: string) {
    exists j :: 0 <= j < |frags| && frags[j].id == parent && frags[j].introducedAt <= child.introducedAt
  }

  ghost predicate GoodRoot(root: Root) {
    && root.schemaVersion == 1
    && (forall i :: 0 <= i < |root.fragments| ==> Complete(root.fragments[i], root.currentTick))
    && (forall i, j :: 0 <= i < j < |root.fragments| ==> root.fragments[i].id != root.fragments[j].id)
    && (forall i, p :: 0 <= i < |root.fragments| && p in root.fragments[i].derivedFrom ==>
          HasParent(root.fragments, root.fragments[i], p))
    && !HasCycle(IndexOf(root.fragments, |root.fragments|))
  }

  /** With distinct IDs the index holds every fragment under its own, and nothing else. */
  lemma {:induction false} IndexByPosition(frags: seq<Fragment>)
    requires forall i, j :: 0 <= i < j < |frags| ==> frags[i].id != frags[j].id
    ensures var g := IndexOf(frags, |frags|);
      && (forall i :: 0 <= i < |frags| ==> frags[i].id in g && g[frags[i].id] == frags[i])
      && (forall id <- g :: exists i :: 0 <= i < |frags| && frags[i].id == id)
  {
    IndexHolds(frags, |frags|);
  }

  lemma {:induction false} TimelySpelledOut(frags: seq<Fragment>, f: Fragment, now: int)
    requires forall i, j :: 0 <= i < j < |frags| ==> frags[i].id != frags[j].id
    ensures TimelyIn(IndexOf(frags, |frags|), f, now)
       <==> f.introducedAt >= 0 && f.introducedAt <= now && forall p <- f.derivedFrom :: HasParent(frags, f, p)
  {
    IndexByPosition(frags);
  }

  /** Every fragment is in time, by position as by ID. */
  lemma {:induction false} TimelyByPosition(frags: seq<Fragment>, now: int)
    requires forall i, j :: 0 <= i < j < |frags| ==> frags[i].id != frags[j].id
    ensures (forall id <- IndexOf(frags, |frags|) :: TimelyIn(IndexOf(frags, |frags|), IndexOf(frags, |frags|)[id], now))
       <==> (forall i :: 0 <= i < |frags| ==> TimelyIn(IndexOf(frags, |frags|), frags[i], now))
  {
    IndexByPosition(frags);
    var g := IndexOf(frags, |frags|);
    if forall id <- g :: TimelyIn(g, g[id], now) {
      forall i | 0 <= i < |frags| ensures TimelyIn(g, frags[i], now) {
        assert frags[i].id in g;
      }
    }
  }

  lemma WellFormedExactlyWhen(root: Root)
    ensures WellFormed(root) <==> GoodRoot(root)
  {
    var frags := root.fragments;
    if forall i, j :: 0 <= i < j < |frags| ==> frags[i].id != frags[j].id {
      TimelyByPosition(frags, root.currentTick);
      forall i | 0 <= i < |frags|
        ensures TimelyIn(IndexOf(frags, |frags|), frags[i], root.currentTick)
           <==> frags[i].introducedAt >= 0 && frags[i].introducedAt <= root.currentTick
                && forall p <- frags[i].derivedFrom :: HasParent(frags, frags[i], p)
      {
        TimelySpelledOut(frags, frags[i], root.currentTick);
      }
    }
  }

  // ----- the decision -----

  /** Fragment i is the one asked about or among those it is derived from. */
  ghost predicate InAncestry(root: Root, i: int, target: string) {
    0 <= i < |root.fragments| && Ancestor(IndexOf(root.fragments, |root.fragments|), root.fragments[i].id, target)
  }

  /** Fragment i is derived from fragment j. */
  predicate Derives(frags: seq<Fragment>, i: int, j: int) {
    0 <= i < |frags| && 0 <= j < |frags| && frags[j].id in frags[i].derivedFrom
  }

  /** No fragment of the ancestry declares more than a parent it is derived from. */
  ghost predicate NeverRaised(root: Root, target: string) {
    forall i, j :: InAncestry(root, i, target) && Derives(root.fragments, i, j) ==>
      Meets(root.fragments[j].trust, root.fragments[i].trust)
  }

  ghost predicate MayInstruct(root: Root, target: string) {
    && GoodRoot(root) && NeverRaised(root, target)
    && exists i :: 0 <= i < |root.fragments| && root.fragments[i].id == target && Meets(root.fragments[i].trust, root.requiredTrust)
  }

  lemma RisesSpelledOut(a: Fragment, b: Fragment)
    requires !a.trust.Unrecognised? && !b.trust.Unrecognised?
    ensures Rank(a.trust) > Rank(b.trust) <==> !Meets(b.trust, a.trust)
  {
  }

  lemma RiseIsRaised(root: Root, target: string, child: string, parent: string)
    requires GoodRoot(root)
    requires var g := IndexOf(root.fragments, |root.fragments|); Ancestor(g, child, target) && Rises(g, child, parent)
    ensures !NeverRaised(root, target)
  {
    var frags := root.fragments;
    IndexByPosition(frags);
    var i :| 0 <= i < |frags| && frags[i].id == child;
    var j :| 0 <= j < |frags| && frags[j].id == parent;
    assert InAncestry(root, i, target) && Derives(frags, i, j);
    RisesSpelledOut(frags[i], frags[j]);
  }

  lemma RaisedIsRise(root: Root, target: string, i: int, j: int)
    requires GoodRoot(root) && InAncestry(root, i, target) && Derives(root.fragments, i, j)
    requires !Meets(root.fragments[j].trust, root.fragments[i].trust)
    ensures RisesAbove(IndexOf(root.fragments, |root.fragments|), target)
  {
    var frags := root.fragments;
    IndexByPosition(frags);
    RisesSpelledOut(frags[i], frags[j]);
    assert Rises(IndexOf(frags, |frags|), frags[i].id, frags[j].id);
  }

  lemma RisesAboveSpelledOut(root: Root, target: string)
    requires GoodRoot(root)
    ensures RisesAbove(IndexOf(root.fragments, |root.fragments|), target) <==> !NeverRaised(root, target)
  {
    var g := IndexOf(root.fragments, |root.fragments|);
    if child, parent :| Ancestor(g, child, target) && Rises(g, child, parent) {
      RiseIsRaised(root, target, child, parent);
    }
    if i, j :| InAncestry(root, i, target) && Derives(root.fragments, i, j)
               && !Meets(root.fragments[j].trust, root.fragments[i].trust) {
      RaisedIsRise(root, target, i, j);
    }
  }

  /** What the contract of Authorize calls authoritative is exactly what may instruct. */
  lemma AuthoritativeExactlyWhen(root: Root, target: string)
    ensures var g := IndexOf(root.fragments, |root.fragments|);
      (WellFormed(root) && target in g && !RisesAbove(g, target) && Dominates(g[target].trust, root.requiredTrust))
      <==> MayInstruct(root, target)
  {
    WellFormedExactlyWhen(root);
    if GoodRoot(root) {
      var g := IndexOf(root.fragments, |root.fragments|);
      IndexByPosition(root.fragments);
      if target in g {
        RisesAboveSpelledOut(root, target);
        DominatesSpelledOut(g[target].trust, root.requiredTrust);
      }
    }
  }

  /** Nothing below the requirement stands anywhere behind a fragment that may instruct. */
  lemma WholeAncestryMeetsTheRequirement(root: Root, target: string, i: int)
    requires MayInstruct(root, target) && InAncestry(root, i, target)
    ensures Meets(root.fragments[i].trust, root.requiredTrust)
  {
    var g, a := IndexOf(root.fragments, |root.fragments|), root.fragments[i].id;
    AuthoritativeExactlyWhen(root, target);
    IndexByPosition(root.fragments);
    IndexIsTrusted(root.fragments);
    GoodIsClosed(root);
    var path: seq<string> :| PathBetween(g, path, target, a);
    if Rank(g[a].trust) < Rank(g[target].trust) {
      FallNeedsARisingEdge(g, path);
    }
    DominatesSpelledOut(g[a].trust, root.requiredTrust);
  }

  lemma GoodIsClosed(root: Root)
    requires GoodRoot(root)
    ensures Closed(IndexOf(root.fragments, |root.fragments|))
  {
    IndexByPosition(root.fragments);
    WellFormedExactlyWhen(root);
  }
}
