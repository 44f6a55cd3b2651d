/**
 * The graph that CollectUnmarkedAsset walks. deps(t) stands for the editor's
 * direct (one-hop) dependency query; the walk follows a dependency only when it
 * is not a script (".cs") and not a marked asset.
 */
module DependencyWalk {
  import opened Text

  /** The walk's filter on a direct dependency. */
  predicate Followed(d: string, marked: set<string>) {
    !EndsWith(d, ".cs") && d !in marked
  }

  /** The followed graph is acyclic, witnessed by a rank that strictly drops along every
      followed link. A scan applies it to the graph cut down to a region (Restrict). */
  ghost predicate Ranked(deps: string -> seq<string>, marked: set<string>, rank: string -> nat) {
    forall t, i | 0 <= i < |deps(t)| && Followed(deps(t)[i], marked) :: rank(deps(t)[i]) < rank(t)
  }

  /** A region holding everything a followed link leads to from inside it. The walks
      started from assets in a closed region never leave it. */
  ghost predicate Closed(deps: string -> seq<string>, marked: set<string>, region: iset<string>) {
    forall t, i | t in region && 0 <= i < |deps(t)| && Followed(deps(t)[i], marked) :: deps(t)[i] in region
  }

  /** The graph cut down to a region: assets outside it have no dependencies. Without
      a visited set the walk terminates exactly when the followed links it can take form
      no cycle, so only cycles inside a closed region around the roots matter. */
  ghost function Restrict(deps: string -> seq<string>, region: iset<string>): string -> seq<string> {
    t => if t in region then deps(t) else []
  }

  lemma RestrictInside(deps: string -> seq<string>, region: iset<string>, t: string)
    requires t in region
    ensures Restrict(deps, region)(t) == deps(t)
  {
  }

  /** A followed dependency of an asset in a closed region is in the region again, one
      rank lower. */
  lemma RegionStep(deps: string -> seq<string>, marked: set<string>, region: iset<string>,
                   rank: string -> nat, t: string, i: nat)
    requires t in region && Closed(deps, marked, region) && Ranked(Restrict(deps, region), marked, rank)
    requires i < |deps(t)| && Followed(deps(t)[i], marked)
    ensures deps(t)[i] in region && rank(deps(t)[i]) < rank(t)
  {
    RestrictInside(deps, region, t);
    assert Restrict(deps, region)(t)[i] == deps(t)[i];
  }

  /** The (parent, child) links recorded by a walk started at t. */
  ghost function Edges(deps: string -> seq<string>, marked: set<string>, rank: string -> nat, t: string)
    : set<(string, string)>
    requires Ranked(deps, marked, rank)
    decreases rank(t), |deps(t)| + 1
  {
    EdgesTo(deps, marked, rank, t, |deps(t)|)
  }

  /** The links recorded while handling the first n direct dependencies of t. */
  ghost function EdgesTo(deps: string -> seq<string>, marked: set<string>, rank: string -> nat,
                         t: string, n: nat): set<(string, string)>
    requires Ranked(deps, marked, rank)
    requires n <= |deps(t)|
    decreases rank(t), n
  {
    if n == 0 then {}
    else
      var d := deps(t)[n - 1];
      EdgesTo(deps, marked, rank, t, n - 1)
        + (if Followed(d, marked) then {(t, d)} + Edges(deps, marked, rank, d) else {})
  }

  /** The assets a walk from t reaches: every child it records. */
  ghost function Reach(deps: string -> seq<string>, marked: set<string>, rank: string -> nat, t: string)
    : set<string>
    requires Ranked(deps, marked, rank)
  {
    set e | e in Edges(deps, marked, rank, t) :: e.1
  }

  /** A followed link. */
  ghost predicate Link(deps: string -> seq<string>, marked: set<string>, p: string, x: string) {
    x in deps(p) && Followed(x, marked)
  }

  /** A chain of at least one followed link. */
  ghost predicate IsWalk(deps: string -> seq<string>, marked: set<string>, w: seq<string>) {
    |w| >= 2 && forall i | 0 <= i < |w| - 1 :: Link(deps, marked, w[i], w[i + 1])
  }

  lemma {:induction false} EdgesToMembers(deps: string -> seq<string>, marked: set<string>,
                                          rank: string -> nat, t: string, n: nat, p: string, x: string)
    requires Ranked(deps, marked, rank) && n <= |deps(t)|
    ensures (p, x) in EdgesTo(deps, marked, rank, t, n) <==>
      exists j | 0 <= j < n :: Followed(deps(t)[j], marked)
        && ((p, x) == (t, deps(t)[j]) || (p, x) in Edges(deps, marked, rank, deps(t)[j]))
    decreases n
  {
    if n > 0 {
      EdgesToMembers(deps, marked, rank, t, n - 1, p, x);
    }
  }

  /** Every link a walk from t records lies on the walk's sub-graph, and only there. */
  lemma {:induction false} EdgesCharacterized(deps: string -> seq<string>, marked: set<string>,
                                              rank: string -> nat, t: string, p: string, x: string)
    requires Ranked(deps, marked, rank)
    ensures (p, x) in Edges(deps, marked, rank, t) <==>
      (p == t || p in Reach(deps, marked, rank, t)) && Link(deps, marked, p, x)
    decreases rank(t)
  {
    var E := Edges(deps, marked, rank, t);
    var n := |deps(t)|;
    EdgesToMembers(deps, marked, rank, t, n, p, x);
    if (p, x) in E {
      var j :| 0 <= j < n && Followed(deps(t)[j], marked)
        && ((p, x) == (t, deps(t)[j]) || (p, x) in Edges(deps, marked, rank, deps(t)[j]));
      var d := deps(t)[j];
      if (p, x) != (t, d) {
        EdgesCharacterized(deps, marked, rank, d, p, x);
        EdgesOfFollowedChild(deps, marked, rank, t, j);
        if p == d {
          assert (t, d) in E;
        } else {
          var q :| (q, p) in Edges(deps, marked, rank, d);
          assert (q, p) in E;
        }
      }
    }
    if (p == t || p in Reach(deps, marked, rank, t)) && Link(deps, marked, p, x) {
      if p == t {
        var j :| 0 <= j < n && deps(t)[j] == x;
      } else {
        var q :| (q, p) in E;
        EdgesToMembers(deps, marked, rank, t, n, q, p);
        var j :| 0 <= j < n && Followed(deps(t)[j], marked)
          && ((q, p) == (t, deps(t)[j]) || (q, p) in Edges(deps, marked, rank, deps(t)[j]));
        var d := deps(t)[j];
        EdgesOfFollowedChild(deps, marked, rank, t, j);
        EdgesCharacterized(deps, marked, rank, d, p, x);
        if (q, p) != (t, d) {
          assert p in Reach(deps, marked, rank, d);
        }
      }
    }
  }

  /** A followed direct dependency's walk is part of the parent's walk. */
  lemma EdgesOfFollowedChild(deps: string -> seq<string>, marked: set<string>,
                             rank: string -> nat, t: string, j: nat)
    requires Ranked(deps, marked, rank) && j < |deps(t)| && Followed(deps(t)[j], marked)
    ensures (t, deps(t)[j]) in Edges(deps, marked, rank, t)
    ensures Edges(deps, marked, rank, deps(t)[j]) <= Edges(deps, marked, rank, t)
    ensures Reach(deps, marked, rank, deps(t)[j]) <= Reach(deps, marked, rank, t)
  {
    var d := deps(t)[j];
    EdgesToMembers(deps, marked, rank, t, |deps(t)|, t, d);
    forall e | e in Edges(deps, marked, rank, d) ensures e in Edges(deps, marked, rank, t) {
      EdgesToMembers(deps, marked, rank, t, |deps(t)|, e.0, e.1);
    }
  }

  /** The walk reaches x exactly when a chain of followed links leads from t to x. */
  lemma ReachIffWalk(deps: string -> seq<string>, marked: set<string>, rank: string -> nat,
                     t: string, x: string)
    requires Ranked(deps, marked, rank)
    ensures x in Reach(deps, marked, rank, t) <==>
      exists w :: IsWalk(deps, marked, w) && w[0] == t && w[|w| - 1] == x
  {
    if x in Reach(deps, marked, rank, t) {
      var w := WalkTo(deps, marked, rank, t, x);
    }
    if w :| IsWalk(deps, marked, w) && w[0] == t && w[|w| - 1] == x {
      WalkIsReached(deps, marked, rank, w);
    }
  }

  lemma {:induction false} WalkTo(deps: string -> seq<string>, marked: set<string>, rank: string -> nat,
                                  t: string, x: string) returns (w: seq<string>)
    requires Ranked(deps, marked, rank) && x in Reach(deps, marked, rank, t)
    ensures IsWalk(deps, marked, w) && w[0] == t && w[|w| - 1] == x
    decreases rank(t)
  {
    var p :| (p, x) in Edges(deps, marked, rank, t);
    EdgesToMembers(deps, marked, rank, t, |deps(t)|, p, x);
    var j :| 0 <= j < |deps(t)| && Followed(deps(t)[j], marked)
      && ((p, x) == (t, deps(t)[j]) || (p, x) in Edges(deps, marked, rank, deps(t)[j]));
    var d := deps(t)[j];
    if (p, x) == (t, d) {
      w := [t, x];
      assert Link(deps, marked, w[0], w[1]);
    } else {
      var w' := WalkTo(deps, marked, rank, d, x);
      w := [t] + w';
      forall i | 0 <= i < |w| - 1 ensures Link(deps, marked, w[i], w[i + 1]) {
        if i > 0 { assert w[i] == w'[i - 1] && w[i + 1] == w'[i]; }
      }
    }
  }

  lemma {:induction false} WalkIsReached(deps: string -> seq<string>, marked: set<string>,
                                         rank: string -> nat, w: seq<string>)
    requires Ranked(deps, marked, rank) && IsWalk(deps, marked, w)
    ensures w[|w| - 1] in Reach(deps, marked, rank, w[0])
    decreases |w|
  {
    var t := w[0];
    assert Link(deps, marked, w[0], w[1]);
    var j :| 0 <= j < |deps(t)| && deps(t)[j] == w[1];
    EdgesOfFollowedChild(deps, marked, rank, t, j);
    if |w| > 2 {
      var w' := w[1..];
      forall i | 0 <= i < |w'| - 1 ensures Link(deps, marked, w'[i], w'[i + 1]) {
        assert w'[i] == w[i + 1] && w'[i + 1] == w[i + 2];
      }
      WalkIsReached(deps, marked, rank, w');
    }
  }

  /** Everything the walk records is a followed asset: never a script, never a marked asset. */
  lemma ReachedAreFollowed(deps: string -> seq<string>, marked: set<string>, rank: string -> nat,
                           t: string, x: string)
    requires Ranked(deps, marked, rank) && x in Reach(deps, marked, rank, t)
    ensures Followed(x, marked)
  {
    var p :| (p, x) in Edges(deps, marked, rank, t);
    EdgesCharacterized(deps, marked, rank, t, p, x);
  }

  // ---------------------------------------------------------------------------
  // Walks on the cut-down graph are the walks of the full graph.

  /** Restriction keeps exactly the links that leave the region's assets. */
  lemma RestrictedLink(deps: string -> seq<string>, marked: set<string>, region: iset<string>,
                       p: string, x: string)
    ensures Link(Restrict(deps, region), marked, p, x) <==> p in region && Link(deps, marked, p, x)
  {
  }

  /** A chain of followed links that starts in a closed region stays in it. */
  lemma {:induction false} WalkStaysInRegion(deps: string -> seq<string>, marked: set<string>,
                                             region: iset<string>, w: seq<string>, n: nat)
    requires Closed(deps, marked, region) && IsWalk(deps, marked, w) && w[0] in region
    requires n < |w|
    ensures w[n] in region
    decreases n
  {
    if n > 0 {
      WalkStaysInRegion(deps, marked, region, w, n - 1);
      assert Link(deps, marked, w[n - 1], w[n]);
      var i :| 0 <= i < |deps(w[n - 1])| && deps(w[n - 1])[i] == w[n];
    }
  }

  /** From inside a closed region, the cut-down graph has the same chains as the full one. */
  lemma RestrictedWalk(deps: string -> seq<string>, marked: set<string>, region: iset<string>,
                       w: seq<string>)
    requires Closed(deps, marked, region) && |w| >= 1 && w[0] in region
    ensures IsWalk(Restrict(deps, region), marked, w) <==> IsWalk(deps, marked, w)
  {
    if IsWalk(deps, marked, w) {
      forall i | 0 <= i < |w| - 1 ensures Link(Restrict(deps, region), marked, w[i], w[i + 1]) {
        WalkStaysInRegion(deps, marked, region, w, i);
        RestrictedLink(deps, marked, region, w[i], w[i + 1]);
      }
    }
    if IsWalk(Restrict(deps, region), marked, w) {
      forall i | 0 <= i < |w| - 1 ensures Link(deps, marked, w[i], w[i + 1]) {
        RestrictedLink(deps, marked, region, w[i], w[i + 1]);
      }
    }
  }

  /** A walk from an asset of a closed region reaches x on the cut-down graph exactly when
      a chain of followed links of the full graph leads there. */
  lemma RestrictedReach(deps: string -> seq<string>, marked: set<string>, region: iset<string>,
                        rank: string -> nat, t: string, x: string)
    requires Closed(deps, marked, region) && t in region
    requires Ranked(Restrict(deps, region), marked, rank)
    ensures x in Reach(Restrict(deps, region), marked, rank, t) <==>
      exists w :: IsWalk(deps, marked, w) && w[0] == t && w[|w| - 1] == x
  {
    ReachIffWalk(Restrict(deps, region), marked, rank, t, x);
    forall w | |w| >= 1 && w[0] == t
      ensures IsWalk(Restrict(deps, region), marked, w) <==> IsWalk(deps, marked, w)
    {
      RestrictedWalk(deps, marked, region, w);
    }
  }

  /** A chain of followed links of the full graph leads from t to x. */
  ghost predicate Leads(deps: string -> seq<string>, marked: set<string>, t: string, x: string) {
    exists w :: IsWalk(deps, marked, w) && w[0] == t && w[|w| - 1] == x
  }

  /** The links a walk records, stated on chains of the graph alone: no rank appears. */
  lemma EdgesByWalks(deps: string -> seq<string>, marked: set<string>, rank: string -> nat,
                     t: string, p: string, x: string)
    requires Ranked(deps, marked, rank)
    ensures (p, x) in Edges(deps, marked, rank, t) <==>
      (p == t || Leads(deps, marked, t, p)) && Link(deps, marked, p, x)
  {
    EdgesCharacterized(deps, marked, rank, t, p, x);
    ReachIffWalk(deps, marked, rank, t, p);
  }

  /** The same on the cut-down graph: from inside a closed region, the links recorded are
      those of the full graph, whatever the region and the rank. */
  lemma RestrictedEdges(deps: string -> seq<string>, marked: set<string>, region: iset<string>,
                        rank: string -> nat, t: string, p: string, x: string)
    requires Closed(deps, marked, region) && t in region
    requires Ranked(Restrict(deps, region), marked, rank)
    ensures (p, x) in Edges(Restrict(deps, region), marked, rank, t) <==>
      (p == t || Leads(deps, marked, t, p)) && Link(deps, marked, p, x)
  {
    EdgesCharacterized(Restrict(deps, region), marked, rank, t, p, x);
    RestrictedReach(deps, marked, region, rank, t, p);
    RestrictedLink(deps, marked, region, p, x);
    if Leads(deps, marked, t, p) {
      var w :| IsWalk(deps, marked, w) && w[0] == t && w[|w| - 1] == p;
      WalkStaysInRegion(deps, marked, region, w, |w| - 1);
    }
  }

  /** A graph acyclic as a whole needs no region: every asset is in it. */
  lemma WholeGraph(deps: string -> seq<string>, marked: set<string>, rank: string -> nat,
                    region: iset<string>)
    requires Ranked(deps, marked, rank) && forall t: string :: t in region
    ensures Closed(deps, marked, region)
    ensures Ranked(Restrict(deps, region), marked, rank)
  {
  }
}
