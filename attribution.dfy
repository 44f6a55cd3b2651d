/**
 * What the walk does to the working dictionary, in closed form. Each visit of a
 * link parent -> child under a bundle adds the bundle to the child's
 * containingABs and the parent to its directContainingAssets, creating an
 * unmarked record first when the child is new. Because both are set unions,
 * the effect of any number of visits depends only on the set of visits.
 */
module Attribution {
  import opened AssetRecords

  /** One visit: `child` reached from `parent` during the walk for `bundle`. */
  datatype Visit = Visit(bundle: string, parent: string, child: string)

  /** A record as the walk creates it: unmarked, no sizes yet. */
  function Unmarked(asset: string): AssetInfo {
    AssetInfo(asset, false, 0, 0, 0, {}, {})
  }

  ghost function Children(V: set<Visit>): set<string> {
    set v | v in V :: v.child
  }

  ghost function BundlesOf(V: set<Visit>, x: string): set<string> {
    set v | v in V && v.child == x :: v.bundle
  }

  ghost function ParentsOf(V: set<Visit>, x: string): set<string> {
    set v | v in V && v.child == x :: v.parent
  }

  /** The record of x before the visits: the existing one, or a fresh unmarked one. */
  function Base(m: map<string, AssetInfo>, x: string): AssetInfo {
    if x in m then m[x] else Unmarked(x)
  }

  /** A record grown by the visits to x. */
  ghost function Grown(ai: AssetInfo, V: set<Visit>, x: string): AssetInfo {
    ai.(containingABs := ai.containingABs + BundlesOf(V, x),
        directContainingAssets := ai.directContainingAssets + ParentsOf(V, x))
  }

  /** The dictionary after the visits V. */
  ghost function Apply(m: map<string, AssetInfo>, V: set<Visit>): map<string, AssetInfo> {
    map x | x in m.Keys + Children(V) :: Grown(Base(m, x), V, x)
  }

  /** The walk's links from one root, all under that root's bundle. */
  ghost function Label(bundle: string, E: set<(string, string)>): set<Visit> {
    set e | e in E :: Visit(bundle, e.0, e.1)
  }

  lemma ChildrenUnion(V: set<Visit>, W: set<Visit>)
    ensures Children(V + W) == Children(V) + Children(W)
  {
  }

  lemma ByChildUnion(V: set<Visit>, W: set<Visit>, x: string)
    ensures BundlesOf(V + W, x) == BundlesOf(V, x) + BundlesOf(W, x)
    ensures ParentsOf(V + W, x) == ParentsOf(V, x) + ParentsOf(W, x)
  {
  }

  lemma NotAChild(V: set<Visit>, x: string)
    requires x !in Children(V)
    ensures BundlesOf(V, x) == {} && ParentsOf(V, x) == {}
  {
    forall v | v in V ensures v.child != x {
      assert v.child in Children(V);
    }
  }

  lemma ApplyKeys(m: map<string, AssetInfo>, V: set<Visit>)
    ensures Apply(m, V).Keys == m.Keys + Children(V)
  {
  }

  lemma ApplyNothing(m: map<string, AssetInfo>)
    ensures Apply(m, {}) == m
  {
    assert Children({}) == {};
    forall x | x in m ensures Apply(m, {})[x] == m[x] {
      assert BundlesOf({}, x) == {} && ParentsOf({}, x) == {};
    }
  }

  lemma BaseAfter(m: map<string, AssetInfo>, V: set<Visit>, x: string)
    ensures Base(Apply(m, V), x) == Grown(Base(m, x), V, x)
  {
    if x !in m && x !in Children(V) {
      NotAChild(V, x);
    }
  }

  lemma GrownTwice(ai: AssetInfo, V: set<Visit>, W: set<Visit>, x: string)
    ensures Grown(Grown(ai, V, x), W, x) == Grown(ai, V + W, x)
  {
    ByChildUnion(V, W, x);
  }

  /** Visits compose by union, so the order in which they happen does not matter. */
  lemma ApplyUnion(m: map<string, AssetInfo>, V: set<Visit>, W: set<Visit>)
    ensures Apply(Apply(m, V), W) == Apply(m, V + W)
  {
    var lhs, rhs := Apply(Apply(m, V), W), Apply(m, V + W);
    ChildrenUnion(V, W);
    ApplyKeys(m, V);
    ApplyKeys(Apply(m, V), W);
    ApplyKeys(m, V + W);
    assert lhs.Keys == rhs.Keys;
    forall x | x in lhs ensures lhs[x] == rhs[x] {
      ApplyUnionAt(m, V, W, x);
    }
  }

  lemma ApplyUnionAt(m: map<string, AssetInfo>, V: set<Visit>, W: set<Visit>, x: string)
    requires x in Apply(Apply(m, V), W) && x in Apply(m, V + W)
    ensures Apply(Apply(m, V), W)[x] == Apply(m, V + W)[x]
  {
    var mid := Apply(m, V);
    assert Apply(mid, W)[x] == Grown(Base(mid, x), W, x);
    assert Apply(m, V + W)[x] == Grown(Base(m, x), V + W, x);
    BaseAfter(m, V, x);
    GrownTwice(Base(m, x), V, W, x);
  }

  /** The update CollectUnmarkedAsset makes for one followed dependency x of p: the
      existing record of x, or a fresh unmarked one, gains bundle b and parent p. */
  function Record(m: map<string, AssetInfo>, b: string, p: string, x: string): map<string, AssetInfo> {
    var res := if x in m then m[x] else Unmarked(x);
    m[x := res.(containingABs := res.containingABs + {b},
                directContainingAssets := res.directContainingAssets + {p})]
  }

  /** One visit is exactly that update. */
  lemma ApplyVisit(m: map<string, AssetInfo>, b: string, p: string, x: string)
    ensures Record(m, b, p, x) == Apply(m, {Visit(b, p, x)})
  {
    var V := {Visit(b, p, x)};
    var lhs := Apply(m, V);
    var rhs := Record(m, b, p, x);
    assert Children(V) == {x};
    assert BundlesOf(V, x) == {b} && ParentsOf(V, x) == {p};
    assert lhs.Keys == rhs.Keys;
    forall y | y in lhs ensures lhs[y] == rhs[y] {
      if y != x {
        NotAChild(V, y);
      }
    }
  }

  /** One followed dependency x of p: its update, then its own walk F, extend the
      links E recorded so far. */
  lemma WalkStep(m: map<string, AssetInfo>, b: string, E: set<(string, string)>,
                 before: map<string, AssetInfo>, p: string, x: string,
                 F: set<(string, string)>, after: map<string, AssetInfo>)
    requires before == Apply(m, Label(b, E))
    requires after == Apply(Record(before, b, p, x), Label(b, F))
    ensures after == Apply(m, Label(b, E + {(p, x)} + F))
  {
    ApplyVisit(before, b, p, x);
    ApplyUnion(m, Label(b, E), {Visit(b, p, x)});
    ApplyUnion(m, Label(b, E) + {Visit(b, p, x)}, Label(b, F));
    LabelUnion(b, E, {(p, x)});
    LabelUnion(b, E + {(p, x)}, F);
    assert Label(b, {(p, x)}) == {Visit(b, p, x)};
  }

  lemma LabelUnion(b: string, E: set<(string, string)>, F: set<(string, string)>)
    ensures Label(b, E + F) == Label(b, E) + Label(b, F)
  {
  }

  /** Existing records only grow: no key, bundle or parent is lost, other fields are kept. */
  lemma ApplyOnlyGrows(m: map<string, AssetInfo>, V: set<Visit>, x: string)
    requires x in m
    ensures x in Apply(m, V)
    ensures m[x].containingABs <= Apply(m, V)[x].containingABs
    ensures m[x].directContainingAssets <= Apply(m, V)[x].directContainingAssets
    ensures Apply(m, V)[x].(containingABs := m[x].containingABs,
                            directContainingAssets := m[x].directContainingAssets) == m[x]
  {
  }

  /** Records the visits never touch are unchanged. */
  lemma ApplyUntouched(m: map<string, AssetInfo>, V: set<Visit>, x: string)
    requires x !in Children(V)
    ensures x in Apply(m, V) <==> x in m
    ensures x in m ==> Apply(m, V)[x] == m[x]
  {
    NotAChild(V, x);
  }

  /** A visited child has its record, holding the visit's bundle and parent. */
  lemma ApplyVisited(m: map<string, AssetInfo>, V: set<Visit>, v: Visit)
    requires v in V
    ensures v.child in Apply(m, V)
    ensures v.bundle in Apply(m, V)[v.child].containingABs
    ensures v.parent in Apply(m, V)[v.child].directContainingAssets
  {
    assert v.bundle in BundlesOf(V, v.child) && v.parent in ParentsOf(V, v.child);
  }

  /** The key of every record is its asset id. */
  ghost predicate KeyedByAsset(m: map<string, AssetInfo>) {
    forall k | k in m :: m[k].asset == k
  }

  lemma ApplyKeyedByAsset(m: map<string, AssetInfo>, V: set<Visit>)
    requires KeyedByAsset(m)
    ensures KeyedByAsset(Apply(m, V))
  {
  }
}
