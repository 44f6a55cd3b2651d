/**
 * ABMarkDupChecker: finds the unmarked assets that marked assets pull into
 * their bundles, counts the bundles each one ends up in, prices the
 * duplication and fills a ranked ABAssetInfos registry.
 *
 * The editor queries are parameters: the manifest (bundle names with their
 * marked asset paths), deps (direct dependencies) and size (measured runtime
 * memory). region is a ghost set of assets holding the marked ones and closed under
 * followed links, and rank a ghost witness that the followed links inside it form no
 * cycle: the walks are specified on deps cut down to that region (Restrict).
 */
module MarkDupChecker {
  import opened Wrappers
  import opened Text
  import opened AssetRecords
  import opened AssetRanking
  import opened AssetInfos
  import opened DependencyWalk
  import opened Attribution

  /** One asset bundle as the build settings list it. */
  datatype Bundle = Bundle(name: string, assets: seq<string>)

  predicate IsPosition(manifest: seq<Bundle>, k: int, j: int) {
    0 <= k < |manifest| && 0 <= j < |manifest[k].assets|
  }

  /** Position (k1, j1) is visited before (k, j) by the nested loops. */
  predicate Before(k1: int, j1: int, k: int, j: int) {
    k1 < k || (k1 == k && j1 < j)
  }

  /** No asset path is listed twice (in one bundle or in two). */
  ghost predicate UniquelyMarked(manifest: seq<Bundle>) {
    forall k1, j1, k2, j2 | IsPosition(manifest, k1, j1) && IsPosition(manifest, k2, j2) && (k1, j1) != (k2, j2)
      :: manifest[k1].assets[j1] != manifest[k2].assets[j2]
  }

  ghost function ManifestAssets(manifest: seq<Bundle>): set<string> {
    set k, j | 0 <= k < |manifest| && 0 <= j < |manifest[k].assets| :: manifest[k].assets[j]
  }

  /** The marked-asset -> bundle dictionary. A path listed twice makes the dictionary
      insert throw; the failure carries that path. */
  method MarkedAssetToBundle(manifest: seq<Bundle>) returns (r: Result<map<string, string>, string>)
    ensures r.Success? <==> UniquelyMarked(manifest)
    ensures r.Success? ==> r.value.Keys == ManifestAssets(manifest)
    ensures r.Success? ==> forall k, j | IsPosition(manifest, k, j) ::
      r.value[manifest[k].assets[j]] == manifest[k].name
    ensures r.Failure? ==> exists k1, j1, k2, j2 ::
      IsPosition(manifest, k1, j1) && IsPosition(manifest, k2, j2) && (k1, j1) != (k2, j2)
      && manifest[k1].assets[j1] == r.error && manifest[k2].assets[j2] == r.error
  {
    var m: map<string, string> := map[];
    // where each inserted path was listed
    ghost var pos: map<string, (int, int)> := map[];
    var k := 0;
    while k < |manifest|
      invariant 0 <= k <= |manifest|
      invariant Seen(manifest, m, pos, k, 0)
    {
      var bundle := manifest[k];
      var j := 0;
      while j < |bundle.assets|
        invariant 0 <= j <= |bundle.assets|
        invariant Seen(manifest, m, pos, k, j)
      {
        var asset := bundle.assets[j];
        if asset in m {
          assert IsPosition(manifest, pos[asset].0, pos[asset].1) && IsPosition(manifest, k, j);
          return Failure(asset);
        }
        m := m[asset := bundle.name];
        pos := pos[asset := (k, j)];
        j := j + 1;
      }
      k := k + 1;
    }
    assert forall k1, j1 | IsPosition(manifest, k1, j1) :: Before(k1, j1, k, 0);
    return Success(m);
  }

  /** The loop state of MarkedAssetToBundle after the positions before (k, j): every such
      position's path is inserted with its bundle name, pos remembers the one position
      of each inserted path, and nothing else is inserted. */
  ghost predicate Seen(manifest: seq<Bundle>, m: map<string, string>, pos: map<string, (int, int)>, k: int, j: int) {
    && m.Keys == pos.Keys
    && (forall a | a in pos ::
          IsPosition(manifest, pos[a].0, pos[a].1) && Before(pos[a].0, pos[a].1, k, j)
          && manifest[pos[a].0].assets[pos[a].1] == a && m[a] == manifest[pos[a].0].name)
    && (forall k1, j1 | IsPosition(manifest, k1, j1) && Before(k1, j1, k, j) ::
          manifest[k1].assets[j1] in pos && pos[manifest[k1].assets[j1]] == (k1, j1))
  }

  /** The measured size, except that scenes count as 0. */
  function CalcSize(asset: string, size: string -> nat): (r: nat)
    ensures EndsWith(asset, ".unity") ==> r == 0
    ensures !EndsWith(asset, ".unity") ==> r == size(asset)
  {
    if EndsWith(asset, ".unity") then 0 else size(asset)
  }

  /** The cost fields set after the walk: size, bundle count, reclaimable bytes. */
  function WithCost(ai: AssetInfo, mem: nat): (r: AssetInfo)
    ensures r.memSize == mem && r.containingABCount == |ai.containingABs|
    ensures r.canSaveMemSize == mem * (r.containingABCount - 1)
    ensures r.asset == ai.asset && r.isMarked == ai.isMarked
    ensures r.containingABs == ai.containingABs && r.directContainingAssets == ai.directContainingAssets
  {
    var count := |ai.containingABs|;
    ai.(memSize := mem, containingABCount := count, canSaveMemSize := mem * (count - 1))
  }

  /** A marked asset's record: marked, in its declaring bundle only, with no parents. */
  function MarkedEntry(asset: string, bundle: string): (r: AssetInfo)
    ensures r.asset == asset && r.isMarked && r.containingABs == {bundle} && r.directContainingAssets == {}
    ensures forall mem: nat :: WithCost(r, mem).containingABCount == 1 && WithCost(r, mem).canSaveMemSize == 0
  {
    AssetInfo(asset, true, 0, 0, 0, {bundle}, {})
  }

  ghost function MarkedEntries(marked: map<string, string>): map<string, AssetInfo> {
    map a | a in marked :: MarkedEntry(a, marked[a])
  }

  /** Every visit made by the walks from the given marked roots, each under its root's bundle. */
  ghost function ScanVisits(deps: string -> seq<string>, marked: map<string, string>,
                            rank: string -> nat, roots: set<string>): set<Visit>
    requires Ranked(deps, marked.Keys, rank) && roots <= marked.Keys
  {
    set a, e | a in roots && e in Edges(deps, marked.Keys, rank, a) :: Visit(marked[a], e.0, e.1)
  }

  /** The dictionary after the walks and the insertion of the marked records. */
  ghost function Collected(deps: string -> seq<string>, marked: map<string, string>, rank: string -> nat)
    : map<string, AssetInfo>
    requires Ranked(deps, marked.Keys, rank)
  {
    Apply(map[], ScanVisits(deps, marked, rank, marked.Keys)) + MarkedEntries(marked)
  }

  ghost function Costed(m: map<string, AssetInfo>, size: string -> nat): map<string, AssetInfo> {
    map k | k in m :: WithCost(m[k], CalcSize(k, size))
  }

  /** The costed records of the given keys only. */
  ghost function CostedOn(m: map<string, AssetInfo>, size: string -> nat, keys: set<string>): map<string, AssetInfo> {
    map k | k in m && k in keys :: WithCost(m[k], CalcSize(k, size))
  }

  lemma CostedOnAdd(m: map<string, AssetInfo>, size: string -> nat, keys: set<string>, k: string)
    requires k in m
    ensures CostedOn(m, size, keys + {k}) == CostedOn(m, size, keys)[k := WithCost(m[k], CalcSize(k, size))]
  {
  }

  /** One iteration of RegisterCosted: the next key is not costed yet, and costing it
      extends the costed part by that key. */
  lemma CostStep(collected: map<string, AssetInfo>, size: string -> nat, done: set<string>, k: string,
                 registered: map<string, AssetInfo>)
    requires KeyedByAsset(collected) && k in collected && k !in done
    requires registered == CostedOn(collected, size, done)
    ensures k !in registered
    ensures var ai := WithCost(collected[k], CalcSize(k, size));
      && ai.asset == k
      && registered[k := ai] == CostedOn(collected, size, done + {k})
  {
    CostedOnAdd(collected, size, done, k);
  }

  /** The final dictionary of a scan. */
  ghost function ScanTable(deps: string -> seq<string>, marked: map<string, string>,
                           rank: string -> nat, size: string -> nat): map<string, AssetInfo>
    requires Ranked(deps, marked.Keys, rank)
  {
    Costed(Collected(deps, marked, rank), size)
  }

  lemma ScanVisitsAdd(deps: string -> seq<string>, marked: map<string, string>, rank: string -> nat,
                      done: set<string>, a: string)
    requires Ranked(deps, marked.Keys, rank) && done <= marked.Keys && a in marked
    ensures ScanVisits(deps, marked, rank, done + {a})
         == ScanVisits(deps, marked, rank, done) + Label(marked[a], Edges(deps, marked.Keys, rank, a))
  {
  }

  /** The walks never create a record for a script or a marked asset. */
  lemma ScanVisitsFollowed(deps: string -> seq<string>, marked: map<string, string>, rank: string -> nat,
                           roots: set<string>, x: string)
    requires Ranked(deps, marked.Keys, rank) && roots <= marked.Keys
    requires x in Children(ScanVisits(deps, marked, rank, roots))
    ensures Followed(x, marked.Keys)
  {
    var v :| v in ScanVisits(deps, marked, rank, roots) && v.child == x;
    var a, e :| a in roots && e in Edges(deps, marked.Keys, rank, a) && v == Visit(marked[a], e.0, e.1);
    EdgesCharacterized(deps, marked.Keys, rank, a, e.0, e.1);
  }

  /** The dictionary after CollectUnmarkedAsset(t, b) starting from m, step by step as
      the method makes it. */
  ghost function CollectWalk(deps: string -> seq<string>, marked: set<string>, rank: string -> nat,
                             m: map<string, AssetInfo>, b: string, t: string): (r: map<string, AssetInfo>)
    requires Ranked(deps, marked, rank)
    ensures m.Keys <= r.Keys
    ensures forall x | x in r && x !in m :: Followed(x, marked)
    decreases rank(t), |deps(t)| + 1
  {
    CollectTo(deps, marked, rank, m, b, t, |deps(t)|)
  }

  /** The same after the first n direct dependencies of t. */
  ghost function CollectTo(deps: string -> seq<string>, marked: set<string>, rank: string -> nat,
                           m: map<string, AssetInfo>, b: string, t: string, n: nat): (r: map<string, AssetInfo>)
    requires Ranked(deps, marked, rank) && n <= |deps(t)|
    ensures m.Keys <= r.Keys
    ensures forall x | x in r && x !in m :: Followed(x, marked)
    decreases rank(t), n
  {
    if n == 0 then m
    else
      var before := CollectTo(deps, marked, rank, m, b, t, n - 1);
      var d := deps(t)[n - 1];
      if Followed(d, marked) then CollectWalk(deps, marked, rank, Record(before, b, t, d), b, d)
      else before
  }

  /** One more direct dependency of t, as the loop of CollectUnmarkedAsset handles it. */
  lemma CollectToNext(deps: string -> seq<string>, marked: set<string>, rank: string -> nat,
                      m: map<string, AssetInfo>, b: string, t: string, n: nat,
                      before: map<string, AssetInfo>, after: map<string, AssetInfo>)
    requires Ranked(deps, marked, rank) && n < |deps(t)|
    requires before == CollectTo(deps, marked, rank, m, b, t, n)
    requires Followed(deps(t)[n], marked) ==>
      after == CollectWalk(deps, marked, rank, Record(before, b, t, deps(t)[n]), b, deps(t)[n])
    requires !Followed(deps(t)[n], marked) ==> after == before
    ensures after == CollectTo(deps, marked, rank, m, b, t, n + 1)
  {
  }

  /** The walk's result in closed form: its links, all labelled with the walk's bundle,
      applied to the starting dictionary. The order of the updates does not matter. */
  lemma {:induction false} CollectWalkClosedForm(deps: string -> seq<string>, marked: set<string>,
                                                 rank: string -> nat, m: map<string, AssetInfo>,
                                                 b: string, t: string)
    requires Ranked(deps, marked, rank)
    ensures CollectWalk(deps, marked, rank, m, b, t) == Apply(m, Label(b, Edges(deps, marked, rank, t)))
    decreases rank(t), |deps(t)| + 1
  {
    CollectToClosedForm(deps, marked, rank, m, b, t, |deps(t)|);
  }

  lemma {:induction false} CollectToClosedForm(deps: string -> seq<string>, marked: set<string>,
                                               rank: string -> nat, m: map<string, AssetInfo>,
                                               b: string, t: string, n: nat)
    requires Ranked(deps, marked, rank) && n <= |deps(t)|
    ensures CollectTo(deps, marked, rank, m, b, t, n) == Apply(m, Label(b, EdgesTo(deps, marked, rank, t, n)))
    decreases rank(t), n
  {
    if n == 0 {
      CollectToNone(deps, marked, rank, m, b, t);
    } else {
      var d := deps(t)[n - 1];
      var before := CollectTo(deps, marked, rank, m, b, t, n - 1);
      CollectToClosedForm(deps, marked, rank, m, b, t, n - 1);
      assert before == Apply(m, Label(b, EdgesTo(deps, marked, rank, t, n - 1)));
      if Followed(d, marked) {
        CollectWalkClosedForm(deps, marked, rank, Record(before, b, t, d), b, d);
        CollectToFollowed(deps, marked, rank, m, b, t, n, before);
      } else {
        CollectToSkipped(deps, marked, rank, m, b, t, n, before);
      }
    }
  }

  lemma CollectToNone(deps: string -> seq<string>, marked: set<string>, rank: string -> nat,
                      m: map<string, AssetInfo>, b: string, t: string)
    requires Ranked(deps, marked, rank)
    ensures CollectTo(deps, marked, rank, m, b, t, 0) == Apply(m, Label(b, EdgesTo(deps, marked, rank, t, 0)))
  {
    assert Label(b, EdgesTo(deps, marked, rank, t, 0)) == {};
    ApplyNothing(m);
  }

  /** The inductive step of CollectToClosedForm for a followed n-th dependency, given the
      closed form for the first n - 1 dependencies (the dictionary before) and for the
      walk below the n-th. */
  lemma CollectToFollowed(deps: string -> seq<string>, marked: set<string>, rank: string -> nat,
                          m: map<string, AssetInfo>, b: string, t: string, n: nat,
                          before: map<string, AssetInfo>)
    requires Ranked(deps, marked, rank) && 0 < n <= |deps(t)| && Followed(deps(t)[n - 1], marked)
    requires before == CollectTo(deps, marked, rank, m, b, t, n - 1)
    requires before == Apply(m, Label(b, EdgesTo(deps, marked, rank, t, n - 1)))
    requires CollectWalk(deps, marked, rank, Record(before, b, t, deps(t)[n - 1]), b, deps(t)[n - 1])
      == Apply(Record(before, b, t, deps(t)[n - 1]), Label(b, Edges(deps, marked, rank, deps(t)[n - 1])))
    ensures CollectTo(deps, marked, rank, m, b, t, n) == Apply(m, Label(b, EdgesTo(deps, marked, rank, t, n)))
  {
    var d := deps(t)[n - 1];
    var E := EdgesTo(deps, marked, rank, t, n - 1);
    var F := Edges(deps, marked, rank, d);
    WalkStep(m, b, E, before, t, d, F, CollectWalk(deps, marked, rank, Record(before, b, t, d), b, d));
    assert EdgesTo(deps, marked, rank, t, n) == E + {(t, d)} + F;
  }

  /** The same step for a dependency the walk skips. */
  lemma CollectToSkipped(deps: string -> seq<string>, marked: set<string>, rank: string -> nat,
                         m: map<string, AssetInfo>, b: string, t: string, n: nat,
                         before: map<string, AssetInfo>)
    requires Ranked(deps, marked, rank) && 0 < n <= |deps(t)| && !Followed(deps(t)[n - 1], marked)
    requires before == CollectTo(deps, marked, rank, m, b, t, n - 1)
    requires before == Apply(m, Label(b, EdgesTo(deps, marked, rank, t, n - 1)))
    ensures CollectTo(deps, marked, rank, m, b, t, n) == Apply(m, Label(b, EdgesTo(deps, marked, rank, t, n)))
  {
    assert EdgesTo(deps, marked, rank, t, n) == EdgesTo(deps, marked, rank, t, n - 1);
  }

  /** Every followed direct dependency d of t gets a record holding t's bundle and t as a
      parent; a record made by the walk is unmarked. */
  lemma CollectWalkDirect(deps: string -> seq<string>, marked: set<string>, rank: string -> nat,
                          m: map<string, AssetInfo>, b: string, t: string, j: nat)
    requires Ranked(deps, marked, rank) && j < |deps(t)| && Followed(deps(t)[j], marked)
    ensures var W := CollectWalk(deps, marked, rank, m, b, t);
      && deps(t)[j] in W && b in W[deps(t)[j]].containingABs && t in W[deps(t)[j]].directContainingAssets
      && (deps(t)[j] !in m ==> W[deps(t)[j]].asset == deps(t)[j] && !W[deps(t)[j]].isMarked)
  {
    var d := deps(t)[j];
    var V := Label(b, Edges(deps, marked, rank, t));
    CollectWalkClosedForm(deps, marked, rank, m, b, t);
    EdgesOfFollowedChild(deps, marked, rank, t, j);
    ApplyVisited(m, V, Visit(b, t, d));
  }

  /** The bundle travels down the whole walk: every asset the walk reaches holds it. */
  lemma CollectWalkReaches(deps: string -> seq<string>, marked: set<string>, rank: string -> nat,
                           m: map<string, AssetInfo>, b: string, t: string, x: string)
    requires Ranked(deps, marked, rank) && x in Reach(deps, marked, rank, t)
    ensures x in CollectWalk(deps, marked, rank, m, b, t)
    ensures b in CollectWalk(deps, marked, rank, m, b, t)[x].containingABs
  {
    var E := Edges(deps, marked, rank, t);
    CollectWalkClosedForm(deps, marked, rank, m, b, t);
    var e :| e in E && e.1 == x;
    ApplyVisited(m, Label(b, E), Visit(b, e.0, x));
  }

  /** Existing records survive the walk and only gain bundles and parents. */
  lemma CollectWalkGrows(deps: string -> seq<string>, marked: set<string>, rank: string -> nat,
                         m: map<string, AssetInfo>, b: string, t: string, x: string)
    requires Ranked(deps, marked, rank) && x in m
    ensures var W := CollectWalk(deps, marked, rank, m, b, t);
      && x in W
      && m[x].containingABs <= W[x].containingABs
      && m[x].directContainingAssets <= W[x].directContainingAssets
      && W[x].(containingABs := m[x].containingABs, directContainingAssets := m[x].directContainingAssets) == m[x]
  {
    CollectWalkClosedForm(deps, marked, rank, m, b, t);
    ApplyOnlyGrows(m, Label(b, Edges(deps, marked, rank, t)), x);
  }

  /** The walk touches nothing it does not reach; in particular it never makes or changes
      the record of a script or a marked asset. */
  lemma CollectWalkUntouched(deps: string -> seq<string>, marked: set<string>, rank: string -> nat,
                             m: map<string, AssetInfo>, b: string, t: string, x: string)
    requires Ranked(deps, marked, rank)
    requires x !in Reach(deps, marked, rank, t) || !Followed(x, marked)
    ensures x in CollectWalk(deps, marked, rank, m, b, t) <==> x in m
    ensures x in m ==> CollectWalk(deps, marked, rank, m, b, t)[x] == m[x]
  {
    var E := Edges(deps, marked, rank, t);
    CollectWalkClosedForm(deps, marked, rank, m, b, t);
    if x in Reach(deps, marked, rank, t) {
      ReachedAreFollowed(deps, marked, rank, t, x);
    }
    forall v | v in Label(b, E) ensures v.child != x {
      var e :| e in E && v == Visit(b, e.0, e.1);
    }
    ApplyUntouched(m, Label(b, E), x);
  }

  class ABMarkDupChecker {
    var markedAsset2Bundle: map<string, string>
    var allAssetInfos: map<string, AssetInfo>
    var assetInfos: ABAssetInfos?

    constructor ()
      ensures markedAsset2Bundle == map[] && allAssetInfos == map[] && assetInfos == null
    {
      markedAsset2Bundle := map[];
      allAssetInfos := map[];
      assetInfos := null;
    }

    /** The walk's test for a marked asset: one the walk never follows. */
    predicate IsMarked(asset: string): (b: bool)
      reads this
      ensures b <==> asset in markedAsset2Bundle.Keys
      ensures b ==> !Followed(asset, markedAsset2Bundle.Keys)
    {
      asset in markedAsset2Bundle
    }

    /** Walks the direct dependencies of thisAsset, skipping scripts and marked assets,
        records bundle and parent on each followed dependency and recurses into it with
        the same bundle. The result is the closed form of all visits of the walk. */
    method CollectUnmarkedAsset(thisAsset: string, bundle: string, deps: string -> seq<string>,
                                ghost region: iset<string>, ghost rank: string -> nat)
      requires thisAsset in region && Closed(deps, markedAsset2Bundle.Keys, region)
      requires Ranked(Restrict(deps, region), markedAsset2Bundle.Keys, rank)
      modifies this`allAssetInfos
      ensures allAssetInfos
           == CollectWalk(Restrict(deps, region), markedAsset2Bundle.Keys, rank, old(allAssetInfos), bundle, thisAsset)
      decreases rank(thisAsset)
    {
      ghost var start := allAssetInfos;
      ghost var marked := markedAsset2Bundle.Keys;
      ghost var graph := Restrict(deps, region);
      var ds := deps(thisAsset);
      RestrictInside(deps, region, thisAsset);
      var i := 0;
      while i < |ds|
        invariant 0 <= i <= |ds|
        invariant allAssetInfos == CollectTo(graph, marked, rank, start, bundle, thisAsset, i)
      {
        var asset := ds[i];
        ghost var before := allAssetInfos;
        if !EndsWith(asset, ".cs") && !IsMarked(asset) {
          RegionStep(deps, marked, region, rank, thisAsset, i);
          var res: AssetInfo;
          if asset in allAssetInfos {
            res := allAssetInfos[asset];
          } else {
            res := Unmarked(asset);
          }
          res := res.(containingABs := res.containingABs + {bundle},
                      directContainingAssets := res.directContainingAssets + {thisAsset});
          allAssetInfos := allAssetInfos[asset := res];
          assert allAssetInfos == Record(before, bundle, thisAsset, asset);
          CollectUnmarkedAsset(asset, bundle, deps, region, rank);
        }
        CollectToNext(graph, marked, rank, start, bundle, thisAsset, i, before, allAssetInfos);
        i := i + 1;
      }
    }

    /** Starts from an empty dictionary and walks from every marked asset with its
        bundle, in the dictionary's (unspecified) order. */
    method CollectFromMarked(deps: string -> seq<string>, ghost region: iset<string>, ghost rank: string -> nat)
      requires (forall a | a in markedAsset2Bundle :: a in region) && Closed(deps, markedAsset2Bundle.Keys, region)
      requires Ranked(Restrict(deps, region), markedAsset2Bundle.Keys, rank)
      modifies this`allAssetInfos
      ensures allAssetInfos
           == Apply(map[], ScanVisits(Restrict(deps, region), markedAsset2Bundle, rank, markedAsset2Bundle.Keys))
    {
      ghost var graph := Restrict(deps, region);
      allAssetInfos := map[];
      var todo := markedAsset2Bundle.Keys;
      ghost var done: set<string> := {};
      assert ScanVisits(graph, markedAsset2Bundle, rank, done) == {};
      ApplyNothing(map[]);
      while todo != {}
        invariant todo + done == markedAsset2Bundle.Keys && todo !! done
        invariant allAssetInfos == Apply(map[], ScanVisits(graph, markedAsset2Bundle, rank, done))
        decreases todo
      {
        var a :| a in todo;
        ghost var before := ScanVisits(graph, markedAsset2Bundle, rank, done);
        ghost var prior := allAssetInfos;
        CollectUnmarkedAsset(a, markedAsset2Bundle[a], deps, region, rank);
        CollectWalkClosedForm(graph, markedAsset2Bundle.Keys, rank, prior, markedAsset2Bundle[a], a);
        ApplyUnion(map[], before, Label(markedAsset2Bundle[a], Edges(graph, markedAsset2Bundle.Keys, rank, a)));
        ScanVisitsAdd(graph, markedAsset2Bundle, rank, done, a);
        todo := todo - {a};
        done := done + {a};
      }
    }

    /** Inserts one record per marked asset. The dictionary insert throws on a key that is
        already present; ok says whether that happened. */
    method AddMarkedEntries() returns (ok: bool)
      modifies this`allAssetInfos
      ensures ok <==> old(allAssetInfos).Keys !! markedAsset2Bundle.Keys
      ensures ok ==> allAssetInfos == old(allAssetInfos) + MarkedEntries(markedAsset2Bundle)
    {
      var todo := markedAsset2Bundle.Keys;
      while todo != {}
        invariant todo <= markedAsset2Bundle.Keys
        invariant (markedAsset2Bundle.Keys - todo) !! old(allAssetInfos).Keys
        invariant allAssetInfos == old(allAssetInfos)
          + map a | a in markedAsset2Bundle.Keys - todo :: MarkedEntry(a, markedAsset2Bundle[a])
        decreases todo
      {
        var a :| a in todo;
        if a in allAssetInfos {
          return false;
        }
        allAssetInfos := allAssetInfos[a := MarkedEntry(a, markedAsset2Bundle[a])];
        todo := todo - {a};
      }
      assert markedAsset2Bundle.Keys - todo == markedAsset2Bundle.Keys;
      return true;
    }

    /** Sets size, bundle count and reclaimable bytes on every record, in the dictionary's
        order, and adds each one to a new registry. The records are objects shared by the
        dictionary and the registry, so the dictionary ends up holding the costed records:
        the model stores them back once the loop is done. */
    method RegisterCosted(size: string -> nat) returns (registry: ABAssetInfos)
      requires KeyedByAsset(allAssetInfos)
      modifies this`allAssetInfos
      ensures fresh(registry)
      ensures allAssetInfos == Costed(old(allAssetInfos), size)
      ensures registry.Valid() && registry.allAssetInfoMap == allAssetInfos
    {
      var all := allAssetInfos;
      registry := new ABAssetInfos();
      var todo := all.Keys;
      ghost var done: set<string> := {};
      while todo != {}
        invariant todo + done == all.Keys && todo !! done
        invariant registry.Valid() && registry.allAssetInfoMap == CostedOn(all, size, done)
        decreases todo
      {
        var k :| k in todo;
        CostStep(all, size, done, k, registry.allAssetInfoMap);
        var ai := all[k];
        var mem := CalcSize(k, size);
        ai := WithCost(ai, mem);
        var ok := registry.Add(ai);
        assert ok;
        todo := todo - {k};
        done := done + {k};
      }
      assert CostedOn(all, size, done) == Costed(all, size);
      allAssetInfos := registry.allAssetInfoMap;
    }

    /** The whole scan. It fails exactly when the manifest lists an asset twice, before
        any walk, so the region and the rank are only needed for a manifest that lists
        each asset once; then the registry holds the scan table, ranked and summed. */
    method CheckDuplicate(manifest: seq<Bundle>, deps: string -> seq<string>, size: string -> nat,
                          ghost region: iset<string>, ghost rank: string -> nat) returns (ok: bool)
      requires UniquelyMarked(manifest) ==>
        (forall a | a in ManifestAssets(manifest) :: a in region) && Closed(deps, ManifestAssets(manifest), region)
      requires UniquelyMarked(manifest) ==> Ranked(Restrict(deps, region), ManifestAssets(manifest), rank)
      modifies this
      ensures ok <==> UniquelyMarked(manifest)
      ensures ok ==> markedAsset2Bundle.Keys == ManifestAssets(manifest)
      ensures ok ==> forall k, j | IsPosition(manifest, k, j) ::
        markedAsset2Bundle[manifest[k].assets[j]] == manifest[k].name
      ensures ok ==> allAssetInfos == ScanTable(Restrict(deps, region), markedAsset2Bundle, rank, size)
      ensures ok ==> assetInfos != null && fresh(assetInfos) && assetInfos.Valid()
      ensures ok ==> assetInfos.allAssetInfoMap == allAssetInfos
      ensures ok ==> Sorted(assetInfos.sortedAllAssetInfos)
      ensures ok ==> assetInfos.canSaveSum == TotalCanSave(assetInfos.sortedAllAssetInfos)
      ensures ok ==> assetInfos.allSize == TotalAllSize(assetInfos.sortedAllAssetInfos)
      ensures ok ==> 0 <= assetInfos.canSaveSum <= assetInfos.allSize
    {
      var marked := MarkedAssetToBundle(manifest);
      if marked.Failure? {
        return false;
      }
      markedAsset2Bundle := marked.value;
      ScanMarked(deps, size, region, rank);
      return true;
    }

    /** Everything after the marked map: walks, marked records, costs, registry,
        ranking and totals. */
    method ScanMarked(deps: string -> seq<string>, size: string -> nat,
                      ghost region: iset<string>, ghost rank: string -> nat)
      requires (forall a | a in markedAsset2Bundle :: a in region) && Closed(deps, markedAsset2Bundle.Keys, region)
      requires Ranked(Restrict(deps, region), markedAsset2Bundle.Keys, rank)
      modifies this`allAssetInfos, this`assetInfos
      ensures allAssetInfos == ScanTable(Restrict(deps, region), markedAsset2Bundle, rank, size)
      ensures assetInfos != null && fresh(assetInfos) && assetInfos.Valid()
      ensures assetInfos.allAssetInfoMap == allAssetInfos
      ensures Sorted(assetInfos.sortedAllAssetInfos)
      ensures assetInfos.canSaveSum == TotalCanSave(assetInfos.sortedAllAssetInfos)
      ensures assetInfos.allSize == TotalAllSize(assetInfos.sortedAllAssetInfos)
      ensures 0 <= assetInfos.canSaveSum <= assetInfos.allSize
    {
      var registry := BuildRegistry(deps, size, region, rank);
      ghost var graph := Restrict(deps, region);
      registry.Sort();
      registry.Sum();
      ScanTableTotalsBounded(graph, markedAsset2Bundle, rank, size, registry.sortedAllAssetInfos);
      assetInfos := registry;
    }

    /** The walks, the marked records and the costs: a fresh registry, in dictionary
        order, over the scan table. */
    method BuildRegistry(deps: string -> seq<string>, size: string -> nat,
                         ghost region: iset<string>, ghost rank: string -> nat) returns (registry: ABAssetInfos)
      requires (forall a | a in markedAsset2Bundle :: a in region) && Closed(deps, markedAsset2Bundle.Keys, region)
      requires Ranked(Restrict(deps, region), markedAsset2Bundle.Keys, rank)
      modifies this`allAssetInfos
      ensures allAssetInfos == ScanTable(Restrict(deps, region), markedAsset2Bundle, rank, size)
      ensures fresh(registry) && registry.Valid() && registry.allAssetInfoMap == allAssetInfos
    {
      ghost var graph := Restrict(deps, region);
      CollectFromMarked(deps, region, rank);
      CollectedKeysUnmarked(graph, markedAsset2Bundle, rank);
      var ok := AddMarkedEntries();
      assert ok;
      CollectedKeyedByAsset(graph, markedAsset2Bundle, rank);
      registry := RegisterCosted(size);
    }
  }

  // ---------------------------------------------------------------------------
  // What a scan produces.

  /** A consistent registry whose records all follow the cost model saves at most
      what it holds. */
  lemma IndexedTotalsBounded(list: seq<AssetInfo>, index: map<string, AssetInfo>)
    requires Indexes(list, index)
    requires forall k | k in index :: WellCosted(index[k])
    ensures 0 <= TotalCanSave(list) <= TotalAllSize(list)
  {
    forall i | 0 <= i < |list| ensures WellCosted(list[i]) {
      assert list[i] in list;
      assert index[list[i].asset] == list[i];
    }
    TotalsBounded(list);
  }

  /** A registry holding a scan table saves at most what it holds. */
  lemma ScanTableTotalsBounded(deps: string -> seq<string>, marked: map<string, string>,
                               rank: string -> nat, size: string -> nat, list: seq<AssetInfo>)
    requires Ranked(deps, marked.Keys, rank)
    requires Indexes(list, ScanTable(deps, marked, rank, size))
    ensures 0 <= TotalCanSave(list) <= TotalAllSize(list)
  {
    ScanTableCosts(deps, marked, rank, size);
    IndexedTotalsBounded(list, ScanTable(deps, marked, rank, size));
  }

  /** After the walks, no key of the dictionary is a marked asset, so inserting the
      marked records never meets an existing key. */
  lemma CollectedKeysUnmarked(deps: string -> seq<string>, marked: map<string, string>, rank: string -> nat)
    requires Ranked(deps, marked.Keys, rank)
    ensures Apply(map[], ScanVisits(deps, marked, rank, marked.Keys)).Keys !! marked.Keys
  {
    var V := ScanVisits(deps, marked, rank, marked.Keys);
    forall x | x in Apply(map[], V) ensures x !in marked {
      ApplyKeys(map[], V);
      ScanVisitsFollowed(deps, marked, rank, marked.Keys, x);
    }
  }

  lemma CollectedKeyedByAsset(deps: string -> seq<string>, marked: map<string, string>, rank: string -> nat)
    requires Ranked(deps, marked.Keys, rank)
    ensures KeyedByAsset(Apply(map[], ScanVisits(deps, marked, rank, marked.Keys)) + MarkedEntries(marked))
  {
    ApplyKeyedByAsset(map[], ScanVisits(deps, marked, rank, marked.Keys));
  }

  // ---------------------------------------------------------------------------
  // The table depends on the graph, not on the region or rank that admit the walks.

  /** Two graphs whose walks from every marked asset record the same links give the same table. */
  lemma ScanTableFromEdges(deps1: string -> seq<string>, rank1: string -> nat,
                           deps2: string -> seq<string>, rank2: string -> nat,
                           marked: map<string, string>, size: string -> nat)
    requires Ranked(deps1, marked.Keys, rank1) && Ranked(deps2, marked.Keys, rank2)
    requires forall a | a in marked :: Edges(deps1, marked.Keys, rank1, a) == Edges(deps2, marked.Keys, rank2, a)
    ensures ScanTable(deps1, marked, rank1, size) == ScanTable(deps2, marked, rank2, size)
  {
    assert ScanVisits(deps1, marked, rank1, marked.Keys) == ScanVisits(deps2, marked, rank2, marked.Keys);
  }

  /** Any two regions closed around the marked assets, each with a rank, give the same table. */
  lemma ScanTableIndependent(deps: string -> seq<string>, marked: map<string, string>, size: string -> nat,
                             region1: iset<string>, rank1: string -> nat,
                             region2: iset<string>, rank2: string -> nat)
    requires (forall a | a in marked :: a in region1) && Closed(deps, marked.Keys, region1)
    requires Ranked(Restrict(deps, region1), marked.Keys, rank1)
    requires (forall a | a in marked :: a in region2) && Closed(deps, marked.Keys, region2)
    requires Ranked(Restrict(deps, region2), marked.Keys, rank2)
    ensures ScanTable(Restrict(deps, region1), marked, rank1, size)
         == ScanTable(Restrict(deps, region2), marked, rank2, size)
  {
    forall a | a in marked
      ensures Edges(Restrict(deps, region1), marked.Keys, rank1, a) == Edges(Restrict(deps, region2), marked.Keys, rank2, a)
    {
      forall e ensures e in Edges(Restrict(deps, region1), marked.Keys, rank1, a)
                   <==> e in Edges(Restrict(deps, region2), marked.Keys, rank2, a)
      {
        RestrictedEdges(deps, marked.Keys, region1, rank1, a, e.0, e.1);
        RestrictedEdges(deps, marked.Keys, region2, rank2, a, e.0, e.1);
      }
    }
    ScanTableFromEdges(Restrict(deps, region1), rank1, Restrict(deps, region2), rank2, marked, size);
  }

  /** On a graph acyclic as a whole, any admissible region gives the table of the whole graph. */
  lemma ScanTableWholeGraph(deps: string -> seq<string>, marked: map<string, string>, size: string -> nat,
                            rank: string -> nat, region: iset<string>, regionRank: string -> nat)
    requires Ranked(deps, marked.Keys, rank)
    requires (forall a | a in marked :: a in region) && Closed(deps, marked.Keys, region)
    requires Ranked(Restrict(deps, region), marked.Keys, regionRank)
    ensures ScanTable(Restrict(deps, region), marked, regionRank, size) == ScanTable(deps, marked, rank, size)
  {
    forall a | a in marked
      ensures Edges(Restrict(deps, region), marked.Keys, regionRank, a) == Edges(deps, marked.Keys, rank, a)
    {
      forall e ensures e in Edges(Restrict(deps, region), marked.Keys, regionRank, a)
                   <==> e in Edges(deps, marked.Keys, rank, a)
      {
        RestrictedEdges(deps, marked.Keys, region, regionRank, a, e.0, e.1);
        EdgesByWalks(deps, marked.Keys, rank, a, e.0, e.1);
      }
    }
    ScanTableFromEdges(Restrict(deps, region), regionRank, deps, rank, marked, size);
  }

  /** Every record of a scan follows the cost model, measured with the scene rule. */
  lemma ScanTableCosts(deps: string -> seq<string>, marked: map<string, string>,
                       rank: string -> nat, size: string -> nat)
    requires Ranked(deps, marked.Keys, rank)
    ensures forall k | k in ScanTable(deps, marked, rank, size) ::
      var ai := ScanTable(deps, marked, rank, size)[k];
      WellCosted(ai) && ai.asset == k && ai.memSize == CalcSize(k, size)
  {
    var V := ScanVisits(deps, marked, rank, marked.Keys);
    var c := Collected(deps, marked, rank);
    CollectedKeyedByAsset(deps, marked, rank);
    forall k | k in c ensures c[k].containingABs != {} {
      if k !in marked {
        ApplyKeys(map[], V);
        var v :| v in V && v.child == k;
        ApplyVisited(map[], V, v);
      }
    }
  }

  /** The visits of all walks, seen from one asset x: x is visited iff some marked
      asset's walk reaches it, under exactly the bundles of those marked assets, from
      exactly the parents those walks link to it. */
  lemma ScanVisitsOf(deps: string -> seq<string>, marked: map<string, string>, rank: string -> nat, x: string)
    requires Ranked(deps, marked.Keys, rank)
    ensures x in Children(ScanVisits(deps, marked, rank, marked.Keys)) <==>
      exists a | a in marked :: x in Reach(deps, marked.Keys, rank, a)
    ensures forall bn :: bn in BundlesOf(ScanVisits(deps, marked, rank, marked.Keys), x) <==>
      exists a | a in marked :: marked[a] == bn && x in Reach(deps, marked.Keys, rank, a)
    ensures forall p :: p in ParentsOf(ScanVisits(deps, marked, rank, marked.Keys), x) <==>
      exists a | a in marked :: (p, x) in Edges(deps, marked.Keys, rank, a)
  {
    var V := ScanVisits(deps, marked, rank, marked.Keys);
    if x in Children(V) {
      var v :| v in V && v.child == x;
      var a, e :| a in marked && e in Edges(deps, marked.Keys, rank, a) && v == Visit(marked[a], e.0, e.1);
      assert x in Reach(deps, marked.Keys, rank, a);
    }
    if a :| a in marked && x in Reach(deps, marked.Keys, rank, a) {
      var e :| e in Edges(deps, marked.Keys, rank, a) && e.1 == x;
      assert Visit(marked[a], e.0, e.1) in V;
    }
    forall bn ensures bn in BundlesOf(V, x) <==>
      exists a | a in marked :: marked[a] == bn && x in Reach(deps, marked.Keys, rank, a)
    {
      if bn in BundlesOf(V, x) {
        var v :| v in V && v.child == x && v.bundle == bn;
        var a, e :| a in marked && e in Edges(deps, marked.Keys, rank, a) && v == Visit(marked[a], e.0, e.1);
        assert x in Reach(deps, marked.Keys, rank, a);
      }
      if a :| a in marked && marked[a] == bn && x in Reach(deps, marked.Keys, rank, a) {
        var e :| e in Edges(deps, marked.Keys, rank, a) && e.1 == x;
        assert Visit(marked[a], e.0, e.1) in V;
      }
    }
    forall p ensures p in ParentsOf(V, x) <==>
      exists a | a in marked :: (p, x) in Edges(deps, marked.Keys, rank, a)
    {
      if p in ParentsOf(V, x) {
        var v :| v in V && v.child == x && v.parent == p;
        var a, e :| a in marked && e in Edges(deps, marked.Keys, rank, a) && v == Visit(marked[a], e.0, e.1);
        assert e == (p, x);
      }
      if a :| a in marked && (p, x) in Edges(deps, marked.Keys, rank, a) {
        assert Visit(marked[a], p, x) in V;
      }
    }
  }

  /** A scan has a record exactly for the marked assets and the assets their walks reach. */
  lemma ScanTableKeys(deps: string -> seq<string>, marked: map<string, string>,
                      rank: string -> nat, size: string -> nat, x: string)
    requires Ranked(deps, marked.Keys, rank)
    ensures x in ScanTable(deps, marked, rank, size) <==>
      x in marked || exists a | a in marked :: x in Reach(deps, marked.Keys, rank, a)
  {
    var V := ScanVisits(deps, marked, rank, marked.Keys);
    ApplyKeys(map[], V);
    ScanVisitsOf(deps, marked, rank, x);
  }

  /** A marked asset's record: marked, in its own bundle only, no parents, nothing
      to save, measured with the scene rule. */
  lemma ScanTableMarked(deps: string -> seq<string>, marked: map<string, string>,
                        rank: string -> nat, size: string -> nat, a: string)
    requires Ranked(deps, marked.Keys, rank) && a in marked
    ensures a in ScanTable(deps, marked, rank, size)
    ensures ScanTable(deps, marked, rank, size)[a] == AssetInfo(a, true, CalcSize(a, size), 0, 1, {marked[a]}, {})
  {
    var C := Collected(deps, marked, rank);
    assert a in MarkedEntries(marked);
    assert C[a] == MarkedEntry(a, marked[a]);
    var mem := CalcSize(a, size);
    var ai := WithCost(C[a], mem);
    assert ScanTable(deps, marked, rank, size)[a] == ai;
    assert |{marked[a]}| == 1;
    assert ai.containingABCount == 1;
    assert ai.canSaveMemSize == mem * 0 == 0;
    assert ai == AssetInfo(a, true, mem, 0, 1, {marked[a]}, {});
  }

  /** A followed direct dependency of a marked asset has a record holding that asset as a
      parent and its bundle. */
  lemma ScanTableDirectDependency(deps: string -> seq<string>, marked: map<string, string>,
                                  rank: string -> nat, size: string -> nat, a: string, j: nat)
    requires Ranked(deps, marked.Keys, rank)
    requires a in marked && j < |deps(a)| && Followed(deps(a)[j], marked.Keys)
    ensures deps(a)[j] in ScanTable(deps, marked, rank, size)
    ensures marked[a] in ScanTable(deps, marked, rank, size)[deps(a)[j]].containingABs
    ensures a in ScanTable(deps, marked, rank, size)[deps(a)[j]].directContainingAssets
  {
    var d := deps(a)[j];
    var V := ScanVisits(deps, marked, rank, marked.Keys);
    EdgesOfFollowedChild(deps, marked.Keys, rank, a, j);
    assert Visit(marked[a], a, d) in V;
    assert d in Children(V);
    ApplyKeys(map[], V);
    UnmarkedRecord(deps, marked, rank, size, d);
    assert marked[a] in BundlesOf(V, d) && a in ParentsOf(V, d);
  }

  /** A link (p, x) is on some marked asset's walk iff p is that asset or reached by its
      walk and x is a followed direct dependency of p. */
  lemma LinkedParents(deps: string -> seq<string>, marked: map<string, string>, rank: string -> nat,
                      p: string, x: string)
    requires Ranked(deps, marked.Keys, rank)
    ensures (exists a | a in marked :: (p, x) in Edges(deps, marked.Keys, rank, a)) <==>
      exists a | a in marked :: (p == a || p in Reach(deps, marked.Keys, rank, a)) && Link(deps, marked.Keys, p, x)
  {
    forall a | a in marked ensures (p, x) in Edges(deps, marked.Keys, rank, a) <==>
      (p == a || p in Reach(deps, marked.Keys, rank, a)) && Link(deps, marked.Keys, p, x)
    {
      EdgesCharacterized(deps, marked.Keys, rank, a, p, x);
    }
  }

  /** An unmarked asset's record is a fresh record grown by the visits to it, then priced. */
  lemma UnmarkedRecord(deps: string -> seq<string>, marked: map<string, string>,
                       rank: string -> nat, size: string -> nat, x: string)
    requires Ranked(deps, marked.Keys, rank)
    requires x in ScanTable(deps, marked, rank, size) && x !in marked
    ensures x in Children(ScanVisits(deps, marked, rank, marked.Keys))
    ensures ScanTable(deps, marked, rank, size)[x]
         == WithCost(Grown(Unmarked(x), ScanVisits(deps, marked, rank, marked.Keys), x), CalcSize(x, size))
  {
    var V := ScanVisits(deps, marked, rank, marked.Keys);
    var A := Apply(map[], V);
    var C := Collected(deps, marked, rank);
    ApplyKeys(map[], V);
    assert x !in MarkedEntries(marked);
    assert C[x] == A[x];
    assert Base(map[], x) == Unmarked(x);
  }

  /** An unmarked asset's record: not marked, never a script, in exactly the bundles of
      the marked assets whose walks reach it, and priced by the number of those bundles. */
  lemma ScanTableUnmarked(deps: string -> seq<string>, marked: map<string, string>,
                          rank: string -> nat, size: string -> nat, x: string)
    requires Ranked(deps, marked.Keys, rank)
    requires x in ScanTable(deps, marked, rank, size) && x !in marked
    ensures var ai := ScanTable(deps, marked, rank, size)[x];
      && ai.asset == x && !ai.isMarked && Followed(x, marked.Keys)
      && (forall bn :: bn in ai.containingABs <==>
            exists a | a in marked :: marked[a] == bn && x in Reach(deps, marked.Keys, rank, a))
      && ai.memSize == CalcSize(x, size)
      && ai.containingABCount == |ai.containingABs| >= 1
      && ai.canSaveMemSize == ai.memSize * (ai.containingABCount - 1)
  {
    var V := ScanVisits(deps, marked, rank, marked.Keys);
    UnmarkedRecord(deps, marked, rank, size, x);
    var ai := ScanTable(deps, marked, rank, size)[x];
    assert ai.containingABs == BundlesOf(V, x);
    var v :| v in V && v.child == x;
    assert v.bundle in ai.containingABs;
    ScanVisitsFollowed(deps, marked, rank, marked.Keys, x);
    ScanVisitsOf(deps, marked, rank, x);
  }

  /** Every bundle the report names is a bundle of the manifest. */
  lemma ScanTableBundlesNamed(deps: string -> seq<string>, marked: map<string, string>,
                              rank: string -> nat, size: string -> nat, x: string)
    requires Ranked(deps, marked.Keys, rank) && x in ScanTable(deps, marked, rank, size)
    ensures ScanTable(deps, marked, rank, size)[x].containingABs <= marked.Values
  {
    var T := ScanTable(deps, marked, rank, size);
    if x in marked {
      ScanTableMarked(deps, marked, rank, size, x);
    } else {
      ScanTableUnmarked(deps, marked, rank, size, x);
      forall bn | bn in T[x].containingABs ensures bn in marked.Values {
        var a :| a in marked && marked[a] == bn && x in Reach(deps, marked.Keys, rank, a);
      }
    }
  }

  /** An unmarked asset's parents are exactly the assets that link to it on some marked
      asset's walk: only direct dependents count, so an asset reached through a marked
      asset is charged to that asset's bundle alone. */
  lemma ScanTableParents(deps: string -> seq<string>, marked: map<string, string>,
                         rank: string -> nat, size: string -> nat, x: string)
    requires Ranked(deps, marked.Keys, rank)
    requires x in ScanTable(deps, marked, rank, size) && x !in marked
    ensures forall p :: p in ScanTable(deps, marked, rank, size)[x].directContainingAssets <==>
      exists a | a in marked :: (p == a || p in Reach(deps, marked.Keys, rank, a)) && Link(deps, marked.Keys, p, x)
  {
    var V := ScanVisits(deps, marked, rank, marked.Keys);
    UnmarkedRecord(deps, marked, rank, size, x);
    var ai := ScanTable(deps, marked, rank, size)[x];
    assert ai.directContainingAssets == ParentsOf(V, x);
    ScanVisitsOf(deps, marked, rank, x);
    forall p ensures p in ai.directContainingAssets <==>
      exists a | a in marked :: (p == a || p in Reach(deps, marked.Keys, rank, a)) && Link(deps, marked.Keys, p, x)
    {
      LinkedParents(deps, marked, rank, p, x);
    }
  }
}
