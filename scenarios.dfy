/**
 * Concrete scans, worked out from the general lemmas about ScanTable.
 */
module Scenarios {
  import opened Text
  import opened AssetRecords
  import opened DependencyWalk
  import opened MarkDupChecker

  // a.prefab (bundle A) depends on b.prefab (bundle B), which depends on c.png.

  function ChainDeps(t: string): seq<string> {
    if t == "a.prefab" then ["b.prefab"] else if t == "b.prefab" then ["c.png"] else []
  }

  function ChainRank(t: string): nat {
    if t == "a.prefab" then 2 else if t == "b.prefab" then 1 else 0
  }

  const ChainMarked: map<string, string> := map["a.prefab" := "A", "b.prefab" := "B"]

  lemma ChainRanked()
    ensures Ranked(ChainDeps, ChainMarked.Keys, ChainRank)
  {
  }

  lemma ChainEdges()
    ensures Ranked(ChainDeps, ChainMarked.Keys, ChainRank)
    ensures Edges(ChainDeps, ChainMarked.Keys, ChainRank, "a.prefab") == {}
    ensures Edges(ChainDeps, ChainMarked.Keys, ChainRank, "b.prefab") == {("b.prefab", "c.png")}
  {
    ChainRanked();
    var marked := ChainMarked.Keys;
    assert !Followed("b.prefab", marked);
    assert EdgesTo(ChainDeps, marked, ChainRank, "a.prefab", 0) == {};
    assert Edges(ChainDeps, marked, ChainRank, "a.prefab") == EdgesTo(ChainDeps, marked, ChainRank, "a.prefab", 1);
    assert "c.png"[2..] != ".cs" by { assert "c.png"[2..][0] == 'p'; }
    assert Followed("c.png", marked);
    assert Edges(ChainDeps, marked, ChainRank, "c.png") == EdgesTo(ChainDeps, marked, ChainRank, "c.png", 0) == {};
    assert EdgesTo(ChainDeps, marked, ChainRank, "b.prefab", 0) == {};
    assert Edges(ChainDeps, marked, ChainRank, "b.prefab") == EdgesTo(ChainDeps, marked, ChainRank, "b.prefab", 1);
  }

  /** Only direct dependencies count: c.png is charged to B alone, not to A, because the
      walk from a.prefab stops at the marked b.prefab. */
  lemma DirectDependenciesOnly(size: string -> nat)
    ensures Ranked(ChainDeps, ChainMarked.Keys, ChainRank)
      && "c.png" in ScanTable(ChainDeps, ChainMarked, ChainRank, size)
      && ScanTable(ChainDeps, ChainMarked, ChainRank, size)["c.png"].containingABs == {"B"}
  {
    ChainEdges();
    var marked := ChainMarked.Keys;
    assert Reach(ChainDeps, marked, ChainRank, "a.prefab") == {};
    assert Reach(ChainDeps, marked, ChainRank, "b.prefab") == {"c.png"};
    ScanTableKeys(ChainDeps, ChainMarked, ChainRank, size, "c.png");
    ScanTableUnmarked(ChainDeps, ChainMarked, ChainRank, size, "c.png");
  }

  /** So c.png is in one bundle and nothing is saved on it. */
  lemma ChainSavesNothing(size: string -> nat)
    ensures Ranked(ChainDeps, ChainMarked.Keys, ChainRank)
      && "c.png" in ScanTable(ChainDeps, ChainMarked, ChainRank, size)
      && ScanTable(ChainDeps, ChainMarked, ChainRank, size)["c.png"].containingABCount == 1
      && ScanTable(ChainDeps, ChainMarked, ChainRank, size)["c.png"].canSaveMemSize == 0
  {
    DirectDependenciesOnly(size);
    ScanTableUnmarked(ChainDeps, ChainMarked, ChainRank, size, "c.png");
    SingleBundleSavesNothing(ScanTable(ChainDeps, ChainMarked, ChainRank, size)["c.png"]);
  }

  /** c.png's only recorded parent is its direct dependent b.prefab. */
  lemma ChainParents(size: string -> nat)
    ensures Ranked(ChainDeps, ChainMarked.Keys, ChainRank)
      && "c.png" in ScanTable(ChainDeps, ChainMarked, ChainRank, size)
      && ScanTable(ChainDeps, ChainMarked, ChainRank, size)["c.png"].directContainingAssets == {"b.prefab"}
  {
    DirectDependenciesOnly(size);
    var ai := ScanTable(ChainDeps, ChainMarked, ChainRank, size)["c.png"];
    ChainParentIncluded(size);
    forall p | p in ai.directContainingAssets ensures p == "b.prefab" {
      ChainParentOnly(size, p);
    }
  }

  lemma ChainParentIncluded(size: string -> nat)
    requires Ranked(ChainDeps, ChainMarked.Keys, ChainRank)
    requires "c.png" in ScanTable(ChainDeps, ChainMarked, ChainRank, size)
    ensures "b.prefab" in ScanTable(ChainDeps, ChainMarked, ChainRank, size)["c.png"].directContainingAssets
  {
    CFollowed();
    ScanTableDirectDependency(ChainDeps, ChainMarked, ChainRank, size, "b.prefab", 0);
  }

  lemma CFollowed()
    ensures ChainDeps("b.prefab")[0] == "c.png" && Followed("c.png", ChainMarked.Keys)
  {
    assert "c.png"[2..] != ".cs" by { assert "c.png"[2..][0] == 'p'; }
  }

  lemma ChainParentOnly(size: string -> nat, p: string)
    requires Ranked(ChainDeps, ChainMarked.Keys, ChainRank)
    requires "c.png" in ScanTable(ChainDeps, ChainMarked, ChainRank, size)
    ensures p in ScanTable(ChainDeps, ChainMarked, ChainRank, size)["c.png"].directContainingAssets ==> p == "b.prefab"
  {
    ScanTableParents(ChainDeps, ChainMarked, ChainRank, size, "c.png");
    OnlyParentOfC(p);
  }

  lemma OnlyParentOfC(p: string)
    ensures "c.png" in ChainDeps(p) ==> p == "b.prefab"
  {
    assert "c.png" != "b.prefab";
  }

  // ui.prefab (bundle ui) depends on atlas.png and on the script ui.cs;
  // hud.prefab (bundle hud) depends on atlas.png as well.

  function SharedDeps(t: string): seq<string> {
    if t == "ui.prefab" then ["atlas.png", "ui.cs"] else if t == "hud.prefab" then ["atlas.png"] else []
  }

  function SharedRank(t: string): nat {
    if t == "ui.prefab" || t == "hud.prefab" then 1 else 0
  }

  const SharedMarked: map<string, string> := map["ui.prefab" := "ui", "hud.prefab" := "hud"]

  lemma SharedRanked()
    ensures Ranked(SharedDeps, SharedMarked.Keys, SharedRank)
  {
  }

  lemma AtlasFollowed()
    ensures SharedDeps("ui.prefab")[0] == "atlas.png" && SharedDeps("hud.prefab")[0] == "atlas.png"
    ensures Followed("atlas.png", SharedMarked.Keys)
  {
    assert "atlas.png"[6..] != ".cs" by { assert "atlas.png"[6..][0] == 'p'; }
  }

  lemma SharedBundleOnly(size: string -> nat, bn: string)
    requires Ranked(SharedDeps, SharedMarked.Keys, SharedRank)
    requires "atlas.png" in ScanTable(SharedDeps, SharedMarked, SharedRank, size)
    ensures bn in ScanTable(SharedDeps, SharedMarked, SharedRank, size)["atlas.png"].containingABs ==>
      bn == "ui" || bn == "hud"
  {
    ScanTableBundlesNamed(SharedDeps, SharedMarked, SharedRank, size, "atlas.png");
    SharedBundleNames();
  }

  lemma SharedBundleNames()
    ensures SharedMarked.Values == {"ui", "hud"}
  {
    assert SharedMarked["ui.prefab"] == "ui" && SharedMarked["hud.prefab"] == "hud";
  }

  /** An asset both bundles pull in is embedded in both and counted in both. */
  lemma SharedDependency(size: string -> nat)
    ensures Ranked(SharedDeps, SharedMarked.Keys, SharedRank)
      && "atlas.png" in ScanTable(SharedDeps, SharedMarked, SharedRank, size)
      && ScanTable(SharedDeps, SharedMarked, SharedRank, size)["atlas.png"].containingABs == {"ui", "hud"}
  {
    SharedRanked();
    AtlasFollowed();
    ScanTableDirectDependency(SharedDeps, SharedMarked, SharedRank, size, "ui.prefab", 0);
    ScanTableDirectDependency(SharedDeps, SharedMarked, SharedRank, size, "hud.prefab", 0);
    var ai := ScanTable(SharedDeps, SharedMarked, SharedRank, size)["atlas.png"];
    forall bn | bn in ai.containingABs ensures bn == "ui" || bn == "hud" {
      SharedBundleOnly(size, bn);
    }
  }

  lemma AtlasCosted(size: string -> nat)
    requires Ranked(SharedDeps, SharedMarked.Keys, SharedRank)
    requires "atlas.png" in ScanTable(SharedDeps, SharedMarked, SharedRank, size)
    ensures WellCosted(ScanTable(SharedDeps, SharedMarked, SharedRank, size)["atlas.png"])
    ensures ScanTable(SharedDeps, SharedMarked, SharedRank, size)["atlas.png"].memSize == size("atlas.png")
  {
    ScanTableCosts(SharedDeps, SharedMarked, SharedRank, size);
    AtlasNotAScene();
  }

  lemma AtlasNotAScene()
    ensures !EndsWith("atlas.png", ".unity")
  {
    assert "atlas.png"[3..][0] == 'a';
  }

  lemma TwoNames(ai: AssetInfo)
    requires WellCosted(ai) && ai.containingABs == {"ui", "hud"}
    ensures ai.containingABCount == 2 && ai.canSaveMemSize == ai.memSize
  {
    assert |{"ui", "hud"}| == 2;
    TwoBundlesSaveOneCopy(ai);
  }

  /** One of the two copies of the shared asset can be reclaimed. */
  lemma SharedDependencySavesOneCopy(size: string -> nat)
    ensures Ranked(SharedDeps, SharedMarked.Keys, SharedRank)
      && "atlas.png" in ScanTable(SharedDeps, SharedMarked, SharedRank, size)
      && ScanTable(SharedDeps, SharedMarked, SharedRank, size)["atlas.png"].containingABCount == 2
      && ScanTable(SharedDeps, SharedMarked, SharedRank, size)["atlas.png"].canSaveMemSize == size("atlas.png")
  {
    SharedDependency(size);
    AtlasCosted(size);
    TwoNames(ScanTable(SharedDeps, SharedMarked, SharedRank, size)["atlas.png"]);
  }
  /** A script dependency gets no record. */
  lemma ScriptsAreSkipped(size: string -> nat)
    ensures Ranked(SharedDeps, SharedMarked.Keys, SharedRank)
      && "ui.cs" !in ScanTable(SharedDeps, SharedMarked, SharedRank, size)
  {
    SharedRanked();
    ScriptUnreached();
    ScanTableKeys(SharedDeps, SharedMarked, SharedRank, size, "ui.cs");
  }

  lemma ScriptUnreached()
    requires Ranked(SharedDeps, SharedMarked.Keys, SharedRank)
    ensures "ui.cs" !in SharedMarked
    ensures forall a | a in SharedMarked :: "ui.cs" !in Reach(SharedDeps, SharedMarked.Keys, SharedRank, a)
  {
    assert !Followed("ui.cs", SharedMarked.Keys) by { assert "ui.cs"[2..] == ".cs"; }
    forall a | a in SharedMarked ensures "ui.cs" !in Reach(SharedDeps, SharedMarked.Keys, SharedRank, a) {
      ReachedAreFollowedContra(a);
    }
  }

  lemma ReachedAreFollowedContra(a: string)
    requires Ranked(SharedDeps, SharedMarked.Keys, SharedRank)
    requires !Followed("ui.cs", SharedMarked.Keys)
    ensures "ui.cs" !in Reach(SharedDeps, SharedMarked.Keys, SharedRank, a)
  {
    if "ui.cs" in Reach(SharedDeps, SharedMarked.Keys, SharedRank, a) {
      ReachedAreFollowed(SharedDeps, SharedMarked.Keys, SharedRank, a, "ui.cs");
    }
  }

  // x.mat and y.mat depend on each other, but the only marked asset, a.prefab, has no
  // dependencies: the walks never meet the cycle.

  function CycleDeps(t: string): seq<string> {
    if t == "x.mat" then ["y.mat"] else if t == "y.mat" then ["x.mat"] else []
  }

  const CycleManifest: seq<Bundle> := [Bundle("a", ["a.prefab"])]

  function Flat(t: string): nat { 0 }

  /** The graph as a whole has no rank. */
  lemma CycleHasNoRank(rank: string -> nat)
    ensures !Ranked(CycleDeps, {"a.prefab"}, rank)
  {
    assert "x.mat"[2..] == "mat" && "y.mat"[2..] == "mat";
    assert Followed(CycleDeps("x.mat")[0], {"a.prefab"}) && Followed(CycleDeps("y.mat")[0], {"a.prefab"});
  }

  /** Yet a scan of it meets the checker's precondition: the region of the walks is
      a.prefab alone. */
  lemma CycleOutsideRegion()
    ensures ManifestAssets(CycleManifest) == {"a.prefab"}
    ensures Closed(CycleDeps, ManifestAssets(CycleManifest), iset{"a.prefab"})
    ensures Ranked(Restrict(CycleDeps, iset{"a.prefab"}), ManifestAssets(CycleManifest), Flat)
  {
    assert CycleManifest[0].assets[0] == "a.prefab";
  }

  // a.prefab is listed twice, and its walk would enter the cycle y.mat <-> z.mat: no
  // region and rank admit the walk, but the scan fails on the manifest before walking.

  function LoopDeps(t: string): seq<string> {
    if t == "a.prefab" then ["y.mat"] else if t == "y.mat" then ["z.mat"] else if t == "z.mat" then ["y.mat"] else []
  }

  const TwiceManifest: seq<Bundle> := [Bundle("A", ["a.prefab", "a.prefab"])]

  lemma TwiceListed()
    ensures !UniquelyMarked(TwiceManifest)
    ensures ManifestAssets(TwiceManifest) == {"a.prefab"}
  {
    assert IsPosition(TwiceManifest, 0, 0) && IsPosition(TwiceManifest, 0, 1);
    assert TwiceManifest[0].assets[0] == TwiceManifest[0].assets[1] == "a.prefab";
  }

  /** Every closed region around a.prefab holds the cycle, so it has no rank. */
  lemma LoopHasNoRegion(region: iset<string>, rank: string -> nat)
    requires "a.prefab" in region && Closed(LoopDeps, {"a.prefab"}, region)
    ensures !Ranked(Restrict(LoopDeps, region), {"a.prefab"}, rank)
  {
    assert "y.mat"[2..] == "mat" && "z.mat"[2..] == "mat";
    assert Followed(LoopDeps("a.prefab")[0], {"a.prefab"});
    assert Followed(LoopDeps("y.mat")[0], {"a.prefab"}) && Followed(LoopDeps("z.mat")[0], {"a.prefab"});
    assert "y.mat" in region && "z.mat" in region;
    assert Restrict(LoopDeps, region)("y.mat") == ["z.mat"];
    assert Restrict(LoopDeps, region)("z.mat") == ["y.mat"];
  }

  /** Still the checker accepts the manifest, with any region, and reports the duplicate. */
  method TwiceListedScanFails(size: string -> nat) returns (ok: bool)
    ensures !ok
  {
    var checker := new ABMarkDupChecker();
    TwiceListed();
    ok := checker.CheckDuplicate(TwiceManifest, LoopDeps, size, iset{}, Flat);
  }
}
