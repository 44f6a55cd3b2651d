# Asset-bundle duplication checker (unityres build tools), modelled in Dafny

This project models the duplication report that the unityres build tools
produce for a Unity project. The report answers one question: which assets
are copied into more than one asset bundle, and how many bytes could be
saved?

`ABMarkDupChecker.CheckDuplicate` works in these steps:

1. It builds the dictionary from each marked asset (an asset explicitly
   assigned to a bundle) to its bundle.
2. From every marked asset, it walks the direct dependencies, recursively.
   Scripts (`.cs`) and other marked assets are skipped. Every other asset
   reached is recorded with the bundle it is pulled into and the assets
   that depend on it directly.
3. It adds one record per marked asset.
4. It sets each record's size, bundle count and reclaimable bytes. The
   reclaimable bytes are `size * (count - 1)`. Scenes (`.unity`) cost 0.
5. It adds the records to an `ABAssetinfos` registry, ranks them and
   totals them.

The registry keeps its records twice: as a list in report order and as a
dictionary keyed by asset path. It can write itself out as CSV rows and
read itself back.

Modules:

- `Wrappers`: `Option`, `Result`, `Outcome`.
- `Text`: ordinal string comparison, `EndsWith`, `Join`/`Split` on a
  one-character separator, `int.ToString`/`int.Parse`.
- `AssetRecords`: the `AssetInfo` record, the cost model, and the two
  totals `Sum` accumulates.
- `AssetRanking`: the report's comparer, and a sorted permutation as the
  specification of `Sort`.
- `AssetCsv`: the row format and the row-by-row loader.
- `AssetInfos`: the registry, as the class `ABAssetInfos`.
- `DependencyWalk`: the graph the walk explores, and what the walk reaches.
- `Attribution`: what any set of walk visits does to the working
  dictionary, in closed form.
- `MarkDupChecker`: the checker, as the class `ABMarkDupChecker`, and what
  a scan produces.
- `Scenarios`: concrete scans and probes:
  - the chain a→b→c from the source's own comment;
  - a texture shared by two bundles;
  - a cycle no marked asset reaches, and a manifest listing a path twice
    over a graph with a reachable cycle.

The editor's queries become parameters:

- `manifest` stands for the bundle names and the asset paths listed in
  each.
- `deps` stands for `AssetDatabase.GetDependencies(asset, false)`.
- `size` stands for the summed runtime memory of an asset's objects.

The recursive walk has no visited set. It terminates exactly when no
cycle of followed links can be reached from a marked asset; cycles
elsewhere in the graph do not matter. The scan therefore takes two ghost
parameters:

- `region`: a set of assets that holds the marked assets and everything a
  followed link leads to from inside it (`DependencyWalk.Closed`);
- `rank`: a number that strictly drops along every followed link inside
  the region (`DependencyWalk.Ranked`).

The walks are specified on `deps` cut down to the region
(`DependencyWalk.Restrict`). From inside the region, the cut-down graph has
exactly the same chains of followed links as the full graph
(`DependencyWalk.RestrictedWalk`), so every admissible region and rank
give the same scan table (`MarkDupChecker.ScanTableIndependent`). The
region and the rank are only needed when the manifest lists each path
once; otherwise the scan fails before walking.

Dictionary and hash-set enumeration order is unspecified in .NET. The
model therefore lets the walk and the costing loop pick keys in any order,
and proves the result does not depend on that order. The CSV writer takes
each set's enumeration as a caller-supplied sequence.

## Model

| member | source | states |
|---|---|---|
| Text.OrdinalCompareZero | res/ABAssetInfos.cs:42 | ordinal comparison reports equality exactly for equal strings |
| Text.OrdinalCompareAntisymmetric | res/ABAssetInfos.cs:42 | swapping the strings negates the ordinal comparison |
| Text.OrdinalCompareTransitive | res/ABAssetInfos.cs:42 | "not after" in ordinal order is transitive |
| Text.ParseIntToString | res/ABAssetInfos.cs:143-145 | `int.Parse` gives back every Int32 value `ToString` wrote (lines 119-121) |
| Text.SplitJoin | res/ABAssetInfos.cs:146-147 | splitting on ':' gives back the pieces joined with ':' (lines 122-123), provided there is at least one piece and none contains ':' |
| AssetRanking.Compare | res/ABAssetInfos.cs:28-43 | the sign of the comparison, -1, 0 or 1: a record with more reclaimable bytes, or as many and more memory, sorts first, and a record sorted first never reclaims less |
| AssetRanking.CompareZero | res/ABAssetInfos.cs:28-43 | the comparer returns 0 only when canSaveMemSize, memSize and asset are all equal |
| AssetRanking.DistinctAssetsNeverTie | res/ABAssetInfos.cs:28-43 | records with different asset paths never compare equal |
| AssetRanking.CompareAntisymmetric | res/ABAssetInfos.cs:28-43 | Compare(x, y) == -Compare(y, x) |
| AssetRanking.CompareTransitive | res/ABAssetInfos.cs:28-43 | the comparer's "not after" is transitive, so it is a total preorder that `List.Sort` can use |
| AssetRanking.SortByRank | res/ABAssetInfos.cs:67-70 | the result is sorted by the comparer and is a permutation (same multiset) of the input |
| AssetRanking.SortedPermutationUnique | res/ABAssetInfos.cs:67-70 | two sorted permutations of one list with distinct asset paths are equal, so an unstable sort still gives a deterministic report |
| AssetInfos.SameRecords | res/ABAssetInfos.cs:56-60 | two consistent lists over the same dictionary hold the same records |
| AssetInfos.ReportDeterministic | res/ABAssetInfos.cs:67-70 | two consistent, sorted lists over the same dictionary are equal: the order the dictionary was enumerated in when records were added (ABMarkDupChecker.cs:105-111) never shows in the report |
| AssetRecords.TotalsPermutationInvariant | res/ABAssetInfos.cs:72-81 | both totals are equal for any two lists with the same multiset, so sorting before Sum does not change them |
| AssetRecords.TotalsBounded | res/ABAssetInfos.cs:76-81 | over records priced by the checker's cost model, 0 <= canSaveSum <= allSize |
| AssetRecords.SingleBundleSavesNothing | res/ABMarkDupChecker.cs:109-110 | a priced record in exactly one bundle has count 1 and reclaims nothing |
| AssetRecords.TwoBundlesSaveOneCopy | res/ABMarkDupChecker.cs:109-110 | a priced record in exactly two bundles has count 2 and reclaims one copy of its size |
| AssetInfos.ABAssetInfos.constructor | res/ABAssetInfos.cs:48-52 | a new registry has an empty list, an empty dictionary and zero totals, and is consistent |
| AssetInfos.ABAssetInfos.Add | res/ABAssetInfos.cs:56-60 | always appends to the list; ok iff the path is new, in which case the dictionary gains it and Get finds it; a repeated path leaves the dictionary unchanged after the append, as the throwing insert does; a consistent registry stays consistent after a successful Add |
| AssetInfos.ABAssetInfos.Get | res/ABAssetInfos.cs:62-65 | a hit iff the path is a dictionary key, and the hit is that key's record; on a consistent registry, a hit iff some listed record has that path, and the hit is that listed record |
| AssetInfos.ABAssetInfos.Sort | res/ABAssetInfos.cs:67-70 | the list becomes sorted and is a permutation of the old list; the dictionary and the list's totals are unchanged; consistency is kept |
| AssetInfos.ABAssetInfos.Sum | res/ABAssetInfos.cs:72-81 | canSaveSum and allSize become the sums of canSaveMemSize and of memSize*containingABCount over the list, whatever they held before |
| AssetInfos.ABAssetInfos.SaveToCsv | res/ABAssetInfos.cs:90-127 | the output is the summary row, then the column labels, then one encoded row per record in list order |
| AssetInfos.ABAssetInfos.LoadFromCsv | res/ABAssetInfos.cs:131-152 | succeeds iff every row from index 2 decodes and no path repeats; on success the list is exactly the decoded rows in file order, the registry is consistent, and the totals are summed; on failure it reports the first bad row or the first repeated key |
| AssetCsv.EncodeRow | res/ABAssetInfos.cs:115-124 | a written row has one field per column label, the path first and the flag "1" exactly for a marked record; RowReadsBack reads it back |
| AssetCsv.DecodeRow | res/ABAssetInfos.cs:139-148 | a decoded row has at least seven fields and the record takes its path from the first; a short row fails at its first missing column, and a bad integer is reported at column 2, 3 or 4, the columns `int.Parse` reads |
| AssetCsv.DecodeRowCharacterized | res/ABAssetInfos.cs:139-148 | a row decodes iff it has at least 7 fields and fields 2-4 parse as Int32; the decoded record takes each field as written, with isMarked true only for "1" and the sets split on ':' |
| AssetCsv.SetRoundTrip | res/ABAssetInfos.cs:146-147 | a non-empty set of ':'-free paths, written in any enumeration order, reads back as the same set |
| AssetCsv.EmptySetReadsBackAsEmptyId | res/ABAssetInfos.cs:146-147 | an empty set is written as "" and reads back as {""} |
| AssetCsv.RowRoundTrip | res/ABAssetInfos.cs:115-148 | a record with Int32 counters and non-empty ':'-free sets decodes back from its written row |
| AssetCsv.MarkedRecordGainsEmptyParent | res/ABAssetInfos.cs:123-147 | a record with no parents (every marked record) reads back with the parent "", so it differs from the record saved |
| AssetCsv.SetReadsBack | res/ABAssetInfos.cs:146-147 | any set of ':'-free ids, written in any enumeration order, reads back as itself, or as {""} when it is empty |
| AssetCsv.RowReadsBack | res/ABAssetInfos.cs:115-148 | a record with Int32 counters and ':'-free ids decodes from its written row as the record with both sets read back |
| AssetCsv.SaveLoadReadsBack | res/ABAssetInfos.cs:113-150 | rows written for any records with distinct paths, Int32 counters and ':'-free ids (every report whose ids contain no ':', marked records included) load back as those records in order, each with its sets read back |
| AssetCsv.LoadRowsSuccess | res/ABAssetInfos.cs:136-149 | a successful load has one record per data row, in file order, each being that row's decoding, with distinct paths |
| AssetCsv.LoadFrom | res/ABAssetInfos.cs:136-150 | loading from row i fails only at a row from i on; on success the records read so far are kept in front and one record is added per remaining row |
| AssetCsv.LoadRows | res/ABAssetInfos.cs:136-150 | the two header rows are never decoded, so a failure names a data row; a success has one record per data row |
| AssetCsv.SaveLoadRoundTrip | res/ABAssetInfos.cs:113-150 | rows written for distinct, round-tripping records load back as exactly those records in the same order |
| MarkDupChecker.MarkedAssetToBundle | res/ABMarkDupChecker.cs:79-86 | succeeds iff no path is listed twice in the manifest; on success the keys are all listed paths and each maps to the bundle that lists it; on failure the reported path is listed at two positions |
| MarkDupChecker.CalcSize | res/ABMarkDupChecker.cs:45-50 | a scene costs 0; any other asset costs its measured size |
| MarkDupChecker.WithCost | res/ABMarkDupChecker.cs:108-110 | pricing sets the size, sets the count to the number of bundles and the reclaimable bytes to size*(count-1); path, flag, bundles and parents are unchanged |
| MarkDupChecker.MarkedEntry | res/ABMarkDupChecker.cs:97-98 | a marked record of its own path, in the declaring bundle only, with no parents; priced at any size it counts one bundle and reclaims nothing |
| DependencyWalk.EdgesCharacterized | res/ABMarkDupChecker.cs:23-40 | a walk from t records the link (p, x) iff p is t or is reached from t, x is a direct dependency of p, and x is followed (not a script, not marked) |
| DependencyWalk.ReachIffWalk | res/ABMarkDupChecker.cs:21-43 | the walk from t reaches x iff a chain of followed direct-dependency links leads from t to x |
| DependencyWalk.RestrictedWalk | res/ABMarkDupChecker.cs:23-40 | from an asset of a closed region, a sequence is a chain of followed links of the cut-down graph iff it is one of the full graph |
| DependencyWalk.RestrictedReach | res/ABMarkDupChecker.cs:21-43 | a walk started in a closed region reaches x on the cut-down graph iff a chain of followed links of the full graph leads to x |
| DependencyWalk.RegionStep | res/ABMarkDupChecker.cs:25-40 | a followed dependency of an asset in a closed region is in the region, with a lower rank, so the recursion at line 40 stays in the region and terminates |
| DependencyWalk.WholeGraph | res/ABMarkDupChecker.cs:21-43 | a graph acyclic as a whole meets the scan's requirement with every asset in the region |
| DependencyWalk.EdgesByWalks | res/ABMarkDupChecker.cs:23-40 | the links a walk from t records are the followed links out of t and out of the assets a chain leads to from t, stated without the rank |
| DependencyWalk.RestrictedEdges | res/ABMarkDupChecker.cs:23-40 | from an asset of a closed region, the walk on the cut-down graph records exactly those links of the full graph, whatever the region and the rank |
| DependencyWalk.ReachedAreFollowed | res/ABMarkDupChecker.cs:25 | everything the walk reaches is neither a script nor a marked asset |
| MarkDupChecker.CollectWalkClosedForm | res/ABMarkDupChecker.cs:21-43 | the recursive walk's effect equals applying the visits (bundle, parent, child) of every link it records, independent of visiting order |
| MarkDupChecker.CollectWalk | res/ABMarkDupChecker.cs:21-43 | the dictionary after the walk, step by step as the method builds it: no record is dropped, and every record added is for a followed asset (not a script, not marked) |
| MarkDupChecker.CollectWalkDirect | res/ABMarkDupChecker.cs:23-39 | every followed direct dependency of t ends up with a record holding t's bundle and t as a parent; a record the walk creates is an unmarked record for that path |
| MarkDupChecker.CollectWalkReaches | res/ABMarkDupChecker.cs:40 | the recursion carries the bundle down: every reached asset's record holds it |
| MarkDupChecker.CollectWalkGrows | res/ABMarkDupChecker.cs:28-32 | an existing record survives the walk, only gains bundles and parents, and keeps every other field |
| MarkDupChecker.CollectWalkUntouched | res/ABMarkDupChecker.cs:25 | the walk neither creates nor changes the record of an asset it does not reach, nor of a script or marked asset |
| MarkDupChecker.ABMarkDupChecker.constructor | res/ABMarkDupChecker.cs:9-11 | the checker starts with an empty marked dictionary, an empty working dictionary and no registry |
| MarkDupChecker.ABMarkDupChecker.IsMarked | res/ABMarkDupChecker.cs:13-16 | true exactly for the keys of the marked dictionary, which the walk never follows |
| MarkDupChecker.ABMarkDupChecker.CollectUnmarkedAsset | res/ABMarkDupChecker.cs:21-43 | the imperative walk, started from an asset of a closed region, leaves the working dictionary as the walk function's result on the cut-down graph, which CollectWalkClosedForm relates to the recorded links |
| MarkDupChecker.ABMarkDupChecker.CollectFromMarked | res/ABMarkDupChecker.cs:89-93 | after walking from every marked asset with its bundle, in any order, the dictionary is the closed form of all those walks' visits |
| MarkDupChecker.ABMarkDupChecker.AddMarkedEntries | res/ABMarkDupChecker.cs:95-100 | ok iff no marked path already has a record; then each marked path gets a marked record holding its own bundle only |
| MarkDupChecker.CollectedKeysUnmarked | res/ABMarkDupChecker.cs:95-100 | the walks never record a marked asset, so inserting the marked records cannot throw |
| MarkDupChecker.ABMarkDupChecker.BuildRegistry | res/ABMarkDupChecker.cs:89-112 | the walks, the marked records and the pricing leave the scan table in the working dictionary and in a fresh consistent registry |
| MarkDupChecker.ABMarkDupChecker.RegisterCosted | res/ABMarkDupChecker.cs:104-112 | every record is priced (size with the scene rule, count = number of bundles, reclaimable = size*(count-1)) and added to a fresh consistent registry whose dictionary equals the priced working dictionary |
| MarkDupChecker.ABMarkDupChecker.CheckDuplicate | res/ABMarkDupChecker.cs:77-115 | succeeds iff the manifest lists no path twice, and a manifest that does fails before any walk, whatever the region; otherwise, for any region closed around the listed assets with no cycle inside it, the marked dictionary is the manifest's, the working dictionary is the scan table of the cut-down graph, and the registry is fresh, consistent, indexes the scan table, is sorted by the comparer, and has 0 <= canSaveSum <= allSize as the sums over its list |
| MarkDupChecker.ABMarkDupChecker.ScanMarked | res/ABMarkDupChecker.cs:89-115 | from a marked dictionary and a region closed around it: the scan table of the cut-down graph, held in a sorted, summed, consistent registry with 0 <= canSaveSum <= allSize |
| MarkDupChecker.ScanVisitsOf | res/ABMarkDupChecker.cs:89-93 | across all walks, x is visited iff some marked asset's walk reaches it; it is visited under bundle bn iff a marked asset of bn reaches it; it is visited from p iff some walk links p to x |
| MarkDupChecker.ScanTableKeys | res/ABMarkDupChecker.cs:89-100 | the report lists exactly the marked assets and the assets some marked asset's walk reaches |
| MarkDupChecker.ScanTableMarked | res/ABMarkDupChecker.cs:95-112 | a marked asset's record is marked, sized by CalcSize, in its own bundle only (count 1, nothing to reclaim), and has no parents |
| MarkDupChecker.ScanTableUnmarked | res/ABMarkDupChecker.cs:28-39 | an unmarked record is not marked and not a script; it is in exactly the bundles of the marked assets whose walks reach it, and is priced from that count |
| MarkDupChecker.ScanTableParents | res/ABMarkDupChecker.cs:18-20 | an unmarked asset's parents are exactly the assets that directly depend on it on some marked asset's walk |
| MarkDupChecker.ScanTableDirectDependency | res/ABMarkDupChecker.cs:23-37 | a followed direct dependency of a marked asset is in the report, in that asset's bundle, with that asset as a parent |
| MarkDupChecker.ScanTableBundlesNamed | res/ABMarkDupChecker.cs:90-99 | every bundle a record names is the bundle of some marked asset |
| MarkDupChecker.ScanTableCosts | res/ABMarkDupChecker.cs:105-112 | every record of a scan is keyed by its path, sized by CalcSize, and priced by the cost model (count = number of bundles >= 1, reclaimable = size*(count-1)) |
| MarkDupChecker.ScanTableTotalsBounded | res/ABMarkDupChecker.cs:108-115 | any list the scan table indexes has 0 <= canSaveSum <= allSize |
| MarkDupChecker.ScanTableIndependent | res/ABMarkDupChecker.cs:89-112 | any two regions closed around the marked assets, each with a rank, give the same scan table, so the result does not depend on the ghost choice |
| MarkDupChecker.ScanTableWholeGraph | res/ABMarkDupChecker.cs:89-112 | on a graph acyclic as a whole, every admissible region gives the whole-graph scan table that the scenarios compute |
| Scenarios.DirectDependenciesOnly | res/ABMarkDupChecker.cs:18-20 | with a→b→c and a, b marked in bundles A and B, c is charged to B only, not A |
| Scenarios.ChainSavesNothing | res/ABMarkDupChecker.cs:18-20 | in that chain, c has count 1 and reclaims nothing |
| Scenarios.ChainParents | res/ABMarkDupChecker.cs:18-20 | in that chain, c's only parent is b |
| Scenarios.SharedDependency | res/ABMarkDupChecker.cs:89-99 | a texture used by marked prefabs in bundles ui and hud is recorded in exactly {ui, hud} |
| Scenarios.SharedDependencySavesOneCopy | res/ABMarkDupChecker.cs:108-110 | that texture has count 2 and can reclaim exactly its own size |
| Scenarios.ScriptsAreSkipped | res/ABMarkDupChecker.cs:25 | a script dependency of a marked prefab gets no record |
| Scenarios.CycleHasNoRank | res/ABMarkDupChecker.cs:21-43 | a graph where x.mat and y.mat depend on each other has no rank as a whole |
| Scenarios.CycleOutsideRegion | res/ABMarkDupChecker.cs:89-93 | with only a.prefab marked and no dependencies of its own, that graph still meets the scan's requirement, with the region {a.prefab} |
| Scenarios.TwiceListed | res/ABMarkDupChecker.cs:79-86 | a bundle listing a.prefab twice is a manifest with a repeated path |
| Scenarios.LoopHasNoRegion | res/ABMarkDupChecker.cs:21-43 | if a.prefab depends on y.mat and y.mat and z.mat depend on each other, every closed region around a.prefab holds that cycle and has no rank |
| Scenarios.TwiceListedScanFails | res/ABMarkDupChecker.cs:79-86 | the scan of that manifest over that graph is allowed with any region, and fails on the repeated path before any walk |

## Left out

- Unity editor APIs are not modelled: `AssetDatabase`, `Profiler`,
  `LoadAllAssetsAtPath`, `Resources.UnloadAsset`/`UnloadUnusedAssets`, and
  `Debug.Log`/`LogError`. The manifest, the direct dependencies and the
  measured size are parameters.
- File I/O and the CSV layer (`StreamWriter`, `CSV.Parse`, the comma join
  of each row) are not modelled. A file is a sequence of rows, each a
  sequence of fields, so quoting and commas inside a field are out of
  scope. The call to `SaveToCsv` at the end of `CheckDuplicate`
  (ABMarkDupChecker.cs:122) is not part of the modelled scan.
- The display strings are not modelled: the percentage (a `double`
  formatted with "0.00"), `sumStr` and `ToolUtils.readableSize`.
  `SaveToCsv` takes the formatter and the percentage text as parameters.
- The unused `isNeedMark` flag is not modelled.
- Machine integers are not modelled. The sizes, counts and totals are
  unbounded:
  - the `(int)` cast of the `long` size;
  - the Int32 products `memSize*(count-1)` and `memSize*count`;
  - the `long` totals.

  The only Int32 bound kept is the range `int.Parse` accepts.
- AssetRanking.Compare: returns only the sign of the comparison. It
  compares with `<` and `>` where the source subtracts two `int` values,
  and that subtraction can overflow for sizes far apart.
- Text.ParseInt: accepts an optional sign followed by decimal digits.
  It does not model .NET's acceptance of surrounding whitespace or its
  culture settings.
- Text.EndsWith: an ordinal suffix test. `string.EndsWith` with one
  argument is culture-sensitive.
- Strings are sequences of characters. There is no UTF-16 detail.
- Object aliasing is not modelled. In the source, a record is one object
  shared by the working dictionary and the registry, and pricing it
  updates both. `MarkDupChecker.ABMarkDupChecker.RegisterCosted` models
  records as values and stores the priced records back into the working
  dictionary after its loop.
- A failed `CheckDuplicate` (a path listed twice) stops with no further
  state promised. The source throws from the dictionary insert at that
  point, leaving the marked dictionary partly filled.
- `LoadFromCsv` promises no list state after a failure. The source throws
  mid-load, leaving the rows read so far, plus the duplicate if that was
  the cause.
- The source does not guard against a cycle of followed links reachable
  from a marked asset. The walk recurses without a visited set and never
  returns there. The model has no such run: for a manifest that lists
  each path once, `CheckDuplicate` requires a closed region around the
  marked assets with a rank inside it. A manifest that lists a path twice
  fails before any walk and needs no region. Such a
  region exists whenever the walks terminate: the assets they reach, each
  ranked by the length of the longest walk from it.
- In two places the code does not do what the report format is meant to
  do, and the model follows the code:
  - A record with an empty set (every marked record has no parents) does
    not round-trip. Splitting "" yields {""}
    (`AssetCsv.MarkedRecordGainsEmptyParent`). `AssetCsv.SaveLoadReadsBack`
    states what such a report loads back as.
  - A row with more than seven fields loads, and the extra fields are
    ignored. Only a missing field or a bad integer is a parse error.
