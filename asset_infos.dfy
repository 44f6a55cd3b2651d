/**
 * ABAssetinfos: the report registry. It keeps the records twice, as a list in
 * report order and as a dictionary keyed by asset id, plus the two totals.
 */
module AssetInfos {
  import opened Wrappers
  import opened AssetRecords
  import opened AssetRanking
  import opened AssetCsv

  /** The dictionary indexes exactly the records of the list, each record once. */
  ghost predicate Indexes(list: seq<AssetInfo>, index: map<string, AssetInfo>) {
    && (forall x | x in list :: x.asset in index && index[x.asset] == x)
    && (forall k | k in index :: index[k].asset == k && index[k] in list)
    && (forall x :: multiset(list)[x] <= 1)
  }

  lemma RepeatedElementCount(s: seq<AssetInfo>, i: nat, j: nat)
    requires i < j < |s|
    ensures s[i] == s[j] ==> multiset(s)[s[i]] >= 2
  {
    assert s == s[..j] + [s[j]] + s[j + 1..];
    assert s[i] in s[..j];
    assert multiset(s) == multiset(s[..j]) + multiset{s[j]} + multiset(s[j + 1..]);
  }

  lemma IndexedAssetsDistinct(list: seq<AssetInfo>, index: map<string, AssetInfo>)
    requires Indexes(list, index)
    ensures DistinctAssets(list)
  {
    forall i, j | 0 <= i < j < |list| ensures list[i].asset != list[j].asset {
      assert index[list[i].asset] == list[i] && index[list[j].asset] == list[j];
      RepeatedElementCount(list, i, j);
    }
  }

  /** A consistent registry's keys are exactly the ids of its listed records. */
  lemma IndexedKeysAreListAssets(list: seq<AssetInfo>, index: map<string, AssetInfo>, k: string)
    ensures Indexes(list, index) ==> (k in index <==> HasAsset(list, k))
  {
    if Indexes(list, index) && k in index {
      var i :| 0 <= i < |list| && list[i] == index[k];
    }
  }

  lemma IndexesAppend(list: seq<AssetInfo>, index: map<string, AssetInfo>, ai: AssetInfo)
    requires Indexes(list, index) && ai.asset !in index
    ensures Indexes(list + [ai], index[ai.asset := ai])
  {
    var list', index' := list + [ai], index[ai.asset := ai];
    assert ai !in list;
    assert multiset(list') == multiset(list) + multiset{ai};
    forall x | x in list' ensures x.asset in index' && index'[x.asset] == x {
      if x != ai { assert x in list; }
    }
  }

  lemma IndexesPermuted(list: seq<AssetInfo>, list': seq<AssetInfo>, index: map<string, AssetInfo>)
    requires Indexes(list, index) && multiset(list') == multiset(list)
    ensures Indexes(list', index)
  {
    forall x | x in list' ensures x in list { assert x in multiset(list'); }
    forall x | x in list ensures x in list' { assert x in multiset(list); }
  }

  /** Two consistent lists over one dictionary hold the same records. */
  lemma SameRecords(l1: seq<AssetInfo>, l2: seq<AssetInfo>, index: map<string, AssetInfo>)
    requires Indexes(l1, index) && Indexes(l2, index)
    ensures multiset(l1) == multiset(l2)
  {
    forall x ensures multiset(l1)[x] == multiset(l2)[x] {
      assert x in l1 ==> index[x.asset] == x && index[x.asset] in l2;
      assert x in l2 ==> index[x.asset] == x && index[x.asset] in l1;
      assert multiset(l1)[x] <= 1 && multiset(l2)[x] <= 1;
    }
  }

  /** The report's order is determined by its dictionary: two consistent, sorted lists
      over the same dictionary are equal, whatever order the records were added in. */
  lemma ReportDeterministic(l1: seq<AssetInfo>, l2: seq<AssetInfo>, index: map<string, AssetInfo>)
    requires Indexes(l1, index) && Indexes(l2, index) && Sorted(l1) && Sorted(l2)
    ensures l1 == l2
  {
    IndexedAssetsDistinct(l1, index);
    SameRecords(l1, l2, index);
    SortedPermutationUnique(l1, l2);
  }

  class ABAssetInfos {
    var sortedAllAssetInfos: seq<AssetInfo>
    var allAssetInfoMap: map<string, AssetInfo>
    var canSaveSum: int
    var allSize: int

    ghost predicate Valid()
      reads this
    {
      Indexes(sortedAllAssetInfos, allAssetInfoMap)
    }

    constructor ()
      ensures Valid()
      ensures sortedAllAssetInfos == [] && allAssetInfoMap == map[]
      ensures canSaveSum == 0 && allSize == 0
    {
      sortedAllAssetInfos := [];
      allAssetInfoMap := map[];
      canSaveSum := 0;
      allSize := 0;
    }

    /** Appends to the list, then inserts into the dictionary. A key already present
        makes the dictionary insert throw after the append: ok is false and the list
        keeps the extra record. */
    method Add(ai: AssetInfo) returns (ok: bool)
      modifies this
      ensures ok <==> ai.asset !in old(allAssetInfoMap)
      ensures sortedAllAssetInfos == old(sortedAllAssetInfos) + [ai]
      ensures allAssetInfoMap == if ok then old(allAssetInfoMap)[ai.asset := ai] else old(allAssetInfoMap)
      ensures canSaveSum == old(canSaveSum) && allSize == old(allSize)
      ensures ok && old(Valid()) ==> Valid() && Get(ai.asset) == Some(ai)
    {
      if old(Valid()) && ai.asset !in allAssetInfoMap {
        IndexesAppend(sortedAllAssetInfos, allAssetInfoMap, ai);
      }
      sortedAllAssetInfos := sortedAllAssetInfos + [ai];
      ok := ai.asset !in allAssetInfoMap;
      if ok {
        allAssetInfoMap := allAssetInfoMap[ai.asset := ai];
      }
    }

    /** Dictionary lookup; on a consistent registry the hit is the list's record with that id. */
    function Get(path: string): (r: Option<AssetInfo>)
      reads this
      ensures r.Some? <==> path in allAssetInfoMap
      ensures r.Some? ==> r.value == allAssetInfoMap[path]
      ensures Valid() ==> (r.Some? <==> HasAsset(sortedAllAssetInfos, path))
      ensures Valid() && r.Some? ==> r.value in sortedAllAssetInfos && r.value.asset == path
    {
      IndexedKeysAreListAssets(sortedAllAssetInfos, allAssetInfoMap, path);
      if path in allAssetInfoMap then Some(allAssetInfoMap[path]) else None
    }

    /** Reorders the list by the ranking; the dictionary and the totals stay as they were. */
    method Sort()
      modifies this
      ensures Sorted(sortedAllAssetInfos)
      ensures multiset(sortedAllAssetInfos) == multiset(old(sortedAllAssetInfos))
      ensures TotalCanSave(sortedAllAssetInfos) == TotalCanSave(old(sortedAllAssetInfos))
      ensures TotalAllSize(sortedAllAssetInfos) == TotalAllSize(old(sortedAllAssetInfos))
      ensures allAssetInfoMap == old(allAssetInfoMap)
      ensures canSaveSum == old(canSaveSum) && allSize == old(allSize)
      ensures old(Valid()) ==> Valid()
    {
      var sorted := SortByRank(sortedAllAssetInfos);
      TotalsPermutationInvariant(sorted, sortedAllAssetInfos);
      if Valid() {
        IndexesPermuted(sortedAllAssetInfos, sorted, allAssetInfoMap);
      }
      sortedAllAssetInfos := sorted;
    }

    /** Resets both totals and accumulates them over the list, so repeated calls agree. */
    method Sum()
      modifies this`canSaveSum, this`allSize
      ensures canSaveSum == TotalCanSave(sortedAllAssetInfos)
      ensures allSize == TotalAllSize(sortedAllAssetInfos)
    {
      canSaveSum := 0;
      allSize := 0;
      var i := 0;
      while i < |sortedAllAssetInfos|
        invariant 0 <= i <= |sortedAllAssetInfos|
        invariant canSaveSum == TotalCanSave(sortedAllAssetInfos[..i])
        invariant allSize == TotalAllSize(sortedAllAssetInfos[..i])
      {
        var ai := sortedAllAssetInfos[i];
        assert sortedAllAssetInfos[..i + 1][..i] == sortedAllAssetInfos[..i];
        canSaveSum := canSaveSum + ai.canSaveMemSize;
        allSize := allSize + ai.memSize * ai.containingABCount;
        i := i + 1;
      }
      assert sortedAllAssetInfos[..i] == sortedAllAssetInfos;
    }

    /** The rows written to the report file: the summary row, the column labels, then one
        row per record in list order. abs[k] and parents[k] are the enumerations of the
        k-th record's two sets; readableSize and canSavePercent are external formatting. */
    method SaveToCsv(readableSize: int -> string, canSavePercent: string,
                     abs: seq<seq<string>>, parents: seq<seq<string>>) returns (lines: seq<seq<string>>)
      requires |abs| == |sortedAllAssetInfos| && |parents| == |sortedAllAssetInfos|
      requires forall k | 0 <= k < |sortedAllAssetInfos| ::
        Enumerates(abs[k], sortedAllAssetInfos[k].containingABs)
        && Enumerates(parents[k], sortedAllAssetInfos[k].directContainingAssets)
      ensures |lines| == |sortedAllAssetInfos| + 2
      ensures lines[0] == SummaryRow(readableSize(allSize), readableSize(canSaveSum), canSavePercent,
                                     |sortedAllAssetInfos|)
      ensures lines[1] == ColumnLabels
      ensures forall k | 0 <= k < |sortedAllAssetInfos| ::
        lines[k + 2] == EncodeRow(sortedAllAssetInfos[k], abs[k], parents[k])
    {
      lines := [SummaryRow(readableSize(allSize), readableSize(canSaveSum), canSavePercent,
                           |sortedAllAssetInfos|)];
      lines := lines + [ColumnLabels];
      var k := 0;
      while k < |sortedAllAssetInfos|
        invariant 0 <= k <= |sortedAllAssetInfos|
        invariant |lines| == k + 2
        invariant lines[0] == SummaryRow(readableSize(allSize), readableSize(canSaveSum), canSavePercent,
                                         |sortedAllAssetInfos|)
        invariant lines[1] == ColumnLabels
        invariant forall j | 0 <= j < k :: lines[j + 2] == EncodeRow(sortedAllAssetInfos[j], abs[j], parents[j])
      {
        lines := lines + [EncodeRow(sortedAllAssetInfos[k], abs[k], parents[k])];
        k := k + 1;
      }
    }

    /** Clears both collections, adds one record per row from index 2 on (the header rows
        are never decoded), then runs Sum; it does not sort. A bad row or a repeated id
        aborts the load. */
    method LoadFromCsv(lines: seq<seq<string>>) returns (r: Outcome<LoadError>)
      modifies this
      ensures r.Pass? <==> LoadRows(lines).Success?
      ensures r.Fail? ==> r.error == LoadRows(lines).error
      ensures r.Pass? ==> Valid() && sortedAllAssetInfos == LoadRows(lines).value
      ensures r.Pass? ==>
        canSaveSum == TotalCanSave(sortedAllAssetInfos) && allSize == TotalAllSize(sortedAllAssetInfos)
    {
      sortedAllAssetInfos := [];
      allAssetInfoMap := map[];
      var i := 2;
      while i < |lines|
        invariant 2 <= i
        invariant Valid()
        invariant LoadFrom(DecodeRow, lines, i, sortedAllAssetInfos) == LoadRows(lines)
      {
        var row := DecodeRow(lines[i]);
        if row.Failure? {
          return Fail(ParseError(i, row.error));
        }
        var ai := row.value;
        IndexedKeysAreListAssets(sortedAllAssetInfos, allAssetInfoMap, ai.asset);
        var ok := Add(ai);
        if !ok {
          return Fail(DuplicateKey(i, ai.asset));
        }
        i := i + 1;
      }
      Sum();
      return Pass;
    }
  }
}
