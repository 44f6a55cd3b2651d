/**
 * The AssetInfo record (one row of the duplication report) and the aggregate
 * totals that ABAssetinfos.Sum accumulates over the registry's list.
 */
module AssetRecords {

  /** One asset met during the scan. The unused isNeedMark flag is not modelled. */
  datatype AssetInfo = AssetInfo(
    asset: string,
    isMarked: bool,
    memSize: int,
    canSaveMemSize: int,
    containingABCount: int,
    containingABs: set<string>,
    directContainingAssets: set<string>)

  /** The cost fields as the duplicate checker sets them: one count per bundle,
      and every embedding beyond the first reclaimable. */
  predicate WellCosted(ai: AssetInfo) {
    && ai.containingABCount == |ai.containingABs|
    && ai.containingABCount >= 1
    && ai.memSize >= 0
    && ai.canSaveMemSize == ai.memSize * (ai.containingABCount - 1)
  }

  /** No asset id occurs twice. */
  predicate DistinctAssets(s: seq<AssetInfo>) {
    forall i, j | 0 <= i < j < |s| :: s[i].asset != s[j].asset
  }

  /** Σ canSaveMemSize, accumulated front to back. */
  function TotalCanSave(s: seq<AssetInfo>): int {
    if s == [] then 0 else TotalCanSave(s[..|s| - 1]) + s[|s| - 1].canSaveMemSize
  }

  /** Σ memSize * containingABCount, accumulated front to back. */
  function TotalAllSize(s: seq<AssetInfo>): int {
    if s == [] then 0
    else TotalAllSize(s[..|s| - 1]) + s[|s| - 1].memSize * s[|s| - 1].containingABCount
  }

  lemma {:induction false} TotalsAppend(a: seq<AssetInfo>, b: seq<AssetInfo>)
    ensures TotalCanSave(a + b) == TotalCanSave(a) + TotalCanSave(b)
    ensures TotalAllSize(a + b) == TotalAllSize(a) + TotalAllSize(b)
    decreases |b|
  {
    if b != [] {
      var b' := b[..|b| - 1];
      assert (a + b)[..|a + b| - 1] == a + b';
      TotalsAppend(a, b');
    } else {
      assert a + b == a;
    }
  }

  /** The totals do not depend on the order of the list, so Sort never changes them. */
  lemma {:induction false} TotalsPermutationInvariant(a: seq<AssetInfo>, b: seq<AssetInfo>)
    requires multiset(a) == multiset(b)
    ensures TotalCanSave(a) == TotalCanSave(b) && TotalAllSize(a) == TotalAllSize(b)
    decreases |a|
  {
    if a != [] {
      var x := a[|a| - 1];
      var a' := a[..|a| - 1];
      assert a == a' + [x];
      assert multiset(a) == multiset(a') + multiset{x};
      assert x in multiset(b);
      var k :| 0 <= k < |b| && b[k] == x;
      var b' := b[..k] + b[k + 1..];
      RemoveAt(b, k);
      TotalsWithout(b, k);
      TotalsPermutationInvariant(a', b');
    } else {
      assert b == [];
    }
  }

  /** Taking out the k-th record removes its share of both totals. */
  lemma TotalsWithout(b: seq<AssetInfo>, k: nat)
    requires k < |b|
    ensures TotalCanSave(b) == TotalCanSave(b[..k] + b[k + 1..]) + b[k].canSaveMemSize
    ensures TotalAllSize(b) == TotalAllSize(b[..k] + b[k + 1..]) + b[k].memSize * b[k].containingABCount
  {
    SplitAt(b, k);
    TotalsSplit(b[..k], b[k], b[k + 1..]);
  }

  lemma SplitAt<T>(b: seq<T>, k: nat)
    requires k < |b|
    ensures b == b[..k] + [b[k]] + b[k + 1..]
  {
  }

  lemma RemoveAt<T>(b: seq<T>, k: nat)
    requires k < |b|
    ensures multiset(b[..k] + b[k + 1..]) == multiset(b) - multiset{b[k]}
  {
    assert b == b[..k] + [b[k]] + b[k + 1..];
  }

  lemma TotalsSplit(p: seq<AssetInfo>, x: AssetInfo, q: seq<AssetInfo>)
    ensures TotalCanSave(p + [x] + q) == TotalCanSave(p + q) + x.canSaveMemSize
    ensures TotalAllSize(p + [x] + q) == TotalAllSize(p + q) + x.memSize * x.containingABCount
  {
    TotalsAppend(p, [x]);
    TotalsAppend(p + [x], q);
    TotalsAppend(p, q);
    TotalsOfOne(x);
  }

  lemma TotalsOfOne(x: AssetInfo)
    ensures TotalCanSave([x]) == x.canSaveMemSize
    ensures TotalAllSize([x]) == x.memSize * x.containingABCount
  {
    assert [x][..0] == [];
  }

  lemma CostBounds(ai: AssetInfo)
    requires WellCosted(ai)
    ensures 0 <= ai.canSaveMemSize <= ai.memSize * ai.containingABCount
  {
    var m, c := ai.memSize, ai.containingABCount;
    assert m * (c - 1) == m * c - m;
    assert m * (c - 1) >= 0 by {
      assert c - 1 >= 0;
    }
  }

  /** With the checker's cost model, the reclaimable total never exceeds the total footprint. */
  lemma {:induction false} TotalsBounded(s: seq<AssetInfo>)
    requires forall i | 0 <= i < |s| :: WellCosted(s[i])
    ensures 0 <= TotalCanSave(s) <= TotalAllSize(s)
  {
    if s != [] {
      TotalsBounded(s[..|s| - 1]);
      CostBounds(s[|s| - 1]);
    }
  }

  /** A record that is embedded in exactly one bundle has nothing to reclaim. */
  lemma SingleBundleSavesNothing(ai: AssetInfo)
    requires WellCosted(ai) && |ai.containingABs| == 1
    ensures ai.containingABCount == 1 && ai.canSaveMemSize == 0
  {
  }

  /** A record embedded in exactly two bundles can reclaim one copy of itself. */
  lemma TwoBundlesSaveOneCopy(ai: AssetInfo)
    requires WellCosted(ai) && |ai.containingABs| == 2
    ensures ai.containingABCount == 2 && ai.canSaveMemSize == ai.memSize
  {
  }
}
