/**
 * The report's ranking (ABAssetinfos.Comparer): reclaimable size descending,
 * then memory size descending, then asset id ascending by ordinal comparison.
 * The comparer is reduced to its sign and uses comparisons instead of the
 * original's `int` subtraction.
 */
module AssetRanking {
  import opened Text
  import opened AssetRecords

  /** Negative when x is listed before y: the larger reclaimable size first, then the
      larger memory size. */
  function Compare(x: AssetInfo, y: AssetInfo): (r: int)
    ensures -1 <= r <= 1
    ensures x.canSaveMemSize > y.canSaveMemSize ==> r < 0
    ensures x.canSaveMemSize == y.canSaveMemSize && x.memSize > y.memSize ==> r < 0
    ensures r < 0 ==> x.canSaveMemSize >= y.canSaveMemSize
  {
    if x.canSaveMemSize != y.canSaveMemSize then
      (if y.canSaveMemSize > x.canSaveMemSize then 1 else -1)
    else if x.memSize != y.memSize then
      (if y.memSize > x.memSize then 1 else -1)
    else OrdinalCompare(x.asset, y.asset)
  }

  /** Compare returns 0 only when all three keys agree, in particular only for the same asset id. */
  lemma CompareZero(x: AssetInfo, y: AssetInfo)
    ensures Compare(x, y) == 0 <==>
      x.canSaveMemSize == y.canSaveMemSize && x.memSize == y.memSize && x.asset == y.asset
  {
    OrdinalCompareZero(x.asset, y.asset);
  }

  /** Distinct asset ids are never tied, so the order is total over distinct keys. */
  lemma DistinctAssetsNeverTie(x: AssetInfo, y: AssetInfo)
    requires x.asset != y.asset
    ensures Compare(x, y) != 0
  {
    CompareZero(x, y);
  }

  lemma CompareAntisymmetric(x: AssetInfo, y: AssetInfo)
    ensures Compare(x, y) == -Compare(y, x)
  {
    OrdinalCompareAntisymmetric(x.asset, y.asset);
  }

  lemma CompareTransitive(x: AssetInfo, y: AssetInfo, z: AssetInfo)
    requires Compare(x, y) <= 0 && Compare(y, z) <= 0
    ensures Compare(x, z) <= 0
  {
    if x.canSaveMemSize == y.canSaveMemSize == z.canSaveMemSize && x.memSize == y.memSize == z.memSize {
      OrdinalCompareTransitive(x.asset, y.asset, z.asset);
    }
  }

  /** Earlier entries never compare after later ones. */
  ghost predicate Sorted(s: seq<AssetInfo>) {
    forall i, j | 0 <= i < j < |s| :: Compare(s[i], s[j]) <= 0
  }

  lemma SortedCons(x: AssetInfo, s: seq<AssetInfo>)
    requires Sorted(s)
    requires forall j | 0 <= j < |s| :: Compare(x, s[j]) <= 0
    ensures Sorted([x] + s)
  {
    var r := [x] + s;
    forall i, j | 0 <= i < j < |r| ensures Compare(r[i], r[j]) <= 0 {
      if i > 0 { assert r[i] == s[i - 1] && r[j] == s[j - 1]; }
    }
  }

  /** Places x before the first entry it does not compare after. */
  function Insert(x: AssetInfo, s: seq<AssetInfo>): (r: seq<AssetInfo>)
    requires Sorted(s)
    ensures Sorted(r) && multiset(r) == multiset(s) + multiset{x}
  {
    if s == [] then [x]
    else if Compare(x, s[0]) <= 0 then
      InsertFront(x, s);
      [x] + s
    else
      var tail := Insert(x, s[1..]);
      InsertAfterHead(x, s, tail);
      [s[0]] + tail
  }

  lemma InsertFront(x: AssetInfo, s: seq<AssetInfo>)
    requires Sorted(s) && s != [] && Compare(x, s[0]) <= 0
    ensures Sorted([x] + s) && multiset([x] + s) == multiset(s) + multiset{x}
  {
    forall j | 0 <= j < |s| ensures Compare(x, s[j]) <= 0 {
      if j > 0 { CompareTransitive(x, s[0], s[j]); }
    }
    SortedCons(x, s);
  }

  lemma InsertAfterHead(x: AssetInfo, s: seq<AssetInfo>, tail: seq<AssetInfo>)
    requires Sorted(s) && s != [] && Compare(x, s[0]) > 0
    requires Sorted(tail) && multiset(tail) == multiset(s[1..]) + multiset{x}
    ensures Sorted([s[0]] + tail) && multiset([s[0]] + tail) == multiset(s) + multiset{x}
  {
    CompareAntisymmetric(x, s[0]);
    forall j | 0 <= j < |tail| ensures Compare(s[0], tail[j]) <= 0 {
      assert tail[j] in multiset(tail);
      if tail[j] != x {
        assert tail[j] in multiset(s[1..]);
        var k :| 0 <= k < |s[1..]| && s[1..][k] == tail[j];
        assert s[k + 1] == tail[j];
      }
    }
    SortedCons(s[0], tail);
    assert s == [s[0]] + s[1..];
  }

  /** A sorted permutation of the list; the registry's Sort leaves the list in this state. */
  function SortByRank(s: seq<AssetInfo>): (r: seq<AssetInfo>)
    ensures Sorted(r) && multiset(r) == multiset(s)
  {
    if s == [] then []
    else
      assert s == [s[0]] + s[1..];
      Insert(s[0], SortByRank(s[1..]))
  }

  lemma SortedHeadsAgree(a: seq<AssetInfo>, b: seq<AssetInfo>)
    requires Sorted(a) && Sorted(b) && multiset(a) == multiset(b) && DistinctAssets(a)
    requires a != []
    ensures b != [] && a[0] == b[0]
  {
    assert a[0] in multiset(b);
    var j :| 0 <= j < |b| && b[j] == a[0];
    assert b[0] in multiset(a);
    var i :| 0 <= i < |a| && a[i] == b[0];
    assert j != 0 ==> Compare(b[0], b[j]) <= 0;
    assert i != 0 ==> Compare(a[0], a[i]) <= 0 && a[0].asset != a[i].asset;
    CompareAntisymmetric(a[0], b[0]);
    CompareZero(a[0], b[0]);
  }

  lemma MultisetTail(a: seq<AssetInfo>)
    requires a != []
    ensures multiset(a[1..]) == multiset(a) - multiset{a[0]}
  {
    assert a == [a[0]] + a[1..];
    assert multiset(a) == multiset{a[0]} + multiset(a[1..]);
  }

  lemma SortedTail(a: seq<AssetInfo>)
    requires Sorted(a) && a != []
    ensures Sorted(a[1..])
  {
    var t := a[1..];
    forall i, j | 0 <= i < j < |t| ensures Compare(t[i], t[j]) <= 0 {
      assert t[i] == a[i + 1] && t[j] == a[j + 1];
    }
  }

  lemma DistinctTail(a: seq<AssetInfo>)
    requires DistinctAssets(a) && a != []
    ensures DistinctAssets(a[1..])
  {
    var t := a[1..];
    forall i, j | 0 <= i < j < |t| ensures t[i].asset != t[j].asset {
      assert t[i] == a[i + 1] && t[j] == a[j + 1];
    }
  }

  /** The ranking is deterministic: over distinct asset ids there is exactly one
      sorted arrangement, so an unstable sort cannot produce different reports. */
  lemma {:induction false} SortedPermutationUnique(a: seq<AssetInfo>, b: seq<AssetInfo>)
    requires Sorted(a) && Sorted(b) && multiset(a) == multiset(b) && DistinctAssets(a)
    ensures a == b
    decreases |a|
  {
    if a == [] {
      assert |b| == |multiset(b)| == 0;
    } else {
      SortedHeadsAgree(a, b);
      assert a == [a[0]] + a[1..] && b == [b[0]] + b[1..];
      MultisetTail(a);
      MultisetTail(b);
      SortedTail(a);
      DistinctTail(a);
      SortedTail(b);
      SortedPermutationUnique(a[1..], b[1..]);
    }
  }
}
