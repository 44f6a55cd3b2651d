/**
 * The report's row format (ABAssetinfos.SaveToCsv / LoadFromCsv): a summary
 * header row, a column-label row, then one 7-field row per asset. The CSV
 * layer itself (quoting, commas, files) is outside the model: a file is a
 * sequence of rows, each a sequence of fields.
 */
module AssetCsv {
  import opened Wrappers
  import opened Text
  import opened AssetRecords

  const SetSeparator: char := ':'

  const ColumnLabels: seq<string> :=
    ["asset", "isMarked", "memSize", "canSaveMemSize", "count", "containingABs", "directContainingAssets"]

  /** The summary row; the human-readable sizes and the percentage are formatted outside the model. */
  function SummaryRow(allMem: string, canSave: string, percent: string, count: int): seq<string> {
    ["asset", "isMarked", "allMem=" + allMem, "canSave=" + canSave, "percent=" + percent,
     "count=" + IntToString(count), ""]
  }

  /** xs lists exactly the members of s (a HashSet's enumeration, in whatever order). */
  ghost predicate Enumerates(xs: seq<string>, s: set<string>) {
    forall x :: x in xs <==> x in s
  }

  /** One data row; abs and parents are the enumerations of the two sets. */
  function EncodeRow(ai: AssetInfo, abs: seq<string>, parents: seq<string>): (r: seq<string>)
    ensures |r| == |ColumnLabels|
    ensures r[0] == ai.asset && (r[1] == "1" <==> ai.isMarked)
  {
    [ai.asset,
     if ai.isMarked then "1" else "0",
     IntToString(ai.memSize),
     IntToString(ai.canSaveMemSize),
     IntToString(ai.containingABCount),
     Join(abs, SetSeparator),
     Join(parents, SetSeparator)]
  }

  /** Why a row cannot be read: a missing column (index out of range) or a bad integer. */
  datatype RowError = MissingField(column: nat) | NotAnInteger(column: nat)

  function Field(row: seq<string>, column: nat): Result<string, RowError> {
    if column < |row| then Success(row[column]) else Failure(MissingField(column))
  }

  function IntField(row: seq<string>, column: nat): Result<int, RowError> {
    if column >= |row| then Failure(MissingField(column))
    else match ParseInt(row[column])
      case Some(v) => Success(v)
      case None => Failure(NotAnInteger(column))
  }

  function SplitSet(field: string): set<string> {
    set x | x in Split(field, SetSeparator)
  }

  /** Reads the fields in the order the object initializer evaluates them. */
  function DecodeRow(row: seq<string>): (r: Result<AssetInfo, RowError>)
    ensures r.Success? ==> |row| >= |ColumnLabels| && r.value.asset == row[0]
    ensures r.Failure? && r.error.MissingField? ==> r.error.column == |row| < |ColumnLabels|
    ensures r.Failure? && r.error.NotAnInteger? ==> 2 <= r.error.column <= 4 && r.error.column < |row|
  {
    var asset :- Field(row, 0);
    var marked :- Field(row, 1);
    var mem :- IntField(row, 2);
    var save :- IntField(row, 3);
    var count :- IntField(row, 4);
    var abs :- Field(row, 5);
    var parents :- Field(row, 6);
    Success(AssetInfo(asset, marked == "1", mem, save, count, SplitSet(abs), SplitSet(parents)))
  }

  // ---------------------------------------------------------------------------
  // Row-level properties.

  /** A row decodes exactly when it has seven fields and the three counters parse;
      the flag is true only for "1", and fields past the seventh are ignored. */
  lemma DecodeRowCharacterized(row: seq<string>)
    ensures DecodeRow(row).Success? <==>
      |row| >= 7 && ParseInt(row[2]).Some? && ParseInt(row[3]).Some? && ParseInt(row[4]).Some?
    ensures DecodeRow(row).Success? ==>
      var ai := DecodeRow(row).value;
      && ai.asset == row[0]
      && (ai.isMarked <==> row[1] == "1")
      && Some(ai.memSize) == ParseInt(row[2])
      && Some(ai.canSaveMemSize) == ParseInt(row[3])
      && Some(ai.containingABCount) == ParseInt(row[4])
      && ai.containingABs == SplitSet(row[5])
      && ai.directContainingAssets == SplitSet(row[6])
  {
  }

  predicate SeparatorFree(s: set<string>) {
    forall x | x in s :: SetSeparator !in x
  }

  /** A non-empty set of separator-free ids reads back as itself, whatever the enumeration order. */
  lemma SetRoundTrip(xs: seq<string>, s: set<string>)
    requires Enumerates(xs, s) && s != {} && SeparatorFree(s)
    ensures SplitSet(Join(xs, SetSeparator)) == s
  {
    var x :| x in s;
    assert x in xs;
    SplitJoin(xs, SetSeparator);
  }

  /** An empty set is written as "" and reads back as the one-element set {""}. */
  lemma EmptySetReadsBackAsEmptyId()
    ensures SplitSet(Join([], SetSeparator)) == {""}
  {
  }

  /** What a set of separator-free ids reads back as: itself, or {""} when it is empty. */
  function ReadBack(s: set<string>): set<string> {
    if s == {} then {""} else s
  }

  /** A record as a load returns it after a save: both sets read back. */
  function Reloaded(ai: AssetInfo): AssetInfo {
    ai.(containingABs := ReadBack(ai.containingABs),
        directContainingAssets := ReadBack(ai.directContainingAssets))
  }

  /** Any set of separator-free ids, in any enumeration order, reads back as ReadBack of it. */
  lemma SetReadsBack(xs: seq<string>, s: set<string>)
    requires Enumerates(xs, s) && SeparatorFree(s)
    ensures SplitSet(Join(xs, SetSeparator)) == ReadBack(s)
  {
    if xs == [] {
      assert s == {};
      EmptySetReadsBackAsEmptyId();
    } else {
      assert xs[0] in s;
      SetRoundTrip(xs, s);
    }
  }

  /** The conditions under which a written row reads back at all: counters in Int32 range,
      ids free of the separator. Empty sets are allowed. */
  ghost predicate ReadsBack(ai: AssetInfo, abs: seq<string>, parents: seq<string>) {
    && InInt32(ai.memSize) && InInt32(ai.canSaveMemSize) && InInt32(ai.containingABCount)
    && Enumerates(abs, ai.containingABs) && Enumerates(parents, ai.directContainingAssets)
    && SeparatorFree(ai.containingABs) && SeparatorFree(ai.directContainingAssets)
  }

  /** Reading a written row gives the record with both sets read back. */
  lemma RowReadsBack(ai: AssetInfo, abs: seq<string>, parents: seq<string>)
    requires ReadsBack(ai, abs, parents)
    ensures DecodeRow(EncodeRow(ai, abs, parents)) == Success(Reloaded(ai))
  {
    var row := EncodeRow(ai, abs, parents);
    DecodeRowCharacterized(row);
    ParseIntToString(ai.memSize);
    ParseIntToString(ai.canSaveMemSize);
    ParseIntToString(ai.containingABCount);
    SetReadsBack(abs, ai.containingABs);
    SetReadsBack(parents, ai.directContainingAssets);
  }

  /** The conditions under which a record survives being written and read back unchanged:
      it reads back, and neither set is empty. */
  ghost predicate RoundTrips(ai: AssetInfo, abs: seq<string>, parents: seq<string>) {
    ReadsBack(ai, abs, parents) && ai.containingABs != {} && ai.directContainingAssets != {}
  }

  /** Reading a written row gives the record back, field by field. */
  lemma RowRoundTrip(ai: AssetInfo, abs: seq<string>, parents: seq<string>)
    requires RoundTrips(ai, abs, parents)
    ensures DecodeRow(EncodeRow(ai, abs, parents)) == Success(ai)
  {
    RowReadsBack(ai, abs, parents);
    assert Reloaded(ai) == ai;
  }

  /** A marked record has no direct parents (an empty enumeration), so after a save
      and a load it has the parent "" and is not the record that was saved. */
  lemma MarkedRecordGainsEmptyParent(ai: AssetInfo, abs: seq<string>)
    requires InInt32(ai.memSize) && InInt32(ai.canSaveMemSize) && InInt32(ai.containingABCount)
    requires ai.directContainingAssets == {}
    ensures DecodeRow(EncodeRow(ai, abs, [])).Success?
    ensures DecodeRow(EncodeRow(ai, abs, [])).value.directContainingAssets == {""}
    ensures DecodeRow(EncodeRow(ai, abs, [])) != Success(ai)
  {
    var row := EncodeRow(ai, abs, []);
    DecodeRowCharacterized(row);
    ParseIntToString(ai.memSize);
    ParseIntToString(ai.canSaveMemSize);
    ParseIntToString(ai.containingABCount);
    EmptySetReadsBackAsEmptyId();
  }

  // ---------------------------------------------------------------------------
  // The file-level read path of LoadFromCsv.

  datatype LoadError = ParseError(row: nat, cause: RowError) | DuplicateKey(row: nat, asset: string)

  predicate HasAsset(s: seq<AssetInfo>, k: string) {
    exists i | 0 <= i < |s| :: s[i].asset == k
  }

  /** Rows from index i on, decoded by decode and added after acc; the first bad row or
      repeated key stops the load. The loader uses DecodeRow; the lemmas below hold for
      any decoder. */
  function LoadFrom(decode: seq<string> -> Result<AssetInfo, RowError>, lines: seq<seq<string>>,
                    i: nat, acc: seq<AssetInfo>): (r: Result<seq<AssetInfo>, LoadError>)
    ensures r.Failure? ==> i <= r.error.row < |lines|
    ensures r.Success? ==> |r.value| == |acc| + (if i <= |lines| then |lines| - i else 0)
    ensures r.Success? ==> r.value[..|acc|] == acc
    decreases |lines| - i
  {
    if i >= |lines| then Success(acc)
    else match decode(lines[i])
      case Failure(e) => Failure(ParseError(i, e))
      case Success(ai) =>
        if HasAsset(acc, ai.asset) then Failure(DuplicateKey(i, ai.asset))
        else LoadFrom(decode, lines, i + 1, acc + [ai])
  }

  /** The two header rows are skipped and never decoded. */
  function LoadRows(lines: seq<seq<string>>): (r: Result<seq<AssetInfo>, LoadError>)
    ensures r.Failure? ==> 2 <= r.error.row < |lines|
    ensures r.Success? ==> |r.value| == (if |lines| <= 2 then 0 else |lines| - 2)
  {
    LoadFrom(DecodeRow, lines, 2, [])
  }

  lemma AppendFresh(acc: seq<AssetInfo>, ai: AssetInfo)
    requires DistinctAssets(acc) && !HasAsset(acc, ai.asset)
    ensures DistinctAssets(acc + [ai])
  {
    var acc' := acc + [ai];
    forall p, q | 0 <= p < q < |acc'| ensures acc'[p].asset != acc'[q].asset {
      assert acc'[p] == acc[p];
      if q < |acc| { assert acc'[q] == acc[q]; }
    }
  }

  lemma LoadFromStep(decode: seq<string> -> Result<AssetInfo, RowError>, lines: seq<seq<string>>,
                     i: nat, acc: seq<AssetInfo>)
    requires i < |lines| && LoadFrom(decode, lines, i, acc).Success?
    ensures decode(lines[i]).Success? && !HasAsset(acc, decode(lines[i]).value.asset)
    ensures LoadFrom(decode, lines, i, acc) == LoadFrom(decode, lines, i + 1, acc + [decode(lines[i]).value])
  {
  }

  lemma ShorterPrefix<T>(r: seq<T>, acc: seq<T>, x: T)
    requires |acc| < |r| && r[..|acc| + 1] == acc + [x]
    ensures r[..|acc|] == acc && r[|acc|] == x
  {
    assert r[..|acc|] == (acc + [x])[..|acc|];
  }

  lemma {:induction false} LoadFromSuccess(decode: seq<string> -> Result<AssetInfo, RowError>,
                                          lines: seq<seq<string>>, i: nat, acc: seq<AssetInfo>)
    requires i <= |lines| && DistinctAssets(acc)
    requires LoadFrom(decode, lines, i, acc).Success?
    ensures var r := LoadFrom(decode, lines, i, acc).value;
      && |r| == |acc| + |lines| - i
      && r[..|acc|] == acc
      && DistinctAssets(r)
      && forall k | i <= k < |lines| :: decode(lines[k]) == Success(r[|acc| + k - i])
    decreases |lines| - i
  {
    var r := LoadFrom(decode, lines, i, acc).value;
    if i < |lines| {
      LoadFromStep(decode, lines, i, acc);
      var ai := decode(lines[i]).value;
      var acc' := acc + [ai];
      AppendFresh(acc, ai);
      LoadFromSuccess(decode, lines, i + 1, acc');
      assert r == LoadFrom(decode, lines, i + 1, acc').value;
      ShorterPrefix(r, acc, ai);
      forall k | i <= k < |lines| ensures decode(lines[k]) == Success(r[|acc| + k - i]) {
        if k > i {
          assert |acc'| + k - (i + 1) == |acc| + k - i;
        } else {
          assert decode(lines[i]) == Success(ai);
        }
      }
    } else {
      assert r == acc;
    }
  }

  /** A successful load yields one record per data row, in file order, with distinct ids. */
  lemma LoadRowsSuccess(lines: seq<seq<string>>)
    requires LoadRows(lines).Success?
    ensures var r := LoadRows(lines).value;
      && |r| == (if |lines| <= 2 then 0 else |lines| - 2)
      && DistinctAssets(r)
      && forall k | 0 <= k < |r| :: DecodeRow(lines[k + 2]) == Success(r[k])
  {
    if |lines| > 2 {
      LoadFromSuccess(DecodeRow, lines, 2, []);
    }
  }

  lemma {:induction false} LoadFromEncoded(decode: seq<string> -> Result<AssetInfo, RowError>,
                                          lines: seq<seq<string>>, i: nat, acc: seq<AssetInfo>,
                                          rest: seq<AssetInfo>)
    requires i + |rest| == |lines|
    requires forall k | 0 <= k < |rest| :: decode(lines[i + k]) == Success(rest[k])
    requires DistinctAssets(acc + rest)
    ensures LoadFrom(decode, lines, i, acc) == Success(acc + rest)
    decreases |rest|
  {
    if rest == [] {
      assert acc + rest == acc;
    } else {
      var ai := rest[0];
      assert decode(lines[i]) == Success(ai);
      assert !HasAsset(acc, ai.asset) by {
        assert (acc + rest)[|acc|] == ai;
        forall p | 0 <= p < |acc| ensures acc[p].asset != ai.asset {
          assert (acc + rest)[p] == acc[p];
        }
      }
      assert acc + rest == (acc + [ai]) + rest[1..];
      forall k | 0 <= k < |rest[1..]| ensures decode(lines[i + 1 + k]) == Success(rest[1..][k]) {
        assert decode(lines[i + (k + 1)]) == Success(rest[k + 1]);
      }
      LoadFromEncoded(decode, lines, i + 1, acc + [ai], rest[1..]);
    }
  }

  /** Save then load, for any report: a file whose data rows encode records with distinct
      ids, Int32 counters and separator-free ids loads back as those records, in the same
      order, each with its sets read back (an empty set comes back as {""}). */
  lemma SaveLoadReadsBack(lines: seq<seq<string>>, entries: seq<AssetInfo>,
                          abs: seq<seq<string>>, parents: seq<seq<string>>)
    requires |lines| == |entries| + 2 && |abs| == |entries| && |parents| == |entries|
    requires forall k | 0 <= k < |entries| ::
      lines[k + 2] == EncodeRow(entries[k], abs[k], parents[k]) && ReadsBack(entries[k], abs[k], parents[k])
    requires DistinctAssets(entries)
    ensures LoadRows(lines) == Success(seq(|entries|, k requires 0 <= k < |entries| => Reloaded(entries[k])))
  {
    var reloaded := seq(|entries|, k requires 0 <= k < |entries| => Reloaded(entries[k]));
    forall k | 0 <= k < |entries| ensures DecodeRow(lines[2 + k]) == Success(reloaded[k]) {
      RowReadsBack(entries[k], abs[k], parents[k]);
      assert lines[2 + k] == lines[k + 2];
    }
    assert DistinctAssets(reloaded) by {
      forall i, j | 0 <= i < j < |reloaded| ensures reloaded[i].asset != reloaded[j].asset {
        assert reloaded[i].asset == entries[i].asset && reloaded[j].asset == entries[j].asset;
      }
    }
    assert [] + reloaded == reloaded;
    LoadFromEncoded(DecodeRow, lines, 2, [], reloaded);
  }

  /** Save then load: a file whose data rows encode distinct, round-tripping records
      loads back as exactly those records in the same order; the case of SaveLoadReadsBack
      where no set is empty. */
  lemma SaveLoadRoundTrip(lines: seq<seq<string>>, entries: seq<AssetInfo>,
                          abs: seq<seq<string>>, parents: seq<seq<string>>)
    requires |lines| == |entries| + 2 && |abs| == |entries| && |parents| == |entries|
    requires forall k | 0 <= k < |entries| ::
      lines[k + 2] == EncodeRow(entries[k], abs[k], parents[k]) && RoundTrips(entries[k], abs[k], parents[k])
    requires DistinctAssets(entries)
    ensures LoadRows(lines) == Success(entries)
  {
    SaveLoadReadsBack(lines, entries, abs, parents);
    var reloaded := seq(|entries|, k requires 0 <= k < |entries| => Reloaded(entries[k]));
    forall k | 0 <= k < |entries| ensures reloaded[k] == entries[k] {
      assert RoundTrips(entries[k], abs[k], parents[k]);
    }
    assert reloaded == entries;
  }
}
