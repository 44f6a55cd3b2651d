/**
 * The .NET string primitives the duplicate checker relies on:
 * `EndsWith`, ordinal `string.Compare`, `string.Join`/`Split` with a one-character
 * separator, `int.ToString()` and `int.Parse`.
 */
module Text {
  import opened Wrappers

  const Int32Min: int := -0x8000_0000
  const Int32Max: int := 0x7FFF_FFFF

  predicate InInt32(n: int) { Int32Min <= n <= Int32Max }

  /** Ordinal suffix test. */
  predicate EndsWith(s: string, suffix: string) {
    |suffix| <= |s| && s[|s| - |suffix|..] == suffix
  }

  // ---------------------------------------------------------------------------
  // Ordinal comparison (StringComparison.Ordinal), reduced to its sign.

  function OrdinalCompare(a: string, b: string): (r: int)
    ensures -1 <= r <= 1
  {
    if a == [] && b == [] then 0
    else if a == [] then -1
    else if b == [] then 1
    else if a[0] < b[0] then -1
    else if a[0] > b[0] then 1
    else OrdinalCompare(a[1..], b[1..])
  }

  /** Ordinal comparison reports equality exactly for equal strings. */
  lemma {:induction false} OrdinalCompareZero(a: string, b: string)
    ensures OrdinalCompare(a, b) == 0 <==> a == b
  {
    if a != [] && b != [] && a[0] == b[0] {
      OrdinalCompareZero(a[1..], b[1..]);
      assert a == [a[0]] + a[1..] && b == [b[0]] + b[1..];
    }
  }

  /** Swapping the arguments negates the result. */
  lemma {:induction false} OrdinalCompareAntisymmetric(a: string, b: string)
    ensures OrdinalCompare(a, b) == -OrdinalCompare(b, a)
  {
    if a != [] && b != [] && a[0] == b[0] {
      OrdinalCompareAntisymmetric(a[1..], b[1..]);
    }
  }

  /** "Not after" is transitive. */
  lemma {:induction false} OrdinalCompareTransitive(a: string, b: string, c: string)
    requires OrdinalCompare(a, b) <= 0 && OrdinalCompare(b, c) <= 0
    ensures OrdinalCompare(a, c) <= 0
  {
    if a != [] && b != [] && c != [] && a[0] == b[0] && b[0] == c[0] {
      OrdinalCompareTransitive(a[1..], b[1..], c[1..]);
    }
  }

  // ---------------------------------------------------------------------------
  // string.Join(sep, parts) and s.Split(sep) for a one-character separator.

  function Join(parts: seq<string>, sep: char): string {
    if |parts| == 0 then ""
    else if |parts| == 1 then parts[0]
    else parts[0] + [sep] + Join(parts[1..], sep)
  }

  function Occurrences(s: string, c: char): nat {
    if s == [] then 0 else (if s[0] == c then 1 else 0) + Occurrences(s[1..], c)
  }

  /** Split keeps empty pieces: there is always one more piece than separators. */
  function Split(s: string, sep: char): (parts: seq<string>)
    ensures |parts| == Occurrences(s, sep) + 1
  {
    if s == [] then [""]
    else
      var rest := Split(s[1..], sep);
      if s[0] == sep then [""] + rest
      else [[s[0]] + rest[0]] + rest[1..]
  }

  lemma {:induction false} SplitWithoutSeparator(s: string, sep: char)
    requires sep !in s
    ensures Split(s, sep) == [s]
  {
    if s != [] {
      SplitWithoutSeparator(s[1..], sep);
      assert s == [s[0]] + s[1..];
    }
  }

  lemma {:induction false} SplitAtFirstSeparator(a: string, sep: char, t: string)
    requires sep !in a
    ensures Split(a + [sep] + t, sep) == [a] + Split(t, sep)
  {
    var s := a + [sep] + t;
    if a == [] {
      assert s[1..] == t;
    } else {
      assert s[1..] == a[1..] + [sep] + t;
      SplitAtFirstSeparator(a[1..], sep, t);
      assert [a[0]] + a[1..] == a;
    }
  }

  /** Splitting a join gives the pieces back when there is at least one and none holds the separator. */
  lemma {:induction false} SplitJoin(parts: seq<string>, sep: char)
    requires |parts| >= 1
    requires forall i | 0 <= i < |parts| :: sep !in parts[i]
    ensures Split(Join(parts, sep), sep) == parts
  {
    if |parts| == 1 {
      SplitWithoutSeparator(parts[0], sep);
    } else {
      SplitJoin(parts[1..], sep);
      SplitAtFirstSeparator(parts[0], sep, Join(parts[1..], sep));
      assert [parts[0]] + parts[1..] == parts;
    }
  }

  // ---------------------------------------------------------------------------
  // int.ToString() and int.Parse (optional sign, decimal digits, Int32 range).

  predicate IsDigit(c: char) { '0' <= c <= '9' }

  function DigitChar(d: nat): (c: char)
    requires d < 10
    ensures IsDigit(c)
  {
    "0123456789"[d]
  }

  function DigitValue(c: char): (d: nat)
    requires IsDigit(c)
    ensures d < 10
  {
    (c as int - '0' as int) as nat
  }

  function NatToString(n: nat): (s: string)
    ensures |s| >= 1 && forall i | 0 <= i < |s| :: IsDigit(s[i])
    decreases n
  {
    if n < 10 then [DigitChar(n)] else NatToString(n / 10) + [DigitChar(n % 10)]
  }

  function IntToString(n: int): string {
    if n < 0 then "-" + NatToString(-n) else NatToString(n)
  }

  predicate AllDigits(s: string) { forall i | 0 <= i < |s| :: IsDigit(s[i]) }

  function DigitsValue(s: string): nat
    requires AllDigits(s)
  {
    if s == [] then 0 else 10 * DigitsValue(s[..|s| - 1]) + DigitValue(s[|s| - 1])
  }

  function ParseInt(s: string): (r: Option<int>)
    ensures r.Some? ==> InInt32(r.value)
  {
    var neg := |s| > 0 && s[0] == '-';
    var digits := if |s| > 0 && (s[0] == '-' || s[0] == '+') then s[1..] else s;
    if |digits| == 0 || !AllDigits(digits) then None
    else
      var mag: int := DigitsValue(digits);
      var v := if neg then -mag else mag;
      if InInt32(v) then Some(v) else None
  }

  lemma {:induction false} DigitsOfNat(n: nat)
    ensures AllDigits(NatToString(n)) && DigitsValue(NatToString(n)) == n
    decreases n
  {
    var s := NatToString(n);
    if n < 10 {
      assert DigitValue(DigitChar(n)) == n by {
        assert "0123456789"[n] as int == '0' as int + n;
      }
      assert s[..|s| - 1] == [];
    } else {
      DigitsOfNat(n / 10);
      assert s[..|s| - 1] == NatToString(n / 10);
      var d := n % 10;
      assert DigitValue(DigitChar(d)) == d by {
        assert "0123456789"[d] as int == '0' as int + d;
      }
    }
  }

  /** Every Int32 value parses back from its decimal rendering. */
  lemma ParseIntToString(n: int)
    requires InInt32(n)
    ensures ParseInt(IntToString(n)) == Some(n)
  {
    var s := IntToString(n);
    var m: nat := if n < 0 then -n else n;
    var digits := NatToString(m);
    DigitsOfNat(m);
    if n < 0 {
      assert s == "-" + digits;
      assert s[0] == '-' && s[1..] == digits;
    } else {
      assert s == digits;
      assert IsDigit(s[0]);
    }
  }
}
