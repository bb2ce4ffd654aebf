/**
 * Decimal text as Go renders and parses it: `fmt.Sprintf("%d", n)`,
 * `strconv.Atoi` and `strings.Split` on a one-character separator.
 * The cache key and the impression-id codec are built from these.
 */
module Decimal {
  import opened Optional

  const MinInt64: int := -0x8000_0000_0000_0000
  const MaxInt64: int := 0x7FFF_FFFF_FFFF_FFFF

  predicate IsDigit(c: char) {
    '0' <= c <= '9'
  }

  predicate AllDigits(s: string) {
    forall i :: 0 <= i < |s| ==> IsDigit(s[i])
  }

  function DigitChar(d: nat): (c: char)
    requires d < 10
    ensures IsDigit(c) && (c as int) - ('0' as int) == d
  {
    (('0' as int) + d) as char
  }

  /** Base-10 rendering of a natural number, without leading zeros. */
  function NatToString(n: nat): (s: string)
    ensures |s| >= 1 && AllDigits(s)
    ensures |s| > 1 ==> s[0] != '0'
    decreases n
  {
    if n < 10 then [DigitChar(n)] else NatToString(n / 10) + [DigitChar(n % 10)]
  }

  /** `%d`: a leading '-' for negative numbers, then the digits. */
  function IntToString(n: int): (s: string)
    ensures |s| >= 1
    ensures n >= 0 <==> IsDigit(s[0])
    ensures forall i :: 0 <= i < |s| ==> s[i] == '-' || IsDigit(s[i])
  {
    if n < 0 then "-" + NatToString(-n) else NatToString(n)
  }

  /** The value of a string of decimal digits, most significant first. */
  function DigitsValue(s: string): nat
    requires AllDigits(s)
    decreases |s|
  {
    if |s| == 0 then 0
    else DigitsValue(s[..|s| - 1]) * 10 + ((s[|s| - 1] as int) - ('0' as int))
  }

  /** Reads an optional sign and at least one digit; no range limit. */
  function ParseDecimal(s: string): (r: Option<int>)
    ensures r.Some? ==> |s| >= 1
  {
    var signed := |s| > 0 && (s[0] == '-' || s[0] == '+');
    var digits := if signed then s[1..] else s;
    if |digits| == 0 || !AllDigits(digits) then None
    else if signed && s[0] == '-' then Some(-(DigitsValue(digits) as int))
    else Some(DigitsValue(digits) as int)
  }

  /**
   * `strconv.Atoi` on a 64-bit platform: a syntax error for anything but
   * an optional sign followed by digits, a range error outside int64.
   */
  function Atoi(s: string): (r: Option<int>)
    ensures r.Some? ==> MinInt64 <= r.value <= MaxInt64
    ensures r.Some? ==> ParseDecimal(s) == r
    ensures r.None? && ParseDecimal(s).Some? ==> ParseDecimal(s).value < MinInt64 || ParseDecimal(s).value > MaxInt64
  {
    match ParseDecimal(s)
    case None => None
    case Some(v) => if MinInt64 <= v <= MaxInt64 then Some(v) else None
  }

  lemma {:induction false} DigitsValueSnoc(s: string, c: char)
    requires AllDigits(s) && IsDigit(c)
    ensures AllDigits(s + [c])
    ensures DigitsValue(s + [c]) == DigitsValue(s) * 10 + ((c as int) - ('0' as int))
  {
    assert (s + [c])[..|s + [c]| - 1] == s;
  }

  /** Reading back the digits of `n` gives `n`. */
  lemma {:induction false} NatToStringRoundTrip(n: nat)
    ensures DigitsValue(NatToString(n)) == n
    decreases n
  {
    if n < 10 {
      assert NatToString(n)[..0] == [];
    } else {
      NatToStringRoundTrip(n / 10);
      DigitsValueSnoc(NatToString(n / 10), DigitChar(n % 10));
    }
  }

  /** `%d` followed by parsing is the identity on every integer. */
  lemma IntToStringRoundTrip(n: int)
    ensures ParseDecimal(IntToString(n)) == Some(n)
  {
    if n < 0 {
      NatToStringRoundTrip(-n);
      assert IntToString(n)[1..] == NatToString(-n);
    } else {
      NatToStringRoundTrip(n);
    }
  }

  /** `%d` is injective: distinct integers render differently. */
  lemma IntToStringInjective(a: int, b: int)
    requires IntToString(a) == IntToString(b)
    ensures a == b
  {
    IntToStringRoundTrip(a);
    IntToStringRoundTrip(b);
  }

  /** `strconv.Atoi` reads back what `%d` wrote, for every int64. */
  lemma AtoiRoundTrip(n: int)
    requires MinInt64 <= n <= MaxInt64
    ensures Atoi(IntToString(n)) == Some(n)
  {
    IntToStringRoundTrip(n);
  }

  /** Puts `sep` between consecutive parts: the inverse of `Split`. */
  function Join(parts: seq<string>, sep: char): string
    decreases |parts|
  {
    if |parts| == 0 then ""
    else if |parts| == 1 then parts[0]
    else parts[0] + [sep] + Join(parts[1..], sep)
  }

  /**
   * `strings.Split(s, sep)` for a one-character separator: the maximal
   * separator-free pieces, in order; the empty string gives one empty piece.
   */
  function Split(s: string, sep: char): (parts: seq<string>)
    ensures |parts| >= 1
    ensures forall i :: 0 <= i < |parts| ==> sep !in parts[i]
    ensures Join(parts, sep) == s
    ensures |parts| == 1 <==> sep !in s
    decreases |s|
  {
    if |s| == 0 then [""]
    else
      var rest := Split(s[1..], sep);
      if s[0] == sep then [""] + rest
      else [[s[0]] + rest[0]] + rest[1..]
  }

  /** Splitting a join of separator-free parts gives the parts back. */
  lemma {:induction false} SplitJoin(parts: seq<string>, sep: char)
    requires |parts| >= 1
    requires forall i :: 0 <= i < |parts| ==> sep !in parts[i]
    ensures Split(Join(parts, sep), sep) == parts
    decreases |parts|, |parts[0]|
  {
    if |parts| == 1 {
      SplitNoSeparator(parts[0], sep);
    } else if |parts[0]| == 0 {
      var tail := Join(parts[1..], sep);
      assert Join(parts, sep) == [sep] + tail;
      SplitJoin(parts[1..], sep);
      assert ([sep] + tail)[1..] == tail;
      assert [""] + parts[1..] == parts;
    } else {
      var p0 := parts[0];
      var shorter := [p0[1..]] + parts[1..];
      SplitJoinShorter(parts, sep);
      SplitJoin(shorter, sep);
      JoinShorter(parts, sep);
      SplitCons(p0[0], Join(shorter, sep), sep);
      assert [p0[0]] + p0[1..] == p0;
      assert [p0] + parts[1..] == parts;
    }
  }

  /** Dropping the first character of the first part keeps every part separator-free. */
  lemma SplitJoinShorter(parts: seq<string>, sep: char)
    requires |parts| >= 1 && |parts[0]| > 0
    requires forall i :: 0 <= i < |parts| ==> sep !in parts[i]
    ensures var shorter := [parts[0][1..]] + parts[1..];
      forall i :: 0 <= i < |shorter| ==> sep !in shorter[i]
  {
    var p0 := parts[0];
    var shorter := [p0[1..]] + parts[1..];
    assert sep !in p0[1..] by {
      forall i | 0 <= i < |p0[1..]| ensures p0[1..][i] != sep {
        assert p0[1..][i] == p0[i + 1];
      }
    }
    forall i | 0 <= i < |shorter| ensures sep !in shorter[i] {
      if i > 0 {
        assert shorter[i] == parts[i];
      }
    }
  }

  /** A join starts with the first character of its first part. */
  lemma JoinShorter(parts: seq<string>, sep: char)
    requires |parts| >= 2 && |parts[0]| > 0
    ensures Join(parts, sep) == [parts[0][0]] + Join([parts[0][1..]] + parts[1..], sep)
  {
    var shorter := [parts[0][1..]] + parts[1..];
    assert shorter[1..] == parts[1..];
    assert parts[0] == [parts[0][0]] + parts[0][1..];
  }

  /** Joining one more part appends the separator and that part. */
  lemma {:induction false} JoinSnoc(parts: seq<string>, last: string, sep: char)
    requires |parts| >= 1
    ensures Join(parts + [last], sep) == Join(parts, sep) + [sep] + last
    decreases |parts|
  {
    var whole := parts + [last];
    assert whole[1..] == parts[1..] + [last];
    if |parts| > 1 {
      JoinSnoc(parts[1..], last, sep);
    }
  }

  /** A leading non-separator joins the first piece. */
  lemma SplitCons(c: char, s: string, sep: char)
    requires c != sep
    ensures Split([c] + s, sep) == [[c] + Split(s, sep)[0]] + Split(s, sep)[1..]
  {
    assert ([c] + s)[1..] == s;
  }

  lemma {:induction false} SplitNoSeparator(s: string, sep: char)
    requires sep !in s
    ensures Split(s, sep) == [s]
    decreases |s|
  {
    if |s| > 0 {
      assert sep !in s[1..] by {
        forall i | 0 <= i < |s[1..]| ensures s[1..][i] != sep {
          assert s[1..][i] == s[i + 1];
        }
      }
      SplitNoSeparator(s[1..], sep);
      assert [s[0]] + s[1..] == s;
    }
  }
}
