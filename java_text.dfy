/**
 * The java.lang string and number conversions the configuration and driver code
 * relies on: String.trim, String.split with a limit of two, String.toLowerCase,
 * String.equalsIgnoreCase, Integer.parseInt, Integer.toString, Boolean.parseBoolean
 * and String.valueOf(boolean).
 */
module JavaText {
  import opened Wrappers

  const MinInt: int := -0x8000_0000
  const MaxInt: int := 0x7fff_ffff

  /** The range of a Java int. */
  predicate InInt32(n: int) {
    MinInt <= n <= MaxInt
  }

  /** Java int arithmetic: the result of an addition wraps modulo 2^32 into the int range. */
  function Wrap32(n: int): (r: int)
    ensures InInt32(r)
    ensures InInt32(n) ==> r == n
    ensures (r - n) % 0x1_0000_0000 == 0
  {
    (n - MinInt) % 0x1_0000_0000 + MinInt
  }

  // ---------------------------------------------------------------- trim

  /** String.trim removes every char whose code is at most U+0020 from both ends. */
  predicate IsBlank(c: char) {
    c <= ' '
  }

  predicate AllBlank(s: string) {
    forall i :: 0 <= i < |s| ==> IsBlank(s[i])
  }

  /** The number of blank chars at the start of s. */
  function LeadingBlanks(s: string): (n: nat)
    ensures n <= |s|
    ensures forall i :: 0 <= i < n ==> IsBlank(s[i])
    ensures n < |s| ==> !IsBlank(s[n])
  {
    if s == [] || !IsBlank(s[0]) then 0 else 1 + LeadingBlanks(s[1..])
  }

  /** The number of blank chars at the end of s. */
  function TrailingBlanks(s: string): (n: nat)
    ensures n <= |s|
    ensures forall i :: |s| - n <= i < |s| ==> IsBlank(s[i])
    ensures n < |s| ==> !IsBlank(s[|s| - 1 - n])
  {
    if s == [] || !IsBlank(s[|s| - 1]) then 0 else 1 + TrailingBlanks(s[..|s| - 1])
  }

  /** String.trim. */
  function Trim(s: string): (r: string)
    ensures |r| <= |s|
    ensures r == [] || (!IsBlank(r[0]) && !IsBlank(r[|r| - 1]))
    ensures r == [] <==> AllBlank(s)
  {
    var lead := LeadingBlanks(s);
    if lead == |s| then [] else s[lead .. |s| - TrailingBlanks(s)]
  }

  /** A string with non-blank ends, padded by blanks on either side, trims to itself:
      this pins Trim down completely. */
  lemma TrimPadded(front: string, middle: string, back: string)
    requires AllBlank(front) && AllBlank(back)
    requires middle == [] || (!IsBlank(middle[0]) && !IsBlank(middle[|middle| - 1]))
    ensures Trim(front + middle + back) == middle
  {
    var s := front + middle + back;
    if middle == [] {
      assert AllBlank(s) by {
        forall i | 0 <= i < |s| ensures IsBlank(s[i]) {
          if i < |front| { assert s[i] == front[i]; } else { assert s[i] == back[i - |front|]; }
        }
      }
    } else {
      var lead := LeadingBlanks(s);
      assert s[|front|] == middle[0];
      assert forall i :: 0 <= i < |front| ==> s[i] == front[i];
      assert lead == |front|;
      var trail := TrailingBlanks(s);
      assert s[|front| + |middle| - 1] == middle[|middle| - 1];
      assert forall i :: |s| - |back| <= i < |s| ==> s[i] == back[i - (|s| - |back|)];
      assert trail == |back|;
      assert s[lead .. |s| - trail] == middle;
    }
  }

  /** Trimming twice is trimming once. */
  lemma TrimIdempotent(s: string)
    ensures Trim(Trim(s)) == Trim(s)
  {
    var t := Trim(s);
    assert [] + t + [] == t;
    TrimPadded([], t, []);
  }

  // ---------------------------------------------------------------- split

  /** s.split(String.valueOf(sep), 2) for a separator that is not a regular-expression
      metacharacter: the part before the first sep and the rest, or s alone when sep
      does not occur. Empty parts are kept. */
  function SplitOnFirst(s: string, sep: char): (parts: seq<string>)
    ensures 1 <= |parts| <= 2
    ensures |parts| == 1 <==> sep !in s
    ensures |parts| == 1 ==> parts[0] == s
    ensures |parts| == 2 ==> parts[0] + [sep] + parts[1] == s && sep !in parts[0]
  {
    if s == [] then [s]
    else if s[0] == sep then [[], s[1..]]
    else
      var rest := SplitOnFirst(s[1..], sep);
      if |rest| == 1 then [s] else [[s[0]] + rest[0], rest[1]]
  }

  /** The first and the rest are unique: any split of s around an occurrence of sep
      with no sep before it is the one SplitOnFirst returns. */
  lemma SplitOnFirstUnique(s: string, sep: char, before: string, after: string)
    requires s == before + [sep] + after && sep !in before
    ensures SplitOnFirst(s, sep) == [before, after]
  {
    var parts := SplitOnFirst(s, sep);
    assert s[|before|] == sep;
    assert |parts| == 2;
    var p := parts[0];
    assert forall i :: 0 <= i < |before| ==> s[i] == before[i];
    assert forall i :: 0 <= i < |p| ==> s[i] == p[i];
    assert s[|p|] == sep;
    assert |p| == |before|;
    assert p == s[..|p|] == before;
    assert parts[1] == s[|p| + 1..] == after;
  }

  // ---------------------------------------------------------------- case

  predicate IsUpperAscii(c: char) {
    'A' <= c <= 'Z'
  }

  function LowerChar(c: char): char {
    if IsUpperAscii(c) then (c as int + 32) as char else c
  }

  function UpperChar(c: char): char {
    if 'a' <= c <= 'z' then (c as int - 32) as char else c
  }

  /** String.toLowerCase on the ASCII letters. */
  function ToLower(s: string): (r: string)
    ensures |r| == |s|
    ensures forall i :: 0 <= i < |r| ==> !IsUpperAscii(r[i])
    ensures forall i :: 0 <= i < |s| && !IsUpperAscii(s[i]) ==> r[i] == s[i]
    ensures forall i :: 0 <= i < |s| ==> r[i] == LowerChar(s[i])
  {
    if s == [] then [] else [LowerChar(s[0])] + ToLower(s[1..])
  }

  /** The char comparison of String.equalsIgnoreCase (via regionMatches). */
  predicate CharsEqualIgnoreCase(c: char, d: char) {
    c == d || UpperChar(c) == UpperChar(d) || LowerChar(UpperChar(c)) == LowerChar(UpperChar(d))
  }

  /** String.equalsIgnoreCase for a non-null argument. */
  predicate EqualsIgnoreCase(a: string, b: string) {
    |a| == |b| && forall i :: 0 <= i < |a| ==> CharsEqualIgnoreCase(a[i], b[i])
  }

  // ---------------------------------------------------------------- booleans

  /** Boolean.parseBoolean: true exactly for "true" in any mix of cases. */
  function ParseBoolean(s: string): (r: bool)
    ensures r <==> ToLower(s) == "true"
  {
    var lower := ToLower(s);
    assert EqualsIgnoreCase(s, "true") <==> lower == "true" by {
      if |s| == 4 {
        assert forall i :: 0 <= i < 4 ==> (CharsEqualIgnoreCase(s[i], "true"[i]) <==> lower[i] == "true"[i]);
      }
    }
    EqualsIgnoreCase(s, "true")
  }

  /** String.valueOf(boolean). */
  function BoolToString(b: bool): (s: string)
    ensures ParseBoolean(s) == b
  {
    assert ToLower("true") == "true";
    assert ToLower("false") == "false";
    if b then "true" else "false"
  }

  // ---------------------------------------------------------------- integers

  predicate IsDigit(c: char) {
    '0' <= c <= '9'
  }

  predicate AllDigits(s: string) {
    forall i :: 0 <= i < |s| ==> IsDigit(s[i])
  }

  function DigitChar(d: nat): char
    requires d < 10
  {
    ('0' as int + d) as char
  }

  /** The value of a string of decimal digits, the most significant first. */
  function DigitsValue(s: string): nat
    requires AllDigits(s)
  {
    if s == [] then 0 else 10 * DigitsValue(s[..|s| - 1]) + (s[|s| - 1] as int - '0' as int)
  }

  /** Integer.parseInt(s) on ASCII digits: an optional '+' or '-', at least one digit,
      nothing else, and a value in the int range; None where Java throws
      NumberFormatException. */
  function ParseInt(s: string): (r: Option<int>)
    ensures r.Some? ==> InInt32(r.value)
    ensures r.Some? ==> |s| > 0 && IsDigit(s[|s| - 1])
    ensures r.Some? ==> (s[0] == '-' || s[0] == '+' || IsDigit(s[0]))
    ensures r.Some? ==> forall i :: 0 < i < |s| ==> IsDigit(s[i])
    ensures r.Some? && r.value < 0 ==> s[0] == '-'
  {
    if s == [] then None
    else
      var negative := s[0] == '-';
      var digits := if s[0] == '-' || s[0] == '+' then s[1..] else s;
      if digits == [] || !AllDigits(digits) then None
      else
        var magnitude: int := DigitsValue(digits);
        var value := if negative then -magnitude else magnitude;
        if InInt32(value) then Some(value) else None
  }

  /** Every optional sign followed by digits parses to its signed decimal value when that
      value is a Java int, and to None (NumberFormatException) when it is not. Leading
      zeros, a '+' and "-0" are accepted. */
  lemma ParseIntDigits(sign: string, ds: string)
    requires sign == "" || sign == "+" || sign == "-"
    requires |ds| > 0 && AllDigits(ds)
    ensures var v := if sign == "-" then -(DigitsValue(ds) as int) else DigitsValue(ds) as int;
      ParseInt(sign + ds) == if InInt32(v) then Some(v) else None
  {
    var s := sign + ds;
    if sign == "" {
      assert s == ds;
      assert s[0] != '-' && s[0] != '+';
    } else {
      assert s[0] == sign[0] && (s[0] == '-' <==> sign == "-");
      assert s[1..] == ds;
    }
  }

  /** Integer.toString of a non-negative value: decimal digits without leading zeros. */
  function NatToString(n: nat): (s: string)
    ensures |s| > 0 && AllDigits(s)
    ensures DigitsValue(s) == n
    ensures s[0] == '0' ==> n == 0
    ensures |s| > 1 ==> s[0] != '0'
  {
    if n < 10 then [DigitChar(n)]
    else
      var prefix := NatToString(n / 10);
      var s := prefix + [DigitChar(n % 10)];
      assert s[..|s| - 1] == prefix;
      s
  }

  /** Integer.toString (also what string concatenation with an int produces). */
  function IntToString(n: int): (s: string)
    ensures |s| > 0
    ensures s[0] == '-' <==> n < 0
  {
    if n < 0 then "-" + NatToString(-n) else NatToString(n)
  }

  /** Integer.toString is canonical: after an optional '-' come the decimal digits of
      the magnitude, with no '+' and no leading zero. */
  lemma IntToStringCanonical(n: int)
    ensures var s := IntToString(n); var ds := if n < 0 then s[1..] else s;
      |ds| > 0 && AllDigits(ds) && DigitsValue(ds) == (if n < 0 then -n else n) && (|ds| > 1 ==> ds[0] != '0')
  {
    if n < 0 {
      assert IntToString(n)[1..] == NatToString(-n);
    }
  }

  /** Integer.parseInt(Integer.toString(n)) == n for every int. */
  lemma ParseIntToString(n: int)
    requires InInt32(n)
    ensures ParseInt(IntToString(n)) == Some(n)
  {
    var s := IntToString(n);
    if n < 0 {
      assert s[1..] == NatToString(-n);
    } else {
      assert IsDigit(s[0]);
    }
  }

  /** Distinct numbers print differently. */
  lemma IntToStringInjective(m: int, n: int)
    requires IntToString(m) == IntToString(n)
    ensures m == n
  {
    if m < 0 {
      assert IntToString(m)[1..] == NatToString(-m);
      assert IntToString(n)[1..] == NatToString(-n);
    }
  }
}
