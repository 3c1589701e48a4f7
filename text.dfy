/**
 * String helpers shared by every module: whitespace, trimming, ASCII case
 * folding, `/`-separated fields and decimal numbers. Strings are `seq<char>`.
 */
module Text {

  // ---------------------------------------------------------------- whitespace

  /** `char.IsWhiteSpace`, restricted to the ASCII white-space characters. */
  predicate IsWhiteSpace(c: char)
  {
    c == ' ' || c == '\t' || c == '\n' || c == '\r' || c == '\U{B}' || c == '\U{C}'
  }

  /** `string.IsNullOrWhiteSpace` on a present string: empty or white space only. */
  predicate IsBlank(s: string)
  {
    forall i :: 0 <= i < |s| ==> IsWhiteSpace(s[i])
  }

  function TrimStart(s: string): (r: string)
    ensures |r| <= |s| && r == s[|s| - |r|..]
    ensures r == [] || !IsWhiteSpace(r[0])
  {
    if |s| > 0 && IsWhiteSpace(s[0]) then TrimStart(s[1..]) else s
  }

  /** Trimming the start leaves nothing exactly when the string is blank. */
  lemma {:induction false} TrimStartBlank(s: string)
    ensures TrimStart(s) == [] <==> IsBlank(s)
    decreases |s|
  {
    if |s| > 0 && IsWhiteSpace(s[0]) {
      TrimStartBlank(s[1..]);
      if IsBlank(s[1..]) {
        forall i | 0 <= i < |s| ensures IsWhiteSpace(s[i]) {
          if i > 0 { assert s[i] == s[1..][i - 1]; }
        }
      } else {
        var i :| 0 <= i < |s[1..]| && !IsWhiteSpace(s[1..][i]);
        assert s[i + 1] == s[1..][i];
      }
    } else if |s| > 0 {
      assert !IsWhiteSpace(s[0]);
    }
  }

  function TrimEnd(s: string): (r: string)
    ensures |r| <= |s| && r == s[..|r|]
    ensures r == [] || !IsWhiteSpace(r[|r| - 1])
  {
    if |s| > 0 && IsWhiteSpace(s[|s| - 1]) then TrimEnd(s[..|s| - 1]) else s
  }

  /** Trimming the end leaves nothing exactly when the string is blank. */
  lemma {:induction false} TrimEndBlank(s: string)
    ensures TrimEnd(s) == [] <==> IsBlank(s)
    decreases |s|
  {
    if |s| > 0 && IsWhiteSpace(s[|s| - 1]) {
      TrimEndBlank(s[..|s| - 1]);
      if IsBlank(s[..|s| - 1]) {
        forall i | 0 <= i < |s| ensures IsWhiteSpace(s[i]) {
          if i < |s| - 1 { assert s[i] == s[..|s| - 1][i]; }
        }
      } else {
        var i :| 0 <= i < |s[..|s| - 1]| && !IsWhiteSpace(s[..|s| - 1][i]);
        assert s[i] == s[..|s| - 1][i];
      }
    } else if |s| > 0 {
      assert !IsWhiteSpace(s[|s| - 1]);
    }
  }

  /** `string.Trim()`: the longest slice without white space at either end. */
  function Trim(s: string): (r: string)
    ensures r == [] || (!IsWhiteSpace(r[0]) && !IsWhiteSpace(r[|r| - 1]))
  {
    TrimEnd(TrimStart(s))
  }

  lemma TrimBlank(s: string)
    ensures Trim(s) == [] <==> IsBlank(s)
  {
    var t := TrimStart(s);
    TrimStartBlank(s);
    TrimEndBlank(t);
    if t != [] {
      assert !IsBlank(t) by { assert !IsWhiteSpace(t[0]); }
    }
  }

  /** No white space at either end. */
  predicate Trimmed(s: string)
  {
    s == [] || (!IsWhiteSpace(s[0]) && !IsWhiteSpace(s[|s| - 1]))
  }

  /** A string is its own trim exactly when it has no white space at either end. */
  lemma TrimmedIsTrim(s: string)
    ensures Trim(s) == s <==> Trimmed(s)
  {
    if Trimmed(s) && s != [] {
      assert TrimStart(s) == s;
      assert TrimEnd(s) == s;
    }
  }

  lemma TrimIdempotent(s: string)
    ensures Trim(Trim(s)) == Trim(s)
  {
    var r := Trim(s);
    if r != [] {
      assert TrimStart(r) == r;
      assert TrimEnd(r) == r;
    }
  }

  // ------------------------------------------------------------- case folding

  /** Lower-casing of one character (ASCII letters only). */
  function Lower(c: char): (r: char)
    ensures IsDigit(r) <==> IsDigit(c)
    ensures IsWhiteSpace(r) <==> IsWhiteSpace(c)
    ensures r == '/' <==> c == '/'
  {
    if 'A' <= c <= 'Z' then (c as int - 'A' as int + 'a' as int) as char else c
  }

  /** `ToLower()` / `toLowerCase()`. */
  function LowerStr(s: string): (r: string)
    ensures |r| == |s|
    ensures forall i :: 0 <= i < |s| ==> r[i] == Lower(s[i])
  {
    if s == [] then [] else [Lower(s[0])] + LowerStr(s[1..])
  }

  /** `string.Equals(a, b, StringComparison.OrdinalIgnoreCase)`. */
  predicate EqualsIgnoreCase(a: string, b: string)
  {
    LowerStr(a) == LowerStr(b)
  }

  predicate StartsWith(s: string, prefix: string)
  {
    |prefix| <= |s| && s[..|prefix|] == prefix
  }

  /** `s.Contains(part)`: `part` occurs as a contiguous slice of `s`. */
  predicate Contains(s: string, part: string)
  {
    StartsWith(s, part) || (|s| > 0 && Contains(s[1..], part))
  }

  /** A string contains whatever it ends with. */
  lemma {:induction false} ContainsSuffix(pre: string, part: string)
    ensures Contains(pre + part, part)
    decreases |pre|
  {
    if pre == [] {
      assert pre + part == part;
      assert (pre + part)[..|part|] == part;
    } else {
      ContainsSuffix(pre[1..], part);
      assert (pre + part)[1..] == pre[1..] + part;
    }
  }

  /** `s.Replace(from, to)` for single characters. */
  function ReplaceChar(s: string, from: char, to: char): (r: string)
    ensures |r| == |s|
    ensures forall i :: 0 <= i < |s| ==> r[i] == (if s[i] == from then to else s[i])
  {
    if s == [] then [] else [if s[0] == from then to else s[0]] + ReplaceChar(s[1..], from, to)
  }

  // ------------------------------------------------------- separated fields

  /** `s.Split(sep)`: every field, empty ones included; never an empty list. */
  function Split(s: string, sep: char): (r: seq<string>)
    ensures |r| >= 1
    ensures forall k :: 0 <= k < |r| ==> sep !in r[k]
  {
    if s == [] then [""]
    else if s[0] == sep then [""] + Split(s[1..], sep)
    else
      var rest := Split(s[1..], sep);
      [[s[0]] + rest[0]] + rest[1..]
  }

  /** `string.Join(sep, parts)`. */
  function Join(parts: seq<string>, sep: string): string
  {
    if parts == [] then ""
    else if |parts| == 1 then parts[0]
    else parts[0] + sep + Join(parts[1..], sep)
  }

  /** Joining one more part adds the separator and that part at the end. */
  lemma {:induction false} JoinSnoc(parts: seq<string>, last: string, sep: string)
    requires |parts| >= 1
    ensures Join(parts + [last], sep) == Join(parts, sep) + sep + last
    decreases |parts|
  {
    if |parts| > 1 {
      assert (parts + [last])[1..] == parts[1..] + [last];
      JoinSnoc(parts[1..], last, sep);
    }
  }

  /** `string.Concat(parts)`. */
  function Concat(parts: seq<string>): string
  {
    if parts == [] then "" else parts[0] + Concat(parts[1..])
  }

  predicate NoSep(parts: seq<string>, sep: char)
  {
    forall k :: 0 <= k < |parts| ==> sep !in parts[k]
  }

  lemma {:induction false} SplitPlain(p: string, sep: char)
    requires sep !in p
    ensures Split(p, sep) == [p]
  {
    if p != [] {
      SplitPlain(p[1..], sep);
      assert [p[0]] + p[1..] == p;
    }
  }

  lemma {:induction false} SplitField(p: string, sep: char, rest: string)
    requires sep !in p
    ensures Split(p + [sep] + rest, sep) == [p] + Split(rest, sep)
  {
    if p == [] {
      assert p + [sep] + rest == [sep] + rest;
      assert ([sep] + rest)[1..] == rest;
    } else {
      assert (p + [sep] + rest)[1..] == p[1..] + [sep] + rest;
      SplitField(p[1..], sep, rest);
      assert [p[0]] + p[1..] == p;
    }
  }

  /** Splitting what was joined gives back the fields, when no field holds the separator. */
  lemma {:induction false} SplitJoin(parts: seq<string>, sep: char)
    requires |parts| >= 1 && NoSep(parts, sep)
    ensures Split(Join(parts, [sep]), sep) == parts
  {
    if |parts| == 1 {
      SplitPlain(parts[0], sep);
    } else {
      SplitJoin(parts[1..], sep);
      SplitField(parts[0], sep, Join(parts[1..], [sep]));
      assert [parts[0]] + parts[1..] == parts;
    }
  }

  // --------------------------------------------------------------- decimals

  predicate IsDigit(c: char) { '0' <= c <= '9' }

  predicate AllDigits(s: string) { forall i :: 0 <= i < |s| ==> IsDigit(s[i]) }

  predicate DigitFree(s: string) { forall i :: 0 <= i < |s| ==> !IsDigit(s[i]) }

  function DigitValue(c: char): nat
    requires IsDigit(c)
  {
    c as int - '0' as int
  }

  /** The value of a run of decimal digits, most significant first. */
  function DigitsValue(s: string): nat
    requires AllDigits(s)
  {
    if s == [] then 0 else DigitsValue(s[..|s| - 1]) * 10 + DigitValue(s[|s| - 1])
  }

  /** `n.ToString()` for a non-negative integer. */
  function NatToString(n: nat): (r: string)
    ensures |r| >= 1 && AllDigits(r) && '/' !in r
    ensures DigitsValue(r) == n
  {
    if n < 10 then ['0' + n as char]
    else
      var r := NatToString(n / 10) + ['0' + (n % 10) as char];
      assert r[..|r| - 1] == NatToString(n / 10);
      r
  }

  /** `i.ToString()` with the invariant culture. */
  function IntToString(i: int): (r: string)
    ensures |r| >= 1 && '/' !in r && '.' !in r
    ensures forall k :: 0 <= k < |r| ==> !IsWhiteSpace(r[k])
  {
    if i < 0 then "-" + NatToString(-i) else NatToString(i)
  }

  const Int32Min: int := -0x8000_0000
  const Int32Max: int := 0x7FFF_FFFF
  const UInt64Max: int := 0xFFFF_FFFF_FFFF_FFFF

  predicate IsInt32(i: int) { Int32Min <= i <= Int32Max }

  /**
   * `int.TryParse` / `ulong.TryParse` with the default integer style: white
   * space around the number, an optional sign, then at least one digit; a
   * value outside [lo, hi] is a failure.
   */
  function ParseInteger(s: string, lo: int, hi: int): (r: Option<int>)
    ensures r.Some? ==> lo <= r.value <= hi
  {
    ParseTrimmed(Trim(s), lo, hi)
  }

  /** The sign-and-digits part of `ParseInteger`, once white space is gone. */
  function ParseTrimmed(t: string, lo: int, hi: int): (r: Option<int>)
    ensures r.Some? ==> lo <= r.value <= hi
  {
    if |t| >= 2 && (t[0] == '-' || t[0] == '+') && AllDigits(t[1..]) then
      var v := if t[0] == '-' then -(DigitsValue(t[1..]) as int) else DigitsValue(t[1..]);
      if lo <= v <= hi then Some(v) else None
    else if |t| >= 1 && AllDigits(t) then
      var v := DigitsValue(t);
      if lo <= v <= hi then Some(v) else None
    else None
  }

  /** `int.Parse` / `int.TryParse`. */
  function ParseInt32(s: string): (r: Option<int>)
    ensures r.Some? ==> IsInt32(r.value)
  {
    ParseInteger(s, Int32Min, Int32Max)
  }

  /** `ulong.Parse` / `ulong.TryParse`. */
  function ParseUInt64(s: string): (r: Option<int>)
    ensures r.Some? ==> 0 <= r.value <= UInt64Max
  {
    ParseInteger(s, 0, UInt64Max)
  }

  lemma TrimNoSpace(s: string)
    requires forall k :: 0 <= k < |s| ==> !IsWhiteSpace(s[k])
    ensures Trim(s) == s
  {
  }

  lemma ParseTrimmedDigits(t: string, lo: int, hi: int)
    requires |t| >= 1 && AllDigits(t)
    ensures ParseTrimmed(t, lo, hi) == if lo <= DigitsValue(t) <= hi then Some(DigitsValue(t)) else None
  {
    assert IsDigit(t[0]);
  }

  /** A plain run of digits parses to its value when that fits an `int`. */
  lemma ParseInt32Digits(t: string)
    requires |t| >= 1 && AllDigits(t)
    ensures ParseInt32(t) == if DigitsValue(t) <= Int32Max then Some(DigitsValue(t)) else None
  {
    forall k | 0 <= k < |t| ensures !IsWhiteSpace(t[k]) {
      assert IsDigit(t[k]);
    }
    ParseIntegerTrimmed(t, Int32Min, Int32Max);
    ParseTrimmedDigits(t, Int32Min, Int32Max);
  }

  lemma ParseTrimmedNat(n: nat, lo: int, hi: int)
    requires lo <= n <= hi
    ensures ParseTrimmed(NatToString(n), lo, hi) == Some(n)
  {
    var t := NatToString(n);
    assert IsDigit(t[0]);
  }

  lemma ParseTrimmedNegative(n: nat, lo: int, hi: int)
    requires lo <= -(n as int) <= hi
    ensures ParseTrimmed("-" + NatToString(n), lo, hi) == Some(-(n as int))
  {
    var t := "-" + NatToString(n);
    assert t[1..] == NatToString(n);
  }

  lemma ParseTrimmedRoundTrip(i: int, lo: int, hi: int)
    requires lo <= i <= hi
    ensures ParseTrimmed(IntToString(i), lo, hi) == Some(i)
  {
    if i < 0 {
      ParseTrimmedNegative(-i, lo, hi);
    } else {
      ParseTrimmedNat(i, lo, hi);
    }
  }

  /** Reading back a written integer gives the integer, within the parser's range. */
  lemma ParseIntegerRoundTrip(i: int, lo: int, hi: int)
    requires lo <= i <= hi
    ensures ParseInteger(IntToString(i), lo, hi) == Some(i)
  {
    ParseTrimmedRoundTrip(i, lo, hi);
    ParseIntegerTrimmed(IntToString(i), lo, hi);
  }

  /** A string without white space parses as its trimmed form. */
  lemma ParseIntegerTrimmed(s: string, lo: int, hi: int)
    requires forall k :: 0 <= k < |s| ==> !IsWhiteSpace(s[k])
    ensures ParseInteger(s, lo, hi) == ParseTrimmed(s, lo, hi)
  {
    TrimNoSpace(s);
  }

  lemma ParseInt32RoundTrip(i: int)
    requires IsInt32(i)
    ensures ParseInt32(IntToString(i)) == Some(i)
  {
    ParseIntegerRoundTrip(i, Int32Min, Int32Max);
  }

  lemma ParseUInt64RoundTrip(n: nat)
    requires n <= UInt64Max
    ensures ParseUInt64(NatToString(n)) == Some(n)
  {
    ParseIntegerRoundTrip(n, 0, UInt64Max);
  }

  import opened Wrappers

  /** Distinct numbers are written differently. */
  lemma IntToStringInjective(a: int, b: int)
    requires IntToString(a) == IntToString(b)
    ensures a == b
  {
    var lo := if a <= b then a else b;
    var hi := if a <= b then b else a;
    ParseIntegerRoundTrip(a, lo, hi);
    ParseIntegerRoundTrip(b, lo, hi);
  }

  lemma IntToStringZero()
    ensures IntToString(0) == "0"
  {
  }
}
