/** Character classes and the handful of Python string, integer and slicing
    primitives that the scraper and the statistics code rely on. */
module Common {

  datatype Option<T> = None | Some(value: T) {
    /** `x or default` for an optional value. */
    function GetOr(default: T): T {
      if Some? then value else default
    }
  }

  // ---------------------------------------------------------------------------
  // Characters
  // ---------------------------------------------------------------------------

  predicate IsDigit(c: char) {
    '0' <= c <= '9'
  }

  predicate AllDigits(s: string) {
    forall i | 0 <= i < |s| :: IsDigit(s[i])
  }

  predicate IsAsciiAlnum(c: char) {
    IsDigit(c) || 'a' <= c <= 'z' || 'A' <= c <= 'Z'
  }

  /** Python's `str.isspace()`, which is also the set `\s` matches in a str pattern. */
  predicate IsSpace(c: char) {
    c == ' ' || '\t' <= c <= '\r' || '\U{1C}' <= c <= '\U{1F}' || c == '\U{85}' || c == '\U{A0}'
    || c == '\U{1680}' || '\U{2000}' <= c <= '\U{200A}' || c == '\U{2028}' || c == '\U{2029}'
    || c == '\U{202F}' || c == '\U{205F}' || c == '\U{3000}'
  }

  /** `str.lower()` on the ASCII letters and the German umlauts; every other character is kept. */
  function LowerChar(c: char): char {
    if 'A' <= c <= 'Z' then (c as int + 32) as char
    else if c == 'Ä' then 'ä'
    else if c == 'Ö' then 'ö'
    else if c == 'Ü' then 'ü'
    else c
  }

  function Lower(s: string): (r: string)
    ensures |r| == |s|
    ensures forall i | 0 <= i < |s| :: r[i] == LowerChar(s[i])
  {
    seq(|s|, i requires 0 <= i < |s| => LowerChar(s[i]))
  }

  function DigitVal(c: char): nat
    requires IsDigit(c)
  {
    c as int - '0' as int
  }

  function DigitChar(d: nat): (c: char)
    requires d < 10
    ensures IsDigit(c) && DigitVal(c) == d
  {
    ('0' as int + d) as char
  }

  // ---------------------------------------------------------------------------
  // Strings
  // ---------------------------------------------------------------------------

  predicate StartsWith(s: string, p: string) {
    |p| <= |s| && s[..|p|] == p
  }

  predicate EndsWith(s: string, p: string) {
    |p| <= |s| && s[|s| - |p|..] == p
  }

  /** Python's `sub in s`. */
  predicate Contains(s: string, sub: string)
    decreases |s|
  {
    StartsWith(s, sub) || (s != [] && Contains(s[1..], sub))
  }

  /** Length of the run of whitespace at the start of `s`. */
  function SpaceRun(s: string): (n: nat)
    ensures n <= |s|
    ensures forall i | 0 <= i < n :: IsSpace(s[i])
    ensures n == |s| || !IsSpace(s[n])
    decreases |s|
  {
    if s != [] && IsSpace(s[0]) then 1 + SpaceRun(s[1..]) else 0
  }

  /** Length of the run of whitespace at the end of `s`. */
  function TrailingSpaceRun(s: string): (n: nat)
    ensures n <= |s|
    ensures forall i | |s| - n <= i < |s| :: IsSpace(s[i])
    ensures n == |s| || !IsSpace(s[|s| - 1 - n])
    decreases |s|
  {
    if s != [] && IsSpace(s[|s| - 1]) then 1 + TrailingSpaceRun(s[..|s| - 1]) else 0
  }

  /** `str.lstrip()` */
  function LStrip(s: string): string {
    s[SpaceRun(s)..]
  }

  /** `str.rstrip()` */
  function RStrip(s: string): string {
    s[..|s| - TrailingSpaceRun(s)]
  }

  /** `str.strip()`: no whitespace is left at either end. */
  function Strip(s: string): (r: string)
    ensures r == [] || (!IsSpace(r[0]) && !IsSpace(r[|r| - 1]))
    ensures |r| <= |s|
  {
    RStrip(LStrip(s))
  }

  lemma StripNoEdgeSpace(s: string)
    requires s != [] && !IsSpace(s[0]) && !IsSpace(s[|s| - 1])
    ensures Strip(s) == s
  {
  }

  /** Chained `.replace(c, "")` for every `c` in `cs`. */
  function RemoveAll(s: string, cs: set<char>): (r: string)
    ensures |r| <= |s|
    ensures forall i | 0 <= i < |r| :: r[i] !in cs
  {
    if s == [] then [] else (if s[0] in cs then [] else [s[0]]) + RemoveAll(s[1..], cs)
  }

  /** `re.sub(r"[^\d]", "", s)`: the digits of `s`, in order. */
  function KeepDigits(s: string): (r: string)
    ensures AllDigits(r) && |r| <= |s|
  {
    if s == [] then [] else (if IsDigit(s[0]) then [s[0]] else []) + KeepDigits(s[1..])
  }

  lemma KeepDigitsOfDigits(s: string)
    requires AllDigits(s)
    ensures KeepDigits(s) == s
  {
    if s != [] {
      KeepDigitsOfDigits(s[1..]);
    }
  }

  /** Python's `"".join` with a one-character separator. */
  function Join(parts: seq<string>, sep: char): string {
    if parts == [] then ""
    else if |parts| == 1 then parts[0]
    else parts[0] + [sep] + Join(parts[1..], sep)
  }

  /** `str.split(sep)` with a one-character separator. */
  function Split(s: string, sep: char): (r: seq<string>)
    ensures |r| > 0
    decreases |s|
  {
    if s == [] then [""]
    else if s[0] == sep then [""] + Split(s[1..], sep)
    else var rest := Split(s[1..], sep); [[s[0]] + rest[0]] + rest[1..]
  }

  lemma {:induction false} SplitNoSep(s: string, sep: char)
    requires sep !in s
    ensures Split(s, sep) == [s]
    decreases |s|
  {
    if s != [] {
      assert s[0] in s;
      SplitNoSep(s[1..], sep);
      assert [s[0]] + s[1..] == s;
    }
  }

  lemma {:induction false} SplitConcat(a: string, b: string, sep: char)
    requires sep !in a
    ensures Split(a + [sep] + b, sep) == [a] + Split(b, sep)
    decreases |a|
  {
    if a == [] {
      assert a + [sep] + b == [sep] + b;
    } else {
      var s := a + [sep] + b;
      assert s[0] == a[0] && a[0] in a;
      assert s[1..] == a[1..] + [sep] + b;
      SplitConcat(a[1..], b, sep);
      assert [a[0]] + a[1..] == a;
    }
  }

  /** Splitting a joined list gives the list back when no part holds the separator. */
  lemma {:induction false} SplitJoin(parts: seq<string>, sep: char)
    requires parts != []
    requires forall i | 0 <= i < |parts| :: sep !in parts[i]
    ensures Split(Join(parts, sep), sep) == parts
    decreases |parts|
  {
    if |parts| == 1 {
      SplitNoSep(parts[0], sep);
    } else {
      SplitJoin(parts[1..], sep);
      SplitConcat(parts[0], Join(parts[1..], sep), sep);
    }
  }

  // ---------------------------------------------------------------------------
  // Integers
  // ---------------------------------------------------------------------------

  /** The value of a string of decimal digits (leading zeros allowed). */
  function DigitsValue(ds: string): nat
    requires AllDigits(ds)
  {
    if ds == [] then 0 else 10 * DigitsValue(ds[..|ds| - 1]) + DigitVal(ds[|ds| - 1])
  }

  /** The digits Python's int() accepts between the sign and the end: digits,
      with single underscores between them. */
  predicate DecimalBody(b: string) {
    && |b| > 0 && IsDigit(b[0]) && IsDigit(b[|b| - 1])
    && (forall i | 0 <= i < |b| :: IsDigit(b[i]) || b[i] == '_')
    && (forall i | 0 <= i < |b| - 1 :: !(b[i] == '_' && b[i + 1] == '_'))
  }

  /** Python's `int(s)` for a str in base 10 over ASCII digits; None stands for ValueError. */
  function PyInt(s: string): Option<int> {
    ParseSigned(Strip(s))
  }

  /** int() after stripping: one optional sign, then the digits. */
  function ParseSigned(t: string): Option<int> {
    if |t| > 0 && t[0] == '-' then
      (match ParseBody(t[1..]) case Some(v) => Some(-(v as int)) case None => None)
    else if |t| > 0 && t[0] == '+' then
      (match ParseBody(t[1..]) case Some(v) => Some(v as int) case None => None)
    else
      (match ParseBody(t) case Some(v) => Some(v as int) case None => None)
  }

  function ParseBody(b: string): Option<nat> {
    if DecimalBody(b) then Some(DigitsValue(KeepDigits(b))) else None
  }

  /** Python's `str(n)` for a natural number. */
  function NatToString(n: nat): (r: string)
    ensures |r| > 0 && AllDigits(r)
  {
    if n < 10 then [DigitChar(n)] else NatToString(n / 10) + [DigitChar(n % 10)]
  }

  /** Python's `str(i)`. */
  function IntToString(i: int): string {
    if i < 0 then "-" + NatToString(-i) else NatToString(i)
  }

  lemma {:induction false} NatToStringValue(n: nat)
    ensures DigitsValue(NatToString(n)) == n
  {
    if n >= 10 {
      NatToStringValue(n / 10);
      var s := NatToString(n);
      assert s[..|s| - 1] == NatToString(n / 10);
    }
  }

  lemma DigitNotSpace(c: char)
    requires IsDigit(c)
    ensures !IsSpace(c) && c != '-' && c != '+'
  {
  }

  lemma ParseBodyOfDigits(ds: string)
    requires ds != [] && AllDigits(ds)
    ensures ParseBody(ds) == Some(DigitsValue(ds))
  {
    assert DecimalBody(ds);
    KeepDigitsOfDigits(ds);
  }

  /** int() of plain digits. */
  lemma PyIntOfDigits(ds: string)
    requires ds != [] && AllDigits(ds)
    ensures PyInt(ds) == Some(DigitsValue(ds) as int)
  {
    DigitNotSpace(ds[0]);
    DigitNotSpace(ds[|ds| - 1]);
    StripNoEdgeSpace(ds);
    ParseBodyOfDigits(ds);
  }

  lemma PyIntOfNegDigits(ds: string, s: string)
    requires ds != [] && AllDigits(ds)
    requires s == ['-'] + ds
    ensures PyInt(s) == Some(-(DigitsValue(ds) as int))
  {
    assert s[0] == '-' && s[1..] == ds;
    DigitNotSpace(ds[|ds| - 1]);
    assert s[|s| - 1] == ds[|ds| - 1];
    StripNoEdgeSpace(s);
    ParseBodyOfDigits(ds);
  }

  /** Printing an integer and parsing it back with int() is the identity. */
  lemma {:induction false} PyIntRoundTrip(i: int)
    ensures PyInt(IntToString(i)) == Some(i)
  {
    var n: nat := if i < 0 then -i else i;
    NatToStringValue(n);
    if i < 0 {
      PyIntOfNegDigits(NatToString(n), IntToString(i));
    } else {
      PyIntOfDigits(NatToString(n));
    }
  }

  /** Python's `int(x)` for a float `x == a / b`: truncation toward zero. */
  function TruncDiv(a: int, b: int): (r: int)
    requires b > 0
    ensures a >= 0 ==> r == a / b
    ensures a < 0 ==> r == -((-a) / b)
  {
    if a >= 0 then a / b else -((-a) / b)
  }

  /** Python's `round(n / d)`: the nearest integer, ties to the even one. */
  function RoundHalfEvenDiv(n: int, d: int): (r: int)
    requires d > 0
    ensures -d <= 2 * (n - d * r) <= d
    ensures (2 * (n - d * r) == d || 2 * (n - d * r) == -d) ==> r % 2 == 0
  {
    var q, m := n / d, n % d;
    assert n == d * q + m && 0 <= m < d;
    assert d * (q + 1) == d * q + d;
    if 2 * m < d then q
    else if 2 * m > d then q + 1
    else if q % 2 == 0 then q
    else q + 1
  }

  function Sum(s: seq<int>): int {
    if s == [] then 0 else Sum(s[..|s| - 1]) + s[|s| - 1]
  }

  /** Python's `s[:n]`, including the negative-`n` case that counts from the end. */
  function Take<T>(s: seq<T>, n: int): (r: seq<T>)
    ensures |r| <= |s| && r == s[..|r|]
    ensures n >= 0 ==> |r| == (if n < |s| then n else |s|)
  {
    if n >= 0 then (if n < |s| then s[..n] else s)
    else if |s| + n > 0 then s[..|s| + n] else []
  }

  // ---------------------------------------------------------------------------
  // Leftmost search, as Python's re.search does it
  // ---------------------------------------------------------------------------

  /** Tries `m` at every position of `s` from the left (including the end) and
      gives the first success. */
  function Search<T>(s: string, m: string -> Option<T>): Option<T>
    decreases |s|
  {
    if m(s).Some? then m(s) else if s == [] then None else Search(s[1..], m)
  }

  /** Search finds something iff some position matches, and what it finds is
      the match at the leftmost such position. */
  lemma {:induction false} SearchLeftmost<T>(s: string, m: string -> Option<T>)
    ensures Search(s, m).Some? <==> exists i | 0 <= i <= |s| :: m(s[i..]).Some?
    ensures Search(s, m).Some? ==>
      exists i | 0 <= i <= |s| :: Search(s, m) == m(s[i..]) && forall j | 0 <= j < i :: m(s[j..]).None?
    decreases |s|
  {
    assert s[0..] == s;
    if m(s).None? && s != [] {
      SearchLeftmost(s[1..], m);
      forall i | 1 <= i <= |s|
        ensures s[i..] == s[1..][i - 1..]
      {
      }
      if Search(s, m).Some? {
        var i :| 0 <= i <= |s[1..]| && Search(s[1..], m) == m(s[1..][i..])
                 && forall j | 0 <= j < i :: m(s[1..][j..]).None?;
        assert s[1..][i..] == s[i + 1..];
        forall j | 0 <= j < i + 1
          ensures m(s[j..]).None?
        {
          if j > 0 {
            assert s[j..] == s[1..][j - 1..];
          }
        }
      } else {
        forall i | 0 <= i <= |s|
          ensures m(s[i..]).None?
        {
          if i > 0 {
            assert s[i..] == s[1..][i - 1..];
          }
        }
      }
    }
  }

  /** Concatenation regroups; stated over any element type so that the
      elements' own equality never has to be examined. */
  lemma ConcatAssoc<T>(x: seq<T>, y: seq<T>, z: seq<T>)
    ensures (x + y) + z == x + (y + z)
  {
  }

  /** The prefix one longer extends the prefix by the next element. */
  lemma TakeSnoc<T>(s: seq<T>, i: nat)
    requires i < |s|
    ensures s[..i + 1][..i] == s[..i] && s[..i + 1][i] == s[i]
  {
  }

  lemma ConcatParts(a: string, b: string)
    ensures (a + b)[..|a|] == a && (a + b)[|a|..] == b
  {
  }

  lemma StartsWithConcat(a: string, b: string)
    ensures StartsWith(a + b, a)
  {
    ConcatParts(a, b);
  }

  lemma EndsWithConcat(a: string, b: string)
    ensures EndsWith(a + b, b)
  {
    ConcatParts(a, b);
  }

  lemma StartsWithTrans(s: string, t: string, p: string)
    requires StartsWith(s, t) && StartsWith(t, p)
    ensures StartsWith(s, p)
  {
    assert s[..|p|] == s[..|t|][..|p|];
  }
}
