/** String helpers shared by the back end (Python) and the front end
    (JavaScript): whitespace stripping with each language's whitespace set,
    suffix and substring tests, joining, ASCII character classes and decimal
    rendering of integers. */
module Text {

  /** The characters for which Python's str.isspace() holds, which are the
      ones str.strip() removes. */
  predicate IsPythonSpace(c: char) {
    var n := c as int;
    (9 <= n <= 13) || (28 <= n <= 32) || n == 0x85 || n == 0xA0 || n == 0x1680
    || (0x2000 <= n <= 0x200A) || n == 0x2028 || n == 0x2029 || n == 0x202F
    || n == 0x205F || n == 0x3000
  }

  /** The characters JavaScript's String.prototype.trim() removes
      (WhiteSpace and LineTerminator of ECMAScript). */
  predicate IsJsSpace(c: char) {
    var n := c as int;
    (9 <= n <= 13) || n == 32 || n == 0xA0 || n == 0x1680 || (0x2000 <= n <= 0x200A)
    || n == 0x2028 || n == 0x2029 || n == 0x202F || n == 0x205F || n == 0x3000 || n == 0xFEFF
  }

  /** Neither end of `s` is a character of the whitespace set `ws`. */
  predicate Clean(s: string, ws: char -> bool) {
    s == [] || (!ws(s[0]) && !ws(s[|s| - 1]))
  }

  /** The number of whitespace characters `s` starts with. */
  function LeadingCount(s: string, ws: char -> bool): (n: nat)
    ensures n <= |s|
    ensures forall k :: 0 <= k < n ==> ws(s[k])
    ensures n < |s| ==> !ws(s[n])
    decreases |s|
  {
    if s != [] && ws(s[0]) then
      var m := LeadingCount(s[1..], ws);
      assert forall k :: 1 <= k < m + 1 ==> s[k] == s[1..][k - 1];
      m + 1
    else 0
  }

  /** The number of whitespace characters `s` ends with. */
  function TrailingCount(s: string, ws: char -> bool): (n: nat)
    ensures n <= |s|
    ensures forall k :: |s| - n <= k < |s| ==> ws(s[k])
    ensures n < |s| ==> !ws(s[|s| - n - 1])
    decreases |s|
  {
    if s != [] && ws(s[|s| - 1]) then
      var m := TrailingCount(s[..|s| - 1], ws);
      assert forall k :: |s| - 1 - m <= k < |s| - 1 ==> s[k] == s[..|s| - 1][k];
      m + 1
    else 0
  }

  /** `s` without its leading whitespace. */
  function TrimStart(s: string, ws: char -> bool): (r: string)
    ensures |r| <= |s| && r == s[|s| - |r|..]
    ensures forall k :: 0 <= k < |s| - |r| ==> ws(s[k])
    ensures r != [] ==> !ws(r[0])
  {
    s[LeadingCount(s, ws)..]
  }

  /** `s` without whitespace at either end: a contiguous part of `s`, with
      only whitespace removed on each side, and clean at both ends. */
  function Strip(s: string, ws: char -> bool): (r: string)
    ensures Clean(r, ws)
    ensures var i := LeadingCount(s, ws);
      && i + |r| <= |s|
      && r == s[i..i + |r|]
      && (forall k :: 0 <= k < i ==> ws(s[k]))
      && (forall k :: i + |r| <= k < |s| ==> ws(s[k]))
  {
    var i := LeadingCount(s, ws);
    var t := s[i..];
    var j := TrailingCount(t, ws);
    StripTail(s, ws, i, j);
    assert j < |t| ==> t[|t| - j - 1] == s[|s| - j - 1];
    CleanSlice(s, ws, i, |s| - j);
    s[i..|s| - j]
  }

  lemma CleanSlice(s: string, ws: char -> bool, lo: nat, hi: nat)
    requires lo <= hi <= |s|
    requires lo < hi ==> !ws(s[lo]) && !ws(s[hi - 1])
    ensures Clean(s[lo..hi], ws)
  {
    if lo < hi {
      assert s[lo..hi][0] == s[lo];
      assert s[lo..hi][hi - lo - 1] == s[hi - 1];
    }
  }

  lemma StripTail(s: string, ws: char -> bool, i: nat, j: nat)
    requires i + j <= |s|
    requires forall k :: |s| - i - j <= k < |s| - i ==> ws(s[i..][k])
    ensures forall k :: |s| - j <= k < |s| ==> ws(s[k])
  {
    forall k | |s| - j <= k < |s|
      ensures ws(s[k])
    {
      assert s[k] == s[i..][k - i];
    }
  }

  /** Python's `s.strip()` with no argument. */
  function PyStrip(s: string): string { Strip(s, IsPythonSpace) }

  /** JavaScript's `s.trim()`. */
  function JsTrim(s: string): string { Strip(s, IsJsSpace) }

  /** A string that is already clean is its own strip. */
  lemma StripClean(s: string, ws: char -> bool)
    requires Clean(s, ws)
    ensures Strip(s, ws) == s
  {
    assert LeadingCount(s, ws) == 0;
    assert TrailingCount(s, ws) == 0;
  }

  /** Stripping twice is stripping once. */
  lemma StripIdempotent(s: string, ws: char -> bool)
    ensures Strip(Strip(s, ws), ws) == Strip(s, ws)
  {
    StripClean(Strip(s, ws), ws);
  }

  /** Stripping `a + " " + b` for clean `a` and `b` drops the separating
      space exactly when one side is empty. */
  lemma StripSpaceJoin(a: string, b: string, ws: char -> bool)
    requires Clean(a, ws) && Clean(b, ws) && ws(' ')
    ensures Strip(a + " " + b, ws) ==
      if a == "" then b else if b == "" then a else a + " " + b
  {
    var s := a + " " + b;
    if a == "" {
      assert s == " " + b && s[1..] == b;
      assert LeadingCount(b, ws) == 0;
      assert LeadingCount(s, ws) == 1;
      assert TrailingCount(b, ws) == 0;
    } else if b == "" {
      assert s == a + " " && s[0] == a[0] && s[..|s| - 1] == a;
      assert LeadingCount(s, ws) == 0;
      assert TrailingCount(a, ws) == 0;
      assert TrailingCount(s, ws) == 1;
    } else {
      assert s[0] == a[0] && s[|s| - 1] == b[|b| - 1];
      StripClean(s, ws);
    }
  }

  predicate StartsWith(s: string, prefix: string) {
    |prefix| <= |s| && s[..|prefix|] == prefix
  }

  /** Python's `s.endswith(suffix)` and the test JavaScript code writes
      with a suffix comparison. */
  predicate EndsWith(s: string, suffix: string) {
    |suffix| <= |s| && s[|s| - |suffix|..] == suffix
  }

  lemma EndsWithAppend(s: string, suffix: string)
    ensures EndsWith(s + suffix, suffix)
  {
    assert (s + suffix)[|s|..] == suffix;
  }

  /** Python's `sub in s` on strings: `sub` occurs in `s` at some position. */
  predicate Contains(s: string, sub: string)
    decreases |s|
  {
    StartsWith(s, sub) || (s != [] && Contains(s[1..], sub))
  }

  /** Contains agrees with the positional definition of a substring. */
  lemma {:induction false} ContainsAt(s: string, sub: string, i: nat)
    requires i + |sub| <= |s| && s[i..i + |sub|] == sub
    ensures Contains(s, sub)
    decreases i
  {
    if i == 0 {
      assert s[..|sub|] == sub;
    } else {
      assert s[1..][i - 1..i - 1 + |sub|] == s[i..i + |sub|];
      ContainsAt(s[1..], sub, i - 1);
    }
  }

  lemma {:induction false} ContainsHasPosition(s: string, sub: string) returns (i: nat)
    requires Contains(s, sub)
    ensures i + |sub| <= |s| && s[i..i + |sub|] == sub
    decreases |s|
  {
    if StartsWith(s, sub) {
      i := 0;
    } else {
      var j := ContainsHasPosition(s[1..], sub);
      assert s[1..][j..j + |sub|] == s[j + 1..j + 1 + |sub|];
      i := j + 1;
    }
  }

  /** A string without the first character of `sub` does not contain it. */
  lemma {:induction false} NoFirstCharNotContains(s: string, sub: string)
    requires sub != [] && forall k :: 0 <= k < |s| ==> s[k] != sub[0]
    ensures !Contains(s, sub)
    decreases |s|
  {
    if s != [] {
      if |sub| <= |s| {
        assert s[..|sub|][0] != sub[0];
      }
      NoFirstCharNotContains(s[1..], sub);
    }
  }

  /** Python's `sep.join(parts)`. */
  function Join(parts: seq<string>, sep: string): (r: string)
    ensures parts == [] ==> r == ""
    ensures |parts| == 1 ==> r == parts[0]
    ensures |parts| > 0 ==> StartsWith(r, parts[0])
    decreases |parts|
  {
    if |parts| == 0 then ""
    else if |parts| == 1 then parts[0]
    else parts[0] + sep + Join(parts[1..], sep)
  }

  predicate IsAsciiDigit(c: char) { '0' <= c <= '9' }

  predicate IsAsciiLetter(c: char) { ('a' <= c <= 'z') || ('A' <= c <= 'Z') }

  predicate IsAsciiAlnum(c: char) { IsAsciiLetter(c) || IsAsciiDigit(c) }

  predicate AllDigits(s: string) {
    forall k :: 0 <= k < |s| ==> IsAsciiDigit(s[k])
  }

  function LowerChar(c: char): (r: char)
    ensures !('A' <= r <= 'Z')
    ensures !('A' <= c <= 'Z') ==> r == c
  {
    if 'A' <= c <= 'Z' then (c as int - 'A' as int + 'a' as int) as char else c
  }

  /** `toLowerCase()` / `lower()` on the ASCII letters. */
  function ToLowerAscii(s: string): (r: string)
    ensures |r| == |s|
    ensures forall k :: 0 <= k < |s| ==> r[k] == LowerChar(s[k])
  {
    seq(|s|, k requires 0 <= k < |s| => LowerChar(s[k]))
  }

  /** Lower-casing leaves no ASCII capital, keeps every other character,
      and a second pass changes nothing. */
  lemma ToLowerAsciiLowers(s: string)
    ensures forall k :: 0 <= k < |s| ==> !('A' <= ToLowerAscii(s)[k] <= 'Z')
    ensures forall k :: 0 <= k < |s| && !('A' <= s[k] <= 'Z') ==> ToLowerAscii(s)[k] == s[k]
    ensures ToLowerAscii(ToLowerAscii(s)) == ToLowerAscii(s)
  {
  }

  function DigitChar(d: nat): (c: char)
    requires d < 10
    ensures IsAsciiDigit(c) && c as int - '0' as int == d
  {
    ('0' as int + d) as char
  }

  function DigitValue(c: char): nat
    requires IsAsciiDigit(c)
  {
    c as int - '0' as int
  }

  /** The value of a string of decimal digits. */
  function DigitsValue(s: string): nat
    requires AllDigits(s)
    decreases |s|
  {
    if s == [] then 0 else DigitsValue(s[..|s| - 1]) * 10 + DigitValue(s[|s| - 1])
  }

  /** The decimal rendering of `n`, as `String(n)` and `str(n)` give it. */
  function NatToString(n: nat): (r: string)
    ensures |r| >= 1 && AllDigits(r)
    ensures |r| == 1 <==> n < 10
    decreases n
  {
    if n < 10 then [DigitChar(n)] else NatToString(n / 10) + [DigitChar(n % 10)]
  }

  /** Reading back a rendered number gives the number. */
  lemma {:induction false} NatToStringValue(n: nat)
    ensures DigitsValue(NatToString(n)) == n
    decreases n
  {
    if n >= 10 {
      var s := NatToString(n);
      assert s[..|s| - 1] == NatToString(n / 10);
      NatToStringValue(n / 10);
    }
  }

  /** Decimal rendering of an integer, with a leading minus sign. */
  function IntToString(i: int): (r: string)
    ensures i >= 0 ==> r == NatToString(i)
    ensures i < 0 ==> r == "-" + NatToString(-i)
  {
    if i < 0 then "-" + NatToString(-i) else NatToString(i)
  }

  /** The rendering reads back as the integer: digits for a non-negative
      value, a minus sign then the digits of the magnitude otherwise. */
  lemma IntToStringValue(i: int)
    ensures i >= 0 ==> AllDigits(IntToString(i)) && DigitsValue(IntToString(i)) == i
    ensures i < 0 ==> |IntToString(i)| >= 2 && IntToString(i)[0] == '-'
    ensures i < 0 ==> AllDigits(IntToString(i)[1..]) && DigitsValue(IntToString(i)[1..]) == -i
  {
    if i < 0 {
      var t := NatToString(-i);
      assert IntToString(i) == "-" + t;
      assert ("-" + t)[1..] == t;
      NatToStringValue(-i);
    } else {
      NatToStringValue(i);
    }
  }

}
